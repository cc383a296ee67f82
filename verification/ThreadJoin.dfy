/**
 The thread merge sort on its pointer and score arrays, under every schedule
 (hw4_simple-movies-recommendation-system/server.c:58-122): each step of a thread is a step of the
 corresponding task of `ForkJoin` on the list that the pointers read.
 */
module ThreadJoin {
  import opened Titles
  import opened SortSpec
  import opened SortCode
  import FJ = ForkJoin

  // `movies` and `pts` are shared by all threads, `tmp` holds the private arrays of one thread.
  datatype Task =
    | Sorting(lo: nat, hi: nat, i: nat)
    | Forked(left: Task, right: Task)
    | Merging(lo: nat, mid: nat, hi: nat, k1: nat, k2: nat, tmp: View)
    | Writing(lo: nat, hi: nat, tmp: View, i: nat)
    | Finished(lo: nat, hi: nat)

  datatype Config = Config(task: Task, mem: View)

  // All strings are private ones: nobody overwrites a movie's title or a decorated copy.
  predicate Strings(v: View) {
    |v.ms| == |v.ps| && forall k | 0 <= k < |v.ms| :: v.ms[k].Private?
  }

  // The list behind two arrays.
  function Items(v: View): (s: seq<Item>)
    requires Strings(v)
    ensures |s| == |v.ms|
  {
    seq(|v.ms|, k requires 0 <= k < |v.ms| => Item(v.ms[k].text, v.ps[k]))
  }

  predicate Fine(t: Task) {
    match t
    case Forked(l, r) => Fine(l) && Fine(r)
    case Merging(_, _, _, _, _, tmp) => Strings(tmp)
    case Writing(_, _, tmp, _) => Strings(tmp)
    case _ => true
  }

  // The task on lists.
  function Abs(t: Task): FJ.Task
    requires Fine(t)
  {
    match t
    case Sorting(lo, hi, i) => FJ.Sorting(lo, hi, i)
    case Forked(l, r) => FJ.Forked(Abs(l), Abs(r))
    case Merging(lo, mid, hi, k1, k2, tmp) => FJ.Merging(lo, mid, hi, k1, k2, Items(tmp))
    case Writing(lo, hi, tmp, i) => FJ.Writing(lo, hi, Items(tmp), i)
    case Finished(lo, hi) => FJ.Finished(lo, hi)
  }

  function Start(d: Depth, lo: nat, hi: nat): Task
    requires lo <= hi
    decreases d
  {
    match d
    case Bottom => Task.Sorting(lo, hi, lo)
    case Fork(e) => var mid := lo + (hi - lo) / 2; Forked(Start(e, lo, mid), Start(e, mid, hi))
  }

  predicate Sound(t: Task, m: View) {
    Fine(t) && Strings(m) && FJ.Sound(Abs(t), Items(m))
  }

  function Entry(v: View, k: nat): Item
    requires k < |v.ms| && k < |v.ps| && v.ms[k].Private?
  {
    Item(v.ms[k].text, v.ps[k])
  }

  // One more pointer and score in the temporary arrays.
  function Push(tmp: View, m: View, k: nat): View
    requires k < |m.ms| && k < |m.ps|
  {
    View(tmp.ms + [m.ms[k]], tmp.ps + [m.ps[k]])
  }

  // argmax, swap and add_secret of one round.
  function Round(m: View, hi: nat, i: nat): View
    requires Strings(m) && i < hi <= |m.ms|
  {
    RoundView([], m, i, i + ArgMax(Items(m)[i..hi], 1, 0), 0)
  }

  // The next step of a thread that has no running children.
  function Next(t: Task, m: View): Config
    requires !t.Forked? && !t.Finished? && Sound(t, m)
  {
    match t
    case Sorting(lo, hi, i) =>
      if i < hi then Config(Task.Sorting(lo, hi, i + 1), Round(m, hi, i)) else Config(Finished(lo, hi), m)
    case Merging(lo, mid, hi, k1, k2, tmp) =>
      if k1 < mid && (k2 == hi || Before(Entry(m, k1), Entry(m, k2))) then
        Config(Merging(lo, mid, hi, k1 + 1, k2, Push(tmp, m, k1)), m)
      else if k2 < hi then Config(Merging(lo, mid, hi, k1, k2 + 1, Push(tmp, m, k2)), m)
      else Config(Writing(lo, hi, tmp, 0), m)
    case Writing(lo, hi, tmp, i) =>
      if i < |tmp.ms| then
        Config(Writing(lo, hi, tmp, i + 1), View(m.ms[lo + i := tmp.ms[i]], m.ps[lo + i := tmp.ps[i]]))
      else Config(Finished(lo, hi), m)
  }

  ghost predicate Step(t: Task, m: View, t': Task, m': View)
    requires Sound(t, m)
  {
    if t.Forked? then
      || (t'.Forked? && t'.right == t.right && Step(t.left, m, t'.left, m'))
      || (t'.Forked? && t'.left == t.left && Step(t.right, m, t'.right, m'))
      || (t.left.Finished? && t.right.Finished? && m' == m
          && t' == Merging(t.left.lo, t.left.hi, t.right.hi, t.left.lo, t.left.hi, View([], [])))
    else !t.Finished? && Config(t', m') == Next(t, m)
  }

  // ---------- the refinement ----------

  lemma PushItems(tmp: View, m: View, k: nat)
    requires Strings(tmp) && Strings(m) && k < |m.ms|
    ensures Strings(Push(tmp, m, k)) && Items(Push(tmp, m, k)) == Items(tmp) + [Items(m)[k]]
  {}

  // A round through the pointers places one item in the list.
  lemma RoundItems(m: View, hi: nat, i: nat)
    requires Strings(m) && i < hi <= |m.ms|
    ensures Strings(Round(m, hi, i)) && Items(Round(m, hi, i)) == FJ.Place(Items(m), hi, i)
  {
    var s := Items(m);
    var j := i + ArgMax(s[i..hi], 1, 0);
    var u := SwappedView(m, i, j, 0);
    SwapItems(m, hi, i, j);
    assert Round(m, hi, i) == View(u.ms[i := WithSecret([], u.ms[i])], u.ps);
    SecretItems(u, i);
    PlaceItems(s, Items(u), hi, i);
  }

  lemma SwapItems(m: View, hi: nat, i: nat, j: nat)
    requires Strings(m) && i <= j < hi <= |m.ms|
    ensures var u := SwappedView(m, i, j, 0); var s := Items(m);
            Strings(u) && Items(u) == s[..i] + Swap(s[i..hi], j - i) + s[hi..]
  {}

  lemma SecretItems(u: View, i: nat)
    requires Strings(u) && i < |u.ms|
    ensures var z := View(u.ms[i := WithSecret([], u.ms[i])], u.ps);
            Strings(z) && Items(z) == Items(u)[i := Decorate(Items(u)[i])]
  {}

  lemma PlaceItems(s: seq<Item>, r: seq<Item>, hi: nat, i: nat)
    requires i < hi <= |s| && r == s[..i] + Swap(s[i..hi], ArgMax(s[i..hi], 1, 0)) + s[hi..]
    ensures r[i := Decorate(r[i])] == FJ.Place(s, hi, i)
  {}

  lemma WriteItems(m: View, tmp: View, k: nat, i: nat)
    requires Strings(m) && Strings(tmp) && k < |m.ms| && i < |tmp.ms|
    ensures var z := View(m.ms[k := tmp.ms[i]], m.ps[k := tmp.ps[i]]);
            Strings(z) && Items(z) == Items(m)[k := Items(tmp)[i]]
  {}

  // A step on pointers that is one on lists.
  ghost predicate Refines(t: Task, m: View, t': Task, m': View)
    requires Sound(t, m)
  {
    Fine(t') && Strings(m') && FJ.Step(Abs(t), Items(m), Abs(t'), Items(m'))
  }

  lemma SortingRefines(t: Task, m: View, c: Config)
    requires t.Sorting? && Sound(t, m) && c == Next(t, m)
    ensures Refines(t, m, c.task, c.mem)
  {
    if t.i < t.hi { RoundItems(m, t.hi, t.i); }
  }

  lemma MergingRefines(t: Task, m: View, c: Config)
    requires t.Merging? && Sound(t, m) && c == Next(t, m)
    ensures Refines(t, m, c.task, c.mem)
  {
    if t.k1 < t.mid && (t.k2 == t.hi || Before(Entry(m, t.k1), Entry(m, t.k2))) {
      PushItems(t.tmp, m, t.k1);
    } else if t.k2 < t.hi {
      PushItems(t.tmp, m, t.k2);
    }
  }

  lemma WritingRefines(t: Task, m: View, c: Config)
    requires t.Writing? && Sound(t, m) && c == Next(t, m)
    ensures Refines(t, m, c.task, c.mem)
  {
    if t.i < |t.tmp.ms| { WriteItems(m, t.tmp, t.lo + t.i, t.i); }
  }

  // Every step of the threads is a step of the tasks on lists.
  lemma {:induction false} StepRefines(t: Task, m: View, t': Task, m': View)
    requires Sound(t, m) && Step(t, m, t', m')
    ensures Refines(t, m, t', m')
  {
    if t.Forked? {
      var l, r := t.left, t.right;
      if t'.Forked? && t'.right == r && Step(l, m, t'.left, m') {
        StepRefines(l, m, t'.left, m');
      } else if t'.Forked? && t'.left == l && Step(r, m, t'.right, m') {
        StepRefines(r, m, t'.right, m');
      } else {
        assert Items(View([], [])) == [];
      }
    } else if t.Sorting? {
      SortingRefines(t, m, Config(t', m'));
    } else if t.Merging? {
      MergingRefines(t, m, Config(t', m'));
    } else {
      WritingRefines(t, m, Config(t', m'));
    }
  }

  // ---------- progress ----------

  // The steps left are those of the task on lists.
  function Left(t: Task): nat
    requires Fine(t)
  {
    FJ.Left(Abs(t))
  }

  // Every step of a thread uses up exactly one.
  lemma StepCounts(t: Task, m: View, t': Task, m': View)
    requires Sound(t, m) && Step(t, m, t', m')
    ensures Fine(t') && Left(t) == Left(t') + 1
  {
    StepRefines(t, m, t', m');
    FJ.StepCounts(Abs(t), Items(m), Abs(t'), Items(m'));
  }

  // An unfinished tree of threads can always step: the joins never deadlock.
  lemma {:induction false} StepExists(t: Task, m: View) returns (t': Task, m': View)
    requires Sound(t, m) && !t.Finished?
    ensures Step(t, m, t', m')
  {
    if t.Forked? {
      var l, r := t.left, t.right;
      if !l.Finished? {
        var l', n := StepExists(l, m);
        t', m' := Forked(l', r), n;
      } else if !r.Finished? {
        var r', n := StepExists(r, m);
        t', m' := Forked(l, r'), n;
      } else {
        t', m' := Merging(l.lo, l.hi, r.hi, l.lo, l.hi, View([], [])), m;
      }
    } else {
      var c := Next(t, m);
      t', m' := c.task, c.mem;
    }
  }

  // ---------- runs ----------

  ghost predicate Run(run: seq<Config>) {
    && |run| > 0 && Sound(run[0].task, run[0].mem)
    && forall i | 0 <= i < |run| - 1 :: Sound(run[i].task, run[i].mem) &&
         Step(run[i].task, run[i].mem, run[i + 1].task, run[i + 1].mem)
  }

  function AbsConfig(c: Config): FJ.Config
    requires Sound(c.task, c.mem)
  {
    FJ.Config(Abs(c.task), Items(c.mem))
  }

  lemma {:induction false} RunSound(run: seq<Config>, n: nat)
    requires Run(run) && n < |run|
    ensures Sound(run[n].task, run[n].mem)
  {
    if n > 0 {
      var b, z := run[n - 1], run[n];
      StepRefines(b.task, b.mem, z.task, z.mem);
      FJ.StepKeeps(Abs(b.task), Items(b.mem), Abs(z.task), Items(z.mem));
    }
  }

  // A run of the threads is a run of the tasks on lists.
  lemma RunRefines(run: seq<Config>) returns (lists: seq<FJ.Config>)
    requires Run(run)
    ensures |lists| == |run| && FJ.Run(lists)
    ensures forall i | 0 <= i < |run| :: Sound(run[i].task, run[i].mem) && lists[i] == AbsConfig(run[i])
  {
    forall i | 0 <= i < |run| ensures Sound(run[i].task, run[i].mem) { RunSound(run, i); }
    lists := seq(|run|, i requires 0 <= i < |run| => AbsConfig(run[i]));
    forall i | 0 <= i < |run| - 1
      ensures FJ.Step(lists[i].task, lists[i].mem, lists[i + 1].task, lists[i + 1].mem)
    {
      StepRefines(run[i].task, run[i].mem, run[i + 1].task, run[i + 1].mem);
    }
  }

  lemma {:induction false} StartAbs(d: Depth, lo: nat, hi: nat)
    requires lo <= hi
    ensures Fine(Start(d, lo, hi)) && Abs(Start(d, lo, hi)) == FJ.Start(d, lo, hi)
    decreases d
  {
    if d.Fork? {
      var mid := lo + (hi - lo) / 2;
      StartAbs(d.below, lo, mid);
      StartAbs(d.below, mid, hi);
    }
  }

  // Whatever the schedule of the threads, the finished tree leaves pointers to the sorted and
  // decorated strings of its range, with their scores, and nothing else changed.
  lemma ThreadJoinSorts(d: Depth, lo: nat, hi: nat, run: seq<Config>)
    requires Run(run) && lo <= hi <= |run[0].mem.ms| && run[0].task == Start(d, lo, hi)
    requires run[|run| - 1].task.Finished?
    ensures Strings(run[0].mem) && Strings(run[|run| - 1].mem)
    ensures var s, z := Items(run[0].mem), Items(run[|run| - 1].mem);
            z == s[..lo] + MergeSort(d, s[lo..hi]) + s[hi..]
  {
    var lists := RunRefines(run);
    StartAbs(d, lo, hi);
    assert lists[0] == AbsConfig(run[0]) && lists[|run| - 1] == AbsConfig(run[|run| - 1]);
    FJ.ForkJoinSorts(d, lo, hi, lists);
  }

  // ... on all of the two arrays.
  lemma WholeSorts(d: Depth, run: seq<Config>)
    requires Run(run) && run[0].task == Start(d, 0, |run[0].mem.ms|) && run[|run| - 1].task.Finished?
    ensures Strings(run[0].mem) && Strings(run[|run| - 1].mem)
    ensures Items(run[|run| - 1].mem) == MergeSort(d, Items(run[0].mem))
  {
    var s := Items(run[0].mem);
    ThreadJoinSorts(d, 0, |s|, run);
    assert s[0..|s|] == s && s[..0] == [] && s[|s|..] == [];
  }
}
