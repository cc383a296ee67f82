/**
 The merge sort as concurrent tasks over one shared array
 (hw4_simple-movies-recommendation-system/server.c:58-122 and lib.c:10-30). A task sorts the
 range [lo, hi): it either runs the library sort there, or forks two children on the halves,
 waits for both, merges into private memory and writes back. Children step in any order.
 */
module ForkJoin {
  import opened Titles
  import opened SortSpec

  datatype Task =
    | Sorting(lo: nat, hi: nat, i: nat)      // library sort that has placed [lo, i)
    | Forked(left: Task, right: Task)        // both children are running
    | Merging(lo: nat, mid: nat, hi: nat, k1: nat, k2: nat, tmp: seq<Item>)
    | Writing(lo: nat, hi: nat, tmp: seq<Item>, i: nat)  // has written back tmp[..i]
    | Finished(lo: nat, hi: nat)

  function Lo(t: Task): nat {
    match t
    case Forked(l, _) => Lo(l)
    case _ => t.lo
  }

  function Hi(t: Task): nat {
    match t
    case Forked(_, r) => Hi(r)
    case _ => t.hi
  }

  // The task `mergeSort` starts with on [lo, hi).
  function Start(d: Depth, lo: nat, hi: nat): Task
    requires lo <= hi
    decreases d
  {
    match d
    case Bottom => Sorting(lo, hi, lo)
    case Fork(e) => var mid := lo + (hi - lo) / 2; Forked(Start(e, lo, mid), Start(e, mid, hi))
  }

  // What a task relies on: its ranges fit together, and what it wrote back is in place.
  predicate Sound(t: Task, m: seq<Item>) {
    match t
    case Sorting(lo, hi, i) => lo <= i <= hi <= |m|
    case Forked(l, r) => Sound(l, m) && Sound(r, m) && Hi(l) == Lo(r)
    case Merging(lo, mid, hi, k1, k2, tmp) =>
      lo <= k1 <= mid <= k2 <= hi <= |m| && |tmp| == k1 - lo + k2 - mid
    case Writing(lo, hi, tmp, i) =>
      lo <= hi <= |m| && |tmp| == hi - lo && i <= |tmp| && m[lo..lo + i] == tmp[..i]
    case Finished(lo, hi) => lo <= hi <= |m|
  }

  // One placement of the library sort: the best of [i, hi) is swapped to `i` and decorated.
  function Place(m: seq<Item>, hi: nat, i: nat): (r: seq<Item>)
    requires i < hi <= |m|
    ensures |r| == |m|
  {
    var s := Swap(m[i..hi], ArgMax(m[i..hi], 1, 0));
    m[..i] + [Decorate(s[0])] + s[1..] + m[hi..]
  }

  // The steps a task can take on the shared array.
  ghost predicate Step(t: Task, m: seq<Item>, t': Task, m': seq<Item>)
    requires Sound(t, m)
  {
    match t
    case Sorting(lo, hi, i) =>
      if i < hi then t' == Sorting(lo, hi, i + 1) && m' == Place(m, hi, i)
      else t' == Finished(lo, hi) && m' == m
    case Forked(l, r) =>
      || (t'.Forked? && t'.right == r && Step(l, m, t'.left, m'))
      || (t'.Forked? && t'.left == l && Step(r, m, t'.right, m'))
      || (l.Finished? && r.Finished? && t' == Merging(l.lo, l.hi, r.hi, l.lo, l.hi, []) && m' == m)
    case Merging(lo, mid, hi, k1, k2, tmp) =>
      && m' == m
      && (if k1 < mid && (k2 == hi || Before(m[k1], m[k2])) then t' == Merging(lo, mid, hi, k1 + 1, k2, tmp + [m[k1]])
          else if k2 < hi then t' == Merging(lo, mid, hi, k1, k2 + 1, tmp + [m[k2]])
          else t' == Writing(lo, hi, tmp, 0))
    case Writing(lo, hi, tmp, i) =>
      if i < |tmp| then t' == Writing(lo, hi, tmp, i + 1) && m' == m[lo + i := tmp[i]]
      else t' == Finished(lo, hi) && m' == m
    case Finished(_, _) => false
  }

  // What the range of a task will hold when it has finished.
  function Outcome(t: Task, m: seq<Item>): seq<Item>
    requires Sound(t, m)
  {
    match t
    case Sorting(lo, hi, i) => m[lo..i] + LibSort(m[i..hi])
    case Forked(l, r) => Merge(Outcome(l, m), Outcome(r, m))
    case Merging(lo, mid, hi, k1, k2, tmp) => tmp + Merge(m[k1..mid], m[k2..hi])
    case Writing(lo, hi, tmp, i) => tmp
    case Finished(lo, hi) => m[lo..hi]
  }

  // Outside its own range a task neither reads nor writes.
  predicate Elsewhere(m: seq<Item>, m': seq<Item>, lo: int, hi: int) {
    |m| == |m'| && forall j | 0 <= j < |m| && !(lo <= j < hi) :: m'[j] == m[j]
  }

  lemma {:induction false} SoundRange(t: Task, m: seq<Item>)
    requires Sound(t, m)
    ensures Lo(t) <= Hi(t) <= |m|
  {
    if t.Forked? {
      SoundRange(t.left, m);
      SoundRange(t.right, m);
    }
  }

  predicate Agree(m: seq<Item>, m': seq<Item>, lo: nat, hi: nat) {
    |m'| == |m| && forall j | lo <= j < hi && j < |m| :: m'[j] == m[j]
  }

  lemma SameSlice(m: seq<Item>, m': seq<Item>, lo: nat, hi: nat, i: nat, j: nat)
    requires Agree(m, m', lo, hi) && lo <= i <= j <= hi && j <= |m|
    ensures m'[i..j] == m[i..j]
  {}

  // A task does not notice changes outside its range.
  lemma {:induction false} Undisturbed(t: Task, m: seq<Item>, m': seq<Item>)
    requires Sound(t, m) && Agree(m, m', Lo(t), Hi(t))
    ensures Sound(t, m') && Outcome(t, m') == Outcome(t, m)
  {
    match t
    case Sorting(lo, hi, i) =>
      SameSlice(m, m', lo, hi, lo, i);
      SameSlice(m, m', lo, hi, i, hi);
    case Forked(l, r) =>
      SoundRange(l, m);
      SoundRange(r, m);
      Undisturbed(l, m, m');
      Undisturbed(r, m, m');
    case Merging(lo, mid, hi, k1, k2, tmp) =>
      SameSlice(m, m', lo, hi, k1, mid);
      SameSlice(m, m', lo, hi, k2, hi);
    case Writing(lo, hi, tmp, i) => SameSlice(m, m', lo, hi, lo, lo + i);
    case Finished(lo, hi) => SameSlice(m, m', lo, hi, lo, hi);
  }

  lemma SelectPlaces(s: seq<Item>)
    requires s != []
    ensures var w := Swap(s, ArgMax(s, 1, 0)); LibSort(s) == [Decorate(w[0])] + LibSort(w[1..])
  {
    var w := Swap(s, ArgMax(s, 1, 0));
    DecorateCons(w[0], Select(w[1..]));
  }

  lemma PlaceSlices(m: seq<Item>, lo: nat, hi: nat, i: nat)
    requires lo <= i < hi <= |m|
    ensures var s := m[i..hi]; var w := Swap(s, ArgMax(s, 1, 0)); var m' := Place(m, hi, i);
            m'[lo..i + 1] == m[lo..i] + [Decorate(w[0])] && m'[i + 1..hi] == w[1..] && Elsewhere(m, m', lo, hi)
  {}

  // Placing the next item does not change what the library sort will have produced.
  lemma PlaceOutcome(m: seq<Item>, lo: nat, hi: nat, i: nat)
    requires lo <= i < hi <= |m|
    ensures var m' := Place(m, hi, i);
            Elsewhere(m, m', lo, hi) && m'[lo..i + 1] + LibSort(m'[i + 1..hi]) == m[lo..i] + LibSort(m[i..hi])
  {
    PlaceSlices(m, lo, hi, i);
    SelectPlaces(m[i..hi]);
    var w := Swap(m[i..hi], ArgMax(m[i..hi], 1, 0));
    Reassociate(m[lo..i], Decorate(w[0]), LibSort(w[1..]));
  }

  lemma Reassociate(a: seq<Item>, x: Item, b: seq<Item>)
    ensures (a + [x]) + b == a + ([x] + b)
  {}

  lemma SortingStep(t: Task, m: seq<Item>, t': Task, m': seq<Item>)
    requires t.Sorting? && Sound(t, m) && Step(t, m, t', m')
    ensures Sound(t', m') && Elsewhere(m, m', t.lo, t.hi) && Outcome(t', m') == Outcome(t, m)
  {
    var lo, hi, i := t.lo, t.hi, t.i;
    if i < hi {
      PlaceOutcome(m, lo, hi, i);
    } else {
      assert m[i..hi] == [];
      assert m[lo..i] + [] == m[lo..hi];
    }
  }

  lemma TakeFirst(tmp: seq<Item>, a: seq<Item>, b: seq<Item>)
    requires a != [] && (b == [] || Before(a[0], b[0]))
    ensures tmp + Merge(a, b) == (tmp + [a[0]]) + Merge(a[1..], b)
  {
    if b == [] { assert Merge(a, b) == [a[0]] + a[1..]; }
    assert Merge(a, b) == [a[0]] + Merge(a[1..], b);
  }

  lemma TakeSecond(tmp: seq<Item>, a: seq<Item>, b: seq<Item>)
    requires b != [] && (a == [] || !Before(a[0], b[0]))
    ensures tmp + Merge(a, b) == (tmp + [b[0]]) + Merge(a, b[1..])
  {
    if a == [] { assert Merge(a, b) == [b[0]] + b[1..]; }
    assert Merge(a, b) == [b[0]] + Merge(a, b[1..]);
  }

  lemma MergingStep(t: Task, m: seq<Item>, t': Task, m': seq<Item>)
    requires t.Merging? && Sound(t, m) && Step(t, m, t', m')
    ensures Sound(t', m') && m' == m && Outcome(t', m') == Outcome(t, m)
  {
    var a, b := m[t.k1..t.mid], m[t.k2..t.hi];
    if t.k1 < t.mid && (t.k2 == t.hi || Before(m[t.k1], m[t.k2])) {
      assert m[t.k1 + 1..t.mid] == a[1..];
      TakeFirst(t.tmp, a, b);
    } else if t.k2 < t.hi {
      assert m[t.k2 + 1..t.hi] == b[1..];
      TakeSecond(t.tmp, a, b);
    } else {
      assert a == [] && b == [];
    }
  }

  lemma WritingStep(t: Task, m: seq<Item>, t': Task, m': seq<Item>)
    requires t.Writing? && Sound(t, m) && Step(t, m, t', m')
    ensures Sound(t', m') && Elsewhere(m, m', t.lo, t.hi) && Outcome(t', m') == Outcome(t, m)
  {
    if t.i < |t.tmp| {
      assert m'[t.lo..t.lo + t.i + 1] == m[t.lo..t.lo + t.i] + [t.tmp[t.i]];
      assert t.tmp[..t.i + 1] == t.tmp[..t.i] + [t.tmp[t.i]];
    } else {
      assert t.tmp[..t.i] == t.tmp;
    }
  }

  // No step of any task in the tree changes what its range will finally hold, and none
  // touches another range: this is why the two children do not interfere.
  lemma {:induction false} StepKeeps(t: Task, m: seq<Item>, t': Task, m': seq<Item>)
    requires Sound(t, m) && Step(t, m, t', m')
    ensures Sound(t', m') && Lo(t') == Lo(t) && Hi(t') == Hi(t)
    ensures Elsewhere(m, m', Lo(t), Hi(t)) && Outcome(t', m') == Outcome(t, m)
  {
    match t
    case Sorting(_, _, _) => SortingStep(t, m, t', m');
    case Merging(_, _, _, _, _, _) => MergingStep(t, m, t', m');
    case Writing(_, _, _, _) => WritingStep(t, m, t', m');
    case Forked(l, r) =>
      SoundRange(l, m);
      SoundRange(r, m);
      if t'.Forked? && t'.right == r && Step(l, m, t'.left, m') {
        StepKeeps(l, m, t'.left, m');
        Undisturbed(r, m, m');
      } else if t'.Forked? && t'.left == l && Step(r, m, t'.right, m') {
        StepKeeps(r, m, t'.right, m');
        Undisturbed(l, m, m');
      }
  }

  lemma SubSlices(m: seq<Item>, lo: nat, mid: nat, hi: nat)
    requires lo <= mid <= hi <= |m|
    ensures m[lo..hi][..mid - lo] == m[lo..mid] && m[lo..hi][mid - lo..] == m[mid..hi]
  {}

  lemma HalfRanges(m: seq<Item>, lo: nat, hi: nat)
    requires lo <= hi <= |m|
    ensures var mid := lo + (hi - lo) / 2; Front(m[lo..hi]) == m[lo..mid] && Back(m[lo..hi]) == m[mid..hi]
  {
    SubSlices(m, lo, lo + (hi - lo) / 2, hi);
  }

  lemma ForkStart(e: Depth, lo: nat, hi: nat, m: seq<Item>)
    requires lo <= hi <= |m|
    requires var mid := lo + (hi - lo) / 2;
             && StartsWell(e, lo, mid, m) && StartsWell(e, mid, hi, m)
    ensures StartsWell(Fork(e), lo, hi, m)
  {
    HalfRanges(m, lo, hi);
  }

  predicate StartsWell(d: Depth, lo: nat, hi: nat, m: seq<Item>)
    requires lo <= hi <= |m|
  {
    var t := Start(d, lo, hi);
    Sound(t, m) && Lo(t) == lo && Hi(t) == hi && Outcome(t, m) == MergeSort(d, m[lo..hi])
  }

  lemma {:induction false} StartSound(d: Depth, lo: nat, hi: nat, m: seq<Item>)
    requires lo <= hi <= |m|
    ensures StartsWell(d, lo, hi, m)
    decreases d
  {
    match d
    case Bottom => assert m[lo..lo] == [];
    case Fork(e) =>
      var mid := lo + (hi - lo) / 2;
      StartSound(e, lo, mid, m);
      StartSound(e, mid, hi, m);
      ForkStart(e, lo, hi, m);
  }

  // Runs of a task tree, under any schedule.
  datatype Config = Config(task: Task, mem: seq<Item>)

  ghost predicate Run(run: seq<Config>) {
    && |run| > 0 && Sound(run[0].task, run[0].mem)
    && forall i | 0 <= i < |run| - 1 :: Sound(run[i].task, run[i].mem) &&
         Step(run[i].task, run[i].mem, run[i + 1].task, run[i + 1].mem)
  }

  lemma {:induction false} RunKeeps(run: seq<Config>, n: nat)
    requires Run(run) && n < |run|
    ensures var c, z := run[0], run[n];
            && Sound(z.task, z.mem) && Lo(z.task) == Lo(c.task) && Hi(z.task) == Hi(c.task)
            && Elsewhere(c.mem, z.mem, Lo(c.task), Hi(c.task)) && Outcome(z.task, z.mem) == Outcome(c.task, c.mem)
    decreases n
  {
    if n > 0 {
      RunKeeps(run, n - 1);
      var b, z := run[n - 1], run[n];
      StepKeeps(b.task, b.mem, z.task, z.mem);
    }
  }

  // Whatever the schedule, the finished task tree leaves the sorted range and nothing else.
  lemma ForkJoinSorts(d: Depth, lo: nat, hi: nat, run: seq<Config>)
    requires Run(run) && lo <= hi <= |run[0].mem| && run[0].task == Start(d, lo, hi)
    requires run[|run| - 1].task.Finished?
    ensures var m, m' := run[0].mem, run[|run| - 1].mem;
            |m'| == |m| && m' == m[..lo] + MergeSort(d, m[lo..hi]) + m[hi..]
  {
    StartSound(d, lo, hi, run[0].mem);
    RunKeeps(run, |run| - 1);
    Assembled(run[0].mem, run[|run| - 1].mem, lo, hi);
  }

  lemma Assembled(m: seq<Item>, m': seq<Item>, lo: nat, hi: nat)
    requires lo <= hi <= |m| && Elsewhere(m, m', lo, hi)
    ensures m' == m[..lo] + m'[lo..hi] + m[hi..]
  {}

  // ---------- progress ----------

  // Steps left; every step uses up exactly one.
  function Left(t: Task): nat {
    match t
    case Sorting(lo, hi, i) => if i <= hi then hi - i + 1 else 0
    case Forked(l, r) => Left(l) + Left(r) + 1 + (if Lo(l) <= Hi(r) then 2 * (Hi(r) - Lo(l)) else 0) + 2
    case Merging(lo, mid, hi, k1, k2, tmp) =>
      if lo <= k1 <= mid <= k2 <= hi then (mid - k1) + (hi - k2) + 1 + (hi - lo) + 1 else 0
    case Writing(lo, hi, tmp, i) => if i <= |tmp| then |tmp| - i + 1 else 0
    case Finished(_, _) => 0
  }

  lemma {:induction false} StepCounts(t: Task, m: seq<Item>, t': Task, m': seq<Item>)
    requires Sound(t, m) && Step(t, m, t', m')
    ensures Left(t) == Left(t') + 1
  {
    if t.Forked? {
      SoundRange(t.left, m);
      SoundRange(t.right, m);
      if t'.Forked? && t'.right == t.right && Step(t.left, m, t'.left, m') {
        StepCounts(t.left, m, t'.left, m');
        StepKeeps(t.left, m, t'.left, m');
      } else if t'.Forked? && t'.left == t.left && Step(t.right, m, t'.right, m') {
        StepCounts(t.right, m, t'.right, m');
        StepKeeps(t.right, m, t'.right, m');
      }
    }
  }

  // An unfinished task tree can always step: joins never deadlock.
  lemma {:induction false} StepExists(t: Task, m: seq<Item>) returns (t': Task, m': seq<Item>)
    requires Sound(t, m) && !t.Finished?
    ensures Step(t, m, t', m')
  {
    match t
    case Sorting(lo, hi, i) =>
      if i < hi { t', m' := Sorting(lo, hi, i + 1), Place(m, hi, i); } else { t', m' := Finished(lo, hi), m; }
    case Forked(l, r) =>
      if !l.Finished? {
        var l', n := StepExists(l, m);
        t', m' := Forked(l', r), n;
      } else if !r.Finished? {
        var r', n := StepExists(r, m);
        t', m' := Forked(l, r'), n;
      } else {
        t', m' := Merging(l.lo, l.hi, r.hi, l.lo, l.hi, []), m;
      }
    case Merging(lo, mid, hi, k1, k2, tmp) =>
      m' := m;
      if k1 < mid && (k2 == hi || Before(m[k1], m[k2])) { t' := Merging(lo, mid, hi, k1 + 1, k2, tmp + [m[k1]]); }
      else if k2 < hi { t' := Merging(lo, mid, hi, k1, k2 + 1, tmp + [m[k2]]); }
      else { t' := Writing(lo, hi, tmp, 0); }
    case Writing(lo, hi, tmp, i) =>
      if i < |tmp| { t', m' := Writing(lo, hi, tmp, i + 1), m[lo + i := tmp[i]]; }
      else { t', m' := Finished(lo, hi), m; }
  }
}
