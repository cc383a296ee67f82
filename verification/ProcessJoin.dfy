/**
 The process merge sort under every schedule
 (hw4_simple-movies-recommendation-system/server.c:180-268). Two child processes run at the same
 time on the shared string blocks and scores. A process at the bottom of the tree sorts a private
 copy of the pointers, so for a while the shared scores are in a new order and the shared strings
 still in the old one; only the final copying brings them together again.
 */
module ProcessJoin {
  import opened Titles
  import opened SortSpec
  import opened SortCode
  import FJ = ForkJoin
  import MergeCode

  // The shared store: string blocks and scores.
  type Store = Cells<Text>

  // A process. `cpy` and `tmp` are its private pointer arrays.
  datatype Task =
    | Leaf(lo: nat, hi: nat, cpy: seq<Ptr>, i: nat)    // has placed cpy[..i]
    | Forked(left: Task, right: Task)                  // both children are running
    | Copying(lo: nat, hi: nat, cpy: seq<Ptr>)         // copies the strings the children left
    | Merging(lo: nat, hi: nat, cpy: seq<Ptr>, k1: nat, k2: nat, tmp: seq<Ptr>, tps: seq<real>)
    | Storing(lo: nat, hi: nat, tmp: seq<Ptr>, tps: seq<real>, i: nat)  // has written back tmp[..i]
    | Finished(lo: nat, hi: nat)

  datatype Config = Config(task: Task, mem: Store)

  function Lo(t: Task): nat {
    match t
    case Forked(l, _) => Lo(l)
    case _ => t.lo
  }

  function Hi(t: Task): nat {
    match t
    case Forked(_, r) => Hi(r)
    case _ => t.hi
  }

  // The process that `mergeSort` starts with on [lo, hi); pointer `k` leads to block `k`.
  function Start(d: Depth, lo: nat, hi: nat): Task
    requires lo <= hi && d.Fork?
    decreases d
  {
    if d.below.Bottom? then Leaf(lo, hi, seq(hi - lo, k requires 0 <= k => Shared(lo + k)), 0)
    else Forked(Start(d.below, lo, Mid(lo, hi)), Start(d.below, Mid(lo, hi), hi))
  }

  function Mid(lo: nat, hi: nat): (mid: nat)
    requires lo <= hi
    ensures lo <= mid <= hi
  {
    lo + (hi - lo) / 2
  }

  // ---------- what a process holds ----------

  predicate Ranged(m: Store, lo: nat, hi: nat) {
    lo <= hi <= |m.ms| && hi <= |m.ps|
  }

  predicate Privates(p: seq<Ptr>) {
    forall k | 0 <= k < |p| :: p[k].Private?
  }

  // Pointers into shared memory stay in the range of their process.
  predicate Pointing(p: seq<Ptr>, lo: nat, hi: nat) {
    forall k | 0 <= k < |p| :: p[k].Shared? ==> lo <= p[k].block < hi
  }

  // The strings behind `p`, with the shared scores from `lo` on.
  function Read(m: Store, p: seq<Ptr>, lo: nat, hi: nat): (s: seq<Item>)
    requires Ranged(m, lo, hi) && |p| == hi - lo && Pointing(p, lo, hi)
    ensures |s| == |p|
  {
    seq(|p|, k requires 0 <= k < |p| => Item(Deref(m.ms, p[k]), m.ps[lo + k]))
  }

  // Private strings with private scores.
  function Texts(p: seq<Ptr>, ps: seq<real>): (s: seq<Item>)
    requires Privates(p) && |p| == |ps|
    ensures |s| == |p|
  {
    seq(|p|, k requires 0 <= k < |p| => Item(p[k].text, ps[k]))
  }

  // The shared strings and scores of a range.
  function Shown(m: Store, lo: nat, hi: nat): (s: seq<Item>)
    requires Ranged(m, lo, hi)
    ensures |s| == hi - lo
  {
    seq(hi - lo, k requires 0 <= k < hi - lo => Item(m.ms[lo + k], m.ps[lo + k]))
  }

  // What a process that has no running children relies on.
  predicate Fits(t: Task, m: Store)
    requires !t.Forked?
  {
    match t
    case Leaf(lo, hi, cpy, i) =>
      Ranged(m, lo, hi) && |cpy| == hi - lo && i <= |cpy| && Pointing(cpy, lo, hi) && Privates(cpy[..i])
    case Copying(lo, hi, cpy) =>
      Ranged(m, lo, hi) && |cpy| <= hi - lo && forall k | 0 <= k < |cpy| :: cpy[k] == Private(m.ms[lo + k])
    case Merging(lo, hi, cpy, k1, k2, tmp, tps) =>
      && Ranged(m, lo, hi) && |cpy| == hi - lo && Privates(cpy) && Privates(tmp) && |tmp| == |tps|
      && k1 <= |cpy| / 2 <= k2 <= |cpy| && |tmp| == k1 + k2 - |cpy| / 2
    case Storing(lo, hi, tmp, tps, i) =>
      && Ranged(m, lo, hi) && Privates(tmp) && |tmp| == |tps| == hi - lo && i <= |tmp|
      && forall k | 0 <= k < i :: m.ms[lo + k] == tmp[k].text && m.ps[lo + k] == tps[k]
    case Finished(lo, hi) => Ranged(m, lo, hi)
  }

  predicate Sound(t: Task, m: Store) {
    if t.Forked? then
      && Sound(t.left, m) && Sound(t.right, m) && Hi(t.left) == Lo(t.right)
      && Hi(t.left) - Lo(t.left) == (Hi(t.right) - Lo(t.left)) / 2
    else Fits(t, m)
  }

  // One placement of the library sort on the pointer copy and the shared scores.
  function LeafRound(m: Store, p: seq<Ptr>, lo: nat, hi: nat, i: nat): View
    requires Ranged(m, lo, hi) && |p| == hi - lo && Pointing(p, lo, hi) && i < |p|
  {
    var s, end := Read(m, p, lo, hi), End(i, |p|);
    var j := i + ArgMax(s[i..end], 1, 0);
    RoundView(m.ms, View(p, m.ps), i, j, lo)
  }

  // The library sorts the first half, then the second.
  function End(i: nat, n: nat): (e: nat)
    requires i < n
    ensures i < e <= n
  {
    if i < n / 2 then n / 2 else n
  }

  // The next step of a process that has no running children.
  function Next(t: Task, m: Store): Config
    requires !t.Forked? && !t.Finished? && Fits(t, m)
  {
    match t
    case Leaf(lo, hi, cpy, i) =>
      if i < |cpy| then
        var z := LeafRound(m, cpy, lo, hi, i); Config(Leaf(lo, hi, z.ms, i + 1), View(m.ms, z.ps))
      else Config(Merging(lo, hi, cpy, 0, |cpy| / 2, [], []), m)
    case Copying(lo, hi, cpy) =>
      if |cpy| < hi - lo then Config(Copying(lo, hi, cpy + [Private(m.ms[lo + |cpy|])]), m)
      else Config(Merging(lo, hi, cpy, 0, |cpy| / 2, [], []), m)
    case Merging(lo, hi, cpy, k1, k2, tmp, tps) =>
      if k1 < |cpy| / 2 && (k2 == |cpy| || First(m, cpy, lo, k1, k2)) then
        Config(Merging(lo, hi, cpy, k1 + 1, k2, tmp + [cpy[k1]], tps + [m.ps[lo + k1]]), m)
      else if k2 < |cpy| then
        Config(Merging(lo, hi, cpy, k1, k2 + 1, tmp + [cpy[k2]], tps + [m.ps[lo + k2]]), m)
      else Config(Storing(lo, hi, tmp, tps, 0), m)
    case Storing(lo, hi, tmp, tps, i) =>
      if i < |tmp| then
        Config(Storing(lo, hi, tmp, tps, i + 1),
               View(m.ms[lo + i := Deref(m.ms, tmp[i])], m.ps[lo + i := tps[i]]))
      else Config(Finished(lo, hi), m)
  }

  // A step of some process in the tree.
  ghost predicate Step(t: Task, m: Store, t': Task, m': Store)
    requires Sound(t, m)
  {
    if t.Forked? then
      || (t'.Forked? && t'.right == t.right && Step(t.left, m, t'.left, m'))
      || (t'.Forked? && t'.left == t.left && Step(t.right, m, t'.right, m'))
      || (t.left.Finished? && t.right.Finished? && t' == Copying(t.left.lo, t.right.hi, []) && m' == m)
    else !t.Finished? && Config(t', m') == Next(t, m)
  }

  // The comparison of the merging loop, on the copied strings and the shared scores.
  predicate First(m: Store, cpy: seq<Ptr>, lo: nat, k1: nat, k2: nat)
    requires k1 < |cpy| && k2 < |cpy| && Privates(cpy) && lo + |cpy| <= |m.ps|
  {
    Before(Item(cpy[k1].text, m.ps[lo + k1]), Item(cpy[k2].text, m.ps[lo + k2]))
  }

  // What the library sorts of a bottom process will have made of `s`, of which `i` are placed.
  function LeafOutcome(s: seq<Item>, i: nat): (r: seq<Item>)
    requires i <= |s|
    ensures |r| == |s|
  {
    var n := |s| / 2;
    if i <= n then Merge(s[..i] + LibSort(s[i..n]), LibSort(s[n..]))
    else Merge(s[..n], s[n..i] + LibSort(s[i..]))
  }

  // What the range of a process will hold when it has finished.
  function OwnOutcome(t: Task, m: Store): seq<Item>
    requires !t.Forked? && Fits(t, m)
  {
    match t
    case Leaf(lo, hi, cpy, i) => LeafOutcome(Read(m, cpy, lo, hi), i)
    case Copying(lo, hi, cpy) => Merge(Front(Shown(m, lo, hi)), Back(Shown(m, lo, hi)))
    case Merging(lo, hi, cpy, k1, k2, tmp, tps) =>
      var s := Read(m, cpy, lo, hi);
      Texts(tmp, tps) + Merge(s[k1..|s| / 2], s[k2..])
    case Storing(lo, hi, tmp, tps, i) => Texts(tmp, tps)
    case Finished(lo, hi) => Shown(m, lo, hi)
  }

  function Outcome(t: Task, m: Store): seq<Item>
    requires Sound(t, m)
  {
    if t.Forked? then Merge(Outcome(t.left, m), Outcome(t.right, m)) else OwnOutcome(t, m)
  }

  // ---------- a process and the others ----------

  lemma {:induction false} SoundRange(t: Task, m: Store)
    requires Sound(t, m)
    ensures Lo(t) <= Hi(t) && Ranged(m, Lo(t), Hi(t))
  {
    if t.Forked? {
      SoundRange(t.left, m);
      SoundRange(t.right, m);
    }
  }

  predicate Agree(m: Store, m': Store, lo: nat, hi: nat) {
    && |m'.ms| == |m.ms| && |m'.ps| == |m.ps|
    && (forall k | lo <= k < hi && k < |m.ms| :: m'.ms[k] == m.ms[k])
    && (forall k | lo <= k < hi && k < |m.ps| :: m'.ps[k] == m.ps[k])
  }

  lemma SameRead(m: Store, m': Store, p: seq<Ptr>, lo: nat, hi: nat)
    requires Ranged(m, lo, hi) && |p| == hi - lo && Pointing(p, lo, hi) && Agree(m, m', lo, hi)
    ensures Read(m', p, lo, hi) == Read(m, p, lo, hi)
  {}

  lemma SameShown(m: Store, m': Store, lo: nat, hi: nat)
    requires Ranged(m, lo, hi) && Agree(m, m', lo, hi)
    ensures Shown(m', lo, hi) == Shown(m, lo, hi)
  {}

  lemma OwnUndisturbed(t: Task, m: Store, m': Store)
    requires !t.Forked? && Fits(t, m) && Agree(m, m', t.lo, t.hi)
    ensures Fits(t, m') && OwnOutcome(t, m') == OwnOutcome(t, m)
  {
    match t
    case Leaf(lo, hi, cpy, i) => SameRead(m, m', cpy, lo, hi);
    case Copying(lo, hi, cpy) => SameShown(m, m', lo, hi);
    case Merging(lo, hi, cpy, k1, k2, tmp, tps) => SameRead(m, m', cpy, lo, hi);
    case Storing(lo, hi, tmp, tps, i) =>
    case Finished(lo, hi) => SameShown(m, m', lo, hi);
  }

  // A process does not notice what others do outside its range.
  lemma {:induction false} Undisturbed(t: Task, m: Store, m': Store)
    requires Sound(t, m) && Agree(m, m', Lo(t), Hi(t))
    ensures Sound(t, m') && Outcome(t, m') == Outcome(t, m)
  {
    if t.Forked? {
      SoundRange(t.left, m);
      SoundRange(t.right, m);
      Undisturbed(t.left, m, m');
      Undisturbed(t.right, m, m');
    } else {
      OwnUndisturbed(t, m, m');
    }
  }

  // ---------- steps ----------

  // Placing one item through the pointers is placing it in the list they read.
  lemma LeafRoundReads(m: Store, p: seq<Ptr>, lo: nat, hi: nat, i: nat)
    requires Ranged(m, lo, hi) && |p| == hi - lo && Pointing(p, lo, hi) && i < |p|
    ensures var z := LeafRound(m, p, lo, hi, i);
            && |z.ms| == |p| && |z.ps| == |m.ps| && Pointing(z.ms, lo, hi) && z.ms[i].Private?
            && (forall k | 0 <= k < i :: z.ms[k] == p[k])
            && Only(m, View(m.ms, z.ps), lo, hi, 0)
            && Read(View(m.ms, z.ps), z.ms, lo, hi) == FJ.Place(Read(m, p, lo, hi), End(i, |p|), i)
  {
    var s, end, z := Read(m, p, lo, hi), End(i, |p|), LeafRound(m, p, lo, hi, i);
    var j := i + ArgMax(s[i..end], 1, 0);
    var u := SwappedView(View(p, m.ps), i, j, lo);
    assert z == View(u.ms[i := WithSecret(m.ms, u.ms[i])], u.ps);
    SwappedReads(m, p, lo, hi, i, j, end);
    PlacedReads(m, u, z, lo, hi, i, s, j, end);
  }

  // The list read after a swap.
  lemma SwappedReads(m: Store, p: seq<Ptr>, lo: nat, hi: nat, i: nat, j: nat, end: nat)
    requires Ranged(m, lo, hi) && |p| == hi - lo && Pointing(p, lo, hi) && i <= j < end <= |p|
    ensures var u := SwappedView(View(p, m.ps), i, j, lo); var s := Read(m, p, lo, hi);
            && Pointing(u.ms, lo, hi) && Only(m, View(m.ms, u.ps), lo, hi, 0)
            && Read(View(m.ms, u.ps), u.ms, lo, hi) == s[..i] + Swap(s[i..end], j - i) + s[end..]
  {
    var u := SwappedView(View(p, m.ps), i, j, lo);
    var s := Read(m, p, lo, hi);
    var w := Swap(s[i..end], j - i);
    forall k | 0 <= k < |p| ensures Read(View(m.ms, u.ps), u.ms, lo, hi)[k] == (s[..i] + w + s[end..])[k] {
      assert Read(m, p, lo, hi)[k] == Item(Deref(m.ms, p[k]), m.ps[lo + k]);
    }
  }

  lemma PlacedReads(m: Store, u: View, z: View, lo: nat, hi: nat, i: nat, s: seq<Item>, j: nat, end: nat)
    requires Ranged(m, lo, hi) && |u.ms| == hi - lo && |u.ps| == |m.ps| && Pointing(u.ms, lo, hi)
    requires i <= j < end <= |s| == |u.ms| && j - i == ArgMax(s[i..end], 1, 0)
    requires z == View(u.ms[i := WithSecret(m.ms, u.ms[i])], u.ps)
    requires Read(View(m.ms, u.ps), u.ms, lo, hi) == s[..i] + Swap(s[i..end], j - i) + s[end..]
    ensures Pointing(z.ms, lo, hi) && Read(View(m.ms, z.ps), z.ms, lo, hi) == FJ.Place(s, end, i)
  {
    var w := Swap(s[i..end], j - i);
    var r := Read(View(m.ms, u.ps), u.ms, lo, hi);
    assert r[i] == w[0];
    assert Read(View(m.ms, z.ps), z.ms, lo, hi) == r[i := Decorate(w[0])];
    assert r[i := Decorate(w[0])] == s[..i] + [Decorate(w[0])] + w[1..] + s[end..];
  }

  // A placement does not change what the two library sorts will have produced.
  lemma LeafPlaced(s: seq<Item>, i: nat)
    requires i < |s|
    ensures LeafOutcome(FJ.Place(s, End(i, |s|), i), i + 1) == LeafOutcome(s, i)
  {
    var n, end := |s| / 2, End(i, |s|);
    var z := FJ.Place(s, end, i);
    if i < n {
      FJ.PlaceOutcome(s, 0, n, i);
      assert z[n..] == s[n..] && z[0..i + 1] == z[..i + 1] && s[0..i] == s[..i];
    } else {
      FJ.PlaceOutcome(s, n, |s|, i);
      assert z[..n] == s[..n] && z[i + 1..|s|] == z[i + 1..] && s[i..|s|] == s[i..];
      if i == n { HalfPlaced(s); }
    }
  }

  // When the first half is placed, the second one begins.
  lemma HalfPlaced(s: seq<Item>)
    ensures var n := |s| / 2; LeafOutcome(s, n) == Merge(s[..n], s[n..n] + LibSort(s[n..]))
  {
    var n := |s| / 2;
    assert s[n..n] == [] && s[..n] + LibSort([]) == s[..n];
    assert [] + LibSort(s[n..]) == LibSort(s[n..]);
  }

  // A step keeps what its process will leave, and stays in the process's range.
  ghost predicate Kept(t: Task, m: Store, c: Config)
    requires !t.Forked? && Fits(t, m)
  {
    && !c.task.Forked? && c.task.lo == t.lo && c.task.hi == t.hi && Fits(c.task, c.mem)
    && Only(m, c.mem, t.lo, t.hi, 0) && OwnOutcome(c.task, c.mem) == OwnOutcome(t, m)
  }

  lemma LeafPlaces(t: Task, m: Store) returns (c: Config)
    requires t.Leaf? && Fits(t, m) && t.i < |t.cpy|
    ensures c == Next(t, m) && Kept(t, m, c)
  {
    var z := LeafRound(m, t.cpy, t.lo, t.hi, t.i);
    LeafRoundReads(m, t.cpy, t.lo, t.hi, t.i);
    LeafKept(t, m, z.ms, View(m.ms, z.ps));
    c := Config(Leaf(t.lo, t.hi, z.ms, t.i + 1), View(m.ms, z.ps));
  }

  lemma LeafKept(t: Task, m: Store, p: seq<Ptr>, m': Store)
    requires t.Leaf? && Fits(t, m) && t.i < |t.cpy| == |p| && Pointing(p, t.lo, t.hi) && p[t.i].Private?
    requires forall k | 0 <= k < t.i :: p[k] == t.cpy[k]
    requires Only(m, m', t.lo, t.hi, 0)
    requires Read(m', p, t.lo, t.hi) == FJ.Place(Read(m, t.cpy, t.lo, t.hi), End(t.i, |p|), t.i)
    ensures Kept(t, m, Config(Leaf(t.lo, t.hi, p, t.i + 1), m'))
  {
    PrivateMore(t.cpy, p, t.i);
    LeafPlacedAs(Read(m, t.cpy, t.lo, t.hi), Read(m', p, t.lo, t.hi), t.i);
  }

  lemma LeafPlacedAs(s: seq<Item>, z: seq<Item>, i: nat)
    requires i < |s| && z == FJ.Place(s, End(i, |s|), i)
    ensures LeafOutcome(z, i + 1) == LeafOutcome(s, i)
  {
    LeafPlaced(s, i);
  }

  lemma PrivateMore(p: seq<Ptr>, z: seq<Ptr>, i: nat)
    requires i < |p| == |z| && Privates(p[..i]) && z[i].Private? && forall k | 0 <= k < i :: z[k] == p[k]
    ensures Privates(z[..i + 1])
  {
    assert z[..i + 1] == p[..i] + [z[i]];
  }

  lemma LeafMerges(t: Task, m: Store) returns (c: Config)
    requires t.Leaf? && Fits(t, m) && t.i == |t.cpy|
    ensures c == Next(t, m) && Kept(t, m, c)
  {
    assert t.cpy[..t.i] == t.cpy;
    LeafDone(Read(m, t.cpy, t.lo, t.hi));
    MergeStarts(Read(m, t.cpy, t.lo, t.hi));
    c := Config(Merging(t.lo, t.hi, t.cpy, 0, |t.cpy| / 2, [], []), m);
  }

  // Before the first item is out, all is left to merge.
  lemma MergeStarts(s: seq<Item>)
    ensures Texts([], []) + Merge(s[0..|s| / 2], s[|s| / 2..]) == Merge(Front(s), Back(s))
  {
    assert s[0..|s| / 2] == Front(s) && Texts([], []) == [];
  }

  lemma LeafDone(s: seq<Item>)
    ensures LeafOutcome(s, |s|) == Merge(s[..|s| / 2], s[|s| / 2..])
  {
    var n := |s| / 2;
    if |s| == 0 {
      assert s == [];
    } else {
      assert s[n..|s|] + LibSort(s[|s|..]) == s[n..];
    }
  }

  lemma CopyingKeeps(t: Task, m: Store) returns (c: Config)
    requires t.Copying? && Fits(t, m)
    ensures c == Next(t, m) && Kept(t, m, c)
  {
    if |t.cpy| == t.hi - t.lo {
      assert Read(m, t.cpy, t.lo, t.hi) == Shown(m, t.lo, t.hi);
      MergeStarts(Shown(m, t.lo, t.hi));
    }
    c := Next(t, m);
  }

  lemma TextsMore(tmp: seq<Ptr>, tps: seq<real>, p: Ptr, score: real)
    requires Privates(tmp) && |tmp| == |tps| && p.Private?
    ensures Privates(tmp + [p]) && Texts(tmp + [p], tps + [score]) == Texts(tmp, tps) + [Item(p.text, score)]
  {}

  // The merging loop takes the next item of the first half, or of the second one.
  lemma TakesLeft(out: seq<Item>, s: seq<Item>, n: nat, k1: nat, k2: nat)
    requires k1 < n <= k2 <= |s| && (k2 == |s| || Before(s[k1], s[k2]))
    ensures out + Merge(s[k1..n], s[k2..]) == (out + [s[k1]]) + Merge(s[k1 + 1..n], s[k2..])
  {
    var a, b := s[k1..n], s[k2..];
    assert a[0] == s[k1] && s[k1 + 1..n] == a[1..] && (b != [] ==> b[0] == s[k2]);
    FJ.TakeFirst(out, a, b);
  }

  lemma TakesRight(out: seq<Item>, s: seq<Item>, n: nat, k1: nat, k2: nat)
    requires k1 <= n <= k2 < |s| && (k1 == n || !Before(s[k1], s[k2]))
    ensures out + Merge(s[k1..n], s[k2..]) == (out + [s[k2]]) + Merge(s[k1..n], s[k2 + 1..])
  {
    var a, b := s[k1..n], s[k2..];
    assert b[0] == s[k2] && s[k2 + 1..] == b[1..] && (a != [] ==> a[0] == s[k1]);
    FJ.TakeSecond(out, a, b);
  }

  lemma ReadAt(m: Store, p: seq<Ptr>, lo: nat, hi: nat, k: nat)
    requires Ranged(m, lo, hi) && |p| == hi - lo && Privates(p) && k < |p|
    ensures Read(m, p, lo, hi)[k] == Item(p[k].text, m.ps[lo + k])
  {}

  // A longer output and less to merge, with the same list in the end.
  lemma MergingKept(t: Task, m: Store, k1: nat, k2: nat, tmp: seq<Ptr>, tps: seq<real>, s: seq<Item>)
    requires t.Merging? && Fits(t, m) && s == Read(m, t.cpy, t.lo, t.hi)
    requires Privates(tmp) && |tmp| == |tps| == k1 + k2 - |s| / 2 && k1 <= |s| / 2 <= k2 <= |s|
    requires Texts(tmp, tps) + Merge(s[k1..|s| / 2], s[k2..])
          == Texts(t.tmp, t.tps) + Merge(s[t.k1..|s| / 2], s[t.k2..])
    ensures Kept(t, m, Config(Merging(t.lo, t.hi, t.cpy, k1, k2, tmp, tps), m))
  {}

  lemma TextLeft(tmp: seq<Ptr>, tps: seq<real>, p: Ptr, x: Item, s: seq<Item>, k1: nat, k2: nat)
    requires Privates(tmp) && |tmp| == |tps| && p == Private(x.title) && k1 < |s| / 2 <= k2 <= |s| && x == s[k1]
    requires k2 == |s| || Before(s[k1], s[k2])
    ensures Privates(tmp + [p])
    ensures Texts(tmp + [p], tps + [x.score]) + Merge(s[k1 + 1..|s| / 2], s[k2..])
         == Texts(tmp, tps) + Merge(s[k1..|s| / 2], s[k2..])
  {
    TextsMore(tmp, tps, p, x.score);
    TakesLeft(Texts(tmp, tps), s, |s| / 2, k1, k2);
  }

  lemma TextRight(tmp: seq<Ptr>, tps: seq<real>, p: Ptr, x: Item, s: seq<Item>, k1: nat, k2: nat)
    requires Privates(tmp) && |tmp| == |tps| && p == Private(x.title) && k1 <= |s| / 2 <= k2 < |s| && x == s[k2]
    requires k1 == |s| / 2 || !Before(s[k1], s[k2])
    ensures Privates(tmp + [p])
    ensures Texts(tmp + [p], tps + [x.score]) + Merge(s[k1..|s| / 2], s[k2 + 1..])
         == Texts(tmp, tps) + Merge(s[k1..|s| / 2], s[k2..])
  {
    TextsMore(tmp, tps, p, x.score);
    TakesRight(Texts(tmp, tps), s, |s| / 2, k1, k2);
  }

  // The comparison is the one of the items that are read.
  lemma FirstReads(m: Store, p: seq<Ptr>, lo: nat, hi: nat, k1: nat, k2: nat, x: Item, y: Item)
    requires Ranged(m, lo, hi) && |p| == hi - lo && Privates(p) && k1 < |p| && k2 < |p|
    requires x == Read(m, p, lo, hi)[k1] && y == Read(m, p, lo, hi)[k2]
    ensures First(m, p, lo, k1, k2) == Before(x, y)
    ensures p[k1] == Private(x.title) && m.ps[lo + k1] == x.score
    ensures p[k2] == Private(y.title) && m.ps[lo + k2] == y.score
  {}

  lemma LeftTexts(t: Task, m: Store, s: seq<Item>)
    requires t.Merging? && Fits(t, m) && s == Read(m, t.cpy, t.lo, t.hi)
    requires t.k1 < |t.cpy| / 2 && (t.k2 == |t.cpy| || First(m, t.cpy, t.lo, t.k1, t.k2))
    ensures Privates(t.tmp + [t.cpy[t.k1]])
    ensures Texts(t.tmp + [t.cpy[t.k1]], t.tps + [m.ps[t.lo + t.k1]]) + Merge(s[t.k1 + 1..|s| / 2], s[t.k2..])
         == Texts(t.tmp, t.tps) + Merge(s[t.k1..|s| / 2], s[t.k2..])
  {
    ReadAt(m, t.cpy, t.lo, t.hi, t.k1);
    if t.k2 < |t.cpy| { FirstReads(m, t.cpy, t.lo, t.hi, t.k1, t.k2, s[t.k1], s[t.k2]); }
    var x := s[t.k1];
    assert m.ps[t.lo + t.k1] == x.score;
    TextLeft(t.tmp, t.tps, t.cpy[t.k1], x, s, t.k1, t.k2);
  }

  lemma RightTexts(t: Task, m: Store, s: seq<Item>)
    requires t.Merging? && Fits(t, m) && s == Read(m, t.cpy, t.lo, t.hi)
    requires t.k2 < |t.cpy| && (t.k1 == |t.cpy| / 2 || !First(m, t.cpy, t.lo, t.k1, t.k2))
    ensures Privates(t.tmp + [t.cpy[t.k2]])
    ensures Texts(t.tmp + [t.cpy[t.k2]], t.tps + [m.ps[t.lo + t.k2]]) + Merge(s[t.k1..|s| / 2], s[t.k2 + 1..])
         == Texts(t.tmp, t.tps) + Merge(s[t.k1..|s| / 2], s[t.k2..])
  {
    FirstReads(m, t.cpy, t.lo, t.hi, t.k1, t.k2, s[t.k1], s[t.k2]);
    var x := s[t.k2];
    assert m.ps[t.lo + t.k2] == x.score;
    TextRight(t.tmp, t.tps, t.cpy[t.k2], x, s, t.k1, t.k2);
  }

  lemma LeftKept(t: Task, m: Store, tmp: seq<Ptr>, tps: seq<real>)
    requires t.Merging? && Fits(t, m) && t.k1 < |t.cpy| / 2 && (t.k2 == |t.cpy| || First(m, t.cpy, t.lo, t.k1, t.k2))
    requires tmp == t.tmp + [t.cpy[t.k1]] && tps == t.tps + [m.ps[t.lo + t.k1]]
    ensures Kept(t, m, Config(Merging(t.lo, t.hi, t.cpy, t.k1 + 1, t.k2, tmp, tps), m))
  {
    var s := Read(m, t.cpy, t.lo, t.hi);
    LeftTexts(t, m, s);
    MergingKept(t, m, t.k1 + 1, t.k2, tmp, tps, s);
  }

  lemma MergesLeft(t: Task, m: Store) returns (c: Config)
    requires t.Merging? && Fits(t, m)
    requires t.k1 < |t.cpy| / 2 && (t.k2 == |t.cpy| || First(m, t.cpy, t.lo, t.k1, t.k2))
    ensures c == Next(t, m) && Kept(t, m, c)
  {
    LeftKept(t, m, t.tmp + [t.cpy[t.k1]], t.tps + [m.ps[t.lo + t.k1]]);
    c := Config(Merging(t.lo, t.hi, t.cpy, t.k1 + 1, t.k2, t.tmp + [t.cpy[t.k1]], t.tps + [m.ps[t.lo + t.k1]]), m);
  }

  lemma RightKept(t: Task, m: Store, tmp: seq<Ptr>, tps: seq<real>)
    requires t.Merging? && Fits(t, m) && t.k2 < |t.cpy| && (t.k1 == |t.cpy| / 2 || !First(m, t.cpy, t.lo, t.k1, t.k2))
    requires tmp == t.tmp + [t.cpy[t.k2]] && tps == t.tps + [m.ps[t.lo + t.k2]]
    ensures Kept(t, m, Config(Merging(t.lo, t.hi, t.cpy, t.k1, t.k2 + 1, tmp, tps), m))
  {
    var s := Read(m, t.cpy, t.lo, t.hi);
    RightTexts(t, m, s);
    MergingKept(t, m, t.k1, t.k2 + 1, tmp, tps, s);
  }

  lemma MergesRight(t: Task, m: Store) returns (c: Config)
    requires t.Merging? && Fits(t, m)
    requires t.k2 < |t.cpy| && (t.k1 == |t.cpy| / 2 || !First(m, t.cpy, t.lo, t.k1, t.k2))
    ensures c == Next(t, m) && Kept(t, m, c)
  {
    RightKept(t, m, t.tmp + [t.cpy[t.k2]], t.tps + [m.ps[t.lo + t.k2]]);
    c := Config(Merging(t.lo, t.hi, t.cpy, t.k1, t.k2 + 1, t.tmp + [t.cpy[t.k2]], t.tps + [m.ps[t.lo + t.k2]]), m);
  }

  lemma MergeStores(t: Task, m: Store) returns (c: Config)
    requires t.Merging? && Fits(t, m) && t.k1 == |t.cpy| / 2 && t.k2 == |t.cpy|
    ensures c == Next(t, m) && Kept(t, m, c)
  {
    var s := Read(m, t.cpy, t.lo, t.hi);
    assert s[t.k1..|s| / 2] == [] && s[t.k2..] == [] && Texts(t.tmp, t.tps) + [] == Texts(t.tmp, t.tps);
    c := Config(Storing(t.lo, t.hi, t.tmp, t.tps, 0), m);
  }

  lemma StoringKeeps(t: Task, m: Store) returns (c: Config)
    requires t.Storing? && Fits(t, m)
    ensures c == Next(t, m) && Kept(t, m, c)
  {
    if t.i == |t.tmp| { assert Shown(m, t.lo, t.hi) == Texts(t.tmp, t.tps); }
    c := Next(t, m);
  }

  lemma MergingKeeps(t: Task, m: Store) returns (c: Config)
    requires t.Merging? && Fits(t, m)
    ensures c == Next(t, m) && Kept(t, m, c)
  {
    if t.k1 < |t.cpy| / 2 && (t.k2 == |t.cpy| || First(m, t.cpy, t.lo, t.k1, t.k2)) {
      c := MergesLeft(t, m);
    } else if t.k2 < |t.cpy| {
      c := MergesRight(t, m);
    } else {
      c := MergeStores(t, m);
    }
  }

  lemma OwnStepKeeps(t: Task, m: Store) returns (c: Config)
    requires !t.Forked? && !t.Finished? && Fits(t, m)
    ensures c == Next(t, m) && Kept(t, m, c)
  {
    match t
    case Leaf(_, _, _, _) => if t.i < |t.cpy| { c := LeafPlaces(t, m); } else { c := LeafMerges(t, m); }
    case Copying(_, _, _) => c := CopyingKeeps(t, m);
    case Merging(_, _, _, _, _, _, _) => c := MergingKeeps(t, m);
    case Storing(_, _, _, _, _) => c := StoringKeeps(t, m);
  }

  lemma JoinStep(l: Task, r: Task, m: Store)
    requires l.Finished? && r.Finished? && Sound(Forked(l, r), m)
    ensures Sound(Copying(l.lo, r.hi, []), m)
    ensures Outcome(Copying(l.lo, r.hi, []), m) == Outcome(Forked(l, r), m)
  {
    var s := Shown(m, l.lo, r.hi);
    assert Front(s) == Shown(m, l.lo, l.hi) && Back(s) == Shown(m, r.lo, r.hi);
  }

  lemma OnlyAgree(m: Store, m': Store, lo: nat, hi: nat, from: nat, upto: nat)
    requires Only(m, m', lo, hi, 0) && (hi <= from || upto <= lo)
    ensures Agree(m, m', from, upto)
  {}

  lemma OnlyWider(m: Store, m': Store, lo: nat, hi: nat, from: nat, upto: nat)
    requires Only(m, m', lo, hi, 0) && from <= lo && hi <= upto
    ensures Only(m, m', from, upto, 0)
  {}

  // No step of any process in the tree changes what its range will finally hold, and none
  // touches another range: the children do not interfere, although their scores and strings
  // are apart for a while.
  lemma {:induction false} StepKeeps(t: Task, m: Store, t': Task, m': Store)
    requires Sound(t, m) && Step(t, m, t', m')
    ensures Sound(t', m') && Lo(t') == Lo(t) && Hi(t') == Hi(t)
    ensures Only(m, m', Lo(t), Hi(t), 0) && Outcome(t', m') == Outcome(t, m)
  {
    if t.Forked? {
      var l, r := t.left, t.right;
      SoundRange(l, m);
      SoundRange(r, m);
      if t'.Forked? && t'.right == r && Step(l, m, t'.left, m') {
        StepKeeps(l, m, t'.left, m');
        OnlyAgree(m, m', Lo(l), Hi(l), Lo(r), Hi(r));
        OnlyWider(m, m', Lo(l), Hi(l), Lo(l), Hi(r));
        Undisturbed(r, m, m');
      } else if t'.Forked? && t'.left == l && Step(r, m, t'.right, m') {
        StepKeeps(r, m, t'.right, m');
        OnlyAgree(m, m', Lo(r), Hi(r), Lo(l), Hi(l));
        OnlyWider(m, m', Lo(r), Hi(r), Lo(l), Hi(r));
        Undisturbed(l, m, m');
      } else {
        JoinStep(l, r, m);
      }
    } else {
      var c := OwnStepKeeps(t, m);
    }
  }

  // ---------- runs ----------

  // Process `t` is about to leave the merge sort of [lo, hi).
  predicate Sorting(t: Task, d: Depth, lo: nat, hi: nat, m: Store)
    requires Ranged(m, lo, hi)
  {
    Sound(t, m) && Lo(t) == lo && Hi(t) == hi && Outcome(t, m) == MergeSort(d, Shown(m, lo, hi))
  }

  lemma LeafStarts(lo: nat, hi: nat, m: Store)
    requires Ranged(m, lo, hi)
    ensures Sorting(Start(Fork(Bottom), lo, hi), Fork(Bottom), lo, hi, m)
  {
    var t := Start(Fork(Bottom), lo, hi);
    var s := Shown(m, lo, hi);
    assert Read(m, t.cpy, lo, hi) == s;
    LeafBegins(s);
  }

  lemma LeafBegins(s: seq<Item>)
    ensures LeafOutcome(s, 0) == MergeSort(Fork(Bottom), s)
  {
    assert s[..0] + LibSort(s[0..|s| / 2]) == LibSort(Front(s));
  }

  // Two children that fit together.
  lemma Together(l: Task, r: Task, m: Store)
    requires Sound(l, m) && Sound(r, m) && Hi(l) == Lo(r) && Hi(l) - Lo(l) == (Hi(r) - Lo(l)) / 2
    ensures Sound(Forked(l, r), m) && Outcome(Forked(l, r), m) == Merge(Outcome(l, m), Outcome(r, m))
    ensures Lo(Forked(l, r)) == Lo(l) && Hi(Forked(l, r)) == Hi(r)
  {}

  lemma ShownHalves(m: Store, lo: nat, hi: nat)
    requires Ranged(m, lo, hi)
    ensures Front(Shown(m, lo, hi)) == Shown(m, lo, Mid(lo, hi)) && Back(Shown(m, lo, hi)) == Shown(m, Mid(lo, hi), hi)
  {}

  lemma ForkMerges(e: Depth, lo: nat, hi: nat, m: Store, a: seq<Item>, b: seq<Item>)
    requires Ranged(m, lo, hi)
    requires a == MergeSort(e, Shown(m, lo, Mid(lo, hi))) && b == MergeSort(e, Shown(m, Mid(lo, hi), hi))
    ensures Merge(a, b) == MergeSort(Fork(e), Shown(m, lo, hi))
  {
    ShownHalves(m, lo, hi);
  }

  lemma ForkStarts(e: Depth, lo: nat, hi: nat, m: Store, l: Task, r: Task)
    requires Ranged(m, lo, hi)
    requires Sorting(l, e, lo, Mid(lo, hi), m) && Sorting(r, e, Mid(lo, hi), hi, m)
    ensures Sorting(Forked(l, r), Fork(e), lo, hi, m)
  {
    Together(l, r, m);
    ForkMerges(e, lo, hi, m, Outcome(l, m), Outcome(r, m));
  }

  lemma StartForked(d: Depth, lo: nat, hi: nat, l: Task, r: Task)
    requires d.Fork? && d.below.Fork? && lo <= hi
    requires l == Start(d.below, lo, Mid(lo, hi)) && r == Start(d.below, Mid(lo, hi), hi)
    ensures Start(d, lo, hi) == Forked(l, r)
  {}

  lemma {:induction false} StartSound(d: Depth, lo: nat, hi: nat, m: Store) returns (t: Task)
    requires d.Fork? && Ranged(m, lo, hi)
    ensures t == Start(d, lo, hi)
    ensures Sorting(t, d, lo, hi, m)
    decreases d
  {
    if d.below.Bottom? {
      t := Start(d, lo, hi);
      LeafStarts(lo, hi, m);
    } else {
      var mid := Mid(lo, hi);
      var l := StartSound(d.below, lo, mid, m);
      var r := StartSound(d.below, mid, hi, m);
      ForkStarts(d.below, lo, hi, m, l, r);
      t := Forked(l, r);
      StartForked(d, lo, hi, l, r);
    }
  }

  ghost predicate Run(run: seq<Config>) {
    && |run| > 0 && Sound(run[0].task, run[0].mem)
    && forall i | 0 <= i < |run| - 1 :: Sound(run[i].task, run[i].mem) &&
         Step(run[i].task, run[i].mem, run[i + 1].task, run[i + 1].mem)
  }

  lemma {:induction false} RunKeeps(run: seq<Config>, n: nat)
    requires Run(run) && n < |run|
    ensures var c, z := run[0], run[n];
            && Sound(z.task, z.mem) && Lo(z.task) == Lo(c.task) && Hi(z.task) == Hi(c.task)
            && Only(c.mem, z.mem, Lo(c.task), Hi(c.task), 0) && Outcome(z.task, z.mem) == Outcome(c.task, c.mem)
    decreases n
  {
    if n > 0 {
      RunKeeps(run, n - 1);
      var b, z := run[n - 1], run[n];
      StepKeeps(b.task, b.mem, z.task, z.mem);
      OnlyTwice(run[0].mem, b.mem, z.mem, Lo(b.task), Hi(b.task), 0);
    }
  }

  lemma RunSorts(d: Depth, lo: nat, hi: nat, run: seq<Config>)
    requires Run(run) && Ranged(run[0].mem, lo, hi) && Sorting(run[0].task, d, lo, hi, run[0].mem)
    requires run[|run| - 1].task.Finished?
    ensures MergeCode.Stored(run[|run| - 1].mem, lo, hi, MergeSort(d, Shown(run[0].mem, lo, hi)))
    ensures Only(run[0].mem, run[|run| - 1].mem, lo, hi, 0)
  {
    RunKeeps(run, |run| - 1);
    ShownStored(run[|run| - 1].mem, lo, hi, MergeSort(d, Shown(run[0].mem, lo, hi)));
  }

  // Whatever the schedule of the processes, the finished tree leaves the merge sort of its range
  // in the shared store, and nothing else changed.
  lemma ProcessJoinSorts(d: Depth, lo: nat, hi: nat, s: seq<Item>, run: seq<Config>)
    requires Run(run) && d.Fork? && MergeCode.Stored(run[0].mem, lo, hi, s) && run[0].task == Start(d, lo, hi)
    requires run[|run| - 1].task.Finished?
    ensures MergeCode.Stored(run[|run| - 1].mem, lo, hi, MergeSort(d, s))
    ensures Only(run[0].mem, run[|run| - 1].mem, lo, hi, 0)
  {
    StoredShown(run[0].mem, lo, hi, s);
    var t := StartSound(d, lo, hi, run[0].mem);
    RunSorts(d, lo, hi, run);
  }

  lemma StoredShown(m: Store, lo: nat, hi: nat, s: seq<Item>)
    requires MergeCode.Stored(m, lo, hi, s)
    ensures Ranged(m, lo, hi) && Shown(m, lo, hi) == s
  {
    forall k | 0 <= k < hi - lo ensures Shown(m, lo, hi)[k] == s[k] {
      assert m.ms[lo + k] == s[lo + k - lo].title;
    }
  }

  lemma ShownStored(m: Store, lo: nat, hi: nat, r: seq<Item>)
    requires Ranged(m, lo, hi) && Shown(m, lo, hi) == r
    ensures MergeCode.Stored(m, lo, hi, r)
  {
    forall k | lo <= k < hi ensures m.ms[k] == r[k - lo].title && m.ps[k] == r[k - lo].score {
      assert Shown(m, lo, hi)[k - lo] == Item(m.ms[lo + (k - lo)], m.ps[lo + (k - lo)]);
    }
  }

  // ---------- progress ----------

  // Steps left; every step uses up exactly one.
  function Left(t: Task): nat {
    match t
    case Leaf(lo, hi, cpy, i) => if i <= |cpy| && lo <= hi then |cpy| - i + 1 + 2 * (hi - lo + 1) else 0
    case Forked(l, r) => Left(l) + Left(r) + 1 + (if Lo(l) <= Hi(r) then 3 * (Hi(r) - Lo(l) + 1) else 0)
    case Copying(lo, hi, cpy) => if |cpy| <= hi - lo then hi - lo - |cpy| + 1 + 2 * (hi - lo + 1) else 0
    case Merging(lo, hi, cpy, k1, k2, tmp, tps) =>
      if k1 <= |cpy| / 2 && k2 <= |cpy| && lo <= hi then |cpy| / 2 - k1 + |cpy| - k2 + 1 + hi - lo + 1 else 0
    case Storing(lo, hi, tmp, tps, i) => if i <= |tmp| then |tmp| - i + 1 else 0
    case Finished(_, _) => 0
  }

  lemma LeafRoundSize(m: Store, p: seq<Ptr>, lo: nat, hi: nat, i: nat)
    requires Ranged(m, lo, hi) && |p| == hi - lo && Pointing(p, lo, hi) && i < |p|
    ensures |LeafRound(m, p, lo, hi, i).ms| == |p|
  {}

  lemma LeafCounts(t: Task, m: Store)
    requires t.Leaf? && Fits(t, m)
    ensures Left(t) == Left(Next(t, m).task) + 1
  {
    if t.i < |t.cpy| { LeafRoundSize(m, t.cpy, t.lo, t.hi, t.i); }
  }

  lemma MergingCounts(t: Task, m: Store)
    requires (t.Copying? || t.Merging? || t.Storing?) && Fits(t, m)
    ensures Left(t) == Left(Next(t, m).task) + 1
  {}

  lemma ChildCounts(l: Task, r: Task, l': Task, r': Task)
    requires Left(l) + Left(r) == Left(l') + Left(r') + 1 && Lo(l') == Lo(l) && Hi(r') == Hi(r)
    ensures Left(Forked(l, r)) == Left(Forked(l', r')) + 1
  {}

  lemma JoinCounts(l: Task, r: Task)
    requires l.Finished? && r.Finished? && Lo(l) <= Hi(r)
    ensures Left(Forked(l, r)) == Left(Copying(l.lo, r.hi, [])) + 1
  {}

  lemma {:induction false} StepCounts(t: Task, m: Store, t': Task, m': Store)
    requires Sound(t, m) && Step(t, m, t', m')
    ensures Left(t) == Left(t') + 1
  {
    if t.Forked? {
      var l, r := t.left, t.right;
      SoundRange(l, m);
      SoundRange(r, m);
      if t'.Forked? && t'.right == r && Step(l, m, t'.left, m') {
        StepCounts(l, m, t'.left, m');
        StepKeeps(l, m, t'.left, m');
        ChildCounts(l, r, t'.left, r);
      } else if t'.Forked? && t'.left == l && Step(r, m, t'.right, m') {
        StepCounts(r, m, t'.right, m');
        StepKeeps(r, m, t'.right, m');
        ChildCounts(l, r, l, t'.right);
      } else {
        JoinCounts(l, r);
      }
    } else {
      if t.Leaf? { LeafCounts(t, m); } else { MergingCounts(t, m); }
    }
  }

  // An unfinished tree can always step: the parents' two waits never deadlock.
  lemma {:induction false} StepExists(t: Task, m: Store) returns (t': Task, m': Store)
    requires Sound(t, m) && !t.Finished?
    ensures Step(t, m, t', m')
  {
    if t.Forked? {
      var l, r := t.left, t.right;
      if !l.Finished? {
        var l';
        l', m' := StepExists(l, m);
        t' := Forked(l', r);
      } else if !r.Finished? {
        var r';
        r', m' := StepExists(r, m);
        t' := Forked(l, r');
      } else {
        t', m' := Copying(l.lo, r.hi, []), m;
      }
    } else {
      t', m' := Next(t, m).task, Next(t, m).mem;
    }
  }
}
