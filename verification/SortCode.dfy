/**
 The library sort as the C code runs it, in place on an array of string pointers and an array
 of scores (hw4_simple-movies-recommendation-system/lib.c).
 */
module SortCode {
  import opened Titles
  import opened SortSpec

  // A char pointer: to one of the string blocks that several processes share, or to a string
  // in private memory, which nobody overwrites after it was filled.
  datatype Ptr = Shared(block: nat) | Private(text: Text)

  // `mem` is the content of the shared blocks.
  predicate Valid(mem: seq<Text>, p: Ptr) {
    p.Shared? ==> p.block < |mem|
  }

  function Deref(mem: seq<Text>, p: Ptr): Text
    requires Valid(mem, p)
  {
    if p.Shared? then mem[p.block] else p.text
  }

  predicate Reads(mem: seq<Text>, p: Ptr, score: real, x: Item) {
    Valid(mem, p) && Deref(mem, p) == x.title && score == x.score
  }

  // Contents of a pointer array and a score array.
  datatype Cells<P> = View(ms: seq<P>, ps: seq<real>)
  type View = Cells<Ptr>

  // The pointers [lo, hi), with the scores `d` places further on, are the list `s`.
  ghost predicate Holds(mem: seq<Text>, v: View, lo: int, hi: int, d: int, s: seq<Item>) {
    && 0 <= lo <= hi <= |v.ms| && 0 <= lo + d && hi + d <= |v.ps| && |s| == hi - lo
    && forall k | lo <= k < hi :: Reads(mem, v.ms[k], v.ps[k + d], s[k - lo])
  }

  ghost predicate NonNegative(s: seq<Item>) {
    forall i | 0 <= i < |s| :: s[i].score >= 0.0
  }

  // strcmp(a, b) < 0, byte by byte.
  method Strcmp(a: Text, b: Text) returns (less: bool)
    ensures less == Less(a, b)
    ensures less <==> exists k :: SmallerAt(a, b, k)
  {
    LessExact(a, b);
    var i := 0;
    while i < |a| && i < |b| && a[i] == b[i]
      invariant i <= |a| && i <= |b|
      invariant Less(a, b) == Less(a[i..], b[i..])
    {
      assert a[i..][1..] == a[i + 1..] && b[i..][1..] == b[i + 1..];
      i := i + 1;
    }
    if i == |b| {
      return false;
    }
    return i == |a| || a[i] < b[i];
  }

  // argmax: the running maximum starts below every score.
  method FindArgMax(mem: seq<Text>, movies: array<Ptr>, lo: nat, hi: nat, pts: array<real>, d: int, ghost s: seq<Item>)
      returns (ret: nat)
    requires Holds(mem, View(movies[..], pts[..]), lo, hi, d, s) && NonNegative(s) && lo < hi
    ensures lo <= ret < hi && ret - lo == ArgMax(s, 1, 0)
  {
    ret := lo;
    var max := -1.0;
    var i := lo;
    while i < hi
      invariant lo <= i <= hi && lo <= ret < hi
      invariant i == lo ==> ret == lo && max == -1.0
      invariant i > lo ==> ret < i && max == s[ret - lo].score && ArgMax(s, i - lo, ret - lo) == ArgMax(s, 1, 0)
    {
      assert Reads(mem, movies[..][i], pts[..][i + d], s[i - lo]);
      assert Reads(mem, movies[..][ret], pts[..][ret + d], s[ret - lo]);
      var less := Strcmp(Deref(mem, movies[i]), Deref(mem, movies[ret]));
      if pts[i + d] > max {
        max := pts[i + d];
        ret := i;
      } else if pts[i + d] == max {
        if less {
          ret := i;
        }
      }
      i := i + 1;
    }
  }

  // add_secret: a new private string.
  function WithSecret(mem: seq<Text>, p: Ptr): Ptr
    requires Valid(mem, p)
  {
    Private(Deref(mem, p) + SECRET)
  }

  // swap of two entries of both arrays.
  method SwapEntries(movies: array<Ptr>, i: nat, j: nat, pts: array<real>, d: int)
    requires i <= j < movies.Length && 0 <= i + d && j + d < pts.Length
    modifies movies, pts
    ensures movies[..] == old(movies[..])[i := old(movies[j])][j := old(movies[i])]
    ensures pts[..] == old(pts[..])[i + d := old(pts[j + d])][j + d := old(pts[i + d])]
  {
    movies[i], movies[j] := movies[j], movies[i];
    pts[i + d], pts[j + d] := pts[j + d], pts[i + d];
  }

  function SwappedView(v: View, i: nat, j: nat, d: int): View
    requires i <= j < |v.ms| && 0 <= i + d && j + d < |v.ps|
  {
    View(v.ms[i := v.ms[j]][j := v.ms[i]], v.ps[i + d := v.ps[j + d]][j + d := v.ps[i + d]])
  }

  // Nothing but the entries [lo, hi) has changed.
  ghost predicate Only<P(!new)>(u: Cells<P>, v: Cells<P>, lo: int, hi: int, d: int) {
    && |u.ms| == |v.ms| && |u.ps| == |v.ps|
    && (forall k | 0 <= k < |u.ms| && !(lo <= k < hi) :: v.ms[k] == u.ms[k])
    && (forall k | 0 <= k < |u.ps| && !(lo + d <= k < hi + d) :: v.ps[k] == u.ps[k])
  }

  // Entry `k` is its item of `all`, which starts at `lo`, in a private string.
  predicate Is(v: View, k: int, lo: int, d: int, all: seq<Item>) {
    && 0 <= k < |v.ms| && 0 <= k + d < |v.ps| && lo <= k < lo + |all|
    && v.ms[k] == Private(all[k - lo].title) && v.ps[k + d] == all[k - lo].score
  }

  // The places [lo, i) hold the beginning of `all`.
  ghost predicate Placed(v: View, lo: int, i: int, d: int, all: seq<Item>) {
    && 0 <= lo <= i <= lo + |all| <= |v.ms| && 0 <= lo + d && lo + |all| + d <= |v.ps|
    && forall k | lo <= k < i :: Is(v, k, lo, d, all)
  }

  lemma PlacedAt(v: View, lo: nat, i: nat, d: int, all: seq<Item>, k: nat)
    requires Placed(v, lo, i, d, all) && lo <= k < i
    ensures k < |v.ms| && 0 <= k + d < |v.ps| && k - lo < |all|
    ensures v.ms[k] == Private(all[k - lo].title) && v.ps[k + d] == all[k - lo].score
  {
    assert Is(v, k, lo, d, all);
  }

  // Placing one more item, without touching the earlier ones.
  lemma PlacedMore(v: View, z: View, lo: nat, i: nat, d: int, all: seq<Item>)
    requires Placed(v, lo, i, d, all) && i - lo < |all| && |z.ms| == |v.ms| && |z.ps| == |v.ps|
    requires forall k | lo <= k < i :: z.ms[k] == v.ms[k] && z.ps[k + d] == v.ps[k + d]
    requires z.ms[i] == Private(all[i - lo].title) && z.ps[i + d] == all[i - lo].score
    ensures Placed(z, lo, i + 1, d, all)
  {
    forall k | lo <= k < i + 1 ensures Is(z, k, lo, d, all) {
      if k < i { assert z.ms[k] == v.ms[k] && z.ps[k + d] == v.ps[k + d] && Is(v, k, lo, d, all); }
    }
  }

  // State of the library sort when [lo, i) is placed and `rest` is left in [i, hi).
  ghost predicate Progress(mem: seq<Text>, v: View, lo: int, i: int, hi: int, d: int, all: seq<Item>, rest: seq<Item>) {
    && Placed(v, lo, i, d, all) && Holds(mem, v, i, hi, d, rest) && NonNegative(rest)
    && |all| == hi - lo && all[i - lo..] == LibSort(rest)
  }

  lemma SwapHolds(mem: seq<Text>, v: View, lo: nat, hi: nat, d: int, s: seq<Item>, j: nat)
    requires Holds(mem, v, lo, hi, d, s) && lo <= j < hi
    ensures Holds(mem, SwappedView(v, lo, j, d), lo, hi, d, Swap(s, j - lo))
    ensures Only(v, SwappedView(v, lo, j, d), lo, hi, d)
  {
    assert Reads(mem, v.ms[lo], v.ps[lo + d], s[0]) && Reads(mem, v.ms[j], v.ps[j + d], s[j - lo]);
  }

  lemma NextPlaced(all: seq<Item>, i: nat, rest: seq<Item>, w: seq<Item>)
    requires i < |all| && all[i..] == LibSort(rest) && rest != [] && w == Swap(rest, ArgMax(rest, 1, 0))
    ensures all[i] == Decorate(w[0]) && all[i + 1..] == LibSort(w[1..])
  {
    DecorateCons(w[0], Select(w[1..]));
    assert all[i..][0] == all[i] && all[i..][1..] == all[i + 1..];
  }

  // What one round leaves: the best item is swapped to place `i` and its string decorated.
  function RoundView(mem: seq<Text>, v: View, i: nat, j: nat, d: int): View
    requires i <= j < |v.ms| && 0 <= i + d && j + d < |v.ps| && Valid(mem, v.ms[j])
  {
    var u := SwappedView(v, i, j, d);
    View(u.ms[i := WithSecret(mem, u.ms[i])], u.ps)
  }

  lemma RoundProgress(mem: seq<Text>, v: View, lo: nat, i: nat, hi: nat, d: int, all: seq<Item>,
        rest: seq<Item>, j: nat)
      returns (w: seq<Item>)
    requires Progress(mem, v, lo, i, hi, d, all, rest) && i <= j < hi && j - i == ArgMax(rest, 1, 0)
    ensures w == Swap(rest, j - i)[1..] && Valid(mem, v.ms[j])
    ensures Progress(mem, RoundView(mem, v, i, j, d), lo, i + 1, hi, d, all, w)
    ensures Only(v, RoundView(mem, v, i, j, d), lo, hi, d)
  {
    assert Reads(mem, v.ms[j], v.ps[j + d], rest[j - i]);
    var u := SwappedView(v, i, j, d);
    var t := Swap(rest, j - i);
    SwapHolds(mem, v, i, hi, d, rest, j);
    NextPlaced(all, i - lo, rest, t);
    RoundPlaced(mem, v, u, RoundView(mem, v, i, j, d), lo, i, hi, d, all, t);
    w := t[1..];
  }

  lemma RoundPlaced(mem: seq<Text>, v: View, u: View, z: View, lo: nat, i: nat, hi: nat, d: int,
        all: seq<Item>, w: seq<Item>)
    requires Placed(v, lo, i, d, all) && Only(v, u, i, hi, d) && |all| == hi - lo && i < hi
    requires Holds(mem, u, i, hi, d, w) && Valid(mem, u.ms[i]) && z == View(u.ms[i := WithSecret(mem, u.ms[i])], u.ps)
    requires all[i - lo] == Decorate(w[0])
    ensures Placed(z, lo, i + 1, d, all) && Holds(mem, z, i + 1, hi, d, w[1..])
  {
    assert Reads(mem, u.ms[i], u.ps[i + d], w[0]);
    PlacedMore(v, z, lo, i, d, all);
    forall k | i + 1 <= k < hi ensures Reads(mem, z.ms[k], z.ps[k + d], w[1..][k - (i + 1)]) {
      assert Reads(mem, u.ms[k], u.ps[k + d], w[k - i]);
    }
  }

  lemma OnlyTwice<P(!new)>(u: Cells<P>, v: Cells<P>, z: Cells<P>, lo: int, hi: int, d: int)
    requires Only(u, v, lo, hi, d) && Only(v, z, lo, hi, d)
    ensures Only(u, z, lo, hi, d)
  {
    forall k | 0 <= k < |u.ms| && !(lo <= k < hi) ensures z.ms[k] == u.ms[k] { assert v.ms[k] == u.ms[k]; }
    forall k | 0 <= k < |u.ps| && !(lo + d <= k < hi + d) ensures z.ps[k] == u.ps[k] { assert v.ps[k] == u.ps[k]; }
  }

  // argmax, swap and add_secret of one round.
  method PlaceBest(mem: seq<Text>, movies: array<Ptr>, i: nat, hi: nat, pts: array<real>, d: int, ghost rest: seq<Item>)
      returns (ghost j: nat)
    requires Holds(mem, View(movies[..], pts[..]), i, hi, d, rest) && NonNegative(rest) && i < hi
    modifies movies, pts
    ensures i <= j < hi && j - i == ArgMax(rest, 1, 0) && Valid(mem, old(movies[..])[j])
    ensures View(movies[..], pts[..]) == RoundView(mem, View(old(movies[..]), old(pts[..])), i, j, d)
  {
    var idx := FindArgMax(mem, movies, i, hi, pts, d, rest);
    j := idx;
    assert Reads(mem, movies[..][j], pts[..][j + d], rest[j - i]);
    SwapEntries(movies, i, idx, pts, d);
    movies[i] := WithSecret(mem, movies[i]);
  }

  // A moment of the library sort: [lo, i) is placed and `rest` is left in [i, hi).
  datatype Sorting = Sorting(mem: seq<Text>, start: View, v: View, lo: nat, i: nat, hi: nat, d: int,
        s: seq<Item>, rest: seq<Item>)

  ghost predicate Good(st: Sorting) {
    && st.lo <= st.i < st.hi && Progress(st.mem, st.v, st.lo, st.i, st.hi, st.d, LibSort(st.s), st.rest)
    && Only(st.start, st.v, st.lo, st.hi, st.d)
  }

  lemma SortStart(mem: seq<Text>, v: View, lo: nat, hi: nat, d: int, s: seq<Item>) returns (st: Sorting)
    requires lo < hi && Holds(mem, v, lo, hi, d, s) && NonNegative(s)
    ensures st == Sorting(mem, v, v, lo, lo, hi, d, s, s) && Good(st)
  {
    st := Sorting(mem, v, v, lo, lo, hi, d, s, s);
    assert LibSort(s)[0..] == LibSort(s);
  }

  lemma GoodHolds(st: Sorting)
    requires Good(st)
    ensures Holds(st.mem, st.v, st.i, st.hi, st.d, st.rest) && NonNegative(st.rest)
  {
  }

  lemma NextRound(st: Sorting, j: nat) returns (z: Sorting)
    requires Good(st) && st.i < st.hi - 1 && st.i <= j < st.hi && j - st.i == ArgMax(st.rest, 1, 0)
    requires Valid(st.mem, st.v.ms[j])
    ensures z == st.(v := RoundView(st.mem, st.v, st.i, j, st.d), i := st.i + 1, rest := z.rest) && Good(z)
  {
    var v, rest := NextView(st.mem, st.start, st.v, st.lo, st.i, st.hi, st.d, LibSort(st.s), st.rest, j);
    z := Sorting(st.mem, st.start, v, st.lo, st.i + 1, st.hi, st.d, st.s, rest);
    assert Progress(z.mem, z.v, z.lo, z.i, z.hi, z.d, LibSort(z.s), z.rest);
  }

  lemma NextView(mem: seq<Text>, start: View, v: View, lo: nat, i: nat, hi: nat, d: int, all: seq<Item>,
                 rest: seq<Item>, j: nat) returns (z: View, w: seq<Item>)
    requires Progress(mem, v, lo, i, hi, d, all, rest) && i <= j < hi && j - i == ArgMax(rest, 1, 0)
    requires Valid(mem, v.ms[j]) && Only(start, v, lo, hi, d)
    ensures z == RoundView(mem, v, i, j, d) && Progress(mem, z, lo, i + 1, hi, d, all, w) && Only(start, z, lo, hi, d)
  {
    w := RoundProgress(mem, v, lo, i, hi, d, all, rest, j);
    z := RoundView(mem, v, i, j, d);
    OnlyTwice(start, v, z, lo, hi, d);
  }

  // The last item needs no comparison and no swap.
  lemma LastRound(st: Sorting)
    requires Good(st) && st.i == st.hi - 1
    ensures Valid(st.mem, st.v.ms[st.i])
    ensures var z := View(st.v.ms[st.i := WithSecret(st.mem, st.v.ms[st.i])], st.v.ps);
            Placed(z, st.lo, st.hi, st.d, LibSort(st.s)) && Only(st.start, z, st.lo, st.hi, st.d)
  {
    var w := RoundProgress(st.mem, st.v, st.lo, st.i, st.hi, st.d, LibSort(st.s), st.rest, st.i);
    assert SwappedView(st.v, st.i, st.i, st.d) == st.v;
    OnlyTwice(st.start, st.v, RoundView(st.mem, st.v, st.i, st.i, st.d), st.lo, st.hi, st.d);
  }

  // The library sort on [lo, hi): every round swaps the best item to the front and replaces its
  // string by a decorated private copy; the shared strings are only read.
  method Sort(mem: seq<Text>, movies: array<Ptr>, lo: nat, hi: nat, pts: array<real>, d: int, ghost s: seq<Item>)
    requires lo < hi && Holds(mem, View(movies[..], pts[..]), lo, hi, d, s) && NonNegative(s)
    modifies movies, pts
    ensures Placed(View(movies[..], pts[..]), lo, hi, d, LibSort(s))
    ensures Only(View(old(movies[..]), old(pts[..])), View(movies[..], pts[..]), lo, hi, d)
  {
    var i := lo;
    ghost var start, v := View(movies[..], pts[..]), View(movies[..], pts[..]);
    ghost var st := SortStart(mem, start, lo, hi, d, s);
    while i < hi - 1
      invariant i <= hi - 1 && v == View(movies[..], pts[..])
      invariant st == Sorting(mem, start, v, lo, i, hi, d, s, st.rest) && Good(st)
    {
      GoodHolds(st);
      ghost var j := PlaceBest(mem, movies, i, hi, pts, d, st.rest);
      v := RoundView(mem, v, i, j, d);
      st := NextRound(st, j);
      i := i + 1;
    }
    LastRound(st);
    movies[i] := WithSecret(mem, movies[i]);
  }
}
