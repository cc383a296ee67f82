/**
 Both merge sorts of the server as the C code runs them: the thread version moves pointers
 (hw4_simple-movies-recommendation-system/server.c:58-122), the process version copies strings
 into shared blocks that other pointers still read (server.c:180-268).
 */
module MergeCode {
  import opened Titles
  import opened SortSpec
  import opened SortCode

  // ---------- the merging loops, common to both versions ----------

  lemma TakeLeft(all: seq<Item>, t: nat, x: seq<Item>, y: seq<Item>)
    requires t <= |all| && all[t..] == Merge(x, y) && x != [] && (y == [] || Before(x[0], y[0]))
    ensures t < |all| && all[t] == x[0] && all[t + 1..] == Merge(x[1..], y)
  {
    if y == [] { assert x == [x[0]] + x[1..]; }
    assert all[t..][0] == all[t] && all[t..][1..] == all[t + 1..];
  }

  lemma TakeRight(all: seq<Item>, t: nat, x: seq<Item>, y: seq<Item>)
    requires t <= |all| && all[t..] == Merge(x, y) && y != [] && (x == [] || !Before(x[0], y[0]))
    ensures t < |all| && all[t] == y[0] && all[t + 1..] == Merge(x, y[1..])
  {
    if x == [] { assert y == [y[0]] + y[1..]; }
    assert all[t..][0] == all[t] && all[t..][1..] == all[t + 1..];
  }

  // A moment of the merge: `t` items are out, a[i..] and b[j..] are left.
  datatype Merging = Merging(all: seq<Item>, a: seq<Item>, b: seq<Item>, i: nat, j: nat, out: View)

  ghost predicate Fine(g: Merging) {
    && g.i <= |g.a| && g.j <= |g.b| && g.i + g.j <= |g.all| && Placed(g.out, 0, g.i + g.j, 0, g.all)
    && g.all[g.i + g.j..] == Merge(g.a[g.i..], g.b[g.j..])
  }

  function Written(out: View, t: nat, x: Item): View
    requires t < |out.ms| && t < |out.ps|
  {
    View(out.ms[t := Private(x.title)], out.ps[t := x.score])
  }

  lemma WriteNext(out: View, lo: nat, t: nat, all: seq<Item>)
    requires Placed(out, lo, t, 0, all) && t - lo < |all|
    ensures Placed(Written(out, t, all[t - lo]), lo, t + 1, 0, all)
    ensures Only(out, Written(out, t, all[t - lo]), lo, lo + |all|, 0)
  {
    PlacedMore(out, Written(out, t, all[t - lo]), lo, t, 0, all);
  }

  lemma StepA(g: Merging, t: nat, x: Item) returns (h: Merging)
    requires Fine(g) && t == g.i + g.j && g.i < |g.a| && x == g.a[g.i]
    requires (g.j == |g.b| || Before(g.a[g.i], g.b[g.j]))
    ensures t < |g.out.ms| && t < |g.out.ps|
    ensures h == Merging(g.all, g.a, g.b, g.i + 1, g.j, Written(g.out, t, x)) && Fine(h)
  {
    TakeLeft(g.all, t, g.a[g.i..], g.b[g.j..]);
    assert g.a[g.i..][1..] == g.a[g.i + 1..];
    WriteNext(g.out, 0, t, g.all);
    h := Merging(g.all, g.a, g.b, g.i + 1, g.j, Written(g.out, t, g.a[g.i]));
    assert Placed(h.out, 0, h.i + h.j, 0, h.all);
  }

  lemma StepB(g: Merging, t: nat, x: Item) returns (h: Merging)
    requires Fine(g) && t == g.i + g.j && g.j < |g.b| && x == g.b[g.j]
    requires (g.i == |g.a| || !Before(g.a[g.i], g.b[g.j]))
    ensures t < |g.out.ms| && t < |g.out.ps|
    ensures h == Merging(g.all, g.a, g.b, g.i, g.j + 1, Written(g.out, t, x)) && Fine(h)
  {
    TakeRight(g.all, t, g.a[g.i..], g.b[g.j..]);
    assert g.b[g.j..][1..] == g.b[g.j + 1..];
    WriteNext(g.out, 0, t, g.all);
    h := Merging(g.all, g.a, g.b, g.i, g.j + 1, Written(g.out, t, g.b[g.j]));
    assert Placed(h.out, 0, h.i + h.j, 0, h.all);
  }

  lemma MergeStart(a: seq<Item>, b: seq<Item>, out: View) returns (g: Merging)
    requires |out.ms| == |out.ps| == |a| + |b|
    ensures g == Merging(Merge(a, b), a, b, 0, 0, out) && Fine(g)
  {
    g := Merging(Merge(a, b), a, b, 0, 0, out);
    assert a[0..] == a && b[0..] == b && Merge(a, b)[0..] == Merge(a, b);
  }

  // One step of the merging loops: entry `k` goes to place `t` of the temporary arrays.
  method CopyOut(movies: array<Ptr>, k: nat, pts: array<real>, d: int, tmpMovies: array<Ptr>,
        tmpPts: array<real>, t: nat, ghost x: Item)
    requires k < movies.Length && 0 <= k + d < pts.Length && movies[k] == Private(x.title) && pts[k + d] == x.score
    requires t < tmpMovies.Length && t < tmpPts.Length
    modifies tmpMovies, tmpPts
    ensures View(tmpMovies[..], tmpPts[..]) == Written(View(old(tmpMovies[..]), old(tmpPts[..])), t, x)
  {
    var movie, score := movies[k], pts[k + d];
    tmpMovies[t] := movie;
    tmpPts[t] := score;
  }

  // The first merging loop: until one half is used up.
  method MergeLoop(movies: array<Ptr>, lo: nat, mid: nat, hi: nat, pts: array<real>, d: int, tmpMovies: array<Ptr>,
                   tmpPts: array<real>, ghost a: seq<Item>, ghost b: seq<Item>, ghost v: View, ghost g0: Merging)
      returns (key1: nat, key2: nat, tmpKey: nat, ghost g: Merging)
    requires lo <= mid <= hi && |a| == mid - lo && |b| == hi - mid && v == View(movies[..], pts[..])
    requires Placed(v, lo, mid, d, a) && Placed(v, mid, hi, d, b)
    requires tmpMovies != movies && tmpPts != pts
    requires g0 == Merging(Merge(a, b), a, b, 0, 0, View(tmpMovies[..], tmpPts[..])) && Fine(g0)
    modifies tmpMovies, tmpPts
    ensures lo <= key1 <= mid <= key2 <= hi && tmpKey == key1 - lo + key2 - mid && (key1 == mid || key2 == hi)
    ensures Fine(g) && g.all == g0.all && g.a == a && g.b == b && g.i == key1 - lo && g.j == key2 - mid
    ensures g.out == View(tmpMovies[..], tmpPts[..])
  {
    key1, key2, tmpKey, g := lo, mid, 0, g0;
    while key1 < mid && key2 < hi
      invariant lo <= key1 <= mid <= key2 <= hi && tmpKey == key1 - lo + key2 - mid
      invariant v == View(movies[..], pts[..])
      invariant g.all == g0.all && g.a == a && g.b == b && g.i == key1 - lo && g.j == key2 - mid
      invariant g.out == View(tmpMovies[..], tmpPts[..])
      invariant Fine(g)
    {
      PlacedAt(v, lo, mid, d, a, key1);
      PlacedAt(v, mid, hi, d, b, key2);
      var less := Strcmp(movies[key1].text, movies[key2].text);
      if pts[key1 + d] > pts[key2 + d] || (pts[key1 + d] == pts[key2 + d] && less) {
        g := StepA(g, tmpKey, a[key1 - lo]);
        CopyOut(movies, key1, pts, d, tmpMovies, tmpPts, tmpKey, a[key1 - lo]);
        key1, tmpKey := key1 + 1, tmpKey + 1;
      } else {
        g := StepB(g, tmpKey, b[key2 - mid]);
        CopyOut(movies, key2, pts, d, tmpMovies, tmpPts, tmpKey, b[key2 - mid]);
        key2, tmpKey := key2 + 1, tmpKey + 1;
      }
    }
  }

  // The second loop: the rest of the first half, when the second one is used up.
  method DrainLeft(movies: array<Ptr>, lo: nat, mid: nat, hi: nat, pts: array<real>, d: int, tmpMovies: array<Ptr>,
                   tmpPts: array<real>, from: nat, key2: nat, at: nat, ghost v: View, ghost g0: Merging)
      returns (tmpKey: nat, ghost g: Merging)
    requires lo <= from <= mid <= key2 <= hi && |g0.a| == mid - lo && |g0.b| == hi - mid
        && v == View(movies[..], pts[..])
    requires Placed(v, lo, mid, d, g0.a) && (from == mid || key2 == hi) && tmpMovies != movies && tmpPts != pts
    requires Fine(g0) && g0.i == from - lo && g0.j == key2 - mid && at == from - lo + key2 - mid
    requires g0.out == View(tmpMovies[..], tmpPts[..])
    modifies tmpMovies, tmpPts
    ensures Fine(g) && g == Merging(g0.all, g0.a, g0.b, mid - lo, key2 - mid, View(tmpMovies[..], tmpPts[..]))
    ensures tmpKey == key2 - lo
  {
    var key1 := from;
    tmpKey, g := at, g0;
    while key1 < mid
      invariant lo <= key1 <= mid && tmpKey == key1 - lo + key2 - mid
      invariant v == View(movies[..], pts[..])
      invariant g.all == g0.all && g.a == g0.a && g.b == g0.b && g.i == key1 - lo && g.j == key2 - mid
      invariant g.out == View(tmpMovies[..], tmpPts[..])
      invariant Fine(g)
    {
      PlacedAt(v, lo, mid, d, g0.a, key1);
      g := StepA(g, tmpKey, g0.a[key1 - lo]);
      CopyOut(movies, key1, pts, d, tmpMovies, tmpPts, tmpKey, g0.a[key1 - lo]);
      key1, tmpKey := key1 + 1, tmpKey + 1;
    }
  }

  // Merges the sorted halves of [lo, hi) into new arrays; the halves are only read.
  method MergeOut(movies: array<Ptr>, lo: nat, mid: nat, hi: nat, pts: array<real>, d: int, ghost a: seq<Item>,
        ghost b: seq<Item>)
      returns (tmpMovies: array<Ptr>, tmpPts: array<real>)
    requires lo <= mid <= hi && |a| == mid - lo && |b| == hi - mid
    requires Placed(View(movies[..], pts[..]), lo, mid, d, a) && Placed(View(movies[..], pts[..]), mid, hi, d, b)
    ensures fresh(tmpMovies) && fresh(tmpPts) && tmpMovies.Length == tmpPts.Length == hi - lo
    ensures Placed(View(tmpMovies[..], tmpPts[..]), 0, hi - lo, 0, Merge(a, b))
  {
    tmpMovies, tmpPts := new Ptr[hi - lo], new real[hi - lo];
    ghost var v := View(movies[..], pts[..]);
    ghost var g0 := MergeStart(a, b, View(tmpMovies[..], tmpPts[..]));
    var key1, key2, tmpKey, g := MergeLoop(movies, lo, mid, hi, pts, d, tmpMovies, tmpPts, a, b, v, g0);
    tmpKey, g := DrainLeft(movies, lo, mid, hi, pts, d, tmpMovies, tmpPts, key1, key2, tmpKey, v, g);
    while key2 < hi
      invariant mid <= key2 <= hi && tmpKey == key2 - lo
      invariant v == View(movies[..], pts[..])
      invariant g.all == g0.all && g.a == a && g.b == b && g.i == mid - lo && g.j == key2 - mid
      invariant g.out == View(tmpMovies[..], tmpPts[..])
      invariant Fine(g)
    {
      PlacedAt(v, mid, hi, d, b, key2);
      g := StepB(g, tmpKey, b[key2 - mid]);
      CopyOut(movies, key2, pts, d, tmpMovies, tmpPts, tmpKey, b[key2 - mid]);
      key2, tmpKey := key2 + 1, tmpKey + 1;
    }
  }

  // ---------- the thread version ----------

  lemma SplitHolds(mem: seq<Text>, v: View, lo: nat, mid: nat, hi: nat, d: int, s: seq<Item>)
    requires Holds(mem, v, lo, hi, d, s) && NonNegative(s) && mid == lo + |s| / 2
    ensures Holds(mem, v, lo, mid, d, Front(s)) && NonNegative(Front(s))
    ensures Holds(mem, v, mid, hi, d, Back(s)) && NonNegative(Back(s))
  {
    forall k | lo <= k < mid ensures Reads(mem, v.ms[k], v.ps[k + d], Front(s)[k - lo]) {
      assert Reads(mem, v.ms[k], v.ps[k + d], s[k - lo]);
    }
    forall k | mid <= k < hi ensures Reads(mem, v.ms[k], v.ps[k + d], Back(s)[k - mid]) {
      assert Reads(mem, v.ms[k], v.ps[k + d], s[k - lo]);
    }
  }

  // Sorting one half leaves the other one alone.
  lemma HoldsStill(mem: seq<Text>, u: View, v: View, lo: nat, mid: nat, hi: nat, d: int, s: seq<Item>)
    requires Only(u, v, lo, mid, d) && Holds(mem, u, mid, hi, d, s)
    ensures Holds(mem, v, mid, hi, d, s)
  {
    forall k | mid <= k < hi ensures Reads(mem, v.ms[k], v.ps[k + d], s[k - mid]) {
      assert Reads(mem, u.ms[k], u.ps[k + d], s[k - mid]);
    }
  }

  lemma PlacedStill(u: View, v: View, lo: nat, mid: nat, hi: nat, d: int, s: seq<Item>)
    requires Placed(u, lo, mid, d, s) && Only(u, v, mid, hi, d) && |s| == mid - lo
    ensures Placed(v, lo, mid, d, s)
  {
    forall k | lo <= k < mid ensures Is(v, k, lo, d, s) {
      assert Is(u, k, lo, d, s);
    }
  }

  lemma OnlyHalves<P(!new)>(u: Cells<P>, v: Cells<P>, z: Cells<P>, lo: int, mid: int, hi: int, d: int)
    requires Only(u, v, lo, mid, d) && Only(v, z, mid, hi, d) && lo <= mid <= hi
    ensures Only(u, z, lo, hi, d)
  {
    assert Only(u, v, lo, hi, d) && Only(v, z, lo, hi, d);
    OnlyTwice(u, v, z, lo, hi, d);
  }

  // Writing the merged list back.
  method WriteBack(movies: array<Ptr>, lo: nat, hi: nat, pts: array<real>, tmpMovies: array<Ptr>,
        tmpPts: array<real>, ghost r: seq<Item>)
    requires lo <= hi <= movies.Length && hi <= pts.Length && |r| == hi - lo
    requires Placed(View(tmpMovies[..], tmpPts[..]), 0, hi - lo, 0, r) && tmpMovies != movies && tmpPts != pts
    modifies movies, pts
    ensures Placed(View(movies[..], pts[..]), lo, hi, 0, r)
    ensures Only(View(old(movies[..]), old(pts[..])), View(movies[..], pts[..]), lo, hi, 0)
  {
    ghost var start, tmp := View(movies[..], pts[..]), View(tmpMovies[..], tmpPts[..]);
    ghost var v := start;
    var i := lo;
    while i < hi
      invariant lo <= i <= hi && v == View(movies[..], pts[..]) && tmp == View(tmpMovies[..], tmpPts[..])
      invariant Placed(v, lo, i, 0, r)
      invariant Only(start, v, lo, hi, 0)
    {
      PlacedAt(tmp, 0, hi - lo, 0, r, i - lo);
      WriteNext(v, lo, i, r);
      ghost var z := Written(v, i, r[i - lo]);
      OnlyTwice(start, v, z, lo, hi, 0);
      CopyOut(tmpMovies, i - lo, tmpPts, 0, movies, pts, i, r[i - lo]);
      v := z;
      i := i + 1;
    }
  }

  // Sorting both halves, by the library at the bottom of the tree and by two tasks above it.
  method SortHalves(mem: seq<Text>, movies: array<Ptr>, lo: nat, mid: nat, hi: nat, pts: array<real>,
        below: Depth, ghost s: seq<Item>)
    requires Holds(mem, View(movies[..], pts[..]), lo, hi, 0, s) && NonNegative(s)
    requires mid == lo + |s| / 2 && hi - lo >= Pow2(Fork(below))
    modifies movies, pts
    ensures Placed(View(movies[..], pts[..]), lo, mid, 0, MergeSort(below, Front(s)))
    ensures Placed(View(movies[..], pts[..]), mid, hi, 0, MergeSort(below, Back(s)))
    ensures Only(View(old(movies[..]), old(pts[..])), View(movies[..], pts[..]), lo, hi, 0)
    decreases below, 1
  {
    ghost var u := View(movies[..], pts[..]);
    SplitHolds(mem, u, lo, mid, hi, 0, s);
    if below.Bottom? {
      Sort(mem, movies, lo, mid, pts, 0, Front(s));
    } else {
      ThreadSort(mem, movies, lo, mid, pts, below, Front(s));
    }
    ghost var v := View(movies[..], pts[..]);
    HoldsStill(mem, u, v, lo, mid, hi, 0, Back(s));
    if below.Bottom? {
      Sort(mem, movies, mid, hi, pts, 0, Back(s));
    } else {
      ThreadSort(mem, movies, mid, hi, pts, below, Back(s));
    }
    ghost var z := View(movies[..], pts[..]);
    PlacedStill(v, z, lo, mid, hi, 0, MergeSort(below, Front(s)));
    OnlyHalves(u, v, z, lo, mid, hi, 0);
  }

  // mergeSort of the thread version.
  method ThreadSort(mem: seq<Text>, movies: array<Ptr>, lo: nat, hi: nat, pts: array<real>, tree: Depth,
        ghost s: seq<Item>)
    requires Holds(mem, View(movies[..], pts[..]), lo, hi, 0, s) && NonNegative(s)
    requires tree.Fork? && hi - lo >= Pow2(tree)
    modifies movies, pts
    ensures Placed(View(movies[..], pts[..]), lo, hi, 0, MergeSort(tree, s))
    ensures Only(View(old(movies[..]), old(pts[..])), View(movies[..], pts[..]), lo, hi, 0)
    decreases tree, 0
  {
    var mid := lo + (hi - lo) / 2;
    ghost var u := View(movies[..], pts[..]);
    SortHalves(mem, movies, lo, mid, hi, pts, tree.below, s);
    ghost var v := View(movies[..], pts[..]);
    ghost var a, b := MergeSort(tree.below, Front(s)), MergeSort(tree.below, Back(s));
    var tmpMovies, tmpPts := MergeOut(movies, lo, mid, hi, pts, 0, a, b);
    WriteBack(movies, lo, hi, pts, tmpMovies, tmpPts, Merge(a, b));
    OnlyTwice(u, v, View(movies[..], pts[..]), lo, hi, 0);
  }

  // ---------- the process version ----------

  // The shared string blocks and scores [lo, hi) hold the list `s`.
  ghost predicate Stored(w: Cells<Text>, lo: int, hi: int, s: seq<Item>) {
    && 0 <= lo <= hi <= |w.ms| && hi <= |w.ps| && |s| == hi - lo
    && forall k | lo <= k < hi :: w.ms[k] == s[k - lo].title && w.ps[k] == s[k - lo].score
  }

  // Pointer `k` of [lo, hi) leads to shared block `k`.
  predicate Linked(ms: seq<Ptr>, lo: int, hi: int) {
    0 <= lo <= hi <= |ms| && forall k | lo <= k < hi :: ms[k] == Shared(k)
  }

  lemma SplitStored(w: Cells<Text>, lo: nat, mid: nat, hi: nat, s: seq<Item>)
    requires Stored(w, lo, hi, s) && NonNegative(s) && mid == lo + |s| / 2
    ensures Stored(w, lo, mid, Front(s)) && NonNegative(Front(s))
    ensures Stored(w, mid, hi, Back(s)) && NonNegative(Back(s))
  {}

  lemma StoredStill(u: Cells<Text>, v: Cells<Text>, lo: nat, hi: nat, s: seq<Item>, from: nat, upto: nat)
    requires Stored(u, lo, hi, s) && Only(u, v, from, upto, 0) && (hi <= from || upto <= lo)
    ensures Stored(v, lo, hi, s)
  {}

  // memcpy of the pointers at the bottom of the tree: both arrays then point to the same blocks.
  method CopyPointers(movies: array<Ptr>, lo: nat, hi: nat) returns (cpy: array<Ptr>)
    requires Linked(movies[..], lo, hi)
    ensures fresh(cpy) && cpy.Length == hi - lo
    ensures forall k | 0 <= k < hi - lo :: cpy[..][k] == Shared(lo + k)
  {
    cpy := new Ptr[hi - lo];
    var i := 0;
    while i < hi - lo
      invariant i <= hi - lo && forall k | 0 <= k < i :: cpy[k] == Shared(lo + k)
      invariant Linked(movies[..], lo, hi)
    {
      cpy[i] := movies[..][lo + i];
      i := i + 1;
    }
  }

  lemma LeafHolds(w: Cells<Text>, cpy: seq<Ptr>, lo: nat, hi: nat, s: seq<Item>)
    requires Stored(w, lo, hi, s) && |cpy| == hi - lo && forall k | 0 <= k < hi - lo :: cpy[k] == Shared(lo + k)
    ensures Holds(w.ms, View(cpy, w.ps), 0, hi - lo, lo, s)
  {
    forall k | 0 <= k < hi - lo ensures Reads(w.ms, cpy[k], w.ps[k + lo], s[k - 0]) {
      assert w.ms[lo + k] == s[lo + k - lo].title && w.ps[lo + k] == s[lo + k - lo].score;
    }
  }

  // malloc and strcpy above the bottom: private copies of the strings the children left.
  method CopyStrings(blocks: array<Text>, movies: array<Ptr>, lo: nat, hi: nat, ghost ps: seq<real>, ghost s: seq<Item>)
      returns (cpy: array<Ptr>)
    requires Linked(movies[..], lo, hi) && Stored(View(blocks[..], ps), lo, hi, s)
    ensures fresh(cpy) && cpy.Length == hi - lo && Placed(View(cpy[..], ps), 0, hi - lo, lo, s)
  {
    cpy := new Ptr[hi - lo];
    ghost var w := View(blocks[..], ps);
    var i := 0;
    while i < hi - lo
      invariant i <= hi - lo && w == View(blocks[..], ps) && Linked(movies[..], lo, hi)
      invariant forall k | 0 <= k < i :: cpy[k] == Private(s[k].title)
    {
      assert movies[..][lo + i] == Shared(lo + i) && w.ms[lo + i] == s[lo + i - lo].title;
      cpy[i] := Private(Deref(blocks[..], movies[lo + i]));
      i := i + 1;
    }
    PlacedCopies(w, cpy[..], lo, hi, s);
  }

  lemma PlacedCopies(w: Cells<Text>, cpy: seq<Ptr>, lo: nat, hi: nat, s: seq<Item>)
    requires Stored(w, lo, hi, s) && |cpy| == hi - lo && forall k | 0 <= k < hi - lo :: cpy[k] == Private(s[k].title)
    ensures Placed(View(cpy, w.ps), 0, hi - lo, lo, s)
  {
    forall k | 0 <= k < hi - lo ensures Is(View(cpy, w.ps), k, 0, lo, s) {
      assert w.ps[lo + k] == s[lo + k - lo].score;
    }
  }

  // A moment of the final copying: `t` is the next block to be overwritten.
  ghost predicate Storing(w: Cells<Text>, lo: int, t: int, all: seq<Item>) {
    && 0 <= lo <= t <= lo + |all| <= |w.ms| && lo + |all| <= |w.ps|
    && forall k | lo <= k < t :: w.ms[k] == all[k - lo].title && w.ps[k] == all[k - lo].score
  }

  function Overwritten(w: Cells<Text>, t: nat, x: Item): Cells<Text>
    requires t < |w.ms| && t < |w.ps|
  {
    View(w.ms[t := x.title], w.ps[t := x.score])
  }

  lemma StoreNext(w: Cells<Text>, lo: nat, t: nat, all: seq<Item>)
    requires Storing(w, lo, t, all) && t - lo < |all|
    ensures Storing(Overwritten(w, t, all[t - lo]), lo, t + 1, all)
    ensures Only(w, Overwritten(w, t, all[t - lo]), lo, lo + |all|, 0)
  {}

  // strcpy of one merged string over a shared block, while other pointers may still lead there.
  method StoreOne(blocks: array<Text>, dest: Ptr, pts: array<real>, k: nat, source: Ptr, score: real, ghost x: Item)
    requires dest == Shared(k) && k < blocks.Length && k < pts.Length && Reads(blocks[..], source, score, x)
    modifies blocks, pts
    ensures View(blocks[..], pts[..]) == Overwritten(View(old(blocks[..]), old(pts[..])), k, x)
  {
    var content := Deref(blocks[..], source);
    blocks[dest.block] := content;
    pts[k] := score;
  }

  // The final copying; the merged strings are private, so none of them changes on the way.
  method StoreBack(blocks: array<Text>, movies: array<Ptr>, lo: nat, hi: nat, pts: array<real>, tmpMovies: array<Ptr>,
                   tmpPts: array<real>, ghost r: seq<Item>)
    requires Linked(movies[..], lo, hi) && hi <= blocks.Length && hi <= pts.Length && |r| == hi - lo
    requires Placed(View(tmpMovies[..], tmpPts[..]), 0, hi - lo, 0, r) && tmpPts != pts
    modifies blocks, pts
    ensures Stored(View(blocks[..], pts[..]), lo, hi, r)
    ensures Only(View(old(blocks[..]), old(pts[..])), View(blocks[..], pts[..]), lo, hi, 0)
  {
    ghost var start, tmp := View(blocks[..], pts[..]), View(tmpMovies[..], tmpPts[..]);
    ghost var w := start;
    var i := lo;
    while i < hi
      invariant lo <= i <= hi && w == View(blocks[..], pts[..]) && tmp == View(tmpMovies[..], tmpPts[..])
      invariant Storing(w, lo, i, r)
      invariant Only(start, w, lo, hi, 0)
    {
      PlacedAt(tmp, 0, hi - lo, 0, r, i - lo);
      StoreNext(w, lo, i, r);
      ghost var z := Overwritten(w, i, r[i - lo]);
      OnlyTwice(start, w, z, lo, hi, 0);
      assert movies[..][i] == Shared(i);
      StoreOne(blocks, movies[i], pts, i, tmpMovies[i - lo], tmpPts[i - lo], r[i - lo]);
      w := z;
      i := i + 1;
    }
  }

  // The bottom of the tree: the library sorts the pointer copy, and its scores, in two halves.
  method SortLeaf(blocks: array<Text>, movies: array<Ptr>, lo: nat, mid: nat, hi: nat, pts: array<real>,
        ghost s: seq<Item>)
      returns (cpy: array<Ptr>)
    requires Linked(movies[..], lo, hi) && Stored(View(blocks[..], pts[..]), lo, hi, s) && NonNegative(s)
    requires mid == lo + |s| / 2 && hi - lo >= 2
    modifies pts
    ensures fresh(cpy) && cpy.Length == hi - lo && pts.Length == |old(pts[..])|
    ensures Placed(View(cpy[..], pts[..]), 0, mid - lo, lo, LibSort(Front(s)))
    ensures Placed(View(cpy[..], pts[..]), mid - lo, hi - lo, lo, LibSort(Back(s)))
    ensures Only(View(blocks[..], old(pts[..])), View(blocks[..], pts[..]), lo, hi, 0)
  {
    cpy := CopyPointers(movies, lo, hi);
    var n, m := hi - lo, mid - lo;
    ghost var w, u := View(blocks[..], pts[..]), View(cpy[..], pts[..]);
    LeafHolds(w, cpy[..], lo, hi, s);
    SplitHolds(blocks[..], u, 0, m, n, lo, s);
    Sort(blocks[..], cpy, 0, m, pts, lo, Front(s));
    ghost var v := View(cpy[..], pts[..]);
    HoldsStill(blocks[..], u, v, 0, m, n, lo, Back(s));
    Sort(blocks[..], cpy, m, n, pts, lo, Back(s));
    ghost var z := View(cpy[..], pts[..]);
    PlacedStill(v, z, 0, m, n, lo, LibSort(Front(s)));
    OnlyHalves(u, v, z, 0, m, n, lo);
    ScoresOnly(w, u, z, lo, n);
  }

  lemma ScoresOnly(w: Cells<Text>, u: View, z: View, lo: nat, n: nat)
    requires Only(u, z, 0, n, lo) && u.ps == w.ps
    ensures Only(w, View(w.ms, z.ps), lo, lo + n, 0)
  {}

  lemma StoredTogether(w: Cells<Text>, lo: nat, mid: nat, hi: nat, a: seq<Item>, b: seq<Item>)
    requires Stored(w, lo, mid, a) && Stored(w, mid, hi, b)
    ensures Stored(w, lo, hi, a + b)
  {}

  lemma PlacedApart(v: View, m: nat, n: nat, d: int, a: seq<Item>, b: seq<Item>)
    requires Placed(v, 0, n, d, a + b) && |a| == m && |b| == n - m
    ensures Placed(v, 0, m, d, a) && Placed(v, m, n, d, b)
  {
    forall k | 0 <= k < m ensures Is(v, k, 0, d, a) { assert Is(v, k, 0, d, a + b); }
    forall k | m <= k < n ensures Is(v, k, m, d, b) { assert Is(v, k, 0, d, a + b); }
  }

  lemma ChildrenDone(u: Cells<Text>, v: Cells<Text>, z: Cells<Text>, lo: nat, mid: nat, hi: nat, a: seq<Item>,
        b: seq<Item>)
    requires lo <= mid <= hi && Only(u, v, lo, mid, 0) && Stored(v, lo, mid, a)
    requires Only(v, z, mid, hi, 0) && Stored(z, mid, hi, b)
    ensures Only(u, z, lo, hi, 0) && Stored(z, lo, hi, a + b)
  {
    StoredStill(v, z, lo, mid, a, mid, hi);
    OnlyHalves(u, v, z, lo, mid, hi, 0);
    StoredTogether(z, lo, mid, hi, a, b);
  }

  // Above the bottom: two child processes sort the halves of the shared store in place.
  method SortChildren(blocks: array<Text>, movies: array<Ptr>, lo: nat, mid: nat, hi: nat, pts: array<real>,
        below: Depth, ghost s: seq<Item>)
    requires Linked(movies[..], lo, hi) && Stored(View(blocks[..], pts[..]), lo, hi, s) && NonNegative(s)
    requires mid == lo + |s| / 2 && below.Fork? && hi - lo >= Pow2(Fork(below))
    modifies blocks, pts
    ensures Stored(View(blocks[..], pts[..]), lo, hi, MergeSort(below, Front(s)) + MergeSort(below, Back(s)))
    ensures Only(View(old(blocks[..]), old(pts[..])), View(blocks[..], pts[..]), lo, hi, 0)
    decreases below, 1
  {
    ghost var u := View(blocks[..], pts[..]);
    SplitStored(u, lo, mid, hi, s);
    ProcessSort(blocks, movies, lo, mid, pts, below, Front(s));
    ghost var v := View(blocks[..], pts[..]);
    StoredStill(u, v, mid, hi, Back(s), lo, mid);
    ProcessSort(blocks, movies, mid, hi, pts, below, Back(s));
    ghost var z := View(blocks[..], pts[..]);
    ChildrenDone(u, v, z, lo, mid, hi, MergeSort(below, Front(s)), MergeSort(below, Back(s)));
  }

  // mergeSort of the process version: it leaves in the shared store what the thread version
  // leaves behind its pointers.
  method ProcessSort(blocks: array<Text>, movies: array<Ptr>, lo: nat, hi: nat, pts: array<real>, tree: Depth,
        ghost s: seq<Item>)
    requires Linked(movies[..], lo, hi) && Stored(View(blocks[..], pts[..]), lo, hi, s) && NonNegative(s)
    requires tree.Fork? && hi - lo >= Pow2(tree)
    modifies blocks, pts
    ensures Stored(View(blocks[..], pts[..]), lo, hi, MergeSort(tree, s))
    ensures Only(View(old(blocks[..]), old(pts[..])), View(blocks[..], pts[..]), lo, hi, 0)
    decreases tree, 0
  {
    var len := hi - lo;
    var mid := len / 2;
    ghost var u := View(blocks[..], pts[..]);
    ghost var a, b := MergeSort(tree.below, Front(s)), MergeSort(tree.below, Back(s));
    var cpy;
    if tree.below.Bottom? {
      cpy := SortLeaf(blocks, movies, lo, lo + mid, hi, pts, s);
    } else {
      SortChildren(blocks, movies, lo, lo + mid, hi, pts, tree.below, s);
      cpy := CopyStrings(blocks, movies, lo, hi, pts[..], a + b);
      PlacedApart(View(cpy[..], pts[..]), mid, len, lo, a, b);
    }
    ghost var v := View(blocks[..], pts[..]);
    var tmpMovies, tmpPts := MergeOut(cpy, 0, mid, len, pts, lo, a, b);
    StoreBack(blocks, movies, lo, hi, pts, tmpMovies, tmpPts, Merge(a, b));
    OnlyTwice(u, v, View(blocks[..], pts[..]), lo, hi, 0);
  }
}
