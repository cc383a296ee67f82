/**
 What the recommendation sort computes (hw4_simple-movies-recommendation-system): the library's
 decorating selection sort as a function, the merge sort built on it, and the proof that the
 merge sort gives what one call of the library sort on the whole list gives.
 */
module SortSpec {
  import opened Titles

  datatype Item = Item(title: Text, score: real)

  // Strictly earlier in the recommendation: higher score, then smaller title.
  predicate Before(x: Item, y: Item) {
    x.score > y.score || (x.score == y.score && Less(x.title, y.title))
  }

  lemma BeforeOrder(x: Item, y: Item, z: Item)
    ensures !(Before(x, y) && Before(y, x)) && !Before(x, x)
    ensures !Before(x, y) && !Before(y, x) ==> x == y
    ensures !Before(y, x) && !Before(z, y) ==> !Before(z, x)
  {
    LessTotal(x.title, y.title);
    LessTotal(y.title, z.title);
    LessTotal(x.title, z.title);
    if Less(x.title, y.title) && Less(y.title, z.title) {
      LessTransitive(x.title, y.title, z.title);
    }
  }

  ghost predicate Ordered(s: seq<Item>) {
    forall i, j | 0 <= i < j < |s| :: !Before(s[j], s[i])
  }

  // ---------- lib.c ----------

  // Position of the best item of `s`, looking from `i` on with `best` found so far.
  function ArgMax(s: seq<Item>, i: nat, best: nat): (r: nat)
    requires best < i <= |s|
    ensures r < |s|
    decreases |s| - i
  {
    if i == |s| then best else ArgMax(s, i + 1, if Before(s[i], s[best]) then i else best)
  }

  lemma {:induction false} ArgMaxBest(s: seq<Item>, i: nat, best: nat)
    requires best < i <= |s| && forall j | 0 <= j < i :: !Before(s[j], s[best])
    ensures forall j | 0 <= j < |s| :: !Before(s[j], s[ArgMax(s, i, best)])
    decreases |s| - i
  {
    if i < |s| {
      var b' := if Before(s[i], s[best]) then i else best;
      forall j | 0 <= j < i + 1 ensures !Before(s[j], s[b']) {
        BeforeOrder(s[b'], s[best], s[if j < i then j else best]);
        BeforeOrder(s[i], s[best], s[i]);
      }
      ArgMaxBest(s, i + 1, b');
    }
  }

  function Swap(s: seq<Item>, i: nat): seq<Item>
    requires i < |s|
  {
    s[i := s[0]][0 := s[i]]
  }

  // Selection sort, best item first.
  function Select(s: seq<Item>): (r: seq<Item>)
    ensures |r| == |s|
    decreases |s|
  {
    if s == [] then []
    else var t := Swap(s, ArgMax(s, 1, 0)); [t[0]] + Select(t[1..])
  }

  function Decorate(x: Item): Item {
    x.(title := AddSecret(x.title))
  }

  function DecorateAll(s: seq<Item>): (r: seq<Item>)
    ensures |r| == |s|
  {
    seq(|s|, i requires 0 <= i < |s| => Decorate(s[i]))
  }

  // The library's sort: every string it places is replaced by a decorated copy.
  function LibSort(s: seq<Item>): (r: seq<Item>)
    ensures |r| == |s|
  {
    DecorateAll(Select(s))
  }

  lemma SwapPermutes(s: seq<Item>, i: nat)
    requires i < |s|
    ensures multiset(Swap(s, i)) == multiset(s) && |Swap(s, i)| == |s| && Swap(s, i)[0] == s[i]
  {}

  // Both a rearrangement of `s` and in order.
  ghost predicate Sorts(r: seq<Item>, s: seq<Item>) {
    multiset(r) == multiset(s) && Ordered(r)
  }

  lemma SortsMember(r: seq<Item>, s: seq<Item>, x: Item)
    requires multiset(r) == multiset(s) && x in r
    ensures x in s
  {
    assert x in multiset(r);
  }

  lemma ConsSorts(h: Item, r: seq<Item>, t: seq<Item>, s: seq<Item>)
    requires Sorts(r, t) && multiset([h] + t) == multiset(s) && forall x | x in s :: !Before(x, h)
    ensures Sorts([h] + r, s)
  {
    forall j | 0 <= j < |r| ensures !Before(r[j], h) {
      SortsMember(r, t, r[j]);
      SortsMember([h] + t, s, r[j]);
    }
  }

  lemma {:induction false} SelectSorts(s: seq<Item>)
    ensures Sorts(Select(s), s)
    decreases |s|
  {
    if s != [] {
      var m := ArgMax(s, 1, 0);
      var t := Swap(s, m);
      BeforeOrder(s[0], s[0], s[0]);
      ArgMaxBest(s, 1, 0);
      SwapPermutes(s, m);
      SelectSorts(t[1..]);
      assert t == [t[0]] + t[1..];
      ConsSorts(t[0], Select(t[1..]), t[1..], s);
    }
  }

  // ---------- mergeSort ----------

  function Merge(a: seq<Item>, b: seq<Item>): (r: seq<Item>)
    ensures |r| == |a| + |b|
    decreases |a| + |b|
  {
    if a == [] then b
    else if b == [] then a
    else if Before(a[0], b[0]) then [a[0]] + Merge(a[1..], b)
    else [b[0]] + Merge(a, b[1..])
  }

  // Levels of forking above the library sorts; `Levels(n)` is a full task tree of depth n.
  datatype Depth = Bottom | Fork(below: Depth)

  function Levels(n: nat): Depth {
    if n == 0 then Bottom else Fork(Levels(n - 1))
  }

  function Pow2(d: Depth): (r: nat)
    ensures r >= 1
  {
    match d
    case Bottom => 1
    case Fork(e) => 2 * Pow2(e)
  }

  function Front(s: seq<Item>): (r: seq<Item>)
    ensures |r| == |s| / 2
  {
    s[..|s| / 2]
  }

  function Back(s: seq<Item>): (r: seq<Item>)
    ensures |r| == |s| - |s| / 2
  {
    s[|s| / 2..]
  }

  // `d` levels of halving; at the bottom the library sorts each piece.
  function MergeSort(d: Depth, s: seq<Item>): (r: seq<Item>)
    ensures |r| == |s|
    decreases d
  {
    match d
    case Bottom => LibSort(s)
    case Fork(e) => Merge(MergeSort(e, Front(s)), MergeSort(e, Back(s)))
  }

  // The same on plain titles.
  function PlainSort(d: Depth, s: seq<Item>): (r: seq<Item>)
    ensures |r| == |s|
    decreases d
  {
    match d
    case Bottom => Select(s)
    case Fork(e) => Merge(PlainSort(e, Front(s)), PlainSort(e, Back(s)))
  }

  ghost predicate CompatibleTitles(s: seq<Item>) {
    forall x, y | x in s && y in s :: Compatible(x.title, y.title)
  }

  lemma ConsBag(h: Item, t: seq<Item>, s: seq<Item>)
    requires s == [h] + t
    ensures multiset(s) == multiset{h} + multiset(t)
  {}

  // One step of a merge that takes `h` from the list `s`; `r` is what remains of `s`.
  lemma TakeBag(h: Item, r: seq<Item>, s: seq<Item>, o: seq<Item>, t: seq<Item>, m: seq<Item>)
    requires s == [h] + r && m == [h] + t && multiset(t) == multiset(r) + multiset(o)
    ensures multiset(m) == multiset(s) + multiset(o)
  {
    ConsBag(h, r, s);
    ConsBag(h, t, m);
  }

  lemma {:induction false} MergePermutes(a: seq<Item>, b: seq<Item>)
    ensures multiset(Merge(a, b)) == multiset(a) + multiset(b)
    decreases |a| + |b|
  {
    if a != [] && b != [] {
      if Before(a[0], b[0]) {
        MergePermutes(a[1..], b);
        TakeBag(a[0], a[1..], a, b, Merge(a[1..], b), Merge(a, b));
      } else {
        MergePermutes(a, b[1..]);
        TakeBag(b[0], b[1..], b, a, Merge(a, b[1..]), Merge(a, b));
      }
    }
  }

  lemma ConsOrdered(h: Item, t: seq<Item>)
    requires Ordered(t) && forall x | x in t :: !Before(x, h)
    ensures Ordered([h] + t)
  {}

  lemma MergeMember(a: seq<Item>, b: seq<Item>, x: Item)
    requires x in Merge(a, b)
    ensures x in a || x in b
  {
    MergePermutes(a, b);
    assert x in multiset(Merge(a, b));
  }

  lemma {:induction false} MergeOrders(a: seq<Item>, b: seq<Item>)
    requires Ordered(a) && Ordered(b)
    ensures Ordered(Merge(a, b))
    decreases |a| + |b|
  {
    if a != [] && b != [] {
      var h := if Before(a[0], b[0]) then a[0] else b[0];
      var a1, b1 := if Before(a[0], b[0]) then a[1..] else a, if Before(a[0], b[0]) then b else b[1..];
      assert Merge(a, b) == [h] + Merge(a1, b1);
      MergeOrders(a1, b1);
      forall x | x in Merge(a1, b1) ensures !Before(x, h) {
        MergeMember(a1, b1, x);
        HeadFirst(a, b, x);
      }
      ConsOrdered(h, Merge(a1, b1));
    }
  }

  lemma HeadFirst(a: seq<Item>, b: seq<Item>, x: Item)
    requires a != [] && b != [] && Ordered(a) && Ordered(b) && (x in a || x in b)
    ensures !Before(x, if Before(a[0], b[0]) then a[0] else b[0])
  {
    BeforeOrder(a[0], b[0], x);
    BeforeOrder(b[0], a[0], x);
    BeforeOrder(x, x, x);
  }

  lemma DecorateCons(x: Item, s: seq<Item>)
    ensures DecorateAll([x] + s) == [Decorate(x)] + DecorateAll(s)
  {}

  lemma DecorateKeepsBefore(x: Item, y: Item)
    requires Compatible(x.title, y.title)
    ensures Before(Decorate(x), Decorate(y)) <==> Before(x, y)
  {
    SecretKeepsOrder(x.title, y.title);
  }

  // Decoration commutes with merging, because the two orders agree on these titles.
  lemma {:induction false} MergeDecorated(a: seq<Item>, b: seq<Item>)
    requires forall x, y | x in a && y in b :: Compatible(x.title, y.title)
    ensures Merge(DecorateAll(a), DecorateAll(b)) == DecorateAll(Merge(a, b))
    decreases |a| + |b|
  {
    if a != [] && b != [] {
      assert a == [a[0]] + a[1..] && b == [b[0]] + b[1..];
      DecorateCons(a[0], a[1..]);
      DecorateCons(b[0], b[1..]);
      DecorateKeepsBefore(a[0], b[0]);
      if Before(a[0], b[0]) {
        MergeDecorated(a[1..], b);
        DecorateCons(a[0], Merge(a[1..], b));
      } else {
        MergeDecorated(a, b[1..]);
        DecorateCons(b[0], Merge(a, b[1..]));
      }
    }
  }

  lemma Halves(s: seq<Item>)
    ensures Front(s) + Back(s) == s
  {}

  lemma MergeSorts(pa: seq<Item>, pb: seq<Item>, s: seq<Item>)
    requires Sorts(pa, Front(s)) && Sorts(pb, Back(s))
    ensures Sorts(Merge(pa, pb), s)
  {
    MergePermutes(pa, pb);
    MergeOrders(pa, pb);
    Halves(s);
    assert multiset(Front(s) + Back(s)) == multiset(Front(s)) + multiset(Back(s));
  }

  lemma {:induction false} PlainSortSorts(d: Depth, s: seq<Item>)
    ensures Sorts(PlainSort(d, s), s)
    decreases d
  {
    match d
    case Bottom => SelectSorts(s);
    case Fork(e) =>
      PlainSortSorts(e, Front(s));
      PlainSortSorts(e, Back(s));
      MergeSorts(PlainSort(e, Front(s)), PlainSort(e, Back(s)), s);
  }

  lemma HalvesCompatible(s: seq<Item>, a: seq<Item>, b: seq<Item>)
    requires CompatibleTitles(s) && s == a + b
    ensures CompatibleTitles(a) && CompatibleTitles(b)
  {
    forall x | x in a || x in b ensures x in s {}
  }

  lemma SortedCompatible(d: Depth, s: seq<Item>, a: seq<Item>, b: seq<Item>)
    requires CompatibleTitles(s) && s == a + b
    ensures forall x, y | x in PlainSort(d, a) && y in PlainSort(d, b) :: Compatible(x.title, y.title)
  {
    forall x, y | x in PlainSort(d, a) && y in PlainSort(d, b) ensures Compatible(x.title, y.title) {
      PlainSortSorts(d, a);
      PlainSortSorts(d, b);
      SortsMember(PlainSort(d, a), a, x);
      SortsMember(PlainSort(d, b), b, y);
      assert x in s && y in s;
    }
  }

  // Merging decorated strings gives the decorated merge of the plain ones.
  ghost predicate Decorates(d: Depth, s: seq<Item>) {
    MergeSort(d, s) == DecorateAll(PlainSort(d, s))
  }

  lemma DecorateStep(e: Depth, s: seq<Item>)
    requires CompatibleTitles(s) && Decorates(e, Front(s)) && Decorates(e, Back(s))
    ensures Decorates(Fork(e), s)
  {
    var a, b := Front(s), Back(s);
    assert s == a + b;
    SortedCompatible(e, s, a, b);
    MergeDecorated(PlainSort(e, a), PlainSort(e, b));
  }

  lemma {:induction false} MergeSortDecorates(d: Depth, s: seq<Item>)
    requires CompatibleTitles(s)
    ensures Decorates(d, s)
    decreases d
  {
    match d
    case Bottom =>
    case Fork(e) =>
      assert s == Front(s) + Back(s);
      HalvesCompatible(s, Front(s), Back(s));
      MergeSortDecorates(e, Front(s));
      MergeSortDecorates(e, Back(s));
      DecorateStep(e, s);
  }

  // Two ordered lists of the same items are the same list.
  lemma {:induction false} OrderedUnique(a: seq<Item>, b: seq<Item>)
    requires multiset(a) == multiset(b) && Ordered(a) && Ordered(b)
    ensures a == b
    decreases |a|
  {
    assert |a| == |multiset(a)| == |multiset(b)| == |b|;
    if a != [] {
      SameHead(a, b);
      TailBag(a, b);
      OrderedUnique(a[1..], b[1..]);
      assert a == [a[0]] + a[1..] && b == [b[0]] + b[1..];
    }
  }

  lemma SameHead(a: seq<Item>, b: seq<Item>)
    requires a != [] && b != [] && multiset(a) == multiset(b) && Ordered(a) && Ordered(b)
    ensures a[0] == b[0]
  {
    assert a[0] in multiset(b) && b[0] in multiset(a);
    BeforeOrder(a[0], b[0], a[0]);
  }

  lemma TailBag(a: seq<Item>, b: seq<Item>)
    requires a != [] && b != [] && a[0] == b[0] && multiset(a) == multiset(b)
    ensures multiset(a[1..]) == multiset(b[1..])
  {
    ConsBag(a[0], a[1..], a);
    ConsBag(b[0], b[1..], b);
    assert multiset(a[1..]) == multiset(a) - multiset{a[0]};
    assert multiset(b[1..]) == multiset(b) - multiset{b[0]};
  }

  // The fork-join sort refines the plain sort, at any depth.
  lemma MergeSortIsLibSort(d: Depth, s: seq<Item>)
    requires CompatibleTitles(s)
    ensures MergeSort(d, s) == LibSort(s)
  {
    MergeSortDecorates(d, s);
    PlainSortSorts(d, s);
    SelectSorts(s);
    OrderedUnique(PlainSort(d, s), Select(s));
  }

  // With any titles, the merge sort is a rearrangement of the decorated items.
  lemma {:induction false} MergeSortPermutes(d: Depth, s: seq<Item>)
    ensures multiset(MergeSort(d, s)) == multiset(DecorateAll(s))
    decreases d
  {
    match d
    case Bottom =>
      SelectSorts(s);
      DecorateBag(Select(s), s);
    case Fork(e) =>
      MergeSortPermutes(e, Front(s));
      MergeSortPermutes(e, Back(s));
      MergePermutes(MergeSort(e, Front(s)), MergeSort(e, Back(s)));
      Halves(s);
      assert DecorateAll(s) == DecorateAll(Front(s)) + DecorateAll(Back(s));
  }

  lemma DecorateBag(r: seq<Item>, s: seq<Item>)
    requires multiset(r) == multiset(s)
    ensures multiset(DecorateAll(r)) == multiset(DecorateAll(s))
  {
    var p := Arrange(s, r);
    forall k | 0 <= k < |p| ensures DecorateAll(r)[k] == DecorateAll(s)[p[k]] {}
    ArrangedBag(DecorateAll(s), DecorateAll(r), p);
  }

  // ---------- rearrangements by position ----------

  // `r` takes from `s` what stands at the places `p`, every place once.
  ghost predicate Arranged<T>(s: seq<T>, r: seq<T>, p: seq<nat>) {
    && |p| == |r| && (forall k | 0 <= k < |p| :: p[k] < |s| && r[k] == s[p[k]])
    && (forall i, j | 0 <= i < j < |p| :: p[i] != p[j])
    && forall i: nat | i < |s| :: i in p
  }

  lemma RemoveBag<T>(r: seq<T>, j: nat)
    requires j < |r|
    ensures multiset(r) == multiset(r[..j] + r[j + 1..]) + multiset{r[j]}
  {
    assert r == r[..j] + [r[j]] + r[j + 1..];
  }

  lemma LastBag<T>(s: seq<T>)
    requires s != []
    ensures multiset(s) == multiset(s[..|s| - 1]) + multiset{s[|s| - 1]}
  {
    assert s == s[..|s| - 1] + [s[|s| - 1]];
  }

  lemma RestBag<T>(s: seq<T>, r: seq<T>, j: nat)
    requires s != [] && j < |r| && r[j] == s[|s| - 1] && multiset(r) == multiset(s)
    ensures multiset(r[..j] + r[j + 1..]) == multiset(s[..|s| - 1])
  {
    RemoveBag(r, j);
    LastBag(s);
    var u, w, x := multiset(r[..j] + r[j + 1..]), multiset(s[..|s| - 1]), r[j];
    assert u == (u + multiset{x}) - multiset{x} && w == (w + multiset{x}) - multiset{x};
  }

  // Leaving out the last item of `s` and its place in `r`.
  lemma ArrangedLess<T>(s: seq<T>, r: seq<T>, p: seq<nat>, j: nat)
    requires s != [] && Arranged(s, r, p) && j < |p| && p[j] == |s| - 1
    ensures Arranged(s[..|s| - 1], r[..j] + r[j + 1..], p[..j] + p[j + 1..])
  {
    var less, q := s[..|s| - 1], p[..j] + p[j + 1..];
    forall i: nat | i < |less| ensures i in q {
      assert i in p;
      var k :| 0 <= k < |p| && p[k] == i;
      assert q[if k < j then k else k - 1] == i;
    }
  }

  lemma ArrangedMore<T>(s: seq<T>, r: seq<T>, p: seq<nat>, j: nat)
    requires s != [] && j < |r| && r[j] == s[|s| - 1] && j <= |p|
    requires Arranged(s[..|s| - 1], r[..j] + r[j + 1..], p)
    ensures Arranged(s, r, p[..j] + [|s| - 1] + p[j..])
  {
    var q := p[..j] + [|s| - 1] + p[j..];
    forall k | 0 <= k < |q| ensures q[k] < |s| && r[k] == s[q[k]] {
      if k != j { assert (r[..j] + r[j + 1..])[if k < j then k else k - 1] == r[k]; }
    }
    forall i: nat | i < |s| ensures i in q {
      if i < |s| - 1 {
        assert i in p;
        var k :| 0 <= k < |p| && p[k] == i;
        assert q[if k < j then k else k + 1] == i;
      } else {
        assert q[j] == i;
      }
    }
  }

  // Lists of the same items are rearrangements of each other ...
  lemma {:induction false} Arrange<T>(s: seq<T>, r: seq<T>) returns (p: seq<nat>)
    requires multiset(r) == multiset(s)
    ensures Arranged(s, r, p)
    decreases |s|
  {
    assert |r| == |multiset(r)| == |s|;
    p := [];
    if s != [] {
      var n := |s| - 1;
      assert s[n] in multiset(r);
      var j :| 0 <= j < |r| && r[j] == s[n];
      RestBag(s, r, j);
      p := Arrange(s[..n], r[..j] + r[j + 1..]);
      ArrangedMore(s, r, p, j);
      p := p[..j] + [n] + p[j..];
    }
  }

  // ... and rearrangements have the same items.
  lemma {:induction false} ArrangedBag<T>(s: seq<T>, r: seq<T>, p: seq<nat>)
    requires Arranged(s, r, p)
    ensures multiset(r) == multiset(s) && |r| == |s|
    decreases |s|
  {
    if s != [] {
      var n := |s| - 1;
      assert n in p;
      var j :| 0 <= j < |p| && p[j] == n;
      ArrangedLess(s, r, p, j);
      ArrangedBag(s[..n], r[..j] + r[j + 1..], p[..j] + p[j + 1..]);
      RemoveBag(r, j);
      LastBag(s);
    }
  }

  // ---------- exactly which titles the refinement needs ----------

  function Copies(x: Item, n: nat): (r: seq<Item>)
    ensures |r| == n
  {
    seq(n, i => x)
  }

  // `n` copies of one item followed by `n` copies of another one.
  function Block(x: Item, y: Item, n: nat): seq<Item> {
    Copies(x, n) + Copies(y, n)
  }

  lemma CopiesSorted(x: Item, n: nat, d: Depth)
    ensures MergeSort(d, Copies(x, n)) == Copies(Decorate(x), n)
  {
    var s := Copies(x, n);
    MergeSortDecorates(d, s);
    PlainSortSorts(d, s);
    var p := PlainSort(d, s);
    forall i | 0 <= i < n ensures p[i] == x {
      SortsMember(p, s, p[i]);
    }
  }

  lemma AddSecretInjective(a: Text, b: Text)
    requires a != b
    ensures AddSecret(a) != AddSecret(b)
  {
    assert AddSecret(a)[..|a|] == a && AddSecret(b)[..|b|] == b;
  }

  lemma BlockMergeHead(x: Item, y: Item, n: nat, e: Depth)
    requires n >= 1 && !Before(Decorate(x), Decorate(y))
    ensures MergeSort(Fork(e), Block(x, y, n))[0] == Decorate(y)
  {
    var s := Block(x, y, n);
    assert Front(s) == Copies(x, n) && Back(s) == Copies(y, n);
    CopiesSorted(x, n, e);
    CopiesSorted(y, n, e);
  }

  lemma BlockSelectHead(x: Item, y: Item, n: nat)
    requires n >= 1 && Before(x, y)
    ensures LibSort(Block(x, y, n))[0] == Decorate(x)
  {
    var s := Block(x, y, n);
    SelectSorts(s);
    var r := Select(s);
    SortsMember(r, s, r[0]);
    assert s[0] == x;
    SortsMember(s, r, x);
    BeforeOrder(x, y, x);
  }

  // If the suffix reverses two titles, the merge sort and the library sort differ on them.
  lemma ReversedTitlesDiffer(a: Text, b: Text, n: nat, d: Depth)
    requires n >= 1 && d.Fork? && Less(a, b) && !Less(AddSecret(a), AddSecret(b))
    ensures var s := Block(Item(a, 0.0), Item(b, 0.0), n);
            MergeSort(d, s) != LibSort(s)
  {
    BlockMergeHead(Item(a, 0.0), Item(b, 0.0), n, d.below);
    BlockSelectHead(Item(a, 0.0), Item(b, 0.0), n);
    LessTotal(a, b);
    AddSecretInjective(a, b);
  }

  ghost predicate DrawnFrom(s: seq<Item>, titles: set<Text>) {
    forall x | x in s :: x.title in titles && x.score >= 0.0
  }

  // The merge sort gives the library's result on every list over a set of titles if and only
  // if no title of the set continues another one by something below the secret.
  lemma RefinementExact(d: Depth, titles: set<Text>)
    requires d.Fork?
    ensures (forall s | DrawnFrom(s, titles) && |s| >= Pow2(d) :: MergeSort(d, s) == LibSort(s))
      <==> (forall a, b | a in titles && b in titles :: Compatible(a, b))
  {
    if forall a, b | a in titles && b in titles :: Compatible(a, b) {
      forall s | DrawnFrom(s, titles) ensures MergeSort(d, s) == LibSort(s) {
        MergeSortIsLibSort(d, s);
      }
    } else {
      var a, b :| a in titles && b in titles && !Compatible(a, b);
      var s := IncompatibleDiffer(d, titles, a, b);
    }
  }

  lemma IncompatibleDiffer(d: Depth, titles: set<Text>, a: Text, b: Text) returns (s: seq<Item>)
    requires d.Fork? && a in titles && b in titles && !Compatible(a, b)
    ensures DrawnFrom(s, titles) && |s| >= Pow2(d) && MergeSort(d, s) != LibSort(s)
  {
    SecretKeepsOrder(a, b);
    LessTotal(a, b);
    LessTotal(AddSecret(a), AddSecret(b));
    var (p, q) := if Less(a, b) then (a, b) else (b, a);
    s := Block(Item(p, 0.0), Item(q, 0.0), Pow2(d));
    BlockDrawn(p, q, Pow2(d), titles);
    ReversedTitlesDiffer(p, q, Pow2(d), d);
  }

  lemma BlockDrawn(p: Text, q: Text, n: nat, titles: set<Text>)
    requires p in titles && q in titles
    ensures DrawnFrom(Block(Item(p, 0.0), Item(q, 0.0), n), titles)
  {}

  // ---------- the task tree ----------

  // Sizes of the library sorts at the bottom of the tree, from left to right.
  function Leaves(d: Depth, n: nat): seq<nat> {
    match d
    case Bottom => [n]
    case Fork(e) => Leaves(e, n / 2) + Leaves(e, n - n / 2)
  }

  function Tasks(d: Depth): nat {
    match d
    case Bottom => 0
    case Fork(e) => 1 + Tasks(e) + Tasks(e)
  }

  lemma Twice(k: nat, p: nat)
    ensures k * (2 * p) == 2 * (k * p)
  {}

  lemma LeafBound(k: nat, p: nat, half: nat, n: nat)
    requires p >= 1 && k * p < half + p && half < k * p + p && n - 1 <= 2 * half <= n + 1
    ensures k * (2 * p) < n + 2 * p && n < k * (2 * p) + 2 * p
  {
    Twice(k, p);
  }

  // Every library sort gets the rounded-down or the rounded-up share of the `n` items.
  lemma {:induction false} LeafSize(d: Depth, n: nat, k: nat)
    requires k in Leaves(d, n)
    ensures k * Pow2(d) < n + Pow2(d) && n < k * Pow2(d) + Pow2(d)
    ensures n >= Pow2(d) ==> k >= 1
    decreases d
  {
    if d.Fork? {
      var half := if k in Leaves(d.below, n / 2) then n / 2 else n - n / 2;
      LeafSize(d.below, half, k);
      LeafBound(k, Pow2(d.below), half, n);
    }
  }

  // Halving `d` times gives 2^d library sorts under 2^d - 1 merging tasks.
  lemma {:induction false} LeafCount(d: Depth, n: nat)
    ensures |Leaves(d, n)| == Pow2(d) && Tasks(d) == Pow2(d) - 1
    decreases d
  {
    if d.Fork? {
      LeafCount(d.below, n / 2);
      LeafCount(d.below, n - n / 2);
    }
  }
}
