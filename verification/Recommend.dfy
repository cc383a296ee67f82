/**
 One recommendation from end to end, in the thread version and in the process version
 (hw4_simple-movies-recommendation-system/server.c:43-48, 124-158 and 293-324).
 */
module Recommend {
  import opened Titles
  import opened SortSpec
  import opened SortCode
  import opened MergeCode
  import ThreadJoin
  import ProcessJoin

  datatype Movie = Movie(title: Text, profile: seq<real>)
  datatype Request = Request(keywords: Text, profile: seq<real>)

  const NUM_OF_GENRE: nat := 19
  const STAR: Text := [42]
  const MERGE_THREAD: nat := 32

  // The task tree of `depth` = 5 levels.
  const TREE: Depth := Levels(5)

  // strstr(t, k) != NULL
  predicate Contains(t: Text, k: Text) {
    k <= t || (t != [] && Contains(t[1..], k))
  }

  predicate OccursAt(t: Text, k: Text, i: int) {
    0 <= i <= |t| - |k| && t[i..i + |k|] == k
  }

  lemma OccursInTail(t: Text, k: Text, i: nat)
    requires t != []
    ensures OccursAt(t[1..], k, i) <==> OccursAt(t, k, i + 1)
  {
    if i + 1 + |k| <= |t| { assert t[1..][i..i + |k|] == t[i + 1..i + 1 + |k|]; }
  }

  lemma OccursFirst(t: Text, k: Text)
    ensures OccursAt(t, k, 0) <==> k <= t
  {}

  // A title contains a keyword exactly if the keyword stands at some place of it.
  lemma {:induction false} ContainsExact(t: Text, k: Text)
    ensures Contains(t, k) <==> exists i :: OccursAt(t, k, i)
  {
    OccursFirst(t, k);
    if t != [] {
      ContainsExact(t[1..], k);
      forall i | OccursAt(t, k, i) && i > 0 ensures OccursAt(t[1..], k, i - 1) { OccursInTail(t, k, i - 1); }
      forall i | OccursAt(t[1..], k, i) ensures OccursAt(t, k, i + 1) { OccursInTail(t, k, i); }
    }
  }

  predicate Matches(m: Movie, r: Request) {
    Contains(m.title, r.keywords) || r.keywords == STAR
  }

  // Profiles have one non-negative weight per genre.
  predicate Weights(p: seq<real>) {
    |p| == NUM_OF_GENRE && forall i | 0 <= i < |p| :: p[i] >= 0.0
  }

  ghost predicate Admissible(db: seq<Movie>, r: Request) {
    Weights(r.profile) && forall i | 0 <= i < |db| :: Weights(db[i].profile)
  }

  // The scalar product of the first `n` weights.
  function Product(a: seq<real>, b: seq<real>, n: nat): (p: real)
    requires Weights(a) && Weights(b) && n <= NUM_OF_GENRE
    ensures p >= 0.0
  {
    if n == 0 then 0.0 else Product(a, b, n - 1) + a[n - 1] * b[n - 1]
  }

  method Dot(a: seq<real>, b: seq<real>) returns (res: real)
    requires Weights(a) && Weights(b)
    ensures res == Product(a, b, NUM_OF_GENRE) == Score(a, b)
  {
    ProductExact(a, b);
    res := 0.0;
    var i := 0;
    while i < NUM_OF_GENRE
      invariant i <= NUM_OF_GENRE && res == Product(a, b, i)
    {
      res := res + a[i] * b[i];
      i := i + 1;
    }
  }

  // Six products from place `i` on.
  function Six(a: seq<real>, b: seq<real>, i: nat): real
    requires i + 6 <= |a| && i + 6 <= |b|
  {
    a[i] * b[i] + a[i + 1] * b[i + 1] + a[i + 2] * b[i + 2]
      + a[i + 3] * b[i + 3] + a[i + 4] * b[i + 4] + a[i + 5] * b[i + 5]
  }

  // The scalar product over all nineteen genres.
  function Score(a: seq<real>, b: seq<real>): real
    requires |a| == |b| == 19
  {
    Six(a, b, 0) + Six(a, b, 6) + Six(a, b, 12) + a[18] * b[18]
  }

  lemma ProductExact(a: seq<real>, b: seq<real>)
    requires Weights(a) && Weights(b)
    ensures Product(a, b, NUM_OF_GENRE) == Score(a, b)
  {
    ProductSix(a, b, 0);
    ProductSix(a, b, 6);
    ProductSix(a, b, 12);
    ProductNext(a, b, 18);
  }

  lemma ProductSix(a: seq<real>, b: seq<real>, n: nat)
    requires Weights(a) && Weights(b) && n + 6 <= NUM_OF_GENRE
    ensures Product(a, b, n + 6) == Product(a, b, n) + Six(a, b, n)
  {
    ProductThree(a, b, n, Product(a, b, n), Product(a, b, n + 3));
    ProductThree(a, b, n + 3, Product(a, b, n + 3), Product(a, b, n + 6));
  }

  lemma ProductThree(a: seq<real>, b: seq<real>, n: nat, p: real, q: real)
    requires Weights(a) && Weights(b) && n + 3 <= NUM_OF_GENRE && p == Product(a, b, n) && q == Product(a, b, n + 3)
    ensures q == p + a[n] * b[n] + a[n + 1] * b[n + 1] + a[n + 2] * b[n + 2]
  {
    ProductNext(a, b, n);
    ProductNext(a, b, n + 1);
    ProductNext(a, b, n + 2);
  }

  lemma ProductNext(a: seq<real>, b: seq<real>, n: nat)
    requires Weights(a) && Weights(b) && n < NUM_OF_GENRE
    ensures Product(a, b, n + 1) == Product(a, b, n) + a[n] * b[n]
  {}

  // The matching movies among the first `n`, with their scores.
  ghost function Matching(db: seq<Movie>, r: Request, n: nat): (s: seq<Item>)
    requires Admissible(db, r) && n <= |db|
    ensures NonNegative(s) && |s| <= n
  {
    if n == 0 then []
    else if Matches(db[n - 1], r) then
      Matching(db, r, n - 1) + [Item(db[n - 1].title, Product(r.profile, db[n - 1].profile, NUM_OF_GENRE))]
    else Matching(db, r, n - 1)
  }

  ghost function Selected(db: seq<Movie>, r: Request): seq<Item>
    requires Admissible(db, r)
  {
    Matching(db, r, |db|)
  }

  function Lines(s: seq<Item>): (r: seq<Text>)
    ensures |r| == |s|
  {
    seq(|s|, i requires 0 <= i < |s| => s[i].title)
  }

  // What a recommendation prints: every matching title, decorated, best score first and equal
  // scores by title.
  ghost function Recommendation(s: seq<Item>): seq<Text> {
    Lines(LibSort(s))
  }

  lemma TreeSize()
    ensures TREE.Fork? && Pow2(TREE) == MERGE_THREAD
  {
    assert Levels(1) == Fork(Bottom) && Levels(2) == Fork(Levels(1)) && Levels(3) == Fork(Levels(2));
    assert Levels(4) == Fork(Levels(3)) && Levels(5) == Fork(Levels(4));
    assert Pow2(Levels(1)) == 2 && Pow2(Levels(2)) == 4 && Pow2(Levels(3)) == 8 && Pow2(Levels(4)) == 16;
  }

  // The list a recommendation prints, whichever way it was sorted.
  ghost function Sorted(s: seq<Item>): (r: seq<Item>)
    ensures |r| == |s|
  {
    if |s| < MERGE_THREAD then LibSort(s) else MergeSort(TREE, s)
  }

  // How the list of a request is sorted: by one library sort, or by a tree of threads.
  function Plan(n: nat): Depth {
    if n < MERGE_THREAD then Bottom else TREE
  }

  lemma PlanSorts(s: seq<Item>)
    ensures MergeSort(Plan(|s|), s) == Sorted(s)
  {}

  lemma SortedRecommends(s: seq<Item>)
    ensures CompatibleTitles(s) ==> Lines(Sorted(s)) == Recommendation(s)
  {
    if CompatibleTitles(s) { MergeSortIsLibSort(TREE, s); }
  }

  // The recommendation is the one ordered arrangement of the matching movies, each title
  // carrying the secret.
  lemma RecommendationUnique(s: seq<Item>, p: seq<Item>)
    requires Sorts(p, s)
    ensures Recommendation(s) == Lines(DecorateAll(p))
  {
    SelectSorts(s);
    OrderedUnique(p, Select(s));
  }

  // ---------- what is printed, from outside ----------

  // Line `k` of the output is the decorated title of movie `p[k]`; every movie is listed once if its title
  // has the keyword at some place, or the keyword is a star, and not otherwise.
  ghost predicate Listing(db: seq<Movie>, r: Request, p: seq<nat>, out: seq<Text>) {
    && |p| == |out| && (forall k | 0 <= k < |p| :: p[k] < |db| && out[k] == db[p[k]].title + SECRET)
    && (forall i, j | 0 <= i < j < |p| :: p[i] != p[j])
    && forall i: nat | i < |db| :: i in p <==> r.keywords == [42] || exists j :: OccursAt(db[i].title, r.keywords, j)
  }

  // Higher score, or equal scores and no greater title.
  predicate RankedPair(r: Request, m: Movie, o: Movie)
    requires |r.profile| == |m.profile| == |o.profile| == 19
  {
    var x, y := Score(r.profile, m.profile), Score(r.profile, o.profile);
    x > y || (x == y && !Less(o.title, m.title))
  }

  // Higher scores come first, and of equal scores the smaller titles.
  ghost predicate Ranked(db: seq<Movie>, r: Request, p: seq<nat>)
    requires Admissible(db, r) && forall k | 0 <= k < |p| :: p[k] < |db|
  {
    forall i, j | 0 <= i < j < |p| :: RankedPair(r, db[p[i]], db[p[j]])
  }

  ghost predicate AllCompatible(db: seq<Movie>, p: seq<nat>)
    requires forall k | 0 <= k < |p| :: p[k] < |db|
  {
    forall i, j | 0 <= i < |p| && 0 <= j < |p| :: Compatible(db[p[i]].title, db[p[j]].title)
  }

  // The output lists the wanted movies, in order if their titles are compatible.
  ghost predicate Recommends(db: seq<Movie>, r: Request, out: seq<Text>)
    requires Admissible(db, r)
  {
    exists p :: Listing(db, r, p, out) && (AllCompatible(db, p) ==> Ranked(db, r, p))
  }

  // The places of the matching movies among the first `n`.
  ghost function Picks(db: seq<Movie>, r: Request, n: nat): seq<nat>
    requires n <= |db|
  {
    if n == 0 then [] else if Matches(db[n - 1], r) then Picks(db, r, n - 1) + [n - 1] else Picks(db, r, n - 1)
  }

  // `p` are the places, and `s` the items, of the matching movies among the first `n`.
  ghost predicate Picked(db: seq<Movie>, r: Request, n: nat, p: seq<nat>, s: seq<Item>)
    requires Admissible(db, r) && n <= |db|
  {
    && |p| == |s| && (forall i, j | 0 <= i < j < |p| :: p[i] != p[j])
    && (forall k | 0 <= k < |p| :: p[k] < n && s[k] == Item(db[p[k]].title, Score(r.profile, db[p[k]].profile)))
    && forall i: nat | i < n :: i in p <==> Matches(db[i], r)
  }

  lemma PickedMore(db: seq<Movie>, r: Request, n: nat, p: seq<nat>, s: seq<Item>, x: Item)
    requires Admissible(db, r) && n < |db| && Picked(db, r, n, p, s) && Matches(db[n], r)
    requires x == Item(db[n].title, Score(r.profile, db[n].profile))
    ensures Picked(db, r, n + 1, p + [n], s + [x])
  {}

  lemma PickedSame(db: seq<Movie>, r: Request, n: nat, p: seq<nat>, s: seq<Item>)
    requires Admissible(db, r) && n < |db| && Picked(db, r, n, p, s) && !Matches(db[n], r)
    ensures Picked(db, r, n + 1, p, s)
  {}

  lemma PicksNext(db: seq<Movie>, r: Request, n: nat)
    requires Admissible(db, r) && 0 < n <= |db|
    ensures if Matches(db[n - 1], r) then
              var x := Item(db[n - 1].title, Score(r.profile, db[n - 1].profile));
              Picks(db, r, n) == Picks(db, r, n - 1) + [n - 1] && Matching(db, r, n) == Matching(db, r, n - 1) + [x]
            else Picks(db, r, n) == Picks(db, r, n - 1) && Matching(db, r, n) == Matching(db, r, n - 1)
  {
    ProductExact(r.profile, db[n - 1].profile);
  }

  lemma {:induction false} PicksExact(db: seq<Movie>, r: Request, n: nat)
    requires Admissible(db, r) && n <= |db|
    ensures Picked(db, r, n, Picks(db, r, n), Matching(db, r, n))
  {
    if n > 0 {
      PicksExact(db, r, n - 1);
      PicksNext(db, r, n);
      var p, s := Picks(db, r, n - 1), Matching(db, r, n - 1);
      if Matches(db[n - 1], r) {
        PickedMore(db, r, n - 1, p, s, Item(db[n - 1].title, Score(r.profile, db[n - 1].profile)));
      } else {
        PickedSame(db, r, n - 1, p, s);
      }
    }
  }

  lemma MatchesExact(m: Movie, r: Request)
    ensures Matches(m, r) <==> r.keywords == [42] || exists j :: OccursAt(m.title, r.keywords, j)
  {
    ContainsExact(m.title, r.keywords);
  }

  // Taking the matching movies in another order.
  lemma ListingFrom(db: seq<Movie>, r: Request, q: seq<nat>, s: seq<Item>, z: seq<Item>, a: seq<nat>, p: seq<nat>)
    requires Admissible(db, r) && q == Picks(db, r, |db|) && s == Selected(db, r)
    requires Arranged(DecorateAll(s), z, a) && |p| == |a|
    requires forall k | 0 <= k < |a| :: a[k] < |q| && p[k] == q[a[k]]
    ensures Listing(db, r, p, Lines(z))
  {
    PicksExact(db, r, |db|);
    forall i: nat | i < |db|
      ensures i in p <==> r.keywords == [42] || exists j :: OccursAt(db[i].title, r.keywords, j)
    {
      MatchesExact(db[i], r);
      if i in q {
        var l :| 0 <= l < |q| && q[l] == i;
        assert l in a;
        var k :| 0 <= k < |a| && a[k] == l;
        assert p[k] == i;
      }
    }
  }

  lemma UndecoratedOrder(s: seq<Item>, a: seq<nat>, i: nat, j: nat)
    requires Arranged(DecorateAll(s), LibSort(s), a) && i < j < |a|
    ensures a[i] < |s| && a[j] < |s| && !Before(s[a[j]], s[a[i]])
  {
    SelectSorts(s);
    forall k | 0 <= k < |a| ensures a[k] < |s| && Select(s)[k] == s[a[k]] {
      assert LibSort(s)[k] == Decorate(Select(s)[k]) == Decorate(s[a[k]]);
      if Select(s)[k].title != s[a[k]].title { AddSecretInjective(Select(s)[k].title, s[a[k]].title); }
    }
  }

  // The sorted list of the matches is a recommendation.
  lemma SortedRecommended(db: seq<Movie>, r: Request)
    requires Admissible(db, r)
    ensures Recommends(db, r, Lines(Sorted(Selected(db, r))))
  {
    var s, q := Selected(db, r), Picks(db, r, |db|);
    var z := Sorted(s);
    PicksExact(db, r, |db|);
    PlanSorts(s);
    MergeSortPermutes(Plan(|s|), s);
    var a := Arrange(DecorateAll(s), z);
    var p := seq(|a|, k requires 0 <= k < |a| => q[a[k]]);
    ListingFrom(db, r, q, s, z, a, p);
    if AllCompatible(db, p) {
      CompatibleFrom(db, r, q, s, a, p);
      MergeSortIsLibSort(Plan(|s|), s);
      RankedFrom(db, r, q, s, a, p);
    }
  }

  lemma PickedAt(s: seq<Item>, a: seq<nat>, x: Item) returns (i: nat)
    requires x in s && forall k: nat | k < |s| :: k in a
    ensures i < |a| && a[i] < |s| && s[a[i]] == x
  {
    var k: nat :| k < |s| && s[k] == x;
    assert k in a;
    i :| 0 <= i < |a| && a[i] == k;
  }

  lemma CompatibleFrom(db: seq<Movie>, r: Request, q: seq<nat>, s: seq<Item>, a: seq<nat>, p: seq<nat>)
    requires Admissible(db, r) && q == Picks(db, r, |db|) && s == Selected(db, r)
    requires |p| == |a| && (forall k: nat | k < |s| :: k in a)
    requires forall k | 0 <= k < |a| :: a[k] < |q| && p[k] == q[a[k]]
    requires (forall k | 0 <= k < |p| :: p[k] < |db|) && AllCompatible(db, p)
    ensures CompatibleTitles(s)
  {
    PicksExact(db, r, |db|);
    forall x, y | x in s && y in s ensures Compatible(x.title, y.title) {
      var i := PickedAt(s, a, x);
      var j := PickedAt(s, a, y);
      assert db[p[i]].title == x.title && db[p[j]].title == y.title;
    }
  }

  lemma PairRanked(db: seq<Movie>, r: Request, q: seq<nat>, s: seq<Item>, i: nat, j: nat)
    requires Admissible(db, r) && Picked(db, r, |db|, q, s) && i < |s| && j < |s| && !Before(s[j], s[i])
    ensures q[i] < |db| && q[j] < |db| && RankedPair(r, db[q[i]], db[q[j]])
  {}

  lemma RankedFrom(db: seq<Movie>, r: Request, q: seq<nat>, s: seq<Item>, a: seq<nat>, p: seq<nat>)
    requires Admissible(db, r) && Picked(db, r, |db|, q, s)
    requires Arranged(DecorateAll(s), LibSort(s), a) && |p| == |a|
    requires forall k | 0 <= k < |a| :: a[k] < |q| && p[k] == q[a[k]]
    requires forall k | 0 <= k < |p| :: p[k] < |db|
    ensures Ranked(db, r, p)
  {
    forall i, j | 0 <= i < j < |p| ensures RankedPair(r, db[p[i]], db[p[j]]) {
      UndecoratedOrder(s, a, i, j);
      PairRanked(db, r, q, s, a[i], a[j]);
    }
  }

  function AllLines(db: seq<Movie>): (s: seq<Text>)
    ensures |s| == |db| && forall i | 0 <= i < |db| :: s[i] == db[i].title + SECRET
  {
    seq(|db|, i requires 0 <= i < |db| => db[i].title + SECRET)
  }

  lemma StarArranged(db: seq<Movie>, r: Request, p: seq<nat>, out: seq<Text>, all: seq<Text>)
    requires Listing(db, r, p, out) && r.keywords == [42] && all == AllLines(db)
    ensures Arranged(all, out, p)
  {
    forall i: nat | i < |all| ensures i in p {}
  }

  // Both about the sorted list of the matches.
  lemma Recommended(db: seq<Movie>, r: Request)
    requires Admissible(db, r)
    ensures var out := Lines(Sorted(Selected(db, r)));
            && Recommends(db, r, out)
            && (r.keywords == [42] ==> |out| == |db| && multiset(out) == multiset(AllLines(db)))
  {
    SortedRecommended(db, r);
    if r.keywords == [42] { StarListsAll(db, r, Lines(Sorted(Selected(db, r)))); }
  }

  // The keyword star lists all movies.
  lemma StarListsAll(db: seq<Movie>, r: Request, out: seq<Text>)
    requires Admissible(db, r) && Recommends(db, r, out) && r.keywords == [42]
    ensures |out| == |db| && multiset(out) == multiset(AllLines(db))
  {
    var p :| Listing(db, r, p, out) && (AllCompatible(db, p) ==> Ranked(db, r, p));
    StarArranged(db, r, p, out, AllLines(db));
    ArrangedBag(AllLines(db), out, p);
  }

  lemma HoldsMore(mem: seq<Text>, v: View, z: View, n: nat, s: seq<Item>, x: Item)
    requires Holds(mem, v, 0, n, 0, s) && |z.ms| == |v.ms| && |z.ps| == |v.ps| && n < |v.ms| && n < |v.ps|
    requires z == View(v.ms[n := z.ms[n]], v.ps[n := z.ps[n]]) && Reads(mem, z.ms[n], z.ps[n], x)
    ensures Holds(mem, z, 0, n + 1, 0, s + [x])
  {
    forall k | 0 <= k < n + 1 ensures Reads(mem, z.ms[k], z.ps[k + 0], (s + [x])[k - 0]) {
      if k < n { assert Reads(mem, v.ms[k], v.ps[k + 0], s[k - 0]); }
    }
  }

  // One matching movie is appended to the filtered list.
  method Append(filter: array<Ptr>, pts: array<real>, len: nat, p: Ptr, score: real, ghost mem: seq<Text>,
        ghost s: seq<Item>, ghost x: Item)
    requires Holds(mem, View(filter[..], pts[..]), 0, len, 0, s) && len < filter.Length && len < pts.Length
    requires Reads(mem, p, score, x)
    modifies filter, pts
    ensures Holds(mem, View(filter[..], pts[..]), 0, len + 1, 0, s + [x])
  {
    ghost var v := View(filter[..], pts[..]);
    filter[len] := p;
    pts[len] := score;
    HoldsMore(mem, v, View(filter[..], pts[..]), len, s, x);
  }

  // Thread version: the filtered pointers lead to the movies' own title strings.
  method FilterThread(db: seq<Movie>, r: Request) returns (filter: array<Ptr>, pts: array<real>, len: nat)
    requires Admissible(db, r)
    ensures fresh(filter) && fresh(pts)
    ensures Holds([], View(filter[..], pts[..]), 0, len, 0, Selected(db, r))
    ensures len <= filter.Length && len <= pts.Length && Filtered(db, r, View(filter[..len], pts[..len]))
  {
    filter, pts, len := new Ptr[|db|], new real[|db|], 0;
    var i := 0;
    while i < |db|
      invariant i <= |db| && len <= i && filter.Length == pts.Length == |db|
      invariant Holds([], View(filter[..], pts[..]), 0, len, 0, Matching(db, r, i))
    {
      if Contains(db[i].title, r.keywords) || r.keywords == STAR {
        var score := Dot(r.profile, db[i].profile);
        Append(filter, pts, len, Private(db[i].title), score, [], Matching(db, r, i), Item(db[i].title, score));
        len := len + 1;
      }
      i := i + 1;
    }
    assert filter[..][..len] == filter[..len] && pts[..][..len] == pts[..len];
  }

  lemma PlacedLines(v: View, all: seq<Item>, n: nat)
    requires Placed(v, 0, |all|, 0, all) && n < |all|
    ensures n < |v.ms| && v.ms[n] == Private(Lines(all)[n]) && Lines(all)[..n + 1] == Lines(all)[..n] + [Lines(all)[n]]
  {
    PlacedAt(v, 0, |all|, 0, all, n);
  }

  // The lines of the output file.
  method Output(filter: array<Ptr>, len: nat, ghost ps: seq<real>, ghost all: seq<Item>) returns (out: seq<Text>)
    requires Placed(View(filter[..], ps), 0, len, 0, all) && len == |all|
    ensures out == Lines(all)
  {
    out := [];
    var i := 0;
    while i < len
      invariant i <= len && out == Lines(all)[..i]
    {
      PlacedLines(View(filter[..], ps), all, i);
      out := out + [filter[i].text];
      i := i + 1;
    }
  }

  method RecommendThread(db: seq<Movie>, r: Request) returns (out: seq<Text>)
    requires Admissible(db, r) && Selected(db, r) != []
    ensures Recommends(db, r, out)
    ensures r.keywords == [42] ==> |out| == |db| && multiset(out) == multiset(AllLines(db))
    ensures out == Lines(Sorted(Selected(db, r)))
    ensures CompatibleTitles(Selected(db, r)) ==> out == Recommendation(Selected(db, r))
  {
    var filter, pts, len := FilterThread(db, r);
    ghost var s := Selected(db, r);
    if len < MERGE_THREAD {
      Sort([], filter, 0, len, pts, 0, s);
    } else {
      TreeSize();
      ThreadSort([], filter, 0, len, pts, TREE, s);
    }
    out := Output(filter, len, pts[..], Sorted(s));
    SortedRecommends(s);
    Recommended(db, r);
  }

  // Process version: every matching title is copied into a shared block of its own.
  method FilterProcess(db: seq<Movie>, r: Request)
      returns (blocks: array<Text>, filter: array<Ptr>, pts: array<real>, len: nat)
    requires Admissible(db, r)
    ensures fresh(blocks) && fresh(filter) && fresh(pts) && Linked(filter[..], 0, len)
    ensures Stored(View(blocks[..], pts[..]), 0, len, Selected(db, r))
  {
    blocks, filter, pts, len := new Text[|db|], new Ptr[|db|], new real[|db|], 0;
    var i := 0;
    while i < |db|
      invariant i <= |db| && len <= i && filter.Length == pts.Length == blocks.Length == |db|
      invariant Linked(filter[..], 0, len)
      invariant Stored(View(blocks[..], pts[..]), 0, len, Matching(db, r, i))
    {
      if Contains(db[i].title, r.keywords) || r.keywords == STAR {
        var score := Dot(r.profile, db[i].profile);
        filter[len] := Shared(len);
        blocks[len], pts[len] := db[i].title, score;
        len := len + 1;
      }
      i := i + 1;
    }
  }

  lemma StoredLines(w: Cells<Text>, all: seq<Item>, n: nat)
    requires Stored(w, 0, |all|, all) && n < |all|
    ensures n < |w.ms| && w.ms[n] == Lines(all)[n] && Lines(all)[..n + 1] == Lines(all)[..n] + [Lines(all)[n]]
  {
    assert w.ms[n] == all[n - 0].title;
  }

  method OutputShared(blocks: array<Text>, filter: array<Ptr>, len: nat, ghost ps: seq<real>,
        ghost all: seq<Item>) returns (out: seq<Text>)
    requires Linked(filter[..], 0, len) && Stored(View(blocks[..], ps), 0, len, all)
    ensures out == Lines(all)
  {
    out := [];
    var i := 0;
    while i < len
      invariant i <= len && out == Lines(all)[..i]
    {
      StoredLines(View(blocks[..], ps), all, i);
      assert filter[..][i] == Shared(i);
      out := out + [blocks[filter[i].block]];
      i := i + 1;
    }
  }

  method SortProcess(blocks: array<Text>, filter: array<Ptr>, pts: array<real>, len: nat,
        ghost s: seq<Item>) returns (out: seq<Text>)
    requires Linked(filter[..], 0, len) && Stored(View(blocks[..], pts[..]), 0, len, s) && NonNegative(s) && len > 0
    modifies blocks, filter, pts
    ensures out == Lines(Sorted(s))
  {
    if len < MERGE_THREAD {
      LinkedHolds(View(blocks[..], pts[..]), filter[..], len, s);
      Sort(blocks[..], filter, 0, len, pts, 0, s);
      out := Output(filter, len, pts[..], LibSort(s));
    } else {
      TreeSize();
      ProcessSort(blocks, filter, 0, len, pts, TREE, s);
      out := OutputShared(blocks, filter, len, pts[..], MergeSort(TREE, s));
    }
  }

  // The process version prints what the thread version prints.
  method RecommendProcess(db: seq<Movie>, r: Request) returns (out: seq<Text>)
    requires Admissible(db, r) && Selected(db, r) != []
    ensures Recommends(db, r, out)
    ensures r.keywords == [42] ==> |out| == |db| && multiset(out) == multiset(AllLines(db))
    ensures out == Lines(Sorted(Selected(db, r)))
    ensures CompatibleTitles(Selected(db, r)) ==> out == Recommendation(Selected(db, r))
  {
    var blocks, filter, pts, len := FilterProcess(db, r);
    out := SortProcess(blocks, filter, pts, len, Selected(db, r));
    SortedRecommends(Selected(db, r));
    Recommended(db, r);
  }

  lemma LinkedHolds(w: Cells<Text>, ms: seq<Ptr>, len: nat, s: seq<Item>)
    requires Linked(ms, 0, len) && Stored(w, 0, len, s)
    ensures Holds(w.ms, View(ms, w.ps), 0, len, 0, s)
  {
    forall k | 0 <= k < len ensures Reads(w.ms, ms[k], w.ps[k + 0], s[k - 0]) {
      assert w.ms[k] == s[k - 0].title;
    }
  }

  // ---------- under every schedule ----------

  // The arrays that FilterThread leaves, cut to their length.
  ghost predicate Filtered(db: seq<Movie>, r: Request, m: View)
    requires Admissible(db, r)
  {
    exists v, len ::
      Holds([], v, 0, len, 0, Selected(db, r)) && m == View(v.ms[..len], v.ps[..len])
  }

  // They hold the list of the matches.
  lemma FilteredItems(db: seq<Movie>, r: Request, m: View)
    requires Admissible(db, r) && Filtered(db, r, m)
    ensures ThreadJoin.Strings(m) && ThreadJoin.Items(m) == Selected(db, r)
  {
    var s := Selected(db, r);
    var v, len :| Holds([], v, 0, len, 0, s) && m == View(v.ms[..len], v.ps[..len]);
    forall k | 0 <= k < len ensures m.ms[k] == Private(s[k].title) && m.ps[k] == s[k].score {
      assert Reads([], v.ms[k], v.ps[k + 0], s[k - 0]);
    }
  }

  // Whatever the schedule of the sorting threads, the filtered pointers end up at the lines of
  // the recommendation.
  lemma ThreadsRecommend(db: seq<Movie>, r: Request, run: seq<ThreadJoin.Config>)
    requires Admissible(db, r) && Selected(db, r) != [] && ThreadJoin.Run(run) && Filtered(db, r, run[0].mem)
    requires run[0].task == ThreadJoin.Start(Plan(|Selected(db, r)|), 0, |Selected(db, r)|)
    requires run[|run| - 1].task.Finished?
    ensures ThreadJoin.Strings(run[|run| - 1].mem)
    ensures Lines(ThreadJoin.Items(run[|run| - 1].mem)) == Lines(Sorted(Selected(db, r)))
    ensures Recommends(db, r, Lines(ThreadJoin.Items(run[|run| - 1].mem)))
    ensures CompatibleTitles(Selected(db, r)) ==>
              Lines(ThreadJoin.Items(run[|run| - 1].mem)) == Recommendation(Selected(db, r))
  {
    FilteredItems(db, r, run[0].mem);
    PlanSorts(Selected(db, r));
    ThreadJoin.WholeSorts(Plan(|Selected(db, r)|), run);
    SortedRecommends(Selected(db, r));
    Recommended(db, r);
  }

  // Whatever the schedule of the sorting processes, the shared blocks end up holding the lines of
  // the recommendation.
  lemma ProcessesRecommend(db: seq<Movie>, r: Request, run: seq<ProcessJoin.Config>)
    requires Admissible(db, r) && |Selected(db, r)| >= MERGE_THREAD && ProcessJoin.Run(run)
    requires Stored(run[0].mem, 0, |Selected(db, r)|, Selected(db, r))
    requires run[0].task == ProcessJoin.Start(TREE, 0, |Selected(db, r)|) && run[|run| - 1].task.Finished?
    ensures |Selected(db, r)| <= |run[|run| - 1].mem.ms|
    ensures run[|run| - 1].mem.ms[..|Selected(db, r)|] == Lines(Sorted(Selected(db, r)))
    ensures Recommends(db, r, run[|run| - 1].mem.ms[..|Selected(db, r)|])
    ensures CompatibleTitles(Selected(db, r)) ==>
              run[|run| - 1].mem.ms[..|Selected(db, r)|] == Recommendation(Selected(db, r))
  {
    var s, z := Selected(db, r), run[|run| - 1].mem;
    TreeSize();
    ProcessJoin.ProcessJoinSorts(TREE, 0, |s|, s, run);
    StoredTexts(z, |s|, MergeSort(TREE, s));
    SortedRecommends(s);
    Recommended(db, r);
  }

  lemma StoredTexts(w: Cells<Text>, len: nat, s: seq<Item>)
    requires Stored(w, 0, len, s)
    ensures w.ms[..len] == Lines(s)
  {
    forall k | 0 <= k < len ensures w.ms[..len][k] == Lines(s)[k] { assert w.ms[k] == s[k - 0].title; }
  }

  // Sorting by tasks never hands the library an empty list, whose last entry it would touch.
  lemma NoEmptyLibrarySort(n: nat, k: nat)
    requires n >= MERGE_THREAD && k in Leaves(TREE, n)
    ensures k >= 1 && |Leaves(TREE, n)| == 32 && Tasks(TREE) == 31
    ensures n / 32 <= k <= (n + 31) / 32
  {
    TreeSize();
    LeafSize(TREE, n, k);
    LeafCount(TREE, n);
  }
}
