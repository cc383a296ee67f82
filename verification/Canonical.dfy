/**
 One complete run of the championship, built battle by battle: the run in which every battle
 waits until both subtrees are quiet. It ends with the champion of the recursive evaluation.
 */
module Canonical {
  import opened Combat
  import opened Bracket
  import opened Protocol

  // Schedule `sch` leads from `s` to `u`. The quantifier over one value keeps the verifier from
  // unfolding a run wherever two states are known to be connected.
  ghost predicate Leads(t: Tree, s: State, sch: seq<int>, u: State)
    requires Typed(t, s)
  {
    forall v {:trigger Runs(t, s, sch, v)} | v == u :: Runs(t, s, sch, v)
  }

  ghost predicate Reach(t: Tree, s: State, u: State) {
    Typed(t, s) && Typed(t, u) && exists sch :: Leads(t, s, sch, u)
  }

  lemma ReachRuns(t: Tree, s: State, u: State) returns (sch: seq<int>)
    requires Reach(t, s, u)
    ensures Runs(t, s, sch, u)
  {
    sch :| Leads(t, s, sch, u);
    assert Runs(t, s, sch, u);
  }

  lemma ReachBy(t: Tree, s: State, sch: seq<int>, u: State)
    requires Typed(t, s) && Typed(t, u) && Runs(t, s, sch, u)
    ensures Reach(t, s, u)
  {
    assert Leads(t, s, sch, u);
  }

  lemma ReachTrans(t: Tree, s: State, u: State, v: State)
    requires Reach(t, s, u) && Reach(t, u, v)
    ensures Reach(t, s, v)
  {
    var a := ReachRuns(t, s, u);
    var b := ReachRuns(t, u, v);
    RunsAppend(t, s, a, u, b, v);
    ReachBy(t, s, a + b, v);
  }

  lemma ReachSelf(t: Tree, s: State)
    requires Typed(t, s)
    ensures Reach(t, s, s)
  {
    assert Runs(t, s, [], s);
    ReachBy(t, s, [], s);
  }

  // Extends a run from `s` by a step of `p`.
  lemma Do(t: Tree, s: State, u: State, p: int) returns (v: State)
    requires Reach(t, s, u) && Enabled(t, u, p)
    ensures v == Step(t, u, p) && Reach(t, s, v)
  {
    v := Step(t, u, p);
    assert [p][1..] == [];
    assert Runs(t, v, [p][1..], v);
    ReachBy(t, u, [p], v);
    ReachTrans(t, s, u, v);
  }

  // All channels are empty except that `ch` holds `q`.
  ghost predicate Calm(c: Queues, ch: Chan, q: seq<Status>) {
    forall x: Chan :: Queue(c, x) == if x == ch then q else []
  }

  ghost predicate Silent(c: Queues) {
    forall x: Chan :: Queue(c, x) == []
  }

  ghost predicate SameSems(a: Counts, b: Counts) {
    forall x: Sem :: Count(b, x) == Count(a, x)
  }

  ghost predicate OneMore(a: Counts, b: Counts, y: Sem) {
    forall x: Sem :: Count(b, x) == Count(a, x) + if x == y then 1 else 0
  }

  lemma DoSend(t: Tree, s: State, u: State, p: int) returns (v: State)
    requires Reach(t, s, u) && t.Node(p)
    requires var op := OpOf(t, p, u.loc[p]); op.Send? && Silent(u.chans)
    ensures var op := OpOf(t, p, u.loc[p]);
            Reach(t, s, v) && v.loc == u.loc[p := op.next] && v.sems == u.sems && Calm(v.chans, op.ch, [op.msg])
  {
    v := Do(t, s, u, p);
    var op := OpOf(t, p, u.loc[p]);
    forall c: Chan ensures Queue(v.chans, c) == if c == op.ch then [op.msg] else [] {
      assert Queue(u.chans, c) == [];
    }
  }

  lemma DoRecv(t: Tree, s: State, u: State, p: int, m: Status, ch: Chan) returns (v: State)
    requires Reach(t, s, u) && t.Node(p) && OpOf(t, p, u.loc[p]) == Recv(ch) && Calm(u.chans, ch, [m])
    ensures Reach(t, s, v) && v.loc == u.loc[p := OnRecv(t, p, u.loc[p], m)] && v.sems == u.sems
    ensures Silent(v.chans)
  {
    assert Queue(u.chans, ch) == [m] && [m][1..] == [];
    v := Do(t, s, u, p);
    forall c: Chan ensures Queue(v.chans, c) == [] {
      assert Queue(u.chans, c) == if c == ch then [m] else [];
    }
  }

  lemma DoSignal(t: Tree, s: State, u: State, p: int) returns (v: State)
    requires Reach(t, s, u) && t.Node(p) && OpOf(t, p, u.loc[p]).Signal?
    ensures var op := OpOf(t, p, u.loc[p]);
            Reach(t, s, v) && v.loc == u.loc[p := op.next] && v.chans == u.chans && OneMore(u.sems, v.sems, op.sem)
  {
    v := Do(t, s, u, p);
  }

  lemma DoTake(t: Tree, s: State, u: State, p: int) returns (v: State)
    requires Reach(t, s, u) && t.Node(p)
    requires var op := OpOf(t, p, u.loc[p]); op.Take? && Count(u.sems, op.sem) > 0
    ensures var op := OpOf(t, p, u.loc[p]);
            Reach(t, s, v) && v.loc == u.loc[p := op.next] && v.chans == u.chans && OneMore(v.sems, u.sems, op.sem)
  {
    v := Do(t, s, u, p);
  }

  // Only the processes in [lo, hi) and process `k` may have moved.
  ghost predicate Only(t: Tree, a: seq<Local>, b: seq<Local>, lo: int, hi: int, k: int) {
    |a| == |b| == t.size
    && forall x | t.Node(x) && !(lo <= x < hi) && x != k :: b[x] == a[x]
  }

  ghost predicate Gone(t: Tree, a: seq<Local>, c: int)
    requires t.Sized() && |a| == t.size && t.Node(c)
  {
    forall x | t.Node(x) && c <= x < t.end[c] :: a[x] == Exited
  }

  // The subtree of `c` is about to present the contestant `x` to the battle above.
  ghost predicate Offer(t: Tree, a: seq<Local>, c: int, x: Contestant)
    requires t.WellFormed() && |a| == t.size && t.Node(c)
    decreases t.size - c
  {
    if t.kind[c] == Arena then
      assert t.Shape(c);
      && a[c].RelayRead? && c != 0
      && Offer(t, a, t.Child(c, a[c].w), x)
      && Gone(t, a, t.Child(c, Other(a[c].w)))
    else a[c] == Offering(x.st, x.orig)
  }

  // ... and has done so, and waits for the answer.
  ghost predicate Waiting(t: Tree, a: seq<Local>, c: int, x: Contestant)
    requires t.WellFormed() && |a| == t.size && t.Node(c)
    decreases t.size - c
  {
    if t.kind[c] == Arena then
      assert t.Shape(c);
      && a[c].RelayWait? && a[c].st == x.st && c != 0
      && Waiting(t, a, t.Child(c, a[c].w), x)
      && Gone(t, a, t.Child(c, Other(a[c].w)))
    else a[c] == AwaitReply(x.st, x.orig)
  }

  // These facts about a subtree depend on its own processes only.
  lemma {:induction false} Framed(t: Tree, a: seq<Local>, b: seq<Local>, c: int, x: Contestant)
    requires t.WellFormed() && |a| == |b| == t.size && t.Node(c)
    requires forall y | t.Node(y) && c <= y < t.end[c] :: b[y] == a[y]
    ensures Offer(t, a, c, x) ==> Offer(t, b, c, x)
    ensures Waiting(t, a, c, x) ==> Waiting(t, b, c, x)
    decreases t.size - c
  {
    assert t.Shape(c);
    if t.kind[c] == Arena {
      Framed(t, a, b, t.Child(c, Left), x);
      Framed(t, a, b, t.Child(c, Right), x);
    }
  }

  // Where the two children of a battle lie.
  lemma Family(t: Tree, c: int, w: Side)
    requires t.WellFormed() && t.Node(c) && t.kind[c] == Arena
    ensures var d, e := t.Child(c, w), t.Child(c, Other(w));
            && t.Node(d) && t.Node(e) && t.parent[d] == t.parent[e] == c && d != 0 && e != 0
            && c < d < t.end[d] <= t.end[c] && c < e < t.end[e] <= t.end[c]
            && (t.end[d] <= e || t.end[e] <= d)
            && (forall y | t.Node(y) && c < y < t.end[c] :: d <= y < t.end[d] || e <= y < t.end[e])
  {
    assert t.Shape(c) && t.Shape(c + 1) && t.Shape(t.right[c]);
  }

  // A battle in Passing mode takes its winner's token up ...
  lemma RelayUpward(t: Tree, s: State, u: State, c: int, w: Side, m: Status) returns (v: State)
    requires Reach(t, s, u) && t.Node(c) && u.loc[c] == RelayRead(w) && Calm(u.chans, Up(t.Child(c, w)), [m])
    ensures Reach(t, s, v) && v.loc == u.loc[c := RelayWait(w, m)] && v.sems == u.sems && Calm(v.chans, Up(c), [m])
  {
    v := DoRecv(t, s, u, c, m, Up(t.Child(c, w)));
    v := DoSend(t, s, v, c);
  }

  // ... and brings the answer down.
  lemma RelayDownward(t: Tree, s: State, u: State, c: int, w: Side, m: Status) returns (v: State)
    requires Reach(t, s, u) && t.Node(c) && u.loc[c].RelayWait? && u.loc[c].w == w && Calm(u.chans, Down(c), [m])
    ensures Reach(t, s, v) && v.loc == u.loc[c := AfterReply(w, m)] && v.sems == u.sems
    ensures Calm(v.chans, Down(t.Child(c, w)), [m])
  {
    v := DoRecv(t, s, u, c, m, Down(c));
    v := DoSend(t, s, v, c);
  }

  // A subtree that offers a token sends it up.
  lemma {:induction false} Emit(t: Tree, s: State, c: int, x: Contestant) returns (u: State)
    requires t.WellFormed() && Typed(t, s) && t.Node(c) && c != 0
    requires Offer(t, s.loc, c, x) && Silent(s.chans)
    ensures Reach(t, s, u) && Waiting(t, u.loc, c, x) && Calm(u.chans, Up(c), [x.st]) && u.sems == s.sems
    ensures Only(t, s.loc, u.loc, c, t.end[c], c)
    decreases t.size - c
  {
    if t.kind[c] == Arena {
      var w := s.loc[c].w;
      var d := t.Child(c, w);
      Family(t, c, w);
      var s1 := Emit(t, s, d, x);
      u := RelayUpward(t, s, s1, c, w, x.st);
      Framed(t, s1.loc, u.loc, d, x);
    } else {
      assert t.Shape(c);
      ReachSelf(t, s);
      u := DoSend(t, s, s, c);
    }
  }

  // The answer keeps the player in the championship.
  predicate Stays(m: Status) {
    (m.flag == 0 || (m.flag == 1 && m.cur != 0)) && m.hp > 0
  }

  function Onward(orig: int, m: Status): Contestant {
    Contestant(if m.flag == 1 then Heal(orig, m) else m, orig)
  }

  lemma {:induction false} AbsorbStay(t: Tree, s: State, c: int, x: Contestant, m: Status) returns (u: State)
    requires t.WellFormed() && Typed(t, s) && t.Node(c) && c != 0
    requires Waiting(t, s.loc, c, x) && Calm(s.chans, Down(c), [m]) && Stays(m)
    ensures Reach(t, s, u) && Offer(t, u.loc, c, Onward(x.orig, m)) && Silent(u.chans) && u.sems == s.sems
    ensures Only(t, s.loc, u.loc, c, t.end[c], c)
    decreases t.size - c
  {
    ReachSelf(t, s);
    if t.kind[c] == Arena {
      var w := s.loc[c].w;
      var d := t.Child(c, w);
      Family(t, c, w);
      var s1 := RelayDownward(t, s, s, c, w, m);
      Framed(t, s.loc, s1.loc, d, x);
      u := AbsorbStay(t, s1, d, x, m);
      ReachTrans(t, s, s1, u);
    } else {
      assert t.Shape(c);
      u := DoRecv(t, s, s, c, m, Down(c));
    }
  }

  // Both ends of agent `k`'s FIFO are opened by player `p` and the agent.
  lemma OpenFifo(t: Tree, s: State, u: State, p: int, k: int, st: Status) returns (v: State)
    requires Reach(t, s, u) && t.Node(p) && t.Node(k) && p != k && u.loc[p] == HandOpen(st) && u.loc[k] == SlotOpen
    requires SlotOf(t, st) == k
    ensures Reach(t, s, v) && v.loc == u.loc[p := HandWrite(st)][k := SlotRead]
    ensures v.chans == u.chans && SameSems(u.sems, v.sems)
  {
    var a := DoSignal(t, s, u, p);
    var b := DoSignal(t, s, a, k);
    assert b.loc[p] == HandWait(st) && b.loc[k] == SlotWait;
    assert Count(b.sems, Reader(k)) == Count(a.sems, Reader(k)) + 1;
    var c := DoTake(t, s, b, p);
    assert c.loc[k] == SlotWait;
    Cancels(u.sems, a.sems, b.sems, c.sems, Writer(k), Reader(k));
    assert Count(c.sems, Writer(k)) == Count(u.sems, Writer(k)) + 1;
    v := DoTake(t, s, c, k);
    Returns(u.sems, c.sems, v.sems, Writer(k));
  }

  lemma Cancels(u: Counts, a: Counts, b: Counts, c: Counts, x: Sem, y: Sem)
    requires OneMore(u, a, x) && OneMore(a, b, y) && OneMore(c, b, y)
    ensures OneMore(u, c, x)
  {
    forall z: Sem ensures Count(c, z) == Count(u, z) + if z == x then 1 else 0 {
      assert Count(b, z) == Count(a, z) + if z == y then 1 else 0;
      assert Count(a, z) == Count(u, z) + if z == x then 1 else 0;
    }
  }

  lemma Returns(u: Counts, c: Counts, v: Counts, x: Sem)
    requires OneMore(u, c, x) && OneMore(v, c, x)
    ensures SameSems(u, v)
  {
    forall z: Sem ensures Count(v, z) == Count(u, z) {
      assert Count(c, z) == Count(u, z) + if z == x then 1 else 0;
    }
  }

  lemma SameThenMore(a: Counts, b: Counts, c: Counts, x: Sem)
    requires SameSems(a, b) && OneMore(b, c, x)
    ensures OneMore(a, c, x)
  {
    forall z: Sem ensures Count(c, z) == Count(a, z) + if z == x then 1 else 0 {
      assert Count(b, z) == Count(a, z);
    }
  }

  // The hand-over of a revived token from player `p` to agent `k` through the agent's FIFO.
  lemma HandOver(t: Tree, s: State, u: State, p: int, k: int, st: Status) returns (v: State)
    requires Reach(t, s, u) && t.Node(p) && t.Node(k) && p != k && u.loc[p] == HandOpen(st) && u.loc[k] == SlotOpen
    requires SlotOf(t, st) == k && st.flag == 0 && Silent(u.chans)
    ensures Reach(t, s, v) && v.loc == u.loc[p := Exiting][k := Offering(st, st.hp)]
    ensures Silent(v.chans) && SameSems(u.sems, v.sems)
  {
    var a := OpenFifo(t, s, u, p, k, st);
    v := DoSend(t, s, a, p);
    v := DoRecv(t, s, v, k, st, Fifo(k));
  }

  // The answer ends the player's process: the agent that takes its token over, if any.
  function Successor(t: Tree, m: Status): int
    requires t.Sized()
  {
    if m.cur == 0 then -1 else SlotOf(t, m)
  }

  ghost predicate CanLeave(t: Tree, a: seq<Local>, c: int, m: Status)
    requires t.Sized() && |a| == t.size && t.Node(c)
  {
    var k := Successor(t, m);
    && m.flag == 1 && (m.cur == 0 || m.hp <= 0)
    && (if k >= 0 then
          t.Node(k) && t.end[c] <= k && a[k] == SlotOpen
          && forall y | t.Node(y) && c <= y < t.end[c] :: t.kind[y] != Agent
        else m.cur != 0 ==> forall y | t.Node(y) && c <= y < t.end[c] :: t.kind[y] != Real)
  }

  lemma PlayerDrops(t: Tree, s: State, p: int, x: Contestant, m: Status) returns (u: State)
    requires t.Sized() && Typed(t, s) && t.Node(p) && t.Shape(p) && t.kind[p] != Arena
    requires s.loc[p] == AwaitReply(x.st, x.orig) && Calm(s.chans, Down(p), [m]) && CanLeave(t, s.loc, p, m)
    requires Successor(t, m) < 0
    ensures Reach(t, s, u) && Silent(u.chans) && OneMore(s.sems, u.sems, Exits(t.parent[p]))
    ensures u.loc == s.loc[p := Exited]
  {
    ReachSelf(t, s);
    var a := DoRecv(t, s, s, p, m, Down(p));
    u := DoSignal(t, s, a, p);
  }

  lemma PlayerHandsOver(t: Tree, s: State, p: int, x: Contestant, m: Status) returns (u: State)
    requires t.Sized() && Typed(t, s) && t.Node(p) && t.Shape(p) && t.kind[p] != Arena
    requires s.loc[p] == AwaitReply(x.st, x.orig) && Calm(s.chans, Down(p), [m]) && CanLeave(t, s.loc, p, m)
    requires Successor(t, m) >= 0
    ensures Reach(t, s, u) && Silent(u.chans) && OneMore(s.sems, u.sems, Exits(t.parent[p]))
    ensures u.loc == s.loc[p := Exited][Successor(t, m) := Offering(Revive(x.orig, m), x.orig)]
  {
    ReachSelf(t, s);
    var k := Successor(t, m);
    var a := DoRecv(t, s, s, p, m, Down(p));
    var b := HandOver(t, s, a, p, k, Revive(x.orig, m));
    u := DoSignal(t, s, b, p);
    SameThenMore(s.sems, b.sems, u.sems, Exits(t.parent[p]));
  }

  lemma CanLeaveBelow(t: Tree, a: seq<Local>, b: seq<Local>, c: int, d: int, m: Status)
    requires t.Sized() && |a| == |b| == t.size && t.Node(c) && t.Node(d) && c <= d && t.end[d] <= t.end[c]
    requires CanLeave(t, a, c, m) && forall k | t.Node(k) && k != c :: b[k] == a[k]
    requires c < t.end[c]
    ensures CanLeave(t, b, d, m)
  {}

  lemma {:induction false} AbsorbLeave(t: Tree, s: State, c: int, x: Contestant, m: Status) returns (u: State)
    requires t.WellFormed() && Typed(t, s) && t.Node(c) && c != 0
    requires Waiting(t, s.loc, c, x) && Calm(s.chans, Down(c), [m]) && CanLeave(t, s.loc, c, m)
    ensures Reach(t, s, u) && Gone(t, u.loc, c) && Silent(u.chans) && OneMore(s.sems, u.sems, Exits(t.parent[c]))
    ensures var k := Successor(t, m);
            Only(t, s.loc, u.loc, c, t.end[c], k) && (k >= 0 ==> u.loc[k] == Offering(Revive(x.orig, m), x.orig))
    decreases t.size - c
  {
    var k := Successor(t, m);
    if t.kind[c] == Arena {
      var w := s.loc[c].w;
      var d := t.Child(c, w);
      Family(t, c, w);
      ReachSelf(t, s);
      var s1 := RelayDownward(t, s, s, c, w, m);
      Framed(t, s.loc, s1.loc, d, x);
      CanLeaveBelow(t, s.loc, s1.loc, c, d, m);
      var s2 := AbsorbLeave(t, s1, d, x, m);
      ReachTrans(t, s, s1, s2);
      u := LeaveTail(t, s, s1, s2, c, w, k);
    } else {
      assert t.Shape(c);
      if k >= 0 { u := PlayerHandsOver(t, s, c, x, m); } else { u := PlayerDrops(t, s, c, x, m); }
    }
  }

  // The winner's subtree of battle `c` is gone; the battle itself follows.
  lemma LeaveTail(t: Tree, s: State, s1: State, s2: State, c: int, w: Side, k: int) returns (u: State)
    requires t.WellFormed() && Reach(t, s, s2) && t.Node(c) && t.kind[c] == Arena && |s1.loc| == t.size
    requires k >= t.end[c] || k < 0
    requires s1.loc == s.loc[c := WaitWinner] && s1.sems == s.sems
    requires var d := t.Child(c, w);
             && t.Node(d) && Only(t, s1.loc, s2.loc, d, t.end[d], k) && Gone(t, s2.loc, d)
             && OneMore(s1.sems, s2.sems, Exits(c)) && Silent(s2.chans)
    requires var e := t.Child(c, Other(w)); t.Node(e) && Gone(t, s.loc, e)
    ensures Reach(t, s, u) && Gone(t, u.loc, c) && Silent(u.chans) && OneMore(s.sems, u.sems, Exits(t.parent[c]))
    ensures Only(t, s.loc, u.loc, c, t.end[c], k) && (t.Node(k) ==> u.loc[k] == s2.loc[k])
  {
    var d, e := t.Child(c, w), t.Child(c, Other(w));
    Family(t, c, w);
    assert t.Upward(c) && t.Shape(c);
    assert s2.loc[c] == s1.loc[c] == WaitWinner;
    u := BattleExits(t, s, s2, c);
    assert Gone(t, s2.loc, e);
    GoneBoth(t, s2.loc, u.loc, c, d, e);
    OnlyBelow(t, s.loc, s1.loc, s2.loc, u.loc, c, d, k);
  }

  lemma OnlyBelow(t: Tree, a: seq<Local>, b: seq<Local>, b': seq<Local>, a': seq<Local>, c: int, d: int, k: int)
    requires |a| == |b| == |b'| == |a'| == t.size && t.Sized() && t.Node(c) && t.Node(d) && c < d < t.end[d] <= t.end[c]
    requires Only(t, b, b', d, t.end[d], k)
    requires forall y | t.Node(y) && y != c :: b[y] == a[y] && a'[y] == b'[y]
    ensures Only(t, a, a', c, t.end[c], k)
  {
    forall x | t.Node(x) && !(c <= x < t.end[c]) && x != k ensures a'[x] == a[x] {
      assert b'[x] == b[x];
    }
  }

  lemma GoneBoth(t: Tree, a: seq<Local>, b: seq<Local>, c: int, d: int, e: int)
    requires t.Sized() && |a| == t.size && t.Node(c) && b == a[c := Exited] && t.Node(d) && t.Node(e)
    requires Gone(t, a, d) && Gone(t, a, e) && t.end[c] <= t.size
    requires forall y | t.Node(y) && c < y < t.end[c] :: d <= y < t.end[d] || e <= y < t.end[e]
    ensures Gone(t, b, c)
  {}

  // A battle whose last child has exited exits, too.
  lemma BattleExits(t: Tree, s: State, u: State, c: int) returns (v: State)
    requires Reach(t, s, u) && t.Node(c) && u.loc[c] == WaitWinner && OneMore(s.sems, u.sems, Exits(c))
        && t.parent[c] != c
    requires Silent(u.chans)
    ensures Reach(t, s, v) && v.loc == u.loc[c := Exited] && Silent(v.chans)
        && OneMore(s.sems, v.sems, Exits(t.parent[c]))
  {
    assert Count(u.sems, Exits(c)) == Count(s.sems, Exits(c)) + 1;
    var a := DoTake(t, s, u, c);
    v := DoSignal(t, s, a, c);
    forall y: Sem ensures Count(v.sems, y) == Count(s.sems, y) + if y == Exits(t.parent[c]) then 1 else 0 {
      assert Count(u.sems, y) == Count(s.sems, y) + if y == Exits(c) then 1 else 0;
      assert Count(u.sems, y) == Count(a.sems, y) + if y == Exits(c) then 1 else 0;
    }
  }
}
