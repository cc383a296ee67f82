/**
 Every complete run of the championship ends in the same state. Steps of two different
 processes commute as long as each FIFO has at most one writer, so a single complete run
 decides the outcome and the length of all of them.
 */
module Confluence {
  import opened Combat
  import opened Bracket
  import opened Protocol
  import opened Tokens
  import opened Places

  predicate BattleState(l: Local) {
    l.ReadLeft? || l.ReadRight? || l.WriteLeft? || l.WriteRight? || l.WaitLoser?
    || l.RelayRead? || l.RelayUp? || l.RelayWait? || l.RelayDown? || l.Announce? || l.WaitWinner?
  }

  // Battles run battle code, and no two players hand over to the same agent.
  ghost predicate Separate(t: Tree, s: State) {
    && t.WellFormed() && Typed(t, s)
    && (forall p | t.Node(p) && BattleState(s.loc[p]) :: t.kind[p] == Arena)
    && (forall p, q | t.Node(p) && t.Node(q) && p != q && Handing(s.loc[p]) && Handing(s.loc[q]) ::
          SlotOf(t, s.loc[p].st) != SlotOf(t, s.loc[q].st))
  }

  lemma InvariantSeparate(t: Tree, s: State)
    requires Invariant(t, s)
    ensures Separate(t, s)
  {
    forall p | t.Node(p) && BattleState(s.loc[p]) ensures t.kind[p] == Arena {
      assert LocalOk(t, p, s.loc[p]);
      BattleKind(t, p, s.loc[p]);
    }
    forall p, q | t.Node(p) && t.Node(q) && p != q && Handing(s.loc[p]) && Handing(s.loc[q])
      ensures SlotOf(t, s.loc[p].st) != SlotOf(t, s.loc[q].st)
    {
      assert LocalOk(t, p, s.loc[p]) && LocalOk(t, q, s.loc[q]);
      HandsDiffer(t, s, p, q);
    }
  }

  lemma BattleKind(t: Tree, p: int, l: Local)
    requires t.Sized() && t.Node(p) && LocalOk(t, p, l) && BattleState(l)
    ensures t.kind[p] == Arena
  {}

  lemma HandsDiffer(t: Tree, s: State, p: int, q: int)
    requires t.WellFormed() && Typed(t, s) && SingleLoser(t, s) && t.Node(p) && t.Node(q) && p != q
    requires Handing(s.loc[p]) && LocalOk(t, p, s.loc[p]) && Handing(s.loc[q]) && LocalOk(t, q, s.loc[q])
    ensures SlotOf(t, s.loc[p].st) != SlotOf(t, s.loc[q].st)
  {
    HandSlot(t, s, p);
    HandSlot(t, s, q);
    assert Held(p, 0) != Held(q, 0);
  }

  lemma HandSlot(t: Tree, s: State, p: int)
    requires t.WellFormed() && Typed(t, s) && t.Node(p) && Handing(s.loc[p]) && LocalOk(t, p, s.loc[p])
    ensures Fallen(s, Held(p, 0), s.loc[p].st.cur)
    ensures var k := SlotOf(t, s.loc[p].st); t.Node(k) && t.source[k] == s.loc[p].st.cur
  {
    assert t.Crossing(s.loc[p].st.cur);
  }

  predicate Independent(a: Op, b: Op) {
    && (a.Send? && b.Send? ==> a.ch != b.ch)
    && (a.Recv? && b.Recv? ==> a.ch != b.ch)
    && (a.Take? && b.Take? ==> a.sem != b.sem)
  }

  // Two processes never write the same pipe, read the same pipe or take the same signal.
  lemma Ownership(t: Tree, s: State, p: int, q: int)
    requires Separate(t, s) && t.Node(p) && t.Node(q) && p != q
    ensures var a, b := OpOf(t, p, s.loc[p]), OpOf(t, q, s.loc[q]);
            Independent(a, b)
  {
    assert t.Shape(p) && t.Shape(q);
  }

  lemma CommuteChans(c: Queues, a: Op, b: Op)
    requires (a.Recv? ==> Queue(c, a.ch) != []) && (b.Recv? ==> Queue(c, b.ch) != []) && Independent(a, b)
    ensures b.Recv? ==> Queue(ChansAfter(c, a), b.ch) != [] && Queue(ChansAfter(c, a), b.ch)[0] == Queue(c, b.ch)[0]
    ensures a.Recv? ==> Queue(ChansAfter(c, b), a.ch) != [] && Queue(ChansAfter(c, b), a.ch)[0] == Queue(c, a.ch)[0]
    ensures ChansAfter(ChansAfter(c, a), b) == ChansAfter(ChansAfter(c, b), a)
  {
    if ((a.Send? && b.Recv?) || (a.Recv? && b.Send?)) && a.ch == b.ch {
      var q, m := Queue(c, a.ch), if a.Send? then a.msg else b.msg;
      assert (q + [m])[1..] == q[1..] + [m];
    }
  }

  lemma CommuteSems(k: Counts, a: Op, b: Op)
    requires (a.Take? ==> Count(k, a.sem) > 0) && (b.Take? ==> Count(k, b.sem) > 0) && Independent(a, b)
    ensures b.Take? ==> Count(SemsAfter(k, a), b.sem) > 0
    ensures a.Take? ==> Count(SemsAfter(k, b), a.sem) > 0
    ensures SemsAfter(SemsAfter(k, a), b) == SemsAfter(SemsAfter(k, b), a)
  {}

  // Independent operations of two processes do not disable each other, do not change what
  // the other one reads, and have the same joint effect in either order.
  lemma Commute(s: State, p: nat, a: Op, na: Local, q: nat, b: Op, nb: Local)
    requires p < |s.loc| && q < |s.loc| && p != q
    requires Can(s, a) && Can(s, b) && Independent(a, b)
    ensures Can(Perform(s, p, a, na), b) && Can(Perform(s, q, b, nb), a)
    ensures b.Recv? ==> Perform(s, p, a, na).Chan(b.ch)[0] == s.Chan(b.ch)[0]
    ensures a.Recv? ==> Perform(s, q, b, nb).Chan(a.ch)[0] == s.Chan(a.ch)[0]
    ensures Perform(Perform(s, p, a, na), q, b, nb) == Perform(Perform(s, q, b, nb), p, a, na)
  {
    CommuteChans(s.chans, a, b);
    CommuteSems(s.sems, a, b);
    assert s.loc[p := na][q := nb] == s.loc[q := nb][p := na];
  }

  lemma Diamond(t: Tree, s: State, p: int, q: int)
    requires Separate(t, s) && p != q && Enabled(t, s, p) && Enabled(t, s, q)
    ensures Enabled(t, Step(t, s, p), q) && Enabled(t, Step(t, s, q), p)
    ensures Step(t, Step(t, s, p), q) == Step(t, Step(t, s, q), p)
  {
    Ownership(t, s, p, q);
    Commute(s, p, OpOf(t, p, s.loc[p]), NextLocal(t, s, p), q, OpOf(t, q, s.loc[q]), NextLocal(t, s, q));
  }

  // A complete run from `s` to the stuck state `f` still exists, one step shorter, after any
  // step that `s` allows.
  lemma {:induction false} Reschedule(t: Tree, s: State, sch: seq<int>, f: State, p: int) returns (rest: seq<int>)
    requires Invariant(t, s) && Runs(t, s, sch, f) && Typed(t, f) && Stuck(t, f) && Enabled(t, s, p)
    ensures Runs(t, Step(t, s, p), rest, f) && |rest| + 1 == |sch|
    decreases |sch|
  {
    var q := sch[0];
    if q == p {
      rest := sch[1..];
    } else {
      InvariantSeparate(t, s);
      Diamond(t, s, p, q);
      InvariantStep(t, s, q);
      var tail := Reschedule(t, Step(t, s, q), sch[1..], f, p);
      rest := [q] + tail;
      assert rest[1..] == tail;
    }
  }

  // All runs from `s` are prefixes of complete runs of one length into one final state.
  lemma {:induction false} Confluent(t: Tree, s: State, sch: seq<int>, f: State, run: seq<int>, u: State)
      returns (rest: seq<int>)
    requires Invariant(t, s) && Runs(t, s, sch, f) && Typed(t, f) && Stuck(t, f)
    requires Runs(t, s, run, u)
    ensures Typed(t, u) && Runs(t, u, rest, f) && |run| + |rest| == |sch|
    decreases |run|
  {
    if run == [] {
      rest := sch;
    } else {
      var shorter := Reschedule(t, s, sch, f, run[0]);
      InvariantStep(t, s, run[0]);
      rest := Confluent(t, Step(t, s, run[0]), shorter, f, run[1..], u);
    }
  }
}
