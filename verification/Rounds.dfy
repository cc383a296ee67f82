/**
 A whole battle on the message level: rounds of tokens sent up and answers sent down until
 somebody falls, then the loser's process leaves and the winner's subtree moves on.
 */
module Rounds {
  import opened Combat
  import opened Bracket
  import opened Protocol
  import opened Canonical

  // Battle `b` is between rounds: it is about to read, and both children are about to write.
  ghost predicate Set(t: Tree, s: State, b: int, x: Contestant, y: Contestant)
    requires t.WellFormed() && Typed(t, s) && t.Node(b) && t.kind[b] == Arena
  {
    assert t.Shape(b);
    && s.loc[b] == ReadLeft && Silent(s.chans)
    && Offer(t, s.loc, t.Child(b, Left), x) && Offer(t, s.loc, t.Child(b, Right), y)
  }

  // Battle `b` has judged a round and both children wait for their answers.
  ghost predicate Struck(t: Tree, s: State, b: int, x: Contestant, y: Contestant, r: (Status, Status))
    requires t.WellFormed() && Typed(t, s) && t.Node(b) && t.kind[b] == Arena
  {
    assert t.Shape(b);
    && s.loc[b] == WriteLeft(r.0, r.1) && Silent(s.chans)
    && Waiting(t, s.loc, t.Child(b, Left), x) && Waiting(t, s.loc, t.Child(b, Right), y)
  }

  lemma OnlyJoin(t: Tree, a: seq<Local>, b: seq<Local>, c: seq<Local>, lo: int, hi: int)
    requires Only(t, a, b, lo, hi, lo) && Only(t, b, c, lo, hi, lo)
    ensures Only(t, a, c, lo, hi, lo)
  {
    forall x | t.Node(x) && !(lo <= x < hi) && x != lo ensures c[x] == a[x] {
      assert b[x] == a[x];
    }
  }

  // A battle hears one child's token; the rest of the championship stands still.
  lemma Hear(t: Tree, s: State, b: int, w: Side, x: Contestant) returns (u: State)
    requires t.WellFormed() && Typed(t, s) && t.Node(b) && t.kind[b] == Arena && Silent(s.chans)
    requires t.Node(t.Child(b, w)) && Offer(t, s.loc, t.Child(b, w), x)
    requires OpOf(t, b, s.loc[b]) == Recv(Up(t.Child(b, w)))
    ensures Reach(t, s, u) && Silent(u.chans) && u.sems == s.sems && Waiting(t, u.loc, t.Child(b, w), x)
    ensures u.loc[b] == OnRecv(t, b, s.loc[b], x.st)
    ensures var c := t.Child(b, w); Only(t, s.loc, u.loc, c, t.end[c], b)
  {
    Family(t, b, w);
    var c := t.Child(b, w);
    var s1 := Emit(t, s, c, x);
    assert s1.loc[b] == s.loc[b];
    u := DoRecv(t, s, s1, b, x.st, Up(c));
    Framed(t, s1.loc, u.loc, c, x);
  }

  // A battle tells one child the outcome of a round that child survives.
  lemma Tell(t: Tree, s: State, b: int, w: Side, x: Contestant, m: Status, next: Local) returns (u: State)
    requires t.WellFormed() && Typed(t, s) && t.Node(b) && t.kind[b] == Arena && Silent(s.chans)
    requires t.Node(t.Child(b, w)) && Waiting(t, s.loc, t.Child(b, w), x) && Stays(m)
    requires OpOf(t, b, s.loc[b]) == Send(Down(t.Child(b, w)), m, next)
    ensures Reach(t, s, u) && Silent(u.chans) && u.sems == s.sems
    ensures Offer(t, u.loc, t.Child(b, w), Onward(x.orig, m)) && u.loc[b] == next
    ensures var c := t.Child(b, w); Only(t, s.loc, u.loc, c, t.end[c], b)
  {
    Family(t, b, w);
    var c := t.Child(b, w);
    ReachSelf(t, s);
    var s1 := DoSend(t, s, s, b);
    Framed(t, s.loc, s1.loc, c, x);
    u := AbsorbStay(t, s1, c, x, m);
    ReachTrans(t, s, s1, u);
  }

  // ... and of the round it does not survive, or of the final.
  lemma TellLeave(t: Tree, s: State, b: int, w: Side, x: Contestant, m: Status, next: Local) returns (u: State)
    requires t.WellFormed() && Typed(t, s) && t.Node(b) && t.kind[b] == Arena && Silent(s.chans)
    requires t.Node(t.Child(b, w)) && Waiting(t, s.loc, t.Child(b, w), x) && CanLeave(t, s.loc, t.Child(b, w), m)
    requires OpOf(t, b, s.loc[b]) == Send(Down(t.Child(b, w)), m, next)
    ensures Reach(t, s, u) && Silent(u.chans) && OneMore(s.sems, u.sems, Exits(b))
    ensures Gone(t, u.loc, t.Child(b, w)) && u.loc[b] == next
    ensures var c, k := t.Child(b, w), Successor(t, m);
            && (forall y | t.Node(y) && !(c <= y < t.end[c]) && y != b && y != k :: u.loc[y] == s.loc[y])
            && (k >= 0 ==> u.loc[k] == Offering(Revive(x.orig, m), x.orig))
  {
    Family(t, b, w);
    var c := t.Child(b, w);
    ReachSelf(t, s);
    var s1 := DoSend(t, s, s, b);
    Framed(t, s.loc, s1.loc, c, x);
    assert CanLeave(t, s1.loc, c, m);
    u := AbsorbLeave(t, s1, c, x, m);
    ReachTrans(t, s, s1, u);
  }

  // Both tokens are read and judged.
  lemma Clash(t: Tree, s: State, b: int, x: Contestant, y: Contestant) returns (u: State)
    requires t.WellFormed() && Typed(t, s) && t.Node(b) && t.kind[b] == Arena && Set(t, s, b, x, y)
    ensures Reach(t, s, u) && Struck(t, u, b, x, y, Round(t.attr[b], b, x.st, y.st)) && u.sems == s.sems
    ensures Only(t, s.loc, u.loc, b, t.end[b], b)
  {
    Family(t, b, Left);
    var l, r := t.Child(b, Left), t.Child(b, Right);
    var s1 := Hear(t, s, b, Left, x);
    Framed(t, s.loc, s1.loc, r, y);
    u := Hear(t, s1, b, Right, y);
    Framed(t, s1.loc, u.loc, l, x);
    ReachTrans(t, s, s1, u);
    OnlyBoth(t, s.loc, s1.loc, u.loc, b, l, r);
  }

  lemma OnlyBoth(t: Tree, a: seq<Local>, a1: seq<Local>, a2: seq<Local>, b: int, l: int, r: int)
    requires t.Sized() && t.Node(b) && t.Node(l) && t.Node(r)
    requires b < l < t.end[l] <= t.end[b] && b < r < t.end[r] <= t.end[b]
    requires Only(t, a, a1, l, t.end[l], b) && Only(t, a1, a2, r, t.end[r], b)
    ensures Only(t, a, a2, b, t.end[b], b)
  {
    forall x | t.Node(x) && !(b <= x < t.end[b]) && x != b ensures a2[x] == a[x] {
      assert a1[x] == a[x];
    }
  }

  // Nobody fell: both children get their tokens back and the next round is set.
  lemma Again(t: Tree, s: State, b: int, x: Contestant, y: Contestant, r: (Status, Status)) returns (u: State)
    requires t.WellFormed() && Typed(t, s) && t.Node(b) && t.kind[b] == Arena && Struck(t, s, b, x, y, r)
    requires Fit(r.0) && Fit(r.1)
    ensures Reach(t, s, u) && Set(t, u, b, Contestant(r.0, x.orig), Contestant(r.1, y.orig)) && u.sems == s.sems
    ensures Only(t, s.loc, u.loc, b, t.end[b], b)
  {
    Family(t, b, Left);
    var c, d := t.Child(b, Left), t.Child(b, Right);
    var s1 := Tell(t, s, b, Left, x, r.0, WriteRight(r.0, r.1));
    Framed(t, s.loc, s1.loc, d, y);
    u := Tell(t, s1, b, Right, y, r.1, ReadLeft);
    Framed(t, s1.loc, u.loc, c, Contestant(r.0, x.orig));
    ReachTrans(t, s, s1, u);
    OnlyBoth(t, s.loc, s1.loc, u.loc, b, c, d);
  }

  // All rounds up to the one in which somebody falls.
  lemma {:induction false} Rounds(t: Tree, s: State, b: int, x: Contestant, y: Contestant)
      returns (u: State, x': Contestant, y': Contestant)
    requires t.WellFormed() && Typed(t, s) && t.Node(b) && t.kind[b] == Arena && Set(t, s, b, x, y)
    requires Fit(x.st) && Fit(y.st)
    ensures Reach(t, s, u) && x'.orig == x.orig && y'.orig == y.orig && u.sems == s.sems
    ensures Struck(t, u, b, x', y', Fight(t.attr[b], b, x.st, y.st))
    ensures Only(t, s.loc, u.loc, b, t.end[b], b)
    decreases x.st.hp + y.st.hp
  {
    var r := Round(t.attr[b], b, x.st, y.st);
    RoundFacts(t.attr[b], b, x.st, y.st);
    var s1 := Clash(t, s, b, x, y);
    if r.0.flag == 1 {
      u, x', y' := s1, x, y;
    } else {
      var s2 := Again(t, s1, b, x, y, r);
      ReachTrans(t, s, s1, s2);
      OnlyJoin(t, s.loc, s1.loc, s2.loc, b, t.end[b]);
      u, x', y' := Rounds(t, s2, b, Contestant(r.0, x.orig), Contestant(r.1, y.orig));
      ReachTrans(t, s, s2, u);
      OnlyJoin(t, s.loc, s2.loc, u.loc, b, t.end[b]);
    }
  }

  // The battle is over and both children wait: what the decisive round says about them.
  predicate Decided(t: Tree, b: int, r: (Status, Status)) {
    r.0.flag == r.1.flag == 1 && r.0.cur == r.1.cur == b && ((r.0.hp <= 0) != (r.1.hp <= 0))
  }

  lemma MayLeave(t: Tree, a: seq<Local>, b: int, c: int, m: Status)
    requires t.WellFormed() && |a| == t.size && t.Node(b) && t.kind[b] == Arena && t.Node(c)
    requires b < c < t.end[c] <= t.end[b] && m.cur == b && m.flag == 1 && (b != 0 ==> m.hp <= 0)
    requires t.slot[b] >= 0 ==> t.Node(t.slot[b]) && a[t.slot[b]] == SlotOpen
    ensures CanLeave(t, a, c, m)
    ensures Successor(t, m) == t.slot[b] && (b == 0 ==> t.slot[b] < 0)
    ensures t.slot[b] >= 0 ==> t.Node(t.slot[b]) && t.slot[b] >= t.end[b]
  {
    assert t.Crossing(b);
  }

  // The loser on side `w` has left battle `b`, and the winner on the other side moves on.
  ghost predicate Parted(t: Tree, s: State, u: State, b: int, w: Side, r: (Status, Status), lost: Contestant,
        won: Contestant)
    requires t.WellFormed() && Typed(t, s) && Typed(t, u) && t.Node(b)
    requires t.Node(t.Child(b, Left)) && t.Node(t.Child(b, Right))
  {
    && u.loc[b] == WaitLoser(r.0, r.1) && Silent(u.chans) && OneMore(s.sems, u.sems, Exits(b))
    && Gone(t, u.loc, t.Child(b, w)) && Offer(t, u.loc, t.Child(b, Other(w)), Onward(won.orig, won.st))
    && Only(t, s.loc, u.loc, b, t.end[b], t.slot[b])
    && (t.Node(t.slot[b]) ==> u.loc[t.slot[b]] == Offering(Revive(lost.orig, lost.st), lost.orig))
  }

  ghost predicate SlotFree(t: Tree, a: seq<Local>, b: int)
    requires t.Sized() && |a| == t.size && t.Node(b)
  {
    t.slot[b] >= 0 ==> t.Node(t.slot[b]) && a[t.slot[b]] == SlotOpen
  }

  // Frames of one child leaving (into `k`) before or after the other child is told.
  lemma LeaveThenStay(t: Tree, a: seq<Local>, a1: seq<Local>, a2: seq<Local>, b: int, c: int, d: int, k: int)
    requires t.Sized() && |a| == |a1| == t.size && t.Node(b) && t.Node(c) && t.Node(d)
    requires b < c < t.end[c] <= t.end[b] && b < d < t.end[d] <= t.end[b] && (t.end[c] <= d || t.end[d] <= c)
    requires k < 0 || k >= t.end[b]
    requires forall y | t.Node(y) && !(c <= y < t.end[c]) && y != b && y != k :: a1[y] == a[y]
    requires Only(t, a1, a2, d, t.end[d], b) && Gone(t, a1, c)
    ensures Gone(t, a2, c) && Only(t, a, a2, b, t.end[b], k) && (t.Node(k) ==> a2[k] == a1[k])
  {
    forall x | t.Node(x) && !(b <= x < t.end[b]) && x != k ensures a2[x] == a[x] {
      assert a1[x] == a[x];
    }
  }

  lemma StayThenLeave(t: Tree, a: seq<Local>, a1: seq<Local>, a2: seq<Local>, b: int, c: int, d: int, k: int)
    requires t.Sized() && |a2| == t.size && t.Node(b) && t.Node(c) && t.Node(d)
    requires b < c < t.end[c] <= t.end[b] && b < d < t.end[d] <= t.end[b]
    requires Only(t, a, a1, c, t.end[c], b)
    requires forall y | t.Node(y) && !(d <= y < t.end[d]) && y != b && y != k :: a2[y] == a1[y]
    ensures Only(t, a, a2, b, t.end[b], k)
  {
    forall x | t.Node(x) && !(b <= x < t.end[b]) && x != k ensures a2[x] == a[x] {
      assert a1[x] == a[x];
    }
  }

  lemma PartLeft(t: Tree, s: State, b: int, x: Contestant, y: Contestant, r: (Status, Status)) returns (u: State)
    requires t.WellFormed() && Typed(t, s) && t.Node(b) && t.kind[b] == Arena && Struck(t, s, b, x, y, r)
    requires Decided(t, b, r) && b != 0 && r.0.hp <= 0 && SlotFree(t, s.loc, b)
    requires t.Node(t.Child(b, Left)) && t.Node(t.Child(b, Right))
    ensures Reach(t, s, u) && Parted(t, s, u, b, Left, r, Contestant(r.0, x.orig), Contestant(r.1, y.orig))
  {
    Family(t, b, Left);
    var c, d := t.Child(b, Left), t.Child(b, Right);
    MayLeave(t, s.loc, b, c, r.0);
    var s1 := TellLeave(t, s, b, Left, x, r.0, WriteRight(r.0, r.1));
    Framed(t, s.loc, s1.loc, d, y);
    u := Tell(t, s1, b, Right, y, r.1, WaitLoser(r.0, r.1));
    ReachTrans(t, s, s1, u);
    LeaveThenStay(t, s.loc, s1.loc, u.loc, b, c, d, t.slot[b]);
  }

  lemma ToldLeft(t: Tree, s: State, b: int, x: Contestant, y: Contestant, r: (Status, Status)) returns (u: State)
    requires t.WellFormed() && Typed(t, s) && t.Node(b) && t.kind[b] == Arena && Struck(t, s, b, x, y, r)
    requires Decided(t, b, r) && b != 0 && r.1.hp <= 0 && SlotFree(t, s.loc, b)
    requires t.Node(t.Child(b, Left)) && t.Node(t.Child(b, Right))
    ensures Reach(t, s, u) && Silent(u.chans) && u.sems == s.sems && u.loc[b] == WriteRight(r.0, r.1)
    ensures Offer(t, u.loc, t.Child(b, Left), Onward(x.orig, r.0)) && Waiting(t, u.loc, t.Child(b, Right), y)
    ensures var c := t.Child(b, Left); Only(t, s.loc, u.loc, c, t.end[c], b)
    ensures SlotFree(t, u.loc, b)
  {
    Family(t, b, Left);
    var d := t.Child(b, Right);
    MayLeave(t, s.loc, b, d, r.1);
    u := Tell(t, s, b, Left, x, r.0, WriteRight(r.0, r.1));
    Framed(t, s.loc, u.loc, d, y);
  }

  lemma PartRight(t: Tree, s: State, b: int, x: Contestant, y: Contestant, r: (Status, Status)) returns (u: State)
    requires t.WellFormed() && Typed(t, s) && t.Node(b) && t.kind[b] == Arena && Struck(t, s, b, x, y, r)
    requires Decided(t, b, r) && b != 0 && r.1.hp <= 0 && SlotFree(t, s.loc, b)
    requires t.Node(t.Child(b, Left)) && t.Node(t.Child(b, Right))
    ensures Reach(t, s, u) && Parted(t, s, u, b, Right, r, Contestant(r.1, y.orig), Contestant(r.0, x.orig))
  {
    Family(t, b, Left);
    var c, d := t.Child(b, Left), t.Child(b, Right);
    var s1 := ToldLeft(t, s, b, x, y, r);
    MayLeave(t, s1.loc, b, d, r.1);
    u := TellLeave(t, s1, b, Right, y, r.1, WaitLoser(r.0, r.1));
    Framed(t, s1.loc, u.loc, c, Onward(x.orig, r.0));
    ReachTrans(t, s, s1, u);
    StayThenLeave(t, s.loc, s1.loc, u.loc, b, c, d, t.slot[b]);
  }

  // After the loser was waited for, the battle relays for the winner.
  lemma Decide(t: Tree, s: State, b: int, x: Contestant, y: Contestant, r: (Status, Status)) returns (u: State)
    requires t.WellFormed() && Typed(t, s) && t.Node(b) && t.kind[b] == Arena && Struck(t, s, b, x, y, r)
    requires Decided(t, b, r) && b != 0 && SlotFree(t, s.loc, b)
    ensures var w := if r.0.hp <= 0 then Left else Right;
            var lost, won := if w == Left then Contestant(r.0, x.orig) else Contestant(r.1, y.orig),
                             if w == Left then Contestant(r.1, y.orig) else Contestant(r.0, x.orig);
            Reach(t, s, u) && Promoted(t, s, u, b, lost, won)
  {
    Family(t, b, Left);
    if r.0.hp <= 0 {
      var s1 := PartLeft(t, s, b, x, y, r);
      u := Promote(t, s, s1, b, Left, r, Contestant(r.0, x.orig), Contestant(r.1, y.orig));
    } else {
      var s1 := PartRight(t, s, b, x, y, r);
      u := Promote(t, s, s1, b, Right, r, Contestant(r.1, y.orig), Contestant(r.0, x.orig));
    }
  }

  ghost predicate Promoted(t: Tree, s: State, u: State, b: int, lost: Contestant, won: Contestant)
    requires t.WellFormed() && Typed(t, s) && Typed(t, u) && t.Node(b)
  {
    && Silent(u.chans) && SameSems(s.sems, u.sems) && Offer(t, u.loc, b, Onward(won.orig, won.st))
    && Only(t, s.loc, u.loc, b, t.end[b], t.slot[b])
    && (t.Node(t.slot[b]) ==> u.loc[t.slot[b]] == Offering(Revive(lost.orig, lost.st), lost.orig))
  }

  lemma Promote(t: Tree, s: State, s1: State, b: int, w: Side, r: (Status, Status), lost: Contestant, won: Contestant)
      returns (u: State)
    requires t.WellFormed() && Typed(t, s) && Reach(t, s, s1) && t.Node(b) && t.kind[b] == Arena && b != 0
    requires t.Node(t.Child(b, Left)) && t.Node(t.Child(b, Right))
    requires Parted(t, s, s1, b, w, r, lost, won) && Decided(t, b, r) && w == (if r.0.hp <= 0 then Left else Right)
    ensures Reach(t, s, u) && Promoted(t, s, u, b, lost, won)
  {
    Family(t, b, w);
    assert Count(s1.sems, Exits(b)) == Count(s.sems, Exits(b)) + 1;
    u := DoTake(t, s, s1, b);
    Returns(s.sems, s1.sems, u.sems, Exits(b));
    assert u.loc == s1.loc[b := RelayRead(Other(w))];
    Framed(t, s1.loc, u.loc, t.Child(b, Other(w)), Onward(won.orig, won.st));
    assert t.Crossing(b);
  }

  lemma TwoMore(a: Counts, b: Counts, c: Counts, e: Sem)
    requires OneMore(a, b, e) && OneMore(b, c, e)
    ensures Count(c, e) >= 2
  {}

  lemma FarewellLeft(t: Tree, s: State, x: Contestant, y: Contestant, r: (Status, Status)) returns (u: State)
    requires t.WellFormed() && Typed(t, s) && t.Node(0) && t.kind[0] == Arena && Struck(t, s, 0, x, y, r)
    requires Decided(t, 0, r) && t.Node(t.Child(0, Left)) && t.Node(t.Child(0, Right))
    ensures Reach(t, s, u) && Gone(t, u.loc, t.Child(0, Left)) && Waiting(t, u.loc, t.Child(0, Right), y)
    ensures u.loc[0] == WriteRight(r.0, r.1) && Silent(u.chans) && OneMore(s.sems, u.sems, Exits(0))
  {
    Family(t, 0, Left);
    assert t.Crossing(0);
    MayLeave(t, s.loc, 0, t.Child(0, Left), r.0);
    u := TellLeave(t, s, 0, Left, x, r.0, WriteRight(r.0, r.1));
    Framed(t, s.loc, u.loc, t.Child(0, Right), y);
  }

  // The end of the root battle: both subtrees are told and leave, the winner is announced.
  lemma Farewell(t: Tree, s: State, x: Contestant, y: Contestant, r: (Status, Status)) returns (u: State)
    requires t.WellFormed() && Typed(t, s) && t.Node(0) && t.kind[0] == Arena && Struck(t, s, 0, x, y, r)
    requires Decided(t, 0, r) && t.Node(t.Child(0, Left)) && t.Node(t.Child(0, Right))
    ensures Reach(t, s, u) && Gone(t, u.loc, t.Child(0, Left)) && Gone(t, u.loc, t.Child(0, Right))
    ensures u.loc[0] == WaitLoser(r.0, r.1) && Silent(u.chans) && Count(u.sems, Exits(0)) >= 2
  {
    Family(t, 0, Left);
    var d := t.Child(0, Right);
    assert t.Crossing(0);
    var s1 := FarewellLeft(t, s, x, y, r);
    MayLeave(t, s1.loc, 0, d, r.1);
    u := TellLeave(t, s1, 0, Right, y, r.1, WaitLoser(r.0, r.1));
    ReachTrans(t, s, s1, u);
    TwoMore(s.sems, s1.sems, u.sems, Exits(0));
  }

  lemma Announcement(t: Tree, s: State, s2: State, r: (Status, Status)) returns (u: State)
    requires Reach(t, s, s2) && t.Node(0) && s2.loc[0] == WaitLoser(r.0, r.1) && Silent(s2.chans)
    requires Count(s2.sems, Exits(0)) >= 2
    ensures Reach(t, s, u) && u.loc == s2.loc[0 := Exited]
    ensures Calm(u.chans, Up(0), [if r.0.hp <= 0 then r.1 else r.0])
  {
    var st := if r.0.hp <= 0 then r.1 else r.0;
    var s3 := DoTake(t, s, s2, 0);
    assert s3.loc == s2.loc[0 := Announce(st)];
    assert Count(s2.sems, Exits(0)) == Count(s3.sems, Exits(0)) + 1;
    var s4 := DoSend(t, s, s3, 0);
    assert s4.loc == s2.loc[0 := WaitWinner];
    u := LastExit(t, s, s4);
  }

  lemma LastExit(t: Tree, s: State, s4: State) returns (u: State)
    requires Reach(t, s, s4) && t.Node(0) && s4.loc[0] == WaitWinner && Count(s4.sems, Exits(0)) >= 1
    ensures Reach(t, s, u) && u.loc == s4.loc[0 := Exited] && u.chans == s4.chans
  {
    var s5 := DoTake(t, s, s4, 0);
    u := DoSignal(t, s, s5, 0);
  }

  lemma Finish(t: Tree, s: State, x: Contestant, y: Contestant, r: (Status, Status)) returns (u: State)
    requires t.WellFormed() && Typed(t, s) && t.Node(0) && t.kind[0] == Arena && Struck(t, s, 0, x, y, r)
    requires Decided(t, 0, r)
    ensures Reach(t, s, u) && (forall p | t.Node(p) :: u.loc[p] == Exited)
    ensures Calm(u.chans, Up(0), [if r.0.hp <= 0 then r.1 else r.0])
  {
    Family(t, 0, Left);
    var s2 := Farewell(t, s, x, y, r);
    u := Announcement(t, s, s2, r);
    assert t.Upward(0);
    GoneBoth(t, s2.loc, u.loc, 0, t.Child(0, Left), t.Child(0, Right));
  }
}
