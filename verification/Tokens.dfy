/**
 What every reachable state of the championship keeps, for any bracket and any interleaving:
 where tokens are, whose they are and how healthy they are.
 */
module Tokens {
  import opened Combat
  import opened Bracket
  import opened Protocol

  // ---------- health and identity of tokens ----------

  // `m` is a token of the real player at node `r`.
  predicate From(t: Tree, m: Status, r: int)
    requires t.Sized()
  {
    t.Node(r) && t.kind[r] == Real && SamePlayer(m, t.entry[r]) && m.hp <= t.entry[r].hp
  }

  ghost predicate Sane(t: Tree, m: Status)
    requires t.Sized()
  {
    m.atk >= 1 && exists r :: From(t, m, r)
  }

  // ... and `orig` is what that player started with.
  ghost predicate Owned(t: Tree, m: Status, orig: int)
    requires t.Sized()
  {
    m.atk >= 1 && exists r :: From(t, m, r) && orig == t.entry[r].hp
  }

  // A token on its way back down from a battle.
  ghost predicate Verdict(t: Tree, m: Status)
    requires t.Sized()
  {
    Sane(t, m) && (m.flag == 1 || (m.flag == 0 && m.hp > 0))
  }

  predicate Inside(t: Tree, c: int, b: int)
    requires t.Sized()
  {
    t.Node(b) && t.kind[b] == Arena && b < c < t.end[b]
  }

  ghost predicate Judged(t: Tree, b: int, s1: Status, s2: Status)
    requires t.Sized()
  {
    && Verdict(t, s1) && Verdict(t, s2) && s1.cur == s2.cur == b && s1.flag == s2.flag
    && (s1.flag == 1 ==> (s1.hp <= 0) != (s2.hp <= 0))
  }

  ghost predicate LocalOk(t: Tree, p: int, l: Local)
    requires t.Sized() && t.Node(p)
  {
    match l
    case Offering(st, orig) => t.kind[p] != Arena && Fit(st) && Owned(t, st, orig)
    case AwaitReply(st, orig) => t.kind[p] != Arena && Fit(st) && Owned(t, st, orig)
    case HandOpen(st) => HandOk(t, p, st)
    case HandWait(st) => HandOk(t, p, st)
    case HandWrite(st) => HandOk(t, p, st)
    case SlotOpen => t.kind[p] == Agent
    case SlotWait => t.kind[p] == Agent
    case SlotRead => t.kind[p] == Agent
    case ReadLeft => t.kind[p] == Arena
    case ReadRight(s1) => t.kind[p] == Arena && Fit(s1) && Sane(t, s1)
    case WriteLeft(s1, s2) => t.kind[p] == Arena && Judged(t, p, s1, s2)
    case WriteRight(s1, s2) => t.kind[p] == Arena && Judged(t, p, s1, s2)
    case WaitLoser(s1, s2) => t.kind[p] == Arena && Judged(t, p, s1, s2) && s1.flag == 1
    case RelayRead(_) => t.kind[p] == Arena && p != 0
    case RelayUp(_, st) => t.kind[p] == Arena && p != 0 && Fit(st) && Sane(t, st)
    case RelayWait(_, st) => t.kind[p] == Arena && p != 0 && Fit(st) && Sane(t, st)
    case RelayDown(_, st) => t.kind[p] == Arena && p != 0 && Verdict(t, st) && Inside(t, p, st.cur)
    case Announce(st) => t.kind[p] == Arena && p == 0 && st.hp > 0
    case WaitWinner => t.kind[p] == Arena
    case Exiting => true
    case Exited => true
  }

  ghost predicate HandOk(t: Tree, p: int, st: Status)
    requires t.Sized() && t.Node(p)
  {
    t.kind[p] == Real && Fit(st) && Owned(t, st, st.hp) && Inside(t, p, st.cur) && t.slot[st.cur] >= 0
  }

  ghost predicate MessageOk(t: Tree, ch: Chan, m: Status)
    requires t.Sized()
  {
    match ch
    case Up(c) => c != 0 ==> Fit(m) && Sane(t, m)
    case Down(c) => Verdict(t, m) && Inside(t, c, m.cur)
    case Fifo(k) =>
      Fit(m) && Owned(t, m, m.hp) && k >= 0 && SlotOf(t, m) == k && t.Node(m.cur) && t.kind[m.cur] == Arena
  }

  ghost predicate Healthy(t: Tree, s: State)
    requires Typed(t, s)
  {
    && (forall p | t.Node(p) :: LocalOk(t, p, s.loc[p]))
    && (forall ch, i | 0 <= i < |s.Chan(ch)| :: MessageOk(t, ch, s.Chan(ch)[i]))
  }

  // Subtrees are nested or disjoint.
  lemma {:induction false} Nested(t: Tree, b: int, p: int)
    requires t.WellFormed() && t.Node(p) && Inside(t, p, b)
    ensures t.end[p] <= t.end[b]
    decreases p
  {
    var q := t.parent[p];
    assert t.Upward(p) && t.Shape(q) && t.Shape(b) && t.Upward(0);
    if q < b {
      assert t.Shape(q + 1);
      if q + 1 < b { Nested(t, q + 1, b); }
      assert false;
    } else if q > b {
      Nested(t, b, q);
    }
  }

  lemma RoundOk(t: Tree, p: int, s1: Status, m: Status)
    requires t.Sized() && t.Node(p) && Fit(s1) && Sane(t, s1) && Fit(m) && Sane(t, m)
    ensures var r := Round(t.attr[p], p, s1, m);
            Judged(t, p, r.0, r.1) && Answers(r.0, s1) && Answers(r.1, m)
  {
    RoundFacts(t.attr[p], p, s1, m);
    var r := Round(t.attr[p], p, s1, m);
    var a :| From(t, s1, a);
    var b :| From(t, m, b);
    assert From(t, r.0, a) && From(t, r.1, b);
  }

  lemma ReplyOk(t: Tree, p: int, st: Status, orig: int, m: Status)
    requires t.Sized() && t.Node(p) && t.kind[p] != Arena && Fit(st) && Owned(t, st, orig)
    requires Verdict(t, m) && Inside(t, p, m.cur) && Answers(m, st)
    requires t.kind[p] == Real && m.cur != 0 ==> t.slot[m.cur] >= 0
    ensures LocalOk(t, p, PlayerHead(t, p, m, orig))
  {
    var r :| From(t, st, r) && orig == t.entry[r].hp;
    assert From(t, m, r) && From(t, Heal(orig, m), r) && From(t, Revive(orig, m), r);
  }

  lemma RecvOk(t: Tree, p: int, l: Local, m: Status)
    requires t.Sized() && t.Node(p) && LocalOk(t, p, l) && OpOf(t, p, l).Recv?
    requires t.Shape(p) && t.Upward(p) && MessageOk(t, OpOf(t, p, l).ch, m)
    requires Expect(l) != [] ==> Answers(m, Expect(l)[0])
    requires t.kind[p] == Real && t.Node(m.cur) && m.cur != 0 && Inside(t, p, m.cur) ==> t.slot[m.cur] >= 0
    ensures LocalOk(t, p, OnRecv(t, p, l, m))
  {
    match l
    case ReadRight(s1) => RoundOk(t, p, s1, m);
    case AwaitReply(st, orig) => ReplyOk(t, p, st, orig, m);
    case SlotRead =>
    case ReadLeft =>
    case RelayRead(w) =>
    case RelayWait(w, st) =>
  }

  lemma NextOk(t: Tree, p: int, l: Local)
    requires t.Sized() && t.Node(p) && LocalOk(t, p, l) && t.Upward(p)
    requires var op := OpOf(t, p, l); !op.Recv? && !op.Halt?
    ensures LocalOk(t, p, OpOf(t, p, l).next)
  {}

  lemma SentOk(t: Tree, p: int, l: Local)
    requires t.WellFormed() && t.Node(p) && LocalOk(t, p, l) && OpOf(t, p, l).Send?
    ensures MessageOk(t, OpOf(t, p, l).ch, OpOf(t, p, l).msg)
  {
    assert t.Shape(p);
    if l.RelayDown? { Nested(t, l.st.cur, p); }
  }

  // A process waiting for an answer gets the token it sent, with no more hit points.
  lemma AnswerComes(t: Tree, s: State, p: int)
    requires t.WellFormed() && Typed(t, s) && Healthy(t, s) && Links(t, s) && Enabled(t, s, p)
    requires Expect(s.loc[p]) != []
    ensures Answers(s.Chan(Down(p))[0], Expect(s.loc[p])[0])
  {
    assert LocalOk(t, p, s.loc[p]) && t.Upward(p) && Link(t, s, p);
    assert s.Chan(Down(p))[0] in InFlight(t, s, p);
  }

  lemma HealthyStep(t: Tree, s: State, p: int)
    requires t.WellFormed() && Typed(t, s) && Healthy(t, s) && Links(t, s) && Enabled(t, s, p)
    ensures Healthy(t, Step(t, s, p))
  {
    var l := s.loc[p];
    assert LocalOk(t, p, l) && t.Shape(p) && t.Upward(p);
    var op := OpOf(t, p, l);
    var u := Step(t, s, p);
    if op.Recv? {
      var m := s.Chan(op.ch)[0];
      assert MessageOk(t, op.ch, m);
      if Expect(l) != [] { AnswerComes(t, s, p); }
      assert t.Node(m.cur) && t.kind[m.cur] == Arena ==> t.Crossing(m.cur);
      RecvOk(t, p, l, m);
    } else {
      NextOk(t, p, l);
      if op.Send? { SentOk(t, p, l); }
    }
    MessagesStep(t, s, p);
  }

  lemma MessagesStep(t: Tree, s: State, p: int)
    requires Typed(t, s) && Enabled(t, s, p)
    requires forall ch, i | 0 <= i < |s.Chan(ch)| :: MessageOk(t, ch, s.Chan(ch)[i])
    requires var op := OpOf(t, p, s.loc[p]); op.Send? ==> MessageOk(t, op.ch, op.msg)
    ensures var u := Step(t, s, p); forall ch, i | 0 <= i < |u.Chan(ch)| :: MessageOk(t, ch, u.Chan(ch)[i])
  {
    var op := OpOf(t, p, s.loc[p]);
    var u := Step(t, s, p);
    forall ch, i | 0 <= i < |u.Chan(ch)| ensures MessageOk(t, ch, u.Chan(ch)[i]) {
      if op.Recv? && op.ch == ch {
        assert u.Chan(ch)[i] == s.Chan(ch)[i + 1];
      } else if i < |s.Chan(ch)| {
        assert u.Chan(ch)[i] == s.Chan(ch)[i];
      }
    }
  }

  // ---------- every pipe pair carries one token at most, and answers with the same one ----------

  // The token a process is waiting to get back.
  function Expect(l: Local): seq<Status> {
    match l
    case AwaitReply(st, _) => [st]
    case RelayWait(_, st) => [st]
    case _ => []
  }

  // The token a battle owes to its child on side `w`.
  function OwedTo(l: Local, w: Side): seq<Status> {
    match l
    case ReadRight(s1) => if w == Left then [s1] else []
    case WriteLeft(s1, s2) => if w == Left then [s1] else [s2]
    case WriteRight(_, s2) => if w == Left then [] else [s2]
    case RelayUp(v, st) => if w == v then [st] else []
    case RelayWait(v, st) => if w == v then [st] else []
    case RelayDown(v, st) => if w == v then [st] else []
    case _ => []
  }

  function SideOf(t: Tree, c: int): Side
    requires t.Sized() && t.Node(c)
  {
    if c == t.parent[c] + 1 then Left else Right
  }

  function InFlight(t: Tree, s: State, c: int): seq<Status>
    requires t.Sized() && |s.loc| == t.size && t.Node(c) && t.Node(t.parent[c])
  {
    s.Chan(Up(c)) + s.Chan(Down(c)) + OwedTo(s.loc[t.parent[c]], SideOf(t, c))
  }

  predicate Answers(m: Status, st: Status) {
    SamePlayer(m, st) && m.hp <= st.hp
  }

  predicate Link(t: Tree, s: State, c: int)
    requires t.Sized() && |s.loc| == t.size && t.Node(c) && t.Node(t.parent[c])
  {
    Matches(Expect(s.loc[c]), InFlight(t, s, c))
  }

  ghost predicate Links(t: Tree, s: State)
    requires Typed(t, s)
  {
    forall c | t.Node(c) && c != 0 && t.Node(t.parent[c]) :: Link(t, s, c)
  }

  // What an operation does to one queue.
  lemma QueueAfter(q: Queues, op: Op, ch: Chan)
    requires op.Recv? ==> Queue(q, op.ch) != []
    ensures Queue(ChansAfter(q, op), ch) ==
            if op.Send? && op.ch == ch then Queue(q, ch) + [op.msg]
            else if op.Recv? && op.ch == ch then Queue(q, ch)[1..]
            else Queue(q, ch)
  {}

  // A process that waits reads the answer next ...
  lemma WaitingReads(t: Tree, c: int, l: Local)
    requires t.Sized() && t.Node(c) && Expect(l) != []
    ensures OpOf(t, c, l) == Recv(Down(c)) && forall m :: Expect(OnRecv(t, c, l, m)) == []
  {}

  // ... and one that does not wait may send a token up and then wait for it.
  lemma OthersSend(t: Tree, c: int, l: Local)
    requires t.Sized() && t.Node(c) && c != 0 && t.Shape(c) && LocalOk(t, c, l) && Expect(l) == []
    ensures var op := OpOf(t, c, l);
            && (op.Send? && op.ch == Up(c) ==> Expect(op.next) == [op.msg])
            && (op.Send? ==> op.ch != Down(c)) && (op.Send? && op.ch != Up(c) ==> Expect(op.next) == [])
            && (op.Recv? ==> op.ch != Up(c) && op.ch != Down(c) && forall m :: Expect(OnRecv(t, c, l, m)) == [])
            && (op.Signal? || op.Take? ==> Expect(op.next) == [])
  {}

  // The condition of a link, on what the child expects and what is under way to it.
  predicate Matches(e: seq<Status>, f: seq<Status>) {
    |f| == |e| && (e != [] ==> Answers(f[0], e[0]))
  }

  // What a step of `p` does to the link between `c` and its parent, seen from the child...
  lemma LinkOwnStep(t: Tree, s: State, c: int)
    requires Typed(t, s) && Enabled(t, s, c) && t.Node(t.parent[c]) && c != 0
    requires t.Shape(c) && t.Upward(c) && LocalOk(t, c, s.loc[c]) && Link(t, s, c)
    ensures Link(t, Step(t, s, c), c)
  {
    var l, op, next := s.loc[c], OpOf(t, c, s.loc[c]), NextLocal(t, s, c);
    QueueAfter(s.chans, op, Up(c));
    QueueAfter(s.chans, op, Down(c));
    var owed := OwedTo(s.loc[t.parent[c]], SideOf(t, c));
    if Expect(l) != [] { WaitingReads(t, c, l); } else { OthersSend(t, c, l); }
    OwnMatches(op, Expect(l), Expect(next), s.Chan(Up(c)), s.Chan(Down(c)), owed,
               Queue(ChansAfter(s.chans, op), Up(c)), Queue(ChansAfter(s.chans, op), Down(c)), c);
  }

  lemma OwnMatches(op: Op, e: seq<Status>, e': seq<Status>, up: seq<Status>, down: seq<Status>, owed: seq<Status>,
                   up': seq<Status>, down': seq<Status>, c: int)
    requires Matches(e, up + down + owed) && |e| <= 1
    requires up' == if op.Send? && op.ch == Up(c) then up + [op.msg] else up
    requires e != [] ==> op == Recv(Down(c)) && e' == [] && down != [] && down' == down[1..]
    requires e == [] ==> down' == down && e' == if op.Send? && op.ch == Up(c) then [op.msg] else []
    ensures Matches(e', up' + down' + owed)
  {}

  // What a battle owes its children before and after each operation.
  lemma OwedAfterRecv(t: Tree, p: int, l: Local, m: Status, w: Side)
    requires t.Sized() && t.Node(p) && LocalOk(t, p, l) && OpOf(t, p, l).Recv? && t.Shape(p)
    requires t.kind[p] == Arena
    requires Expect(l) != [] ==> Answers(m, Expect(l)[0])
    requires l.ReadRight? ==> Fit(m) && Sane(t, m)
    ensures var before, after := OwedTo(l, w), OwedTo(OnRecv(t, p, l, m), w);
            if OpOf(t, p, l).ch == Up(t.Child(p, w)) then before == [] && |after| == 1 && Answers(after[0], m)
            else |after| == |before| && (before != [] ==> Answers(after[0], before[0]))
  {
    if l.ReadRight? { RoundOk(t, p, l.s1, m); }
  }

  lemma OwedAfterOther(t: Tree, p: int, l: Local, w: Side)
    requires t.Sized() && t.Node(p) && LocalOk(t, p, l) && t.Shape(p) && t.kind[p] == Arena
    requires var op := OpOf(t, p, l); !op.Recv? && !op.Halt?
    ensures var op := OpOf(t, p, l);
            if op.Send? && op.ch == Down(t.Child(p, w)) then OwedTo(l, w) == [op.msg] && OwedTo(op.next, w) == []
            else OwedTo(op.next, w) == OwedTo(l, w)
  {}

  // ... and the link seen from the parent.
  lemma LinkParentStep(t: Tree, s: State, p: int, c: int)
    requires Typed(t, s) && Enabled(t, s, p) && t.Node(c) && c != 0 && t.parent[c] == p && p < c
    requires t.Shape(p) && t.Upward(c) && LocalOk(t, p, s.loc[p]) && Link(t, s, c)
    requires Expect(s.loc[p]) != [] ==> Answers(s.Chan(Down(p))[0], Expect(s.loc[p])[0])
    requires s.loc[p].ReadRight? ==> MessageOk(t, Up(t.right[p]), s.Chan(Up(t.right[p]))[0])
    ensures Link(t, Step(t, s, p), c)
  {
    var l, u, w := s.loc[p], Step(t, s, p), SideOf(t, c);
    assert u.loc[c] == s.loc[c] && t.Child(p, w) == c;
    var op := OpOf(t, p, l);
    if op.Recv? {
      OwedAfterRecv(t, p, l, s.Chan(op.ch)[0], w);
    } else {
      OwedAfterOther(t, p, l, w);
    }
    LinkTransfer(t, s, p, c, op, NextLocal(t, s, p));
  }

  lemma LinkTransfer(t: Tree, s: State, p: int, c: int, op: Op, next: Local)
    requires Typed(t, s) && t.Node(p) && t.Node(c) && p != c && t.parent[c] == p && Link(t, s, c) && Can(s, op)
    requires op.Recv? ==> op.ch != Down(c)
    requires op.Send? ==> op.ch != Up(c)
    requires var before, after := OwedTo(s.loc[p], SideOf(t, c)), OwedTo(next, SideOf(t, c));
             if op.Recv? && op.ch == Up(c) then before == [] && |after| == 1 && Answers(after[0], s.Chan(op.ch)[0])
             else if op.Send? && op.ch == Down(c) then before == [op.msg] && after == []
             else |after| == |before| && (before != [] ==> Answers(after[0], before[0]))
    ensures Link(t, Perform(s, p, op, next), c)
  {
    var u, w := Perform(s, p, op, next), SideOf(t, c);
    QueueAfter(s.chans, op, Up(c));
    QueueAfter(s.chans, op, Down(c));
    ParentMatches(op, Expect(s.loc[c]), s.Chan(Up(c)), s.Chan(Down(c)), OwedTo(s.loc[p], w), OwedTo(next, w),
                  u.Chan(Up(c)), u.Chan(Down(c)), c);
    assert InFlight(t, u, c) == u.Chan(Up(c)) + u.Chan(Down(c)) + OwedTo(next, w);
  }

  lemma ParentMatches(op: Op, e: seq<Status>, up: seq<Status>, down: seq<Status>, owed: seq<Status>, owed': seq<Status>,
                      up': seq<Status>, down': seq<Status>, c: int)
    requires Matches(e, up + down + owed) && |e| <= 1
    requires if op.Recv? && op.ch == Up(c) then up != [] && owed == [] && |owed'| == 1 && Answers(owed'[0], up[0])
             else if op.Send? && op.ch == Down(c) then owed == [op.msg] && owed' == []
             else |owed'| == |owed| && (owed != [] ==> Answers(owed'[0], owed[0]))
    requires up' == if op.Recv? && op.ch == Up(c) then up[1..] else up
    requires down' == if op.Send? && op.ch == Down(c) then down + [op.msg] else down
    ensures Matches(e, up' + down' + owed')
  {}

  lemma LinkStep(t: Tree, s: State, p: int, c: int)
    requires Typed(t, s) && Enabled(t, s, p) && t.Node(c) && c != 0 && t.Node(t.parent[c])
    requires t.Shape(p) && t.Upward(c) && LocalOk(t, p, s.loc[p]) && Link(t, s, c)
    requires Expect(s.loc[p]) != [] ==> Answers(s.Chan(Down(p))[0], Expect(s.loc[p])[0])
    requires s.loc[p].ReadRight? ==> MessageOk(t, Up(t.right[p]), s.Chan(Up(t.right[p]))[0])
    ensures Link(t, Step(t, s, p), c)
  {
    if c == p {
      LinkOwnStep(t, s, c);
    } else if t.parent[c] == p {
      LinkParentStep(t, s, p, c);
    } else {
      LinkFarStep(t, s, p, c);
    }
  }

  lemma LinkFarStep(t: Tree, s: State, p: int, c: int)
    requires Typed(t, s) && Enabled(t, s, p) && t.Shape(p) && LocalOk(t, p, s.loc[p])
    requires t.Node(c) && c != p && t.Node(t.parent[c]) && t.parent[c] != p && Link(t, s, c)
    ensures Link(t, Step(t, s, p), c)
  {
    var op := OpOf(t, p, s.loc[p]);
    FarChannels(t, p, s.loc[p], c);
    QueueAfter(s.chans, op, Up(c));
    QueueAfter(s.chans, op, Down(c));
  }

  lemma FarChannels(t: Tree, p: int, l: Local, c: int)
    requires t.Sized() && t.Node(p) && t.Shape(p) && LocalOk(t, p, l) && t.Node(c) && c != p && t.parent[c] != p
    ensures var op := OpOf(t, p, l); op.Send? || op.Recv? ==> op.ch != Up(c) && op.ch != Down(c)
  {}

  lemma LinksStep(t: Tree, s: State, p: int)
    requires t.WellFormed() && Typed(t, s) && Healthy(t, s) && Links(t, s) && Enabled(t, s, p)
    ensures Links(t, Step(t, s, p))
  {
    var l, u := s.loc[p], Step(t, s, p);
    assert LocalOk(t, p, l) && t.Shape(p);
    if Expect(l) != [] { AnswerComes(t, s, p); }
    if l.ReadRight? { assert MessageOk(t, Up(t.right[p]), s.Chan(Up(t.right[p]))[0]); }
    forall c | t.Node(c) && c != 0 && t.Node(t.parent[c]) ensures Link(t, u, c) {
      assert t.Upward(c) && Link(t, s, c);
      LinkStep(t, s, p, c);
    }
  }

}
