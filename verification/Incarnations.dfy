/**
 Token uniqueness over whole runs: every agent is handed one token, and every real player has
 exactly one active incarnation until its last one leaves
 (hw2_pvp-championship/player.c:87-117 and 119-154).
 */
module Incarnations {
  import opened Combat
  import opened Bracket
  import opened Protocol
  import opened Tokens
  import opened Places
  import opened Championship

  // ---------- what an agent receives ----------

  // A player that is no agent waiting for its token.
  function Started(l: Local): nat {
    if l.SlotOpen? || l.SlotWait? || l.SlotRead? then 0 else 1
  }

  function Hands(op: Op, k: int): nat {
    if op.Send? && op.ch == Fifo(k) then 1 else 0
  }

  // Number of tokens written to agent `k`'s FIFO in a run from `s`.
  function Handed(t: Tree, s: State, sch: seq<int>, k: int): nat
    requires Typed(t, s)
    decreases |sch|
  {
    if sch == [] || !Enabled(t, s, sch[0]) then 0
    else Hands(OpOf(t, sch[0], s.loc[sch[0]]), k) + Handed(t, Step(t, s, sch[0]), sch[1..], k)
  }

  // What was handed over is still in the FIFO or was received, and an agent that has received
  // its token never waits for one again.
  lemma FifoStep(t: Tree, s: State, p: int, k: int)
    requires Typed(t, s) && Enabled(t, s, p) && t.Node(k)
    ensures var u := Step(t, s, p);
            && |u.Chan(Fifo(k))| + Started(u.loc[k])
                 == |s.Chan(Fifo(k))| + Started(s.loc[k]) + Hands(OpOf(t, p, s.loc[p]), k)
            && Started(u.loc[k]) >= Started(s.loc[k])
  {
    QueueAfter(s.chans, OpOf(t, p, s.loc[p]), Fifo(k));
  }

  lemma {:induction false} FifoRun(t: Tree, s: State, sch: seq<int>, u: State, k: int)
    requires Typed(t, s) && Runs(t, s, sch, u) && t.Node(k)
    ensures |u.loc| == t.size && Started(u.loc[k]) >= Started(s.loc[k])
    ensures |u.Chan(Fifo(k))| + Started(u.loc[k]) == |s.Chan(Fifo(k))| + Started(s.loc[k]) + Handed(t, s, sch, k)
    decreases |sch|
  {
    if sch != [] {
      FifoStep(t, s, sch[0], k);
      FifoRun(t, Step(t, s, sch[0]), sch[1..], u, k);
    }
  }

  // In every run each agent is handed one token at most, which it has received exactly if it has
  // started; in every complete run each agent is handed exactly one.
  lemma AgentReceivesOnce(t: Tree, run: seq<int>, u: State, k: int)
    requires t.WellFormed() && Runs(t, Init(t), run, u) && t.Node(k) && t.kind[k] == Agent
    ensures Typed(t, u) && Handed(t, Init(t), run, k) <= 1
    ensures Handed(t, Init(t), run, k) == |u.Chan(Fifo(k))| + Started(u.loc[k])
    ensures Stuck(t, u) ==> Handed(t, Init(t), run, k) == 1
  {
    FifoRun(t, Init(t), run, u, k);
    var rest, f := RunsComplete(t, run, u);
    FifoRun(t, u, rest, f, k);
    ChampionDetermined(t, run, u);
  }

  // ---------- incarnations of a real player ----------

  // A player process that plays or hands over with real id `r`.
  predicate Bears(l: Local, r: int) {
    match l
    case Offering(st, _) => st.id == r
    case AwaitReply(st, _) => st.id == r
    case HandOpen(st) => st.id == r
    case HandWait(st) => st.id == r
    case HandWrite(st) => st.id == r
    case _ => false
  }

  function One(b: bool): nat {
    if b then 1 else 0
  }

  function Bearers(loc: seq<Local>, r: int): nat {
    if loc == [] then 0 else One(Bears(loc[0], r)) + Bearers(loc[1..], r)
  }

  function Messages(q: seq<Status>, r: int): nat {
    if q == [] then 0 else One(q[0].id == r) + Messages(q[1..], r)
  }

  // Tokens of `r` on their way to the agents among the first `n` nodes.
  function InFifos(c: Queues, n: nat, r: int): nat {
    if n == 0 then 0 else InFifos(c, n - 1, r) + Messages(Queue(c, Fifo(n - 1)), r)
  }

  // Processes and FIFO entries that are an active incarnation of real player `r`.
  function Incarnations(t: Tree, s: State, r: int): nat {
    Bearers(s.loc, r) + InFifos(s.chans, t.size, r)
  }

  // Process `p` reads the answer after which its player `r` is out for good: the answer of the
  // final, or of a battle it lost as an agent.
  predicate Departs(t: Tree, s: State, p: int, r: int)
    requires Typed(t, s) && Enabled(t, s, p)
  {
    var l := s.loc[p];
    l.AwaitReply? && l.st.id == r && Out(s.Chan(Down(p))[0], t.kind[p])
  }

  predicate Out(m: Status, kind: Kind) {
    m.flag == 1 && (m.cur == 0 || (m.hp <= 0 && kind != Real))
  }

  function Departures(t: Tree, s: State, sch: seq<int>, r: int): nat
    requires Typed(t, s)
    decreases |sch|
  {
    if sch == [] || !Enabled(t, s, sch[0]) then 0
    else One(Departs(t, s, sch[0], r)) + Departures(t, Step(t, s, sch[0]), sch[1..], r)
  }

  lemma {:induction false} BearersUpdate(loc: seq<Local>, p: nat, l: Local, r: int)
    requires p < |loc|
    ensures Bearers(loc[p := l], r) + One(Bears(loc[p], r)) == Bearers(loc, r) + One(Bears(l, r))
  {
    var z := loc[p := l];
    if p == 0 {
      assert z[1..] == loc[1..];
    } else {
      BearersUpdate(loc[1..], p - 1, l, r);
      assert z[1..] == loc[1..][p - 1 := l];
    }
  }

  lemma {:induction false} MessagesMore(q: seq<Status>, m: Status, r: int)
    ensures Messages(q + [m], r) == Messages(q, r) + One(m.id == r)
  {
    if q == [] {
      assert q + [m] == [m] && [m][1..] == [];
    } else {
      MessagesMore(q[1..], m, r);
      assert (q + [m])[1..] == q[1..] + [m];
    }
  }

  // What an operation adds to the FIFOs of the first `n` nodes, and what it takes from them.
  function Added(op: Op, n: nat, r: int): nat {
    One(op.Send? && op.ch.Fifo? && 0 <= op.ch.node < n && op.msg.id == r)
  }

  function Taken(c: Queues, op: Op, n: nat, r: int): nat
    requires op.Recv? ==> Queue(c, op.ch) != []
  {
    One(op.Recv? && op.ch.Fifo? && 0 <= op.ch.node < n && Queue(c, op.ch)[0].id == r)
  }

  lemma {:induction false} FifosAfter(c: Queues, op: Op, n: nat, r: int)
    requires op.Recv? ==> Queue(c, op.ch) != []
    ensures InFifos(ChansAfter(c, op), n, r) + Taken(c, op, n, r) == InFifos(c, n, r) + Added(op, n, r)
  {
    if n > 0 {
      FifosAfter(c, op, n - 1, r);
      var ch := Fifo(n - 1);
      QueueAfter(c, op, ch);
      if op.Send? && op.ch == ch { MessagesMore(Queue(c, ch), op.msg, r); }
    }
  }

  // A player that gets its answer goes on with its real id, or is out.
  lemma BearsReply(t: Tree, p: int, st: Status, orig: int, m: Status, r: int)
    requires t.Sized() && t.Node(p) && Answers(m, st)
    ensures One(Bears(PlayerHead(t, p, m, orig), r)) + One(st.id == r && Out(m, t.kind[p])) == One(st.id == r)
  {}

  // Any other operation keeps the real id a process bears, except the two ends of a hand-over.
  lemma BearsOther(t: Tree, p: int, l: Local, m: Status, r: int)
    requires t.Sized() && t.Node(p) && LocalOk(t, p, l) && !l.AwaitReply? && !l.Exited?
    requires l.SlotRead? ==> Fit(m)
    ensures var op := OpOf(t, p, l);
            var next := if op.Recv? then OnRecv(t, p, l, m) else op.next;
            Bears(next, r) == if l.HandWrite? then false else if l.SlotRead? then m.id == r else Bears(l, r)
  {}

  lemma FifoOps(t: Tree, p: int, l: Local, r: int)
    requires t.WellFormed() && t.Node(p) && LocalOk(t, p, l)
    ensures var op := OpOf(t, p, l);
            && Added(op, t.size, r) == One(l.HandWrite? && l.st.id == r)
            && (op.Recv? && op.ch.Fifo? <==> l.SlotRead?) && (l.SlotRead? ==> op.ch == Fifo(p))
  {
    if l.HandWrite? { assert t.Crossing(l.st.cur); }
  }

  // Of one process: whoever bears `r` goes on bearing it, or hands it over, or is out.
  lemma BearsNext(t: Tree, s: State, p: int, r: int)
    requires Invariant(t, s) && Enabled(t, s, p)
    ensures var op := OpOf(t, p, s.loc[p]);
            One(Bears(NextLocal(t, s, p), r)) + Added(op, t.size, r) + One(Departs(t, s, p, r))
              == One(Bears(s.loc[p], r)) + Taken(s.chans, op, t.size, r)
  {
    var l := s.loc[p];
    var op := OpOf(t, p, l);
    assert LocalOk(t, p, l);
    FifoOps(t, p, l, r);
    if l.AwaitReply? {
      AnswerComes(t, s, p);
      BearsReply(t, p, l.st, l.orig, s.Chan(Down(p))[0], r);
    } else {
      if l.SlotRead? { assert MessageOk(t, Fifo(p), s.Chan(Fifo(p))[0]); }
      BearsOther(t, p, l, if op.Recv? then s.Chan(op.ch)[0] else t.entry[p], r);
    }
  }

  lemma IncarnationsStep(t: Tree, s: State, p: int, r: int)
    requires Invariant(t, s) && Enabled(t, s, p)
    ensures Incarnations(t, Step(t, s, p), r) + One(Departs(t, s, p, r)) == Incarnations(t, s, r)
  {
    BearersUpdate(s.loc, p, NextLocal(t, s, p), r);
    FifosAfter(s.chans, OpOf(t, p, s.loc[p]), t.size, r);
    BearsNext(t, s, p, r);
  }

  lemma {:induction false} IncarnationsRun(t: Tree, s: State, sch: seq<int>, u: State, r: int)
    requires Invariant(t, s) && Runs(t, s, sch, u)
    ensures Incarnations(t, u, r) + Departures(t, s, sch, r) == Incarnations(t, s, r)
    decreases |sch|
  {
    if sch != [] {
      IncarnationsStep(t, s, sch[0], r);
      InvariantStep(t, s, sch[0]);
      IncarnationsRun(t, Step(t, s, sch[0]), sch[1..], u, r);
    }
  }

  lemma {:induction false} NoBearers(loc: seq<Local>, r: int)
    requires forall p | 0 <= p < |loc| :: !Bears(loc[p], r)
    ensures Bearers(loc, r) == 0
  {
    if loc != [] { NoBearers(loc[1..], r); }
  }

  lemma {:induction false} OneBearer(loc: seq<Local>, x: nat, r: int)
    requires x < |loc| && forall p | 0 <= p < |loc| :: Bears(loc[p], r) <==> p == x
    ensures Bearers(loc, r) == 1
  {
    if x == 0 { NoBearers(loc[1..], r); } else { OneBearer(loc[1..], x - 1, r); }
  }

  lemma {:induction false} EmptyFifos(c: Queues, n: nat, r: int)
    requires forall ch: Chan | ch.Fifo? :: Queue(c, ch) == []
    ensures InFifos(c, n, r) == 0
  {
    if n > 0 { EmptyFifos(c, n - 1, r); }
  }

  // At the start a real player's own process is its incarnation.
  lemma IncarnationsInit(t: Tree, x: int)
    requires t.WellFormed() && t.Node(x) && t.kind[x] == Real
    ensures Incarnations(t, Init(t), t.entry[x].id) == 1
  {
    var s, r := Init(t), t.entry[x].id;
    forall p | 0 <= p < |s.loc| ensures Bears(s.loc[p], r) <==> p == x {
      assert t.Starts(p) && t.Starts(x);
    }
    OneBearer(s.loc, x, r);
    EmptyFifos(s.chans, t.size, r);
  }

  // In every run each real player has exactly one active incarnation until one of them departs,
  // and none afterwards; in every complete run each player departs exactly once.
  lemma PlayersIncarnateOnce(t: Tree, run: seq<int>, u: State, x: int)
    requires t.WellFormed() && Runs(t, Init(t), run, u) && t.Node(x) && t.kind[x] == Real
    ensures Incarnations(t, u, t.entry[x].id) + Departures(t, Init(t), run, t.entry[x].id) == 1
    ensures Typed(t, u) && (Stuck(t, u) ==> Departures(t, Init(t), run, t.entry[x].id) == 1)
  {
    var r := t.entry[x].id;
    InvariantInit(t);
    IncarnationsInit(t, x);
    IncarnationsRun(t, Init(t), run, u, r);
    ChampionDetermined(t, run, u);
    if Stuck(t, u) { NobodyLeft(t, u, r); }
  }

  lemma NobodyLeft(t: Tree, u: State, r: int)
    requires t.WellFormed() && Over(t, u)
    ensures Incarnations(t, u, r) == 0
  {
    NoBearers(u.loc, r);
    forall ch: Chan | ch.Fifo? ensures Queue(u.chans, ch) == [] { assert u.Chan(ch) == []; }
    EmptyFifos(u.chans, t.size, r);
  }

  // A player process that waits for an answer stops exactly if the answer puts its player out.
  lemma DepartsExits(t: Tree, s: State, p: int)
    requires Typed(t, s) && Enabled(t, s, p) && s.loc[p].AwaitReply?
    ensures Departs(t, s, p, s.loc[p].st.id) <==> NextLocal(t, s, p) == Exiting
  {}
}
