/**
 The championship as communicating processes (hw2_pvp-championship/battle.c and player.c).
 Every node of the bracket is one process. A process is a control state; each of its steps is
 one blocking operation: a write or a read of a whole token on a pipe or FIFO, or a
 synchronisation. `wait(NULL)` takes one of the exits its children have signalled, and a FIFO
 is opened by announcing one's own end and taking the announcement of the other end.
 */
module Protocol {
  import opened Combat
  import opened Bracket

  datatype Chan =
    | Up(node: int)     // pipe from a node to its parent; Up(0) is the root's standard output
    | Down(node: int)   // pipe from the parent to a node
    | Fifo(node: int)   // FIFO of an agent

  datatype Sem =
    | Exits(node: int)   // children of a battle that exited and were not waited for yet
    | Writer(node: int)  // the FIFO of this agent was opened for writing
    | Reader(node: int)  // ... for reading

  datatype Local =
    // player: `orig` is originHP
    | Offering(st: Status, orig: int)
    | AwaitReply(st: Status, orig: int)
    | HandOpen(st: Status)
    | HandWait(st: Status)
    | HandWrite(st: Status)
    // agent before it has a token
    | SlotOpen
    | SlotWait
    | SlotRead
    // battle, Playing mode
    | ReadLeft
    | ReadRight(s1: Status)
    | WriteLeft(s1: Status, s2: Status)
    | WriteRight(s1: Status, s2: Status)
    | WaitLoser(s1: Status, s2: Status)
    // battle, Passing mode
    | RelayRead(w: Side)
    | RelayUp(w: Side, st: Status)
    | RelayWait(w: Side, st: Status)
    | RelayDown(w: Side, st: Status)
    | Announce(st: Status)
    | WaitWinner
    | Exiting
    | Exited

  datatype Op =
    | Send(ch: Chan, msg: Status, next: Local)
    | Recv(ch: Chan)
    | Signal(sem: Sem, next: Local)
    | Take(sem: Sem, next: Local)
    | Halt

  // The kernel's side of a state: queues of the channels and counts of the signals.
  type Queues = map<Chan, seq<Status>>
  type Counts = map<Sem, nat>

  function Queue(c: Queues, ch: Chan): seq<Status> {
    if ch in c then c[ch] else []
  }

  function Count(k: Counts, x: Sem): nat {
    if x in k then k[x] else 0
  }

  datatype State = State(loc: seq<Local>, chans: Queues, sems: Counts) {
    function Chan(ch: Chan): seq<Status> {
      Queue(chans, ch)
    }

    function Sem(x: Sem): nat {
      Count(sems, x)
    }
  }

  // Head of a player's inner loop, with a token in hand.
  function PlayerHead(t: Tree, p: int, st: Status, orig: int): Local
    requires t.Sized() && t.Node(p)
  {
    if st.flag != 1 then Offering(st, orig)
    else if st.cur == 0 then Exiting
    else if st.hp > 0 then
      // healed tokens carry flag 0, so the loop head is passed at once
      Offering(Heal(orig, st), orig)
    else if t.kind[p] == Real then HandOpen(Revive(orig, st))
    else Exiting
  }

  // Head of a battle's Passing loop.
  function PassingHead(w: Side, hp: int): Local {
    if hp > 0 then RelayRead(w) else WaitWinner
  }

  // What follows the first wait of a battle.
  function AfterLoser(b: int, s1: Status, s2: Status): Local {
    var w := if s1.hp <= 0 then Right else Left;
    var st := if w == Right then s2 else s1;
    if b == 0 then Announce(st) else PassingHead(w, st.hp)
  }

  function AfterReply(w: Side, st: Status): Local {
    if st.cur == 0 && st.flag != 0 then WaitWinner else PassingHead(w, st.hp)
  }

  // The agent that takes over the loser of the battle the token was last judged in.
  function SlotOf(t: Tree, st: Status): int
    requires t.Sized()
  {
    if t.Node(st.cur) then t.slot[st.cur] else -1
  }

  // The next operation of node `p`.
  function OpOf(t: Tree, p: int, l: Local): Op
    requires t.Sized() && t.Node(p)
  {
    match l
    case Offering(st, orig) => Send(Up(p), st, AwaitReply(st, orig))
    case AwaitReply(_, _) => Recv(Down(p))
    case HandOpen(st) => Signal(Writer(SlotOf(t, st)), HandWait(st))
    case HandWait(st) => Take(Reader(SlotOf(t, st)), HandWrite(st))
    case HandWrite(st) => Send(Fifo(SlotOf(t, st)), st, Exiting)
    case SlotOpen => Signal(Reader(p), SlotWait)
    case SlotWait => Take(Writer(p), SlotRead)
    case SlotRead => Recv(Fifo(p))
    case ReadLeft => Recv(Up(t.Child(p, Left)))
    case ReadRight(_) => Recv(Up(t.Child(p, Right)))
    case WriteLeft(s1, s2) => Send(Down(t.Child(p, Left)), s1, WriteRight(s1, s2))
    case WriteRight(s1, s2) =>
      Send(Down(t.Child(p, Right)), s2, if s1.flag != 1 then ReadLeft else WaitLoser(s1, s2))
    case WaitLoser(s1, s2) => Take(Exits(p), AfterLoser(p, s1, s2))
    case RelayRead(w) => Recv(Up(t.Child(p, w)))
    case RelayUp(w, st) => Send(Up(p), st, RelayWait(w, st))
    case RelayWait(_, _) => Recv(Down(p))
    case RelayDown(w, st) => Send(Down(t.Child(p, w)), st, AfterReply(w, st))
    case Announce(st) => Send(Up(p), st, WaitWinner)
    case WaitWinner => Take(Exits(p), Exiting)
    case Exiting => Signal(Exits(t.parent[p]), Exited)
    case Exited => Halt
  }

  // The control state after a read.
  function OnRecv(t: Tree, p: int, l: Local, m: Status): Local
    requires t.Sized() && t.Node(p) && OpOf(t, p, l).Recv?
  {
    match l
    case AwaitReply(_, orig) => PlayerHead(t, p, m, orig)
    case SlotRead => PlayerHead(t, p, m, m.hp)
    case ReadLeft => ReadRight(m)
    case ReadRight(s1) => var r := Round(t.attr[p], p, s1, m); WriteLeft(r.0, r.1)
    case RelayRead(w) => RelayUp(w, m)
    case RelayWait(w, _) => RelayDown(w, m)
  }

  predicate Typed(t: Tree, s: State) {
    t.Sized() && |s.loc| == t.size
  }

  // Whether an operation can go ahead, and what it does to its process and the kernel.
  predicate Can(s: State, op: Op) {
    match op
    case Send(_, _, _) => true
    case Recv(ch) => s.Chan(ch) != []
    case Signal(_, _) => true
    case Take(x, _) => s.Sem(x) > 0
    case Halt => false
  }

  function ChansAfter(c: Queues, op: Op): Queues
    requires op.Recv? ==> Queue(c, op.ch) != []
  {
    match op
    case Send(ch, m, _) => c[ch := Queue(c, ch) + [m]]
    case Recv(ch) => c[ch := Queue(c, ch)[1..]]
    case _ => c
  }

  function SemsAfter(k: Counts, op: Op): Counts
    requires op.Take? ==> Count(k, op.sem) > 0
  {
    match op
    case Signal(x, _) => k[x := Count(k, x) + 1]
    case Take(x, _) => k[x := Count(k, x) - 1]
    case _ => k
  }

  function Perform(s: State, p: nat, op: Op, next: Local): State
    requires p < |s.loc| && Can(s, op)
  {
    State(s.loc[p := next], ChansAfter(s.chans, op), SemsAfter(s.sems, op))
  }

  predicate Enabled(t: Tree, s: State, p: int)
    requires Typed(t, s)
  {
    t.Node(p) && Can(s, OpOf(t, p, s.loc[p]))
  }

  function NextLocal(t: Tree, s: State, p: int): Local
    requires Typed(t, s) && Enabled(t, s, p)
  {
    var op := OpOf(t, p, s.loc[p]);
    if op.Recv? then OnRecv(t, p, s.loc[p], s.Chan(op.ch)[0]) else op.next
  }

  function Step(t: Tree, s: State, p: int): (s': State)
    requires Typed(t, s) && Enabled(t, s, p)
    ensures Typed(t, s')
  {
    Perform(s, p, OpOf(t, p, s.loc[p]), NextLocal(t, s, p))
  }

  // `sch` is the list of processes that step, in that order, from `s` to `u`.
  predicate Runs(t: Tree, s: State, sch: seq<int>, u: State)
    requires Typed(t, s)
    decreases |sch|
  {
    if sch == [] then s == u
    else Enabled(t, s, sch[0]) && Runs(t, Step(t, s, sch[0]), sch[1..], u)
  }

  ghost predicate Stuck(t: Tree, s: State)
    requires Typed(t, s)
  {
    forall p | t.Node(p) :: !Enabled(t, s, p)
  }

  function StartOf(t: Tree, p: int): Local
    requires t.Sized() && t.Node(p)
  {
    match t.kind[p]
    case Real => PlayerHead(t, p, t.entry[p], t.entry[p].hp)
    case Agent => SlotOpen
    case Arena => ReadLeft
  }

  // All processes are forked before the first token moves.
  function Init(t: Tree): (s: State)
    requires t.Sized()
    ensures Typed(t, s)
  {
    State(seq(t.size, p requires 0 <= p < t.size => StartOf(t, p)), map[], map[])
  }

  ghost predicate Reachable(t: Tree, s: State) {
    t.Sized() && exists sch :: Runs(t, Init(t), sch, s)
  }

  lemma {:induction false} RunsAppend(t: Tree, s: State, a: seq<int>, u: State, b: seq<int>, v: State)
    requires Typed(t, s) && Runs(t, s, a, u) && Typed(t, u) && Runs(t, u, b, v)
    ensures Runs(t, s, a + b, v)
    decreases |a|
  {
    if a == [] {
      assert a + b == b;
    } else {
      RunsAppend(t, Step(t, s, a[0]), a[1..], u, b, v);
      assert (a + b)[1..] == a[1..] + b;
    }
  }
}
