/**
 Where the tokens of the championship are. Each step moves tokens from place to place and
 copies none, so no real player is ever in two places, the combatants of a battle have
 distinct real ids, and each battle produces a single loser to hand over.
 */
module Places {
  import opened Combat
  import opened Bracket
  import opened Protocol
  import opened Tokens

  datatype Place = Held(node: int, index: int) | InPipe(ch: Chan, index: int)

  // The tokens a process has in hand; the copies it keeps of tokens it sent do not count.
  function InHand(l: Local): seq<Status> {
    match l
    case Offering(st, _) => [st]
    case HandOpen(st) => [st]
    case HandWait(st) => [st]
    case HandWrite(st) => [st]
    case ReadRight(s1) => [s1]
    case WriteLeft(s1, s2) => [s1, s2]
    case WriteRight(_, s2) => [s2]
    case RelayUp(_, st) => [st]
    case RelayDown(_, st) => [st]
    case _ => []
  }

  predicate Has(s: State, x: Place) {
    match x
    case Held(p, i) => 0 <= p < |s.loc| && 0 <= i < |InHand(s.loc[p])|
    case InPipe(ch, i) => ch != Up(0) && 0 <= i < |s.Chan(ch)|
  }

  function Token(s: State, x: Place): Status
    requires Has(s, x)
  {
    match x
    case Held(p, i) => InHand(s.loc[p])[i]
    case InPipe(ch, i) => s.Chan(ch)[i]
  }

  ghost predicate Unique(s: State) {
    forall x, y | Has(s, x) && Has(s, y) && x != y :: Token(s, x).id != Token(s, y).id
  }

  predicate Handing(l: Local) {
    l.HandOpen? || l.HandWait? || l.HandWrite?
  }

  // A token that lost battle `b` and was not passed on to an agent yet, in hand or in a pipe.
  predicate DownInHand(l: Local, m: Status, b: int) {
    m.cur == b && ((m.flag == 1 && m.hp <= 0) || Handing(l))
  }

  predicate DownInPipe(ch: Chan, m: Status, b: int) {
    m.cur == b && ((m.flag == 1 && m.hp <= 0) || ch.Fifo?)
  }

  predicate Fallen(s: State, x: Place, b: int) {
    Has(s, x) &&
    match x
    case Held(p, i) => DownInHand(s.loc[p], Token(s, x), b)
    case InPipe(ch, i) => DownInPipe(ch, Token(s, x), b)
  }

  predicate Undecided(l: Local) {
    l.ReadLeft? || l.ReadRight? || ((l.WriteLeft? || l.WriteRight?) && l.s1.flag != 1)
  }

  ghost predicate SingleLoser(t: Tree, s: State)
    requires Typed(t, s)
  {
    && (forall b, x, y | Fallen(s, x, b) && Fallen(s, y, b) :: x == y)
    && (forall b, x | t.Node(b) && Undecided(s.loc[b]) :: !Fallen(s, x, b))
  }

  ghost predicate Invariant(t: Tree, s: State) {
    && t.WellFormed() && Typed(t, s) && Healthy(t, s) && Links(t, s)
    && Unique(s) && SingleLoser(t, s)
  }

  // The place from which a step of `p` brought the token that is now at `x`.
  function Origin(t: Tree, s: State, p: int, x: Place): Place
    requires Typed(t, s) && Enabled(t, s, p)
  {
    var l := s.loc[p];
    match OpOf(t, p, l)
    case Send(ch, _, _) =>
      if x == InPipe(ch, |s.Chan(ch)|) then Held(p, 0)
      else if x.Held? && x.node == p then Held(p, x.index + 1)
      else x
    case Recv(ch) =>
      if x == Held(p, |InHand(l)|) then InPipe(ch, 0)
      else if x.InPipe? && x.ch == ch then InPipe(ch, x.index + 1)
      else x
    case _ => x
  }

  // How one operation changes what its process has in hand: a write gives the first token
  // away, a read adds the message at the end, nothing else adds a token.
  predicate Moves(op: Op, h: seq<Status>, h': seq<Status>, m: Status) {
    match op
    case Send(ch, msg, _) => ch != Up(0) ==> h != [] && h[0] == msg && h' == h[1..]
    case Recv(ch) =>
      && ch != Up(0) && |h'| <= |h| + 1
      && (forall i | 0 <= i < |h'| && i < |h| :: h'[i].id == h[i].id)
      && (|h'| > |h| ==> h'[|h|].id == m.id)
    case Signal(_, _) => h' == h
    case Take(_, _) => h' == h
    case Halt => true
  }

  // ... and of the tokens that are down: none appears except where a battle is decided.
  predicate FallsAt(p: int, l: Local, l': Local, op: Op, m: Status, b: int, i: nat) {
    var h, h' := InHand(l), InHand(l');
    match op
    case Send(ch, msg, _) =>
      && (DownInPipe(ch, msg, b) && ch != Up(0) ==> h != [] && DownInHand(l, h[0], b))
      && (i < |h'| && i + 1 < |h| && DownInHand(l', h'[i], b) ==> DownInHand(l, h[i + 1], b))
    case Recv(ch) =>
      i < |h'| && !(l.ReadRight? && b == p) && DownInHand(l', h'[i], b) ==>
        if i < |h| then DownInHand(l, h[i], b) else DownInPipe(ch, m, b)
    case _ => i < |h'| && i < |h| && DownInHand(l', h'[i], b) ==> DownInHand(l, h[i], b)
  }

  lemma HandAfter(t: Tree, p: int, l: Local, m: Status, l': Local)
    requires t.Sized() && t.Node(p) && LocalOk(t, p, l) && t.Upward(p) && t.Shape(p)
    requires l.ReadRight? ==> Fit(m)
    requires var op := OpOf(t, p, l); if op.Recv? then l' == OnRecv(t, p, l, m) else !op.Halt? && l' == op.next
    ensures Moves(OpOf(t, p, l), InHand(l), InHand(l'), m)
  {
    if OpOf(t, p, l).Recv? { HandRead(t, p, l, m); }
  }

  lemma HandRead(t: Tree, p: int, l: Local, m: Status)
    requires t.Sized() && t.Node(p) && LocalOk(t, p, l) && t.Upward(p) && t.Shape(p)
    requires OpOf(t, p, l).Recv? && (l.ReadRight? ==> Fit(m))
    ensures Moves(OpOf(t, p, l), InHand(l), InHand(OnRecv(t, p, l, m)), m)
  {
    if l.ReadRight? { RoundFacts(t.attr[p], p, l.s1, m); }
  }

  // No battle goes back to playing.
  lemma UndecidedAfter(t: Tree, p: int, l: Local, m: Status, l': Local)
    requires t.Sized() && t.Node(p) && LocalOk(t, p, l) && (l.ReadRight? ==> Fit(m))
    requires var op := OpOf(t, p, l); if op.Recv? then l' == OnRecv(t, p, l, m) else !op.Halt? && l' == op.next
    ensures Undecided(l') ==> Undecided(l)
  {
    if l.ReadRight? { RoundFacts(t.attr[p], p, l.s1, m); }
  }

  lemma DownAfter(t: Tree, p: int, l: Local, m: Status, l': Local, b: int, i: nat)
    requires t.Sized() && t.Node(p) && LocalOk(t, p, l) && t.Upward(p) && t.Shape(p)
    requires l.ReadRight? ==> Fit(m)
    requires var op := OpOf(t, p, l); if op.Recv? then l' == OnRecv(t, p, l, m) else !op.Halt? && l' == op.next
    ensures FallsAt(p, l, l', OpOf(t, p, l), m, b, i)
  {
    if OpOf(t, p, l).Recv? { DownRead(t, p, l, m, b, i); }
  }

  lemma DownRead(t: Tree, p: int, l: Local, m: Status, b: int, i: nat)
    requires t.Sized() && t.Node(p) && LocalOk(t, p, l) && t.Upward(p) && t.Shape(p)
    requires OpOf(t, p, l).Recv? && (l.ReadRight? ==> Fit(m))
    ensures FallsAt(p, l, OnRecv(t, p, l, m), OpOf(t, p, l), m, b, i)
  {
    if l.ReadRight? { RoundFacts(t.attr[p], p, l.s1, m); }
  }

  lemma OriginHas(t: Tree, s: State, p: int, x: Place, m: Status)
    requires Typed(t, s) && Enabled(t, s, p) && Has(Step(t, s, p), x)
    requires var op := OpOf(t, p, s.loc[p]);
             && Moves(op, InHand(s.loc[p]), InHand(NextLocal(t, s, p)), m)
             && (op.Recv? ==> m == s.Chan(op.ch)[0])
    ensures Has(s, Origin(t, s, p, x))
    ensures Token(Step(t, s, p), x).id == Token(s, Origin(t, s, p, x)).id
  {}

  lemma OriginFallen(t: Tree, s: State, p: int, x: Place, m: Status, b: int)
    requires Typed(t, s) && Enabled(t, s, p) && Fallen(Step(t, s, p), x, b)
    requires var op := OpOf(t, p, s.loc[p]);
             && Moves(op, InHand(s.loc[p]), InHand(NextLocal(t, s, p)), m)
             && (op.Recv? ==> m == s.Chan(op.ch)[0])
    requires FallsAt(p, s.loc[p], NextLocal(t, s, p), OpOf(t, p, s.loc[p]), m, b,
                     if x.Held? && x.index >= 0 then x.index else 0)
    requires !(s.loc[p].ReadRight? && b == p)
    ensures Fallen(s, Origin(t, s, p, x), b)
  {}

  lemma OriginInjective(t: Tree, s: State, p: int, x: Place, y: Place)
    requires Typed(t, s) && Enabled(t, s, p) && Has(Step(t, s, p), x) && Has(Step(t, s, p), y)
    requires Origin(t, s, p, x) == Origin(t, s, p, y)
    ensures x == y
  {}

  function Incoming(t: Tree, s: State, p: int): Status
    requires Typed(t, s) && Enabled(t, s, p)
  {
    var op := OpOf(t, p, s.loc[p]);
    if op.Recv? then s.Chan(op.ch)[0] else Status(0, 0, 0, FIRE, 0, 0)
  }

  lemma StepMoves(t: Tree, s: State, p: int)
    requires t.WellFormed() && Typed(t, s) && Healthy(t, s) && Enabled(t, s, p)
    ensures Moves(OpOf(t, p, s.loc[p]), InHand(s.loc[p]), InHand(NextLocal(t, s, p)), Incoming(t, s, p))
    ensures Undecided(NextLocal(t, s, p)) ==> Undecided(s.loc[p])
  {
    var l := s.loc[p];
    var op := OpOf(t, p, l);
    assert LocalOk(t, p, l) && t.Upward(p) && t.Shape(p);
    if op.Recv? { assert MessageOk(t, op.ch, s.Chan(op.ch)[0]); }
    HandAfter(t, p, l, Incoming(t, s, p), NextLocal(t, s, p));
    UndecidedAfter(t, p, l, Incoming(t, s, p), NextLocal(t, s, p));
  }

  // A token that is down after a step was down before it, unless the step decided its battle.
  lemma FallenBefore(t: Tree, s: State, p: int, x: Place, b: int)
    requires t.WellFormed() && Typed(t, s) && Healthy(t, s) && Enabled(t, s, p) && Fallen(Step(t, s, p), x, b)
    requires !(s.loc[p].ReadRight? && b == p)
    ensures Fallen(s, Origin(t, s, p, x), b)
  {
    var l, m := s.loc[p], Incoming(t, s, p);
    var op := OpOf(t, p, l);
    assert LocalOk(t, p, l) && t.Upward(p) && t.Shape(p);
    if op.Recv? { assert MessageOk(t, op.ch, s.Chan(op.ch)[0]); }
    StepMoves(t, s, p);
    var i := if x.Held? && x.index >= 0 then x.index else 0;
    DownAfter(t, p, l, m, NextLocal(t, s, p), b, i);
    OriginFallen(t, s, p, x, m, b);
  }

  lemma UniqueStep(t: Tree, s: State, p: int)
    requires t.WellFormed() && Typed(t, s) && Healthy(t, s) && Enabled(t, s, p) && Unique(s)
    ensures Unique(Step(t, s, p))
  {
    StepMoves(t, s, p);
    var u, m := Step(t, s, p), Incoming(t, s, p);
    forall x, y | Has(u, x) && Has(u, y) && x != y ensures Token(u, x).id != Token(u, y).id {
      OriginHas(t, s, p, x, m);
      OriginHas(t, s, p, y, m);
      if Origin(t, s, p, x) == Origin(t, s, p, y) { OriginInjective(t, s, p, x, y); }
    }
  }

  // A battle that is decided by this step produces exactly one fallen token.
  lemma Decision(t: Tree, s: State, p: int, x: Place, y: Place)
    requires t.WellFormed() && Typed(t, s) && Healthy(t, s) && Enabled(t, s, p) && SingleLoser(t, s)
    requires s.loc[p].ReadRight? && Fallen(Step(t, s, p), x, p)
    ensures s.Chan(Up(t.right[p])) != [] && NextLocal(t, s, p).s1.flag == 1
    ensures Fallen(Step(t, s, p), y, p) ==> x == y
  {
    var l := s.loc[p];
    assert LocalOk(t, p, l) && Undecided(l);
    var m := s.Chan(Up(t.Child(p, Right)))[0];
    assert MessageOk(t, Up(t.Child(p, Right)), m) by { assert t.Shape(p); }
    RoundOk(t, p, l.s1, m);
    DecisionPlace(t, s, p, x);
    if Fallen(Step(t, s, p), y, p) { DecisionPlace(t, s, p, y); }
  }

  lemma DecisionPlace(t: Tree, s: State, p: int, x: Place)
    requires Typed(t, s) && Enabled(t, s, p) && s.loc[p].ReadRight? && Fallen(Step(t, s, p), x, p)
    requires forall z :: !Fallen(s, z, p)
    ensures x.Held? && x.node == p
  {
    if !(x.Held? && x.node == p) {
      assert Fallen(s, Origin(t, s, p, x), p);
    }
  }

  lemma SingleLoserStep(t: Tree, s: State, p: int)
    requires t.WellFormed() && Typed(t, s) && Healthy(t, s) && Enabled(t, s, p) && SingleLoser(t, s)
    ensures SingleLoser(t, Step(t, s, p))
  {
    StepMoves(t, s, p);
    var u := Step(t, s, p);
    forall b, x, y | Fallen(u, x, b) && Fallen(u, y, b) ensures x == y {
      if s.loc[p].ReadRight? && b == p {
        Decision(t, s, p, x, y);
      } else {
        FallenBefore(t, s, p, x, b);
        FallenBefore(t, s, p, y, b);
        OriginInjective(t, s, p, x, y);
      }
    }
    forall b, x | t.Node(b) && Undecided(u.loc[b]) ensures !Fallen(u, x, b) {
      if Fallen(u, x, b) {
        if s.loc[p].ReadRight? && b == p {
          Decision(t, s, p, x, x);
        } else {
          FallenBefore(t, s, p, x, b);
        }
      }
    }
  }

  lemma InvariantStep(t: Tree, s: State, p: int)
    requires Invariant(t, s) && Enabled(t, s, p)
    ensures Invariant(t, Step(t, s, p))
  {
    HealthyStep(t, s, p);
    LinksStep(t, s, p);
    UniqueStep(t, s, p);
    SingleLoserStep(t, s, p);
  }

  lemma InitLocals(t: Tree, p: int)
    requires t.WellFormed() && t.Node(p)
    ensures LocalOk(t, p, StartOf(t, p)) && Expect(StartOf(t, p)) == []
    ensures OwedTo(StartOf(t, p), Left) == [] && OwedTo(StartOf(t, p), Right) == []
    ensures InHand(StartOf(t, p)) == if t.kind[p] == Real then [t.entry[p]] else []
    ensures !Handing(StartOf(t, p)) && (t.kind[p] == Real ==> Fit(t.entry[p]))
  {
    assert t.Starts(p);
    if t.kind[p] == Real { assert From(t, t.entry[p], p); }
  }

  lemma InvariantInit(t: Tree)
    requires t.WellFormed()
    ensures Invariant(t, Init(t))
  {
    var s := Init(t);
    forall p | t.Node(p) ensures LocalOk(t, p, s.loc[p]) {
      InitLocals(t, p);
    }
    forall c | t.Node(c) && c != 0 && t.Node(t.parent[c]) ensures Link(t, s, c) {
      InitLocals(t, c);
      InitLocals(t, t.parent[c]);
    }
    InitPlaces(t);
  }

  lemma InitPlaces(t: Tree)
    requires t.WellFormed()
    ensures Unique(Init(t)) && SingleLoser(t, Init(t))
  {
    var s := Init(t);
    forall x | Has(s, x)
      ensures x.Held? && x.index == 0 && t.kind[x.node] == Real && Token(s, x) == t.entry[x.node]
      ensures forall b :: !Fallen(s, x, b)
    {
      InitLocals(t, x.node);
    }
    forall x, y | Has(s, x) && Has(s, y) && x != y ensures Token(s, x).id != Token(s, y).id {
      assert t.Starts(x.node) && t.Starts(y.node);
    }
  }

  lemma {:induction false} InvariantRuns(t: Tree, s: State, sch: seq<int>, u: State)
    requires Invariant(t, s) && Runs(t, s, sch, u)
    ensures Invariant(t, u)
    decreases |sch|
  {
    if sch != [] {
      InvariantStep(t, s, sch[0]);
      InvariantRuns(t, Step(t, s, sch[0]), sch[1..], u);
    }
  }
}
