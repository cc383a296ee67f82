/**
 The main results about the championship: every interleaving of the processes ends, ends the
 same way, and announces the champion of the recursive evaluation of the bracket.
 */
module Championship {
  import opened Combat
  import opened Bracket
  import opened Protocol
  import opened Tokens
  import opened Places
  import opened Confluence
  import opened Canonical
  import opened Rounds

  // ---------- one complete run ----------

  // Battles decided before the subtree of `c` is played, and inside it up to `e`.
  predicate Done(t: Tree, b: int, c: int, e: int)
    requires t.Sized() && t.Node(b)
  {
    t.end[b] <= c || (c <= b && t.end[b] <= e)
  }

  // Where process `y` stands then: agents whose battle is decided hold their token.
  function Expected(t: Tree, c: int, e: int, y: int): Local
    requires t.WellFormed() && t.Node(y)
  {
    assert t.Starts(y);
    if t.kind[y] == Agent && Done(t, t.source[y], c, e) then Offering(Entrant(t, y).st, Entrant(t, y).orig)
    else StartOf(t, y)
  }

  ghost predicate Tail(t: Tree, a: seq<Local>, c: int, e: int)
    requires t.WellFormed() && |a| == t.size
  {
    forall y | t.Node(y) && e <= y :: a[y] == Expected(t, c, e, y)
  }

  lemma Apart(t: Tree, b: int, p: int)
    requires t.WellFormed() && t.Node(b) && t.Node(p) && t.kind[b] == Arena && b < p
    ensures t.end[b] <= p || t.end[p] <= t.end[b]
  {
    if p < t.end[b] { Nested(t, b, p); }
  }

  // Moving on from a battle to its left child, from there to the right child, and back up.
  lemma TailLeft(t: Tree, a: seq<Local>, c: int)
    requires t.WellFormed() && |a| == t.size && t.Node(c) && t.kind[c] == Arena && Tail(t, a, c, c)
    ensures Tail(t, a, c + 1, c + 1)
  {
    Family(t, c, Left);
    forall y | t.Node(y) && c + 1 <= y ensures a[y] == Expected(t, c + 1, c + 1, y) {
      assert t.Starts(y);
      if t.kind[y] == Agent {
        var b := t.source[y];
        assert t.Shape(b);
        if b < c { Apart(t, b, c); }
      }
    }
  }

  lemma TailRight(t: Tree, a: seq<Local>, c: int)
    requires t.WellFormed() && |a| == t.size && t.Node(c) && t.kind[c] == Arena
    requires t.Node(c + 1) && Tail(t, a, c + 1, t.end[c + 1])
    ensures Tail(t, a, t.right[c], t.right[c])
  {
    Family(t, c, Left);
    assert t.Shape(c);
    var r := t.right[c];
    forall y | t.Node(y) && r <= y ensures a[y] == Expected(t, r, r, y) {
      assert t.Starts(y);
      if t.kind[y] == Agent {
        var b := t.source[y];
        assert t.Shape(b);
        if b < c { Apart(t, b, c); }
      }
    }
  }

  // The agent for battle `c`'s loser has its token.
  ghost predicate SlotFilled(t: Tree, a: seq<Local>, c: int)
    requires t.WellFormed() && |a| == t.size && t.Node(c)
  {
    var k := t.slot[c];
    t.Node(k) ==> t.kind[k] == Agent && a[k] == Offering(Entrant(t, k).st, Entrant(t, k).orig)
  }

  lemma TailUp(t: Tree, a: seq<Local>, u: seq<Local>, c: int)
    requires t.WellFormed() && |a| == |u| == t.size && t.Node(c) && t.kind[c] == Arena
    requires Tail(t, a, t.right[c], t.end[c]) && Only(t, a, u, c, t.end[c], t.slot[c])
    requires SlotFilled(t, u, c)
    ensures Tail(t, u, c, t.end[c])
  {
    Family(t, c, Left);
    assert t.Shape(c) && t.Crossing(c);
    var r, e := t.right[c], t.end[c];
    forall y | t.Node(y) && e <= y ensures u[y] == Expected(t, c, e, y) {
      assert t.Starts(y);
      assert a[y] == Expected(t, r, e, y);
      if t.kind[y] == Agent {
        var b := t.source[y];
        assert t.Shape(b);
        if b < c { Apart(t, b, c); }
        if c + 1 < b < r {
          assert t.Shape(c + 1);
          Apart(t, c + 1, b);
        }
      }
    }
  }

  // A battle whose two children present their entrants is played and presents its own.
  lemma PlayBattle(t: Tree, s: State, c: int) returns (u: State)
    requires t.WellFormed() && Typed(t, s) && t.Node(c) && t.kind[c] == Arena && c != 0
    requires t.Node(c + 1) && t.Node(t.right[c]) && Set(t, s, c, Entrant(t, c + 1), Entrant(t, t.right[c]))
    requires SlotFree(t, s.loc, c)
    ensures Reach(t, s, u) && Silent(u.chans) && SameSems(s.sems, u.sems)
    ensures Offer(t, u.loc, c, Entrant(t, c)) && Only(t, s.loc, u.loc, c, t.end[c], t.slot[c])
    ensures SlotFilled(t, u.loc, c)
  {
    var x, y := Entrant(t, c + 1), Entrant(t, t.right[c]);
    assert t.Crossing(c) && t.Shape(c);
    FightFacts(t.attr[c], c, x.st, y.st);
    var r := Fight(t.attr[c], c, x.st, y.st);
    var s1, x', y' := Rounds.Rounds(t, s, c, x, y);
    assert t.slot[c] >= 0 ==> s1.loc[t.slot[c]] == s.loc[t.slot[c]];
    u := Decide(t, s1, c, x', y', r);
    ReachTrans(t, s, s1, u);
  }

  // The subtree of `c` is played out up to the entrant it presents.
  lemma {:induction false} PlaySubtree(t: Tree, s: State, c: int) returns (u: State)
    requires t.WellFormed() && Typed(t, s) && t.Node(c) && c != 0 && Silent(s.chans) && Tail(t, s.loc, c, c)
    ensures Reach(t, s, u) && Silent(u.chans)
    ensures Offer(t, u.loc, c, Entrant(t, c)) && Tail(t, u.loc, c, t.end[c])
    ensures forall y | t.Node(y) && y < c :: u.loc[y] == s.loc[y]
    decreases t.size - c
  {
    assert t.Shape(c) && t.Starts(c);
    if t.kind[c] == Arena {
      var s2 := PlayChildren(t, s, c);
      assert SlotFree(t, s2.loc, c) by { assert t.Crossing(c); }
      u := PlayBattle(t, s2, c);
      ReachTrans(t, s, s2, u);
      TailUp(t, s2.loc, u.loc, c);
      assert t.Crossing(c);
    } else {
      ReachSelf(t, s);
      u := s;
      assert s.loc[c] == Expected(t, c, c, c);
      if t.kind[c] == Agent { assert t.Crossing(t.source[c]); }
      LeafTail(t, s.loc, c);
    }
  }

  lemma LeafTail(t: Tree, a: seq<Local>, c: int)
    requires t.WellFormed() && |a| == t.size && t.Node(c) && t.kind[c] != Arena && Tail(t, a, c, c)
    ensures Tail(t, a, c, c + 1)
  {
    forall y | t.Node(y) && c + 1 <= y ensures a[y] == Expected(t, c, c + 1, y) {
      assert t.Starts(y) && t.Shape(c);
      if t.kind[y] == Agent { assert t.Shape(t.source[y]); }
    }
  }

  lemma {:induction false} PlayChildren(t: Tree, s: State, c: int) returns (u: State)
    requires t.WellFormed() && Typed(t, s) && t.Node(c) && t.kind[c] == Arena && Silent(s.chans) && Tail(t, s.loc, c, c)
    ensures Reach(t, s, u) && t.Node(c + 1) && t.Node(t.right[c])
    ensures Set(t, u, c, Entrant(t, c + 1), Entrant(t, t.right[c])) && Tail(t, u.loc, t.right[c], t.end[c])
    ensures forall y | t.Node(y) && y < c :: u.loc[y] == s.loc[y]
    decreases t.size - c, 0
  {
    Family(t, c, Left);
    assert t.Shape(c);
    assert s.loc[c] == Expected(t, c, c, c) == ReadLeft;
    TailLeft(t, s.loc, c);
    var s1 := PlaySubtree(t, s, c + 1);
    TailRight(t, s1.loc, c);
    u := PlaySubtree(t, s1, t.right[c]);
    ReachTrans(t, s, s1, u);
    Framed(t, s1.loc, u.loc, c + 1, Entrant(t, c + 1));
  }

  ghost predicate Over(t: Tree, s: State)
    requires t.WellFormed()
  {
    && Typed(t, s) && (forall p | t.Node(p) :: s.loc[p] == Exited)
    && |s.Chan(Up(0))| == 1 && s.Chan(Up(0))[0].id == Champion(t)
    && forall ch | ch != Up(0) :: s.Chan(ch) == []
  }

  // From the start to the moment the root battle's combatants are ready.
  lemma RunToFinal(t: Tree) returns (s1: State)
    requires t.WellFormed()
    ensures Reach(t, Init(t), s1) && t.Node(1) && t.kind[0] == Arena && t.Node(t.right[0])
    ensures Set(t, s1, 0, Entrant(t, 1), Entrant(t, t.right[0]))
  {
    var s := Init(t);
    assert t.Upward(0) && t.Shape(0);
    forall y | t.Node(y) ensures s.loc[y] == Expected(t, 0, 0, y) {
      assert t.Starts(y);
      if t.kind[y] == Agent { assert t.Shape(t.source[y]); }
    }
    s1 := PlayChildren(t, s, 0);
  }

  lemma RunFinal(t: Tree, s: State) returns (f: State)
    requires t.WellFormed() && Typed(t, s) && t.kind[0] == Arena && t.Node(1) && t.Node(t.right[0])
    requires Set(t, s, 0, Entrant(t, 1), Entrant(t, t.right[0]))
    ensures Reach(t, s, f) && Over(t, f)
  {
    assert t.Shape(0);
    var x, y := Entrant(t, 1), Entrant(t, t.right[0]);
    FightFacts(t.attr[0], 0, x.st, y.st);
    var s2, x', y' := Rounds.Rounds(t, s, 0, x, y);
    f := Finish(t, s2, x', y', Fight(t.attr[0], 0, x.st, y.st));
    ReachTrans(t, s, s2, f);
    assert Queue(f.chans, Up(0)) == [Outcome(t, 0).0.st];
  }

  lemma CompleteRun(t: Tree) returns (sch: seq<int>, f: State)
    requires t.WellFormed()
    ensures Runs(t, Init(t), sch, f) && Over(t, f) && Stuck(t, f)
  {
    var s := RunToFinal(t);
    f := RunFinal(t, s);
    ReachTrans(t, Init(t), s, f);
    sch := ReachRuns(t, Init(t), f);
  }

  // ---------- all runs ----------

  // A run beside a complete one.
  lemma BesideComplete(t: Tree, s: State, done: seq<int>, f: State, run: seq<int>, u: State)
    requires Invariant(t, s) && Runs(t, s, done, f) && Typed(t, f) && Stuck(t, f) && Runs(t, s, run, u)
    ensures Typed(t, u) && |run| <= |done| && (Stuck(t, u) <==> |run| == |done|) && (Stuck(t, u) <==> u == f)
  {
    var rest := Confluent(t, s, done, f, run, u);
    StuckEnds(t, u, rest, f);
  }

  lemma StuckEnds(t: Tree, u: State, rest: seq<int>, f: State)
    requires Typed(t, u) && Typed(t, f) && Runs(t, u, rest, f) && Stuck(t, f)
    ensures Stuck(t, u) <==> rest == []
    ensures Stuck(t, u) <==> u == f
  {
    if rest != [] {
      assert Enabled(t, u, rest[0]);
    }
  }

  lemma OverStuck(t: Tree, u: State)
    requires t.WellFormed() && Over(t, u)
    ensures Stuck(t, u)
  {}

  // Determinism and deadlock freedom: whenever no process can step, all of them have exited
  // and the root announced the champion of the recursive evaluation.
  lemma ChampionDetermined(t: Tree, run: seq<int>, u: State)
    requires t.WellFormed() && Runs(t, Init(t), run, u)
    ensures Typed(t, u) && (Stuck(t, u) <==> Over(t, u))
  {
    var done, f := CompleteRun(t);
    InvariantInit(t);
    BesideComplete(t, Init(t), done, f, run, u);
    if Over(t, u) { OverStuck(t, u); }
  }

  // Termination: all runs that cannot go on have the same length and the same final state,
  // and no run is longer.
  lemma RunsBounded(t: Tree, done: seq<int>, f: State, run: seq<int>, u: State)
    requires t.WellFormed() && Runs(t, Init(t), done, f) && Typed(t, f) && Stuck(t, f)
    requires Runs(t, Init(t), run, u)
    ensures Typed(t, u) && |run| <= |done|
    ensures |run| == |done| <==> Stuck(t, u)
    ensures Stuck(t, u) ==> u == f
  {
    InvariantInit(t);
    BesideComplete(t, Init(t), done, f, run, u);
  }

  // Progress: every run can be completed.
  lemma RunsComplete(t: Tree, run: seq<int>, u: State) returns (rest: seq<int>, f: State)
    requires t.WellFormed() && Runs(t, Init(t), run, u)
    ensures Typed(t, u) && Runs(t, u, rest, f) && Over(t, f)
  {
    var sch;
    sch, f := CompleteRun(t);
    InvariantInit(t);
    rest := Confluent(t, Init(t), sch, f, run, u);
  }

  // ---------- what holds in the middle of any run ----------

  lemma RunInvariant(t: Tree, run: seq<int>, u: State)
    requires t.WellFormed() && Runs(t, Init(t), run, u)
    ensures Invariant(t, u)
  {
    InvariantInit(t);
    InvariantRuns(t, Init(t), run, u);
  }

  // No real player is in two places, so Compare orders the combatants of every battle; both
  // of them are alive, unhurt beyond their original hit points, and not judged yet.
  lemma CombatantsDistinct(t: Tree, run: seq<int>, u: State, b: int)
    requires t.WellFormed() && Runs(t, Init(t), run, u) && t.Node(b) && |u.loc| == t.size && u.loc[b].ReadRight?
    requires u.Chan(Up(t.right[b])) != []
    ensures var s1, s2 := u.loc[b].s1, u.Chan(Up(t.right[b]))[0];
            && s1.id != s2.id && Fit(s1) && Fit(s2) && Sane(t, s1) && Sane(t, s2)
            && (Compare(s1, s2) <==> !Compare(s2, s1))
  {
    RunInvariant(t, run, u);
    Combatants(t, u, b);
  }

  lemma Combatants(t: Tree, u: State, b: int)
    requires Invariant(t, u) && t.Node(b) && u.loc[b].ReadRight? && u.Chan(Up(t.right[b])) != []
    ensures var s1, s2 := u.loc[b].s1, u.Chan(Up(t.right[b]))[0];
            && s1.id != s2.id && Fit(s1) && Fit(s2) && Sane(t, s1) && Sane(t, s2)
            && (Compare(s1, s2) <==> !Compare(s2, s1))
  {
    assert LocalOk(t, b, u.loc[b]) && t.Shape(b);
    var ch := Up(t.right[b]);
    assert MessageOk(t, ch, u.Chan(ch)[0]);
    DistinctIds(u, Held(b, 0), InPipe(ch, 0));
  }

  lemma DistinctIds(u: State, x: Place, y: Place)
    requires Unique(u) && Has(u, x) && Has(u, y) && x != y
    ensures Token(u, x).id != Token(u, y).id
  {}

  // Whenever a battle has read both tokens, it writes back what one exchange makes of them.
  lemma RoundsExchanged(t: Tree, run: seq<int>, u: State, b: int)
    requires t.WellFormed() && Runs(t, Init(t), run, u) && t.Node(b) && |u.loc| == t.size && u.loc[b].ReadRight?
    requires u.Chan(Up(t.right[b])) != []
    ensures Enabled(t, u, b) && NextLocal(t, u, b).WriteLeft?
    ensures var z := NextLocal(t, u, b);
            Exchange(t.attr[b], b, (u.loc[b].s1, u.Chan(Up(t.right[b]))[0]), (z.s1, z.s2))
  {
    RunInvariant(t, run, u);
    Combatants(t, u, b);
    var s1, s2 := u.loc[b].s1, u.Chan(Up(t.right[b]))[0];
    RoundExchange(t.attr[b], b, s1, s2, Round(t.attr[b], b, s1, s2));
  }

  // Writes never block: a pipe pair holds one token at most, and so does each FIFO.
  lemma PipesNeverFill(t: Tree, run: seq<int>, u: State, c: int)
    requires t.WellFormed() && Runs(t, Init(t), run, u) && t.Node(c)
    ensures c != 0 ==> |u.Chan(Up(c))| + |u.Chan(Down(c))| <= 1
    ensures |u.Chan(Fifo(c))| <= 1
  {
    RunInvariant(t, run, u);
    if c != 0 { PipeHoldsOne(t, u, c); }
    FifoHoldsOne(t, u, c);
  }

  lemma PipeHoldsOne(t: Tree, u: State, c: int)
    requires t.WellFormed() && Typed(t, u) && Links(t, u) && t.Node(c) && c != 0
    ensures |u.Chan(Up(c))| + |u.Chan(Down(c))| <= 1
  {
    assert t.Upward(c) && Link(t, u, c);
  }

  lemma FifoHoldsOne(t: Tree, u: State, k: int)
    requires t.WellFormed() && Typed(t, u) && Healthy(t, u) && SingleLoser(t, u)
    ensures |u.Chan(Fifo(k))| <= 1
  {
    var ch := Fifo(k);
    if |u.Chan(ch)| > 1 {
      var m, n := u.Chan(ch)[0], u.Chan(ch)[1];
      assert MessageOk(t, ch, m) && MessageOk(t, ch, n);
      SlotSource(t, m);
      SlotSource(t, n);
      assert Fallen(u, InPipe(ch, 0), m.cur) && Fallen(u, InPipe(ch, 1), m.cur);
    }
  }

  lemma SlotSource(t: Tree, m: Status)
    requires t.WellFormed() && SlotOf(t, m) >= 0 && (t.Node(m.cur) ==> t.kind[m.cur] == Arena)
    ensures t.Node(SlotOf(t, m)) && t.source[SlotOf(t, m)] == m.cur
  {
    assert t.Crossing(m.cur);
  }

  // A player that waits gets its own token back, with no more hit points than it sent.
  lemma AnswersReturn(t: Tree, run: seq<int>, u: State, p: int)
    requires t.WellFormed() && Runs(t, Init(t), run, u) && t.Node(p) && |u.loc| == t.size && u.loc[p].AwaitReply?
    requires u.Chan(Down(p)) != []
    ensures Answers(u.Chan(Down(p))[0], u.loc[p].st)
    ensures u.loc[p].st.hp <= u.loc[p].orig
    ensures u.Chan(Down(p))[0].hp > 0 ==> 0 < Heal(u.loc[p].orig, u.Chan(Down(p))[0]).hp <= u.loc[p].orig
  {
    RunInvariant(t, run, u);
    assert LocalOk(t, p, u.loc[p]);
    AnswerComes(t, u, p);
  }

  // What becomes of a player that gets its answer `m`: it plays the next round of an undecided battle;
  // it stops after the final; after another victory it goes on with half of what it lost, rounded
  // down, given back; and after a defeat a real player hands its token over as it was at the
  // start, while an agent stops.
  lemma PlayerGoesOn(t: Tree, run: seq<int>, u: State, p: int)
    requires t.WellFormed() && Runs(t, Init(t), run, u) && t.Node(p) && |u.loc| == t.size && u.loc[p].AwaitReply?
    requires u.Chan(Down(p)) != []
    ensures Enabled(t, u, p)
    ensures var m, orig, z := u.Chan(Down(p))[0], u.loc[p].orig, NextLocal(t, u, p);
            && (m.flag != 1 ==> z == Offering(m, orig))
            && (m.flag == 1 && m.cur == 0 ==> z == Exiting)
            && (m.flag == 1 && m.cur != 0 && m.hp > 0 ==>
                 z.Offering? && z.orig == orig && z.st == m.(hp := z.st.hp, flag := 0)
                 && 2 * (z.st.hp - m.hp) <= orig - m.hp <= 2 * (z.st.hp - m.hp) + 1)
            && (m.flag == 1 && m.cur != 0 && m.hp <= 0 ==>
                 z == if t.kind[p] == Real then HandOpen(m.(hp := orig, flag := 0)) else Exiting)
  {
    AnswersReturn(t, run, u, p);
  }

  // A token in an agent's FIFO comes from the battle whose loser the agent takes over, fit again and with
  // all the hit points its real player started with.
  lemma HandedOverWhole(t: Tree, run: seq<int>, u: State, k: int, i: nat)
    requires t.WellFormed() && Runs(t, Init(t), run, u) && i < |u.Chan(Fifo(k))|
    ensures t.Node(k) && t.kind[k] == Agent
    ensures var m := u.Chan(Fifo(k))[i];
            && m.cur == t.source[k] && m.flag == 0
            && exists r :: t.Node(r) && t.kind[r] == Real && SamePlayer(m, t.entry[r]) && m.hp == t.entry[r].hp
  {
    RunInvariant(t, run, u);
    var m := u.Chan(Fifo(k))[i];
    assert MessageOk(t, Fifo(k), m);
    assert t.Crossing(m.cur);
    SlotSource(t, m);
    var r :| From(t, m, r) && m.hp == t.entry[r].hp;
  }

  // A battle that stopped playing has exactly one combatant down.
  lemma DecidedOnce(t: Tree, run: seq<int>, u: State, b: int)
    requires t.WellFormed() && Runs(t, Init(t), run, u) && t.Node(b) && |u.loc| == t.size && u.loc[b].WaitLoser?
    ensures var s1, s2 := u.loc[b].s1, u.loc[b].s2; (s1.hp <= 0) != (s2.hp <= 0)
  {
    RunInvariant(t, run, u);
    assert LocalOk(t, b, u.loc[b]);
  }
}
