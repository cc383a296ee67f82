/**
 The championship bracket (hw2_pvp-championship/graph.c) as a tree of nodes numbered in
 preorder: node 0 is the root battle, the left child of battle `c` is `c + 1`, and the subtree
 of `c` is the interval [c, end[c]). Everything proved about the protocol holds for every
 well-formed bracket; `Graph` is the one the repository plays.
 */
module Bracket {
  import opened Combat

  // A real player starts with its own token, an agent waits for the loser of a battle.
  datatype Kind = Real | Agent | Arena

  datatype Side = Left | Right

  function Other(w: Side): Side {
    if w == Left then Right else Left
  }

  datatype Tree = Tree(
    size: nat,
    kind: seq<Kind>,
    right: seq<int>,    // right child of a battle
    end: seq<int>,      // one past the last node of the subtree
    parent: seq<int>,   // -1 at the root
    attr: seq<Attribute>,
    slot: seq<int>,     // agent that takes over this battle's loser, or -1
    source: seq<int>,   // battle whose loser this agent takes over
    entry: seq<Status>  // initial token of a real player
  )
  {
    predicate Node(c: int) { 0 <= c < size }

    predicate Sized() {
      |kind| == |right| == |end| == |parent| == |attr| == |slot| == |source| == |entry| == size
    }

    predicate Shape(c: int)
      requires Sized() && Node(c)
    {
      if kind[c] == Arena then
        && c + 1 < right[c] < size && end[c + 1] == right[c] && end[right[c]] == end[c]
        && parent[c + 1] == c && parent[right[c]] == c
        && right[c] < end[c] <= size
      else end[c] == c + 1
    }

    predicate Upward(c: int)
      requires Sized() && Node(c)
    {
      if c == 0 then parent[0] == -1 && end[0] == size && kind[0] == Arena
      else 0 <= parent[c] < c && kind[parent[c]] == Arena
           && (c == parent[c] + 1 || c == right[parent[c]])
    }

    // The loser of battle `b` crosses to one agent to the right of b's subtree if b's players
    // are all real, and drops out if they are all agents.
    predicate Crossing(b: int)
      requires Sized() && Node(b)
    {
      if slot[b] >= 0 then
        && b != 0 && slot[b] < size && kind[slot[b]] == Agent && source[slot[b]] == b
        && end[b] <= slot[b]
        && (forall x | b <= x < end[b] && Node(x) :: kind[x] != Agent)
      else
        && slot[b] == -1
        && (b != 0 ==> forall x | b <= x < end[b] && Node(x) :: kind[x] != Real)
    }

    predicate Starts(x: int)
      requires Sized() && Node(x)
    {
      match kind[x]
      case Real => Fit(entry[x])
      case Agent => Node(source[x]) && kind[source[x]] == Arena && slot[source[x]] == x
      case Arena => true
    }

    ghost predicate WellFormed() {
      && Sized() && size > 0
      && (forall c {:trigger Shape(c)} | Node(c) :: Shape(c))
      && (forall c {:trigger Upward(c)} | Node(c) :: Upward(c))
      && (forall c {:trigger Starts(c)} | Node(c) :: Starts(c))
      && (forall b {:trigger Crossing(b)} | Node(b) && kind[b] == Arena :: Crossing(b))
      && (forall x, y {:trigger Starts(x), Starts(y)} |
            Node(x) && Node(y) && kind[x] == Real && kind[y] == Real && x != y :: entry[x].id != entry[y].id)
    }

    function Child(c: int, w: Side): int
      requires Sized() && Node(c)
    {
      if w == Left then c + 1 else right[c]
    }
  }

  // A token together with the hit points its present player process started with.
  datatype Contestant = Contestant(st: Status, orig: int)

  predicate Ready(x: Contestant) {
    Fit(x.st) && x.st.hp <= x.orig
  }

  // ---------- the championship, evaluated recursively ----------

  // The token node `c` presents to the battle above it.
  function Entrant(t: Tree, c: int): (x: Contestant)
    requires t.WellFormed() && t.Node(c)
    ensures Ready(x)
    decreases t.end[c], t.size - c, 1
  {
    match t.kind[c]
    case Real => assert t.Starts(c); Contestant(t.entry[c], t.entry[c].hp)
    case Agent =>
      assert t.Starts(c) && t.Shape(c) && t.Crossing(t.source[c]);
      var l := Outcome(t, t.source[c]).1; Contestant(Revive(l.orig, l.st), l.orig)
    case Arena =>
      var w := Outcome(t, c).0; Contestant(Heal(w.orig, w.st), w.orig)
  }

  // Winner and loser of battle `b` as they leave it.
  function Outcome(t: Tree, b: int): (r: (Contestant, Contestant))
    requires t.WellFormed() && t.Node(b) && t.kind[b] == Arena
    ensures r.0.st.flag == r.1.st.flag == 1 && r.0.st.cur == r.1.st.cur == b
    ensures 0 < r.0.st.hp <= r.0.orig && r.1.st.hp <= 0 < r.1.orig
    ensures r.0.st.atk >= 1 && r.1.st.atk >= 1
    decreases t.end[b], t.size - b, 0
  {
    assert t.Shape(b);
    var x, y := Entrant(t, t.Child(b, Left)), Entrant(t, t.Child(b, Right));
    FightFacts(t.attr[b], b, x.st, y.st);
    var r := Fight(t.attr[b], b, x.st, y.st);
    if r.0.hp <= 0 then (Contestant(r.1, y.orig), Contestant(r.0, x.orig))
    else (Contestant(r.0, x.orig), Contestant(r.1, y.orig))
  }

  // Winner and loser are the last state of a duel between the entrants of the two children.
  lemma OutcomePlayed(t: Tree, b: int) returns (rounds: seq<(Status, Status)>)
    requires t.WellFormed() && t.Node(b) && t.kind[b] == Arena
    ensures t.Node(t.Child(b, Left)) && t.Node(t.Child(b, Right)) && Duel(t.attr[b], b, rounds)
    ensures rounds[0] == (Entrant(t, t.Child(b, Left)).st, Entrant(t, t.Child(b, Right)).st)
    ensures var r, o := rounds[|rounds| - 1], Outcome(t, b);
            r == (if r.0.hp <= 0 then (o.1.st, o.0.st) else (o.0.st, o.1.st))
  {
    assert t.Shape(b);
    var x, y := Entrant(t, t.Child(b, Left)), Entrant(t, t.Child(b, Right));
    rounds := FightDuel(t.attr[b], b, x.st, y.st);
  }

  // The real id the root battle announces.
  function Champion(t: Tree): int
    requires t.WellFormed()
  {
    assert t.Upward(0);
    Outcome(t, 0).0.st.id
  }
}
