/**
 The concrete bracket of hw2_pvp-championship/graph.c: the table that `init` fills in, and the
 proof that its preorder encoding is a well-formed bracket for any eight fit players.
 */
module Graph {
  import opened Combat
  import opened Bracket

  datatype Row = Row(leftPlayer: bool, rightPlayer: bool, left: string, right: string, parent: string,
                     attr: Attribute, loser: int, loserParent: char)

  function Lookup(n: char): Row {
    match n
    case 'A' => Row(false, false, "B", "C", " ", FIRE, -1, ' ')
    case 'B' => Row(false, false, "D", "E", "A", GRASS, 14, 'C')
    case 'C' => Row(false, true, "F", "14", "A", WATER, -1, ' ')
    case 'D' => Row(false, false, "G", "H", "B", WATER, 10, 'K')
    case 'E' => Row(false, false, "I", "J", "B", FIRE, 13, 'L')
    case 'F' => Row(false, false, "K", "L", "C", FIRE, -1, ' ')
    case 'G' => Row(true, true, "0", "1", "D", FIRE, 8, 'M')
    case 'H' => Row(true, true, "2", "3", "D", GRASS, 11, 'N')
    case 'I' => Row(true, true, "4", "5", "E", WATER, 9, 'M')
    case 'J' => Row(true, true, "6", "7", "E", GRASS, 12, 'N')
    case 'K' => Row(false, true, "M", "10", "F", GRASS, -1, ' ')
    case 'L' => Row(false, true, "N", "13", "F", GRASS, -1, ' ')
    case 'M' => Row(true, true, "8", "9", "K", FIRE, -1, ' ')
    case _ => Row(true, true, "11", "12", "L", WATER, -1, ' ')
  }

  // Names of the nodes in preorder; the players appear in the order of their numbers.
  function NameOf(c: int): string {
    match c
    case 1 => "B" case 2 => "D" case 3 => "G" case 4 => "0" case 5 => "1" case 6 => "H" case 7 => "2"
    case 8 => "3" case 9 => "E" case 10 => "I" case 11 => "4" case 12 => "5" case 13 => "J" case 14 => "6"
    case 15 => "7" case 16 => "C" case 17 => "F" case 18 => "K" case 19 => "M" case 20 => "8" case 21 => "9"
    case 22 => "10" case 23 => "L" case 24 => "N" case 25 => "11" case 26 => "12" case 27 => "13"
    case 28 => "14"
    case _ => "A"
  }

  function KindOf(c: int): Kind {
    match c
    case 4 => Real case 5 => Real case 7 => Real case 8 => Real case 11 => Real case 12 => Real case 14 => Real
    case 15 => Real case 20 => Agent case 21 => Agent case 22 => Agent case 25 => Agent case 26 => Agent
    case 27 => Agent case 28 => Agent
    case _ => Arena
  }

  function RightOf(c: int): int {
    match c
    case 0 => 16 case 1 => 9 case 2 => 6 case 3 => 5 case 6 => 8 case 9 => 13 case 10 => 12 case 13 => 15
    case 16 => 28 case 17 => 23 case 18 => 22 case 19 => 21 case 23 => 27 case 24 => 26
    case _ => 0
  }

  function EndOf(c: int): int {
    match c
    case 0 => 29 case 2 => 9 case 3 => 6 case 4 => 5 case 5 => 6 case 6 => 9 case 7 => 8 case 8 => 9
    case 10 => 13 case 11 => 12 case 12 => 13 case 14 => 15 case 16 => 29 case 17 => 28 case 18 => 23
    case 19 => 22 case 20 => 21 case 21 => 22 case 22 => 23 case 23 => 28 case 24 => 27 case 25 => 26
    case 26 => 27 case 27 => 28 case 28 => 29
    case _ => 16
  }

  function ParentOf(c: int): int {
    match c
    case 0 => -1 case 2 => 1 case 3 => 2 case 4 => 3 case 5 => 3 case 6 => 2 case 7 => 6 case 8 => 6 case 9 => 1
    case 10 => 9 case 11 => 10 case 12 => 10 case 13 => 9 case 14 => 13 case 15 => 13 case 17 => 16
    case 18 => 17 case 19 => 18 case 20 => 19 case 21 => 19 case 22 => 18 case 23 => 17 case 24 => 23
    case 25 => 24 case 26 => 24 case 27 => 23 case 28 => 16
    case _ => 0
  }

  function AttrOf(c: int): Attribute {
    match c
    case 1 => GRASS case 2 => WATER case 6 => GRASS case 10 => WATER case 13 => GRASS case 16 => WATER
    case 18 => GRASS case 23 => GRASS case 24 => WATER
    case _ => FIRE
  }

  // Node of the agent that takes over a battle's loser, and the battle an agent waits for.
  function SlotAt(c: int): int {
    match c
    case 1 => 28 case 2 => 22 case 3 => 20 case 6 => 25 case 9 => 27 case 10 => 21 case 13 => 26
    case _ => -1
  }

  function SourceOf(c: int): int {
    match c
    case 20 => 3 case 21 => 10 case 22 => 2 case 25 => 6 case 26 => 13 case 27 => 9 case 28 => 1
    case _ => 0
  }

  function EntryAt(pssm: seq<Status>, c: int): Status
    requires |pssm| == 8
  {
    match c
    case 4 => pssm[0] case 5 => pssm[1] case 7 => pssm[2] case 8 => pssm[3]
    case 11 => pssm[4] case 12 => pssm[5] case 14 => pssm[6] case _ => pssm[7]
  }

  // The bracket of graph.c with the eight tokens of player_status.txt.
  function Game(pssm: seq<Status>): Tree
    requires |pssm| == 8
  {
    Tree(29, seq(29, c => KindOf(c)), seq(29, c => RightOf(c)), seq(29, c => EndOf(c)), seq(29, c => ParentOf(c)),
         seq(29, c => AttrOf(c)), seq(29, c => SlotAt(c)), seq(29, c => SourceOf(c)), seq(29, c => EntryAt(pssm, c)))
  }

  lemma GameWellFormed(pssm: seq<Status>)
    requires |pssm| == 8 && forall p | 0 <= p < 8 :: Fit(pssm[p]) && pssm[p].id == p
    ensures Game(pssm).WellFormed()
  {
    var t := Game(pssm);
    assert t.Sized();
    forall c | t.Node(c) ensures t.Shape(c) && t.Upward(c) && t.Starts(c) {
      GameShape(pssm, c);
      GameUpward(pssm, c);
      GameStarts(pssm, c);
    }
    forall b | t.Node(b) && t.kind[b] == Arena ensures t.Crossing(b) {
      GameCrossing(pssm, b);
    }
  }

  lemma GameShape(pssm: seq<Status>, c: int)
    requires |pssm| == 8 && 0 <= c < 29
    ensures Game(pssm).Shape(c)
  {}

  lemma GameUpward(pssm: seq<Status>, c: int)
    requires |pssm| == 8 && 0 <= c < 29
    ensures Game(pssm).Upward(c)
  {}

  lemma GameStarts(pssm: seq<Status>, c: int)
    requires |pssm| == 8 && 0 <= c < 29 && forall p | 0 <= p < 8 :: Fit(pssm[p])
    ensures Game(pssm).Starts(c)
  {}

  lemma GameCrossing(pssm: seq<Status>, b: int)
    requires |pssm| == 8 && 0 <= b < 29 && KindOf(b) == Arena
    ensures Game(pssm).Crossing(b)
  {}

  // The numbering says what the table says: children, parent, attribute, who takes over the
  // loser, and in which battle that agent starts.
  lemma GameIsGraph(c: int)
    requires 0 <= c < 29 && KindOf(c) == Arena
    ensures |NameOf(c)| == 1
    ensures var row := Lookup(NameOf(c)[0]);
            && NameOf(c + 1) == row.left && NameOf(RightOf(c)) == row.right
            && (KindOf(c + 1) != Arena <==> row.leftPlayer) && (KindOf(RightOf(c)) != Arena <==> row.rightPlayer)
            && (if c == 0 then row.parent == " " else NameOf(ParentOf(c)) == row.parent)
            && AttrOf(c) == row.attr
            && (SlotAt(c) < 0 <==> row.loser == -1)
            && (SlotAt(c) >= 0 ==> SlotAt(c) == AgentAt(row.loser) && NameOf(ParentOf(SlotAt(c))) == [row.loserParent])
  {}

  // Node of agent `k`.
  function AgentAt(k: int): int {
    match k
    case 8 => 20 case 9 => 21 case 10 => 22 case 11 => 25 case 12 => 26 case 13 => 27 case _ => 28
  }

  // ---------- graph.c over the global array ----------

  method SetBattle(graph: array<Row>, n: int, leftP: bool, rightP: bool, left: string, right: string,
      parent: string, attr: Attribute, loser: int, loserParent: char)
    requires graph.Length == 80 && 0 <= n < 80
    modifies graph
    ensures graph[..] == old(graph[..])[n := Row(leftP, rightP, left, right, parent, attr, loser, loserParent)]
  {
    graph[n] := Row(leftP, rightP, left, right, parent, attr, loser, loserParent);
  }

  // The letters A to N are the codes 65 to 78.
  method InitGraph(graph: array<Row>)
    requires graph.Length == 80
    modifies graph
    ensures graph[65] == Lookup('A') && graph[66] == Lookup('B') && graph[67] == Lookup('C') && graph[68] == Lookup('D')
    ensures graph[69] == Lookup('E') && graph[70] == Lookup('F') && graph[71] == Lookup('G') && graph[72] == Lookup('H')
    ensures graph[73] == Lookup('I') && graph[74] == Lookup('J') && graph[75] == Lookup('K') && graph[76] == Lookup('L')
    ensures graph[77] == Lookup('M') && graph[78] == Lookup('N')
  {
    SetBattle(graph, 65, false, false, "B", "C", " ", FIRE, -1, ' ');
    SetBattle(graph, 66, false, false, "D", "E", "A", GRASS, 14, 'C');
    SetBattle(graph, 67, false, true, "F", "14", "A", WATER, -1, ' ');
    SetBattle(graph, 68, false, false, "G", "H", "B", WATER, 10, 'K');
    SetBattle(graph, 69, false, false, "I", "J", "B", FIRE, 13, 'L');
    SetBattle(graph, 70, false, false, "K", "L", "C", FIRE, -1, ' ');
    SetBattle(graph, 71, true, true, "0", "1", "D", FIRE, 8, 'M');
    SetBattle(graph, 72, true, true, "2", "3", "D", GRASS, 11, 'N');
    SetBattle(graph, 73, true, true, "4", "5", "E", WATER, 9, 'M');
    SetBattle(graph, 74, true, true, "6", "7", "E", GRASS, 12, 'N');
    SetBattle(graph, 75, false, true, "M", "10", "F", GRASS, -1, ' ');
    SetBattle(graph, 76, false, true, "N", "13", "F", GRASS, -1, ' ');
    SetBattle(graph, 77, true, true, "8", "9", "K", FIRE, -1, ' ');
    SetBattle(graph, 78, true, true, "11", "12", "L", WATER, -1, ' ');
  }
}
