/**
 The branches that the C code takes on its `Status` structs between two battles: a player's after
 a decided battle (hw2_pvp-championship/player.c:95-116 and 143-152), and a battle's after it
 waited for the loser (battle.c:107-116).
 */
module PlayerCode {
  import opened Combat
  import opened Bracket
  import opened Protocol

  // How a pass of the outer loop ends.
  datatype Turn = Play | GiveAway | Stop

  // The control state in which a player is left by a turn.
  function After(turn: Turn, st: Status, orig: int): Local {
    match turn
    case Play => Offering(st, orig)
    case GiveAway => HandOpen(st)
    case Stop => Exiting
  }

  // From the end of the inner loop to the next pass or the break; `realPlayer` tells the two copies of
  // the loop apart. Battle 'A' is node 0.
  method ComeBack(status: StatusCell, originHP: int, realPlayer: bool, ghost t: Tree, ghost p: int) returns (turn: Turn)
    requires t.Sized() && t.Node(p) && realPlayer == (t.kind[p] == Real) && status.flag == 1
    modifies status
    ensures After(turn, status.Value(), originHP) == PlayerHead(t, p, old(status.Value()), originHP)
  {
    if status.cur == 0 {
      return Stop;
    }
    if status.hp > 0 {
      status.hp := status.hp + Half(originHP - status.hp);
      status.flag := 0;
      return Play;
    }
    if realPlayer {
      status.hp := originHP;
      status.flag := 0;
      return GiveAway;
    }
    return Stop;
  }

  // The end of a battle's playing: which child won, and whether the winner's tokens are relayed.
  method AfterWait(b: int, stat1: StatusCell, stat2: StatusCell) returns (next: Local)
    ensures next == AfterLoser(b, stat1.Value(), stat2.Value())
    ensures stat1.hp <= 0 < stat2.hp && b != 0 ==> next == RelayRead(Right)
    ensures stat2.hp <= 0 < stat1.hp && b != 0 ==> next == RelayRead(Left)
    ensures stat1.hp <= 0 < stat2.hp && b == 0 ==> next == Announce(stat2.Value())
    ensures stat2.hp <= 0 < stat1.hp && b == 0 ==> next == Announce(stat1.Value())
  {
    var flag := stat1.hp <= 0;
    var wonBattle := if flag then Right else Left;
    var stat := if flag then stat2 else stat1;
    if b == 0 {
      return Announce(stat.Value());
    }
    if stat.hp > 0 {
      return RelayRead(wonBattle);
    }
    return WaitWinner;
  }
}
