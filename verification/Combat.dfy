/**
 One battle of the championship (hw2_pvp-championship/battle.c, player.c): the token a
 player sends around, one round of a battle, and a whole battle played to its end.

 Hit points and attack powers are unbounded integers.
 */
module Combat {

  datatype Attribute = FIRE | GRASS | WATER

  // `cur` is the battle the token was last judged in, `flag` is 1 once that battle is over.
  datatype Status = Status(id: int, hp: int, atk: int, attr: Attribute, cur: int, flag: int)

  // The order of attack: fewer hit points first, the smaller real id on a tie.
  predicate Compare(s: Status, t: Status) {
    s.hp < t.hp || (s.hp == t.hp && s.id < t.id)
  }

  function Power(arena: Attribute, s: Status): int {
    if arena == s.attr then s.atk * 2 else s.atk
  }

  function EndCheck(s: Status, t: Status): (Status, Status) {
    if s.hp <= 0 || t.hp <= 0 then (s.(flag := 1), t.(flag := 1)) else (s, t)
  }

  // One exchange in which `s` strikes first and `t` strikes back if nobody fell.
  function Strike(arena: Attribute, s: Status, t: Status): (Status, Status) {
    var t1 := t.(hp := t.hp - Power(arena, s));
    if s.hp <= 0 || t1.hp <= 0 then EndCheck(s, t1)
    else EndCheck(s.(hp := s.hp - Power(arena, t)), t1)
  }

  // One round of battle `b`: both tokens are stamped, then the weaker one strikes first.
  function Round(arena: Attribute, b: int, s: Status, t: Status): (Status, Status) {
    var s0, t0 := s.(cur := b), t.(cur := b);
    if Compare(s0, t0) then Strike(arena, s0, t0)
    else var r := Strike(arena, t0, s0); (r.1, r.0)
  }

  // A token that may enter a round: it is alive, can hurt, and its battle is not over.
  predicate Fit(s: Status) {
    s.hp > 0 && s.atk >= 1 && s.flag == 0
  }

  // A battle played to its end.
  function Fight(arena: Attribute, b: int, s: Status, t: Status): (Status, Status)
    requires Fit(s) && Fit(t)
    decreases s.hp + t.hp
  {
    RoundFacts(arena, b, s, t);
    var r := Round(arena, b, s, t);
    if r.0.flag == 1 then r else Fight(arena, b, r.0, r.1)
  }

  predicate SamePlayer(s: Status, t: Status) {
    s.id == t.id && s.atk == t.atk && s.attr == t.attr
  }

  // What a round does to two fit tokens: it moves both tokens on with their identities,
  // never raises hit points, and either leaves both fit or ends the battle with exactly one
  // of them down; in both cases somebody is hurt.
  lemma RoundFacts(arena: Attribute, b: int, s: Status, t: Status)
    requires Fit(s) && Fit(t)
    ensures var r := Round(arena, b, s, t);
            && SamePlayer(r.0, s) && SamePlayer(r.1, t)
            && r.0.cur == r.1.cur == b && r.0.flag == r.1.flag
            && r.0.hp <= s.hp && r.1.hp <= t.hp && r.0.hp + r.1.hp < s.hp + t.hp
            && ((Fit(r.0) && Fit(r.1))
                || (r.0.flag == 1 && ((r.0.hp <= 0) != (r.1.hp <= 0))))
  {}

  // ---------- what a round does, from outside ----------

  // `w` strikes first: `o` loses the power of `w`, doubled in an arena of its attribute, and strikes
  // back exactly if it still stands; the battle is over exactly if somebody fell.
  predicate Blows(arena: Attribute, b: int, w: Status, o: Status, w1: Status, o1: Status) {
    && o1.hp == o.hp - (if w.attr == arena then 2 * w.atk else w.atk)
    && w1.hp == w.hp - (if o1.hp <= 0 then 0 else if o.attr == arena then 2 * o.atk else o.atk)
    && SamePlayer(w1, w) && SamePlayer(o1, o) && w1.cur == o1.cur == b
    && w1.flag == o1.flag == if w1.hp <= 0 || o1.hp <= 0 then 1 else 0
  }

  // A round between the tokens of a left and of a right child: the one with fewer hit points, on a
  // tie the one with the smaller real id, strikes first.
  predicate Exchange(arena: Attribute, b: int, s: (Status, Status), r: (Status, Status)) {
    if s.0.hp < s.1.hp || (s.0.hp == s.1.hp && s.0.id < s.1.id) then Blows(arena, b, s.0, s.1, r.0, r.1)
    else Blows(arena, b, s.1, s.0, r.1, r.0)
  }

  // The weaker combatant `w` strikes first, whichever child it is: the other one loses exactly the
  // power of `w`, and `w` is unhurt if and only if that is enough.
  lemma WeakerFirst(arena: Attribute, b: int, w: Status, o: Status)
    requires Fit(w) && Fit(o) && (w.hp < o.hp || (w.hp == o.hp && w.id < o.id))
    ensures var a := if w.attr == arena then 2 * w.atk else w.atk;
            var c := if o.attr == arena then 2 * o.atk else o.atk;
            var r := Round(arena, b, w, o);
            && r.1.hp == o.hp - a && (r.0.hp == w.hp <==> a >= o.hp) && (a < o.hp ==> r.0.hp == w.hp - c)
            && Round(arena, b, o, w) == (r.1, r.0)
  {}

  // Of fit tokens, a round is an exchange and nothing else.
  lemma RoundExchange(arena: Attribute, b: int, s: Status, t: Status, r: (Status, Status))
    requires Fit(s) && Fit(t)
    ensures Exchange(arena, b, (s, t), r) <==> r == Round(arena, b, s, t)
  {
    StrikeExact(arena, b, s, t, r.0, r.1);
    StrikeExact(arena, b, t, s, r.1, r.0);
  }

  lemma StrikeExact(arena: Attribute, b: int, w: Status, o: Status, w1: Status, o1: Status)
    requires Fit(w) && Fit(o)
    ensures Blows(arena, b, w, o, w1, o1) <==> (w1, o1) == Strike(arena, w.(cur := b), o.(cur := b))
  {}

  // A battle as the list of what both tokens are before the first round and after each one.
  ghost predicate Duel(arena: Attribute, b: int, rounds: seq<(Status, Status)>) {
    && |rounds| > 0 && Fit(rounds[0].0) && Fit(rounds[0].1)
    && forall k | 0 <= k < |rounds| - 1 :: rounds[k].0.flag == 0 && Exchange(arena, b, rounds[k], rounds[k + 1])
  }

  lemma DuelMore(arena: Attribute, b: int, rounds: seq<(Status, Status)>, s: Status, t: Status, r: (Status, Status))
    requires Duel(arena, b, rounds) && rounds[|rounds| - 1] == (s, t) && Fit(s) && Fit(t) && r == Round(arena, b, s, t)
    ensures Duel(arena, b, rounds + [r])
  {
    RoundExchange(arena, b, s, t, r);
  }

  lemma DuelRest(arena: Attribute, b: int, rounds: seq<(Status, Status)>)
    requires Duel(arena, b, rounds) && |rounds| > 1 && rounds[1].0.flag == 0
    ensures Duel(arena, b, rounds[1..])
  {
    RoundExchange(arena, b, rounds[0].0, rounds[0].1, rounds[0 + 1]);
    RoundFacts(arena, b, rounds[0].0, rounds[0].1);
  }

  lemma DuelOver(arena: Attribute, b: int, rounds: seq<(Status, Status)>)
    requires Duel(arena, b, rounds) && |rounds| > 1 && rounds[1].0.flag == 1
    ensures |rounds| == 2
  {}

  // However it is played, a duel that has been decided ends as the recursive fight does.
  lemma {:induction false} DuelDecided(arena: Attribute, b: int, rounds: seq<(Status, Status)>)
    requires Duel(arena, b, rounds) && rounds[|rounds| - 1].0.flag == 1
    ensures rounds[|rounds| - 1] == Fight(arena, b, rounds[0].0, rounds[0].1)
    decreases |rounds|
  {
    var s, t := rounds[0].0, rounds[0].1;
    RoundExchange(arena, b, s, t, rounds[0 + 1]);
    if rounds[1].0.flag == 1 {
      DuelOver(arena, b, rounds);
    } else {
      RoundFacts(arena, b, s, t);
      DuelRest(arena, b, rounds);
      DuelDecided(arena, b, rounds[1..]);
    }
  }

  // The recursive fight is a duel, fought round by round to its decision.
  lemma {:induction false} FightDuel(arena: Attribute, b: int, s: Status, t: Status)
      returns (rounds: seq<(Status, Status)>)
    requires Fit(s) && Fit(t)
    ensures Duel(arena, b, rounds) && rounds[0] == (s, t) && rounds[|rounds| - 1] == Fight(arena, b, s, t)
    ensures rounds[|rounds| - 1].0.flag == 1
    decreases s.hp + t.hp
  {
    RoundFacts(arena, b, s, t);
    var r := Round(arena, b, s, t);
    RoundExchange(arena, b, s, t, r);
    if r.0.flag == 1 {
      rounds := [(s, t), r];
    } else {
      var rest := FightDuel(arena, b, r.0, r.1);
      rounds := [(s, t)] + rest;
    }
  }

  // The fall of one combatant is the only way a battle ends, and the other one survives it.
  lemma {:induction false} FightFacts(arena: Attribute, b: int, s: Status, t: Status)
    requires Fit(s) && Fit(t)
    ensures var r := Fight(arena, b, s, t);
            && SamePlayer(r.0, s) && SamePlayer(r.1, t)
            && r.0.cur == r.1.cur == b && r.0.flag == r.1.flag == 1
            && r.0.hp <= s.hp && r.1.hp <= t.hp
            && ((r.0.hp <= 0) != (r.1.hp <= 0))
    decreases s.hp + t.hp
  {
    RoundFacts(arena, b, s, t);
    var r := Round(arena, b, s, t);
    if r.0.flag != 1 {
      FightFacts(arena, b, r.0, r.1);
    }
  }

  // Which child of a battle is called left does not matter, exactly because two tokens with
  // distinct real ids are always ordered by Compare.
  lemma {:induction false} FightSymmetric(arena: Attribute, b: int, s: Status, t: Status)
    requires Fit(s) && Fit(t) && s.id != t.id
    ensures var r, q := Fight(arena, b, s, t), Fight(arena, b, t, s); r.0 == q.1 && r.1 == q.0
    decreases s.hp + t.hp
  {
    RoundFacts(arena, b, s, t);
    RoundFacts(arena, b, t, s);
    var r := Round(arena, b, s, t);
    assert Round(arena, b, t, s) == (r.1, r.0);
    if r.0.flag != 1 {
      FightSymmetric(arena, b, r.0, r.1);
    }
  }

  // C's division by two, truncating toward zero.
  function Half(d: int): int {
    if d >= 0 then d / 2 else -((-d) / 2)
  }

  // What a player does with a token that comes back from a battle it won.
  function Heal(orig: int, s: Status): Status {
    s.(hp := s.hp + Half(orig - s.hp), flag := 0)
  }

  // What a player does with its token before handing it over to an agent.
  function Revive(orig: int, s: Status): Status {
    s.(hp := orig, flag := 0)
  }

  // Healing gives back half of the lost hit points, rounded down, and starts a new battle.
  lemma HealFacts(orig: int, s: Status)
    requires 0 < s.hp <= orig
    ensures var h := Heal(orig, s);
            && SamePlayer(h, s) && h.cur == s.cur && h.flag == 0 && s.hp <= h.hp <= orig
            && 2 * (h.hp - s.hp) <= orig - s.hp <= 2 * (h.hp - s.hp) + 1
            && (h.hp == orig <==> s.hp == orig)
  {}

  // ---------- the C functions over Status pointers ----------

  class StatusCell {
    var id: int
    var hp: int
    var atk: int
    var attr: Attribute
    var cur: int
    var flag: int

    function Value(): Status
      reads this
    {
      Status(id, hp, atk, attr, cur, flag)
    }

    constructor (s: Status)
      ensures Value() == s
    {
      id, hp, atk, attr, cur, flag := s.id, s.hp, s.atk, s.attr, s.cur, s.flag;
    }
  }

  method BattleEnd(stat1: StatusCell, stat2: StatusCell) returns (over: bool)
    requires stat1 != stat2
    modifies stat1`flag, stat2`flag
    ensures (stat1.Value(), stat2.Value()) == EndCheck(old(stat1.Value()), old(stat2.Value()))
    ensures over <==> old(stat1.hp) <= 0 || old(stat2.hp) <= 0
  {
    if stat1.hp <= 0 || stat2.hp <= 0 {
      stat1.flag := 1;
      stat2.flag := 1;
      return true;
    }
    return false;
  }

  method Battle(arena: Attribute, stat1: StatusCell, stat2: StatusCell)
    requires stat1 != stat2
    modifies stat1, stat2
    ensures (stat1.Value(), stat2.Value()) == Strike(arena, old(stat1.Value()), old(stat2.Value()))
    ensures Fit(old(stat1.Value())) && Fit(old(stat2.Value())) && old(stat1.cur) == old(stat2.cur) ==>
              Blows(arena, old(stat1.cur), old(stat1.Value()), old(stat2.Value()), stat1.Value(), stat2.Value())
  {
    var atk1 := if arena == stat1.attr then stat1.atk * 2 else stat1.atk;
    var atk2 := if arena == stat2.attr then stat2.atk * 2 else stat2.atk;
    stat2.hp := stat2.hp - atk1;
    var over := BattleEnd(stat1, stat2);
    if over {
      return;
    }
    stat1.hp := stat1.hp - atk2;
    over := BattleEnd(stat1, stat2);
  }

  // The rounds of one battle on the two cells, without the messages between them.
  method PlayToEnd(arena: Attribute, b: int, stat1: StatusCell, stat2: StatusCell)
      returns (ghost rounds: seq<(Status, Status)>)
    requires stat1 != stat2 && Fit(stat1.Value()) && Fit(stat2.Value())
    modifies stat1, stat2
    ensures (stat1.Value(), stat2.Value()) == Fight(arena, b, old(stat1.Value()), old(stat2.Value()))
    ensures (stat1.hp <= 0) != (stat2.hp <= 0)
    ensures Duel(arena, b, rounds) && rounds[0] == (old(stat1.Value()), old(stat2.Value()))
    ensures rounds[|rounds| - 1] == (stat1.Value(), stat2.Value()) && stat1.flag == stat2.flag == 1
  {
    ghost var s, t := stat1.Value(), stat2.Value();
    rounds := [(s, t)];
    while stat1.flag != 1
      invariant stat1.flag == stat2.flag
      invariant stat1.flag == 1 || (Fit(stat1.Value()) && Fit(stat2.Value()))
      invariant Duel(arena, b, rounds) && rounds[0] == (s, t)
      invariant rounds[|rounds| - 1] == (stat1.Value(), stat2.Value())
      decreases if stat1.flag == 1 then 0 else 1, stat1.hp + stat2.hp
    {
      ghost var u, v := stat1.Value(), stat2.Value();
      RoundFacts(arena, b, u, v);
      stat1.cur := b;
      stat2.cur := b;
      if stat1.hp < stat2.hp || (stat1.hp == stat2.hp && stat1.id < stat2.id) {
        Battle(arena, stat1, stat2);
      } else {
        Battle(arena, stat2, stat1);
      }
      DuelMore(arena, b, rounds, u, v, (stat1.Value(), stat2.Value()));
      rounds := rounds + [(stat1.Value(), stat2.Value())];
    }
    DuelDecided(arena, b, rounds);
    FightFacts(arena, b, s, t);
  }
}
