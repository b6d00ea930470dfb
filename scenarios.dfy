/** Client sessions against a fresh store. Each one is proved from the
  * handlers' contracts alone, so each shows that those contracts pin the
  * observable behaviour down. */
module Scenarios {
  import opened Roster
  import opened Rules
  import opened Store

  /** Player P (attack 5, life 20) fights enemy E (attack 3, life 8) and the
    * die shows 2: P loses 3 life, E is untouched. */
  method LowDieHitsPlayer() returns (outcome: BattleOutcome)
    ensures outcome == Fought("b1", 2, Character("P", 17, 5), Character("E", 8, 3))
  {
    var game := new Game();
    var added := game.AddPlayer(Character("P", 20, 5));
    // The enemy's stats come from the rolls 7 and 2, not from the request.
    var spawned := game.AddEnemy(Character("E", 99, 99), 7, 2);
    assert game.players[0].nickname == "P" && game.enemies[0].nickname == "E";
    outcome := game.AddBattle(Battle("ignored", "E", "P", 6), 1, "b1");
  }

  /** The same pair with the die showing 5: E loses 5 life, P is untouched. */
  method HighDieHitsEnemy() returns (outcome: BattleOutcome, log: seq<Battle>)
    ensures outcome == Fought("b1", 5, Character("P", 20, 5), Character("E", 3, 3))
    ensures log == [Battle("b1", "E", "P", 5)]
  {
    var game := new Game();
    var added := game.AddPlayer(Character("P", 20, 5));
    var spawned := game.AddEnemy(Character("E", 0, 0), 7, 2);
    assert game.players[0].nickname == "P" && game.enemies[0].nickname == "E";
    outcome := game.AddBattle(Battle("", "E", "P", 0), 4, "b1");
    log := game.LoadBattle();
  }

  /** Life is not floored at zero: a player with 1 life hit for 3 ends at -2. */
  method LifeGoesNegative() returns (outcome: BattleOutcome)
    ensures outcome.Fought? && outcome.player.life == -2
  {
    var game := new Game();
    var added := game.AddPlayer(Character("P", 1, 5));
    var spawned := game.AddEnemy(Character("E", 0, 0), 0, 2);
    assert game.players[0].nickname == "P" && game.enemies[0].nickname == "E";
    outcome := game.AddBattle(Battle("", "E", "P", 0), 0, "b1");
  }

  /** Zero means "missing", a second equal nickname is a duplicate, and the
    * list holds the successful additions in order. */
  method CreationOrder() returns (statuses: seq<Status>, listed: seq<Character>)
    ensures statuses == [Ok, Required, AttackRange, LifeRange, Duplicate, Ok]
    ensures listed == [Character("A", 10, 1), Character("B", 100, 10)]
  {
    var game := new Game();
    var s0 := game.AddPlayer(Character("A", 10, 1));
    var s1 := game.AddPlayer(Character("C", 0, 11));
    var s2 := game.AddPlayer(Character("C", 101, 11));
    var s3 := game.AddPlayer(Character("C", 101, 10));
    assert game.players[0].nickname == "A";
    var s4 := game.AddPlayer(Character("A", 50, 5));
    var s5 := game.AddPlayer(Character("B", 100, 10));
    statuses := [s0, s1, s2, s3, s4, s5];
    listed := game.LoadPlayers();
  }

  /** Renaming to the current nickname is a duplicate; renaming to a fresh
    * one keeps the stats; deleting the old name then finds nothing. */
  method RenameSession() returns (statuses: seq<Status>, listed: seq<Character>)
    ensures statuses == [Duplicate, Ok, NotFound, Ok]
    ensures listed == []
  {
    var game := new Game();
    var added := game.AddPlayer(Character("A", 10, 1));
    assert game.players[0].nickname == "A";
    var s0 := game.SavePlayer("A", Character("A", 0, 0));
    var s1 := game.SavePlayer("A", Character("Z", 0, 0));
    assert game.players == [Character("Z", 10, 1)];
    var s2 := game.DeletePlayer("A");
    assert game.players[0].nickname == "Z";
    var s3 := game.DeletePlayer("Z");
    statuses := [s0, s1, s2, s3];
    listed := game.LoadPlayers();
  }
}
