/** The in-memory game store: three ordered collections (players, enemies and
  * the battle log) and one method per request handler. Each handler takes the
  * decoded request body as a value and reports a Status (or a BattleOutcome)
  * where the service writes an HTTP response. Random draws and the battle
  * identifier are parameters. */
module Store {
  import opened Roster
  import opened Rules

  /** What the battle handler reports. */
  datatype BattleOutcome =
    | Fought(id: string, diceThrow: int, player: Character, enemy: Character)
    | EnemyRequired
    | PlayerRequired
    | EnemyNotFound
    | PlayerNotFound

  /** A collection as the handlers keep it: unique, non-empty nicknames,
    * attack in [1, 10], and life never above what creation allows. */
  ghost predicate WellFormed(s: seq<Character>, maxLife: int)
  {
    UniqueNicknames(s) &&
    forall k :: 0 <= k < |s| ==>
      s[k].nickname != "" && MinStat <= s[k].attack <= MaxAttack && s[k].life <= maxLife
  }

  /** The battle log as the battle handler builds it: dice in [1, 5] and
    * pairwise distinct identifiers. */
  ghost predicate BattleLog(battles: seq<Battle>)
  {
    (forall k :: 0 <= k < |battles| ==> MinStat <= battles[k].diceThrow <= DieRange) &&
    (forall i, j :: 0 <= i < j < |battles| ==> battles[i].id != battles[j].id)
  }

  class Game {
    var players: seq<Character>
    var enemies: seq<Character>
    var battles: seq<Battle>

    /** The invariant every handler keeps. */
    ghost predicate Valid()
      reads this
    {
      WellFormed(players, MaxPlayerLife) &&
      WellFormed(enemies, EnemyStatRange) &&
      BattleLog(battles)
    }

    /** The store as the process starts: three empty collections. */
    constructor ()
      ensures Valid()
      ensures players == [] && enemies == [] && battles == []
    {
      players, enemies, battles := [], [], [];
    }

    /** POST /player: validate in order, then append the new player. */
    method AddPlayer(request: Character) returns (status: Status)
      requires Valid()
      modifies this`players
      ensures Valid()
      ensures status == CheckNewPlayer(old(players), request)
      ensures status == Ok ==> players == old(players) + [request]
      ensures status != Ok ==> players == old(players)
      ensures enemies == old(enemies) && battles == old(battles)
    {
      if request.nickname == "" || request.life == 0 || request.attack == 0 {
        return Required;
      }
      if request.attack > MaxAttack || request.attack <= 0 {
        return AttackRange;
      }
      if request.life > MaxPlayerLife || request.life <= 0 {
        return LifeRange;
      }
      var i := Locate(players, request.nickname);
      if i >= 0 {
        return Duplicate;
      }
      var player := Character(request.nickname, request.life, request.attack);
      AppendKeepsUnique(players, player);
      players := players + [player];
      status := Ok;
    }

    /** GET /player: every player, in insertion order. */
    method LoadPlayers() returns (r: seq<Character>)
      ensures r == players
    {
      r := players;
    }

    /** DELETE /player/{nickname}: cut out the entry with that nickname. */
    method DeletePlayer(nickname: string) returns (status: Status)
      requires Valid()
      modifies this`players
      ensures Valid()
      ensures status == (if Has(old(players), nickname) then Ok else NotFound)
      ensures players == Others(old(players), nickname)
      ensures status == NotFound ==> players == old(players)
      ensures enemies == old(enemies) && battles == old(battles)
    {
      var i := Locate(players, nickname);
      if i >= 0 {
        OthersIsRemoval(players, nickname);
        RemovalKeepsUnique(players, i);
        players := players[..i] + players[i + 1..];
        return Ok;
      }
      OthersWhenAbsent(players, nickname);
      status := NotFound;
    }

    /** GET /player/{nickname}: the first player with that nickname. */
    method LoadPlayerByNickname(nickname: string) returns (found: Option<Character>)
      ensures found.Some? <==> Has(players, nickname)
      ensures found.Some? ==> found.value == players[IndexOf(players, nickname)]
      ensures found.Some? ==> found.value in players && found.value.nickname == nickname
    {
      var i := Locate(players, nickname);
      if i >= 0 {
        return Some(players[i]);
      }
      found := None;
    }

    /** PUT /player/{nickname}: give the player a new nickname, nothing else. */
    method SavePlayer(nickname: string, request: Character) returns (status: Status)
      requires Valid()
      modifies this`players
      ensures Valid()
      ensures status == CheckRename(old(players), nickname, request.nickname)
      ensures status == Ok ==>
        var i := IndexOf(old(players), nickname);
        players == old(players)[i := old(players)[i].(nickname := request.nickname)]
      ensures status != Ok ==> players == old(players)
      ensures enemies == old(enemies) && battles == old(battles)
    {
      if request.nickname == "" {
        return Required;
      }
      var conflict, i := ScanForRename(players, nickname, request.nickname);
      if conflict {
        return Duplicate;
      }
      if i != -1 {
        UniqueIndex(players, i);
        RenameKeepsUnique(players, i, request.nickname);
        players := players[i := players[i].(nickname := request.nickname)];
        return Ok;
      }
      status := NotFound;
    }

    /** POST /enemy: only the nickname is taken from the request; life and
      * attack are `lifeRoll + 1` and `attackRoll + 1`, where the rolls are
      * the values of `rand.Intn(10)`. */
    method AddEnemy(request: Character, lifeRoll: int, attackRoll: int) returns (status: Status)
      requires Valid()
      requires 0 <= lifeRoll < EnemyStatRange && 0 <= attackRoll < EnemyStatRange
      modifies this`enemies
      ensures Valid()
      ensures status == CheckNewEnemy(old(enemies), request)
      ensures status == Ok ==>
        enemies == old(enemies) + [Character(request.nickname, lifeRoll + 1, attackRoll + 1)]
      ensures status == Ok ==>
        MinStat <= enemies[|enemies| - 1].life <= EnemyStatRange &&
        MinStat <= enemies[|enemies| - 1].attack <= EnemyStatRange
      ensures status != Ok ==> enemies == old(enemies)
      ensures players == old(players) && battles == old(battles)
    {
      if request.nickname == "" {
        return Required;
      }
      var i := Locate(enemies, request.nickname);
      if i >= 0 {
        return Duplicate;
      }
      var enemy := Character(request.nickname, lifeRoll + 1, attackRoll + 1);
      AppendKeepsUnique(enemies, enemy);
      enemies := enemies + [enemy];
      status := Ok;
    }

    /** GET /enemy: every enemy, in insertion order. */
    method LoadEnemy() returns (r: seq<Character>)
      ensures r == enemies
    {
      r := enemies;
    }

    /** GET /enemy?nickname=: the first enemy with that nickname. */
    method LoadEnemyByNickname(nickname: string) returns (found: Option<Character>)
      ensures found.Some? <==> Has(enemies, nickname)
      ensures found.Some? ==> found.value == enemies[IndexOf(enemies, nickname)]
      ensures found.Some? ==> found.value in enemies && found.value.nickname == nickname
    {
      var i := Locate(enemies, nickname);
      if i >= 0 {
        return Some(enemies[i]);
      }
      found := None;
    }

    /** PUT /enemy?nickname=: give the enemy a new nickname, nothing else. */
    method SaveEnemy(nickname: string, request: Character) returns (status: Status)
      requires Valid()
      modifies this`enemies
      ensures Valid()
      ensures status == CheckRename(old(enemies), nickname, request.nickname)
      ensures status == Ok ==>
        var i := IndexOf(old(enemies), nickname);
        enemies == old(enemies)[i := old(enemies)[i].(nickname := request.nickname)]
      ensures status != Ok ==> enemies == old(enemies)
      ensures players == old(players) && battles == old(battles)
    {
      if request.nickname == "" {
        return Required;
      }
      var conflict, i := ScanForRename(enemies, nickname, request.nickname);
      if conflict {
        return Duplicate;
      }
      if i != -1 {
        UniqueIndex(enemies, i);
        RenameKeepsUnique(enemies, i, request.nickname);
        enemies := enemies[i := enemies[i].(nickname := request.nickname)];
        return Ok;
      }
      status := NotFound;
    }

    /** DELETE /enemy?nickname=: cut out the entry with that nickname. */
    method DeleteEnemy(nickname: string) returns (status: Status)
      requires Valid()
      modifies this`enemies
      ensures Valid()
      ensures status == (if Has(old(enemies), nickname) then Ok else NotFound)
      ensures enemies == Others(old(enemies), nickname)
      ensures status == NotFound ==> enemies == old(enemies)
      ensures players == old(players) && battles == old(battles)
    {
      var i := Locate(enemies, nickname);
      if i >= 0 {
        OthersIsRemoval(enemies, nickname);
        RemovalKeepsUnique(enemies, i);
        enemies := enemies[..i] + enemies[i + 1..];
        return Ok;
      }
      OthersWhenAbsent(enemies, nickname);
      status := NotFound;
    }

    /** POST /battle: look up the enemy, then the player, resolve one
      * exchange with die `dieRoll + 1` (the roll is the value of
      * `rand.Intn(6 - 1)`, so the die is never 6) and log the battle under
      * `id` (the value of `uuid.New()`). The request's own ID and DiceThrow
      * are ignored. */
    method AddBattle(request: Battle, dieRoll: int, id: string) returns (outcome: BattleOutcome)
      requires Valid()
      requires 0 <= dieRoll < DieRange
      requires forall k :: 0 <= k < |battles| ==> battles[k].id != id
      modifies this
      ensures Valid()
      ensures request.enemy == "" ==> outcome == EnemyRequired
      ensures request.enemy != "" && request.player == "" ==> outcome == PlayerRequired
      ensures request.enemy != "" && request.player != "" && !Has(old(enemies), request.enemy) ==>
        outcome == EnemyNotFound
      ensures request.enemy != "" && request.player != "" && Has(old(enemies), request.enemy) &&
              !Has(old(players), request.player) ==>
        outcome == PlayerNotFound
      ensures outcome.Fought? <==>
        request.enemy != "" && request.player != "" &&
        Has(old(enemies), request.enemy) && Has(old(players), request.player)
      ensures !outcome.Fought? ==>
        players == old(players) && enemies == old(enemies) && battles == old(battles)
      ensures outcome.Fought? ==>
        var ip, ie := IndexOf(old(players), request.player), IndexOf(old(enemies), request.enemy);
        var after := Exchange(old(players)[ip], old(enemies)[ie], dieRoll + 1);
        && outcome == Fought(id, dieRoll + 1, after.0, after.1)
        && players == old(players)[ip := after.0]
        && enemies == old(enemies)[ie := after.1]
        && battles == old(battles) + [Battle(id, request.enemy, request.player, dieRoll + 1)]
    {
      if request.enemy == "" {
        return EnemyRequired;
      }
      if request.player == "" {
        return PlayerRequired;
      }
      var ie := Locate(enemies, request.enemy);
      if ie < 0 {
        return EnemyNotFound;
      }
      var ip := Locate(players, request.player);
      if ip < 0 {
        return PlayerNotFound;
      }
      var diceThrow := dieRoll + 1;
      if 1 <= diceThrow <= 3 {
        players := players[ip := players[ip].(life := players[ip].life - enemies[ie].attack)];
      }
      if 4 <= diceThrow <= 6 {
        enemies := enemies[ie := enemies[ie].(life := enemies[ie].life - players[ip].attack)];
      }
      battles := battles + [Battle(id, request.enemy, request.player, diceThrow)];
      outcome := Fought(id, diceThrow, players[ip], enemies[ie]);
    }

    /** GET /battle: the battle log, oldest first. */
    method LoadBattle() returns (r: seq<Battle>)
      ensures r == battles
    {
      r := battles;
    }
  }
}
