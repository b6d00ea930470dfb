/** The validation rules of the game store and its battle rule, as pure
  * functions. The handlers in module Store implement them step by step and
  * are proved to agree with them. */
module Rules {
  import opened Roster

  /** What a player or enemy handler reports, in place of an HTTP status. */
  datatype Status = Ok | Required | AttackRange | LifeRange | Duplicate | NotFound

  /** One entry of the battle log. */
  datatype Battle = Battle(id: string, enemy: string, player: string, diceThrow: int)

  const MinStat := 1
  const MaxAttack := 10
  const MaxPlayerLife := 100
  /** Enemy life and attack are each drawn as `rand.Intn(EnemyStatRange) + 1`. */
  const EnemyStatRange := 10
  /** The die is drawn as `rand.Intn(DieFaces - 1) + 1`: a value in [1, 5]. */
  const DieFaces := 6
  const DieRange := DieFaces - 1

  /** Player creation: presence first (zero stands for "missing"), then the
    * attack range, then the life range, then a clash with an existing
    * player's nickname. */
  function CheckNewPlayer(players: seq<Character>, request: Character): (r: Status)
    ensures r == Ok <==>
      request.nickname != "" && MinStat <= request.attack <= MaxAttack &&
      MinStat <= request.life <= MaxPlayerLife && !Has(players, request.nickname)
    ensures r == Required <==> request.nickname == "" || request.life == 0 || request.attack == 0
    ensures r == AttackRange <==>
      request.nickname != "" && request.life != 0 && request.attack != 0 &&
      !(MinStat <= request.attack <= MaxAttack)
    ensures r == LifeRange <==>
      request.nickname != "" && request.life != 0 && MinStat <= request.attack <= MaxAttack &&
      !(MinStat <= request.life <= MaxPlayerLife)
    ensures r == Duplicate <==>
      request.nickname != "" && MinStat <= request.attack <= MaxAttack &&
      MinStat <= request.life <= MaxPlayerLife && Has(players, request.nickname)
    ensures r != NotFound
  {
    if request.nickname == "" || request.life == 0 || request.attack == 0 then Required
    else if request.attack > MaxAttack || request.attack <= 0 then AttackRange
    else if request.life > MaxPlayerLife || request.life <= 0 then LifeRange
    else if IndexOf(players, request.nickname) >= 0 then Duplicate
    else Ok
  }

  /** Enemy creation looks only at the nickname: present, and not yet used
    * by another enemy. */
  function CheckNewEnemy(enemies: seq<Character>, request: Character): (r: Status)
    ensures r == Ok <==> request.nickname != "" && !Has(enemies, request.nickname)
    ensures r == Required <==> request.nickname == ""
    ensures r == Duplicate <==> request.nickname != "" && Has(enemies, request.nickname)
    ensures r in {Ok, Required, Duplicate}
  {
    if request.nickname == "" then Required
    else if IndexOf(enemies, request.nickname) >= 0 then Duplicate
    else Ok
  }

  /** Renaming `target` to `newNickname`: the new nickname must be present and
    * must not be held by any entry, the target included; only then is the
    * target's absence reported. */
  function CheckRename(s: seq<Character>, target: string, newNickname: string): (r: Status)
    ensures r == Ok <==> newNickname != "" && !Has(s, newNickname) && Has(s, target)
    ensures r == Required <==> newNickname == ""
    ensures r == Duplicate <==> newNickname != "" && Has(s, newNickname)
    ensures r == NotFound <==> newNickname != "" && !Has(s, newNickname) && !Has(s, target)
  {
    if newNickname == "" then Required
    else if IndexOf(s, newNickname) >= 0 then Duplicate
    else if IndexOf(s, target) >= 0 then Ok
    else NotFound
  }

  /** Renaming an existing entry to its own current nickname is reported as
    * a duplicate, since the conflict check also sees the target. */
  lemma RenameToSelfIsDuplicate(s: seq<Character>, target: string)
    requires target != "" && Has(s, target)
    ensures CheckRename(s, target, target) == Duplicate
  {
  }

  /** One exchange of blows. A die in [1, 3] takes the enemy's attack off the
    * player's life, a die in [4, 6] takes the player's attack off the enemy's
    * life; life is not floored at zero, and nicknames and attacks never
    * change. */
  function Exchange(player: Character, enemy: Character, die: int): (r: (Character, Character))
    ensures r.0.nickname == player.nickname && r.0.attack == player.attack
    ensures r.1.nickname == enemy.nickname && r.1.attack == enemy.attack
    ensures 1 <= die <= 3 ==> r.0.life == player.life - enemy.attack && r.1 == enemy
    ensures 4 <= die <= 6 ==> r.1.life == enemy.life - player.attack && r.0 == player
    ensures !(1 <= die <= 6) ==> r == (player, enemy)
    ensures 1 <= die <= 6 && player.attack != 0 && enemy.attack != 0 ==>
      (r.0 != player <==> r.1 == enemy)
  {
    var p := if 1 <= die <= 3 then player.(life := player.life - enemy.attack) else player;
    var e := if 4 <= die <= 6 then enemy.(life := enemy.life - player.attack) else enemy;
    (p, e)
  }
}
