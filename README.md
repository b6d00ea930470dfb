# RPG game store and CountString, modelled in Dafny

This project models two pieces of Go code.

**The RPG service** (`RPG_GO/cmd/api/main.go`) keeps three ordered in-memory
collections: players, enemies and a battle log. Request handlers create,
list, look up, rename and delete players and enemies, and resolve battles
between them. Here the service is the class `Store.Game`. Its fields
`players`, `enemies` and `battles` are sequences, and each handler is a
method that changes them in place. A method takes the decoded request body
as a value and returns a `Status` (or a `BattleOutcome`) where the service
writes an HTTP status and message.

- `Roster` (roster.dfy) holds the `Character` record (players and enemies
  have the same three fields) and the nickname operations both collections
  use. `Locate` and `ScanForRename` are the handlers' search loops.
  `IndexOf` (first match) and `Others` (every entry with a different
  nickname, in order) are the reference definitions they are proved
  against.
- `Rules` (rules.dfy) holds the constants, the validation rules as pure
  functions, and `Exchange`, the battle rule.
- `Store` (store.dfy) holds the class. Every mutating handler keeps
  `Valid()`:
  - nicknames are unique and non-empty within each collection;
  - attack stays in [1, 10];
  - life never rises above what creation allows (100 for players, 10 for
    enemies);
  - every logged die is in [1, 5];
  - battle identifiers are distinct.
- `Scenarios` (scenarios.dfy) holds client sessions on a fresh store. They
  are proved from the handler contracts alone.

Random draws are parameters. Enemy life and attack are `lifeRoll + 1` and
`attackRoll + 1`, where each roll is a value of `rand.Intn(10)`, so it lies
in [0, 10). The die is `dieRoll + 1`, where the roll is a value of
`rand.Intn(6-1)`, so it lies in [0, 5). The battle identifier (`uuid.New()`)
is a parameter that must differ from every logged identifier.

Three behaviours of the code are modelled as written, where a reader might
expect something else:

- The die is drawn from [1, 5], not [1, 6]: `rand.Intn(6-1)+1` never gives
  6. The enemy-hit branch (die 4 to 6) therefore fires only for 4 and 5.
- Renaming an entry to its own current nickname is reported as a duplicate.
  The rename loop checks every entry for a clash, the target included.
- The duplicate check of a rename takes precedence over not-found. Life is
  never floored at zero.

**CountString** (`aula1/exercicio2.go`) returns the byte length of a Go
string. It returns an error only for the one-space string; the empty string
counts as 0 with no error. A Go string is its UTF-8 bytes, so the model
takes a `seq<byte>`.

## Model

| member | source | states |
|---|---|---|
| Roster.IndexOf | RPG_GO/cmd/api/main.go:322-334 | The result is -1 exactly when no entry has the nickname. Otherwise it is the position of an entry with that nickname, and no earlier entry has it. |
| Roster.Locate | RPG_GO/cmd/api/main.go:336-342 | The search loop that stops at the first match returns exactly `IndexOf`. |
| Roster.ScanForRename | RPG_GO/cmd/api/main.go:162-172 | A conflict is reported exactly when some entry, the target included, already holds the new nickname. Without a conflict, the index is -1 exactly when the target is absent. Otherwise it is the last entry named like the target. |
| Roster.OthersMembers | RPG_GO/cmd/api/main.go:113-119 | The reference deletion keeps exactly the entries whose nickname differs. |
| Roster.OthersWhenAbsent | RPG_GO/cmd/api/main.go:113-124 | Deleting an absent nickname leaves the collection unchanged. |
| Roster.OthersIsRemoval | RPG_GO/cmd/api/main.go:113-117 | With unique nicknames, splicing out the first match (`append(s[:i], s[i+1:]...)`) equals keeping every other entry in its original order. |
| Roster.RemovalKeepsUnique | RPG_GO/cmd/api/main.go:115 | Splicing out one entry keeps the nicknames unique. |
| Roster.AppendKeepsUnique | RPG_GO/cmd/api/main.go:84-96 | Appending an entry whose nickname is unused keeps the nicknames unique. |
| Roster.RenameKeepsUnique | RPG_GO/cmd/api/main.go:174-175 | Giving one entry an unused nickname keeps the nicknames unique. |
| Roster.UniqueIndex | RPG_GO/cmd/api/main.go:163-166 | With unique nicknames, the entry the rename loop remembers is the first and only match, so it agrees with `IndexOf`. |
| Rules.CheckNewPlayer | RPG_GO/cmd/api/main.go:67-90 | Creation succeeds exactly when the nickname is non-empty, attack is in [1,10], life is in [1,100] and the nickname is unused. Zero life or attack, or an empty nickname, gives Required. Otherwise a bad attack gives AttackRange before a bad life gives LifeRange. Duplicate is reported only for otherwise valid requests. NotFound never occurs. |
| Rules.CheckNewEnemy | RPG_GO/cmd/api/main.go:197-208 | Enemy creation succeeds exactly when the nickname is non-empty and unused. It gives Required for the empty nickname and Duplicate for a used one. |
| Rules.CheckRename | RPG_GO/cmd/api/main.go:157-184 | A rename gives Required for an empty new nickname. It gives Duplicate whenever any entry holds the new nickname, whether or not the target exists. It gives NotFound only when the new nickname is free and the target is absent, and Ok exactly when the new nickname is free and the target exists. |
| Rules.RenameToSelfIsDuplicate | RPG_GO/cmd/api/main.go:163-171 | Renaming an existing entry to its own nickname is a Duplicate. |
| Rules.Exchange | RPG_GO/cmd/api/main.go:353-359 | A die in [1,3] lowers the player's life by the enemy's attack and leaves the enemy as it was. A die in [4,6] lowers the enemy's life by the player's attack and leaves the player as it was. Life has no floor, and nicknames and attacks never change. Any other die changes nothing. With non-zero attacks, exactly one side changes. |
| Store.Game.constructor | RPG_GO/cmd/api/main.go:23-55 | The store starts with three empty collections and satisfies the invariant. |
| Store.Game.AddPlayer | RPG_GO/cmd/api/main.go:57-100 | The status is `CheckNewPlayer` of the old players. On Ok the request is appended at the end. On any failure the players are unchanged. Enemies and battles never change, and the invariant (unique nicknames included) is kept. |
| Store.Game.LoadPlayers | RPG_GO/cmd/api/main.go:102-106 | Returns the players in insertion order. |
| Store.Game.DeletePlayer | RPG_GO/cmd/api/main.go:108-125 | Ok exactly when the nickname is present, otherwise NotFound with no change. The new players are exactly the other entries in their original order. Nothing else changes. |
| Store.Game.LoadPlayerByNickname | RPG_GO/cmd/api/main.go:127-144 | Finds something exactly when a player has the nickname, and then returns the first such player. |
| Store.Game.SavePlayer | RPG_GO/cmd/api/main.go:146-185 | The status is `CheckRename` of the old players. On Ok only the nickname field of the target entry changes: its position, life and attack and every other entry stay the same. On failure nothing changes. Uniqueness is kept. |
| Store.Game.AddEnemy | RPG_GO/cmd/api/main.go:187-220 | The status is `CheckNewEnemy`. On Ok the enemy appended has the request's nickname and life and attack from the rolls, each in [1,10]. The request's life and attack are ignored. On failure nothing changes. |
| Store.Game.LoadEnemy | RPG_GO/cmd/api/main.go:222-226 | Returns the enemies in insertion order. |
| Store.Game.LoadEnemyByNickname | RPG_GO/cmd/api/main.go:228-243 | Finds something exactly when an enemy has the nickname, and then returns the first such enemy. |
| Store.Game.SaveEnemy | RPG_GO/cmd/api/main.go:245-283 | As SavePlayer, over the enemies. |
| Store.Game.DeleteEnemy | RPG_GO/cmd/api/main.go:285-300 | As DeletePlayer, over the enemies. |
| Store.Game.AddBattle | RPG_GO/cmd/api/main.go:302-376 | Empty names are reported first, enemy before player. Then a missing enemy is reported before a missing player, and a failure changes nothing. On success the die is the roll plus one, so it is in [1,5]. The found player and enemy are replaced by their `Exchange` results in place, and exactly one record (id, enemy, player, die) is appended to the log. The request's ID and DiceThrow are ignored. |
| Store.Game.LoadBattle | RPG_GO/cmd/api/main.go:378-383 | Returns the battle log, oldest first. |
| Scenarios.LowDieHitsPlayer | RPG_GO/cmd/api/main.go:350-359 | Player P (attack 5, life 20) fights enemy E (attack 3, life 8). With die 2, P drops to 17 and E stays at 8. |
| Scenarios.HighDieHitsEnemy | RPG_GO/cmd/api/main.go:350-367 | The same pair with die 5: E drops to 3, P stays at 20, and the log holds exactly that battle. |
| Scenarios.LifeGoesNegative | RPG_GO/cmd/api/main.go:353-355 | A player with 1 life, hit for 3, ends at -2 (no floor at zero). |
| Scenarios.CreationOrder | RPG_GO/cmd/api/main.go:67-105 | A sequence of creations yields: zero as Required, out-of-range attack before out-of-range life, a repeated nickname as Duplicate. The list holds the successful additions in order. |
| Scenarios.RenameSession | RPG_GO/cmd/api/main.go:108-185 | Renaming to the current nickname is a Duplicate, a fresh rename keeps the stats, and deleting the old name is NotFound. |
| CountString.CountString | aula1/exercicio2.go:21-26 | The length is never negative. The error is non-nil exactly for the one-space string, which yields (0, error). Every other string, the empty one included, yields its byte length and nil. |

## Left out

- HTTP plumbing is not modelled: Content-Type headers, status codes and JSON encoding of responses. In the code, "required" failures fall through without setting a status, so they answer 200. Here they are the `Required`, `EnemyRequired` and `PlayerRequired` outcomes. A not-found in a rename or a battle answers 400 in the code, and that is not modelled either.
- Request decoding is not modelled, including the internal-error response for a malformed body. Each handler receives an already decoded body.
- Routing in `main` is not modelled. This includes the mismatch between the `{nickname}` path routes for enemies and the enemy handlers reading a `nickname` query parameter. The nickname is a method argument.
- Randomness and identifiers are parameters: `rand.Seed`, `time.Now`, `rand.Intn` and `uuid.New`. Their ranges are preconditions, and the identifier's freshness stands in for the uniqueness of a UUID.
- Concurrency is not modelled. The code has no locking, and the model is sequential.
- Go's 64-bit `int` is not modelled; life and attack are unbounded integers. Life only falls by at most 10 per battle, so wrap-around would take about 10^18 battles.
- The printing `main` of `aula1/exercicio2.go` is console I/O and is not modelled.
