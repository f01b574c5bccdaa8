# Fame progression of the AionGermany game server

This project models the player fame service of the AionGermany game server
(`PlayerFameService`). Each player holds one fame record per zone category,
with ids 1..6. A record has a `level`, an `exp` gathered within that level,
and an `expLoss`: experience lost on death that can be recovered later. The
service changes these records in place:

- login fills in the missing categories;
- experience gain applies to the records of the player's current world;
- death loss splits a loss into a recoverable and an unrecoverable part;
- recovery gives the recoverable part back through the gain rule;
- weekly decay lowers exp, or demotes a record by one level.

Each changed record is written back to the database.

The project has four modules:

- `LevelTable` (`level_table.dfy`): the maximum level 9 and the experience
  table. The experience table is a function from level to threshold, which
  the service takes as configuration.
- `FameRules` (`fame_rules.dfy`): each rule on one record, as a function from
  the old state `Fame(level, exp, expLoss)` to the new one. Lemmas state each
  branch and each quirk of the rules.
- `FameSet` (`fame_set.dfy`): each operation on a player's whole set, stated
  on values, as a map from category id to record state. It also defines the
  search for "the last record of a world" and lemmas about the set operations.
- `FameService` (`fame_service.dfy`): the imperative service.
  - `PlayerFame` is a class whose fields the service updates.
  - `Player` holds a `map<int, PlayerFame>`.
  - `PlayerFameService` holds the experience table and the category-to-world
    mapping as constants. The per-player methods (`OnPlayerLogin`,
    `AddFameExp`, `OnPlayerDie`, `FameLevelByWorld`) loop over the ids in
    ascending order; gain and death call one helper method per record
    (`GainRecord`, `DieRecord`). `OnResetWeekly` walks the weekly batch in
    the order it is given.
  - Each method is proved against the `FameRules` and `FameSet` functions.
  - A database write of a record is modelled by the record's ghost field
    `stored`, which holds the state last written. `Saved()` says that the
    row holds the record's current state.

The code's own behaviour is reproduced, quirks included:

- The clamp at level 9 tests `>` and the level-up tests `>=`. So a level-9
  record whose exp plus points equals the threshold exactly reaches level 10.
- A gain levels up at most once.
- The death rule compares the level, not the exp, with the loss.
- Weekly decay has no floor at level 1.
- The death and weekly multipliers are the literal 0.

One might expect a second recovery to change nothing, since expLoss is
then 0. The code does not guarantee that. Once `expLoss` is cleared, a
second recovery gains 0 points. A gain of 0 is not the identity on a record
whose exp has reached its level's threshold: that record clamps or levels
up. `FameSet.RecoverAgainIsIdentityIff` states exactly when a second recovery
changes nothing.

## Model

| member | source | states |
|---|---|---|
| FameRules.GainClampsAtMax | AL-Game/src/com/aionemu/gameserver/services/player/PlayerFameService.java:84-85 | when the level is 9 and exp plus points exceeds the threshold, exp becomes the level-9 threshold and the level stays 9 |
| FameRules.GainLevelsUpOnce | AL-Game/src/com/aionemu/gameserver/services/player/PlayerFameService.java:90-94 | outside the clamp, reaching the threshold raises the level by exactly one and carries exp plus points minus the old level's threshold; expLoss is kept |
| FameRules.GainAddsBelowThreshold | AL-Game/src/com/aionemu/gameserver/services/player/PlayerFameService.java:98 | below the threshold, the points are added and the level is kept |
| FameRules.GainConservesExp | AL-Game/src/com/aionemu/gameserver/services/player/PlayerFameService.java:90-98 | outside the clamp, new exp plus the threshold consumed equals old exp plus points |
| FameRules.GainExceedsMaxLevelIff | AL-Game/src/com/aionemu/gameserver/services/player/PlayerFameService.java:84-92 | from a level of at most 9, a gain goes past level 9 if and only if the level is 9 and exp plus points equals the level-9 threshold exactly (`>` against `>=`) |
| FameRules.GainKeepsExpNonNegative | AL-Game/src/com/aionemu/gameserver/services/player/PlayerFameService.java:84-98 | with positive thresholds, a record in levels 1..9 with non-negative exp and points keeps exp non-negative and rises by at most one level, to at most 10 |
| FameRules.GainZeroIsIdentityIff | AL-Game/src/com/aionemu/gameserver/services/player/PlayerFameService.java:84-98 | a gain of 0 points leaves a record unchanged if and only if its exp is below its level's threshold |
| FameRules.GainNoSecondLevelUp | AL-Game/src/com/aionemu/gameserver/services/player/PlayerFameService.java:90-96 | a gain levels up only once, even when the carried exp already exceeds the next threshold |
| FameRules.Unrecoverable | AL-Game/src/com/aionemu/gameserver/services/player/PlayerFameService.java:108 | the unrecoverable part has the sign of the loss, is no larger than the loss, and is 0.22222222 of the loss truncated toward zero: its magnitude is at most that product and within one of it |
| FameRules.LoseExpSplitsLoss | AL-Game/src/com/aionemu/gameserver/services/player/PlayerFameService.java:107-115 | the recoverable and unrecoverable parts add up to the loss; only the recoverable part is added to expLoss; the level is kept; exp becomes 0 when the level is below the loss, otherwise exp minus the loss |
| FameRules.LoseExpComparesLevelNotExp | AL-Game/src/com/aionemu/gameserver/services/player/PlayerFameService.java:110-111 | the zeroing test compares the level with the loss: a level-2 record with 100 exp losing 5 ends with exp 0 |
| FameRules.DieIsIdentityIff | AL-Game/src/com/aionemu/gameserver/services/player/PlayerFameService.java:107-115 | with the zero multiplier the loss is 0; a death leaves a record unchanged if and only if its level is non-negative or its exp is 0; a negative level wipes exp |
| FameRules.RoundPenalty | AL-Game/src/com/aionemu/gameserver/services/player/PlayerFameService.java:48 | the penalty is the integer nearest to 1.5% of exp, with halves rounded up |
| FameRules.DecayByDemotesIff | AL-Game/src/com/aionemu/gameserver/services/player/PlayerFameService.java:46-53 | for any reduction, a record is demoted by exactly one level if and only if the reduction uses up its exp; otherwise the level is kept; expLoss is never touched |
| FameRules.DecayKeepsPositiveExp | AL-Game/src/com/aionemu/gameserver/services/player/PlayerFameService.java:45-53 | with the zero multiplier, a record with positive exp is left unchanged |
| FameRules.DecayDemotesEmpty | AL-Game/src/com/aionemu/gameserver/services/player/PlayerFameService.java:45-49 | with the zero multiplier, a record with exp of at most 0 drops one level and gets the new level's threshold minus the rounded 1.5% penalty, which is exactly the threshold when exp is 0 |
| FameRules.DecayHasNoFloor | AL-Game/src/com/aionemu/gameserver/services/player/PlayerFameService.java:46-47 | an empty level-1 record decays to level 0 |
| FameSet.LastMatchingBelow | AL-Game/src/com/aionemu/gameserver/services/player/PlayerFameService.java:121-127 | the search returns nothing if and only if no present id below the bound belongs to the world; otherwise it returns a present id of the world that is greater than or equal to every other such id |
| FameSet.GainAllChangesOnlyCurrentWorld | AL-Game/src/com/aionemu/gameserver/services/player/PlayerFameService.java:81-82 | a gain creates no record, leaves the records of other worlds unchanged and keeps every expLoss |
| FameSet.DieAllChangesNothing | AL-Game/src/com/aionemu/gameserver/services/player/PlayerFameService.java:105-115 | with the zero multiplier, a death leaves a set with non-negative levels unchanged |
| FameSet.LoginAllCompletes | AL-Game/src/com/aionemu/gameserver/services/player/PlayerFameService.java:71-75 | after login exactly the categories 1..6 are present; existing records are kept and missing ones start at level 1, exp 0, expLoss 0 |
| FameSet.LoginAllIdempotent | AL-Game/src/com/aionemu/gameserver/services/player/PlayerFameService.java:71-72 | a second login leaves the set unchanged |
| FameSet.RecoverAllProperties | AL-Game/src/com/aionemu/gameserver/services/player/PlayerFameService.java:59-64 | with no record for the world, nothing changes; otherwise every record of the world gains the last record's expLoss, that record then has expLoss 0, and other worlds are untouched |
| FameSet.RecoverAgainIsIdentityIff | AL-Game/src/com/aionemu/gameserver/services/player/PlayerFameService.java:59-64 | a second recovery leaves the set unchanged if and only if every record of the world is then below its level's threshold |
| FameRules.Gain | AL-Game/src/com/aionemu/gameserver/services/player/PlayerFameService.java:83-98 | definition, no contract: the gain rule on one record; its properties are stated in GainClampsAtMax, GainLevelsUpOnce, GainAddsBelowThreshold, GainConservesExp, GainExceedsMaxLevelIff, GainKeepsExpNonNegative, GainZeroIsIdentityIff and GainNoSecondLevelUp |
| FameRules.LoseExp | AL-Game/src/com/aionemu/gameserver/services/player/PlayerFameService.java:108-115 | definition, no contract: a death loss of a given size on one record; its properties are stated in LoseExpSplitsLoss and LoseExpComparesLevelNotExp |
| FameRules.DeathLoss | AL-Game/src/com/aionemu/gameserver/services/player/PlayerFameService.java:107 | definition, no contract: the loss is exp times the zero death multiplier; DieIsIdentityIff states that it is 0 |
| FameRules.Die | AL-Game/src/com/aionemu/gameserver/services/player/PlayerFameService.java:107-115 | definition, no contract: the death rule as configured; its properties are stated in DieIsIdentityIff |
| FameRules.WeeklyReduce | AL-Game/src/com/aionemu/gameserver/services/player/PlayerFameService.java:45 | definition, no contract: the reduction is exp times the zero weekly multiplier; DecayKeepsPositiveExp and DecayDemotesEmpty use that it is 0 |
| FameRules.DecayBy | AL-Game/src/com/aionemu/gameserver/services/player/PlayerFameService.java:46-53 | definition, no contract: weekly decay by a given reduction; its properties are stated in DecayByDemotesIff |
| FameRules.Decay | AL-Game/src/com/aionemu/gameserver/services/player/PlayerFameService.java:45-53 | definition, no contract: the weekly rule as configured; its properties are stated in DecayKeepsPositiveExp, DecayDemotesEmpty and DecayHasNoFloor |
| FameSet.GainAll | AL-Game/src/com/aionemu/gameserver/services/player/PlayerFameService.java:80-100 | definition, no contract: the gain applied to a player's whole set; its properties are stated in GainAllChangesOnlyCurrentWorld, and AddFameExp is proved equal to it |
| FameSet.DieAll | AL-Game/src/com/aionemu/gameserver/services/player/PlayerFameService.java:104-117 | definition, no contract: the death rule applied to a player's whole set; its properties are stated in DieAllChangesNothing, and OnPlayerDie is proved equal to it |
| FameSet.LoginAll | AL-Game/src/com/aionemu/gameserver/services/player/PlayerFameService.java:71-76 | definition, no contract: the set after login; its properties are stated in LoginAllCompletes and LoginAllIdempotent, and OnPlayerLogin is proved equal to it |
| FameSet.RecoverAll | AL-Game/src/com/aionemu/gameserver/services/player/PlayerFameService.java:59-64 | definition, no contract: the set after recovery; its properties are stated in RecoverAllProperties and RecoverAgainIsIdentityIff, and RecoverExpFame is proved equal to it |
| FameSet.LastMatching | AL-Game/src/com/aionemu/gameserver/services/player/PlayerFameService.java:121-127 | definition, no contract: the search over the whole id range 1..6; its properties are those of LastMatchingBelow, and FameLevelByWorld is proved equal to it |
| FameService.PlayerFameService.OnPlayerLogin | AL-Game/src/com/aionemu/gameserver/services/player/PlayerFameService.java:69-76 | the player's world is kept; after login the player's set is well formed and holds exactly the ids 1..6; loaded records are kept as they are; each new record is fresh, owned by the player, starts as a new record and is written to the database; the whole set equals the login rule applied to the loaded states |
| FameService.PlayerFameService.GainRecord | AL-Game/src/com/aionemu/gameserver/services/player/PlayerFameService.java:83-99 | the record's new state is the gain rule applied to its old state, and the record is written to the database |
| FameService.PlayerFameService.AddFameExp | AL-Game/src/com/aionemu/gameserver/services/player/PlayerFameService.java:80-100 | each record of the player's world gets the gain rule and is written to the database; records of other worlds and their rows are unchanged; the whole set equals the gain applied to the old set |
| FameService.PlayerFameService.DieRecord | AL-Game/src/com/aionemu/gameserver/services/player/PlayerFameService.java:107-116 | the record's new state is the death rule applied to its old state, and the record is written to the database |
| FameService.PlayerFameService.OnPlayerDie | AL-Game/src/com/aionemu/gameserver/services/player/PlayerFameService.java:104-117 | each record of the player's world with non-zero exp gets the death rule and is written to the database; every other record and its row is unchanged; the whole set equals the death applied to the old set |
| FameService.PlayerFameService.FameLevelByWorld | AL-Game/src/com/aionemu/gameserver/services/player/PlayerFameService.java:121-128 | the result is null if and only if no record belongs to the world; otherwise it is the record of the highest id of that world |
| FameService.PlayerFameService.RecoverExpFame | AL-Game/src/com/aionemu/gameserver/services/player/PlayerFameService.java:59-64 | the player's set becomes the recovery rule applied to the old set; other worlds and their rows are unchanged; when a record was found, every record of the world is written to the database |
| FameService.PlayerFameService.OnResetWeekly | AL-Game/src/com/aionemu/gameserver/services/player/PlayerFameService.java:42-55 | each record of the weekly batch gets the decay rule and is written back |

## Left out

- Packets and messages (`SM_PLAYER_FAME`, `SM_SYSTEM_MESSAGE`) are network output and are not modelled. The same goes for logging, `init` and the singleton holder.
- The database is not modelled beyond the row each record writes. The model does not cover `loadPlayerFame`, `weeklyFame`, or what `updatePlayerFame`, `addPlayerFame` and `reduceWeekly` store besides the record's state. The loaded map and the weekly batch are parameters.
- The order of database writes is not modelled, only that each changed record's row holds its final state.
- The contents of the experience table (`FameExp`) and the world of each zone category are not part of the source. They are the configuration constants `expForLevel` and `worldOf`, both total functions. A level missing from the table (such as 0 after decay, or 10 after the exact-threshold level-up) therefore yields some threshold. The service may fail there instead; `FameExp` is not part of this model.
- Iteration over `player.getPlayerFame().values()` is modelled in ascending category id, with the ids 1..6 as keys (`WellFormed`).
- FameService.PlayerFameService.OnResetWeekly: requires the weekly batch to hold distinct record objects, as a batch freshly loaded from the database does. A batch holding one object twice would decay that object twice, and the contract does not cover that case.
- Floating point is modelled as exact decimal arithmetic: `loss * 0.22222222` truncated (`Unrecoverable`) and `Math.round(exp * 0.015)` (`RoundPenalty`). IEEE rounding is not modelled. With the zero multipliers, the death loss is 0, so its unrecoverable part is 0. The weekly penalty, in exact arithmetic, is 0 for exp in -33..0 and non-zero below that; exp can become negative through a negative gain.
- Java's 64-bit `long` and 32-bit `int` are modelled as unbounded integers. Overflow of exp or expLoss, and the narrowing of the death loss to `int`, are not modelled.
- The model assumes that operations on one player's records do not overlap, and that a player's world and record map do not change during an operation. Nothing in the service serialises its calls. Concurrency is not modelled.
