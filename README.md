# Tower assault match engine in Dafny

This project models the match engine of a two-player text game. Each player owns three towers:
- a king tower at position `king`;
- two guard towers at `guard1` and `guard2`.

Each player also owns three troops. Players spend mana to send a troop against an opposing tower.

The engine comes in two variants, and both are modelled:
- the current one (`server/`);
- an earlier one (`Project_claude/server/`).

The modules follow the source files:

| module | file | models |
|---|---|---|
| `Models` | `models.dfy` | The record shapes of `server/models.go`. `Tower`, `Troop` and `PlayerData` are values. `GameState` is a class whose fields the engine updates in place. |
| `GameLogic` | `game_logic.dfy` | The current combat and lifecycle code: the attack, the damage formula, the counter-attack, target resolution and the guard gate. Also the Queen's heal, tower destruction, the mana tick, the timer expiry, the timeout rule, the two endings and the level-up cascade. |
| `EarlyGameLogic` | `early_game_logic.dfy` | The earlier variant of the same. It has no refunds, no counter-attack, a count-only timeout and a guard gate keyed on tower type. Its endings save the players through the player store. |
| `DataManager` | `data_manager.dfy` | Player creation from templates, the log-in and password rule, and the cached player store (load and save). |
| `Session` | `session.dfy` | The current server: command parsing with the turn gate, the command loop of a connection, client numbering, match start, tower reset and client removal. |
| `EarlySession` | `early_session.dfy` | The earlier server: command parsing without a turn gate and with `quit` as a command, its command loop, its match start through the player store, and the join step. |
| `Client` | `client.dfy` | The client's pure command checks `validateCommand`, `formatCommand` and `isAttackCommand`. |
| `Text` | `text.dfy` | The Go library string functions the code relies on: `strings.TrimSpace`, `strings.ToLower`, `strings.Split(s, " ")` and `strconv.Atoi`. |
| `Wrappers` | `wrappers.dfy` | `Option`. |

Modelling choices:
- Every random draw is a parameter:
  - a critical roll is a `real` in [0, 1); the hit is critical when the roll is below the chance;
  - the template indices drawn while creating a player are a sequence `picks`.
- Go's random map iteration order is modelled as a nondeterministic choice (`:|`). The properties are stated so that they hold for every order.
- Each timer firing (a mana tick, the game timer expiring) is one atomic method that re-checks `isGameActive`.
- Stateful operations are methods on `GameState`, `PlayerStore` or `Server`. Each states its new state through a specification function of the old state, for example `g.Snapshot() == TimeoutSpec(old(g.Snapshot()))`. The properties the code promises are proved as lemmas about those functions.

Code that is the same in both variants is modelled once, by the member of the current variant:
- GameLogic.Damage also models Project_claude/server/game_logic.go:266-281;
- GameLogic.HandleQueenSpecial also models Project_claude/server/game_logic.go:166-195;
- GameLogic.CheckLevelUp also models Project_claude/server/game_logic.go:399-426;
- GameLogic.ManaTick also models Project_claude/server/game_logic.go:284-304;
- Session.PlaceClient also models Project_claude/server/server.go:88-104;
- Session.Server.ResetTowersHP also models Project_claude/server/server.go:238-253;
- Session.Server.RemoveClient also models Project_claude/server/server.go:185-198;
- Session.PlaceClientAsWritten also models Project_claude/server/server.go:88-104.

## Model

| member | source | states |
|---|---|---|
| Models.GameState.constructor | server/models.go:43-52 | A match state holds exactly the two players, their mana, the duration, the active flag and the turn it is given. |
| Models.GameState.SetSide | server/game_logic.go:332-363 | Replacing the acting player's record changes that side only. |
| Models.GameState.SetOpponent | server/game_logic.go:181-186 | Replacing the defending player's record changes that side only. |
| Models.GameState.AddMana | server/game_logic.go:156 | Paying or refunding a troop's cost changes only the acting side's mana, by exactly that amount. |
| Text.TrimLeft | server/server.go:125 | The result is a suffix of the input that does not start with white space, and everything cut off is white space. |
| Text.TrimRight | server/server.go:125 | The result is a prefix of the input that does not end with white space, and everything cut off is white space. |
| Text.TrimSpace | server/server.go:125 | The result is no longer than the input, and it neither starts nor ends with white space. |
| Text.TrimSpaceSlice | server/server.go:125 | The trimmed line is the slice of the input that starts right after the leading white space. |
| Text.TrimSpaceCuts | server/server.go:125 | Everything cut off before and after the trimmed line is white space. |
| Text.LetterNotSpace | server/server.go:125 | No ASCII letter counts as white space. |
| Text.TrimSpaceIdempotent | server/server.go:125 | Trimming twice equals trimming once. |
| Text.ToLower | server/server.go:145 | The result has the input's length, and each character is lowered on its own. |
| Text.ToLowerIdempotent | server/server.go:145 | Lowering twice equals lowering once. |
| Text.TrimSpaceLower | client/client.go:208-210 | Trimming and lowering commute. |
| Text.Split | server/server.go:146 | Splitting at single spaces yields at least one part, and no part contains a space. |
| Text.JoinSplit | server/server.go:146 | Joining the parts with single spaces gives back the input. |
| Text.SplitJoin | server/server.go:146 | Splitting the space-joined words gives back the words. |
| Text.SplitLower | server/server.go:145-146 | Lowering before splitting gives the same number of parts, each lowered. |
| Text.Atoi | server/server.go:162 | A parse succeeds only on a non-empty word that starts with a digit or a sign. |
| Text.AtoiSyntax | server/server.go:162 | A word parses exactly when it is an optional sign followed by at least one digit. The value is the digits' decimal value, negated after a minus. |
| Text.LeadingZero | server/server.go:162 | A leading zero does not change the value, so `02` reads as 2. |
| Text.AtoiExamples | server/server.go:162 | `+2` and `02` read as 2. The empty word, a lone `-` and `2a` do not parse. |
| Text.AtoiItoa | server/server.go:162 | Every integer printed in decimal parses back to itself. |
| GameLogic.Damage | server/game_logic.go:212-231 | Damage is never negative. It is 0 or the attack (times 1.2 on a critical roll) minus the defence, whichever is larger. |
| GameLogic.DamageMonotone | server/game_logic.go:212-231 | For a non-negative attack, a critical hit does at least as much damage as a plain one. More defence never increases damage. |
| GameLogic.DamageExample | server/game_logic.go:212-231 | 150 attack against 100 defence does 50, or 80 on a critical roll. 80 attack against 100 defence does 0. |
| GameLogic.TakeDamage | server/game_logic.go:182-186 | Hit points after a hit are the old ones minus the damage, clamped at 0. |
| GameLogic.CounterAttack | server/game_logic.go:280-329 | The counter-attack changes only the troop's hit points. They never rise and never go below 0. A surviving troop loses exactly the clamp-formula damage of the tower's attack against its defence. |
| GameLogic.FindTargetTower | server/game_logic.go:366-393 | A returned position is a standing tower that the target word names: `king`, `guard1`, `guard2`, or `guard` for either standing guard. No result means no standing tower is named. |
| GameLogic.CanAttackTarget | server/game_logic.go:396-413 | A target at position `king` is allowed exactly when no guard tower is standing. Any other target is always allowed. |
| GameLogic.AvailableTargetsAreAttackable | server/game_logic.go:257-277 | A position is an available target exactly when it holds a standing tower named `king`, `guard1` or `guard2` and the guard gate lets it through. |
| GameLogic.GetAvailableTargets | server/game_logic.go:257-277 | The list holds exactly the available targets, each once. |
| GameLogic.Healed | server/game_logic.go:332-363 | A healed tower gains 300 hit points, capped at its maximum. Nothing else about it changes. |
| GameLogic.HealExample | server/game_logic.go:332-363 | A tower at 950 of 1000 is healed to 1000, a gain of 50. |
| GameLogic.HandleQueenSpecial | server/game_logic.go:332-363 | The healed tower is a standing tower of least hit points, and only it changes. Nothing changes when no tower stands. |
| GameLogic.Required | server/game_logic.go:595-625 | The experience needed for the next level is 110 times the level. |
| GameLogic.LeveledUp | server/game_logic.go:595-625 | The cascade ends below the requirement of the reached level. It never lowers the level and keeps the name, password, tower positions and troop count. |
| GameLogic.CheckLevelUp | server/game_logic.go:595-625 | The loop computes exactly the cascade `LeveledUp`. |
| GameLogic.ScaleTowers | server/game_logic.go:604-610 | Every tower is scaled by 1.1 and given the new level. |
| GameLogic.ScaleTroops | server/game_logic.go:612-618 | Every troop is scaled by 1.1 and given the new level, in order. |
| GameLogic.GainLevelStep | server/game_logic.go:599-624 | One pass of the loop body strictly decreases the termination measure and leaves the cascade's outcome unchanged. |
| GameLogic.LeveledUpExpBounds | server/game_logic.go:595-625 | From a valid record, experience ends in [0, 110 × level). |
| GameLogic.LeveledUpKeepsLifetimeExp | server/game_logic.go:595-625 | Levelling up moves experience into levels without losing or creating any. |
| GameLogic.LeveledUpScalesTowers | server/game_logic.go:604-610 | After n levels gained, each tower's hit points, maximum, attack and defence are scaled by 1.1^n, and its level is the new one. |
| GameLogic.LeveledUpScalesTroops | server/game_logic.go:612-618 | After n levels gained, each troop's hit points, maximum, attack and defence are scaled by 1.1^n, and its level is the new one. |
| GameLogic.LeveledUpKeepsValid | server/game_logic.go:595-625 | Levelling up keeps a player record well formed. |
| GameLogic.LeveledUpIdempotent | server/game_logic.go:595-625 | A second level-up check changes nothing. |
| GameLogic.LevelUpExample | server/game_logic.go:595-625 | 250 experience at level 1 ends at level 2 with 140 experience. |
| GameLogic.EndGame | server/game_logic.go:546-573 | Ending with a winner deactivates the match, gives the winner 30 experience, and runs the level-up check on both players. |
| GameLogic.EndGameDraw | server/game_logic.go:576-592 | A draw deactivates the match, gives both players 10 experience and levels both up. |
| GameLogic.EndGameAccounting | server/game_logic.go:546-573 | After a win, the winner's lifetime experience rises by exactly 30 and the loser's does not change. |
| GameLogic.DrawAccounting | server/game_logic.go:576-592 | After a draw, both players' lifetime experience rises by exactly 10. |
| GameLogic.EndGameKeepsValid | server/game_logic.go:546-573 | Ending a match keeps it well formed. |
| GameLogic.HandleTowerDestruction | server/game_logic.go:438-461 | The attacker gains the destroyed tower's experience. A fallen king tower also ends the match with the attacker as winner. |
| GameLogic.DestructionAccounting | server/game_logic.go:438-461 | The attacker's lifetime experience rises by the tower's experience, plus 30 when it was the king. |
| GameLogic.DestructionKeepsValid | server/game_logic.go:438-461 | Destroying a tower keeps the match well formed. |
| GameLogic.TimeoutKingRule | server/game_logic.go:528-533 | If exactly one king stands at timeout, its owner wins. |
| GameLogic.TimeoutCountRule | server/game_logic.go:534-542 | If both kings stand, or neither does, the side with more standing towers wins, and equal counts draw. |
| GameLogic.TimeoutSymmetric | server/game_logic.go:502-543 | Swapping the players swaps the winner and keeps a draw. |
| GameLogic.TimeoutAccounting | server/game_logic.go:502-543 | At timeout, only the winner gains 30 lifetime experience, or both gain 10 on a draw. The match stays well formed. |
| GameLogic.SurveyTowers | server/game_logic.go:503-525 | The count is the number of standing towers, and the king flag says whether the king stands. |
| GameLogic.HandleGameTimeout | server/game_logic.go:502-543 | Timeout ends the match as the king rule, then the count rule, decide. |
| GameLogic.TimerExpired | server/game_logic.go:488-499 | When the timer fires on an active match it resolves the timeout. Otherwise it changes nothing. |
| GameLogic.GetTowerCount | server/game_logic.go:630-638 | The count is the number of towers with positive hit points. |
| GameLogic.IsKingTowerDestroyed | server/game_logic.go:641-646 | A player's king counts as destroyed exactly when a king tower exists and is not among the standing towers. A missing king is not destroyed. |
| GameLogic.KingDestroyedLosesTimeout | server/game_logic.go:641-646 | A destroyed king is not standing, so it loses the timeout against a standing king. A record without a king is not reported as destroyed. |
| GameLogic.ManaTick | server/game_logic.go:464-485 | A tick on an active match raises each side's mana by 1 when it is below 10. The ticker stops on an inactive or absent match. |
| GameLogic.ManaTickKeepsValid | server/game_logic.go:464-485 | A tick keeps mana within [0, 10]. |
| GameLogic.AfterTicksCapped | server/game_logic.go:464-485 | After k ticks, mana is the starting mana plus k, capped at 10. |
| GameLogic.ProcessAttack | server/game_logic.go:105-209 | An attack on an inactive match, with a bad troop index or with too little mana, changes nothing. Otherwise the state changes as `AttackStep` describes. |
| GameLogic.Strike | server/game_logic.go:155-209 | Once the cost is paid: a Queen heals her own side. A missing target or a closed guard gate refunds the cost and touches no tower. Any other attack hits, with the counter-attack on a surviving tower. |
| GameLogic.ApplyHit | server/game_logic.go:181-209 | The tower loses the clamped damage and is destroyed exactly when its hit points reach 0. A destroyed tower is handled as a destruction. A surviving tower strikes back at the troop. |
| GameLogic.AfterHitKeepsValid | server/game_logic.go:181-209 | A hit keeps the match well formed. |
| GameLogic.AttackKeepsValid | server/game_logic.go:105-209 | Every attack outcome keeps a well-formed match well formed, with mana in [0, 10]. |
| GameLogic.AttackMana | server/game_logic.go:156-178 | An attack that neither hit nor healed leaves the whole state as it was, refunds included. One that did costs exactly the troop's mana. |
| GameLogic.KingOnlyAfterGuards | server/game_logic.go:396-413 | A hit on the king happens only when no guard stands. |
| GameLogic.AttackEndsOnlyOnKingKill | server/game_logic.go:193-201 | An attack ends an active match exactly when it destroys a king tower. |
| EarlyGameLogic.CanAttackTarget | Project_claude/server/game_logic.go:227-238 | A target of type "King Tower" is allowed exactly when no guard tower is standing. |
| EarlyGameLogic.KindGateAgrees | Project_claude/server/game_logic.go:227-238 | On well-formed records, the earlier gate keyed on tower type agrees with the current one. |
| EarlyGameLogic.SavedResults | Project_claude/server/game_logic.go:369-371 | Saving after a match stores both players' records and leaves every other name as it was. |
| EarlyGameLogic.EndGame | Project_claude/server/game_logic.go:350-377 | A win deactivates the match, gives the winner 30 experience, and runs the level-up check on both players. Both records are then saved. |
| EarlyGameLogic.EndGameDraw | Project_claude/server/game_logic.go:380-396 | A draw gives both players 10 experience with a level-up check. Both records are then saved. |
| EarlyGameLogic.HandleTowerDestruction | Project_claude/server/game_logic.go:256-263 | Only a fallen king tower ends the match, and no tower experience is awarded. The store changes only when the match ends. |
| EarlyGameLogic.TimeoutCountRule | Project_claude/server/game_logic.go:321-347 | The side with more standing towers wins the timeout, equal counts draw, and swapping the players swaps the winner. |
| EarlyGameLogic.TimeoutRulesAgree | Project_claude/server/game_logic.go:321-347 | Whenever both kings stand, or neither does, the earlier timeout rule picks the current rule's winner. |
| EarlyGameLogic.TimeoutRulesDiffer | Project_claude/server/game_logic.go:321-347 | Side 1 with a fallen king and two standing guards beats a lone standing king under the earlier rule, but loses under the current one. |
| EarlyGameLogic.HandleGameTimeout | Project_claude/server/game_logic.go:321-347 | Timeout ends the match by the count rule and saves both records. |
| EarlyGameLogic.TimerExpired | Project_claude/server/game_logic.go:307-318 | When the timer fires on an active match it resolves the timeout. Otherwise it changes nothing. |
| EarlyGameLogic.TimeoutAccounting | Project_claude/server/game_logic.go:321-396 | Only the winner gains 30 lifetime experience, or both gain 10 on a draw. |
| EarlyGameLogic.ProcessAttack | Project_claude/server/game_logic.go:86-163 | An inactive match, a bad troop index or too little mana change nothing. Otherwise the state changes as the earlier `AttackStep` describes. The store changes only when a king falls. |
| EarlyGameLogic.Strike | Project_claude/server/game_logic.go:128-162 | Once the cost is paid it stays paid. A Queen heals her side. Any other troop hits a standing, allowed target with a 5% critical chance. |
| EarlyGameLogic.ApplyHit | Project_claude/server/game_logic.go:149-162 | The tower loses the clamped damage and is destroyed exactly when its hit points reach 0. There is no counter-attack. |
| EarlyGameLogic.AttackNeverRefunds | Project_claude/server/game_logic.go:128-146 | A bad target or a closed guard gate keeps the cost paid and touches no tower. |
| EarlyGameLogic.RefusedTargetCosts | Project_claude/server/game_logic.go:137-141 | For the same refused target, the earlier engine charges the troop's mana and the current one charges nothing. |
| EarlyGameLogic.AfterHitKeepsValid | Project_claude/server/game_logic.go:149-162 | A hit keeps the match well formed. |
| EarlyGameLogic.AttackKeepsValid | Project_claude/server/game_logic.go:86-163 | Every attack outcome keeps a well-formed match well formed. |
| EarlyGameLogic.KingOnlyAfterGuards | Project_claude/server/game_logic.go:227-238 | A hit on a king-type tower happens only when no guard stands. |
| EarlyGameLogic.AttackEndsOnlyOnKingKill | Project_claude/server/game_logic.go:159-162 | An attack ends an active match exactly when it destroys a king tower. |
| DataManager.LastOfKindIsLast | Project_claude/server/data_manager.go:194-232 | A template of a type is found exactly when one exists, and the one found is followed by no other template of that type. |
| DataManager.TowersFromShape | Project_claude/server/data_manager.go:194-232 | A king template yields the one tower at `king`. A guard template yields `guard1` and `guard2`. Other types yield nothing. Every tower starts at full hit points and level 1, with its position equal to its key and its stats copied. |
| DataManager.BuildTowers | Project_claude/server/data_manager.go:194-232 | The loop builds exactly that tower map. |
| DataManager.ChooseProperties | Project_claude/server/data_manager.go:235-255 | The chosen template indices are distinct and in draw order. Each is drawn and was new when drawn. |
| DataManager.PickTroops | Project_claude/server/data_manager.go:235-255 | The loop takes exactly three distinct drawn indices and makes one fresh troop from each, in order. |
| DataManager.CreateNewPlayer | Project_claude/server/data_manager.go:177-258 | No templates gives no player. Otherwise the player has the given name and password, experience 0 and level 1, the template towers, and three troops from distinct templates. |
| DataManager.NewPlayerShape | Project_claude/server/data_manager.go:184-255 | A created player has the given name and password, level 1, experience 0 and three troops, each at full hit points and level 1. |
| DataManager.NewPlayerValid | Project_claude/server/data_manager.go:177-258 | Sane templates give a well-formed player. |
| DataManager.DefaultTemplatesSane | Project_claude/server/data_manager.go:74-103 | The default templates are sane. |
| DataManager.InitialFiles | Project_claude/server/data_manager.go:44-71 | An existing player file is kept. A missing one is written with the two test accounts. Missing templates become the defaults. |
| DataManager.FreshInstallLoginFails | Project_claude/server/data_manager.go:44-71 | On a fresh installation both test accounts are stored as null records, so logging in with either reads a null record. |
| DataManager.FailedCreationPoisonsName | Project_claude/server/data_manager.go:156-174 | A name whose creation failed is stored as null, and every later log-in with that name reads the null. |
| DataManager.AuthenticateAsWritten | Project_claude/server/data_manager.go:156-174 | As written, an unknown name is stored with whatever creation returned, a failed creation included. A stored null record is dereferenced exactly when the name holds one. A stored player logs in only with its own password. |
| DataManager.Authenticate | Project_claude/server/data_manager.go:156-174 | The corrected log-in never stores a null record. A returned player is the one stored under the name. |
| DataManager.AuthenticateRefinesAsWritten | Project_claude/server/data_manager.go:156-174 | Wherever the written log-in does not read a null, the corrected one returns the same player and stores the same file. |
| DataManager.AuthenticatePasswordRule | Project_claude/server/data_manager.go:158-173 | A stored player is returned exactly to its password, and no log-in attempt changes the store. |
| DataManager.LoadTwice | Project_claude/server/data_manager.go:261-277 | A second load returns what the first did and changes the cache no further. |
| DataManager.LoadAfterSave | Project_claude/server/data_manager.go:261-289 | A saved player is what a load of that name returns. Loads of other names are unaffected. |
| DataManager.PlayerStore.constructor | Project_claude/server/server.go:27-33 | The store starts with an empty cache over the stored records. |
| DataManager.PlayerStore.AuthenticatePlayer | Project_claude/server/data_manager.go:156-174 | The log-in follows the corrected rule over the stored records and leaves the cache alone. |
| DataManager.PlayerStore.LoadPlayerData | Project_claude/server/data_manager.go:261-277 | The cache is tried first, then the stored records, whose entry is cached. Absence gives nothing. |
| DataManager.PlayerStore.SavePlayerData | Project_claude/server/data_manager.go:280-289 | The name maps to the player in both the cache and the store, and every other entry stays as it was. |
| Session.ProcessCommand | server/server.go:144-177 | An attack command carries an index in 0..2 and a lowered target without spaces. |
| Session.ProcessCommandIgnoresCase | server/server.go:145-148 | The command word is matched regardless of case. |
| Session.TurnGatesOnlyAttacks | server/server.go:155-159 | An attack from a player without the turn is refused before its words are parsed. Every other command ignores the turn. |
| Session.AttackLineRoundTrip | server/server.go:161-166 | The line `attack <i+1> <target>` is read back as the attack with index i and that target. |
| Session.AttackShape | server/server.go:161-172 | An attack line dispatches exactly when it has three words and the index word parses to 1..3. Otherwise it is a usage or index error. A dispatched attack runs troop index (parsed number − 1) against the lowered target, for every spelling `Atoi` accepts, `02` and `+2` included. |
| Session.CommandLoop | server/server.go:124-137 | Blank lines are skipped, and `quit` in any case ends the loop. Every other line is processed in order. |
| Session.QuitEndsSession | server/server.go:131-134 | Nothing after the first quit line is processed. |
| Session.PlaceClientAsWritten | server/server.go:100-119 | As written, the joining client is always entered in the map, even when it is refused. It is refused exactly when the map then holds more than two clients. |
| Session.PlaceClient | server/server.go:100-119 | The first client waits, the second starts the match, and a third is turned away without entering the client map. |
| Session.PlaceClientAgreesWithWritten | server/server.go:100-119 | The corrected placement gives every client the result the written code gives, and the same map unless the client is refused. |
| Session.PlacementNumbering | server/server.go:100-119 | With at most two clients present, an empty map gives player 1, one client gives player 2, and two clients mean refusal. |
| Session.RefusedClientLingers | server/server.go:100-119 | As written, a refused third client stays in the map. A departed player then cannot rejoin, and a newcomer is matched with the refused client. |
| Session.FullTowers | server/server.go:264-270 | The same positions, each tower at its maximum hit points and otherwise unchanged. |
| Session.FullHp | server/server.go:256-271 | Every tower's hit points become its maximum, and nothing else changes. |
| Session.FullHpIdempotent | server/server.go:256-271 | Restoring twice equals restoring once. |
| Session.NewMatchValid | server/server.go:218-240 | A new match from well-formed players is well formed and active. Every tower with a positive maximum stands. |
| Session.RestoreTowers | server/server.go:264-270 | The loop restores exactly every tower. |
| Session.ListNames | server/server.go:219-224 | The usernames list holds every client exactly once. |
| Session.Server.constructor | server/server.go:27-33 | A server starts with no clients and no match. |
| Session.Server.HandleJoin | server/server.go:100-119 | Joining places the client as the corrected numbering says, and no match state changes. |
| Session.Server.ResetTowersHP | server/server.go:256-271 | Both players' towers are restored to full hit points, and nothing else changes. |
| Session.Server.StartNewGame | server/server.go:218-253 | Without exactly two clients nothing happens. With two, the match starts active with mana 5 and 5, duration 180, turn 1 and all towers at full hit points. |
| Session.Server.RemoveClient | server/server.go:202-215 | The client leaves the map. An active match is deactivated with no experience awarded, and an inactive one is untouched. |
| EarlySession.ProcessCommand | Project_claude/server/server.go:124-157 | An attack carries an index in 0..2 and a lowered target. The command is `quit` exactly when the first lowered word is `quit`. No turn is checked. |
| EarlySession.ProcessCommandMatchesCurrent | Project_claude/server/server.go:124-157 | For the player holding the turn, the earlier parser reads every line as the current one does, except that `quit` is a command here. |
| EarlySession.ProcessCommandIgnoresCase | Project_claude/server/server.go:125-128 | The command word is matched regardless of case. |
| EarlySession.AttackLineAccepted | Project_claude/server/server.go:135-141 | The line `attack <i+1> <target>` is read as the attack with index i and that target. |
| EarlySession.ExecuteCommand | Project_claude/server/server.go:124-157 | Only an attack changes the match or the store, through `processAttack`. An attack that destroys a King Tower saves both results to the cache and the storage. Any other attack leaves the store as it was. Every other command, `quit` included, changes nothing. |
| EarlySession.SessionCommands | Project_claude/server/server.go:110-117 | Every non-blank line yields one command, and blank lines are skipped. |
| EarlySession.CommandLoop | Project_claude/server/server.go:110-117 | The loop processes exactly the non-blank lines, in order, and never stops early. |
| EarlySession.SessionCommandsAppend | Project_claude/server/server.go:110-117 | The commands of two runs of lines are the commands of each run, concatenated. |
| EarlySession.QuitKeepsSessionOpen | Project_claude/server/server.go:150-152 | A quit line is read as `Quit`, and every later line is still processed. |
| EarlySession.CurrentStopsAtQuit | server/server.go:131-134 | The current loop processes nothing after a leading quit line. |
| EarlySession.QuitLine | Project_claude/server/server.go:150-152 | Every line the current loop treats as quit is read as `Quit` by the earlier parser. |
| EarlySession.LoggedInPlayersLoad | Project_claude/server/server.go:211-221 | When the store holds no null records and both names are stored, both loads succeed and the cache gains no null record. |
| EarlySession.StartNewGame | Project_claude/server/server.go:201-235 | Without two clients nothing happens. With two, both records are loaded through the cache. A missing record is reported as `NilRecord`. Otherwise the match starts active with mana 5 and 5, duration 180, turn 1 and full towers. |
| EarlySession.HandleJoin | Project_claude/server/server.go:88-104 | A joining client is placed as the corrected numbering says. For the second one, the two names are loaded through the cache in map order. The match starts exactly when both records load, and it is then the new match of those two records. |
| Client.ValidateCommand | client/client.go:190-205 | Only a line with a non-blank word can be accepted. |
| Client.ValidatedWordsReachServer | client/client.go:190-205 | For words other than `quit` and `exit`, the client accepts exactly the lines the current server recognises. |
| Client.FormatCommand | client/client.go:208-210 | The result is the trimmed, lowered line. It is already lowered and trimmed. |
| Client.FormatCommandIdempotent | client/client.go:208-210 | Formatting twice equals formatting once. |
| Client.FormatCommandKeepsMeaning | client/client.go:208-210 | The server reads a formatted line exactly as it reads the trimmed line. |
| Client.IsAttackCommand | client/client.go:213-240 | An accepted attack line carries no error. |
| Client.AttackCheckOrder | client/client.go:213-240 | Non-attack lines give no error. An index error comes exactly from a bad troop word, whatever the target. A target error comes only after a good troop word. Acceptance means a good troop word and a known target. |
| Client.AcceptedAttackIsRun | client/client.go:213-240 | An accepted line has three words and a one-character troop word, and it is run by the current server, for the player holding the turn, as the attack with troop number minus one and the lowered target. |

## Left out

- Network I/O and all message text are left out: `conn.Write`, prompts, `displayGameState`, `displayWinConditions`, `sendHelp`, `sendAttackResults` and the broadcasts. Outcomes are returned as values (`Outcome`, `Command`, `JoinResult`) instead.
- `handleContinuousAttack` only writes a prompt, so it is left out.
- Goroutines, tickers, `time.Sleep`, wall-clock time and the mutexes are left out. Each tick and each timer expiry is one atomic step, and the remaining-time display is not modelled. The earlier server calls `startNewGame` while holding the client lock (Project_claude/server/server.go:88). `startNewGame` then calls `broadcastToAll`, which takes the same lock for reading (:257). Go's read-write mutex is not re-entrant, so in the program the second join blocks there, and the mana ticker and the game timer (:233-234) never start. EarlySession.HandleJoin models the start as the code intends it, not this deadlock. Both servers' `removeClient` has the same hazard: it holds the client lock (server/server.go:203, Project_claude/server/server.go:186) and, during an active match, calls `broadcastToAll` (server/server.go:212, Project_claude/server/server.go:195), which takes the lock again for reading (server/server.go:275, Project_claude/server/server.go:257). A disconnect during an active match therefore blocks the server for good. Session.Server.RemoveClient models the deactivation that runs before that block.
- JSON and file persistence are left out: `loadPlayerStorage`, `savePlayerStorage`, `loadGameTemplates` and writing the default files. The stored players are a map, and the templates are a value, or `None` when missing.
- `math/rand` is left out. The critical rolls and the template draws are parameters.
- Floating point is left out. Hit points, attack, defence and experience are exact `real` values, so the 1.1 and 1.2 factors carry no rounding.
- Mana is modelled as an integer. It starts at 5 and changes only by whole troop costs and ticks of 1.
- Go pointers and aliasing are left out. A `*Tower` or `*PlayerData` updated in place is modelled as a new value written back into the match.
- Turn switching and the bonus turn are left out. `isPlayerTurn`, `processAttackWithTurns` and `notifyNotYourTurn` are not part of this model. Session.ProcessCommand takes whether the player holds the turn as a parameter.
- The current server's `loadPlayerData` is not part of this model. Session.Server.StartNewGame takes the loaded records as a parameter.
- GameLogic.EndGame: does not model the two `savePlayerData` calls, because the current server's data manager is not part of this model. The same holds for GameLogic.EndGameDraw. The earlier variant's saves are modelled in EarlyGameLogic.EndGame.
- Entry points are left out: `server/main.go`, the client's `main`, `Connect`, `Start`, `listenForMessages`, `handleUserInput` and `Disconnect` are I/O loops.
- DataManager.CreateNewPlayer requires the draws to contain three distinct in-range indices. The Go loop draws until it has three, and never ends with fewer than three templates.
- Text.ToLower lowers only A to Z. Go's `strings.ToLower` also folds non-ASCII letters. Text.Atoi does not model the 64-bit range limit of `strconv.Atoi`.
- The earlier `startNewGame` dereferences a missing player record and crashes. EarlySession.StartNewGame returns `NilRecord` instead.
- The message wire types of `server/models.go` are not used by the modelled code and are left out.
- Client.ValidateCommand: its contract states only that accepted lines are non-blank. The word-for-word rule is stated by Client.ValidatedWordsReachServer against the server's parser.

## Findings

| source | as written | input that shows it | evidently intended | confidence | as-written member | corrected member |
|---|---|---|---|---|---|---|
| Project_claude/server/data_manager.go:156-174 | An unknown name is stored even when `createNewPlayer` returned nil for missing templates. A later log-in with that name reads the nil record's password. On a fresh installation, `initializeDefaultData` writes both test accounts before the templates file exists, so both are stored as nil. | A fresh installation, then a log-in as `player1` / `password1`. | Store a player only when creation succeeded; a name with no usable record is created again. | not executed | DataManager.FreshInstallLoginFails | DataManager.Authenticate |
| server/server.go:100-119 | A client is entered in `clients` before the count is checked. A refused third client is never removed, although its session ends. The earlier server has the same defect (Project_claude/server/server.go:89 enters the client, and :101-104 refuse it without removing it). | "a" and "b" play a match to its end, "c" joins and is refused, and "a" leaves. Then either "a" rejoins and is refused, or instead "b" leaves and a newcomer is paired with the departed "c". | Refuse a third client without entering it. | not executed | Session.RefusedClientLingers | Session.PlaceClient |
| Project_claude/server/server.go:109-117 | The command loop sends `quit` to `processCommand`, whose `return` ends only that call, so the session continues. | The lines "quit" then "status": both are processed. | `quit` ends the session, as in the current server. | not executed | EarlySession.QuitKeepsSessionOpen | Session.QuitEndsSession |
