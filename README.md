# Gacha app core in Dafny

This project models the behaviour of the "gacha" web app: a western-themed collectible card
game. Players summon cards with coins, buy coins in the shop, arrange three cards in a
loadout and fight a turn-based battle against a fixed enemy team. The model covers these
parts:

- **Battle engine** (`battle_rules.dfy`, `battle_steps.dfy`, `battle.dfy`).
  - Pure functions hold the unit rules: clamping, targeting, class abilities, damage, the
    enemy sweep and the 16-line log window.
  - The battle page's selection of three cards from the loadout string is a pure function.
  - `BattleSteps` is a state machine over snapshots, with an invariant preserved by every step.
  - `Battle.BattleState` is a class with the client's state as fields. Its methods are proved
    to follow the state machine exactly.
- **Card catalogue views** (`catalogue.dfy`): the sort by rarity rank, then name; the
  unlocked/owned filters; the inventory projection; and the card-flip toggle as a class.
- **Loadout editor** (`loadout.dfy`): the three-slot editor as a class. Picking a card never
  places one id in two slots, and starting a battle passes the ids in slot order.
- **Sign-up form and chat composer** (`signup.dfy`, `chat.dfy`): classes whose methods
  update the form or the message list.
- **User store** (`store.dfy`): an abstract DynamoDB-like table of items in scan order, with
  the conditional update rules the server code relies on. `Store.UsersTable` is the mutable
  table that the service methods update.
- **Coin economy** (`records.dfy`, `summon.dfy`, `shop.dfy`, `shop_packs.dfy`):
  - record choice after a scan;
  - key candidates and key conditions;
  - the single summon with its fallback ladder;
  - the coin credit with its candidate loop;
  - the allowed purchase amounts.
- **Bootstrap and profile** (`bootstrap.dfy`, `profile.dfy`): insert-if-absent of a user's
  profile item, the profile lookup, and the top-navigation normalisation.
- **API routes** (`routes.dfy`): the `POST` handlers of the summon and purchase routes, and
  their error-to-status tables.
- `common.dfy` holds shared datatypes and the JavaScript string helpers the code uses:
  `split`, `join`, `trim`, case mapping and number-to-string.

How the model stands in for the outside world:

- Every `Math.random()` value is a parameter `Draw(num, den)` with `0 <= num < den`. It
  stands for the number `num/den`.
- Timestamps and generated ids are string parameters.
- Whether the database region and table name are configured is a `configured` flag.
- The session is an `Option` of the signed-in user.

## Model

| member | source | states |
|---|---|---|
| BattleRules.RandomInt | gacha-app/src/components/battle/battle-page-client.tsx:109-111 | the drawn integer lies between min and max inclusive |
| BattleRules.RandomIntCovers | gacha-app/src/components/battle/battle-page-client.tsx:109-111 | every integer between min and max is drawn by some random value, so the range is exactly [min, max] |
| BattleRules.RoundTenths | gacha-app/src/components/battle/battle-page-client.tsx:347-349 | `Math.round(d * k/10)` for d >= 0: the result r satisfies 10r <= k*d + 5 < 10r + 10, so halves round up |
| BattleRules.ClampHp | gacha-app/src/components/battle/battle-page-client.tsx:105-107 | only hp changes; it ends within [0, maxHp]; it is kept when already in range, set to 0 below and to maxHp above |
| BattleRules.AliveIndexes | gacha-app/src/components/battle/battle-page-client.tsx:113-115 | exactly the indexes of the living units, and empty iff every unit is at 0 hp |
| BattleRules.FindLiving | gacha-app/src/components/battle/battle-page-client.tsx:330-336 | the first unit with that id that is alive, or none iff no such unit exists |
| BattleRules.FindById | gacha-app/src/components/battle/battle-page-client.tsx:301 | the first unit with that id, or none iff no unit carries it |
| BattleRules.LowestHpAlive | gacha-app/src/components/battle/battle-page-client.tsx:266-273 | the living unit with the least hp, the first one on a tie; none iff no unit is alive |
| BattleRules.BuildPlayerUnits | gacha-app/src/components/battle/battle-page-client.tsx:117-132 | at most three units player-1..n, one per card in order, with hp = maxHp = card hp, no bonus, not vulnerable, not acted |
| BattleRules.EnemyTemplate | gacha-app/src/components/battle/battle-page-client.tsx:43-86 | three enemies enemy-1..3, alive at full hp within their bounds, none having acted |
| BattleRules.Window | gacha-app/src/components/battle/battle-page-client.tsx:235-238 | the last min(n, 16) lines of the log, in order |
| BattleRules.WindowAppend | gacha-app/src/components/battle/battle-page-client.tsx:235-238 | trimming after every append equals trimming the whole history once: the log always shows the last 16 lines ever written |
| BattleRules.AppendLogsTwice | gacha-app/src/components/battle/battle-page-client.tsx:235-238 | appending two batches in turn equals appending their concatenation |
| BattleRules.BaseDamage | gacha-app/src/components/battle/battle-page-client.tsx:342-349 | max(20, attack + bonus + jitter in [-8, 12]), times 1.2 rounded only when the target was vulnerable; never below 20 |
| BattleRules.AttackDamageFloor | gacha-app/src/components/battle/battle-page-client.tsx:299-321 | the damage dealt is at least 16 (a Tank's 0.8 of 20), at least 20 for any other class, and at least 24 against a vulnerable target |
| BattleRules.AttackEffects | gacha-app/src/components/battle/battle-page-client.tsx:359-368 | target hp becomes max(0, hp - damage); a Debuffer leaves vulnerability max(v,2)-1, any other class max(0, v-1); only the attacker's acted flag changes, to true; the other enemies are unchanged |
| BattleRules.HealBoosts | gacha-app/src/components/battle/battle-page-client.tsx:266-281 | the Healer's heal only raises the hp of a living unit and keeps it within maxHp |
| BattleRules.BuffAllBoosts | gacha-app/src/components/battle/battle-page-client.tsx:283-288 | the Support buff only raises the bonus attack of living units, capped at 30, and keeps every bound |
| BattleRules.AbilityHealAmounts | gacha-app/src/components/battle/battle-page-client.tsx:266-309 | the Healer's heal sets the weakest living ally's hp to min(maxHp, hp + 55), the Tank's brace its own to min(maxHp, hp + 28), and no other unit changes |
| BattleRules.AbilityBuffAmount | gacha-app/src/components/battle/battle-page-client.tsx:283-289 | the Support buff sets each living ally's bonus attack to min(bonus + 10, 30) and leaves defeated allies as they were |
| BattleRules.AbilityPlayersUnchanged | gacha-app/src/components/battle/battle-page-client.tsx:264-310 | a Healer with no living ally, a Tank missing from the roster, and every other class leave the player side unchanged |
| BattleRules.AbilityPlayersEffect | gacha-app/src/components/battle/battle-page-client.tsx:264-310 | whatever the class, the ability touches only living player units and only raises their hp or bonus, within bounds |
| BattleRules.AttackKeepsUnitsOk | gacha-app/src/components/battle/battle-page-client.tsx:327-368 | an accepted attack keeps both rosters and all unit bounds, loses no player hp, leaves defeated units alone and never raises an enemy's hp |
| BattleRules.EnemyDamage | gacha-app/src/components/battle/battle-page-client.tsx:418 | an enemy hit is max(16, attack + jitter in [-6, 10]), so at least 16 |
| BattleRules.EnemyTarget | gacha-app/src/components/battle/battle-page-client.tsx:409-417 | the enemy's target is a living player unit |
| BattleRules.StrikeEffects | gacha-app/src/components/battle/battle-page-client.tsx:416-428 | one enemy hit lowers only the hp of one living player, within bounds |
| BattleRules.SweepEffects | gacha-app/src/components/battle/battle-page-client.tsx:405-433 | the sweep only lowers hp, only of living players, keeps bounds and writes at most one line per enemy |
| BattleRules.SweepAllStrike | gacha-app/src/components/battle/battle-page-client.tsx:405-433 | when a player survives the sweep, every living enemy struck: one line per living enemy |
| BattleRules.RecoverEffects | gacha-app/src/components/battle/battle-page-client.tsx:447-451 | the recovery keeps the roster and the unit bounds, and when some unit is alive it leaves a living unit ready to act |
| BattleRules.FindCard | gacha-app/src/components/battle/battle-page-client.tsx:170-173 | the found card is available and carries the id; none iff no available card does |
| BattleRules.FromQuery | gacha-app/src/components/battle/battle-page-client.tsx:166-173 | the cards looked up from the loadout string are all available cards |
| BattleRules.GatherProps | gacha-app/src/components/battle/battle-page-client.tsx:175-193 | gathering keeps what was taken, takes at most three cards with distinct ids from the input, and stops short only when every input id is taken |
| BattleRules.RequestedCardsProps | gacha-app/src/components/battle/battle-page-client.tsx:166-184 | the requested part has at most three available cards with distinct ids |
| BattleRules.SelectionProps | gacha-app/src/components/battle/battle-page-client.tsx:165-195 | the selection opens with the requested cards, has at most three distinct available cards, and is short only when it holds every available id |
| BattleRules.CanBattleIff | gacha-app/src/components/battle/battle-page-client.tsx:233 | three cards are selected iff the available cards carry at least three distinct ids |
| BattleRules.RequestedIdsOfJoin | gacha-app/src/components/battle/battle-page-client.tsx:166-169 | splitting, trimming and dropping empties undoes the comma join of trimmed non-empty ids |
| BattleRules.SelectionOfFound | gacha-app/src/components/battle/battle-page-client.tsx:165-193 | three distinct requested ids that are all available select exactly their cards, in request order |
| BattleRules.SelectionOfLoadout | gacha-app/src/components/home/home-loadout-client.tsx:55-65 | given the loadout string the home page writes, the battle page's selection picks exactly its three cards, in slot order |
| BattleRules.FirstAbilities | gacha-app/src/app/battle/page.tsx:68-71 | the first min(2, n) abilities, in order, reduced to name and description |
| BattleRules.AvailableCards | gacha-app/src/app/battle/page.tsx:57-72 | one battle card per unlocked or owned catalogue card, in catalogue order |
| BattleRules.AvailableCardsProps | gacha-app/src/app/battle/page.tsx:57-72 | every available card comes from an unlocked or owned definition, has attack >= 20 and hp >= 120, and carries at most two abilities |
| BattleSteps.StartStatesInv | gacha-app/src/components/battle/battle-page-client.tsx:470-483 | the initial and the reset state satisfy the battle invariant and hold exactly two log lines |
| BattleSteps.AttackChangesIff | gacha-app/src/components/battle/battle-page-client.tsx:327-340 | an attack changes the state iff the phase is the player's, there is no winner, three cards are selected, the attacker is a living player that has not acted and the target a living enemy |
| BattleSteps.AttackAccepted | gacha-app/src/components/battle/battle-page-client.tsx:359-391 | an accepted attack marks only its attacker as acted, costs the target 16 hp or its life, leaves the other enemies and the turn alone, finishes with a player win iff all enemies are down, and passes to the enemy iff every living player has acted |
| BattleSteps.ResolveKeepsRosters | gacha-app/src/components/battle/battle-page-client.tsx:342-378 | resolving an attack keeps both rosters and unit bounds, leaves the attacker alive and writes a log line |
| BattleSteps.AttackStepInv | gacha-app/src/components/battle/battle-page-client.tsx:327-392 | every attack preserves the battle invariant (rosters, bounds, the phase/winner agreement, the log bound) |
| BattleSteps.EnemyTurnInv | gacha-app/src/components/battle/battle-page-client.tsx:400-460 | every enemy turn preserves the battle invariant |
| BattleSteps.AfterSweepInv | gacha-app/src/components/battle/battle-page-client.tsx:435-458 | ending the enemy turn after a sweep that only lowered hp preserves the battle invariant |
| BattleSteps.EnemyTurnEffects | gacha-app/src/components/battle/battle-page-client.tsx:400-458 | enemies unchanged, player hp only lowered, defeated players untouched; an enemy win iff all players are down; otherwise the next turn starts in the player phase with living units ready and bonus attack reduced by 5 |
| BattleSteps.FinishedIsFinal | gacha-app/src/components/battle/battle-page-client.tsx:328 | once there is a winner neither an attack nor an enemy turn changes anything |
| BattleSteps.Progress | gacha-app/src/components/battle/battle-page-client.tsx:380-458 | the battle never stalls: in the player phase some attack is accepted, and an enemy turn always leaves the enemy phase |
| Battle.TakeUnseen | gacha-app/src/components/battle/battle-page-client.tsx:175-193 | the loop takes exactly the gathered cards and its seen set is exactly their ids |
| Battle.StrikeEnemy | gacha-app/src/components/battle/battle-page-client.tsx:342-368 | the attack's computation yields exactly the specified attack result |
| Battle.StrikePlayer | gacha-app/src/components/battle/battle-page-client.tsx:409-431 | one enemy's hit yields exactly the specified strike and its log line |
| Battle.SelectCards | gacha-app/src/components/battle/battle-page-client.tsx:165-195 | the memo's two loops compute exactly the specified selection |
| Battle.ApplyPlayerAbility | gacha-app/src/components/battle/battle-page-client.tsx:252-325 | each of the five outputs equals the class-ability rule for the attacker |
| Battle.BattleState.constructor | gacha-app/src/components/battle/battle-page-client.tsx:197-211 | the battle starts from the selection of the loadout string, in the initial state, satisfying the invariant |
| Battle.BattleState.AppendLogs | gacha-app/src/components/battle/battle-page-client.tsx:235-238 | the log becomes the 16-line window of old log plus lines; nothing else changes |
| Battle.BattleState.ResolvePlayerAttack | gacha-app/src/components/battle/battle-page-client.tsx:327-392 | the new state is the attack step of the old state, and the invariant is kept |
| Battle.BattleState.PerformAttack | gacha-app/src/components/battle/battle-page-client.tsx:327-392 | the new state is the attack step of the old state |
| Battle.BattleState.RunEnemyTurn | gacha-app/src/components/battle/battle-page-client.tsx:394-460 | the new state is the enemy turn of the old state, and the invariant is kept |
| Battle.BattleState.SweepEnemies | gacha-app/src/components/battle/battle-page-client.tsx:405-433 | the loop's players and round log are exactly the specified sweep; enemies, phase, winner and turn are unchanged |
| Battle.BattleState.PerformEnemyTurn | gacha-app/src/components/battle/battle-page-client.tsx:400-460 | the new state is the enemy turn of the old state |
| Battle.BattleState.HandleResetBattle | gacha-app/src/components/battle/battle-page-client.tsx:470-483 | the new state is the reset state of the same selection, and the invariant is kept |
| Catalogue.RarityRank | gacha-app/src/app/home/page.tsx:16-20 | rank 0 iff "Ultra Rare", 1 iff "Rare", 2 iff "Common", 99 for anything else |
| Catalogue.CardLeqTotal | gacha-app/src/app/home/page.tsx:28-32 | the rank-then-name comparison orders any two cards |
| Catalogue.CardLeqTrans | gacha-app/src/app/home/page.tsx:28-32 | the rank-then-name comparison is transitive |
| Catalogue.SortCardsCorrect | gacha-app/src/components/cards-page-client.tsx:39-49 | the sort is ordered by rank then name and is a permutation of its input |
| Catalogue.FilterUnlockedOrOwnedCount | gacha-app/src/components/cards-page-client.tsx:50-52 | each card keeps its multiplicity if unlocked or owned, and is dropped otherwise |
| Catalogue.FilterUnlockedCount | gacha-app/src/app/cards/page.tsx:32 | each card keeps its multiplicity if unlocked, and is dropped otherwise; ownership plays no part |
| Catalogue.FilterUnlockedOrOwnedSorted | gacha-app/src/components/cards-page-client.tsx:50-52 | filtering a sorted list keeps it sorted and takes only its own cards |
| Catalogue.FilterUnlockedSorted | gacha-app/src/app/cards/page.tsx:27-32 | the unlocked-only filter keeps a sorted list sorted |
| Catalogue.InventoryCardsCorrect | gacha-app/src/app/home/page.tsx:26-39 | the inventory is the sorted unlocked-or-owned cards, projected; ranks never decrease along it; every entry comes from an unlocked or owned card |
| Catalogue.VisibleOwnedCardsCorrect | gacha-app/src/components/cards-page-client.tsx:39-52 | the visible cards are sorted, have exactly the unlocked-or-owned multiplicities, and are all unlocked or owned |
| Catalogue.VisibleUnlockedCardsCorrect | gacha-app/src/app/cards/page.tsx:21-32 | the visible cards are sorted and are exactly the unlocked cards |
| Catalogue.FlipState.constructor | gacha-app/src/components/cards-page-client.tsx:35 | no card starts flipped |
| Catalogue.FlipState.ToggleFlip | gacha-app/src/app/cards/page.tsx:54-57 | a click on the flipped card unflips it; a click on another card flips that one only |
| Catalogue.FlipState.HandleCardFlip | gacha-app/src/components/cards-page-client.tsx:68-74 | the same toggle, and a voice line plays iff the card turns to its history side and has a non-empty path |
| Loadout.FilledIdsFull | gacha-app/src/components/home/home-loadout-client.tsx:55-57 | the filled ids number three iff every slot is filled |
| Loadout.FilledIdsOfFull | gacha-app/src/components/home/home-loadout-client.tsx:55-60 | with every slot filled, the ids are the slots' card ids in slot order |
| Loadout.PickKeepsDistinct | gacha-app/src/components/home/home-loadout-client.tsx:196-199 | placing a card that is not disabled keeps all slot ids distinct |
| Loadout.LoadoutEditor.constructor | gacha-app/src/components/home/home-loadout-client.tsx:23-29 | three empty slots, no open picker, no message |
| Loadout.LoadoutEditor.OpenPicker | gacha-app/src/components/home/home-loadout-client.tsx:88-92 | the picker opens on that slot; slots and message are unchanged |
| Loadout.LoadoutEditor.ClosePicker | gacha-app/src/components/home/home-loadout-client.tsx:182 | the picker closes; slots and message are unchanged |
| Loadout.LoadoutEditor.SelectCardForSlot | gacha-app/src/components/home/home-loadout-client.tsx:36-44 | with no open slot nothing changes; otherwise only the active slot takes the card and the picker closes |
| Loadout.LoadoutEditor.ClickPickerEntry | gacha-app/src/components/home/home-loadout-client.tsx:196-206 | a disabled entry changes nothing; an enabled one selects the card; distinct slot ids stay distinct |
| Loadout.LoadoutEditor.ClearSlot | gacha-app/src/components/home/home-loadout-client.tsx:46-52 | that slot empties and every other slot is unchanged |
| Loadout.LoadoutEditor.StartBattle | gacha-app/src/components/home/home-loadout-client.tsx:54-66 | short of three cards: the message is set and there is no navigation; with three: the message clears and the battle opens with the ids joined by commas in slot order |
| SignUp.WithField | gacha-app/src/app/signup/page.tsx:17-19 | the named field takes the value and every other field keeps its own |
| SignUp.SignUpForm.constructor | gacha-app/src/app/signup/page.tsx:7-15 | empty fields, no error, no success |
| SignUp.SignUpForm.HandleChange | gacha-app/src/app/signup/page.tsx:17-19 | only the named field changes |
| SignUp.SignUpForm.HandleSubmit | gacha-app/src/app/signup/page.tsx:21-38 | success iff the passwords match and have at least 6 characters; a mismatch reports the mismatch first, else a short password the length error |
| SignUp.SignUpForm.Submit | gacha-app/src/app/signup/page.tsx:65-99 | the browser blocks the submit, leaving error and success as they were, unless all four required fields are non-empty and the email is well formed; a submit it lets through succeeds iff the passwords match and have at least 6 characters, reporting the mismatch first, else the length error |
| SignUp.ValidEmailShape | gacha-app/src/app/signup/page.tsx:76-82 | an email the form accepts has exactly one "@", with something on both sides of it |
| Chat.SentTextTrimmed | gacha-app/src/components/chat-page-client.tsx:38-47 | a sendable input trims to non-empty text with no whitespace at either end, and trimming again changes nothing |
| Chat.ChatComposer.constructor | gacha-app/src/components/chat-page-client.tsx:23-30 | exactly the three seed messages, an empty input and the first channel |
| Chat.ChatComposer.SetInput | gacha-app/src/components/chat-page-client.tsx:95 | only the input changes |
| Chat.ChatComposer.SetChannel | gacha-app/src/components/chat-page-client.tsx:71 | only the channel changes |
| Chat.ChatComposer.SendMessage | gacha-app/src/components/chat-page-client.tsx:40-49 | a blank input changes nothing; otherwise exactly one "me" message with the trimmed text is appended, earlier messages are kept and the input clears; app/chat/page.tsx:37-46 is the same |
| Chat.ChatComposer.OnKeyDown | gacha-app/src/app/chat/page.tsx:48-50 | Enter sends as above; any other key changes nothing |
| Store.AddMember | gacha-app/src/lib/summon.ts:236-238 | the string set after `ADD` is the old set plus the drawn id |
| Store.SetSummonUpdate | gacha-app/src/lib/summon.ts:216-250 | succeeds iff the key fits and names an item whose stored coins are at least the cost and whose owned ids are a set; then it subtracts exactly the cost, adds the id and stamps the time on that item alone; a failed condition iff the item is missing or short of coins; a failure changes nothing |
| Store.ListSummonUpdate | gacha-app/src/lib/summon.ts:252-288 | the list form: missing coins count as 0, the id is appended to the list; the same iff conditions and "nothing else changes" |
| Store.AddCoinsUpdate | gacha-app/src/lib/shop.ts:116-157 | succeeds iff the key fits and names an item whose coins are missing or a number; then coins become (coins or 0) + amount and the time is stamped, on that item alone; a failed condition iff the item is missing |
| Store.PutIfAbsent | gacha-app/src/lib/user-bootstrap.ts:57-70 | a service error iff the table fails; otherwise a validation error iff the item lacks a key attribute of the schema, and a conditional-check failure iff the item already at its key holds the partition or sort attribute; a put at a free key appends the item; a successful put leaves the item in the table and adds at most one item; a failure changes nothing |
| Store.GetItem | gacha-app/src/lib/user-profile.ts:97-104 | a service error iff the table fails; a key the schema rejects answers a validation error; otherwise the first item holding the key, and none iff no item holds it |
| Store.LimitMissesLaterMatch | gacha-app/src/lib/summon.ts:133-149 | a scan whose limit stops before the first match finds nothing, though a full scan finds it |
| Store.UsersTable.constructor | gacha-app/src/lib/user-bootstrap.ts:44-47 | the table holds the given schema, items and availability |
| Store.UsersTable.UpdateSetSummon | gacha-app/src/lib/summon.ts:225-247 | the table and the answer are exactly the set-form summon update of the old table |
| Store.UsersTable.UpdateListSummon | gacha-app/src/lib/summon.ts:261-285 | the table and the answer are exactly the list-form summon update of the old table |
| Store.UsersTable.UpdateAddCoins | gacha-app/src/lib/shop.ts:138-154 | the table and the answer are exactly the coin credit of the old table |
| Store.UsersTable.Put | gacha-app/src/lib/user-bootstrap.ts:55-71 | the table and the answer are exactly the conditional put of the old table |
| Records.DefaultKey | gacha-app/src/lib/summon.ts:303-306 | the default key names PK then SK |
| Records.ChooseRecordCorrect | gacha-app/src/lib/summon.ts:151-169 | none iff the scan found nothing; else the first item with SK "PROFILE", else the first whose upper-cased SK starts with "PROFILE", else the first item |
| Records.FindProfileRecord | gacha-app/src/lib/user-profile.ts:57-95 | an error iff the table fails; a found item matches the user; none only when no item of the whole table matches |
| Records.ScanLimitMissesProfile | gacha-app/src/lib/summon.ts:130-170 | with the user's item 26th in scan order, the 25-item scan as written finds no record, where the whole-table scan does |
| Records.KeyCandidatesCorrect | gacha-app/src/lib/summon.ts:172-197 | the candidates are keys the record holds, in the order {PK,SK}, {id}, {userId}, {sub}, without repeats; none iff the record has no such attribute |
| Records.PushCandidate | gacha-app/src/lib/summon.ts:176-181 | a candidate seen before is skipped; a new one is appended and remembered |
| Records.BuildKeyCandidates | gacha-app/src/lib/summon.ts:172-197 | the loop computes exactly the ordered candidate list; the copy in shop.ts:89-114 is the same |
| Records.BuildKeyConditionExpression | gacha-app/src/lib/summon.ts:199-214 | one `attribute_exists(#k<i>)` per key attribute joined by " AND ", and `#k<i>` names exactly the i-th attribute |
| Summon.InheritedNamePassesBannerCheck | gacha-app/src/lib/summon.ts:84-86 | the `in` test accepts "outlaw-legend" and every name an object inherits, such as "toString"; the intended test accepts "outlaw-legend" only |
| Summon.MapCardForResponse | gacha-app/src/lib/summon.ts:76-82 | the response keeps the card and uses its image path, or "/card.png" without one |
| Summon.CardsById | gacha-app/src/lib/summon.ts:40-43 | a catalogue card with the id, none iff no card has it |
| Summon.CardsByIdLast | gacha-app/src/lib/summon.ts:40-43 | with repeated ids the map keeps the last definition |
| Summon.PickCardFromBanner | gacha-app/src/lib/summon.ts:88-98 | a drawn card is from the banner pool and the catalogue, mapped for the response; a failure names a pool id missing from the catalogue |
| Summon.Settle | gacha-app/src/lib/summon.ts:309-322 | a written update answers the card, the new balance and cost 1000; a failed condition answers insufficient coins; any other error is thrown |
| Summon.NoRecord | gacha-app/src/lib/summon.ts:351-359 | no record, or no key candidates, answers user-not-found; a scan error is thrown |
| Summon.SetChargesOne | gacha-app/src/lib/summon.ts:236-245 | a successful set-form summon charges the item its key addresses, which had at least 1000 coins, exactly 1000 and grants it the card, and changes no other item |
| Summon.ListChargesOne | gacha-app/src/lib/summon.ts:272-283 | the same for the list form, counting missing coins as 0 |
| Summon.ListAfterSetRejected | gacha-app/src/lib/summon.ts:323-349 | after a validation error from the set form, the list form on the same key succeeds or fails validation too |
| Summon.CandidateShortOfCoins | gacha-app/src/lib/summon.ts:376-381 | a failed condition on a key of the found record means that the item this key addresses holds fewer than 1000 coins |
| Summon.TryDefaultKey | gacha-app/src/lib/summon.ts:309-349 | it succeeds iff the default key pays (the set form, or the list form after the set form is rejected as invalid), charging the default key's item; it moves on to the scan, with the table unchanged, iff the set form fails its condition or both forms are rejected as invalid; any other answer is the service error |
| Summon.TryCandidate | gacha-app/src/lib/summon.ts:361-409 | on one candidate key: a success charges the item that key addresses; insufficient coins only when that item holds fewer than 1000; moving on, with the table unchanged, iff both forms are rejected as invalid |
| Summon.RunSingleSummonForUser | gacha-app/src/lib/summon.ts:290-426 | missing config or a missing card answers before any write; otherwise a success charges the item of the default key or of a candidate key of the user's found record, 1000 coins, and grants the drawn card; a default item that pays is the one charged; insufficient coins names a short item of those keys, both only after the default key sent the summon to the scan; once the default key has sent it to the scan, the answer is user-not-found iff the scan finds no record or a record without candidates; after the default key, the first candidate not rejected as invalid settles the summon, charged there iff its item can pay and insufficient coins otherwise; every candidate rejected as invalid throws that error; every failure leaves the table unchanged |
| Summon.DefaultKeyAnswer | gacha-app/src/lib/summon.ts:309-349 | a summon the default key settles meets every guarantee of a summon, charging the default key's item |
| Summon.CandidateAnswer | gacha-app/src/lib/summon.ts:361-409 | a summon settled by the n-th candidate key, every earlier one rejected as invalid, meets every guarantee of a summon, charging that key's item or naming it as short |
| Summon.NoCandidateAnswer | gacha-app/src/lib/summon.ts:351-359 | with no record or no candidate keys after the default key, user-not-found meets every guarantee of a summon |
| Summon.RejectedAnswer | gacha-app/src/lib/summon.ts:362-415 | with a found record holding at least one candidate key, every one rejected as invalid, throwing that error meets every guarantee of a summon |
| Shop.FindShopRecord | gacha-app/src/lib/shop.ts:69-87 | an error iff the table fails; a found item matches the user; none only when no item of the whole table matches |
| Shop.FirstItemHidesUser | gacha-app/src/lib/shop.ts:72-86 | with any other item first in scan order, the 1-item scan as written finds nothing, where the whole-table scan finds the user |
| Shop.SettleCredit | gacha-app/src/lib/shop.ts:168-187 | a written credit answers the new balance; a failed condition answers user-not-found; any other error is thrown |
| Shop.NoShopRecord | gacha-app/src/lib/shop.ts:189-197 | no record, or no key candidates, answers user-not-found; a scan error is thrown |
| Shop.CreditWritten | gacha-app/src/lib/shop.ts:129-154 | a successful credit adds exactly the amount to the coins of the item its key addresses (missing counting as 0) and changes no other item |
| Shop.TryCandidate | gacha-app/src/lib/shop.ts:199-212 | on one candidate key of the found record: moving on, with the table unchanged, iff the update is rejected as invalid; otherwise a success crediting the item that key addresses |
| Shop.TryDefaultKey | gacha-app/src/lib/shop.ts:168-187 | it moves on to the scan, with the table unchanged, iff the default key's update is rejected as invalid; any other outcome of that update is the answer; user-not-found only when no item has the default key; an existing numeric default item is always credited |
| Shop.AddCoinsToUser | gacha-app/src/lib/shop.ts:159-216 | missing config answers before any write; a success credits the amount to the item of the default key or of a candidate key of the user's found record; only a validation error on the default key reaches the scan, any other outcome there is the answer; user-not-found means no default item, or no record or no candidates, and after a validation error on the default key no record or no candidates always answers user-not-found; after the default key, the first candidate not rejected as invalid is the one credited; every candidate rejected as invalid throws that error; every failure leaves the table unchanged |
| Shop.DefaultKeyCreditAnswer | gacha-app/src/lib/shop.ts:168-187 | a credit the default key settles meets every guarantee of a credit |
| Shop.CandidateCreditAnswer | gacha-app/src/lib/shop.ts:199-212 | a credit of the n-th candidate key's item, every earlier one rejected as invalid, meets every guarantee of a credit |
| Shop.NoShopCandidateAnswer | gacha-app/src/lib/shop.ts:189-197 | with no record or no candidate keys after the default key, user-not-found meets every guarantee of a credit |
| Shop.ShopRejectedAnswer | gacha-app/src/lib/shop.ts:200-215 | with a found record holding at least one candidate key, every one rejected as invalid, throwing that error meets every guarantee of a credit |
| ShopPacks.AllowedIff | gacha-app/src/lib/shop-packs.ts:33-35 | an amount is allowed iff some pack's base plus bonus equals it |
| ShopPacks.PacksAsListed | gacha-app/src/lib/shop-packs.ts:9-31 | five packs with totals 100, 500, 1100, 5500 and 11000; a pack is featured, and every featured pack is the "Sheriff Bundle" |
| ShopPacks.AllowedAmountsExactly | gacha-app/src/lib/shop-packs.ts:33-35 | the allowed amounts are exactly {100, 500, 1100, 5500, 11000}; 1000, 5000 and 10000 are not allowed |
| Bootstrap.InitialUsername | gacha-app/src/lib/user-bootstrap.ts:62 | nickname, else name, else "New Recruit" |
| Bootstrap.InitialDisplayName | gacha-app/src/lib/user-bootstrap.ts:63 | name, else nickname, else "New Recruit" |
| Bootstrap.NewProfileItemFields | gacha-app/src/lib/user-bootstrap.ts:57-68 | the new item is keyed `USER#<sub>` / `PROFILE`, holds 1000 coins and the owned set {""}, and has the default key |
| Bootstrap.BootstrapOutcome | gacha-app/src/lib/user-bootstrap.ts:41-84 | no sub or no config is a no-op; a failing table raises its error; an error never changes the table and is never a failed condition |
| Bootstrap.BootstrapInsertsWhenAbsent | gacha-app/src/lib/user-bootstrap.ts:57-71 | without a profile item under the default key, the new item is appended |
| Bootstrap.BootstrapKeepsExisting | gacha-app/src/lib/user-bootstrap.ts:69-80 | with an item under the default key, the table is left as it is and no error is raised |
| Bootstrap.BootstrapIdempotent | gacha-app/src/lib/user-bootstrap.ts:41-84 | bootstrapping a second time leaves the table as the first bootstrap left it |
| Bootstrap.BootstrapUserRecord | gacha-app/src/lib/user-bootstrap.ts:41-84 | the table and the answer are exactly the bootstrap outcome of the old table |
| Profile.GetUserProfileById | gacha-app/src/lib/user-profile.ts:47-126 | no id or no config gives no profile; a failing table raises its error; an item under the default key wins; otherwise (no such item, or a key the table rejects) the scan's choice |
| Profile.NavUsername | gacha-app/src/lib/user-profile.ts:139-141 | the name has no "@": a name without one is kept, else the part before the first "@", or "New Recruit" when that part is empty |
| Profile.NavCoins | gacha-app/src/lib/user-profile.ts:143-155 | the stored number, or 0 when coins are missing or not a number |
| Profile.NonEmptyIds | gacha-app/src/lib/user-profile.ts:151 | exactly the non-empty ids of the input |
| Profile.NavOwnedCardIds | gacha-app/src/lib/user-profile.ts:144-151 | exactly the non-empty owned ids; none without a profile |
| Profile.TopNavProfile | gacha-app/src/lib/user-profile.ts:132-157 | the shown name has no "@" and no owned id is empty |
| Profile.GetTopNavProfile | gacha-app/src/lib/user-profile.ts:128-158 | an error only from the profile lookup of a configured user with a sub; otherwise the normalised profile of the lookup's result |
| Profile.FreshProfileShowsNoCards | gacha-app/src/lib/user-profile.ts:144-151 | a freshly bootstrapped profile shows the initial username, 1000 coins and no owned cards, because its owned set {""} holds only an empty id |
| Profile.NameWithoutProfile | gacha-app/src/lib/user-profile.ts:132-141 | without a profile the name comes from nickname, name, then the email's local part, else "New Recruit", with 0 coins and no cards |
| Routes.SummonFailureReply | gacha-app/src/app/api/summon/route.ts:36-52 | 400 iff insufficient coins, 404 iff user-not-found, 500 for everything else; coded errors carry their message, others the generic one |
| Routes.ShopFailureReply | gacha-app/src/app/api/shop/purchase/route.ts:34-57 | 404 iff user-not-found or a raw failed condition, 500 for everything else, with the matching message |
| Routes.SummonReply | gacha-app/src/app/api/summon/route.ts:33-53 | 200 iff the summon succeeded, carrying its result; a failure gets its own failure reply |
| Routes.PurchaseReply | gacha-app/src/app/api/shop/purchase/route.ts:31-58 | 200 iff the credit succeeded, carrying the amount and the new balance; a failure gets its own failure reply |
| Routes.InheritedBannerAnswers500 | gacha-app/src/app/api/summon/route.ts:29-52 | the banner id "toString" passes the route's check as written and ends in a 500, where the intended check answers 400 |
| Routes.SummonPost | gacha-app/src/app/api/summon/route.ts:14-54 | 401 without a sub and before any write; 500 if bootstrapping fails; 400 for an unparsable body or a rejected banner, 500 for a null body, none touching the table; otherwise the reply to the session user's own summon on the bootstrapped table, with every guarantee of Summon.RunSingleSummonForUser |
| Routes.PurchasePost | gacha-app/src/app/api/shop/purchase/route.ts:11-59 | 401 without a sub; 500 if bootstrapping fails; 400 for an unparsable body or an amount no pack credits, 500 for a null body, none touching the table; otherwise the reply to the session user's own credit of that amount on the bootstrapped table, with every guarantee of Shop.AddCoinsToUser |

## Left out

- JSX, styling, the animation kinds and their timing, framer-motion and all audio are left out: they are presentation.
- The battle client's scheduling is left out. This covers the `sleep` pacing, the effect that starts the enemy turn, the `cancelled` flag and the turn lock. `Battle.BattleState.RunEnemyTurn` is the enemy turn as one synchronous step.
- `Math.random()`, `crypto.randomUUID()` and `new Date().toISOString()` are parameters, not sources of values.
- Floating point is left out. `Math.round(d * 1.2)`, `0.8` and `1.7` are exact integer round-half-up on non-negative d.
- `localeCompare` is an abstract total preorder on names, passed as a parameter. Locale rules are not modelled.
- Catalogue.SortCards: its contract states a sorted permutation. That cards comparing equal keep their order, as `Array.prototype.sort` promises, is not stated.
- String case mapping is ASCII only. String lengths count characters, not UTF-16 code units.
- BattleRules.SelectionOfLoadout: the battle page (battle/page.tsx:83) renders the client without `initialLoadoutParam`, so `initialLoadoutParam.split` (battle-page-client.tsx:166) throws a TypeError as written. The model takes the loadout string the home page writes as an input and states the selection the client evidently means to make; the crash is not modelled.
- Battle images are the fixed name-to-path table, by lower-cased name. The image files themselves are not modelled.
- The DynamoDB client, its wire format, `process.env` and the cached client are left out. A table is a schema, items in scan order and a flag for a failing service. Missing configuration is the flag `configured`.
- A scan reads the whole table as one page. Pagination of a real scan is not modelled; the `Limit` of the scans as written is, under Findings.
- Summon.RunSingleSummonForUser: it uses the corrected profile scan over the whole table, not the first 25 items; the scan as written is Records.FindProfileRecordAsWritten, under Findings.
- Shop.AddCoinsToUser: it uses the corrected shop scan over the whole table, not the first item; the scan as written is Shop.FindShopRecordAsWritten, under Findings.
- Profile.GetUserProfileById: its fallback uses the corrected profile scan over the whole table, not the first 25 items; the scan as written is Records.FindProfileRecordAsWritten, under Findings.
- Routes.SummonPost: it uses the banner test on the pool table's own keys; the test as written, which also accepts inherited names, is Summon.IsBannerIdAsWritten, under Findings.
- `JSON.stringify`-based de-duplication of key candidates is modelled as equality of keys. The keys are flat string records, so the two agree.
- `Number(...)` on coins stored as strings is not modelled. Stored coins are a number, missing, or "not a number" (read as 0).
- Summon.RunSingleSummonForUser: the remaining balance is the stored number itself. The source's replacement of a non-finite balance by 0 does not arise, because numbers in the model are integers.
- Summon.RunSingleSummonForUser: the test after the candidate loop (summon.ts:418-423) is not modelled. The default-key attempt always answers or moves on, so that test is never reached.
- Routes.PurchasePost: the amount is a whole number or `None`. `None` stands for `NaN`, an infinity or a fraction, none of which any pack credits.
- Routes.SummonPost: a `bannerId` that is present but not a string is not modelled. The body's field is an optional string.
- The error message texts of `SummonError` and `ShopError` are represented by their codes. Replies carry a message code, not the English text.
- An uncaught exception in a route handler is a `500` error page, as the framework answers it.
- Bootstrap.NewProfileItem: the item stores `email` and `picture` only when the session has them. The source writes `null` for an absent one; the model omits the attribute, because its items hold string attributes only.
- SignUp.SignUpForm.Submit: the browser's own handling of the email field is simplified. Stripping newlines and surrounding whitespace, punycode domains and the browser's validation message are not modelled.
- Session handling is a parameter: the signed-in user, or none. Sign-in, redirects and the identity provider are not part of this model.
- The chat route, the forgot-password route and the login page are not part of this model. They are calls to outside services or page navigation.
- The summon banner and shop pack UI wrappers around `fetch`, and the markup-only navigation components, are not part of this model.
- The sign-up form does not call any service: a success only sets the flag, as in the source.

## Findings

| source | as written | input that shows it | evidently intended | confidence | as-written member | corrected member |
|---|---|---|---|---|---|---|
| gacha-app/src/lib/summon.ts:84-86 | `value in BANNER_POOLS` also accepts names that every object inherits | bannerId "toString" passes the check, then finds no pool and the route answers 500 | only "outlaw-legend" is a banner; an unknown banner answers 400 | not executed | Routes.InheritedBannerAnswers500 | Routes.SummonPost |
| gacha-app/src/lib/shop.ts:69-87 | the fallback scan sets `Limit: 1`, which limits the items read, not the matches | a table whose first item in scan order belongs to another user: the user is not found | the scan finds the user's item wherever it lies | not executed | Shop.FirstItemHidesUser | Shop.FindShopRecord |
| gacha-app/src/lib/summon.ts:130-170 | the fallback scan sets `Limit: 25`, which limits the items read, not the matches (user-profile.ts:57-95 does the same) | a table whose user item is 26th in scan order: no record is found | the scan finds the user's item wherever it lies | not executed | Records.ScanLimitMissesProfile | Records.FindProfileRecord |
