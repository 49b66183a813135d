# Good Vibes arena: the room simulation and the client's helpers, in Dafny

This project models the multiplayer "Good Vibes" arena game. Players share a room and
shoot down enemies that fall towards the team. The server (`srv/service.js`) keeps one
record per room and updates it in place:

- it seeds waves;
- it applies `move` and `hitEnemy` messages from connected players;
- every 50 ms its tick spawns an enemy, moves all enemies along their patterns, charges
  breaches to the team mood, drops dead enemies after a grace window and advances the wave.

The browser client (`app/webapp/phaserGame.js`) predicts some of this locally:

- the team mood it shows;
- each enemy's status and predicted hp;
- the type (sprite set) it draws for each player and enemy id.

The model is organised as follows:

- `catalog.dfy`: the enemy type catalog and the fixed wave plan.
- `room_spec.dfy`:
  - the room as a value (`RoomState`);
  - one function per server operation and per tick phase;
  - the room invariant `Inv`.
- `room_props.dfy`: the properties proved about those functions. They cover:
  - the invariant kept by every event;
  - hit monotonicity and idempotence;
  - spawn pacing over any run of ticks, messages, connections and disconnections, and the
    wave advance;
  - unique enemy ids;
  - the grace window.
- `room.dfy`: the server's mutable room. It defines:
  - class `Room`, whose fields mirror the room record. Each method is proved to change the
    state exactly as the matching function says, and to keep the invariant.
  - class `Lobby`, which holds the room map used by `ensureRoom`.
- `client_utils.dfy`: `Utils.clamp`, `Utils.getCardinalDirection` and `Utils.mapById`.
- `client_scene.dfy`: the client scene's team mood, kill transition, local hit prediction
  and type assignment. It has specification functions with lemmas, and class `Scene`,
  whose methods are proved against them.

Nondeterminism and time come in as parameters:

- Every `Math.random()` draw that `createEnemy` uses is a value in [0, 1) (`SpawnDraws`).
- The sine pattern's offset `Math.sin(t * 2.4 + phase) * 36` is a caller-supplied real per
  enemy serial (`sine`).
- The blink direction coin is a caller-supplied boolean per enemy serial (`blinkRight`).
- `Date.now()` is the parameter `now` in milliseconds. One reading serves a whole tick.

JavaScript's falsy defaults (`|| 1`, `|| 10`, `|| now`, `baseX || x`) are written out, with
0 or "" standing for the falsy value. The enemy id `e-N` is kept as its serial `N`.
`EnemyIdOf` spells the string, and `EnemyIdInjective` proves that distinct serials give
distinct strings.

Some choices follow directly from the code:

- Hit points and damage are reals, because the `hitEnemy` handler accepts any numeric
  `damage` of at least 1, so hp need not stay a whole number.
- The message handler has no `setName` branch. It acts only on `move` and `hitEnemy`. Every
  other object message, and a payload that fails to parse, is `OtherMsg`, which changes
  nothing. A payload that parses to `null` is the exception (see "## Left out").
- The server clamps as `min(max, max(min, v))` and the client as `max(min, min(max, v))`.
  These agree on every ordered range and differ on an inverted one (`ClientUtils.ClampsAgree`).

## Model

| member | source | states |
|---|---|---|
| Catalog.CatalogWellFormed | app/webapp/enemyTypes.js:1-406 | every catalog type is keyed by its own id, has tier 1..3, at least 1 hp, a positive score and speed, and variance below 1; the wave plan has four entries, each non-empty and naming only catalog types |
| RoomSpec.Clamp | srv/service.js:22 | the result never exceeds `max`; on an ordered range it lies in the range, is the value when inside, and is the nearer bound otherwise |
| RoomSpec.JsRem | srv/service.js:75 | the JavaScript remainder is smaller than the divisor in magnitude and has the sign of the dividend; with the quotient truncated toward zero, quotient x divisor + remainder gives back the dividend |
| RoomSpec.PlanIndex | srv/service.js:75 | the plan entry index is `(wave - 1) mod 4` for every wave from 1, and falls back to the first entry for wave 0 or below (negative JavaScript remainder reads `undefined`) |
| RoomSpec.PickIndex | srv/service.js:23 | `Math.floor(draw * n)` is a valid index for a draw in [0, 1), and it is the whole number k with k <= draw x n < k + 1 |
| RoomSpec.PickTypeForWave | srv/service.js:74-77 | the wave's plan entry has at least one type, and the chosen type is the entry at `PickIndex` of the draw over that list; it exists in the catalog |
| RoomSpec.SpawnCount | srv/service.js:104-107 | a wave schedules at least 10 enemies |
| RoomSpec.SpawnInterval | srv/service.js:109 | the spawn interval is at least 350 ms and at most 900 ms for any non-negative wave |
| RoomSpec.SpawnCountOfPlannedWaves | srv/service.js:104-107 | waves 1 to 4 schedule exactly the plan's count |
| RoomSpec.SpawnCountGrowsPerCycle | srv/service.js:104-107 | past the plan, the same slot four waves later schedules four more enemies |
| RoomSpec.SpawnIntervalShrinks | srv/service.js:109 | the spawn interval never grows from one wave to a later one |
| RoomSpec.WaveFactor | srv/service.js:32 | the wave speed factor is at least 1 |
| RoomSpec.WaveFactorStep | srv/service.js:32 | each wave from 1 adds exactly 0.08 to the factor |
| RoomSpec.VarianceFactor | srv/service.js:29-31 | the random variance factor lies in [1 - variance, 1 + variance] |
| RoomSpec.ComputeEnemySpeed | srv/service.js:28-34 | the speed is at least 40, at least the uncapped product, and equal to one of the two |
| RoomSpec.SpeedGrowsWithWave | srv/service.js:28-34 | with the same draw, an enemy of a later wave is never slower |
| RoomSpec.DecimalString | srv/service.js:84 | the numeral of the counter is non-empty and made of digits |
| RoomSpec.DecimalStringInjective | srv/service.js:84 | different counter values print differently |
| RoomSpec.EnemyIdOf | srv/service.js:84 | every enemy id starts with `e-` |
| RoomSpec.EnemyIdInjective | srv/service.js:84 | two serials give the same id string if and only if they are equal |
| RoomSpec.NewEnemy | srv/service.js:79-101 | a created enemy is alive with full hp (at least 1); it takes the counter's serial and the type `PickTypeForWave` draws; its speed is `ComputeEnemySpeed` of that type, wave and draw, at least 40; its anchor is within [30, 850] and equals x; it starts at a y in (-70, -20] with spawn time now; pattern, tier, score and max hp are copied from the catalog |
| RoomSpec.Seed | srv/service.js:103-111 | seeding schedules `SpawnCount(wave)` enemies at `SpawnInterval(wave)`, clears the list and the last spawn time, and leaves wave, mood, players and counter as they were |
| RoomSpec.SeedIfIdle | srv/service.js:126-130 | a room with no enemies and none pending is seeded; any other room is returned unchanged |
| RoomSpec.LastThree | srv/service.js:163 | the name suffix is the last three characters of the client id, or the whole id when shorter |
| RoomSpec.NewPlayer | srv/service.js:155-164 | a new player stands in the lane at the player row with score 0 |
| RoomSpec.Join | srv/service.js:155-164 | joining adds exactly the client's id, whose record is `NewPlayer(clientId)`; every other player record is unchanged; enemies, wave, mood, counter and spawn fields are unchanged |
| RoomSpec.Leave | srv/service.js:218-221 | leaving removes exactly the client's id and no other player record changes |
| RoomSpec.MoveDelta | srv/service.js:196 | the step is `dx` when numeric, else `dir` when numeric, else 0 |
| RoomSpec.MovePlayer | srv/service.js:195-200 | the new x is the current x (the middle of the field when 0) plus 14 px per unit of the step, clamped to the lane; the player sits on the player row; a positive step never moves left from an in-lane position; facing takes the step; score, lives, hp and name are kept |
| RoomSpec.HandleMove | srv/service.js:191-201 | a move from a client no longer in the room changes nothing; otherwise the sender's record becomes `MovePlayer` of it by `MoveDelta(dx, dir)` (the lane clamp, row 460 and 14 px step), and every other part of the room is unchanged |
| RoomSpec.Damage | srv/service.js:207 | the damage applied is at least 1: the reported amount when that is at least 1, else 1 |
| RoomSpec.FindEnemy | srv/service.js:204 | the lookup returns the first enemy whose id string matches, or reports that none matches |
| RoomSpec.Award | srv/service.js:212 | a kill always awards a positive amount, the enemy's own value when it has one |
| RoomSpec.DamageEnemy | srv/service.js:207-211 | hp falls by the damage with a floor of 0; the enemy is alive exactly while hp is positive; a kill records the death time; nothing else changes |
| RoomSpec.HandleHit | srv/service.js:191-215 | a hit from a departed client, with an empty id or naming no enemy changes nothing; otherwise only the first enemy with that id and the reporter's record may change; the enemy count, the player ids and every other field are kept |
| RoomSpec.HandleMessage | srv/service.js:183-216 | a message from a departed client or of any other type changes nothing; a move keeps the enemies; a hit keeps the player ids and the enemy count; only players and enemies ever change |
| RoomSpec.SpawnStep | srv/service.js:228-232 | when a spawn is due, exactly `NewEnemy` for the current wave, the counter's serial, now and the draws is appended, and the counter, pending count and last spawn time advance; otherwise the room is unchanged |
| RoomSpec.SquareWave | srv/service.js:243-248 | the zigzag and dash offsets are plus or minus the amplitude, positive in the first half period |
| RoomSpec.SquareWaveFlips | srv/service.js:243-248 | half a period later the offset has the other sign |
| RoomSpec.PatternOffset | srv/service.js:239-254 | the sine pattern's offset is the supplied sine value; zigzag is a square wave of period 650 ms and amplitude 28 over the time since spawn, dash one of 500 ms and 22; straight and blink enemies have none |
| RoomSpec.Moved | srv/service.js:234-263 | a dead enemy is untouched; a live one descends by exactly `speed * 0.05`, plus `speed * 0.18 * 0.05` for a dash; it is drawn at `clamp(anchor + PatternOffset, 20, 860)`, where the anchor is the new baseX or else x; a due blink moves the anchor by ±60 within [30, 850] and records the time, and otherwise anchor and blink time are kept; it is dead and breached exactly when it reaches y 430, with the death time recorded; hp, id, type and speed never change |
| RoomSpec.MoveAll | srv/service.js:234-264 | the movement pass replaces each enemy by `Moved` of it with its own sine and blink draws; it keeps the length and each position's id and hp, never revives, and leaves dead enemies as they were |
| RoomSpec.BreachPenalty | srv/service.js:261 | a breach costs 6 + 2 x tier mood points for a catalog type, 8 for an unknown one, so always between 8 and 12 |
| RoomSpec.MoodAfter | srv/service.js:257-263 | after the movement pass the mood is still in [0, 100] and no higher than before |
| RoomSpec.BreachCostsPenalty | srv/service.js:261-262 | each breach lowers the mood by its penalty, floored at 0 |
| RoomSpec.NoBreachKeepsMood | srv/service.js:257-263 | a pass without breaches leaves the mood as it was |
| RoomSpec.MoveStep | srv/service.js:234-264 | the movement phase sets the enemies to `MoveAll` of them and the mood to `MoodAfter`, the mood charged breach by breach; the enemy count is kept, an in-range mood never rises nor drops below 0, and nothing but enemies and mood changes |
| RoomSpec.Purge | srv/service.js:266 | the cleanup keeps exactly the live enemies and those dead for less than 2000 ms, and never adds any |
| RoomSpec.PurgeKeepsIdsIncreasing | srv/service.js:266 | filtering keeps the list's order of ids |
| RoomSpec.PurgeStep | srv/service.js:266 | an enemy is listed after the cleanup phase exactly when it was listed and is alive or in its grace window; nothing else changes |
| RoomSpec.AdvanceStep | srv/service.js:268-271 | with nothing pending and nothing alive, the wave goes up by one with an empty list and enemies pending; otherwise the room is unchanged; players, mood and counter are kept |
| RoomSpec.Simulated | srv/service.js:227-266 | the phases before the wave check keep wave, players and interval; the counter and pending count move by one exactly when a spawn was due, the last spawn time becomes now exactly then; the enemies are the purge of the moved list after the spawn, the mood is charged for that list's breaches, stays in range and never rises |
| RoomSpec.TickSpec | srv/service.js:227-271 | a tick moves the wave up by at most one, keeps the players, never lowers the counter, keeps the mood in range and never raises it, and within the wave keeps the interval and sets the last spawn time to now exactly when a spawn was due |
| RoomProperties.InitialRoomSeeded | srv/service.js:113-131 | a new room satisfies the invariant, and ensureRoom seeds it with 10 pending enemies at an 840 ms interval |
| RoomProperties.SeedKeepsInv | srv/service.js:103-111 | seeding keeps the room invariant |
| RoomProperties.JoinLeaveKeepInv | srv/service.js:155-164 | connecting and disconnecting keep the room invariant |
| RoomProperties.MoveKeepsInv | srv/service.js:194-201 | a move keeps the room invariant |
| RoomProperties.FindBySerial | srv/service.js:204 | in a room with unique ids, looking up an enemy's id string finds exactly that enemy |
| RoomProperties.FindEnemySameIds | srv/service.js:204 | the lookup depends only on the list's ids |
| RoomProperties.HitOnMissingOrDeadIsNoOp | srv/service.js:191-205 | a hit from a departed client, or naming no enemy or a dead one, changes nothing |
| RoomProperties.HitMonotone | srv/service.js:203-215 | a hit never adds or removes enemies or players, never raises hp, never revives, and never lowers a score |
| RoomProperties.HitKills | srv/service.js:207-213 | a hit that takes a live enemy's hp to 0 kills it at `now` and adds its award to the reporter's score; otherwise the enemy loses exactly the damage |
| RoomProperties.HitIdempotentOnceDead | srv/service.js:205 | once a hit has killed an enemy, repeating it changes nothing |
| RoomProperties.HitKeepsInv | srv/service.js:203-215 | a hit keeps the room invariant |
| RoomProperties.TwoHitScenario | srv/service.js:203-215 | a 2-hp enemy worth 50 survives the first default hit at 1 hp and dies on the second, paying 50 once |
| RoomProperties.MessageKeepsInv | srv/service.js:183-216 | whatever message arrives, the room stays valid, no enemy gains hp and no score drops |
| RoomProperties.SpawnKeepsInv | srv/service.js:228-232 | the spawn phase keeps the room invariant |
| RoomProperties.MoveStepKeepsInv | srv/service.js:234-264 | the movement pass keeps the room invariant |
| RoomProperties.PurgeKeepsInv | srv/service.js:266 | the cleanup keeps the room invariant |
| RoomProperties.TickKeepsInv | srv/service.js:227-271 | a whole tick keeps the room invariant (mood in [0, 100], unique increasing ids below the counter, enemies and players in bounds) |
| RoomProperties.TickWaveAdvance | srv/service.js:268-271 | the wave advances by one, and is reseeded, if and only if nothing is pending and nothing alive after the simulation phases |
| RoomProperties.TickSpawnsAtMostOne | srv/service.js:228-232 | a tick creates one enemy when a spawn was due and none otherwise |
| RoomProperties.SimulatedOrigin | srv/service.js:228-266 | every enemy after the simulation phases is the move of one enemy present after the spawn phase |
| RoomProperties.TickIdsNeverReused | srv/service.js:228-266 | every enemy after a tick was already in the room or is the new one with the counter's serial, so ids are never reused |
| RoomProperties.TickKeepsPlayersAndHp | srv/service.js:234-266 | a tick never changes players or any enemy's hp |
| RoomProperties.TickSpawnPacing | srv/service.js:228 | the tick right after a spawn at a nonzero time, if it stays in the wave, leaves the next spawn not due before the interval has passed |
| RoomProperties.Apply | srv/service.js:150-225 | one event reaching a room (a connection through ensureRoom, a message, a disconnection, or a tick) changes the wave only if it is a tick, and then by one |
| RoomProperties.Run | srv/service.js:150-225 | over any run of events the wave never goes back |
| RoomProperties.TickInWaveBusy | srv/service.js:268-271 | a tick that stays in its wave leaves enemies pending or listed, so a later connection does not reseed the room |
| RoomProperties.QuietTickKeepsPacing | srv/service.js:228-271 | a tick that spawns nothing and stays in its wave keeps the last spawn time and the interval |
| RoomProperties.ClientEventKeepsPacing | srv/service.js:150-222 | messages, connections to a busy room and disconnections keep the wave, the last spawn time, the interval and the pending count |
| RoomProperties.QuietRunKeepsPacing | srv/service.js:150-271 | a run of events without a spawn that ends in its starting wave keeps the last spawn time and the interval |
| RoomProperties.SpawnPacing | srv/service.js:228 | within a wave, the next spawn after one at a nonzero time comes at least the spawn interval later, whatever ticks, messages, connections and disconnections come in between |
| RoomProperties.BreachedEnemyShown | srv/service.js:257-266 | an enemy that breaches is still listed after that tick's cleanup phase, dead, marked breached and with its death time, before the wave check |
| RoomProperties.GraceWindow | srv/service.js:266 | a dead enemy still listed after the cleanup died less than 2000 ms ago |
| RoomProperties.BreachAtLowMoodScenario | srv/service.js:261-262 | a tier-3 breach at mood 10 leaves mood 0, not negative |
| RoomProperties.ZigzagScenario | srv/service.js:243-255 | a live zigzag enemy anchored at 440 and spawned at 1000 is drawn, after its move, at x 468 at time 1200 and at x 412 at time 1800 |
| RoomServer.Room.constructor | srv/service.js:115-124 | a new room record: wave 1, mood 100, no players or enemies, nothing pending, interval 900 |
| RoomServer.Room.SeedWave | srv/service.js:103-111 | the room becomes `Seed` of its former state and stays valid |
| RoomServer.Room.SeedIfIdle | srv/service.js:126-130 | the room becomes `SeedIfIdle` of its former state and stays valid |
| RoomServer.Room.CreateEnemy | srv/service.js:79-101 | returns `NewEnemy` for the current counter, advances the counter by one, changes no other field and keeps the room valid |
| RoomServer.Room.Join | srv/service.js:155-164 | the room becomes `Join` of its former state and stays valid |
| RoomServer.Room.Leave | srv/service.js:218-221 | the room becomes `Leave` of its former state and stays valid |
| RoomServer.Room.Move | srv/service.js:191-201 | the room becomes `HandleMove` of its former state and stays valid |
| RoomServer.Room.HitEnemy | srv/service.js:191-215 | the room becomes `HandleHit` of its former state and stays valid |
| RoomServer.Room.OnMessage | srv/service.js:183-216 | the room becomes `HandleMessage` of its former state and stays valid |
| RoomServer.Room.SpawnPhase | srv/service.js:228-232 | the room becomes `SpawnStep` of its former state and stays valid |
| RoomServer.Room.MovePhase | srv/service.js:234-264 | the in-place loop over enemies leaves exactly `MoveStep` of the former state: every enemy moved and the mood charged breach by breach; the room stays valid |
| RoomServer.Room.MoveAt | srv/service.js:234-263 | the loop body updates only the enemy at index `i`, to `Moved` of it, and the mood becomes `MoodAfter` of the enemies up to and including `i`: the breach penalty is charged, floored at 0, exactly when that enemy breaches |
| RoomServer.Room.AdvancePhase | srv/service.js:268-271 | the room becomes `AdvanceStep` of its former state and stays valid |
| RoomServer.Room.Tick | srv/service.js:227-271 | one tick leaves exactly `TickSpec` of the former state and keeps the room valid |
| RoomServer.StepEnemy | srv/service.js:236-263 | the step-by-step update of one live enemy yields exactly `Moved` |
| RoomServer.Lobby.constructor | srv/service.js:72 | the lobby starts with no rooms |
| RoomServer.Lobby.EnsureRoom | srv/service.js:113-131 | a known key returns its own room, seeded if idle; an unknown key gets a fresh seeded room; every other key keeps its own room with every field unchanged; no two keys share a room and every room stays valid |
| ClientUtils.Clamp | app/webapp/phaserGame.js:56-58 | the result is never below `min`; on an ordered range it lies in the range, is the value when inside, and is the nearer bound otherwise |
| ClientUtils.ClampsAgree | app/webapp/phaserGame.js:56-58 | the client's clamp equals the server's on every ordered range; on an inverted range the client yields `min` and the server `max` |
| ClientUtils.CardinalDirection | app/webapp/phaserGame.js:61-69 | the result is always a unit cardinal vector; a missing or zero input gives up; a larger horizontal component gives left or right by its sign; otherwise (ties included) up or down by the vertical sign |
| ClientUtils.CardinalIsBestAligned | app/webapp/phaserGame.js:61-69 | for any non-zero input, the chosen direction points the same way and is a cardinal direction with the largest dot product |
| ClientUtils.MapById | app/webapp/phaserGame.js:45-53 | non-list input gives the empty map; otherwise the keys are exactly the ids of present items with an id, and each maps to the last such item |
| ClientScene.MoodAdjusted | app/webapp/phaserGame.js:708-709 | the adjusted mood is always within [0, 100], equals `mood + delta` when that is in range, and is the nearer bound otherwise |
| ClientScene.MoodFollowsDelta | app/webapp/phaserGame.js:708-709 | from an in-range mood, a non-negative change never lowers it and a non-positive one never raises it |
| ClientScene.Killed | app/webapp/phaserGame.js:494-513 | other enemies are untouched; an absent, dying or dead enemy is untouched; a live one is kept exactly when its type has a death animation, and then it is `Dying` with only its status changed |
| ClientScene.KillIdempotent | app/webapp/phaserGame.js:494-498 | killing twice is the same as killing once |
| ClientScene.Reward | app/webapp/phaserGame.js:638 | the reward is 8 exactly from tier 3 up, 5 exactly at tier 2, else 3 |
| ClientScene.LocalHit | app/webapp/phaserGame.js:636-643 | a local hit never adds an enemy; the hit enemy, if still listed, has non-negative hp and is alive exactly while its hp is positive, and then the mood is unchanged; it is gone only if its type has no death animation |
| ClientScene.LocalHitWounds | app/webapp/phaserGame.js:636-643 | a hit on an enemy with more than 1 predicted hp takes exactly 1 hp off, leaves it alive and leaves the mood alone |
| ClientScene.LocalHitKills | app/webapp/phaserGame.js:636-643 | a hit on an enemy with at most 1 predicted hp adds its tier's reward to the mood and kills it: dying at 0 hp, or gone without a death animation |
| ClientScene.LocalHitBounds | app/webapp/phaserGame.js:636-643 | a local hit leaves other enemies alone, never drives predicted hp below 0 nor, from a non-negative value, above it, and keeps the mood in range and never lower |
| ClientScene.ByKey | app/webapp/phaserGame.js:678 | a requested key resolves to the catalog entry under that key, or to nothing when no entry has it |
| ClientScene.Requested | app/webapp/phaserGame.js:677 | the requested type is the first non-empty of `typeId`, `typeKey` and `playerType`, and is empty exactly when all three are |
| ClientScene.LowerChar | app/webapp/phaserGame.js:684 | an ASCII capital maps to the letter 32 code points higher; every other character is kept |
| ClientScene.Lower | app/webapp/phaserGame.js:684 | lower-casing keeps the length, turns each ASCII capital into its small letter and keeps every other character |
| ClientScene.ByColor | app/webapp/phaserGame.js:683-684 | the result is the first catalog entry whose primary colour equals the entity's colour ignoring case; it is none exactly when no entry matches |
| ClientScene.AssignOne | app/webapp/phaserGame.js:673-693 | one entity adds exactly its own id when it has one and never changes an existing entry; a new id gets the requested catalog type if there is one, else for a player the first type of its colour, else the round-robin entry `available[nextIndex % n]`; the round-robin position advances by one exactly in that last case |
| ClientScene.AssignAll | app/webapp/phaserGame.js:673-694 | a pass over the list keeps every existing id and advances the round-robin position by at most the list's length |
| ClientScene.Assigned | app/webapp/phaserGame.js:665-695 | the assignment keeps every existing id, and with an empty catalog changes nothing |
| ClientScene.AssignAllFacts | app/webapp/phaserGame.js:673-694 | a pass never changes an assigned type, types exactly the listed ids that had none, and only ever assigns catalog entries |
| ClientScene.FirstAssignmentWins | app/webapp/phaserGame.js:665-695 | an id that already has a type keeps it; the typed ids become the old ones plus every listed id; new types come from the catalog; an empty catalog assigns nothing |
| ClientScene.AssignAllSkipsTyped | app/webapp/phaserGame.js:674 | a list whose ids are all typed changes nothing |
| ClientScene.AssignIdempotent | app/webapp/phaserGame.js:665-695 | assigning the same list a second time changes nothing |
| ClientScene.RequestedTypeWins | app/webapp/phaserGame.js:677-681 | when the first listed entity with an untyped id requests a type the catalog has, that type is the one it gets, whatever its colour and the round-robin position |
| ClientScene.Scene.constructor | app/webapp/phaserGame.js:160-177 | a new scene has mood 100, no enemy runtime and no assigned types |
| ClientScene.Scene.AdjustTeamMood | app/webapp/phaserGame.js:708-709 | the mood becomes `MoodAdjusted` of the old mood and is within [0, 100] |
| ClientScene.Scene.KillEnemy | app/webapp/phaserGame.js:494-513 | the runtime map becomes `Killed` of the old one |
| ClientScene.Scene.HandleLocalHit | app/webapp/phaserGame.js:630-644 | for a live enemy, mood and runtime become `LocalHit` of the old ones |
| ClientScene.Scene.AssignTypes | app/webapp/phaserGame.js:665-695 | the in-place loop with its round-robin counter leaves the chosen category's map as `Assigned` of the old map, and the other category's map unchanged |

## Left out

- The timer loop over all rooms is modelled one room at a time: each room's tick reads and writes only that room, so it is `Room.Tick`, and `Lobby.EnsureRoom` shows that rooms do not share state. The timer itself is left out as a clock. `broadcastState` and the `state` snapshots sent to clients are left out as network output.
- WebSocket attachment, connection ids drawn from `Math.random()` and JSON parsing are left out as I/O. A connection's id is a parameter. A payload that fails to parse is dropped at srv/service.js:187-189, which is `OtherMsg`.
- `RoomSpec.HandleMessage`: a payload that parses to JSON `null` is not modelled. When the sender is still a player of the room, `msg.type` at srv/service.js:194 then throws a TypeError. No handler catches it, so the message listener throws and the server process most likely stops. This is read from the code, not executed. The model has no such input: every parsed message is `MoveMsg`, `HitEnemyMsg` or `OtherMsg`.
- The `TopSeasonPlayers` database query is left out. It is a foreign call to the data store.
- The `ENEMY_SPEED_SCALE` environment override is left out because it depends on the environment. The model uses the configured value 0.6.
- The sine pattern is left out as floating point. It is the caller-supplied `sine` value per enemy, so the random `phase` field is not kept.
- The server loads its catalog from `app/webapp/shared/enemyTypes.js`. That file is not part of this model. The catalog values come from `app/webapp/enemyTypes.js`.
- `onReachBottomEffect` is kept in the catalog but not copied into the enemy record. No modelled operation reads it.
- `NewEnemy`: `spawnedAt` is the tick's `now`. The source reads the clock again inside `createEnemy`, which can be a millisecond or so later.
- `RoomSpec.SquareWave`: the source divides floating-point seconds by 0.65 or 0.5. The model divides integer milliseconds by 650 or 500, which matches except for floating-point rounding at the boundaries.
- `RoomSpec.Damage`: damage is an optional number. A truthy non-numeric `damage` such as `"x"` or `{}` makes the source's `Math.max(1, damage || 1)` NaN, so the enemy's hp becomes NaN and no later hit can kill it. Reals have no NaN, so that path is not modelled, and neither is the coercion of numeric strings.
- `ClientScene.Lower`: only ASCII letters are lower-cased. Full Unicode case mapping is left out; colours are hex strings.
- `ClientScene.Killed`: with a death animation, the entry is removed later by an animation callback or a 1200 ms timer. That deferred removal, the kill message and the sprite work are left out as rendering and timers. Without an animation, the removal happens at once and is modelled.
- `ClientScene.Scene.HandleLocalHit`: the callback that reports the hit to the server, and the hit animation, are left out. The callback is network output and the animation is rendering.
- `ClientScene.Scene.AssignTypes`: object key enumeration order is taken as the catalog sequence's order. Ids that are non-empty numbers are not distinguished from strings.
- The client's syncing of server snapshots (`syncState`), projectile collisions, rendering and input handling are left out. None of them is part of the modelled core.
