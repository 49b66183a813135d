/**
 * The server's room simulation as values: the room record, one function per
 * step of srv/service.js (wave seeding, enemy construction, the move and hit
 * messages, the four phases of a tick), the room invariant and the lemmas that
 * each step keeps it. The class in room.dfy is proved against these functions.
 */
module RoomSpec {
  import opened Wrappers
  import opened Catalog

  // Arena geometry and timing (PLAYFIELD_WIDTH = 880, PLAYFIELD_HEIGHT = 500, TICK_MS = 50).
  const PlayfieldWidth: real := 880.0
  const PlayerLaneY: real := 460.0
  const PlayerStep: real := 14.0
  const BottomThreshold: real := 430.0
  const TickSec: real := 0.05
  /** Horizontal bounds of players and of an enemy's drawn position. */
  const LaneMin: real := 20.0
  const LaneMax: real := 860.0
  /** Horizontal bounds of an enemy's path anchor. */
  const AnchorMin: real := 30.0
  const AnchorMax: real := 850.0
  /** How long a dead or breached enemy stays in the list. */
  const GraceMs: int := 2000
  const BlinkCooldownMs: int := 700
  /** ENEMY_SPEED_SCALE as configured in the shared game configuration. */
  const SpeedScale: real := 0.6

  /** `clamp(val, min, max) = Math.min(max, Math.max(min, val))`. */
  function Clamp(v: real, lo: real, hi: real): (r: real)
    ensures r <= hi
    ensures lo <= hi ==> lo <= r
    ensures lo <= v <= hi ==> r == v
    ensures v < lo <= hi ==> r == lo
    ensures lo <= hi < v ==> r == hi
  {
    var atLeast := if lo < v then v else lo;
    if hi < atLeast then hi else atLeast
  }

  function Max(a: int, b: int): int { if a < b then b else a }

  // ---------------------------------------------------------------------------
  // Wave planner

  /** JavaScript's `%` on integers: the remainder takes the sign of the dividend. */
  function JsRem(a: int, b: int): (r: int)
    requires b > 0
    ensures -b < r < b
    ensures a >= 0 ==> 0 <= r
    ensures a <= 0 ==> r <= 0
    ensures a == (if a >= 0 then a / b else -((-a) / b)) * b + r
  {
    if a >= 0 then a % b else -((-a) % b)
  }

  /**
   * The WAVE_PLAN entry for a wave: `WAVE_PLAN[(wave - 1) % length] || WAVE_PLAN[0]`.
   * A negative index reads `undefined` and falls back to the first entry.
   */
  function PlanIndex(wave: int): (i: nat)
    ensures i < |WavePlan|
    ensures wave >= 1 ==> i == (wave - 1) % |WavePlan|
    ensures wave <= 1 ==> i == 0
  {
    var r := JsRem(wave - 1, |WavePlan|);
    if r >= 0 then r else 0
  }

  function PlanFor(wave: int): WaveDef {
    WavePlan[PlanIndex(wave)]
  }

  /** `arr[Math.floor(draw * arr.length)]` for a draw in [0, 1). */
  function PickIndex(draw: real, n: nat): (k: nat)
    requires 0.0 <= draw < 1.0 && n > 0
    ensures k < n
    ensures k as real <= draw * (n as real) < k as real + 1.0
  {
    assert 0.0 <= draw * (n as real) < n as real;
    (draw * (n as real)).Floor
  }

  /** pickTypeForWave: a uniform choice among the wave's allowed types. */
  function PickTypeForWave(wave: int, draw: real): (typeId: string)
    requires 0.0 <= draw < 1.0
    ensures typeId in PlanFor(wave).types
    ensures typeId in Library
    ensures |PlanFor(wave).types| > 0
    ensures typeId == PlanFor(wave).types[PickIndex(draw, |PlanFor(wave).types|)]
  {
    CatalogWellFormed();
    var types := PlanFor(wave).types;
    types[PickIndex(draw, |types|)]
  }

  /** How many enemies seedWave schedules: the plan's count plus one per wave past the plan. */
  function SpawnCount(wave: int): (n: nat)
    ensures n >= 10
  {
    var plan := PlanFor(wave);
    var base := if plan.count == 0 then 10 else plan.count;
    base + Max(0, wave - |WavePlan|)
  }

  /** `Math.max(350, 900 - wave * 60)`. */
  function SpawnInterval(wave: int): (ms: int)
    ensures ms >= 350
    ensures wave >= 0 ==> ms <= 900
  {
    Max(350, 900 - wave * 60)
  }

  lemma SpawnCountOfPlannedWaves(wave: int)
    requires 1 <= wave <= |WavePlan|
    ensures SpawnCount(wave) == WavePlan[wave - 1].count
  {
  }

  /** Past the plan, each cycle of four waves spawns four more enemies. */
  lemma SpawnCountGrowsPerCycle(wave: int)
    requires wave >= |WavePlan|
    ensures SpawnCount(wave + |WavePlan|) == SpawnCount(wave) + |WavePlan|
  {
    assert PlanIndex(wave + |WavePlan|) == PlanIndex(wave);
  }

  /** The interval only shrinks as waves progress. */
  lemma SpawnIntervalShrinks(w1: int, w2: int)
    requires w1 <= w2
    ensures SpawnInterval(w2) <= SpawnInterval(w1)
  {
  }

  // ---------------------------------------------------------------------------
  // Enemy speed

  /** `1 + max(0, wave - 1) * 0.08`. */
  function WaveFactor(wave: int): (f: real)
    ensures f >= 1.0
  {
    1.0 + (Max(0, wave - 1) as real) * 0.08
  }

  lemma WaveFactorStep(wave: int)
    requires wave >= 1
    ensures WaveFactor(wave + 1) == WaveFactor(wave) + 0.08
  {
  }

  /** `variance ? 1 + (Math.random() * 2 - 1) * variance : 1`. */
  function VarianceFactor(variance: real, draw: real): (f: real)
    requires 0.0 <= draw < 1.0
    ensures 0.0 <= variance ==> 1.0 - variance <= f <= 1.0 + variance
  {
    if variance != 0.0 then 1.0 + (draw * 2.0 - 1.0) * variance else 1.0
  }

  /** The uncapped product of computeEnemySpeed. */
  function RawSpeed(t: EnemyType, wave: int, draw: real): real
    requires 0.0 <= draw < 1.0
  {
    var base := if t.baseSpeed != 0.0 then t.baseSpeed else 70.0;
    base * VarianceFactor(t.speedVariance, draw) * WaveFactor(wave) * SpeedScale
  }

  /** computeEnemySpeed: the product, but never below 40. */
  function ComputeEnemySpeed(t: EnemyType, wave: int, draw: real): (speed: real)
    requires 0.0 <= draw < 1.0
    ensures speed >= 40.0
    ensures speed >= RawSpeed(t, wave, draw)
    ensures speed == 40.0 || speed == RawSpeed(t, wave, draw)
  {
    var raw := RawSpeed(t, wave, draw);
    if 40.0 < raw then raw else 40.0
  }

  lemma NonNegativeProduct(a: real, b: real)
    requires a >= 0.0 && b >= 0.0
    ensures a * b >= 0.0
  {
  }

  lemma Reassociate(a: real, b: real, c: real, d: real)
    ensures a * b * c * d == (a * b * d) * c
  {
  }

  lemma ScaleMonotone(k: real, a: real, b: real)
    requires k >= 0.0 && a <= b
    ensures k * a <= k * b
  {
    NonNegativeProduct(k, b - a);
  }

  /** The wave-independent part of RawSpeed: base speed, variance and scale. */
  function SpeedCoefficient(t: EnemyType, draw: real): real
    requires 0.0 <= draw < 1.0
  {
    var base := if t.baseSpeed != 0.0 then t.baseSpeed else 70.0;
    base * VarianceFactor(t.speedVariance, draw) * SpeedScale
  }

  lemma RawSpeedSplit(t: EnemyType, wave: int, draw: real)
    requires 0.0 <= draw < 1.0
    ensures RawSpeed(t, wave, draw) == SpeedCoefficient(t, draw) * WaveFactor(wave)
  {
    var base := if t.baseSpeed != 0.0 then t.baseSpeed else 70.0;
    Reassociate(base, VarianceFactor(t.speedVariance, draw), WaveFactor(wave), SpeedScale);
  }

  lemma CoefficientNonNegative(t: EnemyType, draw: real)
    requires 0.0 <= draw < 1.0
    requires 0.0 <= t.baseSpeed && 0.0 <= t.speedVariance <= 1.0
    ensures SpeedCoefficient(t, draw) >= 0.0
  {
    var base := if t.baseSpeed != 0.0 then t.baseSpeed else 70.0;
    var vf := VarianceFactor(t.speedVariance, draw);
    NonNegativeProduct(base, vf);
    NonNegativeProduct(base * vf, SpeedScale);
  }

  /** For a type with positive speed and variance below 1, later waves are never slower. */
  lemma SpeedGrowsWithWave(t: EnemyType, w1: int, w2: int, draw: real)
    requires 0.0 <= draw < 1.0
    requires 0.0 <= t.baseSpeed && 0.0 <= t.speedVariance <= 1.0
    requires w1 <= w2
    ensures ComputeEnemySpeed(t, w1, draw) <= ComputeEnemySpeed(t, w2, draw)
  {
    RawSpeedSplit(t, w1, draw);
    RawSpeedSplit(t, w2, draw);
    CoefficientNonNegative(t, draw);
    assert WaveFactor(w1) <= WaveFactor(w2);
    ScaleMonotone(SpeedCoefficient(t, draw), WaveFactor(w1), WaveFactor(w2));
    assert RawSpeed(t, w1, draw) <= RawSpeed(t, w2, draw);
  }

  // ---------------------------------------------------------------------------
  // Records

  /**
   * One enemy. `id` is the serial N of the id string `e-N`; `diedAt` and
   * `lastBlink` are 0 while unset, as the source's falsy tests read them.
   */
  datatype Enemy = Enemy(
    id: nat,
    typeId: string,
    x: real,
    baseX: real,
    y: real,
    alive: bool,
    hp: real,
    maxHp: real,
    pattern: Pattern,
    scoreValue: nat,
    tier: nat,
    speed: real,
    spawnedAt: int,
    lastBlink: int,
    breached: bool,
    diedAt: int)

  /** One connected player. */
  datatype Player = Player(
    x: real,
    y: real,
    score: nat,
    lives: nat,
    hp: nat,
    dir: real,
    moveDir: real,
    name: string)

  /** One room: the record ensureRoom creates and every handler mutates. */
  datatype RoomState = RoomState(
    players: map<string, Player>,
    enemies: seq<Enemy>,
    wave: int,
    mood: real,
    enemyCounter: nat,
    pendingSpawns: nat,
    lastSpawn: int,
    spawnIntervalMs: int)

  /** The record ensureRoom stores for a room key it has not seen. */
  function InitialRoom(): RoomState {
    RoomState(map[], [], 1, 100.0, 0, 0, 0, 900)
  }

  // ---------------------------------------------------------------------------
  // Enemy ids: `e-${counter}`

  function DigitChar(d: nat): (c: char)
    requires d < 10
    ensures '0' <= c <= '9'
  {
    ('0' as int + d) as char
  }

  /** The decimal numeral of n, as a template literal prints it. */
  function DecimalString(n: nat): (s: string)
    ensures |s| >= 1
    ensures n >= 10 ==> |s| >= 2
    ensures forall k :: 0 <= k < |s| ==> '0' <= s[k] <= '9'
  {
    if n < 10 then [DigitChar(n)] else DecimalString(n / 10) + [DigitChar(n % 10)]
  }

  lemma {:induction false} DecimalStringInjective(a: nat, b: nat)
    requires DecimalString(a) == DecimalString(b)
    ensures a == b
  {
    var sa, sb := DecimalString(a), DecimalString(b);
    if a < 10 && b < 10 {
      assert sa[0] == DigitChar(a) && sb[0] == DigitChar(b);
    } else if a >= 10 && b >= 10 {
      assert sa[..|sa| - 1] == DecimalString(a / 10);
      assert sb[..|sb| - 1] == DecimalString(b / 10);
      DecimalStringInjective(a / 10, b / 10);
      assert sa[|sa| - 1] == DigitChar(a % 10) && sb[|sb| - 1] == DigitChar(b % 10);
    } else {
      // one numeral has a single digit and the other at least two
      assert false;
    }
  }

  function EnemyIdOf(serial: nat): (id: string)
    ensures |id| >= 3 && id[..2] == "e-"
  {
    "e-" + DecimalString(serial)
  }

  /** Distinct counter values give distinct id strings. */
  lemma EnemyIdInjective(a: nat, b: nat)
    ensures EnemyIdOf(a) == EnemyIdOf(b) <==> a == b
  {
    if EnemyIdOf(a) == EnemyIdOf(b) {
      assert EnemyIdOf(a)[2..] == DecimalString(a);
      assert EnemyIdOf(b)[2..] == DecimalString(b);
      DecimalStringInjective(a, b);
    }
  }

  // ---------------------------------------------------------------------------
  // Enemy construction

  /** The random draws createEnemy takes, each a Math.random() value in [0, 1). */
  datatype SpawnDraws = SpawnDraws(typeDraw: real, xDraw: real, yDraw: real, speedDraw: real)

  predicate ValidDraws(d: SpawnDraws) {
    && 0.0 <= d.typeDraw < 1.0
    && 0.0 <= d.xDraw < 1.0
    && 0.0 <= d.yDraw < 1.0
    && 0.0 <= d.speedDraw < 1.0
  }

  /** `ENEMY_LIBRARY[typeId] || ENEMY_LIBRARY.STRESS_CLOUD`. */
  function TypeOrDefault(typeId: string): EnemyType {
    if typeId in Library then Library[typeId] else StressCloud
  }

  /** createEnemy: the enemy with serial `serial`, built from the wave's plan and the draws. */
  function NewEnemy(wave: int, serial: nat, now: int, d: SpawnDraws): (e: Enemy)
    requires ValidDraws(d)
    ensures e.id == serial && e.alive && !e.breached && e.diedAt == 0 && e.lastBlink == 0
    ensures e.typeId in PlanFor(wave).types && e.typeId in Library
    ensures e.hp == e.maxHp >= 1.0
    ensures AnchorMin <= e.baseX <= AnchorMax && e.x == e.baseX
    ensures -70.0 < e.y <= -20.0
    ensures e.speed >= 40.0 && e.spawnedAt == now
    ensures e.typeId == PickTypeForWave(wave, d.typeDraw)
    ensures e.speed == ComputeEnemySpeed(Library[e.typeId], wave, d.speedDraw)
    ensures e.pattern == Library[e.typeId].pattern && e.tier == Library[e.typeId].tier
    ensures e.scoreValue == Library[e.typeId].scoreValue
    ensures e.maxHp == Library[e.typeId].maxHp as real
  {
    CatalogWellFormed();
    var typeId := PickTypeForWave(wave, d.typeDraw);
    var t := TypeOrDefault(typeId);
    var baseX := Clamp(30.0 + d.xDraw * (PlayfieldWidth - 60.0), AnchorMin, AnchorMax);
    var hp := if t.maxHp != 0 then t.maxHp else 1;
    Enemy(
      id := serial,
      typeId := typeId,
      x := baseX,
      baseX := baseX,
      y := -20.0 - d.yDraw * 50.0,
      alive := true,
      hp := hp as real,
      maxHp := hp as real,
      pattern := t.pattern,
      scoreValue := if t.scoreValue != 0 then t.scoreValue else 10,
      tier := if t.tier != 0 then t.tier else 1,
      speed := ComputeEnemySpeed(t, wave, d.speedDraw),
      spawnedAt := now,
      lastBlink := 0,
      breached := false,
      diedAt := 0)
  }

  // ---------------------------------------------------------------------------
  // Wave seeding and ensureRoom

  /** seedWave: schedule the wave's enemies, reset pacing, clear the list. */
  function Seed(s: RoomState): (r: RoomState)
    ensures r.pendingSpawns == SpawnCount(s.wave) && r.pendingSpawns > 0
    ensures r.spawnIntervalMs == SpawnInterval(s.wave) && r.spawnIntervalMs >= 350
    ensures r.enemies == [] && r.lastSpawn == 0
    ensures r.wave == s.wave && r.mood == s.mood && r.players == s.players
    ensures r.enemyCounter == s.enemyCounter
  {
    s.(pendingSpawns := SpawnCount(s.wave), lastSpawn := 0,
       spawnIntervalMs := SpawnInterval(s.wave), enemies := [])
  }

  /** The second half of ensureRoom: an idle room (no enemies, none pending) is seeded. */
  function SeedIfIdle(s: RoomState): (r: RoomState)
    ensures |s.enemies| == 0 && s.pendingSpawns == 0 ==> r == Seed(s)
    ensures !(|s.enemies| == 0 && s.pendingSpawns == 0) ==> r == s
  {
    if |s.enemies| == 0 && s.pendingSpawns == 0 then Seed(s) else s
  }

  // ---------------------------------------------------------------------------
  // Connections

  /** `clientId.slice(-3)`: the last three characters, or all of a shorter id. */
  function LastThree(id: string): (t: string)
    ensures |t| == if |id| < 3 then |id| else 3
    ensures id == id[..|id| - |t|] + t
  {
    if |id| < 3 then id else id[|id| - 3..]
  }

  /** The player record a new connection gets. */
  function NewPlayer(clientId: string): (p: Player)
    ensures LaneMin <= p.x <= LaneMax && p.y == PlayerLaneY && p.score == 0
  {
    Player(PlayfieldWidth / 2.0, PlayerLaneY, 0, 3, 3, 0.0, 0.0, "Player-" + LastThree(clientId))
  }

  function Join(s: RoomState, clientId: string): (r: RoomState)
    ensures r.players.Keys == s.players.Keys + {clientId}
    ensures r.players[clientId] == NewPlayer(clientId)
    ensures forall id :: id in s.players && id != clientId ==> r.players[id] == s.players[id]
    ensures r.(players := s.players) == s
  {
    s.(players := s.players[clientId := NewPlayer(clientId)])
  }

  function Leave(s: RoomState, clientId: string): (r: RoomState)
    ensures r.players.Keys == s.players.Keys - {clientId}
    ensures forall id :: id in r.players ==> r.players[id] == s.players[id]
    ensures r.(players := s.players) == s
  {
    s.(players := s.players - {clientId})
  }

  // ---------------------------------------------------------------------------
  // The `move` message

  /** `typeof msg.dx === 'number' ? msg.dx : typeof msg.dir === 'number' ? msg.dir : 0`. */
  function MoveDelta(dx: Option<real>, dir: Option<real>): (delta: real)
    ensures dx.Some? ==> delta == dx.value
    ensures dx.None? && dir.Some? ==> delta == dir.value
    ensures dx.None? && dir.None? ==> delta == 0.0
  {
    dx.GetOr(dir.GetOr(0.0))
  }

  /** One step of 14 px per unit of delta from the current x (440 if unset), kept in the lane. */
  function MovePlayer(p: Player, delta: real): (q: Player)
    ensures LaneMin <= q.x <= LaneMax && q.y == PlayerLaneY
    ensures p.x != 0.0 && LaneMin <= p.x + PlayerStep * delta <= LaneMax ==> q.x == p.x + PlayerStep * delta
    ensures q.x == Clamp((if p.x != 0.0 then p.x else PlayfieldWidth / 2.0) + PlayerStep * delta, LaneMin, LaneMax)
    ensures delta > 0.0 && p.x != 0.0 ==> q.x >= p.x || p.x > LaneMax
    ensures q.dir == delta && q.moveDir == delta
    ensures q.score == p.score && q.name == p.name && q.lives == p.lives && q.hp == p.hp
  {
    var from := if p.x != 0.0 then p.x else PlayfieldWidth / 2.0;
    p.(x := Clamp(from + PlayerStep * delta, LaneMin, LaneMax), y := PlayerLaneY,
       dir := delta, moveDir := delta)
  }

  /** The `move` branch: a message from a player no longer in the room changes nothing. */
  function HandleMove(s: RoomState, clientId: string, dx: Option<real>, dir: Option<real>): (r: RoomState)
    ensures clientId !in s.players ==> r == s
    ensures r.players.Keys == s.players.Keys && r.enemies == s.enemies
    ensures forall id :: id in s.players && id != clientId ==> r.players[id] == s.players[id]
    ensures clientId in s.players ==> LaneMin <= r.players[clientId].x <= LaneMax
    ensures clientId in s.players ==> r.players[clientId] == MovePlayer(s.players[clientId], MoveDelta(dx, dir))
    ensures r.(players := s.players) == s
  {
    if clientId in s.players then
      s.(players := s.players[clientId := MovePlayer(s.players[clientId], MoveDelta(dx, dir))])
    else s
  }

  // ---------------------------------------------------------------------------
  // The `hitEnemy` message

  /** `Math.max(1, msg.damage || 1)`. */
  function Damage(reported: Option<real>): (d: real)
    ensures d >= 1.0
    ensures reported.Some? && reported.value >= 1.0 ==> d == reported.value
    ensures reported.None? || reported.value <= 1.0 ==> d == 1.0
  {
    var asked := if reported.Some? && reported.value != 0.0 then reported.value else 1.0;
    if 1.0 < asked then asked else 1.0
  }

  /** `room.enemies.find(e => e.id === key)`: the first enemy whose id string is `key`. */
  function FindEnemy(es: seq<Enemy>, key: string): (r: Option<nat>)
    ensures r.Some? ==> r.value < |es| && EnemyIdOf(es[r.value].id) == key
    ensures r.Some? ==> forall j :: 0 <= j < r.value ==> EnemyIdOf(es[j].id) != key
    ensures r.None? ==> forall j :: 0 <= j < |es| ==> EnemyIdOf(es[j].id) != key
  {
    if es == [] then None
    else if EnemyIdOf(es[0].id) == key then Some(0)
    else match FindEnemy(es[1..], key)
      case None => None
      case Some(k) => Some(k + 1)
  }

  /** The points a kill awards: the enemy's own value, else the catalog's, else 10. */
  function Award(e: Enemy): (points: nat)
    ensures points > 0
    ensures e.scoreValue > 0 ==> points == e.scoreValue
  {
    if e.scoreValue != 0 then e.scoreValue
    else if e.typeId in Library && Library[e.typeId].scoreValue != 0 then Library[e.typeId].scoreValue
    else 10
  }

  /** Apply `damage` to a live enemy: hp floors at 0, and at 0 the enemy dies at `now`. */
  function DamageEnemy(e: Enemy, damage: real, now: int): (d: Enemy)
    requires e.alive && damage >= 1.0
    ensures d.hp == if e.hp - damage > 0.0 then e.hp - damage else 0.0
    ensures d.hp < e.hp || d.hp == 0.0
    ensures d.alive <==> d.hp > 0.0
    ensures !d.alive ==> d.diedAt == now
    ensures d.alive ==> d.diedAt == e.diedAt
    ensures d.(hp := e.hp, alive := e.alive, diedAt := e.diedAt) == e
  {
    var hp := if e.hp - damage > 0.0 then e.hp - damage else 0.0;
    if hp <= 0.0 then e.(hp := hp, alive := false, diedAt := now) else e.(hp := hp)
  }

  /**
   * The `hitEnemy` branch. A message from an unknown player, without an enemy id,
   * naming no enemy or naming a dead one changes nothing. Otherwise the enemy
   * takes the damage and, when that kills it, the reporting player scores.
   */
  function HandleHit(s: RoomState, clientId: string, enemyId: string, damage: Option<real>, now: int): (r: RoomState)
    ensures clientId !in s.players || enemyId == "" || FindEnemy(s.enemies, enemyId).None? ==> r == s
    ensures |r.enemies| == |s.enemies| && r.players.Keys == s.players.Keys
    ensures forall i :: 0 <= i < |s.enemies| && Some(i) != FindEnemy(s.enemies, enemyId) ==> r.enemies[i] == s.enemies[i]
    ensures forall id :: id in s.players && id != clientId ==> r.players[id] == s.players[id]
    ensures r.(enemies := s.enemies, players := s.players) == s
  {
    if clientId !in s.players || enemyId == "" then s
    else match FindEnemy(s.enemies, enemyId)
      case None => s
      case Some(i) =>
        var e := s.enemies[i];
        if !e.alive then s
        else
          var hit := DamageEnemy(e, Damage(damage), now);
          var p := s.players[clientId];
          s.(enemies := s.enemies[i := hit],
             players := if hit.alive then s.players else s.players[clientId := p.(score := p.score + Award(e))])
  }

  /** The parsed client messages the handler acts on; anything else is dropped. */
  datatype ClientMsg =
    | MoveMsg(dx: Option<real>, dir: Option<real>)
    | HitEnemyMsg(enemyId: string, damage: Option<real>)
    | OtherMsg

  /** The message handler: a sender no longer in the room, or an unrecognised message, is a no-op. */
  function HandleMessage(s: RoomState, clientId: string, msg: ClientMsg, now: int): (r: RoomState)
    ensures clientId !in s.players || msg.OtherMsg? ==> r == s
    ensures msg.MoveMsg? ==> r.enemies == s.enemies
    ensures msg.HitEnemyMsg? ==> r.players.Keys == s.players.Keys && |r.enemies| == |s.enemies|
    ensures r.(enemies := s.enemies, players := s.players) == s
  {
    match msg
    case MoveMsg(dx, dir) => HandleMove(s, clientId, dx, dir)
    case HitEnemyMsg(enemyId, damage) => HandleHit(s, clientId, enemyId, damage, now)
    case OtherMsg => s
  }

  // ---------------------------------------------------------------------------
  // Tick phase 1: spawn pacing

  /** A spawn is due while enemies are pending and the interval has passed (or none spawned yet). */
  predicate SpawnDue(s: RoomState, now: int) {
    s.pendingSpawns > 0 && (s.lastSpawn == 0 || now - s.lastSpawn >= s.spawnIntervalMs)
  }

  /** Create at most one enemy, taking its id from the counter. */
  function SpawnStep(s: RoomState, now: int, d: SpawnDraws): (r: RoomState)
    requires ValidDraws(d)
    ensures SpawnDue(s, now) ==> |r.enemies| == |s.enemies| + 1 && r.enemies[..|s.enemies|] == s.enemies
    ensures SpawnDue(s, now) ==> r.pendingSpawns == s.pendingSpawns - 1 && r.lastSpawn == now
    ensures SpawnDue(s, now) ==> r.enemyCounter == s.enemyCounter + 1 && r.enemies[|s.enemies|].id == s.enemyCounter
    ensures SpawnDue(s, now) ==> r.enemies[|s.enemies|] == NewEnemy(s.wave, s.enemyCounter, now, d)
    ensures !SpawnDue(s, now) ==> r == s
    ensures r.wave == s.wave && r.mood == s.mood && r.players == s.players
    ensures r.spawnIntervalMs == s.spawnIntervalMs
  {
    if SpawnDue(s, now) then
      s.(enemies := s.enemies + [NewEnemy(s.wave, s.enemyCounter, now, d)],
         enemyCounter := s.enemyCounter + 1,
         pendingSpawns := s.pendingSpawns - 1,
         lastSpawn := now)
    else s
  }

  // ---------------------------------------------------------------------------
  // Tick phase 2: movement patterns and breaches

  /** `enemy.baseX || enemy.x`. */
  function Anchor(e: Enemy): real {
    if e.baseX != 0.0 then e.baseX else e.x
  }

  /** Milliseconds since spawn: `now - (enemy.spawnedAt || now)`. */
  function ElapsedMs(e: Enemy, now: int): int {
    now - (if e.spawnedAt != 0 then e.spawnedAt else now)
  }

  /**
   * `Math.floor(t / half) % 2 === 0 ? amplitude : -amplitude` with t in seconds;
   * in milliseconds the floor is integer division by the half period.
   */
  function SquareWave(elapsedMs: int, halfPeriodMs: nat, amplitude: real): (o: real)
    requires halfPeriodMs > 0
    ensures o == amplitude || o == -amplitude
    ensures 0 <= elapsedMs < halfPeriodMs ==> o == amplitude
  {
    if (elapsedMs / halfPeriodMs) % 2 == 0 then amplitude else -amplitude
  }

  /** Half a period later the zigzag (650 ms) and dash (500 ms) square waves have the other sign. */
  lemma SquareWaveFlips(elapsedMs: int, halfPeriodMs: nat, amplitude: real)
    requires halfPeriodMs == 650 || halfPeriodMs == 500
    ensures SquareWave(elapsedMs + halfPeriodMs, halfPeriodMs, amplitude) == -SquareWave(elapsedMs, halfPeriodMs, amplitude)
  {
    if halfPeriodMs == 650 {
      NextHalfPeriod650(elapsedMs);
    } else {
      NextHalfPeriod500(elapsedMs);
    }
  }

  lemma NextHalfPeriod650(elapsedMs: int)
    ensures (elapsedMs + 650) / 650 == elapsedMs / 650 + 1
  {
  }

  lemma NextHalfPeriod500(elapsedMs: int)
    ensures (elapsedMs + 500) / 500 == elapsedMs / 500 + 1
  {
  }

  /** The horizontal offset from the anchor; `sine` stands for `Math.sin(t * 2.4 + phase) * 36`. */
  function PatternOffset(e: Enemy, now: int, sine: real): (o: real)
    ensures e.pattern == Sine ==> o == sine
    ensures e.pattern != Sine ==> -28.0 <= o <= 28.0
    ensures e.pattern == Straight || e.pattern == Blink ==> o == 0.0
    ensures e.pattern == Zigzag ==> o == SquareWave(ElapsedMs(e, now), 650, 28.0)
    ensures e.pattern == Dash ==> o == SquareWave(ElapsedMs(e, now), 500, 22.0)
  {
    match e.pattern
    case Sine => sine
    case Zigzag => SquareWave(ElapsedMs(e, now), 650, 28.0)
    case Dash => SquareWave(ElapsedMs(e, now), 500, 22.0)
    case _ => 0.0
  }

  /** A blink enemy jumps at most once every 700 ms. */
  predicate BlinkDue(e: Enemy, now: int) {
    e.lastBlink == 0 || now - e.lastBlink > BlinkCooldownMs
  }

  /**
   * One enemy's share of the tick: a dead enemy is untouched; a live one descends,
   * blinks or sways, is drawn inside the lane, and breaches once it reaches the threshold.
   */
  function Moved(e: Enemy, now: int, sine: real, blinkRight: bool): (m: Enemy)
    ensures !e.alive ==> m == e
    ensures e.alive ==> (m.alive <==> m.y < BottomThreshold)
    ensures e.alive ==> (m.breached <==> !m.alive || e.breached)
    ensures e.alive && !m.alive ==> m.diedAt == now
    ensures e.alive ==> LaneMin <= m.x <= LaneMax
    ensures e.alive ==>
      m.x == Clamp((if m.baseX != 0.0 then m.baseX else e.x) + PatternOffset(e, now, sine), LaneMin, LaneMax)
    ensures e.alive ==>
      m.y == e.y + e.speed * TickSec + (if e.pattern == Dash then e.speed * 0.18 * TickSec else 0.0)
    ensures e.alive && e.speed >= 0.0 ==> m.y >= e.y + e.speed * TickSec
    ensures e.alive && e.pattern == Blink && BlinkDue(e, now) ==>
      m.lastBlink == now && m.baseX == Clamp(Anchor(e) + (if blinkRight then 60.0 else -60.0), AnchorMin, AnchorMax)
    ensures !(e.alive && e.pattern == Blink && BlinkDue(e, now)) ==> m.baseX == e.baseX && m.lastBlink == e.lastBlink
    ensures AnchorMin <= e.baseX <= AnchorMax ==> AnchorMin <= m.baseX <= AnchorMax
    ensures m.id == e.id && m.hp == e.hp && m.maxHp == e.maxHp && m.typeId == e.typeId && m.speed == e.speed
    ensures m.(x := e.x, baseX := e.baseX, y := e.y, alive := e.alive, breached := e.breached,
               diedAt := e.diedAt, lastBlink := e.lastBlink) == e
  {
    if !e.alive then e
    else
      var y := e.y + e.speed * TickSec;
      var y' := if e.pattern == Dash then y + e.speed * 0.18 * TickSec else y;
      var blinks := e.pattern == Blink && BlinkDue(e, now);
      var baseX := if blinks then Clamp(Anchor(e) + (if blinkRight then 60.0 else -60.0), AnchorMin, AnchorMax)
                   else e.baseX;
      var stepped := e.(y := y', baseX := baseX, lastBlink := if blinks then now else e.lastBlink);
      var x := Clamp(Anchor(stepped) + PatternOffset(e, now, sine), LaneMin, LaneMax);
      if y' >= BottomThreshold then stepped.(x := x, alive := false, breached := true, diedAt := now)
      else stepped.(x := x)
  }

  /** `6 + (type.tier || 1) * 2`, the tier read from the catalog (`|| {}` when absent). */
  function BreachPenalty(typeId: string): (p: real)
    ensures 8.0 <= p <= 12.0
    ensures typeId in Library ==> p == (6 + 2 * Library[typeId].tier) as real
    ensures typeId !in Library ==> p == 8.0
  {
    CatalogWellFormed();
    var tier := if typeId in Library && Library[typeId].tier != 0 then Library[typeId].tier else 1;
    (6 + tier * 2) as real
  }

  /** The enemy breaches in this tick: alive before its move and not after. */
  predicate Breaches(e: Enemy, now: int, sine: nat -> real, blinkRight: nat -> bool) {
    e.alive && !Moved(e, now, sine(e.id), blinkRight(e.id)).alive
  }

  /** The room mood after the movement pass over `es`, breach by breach in list order. */
  function MoodAfter(es: seq<Enemy>, mood: real, now: int, sine: nat -> real, blinkRight: nat -> bool): (m: real)
    ensures 0.0 <= mood <= 100.0 ==> 0.0 <= m <= mood
    decreases |es|
  {
    if es == [] then mood
    else
      var before := MoodAfter(es[..|es| - 1], mood, now, sine, blinkRight);
      var e := es[|es| - 1];
      if Breaches(e, now, sine, blinkRight) then Clamp(before - BreachPenalty(e.typeId), 0.0, 100.0)
      else before
  }

  /** A breach costs exactly its penalty, floored at 0. */
  lemma BreachCostsPenalty(es: seq<Enemy>, e: Enemy, mood: real, now: int, sine: nat -> real, blinkRight: nat -> bool)
    requires 0.0 <= mood <= 100.0
    requires Breaches(e, now, sine, blinkRight)
    ensures var before := MoodAfter(es, mood, now, sine, blinkRight);
            MoodAfter(es + [e], mood, now, sine, blinkRight)
              == if before - BreachPenalty(e.typeId) > 0.0 then before - BreachPenalty(e.typeId) else 0.0
  {
    assert (es + [e])[..|es|] == es;
  }

  /** A pass in which nothing breaches leaves the mood alone. */
  lemma {:induction false} NoBreachKeepsMood(es: seq<Enemy>, mood: real, now: int, sine: nat -> real, blinkRight: nat -> bool)
    requires forall i :: 0 <= i < |es| ==> !Breaches(es[i], now, sine, blinkRight)
    ensures MoodAfter(es, mood, now, sine, blinkRight) == mood
    decreases |es|
  {
    if es != [] {
      NoBreachKeepsMood(es[..|es| - 1], mood, now, sine, blinkRight);
    }
  }

  function MoveAll(es: seq<Enemy>, now: int, sine: nat -> real, blinkRight: nat -> bool): (r: seq<Enemy>)
    ensures |r| == |es|
    ensures forall i :: 0 <= i < |es| ==> r[i].id == es[i].id && r[i].hp == es[i].hp && (r[i].alive ==> es[i].alive)
    ensures forall i :: 0 <= i < |es| && !es[i].alive ==> r[i] == es[i]
    ensures forall i :: 0 <= i < |es| ==> r[i] == Moved(es[i], now, sine(es[i].id), blinkRight(es[i].id))
  {
    var r := seq(|es|, i requires 0 <= i < |es| => Moved(es[i], now, sine(es[i].id), blinkRight(es[i].id)));
    assert forall i :: 0 <= i < |es| ==> r[i] == Moved(es[i], now, sine(es[i].id), blinkRight(es[i].id));
    r
  }

  function MoveStep(s: RoomState, now: int, sine: nat -> real, blinkRight: nat -> bool): (r: RoomState)
    ensures |r.enemies| == |s.enemies|
    ensures 0.0 <= s.mood <= 100.0 ==> 0.0 <= r.mood <= s.mood
    ensures r.(enemies := s.enemies, mood := s.mood) == s
    ensures r.enemies == MoveAll(s.enemies, now, sine, blinkRight)
    ensures r.mood == MoodAfter(s.enemies, s.mood, now, sine, blinkRight)
  {
    s.(enemies := MoveAll(s.enemies, now, sine, blinkRight),
       mood := MoodAfter(s.enemies, s.mood, now, sine, blinkRight))
  }

  // ---------------------------------------------------------------------------
  // Tick phase 3: grace-window cleanup

  /** `e.alive || now - (e.diedAt || now) < 2000`. */
  predicate Keep(e: Enemy, now: int) {
    e.alive || now - (if e.diedAt != 0 then e.diedAt else now) < GraceMs
  }

  /** `room.enemies.filter(...)`: the kept enemies, in their order. */
  function Purge(es: seq<Enemy>, now: int): (r: seq<Enemy>)
    ensures forall e :: e in r <==> e in es && Keep(e, now)
    ensures |r| <= |es|
  {
    if es == [] then []
    else (if Keep(es[0], now) then [es[0]] else []) + Purge(es[1..], now)
  }

  predicate IdsIncreasing(es: seq<Enemy>) {
    forall i, j :: 0 <= i < j < |es| ==> es[i].id < es[j].id
  }

  /** Filtering keeps the order, so ids stay strictly increasing. */
  lemma {:induction false} PurgeKeepsIdsIncreasing(es: seq<Enemy>, now: int)
    requires IdsIncreasing(es)
    ensures IdsIncreasing(Purge(es, now))
    decreases |es|
  {
    if es != [] {
      PurgeKeepsIdsIncreasing(es[1..], now);
      HeadBelowRest(es, now);
      if Keep(es[0], now) {
        ConsIncreasing(es[0], Purge(es[1..], now));
      }
    }
  }

  /** In an increasing list, the head's id is below every kept id of the tail. */
  lemma HeadBelowRest(es: seq<Enemy>, now: int)
    requires es != [] && IdsIncreasing(es)
    ensures forall e :: e in Purge(es[1..], now) ==> es[0].id < e.id
  {
    var tail := es[1..];
    forall e | e in Purge(tail, now) ensures es[0].id < e.id {
      var k :| 0 <= k < |tail| && tail[k] == e;
      assert es[k + 1] == e;
    }
  }

  /** An increasing list stays increasing under a head below all of it. */
  lemma ConsIncreasing(x: Enemy, rest: seq<Enemy>)
    requires IdsIncreasing(rest)
    requires forall e :: e in rest ==> x.id < e.id
    ensures IdsIncreasing([x] + rest)
  {
    var r := [x] + rest;
    forall i, j | 0 <= i < j < |r| ensures r[i].id < r[j].id {
      if i == 0 {
        assert r[j] == rest[j - 1] && r[j] in rest;
      } else {
        assert r[i] == rest[i - 1] && r[j] == rest[j - 1];
      }
    }
  }

  function PurgeStep(s: RoomState, now: int): (r: RoomState)
    ensures forall e :: e in r.enemies <==> e in s.enemies && Keep(e, now)
    ensures r.(enemies := s.enemies) == s
  {
    s.(enemies := Purge(s.enemies, now))
  }

  // ---------------------------------------------------------------------------
  // Tick phase 4: wave advance

  predicate AnyAlive(es: seq<Enemy>) {
    exists i :: 0 <= i < |es| && es[i].alive
  }

  /** When nothing is pending and nothing is alive, the next wave starts. */
  function AdvanceStep(s: RoomState): (r: RoomState)
    ensures s.pendingSpawns == 0 && !AnyAlive(s.enemies) ==> r.wave == s.wave + 1 && r.enemies == [] && r.pendingSpawns > 0
    ensures !(s.pendingSpawns == 0 && !AnyAlive(s.enemies)) ==> r == s
    ensures r.players == s.players && r.mood == s.mood && r.enemyCounter == s.enemyCounter
  {
    if s.pendingSpawns == 0 && !AnyAlive(s.enemies) then Seed(s.(wave := s.wave + 1)) else s
  }

  /** The state after the simulation phases of a tick, before the wave check. */
  function Simulated(s: RoomState, now: int, d: SpawnDraws, sine: nat -> real, blinkRight: nat -> bool): (r: RoomState)
    requires ValidDraws(d)
    ensures r.wave == s.wave && r.players == s.players && r.spawnIntervalMs == s.spawnIntervalMs
    ensures r.enemyCounter == s.enemyCounter + (if SpawnDue(s, now) then 1 else 0)
    ensures r.pendingSpawns == s.pendingSpawns - (if SpawnDue(s, now) then 1 else 0)
    ensures r.lastSpawn == if SpawnDue(s, now) then now else s.lastSpawn
    ensures 0.0 <= s.mood <= 100.0 ==> 0.0 <= r.mood <= s.mood
    ensures r.mood == MoodAfter(SpawnStep(s, now, d).enemies, s.mood, now, sine, blinkRight)
    ensures r.enemies == Purge(MoveAll(SpawnStep(s, now, d).enemies, now, sine, blinkRight), now)
  {
    PurgeStep(MoveStep(SpawnStep(s, now, d), now, sine, blinkRight), now)
  }

  /** One tick of one room: spawn, move and breach, clean up, advance the wave. */
  function TickSpec(s: RoomState, now: int, d: SpawnDraws, sine: nat -> real, blinkRight: nat -> bool): (r: RoomState)
    requires ValidDraws(d)
    ensures r.wave == s.wave || r.wave == s.wave + 1
    ensures r.players == s.players && r.enemyCounter >= s.enemyCounter
    ensures 0.0 <= s.mood <= 100.0 ==> 0.0 <= r.mood <= s.mood
    ensures r.wave == s.wave ==>
      r.spawnIntervalMs == s.spawnIntervalMs && r.lastSpawn == (if SpawnDue(s, now) then now else s.lastSpawn)
  {
    AdvanceStep(Simulated(s, now, d, sine, blinkRight))
  }

  // ---------------------------------------------------------------------------
  // The room invariant

  predicate PlayerOk(p: Player) {
    LaneMin <= p.x <= LaneMax && p.y == PlayerLaneY
  }

  predicate EnemyOk(e: Enemy) {
    && e.typeId in Library
    && 1.0 <= e.maxHp && 0.0 <= e.hp <= e.maxHp
    && (e.alive ==> e.hp > 0.0 && !e.breached)
    && AnchorMin <= e.baseX <= AnchorMax && LaneMin <= e.x <= LaneMax
    && e.speed >= 40.0
  }

  /**
   * What holds of a room between any two events: wave at least 1, mood in
   * [0, 100], interval at least 350 ms, every player in the lane, enemy ids
   * strictly increasing and all below the counter, every enemy well formed.
   */
  predicate Inv(s: RoomState) {
    && s.wave >= 1
    && 0.0 <= s.mood <= 100.0
    && s.spawnIntervalMs >= 350
    && (forall id :: id in s.players ==> PlayerOk(s.players[id]))
    && IdsIncreasing(s.enemies)
    && (forall i :: 0 <= i < |s.enemies| ==> s.enemies[i].id < s.enemyCounter && EnemyOk(s.enemies[i]))
  }
}
