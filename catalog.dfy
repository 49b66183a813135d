/**
 * The immutable enemy catalog and the fixed wave plan the server reads.
 * Values are those of the browser catalog in app/webapp/enemyTypes.js and of
 * WAVE_PLAN in srv/service.js.
 */
module Catalog {

  /** The movement pattern tag an enemy type declares. */
  datatype Pattern = Straight | Sine | Zigzag | Dash | Blink

  /** The attributes of one enemy type the simulation reads. */
  datatype EnemyType = EnemyType(
    id: string,
    tier: nat,
    maxHp: nat,
    baseSpeed: real,
    speedVariance: real,
    pattern: Pattern,
    scoreValue: nat,
    onReachBottomEffect: string)

  const StressCloud := EnemyType("STRESS_CLOUD", 1, 2, 90.0, 0.2, Sine, 50, "teamStress")
  const DeadlineMeteor := EnemyType("DEADLINE_METEOR", 2, 4, 90.0, 0.1, Dash, 120, "bigStressSpike")
  const BurnoutShadow := EnemyType("BURNOUT_SHADOW", 3, 6, 60.0, 0.1, Straight, 200, "majorTeamHpLoss")
  const RumorBubble := EnemyType("RUMOR_BUBBLE", 1, 1, 70.0, 0.25, Zigzag, 80, "teamMiscommunication")
  const LegacyRfcMonster := EnemyType("LEGACY_RFC_MONSTER", 3, 8, 50.0, 0.1, Straight, 300, "systemSlowdown")
  const IdocGhost := EnemyType("IDOC_GHOST", 2, 3, 80.0, 0.2, Blink, 150, "dataConfusion")
  const TransportFreezeBlob := EnemyType("TRANSPORT_FREEZE_BLOB", 2, 4, 70.0, 0.15, Sine, 130, "transportBlock")
  const PerformanceDumpCloud := EnemyType("PERFORMANCE_DUMP_CLOUD", 2, 5, 75.0, 0.15, Straight, 180, "perfPenalty")
  const TaskOverloadSwarm := EnemyType("TASK_OVERLOAD_SWARM", 1, 3, 100.0, 0.1, Zigzag, 90, "teamOverload")

  /** ENEMY_LIBRARY: type id to type record. */
  const Library: map<string, EnemyType> := map[
    StressCloud.id := StressCloud,
    DeadlineMeteor.id := DeadlineMeteor,
    BurnoutShadow.id := BurnoutShadow,
    RumorBubble.id := RumorBubble,
    LegacyRfcMonster.id := LegacyRfcMonster,
    IdocGhost.id := IdocGhost,
    TransportFreezeBlob.id := TransportFreezeBlob,
    PerformanceDumpCloud.id := PerformanceDumpCloud,
    TaskOverloadSwarm.id := TaskOverloadSwarm]

  /** One entry of WAVE_PLAN: the type ids that may spawn and the base enemy count. */
  datatype WaveDef = WaveDef(types: seq<string>, count: nat)

  const WavePlan: seq<WaveDef> := [
    WaveDef(["STRESS_CLOUD", "RUMOR_BUBBLE"], 10),
    WaveDef(["STRESS_CLOUD", "RUMOR_BUBBLE", "DEADLINE_METEOR", "TASK_OVERLOAD_SWARM"], 12),
    WaveDef(["DEADLINE_METEOR", "TASK_OVERLOAD_SWARM", "PERFORMANCE_DUMP_CLOUD", "IDOC_GHOST"], 14),
    WaveDef(["BURNOUT_SHADOW", "LEGACY_RFC_MONSTER", "PERFORMANCE_DUMP_CLOUD", "TRANSPORT_FREEZE_BLOB"], 10)]

  /** Every catalog entry is keyed by its own id and has a tier in 1..3, hp and a score. */
  ghost predicate WellFormedType(key: string, t: EnemyType) {
    t.id == key && 1 <= t.tier <= 3 && t.maxHp >= 1 && t.scoreValue > 0
    && t.baseSpeed > 0.0 && 0.0 <= t.speedVariance < 1.0
  }

  /** Every wave definition is non-empty and names only catalog types. */
  ghost predicate WellFormedWave(w: WaveDef) {
    |w.types| > 0 && w.count > 0 && forall k :: 0 <= k < |w.types| ==> w.types[k] in Library
  }

  lemma CatalogWellFormed()
    ensures forall key :: key in Library ==> WellFormedType(key, Library[key])
    ensures |WavePlan| == 4
    ensures forall i :: 0 <= i < |WavePlan| ==> WellFormedWave(WavePlan[i])
  {
  }
}
