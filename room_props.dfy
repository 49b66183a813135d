/**
 * What the room simulation promises, proved about the functions of RoomSpec:
 * every event keeps the room invariant (mood in [0, 100], players in the lane,
 * enemy ids unique and below the counter), hits only lower hp and only raise
 * scores, a dead enemy absorbs further hits, ids are never reissued, spawns are
 * paced, and a wave advances exactly when nothing is pending and nothing lives.
 */
module RoomProperties {
  import opened Wrappers
  import opened Catalog
  import opened RoomSpec

  // ---------------------------------------------------------------------------
  // Creation, seeding and connections

  lemma InitialRoomSeeded()
    ensures Inv(InitialRoom())
    ensures var r := SeedIfIdle(InitialRoom());
            Inv(r) && r.wave == 1 && r.mood == 100.0 && r.pendingSpawns == 10 && r.spawnIntervalMs == 840
  {
    SpawnCountOfPlannedWaves(1);
  }

  lemma SeedKeepsInv(s: RoomState)
    requires Inv(s)
    ensures Inv(Seed(s)) && Inv(SeedIfIdle(s))
  {
  }

  lemma JoinLeaveKeepInv(s: RoomState, clientId: string)
    requires Inv(s)
    ensures Inv(Join(s, clientId)) && Inv(Leave(s, clientId))
  {
  }

  lemma MoveKeepsInv(s: RoomState, clientId: string, dx: Option<real>, dir: Option<real>)
    requires Inv(s)
    ensures Inv(HandleMove(s, clientId, dx, dir))
  {
  }

  // ---------------------------------------------------------------------------
  // Hits

  /** With unique serials, looking an enemy up by its id string finds exactly that enemy. */
  lemma FindBySerial(es: seq<Enemy>, i: nat)
    requires IdsIncreasing(es) && i < |es|
    ensures FindEnemy(es, EnemyIdOf(es[i].id)) == Some(i)
  {
    var r := FindEnemy(es, EnemyIdOf(es[i].id));
    assert r.Some?;
    EnemyIdInjective(es[r.value].id, es[i].id);
    assert es[r.value].id == es[i].id;
  }

  /** The lookup depends only on the ids, in order. */
  lemma {:induction false} FindEnemySameIds(es: seq<Enemy>, fs: seq<Enemy>, key: string)
    requires |es| == |fs| && forall i :: 0 <= i < |es| ==> es[i].id == fs[i].id
    ensures FindEnemy(es, key) == FindEnemy(fs, key)
    decreases |es|
  {
    if es != [] {
      FindEnemySameIds(es[1..], fs[1..], key);
    }
  }

  /** A hit from a missing player, naming no enemy or a dead one, changes nothing. */
  lemma HitOnMissingOrDeadIsNoOp(s: RoomState, clientId: string, enemyId: string, damage: Option<real>, now: int)
    requires clientId !in s.players || FindEnemy(s.enemies, enemyId).None?
             || !s.enemies[FindEnemy(s.enemies, enemyId).value].alive
    ensures HandleHit(s, clientId, enemyId, damage, now) == s
  {
  }

  /** A hit lowers at most one enemy's hp, never revives, and only raises scores. */
  lemma HitMonotone(s: RoomState, clientId: string, enemyId: string, damage: Option<real>, now: int)
    requires Inv(s)
    ensures var r := HandleHit(s, clientId, enemyId, damage, now);
      && |r.enemies| == |s.enemies|
      && (forall i :: 0 <= i < |s.enemies| ==>
            && r.enemies[i].id == s.enemies[i].id
            && 0.0 <= r.enemies[i].hp <= s.enemies[i].hp
            && (r.enemies[i].alive ==> s.enemies[i].alive))
      && r.players.Keys == s.players.Keys
      && (forall id :: id in s.players ==> r.players[id].score >= s.players[id].score)
      && r.mood == s.mood && r.wave == s.wave && r.pendingSpawns == s.pendingSpawns
      && r.enemyCounter == s.enemyCounter
  {
  }

  /** A hit that takes a live enemy to 0 hp kills it and pays its value to the reporter. */
  lemma HitKills(s: RoomState, clientId: string, enemyId: string, damage: Option<real>, now: int, i: nat)
    requires clientId in s.players && enemyId != ""
    requires FindEnemy(s.enemies, enemyId) == Some(i) && s.enemies[i].alive
    ensures var r := HandleHit(s, clientId, enemyId, damage, now);
            var e := s.enemies[i];
      && (e.hp - Damage(damage) <= 0.0 ==>
            && r.enemies[i].hp == 0.0 && !r.enemies[i].alive && r.enemies[i].diedAt == now
            && r.players[clientId].score == s.players[clientId].score + Award(e))
      && (e.hp - Damage(damage) > 0.0 ==>
            && r.enemies[i].hp == e.hp - Damage(damage) && r.enemies[i].alive
            && r.players == s.players)
  {
  }

  /** Repeating a hit on an enemy it killed changes nothing the second time. */
  lemma HitIdempotentOnceDead(s: RoomState, clientId: string, enemyId: string, d1: Option<real>, t1: int,
                               other: string, d2: Option<real>, t2: int)
    requires FindEnemy(s.enemies, enemyId).Some?
    requires !HandleHit(s, clientId, enemyId, d1, t1).enemies[FindEnemy(s.enemies, enemyId).value].alive
    ensures var r := HandleHit(s, clientId, enemyId, d1, t1);
            HandleHit(r, other, enemyId, d2, t2) == r
  {
    var r := HandleHit(s, clientId, enemyId, d1, t1);
    assert |r.enemies| == |s.enemies| && forall i :: 0 <= i < |s.enemies| ==> r.enemies[i].id == s.enemies[i].id;
    FindEnemySameIds(r.enemies, s.enemies, enemyId);
  }

  lemma HitKeepsInv(s: RoomState, clientId: string, enemyId: string, damage: Option<real>, now: int)
    requires Inv(s)
    ensures Inv(HandleHit(s, clientId, enemyId, damage, now))
  {
    var r := HandleHit(s, clientId, enemyId, damage, now);
    HitMonotone(s, clientId, enemyId, damage, now);
    assert forall i :: 0 <= i < |r.enemies| ==> EnemyOk(r.enemies[i]);
  }

  /** A two-hp enemy worth 50 takes two default hits: alive at 1 hp, then dead and paid. */
  lemma TwoHitScenario(s: RoomState, clientId: string, t1: int, t2: int)
    requires clientId in s.players && |s.enemies| == 1
    requires s.enemies[0].alive && s.enemies[0].hp == 2.0 && s.enemies[0].scoreValue == 50
    ensures var key := EnemyIdOf(s.enemies[0].id);
            var r1 := HandleHit(s, clientId, key, None, t1);
            var r2 := HandleHit(r1, clientId, key, None, t2);
      && r1.enemies[0].hp == 1.0 && r1.enemies[0].alive
      && r2.enemies[0].hp == 0.0 && !r2.enemies[0].alive
      && r2.players[clientId].score == s.players[clientId].score + 50
  {
    var key := EnemyIdOf(s.enemies[0].id);
    assert FindEnemy(s.enemies, key) == Some(0);
    var r1 := HandleHit(s, clientId, key, None, t1);
    assert FindEnemy(r1.enemies, key) == Some(0);
  }

  /** Whatever a client sends, the room stays valid, no enemy gains hp and no score drops. */
  lemma MessageKeepsInv(s: RoomState, clientId: string, msg: ClientMsg, now: int)
    requires Inv(s)
    ensures var r := HandleMessage(s, clientId, msg, now);
      && Inv(r)
      && |r.enemies| == |s.enemies|
      && (forall i :: 0 <= i < |s.enemies| ==> r.enemies[i].id == s.enemies[i].id && r.enemies[i].hp <= s.enemies[i].hp)
      && r.players.Keys == s.players.Keys
      && (forall id :: id in s.players ==> r.players[id].score >= s.players[id].score)
  {
    match msg
    case MoveMsg(dx, dir) => MoveKeepsInv(s, clientId, dx, dir);
    case HitEnemyMsg(enemyId, damage) =>
      HitKeepsInv(s, clientId, enemyId, damage, now);
      HitMonotone(s, clientId, enemyId, damage, now);
    case OtherMsg =>
  }

  // ---------------------------------------------------------------------------
  // The tick, phase by phase

  lemma SpawnKeepsInv(s: RoomState, now: int, d: SpawnDraws)
    requires Inv(s) && ValidDraws(d)
    ensures Inv(SpawnStep(s, now, d))
  {
    var r := SpawnStep(s, now, d);
    if SpawnDue(s, now) {
      assert r.enemies == s.enemies + [NewEnemy(s.wave, s.enemyCounter, now, d)];
    }
  }

  lemma MoveStepKeepsInv(s: RoomState, now: int, sine: nat -> real, blinkRight: nat -> bool)
    requires Inv(s)
    ensures Inv(MoveStep(s, now, sine, blinkRight))
  {
    var r := MoveStep(s, now, sine, blinkRight);
    forall i | 0 <= i < |r.enemies| ensures r.enemies[i].id == s.enemies[i].id && EnemyOk(r.enemies[i]) {
      var e := s.enemies[i];
      assert EnemyOk(e);
      assert r.enemies[i] == Moved(e, now, sine(e.id), blinkRight(e.id));
    }
  }

  lemma PurgeKeepsInv(s: RoomState, now: int)
    requires Inv(s)
    ensures Inv(PurgeStep(s, now))
  {
    PurgeKeepsIdsIncreasing(s.enemies, now);
    var r := PurgeStep(s, now);
    forall i | 0 <= i < |r.enemies| ensures r.enemies[i].id < r.enemyCounter && EnemyOk(r.enemies[i]) {
      assert r.enemies[i] in s.enemies;
    }
  }

  lemma TickKeepsInv(s: RoomState, now: int, d: SpawnDraws, sine: nat -> real, blinkRight: nat -> bool)
    requires Inv(s) && ValidDraws(d)
    ensures Inv(TickSpec(s, now, d, sine, blinkRight))
  {
    var s1 := SpawnStep(s, now, d);
    SpawnKeepsInv(s, now, d);
    var s2 := MoveStep(s1, now, sine, blinkRight);
    MoveStepKeepsInv(s1, now, sine, blinkRight);
    PurgeKeepsInv(s2, now);
  }

  /**
   * The wave advances by exactly one when, after the simulation phases, nothing
   * is pending and no enemy is alive, and only then; the new wave is seeded.
   */
  lemma TickWaveAdvance(s: RoomState, now: int, d: SpawnDraws, sine: nat -> real, blinkRight: nat -> bool)
    requires ValidDraws(d)
    ensures var m := Simulated(s, now, d, sine, blinkRight);
            var r := TickSpec(s, now, d, sine, blinkRight);
      && (r.wave == s.wave + 1 <==> m.pendingSpawns == 0 && !AnyAlive(m.enemies))
      && (r.wave == s.wave + 1 ==>
            r.pendingSpawns == SpawnCount(s.wave + 1) && r.pendingSpawns > 0
            && r.enemies == [] && r.lastSpawn == 0 && r.spawnIntervalMs == SpawnInterval(s.wave + 1))
      && (r.wave != s.wave + 1 ==> r == m && r.wave == s.wave)
  {
  }

  /** A tick creates at most one enemy, and does so exactly when a spawn was due. */
  lemma TickSpawnsAtMostOne(s: RoomState, now: int, d: SpawnDraws, sine: nat -> real, blinkRight: nat -> bool)
    requires ValidDraws(d)
    ensures var r := TickSpec(s, now, d, sine, blinkRight);
      && r.enemyCounter == s.enemyCounter + (if SpawnDue(s, now) then 1 else 0)
      && (r.wave == s.wave ==> r.pendingSpawns == s.pendingSpawns - (if SpawnDue(s, now) then 1 else 0))
  {
  }

  /** Every enemy left after the simulation phases is the move of one enemy present after the spawn phase. */
  lemma SimulatedOrigin(s: RoomState, now: int, d: SpawnDraws, sine: nat -> real, blinkRight: nat -> bool, e: Enemy)
    returns (j: nat)
    requires ValidDraws(d) && e in Simulated(s, now, d, sine, blinkRight).enemies
    ensures var s1 := SpawnStep(s, now, d);
            j < |s1.enemies| && e == Moved(s1.enemies[j], now, sine(s1.enemies[j].id), blinkRight(s1.enemies[j].id))
  {
    var s1 := SpawnStep(s, now, d);
    var s2 := MoveStep(s1, now, sine, blinkRight);
    assert e in s2.enemies;
    j :| 0 <= j < |s2.enemies| && s2.enemies[j] == e;
  }

  /** Every enemy after a tick was already in the room or is the one just created with the counter's value. */
  lemma TickIdsNeverReused(s: RoomState, now: int, d: SpawnDraws, sine: nat -> real, blinkRight: nat -> bool)
    requires Inv(s) && ValidDraws(d)
    ensures var r := TickSpec(s, now, d, sine, blinkRight);
      && r.enemyCounter >= s.enemyCounter
      && forall e :: e in r.enemies ==>
           (exists k :: 0 <= k < |s.enemies| && s.enemies[k].id == e.id)
           || (e.id == s.enemyCounter && SpawnDue(s, now))
  {
    var s1 := SpawnStep(s, now, d);
    var r := TickSpec(s, now, d, sine, blinkRight);
    forall e | e in r.enemies
      ensures (exists k :: 0 <= k < |s.enemies| && s.enemies[k].id == e.id)
              || (e.id == s.enemyCounter && SpawnDue(s, now))
    {
      var j := SimulatedOrigin(s, now, d, sine, blinkRight, e);
      if j < |s.enemies| {
        assert s1.enemies[j] == s.enemies[j];
      }
    }
  }

  /** The tick never touches players or enemy hp. */
  lemma TickKeepsPlayersAndHp(s: RoomState, now: int, d: SpawnDraws, sine: nat -> real, blinkRight: nat -> bool)
    requires Inv(s) && ValidDraws(d)
    ensures var r := TickSpec(s, now, d, sine, blinkRight);
      && r.players == s.players
      && forall e, k :: e in r.enemies && 0 <= k < |s.enemies| && s.enemies[k].id == e.id ==> e.hp == s.enemies[k].hp
  {
    var s1 := SpawnStep(s, now, d);
    var r := TickSpec(s, now, d, sine, blinkRight);
    forall e, k | e in r.enemies && 0 <= k < |s.enemies| && s.enemies[k].id == e.id
      ensures e.hp == s.enemies[k].hp
    {
      var j := SimulatedOrigin(s, now, d, sine, blinkRight, e);
      if j < |s.enemies| {
        assert s1.enemies[j] == s.enemies[j];
      }
    }
  }

  /**
   * After a spawn at a nonzero time `t1`, as long as the wave is unchanged, the
   * next spawn is not due before `t1 + spawnIntervalMs`.
   */
  lemma TickSpawnPacing(s: RoomState, t1: int, d: SpawnDraws, sine: nat -> real, blinkRight: nat -> bool, t2: int)
    requires ValidDraws(d) && SpawnDue(s, t1) && t1 != 0
    requires TickSpec(s, t1, d, sine, blinkRight).wave == s.wave
    requires SpawnDue(TickSpec(s, t1, d, sine, blinkRight), t2)
    ensures t2 - t1 >= s.spawnIntervalMs
  {
    TickWaveAdvance(s, t1, d, sine, blinkRight);
  }

  // ---------------------------------------------------------------------------
  // Spawn pacing over a run of events

  /**
   * What reaches one room: a connection (ensureRoom, then the new player), a
   * message from a client, a disconnection, or one pass of the interval loop.
   */
  datatype Event =
    | Connect(clientId: string)
    | Message(clientId: string, msg: ClientMsg, at: int)
    | Disconnect(clientId: string)
    | Tick(now: int, draws: SpawnDraws, sine: nat -> real, blinkRight: nat -> bool)

  predicate EventOk(ev: Event) {
    ev.Tick? ==> ValidDraws(ev.draws)
  }

  predicate AllOk(evs: seq<Event>) {
    forall i :: 0 <= i < |evs| ==> EventOk(evs[i])
  }

  /** The room after one event; only a tick can move to the next wave. */
  function Apply(s: RoomState, ev: Event): (r: RoomState)
    requires EventOk(ev)
    ensures r.wave == s.wave || (ev.Tick? && r.wave == s.wave + 1)
  {
    match ev
    case Connect(id) => Join(SeedIfIdle(s), id)
    case Message(id, msg, at) => HandleMessage(s, id, msg, at)
    case Disconnect(id) => Leave(s, id)
    case Tick(now, d, sine, blinkRight) => TickSpec(s, now, d, sine, blinkRight)
  }

  /** The room after the events in order; waves never go back. */
  function Run(s: RoomState, evs: seq<Event>): (r: RoomState)
    requires AllOk(evs)
    ensures r.wave >= s.wave
    decreases |evs|
  {
    if evs == [] then s else Run(Apply(s, evs[0]), evs[1..])
  }

  /** The event is a tick that creates an enemy. */
  predicate Spawns(s: RoomState, ev: Event) {
    ev.Tick? && SpawnDue(s, ev.now)
  }

  /** No event of the run creates an enemy. */
  predicate Quiet(s: RoomState, evs: seq<Event>)
    requires AllOk(evs)
    decreases |evs|
  {
    evs == [] || (!Spawns(s, evs[0]) && Quiet(Apply(s, evs[0]), evs[1..]))
  }

  /** The room has enemies listed or scheduled, so ensureRoom leaves it alone. */
  predicate Busy(s: RoomState) {
    s.pendingSpawns > 0 || |s.enemies| > 0
  }

  /** A tick that stays in its wave leaves the room busy: otherwise the wave would have advanced. */
  lemma TickInWaveBusy(s: RoomState, now: int, d: SpawnDraws, sine: nat -> real, blinkRight: nat -> bool)
    requires ValidDraws(d)
    requires TickSpec(s, now, d, sine, blinkRight).wave == s.wave
    ensures Busy(TickSpec(s, now, d, sine, blinkRight))
  {
    var m := Simulated(s, now, d, sine, blinkRight);
    assert !(m.pendingSpawns == 0 && !AnyAlive(m.enemies));
    assert TickSpec(s, now, d, sine, blinkRight) == m;
  }

  /**
   * A tick that creates no enemy and stays in its wave keeps the time of the
   * last spawn and the interval.
   */
  lemma QuietTickKeepsPacing(s: RoomState, now: int, d: SpawnDraws, sine: nat -> real, blinkRight: nat -> bool)
    requires ValidDraws(d) && !SpawnDue(s, now)
    requires TickSpec(s, now, d, sine, blinkRight).wave == s.wave
    ensures var r := TickSpec(s, now, d, sine, blinkRight);
      r.lastSpawn == s.lastSpawn && r.spawnIntervalMs == s.spawnIntervalMs && Busy(r)
  {
    TickInWaveBusy(s, now, d, sine, blinkRight);
  }

  /** Messages, connections to a busy room and disconnections keep the pacing and the room busy. */
  lemma ClientEventKeepsPacing(s: RoomState, ev: Event)
    requires !ev.Tick? && Busy(s)
    ensures var r := Apply(s, ev);
      && r.wave == s.wave && r.lastSpawn == s.lastSpawn && r.spawnIntervalMs == s.spawnIntervalMs
      && r.pendingSpawns == s.pendingSpawns && Busy(r)
  {
  }

  /** A run without spawns that ends in the wave it started in keeps the pacing. */
  lemma {:induction false} QuietRunKeepsPacing(s: RoomState, evs: seq<Event>)
    requires AllOk(evs) && Busy(s) && Quiet(s, evs)
    requires Run(s, evs).wave == s.wave
    ensures var r := Run(s, evs);
      r.lastSpawn == s.lastSpawn && r.spawnIntervalMs == s.spawnIntervalMs && Busy(r)
    decreases |evs|
  {
    if evs != [] {
      var ev := evs[0];
      var s1 := Apply(s, ev);
      assert AllOk(evs[1..]);
      assert Run(s, evs) == Run(s1, evs[1..]);
      assert s1.wave == s.wave;
      if ev.Tick? {
        QuietTickKeepsPacing(s, ev.now, ev.draws, ev.sine, ev.blinkRight);
      } else {
        ClientEventKeepsPacing(s, ev);
      }
      QuietRunKeepsPacing(s1, evs[1..]);
    }
  }

  /**
   * Within a wave, the next spawn after one at a nonzero time `t1` comes at
   * least the spawn interval later, whatever ticks, messages, connections and
   * disconnections come in between.
   */
  lemma SpawnPacing(s: RoomState, t1: int, d: SpawnDraws, sine: nat -> real, blinkRight: nat -> bool,
                    evs: seq<Event>, t2: int)
    requires ValidDraws(d) && SpawnDue(s, t1) && t1 != 0 && AllOk(evs)
    requires var s1 := TickSpec(s, t1, d, sine, blinkRight);
      s1.wave == s.wave && Quiet(s1, evs) && Run(s1, evs).wave == s.wave
    requires SpawnDue(Run(TickSpec(s, t1, d, sine, blinkRight), evs), t2)
    ensures t2 - t1 >= s.spawnIntervalMs
  {
    var s1 := TickSpec(s, t1, d, sine, blinkRight);
    TickInWaveBusy(s, t1, d, sine, blinkRight);
    QuietRunKeepsPacing(s1, evs);
  }

  /** An enemy that breaches stays in the list for the tick, dead and marked breached, unless the wave advanced. */
  lemma BreachedEnemyShown(s: RoomState, now: int, d: SpawnDraws, sine: nat -> real, blinkRight: nat -> bool, i: nat)
    requires ValidDraws(d)
    requires var s1 := SpawnStep(s, now, d); i < |s1.enemies| && Breaches(s1.enemies[i], now, sine, blinkRight)
    ensures var s1 := SpawnStep(s, now, d);
            var e := s1.enemies[i];
            var m := Moved(e, now, sine(e.id), blinkRight(e.id));
      && !m.alive && m.breached && m.diedAt == now
      && m in Simulated(s, now, d, sine, blinkRight).enemies
  {
    var s1 := SpawnStep(s, now, d);
    var s2 := MoveStep(s1, now, sine, blinkRight);
    assert s2.enemies[i] in s2.enemies;
  }

  /** Dead enemies older than the grace window are gone after the cleanup phase. */
  lemma GraceWindow(es: seq<Enemy>, now: int, e: Enemy)
    requires e in Purge(es, now) && !e.alive && e.diedAt != 0
    ensures now - e.diedAt < GraceMs
  {
  }

  /** A tier-3 breach at mood 10 leaves mood 0, not negative. */
  lemma BreachAtLowMoodScenario(e: Enemy, now: int, sine: nat -> real, blinkRight: nat -> bool)
    requires e.typeId == "BURNOUT_SHADOW" && Breaches(e, now, sine, blinkRight)
    ensures MoodAfter([e], 10.0, now, sine, blinkRight) == 0.0
  {
    BreachCostsPenalty([], e, 10.0, now, sine, blinkRight);
    assert [] + [e] == [e];
  }

  /** A zigzag enemy anchored at 440 is drawn at 468 after 0.2 s and at 412 after 0.8 s. */
  lemma ZigzagScenario(e: Enemy, sine: real, blinkRight: bool)
    requires e.alive && e.pattern == Zigzag && e.baseX == 440.0 && e.spawnedAt == 1000
    ensures Moved(e, 1200, sine, blinkRight).x == 468.0
    ensures Moved(e, 1800, sine, blinkRight).x == 412.0
  {
    assert PatternOffset(e, 1200, sine) == 28.0;
    assert PatternOffset(e, 1800, sine) == -28.0;
  }
}
