/**
 * The room as the server holds it: one object whose fields the message
 * handlers and the tick update in place, and the registry of rooms that
 * ensureRoom fills. Each method is proved to move the room's state exactly as
 * the matching function of RoomSpec says and to keep the room invariant.
 */
module RoomServer {
  import opened Wrappers
  import opened Catalog
  import opened RoomSpec
  import opened RoomProperties

  class Room {
    var players: map<string, Player>
    var enemies: seq<Enemy>
    var wave: int
    var mood: real
    var enemyCounter: nat
    var pendingSpawns: nat
    var lastSpawn: int
    var spawnIntervalMs: int

    /** The room's fields as one value. */
    function State(): RoomState
      reads this
    {
      RoomState(players, enemies, wave, mood, enemyCounter, pendingSpawns, lastSpawn, spawnIntervalMs)
    }

    ghost predicate Valid()
      reads this
    {
      Inv(State())
    }

    /** The record ensureRoom stores for a new room key. */
    constructor ()
      ensures State() == InitialRoom() && Valid()
    {
      players := map[];
      enemies := [];
      wave := 1;
      mood := 100.0;
      enemyCounter := 0;
      pendingSpawns := 0;
      lastSpawn := 0;
      spawnIntervalMs := 900;
    }

    method SeedWave()
      requires Valid()
      modifies this
      ensures State() == Seed(old(State())) && Valid()
    {
      var plan := PlanFor(wave);
      var baseCount := if plan.count != 0 then plan.count else 10;
      var bonus := Max(0, wave - |WavePlan|);
      pendingSpawns := baseCount + bonus;
      lastSpawn := 0;
      spawnIntervalMs := Max(350, 900 - wave * 60);
      enemies := [];
    }

    /** The second half of ensureRoom: seed an idle room. */
    method SeedIfIdle()
      requires Valid()
      modifies this
      ensures State() == RoomSpec.SeedIfIdle(old(State())) && Valid()
    {
      if |enemies| == 0 && pendingSpawns == 0 {
        SeedWave();
      }
    }

    /** createEnemy: build the next enemy and advance the id counter. */
    method CreateEnemy(now: int, d: SpawnDraws) returns (e: Enemy)
      requires Valid() && ValidDraws(d)
      modifies this`enemyCounter
      ensures e == NewEnemy(wave, old(enemyCounter), now, d)
      ensures enemyCounter == old(enemyCounter) + 1
      ensures Valid()
    {
      e := NewEnemy(wave, enemyCounter, now, d);
      enemyCounter := enemyCounter + 1;
    }

    /** A connection joins: its player record is (re)set. */
    method Join(clientId: string)
      requires Valid()
      modifies this
      ensures State() == RoomSpec.Join(old(State()), clientId) && Valid()
    {
      players := players[clientId := NewPlayer(clientId)];
      JoinLeaveKeepInv(old(State()), clientId);
    }

    /** A connection closes: its player record is removed. */
    method Leave(clientId: string)
      requires Valid()
      modifies this
      ensures State() == RoomSpec.Leave(old(State()), clientId) && Valid()
    {
      players := players - {clientId};
      JoinLeaveKeepInv(old(State()), clientId);
    }

    method Move(clientId: string, dx: Option<real>, dir: Option<real>)
      requires Valid()
      modifies this
      ensures State() == HandleMove(old(State()), clientId, dx, dir) && Valid()
    {
      if clientId in players {
        players := players[clientId := MovePlayer(players[clientId], MoveDelta(dx, dir))];
      }
      MoveKeepsInv(old(State()), clientId, dx, dir);
    }

    method HitEnemy(clientId: string, enemyId: string, damage: Option<real>, now: int)
      requires Valid()
      modifies this
      ensures State() == HandleHit(old(State()), clientId, enemyId, damage, now) && Valid()
    {
      HitKeepsInv(State(), clientId, enemyId, damage, now);
      if clientId !in players || enemyId == "" {
        return;
      }
      var found := FindEnemy(enemies, enemyId);
      if found.None? {
        return;
      }
      var i := found.value;
      var e := enemies[i];
      if !e.alive {
        return;
      }
      var hit := DamageEnemy(e, Damage(damage), now);
      enemies := enemies[i := hit];
      if !hit.alive {
        var p := players[clientId];
        players := players[clientId := p.(score := p.score + Award(e))];
      }
    }

    /** The message handler for one parsed message from `clientId`. */
    method OnMessage(clientId: string, msg: ClientMsg, now: int)
      requires Valid()
      modifies this
      ensures State() == HandleMessage(old(State()), clientId, msg, now) && Valid()
    {
      match msg
      case MoveMsg(dx, dir) => Move(clientId, dx, dir);
      case HitEnemyMsg(enemyId, damage) => HitEnemy(clientId, enemyId, damage, now);
      case OtherMsg =>
    }

    /** Tick phase 1: spawn one enemy when one is pending and the interval has elapsed. */
    method SpawnPhase(now: int, d: SpawnDraws)
      requires Valid() && ValidDraws(d)
      modifies this
      ensures State() == SpawnStep(old(State()), now, d) && Valid()
    {
      SpawnKeepsInv(State(), now, d);
      if pendingSpawns > 0 && (lastSpawn == 0 || now - lastSpawn >= spawnIntervalMs) {
        var e := CreateEnemy(now, d);
        enemies := enemies + [e];
        pendingSpawns := pendingSpawns - 1;
        lastSpawn := now;
      }
    }

    /** Tick phase 2: move every live enemy one step and charge each breach to the mood. */
    method MovePhase(now: int, sine: nat -> real, blinkRight: nat -> bool)
      requires Valid()
      modifies this
      ensures State() == MoveStep(old(State()), now, sine, blinkRight) && Valid()
    {
      ghost var s1 := State();
      var i := 0;
      while i < |enemies|
        invariant 0 <= i <= |enemies| == |s1.enemies|
        invariant forall k :: 0 <= k < i ==>
          enemies[k] == Moved(s1.enemies[k], now, sine(s1.enemies[k].id), blinkRight(s1.enemies[k].id))
        invariant forall k :: i <= k < |enemies| ==> enemies[k] == s1.enemies[k]
        invariant mood == MoodAfter(s1.enemies[..i], s1.mood, now, sine, blinkRight)
        invariant wave == s1.wave && players == s1.players && enemyCounter == s1.enemyCounter
        invariant pendingSpawns == s1.pendingSpawns && lastSpawn == s1.lastSpawn
        invariant spawnIntervalMs == s1.spawnIntervalMs
      {
        MoveAt(i, now, sine, blinkRight, s1.enemies, s1.mood);
        i := i + 1;
      }
      assert s1.enemies[..i] == s1.enemies;
      MoveStepKeepsInv(s1, now, sine, blinkRight);
    }

    /**
     * The body of the movement loop for the enemy at index `i`, updated in
     * place: `es` and `mood0` are the list and mood the pass started from.
     */
    method MoveAt(i: nat, now: int, sine: nat -> real, blinkRight: nat -> bool, ghost es: seq<Enemy>, ghost mood0: real)
      requires i < |enemies| == |es| && enemies[i] == es[i]
      requires mood == MoodAfter(es[..i], mood0, now, sine, blinkRight)
      modifies this`enemies, this`mood
      ensures enemies == old(enemies)[i := Moved(es[i], now, sine(es[i].id), blinkRight(es[i].id))]
      ensures mood == MoodAfter(es[..i + 1], mood0, now, sine, blinkRight)
    {
      assert es[..i + 1][..i] == es[..i];
      var e := enemies[i];
      if e.alive {
        var m := StepEnemy(e, now, sine(e.id), blinkRight(e.id));
        if !m.alive {
          mood := Clamp(mood - BreachPenalty(e.typeId), 0.0, 100.0);
        }
        enemies := enemies[i := m];
      }
    }

    /** Tick phase 4: when nothing is pending and nothing is alive, start the next wave. */
    method AdvancePhase()
      requires Valid()
      modifies this
      ensures State() == AdvanceStep(old(State())) && Valid()
    {
      if pendingSpawns == 0 && !AnyAlive(enemies) {
        wave := wave + 1;
        SeedWave();
      }
    }

    /**
     * One tick of this room at time `now`: spawn pacing, the movement and
     * breach pass, the grace-window cleanup and the wave advance.
     */
    method Tick(now: int, d: SpawnDraws, sine: nat -> real, blinkRight: nat -> bool)
      requires Valid() && ValidDraws(d)
      modifies this
      ensures State() == TickSpec(old(State()), now, d, sine, blinkRight) && Valid()
    {
      SpawnPhase(now, d);
      MovePhase(now, sine, blinkRight);
      PurgeKeepsInv(State(), now);
      enemies := Purge(enemies, now);
      AdvancePhase();
    }
  }

  /**
   * The movement of one live enemy in one tick, step by step: fall, the
   * pattern's horizontal offset (a blink may move the anchor), the lane clamp
   * and the breach check. `sine` is the sine offset and `blinkRight` the
   * direction draw for this enemy.
   */
  method StepEnemy(e0: Enemy, now: int, sine: real, blinkRight: bool) returns (e: Enemy)
    requires e0.alive
    ensures e == Moved(e0, now, sine, blinkRight)
  {
    e := e0.(y := e0.y + e0.speed * TickSec);
    var offsetX := 0.0;
    match e.pattern {
      case Sine =>
        offsetX := sine;
      case Zigzag =>
        offsetX := SquareWave(ElapsedMs(e, now), 650, 28.0);
      case Dash =>
        e := e.(y := e.y + e.speed * 0.18 * TickSec);
        offsetX := SquareWave(ElapsedMs(e, now), 500, 22.0);
      case Blink =>
        if BlinkDue(e, now) {
          var jump := if blinkRight then 60.0 else -60.0;
          e := e.(lastBlink := now, baseX := Clamp(Anchor(e) + jump, AnchorMin, AnchorMax));
        }
      case Straight =>
    }
    e := e.(x := Clamp(Anchor(e) + offsetX, LaneMin, LaneMax));
    if e.y >= BottomThreshold {
      e := e.(alive := false, breached := true, diedAt := now);
    }
  }

  /** The server's map of rooms by key. */
  class Lobby {
    var rooms: map<string, Room>

    /** Every room keeps its invariant, and no two room ids share one room. */
    ghost predicate Valid()
      reads this, rooms.Values
    {
      && (forall r :: r in rooms.Values ==> r.Valid())
      && (forall a, b :: a in rooms && b in rooms && a != b ==> rooms[a] != rooms[b])
    }

    constructor ()
      ensures rooms == map[] && Valid()
    {
      rooms := map[];
    }

    /** ensureRoom: create the room on first use, then seed it if it is idle. */
    method EnsureRoom(roomId: string) returns (room: Room)
      requires Valid()
      modifies this, if roomId in rooms then {rooms[roomId]} else {}
      ensures Valid()
      ensures rooms == old(rooms)[roomId := room]
      ensures forall id :: id in old(rooms) && id != roomId ==> rooms[id] == old(rooms[id]) && unchanged(rooms[id])
      ensures roomId in old(rooms) ==>
        room == old(rooms[roomId]) && room.State() == RoomSpec.SeedIfIdle(old(rooms[roomId].State()))
      ensures roomId !in old(rooms) ==> fresh(room) && room.State() == RoomSpec.SeedIfIdle(InitialRoom())
    {
      if roomId !in rooms {
        room := new Room();
        rooms := rooms[roomId := room];
      } else {
        room := rooms[roomId];
      }
      room.SeedIfIdle();
    }
  }
}
