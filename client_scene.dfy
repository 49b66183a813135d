/**
 * The client scene's own bookkeeping: the team mood it predicts, the status
 * and predicted hp of each enemy it draws, and the type it shows for each
 * player and enemy id.
 */
module ClientScene {
  import opened Wrappers
  import ClientUtils

  // ---------------------------------------------------------------------------
  // Team mood

  /** adjustTeamMood: the mood after a change of `delta`, kept within [0, 100]. */
  function MoodAdjusted(mood: real, delta: real): (m: real)
    ensures 0.0 <= m <= 100.0
    ensures 0.0 <= mood + delta <= 100.0 ==> m == mood + delta
    ensures mood + delta < 0.0 ==> m == 0.0
    ensures mood + delta > 100.0 ==> m == 100.0
  {
    ClientUtils.Clamp(mood + delta, 0.0, 100.0)
  }

  /** A change never moves the mood the other way, once it is in range. */
  lemma MoodFollowsDelta(mood: real, delta: real)
    requires 0.0 <= mood <= 100.0
    ensures delta >= 0.0 ==> mood <= MoodAdjusted(mood, delta)
    ensures delta <= 0.0 ==> MoodAdjusted(mood, delta) <= mood
  {
  }

  // ---------------------------------------------------------------------------
  // Enemy runtime records

  datatype Status = Alive | Dying | Dead

  /**
   * What the scene keeps per drawn enemy: its status, predicted hp, the tier
   * of its type, and whether that type has a death animation to play.
   */
  datatype Runtime = Runtime(status: Status, hp: real, tier: int, hasDeathAnim: bool)

  /**
   * killEnemy: an absent, dying or dead enemy is left alone. A live one turns
   * 'dying' while its death animation plays, or is dropped at once when its
   * type has none.
   */
  function Killed(rts: map<string, Runtime>, id: string): (r: map<string, Runtime>)
    ensures forall k :: k != id ==> (k in r <==> k in rts)
    ensures forall k :: k != id && k in r ==> r[k] == rts[k]
    ensures id in r ==> id in rts && r[id] == rts[id].(status := r[id].status) && r[id].status != Alive
    ensures id in rts && rts[id].status == Alive && id in r ==> r[id].status == Dying
    ensures id in rts && rts[id].status != Alive ==> r == rts
    ensures id in rts && rts[id].status == Alive ==> (id in r <==> rts[id].hasDeathAnim)
  {
    if id !in rts || rts[id].status != Alive then rts
    else if rts[id].hasDeathAnim then rts[id := rts[id].(status := Dying)]
    else rts - {id}
  }

  /** Killing twice is killing once. */
  lemma KillIdempotent(rts: map<string, Runtime>, id: string)
    ensures Killed(Killed(rts, id), id) == Killed(rts, id)
  {
  }

  /** The mood reward for a predicted kill: 8 from tier 3 up, 5 at tier 2, else 3. */
  function Reward(tier: int): (r: real)
    ensures r == 8.0 || r == 5.0 || r == 3.0
    ensures r == 8.0 <==> tier >= 3
    ensures r == 5.0 <==> tier == 2
  {
    if tier >= 3 then 8.0 else if tier == 2 then 5.0 else 3.0
  }

  /** The part of the scene the hit prediction touches. */
  datatype SceneView = SceneView(teamMood: real, enemyRuntime: map<string, Runtime>)

  /**
   * handleLocalHit, for a live enemy the local player's shot touched: predict
   * one point of damage, floored at 0; at 0, award the tier's reward to the
   * mood and kill the enemy.
   */
  function LocalHit(v: SceneView, id: string): (r: SceneView)
    requires id in v.enemyRuntime && v.enemyRuntime[id].status == Alive
    ensures r.enemyRuntime.Keys <= v.enemyRuntime.Keys
    ensures id in r.enemyRuntime ==>
      0.0 <= r.enemyRuntime[id].hp && (r.enemyRuntime[id].status == Alive <==> r.enemyRuntime[id].hp > 0.0)
    ensures id in r.enemyRuntime && r.enemyRuntime[id].status == Alive ==> r.teamMood == v.teamMood
    ensures id !in r.enemyRuntime ==> !v.enemyRuntime[id].hasDeathAnim
  {
    var rt := v.enemyRuntime[id];
    var hp := if rt.hp - 1.0 > 0.0 then rt.hp - 1.0 else 0.0;
    var rts := v.enemyRuntime[id := rt.(hp := hp)];
    if hp <= 0.0 then SceneView(MoodAdjusted(v.teamMood, Reward(rt.tier)), Killed(rts, id))
    else SceneView(v.teamMood, rts)
  }

  /** A hit on an enemy with more than one predicted hp only takes that point off. */
  lemma LocalHitWounds(v: SceneView, id: string)
    requires id in v.enemyRuntime && v.enemyRuntime[id].status == Alive
    requires v.enemyRuntime[id].hp > 1.0
    ensures var r := LocalHit(v, id);
      && r.teamMood == v.teamMood
      && r.enemyRuntime.Keys == v.enemyRuntime.Keys
      && r.enemyRuntime[id] == v.enemyRuntime[id].(hp := v.enemyRuntime[id].hp - 1.0)
      && r.enemyRuntime[id].status == Alive
  {
  }

  /**
   * A hit on an enemy with at most one predicted hp kills it: the mood gains
   * the tier's reward, and the enemy is either dying with 0 hp or gone.
   */
  lemma LocalHitKills(v: SceneView, id: string)
    requires id in v.enemyRuntime && v.enemyRuntime[id].status == Alive
    requires v.enemyRuntime[id].hp <= 1.0
    ensures var r := LocalHit(v, id);
      && r.teamMood == MoodAdjusted(v.teamMood, Reward(v.enemyRuntime[id].tier))
      && (id in r.enemyRuntime <==> v.enemyRuntime[id].hasDeathAnim)
      && (id in r.enemyRuntime ==> r.enemyRuntime[id].status == Dying && r.enemyRuntime[id].hp == 0.0)
  {
  }

  /**
   * Whatever the hit, other enemies are untouched, predicted hp never goes
   * below 0, and the mood stays in range and never drops.
   */
  lemma LocalHitBounds(v: SceneView, id: string)
    requires id in v.enemyRuntime && v.enemyRuntime[id].status == Alive
    requires 0.0 <= v.teamMood <= 100.0
    ensures var r := LocalHit(v, id);
      && v.teamMood <= r.teamMood <= 100.0
      && (forall k :: k != id ==> (k in r.enemyRuntime <==> k in v.enemyRuntime))
      && (forall k :: k != id && k in r.enemyRuntime ==> r.enemyRuntime[k] == v.enemyRuntime[k])
      && (id in r.enemyRuntime ==> 0.0 <= r.enemyRuntime[id].hp)
      && (id in r.enemyRuntime && v.enemyRuntime[id].hp >= 0.0 ==> r.enemyRuntime[id].hp <= v.enemyRuntime[id].hp)
      && (id in r.enemyRuntime && v.enemyRuntime[id].hp >= 1.0 ==> r.enemyRuntime[id].hp == v.enemyRuntime[id].hp - 1.0)
  {
    MoodFollowsDelta(v.teamMood, Reward(v.enemyRuntime[id].tier));
  }

  // ---------------------------------------------------------------------------
  // Type assignment

  /** A player or enemy type as the catalog object lists it. */
  datatype TypeEntry = TypeEntry(key: string, primaryColor: Option<string>)

  /**
   * An entity of a snapshot list, as far as type assignment reads it; an
   * absent string field is "".
   */
  datatype Entity = Entity(id: string, typeId: string, typeKey: string, playerType: string, color: string)

  /** `entity.typeId || entity.typeKey || entity.playerType`. */
  function Requested(e: Entity): (r: string)
    ensures r == e.typeId || r == e.typeKey || r == e.playerType
    ensures r == "" <==> e.typeId == "" && e.typeKey == "" && e.playerType == ""
    ensures e.typeId != "" ==> r == e.typeId
    ensures e.typeId == "" && e.typeKey != "" ==> r == e.typeKey
  {
    if e.typeId != "" then e.typeId else if e.typeKey != "" then e.typeKey else e.playerType
  }

  /** The catalog entry under `key`. */
  function ByKey(available: seq<TypeEntry>, key: string): (r: Option<TypeEntry>)
    ensures r.Some? ==> r.value in available && r.value.key == key
    ensures r.None? ==> forall i :: 0 <= i < |available| ==> available[i].key != key
  {
    if available == [] then None
    else if available[0].key == key then Some(available[0])
    else ByKey(available[1..], key)
  }

  /** One character: an ASCII capital becomes its small letter, anything else is kept. */
  function LowerChar(c: char): (d: char)
    ensures 'A' <= c <= 'Z' ==> 'a' <= d <= 'z' && d as int == c as int + 32
    ensures !('A' <= c <= 'Z') ==> d == c
  {
    if 'A' <= c <= 'Z' then (c - 'A' + 'a') as char else c
  }

  /** ASCII lower-casing, as `toLowerCase` does on colour strings such as "#0FAAFF". */
  function Lower(s: string): (r: string)
    ensures |r| == |s|
    ensures forall i :: 0 <= i < |s| ==> r[i] == LowerChar(s[i])
  {
    if s == [] then []
    else
      var c := s[0];
      [LowerChar(c)] + Lower(s[1..])
  }

  /** An entry whose primary colour equals `color`, ignoring case. */
  predicate ColorMatches(e: TypeEntry, color: string) {
    e.primaryColor.Some? && Lower(e.primaryColor.value) == Lower(color)
  }

  /** Entry `i` matches and none before it does. */
  predicate FirstColorMatch(available: seq<TypeEntry>, color: string, i: int)
    requires 0 <= i < |available|
  {
    ColorMatches(available[i], color) && forall j :: 0 <= j < i ==> !ColorMatches(available[j], color)
  }

  /** The first catalog entry whose primary colour matches `color`, ignoring case. */
  function ByColor(available: seq<TypeEntry>, color: string): (r: Option<TypeEntry>)
    ensures r.Some? ==>
      r.value in available && r.value.primaryColor.Some? && Lower(r.value.primaryColor.value) == Lower(color)
    ensures r.Some? ==> exists i :: 0 <= i < |available| && available[i] == r.value && FirstColorMatch(available, color, i)
    ensures r.None? <==> forall i :: 0 <= i < |available| ==> !ColorMatches(available[i], color)
  {
    if available == [] then None
    else if ColorMatches(available[0], color) then
      assert FirstColorMatch(available, color, 0);
      Some(available[0])
    else
      var r := ByColor(available[1..], color);
      assert r.Some? ==> exists i :: 0 <= i < |available| && available[i] == r.value && FirstColorMatch(available, color, i) by {
        if r.Some? {
          var i :| 0 <= i < |available[1..]| && available[1..][i] == r.value && FirstColorMatch(available[1..], color, i);
          assert FirstColorMatch(available, color, i + 1);
        }
      }
      assert r.None? ==> forall i :: 0 <= i < |available| ==> !ColorMatches(available[i], color) by {
        if r.None? {
          forall i | 0 < i < |available| ensures !ColorMatches(available[i], color) {
            assert available[i] == available[1..][i - 1];
          }
        }
      }
      r
  }

  /** The id-to-type map being filled, and the round-robin position. */
  datatype Assignment = Assignment(byId: map<string, TypeEntry>, nextIndex: nat)

  /** An entity that takes part in assignment: present and with an id. */
  predicate HasId(ent: Option<Entity>) {
    ent.Some? && ent.value.id != ""
  }

  /** The catalog entry for the entity's requested type, if it names one the catalog has. */
  function KeyChoice(e: Entity, available: seq<TypeEntry>): Option<TypeEntry> {
    if Requested(e) == "" then None else ByKey(available, Requested(e))
  }

  /** For players with a colour only: the first catalog entry of that colour. */
  function ColorChoice(e: Entity, available: seq<TypeEntry>, isPlayer: bool): Option<TypeEntry> {
    if e.color != "" && isPlayer then ByColor(available, e.color) else None
  }

  /**
   * One entity: skipped when absent, without id, or already typed; otherwise
   * typed by its requested type if the catalog has it, else (players only) by
   * colour, else by the next catalog entry in round-robin order.
   */
  function AssignOne(a: Assignment, ent: Option<Entity>, available: seq<TypeEntry>, isPlayer: bool): (r: Assignment)
    requires |available| > 0
    ensures r.byId.Keys == a.byId.Keys + (if HasId(ent) then {ent.value.id} else {})
    ensures forall id :: id in a.byId ==> r.byId[id] == a.byId[id]
    ensures HasId(ent) && ent.value.id !in a.byId ==> r.byId[ent.value.id] in available
    ensures r.nextIndex == a.nextIndex || r.nextIndex == a.nextIndex + 1
    ensures r.nextIndex == a.nextIndex + 1 ==> HasId(ent) && ent.value.id !in a.byId
    ensures HasId(ent) && ent.value.id !in a.byId ==>
      var e := ent.value;
      && (KeyChoice(e, available).Some? ==>
            r.byId[e.id] == KeyChoice(e, available).value && r.nextIndex == a.nextIndex)
      && (KeyChoice(e, available).None? && ColorChoice(e, available, isPlayer).Some? ==>
            r.byId[e.id] == ColorChoice(e, available, isPlayer).value && r.nextIndex == a.nextIndex)
      && (KeyChoice(e, available).None? && ColorChoice(e, available, isPlayer).None? ==>
            r.byId[e.id] == available[a.nextIndex % |available|] && r.nextIndex == a.nextIndex + 1)
  {
    if !HasId(ent) || ent.value.id in a.byId then a
    else
      var e := ent.value;
      match (KeyChoice(e, available), ColorChoice(e, available, isPlayer))
      case (Some(t), _) => a.(byId := a.byId[e.id := t])
      case (None, Some(t)) => a.(byId := a.byId[e.id := t])
      case (None, None) => Assignment(a.byId[e.id := available[a.nextIndex % |available|]], a.nextIndex + 1)
  }

  /** The whole list, in order. */
  function AssignAll(list: seq<Option<Entity>>, a: Assignment, available: seq<TypeEntry>, isPlayer: bool): (r: Assignment)
    requires |available| > 0
    ensures a.byId.Keys <= r.byId.Keys
    ensures a.nextIndex <= r.nextIndex <= a.nextIndex + |list|
    decreases |list|
  {
    if list == [] then a else AssignAll(list[1..], AssignOne(a, list[0], available, isPlayer), available, isPlayer)
  }

  /** assignTypeToEntities: with an empty catalog nothing is assigned. */
  function Assigned(list: seq<Option<Entity>>, byId: map<string, TypeEntry>, available: seq<TypeEntry>, isPlayer: bool): (r: map<string, TypeEntry>)
    ensures byId.Keys <= r.Keys
    ensures |available| == 0 ==> r == byId
  {
    if |available| == 0 then byId else AssignAll(list, Assignment(byId, 0), available, isPlayer).byId
  }

  /** The ids that take part in assignment. */
  ghost predicate Listed(list: seq<Option<Entity>>, id: string) {
    exists i :: 0 <= i < |list| && HasId(list[i]) && list[i].value.id == id
  }

  /**
   * A pass over the list never changes a type already assigned, types exactly
   * the listed ids that had none, and only ever assigns catalog entries.
   */
  lemma {:induction false} AssignAllFacts(list: seq<Option<Entity>>, a: Assignment, available: seq<TypeEntry>, isPlayer: bool)
    requires |available| > 0
    ensures var r := AssignAll(list, a, available, isPlayer).byId;
      && (forall id :: id in a.byId ==> id in r && r[id] == a.byId[id])
      && (forall id :: id in r <==> id in a.byId || Listed(list, id))
      && (forall id :: id in r && id !in a.byId ==> r[id] in available)
    decreases |list|
  {
    if list != [] {
      var a1 := AssignOne(a, list[0], available, isPlayer);
      AssignAllFacts(list[1..], a1, available, isPlayer);
      var r := AssignAll(list, a, available, isPlayer).byId;
      forall id ensures id in r <==> id in a.byId || Listed(list, id) {
        if Listed(list[1..], id) {
          var i :| 0 <= i < |list[1..]| && HasId(list[1..][i]) && list[1..][i].value.id == id;
          assert HasId(list[i + 1]) && list[i + 1].value.id == id;
        }
        if Listed(list, id) && id !in a1.byId {
          var i :| 0 <= i < |list| && HasId(list[i]) && list[i].value.id == id;
          assert i != 0;
          assert HasId(list[1..][i - 1]) && list[1..][i - 1].value.id == id;
        }
      }
    }
  }

  /** Type assignment never overwrites: an id that already has a type keeps it. */
  lemma FirstAssignmentWins(list: seq<Option<Entity>>, byId: map<string, TypeEntry>, available: seq<TypeEntry>, isPlayer: bool)
    ensures var r := Assigned(list, byId, available, isPlayer);
      && (forall id :: id in byId ==> id in r && r[id] == byId[id])
      && (|available| > 0 ==> forall id :: id in r <==> id in byId || Listed(list, id))
      && (forall id :: id in r && id !in byId ==> r[id] in available)
  {
    if |available| > 0 {
      AssignAllFacts(list, Assignment(byId, 0), available, isPlayer);
    }
  }

  /** A second pass over the same list changes nothing. */
  lemma AssignIdempotent(list: seq<Option<Entity>>, byId: map<string, TypeEntry>, available: seq<TypeEntry>, isPlayer: bool)
    ensures var once := Assigned(list, byId, available, isPlayer);
      Assigned(list, once, available, isPlayer) == once
  {
    if |available| > 0 {
      var once := Assigned(list, byId, available, isPlayer);
      FirstAssignmentWins(list, byId, available, isPlayer);
      AssignAllSkipsTyped(list, Assignment(once, 0), available, isPlayer);
    }
  }

  /** A list whose every id is already typed leaves the map as it is. */
  lemma {:induction false} AssignAllSkipsTyped(list: seq<Option<Entity>>, a: Assignment, available: seq<TypeEntry>, isPlayer: bool)
    requires |available| > 0
    requires forall id :: Listed(list, id) ==> id in a.byId
    ensures AssignAll(list, a, available, isPlayer) == a
    decreases |list|
  {
    if list != [] {
      if HasId(list[0]) {
        assert Listed(list, list[0].value.id);
      }
      forall id | Listed(list[1..], id) ensures id in a.byId {
        var i :| 0 <= i < |list[1..]| && HasId(list[1..][i]) && list[1..][i].value.id == id;
        assert HasId(list[i + 1]) && list[i + 1].value.id == id;
      }
      AssignAllSkipsTyped(list[1..], a, available, isPlayer);
    }
  }

  /**
   * The first listed entity with a given untyped id decides its type: a
   * requested type the catalog has wins over colour and round-robin.
   */
  lemma {:induction false} RequestedTypeWins(list: seq<Option<Entity>>, a: Assignment, available: seq<TypeEntry>, isPlayer: bool, i: nat)
    requires |available| > 0
    requires i < |list| && HasId(list[i]) && list[i].value.id !in a.byId
    requires forall j :: 0 <= j < i && HasId(list[j]) ==> list[j].value.id != list[i].value.id
    requires Requested(list[i].value) != "" && ByKey(available, Requested(list[i].value)).Some?
    ensures var r := AssignAll(list, a, available, isPlayer).byId;
      list[i].value.id in r && r[list[i].value.id] == ByKey(available, Requested(list[i].value)).value
    decreases i
  {
    var a1 := AssignOne(a, list[0], available, isPlayer);
    if i == 0 {
      AssignAllFacts(list[1..], a1, available, isPlayer);
    } else {
      assert list[1..][i - 1] == list[i];
      RequestedTypeWins(list[1..], a1, available, isPlayer, i - 1);
    }
  }

  // ---------------------------------------------------------------------------
  // The scene

  class Scene {
    var teamMood: real
    var enemyRuntime: map<string, Runtime>
    var playerTypes: seq<TypeEntry>
    var enemyTypes: seq<TypeEntry>
    var playerTypeById: map<string, TypeEntry>
    var enemyTypeById: map<string, TypeEntry>

    function View(): SceneView
      reads this
    {
      SceneView(teamMood, enemyRuntime)
    }

    /** A fresh scene: full mood, nothing drawn, nothing typed. */
    constructor (playerTypes: seq<TypeEntry>, enemyTypes: seq<TypeEntry>)
      ensures teamMood == 100.0 && enemyRuntime == map[]
      ensures this.playerTypes == playerTypes && this.enemyTypes == enemyTypes
      ensures playerTypeById == map[] && enemyTypeById == map[]
    {
      teamMood := 100.0;
      enemyRuntime := map[];
      this.playerTypes := playerTypes;
      this.enemyTypes := enemyTypes;
      playerTypeById := map[];
      enemyTypeById := map[];
    }

    method AdjustTeamMood(delta: real)
      modifies this`teamMood
      ensures teamMood == MoodAdjusted(old(teamMood), delta)
      ensures 0.0 <= teamMood <= 100.0
    {
      teamMood := ClientUtils.Clamp(teamMood + delta, 0.0, 100.0);
    }

    method KillEnemy(id: string)
      modifies this`enemyRuntime
      ensures enemyRuntime == Killed(old(enemyRuntime), id)
    {
      if id !in enemyRuntime || enemyRuntime[id].status != Alive {
        return;
      }
      var rt := enemyRuntime[id];
      enemyRuntime := enemyRuntime[id := rt.(status := Dying)];
      if !rt.hasDeathAnim {
        enemyRuntime := enemyRuntime - {id};
      }
    }

    /** Called only for a live enemy the local player's shot touched. */
    method HandleLocalHit(id: string)
      requires id in enemyRuntime && enemyRuntime[id].status == Alive
      modifies this`teamMood, this`enemyRuntime
      ensures View() == LocalHit(old(View()), id)
    {
      var rt := enemyRuntime[id];
      rt := rt.(hp := if rt.hp - 1.0 > 0.0 then rt.hp - 1.0 else 0.0);
      enemyRuntime := enemyRuntime[id := rt];
      if rt.hp <= 0.0 {
        AdjustTeamMood(Reward(rt.tier));
        KillEnemy(id);
      }
    }

    /** assignTypeToEntities for the player list (`isPlayer`) or the enemy list. */
    method AssignTypes(list: seq<Option<Entity>>, isPlayer: bool)
      modifies this`playerTypeById, this`enemyTypeById
      ensures isPlayer ==>
        playerTypeById == Assigned(list, old(playerTypeById), playerTypes, true) && enemyTypeById == old(enemyTypeById)
      ensures !isPlayer ==>
        enemyTypeById == Assigned(list, old(enemyTypeById), enemyTypes, false) && playerTypeById == old(playerTypeById)
    {
      var byId := if isPlayer then playerTypeById else enemyTypeById;
      var available := if isPlayer then playerTypes else enemyTypes;
      if |available| == 0 {
        return;
      }
      ghost var goal := AssignAll(list, Assignment(byId, 0), available, isPlayer);
      var nextIndex := 0;
      for i := 0 to |list|
        invariant AssignAll(list[i..], Assignment(byId, nextIndex), available, isPlayer) == goal
      {
        assert list[i..][1..] == list[i + 1..];
        var ent := list[i];
        if !ent.Some? || ent.value.id == "" || ent.value.id in byId {
          continue;
        }
        var e := ent.value;
        var requested := Requested(e);
        var byKey := if requested == "" then None else ByKey(available, requested);
        if byKey.Some? {
          byId := byId[e.id := byKey.value];
          continue;
        }
        if e.color != "" && isPlayer {
          var byColor := ByColor(available, e.color);
          if byColor.Some? {
            byId := byId[e.id := byColor.value];
            continue;
          }
        }
        byId := byId[e.id := available[nextIndex % |available|]];
        nextIndex := nextIndex + 1;
      }
      assert list[|list|..] == [];
      if isPlayer {
        playerTypeById := byId;
      } else {
        enemyTypeById := byId;
      }
    }
  }
}
