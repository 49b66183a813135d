/**
 * The browser client's pure helpers: the clamp, the cardinal direction of a
 * facing vector and the list-to-map conversion used when a server snapshot
 * arrives.
 */
module ClientUtils {
  import opened Wrappers
  import RoomSpec

  /** `Math.max(min, Math.min(max, value))`. */
  function Clamp(value: real, lo: real, hi: real): (r: real)
    ensures r >= lo
    ensures lo <= hi ==> lo <= r <= hi
    ensures lo <= value <= hi ==> r == value
    ensures lo <= hi && value < lo ==> r == lo
    ensures lo <= hi && value > hi ==> r == hi
  {
    if hi < value then (if lo < hi then hi else lo)
    else if lo < value then value
    else lo
  }

  /**
   * The client's clamp and the server's agree on every ordered range; on an
   * inverted range the client's yields the lower bound and the server's the
   * upper one.
   */
  lemma ClampsAgree(value: real, lo: real, hi: real)
    ensures lo <= hi ==> Clamp(value, lo, hi) == RoomSpec.Clamp(value, lo, hi)
    ensures hi < lo ==> Clamp(value, lo, hi) == lo && RoomSpec.Clamp(value, lo, hi) == hi
  {
  }

  datatype Vec2 = Vec2(x: real, y: real)

  const Up := Vec2(0.0, -1.0)

  predicate IsCardinal(v: Vec2) {
    v == Vec2(1.0, 0.0) || v == Vec2(-1.0, 0.0) || v == Vec2(0.0, 1.0) || v == Vec2(0.0, -1.0)
  }

  function Abs(r: real): real {
    if r < 0.0 then -r else r
  }

  function Dot(a: Vec2, b: Vec2): real {
    a.x * b.x + a.y * b.y
  }

  /**
   * getCardinalDirection: the axis of the larger component, with its sign;
   * vertical on ties, and up for a missing or zero vector.
   */
  function CardinalDirection(dir: Option<Vec2>): (r: Vec2)
    ensures IsCardinal(r)
    ensures dir.None? || dir.value == Vec2(0.0, 0.0) ==> r == Up
    ensures dir.Some? && Abs(dir.value.x) > Abs(dir.value.y) ==>
      r.y == 0.0 && (r.x == 1.0 <==> dir.value.x > 0.0)
    ensures dir.Some? && dir.value.y != 0.0 && Abs(dir.value.x) <= Abs(dir.value.y) ==>
      r.x == 0.0 && (r.y == 1.0 <==> dir.value.y > 0.0)
  {
    match dir
    case None => Up
    case Some(v) =>
      var ax := Abs(v.x);
      var ay := Abs(v.y);
      if ax == 0.0 && ay == 0.0 then Up
      else if ax > ay then Vec2(if v.x > 0.0 then 1.0 else -1.0, 0.0)
      else Vec2(0.0, if v.y >= 0.0 then 1.0 else -1.0)
  }

  /**
   * For a non-zero vector the chosen direction is one of the cardinal
   * directions best aligned with it, and it points the same way.
   */
  lemma CardinalIsBestAligned(v: Vec2)
    requires v != Vec2(0.0, 0.0)
    ensures Dot(CardinalDirection(Some(v)), v) > 0.0
    ensures forall c :: IsCardinal(c) ==> Dot(c, v) <= Dot(CardinalDirection(Some(v)), v)
  {
    var r := CardinalDirection(Some(v));
    if Abs(v.x) > Abs(v.y) {
      assert Dot(r, v) == Abs(v.x);
    } else {
      assert Dot(r, v) == Abs(v.y);
    }
    forall c | IsCardinal(c) ensures Dot(c, v) <= Dot(r, v) {
      if c.y == 0.0 {
        assert Dot(c, v) <= Abs(v.x);
      } else {
        assert Dot(c, v) <= Abs(v.y);
      }
    }
  }

  /** A list entry: its `id` (absent or null as None) and the rest of the object. */
  datatype Item<T> = Item(id: Option<string>, body: T)

  /** Entry `i` of `items` is a present object whose id is `k`. */
  ghost predicate KeyedAt<T>(items: seq<Option<Item<T>>>, i: int, k: string) {
    0 <= i < |items| && items[i].Some? && items[i].value.id == Some(k)
  }

  /** Entry `j` is the last entry before position `n` whose id is `k`. */
  ghost predicate LastKeyedBefore<T>(items: seq<Option<Item<T>>>, n: int, k: string, j: int) {
    j < n && KeyedAt(items, j, k) && forall l :: j < l < n ==> !KeyedAt(items, l, k)
  }

  /**
   * mapById: key every present item by its id. Items that are null or have no
   * id are skipped, a later item replaces an earlier one with the same id, and
   * anything that is not a list (None) gives the empty map.
   */
  method MapById<T>(list: Option<seq<Option<Item<T>>>>) returns (m: map<string, Item<T>>)
    ensures list.None? ==> m == map[]
    ensures list.Some? ==> forall k :: k in m <==> exists i :: KeyedAt(list.value, i, k)
    ensures list.Some? ==> forall k :: k in m ==>
      exists j :: LastKeyedBefore(list.value, |list.value|, k, j) && list.value[j] == Some(m[k])
  {
    m := map[];
    if list.None? {
      return;
    }
    var items := list.value;
    for i := 0 to |items|
      invariant forall k :: k in m <==> exists j :: j < i && KeyedAt(items, j, k)
      invariant forall k :: k in m ==> exists j :: LastKeyedBefore(items, i, k, j) && items[j] == Some(m[k])
    {
      var item := items[i];
      if item.Some? && item.value.id.Some? {
        var key := item.value.id.value;
        m := m[key := item.value];
        assert LastKeyedBefore(items, i + 1, key, i);
      }
      forall k | k in m && (item.None? || item.value.id != Some(k))
        ensures exists j :: LastKeyedBefore(items, i + 1, k, j) && items[j] == Some(m[k])
      {
        var j :| LastKeyedBefore(items, i, k, j) && items[j] == Some(m[k]);
        assert LastKeyedBefore(items, i + 1, k, j);
      }
    }
  }
}
