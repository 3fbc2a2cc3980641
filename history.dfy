/** The snapshot history of Ballz.Core/GameSession/World/World.cs: a bounded
    FIFO of discrete world snapshots, one per simulation tick, and the view
    interpolated between two neighbouring snapshots for an arbitrary render time.
    Times are in milliseconds. */
module History {
  import opened Geometry
  import opened Entities

  /** An entity as a snapshot holds it. The interpolated copies carry only
      these fields. */
  datatype EntityView = EntityView(
    id: int,
    kind: EntityKind,
    material: int,
    position: Vec2,
    rotation: real,
    velocity: Vec2)

  datatype WorldSnapshot = WorldSnapshot(entities: seq<EntityView>, staticGeometry: Terrain)

  const IntervalMs: real := 16.0
  const SnapshotCount: nat := 6

  /** The snapshots a buffer capped at `SnapshotCount` keeps of everything
      appended: the most recent ones, oldest first. */
  function Recent(appended: seq<WorldSnapshot>): seq<WorldSnapshot>
  {
    if |appended| <= SnapshotCount then appended else appended[|appended| - SnapshotCount..]
  }

  /** Appending to the capped buffer and then evicting index 0 on overflow
      keeps exactly the most recent snapshots, in insertion order. */
  lemma RecentAppend(appended: seq<WorldSnapshot>, s: WorldSnapshot)
    ensures var before := Recent(appended);
            Recent(appended + [s]) ==
              if |before + [s]| > SnapshotCount then (before + [s])[1..] else before + [s]
    ensures |Recent(appended + [s])| <= SnapshotCount
    ensures Recent(appended + [s])[|Recent(appended + [s])| - 1] == s
  {
    var h := appended + [s];
    if |h| > SnapshotCount {
      if |appended| <= SnapshotCount {
        assert h[|h| - SnapshotCount..] == (appended + [s])[1..];
      } else {
        assert h[|h| - SnapshotCount..] == (appended[|appended| - SnapshotCount..] + [s])[1..];
      }
    }
  }

  /** `postSnapshot.Entities.Find(e => e.ID == id)`: the first entity with the ID. */
  function FindById(s: seq<EntityView>, id: int): (r: Option<EntityView>)
    ensures r.Some? ==> r.value in s && r.value.id == id
    ensures r.None? ==> forall e :: e in s ==> e.id != id
    ensures r.Some? ==> exists k :: 0 <= k < |s| && s[k] == r.value && forall j :: 0 <= j < k ==> s[j].id != id
  {
    if s == [] then None
    else if s[0].id == id then Some(s[0])
    else
      var r := FindById(s[1..], id);
      assert r.Some? ==> exists k :: 0 <= k < |s[1..]| && s[1..][k] == r.value && forall j :: 0 <= j < k ==> s[1..][j].id != id;
      assert r.Some? ==> exists k :: 0 <= k < |s| && s[k] == r.value && forall j :: 0 <= j < k ==> s[j].id != id by {
        if r.Some? {
          var k :| 0 <= k < |s[1..]| && s[1..][k] == r.value && forall j :: 0 <= j < k ==> s[1..][j].id != id;
          assert s[k + 1] == r.value;
          assert forall j :: 0 <= j < k + 1 ==> s[j].id != id by {
            forall j | 0 <= j < k + 1 ensures s[j].id != id {
              if j > 0 { assert s[j] == s[1..][j - 1]; }
            }
          }
        }
      }
      r
  }

  /** One entity of the interpolated view: the pre-snapshot entity itself when
      the post snapshot has no entity with its ID, otherwise a fresh entity
      whose position, rotation and velocity are blended by alpha. */
  function InterpolateOne(pre: EntityView, post: seq<EntityView>, alpha: real): EntityView
  {
    match FindById(post, pre.id)
    case None => pre
    case Some(q) =>
      EntityView(pre.id, pre.kind, pre.material,
                 Lerp(pre.position, q.position, alpha),
                 LerpReal(pre.rotation, q.rotation, alpha),
                 Lerp(pre.velocity, q.velocity, alpha))
  }

  function InterpolateEntities(pre: seq<EntityView>, post: seq<EntityView>, alpha: real): seq<EntityView>
  {
    seq(|pre|, i requires 0 <= i < |pre| => InterpolateOne(pre[i], post, alpha))
  }

  /** `(int) Math.Floor(timeInShots)`, clamped at 0. */
  function PreIndex(timeInShots: real): int
  {
    if timeInShots.Floor < 0 then 0 else timeInShots.Floor
  }

  /** `snapshots.Count - 1 - msSinceHeadTime / IntervalMs`. */
  function TimeInShots(count: nat, msSinceHeadTime: real): real
  {
    (count - 1) as real - msSinceHeadTime / IntervalMs
  }

  /** With a positive time since the head, both neighbours are in bounds:
      0 <= preIndex and postIndex = preIndex + 1 <= Count - 1. */
  lemma IndicesInBounds(count: nat, msSinceHeadTime: real)
    requires count > 1 && msSinceHeadTime > 0.0
    ensures 0 <= PreIndex(TimeInShots(count, msSinceHeadTime))
    ensures PreIndex(TimeInShots(count, msSinceHeadTime)) + 1 <= count - 1
  {
    var t := TimeInShots(count, msSinceHeadTime);
    assert msSinceHeadTime / IntervalMs > 0.0;
    assert t < (count - 1) as real;
    assert t.Floor as real <= t;
  }

  /** The blend factor lies in [0, 1) unless the lower index was clamped to
      0, and then it is negative: alpha itself is never clamped. */
  lemma AlphaRange(count: nat, msSinceHeadTime: real)
    requires count > 1 && msSinceHeadTime > 0.0
    ensures var t := TimeInShots(count, msSinceHeadTime);
            var alpha := t - PreIndex(t) as real;
            if t.Floor < 0 then alpha < 0.0 && alpha == t else 0.0 <= alpha < 1.0
  {
  }

  /** The loop of `GetSnapshot` over the earlier snapshot's entities: each
      one moved towards its namesake in the later snapshot, or kept as it is. */
  method LerpEntities(pre: seq<EntityView>, post: seq<EntityView>, alpha: real) returns (interpolated: seq<EntityView>)
    ensures interpolated == InterpolateEntities(pre, post, alpha)
  {
    interpolated := [];
    var i := 0;
    while i < |pre|
      invariant 0 <= i <= |pre|
      invariant |interpolated| == i
      invariant forall k :: 0 <= k < i ==> interpolated[k] == InterpolateOne(pre[k], post, alpha)
    {
      var e := pre[i];
      var found := FindById(post, e.id);
      if found.None? {
        interpolated := interpolated + [e];
      } else {
        interpolated := interpolated + [EntityView(e.id, e.kind, e.material,
                                                   Lerp(e.position, found.value.position, alpha),
                                                   LerpReal(e.rotation, found.value.rotation, alpha),
                                                   Lerp(e.velocity, found.value.velocity, alpha))];
      }
      i := i + 1;
    }
  }

  /** `GetSnapshot(time)` as a function of the buffer, the head time and the
      requested time. The source indexes an empty list when there is no
      snapshot, so the buffer must hold one. */
  function Interpolated(snapshots: seq<WorldSnapshot>, headTime: real, time: real): (r: WorldSnapshot)
    requires |snapshots| > 0
    ensures |snapshots| == 1 ==> r == snapshots[0]
    ensures time >= headTime ==> r == snapshots[|snapshots| - 1]
  {
    if |snapshots| > 1 then
      var msSinceHeadTime := headTime - time;
      if msSinceHeadTime <= 0.0 then snapshots[|snapshots| - 1]
      else
        var timeInShots := TimeInShots(|snapshots|, msSinceHeadTime);
        IndicesInBounds(|snapshots|, msSinceHeadTime);
        var preIndex := PreIndex(timeInShots);
        var alpha := timeInShots - preIndex as real;
        var preSnapshot := snapshots[preIndex];
        var postSnapshot := snapshots[preIndex + 1];
        WorldSnapshot(InterpolateEntities(preSnapshot.entities, postSnapshot.entities, alpha),
                      preSnapshot.staticGeometry)
    else
      snapshots[0]
  }

  /** The interpolated view holds one entity per pre-snapshot entity, with
      the same ID and in the same order; an entity the post snapshot lacks
      passes through unchanged, a matched one is blended; post-only entities
      are absent. */
  lemma InterpolationFollowsPre(pre: seq<EntityView>, post: seq<EntityView>, alpha: real)
    ensures var r := InterpolateEntities(pre, post, alpha);
            && |r| == |pre|
            && (forall i :: 0 <= i < |pre| ==> r[i].id == pre[i].id && r[i].kind == pre[i].kind)
            && (forall i :: 0 <= i < |pre| && FindById(post, pre[i].id).None? ==> r[i] == pre[i])
            && (forall i :: 0 <= i < |pre| && FindById(post, pre[i].id).Some? ==>
                  var q := FindById(post, pre[i].id).value;
                  r[i].position == Lerp(pre[i].position, q.position, alpha) &&
                  r[i].rotation == LerpReal(pre[i].rotation, q.rotation, alpha) &&
                  r[i].velocity == Lerp(pre[i].velocity, q.velocity, alpha))
            && (forall e :: e in r ==> exists p :: p in pre && p.id == e.id)
  {
    var r := InterpolateEntities(pre, post, alpha);
    forall e | e in r ensures exists p :: p in pre && p.id == e.id {
      var i :| 0 <= i < |r| && r[i] == e;
      assert pre[i] in pre && pre[i].id == e.id;
    }
  }

  /** The interpolated snapshot keeps the pre snapshot's terrain, and an
      entity that appears only in the later snapshot is not in it. */
  lemma InterpolatedKeepsPreGeometry(snapshots: seq<WorldSnapshot>, headTime: real, time: real)
    requires |snapshots| > 1 && time < headTime
    ensures var t := TimeInShots(|snapshots|, headTime - time);
            var k := PreIndex(t);
            0 <= k < k + 1 < |snapshots| &&
            Interpolated(snapshots, headTime, time).staticGeometry == snapshots[k].staticGeometry &&
            forall e :: e in Interpolated(snapshots, headTime, time).entities ==>
              exists p :: p in snapshots[k].entities && p.id == e.id
  {
    var t := TimeInShots(|snapshots|, headTime - time);
    IndicesInBounds(|snapshots|, headTime - time);
    var k := PreIndex(t);
    InterpolationFollowsPre(snapshots[k].entities, snapshots[k + 1].entities, t - k as real);
  }

  /** The live snapshot buffer. `appended` is every snapshot ever added. */
  class World {
    var snapshots: seq<WorldSnapshot>
    var headTime: real
    ghost var appended: seq<WorldSnapshot>

    ghost predicate Valid()
      reads this
    {
      && snapshots == Recent(appended)
      && |snapshots| <= SnapshotCount
      && headTime == IntervalMs * |appended| as real
    }

    constructor ()
      ensures Valid() && snapshots == [] && headTime == 0.0
    {
      snapshots := [];
      headTime := 0.0;
      appended := [];
    }

    /** Appends the snapshot as the newest, evicts the oldest once more than
        `SnapshotCount` are held, and advances the head time by one interval. */
    method AddDiscreteSnapshot(s: WorldSnapshot)
      requires Valid()
      modifies this
      ensures Valid() && appended == old(appended) + [s]
      ensures snapshots == if |old(snapshots)| + 1 > SnapshotCount
                           then (old(snapshots) + [s])[1..] else old(snapshots) + [s]
      ensures snapshots[|snapshots| - 1] == s
      ensures headTime == old(headTime) + IntervalMs
    {
      RecentAppend(appended, s);
      snapshots := snapshots + [s];
      if |snapshots| > SnapshotCount {
        snapshots := snapshots[1..];
      }
      headTime := headTime + 16.0;
      appended := appended + [s];
    }

    /** The most recently appended snapshot. */
    function GetHeadSnapshot(): (s: WorldSnapshot)
      reads this
      requires Valid() && |snapshots| > 0
      ensures s == appended[|appended| - 1]
    {
      snapshots[|snapshots| - 1]
    }

    /** Builds the interpolated view entity by entity, as the source's loop does. */
    method GetSnapshot(time: real) returns (r: WorldSnapshot)
      requires |snapshots| > 0
      ensures r == Interpolated(snapshots, headTime, time)
    {
      if |snapshots| > 1 {
        var msSinceHeadTime := headTime - time;
        if msSinceHeadTime <= 0.0 {
          return snapshots[|snapshots| - 1];
        }
        var timeInShots := (|snapshots| - 1) as real - msSinceHeadTime / IntervalMs;
        var preIndex := timeInShots.Floor;
        if preIndex < 0 {
          preIndex := 0;
        }
        IndicesInBounds(|snapshots|, msSinceHeadTime);
        assert preIndex == PreIndex(TimeInShots(|snapshots|, msSinceHeadTime));
        var postIndex := preIndex + 1;
        var alpha := timeInShots - preIndex as real;
        var preSnapshot := snapshots[preIndex];
        var postSnapshot := snapshots[postIndex];
        var interpolated := LerpEntities(preSnapshot.entities, postSnapshot.entities, alpha);
        r := WorldSnapshot(interpolated, preSnapshot.staticGeometry);
      } else {
        r := snapshots[0];
      }
    }
  }

  /** After n appends to a new buffer the head time is 16 ms times n and the
      buffer holds the last min(n, 6) of them. */
  lemma HeadTimeCountsAppends(w: World)
    requires w.Valid()
    ensures w.headTime == 16.0 * |w.appended| as real
    ensures |w.snapshots| == if |w.appended| < SnapshotCount then |w.appended| else SnapshotCount
  {
  }
}
