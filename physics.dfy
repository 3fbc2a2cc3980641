/** The bridge between the entity list and the physics engine
    (Ballz.Core/GameSession/Physics/PhysicsComponent.cs). The engine itself is
    opaque: its bodies are integer handles mapped to what the core sets on
    them (type, shape, material, transform, velocity, accumulated impulse,
    collision handler); what it computes (contacts, integration, ray casts)
    comes in as parameters. */
module Physics {
  import opened Geometry
  import opened Entities
  import opened Messages

  datatype BodyType = Static | Dynamic

  /** The fixture shape the core attaches to a body. */
  datatype Shape =
    | Edge(start: Vec2, end: Vec2)
    | Chain(vertices: seq<Vec2>)
    | Circle(radius: real, density: real)

  /** The body settings the core chooses; None keeps the engine's default. */
  datatype Material = Material(friction: Option<real>, restitution: Option<real>, fixedRotation: bool, mass: Option<real>)

  const EngineDefaults: Material := Material(None, None, false, None)
  const TerrainMaterial: Material := Material(Some(1.0), None, false, None)
  const BallMaterial: Material := Material(Some(2.0), Some(0.1), true, Some(10.0))

  /** One engine body; `onCollision` is the shot whose collision handler the
      body carries, if any. */
  datatype Body = Body(bodyType: BodyType, shape: Shape, material: Material,
                       position: Vec2, rotation: real, velocity: Vec2, impulse: Vec2,
                       onCollision: Option<Entity>)

  const Gravity: Vec2 := Vec2(0.0, -9.82)

  /** The test plate `Initialize` adds. */
  const Ground: Body := Body(Static, Edge(Vec2(-10.0, 0.0), Vec2(20.0, 0.0)), EngineDefaults, Zero, 0.0, Zero, Zero, None)

  function TerrainBody(vertices: seq<Vec2>): Body
  {
    Body(Static, Chain(vertices), TerrainMaterial, Zero, 0.0, Zero, Zero, None)
  }

  /** A polyline with every vertex multiplied by the terrain scale. */
  function Scaled(outline: seq<Vec2>, scale: real): seq<Vec2>
  {
    seq(|outline|, i requires 0 <= i < |outline| => outline[i].Times(scale))
  }

  /** `Health -= impact`, clamped at zero. */
  function Damaged(health: real, impact: real): (h: real)
    ensures h >= 0.0
    ensures h == health - impact || (h == 0.0 && health - impact < 0.0)
  {
    var h := health - impact;
    if h < 0.0 then 0.0 else h
  }

  /** 90 degrees in radians, as the single-precision expression
      `2 * (float)Math.PI * 90f / 360f` evaluates. */
  const QuarterTurn: real := 1.5707964

  /** The rotation a ball gets from its velocity after a step. */
  function BallRotation(v: Vec2): real
  {
    if v.LengthSquared() > 0.0001 then (if v.x > 0.0 then QuarterTurn else -QuarterTurn)
    else QuarterTurn
  }

  /** A ball always faces one of two ways, and faces left exactly when it
      moves faster than the rest threshold without moving right. */
  lemma BallFacesSideways(v: Vec2)
    ensures BallRotation(v) == QuarterTurn || BallRotation(v) == -QuarterTurn
    ensures BallRotation(v) == -QuarterTurn <==> v.LengthSquared() > 0.0001 && v.x <= 0.0
  {
  }

  /** A contact the engine reports during a step: the bodies of its two
      fixtures and the first point of its world manifold. */
  datatype Contact = Contact(a: BodyId, b: BodyId, point: Vec2)

  /** The fixture a shot's handler treats as hit: the other one. */
  function OtherBody(own: Option<BodyId>, c: Contact): BodyId
  {
    if own == Some(c.a) then c.b else c.a
  }

  /** What a ray cast reports last to its callback. */
  datatype RayHit = Miss | Hit(body: BodyId, point: Vec2)

  datatype Ray = Ray(from: Vec2, to: Vec2)

  /** The engine's integration of one body over a step. */
  datatype Motion = Motion(position: Vec2, velocity: Vec2)

  /** Adds an impulse to a live body; a handle that is not live changes nothing. */
  function Pushed(bodies: map<BodyId, Body>, body: Option<BodyId>, impulse: Vec2): map<BodyId, Body>
  {
    if body.Some? && body.value in bodies
    then bodies[body.value := bodies[body.value].(impulse := bodies[body.value].impulse.Plus(impulse))]
    else bodies
  }

  /** The shots whose collision handlers the bodies of `m` carry. */
  ghost function HandlersOf(m: map<BodyId, Body>): set<Entity>
  {
    set b | b in m && m[b].onCollision.Some? :: m[b].onCollision.value
  }

  /** Dropping bodies adds no handler. */
  lemma HandlersSub(small: map<BodyId, Body>, large: map<BodyId, Body>)
    requires forall b :: b in small ==> b in large && small[b] == large[b]
    ensures HandlersOf(small) <= HandlersOf(large)
  {
    forall h | h in HandlersOf(small) ensures h in HandlersOf(large) {
      var b :| b in small && small[b].onCollision == Some(h);
      assert large[b].onCollision == Some(h);
    }
  }

  /** Storing a body adds at most the handler it carries. */
  lemma HandlersPut(m: map<BodyId, Body>, b: BodyId, body: Body)
    ensures HandlersOf(m[b := body]) <= HandlersOf(m) + (if body.onCollision.Some? then {body.onCollision.value} else {})
  {
    var r := m[b := body];
    forall h | h in HandlersOf(r)
      ensures h in HandlersOf(m) || body.onCollision == Some(h)
    {
      var x :| x in r && r[x].onCollision == Some(h);
      if x != b {
        assert m[x].onCollision == Some(h);
      }
    }
  }

  /** Two body tables that agree on which bodies are live and where each one
      stands and how it moves; impulses and handlers may differ. */
  ghost predicate SameMotion(before: map<BodyId, Body>, after: map<BodyId, Body>)
  {
    && before.Keys == after.Keys
    && forall b :: b in before ==> SameMotionAt(before, after, b)
  }

  ghost predicate SameMotionAt(before: map<BodyId, Body>, after: map<BodyId, Body>, b: BodyId)
    requires b in before && b in after
  {
    after[b].position == before[b].position && after[b].velocity == before[b].velocity
  }

  /** An impulse changes neither which bodies are live, nor where they stand
      and how they move, nor the handlers they carry. */
  lemma PushedKeeps(m: map<BodyId, Body>, body: Option<BodyId>, impulse: Vec2)
    ensures Pushed(m, body, impulse).Keys == m.Keys
    ensures SameMotion(m, Pushed(m, body, impulse))
    ensures HandlersOf(Pushed(m, body, impulse)) == HandlersOf(m)
  {
    var r := Pushed(m, body, impulse);
    forall h | h in HandlersOf(r) ensures h in HandlersOf(m) {
      var b :| b in r && r[b].onCollision == Some(h);
      assert m[b].onCollision == Some(h);
    }
    forall h | h in HandlersOf(m) ensures h in HandlersOf(r) {
      var b :| b in m && m[b].onCollision == Some(h);
      assert r[b].onCollision == Some(h);
    }
  }

  /** The engine's integration over a step: each body it reports moving
      takes the reported position and velocity. */
  function Integrated(bodies: map<BodyId, Body>, motion: map<BodyId, Motion>): map<BodyId, Body>
  {
    map b | b in bodies :: if b in motion then bodies[b].(position := motion[b].position, velocity := motion[b].velocity) else bodies[b]
  }

  /** Integration changes neither which bodies are live nor their handlers. */
  lemma IntegratedKeeps(bodies: map<BodyId, Body>, motion: map<BodyId, Motion>)
    ensures Integrated(bodies, motion).Keys == bodies.Keys
    ensures HandlersOf(Integrated(bodies, motion)) == HandlersOf(bodies)
  {
    var r := Integrated(bodies, motion);
    forall h | h in HandlersOf(r) ensures h in HandlersOf(bodies) {
      var b :| b in r && r[b].onCollision == Some(h);
      assert bodies[b].onCollision == Some(h);
    }
    forall h | h in HandlersOf(bodies) ensures h in HandlersOf(r) {
      var b :| b in bodies && bodies[b].onCollision == Some(h);
      assert r[b].onCollision == Some(h);
    }
  }

  /** The shots of the live list, in order (`where e is Shot`). */
  function ShotsOf(s: seq<Entity>): (r: seq<Entity>)
    ensures forall e :: e in r ==> e in s && e.kind == ShotKind
    ensures forall e :: e in s && e.kind == ShotKind ==> e in r
  {
    if s == [] then []
    else ShotsOf(s[..|s| - 1]) + (if s[|s| - 1].kind == ShotKind then [s[|s| - 1]] else [])
  }

  /** The shots of a list that hit at once. */
  function InstantShots(shots: seq<Entity>): (r: seq<Entity>)
    reads shots`isInstantShot
    ensures forall e :: e in r ==> e in shots && e.isInstantShot
    ensures forall e :: e in shots && e.isInstantShot ==> e in r
  {
    if shots == [] then []
    else InstantShots(shots[..|shots| - 1]) + (if shots[|shots| - 1].isInstantShot then [shots[|shots| - 1]] else [])
  }

  /** The ray an instant shot casts: from its position along 100 times its velocity. */
  function ShotRay(shot: Entity): Ray
    reads shot`position, shot`velocity
  {
    Ray(shot.position, shot.position.Plus(shot.velocity.Times(100.0)))
  }

  function RaysOf(shots: seq<Entity>): (r: seq<Ray>)
    reads shots`position, shots`velocity
    ensures |r| == |shots| && forall i :: 0 <= i < |shots| ==> r[i] == ShotRay(shots[i])
  {
    if shots == [] then [] else RaysOf(shots[..|shots| - 1]) + [ShotRay(shots[|shots| - 1])]
  }

  /** What the instant-shot pass reads of one shot: whether it hits at once,
      its ray, and the two factors of the crater it cuts. */
  datatype ShotView = ShotView(instant: bool, ray: Ray, radiusFactor: real, speedSquared: real)

  function ViewOf(shot: Entity): ShotView
    reads shot`isInstantShot, shot`position, shot`velocity, shot`explosionRadius
  {
    ShotView(shot.isInstantShot, ShotRay(shot), 0.04 * shot.explosionRadius, shot.velocity.LengthSquared())
  }

  function Views(shots: seq<Entity>): (r: seq<ShotView>)
    reads shots`isInstantShot, shots`position, shots`velocity, shots`explosionRadius
    ensures |r| == |shots| && forall i :: 0 <= i < |shots| ==> r[i] == ViewOf(shots[i])
  {
    if shots == [] then [] else Views(shots[..|shots| - 1]) + [ViewOf(shots[|shots| - 1])]
  }

  /** The shots whose view says they hit at once. */
  function Fired(shots: seq<Entity>, views: seq<ShotView>): seq<Entity>
    requires |views| == |shots|
  {
    if shots == [] then []
    else Fired(shots[..|shots| - 1], views[..|shots| - 1]) + (if views[|shots| - 1].instant then [shots[|shots| - 1]] else [])
  }

  /** The rays those shots cast. */
  function FiredRays(views: seq<ShotView>): seq<Ray>
  {
    if views == [] then []
    else FiredRays(views[..|views| - 1]) + (if views[|views| - 1].instant then [views[|views| - 1].ray] else [])
  }

  /** The body a ray-cast result names, if any. */
  function HitTarget(hit: RayHit): Option<BodyId>
  {
    if hit.Hit? then Some(hit.body) else None
  }

  /** The point a ray-cast result reports; `Vector2.Zero` on a miss. */
  function HitPoint(hit: RayHit): Vec2
  {
    if hit.Hit? then hit.point else Zero
  }

  /** The craters the fired shots of `views` cut: one per instant shot whose
      ray the engine reports as hitting a terrain body, in firing order. */
  function TerrainCraters(views: seq<ShotView>, rayCast: Ray -> RayHit, terrain: seq<BodyId>): seq<Crater>
  {
    if views == [] then []
    else TerrainCraters(views[..|views| - 1], rayCast, terrain) + ShotCrater(views[|views| - 1], rayCast, terrain)
  }

  /** The crater one shot cuts: only an instant shot whose ray the engine
      reports as hitting a terrain body cuts one. */
  function ShotCrater(v: ShotView, rayCast: Ray -> RayHit, terrain: seq<BodyId>): seq<Crater>
  {
    var hit := rayCast(v.ray);
    if v.instant && hit.Hit? && hit.body in terrain then [Crater(hit.point, v.radiusFactor, v.speedSquared)] else []
  }

  /** At most one crater per fired shot, and each one is cut by an instant
      shot whose ray hit terrain, at the hit point, scaled by that shot. */
  lemma {:induction false} TerrainCratersFromHits(views: seq<ShotView>, rayCast: Ray -> RayHit, terrain: seq<BodyId>)
    ensures |TerrainCraters(views, rayCast, terrain)| <= |views|
    ensures forall c :: c in TerrainCraters(views, rayCast, terrain) ==>
      exists v :: v in views && v.instant && rayCast(v.ray).Hit? && rayCast(v.ray).body in terrain &&
        c == Crater(rayCast(v.ray).point, v.radiusFactor, v.speedSquared)
    ensures (forall v :: v in views ==> !v.instant) ==> TerrainCraters(views, rayCast, terrain) == []
  {
    if views != [] {
      var init := views[..|views| - 1];
      TerrainCratersFromHits(init, rayCast, terrain);
      assert forall v :: v in init ==> v in views;
      assert views[|views| - 1] in views;
    }
  }

  /** Firing one more instant shot appends its ray to those already cast. */
  lemma FiredRaysNext(views: seq<ShotView>, i: nat, before: seq<Ray>)
    requires i < |views| && views[i].instant
    ensures before + FiredRays(views[..i + 1]) == before + FiredRays(views[..i]) + [views[i].ray]
  {
    assert views[..i + 1][..i] == views[..i];
  }

  /** One more shot in the loop removes it from the list exactly when it fires. */
  lemma FiredNext(shots: seq<Entity>, views: seq<ShotView>, i: nat, s: seq<Entity>)
    requires i < |shots| == |views|
    ensures views[i].instant ==>
      RemoveAll(s, Fired(shots[..i + 1], views[..i + 1])) == RemoveFirst(RemoveAll(s, Fired(shots[..i], views[..i])), shots[i])
    ensures !views[i].instant ==>
      RemoveAll(s, Fired(shots[..i + 1], views[..i + 1])) == RemoveAll(s, Fired(shots[..i], views[..i]))
  {
    assert shots[..i + 1][..i] == shots[..i] && views[..i + 1][..i] == views[..i];
    var done := Fired(shots[..i], views[..i]);
    if views[i].instant {
      assert Fired(shots[..i + 1], views[..i + 1]) == done + [shots[i]];
      assert (done + [shots[i]])[..|done|] == done;
    } else {
      assert Fired(shots[..i + 1], views[..i + 1]) == done;
    }
  }

  /** Firing one more shot appends its crater, if it cuts one. */
  lemma TerrainCratersNext(views: seq<ShotView>, i: nat, rayCast: Ray -> RayHit, terrain: seq<BodyId>, before: seq<Crater>)
    requires i < |views|
    ensures before + TerrainCraters(views[..i + 1], rayCast, terrain) ==
      before + TerrainCraters(views[..i], rayCast, terrain) + ShotCrater(views[i], rayCast, terrain)
  {
    assert views[..i + 1][..i] == views[..i];
  }

  /** Views read nothing but the four fields they copy. */
  twostate lemma {:induction false} ViewsKept(shots: seq<Entity>)
    requires forall e :: e in shots ==>
      && e.isInstantShot == old(e.isInstantShot) && e.position == old(e.position)
      && e.velocity == old(e.velocity) && e.explosionRadius == old(e.explosionRadius)
    ensures Views(shots) == old(Views(shots))
  {
    if shots != [] {
      ViewsKept(shots[..|shots| - 1]);
    }
  }

  /** Nor does it change which of them are instant. */
  twostate lemma {:induction false} InstantShotsKept(shots: seq<Entity>)
    requires forall e :: e in shots ==> e.isInstantShot == old(e.isInstantShot)
    ensures InstantShots(shots) == old(InstantShots(shots))
  {
    if shots != [] {
      InstantShotsKept(shots[..|shots| - 1]);
    }
  }

  /** Reading the views first and filtering them afterwards selects the same shots and rays. */
  lemma {:induction false} ViewsMatch(shots: seq<Entity>, views: seq<ShotView>)
    requires views == Views(shots)
    ensures Fired(shots, views) == InstantShots(shots)
    ensures FiredRays(views) == RaysOf(InstantShots(shots))
  {
    if shots != [] {
      var n := |shots| - 1;
      assert views[..n] == Views(shots[..n]);
      ViewsMatch(shots[..n], views[..n]);
      var a := InstantShots(shots[..n]);
      if shots[n].isInstantShot {
        assert (a + [shots[n]])[..|a|] == a;
      }
    }
  }

  /** `List.Remove` of each of `gone`, in order. */
  function RemoveAll(s: seq<Entity>, gone: seq<Entity>): (r: seq<Entity>)
    ensures |r| <= |s|
    ensures forall x :: x in r ==> x in s
  {
    if gone == [] then s else RemoveFirst(RemoveAll(s, gone[..|gone| - 1]), gone[|gone| - 1])
  }

  /** With unique IDs, removing an entity drops exactly that entity. */
  lemma {:induction false} RemoveFirstExactly(s: seq<Entity>, e: Entity)
    requires UniqueIds(s)
    ensures UniqueIds(RemoveFirst(s, e))
    ensures forall x :: x in RemoveFirst(s, e) ==> x in s && x != e
    ensures forall x :: x in s && x != e ==> x in RemoveFirst(s, e)
  {
    if s != [] && s[0] != e {
      assert UniqueIds(s[1..]) by {
        forall i, j | 0 <= i < j < |s[1..]| ensures s[1..][i].id != s[1..][j].id {
          assert s[1..][i] == s[i + 1] && s[1..][j] == s[j + 1];
        }
      }
      RemoveFirstExactly(s[1..], e);
      var r := RemoveFirst(s[1..], e);
      assert RemoveFirst(s, e) == [s[0]] + r;
      forall x | x in r ensures x.id != s[0].id {
        var k :| 0 <= k < |s[1..]| && s[1..][k] == x;
        assert s[k + 1] == x;
      }
      forall i, j | 0 <= i < j < |[s[0]] + r| ensures ([s[0]] + r)[i].id != ([s[0]] + r)[j].id {
        if i == 0 {
          assert ([s[0]] + r)[j] in r;
        } else {
          assert ([s[0]] + r)[i] == r[i - 1] && ([s[0]] + r)[j] == r[j - 1];
        }
      }
    } else if s != [] {
      assert UniqueIds(s[1..]) by {
        forall i, j | 0 <= i < j < |s[1..]| ensures s[1..][i].id != s[1..][j].id {
          assert s[1..][i] == s[i + 1] && s[1..][j] == s[j + 1];
        }
      }
      forall x | x in s[1..] ensures x != e {
        var k :| 0 <= k < |s[1..]| && s[1..][k] == x;
        assert s[k + 1] == x && s[0] == e;
      }
    }
  }

  /** With unique IDs, removing each of `gone` leaves exactly the entities not in `gone`. */
  lemma {:induction false} RemoveAllExactly(s: seq<Entity>, gone: seq<Entity>)
    requires UniqueIds(s)
    ensures UniqueIds(RemoveAll(s, gone))
    ensures forall x :: x in RemoveAll(s, gone) ==> x in s && x !in gone
    ensures forall x :: x in s && x !in gone ==> x in RemoveAll(s, gone)
  {
    if gone != [] {
      var init := gone[..|gone| - 1];
      RemoveAllExactly(s, init);
      RemoveFirstExactly(RemoveAll(s, init), gone[|gone| - 1]);
      assert gone == init + [gone[|gone| - 1]];
    }
  }

  /** The instant-shot pass over a list with unique IDs leaves exactly the
      entities that are not instant shots, and none of them shares an ID with
      a fired shot. */
  lemma FiredListExactly(s: seq<Entity>, r: seq<Entity>)
    requires UniqueIds(s) && r == RemoveAll(s, InstantShots(ShotsOf(s)))
    ensures UniqueIds(r)
    ensures forall e :: e in r ==> e in s && !(e.kind == ShotKind && e.isInstantShot)
    ensures forall e :: e in s && !(e.kind == ShotKind && e.isInstantShot) ==> e in r
    ensures forall e, x :: e in s && e.kind == ShotKind && e.isInstantShot && x in r ==> x.id != e.id
  {
    RemoveAllExactly(s, InstantShots(ShotsOf(s)));
    forall e, x | e in s && e.kind == ShotKind && e.isInstantShot && x in r
      ensures x.id != e.id
    {
      var i :| 0 <= i < |s| && s[i] == e;
      var j :| 0 <= j < |s| && s[j] == x;
      assert i != j;
    }
  }

  /** `ScaleOutline` fills the vertex array of one terrain polyline. */
  method ScaleOutline(outline: seq<Vec2>, scale: real) returns (vertices: array<Vec2>)
    ensures fresh(vertices)
    ensures vertices[..] == Scaled(outline, scale)
  {
    vertices := new Vec2[|outline|];
    for i := 0 to |outline|
      invariant forall k :: 0 <= k < i ==> vertices[k] == outline[k].Times(scale)
    {
      vertices[i] := outline[i].Times(scale);
    }
  }

  /** One turn of the sync loop: the live list, the copy being walked,
      its removal mask and held bodies, the first fresh handle and the index. */
  datatype Turn = Turn(world: GameWorld, entities: seq<Entity>, doomed: seq<bool>, had: seq<Option<BodyId>>, start: nat, i: nat)

  /** The test at the head of the sync loop: a disposed entity, or one
      farther than 100 from the origin, is removed. */
  predicate Doomed(e: Entity)
    reads e
  {
    e.disposed || OutOfBounds(e.position)
  }

  /** Which entities of the list the sync loop removes, computed up front. */
  function Mask(s: seq<Entity>): (r: seq<bool>)
    reads s
    ensures |r| == |s| && forall k :: 0 <= k < |s| ==> r[k] == Doomed(s[k])
  {
    if s == [] then [] else Mask(s[..|s| - 1]) + [Doomed(s[|s| - 1])]
  }

  /** The body each entity of the list holds. */
  function Held(s: seq<Entity>): (r: seq<Option<BodyId>>)
    reads s
    ensures |r| == |s| && forall k :: 0 <= k < |s| ==> r[k] == s[k].physicsBody
  {
    if s == [] then [] else Held(s[..|s| - 1]) + [s[|s| - 1].physicsBody]
  }

  /** The entities whose `drop` flag is off, in order. */
  function Filter(s: seq<Entity>, drop: seq<bool>): (r: seq<Entity>)
    requires |drop| == |s|
    ensures |r| <= |s|
    ensures forall e :: e in r ==> e in s
  {
    if s == [] then []
    else Filter(s[..|s| - 1], drop[..|s| - 1]) + (if drop[|s| - 1] then [] else [s[|s| - 1]])
  }

  /** Filtering keeps the IDs unique. */
  lemma {:induction false} FilterUnique(s: seq<Entity>, drop: seq<bool>)
    requires |drop| == |s| && UniqueIds(s)
    ensures UniqueIds(Filter(s, drop))
  {
    if s != [] {
      var init := s[..|s| - 1];
      assert UniqueIds(init) by {
        forall i, j | 0 <= i < j < |init| ensures init[i].id != init[j].id {
          assert init[i] == s[i] && init[j] == s[j];
        }
      }
      FilterUnique(init, drop[..|s| - 1]);
      var last := s[|s| - 1];
      if !drop[|s| - 1] {
        var k := Filter(init, drop[..|s| - 1]);
        forall x | x in k ensures x.id != last.id {
          var i :| 0 <= i < |init| && init[i] == x;
          assert s[i] == x;
        }
        var r := k + [last];
        forall i, j | 0 <= i < j < |r| ensures r[i].id != r[j].id {
          if j == |r| - 1 {
            assert r[i] in k;
          } else {
            assert r[i] == k[i] && r[j] == k[j];
          }
        }
      }
    }
  }

  /** Every entity filtering keeps sits in the list at a position the mask keeps. */
  lemma {:induction false} FilterKeeps(s: seq<Entity>, drop: seq<bool>, e: Entity)
    requires |drop| == |s| && e in Filter(s, drop)
    ensures exists k :: 0 <= k < |s| && s[k] == e && !drop[k]
  {
    var n := |s| - 1;
    var init := Filter(s[..n], drop[..n]);
    if e in init {
      FilterKeeps(s[..n], drop[..n], e);
      var k :| 0 <= k < n && s[..n][k] == e && !drop[..n][k];
      assert s[k] == e && !drop[k];
    } else {
      assert s[n] == e && !drop[n];
    }
  }

  /** Filtering by the removal mask keeps exactly the entities that are not doomed. */
  lemma FilterMask(s: seq<Entity>, doomed: seq<bool>)
    requires doomed == Mask(s)
    ensures forall e :: e in Filter(s, doomed) ==> e in s && !Doomed(e)
    ensures forall e :: e in s && !Doomed(e) ==> e in Filter(s, doomed)
  {
    forall e | e in Filter(s, doomed)
      ensures e in s && !Doomed(e)
    {
      FilterKeeps(s, doomed, e);
    }
    forall e | e in s && !Doomed(e)
      ensures e in Filter(s, doomed)
    {
      var k :| 0 <= k < |s| && s[k] == e;
      FilterHas(s, doomed, k);
    }
  }

  /** Every entity at a position the mask keeps survives filtering. */
  lemma {:induction false} FilterHas(s: seq<Entity>, drop: seq<bool>, k: nat)
    requires |drop| == |s| && k < |s| && !drop[k]
    ensures s[k] in Filter(s, drop)
  {
    var n := |s| - 1;
    if k < n {
      FilterHas(s[..n], drop[..n], k);
    }
  }

  /** `HandleMessage`: a game message flips the component's `Enabled` flag;
      every other message leaves it. */
  function Toggled(enabled: bool, message: Message): (r: bool)
    ensures r != enabled <==> message == Logic(GameMessage)
  {
    if message.Logic? && message.logic == GameMessage then !enabled else enabled
  }

  /** The flag after a sequence of messages, handled in order. */
  function ToggledAll(enabled: bool, messages: seq<Message>): bool
  {
    if messages == [] then enabled else Toggled(ToggledAll(enabled, messages[..|messages| - 1]), messages[|messages| - 1])
  }

  function GameMessages(messages: seq<Message>): nat
  {
    if messages == [] then 0
    else GameMessages(messages[..|messages| - 1]) + (if messages[|messages| - 1] == Logic(GameMessage) then 1 else 0)
  }

  /** The flag is back where it started exactly when an even number of game
      messages went by. */
  lemma {:induction false} ToggledParity(enabled: bool, messages: seq<Message>)
    ensures ToggledAll(enabled, messages) == (enabled == (GameMessages(messages) % 2 == 0))
  {
    if messages != [] {
      ToggledParity(enabled, messages[..|messages| - 1]);
    }
  }

  /** A body newly created for an entity, before any transform is pushed. */
  function FreshBody(e: Entity): Body
    reads e
  {
    Body(if e.isStatic then Static else Dynamic, Circle(e.radius, 1.0),
         if e.kind == BallKind then BallMaterial else EngineDefaults,
         Zero, 0.0, Zero, Zero,
         if e.kind == ShotKind then Some(e) else None)
  }

  /** A body carrying the entity's transform and velocity. */
  function Moved(b: Body, e: Entity): Body
    reads e
  {
    b.(position := e.position, rotation := e.rotation, velocity := e.velocity)
  }

  /** The body `PreparePhysicsEngine` gives an entity without one, once the
      transform and velocity are pushed into it. */
  function EntityBody(e: Entity): Body
    reads e
  {
    Moved(FreshBody(e), e)
  }

  /** `PhysicsControl`: the engine's live bodies (with the supply of fresh
      handles), the body-to-entity-ID map, the terrain bodies with the
      terrain revision they were built from, the component's `Enabled` flag
      and the ray casts asked of the engine. */
  class PhysicsControl {
    var bodies: map<BodyId, Body>
    var nextBody: BodyId
    var entityIdByPhysicsBody: map<BodyId, int>
    var terrainBodies: seq<BodyId>
    var terrainRevision: int
    var enabled: bool
    var rays: seq<Ray>

    /** Handles are never reused, and mapped bodies are live entity bodies,
        never terrain. */
    ghost predicate Valid()
      reads this
    {
      && (forall b :: b in bodies ==> b < nextBody)
      && (forall i :: 0 <= i < |terrainBodies| ==> terrainBodies[i] < nextBody)
      && (forall b :: b in entityIdByPhysicsBody ==> b in bodies && b !in terrainBodies)
    }

    /** The constructor followed by `Initialize`: an engine holding only the
        ground plate, nothing mapped, no terrain built yet. */
    constructor ()
      ensures Valid()
      ensures bodies == map[0 := Ground] && nextBody == 1
      ensures entityIdByPhysicsBody == map[] && terrainBodies == [] && terrainRevision == -1
      ensures enabled && rays == []
    {
      bodies := map[0 := Ground];
      nextBody := 1;
      entityIdByPhysicsBody := map[];
      terrainBodies := [];
      terrainRevision := -1;
      enabled := true;
      rays := [];
    }

    /** Disposes the old terrain bodies and builds one static chain body per
        outline polyline, scaled to world units; other bodies stay. */
    method UpdateTerrainBody(terrain: Terrain)
      requires Valid()
      modifies this`bodies, this`nextBody, this`terrainBodies
      ensures Valid() && Built(terrain)
      ensures forall i :: 0 <= i < |terrainBodies| ==> terrainBodies[i] == old(nextBody) + i
      ensures forall b :: b in old(terrainBodies) ==> b !in bodies
      ensures forall b :: b in old(bodies) && b !in old(terrainBodies) ==> b in bodies && bodies[b] == old(bodies[b])
      ensures forall b :: b in bodies ==> b in old(bodies) || b in terrainBodies
    {
      DisposeTerrainBodies();
      terrainBodies := [];
      BuildTerrainBodies(terrain);
    }

    /** The creation loop of `UpdateTerrainBody`: one fresh static chain body
        per outline polyline, in order. */
    method BuildTerrainBodies(terrain: Terrain)
      requires terrainBodies == [] && forall b :: b in bodies ==> b < nextBody
      modifies this`bodies, this`nextBody, this`terrainBodies
      ensures Built(terrain)
      ensures nextBody == old(nextBody) + |terrain.outline|
      ensures forall i :: 0 <= i < |terrainBodies| ==> terrainBodies[i] == old(nextBody) + i
      ensures forall b :: b in bodies ==> b < nextBody
      ensures forall b :: b in old(bodies) ==> b in bodies && bodies[b] == old(bodies[b])
      ensures forall b :: b in bodies ==> b in old(bodies) || b in terrainBodies
    {
      var start := nextBody;
      for j := 0 to |terrain.outline|
        invariant nextBody == start + j && |terrainBodies| == j
        invariant forall i :: 0 <= i < j ==>
          && terrainBodies[i] == start + i && terrainBodies[i] in bodies
          && bodies[terrainBodies[i]] == TerrainBody(Scaled(terrain.outline[i], terrain.scale))
        invariant forall b :: b in bodies ==> b < nextBody
        invariant forall b :: b in old(bodies) ==> b in bodies && bodies[b] == old(bodies[b])
        invariant forall b :: b in bodies ==> b in old(bodies) || b in terrainBodies
      {
        var vertices := ScaleOutline(terrain.outline[j], terrain.scale);
        var body := nextBody;
        bodies := bodies[body := TerrainBody(vertices[..])];
        terrainBodies := terrainBodies + [body];
        nextBody := nextBody + 1;
      }
    }

    /** The terrain bodies are one static chain body per outline polyline,
        scaled to world units. */
    ghost predicate Built(terrain: Terrain)
      reads this
    {
      && |terrainBodies| == |terrain.outline|
      && forall i :: 0 <= i < |terrainBodies| ==>
           terrainBodies[i] in bodies && bodies[terrainBodies[i]] == TerrainBody(Scaled(terrain.outline[i], terrain.scale))
    }

    /** The disposal loop of `UpdateTerrainBody`. */
    method DisposeTerrainBodies()
      modifies this`bodies
      ensures forall b :: b in bodies <==> b in old(bodies) && b !in terrainBodies
      ensures forall b :: b in bodies ==> bodies[b] == old(bodies[b])
    {
      for i := 0 to |terrainBodies|
        invariant forall b :: b in bodies <==> b in old(bodies) && b !in terrainBodies[..i]
        invariant forall b :: b in bodies ==> bodies[b] == old(bodies[b])
      {
        bodies := bodies - {terrainBodies[i]};
      }
      assert terrainBodies[..|terrainBodies|] == terrainBodies;
    }

    /** Disposes the entity, drops it from the live list and, when it has a
        body, unmaps and disposes that body. */
    method RemoveEntity(e: Entity, world: GameWorld)
      requires Valid()
      modifies e`disposed, e`physicsBody, world`entities, this`bodies, this`entityIdByPhysicsBody
      ensures Valid()
      ensures e.disposed && e.physicsBody == None
      ensures world.entities == RemoveFirst(old(world.entities), e)
      ensures old(e.physicsBody).None? ==> bodies == old(bodies) && entityIdByPhysicsBody == old(entityIdByPhysicsBody)
      ensures old(e.physicsBody).Some? ==>
        && bodies == old(bodies) - {old(e.physicsBody).value}
        && entityIdByPhysicsBody == old(entityIdByPhysicsBody) - {old(e.physicsBody).value}
    {
      e.Dispose();
      world.entities := RemoveFirst(world.entities, e);
      if e.physicsBody.Some? {
        var body := e.physicsBody.value;
        entityIdByPhysicsBody := entityIdByPhysicsBody - {body};
        bodies := bodies - {body};
        e.physicsBody := None;
      }
    }

    /** The ball a hit on `target` damages: the live entity mapped to a
        non-terrain body, when it is a ball. */
    function Victim(target: Option<BodyId>, world: GameWorld): (ball: Entity?)
      reads this, world
      ensures ball != null ==> ball in world.entities && ball.kind == BallKind
      ensures ball != null <==>
        && target.Some? && target.value !in terrainBodies && target.value in entityIdByPhysicsBody
        && world.EntityById(entityIdByPhysicsBody[target.value]) != null
        && world.EntityById(entityIdByPhysicsBody[target.value]).kind == BallKind
    {
      if target.None? || target.value in terrainBodies || target.value !in entityIdByPhysicsBody then null
      else
        var e := world.EntityById(entityIdByPhysicsBody[target.value]);
        if e != null && e.kind == BallKind then e else null
    }

    /** What one call of `ApplyImpact` does: a terrain hit cuts a crater of
        radius 0.04 times the shot's speed times its explosion radius; a hit
        on a mapped ball takes the shot's damage off its health (not below
        zero) and pushes its body with ten times the shot's velocity, which
        throws when the ball has no body; anything else changes nothing. */
    twostate predicate ImpactApplied(shot: Entity, target: Option<BodyId>, targetPos: Vec2, world: GameWorld, thrown: bool)
      reads this, world, world.entities, shot
    {
      && world.entities == old(world.entities)
      && ImpactEffect(shot, target, targetPos, old(Victim(target, world)), old(world.staticGeometry), world.staticGeometry,
                      world.entities, thrown)
    }

    /** What an impact on `ball` (the victim of the hit, if any) does to the
        terrain (from `before` to `after`), the healths of the entities of
        `live` (the list it was applied to) and the bodies, whatever happens
        to the live list afterwards. */
    twostate predicate ImpactEffect(shot: Entity, target: Option<BodyId>, targetPos: Vec2, ball: Entity?,
                                    before: Terrain, after: Terrain, live: seq<Entity>, thrown: bool)
      reads this, live, shot
    {
      && after ==
           (if target.Some? && target.value in old(terrainBodies)
            then before.SubtractCircle(Crater(targetPos, 0.04 * old(shot.explosionRadius), old(shot.velocity).LengthSquared()))
            else before)
      && (forall x :: x in live && x != ball ==> x.health == old(x.health))
      && (ball != null ==>
            && ball in live
            && ball.health == Damaged(old(ball.health), old(shot.healthImpactAtDirectHit))
            && (thrown <==> ball.physicsBody.None?)
            && bodies == Pushed(old(bodies), ball.physicsBody, old(shot.velocity).Times(10.0)))
      && (ball == null ==> !thrown && bodies == old(bodies))
    }

    /** `ApplyImpact`; `thrown` reports the null reference of a ball without
        a body. */
    method ApplyImpact(shot: Entity, target: Option<BodyId>, targetPos: Vec2, world: GameWorld) returns (thrown: bool)
      requires Valid()
      modifies world`staticGeometry, world.entities`health, this`bodies
      ensures Valid()
      ensures ImpactApplied(shot, target, targetPos, world, thrown)
    {
      thrown := false;
      if target.None? {
        return;
      }
      var body := target.value;
      if body in terrainBodies {
        world.staticGeometry := world.staticGeometry.SubtractCircle(
          Crater(targetPos, 0.04 * shot.explosionRadius, shot.velocity.LengthSquared()));
      } else if body in entityIdByPhysicsBody {
        var entityId := entityIdByPhysicsBody[body];
        var entity := world.EntityById(entityId);
        if entity != null && entity.kind == BallKind {
          entity.health := Damaged(entity.health, shot.healthImpactAtDirectHit);
          if entity.physicsBody.None? {
            return true;
          }
          bodies := Pushed(bodies, entity.physicsBody, shot.velocity.Times(10.0));
        }
      }
    }

    /** What the collision handler `PreparePhysicsEngine` attaches to a
        shot's body does with one contact: once the shot has a target it
        ignores the contact; otherwise it records the contact point, records
        the other body's entity ID when that body is mapped, applies the
        impact and disposes the shot (unless the impact threw). */
    twostate predicate ShotHit(shot: Entity, contact: Contact, world: GameWorld, thrown: bool)
      reads this, shot, world, world.entities
    {
      if old(shot.targetId) > 0 then
        && !thrown && bodies == old(bodies) && world.staticGeometry == old(world.staticGeometry)
        && shot.targetId == old(shot.targetId) && shot.targetPosition == old(shot.targetPosition)
        && shot.disposed == old(shot.disposed)
        && world.entities == old(world.entities)
        && (forall x :: x in world.entities ==> x.health == old(x.health))
      else
        var target := OtherBody(shot.physicsBody, contact);
        && shot.targetPosition == contact.point
        && shot.targetId == (if target in entityIdByPhysicsBody then entityIdByPhysicsBody[target] else old(shot.targetId))
        && ImpactApplied(shot, Some(target), contact.point, world, thrown)
        && shot.disposed == (old(shot.disposed) || !thrown)
    }

    /** The collision handler itself. */
    method OnShotCollision(shot: Entity, contact: Contact, world: GameWorld) returns (thrown: bool)
      requires Valid()
      modifies shot`targetPosition, shot`targetId, shot`disposed
      modifies world`staticGeometry, world.entities`health, this`bodies
      ensures Valid() && ShotHit(shot, contact, world, thrown)
    {
      if shot.targetId > 0 {
        return false;
      }
      shot.targetPosition := contact.point;
      var target := OtherBody(shot.physicsBody, contact);
      if target in entityIdByPhysicsBody {
        shot.targetId := entityIdByPhysicsBody[target];
      }
      thrown := ApplyImpact(shot, Some(target), shot.targetPosition, world);
      if thrown {
        return;
      }
      shot.Dispose();
    }

    /** A body the entity holds is live, mapped back to the entity's ID,
        and carries the entity's transform and velocity. */
    ghost predicate Synced(e: Entity)
      reads this, e
    {
      && e.physicsBody.Some? && e.physicsBody.value in bodies
      && e.physicsBody.value in entityIdByPhysicsBody && entityIdByPhysicsBody[e.physicsBody.value] == e.id
      && bodies[e.physicsBody.value].position == e.position
      && bodies[e.physicsBody.value].rotation == e.rotation
      && bodies[e.physicsBody.value].velocity == e.velocity
    }

    /** The entity list agrees with the body map: IDs are unique and every
        body an entity holds is mapped back to that entity's ID (so no two
        entities share a body). */
    ghost predicate Attached(world: GameWorld)
      reads this, world, world.entities
    {
      && UniqueIds(world.entities)
      && (forall e :: e in world.entities && e.physicsBody.Some? ==>
            e.physicsBody.value in entityIdByPhysicsBody && entityIdByPhysicsBody[e.physicsBody.value] == e.id)
    }

    /** Creates, maps and configures the body of an entity without one. */
    method CreateBody(e: Entity) returns (body: BodyId)
      requires Valid() && e.physicsBody.None?
      modifies e`physicsBody, this`bodies, this`nextBody, this`entityIdByPhysicsBody
      ensures Valid()
      ensures body == old(nextBody) && nextBody == body + 1 && e.physicsBody == Some(body)
      ensures entityIdByPhysicsBody == old(entityIdByPhysicsBody)[body := e.id]
      ensures bodies == old(bodies)[body := FreshBody(e)]
    {
      body := nextBody;
      nextBody := nextBody + 1;
      var created := Body(if e.isStatic then Static else Dynamic, Circle(e.radius, 1.0), EngineDefaults, Zero, 0.0, Zero, Zero, None);
      e.physicsBody := Some(body);
      entityIdByPhysicsBody := entityIdByPhysicsBody[body := e.id];
      if e.kind == BallKind {
        created := created.(material := BallMaterial);
      }
      if e.kind == ShotKind {
        created := created.(onCollision := Some(e));
      }
      bodies := bodies[body := created];
    }

    /** Pushes the entity's transform and velocity into its body where they differ. */
    method PushState(e: Entity, body: BodyId)
      requires body in bodies
      modifies this`bodies
      ensures bodies == old(bodies)[body := Moved(old(bodies)[body], e)]
    {
      var b := bodies[body];
      if b.position != e.position || b.rotation != e.rotation {
        b := b.(position := e.position, rotation := e.rotation);
      }
      if b.velocity != e.velocity {
        b := b.(velocity := e.velocity);
      }
      bodies := bodies[body := b];
    }

    /** The loop body of `PreparePhysicsEngine` for an entity it keeps. */
    method SyncEntity(e: Entity)
      requires Valid()
      requires e.physicsBody.Some? ==> e.physicsBody.value in entityIdByPhysicsBody && entityIdByPhysicsBody[e.physicsBody.value] == e.id
      modifies e`physicsBody, this`bodies, this`nextBody, this`entityIdByPhysicsBody
      ensures Valid() && Synced(e)
      ensures old(e.physicsBody).Some? ==>
        var b := old(e.physicsBody).value;
        && e.physicsBody == old(e.physicsBody) && nextBody == old(nextBody)
        && entityIdByPhysicsBody == old(entityIdByPhysicsBody)
        && bodies == old(bodies)[b := Moved(old(bodies)[b], e)]
      ensures old(e.physicsBody).None? ==>
        && e.physicsBody == Some(old(nextBody)) && nextBody == old(nextBody) + 1
        && entityIdByPhysicsBody == old(entityIdByPhysicsBody)[old(nextBody) := e.id]
        && bodies == old(bodies)[old(nextBody) := EntityBody(e)]
      ensures HandlersOf(bodies) <= HandlersOf(old(bodies)) + {e}
    {
      var body: BodyId;
      if e.physicsBody.None? {
        body := CreateBody(e);
        HandlersPut(old(bodies), body, EntityBody(e));
      } else {
        body := e.physicsBody.value;
        HandlersPut(old(bodies), body, Moved(old(bodies)[body], e));
        assert Moved(old(bodies)[body], e).onCollision == old(bodies)[body].onCollision;
      }
      PushState(e, body);
    }

    /** What the sync loop leaves of an entity it removes. */
    ghost predicate Gone(e: Entity, had: Option<BodyId>)
      reads this, e
    {
      && e.disposed && e.physicsBody.None?
      && (had.Some? ==> had.value !in entityIdByPhysicsBody && had.value !in bodies)
    }

    /** What the sync loop leaves of an entity it keeps. */
    ghost predicate Prepared(e: Entity, had: Option<BodyId>)
      reads this, e
    {
      Synced(e) && (had.None? ==> bodies[e.physicsBody.value] == EntityBody(e))
    }

    /** An entity the sync loop has not reached yet: as it was, with its
        body (if any) still mapped to its ID. */
    ghost predicate Pending(e: Entity, doomed: bool, had: Option<BodyId>)
      reads this, e
    {
      && e.physicsBody == had && Doomed(e) == doomed
      && (had.Some? ==> had.value in entityIdByPhysicsBody && entityIdByPhysicsBody[had.value] == e.id)
    }

    ghost predicate Done(e: Entity, doomed: bool, had: Option<BodyId>)
      reads this, e
    {
      if doomed then Gone(e, had) else Prepared(e, had)
    }

    /** The sync loop's invariant after `i` entities of the copied list. */
    ghost predicate Progress(world: GameWorld, entities: seq<Entity>, doomed: seq<bool>, had: seq<Option<BodyId>>, start: nat, i: nat)
      reads this, world, entities
    {
      && |doomed| == |entities| && |had| == |entities| && i <= |entities|
      && UniqueIds(entities) && Valid() && nextBody >= start
      && world.entities == Filter(entities[..i], doomed[..i]) + entities[i..]
      && (forall k :: 0 <= k < |entities| && had[k].Some? ==> had[k].value < start)
      && (forall k :: i <= k < |entities| ==> Pending(entities[k], doomed[k], had[k]))
      && (forall k :: 0 <= k < i ==> Done(entities[k], doomed[k], had[k]))
    }

    /** One turn of the sync loop. */
    method SyncStep(world: GameWorld, entities: seq<Entity>, ghost doomed: seq<bool>, ghost had: seq<Option<BodyId>>, ghost start: nat, i: nat)
      requires Progress(world, entities, doomed, had, start, i) && i < |entities|
      modifies this`bodies, this`nextBody, this`entityIdByPhysicsBody
      modifies world`entities, entities`disposed, entities`physicsBody
      ensures Progress(world, entities, doomed, had, start, i + 1)
      ensures forall b :: b in old(bodies) && b !in old(entityIdByPhysicsBody) ==> b in bodies && bodies[b] == old(bodies[b])
      ensures forall b :: b in entityIdByPhysicsBody ==> b in old(entityIdByPhysicsBody) || b >= old(nextBody)
      ensures HandlersOf(bodies) <= HandlersOf(old(bodies)) + {entities[i]}
    {
      var e := entities[i];
      if e.disposed || OutOfBounds(e.position) {
        DropStep(world, entities, doomed, had, start, i);
      } else {
        KeepStep(world, entities, doomed, had, start, i);
      }
    }

    /** A turn of the sync loop that removes the entity. */
    method DropStep(world: GameWorld, entities: seq<Entity>, ghost doomed: seq<bool>, ghost had: seq<Option<BodyId>>, ghost start: nat, i: nat)
      requires Progress(world, entities, doomed, had, start, i) && i < |entities| && doomed[i]
      modifies this`bodies, this`entityIdByPhysicsBody
      modifies world`entities, entities`disposed, entities`physicsBody
      ensures Progress(world, entities, doomed, had, start, i + 1)
      ensures nextBody == old(nextBody)
      ensures forall b :: b in bodies ==> b in old(bodies) && bodies[b] == old(bodies[b])
      ensures forall b :: b in old(bodies) && b !in old(entityIdByPhysicsBody) ==> b in bodies
      ensures forall b :: b in entityIdByPhysicsBody ==> b in old(entityIdByPhysicsBody)
      ensures HandlersOf(bodies) <= HandlersOf(old(bodies))
    {
      var e := entities[i];
      ghost var kept := Filter(entities[..i], doomed[..i]);
      assert Filter(entities[..i + 1], doomed[..i + 1]) == kept && world.entities == kept + [e] + entities[i + 1..] by {
        assert entities[..i + 1][..i] == entities[..i];
        assert doomed[..i + 1][..i] == doomed[..i];
        assert entities[i..] == [e] + entities[i + 1..];
        AppendAssociates(kept, [e], entities[i + 1..]);
      }
      assert e !in kept by {
        forall x | x in kept
          ensures x.id != e.id
        {
          var k :| 0 <= k < i && entities[..i][k] == x;
          assert entities[k] == x;
        }
      }
      assert Pending(e, doomed[i], had[i]);
      RemoveEntity(e, world);
      RemoveFirstAt(kept, e, entities[i + 1..]);
      DropFrame(Turn(world, entities, doomed, had, start, i));
      Unmapped(old(bodies), old(entityIdByPhysicsBody), bodies, entityIdByPhysicsBody, had[i]);
    }

    /** The fields the sync loop reads of an entity are as they were. */
    twostate predicate Same(e: Entity)
      reads e
    {
      && e.disposed == old(e.disposed) && e.physicsBody == old(e.physicsBody)
      && e.position == old(e.position) && e.rotation == old(e.rotation) && e.velocity == old(e.velocity)
      && e.radius == old(e.radius) && e.isStatic == old(e.isStatic)
    }

    /** The maps after `RemoveEntity` drops the body `gone` (if any), which was mapped. */
    static lemma Unmapped(bodies0: map<BodyId, Body>, ids0: map<BodyId, int>, bodies1: map<BodyId, Body>, ids1: map<BodyId, int>,
                          gone: Option<BodyId>)
      requires gone.None? ==> bodies1 == bodies0 && ids1 == ids0
      requires gone.Some? ==> gone.value in ids0 && bodies1 == bodies0 - {gone.value} && ids1 == ids0 - {gone.value}
      ensures forall b :: b in bodies1 ==> b in bodies0 && bodies1[b] == bodies0[b]
      ensures forall b :: b in bodies0 && b !in ids0 ==> b in bodies1
      ensures forall b :: b in ids1 ==> b in ids0
      ensures HandlersOf(bodies1) <= HandlersOf(bodies0)
    {
      HandlersSub(bodies1, bodies0);
    }

    /** The entities a removing turn does not touch keep their standing
        (the turn's data comes as one value `t`). */
    twostate lemma DropFrame(t: Turn)
      requires |t.doomed| == |t.entities| && |t.had| == |t.entities| && t.i < |t.entities| && t.doomed[t.i]
      requires UniqueIds(t.entities) && nextBody >= t.start
      requires forall k :: 0 <= k < |t.entities| && t.had[k].Some? ==> t.had[k].value < t.start
      requires forall k :: t.i <= k < |t.entities| ==> old(Pending(t.entities[k], t.doomed[k], t.had[k]))
      requires forall k :: 0 <= k < t.i ==> old(Done(t.entities[k], t.doomed[k], t.had[k]))
      requires forall x: Entity :: old(allocated(x)) && x != t.entities[t.i] ==> Same(x)
      requires Valid() && nextBody == old(nextBody)
      requires t.entities[t.i].disposed && t.entities[t.i].physicsBody.None?
      requires t.world.entities == Filter(t.entities[..t.i + 1], t.doomed[..t.i + 1]) + t.entities[t.i + 1..]
      requires t.had[t.i].None? ==> bodies == old(bodies) && entityIdByPhysicsBody == old(entityIdByPhysicsBody)
      requires t.had[t.i].Some? ==>
        && bodies == old(bodies) - {t.had[t.i].value}
        && entityIdByPhysicsBody == old(entityIdByPhysicsBody) - {t.had[t.i].value}
      ensures Progress(t.world, t.entities, t.doomed, t.had, t.start, t.i + 1)
    {
      var entities, doomed, had, i := t.entities, t.doomed, t.had, t.i;
      forall k | i < k < |entities|
        ensures Pending(entities[k], doomed[k], had[k])
      {
        assert entities[k].id != entities[i].id && Same(entities[k]);
        assert old(Pending(entities[k], doomed[k], had[k]));
      }
      forall k | 0 <= k < i
        ensures Done(entities[k], doomed[k], had[k])
      {
        assert entities[k].id != entities[i].id && Same(entities[k]);
        assert old(Done(entities[k], doomed[k], had[k]));
      }
    }

    /** A turn of the sync loop that keeps the entity. */
    method KeepStep(world: GameWorld, entities: seq<Entity>, ghost doomed: seq<bool>, ghost had: seq<Option<BodyId>>, ghost start: nat, i: nat)
      requires Progress(world, entities, doomed, had, start, i) && i < |entities| && !doomed[i]
      modifies this`bodies, this`nextBody, this`entityIdByPhysicsBody
      modifies entities`physicsBody
      ensures Progress(world, entities, doomed, had, start, i + 1)
      ensures forall b :: b in old(bodies) && b !in old(entityIdByPhysicsBody) ==> b in bodies && bodies[b] == old(bodies[b])
      ensures forall b :: b in entityIdByPhysicsBody ==> b in old(entityIdByPhysicsBody) || b >= old(nextBody)
      ensures HandlersOf(bodies) <= HandlersOf(old(bodies)) + {entities[i]}
    {
      var e := entities[i];
      ghost var kept := Filter(entities[..i], doomed[..i]);
      assert entities[..i + 1][..i] == entities[..i];
      assert doomed[..i + 1][..i] == doomed[..i];
      assert Filter(entities[..i + 1], doomed[..i + 1]) == kept + [e];
      assert entities[i..] == [e] + entities[i + 1..];
      AppendAssociates(kept, [e], entities[i + 1..]);
      assert Pending(e, doomed[i], had[i]);
      SyncEntity(e);
      KeepFrame(Turn(world, entities, doomed, had, start, i));
    }

    /** The entities a keeping turn does not touch keep their standing. */
    twostate lemma KeepFrame(t: Turn)
      requires |t.doomed| == |t.entities| && |t.had| == |t.entities| && t.i < |t.entities| && !t.doomed[t.i]
      requires UniqueIds(t.entities) && old(Valid()) && old(nextBody) >= t.start
      requires forall k :: 0 <= k < |t.entities| && t.had[k].Some? ==> t.had[k].value < t.start
      requires forall k :: t.i <= k < |t.entities| ==> old(Pending(t.entities[k], t.doomed[k], t.had[k]))
      requires forall k :: 0 <= k < t.i ==> old(Done(t.entities[k], t.doomed[k], t.had[k]))
      requires forall x: Entity :: old(allocated(x)) && x != t.entities[t.i] ==> Same(x)
      requires Valid() && Synced(t.entities[t.i])
      requires t.world.entities == Filter(t.entities[..t.i + 1], t.doomed[..t.i + 1]) + t.entities[t.i + 1..]
      requires t.had[t.i].Some? ==>
        var b := t.had[t.i].value;
        && nextBody == old(nextBody) && entityIdByPhysicsBody == old(entityIdByPhysicsBody)
        && b in old(bodies) && bodies == old(bodies)[b := Moved(old(bodies)[b], t.entities[t.i])]
      requires t.had[t.i].None? ==>
        && t.entities[t.i].physicsBody == Some(old(nextBody)) && nextBody == old(nextBody) + 1
        && entityIdByPhysicsBody == old(entityIdByPhysicsBody)[old(nextBody) := t.entities[t.i].id]
        && bodies == old(bodies)[old(nextBody) := EntityBody(t.entities[t.i])]
      ensures Progress(t.world, t.entities, t.doomed, t.had, t.start, t.i + 1)
    {
      var entities, doomed, had, i := t.entities, t.doomed, t.had, t.i;
      forall k | i < k < |entities|
        ensures Pending(entities[k], doomed[k], had[k])
      {
        assert entities[k].id != entities[i].id && Same(entities[k]);
        assert old(Pending(entities[k], doomed[k], had[k]));
      }
      forall k | 0 <= k < i
        ensures Done(entities[k], doomed[k], had[k])
      {
        assert entities[k].id != entities[i].id && Same(entities[k]);
        assert old(Done(entities[k], doomed[k], had[k]));
        if !doomed[k] {
          assert entities[k].physicsBody.value in old(bodies);
        }
      }
    }

    /** The sync loop's invariant holds before the first turn. */
    lemma SyncStart(world: GameWorld, entities: seq<Entity>, doomed: seq<bool>, had: seq<Option<BodyId>>, start: nat)
      requires Valid() && Attached(world) && entities == world.entities && start == nextBody
      requires doomed == Mask(entities) && had == Held(entities)
      ensures Progress(world, entities, doomed, had, start, 0)
    {
      assert entities[..0] == [] && doomed[..0] == [];
      forall k | 0 <= k < |entities|
        ensures Pending(entities[k], doomed[k], had[k])
        ensures had[k].Some? ==> had[k].value < start
      {
        assert entities[k] in world.entities;
      }
    }

    method SyncLoop(world: GameWorld, entities: seq<Entity>, ghost doomed: seq<bool>, ghost had: seq<Option<BodyId>>, ghost start: nat)
      requires Progress(world, entities, doomed, had, start, 0) && start == nextBody
      modifies this`bodies, this`nextBody, this`entityIdByPhysicsBody
      modifies world`entities, entities`disposed, entities`physicsBody
      ensures Progress(world, entities, doomed, had, start, |entities|)
      ensures forall b :: b in old(bodies) && b !in old(entityIdByPhysicsBody) ==> b in bodies && bodies[b] == old(bodies[b])
      ensures HandlersOf(bodies) <= HandlersOf(old(bodies)) + set e | e in entities
    {
      for i := 0 to |entities|
        invariant Progress(world, entities, doomed, had, start, i)
        invariant forall b :: b in old(bodies) && b !in old(entityIdByPhysicsBody) ==> b in bodies && bodies[b] == old(bodies[b])
        invariant forall b :: b in entityIdByPhysicsBody ==> b in old(entityIdByPhysicsBody) || b >= start
        invariant HandlersOf(bodies) <= HandlersOf(old(bodies)) + set e | e in entities
      {
        SyncStep(world, entities, doomed, had, start, i);
      }
    }

    /** The entity loop of `PreparePhysicsEngine`, over a copy of the list. */
    method SyncEntities(world: GameWorld)
      requires Valid() && Attached(world)
      modifies this`bodies, this`nextBody, this`entityIdByPhysicsBody
      modifies world`entities, world.entities`disposed, world.entities`physicsBody
      ensures Valid() && Attached(world)
      ensures var s := old(world.entities); var doomed := old(Mask(world.entities)); var had := old(Held(world.entities));
        && world.entities == Filter(s, doomed)
        && forall k :: 0 <= k < |s| ==> Done(s[k], doomed[k], had[k])
      ensures forall b :: b in old(bodies) && b !in old(entityIdByPhysicsBody) ==> b in bodies && bodies[b] == old(bodies[b])
      ensures forall i :: 0 <= i < |terrainBodies| && terrainBodies[i] in old(bodies) ==>
        terrainBodies[i] in bodies && bodies[terrainBodies[i]] == old(bodies[terrainBodies[i]])
      ensures HandlersOf(bodies) <= HandlersOf(old(bodies)) + set e | e in old(world.entities)
    {
      var entities := world.entities;
      ghost var doomed := Mask(entities);
      ghost var had := Held(entities);
      ghost var start := nextBody;
      SyncStart(world, entities, doomed, had, start);
      SyncLoop(world, entities, doomed, had, start);
      assert entities[..|entities|] == entities;
      assert doomed[..|entities|] == doomed;
      SyncedAttached(world, entities, doomed, had);
      forall i | 0 <= i < |terrainBodies| && terrainBodies[i] in old(bodies)
        ensures terrainBodies[i] !in old(entityIdByPhysicsBody)
      {
      }
    }

    /** `PreparePhysicsEngine`: rebuilds the terrain bodies when the terrain
        revision differs from the cached one, caches the revision, then walks
        a copy of the entity list, removing the disposed and out-of-bounds
        entities and creating or updating the bodies of the others. The
        list stays attached to the body map. */
    method PreparePhysicsEngine(world: GameWorld)
      requires Valid() && Attached(world)
      modifies this`bodies, this`nextBody, this`entityIdByPhysicsBody, this`terrainBodies, this`terrainRevision
      modifies world`entities, world.entities`disposed, world.entities`physicsBody
      ensures Valid() && Attached(world)
      ensures terrainRevision == world.staticGeometry.revision
      ensures old(world.staticGeometry.revision == terrainRevision) ==> terrainBodies == old(terrainBodies)
      ensures old(world.staticGeometry.revision != terrainRevision) ==> Built(world.staticGeometry)
      ensures var s := old(world.entities); var doomed := old(Mask(world.entities)); var had := old(Held(world.entities));
        && world.entities == Filter(s, doomed)
        && forall k :: 0 <= k < |s| ==> Done(s[k], doomed[k], had[k])
      ensures HandlersOf(bodies) <= HandlersOf(old(bodies)) + set e | e in old(world.entities)
    {
      RefreshTerrain(world);
      SyncEntities(world);
    }

    /** The terrain half of `PreparePhysicsEngine`. */
    method RefreshTerrain(world: GameWorld)
      requires Valid() && Attached(world)
      modifies this`bodies, this`nextBody, this`terrainBodies, this`terrainRevision
      ensures Valid() && Attached(world)
      ensures Mask(world.entities) == old(Mask(world.entities)) && Held(world.entities) == old(Held(world.entities))
      ensures terrainRevision == world.staticGeometry.revision
      ensures old(world.staticGeometry.revision == terrainRevision) ==>
        terrainBodies == old(terrainBodies) && bodies == old(bodies) && nextBody == old(nextBody)
      ensures old(world.staticGeometry.revision != terrainRevision) ==> Built(world.staticGeometry)
      ensures forall b :: b in old(bodies) && b !in old(terrainBodies) ==> b in bodies && bodies[b] == old(bodies[b])
      ensures HandlersOf(bodies) <= HandlersOf(old(bodies))
    {
      var terrain := world.staticGeometry;
      if terrain.revision != terrainRevision {
        UpdateTerrainBody(terrain);
        forall h | h in HandlersOf(bodies) ensures h in HandlersOf(old(bodies)) {
          var b :| b in bodies && bodies[b].onCollision == Some(h);
          assert old(bodies)[b].onCollision == Some(h);
        }
      }
      terrainRevision := terrain.revision;
    }

    /** After the sync loop the list is attached again: kept entities hold
        bodies mapped to their IDs. */
    lemma SyncedAttached(world: GameWorld, s: seq<Entity>, doomed: seq<bool>, had: seq<Option<BodyId>>)
      requires |doomed| == |s| && |had| == |s| && UniqueIds(s)
      requires world.entities == Filter(s, doomed)
      requires forall k :: 0 <= k < |s| ==> Done(s[k], doomed[k], had[k])
      ensures Attached(world)
    {
      FilterUnique(s, doomed);
      forall e | e in world.entities && e.physicsBody.Some?
        ensures e.physicsBody.value in entityIdByPhysicsBody && entityIdByPhysicsBody[e.physicsBody.value] == e.id
      {
        FilterKeeps(s, doomed, e);
        var k :| 0 <= k < |s| && s[k] == e && !doomed[k];
        assert Done(s[k], doomed[k], had[k]);
      }
    }

    /** What the write-back of `PhysicsStep` leaves of one entity: a live
        entity holding a live body takes the body's position and velocity and,
        when it is a ball, faces the way it moves; anything else keeps its
        position, velocity and rotation. */
    twostate predicate WrittenBack(e: Entity)
      reads this, e
    {
      if e.physicsBody.Some? && !e.disposed && e.physicsBody.value in bodies then
        var body := bodies[e.physicsBody.value];
        && e.position == body.position && e.velocity == body.velocity
        && e.rotation == (if e.kind == BallKind then BallRotation(body.velocity) else old(e.rotation))
      else
        e.position == old(e.position) && e.velocity == old(e.velocity) && e.rotation == old(e.rotation)
    }

    /** The half of the write-back that needs no earlier state: an entity
        that is not disposed and holds a live body stands where its body
        stands, moves as it moves, and a ball faces the way it moves. */
    ghost predicate TookBody(e: Entity)
      reads this, e
    {
      e.physicsBody.Some? && !e.disposed && e.physicsBody.value in bodies ==>
        var body := bodies[e.physicsBody.value];
        && e.position == body.position && e.velocity == body.velocity
        && (e.kind == BallKind ==> e.rotation == BallRotation(body.velocity))
    }

    /** Every body an attached entity holds is live. */
    lemma AttachedLive(world: GameWorld)
      requires Valid() && Attached(world)
      ensures UniqueIds(world.entities)
      ensures forall k :: 0 <= k < |world.entities| && world.entities[k].physicsBody.Some? ==>
        world.entities[k].physicsBody.value in bodies
    {
      forall k | 0 <= k < |world.entities| && world.entities[k].physicsBody.Some?
        ensures world.entities[k].physicsBody.value in bodies
      {
        assert world.entities[k] in world.entities;
      }
    }

    /** The write-back of `PhysicsStep`, over the live list. */
    method WriteBack(world: GameWorld)
      requires Valid() && Attached(world)
      modifies world.entities`position, world.entities`velocity, world.entities`rotation
      ensures forall k :: 0 <= k < |world.entities| ==> WrittenBack(world.entities[k])
    {
      AttachedLive(world);
      WriteBackLoop(world.entities);
    }

    /** The write-back loop itself. */
    method WriteBackLoop(s: seq<Entity>)
      requires UniqueIds(s)
      requires forall k :: 0 <= k < |s| && s[k].physicsBody.Some? ==> s[k].physicsBody.value in bodies
      modifies s`position, s`velocity, s`rotation
      ensures forall k :: 0 <= k < |s| ==> WrittenBack(s[k])
    {
      for i := 0 to |s|
        invariant forall k :: 0 <= k < i ==> WrittenBack(s[k])
        invariant forall k :: i <= k < |s| ==>
          s[k].position == old(s[k].position) && s[k].velocity == old(s[k].velocity) && s[k].rotation == old(s[k].rotation)
      {
        var e := s[i];
        if e.physicsBody.None? || e.disposed {
          continue;
        }
        var body := bodies[e.physicsBody.value];
        e.position := body.position;
        e.velocity := body.velocity;
        if e.kind == BallKind {
          e.rotation := BallRotation(e.velocity);
        }
        forall k | 0 <= k < |s| && k != i
          ensures s[k] != e
        {
          assert s[k].id != s[i].id;
        }
      }
    }

    /** Fires, for contact `c`, the handler the body `x` carries, if any. */
    method FireHandler(world: GameWorld, c: Contact, x: BodyId) returns (thrown: bool)
      requires Valid()
      modifies HandlersOf(bodies)`targetPosition, HandlersOf(bodies)`targetId, HandlersOf(bodies)`disposed
      modifies world`staticGeometry, world.entities`health, this`bodies
      ensures Valid() && bodies.Keys == old(bodies.Keys) && HandlersOf(bodies) == old(HandlersOf(bodies))
      ensures x in old(bodies) && old(bodies[x].onCollision).Some? ==> ShotHit(old(bodies[x].onCollision.value), c, world, thrown)
      ensures x !in old(bodies) || old(bodies[x].onCollision).None? ==>
        && !thrown && bodies == old(bodies) && world.staticGeometry == old(world.staticGeometry)
        && forall e :: e in world.entities ==> e.health == old(e.health)
      ensures forall h :: h in old(HandlersOf(bodies)) && old(h.targetId) > 0 ==>
        h.targetId == old(h.targetId) && h.targetPosition == old(h.targetPosition) && h.disposed == old(h.disposed)
      ensures forall h :: h in old(HandlersOf(bodies)) && old(h.disposed) ==> h.disposed
      ensures old(world.staticGeometry.craters) <= world.staticGeometry.craters
    {
      thrown := false;
      if x !in bodies || bodies[x].onCollision.None? {
        return;
      }
      var shot := bodies[x].onCollision.value;
      ghost var before := bodies;
      ghost var ball := Victim(Some(OtherBody(shot.physicsBody, c)), world);
      thrown := OnShotCollision(shot, c, world);
      if old(shot.targetId) <= 0 && ball != null {
        PushedKeeps(before, ball.physicsBody, shot.velocity.Times(10.0));
      }
    }

    /** The collision callbacks of one engine step: for each contact that
        begins touching, the handler on fixture A's body, then the one on
        fixture B's body; an exception from a handler ends the step. Shots
        that already have a target stay as they are, and the terrain only
        gains craters. */
    method Collide(world: GameWorld, contacts: seq<Contact>) returns (thrown: bool)
      requires Valid()
      modifies HandlersOf(bodies)`targetPosition, HandlersOf(bodies)`targetId, HandlersOf(bodies)`disposed
      modifies world`staticGeometry, world.entities`health, this`bodies
      ensures Valid() && bodies.Keys == old(bodies.Keys) && HandlersOf(bodies) == old(HandlersOf(bodies))
      ensures forall h :: h in old(HandlersOf(bodies)) && old(h.targetId) > 0 ==>
        h.targetId == old(h.targetId) && h.targetPosition == old(h.targetPosition) && h.disposed == old(h.disposed)
      ensures forall h :: h in old(HandlersOf(bodies)) && old(h.disposed) ==> h.disposed
      ensures old(world.staticGeometry.craters) <= world.staticGeometry.craters
    {
      thrown := false;
      for i := 0 to |contacts|
        invariant Valid() && bodies.Keys == old(bodies.Keys) && HandlersOf(bodies) == old(HandlersOf(bodies))
        invariant forall h :: h in old(HandlersOf(bodies)) && old(h.targetId) > 0 ==>
          h.targetId == old(h.targetId) && h.targetPosition == old(h.targetPosition) && h.disposed == old(h.disposed)
        invariant forall h :: h in old(HandlersOf(bodies)) && old(h.disposed) ==> h.disposed
        invariant old(world.staticGeometry.craters) <= world.staticGeometry.craters
      {
        thrown := FireContact(world, contacts[i]);
        if thrown {
          return;
        }
      }
    }

    /** The handlers of one contact: fixture A's body, then fixture B's. */
    method FireContact(world: GameWorld, c: Contact) returns (thrown: bool)
      requires Valid()
      modifies HandlersOf(bodies)`targetPosition, HandlersOf(bodies)`targetId, HandlersOf(bodies)`disposed
      modifies world`staticGeometry, world.entities`health, this`bodies
      ensures Valid() && bodies.Keys == old(bodies.Keys) && HandlersOf(bodies) == old(HandlersOf(bodies))
      ensures forall h :: h in old(HandlersOf(bodies)) && old(h.targetId) > 0 ==>
        h.targetId == old(h.targetId) && h.targetPosition == old(h.targetPosition) && h.disposed == old(h.disposed)
      ensures forall h :: h in old(HandlersOf(bodies)) && old(h.disposed) ==> h.disposed
      ensures old(world.staticGeometry.craters) <= world.staticGeometry.craters
    {
      thrown := FireHandler(world, c, c.a);
      if thrown {
        return;
      }
      thrown := FireHandler(world, c, c.b);
    }

    /** `PhysicsStep`: the engine's step (its collision callbacks, then the
        integration it reports), then the write-back of positions and
        velocities into the live entities. */
    method PhysicsStep(world: GameWorld, contacts: seq<Contact>, motion: map<BodyId, Motion>) returns (thrown: bool)
      requires Valid() && Attached(world)
      modifies HandlersOf(bodies)`targetPosition, HandlersOf(bodies)`targetId, HandlersOf(bodies)`disposed
      modifies world`staticGeometry, world.entities`health, this`bodies
      modifies world.entities`position, world.entities`velocity, world.entities`rotation
      ensures Valid() && Attached(world)
      ensures bodies.Keys == old(bodies.Keys) && HandlersOf(bodies) == old(HandlersOf(bodies))
      ensures forall e :: e in world.entities && old(e.physicsBody.Some? && e.physicsBody.value in bodies) ==>
        e.physicsBody.Some? && e.physicsBody.value in bodies
      ensures forall h :: h in old(HandlersOf(bodies)) && old(h.targetId) > 0 ==>
        h.targetId == old(h.targetId) && h.targetPosition == old(h.targetPosition) && h.disposed == old(h.disposed)
      ensures old(world.staticGeometry.craters) <= world.staticGeometry.craters
      ensures !thrown ==> forall b :: b in bodies && b in motion ==>
        bodies[b].position == motion[b].position && bodies[b].velocity == motion[b].velocity
      ensures !thrown ==> forall k :: 0 <= k < |world.entities| ==> WrittenBack(world.entities[k])
    {
      thrown := EngineStep(world, contacts, motion);
      if thrown {
        return;
      }
      WriteBack(world);
    }

    /** `PhysicsWorld.Step`: the collision callbacks, then the integration. */
    method EngineStep(world: GameWorld, contacts: seq<Contact>, motion: map<BodyId, Motion>) returns (thrown: bool)
      requires Valid() && Attached(world)
      modifies HandlersOf(bodies)`targetPosition, HandlersOf(bodies)`targetId, HandlersOf(bodies)`disposed
      modifies world`staticGeometry, world.entities`health, this`bodies
      ensures Valid() && Attached(world)
      ensures bodies.Keys == old(bodies.Keys) && HandlersOf(bodies) == old(HandlersOf(bodies))
      ensures forall h :: h in old(HandlersOf(bodies)) && old(h.targetId) > 0 ==>
        h.targetId == old(h.targetId) && h.targetPosition == old(h.targetPosition) && h.disposed == old(h.disposed)
      ensures old(world.staticGeometry.craters) <= world.staticGeometry.craters
      ensures !thrown ==> forall b :: b in bodies && b in motion ==>
        bodies[b].position == motion[b].position && bodies[b].velocity == motion[b].velocity
    {
      thrown := Collide(world, contacts);
      if thrown {
        return;
      }
      IntegratedKeeps(bodies, motion);
      bodies := Integrated(bodies, motion);
    }

    /** `Update`: when the match is running, prepares the engine, steps it,
        then fires every instant shot of the entity list. The clock's
        elapsed time is folded into `contacts` and `motion`. */
    method Update(world: GameWorld, running: bool, contacts: seq<Contact>, motion: map<BodyId, Motion>, rayCast: Ray -> RayHit)
      returns (thrown: bool, ghost stepped: seq<Crater>)
      requires Valid() && Attached(world)
      modifies this`bodies, this`nextBody, this`entityIdByPhysicsBody, this`terrainBodies, this`terrainRevision, this`rays
      modifies world`entities, world`staticGeometry
      modifies world.entities`disposed, world.entities`physicsBody, world.entities`health
      modifies world.entities`position, world.entities`velocity, world.entities`rotation
      modifies HandlersOf(bodies)`targetPosition, HandlersOf(bodies)`targetId, HandlersOf(bodies)`disposed
      modifies world.entities`targetPosition, world.entities`targetId
      ensures !running ==> !thrown && unchanged(this, world) && unchanged(world.entities)
      ensures running && !thrown ==> Valid() && Attached(world)
      ensures running && !thrown ==>
        var kept := Filter(old(world.entities), old(Mask(world.entities)));
        world.entities == RemoveAll(kept, InstantShots(ShotsOf(kept)))
      ensures running && !thrown ==> forall e :: e in world.entities ==>
        e in old(world.entities) && !old(Doomed(e)) && !(e.kind == ShotKind && e.isInstantShot)
      ensures running && !thrown ==> forall e :: e in old(world.entities) && !old(Doomed(e)) && !(e.kind == ShotKind && e.isInstantShot) ==>
        e in world.entities
      ensures running && !thrown ==> forall e :: e in old(world.entities) && !old(Doomed(e)) && e.kind == ShotKind && e.isInstantShot ==>
        && e.physicsBody.Some? && e.physicsBody.value in bodies
        && e.physicsBody.value in entityIdByPhysicsBody && entityIdByPhysicsBody[e.physicsBody.value] == e.id
        && forall x :: x in world.entities ==> x.id != e.id
      ensures running && !thrown ==> terrainRevision == old(world.staticGeometry.revision)
      ensures running && !thrown ==>
        && old(world.staticGeometry.craters) <= stepped
        && world.staticGeometry.craters ==
             stepped + TerrainCraters(Views(ShotsOf(Filter(old(world.entities), old(Mask(world.entities))))), rayCast, terrainBodies)
    {
      if !running {
        return false, [];
      }
      FilterMask(world.entities, Mask(world.entities));
      ghost var live := Filter(world.entities, Mask(world.entities));
      thrown := Advance(world, contacts, motion);
      stepped := world.staticGeometry.craters;
      if thrown {
        return;
      }
      assert forall k :: 0 <= k < |world.entities| ==> world.entities[k] in old(world.entities);
      assert world.entities == live;
      thrown := FireAll(world, rayCast);
    }

    /** The instant-shot pass of `Update` over the list as it stands: every
        instant shot leaves the list, everything else stays; the shots
        leave with their bodies still live and mapped. */
    method FireAll(world: GameWorld, rayCast: Ray -> RayHit) returns (thrown: bool)
      requires Valid() && Attached(world)
      requires forall e :: e in world.entities ==> e.physicsBody.Some? && e.physicsBody.value in bodies
      modifies this`rays, this`bodies, world`entities, world`staticGeometry, world.entities`health
      ensures !thrown ==> Valid() && Attached(world)
      ensures SameMotion(old(bodies), bodies)
      ensures !thrown ==> world.entities == RemoveAll(old(world.entities), InstantShots(ShotsOf(old(world.entities))))
      ensures !thrown ==> forall e :: e in world.entities ==> e in old(world.entities) && !(e.kind == ShotKind && e.isInstantShot)
      ensures !thrown ==> forall e :: e in old(world.entities) && !(e.kind == ShotKind && e.isInstantShot) ==> e in world.entities
      ensures forall e :: e in old(world.entities) ==>
        e.physicsBody.Some? && e.physicsBody.value in bodies &&
        e.physicsBody.value in entityIdByPhysicsBody && entityIdByPhysicsBody[e.physicsBody.value] == e.id
      ensures !thrown ==> forall e, x :: e in old(world.entities) && e.kind == ShotKind && e.isInstantShot && x in world.entities ==>
        x.id != e.id
      ensures !thrown ==>
        world.staticGeometry.craters == old(world.staticGeometry.craters) + TerrainCraters(Views(ShotsOf(old(world.entities))), rayCast, terrainBodies)
      ensures old(world.staticGeometry.craters) <= world.staticGeometry.craters
    {
      ghost var mid := world.entities;
      ghost var ids := entityIdByPhysicsBody;
      assert forall e :: e in mid ==> e.physicsBody.Some? && e.physicsBody.value in ids && ids[e.physicsBody.value] == e.id;
      ghost var kept := RemoveAll(mid, InstantShots(ShotsOf(mid)));
      FiredListExactly(mid, kept);
      thrown := FireInstantShots(world, ShotsOf(world.entities), rayCast);
      ViewsKept(ShotsOf(mid));
      InstantShotsKept(ShotsOf(mid));
      if !thrown {
        assert world.entities == kept;
        assert kept == RemoveAll(mid, InstantShots(ShotsOf(mid)));
        assert entityIdByPhysicsBody == ids;
        assert forall e :: e in world.entities ==> e.physicsBody.Some? && e.physicsBody.value in ids && ids[e.physicsBody.value] == e.id;
      }
    }

    /** A shot that hits terrain records no target ID (terrain bodies are
        never mapped), so the `TargetId > 0` guard does not stop a second
        terrain contact: each one cuts its own crater. */
    method TerrainHitTwice(shot: Entity, first: Contact, second: Contact, world: GameWorld) returns (thrown: bool)
      requires Valid() && shot.targetId <= 0
      requires OtherBody(shot.physicsBody, first) in terrainBodies && OtherBody(shot.physicsBody, second) in terrainBodies
      modifies shot`targetPosition, shot`targetId, shot`disposed
      modifies world`staticGeometry, world.entities`health, this`bodies
      ensures !thrown && shot.disposed && shot.targetId == old(shot.targetId)
      ensures var r := 0.04 * shot.explosionRadius; var v := shot.velocity.LengthSquared();
        world.staticGeometry ==
          old(world.staticGeometry).SubtractCircle(Crater(first.point, r, v)).SubtractCircle(Crater(second.point, r, v))
    {
      thrown := OnShotCollision(shot, first, world);
      thrown := OnShotCollision(shot, second, world);
    }

    /** A game message switches the component on or off. */
    method HandleMessage(message: Message)
      modifies this`enabled
      ensures enabled == Toggled(old(enabled), message)
    {
      if message.Logic? && message.logic == GameMessage {
        enabled := !enabled;
      }
    }

    /** `PreparePhysicsEngine` followed by `PhysicsStep`: afterwards the list
        holds exactly the entities the mask kept, each with a live, mapped body. */
    method Advance(world: GameWorld, contacts: seq<Contact>, motion: map<BodyId, Motion>) returns (thrown: bool)
      requires Valid() && Attached(world)
      modifies this`bodies, this`nextBody, this`entityIdByPhysicsBody, this`terrainBodies, this`terrainRevision
      modifies world`entities, world`staticGeometry
      modifies world.entities`disposed, world.entities`physicsBody, world.entities`health
      modifies world.entities`position, world.entities`velocity, world.entities`rotation
      modifies HandlersOf(bodies)`targetPosition, HandlersOf(bodies)`targetId, HandlersOf(bodies)`disposed
      modifies world.entities`targetPosition, world.entities`targetId
      ensures Valid() && Attached(world)
      ensures world.entities == Filter(old(world.entities), old(Mask(world.entities)))
      ensures forall e :: e in world.entities ==> e.physicsBody.Some? && e.physicsBody.value in bodies
      ensures terrainRevision == old(world.staticGeometry.revision)
      ensures old(world.staticGeometry.revision) == old(terrainRevision) ==> terrainBodies == old(terrainBodies)
      ensures !thrown ==> forall k :: 0 <= k < |world.entities| ==> TookBody(world.entities[k])
      ensures old(world.staticGeometry.craters) <= world.staticGeometry.craters
    {
      ghost var s := world.entities;
      ghost var doomed := Mask(s);
      ghost var had := Held(s);
      PreparePhysicsEngine(world);
      assert terrainRevision == old(world.staticGeometry.revision);
      KeptHaveBodies(s, doomed, had);
      assert forall k :: 0 <= k < |world.entities| ==> world.entities[k] in old(world.entities);
      thrown := PhysicsStep(world, contacts, motion);
    }

    /** After the sync loop, every entity it kept holds a live body. */
    lemma KeptHaveBodies(s: seq<Entity>, doomed: seq<bool>, had: seq<Option<BodyId>>)
      requires |doomed| == |s| == |had|
      requires forall k :: 0 <= k < |s| ==> Done(s[k], doomed[k], had[k])
      ensures forall e :: e in Filter(s, doomed) ==> e.physicsBody.Some? && e.physicsBody.value in bodies
    {
      forall e | e in Filter(s, doomed)
        ensures e.physicsBody.Some? && e.physicsBody.value in bodies
      {
        FilterKeeps(s, doomed, e);
        var k :| 0 <= k < |s| && s[k] == e && !doomed[k];
        assert Done(s[k], doomed[k], had[k]);
      }
    }

    /** The instant-shot loop of `Update`: each instant shot casts its ray
        (what the engine reports last to the callback comes from `rayCast`),
        applies its impact at that hit (nothing on a miss) and leaves the
        live list; its body is neither disposed nor unmapped. */
    method FireInstantShots(world: GameWorld, shots: seq<Entity>, rayCast: Ray -> RayHit) returns (thrown: bool)
      requires Valid()
      modifies this`rays, this`bodies, world`entities, world`staticGeometry, world.entities`health
      ensures Valid() && bodies.Keys == old(bodies.Keys) && SameMotion(old(bodies), bodies)
      ensures !thrown ==> rays == old(rays + RaysOf(InstantShots(shots)))
      ensures !thrown ==> world.entities == RemoveAll(old(world.entities), old(InstantShots(shots)))
      ensures !thrown ==>
        world.staticGeometry.craters == old(world.staticGeometry.craters) + TerrainCraters(old(Views(shots)), rayCast, terrainBodies)
      ensures old(world.staticGeometry.craters) <= world.staticGeometry.craters
    {
      ghost var views := Views(shots);
      ViewsMatch(shots, views);
      thrown := false;
      for i := 0 to |shots|
        invariant Valid() && bodies.Keys == old(bodies.Keys) && SameMotion(old(bodies), bodies)
        invariant rays == old(rays) + FiredRays(views[..i])
        invariant world.entities == RemoveAll(old(world.entities), Fired(shots[..i], views[..i]))
        invariant world.staticGeometry.craters == old(world.staticGeometry.craters) + TerrainCraters(views[..i], rayCast, terrainBodies)
        invariant forall k :: 0 <= k < |world.entities| ==> world.entities[k] in old(world.entities)
      {
        assert views[i] == old(ViewOf(shots[i])) == ViewOf(shots[i]);
        thrown := FireNext(world, shots, views, i, rayCast, old(rays), old(world.entities), old(world.staticGeometry.craters));
        if thrown {
          return;
        }
      }
      assert shots[..|shots|] == shots && views[..|shots|] == views;
    }

    /** One turn of the instant-shot loop: the `i`-th shot fires if its view says it hits at once. */
    method FireNext(world: GameWorld, shots: seq<Entity>, ghost views: seq<ShotView>, i: nat, rayCast: Ray -> RayHit,
                    ghost rays0: seq<Ray>, ghost entities0: seq<Entity>, ghost craters0: seq<Crater>) returns (thrown: bool)
      requires Valid() && i < |shots| == |views|
      requires views[i] == ViewOf(shots[i])
      requires rays == rays0 + FiredRays(views[..i])
      requires world.entities == RemoveAll(entities0, Fired(shots[..i], views[..i]))
      requires world.staticGeometry.craters == craters0 + TerrainCraters(views[..i], rayCast, terrainBodies)
      modifies this`rays, this`bodies, world`entities, world`staticGeometry, world.entities`health
      ensures Valid() && bodies.Keys == old(bodies.Keys) && SameMotion(old(bodies), bodies)
      ensures !thrown ==> rays == rays0 + FiredRays(views[..i + 1])
      ensures !thrown ==> world.entities == RemoveAll(entities0, Fired(shots[..i + 1], views[..i + 1]))
      ensures !thrown ==> forall k :: 0 <= k < |world.entities| ==> world.entities[k] in entities0
      ensures !thrown ==> world.staticGeometry.craters == craters0 + TerrainCraters(views[..i + 1], rayCast, terrainBodies)
      ensures old(world.staticGeometry.craters) <= world.staticGeometry.craters
    {
      var shot := shots[i];
      FiredNext(shots, views, i, entities0);
      thrown := false;
      if shot.isInstantShot {
        thrown := FireInstantShot(world, shot, rayCast);
        if thrown {
          return;
        }
        FiredRaysNext(views, i, rays0);
        TerrainCratersNext(views, i, rayCast, terrainBodies, craters0);
      } else {
        TerrainCratersNext(views, i, rayCast, terrainBodies, craters0);
        assert views[..i + 1][..i] == views[..i];
      }
    }

    /** One instant shot: its ray is cast, the impact is applied at what it
        reports, and the shot leaves the live list by `List.Remove`. */
    method FireInstantShot(world: GameWorld, shot: Entity, rayCast: Ray -> RayHit) returns (thrown: bool)
      requires Valid()
      modifies this`rays, this`bodies, world`entities, world`staticGeometry, world.entities`health
      ensures Valid() && bodies.Keys == old(bodies.Keys) && SameMotion(old(bodies), bodies)
      ensures rays == old(rays + [ShotRay(shot)])
      ensures !thrown ==> world.entities == RemoveFirst(old(world.entities), shot)
      ensures var hit := rayCast(ShotRay(shot));
        ImpactEffect(shot, HitTarget(hit), HitPoint(hit), old(Victim(HitTarget(hit), world)),
                     old(world.staticGeometry), world.staticGeometry, old(world.entities), thrown)
      ensures old(shot.isInstantShot) ==>
        world.staticGeometry.craters == old(world.staticGeometry.craters) + ShotCrater(old(ViewOf(shot)), rayCast, terrainBodies)
      ensures old(world.staticGeometry.craters) <= world.staticGeometry.craters
    {
      var ray := ShotRay(shot);
      rays := rays + [ray];
      var hit := rayCast(ray);
      var target: Option<BodyId> := None;
      var targetPos := Zero;
      if hit.Hit? {
        target := Some(hit.body);
        targetPos := hit.point;
      }
      ghost var before := bodies;
      ghost var ball := Victim(target, world);
      thrown := ApplyImpact(shot, target, targetPos, world);
      if ball != null {
        PushedKeeps(before, ball.physicsBody, shot.velocity.Times(10.0));
      }
      if thrown {
        return;
      }
      world.entities := RemoveFirst(world.entities, shot);
    }
  }
}
