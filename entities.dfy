/** The live game state that the core reads and mutates: entity objects,
    the live entity list with its terrain, and the players that own balls.
    The entity classes (`Entity`, `Ball`, `Shot`) are one tagged class here:
    the kind tag decides which of the kind-specific fields mean anything. */
module Entities {
  import opened Geometry

  datatype EntityKind = Generic | BallKind | ShotKind

  /** A handle naming one physics-engine body. */
  type BodyId = nat

  /** One `SubtractCircle(x, y, r)` request: a disc at `center` whose radius
      is `radiusPerSpeed` times the square root of `speedSquared`. Keeping the
      factors spares the model a square root, which Dafny's reals lack. */
  datatype Crater = Crater(center: Vec2, radiusPerSpeed: real, speedSquared: real)

  /** The destructible terrain as the core sees it: a revision counter, the
      boundary polylines it currently reports, the scale from terrain to world
      units, and the circle subtractions it has been asked to perform. How a
      subtraction reshapes the outline is the terrain's business. */
  datatype Terrain = Terrain(revision: int, outline: seq<seq<Vec2>>, scale: real, craters: seq<Crater>)
  {
    /** Records the cut and, as the terrain promises, bumps the revision. */
    function SubtractCircle(c: Crater): (t: Terrain)
      ensures t.revision > revision && t.craters == craters + [c]
      ensures t.scale == scale
    {
      Terrain(revision + 1, outline, scale, craters + [c])
    }
  }

  class Player {
    var ownedBalls: seq<Entity>
    var activeBall: Entity?

    constructor ()
      ensures ownedBalls == [] && activeBall == null
    {
      ownedBalls := [];
      activeBall := null;
    }
  }

  class Entity {
    const id: int
    const kind: EntityKind
    var material: int
    var position: Vec2
    var rotation: real
    var velocity: Vec2
    var radius: real
    var isStatic: bool
    var disposed: bool
    var physicsBody: Option<BodyId>
    // Ball
    var health: real
    var aimDirection: Vec2
    var shootCharge: real
    var isAiming: bool
    var holdingWeapon: string
    var player: Player?
    // Shot
    var explosionRadius: real
    var healthImpactAtDirectHit: real
    var isInstantShot: bool
    var targetId: int
    var targetPosition: Vec2

    /** A new entity: live, without a body, no shot target yet. The source's
        other defaults come from constructors that are not part of this model. */
    constructor (id: int, kind: EntityKind)
      ensures this.id == id && this.kind == kind
      ensures !disposed && physicsBody == None && targetId == 0
    {
      this.id := id;
      this.kind := kind;
      disposed := false;
      physicsBody := None;
      targetId := 0;
    }

    method Dispose()
      modifies this`disposed
      ensures disposed
    {
      disposed := true;
    }
  }

  /** The play area is a disc of radius 100 around the origin. */
  predicate OutOfBounds(p: Vec2)
  {
    p.LengthSquared() > 100.0 * 100.0
  }

  /** No two entities of the list share an ID (which also makes them distinct objects). */
  predicate UniqueIds(s: seq<Entity>)
  {
    forall i, j :: 0 <= i < j < |s| ==> s[i].id != s[j].id
  }

  /** `List.Remove(e)`: drops the first occurrence of e. */
  function RemoveFirst(s: seq<Entity>, e: Entity): (r: seq<Entity>)
    ensures e !in s ==> r == s
    ensures e in s ==> |r| == |s| - 1
    ensures forall x :: x in r ==> x in s
  {
    if s == [] then []
    else if s[0] == e then s[1..]
    else [s[0]] + RemoveFirst(s[1..], e)
  }

  lemma {:induction false} RemoveFirstAt(a: seq<Entity>, e: Entity, b: seq<Entity>)
    requires e !in a
    ensures RemoveFirst(a + [e] + b, e) == a + b
  {
    var s := a + [e] + b;
    if a == [] {
      assert s == [e] + b;
    } else {
      assert s[0] == a[0] && a[0] != e;
      assert s[1..] == a[1..] + [e] + b;
      calc {
        RemoveFirst(s, e);
        [a[0]] + RemoveFirst(a[1..] + [e] + b, e);
        { RemoveFirstAt(a[1..], e, b); }
        [a[0]] + (a[1..] + b);
        a + b;
      }
    }
  }

  /** The live world: the entity list and the terrain (`StaticGeometry`). */
  class GameWorld {
    var entities: seq<Entity>
    var staticGeometry: Terrain

    constructor (entities: seq<Entity>, terrain: Terrain)
      ensures this.entities == entities && staticGeometry == terrain
    {
      this.entities := entities;
      staticGeometry := terrain;
    }

    /** `EntityById`: the first live entity with the ID, or null. */
    function EntityById(id: int): (r: Entity?)
      reads this
      ensures r != null ==> r in entities && r.id == id
      ensures r == null ==> forall e :: e in entities ==> e.id != id
    {
      FindEntity(entities, id)
    }
  }

  function FindEntity(s: seq<Entity>, id: int): (r: Entity?)
    ensures r != null ==> r in s && r.id == id
    ensures r == null ==> forall e :: e in s ==> e.id != id
  {
    if s == [] then null
    else if s[0].id == id then s[0]
    else FindEntity(s[1..], id)
  }
}
