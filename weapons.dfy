/** The base weapon of a ball (Ballz.Core/GameSession/Logic/Weapons/WeaponControl.cs):
    firing spawns a projectile just outside the ball, launched along the aim
    with the charged-up speed, and empties the charge. */
module Weapons {
  import opened Geometry
  import opened Messages
  import opened Entities

  /** The muzzle sits 0.101 units beyond the ball's radius along the aim. */
  const MuzzleGap: real := 0.101

  /** The charge is multiplied by 30 to give the launch speed. */
  const LaunchSpeedFactor: real := 30.0

  function MuzzlePosition(ballPosition: Vec2, aim: Vec2, radius: real): Vec2
  {
    ballPosition.Plus(aim.Times(radius + MuzzleGap))
  }

  function LaunchVelocity(aim: Vec2, shootCharge: real): Vec2
  {
    aim.Times(shootCharge * LaunchSpeedFactor)
  }

  /** With a unit aim, the projectile starts strictly outside the ball: its
      squared distance from the centre exceeds the squared radius. */
  lemma MuzzleOutsideBall(ballPosition: Vec2, aim: Vec2, radius: real)
    requires aim.LengthSquared() == 1.0 && radius >= 0.0
    ensures MuzzlePosition(ballPosition, aim, radius).Minus(ballPosition).LengthSquared() > radius * radius
  {
    var k := radius + MuzzleGap;
    assert MuzzlePosition(ballPosition, aim, radius).Minus(ballPosition) == aim.Times(k);
    ScaledLengthSquared(aim, k);
    assert k * k > radius * radius by {
      assert k > radius >= 0.0;
    }
  }

  /** With a unit aim, the launch speed squared is (30 * charge) squared. */
  lemma LaunchSpeed(aim: Vec2, shootCharge: real)
    requires aim.LengthSquared() == 1.0
    ensures LaunchVelocity(aim, shootCharge).LengthSquared() == (LaunchSpeedFactor * shootCharge) * (LaunchSpeedFactor * shootCharge)
  {
    ScaledLengthSquared(aim, shootCharge * LaunchSpeedFactor);
  }

  /** The weapon held by one ball, firing into the game's live world. */
  class WeaponControl {
    var ball: Entity
    const world: GameWorld

    constructor (ball: Entity, world: GameWorld)
      ensures this.ball == ball && this.world == world
    {
      this.ball := ball;
      this.world := world;
    }

    /** Adds one new shot (with the ID the entity counter hands out) to the
        world's entities and empties the ball's charge. The shot sound is
        not part of this model. */
    method FireProjectile(freshId: int) returns (shot: Entity)
      modifies world`entities, ball`shootCharge
      ensures fresh(shot) && world.entities == old(world.entities) + [shot]
      ensures shot.id == freshId && shot.kind == ShotKind && !shot.disposed && shot.physicsBody == None
      ensures shot.explosionRadius == 1.0 && shot.healthImpactAtDirectHit == 25.0 && !shot.isInstantShot
      ensures shot.position == MuzzlePosition(old(ball.position), old(ball.aimDirection), old(ball.radius))
      ensures shot.velocity == LaunchVelocity(old(ball.aimDirection), old(ball.shootCharge))
      ensures ball.shootCharge == 0.0
    {
      shot := new Entity(freshId, ShotKind);
      shot.explosionRadius := 1.0;
      shot.healthImpactAtDirectHit := 25.0;
      shot.isInstantShot := false;
      shot.position := ball.position.Plus(ball.aimDirection.Times(ball.radius + 0.101));
      shot.velocity := ball.aimDirection.Times(ball.shootCharge * 30.0);
      world.entities := world.entities + [shot];
      ball.shootCharge := 0.0;
    }

    /** The default weapon never finishes the player's turn. */
    method Update(elapsedSeconds: real, keysPressed: map<ControlButton, bool>) returns (finishesTurn: bool)
      ensures !finishesTurn
    {
      finishesTurn := false;
    }

    /** The default weapon ignores input: the empty frame says nothing changes. */
    method HandleInput(input: InputMessage)
    {
    }
  }
}
