/** A pooled enemy projectile: activated with a direction, it flies (by its
    rigid body, or by translating along its own right axis when it has none),
    returns to the pool once its lifetime exceeds the reset time, and hurts
    the player it touches without being consumed. */
module Projectiles {
  import opened Engine
  import opened Player

  /** Direction scaled by a speed, dropped to the plane. */
  function PlanarVelocity(direction: Vec3, speed: real): Vec2
  {
    Vec2(direction.x * speed, direction.y * speed)
  }

  class EnemyProjectile {
    const speed: real
    const resetTime: real
    const damageAmount: real
    /** The projectile has a rigid body. */
    const hasBody: bool

    /** Whether the game object is active (in flight) or back in the pool. */
    var active: bool
    var lifetime: real
    var position: Vec3
    var velocity: Vec2
    /** The transform's right axis. */
    var right: Vec3

    /** A pooled projectile: inactive, at `position`, with the default
        speed 5, reset time 3 and damage 1 unless configured otherwise. */
    constructor (speed: real, resetTime: real, damageAmount: real, hasBody: bool, position: Vec3)
      ensures this.speed == speed && this.resetTime == resetTime && this.damageAmount == damageAmount
      ensures this.hasBody == hasBody && this.position == position
      ensures !active && lifetime == 0.0 && velocity == Zero2 && right == Vec3(1.0, 0.0, 0.0)
    {
      this.speed := speed;
      this.resetTime := resetTime;
      this.damageAmount := damageAmount;
      this.hasBody := hasBody;
      this.position := position;
      active := false;
      lifetime := 0.0;
      velocity := Zero2;
      right := Vec3(1.0, 0.0, 0.0);
    }

    /** Launch along `direction`: lifetime restarts, the object becomes active
        and either its body gets the velocity (the direction as given, scaled
        by the speed) or its right axis the direction. Assigning the right
        axis stores the unit vector, so it goes through the engine's
        normalisation `normalized`. */
    method ActivateProjectile(direction: Vec3, normalized: Vec3 -> Vec3)
      modifies this`lifetime, this`active, this`velocity, this`right
      ensures active && lifetime == 0.0
      ensures hasBody ==> velocity == PlanarVelocity(direction, speed) && right == old(right)
      ensures !hasBody ==> right == normalized(direction) && velocity == old(velocity)
    {
      lifetime := 0.0;
      active := true;
      if hasBody {
        velocity := PlanarVelocity(direction, speed);
      } else {
        right := normalized(direction);
      }
    }

    /** A frame of `dt` seconds of an active projectile: without a body it
        moves `speed * dt` along its right axis; it stays active exactly while
        its accumulated lifetime does not exceed the reset time. */
    method Update(dt: real)
      requires active
      modifies this`position, this`lifetime, this`active
      ensures lifetime == old(lifetime) + dt
      ensures active <==> lifetime <= resetTime
      ensures hasBody ==> position == old(position)
      ensures !hasBody ==> position == Vec3(old(position.x) + right.x * speed * dt,
                                            old(position.y) + right.y * speed * dt,
                                            old(position.z) + right.z * speed * dt)
    {
      if !hasBody {
        var movementSpeed := speed * dt;
        position := Vec3(position.x + right.x * movementSpeed,
                         position.y + right.y * movementSpeed,
                         position.z + right.z * movementSpeed);
      }
      lifetime := lifetime + dt;
      if lifetime > resetTime {
        active := false;
      }
    }

    /** Entering a player-tagged collider that carries the controller
        `player` at time `now`: the damage is truncated to an integer as the
        controller expects, and the projectile stays active. */
    method OnTriggerEnter2D(isPlayer: bool, player: PlayerController?, now: real)
      requires player != null ==> player.Valid()
      modifies if player == null then {} else {player}
      ensures player != null ==> player.flipX == old(player.flipX) && player.isGrounded == old(player.isGrounded)
      ensures player != null ==> player.Valid()
      ensures player != null && isPlayer
              ==> player.State() == Hit(old(player.State()), Truncate(damageAmount), now, player.invulnerabilityTime)
      ensures player != null && !isPlayer ==> player.State() == old(player.State())
      ensures active == old(active)
    {
      if isPlayer {
        if player != null {
          player.TakeDamage(Truncate(damageAmount), now);
        }
      }
    }
  }

  /** A fractional damage below one truncates to zero: it costs no health,
      yet it still opens the player's invulnerability window. */
  lemma FractionalDamageOnlyOpensWindow(v: Vitals, damageAmount: real, now: real, window: real)
    requires 0.0 <= damageAmount < 1.0
    requires !v.invulnerable && v.health > 0
    ensures Hit(v, Truncate(damageAmount), now, window) == Vitals(v.health, true, now + window, v.reloads)
  {
    assert Truncate(damageAmount) == 0;
  }
}
