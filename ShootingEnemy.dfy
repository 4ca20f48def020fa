/** The shooting enemy: once it knows the player, it waits a frame and an
    initial delay, then repeats an attack animation of fixed length, firing
    one pooled projectile at the player part-way through it, followed by a
    cooldown. */
module Shooter {
  import opened Engine
  import opened Projectiles

  /** The fixed length assumed for the attack animation. */
  const AttackAnimationLength := 0.5

  /** The attack coroutine: not started, waiting its first frame, or in one
      of its timed waits. */
  datatype AttackPhase =
    | NotRunning
    | FrameBuffer
    | InitialWait(until: real)
    | Windup(until: real)
    | Recovery(until: real)
    | Cooldown(until: real)

  /** The launch point: the enemy's own position moved by the offset
      towards the side the sprite faces (left when flipped). */
  function LaunchPoint(origin: Vec3, flipped: bool, offset: real): (r: Vec3)
    ensures r.y == origin.y && r.z == origin.z
    ensures Abs(r.x - origin.x) == Abs(offset)
    ensures offset > 0.0 ==> (r.x < origin.x <==> flipped)
  {
    if flipped then Vec3(origin.x - offset, origin.y, origin.z)
    else Vec3(origin.x + offset, origin.y, origin.z)
  }

  /** The two launch points mirror each other about the enemy. */
  lemma LaunchPointsMirror(origin: Vec3, offset: real)
    ensures LaunchPoint(origin, true, offset).x + LaunchPoint(origin, false, offset).x == 2.0 * origin.x
    ensures LaunchPoint(origin, false, offset).x - LaunchPoint(origin, true, offset).x == 2.0 * offset
    ensures LaunchPoint(origin, true, offset).y == origin.y == LaunchPoint(origin, false, offset).y
  {
  }

  /** The index of the first projectile in the pool that is back in the
      pool, or -1 when all are in flight. */
  ghost function FirstInactive(pool: seq<EnemyProjectile>): (i: int)
    reads pool
    ensures -1 <= i < |pool|
  {
    if |pool| == 0 then -1
    else if !pool[0].active then 0
    else var j := FirstInactive(pool[1..]); if j == -1 then -1 else j + 1
  }

  class ShootingEnemy {
    const initialDelay: real
    const cooldownBetweenCycles: real
    const shootTimePercentage: real
    const firePointLocalXOffset: real
    const hasAnimator: bool
    const hasFirePoint: bool
    /** The projectile pool, in inspector order. */
    const pool: seq<EnemyProjectile>

    var phase: AttackPhase
    /** Attack animation triggers. */
    var attackTriggers: nat

    /** Awake and Start: the attack cycle runs only when the player was
        found (`playerPresent`). */
    constructor (initialDelay: real, cooldownBetweenCycles: real, shootTimePercentage: real,
                 firePointLocalXOffset: real, hasAnimator: bool, hasFirePoint: bool,
                 pool: seq<EnemyProjectile>, playerPresent: bool)
      ensures this.initialDelay == initialDelay && this.cooldownBetweenCycles == cooldownBetweenCycles
      ensures this.shootTimePercentage == shootTimePercentage && this.pool == pool
      ensures this.hasAnimator == hasAnimator && this.hasFirePoint == hasFirePoint
      ensures this.firePointLocalXOffset == firePointLocalXOffset
      ensures phase == (if playerPresent then FrameBuffer else NotRunning) && attackTriggers == 0
    {
      this.initialDelay := initialDelay;
      this.cooldownBetweenCycles := cooldownBetweenCycles;
      this.shootTimePercentage := shootTimePercentage;
      this.firePointLocalXOffset := firePointLocalXOffset;
      this.hasAnimator := hasAnimator;
      this.hasFirePoint := hasFirePoint;
      this.pool := pool;
      phase := if playerPresent then FrameBuffer else NotRunning;
      attackTriggers := 0;
    }

    /** The first pooled projectile that is not in flight, or -1. */
    method FindProjectileIndex() returns (index: int)
      ensures -1 <= index < |pool|
      ensures index == -1 <==> forall i :: 0 <= i < |pool| ==> pool[i].active
      ensures index >= 0 ==> !pool[index].active && forall i :: 0 <= i < index ==> pool[i].active
      ensures index == FirstInactive(pool)
    {
      var i := 0;
      while i < |pool|
        invariant 0 <= i <= |pool|
        invariant forall j :: 0 <= j < i ==> pool[j].active
        invariant FirstInactive(pool) == (if FirstInactive(pool[i..]) == -1 then -1 else FirstInactive(pool[i..]) + i)
      {
        if !pool[i].active {
          return i;
        }
        assert pool[i..][1..] == pool[i + 1..];
        i := i + 1;
      }
      return -1;
    }

    /** Fire at the player at `playerPosition` from the enemy at `origin`,
        whose sprite is `flipped`. `normalized` is the engine's vector
        normalisation. With a fire point and a non-empty pool, the first
        projectile back in the pool is placed at the launch point and
        activated towards the player (a projectile without a body stores that
        direction normalised once more, as its right axis); every other
        projectile is untouched. */
    method Shoot(origin: Vec3, flipped: bool, playerPosition: Vec3, normalized: Vec3 -> Vec3)
      modifies pool
      ensures var i := old(FirstInactive(pool));
              var launch := LaunchPoint(origin, flipped, firePointLocalXOffset);
              var direction := normalized(Vec3(playerPosition.x - launch.x, playerPosition.y - launch.y,
                                               playerPosition.z - launch.z));
              hasFirePoint && i >= 0
              ==> pool[i].active && pool[i].lifetime == 0.0 && pool[i].position == launch
                  && (pool[i].hasBody ==> pool[i].velocity == PlanarVelocity(direction, pool[i].speed))
                  && (!pool[i].hasBody ==> pool[i].right == normalized(direction))
      ensures forall p :: p in pool && !(hasFirePoint && old(FirstInactive(pool)) >= 0
                                             && p == pool[old(FirstInactive(pool))])
                          ==> p.active == old(p.active) && p.lifetime == old(p.lifetime)
                              && p.position == old(p.position) && p.velocity == old(p.velocity)
                              && p.right == old(p.right)
    {
      if !hasFirePoint || |pool| == 0 {
        return;
      }
      var index := FindProjectileIndex();
      if index != -1 {
        var projectile := pool[index];
        var launch := LaunchPoint(origin, flipped, firePointLocalXOffset);
        projectile.position := launch;
        var direction := normalized(Vec3(playerPosition.x - launch.x, playerPosition.y - launch.y,
                                         playerPosition.z - launch.z));
        projectile.ActivateProjectile(direction, normalized);
      }
    }

    /** Resumption of the attack cycle at time `now`; a shot fires when the
        wind-up (the shooting share of the animation) ends, exactly as `Shoot`
        does, and no other step moves a projectile. */
    method AttackTick(now: real, origin: Vec3, flipped: bool, playerPosition: Vec3, normalized: Vec3 -> Vec3)
      modifies this`phase, this`attackTriggers, pool
      ensures old(phase) == NotRunning ==> phase == NotRunning
      ensures old(phase) == FrameBuffer ==> phase == InitialWait(now + initialDelay)
      ensures (old(phase).InitialWait? || old(phase).Cooldown?) && now >= old(phase).until
              ==> phase == Windup(now + AttackAnimationLength * shootTimePercentage)
                  && attackTriggers == old(attackTriggers) + (if hasAnimator then 1 else 0)
      ensures old(phase).Windup? && now >= old(phase).until
              ==> phase == Recovery(now + AttackAnimationLength * (1.0 - shootTimePercentage))
      ensures var i := old(FirstInactive(pool));
              var launch := LaunchPoint(origin, flipped, firePointLocalXOffset);
              var direction := normalized(Vec3(playerPosition.x - launch.x, playerPosition.y - launch.y,
                                               playerPosition.z - launch.z));
              old(phase).Windup? && now >= old(phase).until && hasFirePoint && i >= 0
              ==> pool[i].active && pool[i].lifetime == 0.0 && pool[i].position == launch
                  && (pool[i].hasBody ==> pool[i].velocity == PlanarVelocity(direction, pool[i].speed))
                  && (!pool[i].hasBody ==> pool[i].right == normalized(direction))
      ensures old(phase).Windup? && now >= old(phase).until
              ==> forall p :: p in pool && !(hasFirePoint && old(FirstInactive(pool)) >= 0
                                                 && p == pool[old(FirstInactive(pool))])
                              ==> p.active == old(p.active) && p.lifetime == old(p.lifetime)
                                  && p.position == old(p.position) && p.velocity == old(p.velocity)
                                  && p.right == old(p.right)
      ensures old(phase).Recovery? && now >= old(phase).until ==> phase == Cooldown(now + cooldownBetweenCycles)
      ensures !(old(phase) == NotRunning || old(phase) == FrameBuffer) && now < old(phase).until
              ==> phase == old(phase)
      ensures !((old(phase).InitialWait? || old(phase).Cooldown?) && now >= old(phase).until)
              ==> attackTriggers == old(attackTriggers)
      ensures !(old(phase).Windup? && now >= old(phase).until)
              ==> forall p :: p in pool ==> p.active == old(p.active) && p.lifetime == old(p.lifetime)
                                            && p.position == old(p.position) && p.velocity == old(p.velocity)
                                            && p.right == old(p.right)
    {
      match phase
      case NotRunning =>
      case FrameBuffer =>
        phase := InitialWait(now + initialDelay);
      case InitialWait(until) =>
        if now >= until {
          StartAttack(now);
        }
      case Windup(until) =>
        if now >= until {
          Shoot(origin, flipped, playerPosition, normalized);
          phase := Recovery(now + AttackAnimationLength * (1.0 - shootTimePercentage));
        }
      case Recovery(until) =>
        if now >= until {
          phase := Cooldown(now + cooldownBetweenCycles);
        }
      case Cooldown(until) =>
        if now >= until {
          StartAttack(now);
        }
    }

    /** Start one attack at time `now`: trigger the animation and wait for
        the shooting moment. */
    method StartAttack(now: real)
      modifies this`phase, this`attackTriggers
      ensures phase == Windup(now + AttackAnimationLength * shootTimePercentage)
      ensures attackTriggers == old(attackTriggers) + (if hasAnimator then 1 else 0)
    {
      if hasAnimator {
        attackTriggers := attackTriggers + 1;
      }
      phase := Windup(now + AttackAnimationLength * shootTimePercentage);
    }
  }
}
