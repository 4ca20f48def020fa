/** The arrow trap: every `attackCooldown` seconds of accumulated frame time
    it places a pooled arrow at its fire point and launches it along the
    fire point's right axis. When every arrow is in flight it reuses the
    first one, and with no arrows at all the attack fails after resetting
    the timer. */
module Arrows {
  import opened Engine
  import opened Projectiles

  class ArrowTrap {
    const attackCooldown: real
    const hasFirePoint: bool
    const firePointPosition: Vec3
    const firePointRight: Vec3
    const arrows: seq<EnemyProjectile>

    var cooldownTimer: real
    /** Attacks aborted by indexing an empty arrow pool. */
    var failedAttacks: nat

    constructor (attackCooldown: real, hasFirePoint: bool, firePointPosition: Vec3, firePointRight: Vec3,
                 arrows: seq<EnemyProjectile>)
      ensures this.attackCooldown == attackCooldown && this.hasFirePoint == hasFirePoint
      ensures this.firePointPosition == firePointPosition && this.firePointRight == firePointRight
      ensures this.arrows == arrows && cooldownTimer == 0.0 && failedAttacks == 0
    {
      this.attackCooldown := attackCooldown;
      this.hasFirePoint := hasFirePoint;
      this.firePointPosition := firePointPosition;
      this.firePointRight := firePointRight;
      this.arrows := arrows;
      cooldownTimer := 0.0;
      failedAttacks := 0;
    }

    /** The first arrow back in the pool, or 0 when there is none. */
    method FindArrow() returns (index: nat)
      ensures |arrows| > 0 ==> index < |arrows|
      ensures (exists i :: 0 <= i < |arrows| && !arrows[i].active)
              ==> !arrows[index].active && forall i :: 0 <= i < index ==> arrows[i].active
      ensures (forall i :: 0 <= i < |arrows| ==> arrows[i].active) ==> index == 0
    {
      var i := 0;
      while i < |arrows|
        invariant 0 <= i <= |arrows|
        invariant forall j :: 0 <= j < i ==> arrows[j].active
      {
        if !arrows[i].active {
          return i;
        }
        i := i + 1;
      }
      return 0;
    }

    /** A frame of `dt` seconds: the timer accumulates, and once it reaches
        the cooldown with a fire point assigned the trap attacks as `Attack`
        does; `normalized` is the engine's vector normalisation. */
    method Update(dt: real, normalized: Vec3 -> Vec3)
      modifies this`cooldownTimer, this`failedAttacks, arrows
      ensures old(cooldownTimer) + dt >= attackCooldown && hasFirePoint
              ==> cooldownTimer == 0.0
                  && (|arrows| == 0 ==> failedAttacks == old(failedAttacks) + 1)
      ensures old(cooldownTimer) + dt >= attackCooldown && hasFirePoint && |arrows| > 0
              ==> failedAttacks == old(failedAttacks)
                  && exists i :: 0 <= i < |arrows| && Launched(i, normalized)
                                 && (old(arrows[i].active) ==> forall j :: 0 <= j < |arrows| ==> old(arrows[j].active))
                                 && (old(arrows[i].active) ==> i == 0)
                                 && (forall j :: 0 <= j < i ==> old(arrows[j].active))
                                 && (forall p :: p in arrows && p != arrows[i]
                                       ==> p.active == old(p.active) && p.lifetime == old(p.lifetime)
                                           && p.position == old(p.position) && p.right == old(p.right)
                                           && p.velocity == old(p.velocity))
      ensures !(old(cooldownTimer) + dt >= attackCooldown && hasFirePoint)
              ==> cooldownTimer == old(cooldownTimer) + dt && failedAttacks == old(failedAttacks)
                  && (forall p :: p in arrows
                        ==> p.active == old(p.active) && p.lifetime == old(p.lifetime)
                            && p.position == old(p.position) && p.right == old(p.right)
                            && p.velocity == old(p.velocity))
    {
      cooldownTimer := cooldownTimer + dt;
      if cooldownTimer >= attackCooldown && hasFirePoint {
        Attack(normalized);
      }
    }

    /** Arrow `i` sits at the fire point, in flight along the fire point's
        right axis: an arrow with a body keeps the copied rotation and gets
        the velocity, one without a body has its right axis assigned again,
        which stores the normalised axis. */
    ghost predicate Launched(i: int, normalized: Vec3 -> Vec3)
      requires 0 <= i < |arrows|
      reads arrows[i]
    {
      var a := arrows[i];
      && a.active && a.lifetime == 0.0 && a.position == firePointPosition
      && (a.hasBody ==> a.right == firePointRight && a.velocity == PlanarVelocity(firePointRight, a.speed))
      && (!a.hasBody ==> a.right == normalized(firePointRight))
    }

    /** Reset the timer and launch the arrow `FindArrow` picks; every other
        arrow is untouched. An empty pool makes the attack fail after the
        reset. */
    method Attack(normalized: Vec3 -> Vec3)
      modifies this`cooldownTimer, this`failedAttacks, arrows
      ensures cooldownTimer == 0.0
      ensures |arrows| == 0 ==> failedAttacks == old(failedAttacks) + 1
      ensures |arrows| > 0
              ==> failedAttacks == old(failedAttacks)
                  && exists i :: 0 <= i < |arrows| && Launched(i, normalized)
                                 && (old(arrows[i].active) ==> forall j :: 0 <= j < |arrows| ==> old(arrows[j].active))
                                 && (old(arrows[i].active) ==> i == 0)
                                 && (forall j :: 0 <= j < i ==> old(arrows[j].active))
                                 && (forall p :: p in arrows && p != arrows[i]
                                       ==> p.active == old(p.active) && p.lifetime == old(p.lifetime)
                                           && p.position == old(p.position) && p.right == old(p.right)
                                           && p.velocity == old(p.velocity))
    {
      cooldownTimer := 0.0;
      var index := FindArrow();
      if index >= |arrows| {
        failedAttacks := failedAttacks + 1;
        return;
      }
      var arrow := arrows[index];
      arrow.position := firePointPosition;
      arrow.right := firePointRight;
      arrow.ActivateProjectile(firePointRight, normalized);
      assert Launched(index, normalized);
    }
  }
}
