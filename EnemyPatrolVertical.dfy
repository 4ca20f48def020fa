/** The vertical patroller: it shuttles between its start point (the top) and
    a point `patrolDistance` below it, screaming and pausing at each end, turns
    its sprite towards the player and hurts the player on contact. */
module VerticalPatrol {
  import opened Engine
  import opened Player

  /** Horizontal offset beyond which the sprite turns towards the player. */
  const FacingDeadZone := 0.01

  class VerticalPatrolEnemy {
    const pauseTime: real
    const attackDamage: int
    const hasAnimator: bool
    const hasSprite: bool
    const topPoint: Vec3
    const bottomPoint: Vec3

    var position: Vec3
    var nextTarget: Vec3
    var leg: Leg
    /** Scream animation triggers. */
    var screams: nat
    var flipX: bool
    /** Number of legs finished so far. */
    ghost var legsDone: nat

    ghost predicate Valid()
      reads this
    {
      && nextTarget == LegTarget(topPoint, bottomPoint, legsDone)
      && (leg.Pausing? ==> position == nextTarget)
    }

    /** Start at `position`: the top is the start, the bottom lies
        `patrolDistance` lower, and the first leg heads down. The sprite keeps
        the flip `flipX` it was given in the scene until the first turn
        toward the player. */
    constructor (position: Vec3, patrolDistance: real, pauseTime: real, attackDamage: int,
                 hasAnimator: bool, hasSprite: bool, flipX: bool)
      ensures Valid()
      ensures topPoint == position && bottomPoint == Vec3(position.x, position.y - patrolDistance, position.z)
      ensures this.position == position && nextTarget == bottomPoint && leg == Travelling
      ensures screams == 0 && this.flipX == flipX
    {
      this.pauseTime := pauseTime;
      this.attackDamage := attackDamage;
      this.hasAnimator := hasAnimator;
      this.hasSprite := hasSprite;
      topPoint := position;
      bottomPoint := Vec3(position.x, position.y - patrolDistance, position.z);
      this.position := position;
      nextTarget := Vec3(position.x, position.y - patrolDistance, position.z);
      leg := Travelling;
      screams := 0;
      this.flipX := flipX;
      legsDone := 0;
    }

    /** One frame of a leg at time `now`. `distance` is the distance from the
        current position to the target and `stepped` the engine's step
        towards it: beyond the tolerance the enemy takes the step, otherwise
        it snaps onto the target, screams and starts its pause. */
    method MoveStep(now: real, distance: real, stepped: Vec3)
      requires Valid() && leg.Travelling?
      modifies this`position, this`leg, this`screams
      ensures Valid()
      ensures distance > ArrivalTolerance
              ==> position == stepped && leg == Travelling && screams == old(screams)
      ensures distance <= ArrivalTolerance
              ==> position == nextTarget && leg == Pausing(now + pauseTime)
                  && screams == old(screams) + (if hasAnimator then 1 else 0)
    {
      if distance > ArrivalTolerance {
        position := stepped;
      } else {
        position := nextTarget;
        if hasAnimator {
          screams := screams + 1;
        }
        leg := Pausing(now + pauseTime);
      }
    }

    /** Resumption of the patrol cycle at time `now`. A finished pause
        switches the target to the other end and takes the first step of the
        new leg in the same frame; `distance` and `stepped` refer to the
        target in force after that switch. */
    method PatrolTick(now: real, distance: real, stepped: Vec3)
      requires Valid()
      modifies this`position, this`nextTarget, this`leg, this`screams, this`legsDone
      ensures Valid()
      ensures old(leg).Pausing? && now < old(leg).until
              ==> position == old(position) && nextTarget == old(nextTarget) && leg == old(leg)
                  && screams == old(screams)
      ensures old(leg).Pausing? && now >= old(leg).until
              ==> nextTarget == OtherWaypoint(old(nextTarget), topPoint, bottomPoint)
      ensures old(leg).Travelling? ==> nextTarget == old(nextTarget)
      ensures old(leg).Travelling? || now >= old(leg).until
              ==> (distance > ArrivalTolerance
                   ==> position == stepped && leg == Travelling && screams == old(screams))
                  && (distance <= ArrivalTolerance
                      ==> position == nextTarget && leg == Pausing(now + pauseTime)
                          && screams == old(screams) + (if hasAnimator then 1 else 0))
    {
      match leg
      case Travelling =>
        MoveStep(now, distance, stepped);
      case Pausing(until) =>
        if now >= until {
          ToggleFollowsLegs(topPoint, bottomPoint, legsDone);
          nextTarget := OtherWaypoint(nextTarget, topPoint, bottomPoint);
          legsDone := legsDone + 1;
          leg := Travelling;
          MoveStep(now, distance, stepped);
        }
    }

    /** Update: with a sprite and a known player at horizontal offset `dx`,
        face the player unless they are within the dead zone. */
    method FlipTowardsPlayer(playerPresent: bool, dx: real)
      modifies this`flipX
      ensures hasSprite && playerPresent && dx > FacingDeadZone ==> !flipX
      ensures hasSprite && playerPresent && dx < -FacingDeadZone ==> flipX
      ensures !(hasSprite && playerPresent) || -FacingDeadZone <= dx <= FacingDeadZone
              ==> flipX == old(flipX)
    {
      if !hasSprite || !playerPresent {
        return;
      }
      if dx > FacingDeadZone {
        flipX := false;
      } else if dx < -FacingDeadZone {
        flipX := true;
      }
    }

    /** Contact with a player-tagged object carrying the controller `player`. */
    method OnCollisionEnter2D(isPlayer: bool, player: PlayerController?, now: real)
      requires player != null ==> player.Valid()
      modifies if player == null then {} else {player}
      ensures player != null ==> player.flipX == old(player.flipX) && player.isGrounded == old(player.isGrounded)
      ensures player != null ==> player.Valid()
      ensures player != null && isPlayer
              ==> player.State() == Hit(old(player.State()), attackDamage, now, player.invulnerabilityTime)
      ensures player != null && !isPlayer ==> player.State() == old(player.State())
    {
      if isPlayer {
        if player != null {
          player.TakeDamage(attackDamage, now);
        }
      }
    }
  }
}
