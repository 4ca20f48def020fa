/** The basic ground patroller: it walks at its signed speed, turns around
    (half a turn about Y, a small push back, speed negated) at an edge or a
    wall, dies when stomped and hurts the player on contact. It has no health
    and no death guard: a dead patroller keeps its patrol logic until the
    engine destroys it. */
module GroundPatrol {
  import opened Engine
  import opened Player

  /** How far a turn pushes the patroller back. */
  const PushBack := 0.05
  /** Wall probes shorter than this are switched off. */
  const WallProbeMinimum := 0.01
  const DestroyDelay := 0.5

  /** A patroller whose Y rotation at start lies strictly between 90 and 270
      degrees starts facing left (its speed keeps its sign). */
  predicate FacesRightAtStart(eulerY: real)
  {
    !(90.0 < eulerY < 270.0)
  }

  /** The signed speed after the turns so far: negated once per turn, so
      negated exactly when the facing differs from the starting one. */
  function SpeedAfterTurns(initialSpeed: real, initialFacingRight: bool, facingRight: bool): real
  {
    if facingRight == initialFacingRight then initialSpeed else -initialSpeed
  }

  /** The speed measured along the facing direction never changes: a
      patroller that starts facing left with a positive speed walks
      backwards, turn after turn. */
  lemma WalkAlongFacingIsFixed(initialSpeed: real, initialFacingRight: bool, facingRight: bool)
    ensures SpeedAfterTurns(initialSpeed, initialFacingRight, facingRight) * Forward(facingRight)
            == initialSpeed * Forward(initialFacingRight)
  {
  }

  class EnemyPatrol {
    const initialSpeed: real
    const initialFacingRight: bool
    const attackDamage: int
    const bounceForce: real
    /** Both probe points are assigned. */
    const hasProbes: bool
    const wallCheckDistance: real
    /** The patroller has its own collider. */
    const hasCollider: bool

    var moveSpeed: real
    var facingRight: bool
    var horizontalDirection: real
    var eulerY: real
    var x: real
    var velocity: Vec2
    var colliderEnabled: bool
    /** The destruction times requested, one per death. */
    var destroyRequests: seq<real>

    ghost predicate Valid()
      reads this
    {
      && 0.0 <= eulerY < 360.0
      && moveSpeed == SpeedAfterTurns(initialSpeed, initialFacingRight, facingRight)
      && (colliderEnabled ==> hasCollider)
    }

    /** Start, with the transform's Y rotation `eulerY` and position `x`. */
    constructor (moveSpeed: real, attackDamage: int, bounceForce: real, hasProbes: bool,
                 wallCheckDistance: real, hasCollider: bool, eulerY: real, x: real)
      requires 0.0 <= eulerY < 360.0
      ensures Valid()
      ensures facingRight == FacesRightAtStart(eulerY) && this.moveSpeed == moveSpeed
      ensures this.eulerY == eulerY && this.x == x && velocity == Zero2
      ensures colliderEnabled == hasCollider && destroyRequests == []
    {
      initialSpeed := moveSpeed;
      initialFacingRight := FacesRightAtStart(eulerY);
      this.attackDamage := attackDamage;
      this.bounceForce := bounceForce;
      this.hasProbes := hasProbes;
      this.wallCheckDistance := wallCheckDistance;
      this.hasCollider := hasCollider;
      this.moveSpeed := moveSpeed;
      facingRight := FacesRightAtStart(eulerY);
      horizontalDirection := 1.0;
      this.eulerY := eulerY;
      this.x := x;
      velocity := Zero2;
      colliderEnabled := hasCollider;
      destroyRequests := [];
    }

    /** The turn condition: with both probes, no ground ahead or (when the
        wall probe is long enough) a wall ahead. */
    predicate TurnsHere(groundAhead: bool, wallAhead: bool)
    {
      hasProbes && (!groundAhead || (wallCheckDistance > WallProbeMinimum && wallAhead))
    }

    /** One frame: walk at the signed speed, then check for a turn. The
        probes report ground below the front probe and a wall along the
        transform's facing. */
    method Update(groundAhead: bool, wallAhead: bool)
      requires Valid()
      modifies this`horizontalDirection, this`velocity, this`moveSpeed, this`x, this`eulerY, this`facingRight
      ensures Valid()
      ensures horizontalDirection == Forward(old(facingRight))
      ensures TurnsHere(groundAhead, wallAhead)
              ==> velocity == Vec2(0.0, old(velocity.y)) && moveSpeed == -old(moveSpeed)
                  && x == old(x) - PushBack * horizontalDirection
                  && eulerY == Rotated180(old(eulerY)) && facingRight == !old(facingRight)
      ensures !TurnsHere(groundAhead, wallAhead)
              ==> velocity == Vec2(moveSpeed, old(velocity.y)) && moveSpeed == old(moveSpeed)
                  && x == old(x) && eulerY == old(eulerY) && facingRight == old(facingRight)
    {
      horizontalDirection := Forward(facingRight);
      velocity := Vec2(moveSpeed, velocity.y);
      CheckForTurnConditions(groundAhead, wallAhead);
    }

    method CheckForTurnConditions(groundAhead: bool, wallAhead: bool)
      requires Valid()
      modifies this`velocity, this`moveSpeed, this`x, this`eulerY, this`facingRight
      ensures Valid()
      ensures TurnsHere(groundAhead, wallAhead)
              ==> velocity == Vec2(0.0, old(velocity.y)) && moveSpeed == -old(moveSpeed)
                  && x == old(x) - PushBack * horizontalDirection
                  && eulerY == Rotated180(old(eulerY)) && facingRight == !old(facingRight)
      ensures !TurnsHere(groundAhead, wallAhead)
              ==> velocity == old(velocity) && moveSpeed == old(moveSpeed)
                  && x == old(x) && eulerY == old(eulerY) && facingRight == old(facingRight)
    {
      if !hasProbes {
        return;
      }
      var hitWall := false;
      if wallCheckDistance > WallProbeMinimum {
        hitWall := wallAhead;
      }
      if !groundAhead || hitWall {
        Flip();
      }
    }

    /** Turn around: stop, negate the speed, step back against the direction
        of this frame, rotate half a turn and toggle the facing. */
    method Flip()
      requires Valid()
      modifies this`velocity, this`moveSpeed, this`x, this`eulerY, this`facingRight
      ensures Valid()
      ensures velocity == Vec2(0.0, old(velocity.y)) && moveSpeed == -old(moveSpeed)
      ensures x == old(x) - PushBack * horizontalDirection
      ensures eulerY == Rotated180(old(eulerY)) && facingRight == !old(facingRight)
    {
      velocity := Vec2(0.0, velocity.y);
      moveSpeed := -moveSpeed;
      x := x + PushBack * -horizontalDirection;
      eulerY := Rotated180(eulerY);
      facingRight := !facingRight;
    }

    /** A player-tagged collider with a falling rigid body `playerBody`
        entering the trigger at time `now` bounces off and kills the
        patroller, every time (there is no death guard). */
    method OnTriggerEnter2D(isPlayer: bool, playerBody: Body?, now: real)
      requires Valid()
      modifies this`velocity, this`colliderEnabled, this`destroyRequests, playerBody
      ensures playerBody != null ==> playerBody.parent == old(playerBody.parent)
      ensures Valid()
      ensures isPlayer && playerBody != null && old(playerBody.velocity.y) < 0.0
              ==> playerBody.velocity == Vec2(old(playerBody.velocity.x), 0.0)
                  && playerBody.impulses == old(playerBody.impulses) + [Vec2(0.0, bounceForce)]
                  && velocity == Vec2(0.0, old(velocity.y)) && !colliderEnabled
                  && destroyRequests == old(destroyRequests) + [now + DestroyDelay]
      ensures !(isPlayer && playerBody != null && old(playerBody.velocity.y) < 0.0)
              ==> velocity == old(velocity) && colliderEnabled == old(colliderEnabled)
                  && destroyRequests == old(destroyRequests)
                  && (playerBody != null
                      ==> playerBody.velocity == old(playerBody.velocity)
                          && playerBody.impulses == old(playerBody.impulses))
    {
      if isPlayer {
        if playerBody != null && playerBody.velocity.y < 0.0 {
          playerBody.velocity := Vec2(playerBody.velocity.x, 0.0);
          playerBody.impulses := playerBody.impulses + [Vec2(0.0, bounceForce)];
          Die(now);
        }
      }
    }

    /** Contact with a player-tagged object carrying the controller `player`. */
    method OnCollisionEnter2D(isPlayer: bool, player: PlayerController?, now: real)
      requires player != null ==> player.Valid()
      modifies if player == null then {} else {player}
      ensures player != null ==> player.flipX == old(player.flipX) && player.isGrounded == old(player.isGrounded)
      ensures player != null ==> player.Valid()
      ensures player != null && isPlayer
              ==> player.State() == Hit(old(player.State()), attackDamage, now, player.invulnerabilityTime)
      ensures player != null && !isPlayer ==> player.State() == old(player.State())
    {
      if isPlayer {
        if player != null {
          player.TakeDamage(attackDamage, now);
        }
      }
    }

    /** Death at time `now`: horizontal motion stops, the own collider is
        switched off and destruction is requested half a second later. */
    method Die(now: real)
      requires Valid()
      modifies this`velocity, this`colliderEnabled, this`destroyRequests
      ensures Valid()
      ensures velocity == Vec2(0.0, old(velocity.y)) && !colliderEnabled
      ensures destroyRequests == old(destroyRequests) + [now + DestroyDelay]
    {
      velocity := Vec2(0.0, velocity.y);
      if hasCollider {
        colliderEnabled := false;
      }
      destroyRequests := destroyRequests + [now + DestroyDelay];
    }
  }
}
