/** The jumping patroller: it patrols like the ground patroller but keeps a
    fixed positive speed and walks along its facing, chases the player
    horizontally inside its detection range (turning to face them), and jumps
    at a fixed interval whenever its last ground probe found ground. */
module JumpPatrol {
  import opened Engine
  import opened Player

  const PushBack := 0.05
  const WallProbeMinimum := 0.01
  /** The wait before the first jump interval starts. */
  const JumpStartDelay := 0.2
  const DestroyDelay := 0.5

  /** The jump enemy starts facing left exactly when its Y rotation is within
      one degree of 180. */
  predicate FacesRightAtStart(eulerY: real)
  {
    !(Abs(eulerY - 180.0) < 1.0)
  }

  /** The two waits of the jump cycle, each resumed at its deadline. */
  datatype JumpWait = StartupWait(until: real) | IntervalWait(until: real)

  /** Number of half turns made in one frame, as a real. */
  function Turns(edgeTurn: bool, chaseTurn: bool): real
  {
    (if edgeTurn then 1.0 else 0.0) + (if chaseTurn then 1.0 else 0.0)
  }

  class PatrolJumpEnemy {
    const moveSpeed: real
    const detectionRange: real
    const chaseSpeedMultiplier: real
    const jumpForce: real
    const jumpInterval: real
    const jumpColliderDisableTime: real
    const attackDamage: int
    const bounceForce: real
    const hasProbes: bool
    const wallCheckDistance: real
    const hasCollider: bool

    var facingRight: bool
    var horizontalDirection: real
    var eulerY: real
    var x: real
    var velocity: Vec2
    var impulses: seq<Vec2>
    var isGrounded: bool
    var colliderEnabled: bool
    /** When the collider switched off by a jump is due back, if it is off. */
    var colliderReturnsAt: Option<real>
    var jumpWait: JumpWait
    var destroyRequests: seq<real>

    ghost predicate Valid()
      reads this
    {
      && 0.0 <= eulerY < 360.0
      && (colliderEnabled ==> hasCollider)
      && (colliderReturnsAt.Some? ==> hasCollider && !colliderEnabled)
    }

    /** Awake and Start at time `now`: not grounded until the first probe,
        the jump cycle waiting its startup buffer. */
    constructor (moveSpeed: real, detectionRange: real, chaseSpeedMultiplier: real, jumpForce: real,
                 jumpInterval: real, jumpColliderDisableTime: real, attackDamage: int, bounceForce: real,
                 hasProbes: bool, wallCheckDistance: real, hasCollider: bool, eulerY: real, x: real, now: real)
      requires 0.0 <= eulerY < 360.0
      ensures Valid()
      ensures facingRight == FacesRightAtStart(eulerY) && !isGrounded
      ensures this.eulerY == eulerY && this.x == x && velocity == Zero2 && impulses == []
      ensures colliderEnabled == hasCollider && colliderReturnsAt == None
      ensures jumpWait == StartupWait(now + JumpStartDelay) && destroyRequests == []
    {
      this.moveSpeed := moveSpeed;
      this.detectionRange := detectionRange;
      this.chaseSpeedMultiplier := chaseSpeedMultiplier;
      this.jumpForce := jumpForce;
      this.jumpInterval := jumpInterval;
      this.jumpColliderDisableTime := jumpColliderDisableTime;
      this.attackDamage := attackDamage;
      this.bounceForce := bounceForce;
      this.hasProbes := hasProbes;
      this.wallCheckDistance := wallCheckDistance;
      this.hasCollider := hasCollider;
      facingRight := FacesRightAtStart(eulerY);
      horizontalDirection := 1.0;
      this.eulerY := eulerY;
      this.x := x;
      velocity := Zero2;
      impulses := [];
      isGrounded := false;
      colliderEnabled := hasCollider;
      colliderReturnsAt := None;
      jumpWait := StartupWait(now + JumpStartDelay);
      destroyRequests := [];
    }

    /** The edge turn: with both probes, no ground below the front probe or
        (when the wall probe is long enough) a wall along the facing. */
    predicate EdgeTurn(groundHit: bool, wallHit: bool)
    {
      hasProbes && (!groundHit || (wallCheckDistance > WallProbeMinimum && wallHit))
    }

    /** One frame. `playerPresent` says the player's transform is known,
        `distance` is the distance to it and `dx` its horizontal offset, both
        measured from the position after this frame's edge check (so after
        any push-back that check applies). The
        direction is read once, before the edge check; a patrolling enemy
        that turned at an edge still walks the old way in this frame, and a
        chasing one always ends facing the player. */
    method Update(playerPresent: bool, distance: real, dx: real, groundHit: bool, wallHit: bool)
      requires Valid()
      modifies this`horizontalDirection, this`isGrounded, this`velocity, this`x, this`eulerY, this`facingRight
      ensures Valid()
      ensures horizontalDirection == Forward(old(facingRight))
      ensures isGrounded == (if hasProbes then groundHit else old(isGrounded))
      ensures var chasing := playerPresent && distance <= detectionRange;
              var edge := EdgeTurn(groundHit, wallHit);
              var chaseTurn := chasing && (old(facingRight) != edge) != (dx >= 0.0);
              && facingRight == (if chasing then dx >= 0.0 else old(facingRight) != edge)
              && x == old(x) - PushBack * horizontalDirection * Turns(edge, chaseTurn)
              && eulerY == (if edge == chaseTurn then old(eulerY) else Rotated180(old(eulerY)))
              && velocity == Vec2(if chasing then moveSpeed * chaseSpeedMultiplier * Sign(dx)
                                  else moveSpeed * horizontalDirection,
                                  old(velocity.y))
    {
      horizontalDirection := Forward(facingRight);
      CheckGroundAndTurn(groundHit, wallHit);
      var currentSpeed := moveSpeed * horizontalDirection;
      if playerPresent {
        if distance <= detectionRange {
          currentSpeed := CalculateChaseSpeed(dx);
          Rotated180Twice(old(eulerY));
        }
      }
      velocity := Vec2(currentSpeed, velocity.y);
    }

    /** Turn to face the player at horizontal offset `dx` and return the
        chase speed towards them. */
    method CalculateChaseSpeed(dx: real) returns (speed: real)
      requires Valid()
      modifies this`velocity, this`x, this`eulerY, this`facingRight
      ensures Valid()
      ensures speed == moveSpeed * chaseSpeedMultiplier * Sign(dx)
      ensures facingRight == (dx >= 0.0)
      ensures old(facingRight) != (dx >= 0.0)
              ==> velocity == Vec2(0.0, old(velocity.y)) && x == old(x) - PushBack * horizontalDirection
                  && eulerY == Rotated180(old(eulerY))
      ensures old(facingRight) == (dx >= 0.0)
              ==> velocity == old(velocity) && x == old(x) && eulerY == old(eulerY)
    {
      var targetDir := Sign(dx);
      if targetDir > 0.0 && !facingRight {
        Flip();
      } else if targetDir < 0.0 && facingRight {
        Flip();
      }
      speed := moveSpeed * chaseSpeedMultiplier * targetDir;
    }

    method CheckGroundAndTurn(groundHit: bool, wallHit: bool)
      requires Valid()
      modifies this`isGrounded, this`velocity, this`x, this`eulerY, this`facingRight
      ensures Valid()
      ensures isGrounded == (if hasProbes then groundHit else old(isGrounded))
      ensures EdgeTurn(groundHit, wallHit)
              ==> velocity == Vec2(0.0, old(velocity.y)) && x == old(x) - PushBack * horizontalDirection
                  && eulerY == Rotated180(old(eulerY)) && facingRight == !old(facingRight)
      ensures !EdgeTurn(groundHit, wallHit)
              ==> velocity == old(velocity) && x == old(x) && eulerY == old(eulerY)
                  && facingRight == old(facingRight)
    {
      if !hasProbes {
        return;
      }
      isGrounded := groundHit;
      var hitWall := false;
      if wallCheckDistance > WallProbeMinimum {
        hitWall := wallHit;
      }
      if !isGrounded || hitWall {
        Flip();
      }
    }

    /** Turn around: stop, step back against the direction read this frame,
        rotate half a turn and toggle the facing; the speed keeps its sign. */
    method Flip()
      requires Valid()
      modifies this`velocity, this`x, this`eulerY, this`facingRight
      ensures Valid()
      ensures velocity == Vec2(0.0, old(velocity.y)) && x == old(x) - PushBack * horizontalDirection
      ensures eulerY == Rotated180(old(eulerY)) && facingRight == !old(facingRight)
    {
      velocity := Vec2(0.0, velocity.y);
      x := x + PushBack * -horizontalDirection;
      eulerY := Rotated180(eulerY);
      facingRight := !facingRight;
    }

    /** Resumption of the endless jump cycle at time `now`: after a wait the
        next interval starts, and at the end of an interval the enemy jumps
        if its last probe found ground. Dying does not stop the cycle. */
    method JumpCycleTick(now: real)
      requires Valid()
      modifies this`jumpWait, this`velocity, this`impulses, this`colliderEnabled, this`colliderReturnsAt
      ensures Valid()
      ensures now < old(jumpWait).until
              ==> jumpWait == old(jumpWait) && velocity == old(velocity) && impulses == old(impulses)
                  && colliderEnabled == old(colliderEnabled) && colliderReturnsAt == old(colliderReturnsAt)
      ensures now >= old(jumpWait).until ==> jumpWait == IntervalWait(now + jumpInterval)
      ensures old(jumpWait).IntervalWait? && now >= old(jumpWait).until && isGrounded
              ==> impulses == old(impulses) + [Vec2(0.0, jumpForce)] && velocity == Vec2(old(velocity.x), 0.0)
                  && !colliderEnabled
                  && colliderReturnsAt == (if old(colliderEnabled) then Some(now + jumpColliderDisableTime)
                                           else old(colliderReturnsAt))
      ensures !(old(jumpWait).IntervalWait? && now >= old(jumpWait).until && isGrounded)
              ==> impulses == old(impulses) && velocity == old(velocity)
                  && colliderEnabled == old(colliderEnabled) && colliderReturnsAt == old(colliderReturnsAt)
    {
      if now >= jumpWait.until {
        if jumpWait.IntervalWait? && isGrounded {
          ExecuteJump(now);
        }
        jumpWait := IntervalWait(now + jumpInterval);
      }
    }

    /** A jump at time `now`: an enabled collider is switched off until
        `jumpColliderDisableTime` later, the vertical speed is reset and the
        jump impulse applied. */
    method ExecuteJump(now: real)
      requires Valid()
      modifies this`velocity, this`impulses, this`colliderEnabled, this`colliderReturnsAt
      ensures Valid()
      ensures velocity == Vec2(old(velocity.x), 0.0)
      ensures impulses == old(impulses) + [Vec2(0.0, jumpForce)]
      ensures old(colliderEnabled)
              ==> !colliderEnabled && colliderReturnsAt == Some(now + jumpColliderDisableTime)
      ensures !old(colliderEnabled)
              ==> !colliderEnabled && colliderReturnsAt == old(colliderReturnsAt)
    {
      if colliderEnabled {
        colliderEnabled := false;
        colliderReturnsAt := Some(now + jumpColliderDisableTime);
      }
      velocity := Vec2(velocity.x, 0.0);
      impulses := impulses + [Vec2(0.0, jumpForce)];
    }

    /** Resumption of the collider reactivation at time `now`: the collider
        comes back, even if the enemy was stomped in the meantime. */
    method ReactivateColliderTick(now: real)
      requires Valid()
      modifies this`colliderEnabled, this`colliderReturnsAt
      ensures Valid()
      ensures old(colliderReturnsAt).Some? && now >= old(colliderReturnsAt).value
              ==> colliderReturnsAt == None && colliderEnabled
      ensures !(old(colliderReturnsAt).Some? && now >= old(colliderReturnsAt).value)
              ==> colliderReturnsAt == old(colliderReturnsAt) && colliderEnabled == old(colliderEnabled)
    {
      if colliderReturnsAt.Some? && now >= colliderReturnsAt.value {
        colliderReturnsAt := None;
        colliderEnabled := true;
      }
    }

    /** A player-tagged collider with a falling rigid body `playerBody`
        entering the trigger at time `now` bounces off and kills the enemy. */
    method OnTriggerEnter2D(isPlayer: bool, playerBody: Body?, now: real)
      requires Valid()
      modifies this`velocity, this`colliderEnabled, this`destroyRequests, playerBody
      ensures playerBody != null ==> playerBody.parent == old(playerBody.parent)
      ensures Valid()
      ensures isPlayer && playerBody != null && old(playerBody.velocity.y) < 0.0
              ==> playerBody.velocity == Vec2(old(playerBody.velocity.x), 0.0)
                  && playerBody.impulses == old(playerBody.impulses) + [Vec2(0.0, bounceForce)]
                  && velocity == Vec2(0.0, old(velocity.y)) && !colliderEnabled
                  && destroyRequests == old(destroyRequests) + [now + DestroyDelay]
      ensures !(isPlayer && playerBody != null && old(playerBody.velocity.y) < 0.0)
              ==> velocity == old(velocity) && colliderEnabled == old(colliderEnabled)
                  && destroyRequests == old(destroyRequests)
                  && (playerBody != null
                      ==> playerBody.velocity == old(playerBody.velocity)
                          && playerBody.impulses == old(playerBody.impulses))
    {
      if isPlayer {
        if playerBody != null && playerBody.velocity.y < 0.0 {
          playerBody.velocity := Vec2(playerBody.velocity.x, 0.0);
          playerBody.impulses := playerBody.impulses + [Vec2(0.0, bounceForce)];
          Die(now);
        }
      }
    }

    /** Contact with a player-tagged object carrying the controller `player`. */
    method OnCollisionEnter2D(isPlayer: bool, player: PlayerController?, now: real)
      requires player != null ==> player.Valid()
      modifies if player == null then {} else {player}
      ensures player != null ==> player.flipX == old(player.flipX) && player.isGrounded == old(player.isGrounded)
      ensures player != null ==> player.Valid()
      ensures player != null && isPlayer
              ==> player.State() == Hit(old(player.State()), attackDamage, now, player.invulnerabilityTime)
      ensures player != null && !isPlayer ==> player.State() == old(player.State())
    {
      if isPlayer {
        if player != null {
          player.TakeDamage(attackDamage, now);
        }
      }
    }

    /** Death at time `now`: horizontal motion stops, the collider is switched
        off and destruction is requested half a second later. */
    method Die(now: real)
      requires Valid()
      modifies this`velocity, this`colliderEnabled, this`destroyRequests
      ensures Valid()
      ensures velocity == Vec2(0.0, old(velocity.y)) && !colliderEnabled
      ensures destroyRequests == old(destroyRequests) + [now + DestroyDelay]
    {
      velocity := Vec2(0.0, velocity.y);
      colliderEnabled := false;
      destroyRequests := destroyRequests + [now + DestroyDelay];
    }
  }
}
