/** The three orc enemies: the red and green melee orcs and the patrolling
    mage orc. They share one controller that patrols and turns at edges and
    walls, chases the player inside its detection range, attacks on a
    cooldown, jumps on a timer, can be stomped on the head, hurts the player
    on contact and, when killed, unlocks a blocking wall and switches off all
    its colliders. `OrcKind` selects where the three differ:
    - the green orc probes for walls along its transform's right axis, which
      its flip (a mirrored scale) never turns, so it always probes to the right;
    - the melee orcs hold their attack for one cooldown through a coroutine,
      and pick a running attack when moving fast; the mage orc is locked and
      unlocked by animation events and picks one of its three attacks at random;
    - the melee orcs hit along a ray, the mage orc over a circular area. */
module Orcs {
  import opened Engine
  import opened Player

  datatype OrcKind = Red | Green | Mage

  /** An attack trigger sent to the animator: the melee running attack, or
      entry `index` of the three standard triggers (for the mage orc: its
      melee, projectile and mid-range attacks). */
  datatype Attack = RunAttack | Standard(index: nat)

  const AttackTriggerCount := 3
  /** The jump cycle's wait before its loop starts. */
  const JumpStartDelay := 0.2
  /** The delay of the destruction a death requests. */
  const DestroyDelay := 0.5
  /** How much faster than the walk speed an orc must move to run-attack. */
  const RunAttackMargin := 0.1
  /** A vertical speed below this counts as not rising for the edge test. */
  const FallingLimit := 0.1

  /** The inspector settings of one orc. `hasPatrolProbes`: both probe points
      are assigned; `hasAttackPoint`: the attack origin is assigned;
      `hasPlayerLayer`: the player layer mask is not empty; `hasWall`: a
      blocking wall to unlock on death is assigned. */
  datatype OrcConfig = OrcConfig(
    kind: OrcKind,
    moveSpeed: real, chaseSpeedMultiplier: real, detectionRange: real,
    hasPatrolProbes: bool,
    attackCooldown: real, hasAttackPoint: bool, hasPlayerLayer: bool,
    jumpForce: real, jumpInterval: real, jumpColliderDisableTime: real,
    maxHealth: int, attackDamage: int,
    stompDamage: int, bounceForce: real, stompSideForce: real, stompCooldown: real,
    hasWall: bool)

  /** Where the jump coroutine is waiting. */
  datatype JumpPhase = StartupWait(until: real) | IntervalWait(until: real) | JumpLoopEnded

  /** The horizontal direction of the wall probe: the facing direction, except
      for the green orc, whose probe always points right. */
  function WallProbeDirection(kind: OrcKind, facingRight: bool): (d: real)
    ensures d == 1.0 || d == -1.0
    ensures kind == Green ==> d == 1.0
    ensures kind != Green ==> (d == 1.0 <==> facingRight)
  {
    if kind == Green || facingRight then 1.0 else -1.0
  }

  /** The patrol turn: an orc with both probes turns when it is about to walk
      off an edge (no ground ahead while not rising) or its wall probe hits,
      but only while the player is beyond its detection range. The wall probe
      reports `wallRight` when cast right and `wallLeft` when cast left. */
  predicate TurnsAtEdge(cfg: OrcConfig, facingRight: bool, vy: real, groundHit: bool,
                        wallRight: bool, wallLeft: bool, distance: real)
  {
    var hitWall := if WallProbeDirection(cfg.kind, facingRight) > 0.0 then wallRight else wallLeft;
    cfg.hasPatrolProbes && ((!groundHit && vy < FallingLimit) || hitWall) && distance > cfg.detectionRange
  }

  /** An orc chasing the player never turns away at an edge or a wall. */
  lemma NoPatrolTurnWhileChasing(cfg: OrcConfig, facingRight: bool, vy: real, groundHit: bool,
                                 wallRight: bool, wallLeft: bool, distance: real)
    requires distance <= cfg.detectionRange
    ensures !TurnsAtEdge(cfg, facingRight, vy, groundHit, wallRight, wallLeft, distance)
  {
  }

  /** Facing left on firm ground, a red or mage orc turns at a wall on its
      left, while a green orc ignores that wall and turns at one behind it. */
  lemma GreenOrcProbesRightOnly(cfg: OrcConfig, vy: real, distance: real)
    requires cfg.hasPatrolProbes && distance > cfg.detectionRange
    ensures cfg.kind != Green ==> TurnsAtEdge(cfg, false, vy, true, false, true, distance)
    ensures cfg.kind != Green ==> !TurnsAtEdge(cfg, false, vy, true, true, false, distance)
    ensures cfg.kind == Green ==> !TurnsAtEdge(cfg, false, vy, true, false, true, distance)
    ensures cfg.kind == Green ==> TurnsAtEdge(cfg, false, vy, true, true, false, distance)
  {
  }

  /** The attack cooldown has passed: strictly more than the cooldown since the last attack. */
  predicate CooldownElapsed(now: real, lastAttackTime: real, cooldown: real)
  {
    now > lastAttackTime + cooldown
  }

  /** The attack choice: a melee orc moving faster than its walk speed by
      more than the margin runs-attacks, otherwise the roll picks one of the
      three standard attacks; the mage orc always uses the roll. */
  function ChooseAttack(kind: OrcKind, vx: real, moveSpeed: real, roll: nat): (a: Attack)
    requires roll < AttackTriggerCount
    ensures a == RunAttack <==> kind != Mage && Abs(vx) > moveSpeed + RunAttackMargin
    ensures a.Standard? ==> a.index == roll && a.index < AttackTriggerCount
  {
    if kind != Mage && Abs(vx) > moveSpeed + RunAttackMargin then RunAttack else Standard(roll)
  }

  /** The chase speed points toward the player, whichever side the player is on. */
  function ChaseSpeed(cfg: OrcConfig, dx: real): (v: real)
    ensures cfg.moveSpeed >= 0.0 && cfg.chaseSpeedMultiplier >= 0.0 ==> v * dx >= 0.0
    ensures Abs(v) == Abs(cfg.moveSpeed * cfg.chaseSpeedMultiplier)
  {
    cfg.moveSpeed * cfg.chaseSpeedMultiplier * Sign(dx)
  }

  /** How many entries of `s` are true. */
  function CountTrue(s: seq<bool>): (n: nat)
    ensures n <= |s|
    ensures n == 0 <==> forall i :: 0 <= i < |s| ==> !s[i]
  {
    if s == [] then 0 else CountTrue(s[..|s| - 1]) + (if s[|s| - 1] then 1 else 0)
  }

  /** The two impulses a stomp gives the player: up by the bounce force, then
      sideways by the side force toward the side `dx` (the player's offset
      from the orc) points to. */
  function StompImpulses(cfg: OrcConfig, dx: real): (s: seq<Vec2>)
    ensures |s| == 2 && s[0] == Vec2(0.0, cfg.bounceForce) && s[1].y == 0.0
    ensures Abs(s[1].x) == Abs(cfg.stompSideForce)
    ensures cfg.stompSideForce >= 0.0 ==> s[1].x * dx >= 0.0
  {
    [Vec2(0.0, cfg.bounceForce), Vec2(Sign(dx) * cfg.stompSideForce, 0.0)]
  }

  class Orc {
    const cfg: OrcConfig
    /** The enabled flags of every collider on the orc and its children;
        entry 0, when present, is the orc's own collider. */
    const colliders: array<bool>

    var facingRight: bool
    var isDead: bool
    var currentHealth: int
    var velocity: Vec2
    /** The impulses the orc's own body was given (its jumps). */
    var impulses: seq<Vec2>
    var isGrounded: bool
    var canBeStomped: bool
    /** When the running stomp cooldown ends (meaningful while it runs). */
    var stompReadyAt: real
    var isAttacking: bool
    /** When a melee orc's attack hold ends (meaningful while attacking). */
    var attackEndsAt: real
    var lastAttackTime: real
    /** The attack triggers sent to the animator, in order. */
    var attacks: seq<Attack>
    var jumpPhase: JumpPhase
    /** When the collider switched off by a jump is due back, if it is off. */
    var colliderReturnsAt: Option<real>
    /** Unlock requests sent to the blocking wall. */
    var wallUnlocks: nat
    /** The requested destruction time, once dead. */
    var destroyAt: Option<real>

    ghost predicate Valid()
      reads this, colliders
    {
      && (isDead ==> forall i :: 0 <= i < colliders.Length ==> !colliders[i])
      && (isDead ==> currentHealth <= 0)
      && (isDead <==> destroyAt.Some?)
      && wallUnlocks == (if isDead && cfg.hasWall then 1 else 0)
      && (colliderReturnsAt.Some? ==> colliders.Length > 0 && !colliders[0])
      && (cfg.kind != Mage && isAttacking ==> attackEndsAt == lastAttackTime + cfg.attackCooldown)
    }

    /** Awake and Start at time `now`: full health, facing right, the jump
        cycle started, every collider enabled. */
    constructor (cfg: OrcConfig, colliderCount: nat, now: real)
      ensures Valid() && this.cfg == cfg
      ensures fresh(colliders) && colliders.Length == colliderCount
      ensures forall i :: 0 <= i < colliderCount ==> colliders[i]
      ensures facingRight && !isDead && currentHealth == cfg.maxHealth
      ensures canBeStomped && !isAttacking && lastAttackTime == 0.0
      ensures velocity == Zero2 && impulses == [] && attacks == []
      ensures jumpPhase == StartupWait(now + JumpStartDelay) && colliderReturnsAt == None
      ensures wallUnlocks == 0 && destroyAt == None
    {
      this.cfg := cfg;
      colliders := new bool[colliderCount](_ => true);
      facingRight := true;
      isDead := false;
      currentHealth := cfg.maxHealth;
      velocity := Zero2;
      impulses := [];
      isGrounded := false;
      canBeStomped := true;
      stompReadyAt := 0.0;
      isAttacking := false;
      attackEndsAt := 0.0;
      lastAttackTime := 0.0;
      attacks := [];
      jumpPhase := StartupWait(now + JumpStartDelay);
      colliderReturnsAt := None;
      wallUnlocks := 0;
      destroyAt := None;
    }

    /** CheckAttackRange: a player layer and an attack point are configured and
        the range ray (cast in the facing direction) hits the player. */
    predicate CheckAttackRange(rangeRayHitsPlayer: bool)
    {
      cfg.hasPlayerLayer && cfg.hasAttackPoint && rangeRayHitsPlayer
    }

    /** One frame at time `now`. The engine supplies whether a player exists,
        its distance and horizontal offset `dx`, the ground probe, the wall
        probe as cast right and as cast left, the range ray, and the random
        roll. A dead orc only holds still; without a player nothing happens. */
    method Update(playerPresent: bool, distance: real, dx: real, groundHit: bool,
                  wallRight: bool, wallLeft: bool, rangeRayHitsPlayer: bool, roll: nat, now: real)
      requires Valid() && roll < AttackTriggerCount
      modifies this`velocity, this`isGrounded, this`facingRight, this`isAttacking,
               this`attackEndsAt, this`lastAttackTime, this`attacks
      ensures Valid()
      ensures old(isDead) ==> velocity == Zero2
      ensures old(isDead) || !playerPresent
              ==> isGrounded == old(isGrounded) && facingRight == old(facingRight)
                  && isAttacking == old(isAttacking) && attacks == old(attacks)
                  && lastAttackTime == old(lastAttackTime) && attackEndsAt == old(attackEndsAt)
      ensures !old(isDead) && !playerPresent ==> velocity == old(velocity)
      ensures !old(isDead) && playerPresent ==> UpdatedAlive(
                old(velocity), old(isGrounded), old(facingRight), old(isAttacking),
                old(lastAttackTime), old(attackEndsAt), old(attacks),
                distance, dx, groundHit, wallRight, wallLeft, rangeRayHitsPlayer, roll, now)
    {
      if isDead || !playerPresent {
        if isDead {
          velocity := Zero2;
        }
        return;
      }
      CheckGroundAndTurn(groundHit, wallRight, wallLeft, distance);
      var currentSpeed := Pursue(distance, dx, rangeRayHitsPlayer, roll, now);
      Move(currentSpeed);
    }

    /** The chase-or-patrol decision of a frame: chasing, face the player and
        attack when the cooldown and range allow; the speed returned is the
        chase speed toward the player, or the walk speed in the facing
        direction when patrolling. */
    method Pursue(distance: real, dx: real, rangeRayHitsPlayer: bool, roll: nat, now: real)
      returns (currentSpeed: real)
      requires Valid() && roll < AttackTriggerCount
      modifies this`facingRight, this`isAttacking, this`attackEndsAt, this`lastAttackTime, this`attacks
      ensures Valid()
      ensures distance <= cfg.detectionRange
              ==> facingRight == (if old(isAttacking) then old(facingRight) else dx >= 0.0)
                  && currentSpeed == ChaseSpeed(cfg, dx)
      ensures distance > cfg.detectionRange
              ==> facingRight == old(facingRight)
                  && currentSpeed == cfg.moveSpeed * (if facingRight then 1.0 else -1.0)
      ensures AttackDecided(old(isAttacking), old(lastAttackTime), old(attackEndsAt), old(attacks),
                            distance <= cfg.detectionRange && CooldownElapsed(now, old(lastAttackTime), cfg.attackCooldown)
                            && CheckAttackRange(rangeRayHitsPlayer) && !old(isAttacking),
                            ChooseAttack(cfg.kind, velocity.x, cfg.moveSpeed, roll), now)
    {
      var targetDir := if facingRight then 1.0 else -1.0;
      if distance <= cfg.detectionRange {
        targetDir := Sign(dx);
        FlipCheck(targetDir);
        currentSpeed := ChaseSpeed(cfg, dx);
        if CooldownElapsed(now, lastAttackTime, cfg.attackCooldown) && CheckAttackRange(rangeRayHitsPlayer) {
          AttemptAttack(ChooseAttack(cfg.kind, velocity.x, cfg.moveSpeed, roll), now);
        }
      } else {
        currentSpeed := cfg.moveSpeed * targetDir;
      }
    }

    /** The attack bookkeeping after a decision: when `started`, the trigger
        `attack` is sent and a melee orc holds the attack for one cooldown from
        now; otherwise (and for the mage orc's hold) nothing changes. */
    ghost predicate AttackDecided(attacking0: bool, last0: real, ends0: real, attacks0: seq<Attack>,
                                  started: bool, attack: Attack, now: real)
      reads this
    {
      && attacks == attacks0 + (if started then [attack] else [])
      && (cfg.kind != Mage && started ==> isAttacking && lastAttackTime == now && attackEndsAt == now + cfg.attackCooldown)
      && (cfg.kind == Mage || !started ==> isAttacking == attacking0 && lastAttackTime == last0 && attackEndsAt == ends0)
    }

    /** Apply the frame's speed: none while attacking; the vertical velocity is kept. */
    method Move(currentSpeed: real)
      modifies this`velocity
      ensures velocity == Vec2(if isAttacking then 0.0 else currentSpeed, old(velocity.y))
    {
      if !isAttacking {
        velocity := Vec2(currentSpeed, velocity.y);
      } else {
        velocity := Vec2(0.0, velocity.y);
      }
    }

    /** The state after a frame of a living orc with a player in the scene:
        - the ground flag follows the ground probe when both probes are set;
        - chasing (player within detection range): the orc faces the player
          unless an attack is under way, and never turns at an edge;
        - patrolling: it turns exactly when TurnsAtEdge says so;
        - an attack starts exactly when chasing, the cooldown has elapsed, the
          range check passes and no attack is under way; a melee orc then
          holds it for one cooldown, the mage orc only sends the trigger;
        - the horizontal velocity is zero while attacking, else the chase
          speed toward the player or the walk speed in the facing direction;
          the vertical velocity is kept. */
    ghost predicate UpdatedAlive(
      v0: Vec2, grounded0: bool, facing0: bool, attacking0: bool,
      last0: real, ends0: real, attacks0: seq<Attack>,
      distance: real, dx: real, groundHit: bool, wallRight: bool, wallLeft: bool,
      rangeRayHitsPlayer: bool, roll: nat, now: real)
      reads this
      requires roll < AttackTriggerCount
    {
      var chasing := distance <= cfg.detectionRange;
      var started := chasing && CooldownElapsed(now, last0, cfg.attackCooldown)
                     && CheckAttackRange(rangeRayHitsPlayer) && !attacking0;
      && isGrounded == (if cfg.hasPatrolProbes then groundHit else grounded0)
      && (chasing ==> facingRight == (if attacking0 then facing0 else dx >= 0.0))
      && (!chasing ==> facingRight == (facing0 != TurnsAtEdge(cfg, facing0, v0.y, groundHit, wallRight, wallLeft, distance)))
      && AttackDecided(attacking0, last0, ends0, attacks0, started, ChooseAttack(cfg.kind, v0.x, cfg.moveSpeed, roll), now)
      && velocity.y == v0.y
      && velocity.x == (if isAttacking then 0.0
                        else if chasing then ChaseSpeed(cfg, dx)
                        else cfg.moveSpeed * (if facingRight then 1.0 else -1.0))
    }

    /** The patrol probes: refresh the ground flag and turn at an edge or a
        wall while the player is out of range. */
    method CheckGroundAndTurn(groundHit: bool, wallRight: bool, wallLeft: bool, distance: real)
      modifies this`isGrounded, this`facingRight
      ensures isGrounded == (if cfg.hasPatrolProbes then groundHit else old(isGrounded))
      ensures facingRight
              == (old(facingRight) != TurnsAtEdge(cfg, old(facingRight), velocity.y, groundHit, wallRight, wallLeft, distance))
    {
      if !cfg.hasPatrolProbes {
        return;
      }
      isGrounded := groundHit;
      var hitWall := if WallProbeDirection(cfg.kind, facingRight) > 0.0 then wallRight else wallLeft;
      if (!isGrounded && velocity.y < FallingLimit) || hitWall {
        if distance > cfg.detectionRange {
          Flip();
        }
      }
    }

    /** Face the direction `targetDir`, unless attacking. */
    method FlipCheck(targetDir: real)
      modifies this`facingRight
      ensures isAttacking || targetDir == 0.0 ==> facingRight == old(facingRight)
      ensures !isAttacking && targetDir > 0.0 ==> facingRight
      ensures !isAttacking && targetDir < 0.0 ==> !facingRight
    {
      if !isAttacking {
        if (targetDir > 0.0 && !facingRight) || (targetDir < 0.0 && facingRight) {
          Flip();
        }
      }
    }

    method Flip()
      modifies this`facingRight
      ensures facingRight == !old(facingRight)
    {
      facingRight := !facingRight;
    }

    /** Start an attack unless one is under way. A melee orc holds it and
        starts its cooldown now; the mage orc only sends the trigger (its
        animation events lock and unlock it). */
    method AttemptAttack(attack: Attack, now: real)
      requires Valid()
      modifies this`isAttacking, this`attacks, this`lastAttackTime, this`attackEndsAt
      ensures Valid()
      ensures attacks == old(attacks) + (if old(isAttacking) then [] else [attack])
      ensures cfg.kind != Mage && !old(isAttacking)
              ==> isAttacking && lastAttackTime == now && attackEndsAt == now + cfg.attackCooldown
      ensures cfg.kind == Mage || old(isAttacking)
              ==> isAttacking == old(isAttacking) && lastAttackTime == old(lastAttackTime)
                  && attackEndsAt == old(attackEndsAt)
    {
      if isAttacking {
        return;
      }
      if cfg.kind != Mage {
        isAttacking := true;
      }
      attacks := attacks + [attack];
      if cfg.kind != Mage {
        lastAttackTime := now;
        attackEndsAt := now + cfg.attackCooldown;
      }
    }

    /** Resumption of a melee orc's attack hold at time `now`: it ends once
        the cooldown has run. */
    method AttackHoldElapsed(now: real)
      requires Valid() && cfg.kind != Mage
      modifies this`isAttacking
      ensures Valid()
      ensures isAttacking == (old(isAttacking) && now < attackEndsAt)
    {
      if isAttacking && now >= attackEndsAt {
        isAttacking := false;
      }
    }

    /** The mage orc's animation event at the start of an attack clip. */
    method LockMovement()
      requires Valid() && cfg.kind == Mage
      modifies this`isAttacking, this`velocity
      ensures Valid()
      ensures isAttacking && velocity == Zero2
    {
      isAttacking := true;
      velocity := Zero2;
    }

    /** The mage orc's animation event at the end of an attack clip: the
        cooldown counts from now. */
    method UnlockMovement(now: real)
      requires Valid() && cfg.kind == Mage
      modifies this`isAttacking, this`lastAttackTime
      ensures Valid()
      ensures !isAttacking && lastAttackTime == now
    {
      isAttacking := false;
      lastAttackTime := now;
    }

    /** A melee orc's strike (an animation event): the ray from the attack
        point hits a player-tagged collider, whose controller (if any) is
        `player`; that player takes the attack damage. */
    method ExecuteAttackRay(rayHitsPlayer: bool, player: PlayerController?, now: real)
      requires cfg.kind != Mage
      requires player != null ==> player.Valid()
      modifies if player == null then {} else {player}
      ensures player != null ==> player.flipX == old(player.flipX) && player.isGrounded == old(player.isGrounded)
      ensures player != null ==> player.Valid()
      ensures player != null && cfg.hasAttackPoint && rayHitsPlayer
              ==> player.State() == Hit(old(player.State()), cfg.attackDamage, now, player.invulnerabilityTime)
      ensures player != null && !(cfg.hasAttackPoint && rayHitsPlayer)
              ==> player.State() == old(player.State())
    {
      if !cfg.hasAttackPoint {
        return;
      }
      if rayHitsPlayer && player != null {
        player.TakeDamage(cfg.attackDamage, now);
      }
    }

    /** The mage orc's strike (an animation event): every collider the circle
        around the attack point overlaps is examined in turn; `hits[i]` says
        that the i-th is player-tagged and carries the player's controller.
        Each such collider deals the attack damage to the player. */
    method ExecuteAttackArea(hits: seq<bool>, player: PlayerController, now: real)
      requires cfg.kind == Mage && player.Valid()
      modifies player
      ensures player.flipX == old(player.flipX) && player.isGrounded == old(player.isGrounded)
      ensures player.Valid()
      ensures player.State()
              == Hits(old(player.State()), cfg.attackDamage, now, player.invulnerabilityTime,
                      if cfg.hasAttackPoint then CountTrue(hits) else 0)
    {
      if !cfg.hasAttackPoint {
        return;
      }
      var i := 0;
      while i < |hits|
        invariant 0 <= i <= |hits|
        invariant player.Valid()
        invariant player.flipX == old(player.flipX) && player.isGrounded == old(player.isGrounded)
        invariant player.State()
                  == Hits(old(player.State()), cfg.attackDamage, now, player.invulnerabilityTime, CountTrue(hits[..i]))
      {
        assert hits[..i + 1][..i] == hits[..i];
        if hits[i] {
          HitsStep(old(player.State()), cfg.attackDamage, now, player.invulnerabilityTime, CountTrue(hits[..i]));
          player.TakeDamage(cfg.attackDamage, now);
        }
        i := i + 1;
      }
      assert hits[..|hits|] == hits;
    }

    /** Damage to the orc at time `now`: ignored once dead; a hit that brings
        health to zero or below kills it. */
    method TakeDamage(damage: int, now: real)
      requires Valid()
      modifies this`currentHealth, this`isDead, this`wallUnlocks, this`velocity, this`destroyAt, colliders
      ensures Valid()
      ensures old(isDead) ==> currentHealth == old(currentHealth) && velocity == old(velocity)
                              && wallUnlocks == old(wallUnlocks) && destroyAt == old(destroyAt)
                              && colliders[..] == old(colliders[..])
      ensures !old(isDead) ==> currentHealth == old(currentHealth) - damage
      ensures !old(isDead) ==> (isDead <==> currentHealth <= 0)
      ensures !old(isDead) && currentHealth > 0
              ==> velocity == old(velocity) && wallUnlocks == old(wallUnlocks)
                  && destroyAt == old(destroyAt) && colliders[..] == old(colliders[..])
      ensures !old(isDead) && currentHealth <= 0 ==> KilledAt(old(wallUnlocks), now)
    {
      if isDead {
        return;
      }
      currentHealth := currentHealth - damage;
      if currentHealth <= 0 {
        Die(now);
      }
    }

    /** What a death leaves behind: dead, still, every collider off, one
        unlock sent to the wall (when one is assigned), destruction requested
        half a second later. */
    ghost predicate KilledAt(wallUnlocks0: nat, now: real)
      reads this, colliders
    {
      && isDead
      && velocity == Zero2
      && (forall i :: 0 <= i < colliders.Length ==> !colliders[i])
      && wallUnlocks == wallUnlocks0 + (if cfg.hasWall then 1 else 0)
      && destroyAt == Some(now + DestroyDelay)
    }

    method Die(now: real)
      requires Valid() && (!isDead ==> currentHealth <= 0)
      modifies this`isDead, this`wallUnlocks, this`velocity, this`destroyAt, colliders
      ensures Valid()
      ensures old(isDead) ==> velocity == old(velocity) && wallUnlocks == old(wallUnlocks)
                              && destroyAt == old(destroyAt) && colliders[..] == old(colliders[..])
      ensures !old(isDead) ==> KilledAt(old(wallUnlocks), now)
    {
      if isDead {
        return;
      }
      isDead := true;
      if cfg.hasWall {
        wallUnlocks := wallUnlocks + 1;
      }
      velocity := Zero2;
      var i := 0;
      while i < colliders.Length
        invariant 0 <= i <= colliders.Length
        invariant forall j :: 0 <= j < i ==> !colliders[j]
        modifies colliders
      {
        colliders[i] := false;
        i := i + 1;
      }
      destroyAt := Some(now + DestroyDelay);
    }

    /** The head trigger: a player-tagged collider with a rigid body
        `playerBody`, falling, while the orc can be stomped, starts the stomp
        cooldown, deals the stomp damage, and bounces the player up and away
        (to the side `dx`, the player's offset, points to). */
    method OnTriggerEnter2D(isPlayer: bool, playerBody: Body?, dx: real, now: real)
      requires Valid()
      modifies this`canBeStomped, this`stompReadyAt, this`currentHealth, this`isDead,
               this`wallUnlocks, this`velocity, this`destroyAt, colliders, playerBody
      ensures Valid()
      ensures playerBody != null ==> playerBody.parent == old(playerBody.parent)
      ensures !(!old(isDead) && isPlayer && playerBody != null && old(playerBody.velocity.y) < 0.0 && old(canBeStomped))
              ==> canBeStomped == old(canBeStomped) && stompReadyAt == old(stompReadyAt)
                  && currentHealth == old(currentHealth) && isDead == old(isDead)
                  && velocity == old(velocity) && wallUnlocks == old(wallUnlocks) && destroyAt == old(destroyAt)
                  && colliders[..] == old(colliders[..])
                  && (playerBody != null
                      ==> playerBody.velocity == old(playerBody.velocity)
                          && playerBody.impulses == old(playerBody.impulses))
      ensures !old(isDead) && isPlayer && playerBody != null && old(playerBody.velocity.y) < 0.0 && old(canBeStomped)
              ==> !canBeStomped && stompReadyAt == now + cfg.stompCooldown
                  && currentHealth == old(currentHealth) - cfg.stompDamage
                  && (isDead <==> currentHealth <= 0)
                  && (currentHealth <= 0 ==> KilledAt(old(wallUnlocks), now))
                  && (currentHealth > 0
                      ==> velocity == old(velocity) && wallUnlocks == old(wallUnlocks)
                          && destroyAt == old(destroyAt) && colliders[..] == old(colliders[..]))
                  && playerBody.velocity == Vec2(old(playerBody.velocity.x), 0.0)
                  && playerBody.impulses == old(playerBody.impulses) + StompImpulses(cfg, dx)
    {
      if isDead {
        return;
      }
      if isPlayer {
        if playerBody != null && playerBody.velocity.y < 0.0 && canBeStomped {
          Stomp(playerBody, dx, now);
        }
      }
    }

    /** The effect of a stomp on a living, stompable orc: the cooldown starts,
        the orc takes the stomp damage (dying with every effect of `KilledAt`
        when its health reaches zero), and the player's body loses its
        vertical speed and is pushed up and to the side of `dx`. */
    method Stomp(playerBody: Body, dx: real, now: real)
      requires Valid() && !isDead && canBeStomped
      modifies this`canBeStomped, this`stompReadyAt, this`currentHealth, this`isDead,
               this`wallUnlocks, this`velocity, this`destroyAt, colliders, playerBody
      ensures Valid()
      ensures !canBeStomped && stompReadyAt == now + cfg.stompCooldown
      ensures currentHealth == old(currentHealth) - cfg.stompDamage
      ensures isDead <==> currentHealth <= 0
      ensures currentHealth <= 0 ==> KilledAt(old(wallUnlocks), now)
      ensures currentHealth > 0
              ==> velocity == old(velocity) && wallUnlocks == old(wallUnlocks)
                  && destroyAt == old(destroyAt) && colliders[..] == old(colliders[..])
      ensures playerBody.parent == old(playerBody.parent)
      ensures playerBody.velocity == Vec2(old(playerBody.velocity.x), 0.0)
      ensures playerBody.impulses == old(playerBody.impulses) + StompImpulses(cfg, dx)
    {
      canBeStomped := false;
      stompReadyAt := now + cfg.stompCooldown;
      TakeDamage(cfg.stompDamage, now);
      playerBody.velocity := Vec2(playerBody.velocity.x, 0.0);
      playerBody.impulses := playerBody.impulses + StompImpulses(cfg, dx);
    }

    /** Resumption of the stomp cooldown at time `now`. */
    method StompCooldownElapsed(now: real)
      modifies this`canBeStomped
      ensures canBeStomped == (old(canBeStomped) || now >= stompReadyAt)
    {
      if !canBeStomped && now >= stompReadyAt {
        canBeStomped := true;
      }
    }

    /** Body contact: a living orc that is not attacking deals its attack
        damage to a player-tagged object carrying the controller `player`. */
    method OnCollisionEnter2D(isPlayer: bool, player: PlayerController?, now: real)
      requires player != null ==> player.Valid()
      modifies if player == null then {} else {player}
      ensures player != null ==> player.flipX == old(player.flipX) && player.isGrounded == old(player.isGrounded)
      ensures player != null ==> player.Valid()
      ensures player != null && !isDead && !isAttacking && isPlayer
              ==> player.State() == Hit(old(player.State()), cfg.attackDamage, now, player.invulnerabilityTime)
      ensures player != null && !(!isDead && !isAttacking && isPlayer)
              ==> player.State() == old(player.State())
    {
      if isDead || isAttacking {
        return;
      }
      if isPlayer && player != null {
        player.TakeDamage(cfg.attackDamage, now);
      }
    }

    /** Resumption of the jump coroutine at time `now`. Nothing happens before
        the running wait ends. After the start-up wait, and after each
        interval, the loop goes on with a new interval unless the orc is dead;
        at the end of an interval it first jumps when grounded and not
        attacking (even when it has just died). */
    method JumpCycleTick(now: real)
      requires Valid()
      modifies this`jumpPhase, this`velocity, this`impulses, this`colliderReturnsAt, colliders
      ensures Valid()
      ensures !(old(jumpPhase).StartupWait? || old(jumpPhase).IntervalWait?) || now < old(jumpPhase).until
              ==> jumpPhase == old(jumpPhase) && impulses == old(impulses) && velocity == old(velocity)
                  && colliders[..] == old(colliders[..]) && colliderReturnsAt == old(colliderReturnsAt)
      ensures (old(jumpPhase).StartupWait? || old(jumpPhase).IntervalWait?) && now >= old(jumpPhase).until
              ==> jumpPhase == (if isDead then JumpLoopEnded else IntervalWait(now + cfg.jumpInterval))
      ensures old(jumpPhase).IntervalWait? && now >= old(jumpPhase).until && isGrounded && !isAttacking
              ==> impulses == old(impulses) + [Vec2(0.0, cfg.jumpForce)] && velocity == Vec2(old(velocity.x), 0.0)
                  && (old(colliders.Length > 0 && colliders[0])
                      ==> colliderReturnsAt == Some(now + cfg.jumpColliderDisableTime)
                          && colliders[..] == old(colliders[..])[0 := false])
                  && (!old(colliders.Length > 0 && colliders[0])
                      ==> colliderReturnsAt == old(colliderReturnsAt) && colliders[..] == old(colliders[..]))
      ensures !(old(jumpPhase).IntervalWait? && now >= old(jumpPhase).until && isGrounded && !isAttacking)
              ==> impulses == old(impulses) && velocity == old(velocity)
                  && colliders[..] == old(colliders[..]) && colliderReturnsAt == old(colliderReturnsAt)
    {
      match jumpPhase
      case StartupWait(until) =>
        if now >= until {
          jumpPhase := if isDead then JumpLoopEnded else IntervalWait(now + cfg.jumpInterval);
        }
      case IntervalWait(until) =>
        if now >= until {
          if isGrounded && !isAttacking {
            ExecuteJump(now);
          }
          jumpPhase := if isDead then JumpLoopEnded else IntervalWait(now + cfg.jumpInterval);
        }
      case JumpLoopEnded =>
    }

    /** A jump: the orc's own collider is switched off for a moment if it was
        on, the vertical velocity is cleared and an upward impulse applied. */
    method ExecuteJump(now: real)
      requires Valid()
      modifies this`velocity, this`impulses, this`colliderReturnsAt, colliders
      ensures Valid()
      ensures velocity == Vec2(old(velocity.x), 0.0)
      ensures impulses == old(impulses) + [Vec2(0.0, cfg.jumpForce)]
      ensures old(colliders.Length > 0 && colliders[0])
              ==> colliderReturnsAt == Some(now + cfg.jumpColliderDisableTime)
                  && colliders[..] == old(colliders[..])[0 := false]
      ensures !old(colliders.Length > 0 && colliders[0])
              ==> colliderReturnsAt == old(colliderReturnsAt) && colliders[..] == old(colliders[..])
    {
      if colliders.Length > 0 && colliders[0] {
        colliders[0] := false;
        colliderReturnsAt := Some(now + cfg.jumpColliderDisableTime);
      }
      velocity := Vec2(velocity.x, 0.0);
      impulses := impulses + [Vec2(0.0, cfg.jumpForce)];
    }

    /** Resumption of the collider reactivation at time `now`: the collider
        comes back unless the orc has died meanwhile. */
    method ReactivateColliderTick(now: real)
      requires Valid()
      modifies this`colliderReturnsAt, colliders
      ensures Valid()
      ensures old(colliderReturnsAt).Some? && now >= old(colliderReturnsAt).value
              ==> colliderReturnsAt == None
                  && colliders[..] == (if isDead then old(colliders[..]) else old(colliders[..])[0 := true])
      ensures !(old(colliderReturnsAt).Some? && now >= old(colliderReturnsAt).value)
              ==> colliderReturnsAt == old(colliderReturnsAt) && colliders[..] == old(colliders[..])
    {
      if colliderReturnsAt.Some? && now >= colliderReturnsAt.value {
        colliderReturnsAt := None;
        if colliders.Length > 0 && !isDead {
          colliders[0] := true;
        }
      }
    }
  }
}
