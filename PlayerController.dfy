/** The player character: horizontal movement, jumping, sprite facing, and the
    health / invulnerability bookkeeping that every hazard in the game drives
    through TakeDamage. */
module Player {
  import opened Engine

  /** The health-related state of the player. `reloads` counts the requests to
      reload the active scene that a lethal hit makes. */
  datatype Vitals = Vitals(health: int, invulnerable: bool, invulnerableUntil: real, reloads: nat)

  /** The effect of one damage call of `amount` at time `now`, with an
      invulnerability window of `window` seconds. */
  function Hit(v: Vitals, amount: int, now: real, window: real): (r: Vitals)
    ensures v.invulnerable ==> r == v
    ensures !v.invulnerable ==> r.health == v.health - amount
    ensures r.reloads == v.reloads + (if !v.invulnerable && r.health <= 0 then 1 else 0)
    ensures !v.invulnerable ==> (r.invulnerable <==> r.health > 0)
    ensures !v.invulnerable && r.invulnerable ==> r.invulnerableUntil == now + window
  {
    if v.invulnerable then v
    else if v.health - amount <= 0 then v.(health := v.health - amount, reloads := v.reloads + 1)
    else v.(health := v.health - amount, invulnerable := true, invulnerableUntil := now + window)
  }

  /** The end of the invulnerability wait, when it is due at time `now`. */
  function Expire(v: Vitals, now: real): (r: Vitals)
    ensures r.health == v.health && r.reloads == v.reloads && r.invulnerableUntil == v.invulnerableUntil
    ensures r.invulnerable <==> v.invulnerable && now < v.invulnerableUntil
  {
    if v.invulnerable && now >= v.invulnerableUntil then v.(invulnerable := false) else v
  }

  /** `n` damage calls of `amount` arriving in the same instant. */
  function Hits(v: Vitals, amount: int, now: real, window: real, n: nat): Vitals
    decreases n
  {
    if n == 0 then v else Hits(Hit(v, amount, now, window), amount, now, window, n - 1)
  }

  /** The n+1-th simultaneous call acts on the state the first n left. */
  lemma {:induction false} HitsStep(v: Vitals, amount: int, now: real, window: real, n: nat)
    ensures Hits(v, amount, now, window, n + 1) == Hit(Hits(v, amount, now, window, n), amount, now, window)
    decreases n
  {
    if n > 0 {
      HitsStep(Hit(v, amount, now, window), amount, now, window, n - 1);
    }
  }

  /** A player who is invulnerable is alive: a lethal hit never opens a window. */
  ghost predicate Consistent(v: Vitals)
  {
    v.invulnerable ==> v.health > 0
  }

  /** A damage call never leaves an invulnerable player without health. */
  lemma HitEffect(v: Vitals, amount: int, now: real, window: real)
    requires Consistent(v)
    ensures Consistent(Hit(v, amount, now, window))
  {
  }

  lemma ExpireKeepsConsistent(v: Vitals, now: real)
    requires Consistent(v)
    ensures Consistent(Expire(v, now))
  {
  }

  /** A second hit inside the window of a survived first hit changes nothing. */
  lemma SecondHitInsideWindowIgnored(v: Vitals, a1: int, a2: int, t1: real, t2: real, window: real)
    requires !v.invulnerable && v.health - a1 > 0
    requires t1 <= t2 < t1 + window
    ensures Hit(Expire(Hit(v, a1, t1, window), t2), a2, t2, window) == Hit(v, a1, t1, window)
  {
  }

  /** Once the window has run out, the next hit lands again. */
  lemma HitAfterWindowLands(v: Vitals, a1: int, a2: int, t1: real, t2: real, window: real)
    requires !v.invulnerable && v.health - a1 > 0
    requires t2 >= t1 + window
    ensures Hit(Expire(Hit(v, a1, t1, window), t2), a2, t2, window).health == v.health - a1 - a2
  {
  }

  /** Several simultaneous hits on a player who survives the first one cost
      only the first one's damage. */
  lemma {:induction false} SimultaneousHitsCountOnce(v: Vitals, amount: int, now: real, window: real, n: nat)
    requires n >= 1 && !v.invulnerable && v.health - amount > 0
    ensures Hits(v, amount, now, window, n) == Hit(v, amount, now, window)
  {
    if n > 1 {
      StaysWhileInvulnerable(Hit(v, amount, now, window), amount, now, window, n - 1);
    }
  }

  lemma {:induction false} StaysWhileInvulnerable(v: Vitals, amount: int, now: real, window: real, n: nat)
    requires v.invulnerable
    ensures Hits(v, amount, now, window, n) == v
  {
    if n > 0 {
      StaysWhileInvulnerable(v, amount, now, window, n - 1);
    }
  }

  /** The sprite faces left after a negative input and right after a positive
      one; a zero input keeps the current facing. */
  function FlipAfterInput(flipX: bool, moveInput: real): (r: bool)
    ensures moveInput < 0.0 ==> r
    ensures moveInput > 0.0 ==> !r
    ensures moveInput == 0.0 ==> r == flipX
  {
    if moveInput != 0.0 then moveInput < 0.0 else flipX
  }

  class PlayerController {
    const moveSpeed: real
    const jumpForce: real
    const maxHealth: int
    const invulnerabilityTime: real
    const rb: Body

    var currentHealth: int
    var isInvulnerable: bool
    /** When the running invulnerability wait ends (meaningful while invulnerable). */
    var invulnerableUntil: real
    /** Requests to reload the active scene. */
    var sceneReloads: nat
    var isGrounded: bool
    /** The sprite renderer's horizontal flip: true when facing left. */
    var flipX: bool

    function State(): Vitals
      reads this
    {
      Vitals(currentHealth, isInvulnerable, invulnerableUntil, sceneReloads)
    }

    ghost predicate Valid()
      reads this
    {
      Consistent(State())
    }

    /** Start: full health, not invulnerable. */
    constructor (moveSpeed: real, jumpForce: real, maxHealth: int, invulnerabilityTime: real, rb: Body)
      ensures Valid()
      ensures this.moveSpeed == moveSpeed && this.jumpForce == jumpForce
      ensures this.maxHealth == maxHealth && this.invulnerabilityTime == invulnerabilityTime
      ensures this.rb == rb
      ensures currentHealth == maxHealth && !isInvulnerable && sceneReloads == 0
      ensures !isGrounded && !flipX
    {
      this.moveSpeed := moveSpeed;
      this.jumpForce := jumpForce;
      this.maxHealth := maxHealth;
      this.invulnerabilityTime := invulnerabilityTime;
      this.rb := rb;
      currentHealth := maxHealth;
      isInvulnerable := false;
      invulnerableUntil := 0.0;
      sceneReloads := 0;
      isGrounded := false;
      flipX := false;
    }

    /** Jump: only when the button is pressed while grounded; the vertical
        velocity becomes the jump force and the horizontal one is kept. */
    method Update(jumpPressed: bool)
      modifies rb`velocity
      ensures jumpPressed && isGrounded ==> rb.velocity == Vec2(old(rb.velocity.x), jumpForce)
      ensures !(jumpPressed && isGrounded) ==> rb.velocity == old(rb.velocity)
    {
      if jumpPressed && isGrounded {
        rb.velocity := Vec2(rb.velocity.x, jumpForce);
      }
    }

    /** Physics step: refresh the ground flag from the ground probe, set the
        horizontal velocity from the input (vertical velocity kept) and update
        the sprite facing. */
    method FixedUpdate(groundHit: bool, moveInput: real)
      modifies this`isGrounded, this`flipX, rb`velocity
      ensures isGrounded == groundHit
      ensures rb.velocity == Vec2(moveInput * moveSpeed, old(rb.velocity.y))
      ensures flipX == FlipAfterInput(old(flipX), moveInput)
    {
      isGrounded := groundHit;
      rb.velocity := Vec2(moveInput * moveSpeed, rb.velocity.y);
      HandleSpriteFlip(moveInput);
    }

    method HandleSpriteFlip(moveInput: real)
      modifies this`flipX
      ensures flipX == FlipAfterInput(old(flipX), moveInput)
    {
      if moveInput != 0.0 {
        flipX := moveInput < 0.0;
      }
    }

    /** Damage from any hazard at time `now`. */
    method TakeDamage(damageAmount: int, now: real)
      requires Valid()
      modifies this`currentHealth, this`isInvulnerable, this`invulnerableUntil, this`sceneReloads
      ensures Valid()
      ensures State() == Hit(old(State()), damageAmount, now, invulnerabilityTime)
    {
      if isInvulnerable {
        return;
      }
      currentHealth := currentHealth - damageAmount;
      if currentHealth <= 0 {
        Die();
      } else {
        BecomeTemporarilyInvulnerable(now);
      }
    }

    /** Death reloads the active scene. */
    method Die()
      modifies this`sceneReloads
      ensures sceneReloads == old(sceneReloads) + 1
    {
      sceneReloads := sceneReloads + 1;
    }

    /** Start of the invulnerability coroutine: the window opens now. */
    method BecomeTemporarilyInvulnerable(now: real)
      modifies this`isInvulnerable, this`invulnerableUntil
      ensures isInvulnerable && invulnerableUntil == now + invulnerabilityTime
    {
      isInvulnerable := true;
      invulnerableUntil := now + invulnerabilityTime;
    }

    /** Resumption of the invulnerability coroutine at time `now`: the window
        closes once its wait has elapsed. */
    method InvulnerabilityElapsed(now: real)
      requires Valid()
      modifies this`isInvulnerable
      ensures Valid()
      ensures State() == Expire(old(State()), now)
    {
      if isInvulnerable && now >= invulnerableUntil {
        isInvulnerable := false;
      }
    }
  }
}
