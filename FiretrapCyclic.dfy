/** The cyclic fire trap: for ever it rests for `activationDelay`, starts its
    flame animation, and 0.4 seconds later burns until `activeTime` after the
    animation started. The player is hurt on every frame spent in the flames
    while it burns. */
module CyclicFireTraps {
  import opened Engine
  import opened Player

  /** The shortest active time the cycle accepts. */
  const MinimumActiveTime := 0.2
  /** The delay between the flame animation and the damage. */
  const SyncDelay := 0.4

  /** The active time in force: raised to the minimum when shorter. */
  function ClampActiveTime(activeTime: real): (r: real)
    ensures r >= MinimumActiveTime
    ensures r == activeTime || r == MinimumActiveTime
    ensures activeTime >= MinimumActiveTime ==> r == activeTime
  {
    if activeTime < MinimumActiveTime then MinimumActiveTime else activeTime
  }

  datatype CyclePhase = Resting(until: real) | Igniting(until: real) | Burning(until: real)

  class FiretrapCyclic {
    const damage: int
    const activationDelay: real
    /** The flame area is assigned, so the flame animator is known. */
    const hasAnimator: bool

    var activeTime: real
    var active: bool
    var animActivated: bool
    var phase: CyclePhase

    ghost predicate Valid()
      reads this
    {
      && activeTime >= MinimumActiveTime
      && (active <==> phase.Burning?)
      && (hasAnimator ==> (animActivated <==> !phase.Resting?))
    }

    /** Start at time `now`: the active time is clamped and the first rest
        begins. */
    constructor (damage: int, activationDelay: real, activeTime: real, hasFlameArea: bool, now: real)
      ensures Valid()
      ensures this.activeTime == ClampActiveTime(activeTime) && phase == Resting(now + activationDelay)
      ensures !active && this.damage == damage && this.activationDelay == activationDelay
      ensures hasAnimator == hasFlameArea
    {
      this.damage := damage;
      this.activationDelay := activationDelay;
      hasAnimator := hasFlameArea;
      this.activeTime := ClampActiveTime(activeTime);
      active := false;
      animActivated := false;
      phase := Resting(now + activationDelay);
    }

    /** Resumption of the cycle at time `now`. A burn whose remaining wait
        is negative ends at the next resumption. */
    method CycleTick(now: real)
      requires Valid()
      modifies this`active, this`animActivated, this`phase
      ensures Valid()
      ensures now < old(phase).until ==> phase == old(phase) && active == old(active)
      ensures old(phase).Resting? && now >= old(phase).until ==> phase == Igniting(now + SyncDelay)
      ensures old(phase).Igniting? && now >= old(phase).until ==> phase == Burning(now + (activeTime - SyncDelay))
      ensures old(phase).Burning? && now >= old(phase).until ==> phase == Resting(now + activationDelay)
    {
      if now < phase.until {
        return;
      }
      match phase
      case Resting(_) =>
        if hasAnimator {
          animActivated := true;
        }
        phase := Igniting(now + SyncDelay);
      case Igniting(_) =>
        active := true;
        phase := Burning(now + (activeTime - SyncDelay));
      case Burning(_) =>
        active := false;
        if hasAnimator {
          animActivated := false;
        }
        phase := Resting(now + activationDelay);
    }

    /** A frame in which a collider stays in the flames at time `now`: a
        player-tagged one carrying the controller `player` is hurt while the
        trap burns. */
    method OnTriggerStay2D(isPlayer: bool, player: PlayerController?, now: real)
      requires Valid()
      requires player != null ==> player.Valid()
      modifies if player == null then {} else {player}
      ensures player != null ==> player.flipX == old(player.flipX) && player.isGrounded == old(player.isGrounded)
      ensures player != null ==> player.Valid()
      ensures isPlayer && player != null && phase.Burning?
              ==> player.State() == Hit(old(player.State()), damage, now, player.invulnerabilityTime)
      ensures player != null && !(isPlayer && phase.Burning?) ==> player.State() == old(player.State())
    {
      if isPlayer {
        if active {
          if player != null {
            player.TakeDamage(damage, now);
          }
        }
      }
    }
  }
}
