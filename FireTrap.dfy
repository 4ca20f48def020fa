/** The triggered fire trap: a player entering an idle trap arms it (the
    sprite turns red), after `activationDelay` it burns for `activeTime`,
    then it goes back to idle. Only an entry while it burns hurts. */
module FireTraps {
  import opened Engine
  import opened Player

  /** The activation coroutine: not running, waiting to ignite, or burning. */
  datatype FirePhase = Idle | Arming(until: real) | Burning(until: real)

  class Firetrap {
    const damage: real
    const activationDelay: real
    const activeTime: real

    var triggered: bool
    var active: bool
    /** The sprite shows the red warning tint. */
    var warningTint: bool
    /** The animator's "activated" flag. */
    var animActivated: bool
    var phase: FirePhase

    ghost predicate Valid()
      reads this
    {
      && (triggered <==> !phase.Idle?)
      && (active <==> phase.Burning?)
      && (warningTint <==> phase.Arming?)
      && (animActivated <==> phase.Burning?)
    }

    constructor (damage: real, activationDelay: real, activeTime: real)
      ensures Valid() && phase == Idle
      ensures this.damage == damage && this.activationDelay == activationDelay && this.activeTime == activeTime
    {
      this.damage := damage;
      this.activationDelay := activationDelay;
      this.activeTime := activeTime;
      triggered := false;
      active := false;
      warningTint := false;
      animActivated := false;
      phase := Idle;
    }

    /** A collider enters at time `now`: a player-tagged one arms an idle
        trap, and is hurt (with the damage truncated to an integer) only if
        the trap is already burning. */
    method OnTriggerEnter2D(isPlayer: bool, player: PlayerController?, now: real)
      requires Valid()
      requires player != null ==> player.Valid()
      modifies this`triggered, this`warningTint, this`phase
      modifies if player == null then {} else {player}
      ensures player != null ==> player.flipX == old(player.flipX) && player.isGrounded == old(player.isGrounded)
      ensures Valid()
      ensures player != null ==> player.Valid()
      ensures isPlayer && old(phase).Idle? ==> phase == Arming(now + activationDelay)
      ensures !(isPlayer && old(phase).Idle?) ==> phase == old(phase)
      ensures isPlayer && player != null && old(phase).Burning?
              ==> player.State() == Hit(old(player.State()), Truncate(damage), now, player.invulnerabilityTime)
      ensures player != null && !(isPlayer && old(phase).Burning?) ==> player.State() == old(player.State())
    {
      if isPlayer {
        if !triggered {
          triggered := true;
          warningTint := true;
          phase := Arming(now + activationDelay);
        }
        if active {
          if player != null {
            player.TakeDamage(Truncate(damage), now);
          }
        }
      }
    }

    /** Resumption of the activation coroutine at time `now`. */
    method FireTick(now: real)
      requires Valid()
      modifies this`triggered, this`active, this`warningTint, this`animActivated, this`phase
      ensures Valid()
      ensures old(phase).Arming? && now >= old(phase).until ==> phase == Burning(now + activeTime)
      ensures old(phase).Burning? && now >= old(phase).until ==> phase == Idle
      ensures old(phase).Idle? || now < old(phase).until ==> phase == old(phase)
    {
      match phase
      case Idle =>
      case Arming(until) =>
        if now >= until {
          warningTint := false;
          active := true;
          animActivated := true;
          phase := Burning(now + activeTime);
        }
      case Burning(until) =>
        if now >= until {
          active := false;
          triggered := false;
          animActivated := false;
          phase := Idle;
        }
    }
  }
}
