/** The mage's short-lived magic hitbox: destroyed `hitboxDuration` after it
    appears, it hurts the first player controller it touches and then
    switches its own collider off, so it hurts at most once. */
module MagicHitboxes {
  import opened Engine
  import opened Player

  class MagicHitbox {
    const damage: int
    /** The requested destruction time. */
    const destroyAt: real

    var colliderEnabled: bool

    /** Start at time `now`. */
    constructor (damage: int, hitboxDuration: real, now: real)
      ensures this.damage == damage && destroyAt == now + hitboxDuration && colliderEnabled
    {
      this.damage := damage;
      destroyAt := now + hitboxDuration;
      colliderEnabled := true;
    }

    /** A collider enters at time `now`; the engine reports entries only
        while the hitbox's own collider is enabled. A player-tagged one with
        the controller `player` is hurt and the collider switched off, which
        ends all further entries. */
    method OnTriggerEnter2D(isPlayer: bool, player: PlayerController?, now: real)
      requires colliderEnabled
      requires player != null ==> player.Valid()
      modifies this`colliderEnabled
      modifies if player == null then {} else {player}
      ensures player != null ==> player.flipX == old(player.flipX) && player.isGrounded == old(player.isGrounded)
      ensures player != null ==> player.Valid()
      ensures isPlayer && player != null
              ==> player.State() == Hit(old(player.State()), damage, now, player.invulnerabilityTime)
                  && !colliderEnabled
      ensures !(isPlayer && player != null) ==> colliderEnabled
      ensures player != null && !isPlayer ==> player.State() == old(player.State())
    {
      if isPlayer {
        if player != null {
          player.TakeDamage(damage, now);
          colliderEnabled := false;
        }
      }
    }
  }
}
