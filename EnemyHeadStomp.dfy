/** The separate head trigger of the mage orc: a falling player landing on it
    bounces off and deals stomp damage, with no stomp cooldown. */
module HeadStomp {
  import opened Engine
  import opened Orcs

  class EnemyHeadStomp {
    /** The mage orc this head belongs to, if assigned. */
    const enemyScript: Orc?
    const stompDamage: int

    /** The orc as a frame: nothing when unassigned. */
    function Head(): set<Orc>
    {
      if enemyScript == null then {} else {enemyScript}
    }

    constructor (enemyScript: Orc?, stompDamage: int)
      ensures this.enemyScript == enemyScript && this.stompDamage == stompDamage
    {
      this.enemyScript := enemyScript;
      this.stompDamage := stompDamage;
    }

    /** A collider enters the head trigger at time `now`: a player-tagged one
        with a rigid body `playerBody` that is falling onto a living orc loses
        its vertical speed, is bounced up with the orc's bounce force, and the
        orc takes the stomp damage as `Orc.TakeDamage` does, dying when its
        health reaches zero. Otherwise neither the player's body nor the orc
        changes. The orc's stomp cooldown, facing, attacks and jumps are never
        touched. */
    method OnTriggerEnter2D(isPlayer: bool, playerBody: Body?, now: real)
      requires enemyScript != null ==> enemyScript.cfg.kind == Mage && enemyScript.Valid()
      modifies Head()`currentHealth, Head()`isDead, Head()`wallUnlocks, Head()`velocity, Head()`destroyAt
      modifies if enemyScript == null then {} else {enemyScript.colliders}
      modifies playerBody
      ensures playerBody != null ==> playerBody.parent == old(playerBody.parent)
      ensures enemyScript != null ==> enemyScript.Valid()
      ensures Stomped(old(enemyScript != null && !enemyScript.isDead), isPlayer, playerBody,
                      old(if playerBody == null then 0.0 else playerBody.velocity.y))
              ==> playerBody.velocity == Vec2(old(playerBody.velocity.x), 0.0)
                  && playerBody.impulses == old(playerBody.impulses) + [Vec2(0.0, enemyScript.cfg.bounceForce)]
                  && enemyScript.currentHealth == old(enemyScript.currentHealth) - stompDamage
                  && (enemyScript.isDead <==> enemyScript.currentHealth <= 0)
                  && (enemyScript.currentHealth <= 0 ==> enemyScript.KilledAt(old(enemyScript.wallUnlocks), now))
                  && (enemyScript.currentHealth > 0
                      ==> enemyScript.velocity == old(enemyScript.velocity)
                          && enemyScript.wallUnlocks == old(enemyScript.wallUnlocks)
                          && enemyScript.destroyAt == old(enemyScript.destroyAt)
                          && enemyScript.colliders[..] == old(enemyScript.colliders[..]))
      ensures !Stomped(old(enemyScript != null && !enemyScript.isDead), isPlayer, playerBody,
                      old(if playerBody == null then 0.0 else playerBody.velocity.y))
              ==> (playerBody != null
                   ==> playerBody.velocity == old(playerBody.velocity)
                       && playerBody.impulses == old(playerBody.impulses))
                  && (enemyScript != null
                      ==> enemyScript.currentHealth == old(enemyScript.currentHealth)
                          && enemyScript.isDead == old(enemyScript.isDead)
                          && enemyScript.velocity == old(enemyScript.velocity)
                          && enemyScript.wallUnlocks == old(enemyScript.wallUnlocks)
                          && enemyScript.destroyAt == old(enemyScript.destroyAt)
                          && enemyScript.colliders[..] == old(enemyScript.colliders[..]))
    {
      if enemyScript == null {
        return;
      }
      if enemyScript.isDead {
        return;
      }
      if isPlayer {
        if playerBody != null && playerBody.velocity.y < 0.0 {
          playerBody.velocity := Vec2(playerBody.velocity.x, 0.0);
          playerBody.impulses := playerBody.impulses + [Vec2(0.0, enemyScript.cfg.bounceForce)];
          enemyScript.TakeDamage(stompDamage, now);
        }
      }
    }
  }

  /** The stomp lands: a living orc, a player-tagged collider with a rigid
      body, and that body falling. Unlike the orc's own stomp, no cooldown. */
  predicate Stomped(orcAlive: bool, isPlayer: bool, playerBody: Body?, vy: real)
  {
    orcAlive && isPlayer && playerBody != null && vy < 0.0
  }
}
