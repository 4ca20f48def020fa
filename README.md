# Gameplay state of a 2D platformer, in Dafny

This project models the gameplay logic of a Unity 2D platformer. It covers:

- the persistent game manager: lives, coins, the current level, the saved checkpoint, the global pause and the level scene names;
- the player's health and invulnerability window, jumping, movement and sprite facing;
- the three orc enemies (red, green and the patrolling mage) and the mage's separate head-stomp trigger;
- the boss-rush sequencer;
- the ground, jumping and vertical patrollers;
- the moving platform and the rotating-blade mover;
- the shooting enemy with its projectile pool, the pooled projectiles, the arrow trap, both fire traps and the mage's one-shot hitbox.

Each component is a Dafny `class` whose fields are the fields the game updates in place, and each callback is a `method`. The engine side is cut away:

- **Engine queries** are method parameters: raycasts, overlaps, distances, the player's offset, the random attack roll, the current time, the engine's MoveTowards step and vector normalisation.
- **Requests to the engine** are recorded in fields: impulses, scene loads, destruction times, wall unlocks and animator triggers.
- **Coroutines** are an explicit phase with a deadline. A `...Tick(now)` method resumes them.

The game manager's counters and the player's health bookkeeping are also written as pure transition functions (`Progression.Advanced`, `Player.Hit`, …). The methods are proved equal to these functions, and the lemmas state the properties of the functions.

One `Orcs.Orc` class covers the three orc controllers; its `cfg.kind` selects where they differ. The green orc always probes for walls to its right: its flip mirrors the scale, and `transform.right` never turns. The melee orcs hold an attack for one cooldown. The mage orc is locked and unlocked by animation events and hits over an area.

Three behaviours of the code are easy to miss, and the model keeps them:

- `CollectCoin` turns coins into a life at most once per call, even for a pickup worth several lives: the conversion at Assets/Scripts/GameManager.cs:199-204 is a single `if`, not a loop.
- A lethal hit on the player reloads the active scene. It never reports to the game manager, so no life is lost.
- No orc controller implements the death-query interface, so the boss rush wins as soon as the last interval has passed. It does not wait for the last orc's death. The model keeps a per-prefab flag for the case where the interface is present.

## Model

| member | source | states |
|---|---|---|
| Engine.Sign | Assets/Scripts/RedOrc.cs:176 | the engine's sign is ±1, never 0, and agrees in sign with its argument (zero counts as positive) |
| Engine.Truncate | Assets/Scripts/EnemyProjectile.cs:63 | the float-to-int cast truncates toward zero: the result lies within one unit of the argument, on the zero side |
| Engine.Rotated180 | Assets/Scripts/EnemyPatrol.cs:127 | adding 180° to a Y angle in [0,360) yields the angle half a turn away, again in [0,360) |
| Engine.Rotated180Twice | Assets/Scripts/PatrolJumpEnemy.cs:187 | two half turns restore the original angle |
| Engine.OtherWaypoint | Assets/Scripts/EnemyPatrolVertical.cs:130-137 | the waypoint toggle always yields one of the two waypoints |
| Engine.OtherWaypointAlternates | Assets/Scripts/MovingPlatform.cs:76-83 | with distinct waypoints, the toggle always changes the target and returns to it after two toggles |
| Engine.ToggleFollowsLegs | Assets/Scripts/EnemyPatrolVertical.cs:129-137 | toggling after each leg follows the alternation far, home, far, …, even when the two waypoints coincide |
| Engine.Decimal | Assets/Scripts/BossRushManager.cs:106 | a number prints as at least one decimal digit, with one digit exactly below 10 and no leading zero otherwise |
| Engine.DecimalRoundTrip | Assets/Scripts/BossRushManager.cs:106 | reading back the printed digits gives the number again |
| Engine.DecimalInjective | Assets/Scripts/BossRushManager.cs:106 | different numbers print differently |
| Player.Hit | Assets/Scripts/PlayerController.cs:90-111 | one damage call: while invulnerable nothing changes; otherwise health drops by exactly the amount, the scene-reload count grows by one iff health ends at or below 0, and otherwise the window opens until now plus its length |
| Player.Expire | Assets/Scripts/PlayerController.cs:125-133 | the end of the wait changes only the flag, which stays set exactly while the window has not run out |
| Player.HitEffect | Assets/Scripts/PlayerController.cs:90-111 | a damage call keeps the player consistent: an invulnerable player is always alive, since a lethal hit never opens the window |
| Player.ExpireKeepsConsistent | Assets/Scripts/PlayerController.cs:125-133 | the end of the window keeps the player consistent |
| Player.SecondHitInsideWindowIgnored | Assets/Scripts/PlayerController.cs:93-96 | a second hit before the window of a survived hit ends changes nothing |
| Player.HitAfterWindowLands | Assets/Scripts/PlayerController.cs:125-133 | once the window has run out, the next hit lowers health again |
| Player.HitsStep | Assets/Scripts/PlayerController.cs:90-111 | n+1 simultaneous calls act as one more call on the state the first n left |
| Player.SimultaneousHitsCountOnce | Assets/Scripts/PlayerController.cs:93-99 | any number of simultaneous hits on a player who survives the first one cost only the first one's damage |
| Player.StaysWhileInvulnerable | Assets/Scripts/PlayerController.cs:93-96 | any number of hits on an invulnerable player change nothing |
| Player.FlipAfterInput | Assets/Scripts/PlayerController.cs:138-146 | the sprite faces left after negative input and right after positive input; zero input keeps the facing |
| Player.PlayerController.constructor | Assets/Scripts/PlayerController.cs:44-58 | the player starts at full health and not invulnerable |
| Player.PlayerController.Update | Assets/Scripts/PlayerController.cs:60-71 | the vertical velocity becomes the jump force only when jump is pressed while grounded, with the horizontal velocity kept; otherwise the velocity is unchanged |
| Player.PlayerController.FixedUpdate | Assets/Scripts/PlayerController.cs:73-86 | the grounded flag follows the probe; the horizontal velocity is input × speed and the vertical velocity is kept; the facing follows FlipAfterInput |
| Player.PlayerController.HandleSpriteFlip | Assets/Scripts/PlayerController.cs:138-146 | the facing is updated as FlipAfterInput says |
| Player.PlayerController.TakeDamage | Assets/Scripts/PlayerController.cs:90-111 | the new health state is one Hit of the old one, with the player's own window length; consistency (invulnerable ⇒ alive) is kept |
| Player.PlayerController.Die | Assets/Scripts/PlayerController.cs:114-122 | death requests exactly one scene reload and touches nothing else (no lives counter) |
| Player.PlayerController.BecomeTemporarilyInvulnerable | Assets/Scripts/PlayerController.cs:125-133 | the window opens now and lasts the invulnerability time |
| Player.PlayerController.InvulnerabilityElapsed | Assets/Scripts/PlayerController.cs:125-133 | the window closes exactly when its wait has elapsed |
| Progression.TransitionsKeepCheckpointInvariant | Assets/Scripts/GameManager.cs:100-109 | every transition keeps the checkpoint at 0 or one of 3, 6, 9, and never ahead of the current level |
| Progression.AdvancesKeepCheckpoint | Assets/Scripts/GameManager.cs:100-109 | n level advances move exactly n levels on, never lower the checkpoint, and keep lives and coins |
| Progression.CheckpointIsWhereRespawnRestarts | Assets/Scripts/GameManager.cs:159-174 | finishing a checkpoint level saves it, and a later non-fatal death respawns at that very level with the clock running |
| Progression.RespawnWithoutCheckpoint | Assets/Scripts/GameManager.cs:159-174 | without a saved checkpoint a respawn restarts at level 1 |
| Progression.DeathWhilePausedIgnored | Assets/Scripts/GameManager.cs:140-146 | a death report while paused is ignored; otherwise it costs exactly one life and pauses |
| Progression.Started | Assets/Scripts/GameManager.cs:86-91 | a new game is a reset (3 lives, no coins, no checkpoint) at level 1 with the clock running, and a death there restarts the level it starts on |
| Progression.Advanced | Assets/Scripts/GameManager.cs:100-109 | the level grows by one, lives, coins and the pause are kept; after leaving a checkpoint level a respawn restarts there, otherwise the restart level is unchanged |
| Progression.Died | Assets/Scripts/GameManager.cs:140-145 | ignored while paused; otherwise exactly one life less and paused, and nothing else changes |
| Progression.RestartLevel | Assets/Scripts/GameManager.cs:167 | the restart level is at least 1, is the saved checkpoint when there is one, and (with a valid checkpoint) is level 1 or a checkpoint level |
| Progression.Respawned | Assets/Scripts/GameManager.cs:164-170 | lives, coins and the checkpoint are kept, the clock runs, and the level is the restart level |
| Progression.Reset | Assets/Scripts/GameManager.cs:215-216 | 3 lives, no coins, level 0 and no checkpoint (so a restart is from level 1); the pause is not touched |
| Progression.GameOverCompleted | Assets/Scripts/GameManager.cs:181-183 | the state after a game over is a new game's state, except at level 0 (the menu) |
| Progression.Collected | Assets/Scripts/GameManager.cs:194-205 | level, checkpoint and pause are untouched; one life is gained iff the coins reach 100 and otherwise the lives stay |
| Progression.LevelSceneName | Assets/Scripts/GameManager.cs:126 | the scene name is the prefix followed by at least two characters, exactly two for levels 0 to 99 |
| Progression.CollectCoinConservesValue | Assets/Scripts/GameManager.cs:194-207 | lives × 100 + coins grows by exactly the amount; one call grants at most one life, and grants it iff the total reaches 100; level and checkpoint are untouched |
| Progression.LargePickupGrantsOneLife | Assets/Scripts/GameManager.cs:194-207 | a pickup of 250 coins from none yields one life and leaves 150 coins |
| Progression.Format00 | Assets/Scripts/GameManager.cs:123-128 | a non-negative level prints as at least two digits, exactly two below 100; a negative one starts with a minus sign |
| Progression.Format00RoundTrip | Assets/Scripts/GameManager.cs:123-128 | the two-digit text reads back as the level number |
| Progression.LevelSceneNamesDistinct | Assets/Scripts/GameManager.cs:123-128 | different levels load differently named scenes |
| Progression.LevelSceneNameExamples | Assets/Scripts/GameManager.cs:34 | levels 1, 9 and 10 load "Level_01", "Level_09" and "Level_10" |
| Progression.GameManager.constructor | Assets/Scripts/GameManager.cs:16-24 | the manager starts with 3 lives, no coins, level 0, no checkpoint and the clock running |
| Progression.GameManager.LoadLevel | Assets/Scripts/GameManager.cs:123-128 | the scene named by the prefix and the two-digit level is requested |
| Progression.GameManager.StartGame | Assets/Scripts/GameManager.cs:86-95 | 3 lives, no coins, no checkpoint, level 1, unpaused, and the level 1 scene is requested |
| Progression.GameManager.AdvanceLevel | Assets/Scripts/GameManager.cs:100-120 | a checkpoint level being left is saved and the level grows by one; the new level's scene is requested up to level 10 and nothing is loaded past it |
| Progression.GameManager.PlayerDied | Assets/Scripts/GameManager.cs:140-157 | ignored while paused; otherwise one life less, paused, and the game-over wait (no lives left) or the respawn wait starts in unscaled time |
| Progression.GameManager.ResumeDeathSequence | Assets/Scripts/GameManager.cs:159-184 | nothing happens before the wait ends; a respawn then unpauses and loads the checkpoint (or level 1); a game over resets the stats, checkpoint and level, loads the menu and unpauses |
| Progression.GameManager.CollectCoin | Assets/Scripts/GameManager.cs:194-207 | the counters become Collected of the old ones, so the coin properties above hold for the manager |
| Progression.GameManager.ResetStats | Assets/Scripts/GameManager.cs:215 | lives back to 3 and coins to 0 |
| Progression.GameManager.ResetGame | Assets/Scripts/GameManager.cs:216 | stats reset, checkpoint and level back to 0, the pause untouched |
| Orcs.WallProbeDirection | Assets/Scripts/GreenOrc.cs:240 | the wall probe points along the facing, except the green orc's, which always points right |
| Orcs.TurnsAtEdge | Assets/Scripts/RedOrc.cs:253-271 | defines the patrol turn: both probes assigned, no ground while not rising (vertical speed below 0.1) or a wall hit in the probe direction, and no player within detection range; the two lemmas below state its consequences |
| Orcs.NoPatrolTurnWhileChasing | Assets/Scripts/RedOrc.cs:253-271 | an orc with the player inside its detection range never turns at an edge or a wall |
| Orcs.GreenOrcProbesRightOnly | Assets/Scripts/GreenOrc.cs:235-249 | facing left, a red or mage orc turns at a wall on its left, while a green orc ignores it and turns at a wall on its right |
| Orcs.ChooseAttack | Assets/Scripts/RedOrc.cs:183-185 | the run attack is chosen iff a melee orc moves faster than its walk speed by more than 0.1; otherwise the roll picks one of the three triggers |
| Orcs.ChaseSpeed | Assets/Scripts/RedOrc.cs:176-178 | the chase speed points toward the player and has magnitude walk speed × multiplier |
| Orcs.CooldownElapsed | Assets/Scripts/RedOrc.cs:181 | defines the attack cooldown test: strictly more than the cooldown has passed since the last attack |
| Orcs.StompImpulses | Assets/Scripts/RedOrc.cs:387-390 | a stomp gives the player exactly two impulses: up by the bounce force, then sideways with the side force's magnitude, away from the orc toward the player's side |
| Orcs.Orc.constructor | Assets/Scripts/RedOrc.cs:119-156 | an orc starts alive at full health, facing right, stompable, not attacking, with every collider on and the jump cycle waiting its start-up delay |
| Orcs.Orc.CheckAttackRange | Assets/Scripts/RedOrc.cs:323-330 | true iff a player layer and an attack point are configured and the ray cast in the facing direction hits the player |
| Orcs.Orc.UpdatedAlive | Assets/Scripts/RedOrc.cs:158-205 | the specification of a living orc's frame that Update is proved against: ground flag, facing, attack start and bookkeeping, and velocity, each as a function of the state before the frame and the probes |
| Orcs.Orc.Update | Assets/Scripts/RedOrc.cs:158-205 | a dead orc only stops; without a player nothing changes; otherwise the ground flag, facing, attack start, attack bookkeeping and velocity are as UpdatedAlive describes (patrol turn only out of range, attack only when chasing with the strict cooldown passed and the range ray hitting, zero speed while attacking, vertical velocity kept) |
| Orcs.Orc.Pursue | Assets/Scripts/RedOrc.cs:168-193 | chasing, the orc faces the player unless attacking, moves at the chase speed, and an attack starts exactly when the cooldown, range and guard allow; patrolling, it walks at its speed in the facing direction |
| Orcs.Orc.Move | Assets/Scripts/RedOrc.cs:195-202 | the horizontal velocity is zero while attacking and the frame's speed otherwise; the vertical velocity is kept |
| Orcs.Orc.CheckGroundAndTurn | Assets/Scripts/RedOrc.cs:253-271 | with probes, the ground flag follows the probe and the orc turns exactly when TurnsAtEdge holds |
| Orcs.Orc.FlipCheck | Assets/Scripts/RedOrc.cs:273-279 | the orc faces the target direction unless attacking or the direction is zero |
| Orcs.Orc.Flip | Assets/Scripts/RedOrc.cs:281-285 | the facing toggles |
| Orcs.Orc.AttemptAttack | Assets/Scripts/RedOrc.cs:332-338 | nothing happens while an attack is under way; otherwise the trigger is sent, and a melee orc holds the attack for one cooldown from now while the mage orc only sends the trigger |
| Orcs.Orc.AttackHoldElapsed | Assets/Scripts/RedOrc.cs:340-349 | a melee orc's attack flag clears exactly once one cooldown has passed since the attack began |
| Orcs.Orc.LockMovement | Assets/Scripts/PatrolMargeOrc.cs:205-209 | the mage orc is attacking and fully stopped |
| Orcs.Orc.UnlockMovement | Assets/Scripts/PatrolMargeOrc.cs:214-218 | the mage orc stops attacking and its cooldown counts from now |
| Orcs.Orc.ExecuteAttackRay | Assets/Scripts/RedOrc.cs:215-245 | with an attack point, a ray hit on the player deals exactly the attack damage through the player's damage call, leaving the player's facing and grounded flag alone; otherwise the player is untouched |
| Orcs.Orc.ExecuteAttackArea | Assets/Scripts/PatrolMargeOrc.cs:223-241 | the player receives one damage call per player collider in the circle, so the effect is that many simultaneous Hits and the player's facing and grounded flag are left alone; without an attack point none |
| Orcs.Orc.TakeDamage | Assets/Scripts/RedOrc.cs:351-358 | ignored once dead; otherwise health drops by exactly the damage and the orc dies iff health ≤ 0, with every death effect of KilledAt |
| Orcs.Orc.Die | Assets/Scripts/RedOrc.cs:409-437 | a second death does nothing; the first sets dead, stops the orc, switches off every collider, unlocks the wall once when assigned and requests destruction half a second later |
| Orcs.Orc.OnTriggerEnter2D | Assets/Scripts/RedOrc.cs:377-393 | a falling player lands on a living, stompable orc: the stomp cooldown starts, the orc takes exactly the stomp damage, and the player loses vertical speed and is bounced up and to the side without being reparented; a killing stomp has every effect of KilledAt, a surviving orc keeps its velocity, colliders, wall unlocks and destruction time; otherwise the orc's cooldown, health, death flag, velocity, colliders, wall unlocks and destruction time and the player's body are unchanged |
| Orcs.Orc.Stomp | Assets/Scripts/RedOrc.cs:385-390 | the stomp cooldown starts before the damage, the orc takes exactly the stomp damage (dying iff health ≤ 0, with every effect of KilledAt; a surviving orc keeps its velocity, colliders, wall unlocks and destruction time), and the player loses its vertical speed, keeps its parent and receives the two stomp impulses |
| Orcs.Orc.StompCooldownElapsed | Assets/Scripts/RedOrc.cs:370-375 | the orc becomes stompable again once its cooldown has run |
| Orcs.Orc.OnCollisionEnter2D | Assets/Scripts/RedOrc.cs:395-407 | contact with the player deals the attack damage unless the orc is dead or attacking, never touching the player's facing or grounded flag |
| Orcs.Orc.JumpCycleTick | Assets/Scripts/RedOrc.cs:287-296 | nothing happens before the wait ends; at an interval's end the orc jumps iff grounded and not attacking, a jump switching an enabled first collider off until the disable time has passed; no other step touches the colliders; the loop continues while alive and ends once dead |
| Orcs.Orc.ExecuteJump | Assets/Scripts/RedOrc.cs:298-308 | vertical speed cleared, one upward impulse, and the own collider switched off with its return scheduled |
| Orcs.Orc.ReactivateColliderTick | Assets/Scripts/GreenOrc.cs:288-292 | when due, the collider comes back unless the orc has died meanwhile |
| HeadStomp.EnemyHeadStomp.OnTriggerEnter2D | Assets/Scripts/EnemyHeadStomp.cs:12-32 | only a falling player on an assigned, living mage orc is stomped: its vertical speed is cleared, it is bounced by the orc's bounce force, and the orc takes exactly the stomp damage with no cooldown check, dying with every effect of KilledAt when its health reaches 0 and otherwise keeping its velocity, colliders, wall unlocks and destruction time; without a stomp the body and the orc are unchanged; the orc's other fields and the body's parent are never touched |
| BossRush.InstanceName | Assets/Scripts/BossRushManager.cs:106 | an instance name starts with its prefab's name and ends with a closing parenthesis |
| BossRush.InstanceNamesDistinct | Assets/Scripts/BossRushManager.cs:106 | instances spawned at different positions get different names "<prefab> (Rush k)" |
| BossRush.BossRushManager.Start | Assets/Scripts/BossRushManager.cs:41-56 | without a spawn point or with fewer than 3 prefabs nothing ever spawns; otherwise the first prefab spawns at once |
| BossRush.BossRushManager.SpawnNextOrc | Assets/Scripts/BossRushManager.cs:95-119 | the next prefab in list order is spawned and named after its position, and the settle wait starts |
| BossRush.BossRushManager.Tick | Assets/Scripts/BossRushManager.cs:60-89 | spawns follow list order, each followed by the settle time and the interval whatever the earlier orcs do; the last interval's end waits for the last orc's death when one is awaited, leaving the game untouched; the rush is won when the last interval ends with no death query, or when the awaited last orc dies; winning advances the game once, requests the next level's scene while one remains, and unlocks the wall; no other tick loads a scene or starts a death sequence; the message wait ends in a pause |
| BossRush.BossRushManager.HandleVictory | Assets/Scripts/BossRushManager.cs:121-131 | the game advances one level and requests the new level's scene up to level 10 (none past it), no death sequence starts, the wall is unlocked once when assigned, and the message wait starts |
| BossRush.BossRushManager.DisplayWinMessage | Assets/Scripts/BossRushManager.cs:133-144 | the victory text is shown when assigned and the clock stops |
| GroundPatrol.FacesRightAtStart | Assets/Scripts/EnemyPatrol.cs:47-50 | defines the starting facing: left exactly when the Y angle lies strictly between 90 and 270 |
| GroundPatrol.WalkAlongFacingIsFixed | Assets/Scripts/EnemyPatrol.cs:47-50 | the speed measured along the facing never changes over turns, so a patroller that starts facing left with a positive speed walks backwards |
| GroundPatrol.EnemyPatrol.constructor | Assets/Scripts/EnemyPatrol.cs:47-50 | the patroller faces left iff its Y angle lies strictly between 90 and 270, without changing the sign of its speed |
| GroundPatrol.EnemyPatrol.TurnsHere | Assets/Scripts/EnemyPatrol.cs:73-99 | defines the turn condition: both probes assigned, and the ground probe misses or a wall probe longer than 0.01 hits |
| GroundPatrol.EnemyPatrol.Update | Assets/Scripts/EnemyPatrol.cs:53-70 | the horizontal velocity is the signed speed with the vertical velocity kept, unless the frame turns, in which case the turn's effects of Flip hold |
| GroundPatrol.EnemyPatrol.CheckForTurnConditions | Assets/Scripts/EnemyPatrol.cs:73-108 | with both probes, the patroller turns iff the ground probe misses or (with a wall probe longer than 0.01) the wall probe hits; otherwise nothing changes |
| GroundPatrol.EnemyPatrol.Flip | Assets/Scripts/EnemyPatrol.cs:113-135 | speed negated, facing toggled, half a turn about Y, a 0.05 push back against this frame's direction and the horizontal velocity zeroed; the speed stays tied to the facing |
| GroundPatrol.EnemyPatrol.OnTriggerEnter2D | Assets/Scripts/EnemyPatrol.cs:141-157 | a falling player is bounced (keeping its parent) and the patroller dies, each time (no health, no cooldown, no death guard) |
| GroundPatrol.EnemyPatrol.OnCollisionEnter2D | Assets/Scripts/EnemyPatrol.cs:159-172 | contact with the player deals exactly the attack damage, leaving the player's facing and grounded flag alone |
| GroundPatrol.EnemyPatrol.Die | Assets/Scripts/EnemyPatrol.cs:193-210 | horizontal motion stops, the collider is switched off and destruction is requested half a second later |
| JumpPatrol.FacesRightAtStart | Assets/Scripts/PatrolJumpEnemy.cs:77-80 | defines the starting facing: left exactly when the Y angle is within 1° of 180 |
| JumpPatrol.PatrolJumpEnemy.constructor | Assets/Scripts/PatrolJumpEnemy.cs:74-94 | the enemy faces left iff its Y angle is within 1° of 180; its jump cycle waits its start-up delay |
| JumpPatrol.PatrolJumpEnemy.EdgeTurn | Assets/Scripts/PatrolJumpEnemy.cs:145-175 | defines the edge turn: both probes assigned, and the ground probe misses or a wall probe longer than 0.01 hits |
| JumpPatrol.PatrolJumpEnemy.Update | Assets/Scripts/PatrolJumpEnemy.cs:96-124 | the edge turn happens even while chasing; chasing, the enemy ends facing the player and moves at speed × multiplier × sign(dx); patrolling, it moves at its speed in the direction taken before this frame's turn; position and angle reflect every turn made |
| JumpPatrol.PatrolJumpEnemy.CalculateChaseSpeed | Assets/Scripts/PatrolJumpEnemy.cs:130-143 | the speed is speed × multiplier × sign(dx), and the enemy turns to face the player if it did not already |
| JumpPatrol.PatrolJumpEnemy.CheckGroundAndTurn | Assets/Scripts/PatrolJumpEnemy.cs:145-175 | the ground flag follows the probe and the enemy turns exactly at an edge or a wall |
| JumpPatrol.PatrolJumpEnemy.Flip | Assets/Scripts/PatrolJumpEnemy.cs:177-191 | facing toggled, horizontal velocity zeroed, pushed 0.05 against the old direction and turned half a turn; the speed is not negated |
| JumpPatrol.PatrolJumpEnemy.JumpCycleTick | Assets/Scripts/PatrolJumpEnemy.cs:197-211 | the loop never ends; at each interval's end the enemy jumps iff grounded, a jump switching an enabled collider off until the disable time has passed; no other step touches the collider |
| JumpPatrol.PatrolJumpEnemy.ExecuteJump | Assets/Scripts/PatrolJumpEnemy.cs:214-235 | vertical speed cleared, one upward impulse, and the collider switched off with its return scheduled |
| JumpPatrol.PatrolJumpEnemy.ReactivateColliderTick | Assets/Scripts/PatrolJumpEnemy.cs:237-245 | when due, the collider comes back, even after death |
| JumpPatrol.PatrolJumpEnemy.OnTriggerEnter2D | Assets/Scripts/PatrolJumpEnemy.cs:262-276 | a falling player is bounced (keeping its parent) and the enemy dies |
| JumpPatrol.PatrolJumpEnemy.OnCollisionEnter2D | Assets/Scripts/PatrolJumpEnemy.cs:278-292 | contact with the player deals exactly the attack damage, leaving the player's facing and grounded flag alone |
| JumpPatrol.PatrolJumpEnemy.Die | Assets/Scripts/PatrolJumpEnemy.cs:294-310 | horizontal motion stops, the collider is switched off and destruction is requested |
| VerticalPatrol.VerticalPatrolEnemy.constructor | Assets/Scripts/EnemyPatrolVertical.cs:46-69 | the bottom point is the start moved down by the patrol distance with x and z kept, and the first target is the bottom point; the sprite keeps the flip it was given in the scene |
| VerticalPatrol.VerticalPatrolEnemy.MoveStep | Assets/Scripts/EnemyPatrolVertical.cs:141-159 | the enemy steps toward the target, and within 0.01 of it snaps exactly onto it, screams and starts its pause |
| VerticalPatrol.VerticalPatrolEnemy.PatrolTick | Assets/Scripts/EnemyPatrolVertical.cs:101-139 | after a pause the target swaps to the other waypoint, so it stays top or bottom and alternates (kept as an invariant); during a pause nothing moves |
| VerticalPatrol.VerticalPatrolEnemy.FlipTowardsPlayer | Assets/Scripts/EnemyPatrolVertical.cs:80-96 | the sprite faces right if the player is more than 0.01 to the right and left if more than 0.01 to the left; otherwise, or without references, unchanged |
| VerticalPatrol.VerticalPatrolEnemy.OnCollisionEnter2D | Assets/Scripts/EnemyPatrolVertical.cs:164-177 | contact with the player deals exactly the attack damage, leaving the player's facing and grounded flag alone |
| Platforms.EndPoint | Assets/Scripts/MovingPlatform.cs:36-51 | the end point moves x by the X distance iff the type is horizontal or diagonal, y by the Y distance iff vertical or diagonal, and keeps z |
| Platforms.EndPointSeparated | Assets/Scripts/MovingPlatform.cs:36-51 | the end point equals the start iff every distance the type uses is zero |
| Platforms.MovingPlatform.constructor | Assets/Scripts/MovingPlatform.cs:34-54 | the platform starts at its start point heading for the end point, with no detach scheduled |
| Platforms.MovingPlatform.MoveStep | Assets/Scripts/MovingPlatform.cs:87-99 | the platform steps toward the target, and within 0.01 snaps exactly onto it and starts its pause |
| Platforms.MovingPlatform.MovementTick | Assets/Scripts/MovingPlatform.cs:69-85 | after a pause the target swaps, so it stays the start or the end point and alternates (kept as an invariant) |
| Platforms.MovingPlatform.LateUpdate | Assets/Scripts/MovingPlatform.cs:56-66 | a scheduled player is unparented with its velocity and impulses unchanged, and both detach fields are cleared |
| Platforms.MovingPlatform.OnCollisionEnter2D | Assets/Scripts/MovingPlatform.cs:106-116 | a player landing is parented to the platform and any scheduled detach is cancelled; anything else changes nothing |
| Platforms.MovingPlatform.OnCollisionExit2D | Assets/Scripts/MovingPlatform.cs:119-127 | a player leaving only schedules its detach |
| Projectiles.EnemyProjectile.constructor | Assets/Scripts/EnemyProjectile.cs:6-16 | a projectile starts inactive with its lifetime at zero |
| Projectiles.EnemyProjectile.ActivateProjectile | Assets/Scripts/EnemyProjectile.cs:18-33 | activation resets the lifetime and activates; with a body the velocity is the direction × speed, without one the right axis becomes the normalised direction |
| Projectiles.EnemyProjectile.Update | Assets/Scripts/EnemyProjectile.cs:35-48 | the lifetime grows by the frame time, and the projectile stays active iff it has not exceeded the reset time strictly; without a body it moves along its right axis |
| Projectiles.EnemyProjectile.OnTriggerEnter2D | Assets/Scripts/EnemyProjectile.cs:52-68 | a player hit deals the truncated damage, leaving the player's facing and grounded flag alone, and the hit never deactivates the projectile |
| Projectiles.FractionalDamageOnlyOpensWindow | Assets/Scripts/EnemyProjectile.cs:63 | a damage below 1 truncates to 0: the player loses no health, yet the invulnerability window opens |
| Shooter.LaunchPoint | Assets/Scripts/ShootingEnemy.cs:133-147 | the launch point is at the enemy's height and depth, the offset away horizontally, and (for a positive offset) on the left exactly when the sprite is flipped |
| Shooter.LaunchPointsMirror | Assets/Scripts/ShootingEnemy.cs:133-147 | the two launch points mirror each other about the enemy's x, 2 × offset apart, at the enemy's height |
| Shooter.FirstInactive | Assets/Scripts/ShootingEnemy.cs:166-176 | the search result is -1 or an index into the pool |
| Shooter.ShootingEnemy.constructor | Assets/Scripts/ShootingEnemy.cs:60-66 | the attack cycle starts only when the player was found |
| Shooter.ShootingEnemy.FindProjectileIndex | Assets/Scripts/ShootingEnemy.cs:166-176 | the result is the lowest index of a projectile back in the pool, and -1 iff every projectile is in flight |
| Shooter.ShootingEnemy.Shoot | Assets/Scripts/ShootingEnemy.cs:116-163 | with a fire point and a free projectile, exactly the first free one is placed at the launch point and activated toward the player (the normalised offset, normalised again as a right axis); every other projectile, and every projectile when none is free, is untouched |
| Shooter.ShootingEnemy.AttackTick | Assets/Scripts/ShootingEnemy.cs:71-104 | the cycle is one frame, the initial delay, then repeatedly a trigger, 0.5·p, a shot, 0.5·(1−p) and the cooldown; no wait ends early; the shot launches exactly the first free projectile from the launch point toward the player, as Shoot does, and no other step moves a projectile |
| Shooter.ShootingEnemy.StartAttack | Assets/Scripts/ShootingEnemy.cs:82-92 | the attack animation is triggered (when there is an animator) and the wind-up wait of 0.5·p starts |
| Arrows.ArrowTrap.FindArrow | Assets/Scripts/ArrowTrap.cs:31-40 | the result is the lowest index of an arrow back in the pool, every lower arrow being in flight; 0 when all are in flight; in range for a non-empty pool |
| Arrows.ArrowTrap.Update | Assets/Scripts/ArrowTrap.cs:42-49 | the timer accumulates the frame time; when it reaches the cooldown with a fire point assigned the trap attacks: the timer resets, the arrow FindArrow picks (the first inactive one, or 0) is launched and every other arrow is untouched, and an empty pool makes the attack fail; otherwise no arrow changes |
| Arrows.ArrowTrap.Attack | Assets/Scripts/ArrowTrap.cs:10-29 | the timer resets; the arrow FindArrow picks (the first inactive one, or 0) is placed at the fire point and launched along its right axis, the others untouched; an empty pool makes the attack fail after the reset |
| FireTraps.Firetrap.OnTriggerEnter2D | Assets/Scripts/FireTrap.cs:25-39 | a player entry arms an idle trap and never restarts a running cycle; damage (the truncated amount) hits only an entry made while the trap burns, so the arming entry never hurts; the player's facing and grounded flag are never touched |
| FireTraps.Firetrap.FireTick | Assets/Scripts/FireTrap.cs:41-58 | the phases run armed, then burning after the activation delay, then idle after the active time; active implies triggered throughout |
| CyclicFireTraps.ClampActiveTime | Assets/Scripts/Firetrap_Cyclic.cs:53-56 | the active time is raised to at least 0.2 and otherwise kept |
| CyclicFireTraps.FiretrapCyclic.constructor | Assets/Scripts/Firetrap_Cyclic.cs:21-35 | the clamped active time is used and the first cycle starts inactive, whether or not a player is near |
| CyclicFireTraps.FiretrapCyclic.CycleTick | Assets/Scripts/Firetrap_Cyclic.cs:50-91 | each cycle rests for the activation delay, ignites for 0.4 s still inactive, then burns for the active time − 0.4; active exactly while burning |
| CyclicFireTraps.FiretrapCyclic.OnTriggerStay2D | Assets/Scripts/Firetrap_Cyclic.cs:38-48 | the player takes the damage on every stay callback while the trap burns, and never otherwise; the player's facing and grounded flag are never touched |
| MagicHitboxes.MagicHitbox.constructor | Assets/Scripts/MagicHitBox.cs:10-17 | the hitbox starts enabled and its destruction is set for its duration later |
| MagicHitboxes.MagicHitbox.OnTriggerEnter2D | Assets/Scripts/MagicHitBox.cs:20-39 | a player with a controller takes exactly the damage (facing and grounded flag untouched) and the collider switches off, so it hits at most once; anything else leaves it enabled and the player untouched |
| Blades.RootMovement.constructor | Assets/Scripts/RotatingBlades.cs:20-24 | the mover starts moving right, facing right, and remembers its height |
| Blades.RootMovement.RayDirection | Assets/Scripts/RotatingBlades.cs:37 | the probe points along the facing, the same way as the movement direction |
| Blades.RootMovement.Update | Assets/Scripts/RotatingBlades.cs:26-52 | the mover advances along its direction at its own height; it reverses exactly when the probe hits; direction ±1 and facing stay tied |
| Blades.RootMovement.FlipDirection | Assets/Scripts/RotatingBlades.cs:54-63 | direction and facing both flip and stay tied, with a 0.02 push in the new direction |

## Left out

- The physics engine is not modelled. Raycasts, overlaps, distances, arrivals and MoveTowards steps are supplied as method parameters, and impulses are recorded requests.
- Animator triggers and booleans are not modelled, except where they mark a phase (the fire traps, the shooting enemy's trigger, the vertical patroller's scream). Sprite colours and flashes, gizmos, logs and audio are not modelled.
- Scene loading and destruction are recorded as requests (a scene name or a destruction time). What the engine then does with them is not modelled.
- Coroutine scheduling is represented by a phase and a deadline. The model does not capture that several coroutines of one object interleave within a single frame.
- Floats are modelled as mathematical reals. Unity's approximate `Vector3 ==` is modelled as exact equality. Rounding in MoveTowards and vector normalisation is not modelled; both are supplied as parameters.
- Random attack choice: the roll is a parameter below the trigger count.
- Orcs.Orc.Update: the animator speed parameter and Red's error log are not modelled.
- The model assumes every pooled projectile and arrow carries the projectile script, so the `?.` on a missing script is not modelled. A null pool is treated as an empty one.
- MagicHitboxes.MagicHitbox.OnTriggerEnter2D requires the collider to be enabled. The engine sends no trigger callbacks to a disabled collider.
- GroundPatrol.EnemyPatrol and JumpPatrol.PatrolJumpEnemy: the callbacks are modelled as if they could still arrive after the collider is switched off. The engine would no longer deliver them.
- The singleton and DontDestroyOnLoad mechanics of the game manager are not modelled. The manager is passed explicitly.
- Assets/Scripts/CamaraFollow.cs is not part of this model; it is camera smoothing only.
- Assets/Scripts/MusicManager.cs is not part of this model; it only switches audio clips.
- Assets/Scripts/MainMenu.cs and Assets/Scripts/UIManager.cs are not part of this model; they only toggle panels and format text.
- Assets/Scripts/LevelEndFlag.cs and Assets/Scripts/ParedBloqueante.cs are not part of this model. They make single scene-load or destroy calls; the wall's unlock is counted at its callers.
- Assets/Scripts/Coin.cs and Assets/Scripts/EnemyDamage.cs are not part of this model. They forward to CollectCoin and TakeDamage, whose logic is modelled.
- Assets/Scripts/IEnemy.cs appears only as the boss rush's per-prefab death-query flag.
- Assets/Scripts/Falling Platform.cs is not part of this model.
