# Alien Revenge: the verified simulation core

A Dafny model of the simulation inside the browser arcade shooter Alien Revenge. Given
the frame time `deltaTime`, the keys held, the `Math.random` stream and the maths
functions as inputs, each frame is a deterministic update of the game state. The model
covers the following parts.

- **The director of `src/game.js`.** One PLAYING tick of `gameLoop` runs the player, the enemy
  bullets and the explosions, then recomputes the shared `activeDiveInProgress` flag. It updates
  every alien and drains its bullet queue, filters out marked aliens, then runs
  `checkCollisions` in its three phases and the mothership timer. Around the tick sit
  `handlePlayerHit`, `endGame`, `updateScore`, `spawnAliens` (the 32-alien formations),
  `nextRound` with its banner callbacks, `initGame` and `togglePause`.
  - Module `Worlds` holds the state. Modules `Collisions`, `Swarms`, `Formations` and `Game`
    give each operation as a function and prove its properties.
  - Module `Director` is the `World` class, updated in place. Each method is proved
    equal to the function for it.
- **The older director of `alien_revenge/game.js`.** It has no lives, explosions or mothership,
  any hit ends the game, and it uses a 3 × 5 grid. Module `Revenge` holds its functions
  and proofs, and module `RevengeDirector` its `RevengeWorld` class.
- **The player ships.** The respawn → reappear → active state machine, the shot
  cooldown and the shield timers of `src/Player.js` and `Player.js` are one `Player`
  class parameterised by its globals (module `Players`). The simpler
  `phoenix_game/Player.js` is the `PhoenixPlayer` class (module `PhoenixPlayers`).
- **The alien AI of `src/Alien.js`** (module `Aliens`). It covers the HOVER → DIVE → RETURN → HOVER
  cycle, the one-diver claim and the gated random shot.
- **The simple movers.** These are `alien_revenge/Bullet.js` (module `Bullets`), the two mothership variants
  (module `Motherships`), `FloatingText.js` (module `FloatingTexts`) and the particle explosion of
  `src/Explosion.js` (module `Explosions`).
  - Each mover is a value with a step function and a class whose
    `update` is proved to perform that step.
- **`remove_background.py`** (module `Background`). A corner-seeded, 4-connected
  breadth-first flood fill with a colour tolerance, run over a pixel array
  (`array2<Rgba>`) and followed by the in-place apply loop. Its result is proved
  equal to an order-free reference. `Reach` is what a walk from a seed reaches
  around the pixels already visited. `Fill` folds it over the corners in order,
  skipping a corner already reached. `Marked` is the set of pixels to clear.

Shared inputs are modelled as follows:
- `Math.random` is a stream `nat -> real` in `[0, 1)`, with a cursor counting the draws.
- `Math.sin`, `Math.cos` and `Math.sqrt` are a parameter (`Trig`). Where a property
  needs the true square root it assumes `ExactRoot`.
- Constants come from `src/globals.js`, `globals.js` and `alien_revenge/globals.js`
  (module `Globals`).

## Model

| member | source | states |
|---|---|---|
| Bullets.NewBulletValid | alien_revenge/Bullet.js:2-10 | a new bullet has radius 5, direction up or down, and a positive speed (ALIEN_BULLET_SPEED for enemy bullets, BULLET_SPEED otherwise) |
| Bullets.BulletStepEffect | alien_revenge/Bullet.js:12-16 | an update changes only y and the mark; y moves by speed·direction·dt/16.66; the bullet is marked iff it was marked or the new y is off screen (y < 0 or y > GAME_HEIGHT) |
| Bullets.DisplacementScales | alien_revenge/Bullet.js:13-14 | the move is linear in the frame time: c·dt moves c times as far |
| Bullets.DisplacementSign | alien_revenge/Bullet.js:14 | for a non-negative frame time, an upward bullet never moves down and a downward one never moves up |
| Bullets.BulletTwoFrames | alien_revenge/Bullet.js:12-16 | for an on-screen bullet, two updates of dt1 and dt2 equal one update of dt1 + dt2 |
| Bullets.AdvanceBulletsLive | src/game.js:344-347 | after forEach(update) and the filter, no remaining bullet is marked, and each one is the update of a bullet from before |
| Bullets.Bullet.constructor | alien_revenge/Bullet.js:2-10 | fields as the constructor sets them: radius 5, unmarked, speed chosen by isEnemy |
| Bullets.Bullet.Update | alien_revenge/Bullet.js:12-16 | the in-place update is BulletStep: x kept, y moved by the displacement, a mark never undone |
| Motherships.NewMothershipShape | Mothership.js:2-10 | a new mothership is 128×64 at (GAME_WIDTH, 38), unmarked, with speed MOTHERSHIP_SPEED + round |
| Motherships.MothershipStepEffect | Mothership.js:12-23 | an update moves x left by speed·dt/16.66, keeps y, size and speed, and marks the ship iff it was marked or x + width < 0 |
| Motherships.MothershipDisplacementScales | Mothership.js:14-17 | the move is proportional to the frame time |
| Motherships.MothershipTwoFrames | Mothership.js:12-23 | two updates equal one update of the summed frame time |
| Motherships.NewRevengeMothershipShape | alien_revenge/Mothership.js:2-10 | a new mothership is 128×64 at (GAME_WIDTH, 60), unmarked, with speed MOTHERSHIP_SPEED·(1 + 0.1·(round − 1)) |
| Motherships.RevengeMothershipIgnoresTime | alien_revenge/Mothership.js:12-20 | the update ignores the frame time: x drops by exactly speed per call, y is kept, and a mark is never undone |
| Motherships.Mothership.constructor | Mothership.js:2-10 | the object's fields are those of NewMothership(round) |
| Motherships.Mothership.Update | Mothership.js:12-23 | the in-place update is MothershipStep |
| Motherships.RevengeMothership.constructor | alien_revenge/Mothership.js:2-10 | the object's fields are those of NewRevengeMothership |
| Motherships.RevengeMothership.Update | alien_revenge/Mothership.js:12-20 | the in-place update is RevengeMothershipStep |
| FloatingTexts.NewFloatingTextShape | FloatingText.js:2-10 | a new text has life 1.5, decay 0.015, speedY 1.5, and is unmarked at its position |
| FloatingTexts.FloatingTextStepEffect | FloatingText.js:12-19 | an update keeps x and the text; y drops by 1.5·timeScale and life by 0.015·timeScale; the text is marked iff it was marked or life ≤ 0 |
| FloatingTexts.FloatingTextScales | FloatingText.js:13-15 | rise and fade are both proportional to the frame time |
| FloatingTexts.FloatingTextTwoFrames | FloatingText.js:12-19 | two updates equal one update of the summed frame time |
| FloatingTexts.FloatingText.constructor | FloatingText.js:2-10 | the object's fields are those of NewFloatingText |
| FloatingTexts.FloatingText.Update | FloatingText.js:12-19 | the in-place update is FloatingTextStep, and a mark is never undone |
| Explosions.NewExplosionShape | src/Explosion.js:2-21 | exactly 20 particles at the local origin, each with life 1.0 and decay in [0.02, 0.07); unmarked |
| Explosions.ExplosionStepEffect | src/Explosion.js:23-37 | the surviving particles are exactly the old ones moved by their velocity with life lowered by their decay whose life stays > 0: every stepped particle with life > 0 is kept and every kept one is such a stepped particle; the list never grows; the explosion is marked iff it was marked or no particle is left |
| Explosions.FadesOneStep | src/Explosion.js:25-32 | one update lowers every particle's life bound by at least 0.02 |
| Explosions.FadesAfter | src/Explosion.js:25-36 | after n updates every particle left has life ≤ 1 − 0.02·n |
| Explosions.ExplosionEndsWithin50 | src/Explosion.js:18-36 | an explosion whose decays are all ≥ 0.02 is marked after any n ≥ 50 updates |
| Explosions.NewExplosionFades | src/Explosion.js:10-19 | a new explosion meets the premise of ExplosionEndsWithin50 |
| Explosions.Explosion.constructor | src/Explosion.js:2-21 | the particle-building loop yields exactly NewExplosion, with four random draws per particle in source order |
| Explosions.Explosion.Update | src/Explosion.js:23-37 | the in-place update is ExplosionStep |
| Players.NewPlayerReady | src/Player.js:2-17 | a new ship is visible at the spawn point, shield down, both shield timers 0, shot timer 1000, no bullets |
| Players.RespawnWaitFreezes | src/Player.js:20-30 | while the respawn timer stays positive after its decrement, the update changes nothing but that timer |
| Players.RespawnCompletes | src/Player.js:22-27 | when the respawn timer runs out, the ship stops respawning, starts reappearing with reappearTimer 1000, and is back at (GAME_WIDTH/2 − 50, GAME_HEIGHT − 150) before moving |
| Players.FireRule | src/Player.js:47-58 | a shot is fired iff Space is down and the ticked shot timer is ≥ 1000; firing appends exactly one upward bullet at the ship's nose and zeroes the timer; otherwise no bullet is added |
| Players.ShieldRule | src/Player.js:60-95 | Control raises the shield only when it is down with cooldown ≤ 0, setting SHIELD_DURATION and SHIELD_COOLDOWN; an active shield drops once its timer reaches ≤ 0; the cooldown decreases only while positive |
| Players.FeedbackRule | src/Player.js:69-80 | a Control press while the shield is down and cooling sets the feedback timer to 100 (then ticks it) and changes no shield timer |
| Players.ShieldInvPreserved | src/Player.js:60-91 | every update keeps a raised shield's timer positive |
| Players.MoveRule | src/Player.js:40-44 | a left move happens only from x > 0 and a right move only from x < GAME_WIDTH − width, each by PLAYER_SPEED·dt/16.66; y is kept |
| Players.NoMarkedBulletsAfterUpdate | src/Player.js:97-99 | after an update, no bullet in the list is marked |
| Players.StartRespawnHides | src/Player.js:156-162 | startRespawn sets respawning with a 3000 ms timer, drops the shield, clears reappearing and parks the ship at x = −1000; any update shorter than 3000 ms leaves it waiting |
| Players.ResetShieldReady | src/Player.js:164-167 | resetShield leaves the shield down with both timers 0, so the next Control press raises it |
| Players.SpawnPoints | Player.js:5-6 | Player.js spawns at y = GAME_HEIGHT − 96 and src/Player.js at GAME_HEIGHT − 150, both at x = GAME_WIDTH/2 − 50 |
| Players.RootRespawnCompletes | Player.js:20-38 | in Player.js, respawn completion sets reappearing with timer 1000 and resets the position to (GAME_WIDTH/2 − 50, GAME_HEIGHT − 96) |
| Players.RootFireRule | Player.js:47-58 | in Player.js, a shot fires only with Space down and shot timer ≥ 1000, appends one bullet and zeroes the timer |
| Players.RootShieldRule | Player.js:60-95 | in Player.js, the shield rises only when down with cooldown ≤ 0; a press during cooldown sets the feedback timer to 100; the shield drops at timer ≤ 0 |
| Players.RootRespawnAndReset | Player.js:196-207 | startRespawn drops the shield and moves x to −1000, keeping y and the bullets; resetShield zeroes both shield timers and keeps the position and bullets |
| Players.Player.constructor | src/Player.js:2-17 | the object's fields are NewPlayer(cfg), 100×100 |
| Players.Player.Update | src/Player.js:19-100 | the in-place update is PlayerStep: respawn/reappear, movement, shot, shield and bullets in source order |
| Players.Player.MoveAndShoot | src/Player.js:40-58 | movement, the shot timer and firing, as Move, ShotTimerTick and Fire |
| Players.Player.UpdateShield | src/Player.js:60-95 | the Control key, then the feedback, shield and cooldown timers, in that order |
| Players.Player.PressShield | src/Player.js:60-76 | the Control key in place is ShieldKey: the shield rises only when down with cooldown ≤ 0, and a press during the cooldown starts the feedback |
| Players.Player.TickShieldTimers | src/Player.js:78-95 | the feedback, shield and cooldown timers tick in place as FeedbackTick, ShieldTick and CooldownTick |
| Players.Player.UpdateBullets | src/Player.js:97-99 | the bullet list becomes AdvanceBullets of the old list; nothing else changes |
| Players.Player.StartRespawn | src/Player.js:156-162 | the in-place startRespawn is AfterStartRespawn |
| Players.Player.ResetShield | src/Player.js:164-167 | the in-place resetShield is AfterResetShield |
| PhoenixPlayers.PhoenixStartsReady | phoenix_game/Player.js:2-12 | a new ship has the shield off, both shield timers 0, shot timer 1000 and no bullets, so holding Space on the first update fires |
| PhoenixPlayers.PhoenixFireRule | phoenix_game/Player.js:21-29 | a shot fires iff Space is down and the ticked shot timer is ≥ 1000, appending exactly one bullet and zeroing the timer |
| PhoenixPlayers.PhoenixShieldRule | phoenix_game/Player.js:31-49 | the shield rises only when down with cooldown ≤ 0, setting both timers; there is no feedback branch; the shield drops at timer ≤ 0; the cooldown ticks only while positive |
| PhoenixPlayers.PhoenixMoveRule | phoenix_game/Player.js:15-19 | a left move only from x > 0 and a right move only from x < GAME_WIDTH − width, each by PLAYER_SPEED·timeScale |
| PhoenixPlayers.PhoenixNoMarkedBullets | phoenix_game/Player.js:51-53 | after an update, no marked bullet remains |
| PhoenixPlayers.PhoenixPlayer.constructor | phoenix_game/Player.js:2-12 | the object's fields are NewPhoenix() |
| PhoenixPlayers.PhoenixPlayer.Update | phoenix_game/Player.js:14-54 | the in-place update is PhoenixStep |
| PhoenixPlayers.PhoenixPlayer.MoveAndShoot | phoenix_game/Player.js:15-29 | movement, the shot timer and the shot in place are PhoenixMove then PhoenixShoot |
| PhoenixPlayers.PhoenixPlayer.UpdateBullets | phoenix_game/Player.js:51-53 | the bullet list becomes AdvanceBullets of the old list; nothing else changes |
| PhoenixPlayers.PhoenixPlayer.UpdateShield | phoenix_game/Player.js:31-49 | the shield part of the update is PhoenixShield |
| Aliens.NewAlienShape | src/Alien.js:2-20 | a new alien hovers at its base, unmarked, with nothing queued, speedX = 3 + 0.5·round, speedY = 1 + 0.2·round and diveSpeed = 5 + round |
| Aliens.ModeCycle | src/Alien.js:27-71 | the mode moves at most one step around HOVER → DIVE → RETURN → HOVER |
| Aliens.DiveStartRule | src/Alien.js:39-44 | a hovering alien starts a dive iff round ≥ 3, the flag is down and the draw is below 0.001·round·timeScale; starting raises the flag and fixes the target at (player.x, GAME_HEIGHT + 100); the flag is never lowered |
| Aliens.RoundOneNoBob | src/Alien.js:29-33 | in round 1 a hovering alien's y equals baseY and it keeps hovering |
| Aliens.DiveEndRule | src/Alien.js:45-58 | a dive ends in RETURN at (baseX, −100) iff the alien is less than 10 from its target or below the screen; with an exact root "less than 10" is "squared distance below 100" |
| Aliens.MoveLength | src/Alien.js:56-57 | with an exact root, a step toward a point at least 10 away covers exactly speed·timeScale |
| Aliens.DiveMoveLength | src/Alien.js:45-58 | a diving alien far from its target and on screen keeps diving and moves exactly diveSpeed·timeScale |
| Aliens.ReturnRule | src/Alien.js:59-70 | a returning alien hovers again, without moving, iff it is less than 10 from its base; otherwise it moves speedX·timeScale toward the base |
| Aliens.ShootRule | src/Alien.js:73-79 | at most one downward enemy bullet per update, at the centre of the alien's bottom edge; no draw and no shot while the player is respawning or reappearing; otherwise the chance is 0.02·timeScale in a dive and 0.002·round·timeScale otherwise |
| Aliens.DrawsPerUpdate | src/Alien.js:39-76 | an update consumes between zero and two random draws |
| Aliens.Alien.constructor | src/Alien.js:2-20 | the object's fields are NewAlien(x, y, round), 80×80 |
| Aliens.Alien.Update | src/Alien.js:22-81 | the in-place update, with the shared flag and the draw cursor in and out, is AlienStep |
| Aliens.Alien.HoverMove | src/Alien.js:27-44 | the HOVER branch is HoverStep |
| Aliens.Alien.DiveMove | src/Alien.js:45-58 | the DIVE branch is DiveStep |
| Aliens.Alien.ReturnMove | src/Alien.js:59-70 | the RETURN branch is ReturnStep |
| Swarms.UpdateOneKeepsBound | src/game.js:357-363 | updating one alien keeps "at most one diver, and none while the flag is down" |
| Swarms.UpdateFromKeepsBound | src/game.js:357-363 | the whole alien loop keeps that bound |
| Swarms.AnyDiverCount | src/game.js:355 | aliens.some(DIVE or RETURN) holds iff the diver count is positive |
| Swarms.SwarmKeepsOneDiver | src/game.js:355-363 | with at most one alien diving or returning before the loop, there is at most one after it |
| Swarms.UpdateOneEffect | src/game.js:357-363 | updating alien j changes only alien j, empties its queue, keeps its mark, and appends its queue reversed (pop order) to the enemy bullets |
| Swarms.UpdateFromEffect | src/game.js:357-363 | after the loop from j on, every alien from j has an empty queue, its mark kept and its mode one step on, and the enemy bullets keep the old ones in front |
| Swarms.SwarmDrains | src/game.js:355-363 | after the alien loop every queue is empty, no mark changed, every mode moved at most one step, and the enemy bullets grew by at most one per alien, old ones first |
| Formations.FormationShape | src/game.js:115-157 | every formation has exactly 32 aliens, each new and hovering at its slot, and none diving |
| Formations.GridCentred | src/game.js:117-121 | round 1 has 5 columns and every other round 7; the grid is centred on the screen |
| Formations.GridSlots | src/game.js:124-129 | outside rounds 4 and 5, alien i sits at column i % cols and row i / cols, 200 apart across and 100 down from y = 100 |
| Formations.RoundFourIsV | src/game.js:132-136 | in round 4 mirrored columns of a row share their y and the centre column is highest |
| Formations.RoundFiveIsInvertedY | src/game.js:139-154 | in round 5 the first 10 aliens share the centre x, 30 apart going down; the rest alternate left and right at depth·80 in pairs at the same height |
| Worlds.UpdateScoreMax | src/game.js:160-167 | after updateScore the high score is max(old high score, score), so it never decreases; nothing else changes |
| Worlds.HandlePlayerHitRule | src/game.js:316-328 | exactly one life is lost; at ≤ 0 lives the game is over with aliens, enemy bullets, player bullets and explosions emptied and no mothership; otherwise the player respawns (x = −1000, timer 3000, shield down) and only the enemy bullets are cleared |
| Worlds.EndGameIdempotent | src/game.js:286-299 | ending the game twice is ending it once |
| Collisions.AddExplosion | src/game.js:196 | pushing an explosion appends NewExplosion at the draw cursor, advances the cursor by 80 draws, and changes nothing else |
| Collisions.BulletAlienRule | src/game.js:188-204 | a bullet hits an alien iff neither is marked and the bullet is strictly inside; a hit marks both, adds exactly 10, updates the high score and adds one orange explosion at the alien's centre; a miss changes nothing |
| Collisions.BulletMothershipRule | src/game.js:206-221 | a bullet hits the mothership iff both are unmarked and the bullet is strictly inside; a hit marks the bullet, adds exactly 50, removes the mothership at once and adds one red explosion; a miss changes nothing |
| Collisions.BulletAlienLedger | src/game.js:188-204 | one bullet × alien test keeps the scoring ledger: 10 points and one spent bullet per newly marked alien |
| Collisions.BulletMothershipLedger | src/game.js:206-221 | one bullet × mothership test keeps the ledger: 50 points and one spent bullet for a downed mothership |
| Collisions.AliensFromLedger | src/game.js:189-204 | one bullet against the rest of the aliens keeps the ledger |
| Collisions.BulletsFromLedger | src/game.js:188-222 | the bullets from i on keep the ledger |
| Collisions.PlayerBulletsScoreOnce | src/game.js:188-222 | over phase 1 the score rises by exactly 10 per newly marked alien plus 50 for a downed mothership, and exactly that many bullets are newly spent, so no bullet scores twice |
| Collisions.SpentBulletHitsNothing | src/game.js:190-207 | a bullet already marked hits no alien and not the mothership |
| Collisions.EnemyBulletRule | src/game.js:225-252 | a marked enemy bullet is skipped; one the shield stops is marked, explodes white, and skips the body test (no life lost); otherwise a bullet inside the 20-px-inset box marks itself, explodes and costs exactly one life through handlePlayerHit; the score never changes |
| Collisions.ShieldStopsBulletSquared | src/game.js:229-233 | with an exact root, the shield stops a bullet iff it is up and the squared distance to the player's centre is below (80 + 5)² |
| Collisions.ShieldDoesNotStopCrash | src/game.js:255-283 | an alien the shield touches is marked with no score, and the kamikaze test still runs for it: an overlap with the inset box still costs a life |
| Collisions.CrashIsInsideShield | src/game.js:258-274 | with an exact root and the shield up, every alien overlapping the kamikaze box is also within the shield's reach |
| Collisions.AlienContactRule | src/game.js:255-283 | a marked alien is skipped; otherwise a life is lost iff the alien overlaps the 25/20-px-inset box; the score never changes |
| Collisions.EnemyBulletsHarmless | src/game.js:225-252 | phase 2 never changes the score, high score or round and never adds lives |
| Collisions.AlienContactsHarmless | src/game.js:255-283 | phase 3 never changes the score, high score or round and never adds lives |
| Collisions.CollisionsScore | src/game.js:186-284 | over checkCollisions the score rises only through phase 1's ledger; the high score ends as max(old high score, score); the round is kept and lives never rise |
| Collisions.AliensFromOnlyMarks | src/game.js:189-204 | phase 1 changes aliens only by marking them |
| Collisions.BulletsFromOnlyMarks | src/game.js:188-222 | phase 1 over all bullets changes aliens only by marking them |
| Collisions.EnemyBulletsOnlyMark | src/game.js:225-252 | phase 2 leaves the aliens alone or clears them all at game over |
| Collisions.AlienContactOnlyMarks | src/game.js:255-283 | one alien contact only marks aliens, or clears them at game over |
| Collisions.AlienContactsOnlyMark | src/game.js:255-283 | phase 3 only marks aliens, or clears them at game over |
| Collisions.CollisionsOnlyMark | src/game.js:186-284 | checkCollisions never moves an alien, changes its mode or queues a bullet |
| Game.CollisionsKeepInv | src/game.js:368 | checkCollisions keeps the invariant: at most one diver, empty queues, high score ≥ score |
| Game.SwarmStageRule | src/game.js:355-366 | after the alien stage every remaining alien is unmarked with an empty queue, at most one dives or returns, old enemy bullets stay in front, and score, high score and lives are kept |
| Game.TailKeepsInv | src/game.js:370-387 | the mothership logic and the round check keep the invariant, the score, lives and round |
| Game.TickKeepsInv | src/game.js:340-388 | every tick keeps the invariant: at most one alien diving or returning, no queued alien bullet between ticks, high score ≥ score |
| Game.TickScore | src/game.js:340-388 | a tick never lowers the score, keeps the high score at max(old high score, new score), never adds a life and keeps the round |
| Game.TickOnlyWhilePlaying | src/game.js:340 | outside PLAYING a tick changes nothing |
| Game.MothershipRule | src/game.js:371-382 | without a mothership the timer grows by dt, and past 15000 a new mothership for the round appears with the timer reset to 0; an existing one moves and is dropped iff marked; nothing else changes |
| Game.RoundAdvance | src/game.js:459-501 | clearing a round below MAX_ROUNDS enters ROUND_TRANSITION with the shield reset; the first banner raises the round by exactly 1, the second spawns its 32 aliens and resumes play |
| Game.LastRoundWins | src/game.js:471-474 | clearing round MAX_ROUNDS sets GAME_OVER without raising the round, and no banner is pending |
| Game.GameOverStays | src/game.js:385-387 | the round check leaves GAME_OVER alone |
| Game.BannerKeepsInv | src/game.js:490-500 | the banner callbacks keep the invariant |
| Game.StartGameRule | src/game.js:16-40 | initGame sets score 0, 3 lives, a fresh player, every list empty, no mothership, ROUND_TRANSITION, keeps the round and the high score, and establishes the invariant |
| Game.TogglePauseRule | src/game.js:420-449 | togglePause swaps PLAYING and PAUSED, leaves every other state unchanged, changes nothing but the state, and undoes itself |
| Director.SomeDiving | src/game.js:355 | the loop finds a diver iff some alien is in DIVE or RETURN |
| Director.Drain | src/game.js:360-362 | the pop/push loop appends the queue reversed to the enemy bullets |
| Director.UpdateEach | src/game.js:357-363 | the forEach loop equals UpdateFrom from alien 0 |
| Director.SwarmStageOf | src/game.js:355-366 | the alien stage on the state's values equals Game.SwarmStage |
| Director.World.constructor | src/globals.js:14-25 | the page loads in MENU, round 1, score 0, 3 lives, no dive in progress, with the stored high score |
| Director.World.UpdateScore | src/game.js:160-167 | the in-place updateScore is Worlds.UpdateScore |
| Director.World.EndGame | src/game.js:286-314 | the in-place endGame is Worlds.EndGame |
| Director.World.HandlePlayerHit | src/game.js:316-328 | the in-place handlePlayerHit is Worlds.HandlePlayerHit |
| Director.World.AddExplosion | src/game.js:196 | explosions.push is Collisions.AddExplosion |
| Director.World.BulletAlien | src/game.js:190-202 | the in-place bullet × alien test is Collisions.BulletAlien |
| Director.World.BulletMothership | src/game.js:207-220 | the in-place bullet × mothership test is Collisions.BulletMothership |
| Director.World.PlayerBulletsPhase | src/game.js:188-222 | the nested forEach loops equal Collisions.BulletsFrom from bullet 0 |
| Director.World.MarkEnemyBullet | src/game.js:234 | marking an enemy bullet in place is Collisions.MarkEnemyBullet |
| Director.World.EnemyBullet | src/game.js:225-251 | one enemy bullet in place is Collisions.EnemyBullet |
| Director.World.EnemyBulletsPhase | src/game.js:225-252 | the forEach over the list the phase began with equals Collisions.EnemyBulletsFrom |
| Director.World.MarkAlien | src/game.js:264 | marking an alien in place is Collisions.MarkAlien |
| Director.World.AlienContact | src/game.js:255-282 | one alien in place is Collisions.AlienContact |
| Director.World.ShieldTest | src/game.js:258-268 | the in-place shield test is Collisions.ShieldContact |
| Director.World.CrashTest | src/game.js:270-282 | the in-place kamikaze test is Collisions.CrashContact |
| Director.World.AliensPhase | src/game.js:255-283 | the forEach over the list the phase began with equals Collisions.AlienContactsFrom |
| Director.World.CheckCollisions | src/game.js:186-284 | the in-place checkCollisions is Collisions.CheckCollisions |
| Director.World.UpdateAliens | src/game.js:355-366 | the flag, the alien loop with its drains and the filter equal Game.SwarmStage |
| Director.World.MothershipLogic | src/game.js:370-382 | the in-place mothership logic is Game.MothershipLogic |
| Director.World.NextRound | src/game.js:459-505 | the in-place nextRound is Game.NextRound |
| Director.World.Tick | src/game.js:330-388 | one gameLoop call is Game.Tick |
| Director.World.SpawnAliens | src/game.js:115-157 | the counting loop builds exactly Formation(round) and changes nothing else |
| Director.World.BannerElapsed | src/game.js:490-500 | a pending banner callback firing is Game.BannerElapsed |
| Director.World.ResetEntities | src/game.js:32-40 | a fresh player, every list empty, no mothership, the timer at 0 and the round banner pending |
| Director.World.StartGame | src/game.js:16-54 | the in-place initGame is Game.StartGame |
| Director.World.TogglePause | src/game.js:420-449 | the in-place togglePause is Game.TogglePause |
| Revenge.GridShape | alien_revenge/game.js:87-106 | spawnAliens makes exactly 15 aliens, alien i at x = GAME_WIDTH/2 − 250 + 120·(i % 5) and y = 100 + 100·(i / 5), each new, hovering and unmarked, none diving |
| Revenge.GridCell | alien_revenge/game.js:100-104 | the alien at row 0..2 and column 0..4 is NewAlien at (GAME_WIDTH/2 − 250 + 120·col, 100 + 100·row) |
| Revenge.UpdateScoreMax | alien_revenge/game.js:108-115 | after updateScore the high score is max(old high score, score), so it never decreases |
| Revenge.RoundAdvance | alien_revenge/game.js:279-304 | clearing a round enters ROUND_TRANSITION; the first banner raises the round by exactly 1; above MAX_ROUNDS the game is over, otherwise the next banner spawns the 15-alien grid and play resumes |
| Revenge.StartGameRule | alien_revenge/game.js:16-36 | initGame starts round 1 with score 0, a fresh player and no aliens or enemy bullets, and keeps the high score |
| Revenge.TogglePauseRule | alien_revenge/game.js:251-269 | togglePause swaps PLAYING and PAUSED and leaves every other state unchanged |
| Revenge.HitAlienRule | alien_revenge/game.js:132-143 | a hit needs both unmarked and the bullet strictly inside; it marks both and adds exactly 10; a miss changes nothing |
| Revenge.HitAlienLedger | alien_revenge/game.js:133-143 | one test keeps the ledger: 10 points and one spent bullet per newly marked alien |
| Revenge.HitAliensFromLedger | alien_revenge/game.js:133-143 | one bullet against the rest of the aliens keeps the ledger |
| Revenge.PlayerBulletsFromLedger | alien_revenge/game.js:132-144 | the bullets from i on keep the ledger |
| Revenge.PlayerBulletsScoreOnce | alien_revenge/game.js:132-144 | over phase 1 the score rises by exactly 10 per newly marked alien and exactly that many bullets are spent |
| Revenge.EnemyBulletRule | alien_revenge/game.js:147-167 | a marked bullet is skipped; one the shield stops is marked and skips the body test; an unstopped one in the 20-px-inset box ends the game and changes nothing else |
| Revenge.AlienContactRule | alien_revenge/game.js:170-190 | a marked alien is skipped; the shield marks it without score; an overlap with the full player box ends the game whether or not the shield marked it |
| Revenge.EnemyBulletsEndGame | alien_revenge/game.js:147-167 | phase 2 ends the game iff it was over or some bullet is fatal; otherwise the state is kept |
| Revenge.AlienContactsEndGame | alien_revenge/game.js:170-190 | phase 3 ends the game iff it was over or some unmarked alien overlaps the player |
| Revenge.AnyHitEndsGame | alien_revenge/game.js:130-202 | with no lives, checkCollisions ends the game iff an enemy bullet gets through into the inset box or a surviving alien overlaps the player; the score is phase 1's |
| Revenge.RoundCheckRevivesLostGame | alien_revenge/game.js:241-243 | as written, a lost game with no aliens left is put back into ROUND_TRANSITION and later PLAYING; the corrected check keeps GAME_OVER |
| Revenge.TickRevivesLostGame | alien_revenge/game.js:213-244 | a tick in which the aliens are gone and an enemy bullet kills the player ends in ROUND_TRANSITION as written, and in GAME_OVER when corrected |
| Revenge.NoAliensNoHits | alien_revenge/game.js:132-144 | with no aliens, phase 1 changes nothing |
| Revenge.LostGameExample | alien_revenge/game.js:162-165 | a concrete state: no aliens, a fresh player, one bullet in its box; collisions end the game and the round check as written turns it into a round transition |
| Revenge.HitAliensFromMarks | alien_revenge/game.js:133-143 | one bullet's tests change aliens only by marking them |
| Revenge.PlayerBulletsFromMarks | alien_revenge/game.js:132-144 | phase 1 changes aliens only by marking them |
| Revenge.AlienContactsFromMarks | alien_revenge/game.js:170-190 | phase 3 changes aliens only by marking them |
| Revenge.CollisionsKeepInv | alien_revenge/game.js:238 | checkCollisions keeps the invariant: at most one diver, empty queues, high score ≥ score |
| Revenge.SwarmStageRule | alien_revenge/game.js:224-236 | the alien stage keeps the invariant and leaves no marked alien, and keeps the state and round |
| Revenge.TickKeepsInv | alien_revenge/game.js:213-244 | every corrected tick keeps the invariant, never lowers the score, keeps the high score at max(old, score) and keeps the round |
| Revenge.GameOverIsFinal | alien_revenge/game.js:193-194 | with the corrected round check a game over stays over: neither the check nor a later tick changes anything |
| Revenge.BannerKeepsInv | alien_revenge/game.js:283-301 | the banner callbacks keep the invariant |
| RevengeDirector.SwarmStageOf | alien_revenge/game.js:224-236 | the alien stage on the state's values equals Revenge.SwarmStage |
| RevengeDirector.RevengeWorld.constructor | alien_revenge/globals.js:12-22 | the page loads in MENU, round 1, score 0, with the stored high score |
| RevengeDirector.RevengeWorld.UpdateScore | alien_revenge/game.js:108-115 | the in-place updateScore is Revenge.UpdateScore |
| RevengeDirector.RevengeWorld.EndGame | alien_revenge/game.js:193-202 | the in-place endGame only sets GAME_OVER |
| RevengeDirector.RevengeWorld.HitAlien | alien_revenge/game.js:134-141 | one bullet × alien test in place is Revenge.HitAlien |
| RevengeDirector.RevengeWorld.PlayerBulletsPhase | alien_revenge/game.js:132-144 | the nested loops equal Revenge.PlayerBulletsFrom from 0 |
| RevengeDirector.RevengeWorld.EnemyBullet | alien_revenge/game.js:147-166 | one enemy bullet in place is Revenge.EnemyBullet |
| RevengeDirector.RevengeWorld.EnemyBulletsPhase | alien_revenge/game.js:147-167 | the loop equals Revenge.EnemyBulletsFrom from 0 |
| RevengeDirector.RevengeWorld.AlienContact | alien_revenge/game.js:170-189 | one alien in place is Revenge.AlienContact |
| RevengeDirector.RevengeWorld.AliensPhase | alien_revenge/game.js:170-190 | the loop equals Revenge.AlienContactsFrom from 0 |
| RevengeDirector.RevengeWorld.CheckCollisions | alien_revenge/game.js:130-191 | the in-place checkCollisions is Revenge.CheckCollisions |
| RevengeDirector.RevengeWorld.UpdateAliens | alien_revenge/game.js:224-236 | the flag, the alien loop with its drains and the filter equal Revenge.SwarmStage |
| RevengeDirector.RevengeWorld.NextRound | alien_revenge/game.js:279-281 | the in-place nextRound is Revenge.NextRound |
| RevengeDirector.RevengeWorld.Tick | alien_revenge/game.js:204-244 | one gameLoop call, with the corrected round check, is Revenge.Tick |
| RevengeDirector.RevengeWorld.SpawnAliens | alien_revenge/game.js:87-106 | the push loop builds exactly Revenge.Grid(round) and changes nothing else |
| RevengeDirector.RevengeWorld.BannerElapsed | alien_revenge/game.js:283-301 | a pending banner callback firing is Revenge.BannerElapsed |
| RevengeDirector.RevengeWorld.ResetEntities | alien_revenge/game.js:21-26 | a fresh player, both lists empty and the round banner pending |
| RevengeDirector.RevengeWorld.StartGame | alien_revenge/game.js:16-36 | the in-place initGame is Revenge.StartGame |
| RevengeDirector.RevengeWorld.TogglePause | alien_revenge/game.js:251-269 | the in-place togglePause is Revenge.TogglePause |
| Background.Distance2 | remove_background.py:7-12 | the squared colour distance over red, green and blue is never negative |
| Background.DistanceZero | remove_background.py:7-12 | the distance is zero iff red, green and blue agree |
| Background.WithinRules | remove_background.py:64-74 | the tolerance test is symmetric and blind to alpha, and a colour matches itself iff the tolerance is not negative |
| Background.Consider | remove_background.py:53-70 | one neighbour n: when in bounds, not visited and transparent or within tolerance of the seed colour, visited becomes visited + {n}, the queue gets n at its back, and to_clear gains n unless n is fully transparent; otherwise all three are unchanged |
| Background.Expand | remove_background.py:49-70 | expanding a pixel considers its four in-bounds neighbours, after which every one that matches is visited, and keeps the walk's bookkeeping: pixels visited before the walk keep their seed, and every pixel it visits belongs to its seed |
| Background.Walk | remove_background.py:48-70 | the queue loop ends with every visited pixel's matching neighbours visited, the visited set only grown, pixels visited before the walk keeping their seed and every new one belonging to this seed, and one dequeue per visited pixel |
| Background.FloodFill | remove_background.py:26-75 | the seed loop's result is the reference fill: the visited set is `Fill` over the corners in order, each corner already visited skipped (lines 35-36), the pixels that own themselves are exactly the corners that seeded a walk, and to_clear is exactly `Marked`; all four corners are visited and at most width·height pixels come off the queues |
| Background.FillFrom | remove_background.py:33-75 | the walk from an unvisited corner s adds exactly the pixels `Reach` gives from s around the pixels visited before; s owns itself, earlier pixels keep their seed and every new pixel belongs to s; then the seed itself is cleared |
| Background.WalkReach | remove_background.py:48-70 | a finished walk from s visited exactly the pixels reachable from s through in-bounds, not yet visited, matching neighbours, and no others |
| Background.WalkedPath | remove_background.py:52-70 | every pixel of a matching path from s outside the earlier visited set is visited by the walk from s |
| Background.FollowSkip | remove_background.py:33-36 | a corner already visited is skipped: the reference fill and its seeds do not change |
| Background.FollowSeed | remove_background.py:33-75 | a corner not yet visited seeds a walk: the fill grows by what it reaches, and it joins the seeds |
| Background.SeedOwners | remove_background.py:38-41 | after a walk from s, the pixels that own themselves are the earlier seeds and s |
| Background.MarkedExactly | remove_background.py:61-75 | the finished fill's to_clear is exactly the reference set `Marked` |
| Background.Apply | remove_background.py:78-79 | every pixel in to_clear becomes (0, 0, 0, 0) and every other pixel is unchanged |
| Background.RemoveBg | remove_background.py:14-84 | a missing file or an empty image changes nothing; otherwise exactly the reference `Marked` pixels are cleared and all others kept, the visited set is the reference `Fill`, and all four corners are visited |
| Background.Clean | remove_background.py:22-79 | on an image with pixels, the fill then the apply loop: exactly `Marked` cleared, all else kept |
| Background.RemoveBgDefault | remove_background.py:86-87 | `remove_bg(f)` runs with the default tolerance 100 (line 14); as RemoveBg, and every corner is cleared or was already fully transparent |
| Background.FillGrows | remove_background.py:33-36 | the reference fill only grows from one corner to the next |
| Background.CornersFilled | remove_background.py:33-41 | every corner ends up visited |
| Background.CornersCleared | remove_background.py:72-75 | with a tolerance that is not negative, each corner is cleared unless it is already fully transparent |
| Background.PathTo | remove_background.py:48-70 | each visited pixel has a chain of neighbouring visited pixels from its seed to it |
| Background.Connected | remove_background.py:48-70 | every visited pixel is joined to a corner by neighbouring visited in-bounds pixels, each after the corner transparent or within the tolerance of the corner's colour |
| Background.Maximal | remove_background.py:52-70 | an in-bounds neighbour of a visited pixel that is transparent or matches that pixel's seed colour is visited |
| Background.ClearedExactly | remove_background.py:61-75 | a pixel is cleared iff it is visited, and: a seed only when the tolerance is not negative; any other pixel only when it is not fully transparent |
| Background.NegativeToleranceClearsNothing | remove_background.py:64-75 | with a negative tolerance nothing is cleared and the walks go through transparent pixels only |
| Background.WorkBound | remove_background.py:41-70 | the visited set, and so the number of dequeues, is at most width·height |

## Left out

- Rendering, audio and browser I/O are not modelled. This covers every `draw`, `showMessage`, DOM class toggling, asset loading, `SoundEffects` and the `localStorage` write. The stored high score is a constructor parameter.
- Key input is a `Keys` value passed to each update, not the `InputHandler` listeners.
- The `setTimeout` banner delays and the `requestAnimationFrame` restarts are not modelled as time. Each pending callback is a `Banner` sub-state, and `BannerElapsed` fires it.
- `Math.random` is a stream with a draw cursor, so the results are exact for any stream.
- `Math.sin`, `Math.cos` and `Math.sqrt` are supplied as a parameter. `Aliens.MoveLength`, `Aliens.DiveMoveLength`, `Aliens.ReturnRule`, `Collisions.ShieldStopsBulletSquared` and `Collisions.CrashIsInsideShield` are stated for an exact square root (`ExactRoot`). Floating-point rounding is not modelled: positions and timers are `real`.
- Entities inside the director's lists are values. An entity shared between two lists (aliasing) does not occur in the source and is not modelled.
- The alien marked during `checkCollisions` is updated once more in the next tick before the filter drops it. The model does this, but it is not stated as a separate property.
- `src/game.js:18` leaves the round as it was in `initGame` (`gameState.round = gameState.round`). The model follows the code, so `Game.StartGameRule` keeps the round.
- A shield kill does not stop a kamikaze hit: at src/game.js:258-282 the body test still runs after the shield marks the alien (`Collisions.ShieldDoesNotStopCrash`). The model follows the code.
- The alien_revenge director has no Player.js or Alien.js of its own in this model:
  - it uses the src/Player.js state machine with alien_revenge/globals.js constants;
  - it uses src/Alien.js;
  - MOTHERSHIP_SPEED, which alien_revenge/globals.js does not define, is a parameter of `Motherships.NewRevengeMothership`.
- The modelled sources contain no src/Bullet.js or src/Mothership.js, although the src director calls `new Mothership()` (src/game.js:374) and `new Bullet(...)` (src/Player.js:52, src/Alien.js:77). As a modelling choice, the model uses alien_revenge/Bullet.js and the root Mothership.js for them. MOTHERSHIP_SPEED is 5 in both src/globals.js:9 and globals.js:9.
- `Director.World.constructor` builds a Player and a zero mothership timer at page load. The page leaves `player` undefined and has no `mothershipTimer` until `initGame` (src/game.js:32-37). Nothing reads either before `initGame`, so the model differs only in that unobservable state.
- alien_revenge/game.js does not update explosions or a mothership, so `Revenge` has neither.
- `remove_background.py` details:
  - PIL's open, convert and save and the printing are not modelled. A missing file is `None`.
  - The exception path is modelled only for an image without pixels, where reading the corner fails.
  - The colour distance is compared through its square, as the exact square root would give.
  - The order in which a Python set yields `to_clear` to the apply loop is arbitrary in the model.
- The comment at remove_background.py:74 calls the seed test always true. That holds only for a non-negative tolerance (`Background.WithinRules`). The model follows the code.
- `Background.Walk` and `Background.FloodFill` count dequeues as a ghost result. They state the work bound through `Background.WorkBound` and do not prove that the queue order is FIFO. The result does not depend on the order: it equals the order-free reference `Background.Fill`.
- `check_images.py`, `generate_mothership.py` and the globals files are not modelled as operations. Their constants are Dafny constants.

## Findings

| source | as written | input that shows it | evidently intended | confidence | as-written member | corrected member |
|---|---|---|---|---|---|---|
| alien_revenge/game.js:241-243 | the round check calls `nextRound()` whenever the alien list is empty, even when `checkCollisions` has just set GAME_OVER | a PLAYING tick where the last aliens were shot the tick before, so the list is empty after the filter, and an enemy bullet hits the unshielded player inside the inset box: the state ends ROUND_TRANSITION and the banners resume play in the next round | as src/game.js:385 does, call `nextRound()` only while the state is still PLAYING, so a lost game stays over | not executed | Revenge.RoundCheckRevivesLostGame | Revenge.GameOverIsFinal |
