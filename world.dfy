/** The game state src/game.js keeps in gameState and its global entity lists, with the
    score, life and game-over rules every part of the director shares. */
module Worlds {
  import opened Globals
  import opened Bullets
  import opened Players
  import opened Aliens
  import opened Explosions
  import opened Motherships

  datatype Mode = Menu | RoundTransition | Playing | Paused | GameOver

  /** The banner callback still pending: after "ROUND n COMPLETED" the round advances;
      after "ROUND n" the formation spawns and play starts. */
  datatype Banner = NoBanner | RoundCompleted | RoundIntro

  /** gameState, the high score and the entity globals player, aliens, alienBullets,
      explosions and mothership, plus the cursor into the Math.random stream. */
  datatype WorldState = WorldState(
    mode: Mode, banner: Banner, round: int, score: int, lives: int, highScore: int,
    diveFlag: bool, mothershipTimer: real,
    player: PlayerState, aliens: seq<AlienState>, alienBullets: seq<BulletState>,
    explosions: seq<ExplosionState>, mothership: Option<MothershipState>, draws: nat)

  /** updateScore: the high score is raised to the score when the score passes it. */
  function UpdateScore(w: WorldState): WorldState {
    w.(highScore := if w.score > w.highScore then w.score else w.highScore)
  }

  /** endGame: GAME_OVER, and every entity list emptied. */
  function EndGame(w: WorldState): WorldState {
    w.(mode := GameOver, aliens := [], alienBullets := [], player := w.player.(bullets := []),
       explosions := [], mothership := None)
  }

  /** handlePlayerHit: one life less; the last one ends the game, any other starts the
      respawn and clears the enemy bullets. */
  function HandlePlayerHit(w: WorldState): WorldState {
    var v := w.(lives := w.lives - 1);
    if v.lives <= 0 then EndGame(v)
    else v.(player := AfterStartRespawn(v.player), alienBullets := [])
  }

  /** After updateScore the high score is the larger of the old high score and the
      score, so it never decreases; nothing else changes. */
  lemma UpdateScoreMax(w: WorldState)
    ensures var r := UpdateScore(w);
      && r.highScore == Max(w.highScore, w.score)
      && r.highScore >= w.highScore && r.highScore >= w.score
      && r.(highScore := w.highScore) == w
  {
  }

  /** handlePlayerHit takes exactly one life. At zero or below the game is over with
      the aliens, enemy bullets, player bullets and explosions gone and no mothership;
      otherwise the player is parked off stage respawning, shield down, and only the
      enemy bullets are cleared. */
  lemma HandlePlayerHitRule(w: WorldState)
    ensures var r := HandlePlayerHit(w);
      && r.lives == w.lives - 1
      && r.score == w.score && r.round == w.round
      && (w.lives - 1 <= 0 ==>
            r.mode == GameOver && r.aliens == [] && r.alienBullets == []
            && r.player.bullets == [] && r.explosions == [] && r.mothership == None)
      && (w.lives - 1 > 0 ==>
            r.mode == w.mode && r.alienBullets == [] && r.aliens == w.aliens
            && r.explosions == w.explosions && r.mothership == w.mothership
            && r.player.isRespawning && !r.player.shieldActive && r.player.x == -1000.0
            && r.player.respawnTimer == 3000.0 && r.player.bullets == w.player.bullets)
  {
  }

  /** Ending the game twice is ending it once. */
  lemma EndGameIdempotent(w: WorldState)
    ensures EndGame(EndGame(w)) == EndGame(w)
  {
  }
}
