/** The game director of src/game.js as functions of the game state: the PLAYING tick
    of gameLoop, the mothership timer, round completion, the banner callbacks, initGame
    and togglePause, with the invariants they keep. */
module Game {
  import opened Globals
  import opened Seqs
  import opened Bullets
  import opened Players
  import opened Aliens
  import opened Explosions
  import opened Motherships
  import opened Worlds
  import opened Swarms
  import opened Collisions
  import opened Formations

  /** The milliseconds without a mothership after which one appears. */
  const MothershipDelay: real := 15000.0

  /** What an alien reads while the world updates it. */
  function AlienEnv(w: WorldState, rng: Random, trig: Trig): AlienInputs {
    AlienInputs(w.round, w.player.x, !w.player.isRespawning && !w.player.isReappearing,
                trig, rng, SrcBulletSpeeds)
  }

  /** The player, then the enemy bullets and the explosions, each updated and filtered. */
  function Prelude(w: WorldState, dt: real, keys: Keys): WorldState {
    w.(player := PlayerStep(w.player, dt, keys, SrcPlayerConfig),
       alienBullets := AdvanceBullets(w.alienBullets, dt),
       explosions := AdvanceExplosions(w.explosions))
  }

  /** The dive flag, the alien loop with its drains, then the filter of marked aliens. */
  function SwarmStage(w: WorldState, dt: real, rng: Random, trig: Trig): WorldState {
    var s := UpdateSwarm(w.aliens, w.alienBullets, dt, AlienEnv(w, rng, trig), w.draws);
    w.(aliens := Filter(s.aliens, AlienUnmarked), alienBullets := s.alienBullets,
       diveFlag := s.diveFlag, draws := s.draws)
  }

  /** Without a mothership the timer runs, and past 15000 ms one appears for the current
      round and the timer restarts; with one, it moves and is dropped once marked. */
  function MothershipLogic(w: WorldState, dt: real): WorldState {
    match w.mothership
    case None =>
      if w.mothershipTimer + dt > MothershipDelay then
        w.(mothership := Some(NewMothership(w.round)), mothershipTimer := 0.0)
      else w.(mothershipTimer := w.mothershipTimer + dt)
    case Some(m) =>
      var moved := MothershipStep(m, dt);
      w.(mothership := if moved.marked then None else Some(moved))
  }

  /** nextRound: shield reset; after the last round the game is won and over, otherwise
      the "ROUND n COMPLETED" banner starts. */
  function NextRound(w: WorldState): WorldState {
    var v := w.(player := AfterResetShield(w.player));
    if v.round == MaxRounds then v.(mode := GameOver, banner := NoBanner)
    else v.(mode := RoundTransition, banner := RoundCompleted)
  }

  /** The round check that ends a tick: the aliens are all gone and the game is still on. */
  function RoundCheck(w: WorldState): WorldState {
    if |w.aliens| == 0 && w.mode == Playing then NextRound(w) else w
  }

  /** One gameLoop call; the simulation runs only while PLAYING. */
  function Tick(w: WorldState, dt: real, keys: Keys, rng: Random, trig: Trig): WorldState {
    if w.mode != Playing then w
    else
      var w1 := SwarmStage(Prelude(w, dt, keys), dt, rng, trig);
      RoundCheck(MothershipLogic(CheckCollisions(w1, rng, trig), dt))
  }

  /** spawnAliens, then PLAYING. */
  function Spawn(w: WorldState): WorldState {
    w.(aliens := Formation(w.round), mode := Playing, banner := NoBanner)
  }

  /** The pending banner callback firing: after "ROUND n COMPLETED" the round goes up and
      the next banner starts; after "ROUND n" the formation appears and play resumes. */
  function BannerElapsed(w: WorldState): WorldState {
    match w.banner
    case NoBanner => w
    case RoundCompleted => w.(round := w.round + 1, banner := RoundIntro)
    case RoundIntro => Spawn(w)
  }

  /** initGame: score 0, full lives, a fresh player, every list empty, no mothership, the
      timer at 0, the high score updated, and the round banner; the round is left as it
      was. */
  function StartGame(w: WorldState): WorldState {
    UpdateScore(w.(score := 0, lives := PlayerLives, player := NewPlayer(SrcPlayerConfig),
                   aliens := [], alienBullets := [], explosions := [], mothership := None,
                   mothershipTimer := 0.0, mode := RoundTransition, banner := RoundIntro))
  }

  /** togglePause: PLAYING and PAUSED swap; any other state is left alone. */
  function TogglePause(w: WorldState): WorldState {
    if w.mode == Playing then w.(mode := Paused)
    else if w.mode == Paused then w.(mode := Playing)
    else w
  }

  // ---------------------------------------------------------------------------
  // Properties

  /** What holds of every state the game reaches: at most one alien diving or returning,
      no bullet waiting in any alien's queue between ticks, and a high score at least the
      score. */
  predicate Inv(w: WorldState) {
    && Count(w.aliens, IsDiver) <= 1
    && (forall i :: 0 <= i < |w.aliens| ==> w.aliens[i].bullets == [])
    && w.highScore >= w.score
  }

  lemma CollisionsKeepInv(w: WorldState, rng: Random, trig: Trig)
    requires Inv(w)
    ensures Inv(CheckCollisions(w, rng, trig))
  {
    var r := CheckCollisions(w, rng, trig);
    CollisionsOnlyMark(w, rng, trig);
    CollisionsScore(w, rng, trig);
    if r.aliens != [] {
      SameModesCount(w.aliens, r.aliens);
    }
  }

  /** After the alien stage every queue is drained, no marked alien is left for
      checkCollisions, and at most one alien dives or returns. */
  lemma SwarmStageRule(w: WorldState, dt: real, rng: Random, trig: Trig)
    requires Inv(w)
    ensures var r := SwarmStage(w, dt, rng, trig);
      && (forall i :: 0 <= i < |r.aliens| ==> !r.aliens[i].marked && r.aliens[i].bullets == [])
      && |r.aliens| <= |w.aliens|
      && Count(r.aliens, IsDiver) <= 1
      && |r.alienBullets| >= |w.alienBullets| && r.alienBullets[..|w.alienBullets|] == w.alienBullets
      && r.score == w.score && r.highScore == w.highScore && r.lives == w.lives
  {
    var env := AlienEnv(w, rng, trig);
    var s := UpdateSwarm(w.aliens, w.alienBullets, dt, env, w.draws);
    SwarmDrains(w.aliens, w.alienBullets, dt, env, w.draws);
    SwarmKeepsOneDiver(w.aliens, w.alienBullets, dt, env, w.draws);
    CountFilter(s.aliens, AlienUnmarked, IsDiver);
    var f := Filter(s.aliens, AlienUnmarked);
    forall i | 0 <= i < |f| ensures f[i].bullets == [] {
      assert f[i] in s.aliens;
    }
  }

  /** The mothership logic and the round check touch neither the aliens nor the score. */
  lemma TailKeepsInv(w: WorldState, dt: real)
    requires Inv(w)
    ensures var r := RoundCheck(MothershipLogic(w, dt));
      Inv(r) && r.score == w.score && r.highScore == w.highScore && r.lives == w.lives
      && r.round == w.round
  {
  }

  /** Every tick keeps the invariant: the one-diver rule, the drained queues and the high
      score at least the score. */
  lemma TickKeepsInv(w: WorldState, dt: real, keys: Keys, rng: Random, trig: Trig)
    requires Inv(w)
    ensures Inv(Tick(w, dt, keys, rng, trig))
  {
    if w.mode == Playing {
      var w0 := Prelude(w, dt, keys);
      assert Inv(w0);
      SwarmStageRule(w0, dt, rng, trig);
      var w1 := SwarmStage(w0, dt, rng, trig);
      assert Inv(w1);
      var w2 := CheckCollisions(w1, rng, trig);
      CollisionsKeepInv(w1, rng, trig);
      TailKeepsInv(w2, dt);
    }
  }

  /** A tick never lowers the score or the high score, never adds a life, leaves the
      round alone, and keeps the high score equal to the larger of its old value and the
      new score. */
  lemma TickScore(w: WorldState, dt: real, keys: Keys, rng: Random, trig: Trig)
    requires Inv(w)
    ensures var r := Tick(w, dt, keys, rng, trig);
      && r.score >= w.score && r.highScore == Max(w.highScore, r.score)
      && r.lives <= w.lives && r.round == w.round
  {
    if w.mode == Playing {
      var w0 := Prelude(w, dt, keys);
      assert Inv(w0);
      SwarmStageRule(w0, dt, rng, trig);
      var w1 := SwarmStage(w0, dt, rng, trig);
      assert Inv(w1);
      var w2 := CheckCollisions(w1, rng, trig);
      CollisionsScore(w1, rng, trig);
      CollisionsKeepInv(w1, rng, trig);
      TailKeepsInv(w2, dt);
    }
  }

  /** Outside PLAYING a tick changes nothing. */
  lemma TickOnlyWhilePlaying(w: WorldState, dt: real, keys: Keys, rng: Random, trig: Trig)
    ensures w.mode != Playing ==> Tick(w, dt, keys, rng, trig) == w
  {
  }

  /** The mothership timer: without a mothership the timer grows by dt until it passes
      15000, when a new one for the current round appears and the timer restarts at 0;
      an existing one moves and is dropped exactly when it has left the screen. */
  lemma MothershipRule(w: WorldState, dt: real)
    ensures var r := MothershipLogic(w, dt);
      && (w.mothership.None? && w.mothershipTimer + dt > 15000.0 ==>
            r.mothership == Some(NewMothership(w.round)) && r.mothershipTimer == 0.0)
      && (w.mothership.None? && w.mothershipTimer + dt <= 15000.0 ==>
            r.mothership.None? && r.mothershipTimer == w.mothershipTimer + dt)
      && (w.mothership.Some? ==>
            r.mothershipTimer == w.mothershipTimer
            && (r.mothership.None? <==> MothershipStep(w.mothership.value, dt).marked)
            && (r.mothership.Some? ==> r.mothership.value == MothershipStep(w.mothership.value, dt)))
      && r.(mothership := w.mothership, mothershipTimer := w.mothershipTimer) == w
  {
  }

  /** Clearing a round below the last: ROUND_TRANSITION with the shield reset; the first
      callback raises the round by exactly one and the second spawns its 32-alien
      formation and resumes play. */
  lemma RoundAdvance(w: WorldState)
    requires w.mode == Playing && |w.aliens| == 0 && w.round != MaxRounds
    ensures var r := RoundCheck(w);
      && r.mode == RoundTransition && r.round == w.round
      && !r.player.shieldActive && r.player.shieldTimer == 0.0 && r.player.shieldCooldownTimer == 0.0
      && BannerElapsed(r).round == w.round + 1 && BannerElapsed(r).mode == RoundTransition
      && BannerElapsed(BannerElapsed(r)).mode == Playing
      && BannerElapsed(BannerElapsed(r)).aliens == Formation(w.round + 1)
      && |BannerElapsed(BannerElapsed(r)).aliens| == 32
  {
    FormationShape(w.round + 1);
  }

  /** Clearing the last round ends the game at once, the round not raised, and no banner
      callback is left to change anything. */
  lemma LastRoundWins(w: WorldState)
    requires w.mode == Playing && |w.aliens| == 0 && w.round == MaxRounds
    ensures var r := RoundCheck(w);
      r.mode == GameOver && r.round == MaxRounds && BannerElapsed(r) == r
  {
  }

  /** A tick that ends the game is final: the round check leaves GAME_OVER alone. */
  lemma GameOverStays(w: WorldState)
    requires w.mode == GameOver
    ensures RoundCheck(w) == w
  {
  }

  /** The banner callbacks and initGame keep the invariant: a fresh formation has no
      diver and nothing queued. */
  lemma BannerKeepsInv(w: WorldState)
    requires Inv(w)
    ensures Inv(BannerElapsed(w))
  {
    if w.banner == RoundIntro {
      FormationShape(w.round);
    }
  }

  lemma StartGameRule(w: WorldState)
    requires w.highScore >= 0
    ensures var r := StartGame(w);
      && Inv(r) && r.score == 0 && r.lives == 3 && r.round == w.round
      && r.highScore == w.highScore && r.mode == RoundTransition
      && r.aliens == [] && r.alienBullets == [] && r.explosions == [] && r.mothership.None?
      && r.player == NewPlayer(SrcPlayerConfig)
  {
  }

  /** togglePause swaps PLAYING and PAUSED, leaves every other state as it is, changes
      nothing but the state, and undoes itself. */
  lemma TogglePauseRule(w: WorldState)
    ensures var r := TogglePause(w);
      && (w.mode == Playing ==> r.mode == Paused)
      && (w.mode == Paused ==> r.mode == Playing)
      && (w.mode != Playing && w.mode != Paused ==> r == w)
      && r.(mode := w.mode) == w
      && TogglePause(r) == w
  {
  }
}
