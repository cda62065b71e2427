/** The older director of alien_revenge/game.js as functions of its state: no lives, no
    explosions and no mothership. Any hit on the player ends the game at once, every
    round is the same 3 by 5 grid, and a round is over when the alien list is empty. */
module Revenge {
  import opened Globals
  import opened Seqs
  import opened Bullets
  import opened Players
  import opened Aliens
  import opened Swarms
  import opened Worlds
  import Collisions

  /** gameState, the high score and the globals player, aliens and alienBullets, plus the
      cursor into the Math.random stream. */
  datatype RevengeState = RevengeState(
    mode: Mode, banner: Banner, round: int, score: int, highScore: int, diveFlag: bool,
    player: PlayerState, aliens: seq<AlienState>, alienBullets: seq<BulletState>, draws: nat)

  /** updateScore: the high score is raised to the score when the score passes it. */
  function UpdateScore(w: RevengeState): RevengeState {
    w.(highScore := if w.score > w.highScore then w.score else w.highScore)
  }

  /** endGame: GAME_OVER and nothing else; the lists stay as they are. */
  function EndGame(w: RevengeState): RevengeState {
    w.(mode := GameOver)
  }

  // ---------------------------------------------------------------------------
  // checkCollisions, phase 1: player bullets against aliens

  /** Player bullet i against alien j: a hit needs both unmarked and the bullet strictly
      inside the alien; it marks both, adds 10 and updates the high score. */
  function HitAlien(w: RevengeState, i: nat, j: nat): (r: RevengeState)
    requires i < |w.player.bullets| && j < |w.aliens|
    ensures |r.player.bullets| == |w.player.bullets| && |r.aliens| == |w.aliens|
  {
    var b := w.player.bullets[i];
    var a := w.aliens[j];
    if !b.marked && !a.marked && Collisions.Inside(b.x, b.y, a.x, a.y, AlienSize, AlienSize) then
      UpdateScore(w.(aliens := w.aliens[j := a.(marked := true)],
                     player := Collisions.MarkPlayerBullet(w.player, i),
                     score := w.score + 10))
    else w
  }

  /** Player bullet i against aliens j, j + 1, ... */
  function HitAliensFrom(w: RevengeState, i: nat, j: nat): (r: RevengeState)
    requires i < |w.player.bullets| && j <= |w.aliens|
    ensures |r.player.bullets| == |w.player.bullets| && |r.aliens| == |w.aliens|
    decreases |w.aliens| - j
  {
    if j == |w.aliens| then w else HitAliensFrom(HitAlien(w, i, j), i, j + 1)
  }

  /** Player bullets i, i + 1, ... each against every alien. */
  function PlayerBulletsFrom(w: RevengeState, i: nat): (r: RevengeState)
    requires i <= |w.player.bullets|
    ensures |r.player.bullets| == |w.player.bullets| && |r.aliens| == |w.aliens|
    decreases |w.player.bullets| - i
  {
    if i == |w.player.bullets| then w else PlayerBulletsFrom(HitAliensFrom(w, i, 0), i + 1)
  }

  // ---------------------------------------------------------------------------
  // Phase 2: enemy bullets against the shield and the player

  /** An unmarked bullet the shield does not stop and that is inside the inset box. */
  predicate Fatal(p: PlayerState, b: BulletState, trig: Trig) {
    !b.marked && !Collisions.ShieldStopsBullet(p, b, trig) && Collisions.BodyHit(p, b)
  }

  /** Enemy bullet idx: skipped when marked; stopped and marked by the shield, which
      skips the body test; otherwise a body hit ends the game, the bullet left unmarked. */
  function EnemyBullet(w: RevengeState, idx: nat, trig: Trig): (r: RevengeState)
    requires idx < |w.alienBullets|
    ensures |r.alienBullets| == |w.alienBullets|
  {
    var b := w.alienBullets[idx];
    if b.marked then w
    else if Collisions.ShieldStopsBullet(w.player, b, trig) then
      w.(alienBullets := w.alienBullets[idx := b.(marked := true)])
    else if Collisions.BodyHit(w.player, b) then EndGame(w)
    else w
  }

  function EnemyBulletsFrom(w: RevengeState, idx: nat, trig: Trig): (r: RevengeState)
    requires idx <= |w.alienBullets|
    ensures |r.alienBullets| == |w.alienBullets|
    decreases |w.alienBullets| - idx
  {
    if idx == |w.alienBullets| then w else EnemyBulletsFrom(EnemyBullet(w, idx, trig), idx + 1, trig)
  }

  // ---------------------------------------------------------------------------
  // Phase 3: aliens against the shield and the player

  /** The alien box overlaps the whole player box. */
  predicate Overlap(p: PlayerState, a: AlienState) {
    a.x < p.x + PlayerWidth && a.x + AlienSize > p.x && a.y < p.y + PlayerHeight && a.y + AlienSize > p.y
  }

  /** Alien idx: skipped when marked; the shield marks it without score, and then, whatever
      the shield did, an overlap with the player ends the game. */
  function AlienContact(w: RevengeState, idx: nat, trig: Trig): (r: RevengeState)
    requires idx < |w.aliens|
    ensures |r.aliens| == |w.aliens|
  {
    var a := w.aliens[idx];
    if a.marked then w
    else
      var v := if Collisions.ShieldTouches(w.player, a, trig)
               then w.(aliens := w.aliens[idx := a.(marked := true)]) else w;
      if Overlap(w.player, a) then EndGame(v) else v
  }

  function AlienContactsFrom(w: RevengeState, idx: nat, trig: Trig): (r: RevengeState)
    requires idx <= |w.aliens|
    ensures |r.aliens| == |w.aliens|
    decreases |w.aliens| - idx
  {
    if idx == |w.aliens| then w else AlienContactsFrom(AlienContact(w, idx, trig), idx + 1, trig)
  }

  /** checkCollisions: the three phases in order. No phase replaces a list, so each walks
      the live list. */
  function CheckCollisions(w: RevengeState, trig: Trig): RevengeState {
    AlienContactsFrom(EnemyBulletsFrom(PlayerBulletsFrom(w, 0), 0, trig), 0, trig)
  }

  // ---------------------------------------------------------------------------
  // gameLoop

  /** What an alien reads: alien_revenge's bullet speeds. */
  function AlienEnv(w: RevengeState, rng: Random, trig: Trig): AlienInputs {
    AlienInputs(w.round, w.player.x, !w.player.isRespawning && !w.player.isReappearing,
                trig, rng, RevengeBulletSpeeds)
  }

  /** The player, then the enemy bullets, each updated and filtered. */
  function Prelude(w: RevengeState, dt: real, keys: Keys): RevengeState {
    w.(player := PlayerStep(w.player, dt, keys, RevengePlayerConfig),
       alienBullets := AdvanceBullets(w.alienBullets, dt))
  }

  /** The dive flag, the alien loop with its drains, then the filter of marked aliens. */
  function SwarmStage(w: RevengeState, dt: real, rng: Random, trig: Trig): RevengeState {
    var s := UpdateSwarm(w.aliens, w.alienBullets, dt, AlienEnv(w, rng, trig), w.draws);
    w.(aliens := Filter(s.aliens, AlienUnmarked), alienBullets := s.alienBullets,
       diveFlag := s.diveFlag, draws := s.draws)
  }

  /** nextRound: ROUND_TRANSITION with the "ROUND n COMPLETED" banner; no shield reset. */
  function NextRound(w: RevengeState): RevengeState {
    w.(mode := RoundTransition, banner := RoundCompleted)
  }

  /** The round check as alien_revenge/game.js:241 writes it: on the alien count alone. */
  function RoundCheckAsWritten(w: RevengeState): RevengeState {
    if |w.aliens| == 0 then NextRound(w) else w
  }

  /** The round check with the state test src/game.js:385 has: a game ended during this
      tick stays ended. */
  function RoundCheck(w: RevengeState): RevengeState {
    if |w.aliens| == 0 && w.mode == Playing then NextRound(w) else w
  }

  /** One gameLoop call with the round check as written. */
  function TickAsWritten(w: RevengeState, dt: real, keys: Keys, rng: Random, trig: Trig): RevengeState {
    if w.mode != Playing then w
    else RoundCheckAsWritten(CheckCollisions(SwarmStage(Prelude(w, dt, keys), dt, rng, trig), trig))
  }

  /** One gameLoop call with the corrected round check. */
  function Tick(w: RevengeState, dt: real, keys: Keys, rng: Random, trig: Trig): RevengeState {
    if w.mode != Playing then w
    else RoundCheck(CheckCollisions(SwarmStage(Prelude(w, dt, keys), dt, rng, trig), trig))
  }

  // ---------------------------------------------------------------------------
  // Formation, banners, start and pause

  const GridSize: nat := 15
  const GridColumns: nat := 5

  /** The x of alien i: centred on a 5 * 100 wide block, 120 apart. */
  function GridX(i: nat): real {
    (GameWidth / 2.0 - (GridColumns as real * 100.0) / 2.0) + (i % GridColumns) as real * 120.0
  }

  function GridY(i: nat): real {
    100.0 + (i / GridColumns) as real * 100.0
  }

  /** The aliens spawnAliens pushes, in order. */
  function Grid(round: int): seq<AlienState> {
    seq(GridSize, i requires 0 <= i < GridSize => NewAlien(GridX(i), GridY(i), round))
  }

  /** spawnAliens, then PLAYING. */
  function Spawn(w: RevengeState): RevengeState {
    w.(aliens := Grid(w.round), mode := Playing, banner := NoBanner)
  }

  /** The pending banner callback firing: after "ROUND n COMPLETED" the round goes up and
      past the last one the game is won and over; after "ROUND n" the grid appears and
      play resumes. */
  function BannerElapsed(w: RevengeState): RevengeState {
    match w.banner
    case NoBanner => w
    case RoundCompleted =>
      if w.round + 1 > MaxRounds then w.(round := w.round + 1, mode := GameOver, banner := NoBanner)
      else w.(round := w.round + 1, banner := RoundIntro)
    case RoundIntro => Spawn(w)
  }

  /** initGame: score 0, round 1, the high score updated, a fresh player, both lists
      empty and the round banner. */
  function StartGame(w: RevengeState): RevengeState {
    UpdateScore(w.(score := 0, round := 1, player := NewPlayer(RevengePlayerConfig),
                   aliens := [], alienBullets := [], mode := RoundTransition, banner := RoundIntro))
  }

  /** togglePause: PLAYING and PAUSED swap; any other state is left alone. */
  function TogglePause(w: RevengeState): RevengeState {
    if w.mode == Playing then w.(mode := Paused)
    else if w.mode == Paused then w.(mode := Playing)
    else w
  }

  // ---------------------------------------------------------------------------
  // Properties of the formation, the score, the rounds and the pause

  /** spawnAliens makes exactly 15 aliens, alien i in column i % 5 and row i / 5 at
      x = GAME_WIDTH / 2 - 250 + 120 * column and y = 100 + 100 * row, each new,
      unmarked, hovering and with nothing queued, so none dives. */
  lemma GridShape(round: int)
    ensures |Grid(round)| == 15
    ensures forall i :: 0 <= i < 15 ==>
      var a := Grid(round)[i];
      a.x == a.baseX == GameWidth / 2.0 - 250.0 + 120.0 * (i % 5) as real
      && a.y == a.baseY == 100.0 + 100.0 * (i / 5) as real
      && a.mode == Hover && !a.marked && a.bullets == []
    ensures Count(Grid(round), IsDiver) == 0
  {
    var g := Grid(round);
    forall i | 0 <= i < |g| ensures !IsDiver(g[i]) {
    }
    CountNone(g, IsDiver);
  }

  /** The alien in row row and column col, for the three rows and five columns. */
  lemma GridCell(round: int, row: nat, col: nat)
    requires row < 3 && col < 5
    ensures Grid(round)[row * 5 + col]
         == NewAlien(GameWidth / 2.0 - 250.0 + 120.0 * col as real, 100.0 + 100.0 * row as real, round)
  {
    var i := row * 5 + col;
    assert i / 5 == row && i % 5 == col;
  }

  /** After updateScore the high score is the larger of the old high score and the
      score, so it never decreases; nothing else changes. */
  lemma UpdateScoreMax(w: RevengeState)
    ensures var r := UpdateScore(w);
      && r.highScore == Max(w.highScore, w.score)
      && r.highScore >= w.highScore && r.highScore >= w.score
      && r.(highScore := w.highScore) == w
  {
  }

  /** Clearing a round: ROUND_TRANSITION, then the round up by exactly one; past the last
      round the game is over, otherwise the next banner spawns the 15-alien grid and play
      resumes. */
  lemma RoundAdvance(w: RevengeState)
    requires w.mode == Playing && |w.aliens| == 0
    ensures var r := RoundCheck(w);
      var r1 := BannerElapsed(r);
      && r.mode == RoundTransition && r.round == w.round && r.player == w.player
      && r1.round == w.round + 1
      && (w.round + 1 > MaxRounds ==> r1.mode == GameOver && BannerElapsed(r1) == r1)
      && (w.round + 1 <= MaxRounds ==>
            r1.mode == RoundTransition && BannerElapsed(r1).mode == Playing
            && BannerElapsed(r1).aliens == Grid(w.round + 1) && |BannerElapsed(r1).aliens| == 15)
  {
    GridShape(w.round + 1);
  }

  /** initGame starts round 1 with score 0, a fresh player, no aliens and no enemy
      bullets, and keeps the high score. */
  lemma StartGameRule(w: RevengeState)
    requires w.highScore >= 0
    ensures var r := StartGame(w);
      && r.score == 0 && r.round == 1 && r.highScore == w.highScore
      && r.mode == RoundTransition && r.banner == RoundIntro
      && r.aliens == [] && r.alienBullets == [] && r.player == NewPlayer(RevengePlayerConfig)
  {
  }

  /** togglePause swaps PLAYING and PAUSED, leaves every other state as it is, changes
      nothing but the state, and undoes itself. */
  lemma TogglePauseRule(w: RevengeState)
    ensures var r := TogglePause(w);
      && (w.mode == Playing ==> r.mode == Paused)
      && (w.mode == Paused ==> r.mode == Playing)
      && (w.mode != Playing && w.mode != Paused ==> r == w)
      && r.(mode := w.mode) == w
      && TogglePause(r) == w
  {
  }

  // ---------------------------------------------------------------------------
  // Properties of checkCollisions

  /** A bullet hits an alien exactly when neither is marked and the bullet is strictly
      inside the alien; a hit marks both, adds exactly 10 and raises the high score to
      the score if it passed it. A miss changes nothing. */
  lemma HitAlienRule(w: RevengeState, i: nat, j: nat)
    requires i < |w.player.bullets| && j < |w.aliens|
    ensures var r := HitAlien(w, i, j);
      var b := w.player.bullets[i];
      var a := w.aliens[j];
      var hit := !b.marked && !a.marked && Collisions.Inside(b.x, b.y, a.x, a.y, AlienSize, AlienSize);
      && (hit ==>
            r.score == w.score + 10 && r.highScore == Max(w.highScore, w.score + 10)
            && r.aliens == w.aliens[j := a.(marked := true)]
            && r.player.bullets == w.player.bullets[i := b.(marked := true)]
            && r.mode == w.mode && r.alienBullets == w.alienBullets)
      && (!hit ==> r == w)
  {
  }

  function Kills(w: RevengeState): nat {
    Count(w.aliens, AlienMarked)
  }

  function Spent(w: RevengeState): nat {
    Count(w.player.bullets, Bullets.Marked)
  }

  /** The scoring ledger of phase 1 between w and r: 10 points per newly marked alien,
      one newly spent bullet for each, the high score tracking the score, and only
      marks changed. */
  predicate Ledger(w: RevengeState, r: RevengeState) {
    && |r.aliens| == |w.aliens| && |r.player.bullets| == |w.player.bullets|
    && r.score - w.score == 10 * (Kills(r) - Kills(w))
    && Kills(r) >= Kills(w)
    && Spent(r) - Spent(w) == Kills(r) - Kills(w)
    && (w.highScore >= w.score ==> r.highScore == Max(w.highScore, r.score))
    && r.player.(bullets := w.player.bullets) == w.player
    && r.mode == w.mode && r.round == w.round && r.alienBullets == w.alienBullets
  }

  lemma LedgerChain(w: RevengeState, v: RevengeState, r: RevengeState)
    requires Ledger(w, v) && Ledger(v, r)
    ensures Ledger(w, r)
  {
  }

  lemma HitAlienLedger(w: RevengeState, i: nat, j: nat)
    requires i < |w.player.bullets| && j < |w.aliens|
    ensures Ledger(w, HitAlien(w, i, j))
  {
    var b := w.player.bullets[i];
    var a := w.aliens[j];
    if !b.marked && !a.marked && Collisions.Inside(b.x, b.y, a.x, a.y, AlienSize, AlienSize) {
      CountUpdate(w.aliens, j, a.(marked := true), AlienMarked);
      CountUpdate(w.player.bullets, i, b.(marked := true), Bullets.Marked);
    }
  }

  lemma {:induction false} HitAliensFromLedger(w: RevengeState, i: nat, j: nat)
    requires i < |w.player.bullets| && j <= |w.aliens|
    ensures Ledger(w, HitAliensFrom(w, i, j))
    decreases |w.aliens| - j
  {
    if j < |w.aliens| {
      var v := HitAlien(w, i, j);
      HitAlienLedger(w, i, j);
      HitAliensFromLedger(v, i, j + 1);
      LedgerChain(w, v, HitAliensFrom(v, i, j + 1));
    }
  }

  lemma {:induction false} PlayerBulletsFromLedger(w: RevengeState, i: nat)
    requires i <= |w.player.bullets|
    ensures Ledger(w, PlayerBulletsFrom(w, i))
    decreases |w.player.bullets| - i
  {
    if i < |w.player.bullets| {
      var v := HitAliensFrom(w, i, 0);
      HitAliensFromLedger(w, i, 0);
      PlayerBulletsFromLedger(v, i + 1);
      LedgerChain(w, v, PlayerBulletsFrom(v, i + 1));
    }
  }

  /** Over phase 1 the score rises by exactly 10 per alien newly marked, and exactly as
      many player bullets are newly spent: no bullet scores twice and none for nothing. */
  lemma PlayerBulletsScoreOnce(w: RevengeState)
    ensures Ledger(w, PlayerBulletsFrom(w, 0))
  {
    PlayerBulletsFromLedger(w, 0);
  }

  /** One enemy bullet: a marked one is skipped; one the shield stops is marked and the
      body test is skipped, so the game goes on; one the shield lets through that is in
      the inset box ends the game and nothing else; any other changes nothing. */
  lemma EnemyBulletRule(w: RevengeState, idx: nat, trig: Trig)
    requires idx < |w.alienBullets|
    ensures var r := EnemyBullet(w, idx, trig);
      var b := w.alienBullets[idx];
      && r.score == w.score && r.highScore == w.highScore && r.player == w.player && r.aliens == w.aliens
      && (b.marked ==> r == w)
      && (!b.marked && Collisions.ShieldStopsBullet(w.player, b, trig) ==>
            r == w.(alienBullets := w.alienBullets[idx := b.(marked := true)]))
      && (Fatal(w.player, b, trig) ==> r == w.(mode := GameOver))
      && (!b.marked && !Collisions.ShieldStopsBullet(w.player, b, trig) && !Collisions.BodyHit(w.player, b) ==> r == w)
  {
  }

  /** One alien: a marked one is skipped; the shield marks it without score; an overlap
      with the player ends the game whether or not the shield marked it. */
  lemma AlienContactRule(w: RevengeState, idx: nat, trig: Trig)
    requires idx < |w.aliens|
    ensures var r := AlienContact(w, idx, trig);
      var a := w.aliens[idx];
      && r.score == w.score && r.highScore == w.highScore && r.player == w.player
      && r.alienBullets == w.alienBullets
      && (a.marked ==> r == w)
      && (!a.marked ==> (r.mode == GameOver <==> w.mode == GameOver || Overlap(w.player, a)))
      && (!a.marked && !Overlap(w.player, a) ==> r.mode == w.mode)
      && (!a.marked && Collisions.ShieldTouches(w.player, a, trig) ==> r.aliens[idx].marked)
      && r.aliens == w.aliens[idx := r.aliens[idx]]
      && r.aliens[idx] == a.(marked := r.aliens[idx].marked)
  {
  }

  /** Phase 2 ends the game exactly when it was already over or some bullet from idx on
      is fatal; otherwise the state is kept. It touches nothing but bullet marks and the
      state. */
  lemma {:induction false} EnemyBulletsEndGame(w: RevengeState, idx: nat, trig: Trig)
    requires idx <= |w.alienBullets|
    ensures var r := EnemyBulletsFrom(w, idx, trig);
      && r.score == w.score && r.highScore == w.highScore && r.player == w.player
      && r.aliens == w.aliens && r.round == w.round
      && (r.mode == GameOver <==>
            w.mode == GameOver
            || exists k :: idx <= k < |w.alienBullets| && Fatal(w.player, w.alienBullets[k], trig))
      && (r.mode != GameOver ==> r.mode == w.mode)
    decreases |w.alienBullets| - idx
  {
    if idx < |w.alienBullets| {
      var t := EnemyBullet(w, idx, trig);
      EnemyBulletRule(w, idx, trig);
      EnemyBulletsEndGame(t, idx + 1, trig);
      assert forall k :: idx < k < |w.alienBullets| ==> t.alienBullets[k] == w.alienBullets[k];
      var r := EnemyBulletsFrom(t, idx + 1, trig);
      if r.mode == GameOver && w.mode != GameOver && !Fatal(w.player, w.alienBullets[idx], trig) {
        var k :| idx + 1 <= k < |t.alienBullets| && Fatal(t.player, t.alienBullets[k], trig);
        assert Fatal(w.player, w.alienBullets[k], trig);
      }
      if exists k :: idx + 1 <= k < |w.alienBullets| && Fatal(w.player, w.alienBullets[k], trig) {
        var k :| idx + 1 <= k < |w.alienBullets| && Fatal(w.player, w.alienBullets[k], trig);
        assert Fatal(t.player, t.alienBullets[k], trig);
      }
    }
  }

  /** Phase 3 ends the game exactly when it was already over or some unmarked alien from
      idx on overlaps the player; it only marks aliens and never touches the score. */
  lemma {:induction false} AlienContactsEndGame(w: RevengeState, idx: nat, trig: Trig)
    requires idx <= |w.aliens|
    ensures var r := AlienContactsFrom(w, idx, trig);
      && r.score == w.score && r.highScore == w.highScore && r.player == w.player
      && r.alienBullets == w.alienBullets && r.round == w.round
      && (r.mode == GameOver <==>
            w.mode == GameOver
            || exists k :: idx <= k < |w.aliens| && !w.aliens[k].marked && Overlap(w.player, w.aliens[k]))
      && (r.mode != GameOver ==> r.mode == w.mode)
    decreases |w.aliens| - idx
  {
    if idx < |w.aliens| {
      var t := AlienContact(w, idx, trig);
      AlienContactRule(w, idx, trig);
      AlienContactsEndGame(t, idx + 1, trig);
      assert forall k :: idx < k < |w.aliens| ==> t.aliens[k] == w.aliens[k];
      var r := AlienContactsFrom(t, idx + 1, trig);
      var a := w.aliens[idx];
      if r.mode == GameOver && w.mode != GameOver && !(!a.marked && Overlap(w.player, a)) {
        var k :| idx + 1 <= k < |t.aliens| && !t.aliens[k].marked && Overlap(t.player, t.aliens[k]);
        assert !w.aliens[k].marked && Overlap(w.player, w.aliens[k]);
      }
      if exists k :: idx + 1 <= k < |w.aliens| && !w.aliens[k].marked && Overlap(w.player, w.aliens[k]) {
        var k :| idx + 1 <= k < |w.aliens| && !w.aliens[k].marked && Overlap(w.player, w.aliens[k]);
        assert !t.aliens[k].marked && Overlap(t.player, t.aliens[k]);
      }
    }
  }

  /** There are no lives: checkCollisions ends the game exactly when an enemy bullet
      gets through the shield into the inset box, or an alien the player's bullets left
      alive overlaps the player; otherwise the state is kept. */
  lemma AnyHitEndsGame(w: RevengeState, trig: Trig)
    requires w.mode == Playing
    ensures var w1 := PlayerBulletsFrom(w, 0);
      var r := CheckCollisions(w, trig);
      && (r.mode == GameOver <==>
            (exists k :: 0 <= k < |w.alienBullets| && Fatal(w1.player, w.alienBullets[k], trig))
            || (exists k :: 0 <= k < |w1.aliens| && !w1.aliens[k].marked && Overlap(w1.player, w1.aliens[k])))
      && (r.mode != GameOver ==> r.mode == Playing)
      && r.score == w1.score && r.highScore == w1.highScore
      && r.round == w.round && |r.aliens| == |w.aliens|
  {
    var w1 := PlayerBulletsFrom(w, 0);
    PlayerBulletsScoreOnce(w);
    assert w1.mode == Playing && w1.alienBullets == w.alienBullets;
    EnemyBulletsEndGame(w1, 0, trig);
    var w2 := EnemyBulletsFrom(w1, 0, trig);
    assert w2.player == w1.player && w2.aliens == w1.aliens;
    AlienContactsEndGame(w2, 0, trig);
  }

  // ---------------------------------------------------------------------------
  // The round check as written

  /** As written, the round check overrides a game over: when the last aliens are gone
      in the tick that ends the game, nextRound puts it back into ROUND_TRANSITION and,
      below the last round, the banners start the next round's play. The corrected check
      keeps GAME_OVER. */
  lemma RoundCheckRevivesLostGame(w: RevengeState)
    requires w.mode == GameOver && |w.aliens| == 0 && w.round < MaxRounds
    ensures var r := RoundCheckAsWritten(w);
      && r.mode == RoundTransition
      && BannerElapsed(BannerElapsed(r)).mode == Playing
      && RoundCheck(w) == w
  {
  }

  /** A whole tick shows it: the aliens all gone after the alien stage (they were all
      shot the tick before) and an enemy bullet getting through to the player. The tick
      as written leaves the game in ROUND_TRANSITION; the corrected one ends it. */
  lemma TickRevivesLostGame(w: RevengeState, dt: real, keys: Keys, rng: Random, trig: Trig, k: nat)
    requires w.mode == Playing
    requires var v := SwarmStage(Prelude(w, dt, keys), dt, rng, trig);
      |v.aliens| == 0 && k < |v.alienBullets| && Fatal(v.player, v.alienBullets[k], trig)
    ensures TickAsWritten(w, dt, keys, rng, trig).mode == RoundTransition
    ensures Tick(w, dt, keys, rng, trig).mode == GameOver
  {
    var v := SwarmStage(Prelude(w, dt, keys), dt, rng, trig);
    assert PlayerBulletsFrom(v, 0) == v by {
      NoAliensNoHits(v, 0);
    }
    AnyHitEndsGame(v, trig);
  }

  lemma {:induction false} NoAliensNoHits(w: RevengeState, i: nat)
    requires |w.aliens| == 0 && i <= |w.player.bullets|
    ensures PlayerBulletsFrom(w, i) == w
    decreases |w.player.bullets| - i
  {
    if i < |w.player.bullets| {
      NoAliensNoHits(w, i + 1);
    }
  }

  /** A concrete case: no aliens left, a fresh player with the shield down, and one enemy
      bullet in the middle of the player's box. Collisions end the game; the round check
      as written turns it back into a round transition. */
  lemma LostGameExample(trig: Trig)
    ensures var p := NewPlayer(RevengePlayerConfig);
      var b := NewBullet(p.x + 50.0, p.y + 50.0, Down, true, RevengeBulletSpeeds);
      var w := RevengeState(Playing, NoBanner, 1, 0, 0, false, p, [], [b], 0);
      CheckCollisions(w, trig).mode == GameOver
      && RoundCheckAsWritten(CheckCollisions(w, trig)).mode == RoundTransition
      && RoundCheck(CheckCollisions(w, trig)).mode == GameOver
  {
    var p := NewPlayer(RevengePlayerConfig);
    var b := NewBullet(p.x + 50.0, p.y + 50.0, Down, true, RevengeBulletSpeeds);
    var w := RevengeState(Playing, NoBanner, 1, 0, 0, false, p, [], [b], 0);
    assert PlayerBulletsFrom(w, 0) == w;
    assert Fatal(p, b, trig);
    assert EnemyBullet(w, 0, trig) == EndGame(w);
    assert EnemyBulletsFrom(w, 0, trig) == EndGame(w);
    assert CheckCollisions(w, trig) == EndGame(w);
  }

  // ---------------------------------------------------------------------------
  // The invariant of the corrected game

  /** At most one alien diving or returning, no bullet waiting in an alien's queue, and a
      high score at least the score. */
  predicate Inv(w: RevengeState) {
    && Count(w.aliens, IsDiver) <= 1
    && (forall i :: 0 <= i < |w.aliens| ==> w.aliens[i].bullets == [])
    && w.highScore >= w.score
  }

  /** checkCollisions changes aliens only by marking them. */
  predicate MarksOnly(w: RevengeState, r: RevengeState) {
    |r.aliens| == |w.aliens|
    && forall k :: 0 <= k < |w.aliens| ==> r.aliens[k] == w.aliens[k].(marked := r.aliens[k].marked)
  }

  lemma {:induction false} HitAliensFromMarks(w: RevengeState, i: nat, j: nat)
    requires i < |w.player.bullets| && j <= |w.aliens|
    ensures MarksOnly(w, HitAliensFrom(w, i, j))
    decreases |w.aliens| - j
  {
    if j < |w.aliens| {
      HitAliensFromMarks(HitAlien(w, i, j), i, j + 1);
    }
  }

  lemma {:induction false} PlayerBulletsFromMarks(w: RevengeState, i: nat)
    requires i <= |w.player.bullets|
    ensures MarksOnly(w, PlayerBulletsFrom(w, i))
    decreases |w.player.bullets| - i
  {
    if i < |w.player.bullets| {
      HitAliensFromMarks(w, i, 0);
      PlayerBulletsFromMarks(HitAliensFrom(w, i, 0), i + 1);
    }
  }

  lemma {:induction false} AlienContactsFromMarks(w: RevengeState, idx: nat, trig: Trig)
    requires idx <= |w.aliens|
    ensures MarksOnly(w, AlienContactsFrom(w, idx, trig))
    decreases |w.aliens| - idx
  {
    if idx < |w.aliens| {
      AlienContactRule(w, idx, trig);
      AlienContactsFromMarks(AlienContact(w, idx, trig), idx + 1, trig);
    }
  }

  lemma CollisionsKeepInv(w: RevengeState, trig: Trig)
    requires Inv(w)
    ensures Inv(CheckCollisions(w, trig))
  {
    var w1 := PlayerBulletsFrom(w, 0);
    PlayerBulletsFromMarks(w, 0);
    PlayerBulletsScoreOnce(w);
    var w2 := EnemyBulletsFrom(w1, 0, trig);
    EnemyBulletsEndGame(w1, 0, trig);
    var r := AlienContactsFrom(w2, 0, trig);
    AlienContactsFromMarks(w2, 0, trig);
    AlienContactsEndGame(w2, 0, trig);
    SameModesCount(w.aliens, r.aliens);
  }

  lemma SwarmStageRule(w: RevengeState, dt: real, rng: Random, trig: Trig)
    requires Inv(w)
    ensures var r := SwarmStage(w, dt, rng, trig);
      && Inv(r) && (forall i :: 0 <= i < |r.aliens| ==> !r.aliens[i].marked)
      && r.mode == w.mode && r.round == w.round
  {
    var env := AlienEnv(w, rng, trig);
    var s := UpdateSwarm(w.aliens, w.alienBullets, dt, env, w.draws);
    SwarmDrains(w.aliens, w.alienBullets, dt, env, w.draws);
    SwarmKeepsOneDiver(w.aliens, w.alienBullets, dt, env, w.draws);
    CountFilter(s.aliens, AlienUnmarked, IsDiver);
    var f := Filter(s.aliens, AlienUnmarked);
    forall i | 0 <= i < |f| ensures f[i].bullets == [] {
      assert f[i] in s.aliens;
    }
  }

  /** Every tick keeps the invariant, never lowers the score or the high score, keeps
      the high score the larger of its old value and the new score, and leaves the round
      alone. */
  lemma TickKeepsInv(w: RevengeState, dt: real, keys: Keys, rng: Random, trig: Trig)
    requires Inv(w)
    ensures var r := Tick(w, dt, keys, rng, trig);
      && Inv(r) && r.score >= w.score && r.highScore == Max(w.highScore, r.score)
      && r.round == w.round
  {
    if w.mode == Playing {
      var w0 := Prelude(w, dt, keys);
      assert Inv(w0);
      SwarmStageRule(w0, dt, rng, trig);
      var w1 := SwarmStage(w0, dt, rng, trig);
      CollisionsKeepInv(w1, trig);
      PlayerBulletsScoreOnce(w1);
      AnyHitEndsGame(w1, trig);
    }
  }

  /** A game that a tick ends stays ended: the corrected round check leaves GAME_OVER
      alone, and no later tick changes anything. Both follow from the guards of
      RoundCheck and Tick. The tick that ends the game with no aliens left is the case
      the fix is for; the second ensures of TickRevivesLostGame states it on that tick. */
  lemma GameOverIsFinal(w: RevengeState, dt: real, keys: Keys, rng: Random, trig: Trig)
    requires w.mode == GameOver
    ensures RoundCheck(w) == w && Tick(w, dt, keys, rng, trig) == w
  {
  }

  /** The banner callbacks keep the invariant: a fresh grid has no diver and nothing
      queued. */
  lemma BannerKeepsInv(w: RevengeState)
    requires Inv(w)
    ensures Inv(BannerElapsed(w))
  {
    if w.banner == RoundIntro {
      GridShape(w.round);
    }
  }
}
