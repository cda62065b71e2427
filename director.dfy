/** src/game.js as the object it is: gameState, the high score and the entity globals as
    fields of one World updated in place, each operation proved to do what the Game
    functions say. Entities inside the lists are values; the player is the Player object. */
module Director {
  import opened Globals
  import opened Seqs
  import opened Bullets
  import opened Players
  import opened Aliens
  import opened Explosions
  import opened Motherships
  import opened Worlds
  import opened Swarms
  import opened Formations
  import Collisions
  import Game

  /** aliens.some(a => a.state === 'DIVE' || a.state === 'RETURN') */
  method SomeDiving(aliens: seq<AlienState>) returns (found: bool)
    ensures found <==> exists i :: 0 <= i < |aliens| && IsDiver(aliens[i])
  {
    found := false;
    var i := 0;
    while i < |aliens| && !found
      invariant 0 <= i <= |aliens|
      invariant found <==> exists k :: 0 <= k < i && IsDiver(aliens[k])
    {
      found := IsDiver(aliens[i]);
      i := i + 1;
    }
  }

  /** The while loop that pops an alien's queue onto the enemy bullets. */
  method Drain(bullets: seq<BulletState>, queue: seq<BulletState>) returns (out: seq<BulletState>)
    ensures out == bullets + Reverse(queue)
  {
    out := bullets;
    var q := queue;
    while |q| > 0
      invariant out + Reverse(q) == bullets + Reverse(queue)
    {
      ReverseLast(q);
      assert out + Reverse(q) == (out + [q[|q| - 1]]) + Reverse(q[..|q| - 1]);
      out := out + [q[|q| - 1]];
      q := q[..|q| - 1];
    }
  }

  /** aliens.forEach: every alien updated in turn against the shared flag and random
      cursor, its queue drained onto the enemy bullets. */
  method UpdateEach(s0: SwarmState, dt: real, env: AlienInputs) returns (s: SwarmState)
    ensures s == UpdateFrom(s0, 0, dt, env)
  {
    s := s0;
    var j := 0;
    while j < |s.aliens|
      invariant 0 <= j <= |s.aliens| && |s.aliens| == |s0.aliens|
      invariant UpdateFrom(s, j, dt, env) == UpdateFrom(s0, 0, dt, env)
    {
      var u := AlienStep(s.aliens[j], dt, env, s.diveFlag, s.draws);
      var bs := Drain(s.alienBullets, u.alien.bullets);
      s := SwarmState(s.aliens[j := u.alien.(bullets := [])], bs, u.diveFlag, u.draws);
      j := j + 1;
    }
  }

  /** The alien stage of a tick on the state's values. */
  method SwarmStageOf(w: WorldState, dt: real, rng: Random, trig: Trig) returns (r: WorldState)
    ensures r == Game.SwarmStage(w, dt, rng, trig)
  {
    var env := AlienInputs(w.round, w.player.x, !w.player.isRespawning && !w.player.isReappearing,
                           trig, rng, SrcBulletSpeeds);
    var flag := SomeDiving(w.aliens);
    var s := UpdateEach(SwarmState(w.aliens, w.alienBullets, flag, w.draws), dt, env);
    r := w.(aliens := Filter(s.aliens, AlienUnmarked), alienBullets := s.alienBullets,
            diveFlag := s.diveFlag, draws := s.draws);
  }

  class World {
    var mode: Mode
    var banner: Banner
    var round: int
    var score: int
    var lives: int
    var highScore: int
    var diveFlag: bool
    var mothershipTimer: real
    var player: Player
    var aliens: seq<AlienState>
    var alienBullets: seq<BulletState>
    var explosions: seq<ExplosionState>
    var mothership: Option<MothershipState>
    /** The cursor into the Math.random stream. */
    var draws: nat
    const rng: Random
    const trig: Trig

    function Snapshot(): WorldState
      reads this, player
    {
      WorldState(mode, banner, round, score, lives, highScore, diveFlag, mothershipTimer,
                 player.State(), aliens, alienBullets, explosions, mothership, draws)
    }

    /** The player is src/Player.js's, 100 by 100. */
    ghost predicate Valid()
      reads this
    {
      player.cfg == SrcPlayerConfig && player.width == PlayerWidth && player.height == PlayerHeight
    }

    /** The page loaded: the menu, round 1, the stored high score. */
    constructor (storedHighScore: int, rng: Random, trig: Trig)
      ensures Valid() && this.rng == rng && this.trig == trig
      ensures Snapshot() == WorldState(Menu, NoBanner, 1, 0, PlayerLives, storedHighScore, false, 0.0,
                                       NewPlayer(SrcPlayerConfig), [], [], [], None, 0)
    {
      mode := Menu;
      banner := NoBanner;
      round := 1;
      score := 0;
      lives := PlayerLives;
      highScore := storedHighScore;
      diveFlag := false;
      mothershipTimer := 0.0;
      player := new Player(SrcPlayerConfig);
      aliens := [];
      alienBullets := [];
      explosions := [];
      mothership := None;
      draws := 0;
      this.rng := rng;
      this.trig := trig;
    }

    method UpdateScore()
      modifies this
      ensures player == old(player)
      ensures Snapshot() == Worlds.UpdateScore(old(Snapshot()))
    {
      if score > highScore {
        highScore := score;
      }
    }

    method EndGame()
      modifies this, player
      ensures player == old(player)
      ensures Snapshot() == Worlds.EndGame(old(Snapshot()))
    {
      mode := GameOver;
      aliens := [];
      alienBullets := [];
      player.bullets := [];
      explosions := [];
      mothership := None;
    }

    method HandlePlayerHit()
      modifies this, player
      ensures player == old(player)
      ensures Snapshot() == Worlds.HandlePlayerHit(old(Snapshot()))
    {
      lives := lives - 1;
      if lives <= 0 {
        EndGame();
      } else {
        player.StartRespawn();
        alienBullets := [];
      }
    }

    method AddExplosion(x: real, y: real, color: string)
      modifies this
      ensures player == old(player)
      ensures Snapshot() == Collisions.AddExplosion(old(Snapshot()), x, y, color, rng)
    {
      explosions := explosions + [NewExplosion(x, y, color, rng, draws)];
      draws := draws + DrawsPerExplosion;
    }

    // -------------------------------------------------------------------------
    // checkCollisions

    method BulletAlien(i: nat, j: nat)
      requires i < |player.bullets| && j < |aliens|
      modifies this, player
      ensures player == old(player)
      ensures Snapshot() == Collisions.BulletAlien(old(Snapshot()), i, j, rng)
    {
      var b := player.bullets[i];
      var a := aliens[j];
      if !b.marked && !a.marked && b.x > a.x && b.x < a.x + AlienSize && b.y > a.y && b.y < a.y + AlienSize {
        aliens := aliens[j := a.(marked := true)];
        player.bullets := player.bullets[i := b.(marked := true)];
        score := score + 10;
        AddExplosion(a.x + AlienSize / 2.0, a.y + AlienSize / 2.0, "orange");
        UpdateScore();
      }
    }

    method BulletMothership(i: nat)
      requires i < |player.bullets|
      modifies this, player
      ensures player == old(player)
      ensures Snapshot() == Collisions.BulletMothership(old(Snapshot()), i, rng)
    {
      var b := player.bullets[i];
      if mothership.Some? {
        var m := mothership.value;
        if !m.marked && !b.marked && b.x > m.x && b.x < m.x + m.width && b.y > m.y && b.y < m.y + m.height {
          player.bullets := player.bullets[i := b.(marked := true)];
          score := score + 50;
          AddExplosion(m.x + m.width / 2.0, m.y + m.height / 2.0, "red");
          UpdateScore();
          mothership := None;
        }
      }
    }

    /** Every player bullet against every alien, then against the mothership. */
    method PlayerBulletsPhase()
      modifies this, player
      ensures player == old(player)
      ensures Snapshot() == Collisions.BulletsFrom(old(Snapshot()), 0, rng)
    {
      var i := 0;
      while i < |player.bullets|
        invariant player == old(player)
        invariant 0 <= i <= |player.bullets|
        invariant Collisions.BulletsFrom(Snapshot(), i, rng) == Collisions.BulletsFrom(old(Snapshot()), 0, rng)
      {
        ghost var start := Snapshot();
        var j := 0;
        while j < |aliens|
          invariant player == old(player)
          invariant 0 <= j <= |aliens| && i < |player.bullets|
          invariant |aliens| == |start.aliens| && |player.bullets| == |start.player.bullets|
          invariant Collisions.AliensFrom(Snapshot(), i, j, rng) == Collisions.AliensFrom(start, i, 0, rng)
        {
          BulletAlien(i, j);
          j := j + 1;
        }
        BulletMothership(i);
        i := i + 1;
      }
    }

    method MarkEnemyBullet(idx: nat)
      modifies this
      ensures player == old(player)
      ensures Snapshot() == Collisions.MarkEnemyBullet(old(Snapshot()), idx)
    {
      if idx < |alienBullets| {
        alienBullets := alienBullets[idx := alienBullets[idx].(marked := true)];
      }
    }

    /** One enemy bullet of the list the phase started with. */
    method EnemyBullet(b: BulletState, idx: nat)
      requires Valid()
      modifies this, player
      ensures player == old(player)
      ensures Snapshot() == Collisions.EnemyBullet(old(Snapshot()), b, idx, rng, trig)
    {
      if b.marked {
        return;
      }
      if player.shieldActive {
        var dx := b.x - (player.x + player.width / 2.0);
        var dy := b.y - (player.y + player.height / 2.0);
        var dist := Sqrt(trig, Dist2(dx, dy));
        if dist < 80.0 + b.radius {
          MarkEnemyBullet(idx);
          AddExplosion(b.x, b.y, "white");
          return;
        }
      }
      if b.x > player.x + 20.0 && b.x < player.x + player.width - 20.0
         && b.y > player.y + 20.0 && b.y < player.y + player.height - 20.0 {
        MarkEnemyBullet(idx);
        AddExplosion(player.x + player.width / 2.0, player.y + player.height / 2.0, "white");
        HandlePlayerHit();
      }
    }

    method EnemyBulletsPhase()
      requires Valid()
      modifies this, player
      ensures player == old(player)
      ensures Snapshot() == Collisions.EnemyBulletsFrom(old(Snapshot()), old(alienBullets), 0, rng, trig)
    {
      var bs := alienBullets;
      var idx := 0;
      while idx < |bs|
        invariant player == old(player) && Valid()
        invariant 0 <= idx <= |bs|
        invariant Collisions.EnemyBulletsFrom(Snapshot(), bs, idx, rng, trig)
               == Collisions.EnemyBulletsFrom(old(Snapshot()), bs, 0, rng, trig)
      {
        EnemyBullet(bs[idx], idx);
        idx := idx + 1;
      }
    }

    method MarkAlien(idx: nat)
      modifies this
      ensures player == old(player)
      ensures Snapshot() == Collisions.MarkAlien(old(Snapshot()), idx)
    {
      if idx < |aliens| {
        aliens := aliens[idx := aliens[idx].(marked := true)];
      }
    }

    /** One alien of the list the phase started with: the shield test, then always the
        kamikaze test. */
    method AlienContact(a: AlienState, idx: nat)
      requires Valid()
      modifies this, player
      ensures player == old(player)
      ensures Snapshot() == Collisions.AlienContact(old(Snapshot()), a, idx, rng, trig)
    {
      if a.marked {
        return;
      }
      ShieldTest(a, idx);
      CrashTest(a, idx);
    }

    /** The shield half of one alien's test. */
    method ShieldTest(a: AlienState, idx: nat)
      requires Valid()
      modifies this, player
      ensures player == old(player) && Valid()
      ensures Snapshot() == Collisions.ShieldContact(old(Snapshot()), a, idx, rng, trig)
    {
      if player.shieldActive {
        var dx := (a.x + AlienSize / 2.0) - (player.x + player.width / 2.0);
        var dy := (a.y + AlienSize / 2.0) - (player.y + player.height / 2.0);
        var dist := Sqrt(trig, Dist2(dx, dy));
        if dist < 80.0 + 40.0 {
          MarkAlien(idx);
          AddExplosion(a.x + AlienSize / 2.0, a.y + AlienSize / 2.0, "orange");
        }
      }
    }

    /** The kamikaze half of one alien's test. */
    method CrashTest(a: AlienState, idx: nat)
      requires Valid()
      modifies this, player
      ensures player == old(player)
      ensures Snapshot() == Collisions.CrashContact(old(Snapshot()), a, idx, rng)
    {
      if a.x < player.x + player.width - 25.0 && a.x + AlienSize > player.x + 25.0
         && a.y < player.y + player.height - 20.0 && a.y + AlienSize > player.y + 20.0 {
        MarkAlien(idx);
        AddExplosion(player.x + player.width / 2.0, player.y + player.height / 2.0, "white");
        HandlePlayerHit();
      }
    }

    method AliensPhase()
      requires Valid()
      modifies this, player
      ensures player == old(player)
      ensures Snapshot() == Collisions.AlienContactsFrom(old(Snapshot()), old(aliens), 0, rng, trig)
    {
      var snap := aliens;
      var idx := 0;
      while idx < |snap|
        invariant player == old(player) && Valid()
        invariant 0 <= idx <= |snap|
        invariant Collisions.AlienContactsFrom(Snapshot(), snap, idx, rng, trig)
               == Collisions.AlienContactsFrom(old(Snapshot()), snap, 0, rng, trig)
      {
        AlienContact(snap[idx], idx);
        idx := idx + 1;
      }
    }

    method CheckCollisions()
      requires Valid()
      modifies this, player
      ensures player == old(player)
      ensures Snapshot() == Collisions.CheckCollisions(old(Snapshot()), rng, trig)
    {
      PlayerBulletsPhase();
      EnemyBulletsPhase();
      AliensPhase();
    }

    // -------------------------------------------------------------------------
    // gameLoop

    /** The dive flag, every alien updated with its queue drained, then the filter. */
    method UpdateAliens(dt: real)
      modifies this
      ensures player == old(player)
      ensures Snapshot() == Game.SwarmStage(old(Snapshot()), dt, rng, trig)
    {
      var r := SwarmStageOf(Snapshot(), dt, rng, trig);
      aliens, alienBullets, diveFlag, draws := r.aliens, r.alienBullets, r.diveFlag, r.draws;
    }

    method MothershipLogic(dt: real)
      modifies this
      ensures player == old(player)
      ensures Snapshot() == Game.MothershipLogic(old(Snapshot()), dt)
    {
      if mothership.None? {
        mothershipTimer := mothershipTimer + dt;
        if mothershipTimer > 15000.0 {
          mothership := Some(NewMothership(round));
          mothershipTimer := 0.0;
        }
      } else {
        var m := MothershipStep(mothership.value, dt);
        mothership := if m.marked then None else Some(m);
      }
    }

    method NextRound()
      modifies this, player
      ensures player == old(player)
      ensures Snapshot() == Game.NextRound(old(Snapshot()))
    {
      mode := RoundTransition;
      player.ResetShield();
      if round == MaxRounds {
        mode := GameOver;
        banner := NoBanner;
      } else {
        banner := RoundCompleted;
      }
    }

    /** One gameLoop call with deltaTime dt and the keys held. */
    method Tick(dt: real, keys: Keys)
      requires Valid()
      modifies this, player
      ensures Valid() && player == old(player)
      ensures Snapshot() == Game.Tick(old(Snapshot()), dt, keys, rng, trig)
    {
      if mode != Playing {
        return;
      }
      player.Update(dt, keys);
      alienBullets := AdvanceBullets(alienBullets, dt);
      explosions := AdvanceExplosions(explosions);
      ghost var w0 := Snapshot();
      assert w0 == Game.Prelude(old(Snapshot()), dt, keys);
      UpdateAliens(dt);
      ghost var w1 := Snapshot();
      CheckCollisions();
      ghost var w2 := Snapshot();
      assert w2 == Collisions.CheckCollisions(w1, rng, trig);
      MothershipLogic(dt);
      if |aliens| == 0 && mode == Playing {
        NextRound();
      }
    }

    // -------------------------------------------------------------------------
    // Rounds, start and pause

    /** spawnAliens: the 32 aliens of the current round's formation. */
    method SpawnAliens()
      modifies this
      ensures player == old(player)
      ensures Snapshot() == old(Snapshot()).(aliens := Formation(round))
    {
      var formation: seq<AlienState> := [];
      var i := 0;
      while i < 32
        invariant 0 <= i <= 32
        invariant formation == Formation(round)[..i]
      {
        var slot := FormationSlot(round, i);
        formation := formation + [NewAlien(slot.x, slot.y, round)];
        i := i + 1;
      }
      aliens := formation;
    }

    /** The pending banner callback firing. */
    method BannerElapsed()
      modifies this
      ensures player == old(player)
      ensures Snapshot() == Game.BannerElapsed(old(Snapshot()))
    {
      match banner
      case NoBanner =>
      case RoundCompleted =>
        round := round + 1;
        banner := RoundIntro;
      case RoundIntro =>
        SpawnAliens();
        mode := Playing;
        banner := NoBanner;
    }

    /** The entity part of initGame: a fresh player, every list empty, no mothership,
        the timer at 0 and the round banner pending. */
    method ResetEntities()
      modifies this
      ensures Valid() && fresh(player)
      ensures Snapshot() == old(Snapshot()).(player := NewPlayer(SrcPlayerConfig),
        aliens := [], alienBullets := [], explosions := [], mothership := None,
        mothershipTimer := 0.0, mode := RoundTransition, banner := RoundIntro)
    {
      ghost var w := Snapshot();
      var p := new Player(SrcPlayerConfig);
      assert p.State() == NewPlayer(SrcPlayerConfig);
      player, aliens, alienBullets, explosions, mothership, mothershipTimer, mode, banner :=
        p, [], [], [], None, 0.0, RoundTransition, RoundIntro;
      assert Valid();
      assert Snapshot() == w.(player := NewPlayer(SrcPlayerConfig),
        aliens := [], alienBullets := [], explosions := [], mothership := None,
        mothershipTimer := 0.0, mode := RoundTransition, banner := RoundIntro);
    }

    /** initGame, with a new Player. */
    method StartGame()
      modifies this
      ensures Valid() && fresh(player)
      ensures Snapshot() == Game.StartGame(old(Snapshot()))
    {
      score, lives := 0, PlayerLives;
      UpdateScore();
      ResetEntities();
    }

    method TogglePause()
      modifies this
      ensures player == old(player)
      ensures Snapshot() == Game.TogglePause(old(Snapshot()))
    {
      if mode == Playing {
        mode := Paused;
      } else if mode == Paused {
        mode := Playing;
      }
    }
  }
}
