/** alien_revenge/game.js as the object it is: gameState, the high score and the entity
    globals as fields of one world updated in place, each operation proved to do what the
    Revenge functions say. */
module RevengeDirector {
  import opened Globals
  import opened Seqs
  import opened Bullets
  import opened Players
  import opened Aliens
  import opened Swarms
  import opened Worlds
  import Director
  import Revenge

  /** The alien stage of a tick on the state's values, with the alien loop and its
      drains as src/game.js runs them. */
  method SwarmStageOf(w: Revenge.RevengeState, dt: real, rng: Random, trig: Trig) returns (r: Revenge.RevengeState)
    ensures r == Revenge.SwarmStage(w, dt, rng, trig)
  {
    var env := AlienInputs(w.round, w.player.x, !w.player.isRespawning && !w.player.isReappearing,
                           trig, rng, RevengeBulletSpeeds);
    var flag := Director.SomeDiving(w.aliens);
    var s := Director.UpdateEach(SwarmState(w.aliens, w.alienBullets, flag, w.draws), dt, env);
    r := w.(aliens := Filter(s.aliens, AlienUnmarked), alienBullets := s.alienBullets,
            diveFlag := s.diveFlag, draws := s.draws);
  }

  class RevengeWorld {
    var mode: Mode
    var banner: Banner
    var round: int
    var score: int
    var highScore: int
    var diveFlag: bool
    var player: Player
    var aliens: seq<AlienState>
    var alienBullets: seq<BulletState>
    /** The cursor into the Math.random stream. */
    var draws: nat
    const rng: Random
    const trig: Trig

    function Snapshot(): Revenge.RevengeState
      reads this, player
    {
      Revenge.RevengeState(mode, banner, round, score, highScore, diveFlag, player.State(),
                           aliens, alienBullets, draws)
    }

    /** The player is src/Player.js's, with alien_revenge's constants. */
    ghost predicate Valid()
      reads this
    {
      player.cfg == RevengePlayerConfig && player.width == PlayerWidth && player.height == PlayerHeight
    }

    /** The page loaded: the menu, round 1, the stored high score. */
    constructor (storedHighScore: int, rng: Random, trig: Trig)
      ensures Valid() && this.rng == rng && this.trig == trig
      ensures Snapshot() == Revenge.RevengeState(Menu, NoBanner, 1, 0, storedHighScore, false,
                                                 NewPlayer(RevengePlayerConfig), [], [], 0)
    {
      mode := Menu;
      banner := NoBanner;
      round := 1;
      score := 0;
      highScore := storedHighScore;
      diveFlag := false;
      player := new Player(RevengePlayerConfig);
      aliens := [];
      alienBullets := [];
      draws := 0;
      this.rng := rng;
      this.trig := trig;
    }

    method UpdateScore()
      modifies this
      ensures player == old(player)
      ensures Snapshot() == Revenge.UpdateScore(old(Snapshot()))
    {
      if score > highScore {
        highScore := score;
      }
    }

    method EndGame()
      modifies this
      ensures player == old(player)
      ensures Snapshot() == Revenge.EndGame(old(Snapshot()))
    {
      mode := GameOver;
    }

    // -------------------------------------------------------------------------
    // checkCollisions

    method HitAlien(i: nat, j: nat)
      requires i < |player.bullets| && j < |aliens|
      modifies this, player
      ensures player == old(player)
      ensures Snapshot() == Revenge.HitAlien(old(Snapshot()), i, j)
    {
      var b := player.bullets[i];
      var a := aliens[j];
      if !b.marked && !a.marked && b.x > a.x && b.x < a.x + AlienSize && b.y > a.y && b.y < a.y + AlienSize {
        aliens := aliens[j := a.(marked := true)];
        player.bullets := player.bullets[i := b.(marked := true)];
        score := score + 10;
        UpdateScore();
      }
    }

    method PlayerBulletsPhase()
      modifies this, player
      ensures player == old(player)
      ensures Snapshot() == Revenge.PlayerBulletsFrom(old(Snapshot()), 0)
    {
      var i := 0;
      while i < |player.bullets|
        invariant player == old(player)
        invariant 0 <= i <= |player.bullets|
        invariant Revenge.PlayerBulletsFrom(Snapshot(), i) == Revenge.PlayerBulletsFrom(old(Snapshot()), 0)
      {
        ghost var start := Snapshot();
        var j := 0;
        while j < |aliens|
          invariant player == old(player)
          invariant 0 <= j <= |aliens| && i < |player.bullets|
          invariant |aliens| == |start.aliens| && |player.bullets| == |start.player.bullets|
          invariant Revenge.HitAliensFrom(Snapshot(), i, j) == Revenge.HitAliensFrom(start, i, 0)
        {
          HitAlien(i, j);
          j := j + 1;
        }
        i := i + 1;
      }
    }

    /** One enemy bullet: the shield test, which returns on a stop, then the body test. */
    method EnemyBullet(idx: nat)
      requires Valid() && idx < |alienBullets|
      modifies this
      ensures player == old(player)
      ensures Snapshot() == Revenge.EnemyBullet(old(Snapshot()), idx, trig)
    {
      var b := alienBullets[idx];
      if b.marked {
        return;
      }
      if player.shieldActive {
        var dx := b.x - (player.x + player.width / 2.0);
        var dy := b.y - (player.y + player.height / 2.0);
        var dist := Sqrt(trig, Dist2(dx, dy));
        if dist < 80.0 + b.radius {
          alienBullets := alienBullets[idx := b.(marked := true)];
          return;
        }
      }
      if b.x > player.x + 20.0 && b.x < player.x + player.width - 20.0
         && b.y > player.y + 20.0 && b.y < player.y + player.height - 20.0 {
        EndGame();
      }
    }

    method EnemyBulletsPhase()
      requires Valid()
      modifies this
      ensures player == old(player)
      ensures Snapshot() == Revenge.EnemyBulletsFrom(old(Snapshot()), 0, trig)
    {
      var idx := 0;
      while idx < |alienBullets|
        invariant player == old(player) && Valid()
        invariant 0 <= idx <= |alienBullets|
        invariant Revenge.EnemyBulletsFrom(Snapshot(), idx, trig) == Revenge.EnemyBulletsFrom(old(Snapshot()), 0, trig)
      {
        EnemyBullet(idx);
        idx := idx + 1;
      }
    }

    /** One alien: the shield test, then always the overlap test. */
    method AlienContact(idx: nat)
      requires Valid() && idx < |aliens|
      modifies this
      ensures player == old(player)
      ensures Snapshot() == Revenge.AlienContact(old(Snapshot()), idx, trig)
    {
      var a := aliens[idx];
      if a.marked {
        return;
      }
      if player.shieldActive {
        var dx := (a.x + AlienSize / 2.0) - (player.x + player.width / 2.0);
        var dy := (a.y + AlienSize / 2.0) - (player.y + player.height / 2.0);
        var dist := Sqrt(trig, Dist2(dx, dy));
        if dist < 80.0 + 40.0 {
          aliens := aliens[idx := a.(marked := true)];
        }
      }
      if a.x < player.x + player.width && a.x + AlienSize > player.x
         && a.y < player.y + player.height && a.y + AlienSize > player.y {
        EndGame();
      }
    }

    method AliensPhase()
      requires Valid()
      modifies this
      ensures player == old(player)
      ensures Snapshot() == Revenge.AlienContactsFrom(old(Snapshot()), 0, trig)
    {
      var idx := 0;
      while idx < |aliens|
        invariant player == old(player) && Valid()
        invariant 0 <= idx <= |aliens|
        invariant Revenge.AlienContactsFrom(Snapshot(), idx, trig) == Revenge.AlienContactsFrom(old(Snapshot()), 0, trig)
      {
        AlienContact(idx);
        idx := idx + 1;
      }
    }

    method CheckCollisions()
      requires Valid()
      modifies this, player
      ensures player == old(player)
      ensures Snapshot() == Revenge.CheckCollisions(old(Snapshot()), trig)
    {
      PlayerBulletsPhase();
      EnemyBulletsPhase();
      AliensPhase();
    }

    // -------------------------------------------------------------------------
    // gameLoop

    /** The dive flag, every alien updated with its queue drained, then the filter. */
    method UpdateAliens(dt: real)
      modifies this
      ensures player == old(player)
      ensures Snapshot() == Revenge.SwarmStage(old(Snapshot()), dt, rng, trig)
    {
      var r := SwarmStageOf(Snapshot(), dt, rng, trig);
      aliens, alienBullets, diveFlag, draws := r.aliens, r.alienBullets, r.diveFlag, r.draws;
    }

    method NextRound()
      modifies this
      ensures player == old(player)
      ensures Snapshot() == Revenge.NextRound(old(Snapshot()))
    {
      mode := RoundTransition;
      banner := RoundCompleted;
    }

    /** One gameLoop call with deltaTime dt and the keys held, with the round check that
        keeps a game over. */
    method Tick(dt: real, keys: Keys)
      requires Valid()
      modifies this, player
      ensures Valid() && player == old(player)
      ensures Snapshot() == Revenge.Tick(old(Snapshot()), dt, keys, rng, trig)
    {
      if mode != Playing {
        return;
      }
      player.Update(dt, keys);
      alienBullets := AdvanceBullets(alienBullets, dt);
      ghost var w0 := Snapshot();
      assert w0 == Revenge.Prelude(old(Snapshot()), dt, keys);
      UpdateAliens(dt);
      CheckCollisions();
      if |aliens| == 0 && mode == Playing {
        NextRound();
      }
    }

    // -------------------------------------------------------------------------
    // Rounds, start and pause

    /** spawnAliens: three rows of five. */
    method SpawnAliens()
      modifies this
      ensures player == old(player)
      ensures Snapshot() == old(Snapshot()).(aliens := Revenge.Grid(round))
    {
      var grid: seq<AlienState> := [];
      var i := 0;
      while i < 15
        invariant 0 <= i <= 15
        invariant grid == Revenge.Grid(round)[..i]
      {
        var row := i / 5;
        var col := i % 5;
        var x := (GameWidth / 2.0 - (5.0 * 100.0) / 2.0) + col as real * 120.0;
        var y := 100.0 + row as real * 100.0;
        grid := grid + [NewAlien(x, y, round)];
        i := i + 1;
      }
      aliens := grid;
    }

    /** The pending banner callback firing. */
    method BannerElapsed()
      modifies this
      ensures player == old(player)
      ensures Snapshot() == Revenge.BannerElapsed(old(Snapshot()))
    {
      match banner
      case NoBanner =>
      case RoundCompleted =>
        round := round + 1;
        if round > MaxRounds {
          mode := GameOver;
          banner := NoBanner;
        } else {
          banner := RoundIntro;
        }
      case RoundIntro =>
        SpawnAliens();
        mode := Playing;
        banner := NoBanner;
    }

    /** The entity part of initGame: a fresh player, both lists empty and the round
        banner pending. */
    method ResetEntities()
      modifies this
      ensures Valid() && fresh(player)
      ensures Snapshot() == old(Snapshot()).(player := NewPlayer(RevengePlayerConfig),
        aliens := [], alienBullets := [], mode := RoundTransition, banner := RoundIntro)
    {
      ghost var w := Snapshot();
      var p := new Player(RevengePlayerConfig);
      assert p.State() == NewPlayer(RevengePlayerConfig);
      player, aliens, alienBullets, mode, banner := p, [], [], RoundTransition, RoundIntro;
      assert Valid();
      assert Snapshot() == w.(player := NewPlayer(RevengePlayerConfig),
        aliens := [], alienBullets := [], mode := RoundTransition, banner := RoundIntro);
    }

    /** initGame, with a new Player. */
    method StartGame()
      modifies this
      ensures Valid() && fresh(player)
      ensures Snapshot() == Revenge.StartGame(old(Snapshot()))
    {
      score, round := 0, 1;
      UpdateScore();
      ResetEntities();
    }

    method TogglePause()
      modifies this
      ensures player == old(player)
      ensures Snapshot() == Revenge.TogglePause(old(Snapshot()))
    {
      if mode == Playing {
        mode := Paused;
      } else if mode == Paused {
        mode := Playing;
      }
    }
  }
}
