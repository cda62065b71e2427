/** The alien AI of src/Alien.js: a HOVER -> DIVE -> RETURN -> HOVER cycle with a single
    shared dive claim, and random shooting while the player is active. */
module Aliens {
  import opened Globals
  import opened Seqs
  import opened Bullets

  const AlienSize: real := 80.0

  datatype AlienMode = Hover | Dive | Return

  datatype AlienState = AlienState(
    x: real, y: real, baseX: real, baseY: real,
    speedX: real, speedY: real, angle: real, marked: bool,
    mode: AlienMode, diveTargetX: real, diveTargetY: real, diveSpeed: real,
    bullets: seq<BulletState>)

  /** The constructor, for the current round. */
  function NewAlien(x: real, y: real, round: int): AlienState {
    AlienState(x, y, x, y, 3.0 + round as real * 0.5, 1.0 + round as real * 0.2, 0.0, false,
               Hover, 0.0, 0.0, 5.0 + round as real, [])
  }

  /** What an update reads besides the alien itself: the round, the player's x and
      whether the player is active (neither respawning nor reappearing), the maths
      functions, the random stream and the bullet speeds. */
  datatype AlienInputs = AlienInputs(round: int, playerX: real, playerActive: bool,
                                     trig: Trig, rng: Random, speeds: BulletSpeeds)

  /** An updated alien with the shared activeDiveInProgress flag and the random cursor. */
  datatype AlienUpdate = AlienUpdate(alien: AlienState, diveFlag: bool, draws: nat)

  predicate IsDiver(a: AlienState) {
    a.mode == Dive || a.mode == Return
  }

  /** Two alien lists with the same modes, position by position, hold the same number of
      divers: updates that change anything but the mode keep activeDiveInProgress's count. */
  lemma {:induction false} SameModesCount(a: seq<AlienState>, b: seq<AlienState>)
    requires |a| == |b| && forall i :: 0 <= i < |a| ==> a[i].mode == b[i].mode
    ensures Count(a, IsDiver) == Count(b, IsDiver)
  {
    if a != [] {
      SameModesCount(a[1..], b[1..]);
    }
  }

  predicate AlienMarked(a: AlienState) {
    a.marked
  }

  predicate AlienUnmarked(a: AlienState) {
    !a.marked
  }

  /** The only transitions the machine has: stay, or move one step around the cycle. */
  predicate NextMode(m1: AlienMode, m2: AlienMode) {
    m1 == m2
    || (m1 == Hover && m2 == Dive) || (m1 == Dive && m2 == Return) || (m1 == Return && m2 == Hover)
  }

  function DiveChance(round: int, dt: real): real {
    0.001 * round as real * TimeScale(dt)
  }

  function ShootChance(mode: AlienMode, round: int, dt: real): real {
    (if mode == Dive then 0.02 else 0.002 * round as real) * TimeScale(dt)
  }

  /** HOVER: swing around the base on the sine of the angle, bob on its cosine (not in
      round 1), and from round 3 on, when no alien holds the dive claim, draw to start a
      dive at the player's current x. The draw happens only when the first two tests
      pass, as the source's && short-circuits. */
  function HoverStep(a: AlienState, dt: real, env: AlienInputs, flag: bool, k: nat): AlienUpdate {
    var angle := a.angle + 0.02 * env.round as real * TimeScale(dt);
    var bob := if env.round == 1 then 0.0 else Cos(env.trig, angle * 2.0) * 50.0;
    var moved := a.(angle := angle, x := a.baseX + Sin(env.trig, angle) * 200.0, y := a.baseY + bob);
    if env.round >= 3 && !flag then
      if env.rng(k) < DiveChance(env.round, dt) then
        AlienUpdate(moved.(mode := Dive, diveTargetX := env.playerX, diveTargetY := GameHeight + 100.0),
                    true, k + 1)
      else AlienUpdate(moved, flag, k + 1)
    else AlienUpdate(moved, flag, k)
  }

  /** DIVE: close on the target at diveSpeed; once less than 10 from it or below the
      screen, jump back above the base lane and return. */
  function DiveStep(a: AlienState, dt: real, env: AlienInputs): AlienState {
    var dx := a.diveTargetX - a.x;
    var dy := a.diveTargetY - a.y;
    var dist := Sqrt(env.trig, Dist2(dx, dy));
    if dist < 10.0 || a.y > GameHeight then
      a.(y := -100.0, x := a.baseX, mode := Return)
    else
      a.(x := Toward(a.x, a.diveTargetX, dist, a.diveSpeed, dt),
         y := Toward(a.y, a.diveTargetY, dist, a.diveSpeed, dt))
  }

  /** RETURN: fly back to the base at speedX; less than 10 from it, hover again. */
  function ReturnStep(a: AlienState, dt: real, env: AlienInputs): AlienState {
    var dx := a.baseX - a.x;
    var dy := a.baseY - a.y;
    var dist := Sqrt(env.trig, Dist2(dx, dy));
    if dist < 10.0 then
      a.(mode := Hover)
    else
      a.(x := Toward(a.x, a.baseX, dist, a.speedX, dt),
         y := Toward(a.y, a.baseY, dist, a.speedX, dt))
  }

  /** One coordinate of a move toward a point dist away, at speed for frame time dt. */
  function Toward(v: real, target: real, dist: real, speed: real, dt: real): real
    requires dist > 0.0
  {
    v + ((target - v) / dist) * speed * TimeScale(dt)
  }

  /** The shot: only while the player is active, one draw against a chance that depends
      on the mode the alien is now in; a hit queues one enemy bullet below its centre. */
  function Shoot(u: AlienUpdate, dt: real, env: AlienInputs): AlienUpdate {
    var a := u.alien;
    if env.playerActive then
      if env.rng(u.draws) < ShootChance(a.mode, env.round, dt) then
        u.(alien := a.(bullets := a.bullets + [NewBullet(a.x + AlienSize / 2.0, a.y + AlienSize, Down, true, env.speeds)]),
           draws := u.draws + 1)
      else u.(draws := u.draws + 1)
    else u
  }

  /** The movement part of the update, before the shot. */
  function MovedAlien(a: AlienState, dt: real, env: AlienInputs, flag: bool, k: nat): AlienUpdate {
    match a.mode
    case Hover => HoverStep(a, dt, env, flag, k)
    case Dive => AlienUpdate(DiveStep(a, dt, env), flag, k)
    case Return => AlienUpdate(ReturnStep(a, dt, env), flag, k)
  }

  /** Alien.update: move, then perhaps shoot. */
  function AlienStep(a: AlienState, dt: real, env: AlienInputs, flag: bool, k: nat): AlienUpdate {
    Shoot(MovedAlien(a, dt, env, flag, k), dt, env)
  }

  // ---------------------------------------------------------------------------
  // Properties

  /** A new alien hovers at its base, unmarked, with no bullets queued, and its speeds
      grow with the round. */
  lemma NewAlienShape(x: real, y: real, round: int)
    ensures var a := NewAlien(x, y, round);
      && a.mode == Hover && !a.marked && a.bullets == []
      && a.x == a.baseX == x && a.y == a.baseY == y && a.angle == 0.0
      && a.speedX == 3.0 + 0.5 * round as real && a.speedY == 1.0 + 0.2 * round as real
      && a.diveSpeed == 5.0 + round as real
  {
  }

  /** The mode only ever moves one step around HOVER -> DIVE -> RETURN -> HOVER. */
  lemma ModeCycle(a: AlienState, dt: real, env: AlienInputs, flag: bool, k: nat)
    ensures NextMode(a.mode, AlienStep(a, dt, env, flag, k).alien.mode)
  {
  }

  /** A dive starts exactly when a hovering alien is in round 3 or later, the dive claim
      is free and the draw falls under 0.001 * round * timeScale. Starting claims the
      flag at once, and the flag is never released by an update. The target is fixed
      at the start as (player x, GAME_HEIGHT + 100) and kept otherwise. */
  lemma DiveStartRule(a: AlienState, dt: real, env: AlienInputs, flag: bool, k: nat)
    ensures var r := AlienStep(a, dt, env, flag, k);
      var started := a.mode == Hover && r.alien.mode == Dive;
      && (a.mode == Hover ==>
            (r.alien.mode == Dive <==> env.round >= 3 && !flag && env.rng(k) < DiveChance(env.round, dt)))
      && r.diveFlag == (flag || started)
      && (started ==> r.alien.diveTargetX == env.playerX && r.alien.diveTargetY == GameHeight + 100.0)
      && (!started ==> r.alien.diveTargetX == a.diveTargetX && r.alien.diveTargetY == a.diveTargetY)
  {
  }

  /** In round 1 a hovering alien stays on its base line: no vertical bob, no dive. */
  lemma RoundOneNoBob(a: AlienState, dt: real, env: AlienInputs, flag: bool, k: nat)
    requires a.mode == Hover && env.round == 1
    ensures AlienStep(a, dt, env, flag, k).alien.y == a.baseY
    ensures AlienStep(a, dt, env, flag, k).alien.mode == Hover
  {
  }

  /** The shot leaves the alien where the move put it, in the same mode, with the
      same dive flag; only its bullet queue and the draw cursor can change. */
  lemma ShootKeepsPlace(u: AlienUpdate, dt: real, env: AlienInputs)
    ensures var r := Shoot(u, dt, env);
      r.alien.(bullets := u.alien.bullets) == u.alien && r.diveFlag == u.diveFlag
  {
  }

  /** A dive ends, back above the base lane at (baseX, -100) in RETURN, exactly when
      the alien is less than 10 from its target or below the screen; with an exact
      root, "less than 10" is "squared distance below 100". */
  lemma DiveEndRule(a: AlienState, dt: real, env: AlienInputs, flag: bool, k: nat)
    requires a.mode == Dive
    ensures var r := AlienStep(a, dt, env, flag, k).alien;
      var d2 := Dist2(a.diveTargetX - a.x, a.diveTargetY - a.y);
      var near := Sqrt(env.trig, d2) < 10.0;
      && (r.mode == Return <==> near || a.y > GameHeight)
      && (r.mode == Return ==> r.x == a.baseX && r.y == -100.0)
      && (r.mode == Dive ==> r.baseX == a.baseX && r.baseY == a.baseY)
      && (ExactRoot(env.trig) ==> (near <==> d2 < 100.0))
  {
    var d2 := Dist2(a.diveTargetX - a.x, a.diveTargetY - a.y);
    if ExactRoot(env.trig) {
      RootBelow(env.trig, d2, 10.0);
    }
    ShootKeepsPlace(MovedAlien(a, dt, env, flag, k), dt, env);
  }

  lemma DivMul(a: real, d: real)
    requires d != 0.0
    ensures (a / d) * d == a
  {
  }

  lemma CancelSquare(d: real, a: real)
    requires d > 0.0 && a * (d * d) == d * d
    ensures a == 1.0
  {
    assert d * d > 0.0;
    assert (a - 1.0) * (d * d) == 0.0;
  }

  /** Normalising by an exact root gives a unit vector. */
  lemma UnitDirection(dx: real, dy: real, dist: real)
    requires dist > 0.0 && dist * dist == dx * dx + dy * dy
    ensures (dx / dist) * (dx / dist) + (dy / dist) * (dy / dist) == 1.0
  {
    var u := dx / dist;
    var w := dy / dist;
    DivMul(dx, dist);
    DivMul(dy, dist);
    calc {
      (u * u + w * w) * (dist * dist);
    ==
      (u * dist) * (u * dist) + (w * dist) * (w * dist);
    ==
      dx * dx + dy * dy;
    ==
      dist * dist;
    }
    CancelSquare(dist, u * u + w * w);
  }

  /** A step along a unit direction, at a speed for a frame time, has the squared
      length of speed * timeScale. */
  lemma StepLength(dx: real, dy: real, dist: real, speed: real, dt: real)
    requires dist > 0.0 && dist * dist == dx * dx + dy * dy
    ensures Dist2((dx / dist) * speed * TimeScale(dt), (dy / dist) * speed * TimeScale(dt))
            == (speed * TimeScale(dt)) * (speed * TimeScale(dt))
  {
    var u := dx / dist;
    var w := dy / dist;
    var s := speed * TimeScale(dt);
    UnitDirection(dx, dy, dist);
    calc {
      Dist2(u * speed * TimeScale(dt), w * speed * TimeScale(dt));
    ==
      Dist2(u * s, w * s);
    ==
      (u * s) * (u * s) + (w * s) * (w * s);
    ==
      (u * u + w * w) * (s * s);
    ==
      s * s;
    }
  }

  /** Away from the point it heads for, a moving alien covers exactly speed * timeScale
      (with an exact root). */
  lemma MoveLength(x: real, y: real, tx: real, ty: real, speed: real, dt: real, trig: Trig)
    requires ExactRoot(trig) && Dist2(tx - x, ty - y) >= 100.0
    ensures var dist := Sqrt(trig, Dist2(tx - x, ty - y));
      && dist >= 10.0
      && Dist2(Toward(x, tx, dist, speed, dt) - x, Toward(y, ty, dist, speed, dt) - y)
         == (speed * TimeScale(dt)) * (speed * TimeScale(dt))
  {
    var dx := tx - x;
    var dy := ty - y;
    var dist := Sqrt(trig, Dist2(dx, dy));
    RootBelow(trig, Dist2(dx, dy), 10.0);
    assert dist * dist == dx * dx + dy * dy;
    StepLength(dx, dy, dist, speed, dt);
    assert x + (dx / dist) * speed * TimeScale(dt) - x == (dx / dist) * speed * TimeScale(dt);
    assert y + (dy / dist) * speed * TimeScale(dt) - y == (dy / dist) * speed * TimeScale(dt);
  }

  /** A returning alien hovers again, without moving, exactly when less than 10 from its
      base; otherwise, with an exact root, it heads for the base a distance of
      speedX * timeScale. */
  lemma ReturnRule(a: AlienState, dt: real, env: AlienInputs, flag: bool, k: nat)
    requires a.mode == Return
    ensures var r := AlienStep(a, dt, env, flag, k).alien;
      var d2 := Dist2(a.baseX - a.x, a.baseY - a.y);
      var near := Sqrt(env.trig, d2) < 10.0;
      && (r.mode == Hover <==> near)
      && (near ==> r.x == a.x && r.y == a.y)
      && (ExactRoot(env.trig) ==> (near <==> d2 < 100.0))
      && (!near && ExactRoot(env.trig) ==>
            Dist2(r.x - a.x, r.y - a.y) == (a.speedX * TimeScale(dt)) * (a.speedX * TimeScale(dt)))
  {
    var d2 := Dist2(a.baseX - a.x, a.baseY - a.y);
    ShootKeepsPlace(MovedAlien(a, dt, env, flag, k), dt, env);
    if ExactRoot(env.trig) {
      RootBelow(env.trig, d2, 10.0);
      if d2 >= 100.0 {
        MoveLength(a.x, a.y, a.baseX, a.baseY, a.speedX, dt, env.trig);
      }
    }
  }

  /** A diving alien that is at least 10 from its target and not below the screen
      keeps diving and, with an exact root, moves a distance of diveSpeed * timeScale. */
  lemma DiveMoveLength(a: AlienState, dt: real, env: AlienInputs, flag: bool, k: nat)
    requires a.mode == Dive && ExactRoot(env.trig)
    requires Dist2(a.diveTargetX - a.x, a.diveTargetY - a.y) >= 100.0 && a.y <= GameHeight
    ensures var r := AlienStep(a, dt, env, flag, k).alien;
      r.mode == Dive
      && Dist2(r.x - a.x, r.y - a.y) == (a.diveSpeed * TimeScale(dt)) * (a.diveSpeed * TimeScale(dt))
  {
    var m := MovedAlien(a, dt, env, flag, k);
    ShootKeepsPlace(m, dt, env);
    DiveStepLength(a, dt, env);
    assert m.alien == DiveStep(a, dt, env);
  }

  lemma DiveStepLength(a: AlienState, dt: real, env: AlienInputs)
    requires ExactRoot(env.trig)
    requires Dist2(a.diveTargetX - a.x, a.diveTargetY - a.y) >= 100.0 && a.y <= GameHeight
    ensures var r := DiveStep(a, dt, env);
      r.mode == a.mode
      && Dist2(r.x - a.x, r.y - a.y) == (a.diveSpeed * TimeScale(dt)) * (a.diveSpeed * TimeScale(dt))
  {
    MoveLength(a.x, a.y, a.diveTargetX, a.diveTargetY, a.diveSpeed, dt, env.trig);
  }

  /** At most one bullet per update, appended to the queue: a downward enemy bullet at
      the centre of the alien's bottom edge, where the alien now is. None, and no draw,
      while the player is respawning or reappearing; otherwise one draw decides, with
      chance 0.02 * timeScale in a dive and 0.002 * round * timeScale otherwise. */
  lemma ShootRule(a: AlienState, dt: real, env: AlienInputs, flag: bool, k: nat)
    ensures var m := MovedAlien(a, dt, env, flag, k);
      var r := AlienStep(a, dt, env, flag, k);
      var fired := env.playerActive && env.rng(m.draws) < ShootChance(m.alien.mode, env.round, dt);
      && r.alien.x == m.alien.x && r.alien.y == m.alien.y && r.alien.mode == m.alien.mode
      && (fired ==> r.alien.bullets == a.bullets + [NewBullet(r.alien.x + 40.0, r.alien.y + 80.0, Down, true, env.speeds)])
      && (!fired ==> r.alien.bullets == a.bullets)
      && r.draws == (if env.playerActive then m.draws + 1 else m.draws)
      && k <= m.draws <= k + 1
  {
    var m := MovedAlien(a, dt, env, flag, k);
    ShootKeepsPlace(m, dt, env);
    assert m.alien.bullets == a.bullets;
  }

  /** Between none and two draws per update. */
  lemma DrawsPerUpdate(a: AlienState, dt: real, env: AlienInputs, flag: bool, k: nat)
    ensures k <= AlienStep(a, dt, env, flag, k).draws <= k + 2
  {
    ShootRule(a, dt, env, flag, k);
  }

  /** src/Alien.js as an object updated in place; the shared dive flag and the random
      cursor go in and come out as values. */
  class Alien {
    const width: real
    const height: real
    var x: real
    var y: real
    var baseX: real
    var baseY: real
    var speedX: real
    var speedY: real
    var bullets: seq<BulletState>
    var angle: real
    var marked: bool
    var mode: AlienMode
    var diveTargetX: real
    var diveTargetY: real
    var diveSpeed: real

    function State(): AlienState
      reads this
    {
      AlienState(x, y, baseX, baseY, speedX, speedY, angle, marked, mode,
                 diveTargetX, diveTargetY, diveSpeed, bullets)
    }

    constructor (x: real, y: real, round: int)
      ensures State() == NewAlien(x, y, round) && width == AlienSize && height == AlienSize
    {
      width := 80.0;
      height := 80.0;
      this.x := x;
      this.y := y;
      baseX := x;
      baseY := y;
      speedX := 3.0 + round as real * 0.5;
      speedY := 1.0 + round as real * 0.2;
      bullets := [];
      angle := 0.0;
      marked := false;
      mode := Hover;
      diveTargetX := 0.0;
      diveTargetY := 0.0;
      diveSpeed := 5.0 + round as real;
    }

    method Update(dt: real, env: AlienInputs, flag: bool, k: nat) returns (flag': bool, k': nat)
      requires width == AlienSize && height == AlienSize
      modifies this
      ensures AlienUpdate(State(), flag', k') == AlienStep(old(State()), dt, env, flag, k)
    {
      var timeScale := dt / 16.66;
      if mode == Hover {
        flag', k' := HoverMove(dt, env, flag, k);
      } else if mode == Dive {
        DiveMove(dt, env);
        flag', k' := flag, k;
      } else {
        ReturnMove(dt, env);
        flag', k' := flag, k;
      }
      assert AlienUpdate(State(), flag', k') == MovedAlien(old(State()), dt, env, flag, k);

      if env.playerActive {
        var shootChance := (if mode == Dive then 0.02 else 0.002 * env.round as real) * timeScale;
        var draw := env.rng(k');
        k' := k' + 1;
        if draw < shootChance {
          bullets := bullets + [NewBullet(x + width / 2.0, y + height, Down, true, env.speeds)];
        }
      }
    }

    /** The HOVER branch. */
    method HoverMove(dt: real, env: AlienInputs, flag: bool, k: nat) returns (flag': bool, k': nat)
      modifies this
      ensures AlienUpdate(State(), flag', k') == HoverStep(old(State()), dt, env, flag, k)
    {
      flag', k' := flag, k;
      var timeScale := dt / 16.66;
      assert timeScale == TimeScale(dt);
      assert 0.001 * env.round as real * timeScale == DiveChance(env.round, dt);
      angle := angle + 0.02 * env.round as real * timeScale;
      var newX := baseX + Sin(env.trig, angle) * 200.0;
      var verticalBob := if env.round == 1 then 0.0 else Cos(env.trig, angle * 2.0) * 50.0;
      x, y := newX, baseY + verticalBob;
      if env.round >= 3 && !flag' {
        var draw := env.rng(k');
        k' := k' + 1;
        if draw < 0.001 * env.round as real * timeScale {
          mode := Dive;
          flag' := true;
          diveTargetX := env.playerX;
          diveTargetY := GameHeight + 100.0;
        }
      }
    }

    /** The DIVE branch. */
    method DiveMove(dt: real, env: AlienInputs)
      modifies this
      ensures State() == DiveStep(old(State()), dt, env)
    {
      var timeScale := dt / 16.66;
      var dx := diveTargetX - x;
      var dy := diveTargetY - y;
      var dist := Sqrt(env.trig, Dist2(dx, dy));
      if dist < 10.0 || y > GameHeight {
        x, y, mode := baseX, -100.0, Return;
      } else {
        var newX := x + (dx / dist) * diveSpeed * timeScale;
        var newY := y + (dy / dist) * diveSpeed * timeScale;
        x, y := newX, newY;
      }
    }

    /** The RETURN branch. */
    method ReturnMove(dt: real, env: AlienInputs)
      modifies this
      ensures State() == ReturnStep(old(State()), dt, env)
    {
      var timeScale := dt / 16.66;
      var dx := baseX - x;
      var dy := baseY - y;
      var dist := Sqrt(env.trig, Dist2(dx, dy));
      if dist < 10.0 {
        mode := Hover;
      } else {
        var newX := x + (dx / dist) * speedX * timeScale;
        var newY := y + (dy / dist) * speedX * timeScale;
        x, y := newX, newY;
      }
    }
  }
}
