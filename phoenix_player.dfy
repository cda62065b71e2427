/** The simpler ship of phoenix_game/Player.js: movement, the shot timer and the shield
    timers, with no respawn and no cooldown feedback. That variant ships no globals file
    of its own; the constants are those of globals.js. */
module PhoenixPlayers {
  import opened Globals
  import opened Seqs
  import opened Bullets

  const PhoenixWidth: real := 100.0
  const PhoenixSpawnX: real := GameWidth / 2.0 - PhoenixWidth / 2.0
  const PhoenixSpawnY: real := GameHeight - 100.0 - 50.0
  const PhoenixShotInterval: real := 1000.0

  datatype PhoenixKeys = PhoenixKeys(left: bool, right: bool, space: bool, ctrl: bool)

  datatype PhoenixState = PhoenixState(x: real, y: real, bullets: seq<BulletState>,
                                       shieldActive: bool, shieldTimer: real,
                                       shieldCooldownTimer: real, shotTimer: real)

  function NewPhoenix(): PhoenixState {
    PhoenixState(PhoenixSpawnX, PhoenixSpawnY, [], false, 0.0, 0.0, PhoenixShotInterval)
  }

  function PhoenixMove(p: PhoenixState, dt: real, keys: PhoenixKeys): PhoenixState {
    var step := PlayerSpeed * TimeScale(dt);
    var x1 := if keys.left && p.x > 0.0 then p.x - step else p.x;
    p.(x := if keys.right && x1 < GameWidth - PhoenixWidth then x1 + step else x1)
  }

  predicate PhoenixCanFire(p: PhoenixState, keys: PhoenixKeys) {
    keys.space && p.shotTimer >= PhoenixShotInterval
  }

  /** The shot timer tick, then a shot if Space is down and the timer has reached 1000. */
  function PhoenixShoot(p: PhoenixState, dt: real, keys: PhoenixKeys): PhoenixState {
    var q := p.(shotTimer := if p.shotTimer < PhoenixShotInterval then p.shotTimer + dt else p.shotTimer);
    var c := PhoenixCanFire(q, keys);
    q.(bullets := if c then q.bullets + [NewBullet(q.x + PhoenixWidth / 2.0 - 2.0, q.y, Up, false, SrcBulletSpeeds)]
                  else q.bullets,
       shotTimer := if c then 0.0 else q.shotTimer)
  }

  predicate PhoenixCanRaiseShield(p: PhoenixState, keys: PhoenixKeys) {
    keys.ctrl && p.shieldCooldownTimer <= 0.0 && !p.shieldActive
  }

  /** The Control key, then the shield and cooldown timers. */
  function PhoenixShield(p: PhoenixState, dt: real, keys: PhoenixKeys): PhoenixState {
    var raise := PhoenixCanRaiseShield(p, keys);
    var active := p.shieldActive || raise;
    var timer := if raise then ShieldDuration else p.shieldTimer;
    var cooldown := if raise then ShieldCooldown else p.shieldCooldownTimer;
    p.(shieldActive := active && timer - dt > 0.0,
       shieldTimer := if active then timer - dt else timer,
       shieldCooldownTimer := if cooldown > 0.0 then cooldown - dt else cooldown)
  }

  /** phoenix_game Player.update. */
  function PhoenixStep(p: PhoenixState, dt: real, keys: PhoenixKeys): PhoenixState {
    var q := PhoenixShield(PhoenixShoot(PhoenixMove(p, dt, keys), dt, keys), dt, keys);
    q.(bullets := AdvanceBullets(q.bullets, dt))
  }

  /** A new ship starts with the shield down, both shield timers at zero and the shot
      timer at 1000, so Space fires on the first update. */
  lemma PhoenixStartsReady(dt: real, keys: PhoenixKeys)
    requires dt >= 0.0 && keys.space
    ensures var p := NewPhoenix();
      && !p.shieldActive && p.shieldTimer == 0.0 && p.shieldCooldownTimer == 0.0
      && p.shotTimer == 1000.0 && p.bullets == []
      && PhoenixStep(p, dt, keys).shotTimer == 0.0
  {
  }

  /** A shot fires exactly when Space is down and the ticked shot timer is >= 1000; it
      appends exactly one upward player bullet (then advanced with the rest) and zeroes
      the timer. */
  lemma PhoenixFireRule(p: PhoenixState, dt: real, keys: PhoenixKeys)
    ensures var r := PhoenixStep(p, dt, keys);
      var t := if p.shotTimer < 1000.0 then p.shotTimer + dt else p.shotTimer;
      && (keys.space && t >= 1000.0 ==>
            r.shotTimer == 0.0
            && r.bullets == AdvanceBullets(p.bullets + [NewBullet(r.x + 48.0, p.y, Up, false, SrcBulletSpeeds)], dt))
      && (!(keys.space && t >= 1000.0) ==>
            r.shotTimer == t && r.bullets == AdvanceBullets(p.bullets, dt))
  {
    var m := PhoenixMove(p, dt, keys);
    var q := PhoenixShoot(m, dt, keys);
    var s := PhoenixShield(q, dt, keys);
    assert m.bullets == p.bullets && m.y == p.y && m.shotTimer == p.shotTimer;
    assert s.bullets == q.bullets && s.shotTimer == q.shotTimer && s.x == m.x;
  }

  /** The shield rises only when down with cooldown <= 0, setting both timers (already
      decremented by this update); a press during the cooldown does nothing. A raised
      shield drops once its timer is <= 0; the cooldown decrements only while positive. */
  lemma PhoenixShieldRule(p: PhoenixState, dt: real, keys: PhoenixKeys)
    ensures var r := PhoenixStep(p, dt, keys);
      && (PhoenixCanRaiseShield(p, keys) ==>
            r.shieldTimer == 6000.0 - dt && (r.shieldActive <==> dt < 6000.0)
            && r.shieldCooldownTimer == 20000.0 - dt)
      && (!PhoenixCanRaiseShield(p, keys) ==>
            (p.shieldActive ==>
               r.shieldTimer == p.shieldTimer - dt && (r.shieldActive <==> p.shieldTimer - dt > 0.0))
            && (!p.shieldActive ==> !r.shieldActive && r.shieldTimer == p.shieldTimer)
            && r.shieldCooldownTimer == (if p.shieldCooldownTimer > 0.0
                                         then p.shieldCooldownTimer - dt
                                         else p.shieldCooldownTimer))
      && (r.shieldActive ==> r.shieldTimer > 0.0)
  {
  }

  /** Left moves only from x > 0, right moves only from x < GAME_WIDTH - width, each by
      PLAYER_SPEED * dt / 16.66; y never changes. */
  lemma PhoenixMoveRule(p: PhoenixState, dt: real, keys: PhoenixKeys)
    ensures var r := PhoenixStep(p, dt, keys);
      var s := PlayerSpeed * dt / FrameMs;
      && r.y == p.y
      && (!keys.left && !keys.right ==> r.x == p.x)
      && (keys.left && !keys.right ==> r.x == if p.x > 0.0 then p.x - s else p.x)
      && (!keys.left && keys.right ==> r.x == if p.x < GameWidth - PhoenixWidth then p.x + s else p.x)
  {
  }

  /** After update no marked bullet remains. */
  lemma PhoenixNoMarkedBullets(p: PhoenixState, dt: real, keys: PhoenixKeys)
    ensures forall i :: 0 <= i < |PhoenixStep(p, dt, keys).bullets| ==>
              !PhoenixStep(p, dt, keys).bullets[i].marked
  {
    var q := PhoenixShield(PhoenixShoot(PhoenixMove(p, dt, keys), dt, keys), dt, keys);
    AdvanceBulletsLive(q.bullets, dt);
  }

  /** phoenix_game/Player.js as an object updated in place. */
  class PhoenixPlayer {
    const width: real
    const height: real
    var x: real
    var y: real
    var bullets: seq<BulletState>
    var shieldActive: bool
    var shieldTimer: real
    var shieldCooldownTimer: real
    var shotTimer: real

    function State(): PhoenixState
      reads this
    {
      PhoenixState(x, y, bullets, shieldActive, shieldTimer, shieldCooldownTimer, shotTimer)
    }

    constructor ()
      ensures State() == NewPhoenix() && width == PhoenixWidth
    {
      width := 100.0;
      height := 100.0;
      x := GameWidth / 2.0 - 100.0 / 2.0;
      y := GameHeight - 100.0 - 50.0;
      bullets := [];
      shieldActive := false;
      shieldTimer := 0.0;
      shieldCooldownTimer := 0.0;
      shotTimer := 1000.0;
    }

    method Update(dt: real, keys: PhoenixKeys)
      requires width == PhoenixWidth
      modifies this
      ensures State() == PhoenixStep(old(State()), dt, keys)
    {
      MoveAndShoot(dt, keys);
      UpdateShield(dt, keys);
      UpdateBullets(dt);
    }

    /** Movement, the shot timer and the shot. */
    method MoveAndShoot(dt: real, keys: PhoenixKeys)
      requires width == PhoenixWidth
      modifies this
      ensures State() == PhoenixShoot(PhoenixMove(old(State()), dt, keys), dt, keys)
    {
      var timeScale := dt / 16.66;
      if keys.left && x > 0.0 {
        x := x - PlayerSpeed * timeScale;
      }
      if keys.right && x < GameWidth - width {
        x := x + PlayerSpeed * timeScale;
      }
      if shotTimer < 1000.0 {
        shotTimer := shotTimer + dt;
      }
      if keys.space && shotTimer >= 1000.0 {
        bullets := bullets + [NewBullet(x + width / 2.0 - 2.0, y, Up, false, SrcBulletSpeeds)];
        shotTimer := 0.0;
      }
    }

    /** Every bullet updated in place, then the marked ones filtered out. */
    method UpdateBullets(dt: real)
      modifies this
      ensures State() == old(State()).(bullets := AdvanceBullets(old(bullets), dt))
    {
      var bs := bullets;
      var i := 0;
      while i < |bs|
        invariant 0 <= i <= |bs| == |bullets|
        invariant forall j :: 0 <= j < i ==> bs[j] == BulletStep(bullets[j], dt)
        invariant forall j :: i <= j < |bs| ==> bs[j] == bullets[j]
      {
        bs := bs[i := BulletStep(bs[i], dt)];
        i := i + 1;
      }
      assert bs == MapSeq(bullets, (b: BulletState) => BulletStep(b, dt));
      bullets := Filter(bs, (b: BulletState) => !b.marked);
    }

    method UpdateShield(dt: real, keys: PhoenixKeys)
      modifies this
      ensures State() == PhoenixShield(old(State()), dt, keys)
    {
      if keys.ctrl {
        if shieldCooldownTimer <= 0.0 && !shieldActive {
          shieldActive := true;
          shieldTimer := ShieldDuration;
          shieldCooldownTimer := ShieldCooldown;
        }
      }
      if shieldActive {
        shieldTimer := shieldTimer - dt;
        if shieldTimer <= 0.0 {
          shieldActive := false;
        }
      }
      if shieldCooldownTimer > 0.0 {
        shieldCooldownTimer := shieldCooldownTimer - dt;
      }
    }
  }
}
