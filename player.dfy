/** The player's ship: the respawn -> reappear -> active state machine, the shot
    cooldown and the shield timers of src/Player.js and Player.js, which differ only in
    where the ship spawns. */
module Players {
  import opened Globals
  import opened Seqs
  import opened Bullets

  const PlayerWidth: real := 100.0
  const PlayerHeight: real := 100.0
  /** The x the ship spawns at: GAME_WIDTH / 2 - width / 2. */
  const SpawnX: real := GameWidth / 2.0 - PlayerWidth / 2.0
  const ShotInterval: real := 1000.0
  const RespawnDelay: real := 3000.0
  const ReappearDuration: real := 1000.0
  const FeedbackDuration: real := 100.0
  /** Where startRespawn parks the ship, out of every collision's way. */
  const OffStageX: real := -1000.0

  /** The keys update reads: ArrowLeft, ArrowRight, Space and either Control key. */
  datatype Keys = Keys(left: bool, right: bool, space: bool, ctrl: bool)

  /** What the variants take from their globals file. */
  datatype PlayerConfig = PlayerConfig(spawnY: real, shieldDuration: real,
                                       shieldCooldown: real, speeds: BulletSpeeds)

  /** src/Player.js with src/globals.js: spawns at GAME_HEIGHT - height - 50. */
  const SrcPlayerConfig := PlayerConfig(GameHeight - PlayerHeight - 50.0, ShieldDuration,
                                        ShieldCooldown, SrcBulletSpeeds)
  /** Player.js with globals.js: spawns at GAME_HEIGHT - height + 4. */
  const RootPlayerConfig := PlayerConfig(GameHeight - PlayerHeight + 4.0, ShieldDuration,
                                         ShieldCooldown, SrcBulletSpeeds)
  /** The src/Player.js machine with alien_revenge/globals.js constants. */
  const RevengePlayerConfig := PlayerConfig(GameHeight - PlayerHeight - 50.0, ShieldDuration,
                                            RevengeShieldCooldown, RevengeBulletSpeeds)

  predicate ValidConfig(cfg: PlayerConfig) {
    cfg.shieldDuration > 0.0 && cfg.shieldCooldown > 0.0
    && cfg.speeds.player > 0.0 && cfg.speeds.enemy > 0.0
  }

  datatype PlayerState = PlayerState(
    x: real, y: real, bullets: seq<BulletState>,
    shieldActive: bool, shieldTimer: real, shieldCooldownTimer: real,
    shotTimer: real,
    isRespawning: bool, respawnTimer: real,
    isReappearing: bool, reappearTimer: real,
    cooldownFeedbackTimer: real)

  /** The constructor: at the spawn point, shield off, ready to shoot. */
  function NewPlayer(cfg: PlayerConfig): PlayerState {
    PlayerState(SpawnX, cfg.spawnY, [], false, 0.0, 0.0, ShotInterval,
                false, 0.0, false, 0.0, 0.0)
  }

  /** Still invisible after this update's decrement: update returns early. */
  predicate Waiting(p: PlayerState, dt: real) {
    p.isRespawning && p.respawnTimer - dt > 0.0
  }

  /** A respawn that completes puts the ship back at the spawn point, reappearing.
      Each field is written as a function of the old state, so that the stages compose
      field by field. */
  function RespawnTick(p: PlayerState, dt: real, cfg: PlayerConfig): PlayerState {
    var c := p.isRespawning;
    p.(isRespawning := false,
       respawnTimer := if c then p.respawnTimer - dt else p.respawnTimer,
       isReappearing := c || p.isReappearing,
       reappearTimer := if c then ReappearDuration else p.reappearTimer,
       x := if c then SpawnX else p.x,
       y := if c then cfg.spawnY else p.y)
  }

  function ReappearTick(p: PlayerState, dt: real): PlayerState {
    p.(reappearTimer := if p.isReappearing then p.reappearTimer - dt else p.reappearTimer,
       isReappearing := p.isReappearing && p.reappearTimer - dt > 0.0)
  }

  /** How far one update moves the ship sideways. */
  function Step(dt: real): real {
    PlayerSpeed * TimeScale(dt)
  }

  /** Left first, guarded by the old x; then right, guarded by the x after the left move. */
  function Move(p: PlayerState, dt: real, keys: Keys): PlayerState {
    var x1 := if keys.left && p.x > 0.0 then p.x - Step(dt) else p.x;
    var x2 := if keys.right && x1 < GameWidth - PlayerWidth then x1 + Step(dt) else x1;
    p.(x := x2)
  }

  function ShotTimerTick(p: PlayerState, dt: real): PlayerState {
    p.(shotTimer := if p.shotTimer < ShotInterval then p.shotTimer + dt else p.shotTimer)
  }

  /** The bullet a shot appends: centred-ish above the ship, moving up. */
  function PlayerBullet(p: PlayerState, cfg: PlayerConfig): BulletState {
    NewBullet(p.x + PlayerWidth / 2.0 - 2.0, p.y, Up, false, cfg.speeds)
  }

  predicate CanFire(p: PlayerState, keys: Keys) {
    keys.space && p.shotTimer >= ShotInterval
  }

  function Fire(p: PlayerState, keys: Keys, cfg: PlayerConfig): PlayerState {
    var c := CanFire(p, keys);
    p.(bullets := if c then p.bullets + [PlayerBullet(p, cfg)] else p.bullets,
       shotTimer := if c then 0.0 else p.shotTimer)
  }

  predicate CanRaiseShield(p: PlayerState, keys: Keys) {
    keys.ctrl && p.shieldCooldownTimer <= 0.0 && !p.shieldActive
  }

  /** A Control press while the shield is down but still cooling. */
  predicate PressedDuringCooldown(p: PlayerState, keys: Keys) {
    keys.ctrl && p.shieldCooldownTimer > 0.0 && !p.shieldActive
  }

  /** A Control press raises the shield when it is down and cooled down; a press
      during the cooldown only starts the feedback blink. */
  function ShieldKey(p: PlayerState, keys: Keys, cfg: PlayerConfig): PlayerState {
    var raise := CanRaiseShield(p, keys);
    p.(shieldActive := p.shieldActive || raise,
       shieldTimer := if raise then cfg.shieldDuration else p.shieldTimer,
       shieldCooldownTimer := if raise then cfg.shieldCooldown else p.shieldCooldownTimer,
       cooldownFeedbackTimer := if PressedDuringCooldown(p, keys) then FeedbackDuration
                                else p.cooldownFeedbackTimer)
  }

  function FeedbackTick(p: PlayerState, dt: real): PlayerState {
    p.(cooldownFeedbackTimer := if p.cooldownFeedbackTimer > 0.0 then p.cooldownFeedbackTimer - dt
                                else p.cooldownFeedbackTimer)
  }

  function ShieldTick(p: PlayerState, dt: real): PlayerState {
    p.(shieldTimer := if p.shieldActive then p.shieldTimer - dt else p.shieldTimer,
       shieldActive := p.shieldActive && p.shieldTimer - dt > 0.0)
  }

  function CooldownTick(p: PlayerState, dt: real): PlayerState {
    p.(shieldCooldownTimer := if p.shieldCooldownTimer > 0.0 then p.shieldCooldownTimer - dt
                              else p.shieldCooldownTimer)
  }

  /** Player.update, in the source's order. */
  function PlayerStep(p: PlayerState, dt: real, keys: Keys, cfg: PlayerConfig): PlayerState {
    if Waiting(p, dt) then p.(respawnTimer := p.respawnTimer - dt)
    else
      var p1 := ReappearTick(RespawnTick(p, dt, cfg), dt);
      var p2 := Fire(ShotTimerTick(Move(p1, dt, keys), dt), keys, cfg);
      var p3 := CooldownTick(ShieldTick(FeedbackTick(ShieldKey(p2, keys, cfg), dt), dt), dt);
      p3.(bullets := AdvanceBullets(p3.bullets, dt))
  }

  /** startRespawn: invisible, parked off stage, shield down, for 3000 ms. */
  function AfterStartRespawn(p: PlayerState): PlayerState {
    p.(isRespawning := true, respawnTimer := RespawnDelay, shieldActive := false,
       isReappearing := false, x := OffStageX)
  }

  /** resetShield: shield down and both shield timers at zero. */
  function AfterResetShield(p: PlayerState): PlayerState {
    p.(shieldActive := false, shieldTimer := 0.0, shieldCooldownTimer := 0.0)
  }

  /** A raised shield always has time left. */
  predicate ShieldInv(p: PlayerState) {
    p.shieldActive ==> p.shieldTimer > 0.0
  }

  /** The shot timer as it stands when Space is tested. */
  function ShotTimerAtFire(p: PlayerState, dt: real): real {
    if p.shotTimer < ShotInterval then p.shotTimer + dt else p.shotTimer
  }

  /** The x the update starts moving from: the spawn point when a respawn completes. */
  function StartX(p: PlayerState): real {
    if p.isRespawning then SpawnX else p.x
  }

  // ---------------------------------------------------------------------------
  // Properties of the state machine

  /** A fresh player is visible, at the spawn point, with the shield down and both
      shield timers at zero, and may shoot at once. */
  lemma NewPlayerReady(cfg: PlayerConfig)
    ensures var p := NewPlayer(cfg);
      && p.x == 910.0 && p.y == cfg.spawnY && p.bullets == []
      && !p.shieldActive && p.shieldTimer == 0.0 && p.shieldCooldownTimer == 0.0
      && !p.isRespawning && !p.isReappearing
      && forall keys: Keys :: keys.space ==> CanFire(p, keys)
  {
  }

  /** While the respawn timer stays positive after its decrement, update changes
      nothing else: no movement, no shot, no shield change, no bullet update. */
  lemma RespawnWaitFreezes(p: PlayerState, dt: real, keys: Keys, cfg: PlayerConfig)
    requires Waiting(p, dt)
    ensures PlayerStep(p, dt, keys, cfg) == p.(respawnTimer := p.respawnTimer - dt)
  {
  }

  /** When the respawn timer runs out, the ship is no longer respawning, is back at the
      spawn height, and reappears for 1000 ms counted from this update (the reappear
      timer is decremented in the same update); without arrow keys it is at SpawnX. */
  lemma RespawnCompletes(p: PlayerState, dt: real, keys: Keys, cfg: PlayerConfig)
    requires p.isRespawning && !Waiting(p, dt)
    ensures var r := PlayerStep(p, dt, keys, cfg);
      && !r.isRespawning && r.respawnTimer == p.respawnTimer - dt && r.respawnTimer <= 0.0
      && r.y == cfg.spawnY
      && r.reappearTimer == ReappearDuration - dt
      && (r.isReappearing <==> dt < ReappearDuration)
      && (!keys.left && !keys.right ==> r.x == SpawnX)
  {
  }

  /** A shot is fired exactly when Space is down and the shot timer, after its own
      tick, has reached 1000. Firing appends exactly one upward player bullet at the
      ship's final x + 48 and y, then zeroes the timer; the whole list is then advanced
      and filtered. Without a shot only the advance happens. */
  lemma FireRule(p: PlayerState, dt: real, keys: Keys, cfg: PlayerConfig)
    requires !Waiting(p, dt)
    ensures var r := PlayerStep(p, dt, keys, cfg);
      var fired := keys.space && ShotTimerAtFire(p, dt) >= ShotInterval;
      && (fired ==>
            r.shotTimer == 0.0
            && r.bullets == AdvanceBullets(p.bullets + [NewBullet(r.x + 48.0, r.y, Up, false, cfg.speeds)], dt))
      && (!fired ==>
            r.shotTimer == ShotTimerAtFire(p, dt)
            && r.bullets == AdvanceBullets(p.bullets, dt))
  {
  }

  /** The shield: a Control press raises it only when it is down and cooled down, and
      then the duration and the cooldown start (both already decremented by this
      update). Otherwise a raised shield loses dt and drops once its timer is <= 0,
      a lowered one stays down, and the cooldown loses dt only while positive. */
  lemma ShieldRule(p: PlayerState, dt: real, keys: Keys, cfg: PlayerConfig)
    requires !Waiting(p, dt) && ValidConfig(cfg)
    ensures var r := PlayerStep(p, dt, keys, cfg);
      && (CanRaiseShield(p, keys) ==>
            r.shieldTimer == cfg.shieldDuration - dt
            && (r.shieldActive <==> cfg.shieldDuration - dt > 0.0)
            && r.shieldCooldownTimer == cfg.shieldCooldown - dt)
      && (!CanRaiseShield(p, keys) ==>
            (p.shieldActive ==>
               r.shieldTimer == p.shieldTimer - dt && (r.shieldActive <==> p.shieldTimer - dt > 0.0))
            && (!p.shieldActive ==> !r.shieldActive && r.shieldTimer == p.shieldTimer)
            && r.shieldCooldownTimer == (if p.shieldCooldownTimer > 0.0
                                         then p.shieldCooldownTimer - dt
                                         else p.shieldCooldownTimer))
      && (r.shieldActive && !p.shieldActive ==> CanRaiseShield(p, keys))
  {
  }

  /** A Control press while the shield is down but cooling starts the 100 ms feedback
      (decremented in the same update); otherwise the feedback timer only counts down
      while positive. */
  lemma FeedbackRule(p: PlayerState, dt: real, keys: Keys, cfg: PlayerConfig)
    requires !Waiting(p, dt)
    ensures var r := PlayerStep(p, dt, keys, cfg);
      && (keys.ctrl && p.shieldCooldownTimer > 0.0 && !p.shieldActive ==>
            r.cooldownFeedbackTimer == FeedbackDuration - dt)
      && (!(keys.ctrl && p.shieldCooldownTimer > 0.0 && !p.shieldActive) ==>
            r.cooldownFeedbackTimer == (if p.cooldownFeedbackTimer > 0.0
                                        then p.cooldownFeedbackTimer - dt
                                        else p.cooldownFeedbackTimer))
  {
  }

  /** Every update keeps a raised shield's timer positive. */
  lemma ShieldInvPreserved(p: PlayerState, dt: real, keys: Keys, cfg: PlayerConfig)
    requires ShieldInv(p) && ValidConfig(cfg)
    ensures ShieldInv(PlayerStep(p, dt, keys, cfg))
  {
  }

  /** Movement: a left move only from x > 0 and a right move only from
      x < GAME_WIDTH - width (tested after the left move), each by
      PLAYER_SPEED * dt / 16.66. */
  lemma MoveRule(p: PlayerState, dt: real, keys: Keys, cfg: PlayerConfig)
    requires !Waiting(p, dt)
    ensures var r := PlayerStep(p, dt, keys, cfg);
      var x0 := StartX(p);
      var s := PlayerSpeed * dt / FrameMs;
      && (!keys.left && !keys.right ==> r.x == x0)
      && (keys.left && !keys.right ==> r.x == if x0 > 0.0 then x0 - s else x0)
      && (!keys.left && keys.right ==> r.x == if x0 < GameWidth - PlayerWidth then x0 + s else x0)
      && (keys.left && keys.right && x0 > 0.0 ==>
            r.x == if x0 - s < GameWidth - PlayerWidth then x0 else x0 - s)
      && (keys.left && keys.right && x0 <= 0.0 ==> r.x == x0 + s)
  {
  }

  /** After an update that is not waiting, no bullet in the list is marked. */
  lemma NoMarkedBulletsAfterUpdate(p: PlayerState, dt: real, keys: Keys, cfg: PlayerConfig)
    requires !Waiting(p, dt)
    ensures forall i :: 0 <= i < |PlayerStep(p, dt, keys, cfg).bullets| ==>
              !PlayerStep(p, dt, keys, cfg).bullets[i].marked
  {
    var p3 := CooldownTick(ShieldTick(FeedbackTick(ShieldKey(
                Fire(ShotTimerTick(Move(ReappearTick(RespawnTick(p, dt, cfg), dt), dt, keys), dt), keys, cfg),
                keys, cfg), dt), dt), dt);
    AdvanceBulletsLive(p3.bullets, dt);
  }

  /** startRespawn hides the ship for 3000 ms: any update shorter than that leaves it
      respawning, off stage and unable to shoot or raise the shield. */
  lemma {:induction false} StartRespawnHides(p: PlayerState, dt: real, keys: Keys, cfg: PlayerConfig)
    requires 0.0 <= dt < RespawnDelay
    ensures var s := AfterStartRespawn(p);
      && s.isRespawning && !s.isReappearing && !s.shieldActive && s.x == -1000.0
      && s.respawnTimer == 3000.0
      && PlayerStep(s, dt, keys, cfg) == s.(respawnTimer := 3000.0 - dt)
  {
    RespawnWaitFreezes(AfterStartRespawn(p), dt, keys, cfg);
  }

  /** After resetShield the shield is down with both timers at zero, so the next
      Control press of an active ship raises it at once. */
  lemma ResetShieldReady(p: PlayerState, dt: real, keys: Keys, cfg: PlayerConfig)
    requires keys.ctrl && !Waiting(AfterResetShield(p), dt) && ValidConfig(cfg)
    ensures var s := AfterResetShield(p);
      && !s.shieldActive && s.shieldTimer == 0.0 && s.shieldCooldownTimer == 0.0
      && ShieldInv(s)
      && PlayerStep(s, dt, keys, cfg).shieldTimer == cfg.shieldDuration - dt
      && PlayerStep(s, dt, keys, cfg).shieldCooldownTimer == cfg.shieldCooldown - dt
  {
    ShieldRule(AfterResetShield(p), dt, keys, cfg);
  }

  /** Player.js respawns 4 px below the bottom edge minus its height, src/Player.js
      50 px above it; both at the horizontal centre. */
  lemma SpawnPoints()
    ensures NewPlayer(RootPlayerConfig).y == 984.0 && NewPlayer(SrcPlayerConfig).y == 930.0
    ensures NewPlayer(RootPlayerConfig).x == SpawnX == NewPlayer(SrcPlayerConfig).x
  {
  }

  /** The Player.js respawn completion: back at (GAME_WIDTH / 2 - 50, GAME_HEIGHT - 96),
      reappearing. */
  lemma RootRespawnCompletes(p: PlayerState, dt: real)
    requires p.isRespawning && !Waiting(p, dt) && dt < ReappearDuration
    ensures var r := PlayerStep(p, dt, Keys(false, false, false, false), RootPlayerConfig);
      && !r.isRespawning && r.isReappearing && r.x == 910.0 && r.y == GameHeight - 96.0
  {
    RespawnCompletes(p, dt, Keys(false, false, false, false), RootPlayerConfig);
  }

  /** Player.js: a shot fires only with Space down and the timer at 1000 or more, and
      zeroes the timer. */
  lemma RootFireRule(p: PlayerState, dt: real, keys: Keys)
    requires !Waiting(p, dt)
    ensures var r := PlayerStep(p, dt, keys, RootPlayerConfig);
      (|r.bullets| > |AdvanceBullets(p.bullets, dt)| ==> keys.space && ShotTimerAtFire(p, dt) >= ShotInterval)
      && (keys.space && ShotTimerAtFire(p, dt) >= ShotInterval ==> r.shotTimer == 0.0)
  {
    FireRule(p, dt, keys, RootPlayerConfig);
  }

  /** Player.js: the shield rises only when down with cooldown <= 0; a press during the
      cooldown sets the feedback timer (to 100, less this update's dt). */
  lemma RootShieldRule(p: PlayerState, dt: real, keys: Keys)
    requires !Waiting(p, dt)
    ensures var r := PlayerStep(p, dt, keys, RootPlayerConfig);
      && (r.shieldActive && !p.shieldActive ==> keys.ctrl && p.shieldCooldownTimer <= 0.0)
      && (keys.ctrl && p.shieldCooldownTimer > 0.0 && !p.shieldActive ==>
            !r.shieldActive && r.cooldownFeedbackTimer == 100.0 - dt)
      && ShieldInv(r)
  {
    ShieldRule(p, dt, keys, RootPlayerConfig);
    FeedbackRule(p, dt, keys, RootPlayerConfig);
  }

  /** Player.js: startRespawn drops the shield and parks the ship at x = -1000;
      resetShield zeroes both shield timers. */
  lemma RootRespawnAndReset(p: PlayerState)
    ensures !AfterStartRespawn(p).shieldActive && AfterStartRespawn(p).x == -1000.0
    ensures AfterStartRespawn(p).y == p.y && AfterStartRespawn(p).bullets == p.bullets
    ensures AfterResetShield(p).shieldTimer == 0.0 && AfterResetShield(p).shieldCooldownTimer == 0.0
    ensures AfterResetShield(p).x == p.x && AfterResetShield(p).bullets == p.bullets
  {
  }

  /** src/Player.js and Player.js as an object updated in place. */
  class Player {
    const width: real
    const height: real
    const cfg: PlayerConfig
    var x: real
    var y: real
    var bullets: seq<BulletState>
    var shieldActive: bool
    var shieldTimer: real
    var shieldCooldownTimer: real
    var shotTimer: real
    var isRespawning: bool
    var respawnTimer: real
    var isReappearing: bool
    var reappearTimer: real
    var cooldownFeedbackTimer: real

    function State(): PlayerState
      reads this
    {
      PlayerState(x, y, bullets, shieldActive, shieldTimer, shieldCooldownTimer, shotTimer,
                  isRespawning, respawnTimer, isReappearing, reappearTimer, cooldownFeedbackTimer)
    }

    constructor (cfg: PlayerConfig)
      ensures State() == NewPlayer(cfg) && this.cfg == cfg
      ensures width == PlayerWidth && height == PlayerHeight
    {
      this.cfg := cfg;
      width := 100.0;
      height := 100.0;
      x := GameWidth / 2.0 - 100.0 / 2.0;
      y := cfg.spawnY;
      bullets := [];
      shieldActive := false;
      shieldTimer := 0.0;
      shieldCooldownTimer := 0.0;
      shotTimer := 1000.0;
      isRespawning := false;
      respawnTimer := 0.0;
      isReappearing := false;
      reappearTimer := 0.0;
      cooldownFeedbackTimer := 0.0;
    }

    /** Player.update, its stages as the helper methods below. */
    method Update(dt: real, keys: Keys)
      requires width == PlayerWidth
      modifies this
      ensures State() == PlayerStep(old(State()), dt, keys, cfg)
    {
      if isRespawning {
        respawnTimer := respawnTimer - dt;
        if respawnTimer <= 0.0 {
          isRespawning := false;
          isReappearing := true;
          reappearTimer := 1000.0;
          x := GameWidth / 2.0 - width / 2.0;
          y := cfg.spawnY;
        } else {
          return;
        }
      }
      if isReappearing {
        reappearTimer := reappearTimer - dt;
        if reappearTimer <= 0.0 {
          isReappearing := false;
        }
      }
      ghost var p1 := State();
      assert p1 == ReappearTick(RespawnTick(old(State()), dt, cfg), dt);
      MoveAndShoot(dt, keys);
      UpdateShield(dt, keys);
      ghost var p3 := State();
      UpdateBullets(dt);
      assert State() == p3.(bullets := AdvanceBullets(p3.bullets, dt));
    }

    /** Movement, the shot timer and firing. */
    method MoveAndShoot(dt: real, keys: Keys)
      requires width == PlayerWidth
      modifies this
      ensures State() == Fire(ShotTimerTick(Move(old(State()), dt, keys), dt), keys, cfg)
    {
      var timeScale := dt / 16.66;
      if keys.left && x > 0.0 {
        x := x - PlayerSpeed * timeScale;
      }
      if keys.right && x < GameWidth - width {
        x := x + PlayerSpeed * timeScale;
      }
      if shotTimer < 1000.0 {
        shotTimer := shotTimer + dt;
      }
      if keys.space && shotTimer >= 1000.0 {
        bullets := bullets + [NewBullet(x + width / 2.0 - 2.0, y, Up, false, cfg.speeds)];
        shotTimer := 0.0;
      }
    }

    /** The Control key, then the feedback, shield and cooldown timers. */
    method UpdateShield(dt: real, keys: Keys)
      modifies this
      ensures State() == CooldownTick(ShieldTick(FeedbackTick(ShieldKey(old(State()), keys, cfg), dt), dt), dt)
    {
      PressShield(keys);
      TickShieldTimers(dt);
    }

    /** The Control key: raise the shield, or start the cooldown feedback. */
    method PressShield(keys: Keys)
      modifies this
      ensures State() == ShieldKey(old(State()), keys, cfg)
    {
      if keys.ctrl {
        if shieldCooldownTimer <= 0.0 && !shieldActive {
          shieldActive := true;
          shieldTimer := cfg.shieldDuration;
          shieldCooldownTimer := cfg.shieldCooldown;
        } else if shieldCooldownTimer > 0.0 && !shieldActive {
          cooldownFeedbackTimer := 100.0;
        }
      }
    }

    /** The feedback, shield and cooldown timers. */
    method TickShieldTimers(dt: real)
      modifies this
      ensures State() == CooldownTick(ShieldTick(FeedbackTick(old(State()), dt), dt), dt)
    {
      if cooldownFeedbackTimer > 0.0 {
        cooldownFeedbackTimer := cooldownFeedbackTimer - dt;
      }
      if shieldActive {
        shieldTimer := shieldTimer - dt;
        if shieldTimer <= 0.0 {
          shieldActive := false;
        }
      }
      if shieldCooldownTimer > 0.0 {
        shieldCooldownTimer := shieldCooldownTimer - dt;
      }
    }

    /** bullets.forEach(b => b.update(dt)) and then the filter of the marked ones. */
    method UpdateBullets(dt: real)
      modifies this
      ensures State() == old(State()).(bullets := AdvanceBullets(old(bullets), dt))
    {
      var bs := bullets;
      var i := 0;
      while i < |bs|
        invariant 0 <= i <= |bs| == |bullets|
        invariant forall j :: 0 <= j < i ==> bs[j] == BulletStep(bullets[j], dt)
        invariant forall j :: i <= j < |bs| ==> bs[j] == bullets[j]
      {
        bs := bs[i := BulletStep(bs[i], dt)];
        i := i + 1;
      }
      assert bs == MapSeq(bullets, (b: BulletState) => BulletStep(b, dt));
      bullets := Filter(bs, (b: BulletState) => !b.marked);
    }

    method StartRespawn()
      modifies this
      ensures State() == AfterStartRespawn(old(State()))
    {
      isRespawning := true;
      respawnTimer := 3000.0;
      shieldActive := false;
      isReappearing := false;
      x := -1000.0;
    }

    method ResetShield()
      modifies this
      ensures State() == AfterResetShield(old(State()))
    {
      shieldActive := false;
      shieldTimer := 0.0;
      shieldCooldownTimer := 0.0;
    }
  }
}
