/** checkCollisions of src/game.js as functions of the game state, in its three phases:
    player bullets against aliens and the mothership, enemy bullets against the shield
    and the player, and aliens against the shield and the player. Each phase walks the
    list it started with, as forEach does, even when handlePlayerHit or endGame replaces
    the global list part way through. */
module Collisions {
  import opened Globals
  import opened Seqs
  import opened Bullets
  import opened Players
  import opened Aliens
  import opened Explosions
  import opened Motherships
  import opened Worlds

  const ShieldRadius: real := 80.0
  /** The rough radius the shield test gives an alien. */
  const AlienRadius: real := 40.0
  const BodyInset: real := 20.0
  /** The horizontal inset of the kamikaze hit box. */
  const CrashInsetX: real := 25.0

  /** The strict point-in-box test of every player-bullet hit. */
  predicate Inside(px: real, py: real, x: real, y: real, width: real, height: real) {
    px > x && px < x + width && py > y && py < y + height
  }

  function PlayerCenterX(p: PlayerState): real {
    p.x + PlayerWidth / 2.0
  }

  function PlayerCenterY(p: PlayerState): real {
    p.y + PlayerHeight / 2.0
  }

  /** explosions.push(new Explosion(x, y, color)), which draws from Math.random. */
  function AddExplosion(w: WorldState, x: real, y: real, color: string, rng: Random): (r: WorldState)
    ensures r.explosions == w.explosions + [NewExplosion(x, y, color, rng, w.draws)]
    ensures r.draws == w.draws + DrawsPerExplosion
    ensures r.(explosions := w.explosions, draws := w.draws) == w
  {
    w.(explosions := w.explosions + [NewExplosion(x, y, color, rng, w.draws)],
       draws := w.draws + DrawsPerExplosion)
  }

  function MarkPlayerBullet(p: PlayerState, i: nat): PlayerState
    requires i < |p.bullets|
  {
    p.(bullets := p.bullets[i := p.bullets[i].(marked := true)])
  }

  // ---------------------------------------------------------------------------
  // Phase 1: player bullets against aliens and the mothership

  /** Player bullet i against alien j: a hit needs both unmarked and the bullet strictly
      inside the alien; it marks both, adds 10, explodes orange at the alien's centre and
      updates the high score. */
  function BulletAlien(w: WorldState, i: nat, j: nat, rng: Random): (r: WorldState)
    requires i < |w.player.bullets| && j < |w.aliens|
    ensures |r.player.bullets| == |w.player.bullets| && |r.aliens| == |w.aliens|
  {
    var b := w.player.bullets[i];
    var a := w.aliens[j];
    if !b.marked && !a.marked && Inside(b.x, b.y, a.x, a.y, AlienSize, AlienSize) then
      UpdateScore(AddExplosion(w.(aliens := w.aliens[j := a.(marked := true)],
                                  player := MarkPlayerBullet(w.player, i),
                                  score := w.score + 10),
                               a.x + AlienSize / 2.0, a.y + AlienSize / 2.0, "orange", rng))
    else w
  }

  /** Player bullet i against aliens j, j + 1, ... */
  function AliensFrom(w: WorldState, i: nat, j: nat, rng: Random): (r: WorldState)
    requires i < |w.player.bullets| && j <= |w.aliens|
    ensures |r.player.bullets| == |w.player.bullets| && |r.aliens| == |w.aliens|
    decreases |w.aliens| - j
  {
    if j == |w.aliens| then w else AliensFrom(BulletAlien(w, i, j, rng), i, j + 1, rng)
  }

  /** Player bullet i against the mothership: a hit needs both unmarked and the bullet
      strictly inside; it marks the bullet, adds 50, explodes red at the mothership's
      centre, updates the high score and removes the mothership at once. */
  function BulletMothership(w: WorldState, i: nat, rng: Random): (r: WorldState)
    requires i < |w.player.bullets|
    ensures |r.player.bullets| == |w.player.bullets| && r.aliens == w.aliens
  {
    var b := w.player.bullets[i];
    match w.mothership
    case Some(m) =>
      if !m.marked && !b.marked && Inside(b.x, b.y, m.x, m.y, m.width, m.height) then
        UpdateScore(AddExplosion(w.(mothership := None, player := MarkPlayerBullet(w.player, i),
                                    score := w.score + 50),
                                 m.x + m.width / 2.0, m.y + m.height / 2.0, "red", rng))
      else w
    case None => w
  }

  /** Player bullets i, i + 1, ..., each against every alien and then the mothership. */
  function BulletsFrom(w: WorldState, i: nat, rng: Random): (r: WorldState)
    requires i <= |w.player.bullets|
    ensures |r.player.bullets| == |w.player.bullets| && |r.aliens| == |w.aliens|
    decreases |w.player.bullets| - i
  {
    if i == |w.player.bullets| then w
    else BulletsFrom(BulletMothership(AliensFrom(w, i, 0, rng), i, rng), i + 1, rng)
  }

  // ---------------------------------------------------------------------------
  // Phase 2: enemy bullets against the shield and the player

  /** Marks enemy bullet idx of the snapshot in the global list, which is the snapshot
      itself until a hit replaces it by an empty list. */
  function MarkEnemyBullet(w: WorldState, idx: nat): WorldState {
    if idx < |w.alienBullets| then
      w.(alienBullets := w.alienBullets[idx := w.alienBullets[idx].(marked := true)])
    else w
  }

  /** The shield is up and the bullet is closer than 80 + its radius to the player's centre. */
  predicate ShieldStopsBullet(p: PlayerState, b: BulletState, trig: Trig) {
    p.shieldActive
    && Sqrt(trig, Dist2(b.x - PlayerCenterX(p), b.y - PlayerCenterY(p))) < ShieldRadius + b.radius
  }

  /** The bullet is strictly inside the player box inset by 20 on every side. */
  predicate BodyHit(p: PlayerState, b: BulletState) {
    Inside(b.x, b.y, p.x + BodyInset, p.y + BodyInset,
           PlayerWidth - 2.0 * BodyInset, PlayerHeight - 2.0 * BodyInset)
  }

  /** One enemy bullet of the snapshot, at index idx. */
  function EnemyBullet(w: WorldState, b: BulletState, idx: nat, rng: Random, trig: Trig): WorldState {
    if b.marked then w
    else if ShieldStopsBullet(w.player, b, trig) then
      AddExplosion(MarkEnemyBullet(w, idx), b.x, b.y, "white", rng)
    else if BodyHit(w.player, b) then
      HandlePlayerHit(AddExplosion(MarkEnemyBullet(w, idx), PlayerCenterX(w.player),
                                   PlayerCenterY(w.player), "white", rng))
    else w
  }

  /** The snapshot's enemy bullets from index idx on. */
  function EnemyBulletsFrom(w: WorldState, bs: seq<BulletState>, idx: nat, rng: Random, trig: Trig): WorldState
    requires idx <= |bs|
    decreases |bs| - idx
  {
    if idx == |bs| then w else EnemyBulletsFrom(EnemyBullet(w, bs[idx], idx, rng, trig), bs, idx + 1, rng, trig)
  }

  // ---------------------------------------------------------------------------
  // Phase 3: aliens against the shield and the player

  /** Marks alien idx of the snapshot in the global list, which is the snapshot itself
      until endGame empties it. */
  function MarkAlien(w: WorldState, idx: nat): WorldState {
    if idx < |w.aliens| then w.(aliens := w.aliens[idx := w.aliens[idx].(marked := true)]) else w
  }

  /** The shield is up and the alien's centre is closer than 80 + 40 to the player's. */
  predicate ShieldTouches(p: PlayerState, a: AlienState, trig: Trig) {
    p.shieldActive
    && Sqrt(trig, Dist2(a.x + AlienSize / 2.0 - PlayerCenterX(p), a.y + AlienSize / 2.0 - PlayerCenterY(p)))
       < ShieldRadius + AlienRadius
  }

  /** The alien box overlaps the player box inset by 25 across and 20 down. */
  predicate Crash(p: PlayerState, a: AlienState) {
    a.x < p.x + PlayerWidth - CrashInsetX && a.x + AlienSize > p.x + CrashInsetX
    && a.y < p.y + PlayerHeight - BodyInset && a.y + AlienSize > p.y + BodyInset
  }

  /** The shield test: mark the alien and explode orange at its centre; no score. */
  function ShieldContact(w: WorldState, a: AlienState, idx: nat, rng: Random, trig: Trig): WorldState {
    if ShieldTouches(w.player, a, trig) then
      AddExplosion(MarkAlien(w, idx), a.x + AlienSize / 2.0, a.y + AlienSize / 2.0, "orange", rng)
    else w
  }

  /** The kamikaze test: mark the alien, explode white at the player, lose a life. */
  function CrashContact(w: WorldState, a: AlienState, idx: nat, rng: Random): WorldState {
    if Crash(w.player, a) then
      HandlePlayerHit(AddExplosion(MarkAlien(w, idx), PlayerCenterX(w.player),
                                   PlayerCenterY(w.player), "white", rng))
    else w
  }

  /** One alien of the snapshot: skipped when marked; otherwise the shield test and then,
      whatever it did, the kamikaze test. */
  function AlienContact(w: WorldState, a: AlienState, idx: nat, rng: Random, trig: Trig): WorldState {
    if a.marked then w else CrashContact(ShieldContact(w, a, idx, rng, trig), a, idx, rng)
  }

  function AlienContactsFrom(w: WorldState, snap: seq<AlienState>, idx: nat, rng: Random, trig: Trig): WorldState
    requires idx <= |snap|
    decreases |snap| - idx
  {
    if idx == |snap| then w else AlienContactsFrom(AlienContact(w, snap[idx], idx, rng, trig), snap, idx + 1, rng, trig)
  }

  /** checkCollisions: the three phases in order, each over the list as it stands when
      the phase begins. */
  function CheckCollisions(w: WorldState, rng: Random, trig: Trig): WorldState {
    var w1 := BulletsFrom(w, 0, rng);
    var w2 := EnemyBulletsFrom(w1, w1.alienBullets, 0, rng, trig);
    AlienContactsFrom(w2, w2.aliens, 0, rng, trig)
  }

  // ---------------------------------------------------------------------------
  // Properties of phase 1

  /** A bullet hits an alien exactly when neither is marked and the bullet is strictly
      inside the alien; a hit marks both, adds exactly 10, raises the high score to the
      score if it passed it and adds one orange explosion at the alien's centre. A miss
      changes nothing. */
  lemma BulletAlienRule(w: WorldState, i: nat, j: nat, rng: Random)
    requires i < |w.player.bullets| && j < |w.aliens|
    ensures var r := BulletAlien(w, i, j, rng);
      var b := w.player.bullets[i];
      var a := w.aliens[j];
      var hit := !b.marked && !a.marked && Inside(b.x, b.y, a.x, a.y, AlienSize, AlienSize);
      && (hit ==>
            r.score == w.score + 10 && r.highScore == Max(w.highScore, w.score + 10)
            && r.aliens == w.aliens[j := a.(marked := true)]
            && r.player.bullets == w.player.bullets[i := b.(marked := true)]
            && r.explosions == w.explosions + [NewExplosion(a.x + 40.0, a.y + 40.0, "orange", rng, w.draws)]
            && r.lives == w.lives && r.mode == w.mode && r.mothership == w.mothership)
      && (!hit ==> r == w)
  {
  }

  /** How many aliens are marked, bullets of the player are marked, and whether the
      mothership is gone. */
  function KilledAliens(w: WorldState): nat {
    Count(w.aliens, AlienMarked)
  }

  function SpentBullets(w: WorldState): nat {
    Count(w.player.bullets, Bullets.Marked)
  }

  function Downed(w: WorldState, r: WorldState): int {
    if w.mothership.Some? && r.mothership.None? then 1 else 0
  }

  /** The scoring ledger of phase 1 between states w and r: every point scored is 10 per
      newly marked alien plus 50 for a downed mothership, every newly spent bullet paid
      for exactly one of them, the high score tracks the score, and nothing outside
      phase 1's reach changed. */
  predicate Ledger(w: WorldState, r: WorldState) {
    && |r.aliens| == |w.aliens| && |r.player.bullets| == |w.player.bullets|
    && r.score - w.score == 10 * (KilledAliens(r) - KilledAliens(w)) + 50 * Downed(w, r)
    && KilledAliens(r) >= KilledAliens(w)
    && SpentBullets(r) - SpentBullets(w) == (KilledAliens(r) - KilledAliens(w)) + Downed(w, r)
    && (w.highScore >= w.score ==> r.highScore == Max(w.highScore, r.score))
    && (w.mothership.None? ==> r.mothership.None?)
    && (r.mothership.Some? ==> r.mothership == w.mothership)
    && r.lives == w.lives && r.mode == w.mode && r.round == w.round
  }

  lemma LedgerChain(w: WorldState, v: WorldState, r: WorldState)
    requires Ledger(w, v) && Ledger(v, r)
    ensures Ledger(w, r)
  {
  }

  /** Without a mothership nothing happens. With one, a bullet hits it exactly when
      neither is marked and the bullet is strictly inside it; a hit marks the bullet,
      adds exactly 50, removes the mothership at once, raises the high score to the
      score if it passed it and adds one red explosion at its centre. A miss changes
      nothing. */
  lemma BulletMothershipRule(w: WorldState, i: nat, rng: Random)
    requires i < |w.player.bullets|
    ensures w.mothership.None? ==> BulletMothership(w, i, rng) == w
    ensures w.mothership.Some? ==>
      var r := BulletMothership(w, i, rng);
      var b := w.player.bullets[i];
      var m := w.mothership.value;
      var hit := !m.marked && !b.marked && Inside(b.x, b.y, m.x, m.y, m.width, m.height);
      && (hit ==>
            r.score == w.score + 50 && r.highScore == Max(w.highScore, w.score + 50)
            && r.mothership.None?
            && r.player.bullets == w.player.bullets[i := b.(marked := true)]
            && r.explosions == w.explosions + [NewExplosion(m.x + m.width / 2.0, m.y + m.height / 2.0, "red", rng, w.draws)]
            && r.aliens == w.aliens && r.lives == w.lives && r.mode == w.mode)
      && (!hit ==> r == w)
  {
  }

  lemma BulletAlienLedger(w: WorldState, i: nat, j: nat, rng: Random)
    requires i < |w.player.bullets| && j < |w.aliens|
    ensures Ledger(w, BulletAlien(w, i, j, rng))
  {
    var b := w.player.bullets[i];
    var a := w.aliens[j];
    if !b.marked && !a.marked && Inside(b.x, b.y, a.x, a.y, AlienSize, AlienSize) {
      CountUpdate(w.aliens, j, a.(marked := true), AlienMarked);
      CountUpdate(w.player.bullets, i, b.(marked := true), Bullets.Marked);
    }
  }

  lemma BulletMothershipLedger(w: WorldState, i: nat, rng: Random)
    requires i < |w.player.bullets|
    ensures Ledger(w, BulletMothership(w, i, rng))
  {
    var b := w.player.bullets[i];
    if w.mothership.Some? && !w.mothership.value.marked && !b.marked
       && Inside(b.x, b.y, w.mothership.value.x, w.mothership.value.y,
                 w.mothership.value.width, w.mothership.value.height) {
      CountUpdate(w.player.bullets, i, b.(marked := true), Bullets.Marked);
    }
  }

  lemma {:induction false} AliensFromLedger(w: WorldState, i: nat, j: nat, rng: Random)
    requires i < |w.player.bullets| && j <= |w.aliens|
    ensures Ledger(w, AliensFrom(w, i, j, rng))
    decreases |w.aliens| - j
  {
    if j < |w.aliens| {
      var v := BulletAlien(w, i, j, rng);
      BulletAlienLedger(w, i, j, rng);
      AliensFromLedger(v, i, j + 1, rng);
      LedgerChain(w, v, AliensFrom(v, i, j + 1, rng));
    }
  }

  lemma {:induction false} BulletsFromLedger(w: WorldState, i: nat, rng: Random)
    requires i <= |w.player.bullets|
    ensures Ledger(w, BulletsFrom(w, i, rng))
    decreases |w.player.bullets| - i
  {
    if i < |w.player.bullets| {
      var v := AliensFrom(w, i, 0, rng);
      AliensFromLedger(w, i, 0, rng);
      BulletMothershipLedger(v, i, rng);
      LedgerChain(w, v, BulletMothership(v, i, rng));
      var u := BulletMothership(v, i, rng);
      BulletsFromLedger(u, i + 1, rng);
      LedgerChain(w, u, BulletsFrom(u, i + 1, rng));
    }
  }

  /** Over all of phase 1 the score rises by exactly 10 per alien newly marked and 50 if
      the mothership was shot down, and the number of newly spent player bullets equals
      the number of those kills: no bullet scores twice and none scores for nothing. */
  lemma PlayerBulletsScoreOnce(w: WorldState, rng: Random)
    ensures Ledger(w, BulletsFrom(w, 0, rng))
  {
    BulletsFromLedger(w, 0, rng);
  }

  /** A bullet already spent, on an earlier alien or before the phase, hits nothing more:
      the rest of its alien walk and its mothership test leave the state as it is. */
  lemma {:induction false} SpentBulletHitsNothing(w: WorldState, i: nat, j: nat, rng: Random)
    requires i < |w.player.bullets| && j <= |w.aliens| && w.player.bullets[i].marked
    ensures AliensFrom(w, i, j, rng) == w
    ensures BulletMothership(w, i, rng) == w
    decreases |w.aliens| - j
  {
    if j < |w.aliens| {
      SpentBulletHitsNothing(w, i, j + 1, rng);
    }
  }

  // ---------------------------------------------------------------------------
  // Properties of phases 2 and 3

  /** An unmarked enemy bullet that the shield stops is marked and explodes white where
      it is, and the body test is skipped: no life is lost. Otherwise a bullet inside the
      inset box costs exactly one life through handlePlayerHit; any other bullet, and any
      already marked one, changes nothing. The score never changes. */
  lemma EnemyBulletRule(w: WorldState, b: BulletState, idx: nat, rng: Random, trig: Trig)
    ensures var r := EnemyBullet(w, b, idx, rng, trig);
      && r.score == w.score && r.highScore == w.highScore && r.round == w.round
      && (b.marked ==> r == w)
      && (!b.marked && ShieldStopsBullet(w.player, b, trig) ==>
            r.lives == w.lives && r.player == w.player && r.aliens == w.aliens
            && r.alienBullets == MarkEnemyBullet(w, idx).alienBullets
            && r.explosions == w.explosions + [NewExplosion(b.x, b.y, "white", rng, w.draws)])
      && (!b.marked && !ShieldStopsBullet(w.player, b, trig) && BodyHit(w.player, b) ==>
            r == HandlePlayerHit(AddExplosion(MarkEnemyBullet(w, idx), w.player.x + 50.0,
                                              w.player.y + 50.0, "white", rng))
            && r.lives == w.lives - 1 && r.alienBullets == [])
      && (!b.marked && !ShieldStopsBullet(w.player, b, trig) && !BodyHit(w.player, b) ==> r == w)
  {
  }

  /** With an exact square root, the shield stops a bullet exactly when it is up and the
      squared distance from the player's centre is below (80 + radius) squared. */
  lemma ShieldStopsBulletSquared(p: PlayerState, b: BulletState, trig: Trig)
    requires ExactRoot(trig) && b.radius == BulletRadius
    ensures ShieldStopsBullet(p, b, trig) <==>
      p.shieldActive && Dist2(b.x - (p.x + 50.0), b.y - (p.y + 50.0)) < 85.0 * 85.0
  {
    RootBelow(trig, Dist2(b.x - PlayerCenterX(p), b.y - PlayerCenterY(p)), ShieldRadius + b.radius);
  }

  /** An alien the shield touches is marked with no score, and the kamikaze test still
      runs for it: if it also overlaps the player's hit box, a life is lost all the same. */
  lemma ShieldDoesNotStopCrash(w: WorldState, a: AlienState, idx: nat, rng: Random, trig: Trig)
    requires !a.marked && idx < |w.aliens| && ShieldTouches(w.player, a, trig)
    ensures var r := AlienContact(w, a, idx, rng, trig);
      && r.score == w.score
      && (Crash(w.player, a) ==> r.lives == w.lives - 1)
      && (!Crash(w.player, a) ==>
            r.lives == w.lives && r.aliens == w.aliens[idx := w.aliens[idx].(marked := true)]
            && r.explosions == w.explosions + [NewExplosion(a.x + 40.0, a.y + 40.0, "orange", rng, w.draws)])
  {
  }

  /** With an exact square root, every alien that overlaps the player's hit box is also
      within the shield's reach (its centre is less than about 96 away), so with the
      shield up every kamikaze hit is also a shield kill and still costs a life. */
  lemma CrashIsInsideShield(p: PlayerState, a: AlienState, trig: Trig)
    requires ExactRoot(trig) && p.shieldActive && Crash(p, a)
    ensures ShieldTouches(p, a, trig)
  {
    var dx := a.x + AlienSize / 2.0 - PlayerCenterX(p);
    var dy := a.y + AlienSize / 2.0 - PlayerCenterY(p);
    assert -65.0 < dx < 65.0 && -70.0 < dy < 70.0;
    SquareBound(dx, 65.0);
    SquareBound(dy, 70.0);
    RootBelow(trig, Dist2(dx, dy), ShieldRadius + AlienRadius);
  }

  lemma SquareBound(d: real, c: real)
    requires -c < d < c
    ensures d * d < c * c
  {
    if d >= 0.0 {
      SquareLess(d, c);
    } else {
      SquareLess(-d, c);
    }
  }

  /** The rule of one alien in phase 3: a marked alien is skipped; the shield and the
      kamikaze test never touch the score; lives drop by one exactly on a crash with the
      hit box, and otherwise stay. */
  lemma AlienContactRule(w: WorldState, a: AlienState, idx: nat, rng: Random, trig: Trig)
    ensures var r := AlienContact(w, a, idx, rng, trig);
      && r.score == w.score && r.highScore == w.highScore && r.round == w.round
      && (a.marked ==> r == w)
      && (!a.marked ==> (r.lives == w.lives - 1 <==> Crash(w.player, a)))
      && (!a.marked && !Crash(w.player, a) ==> r.lives == w.lives && r.mode == w.mode)
  {
    if !a.marked {
      var v := ShieldContact(w, a, idx, rng, trig);
      ShieldContactKeeps(w, a, idx, rng, trig);
      CrashContactLives(v, a, idx, rng);
    }
  }

  /** The shield test touches neither the score, the lives, the mode nor the player. */
  lemma ShieldContactKeeps(w: WorldState, a: AlienState, idx: nat, rng: Random, trig: Trig)
    ensures var r := ShieldContact(w, a, idx, rng, trig);
      && r.score == w.score && r.highScore == w.highScore && r.round == w.round
      && r.lives == w.lives && r.mode == w.mode && r.player == w.player
  {
  }

  /** The kamikaze test costs exactly one life on a crash and changes nothing otherwise. */
  lemma CrashContactLives(w: WorldState, a: AlienState, idx: nat, rng: Random)
    ensures var r := CrashContact(w, a, idx, rng);
      && r.score == w.score && r.highScore == w.highScore && r.round == w.round
      && (Crash(w.player, a) ==> r.lives == w.lives - 1)
      && (!Crash(w.player, a) ==> r == w)
  {
    if Crash(w.player, a) {
      var v := AddExplosion(MarkAlien(w, idx), PlayerCenterX(w.player), PlayerCenterY(w.player), "white", rng);
      assert v.lives == w.lives && v.score == w.score && v.highScore == w.highScore && v.round == w.round;
      HandlePlayerHitRule(v);
    }
  }

  /** Phases 2 and 3 never change the score, the high score or the round, and never add
      lives. */
  predicate Harmless(w: WorldState, r: WorldState) {
    r.score == w.score && r.highScore == w.highScore && r.round == w.round && r.lives <= w.lives
  }

  lemma {:induction false} EnemyBulletsHarmless(w: WorldState, bs: seq<BulletState>, idx: nat, rng: Random, trig: Trig)
    requires idx <= |bs|
    ensures Harmless(w, EnemyBulletsFrom(w, bs, idx, rng, trig))
    decreases |bs| - idx
  {
    if idx < |bs| {
      EnemyBulletRule(w, bs[idx], idx, rng, trig);
      EnemyBulletsHarmless(EnemyBullet(w, bs[idx], idx, rng, trig), bs, idx + 1, rng, trig);
    }
  }

  lemma {:induction false} AlienContactsHarmless(w: WorldState, snap: seq<AlienState>, idx: nat, rng: Random, trig: Trig)
    requires idx <= |snap|
    ensures Harmless(w, AlienContactsFrom(w, snap, idx, rng, trig))
    decreases |snap| - idx
  {
    if idx < |snap| {
      AlienContactRule(w, snap[idx], idx, rng, trig);
      AlienContactsHarmless(AlienContact(w, snap[idx], idx, rng, trig), snap, idx + 1, rng, trig);
    }
  }

  /** Over the whole of checkCollisions the score only rises, by 10 per newly marked
      alien and 50 for a downed mothership as phase 1 counts them, the high score keeps
      up with it, the round stays and lives never rise. */
  lemma CollisionsScore(w: WorldState, rng: Random, trig: Trig)
    requires w.highScore >= w.score
    ensures var w1 := BulletsFrom(w, 0, rng);
      var r := CheckCollisions(w, rng, trig);
      && Ledger(w, w1)
      && r.score == w1.score >= w.score
      && r.highScore == Max(w.highScore, r.score)
      && r.round == w.round && r.lives <= w.lives
  {
    var w1 := BulletsFrom(w, 0, rng);
    PlayerBulletsScoreOnce(w, rng);
    var w2 := EnemyBulletsFrom(w1, w1.alienBullets, 0, rng, trig);
    EnemyBulletsHarmless(w1, w1.alienBullets, 0, rng, trig);
    AlienContactsHarmless(w2, w2.aliens, 0, rng, trig);
  }

  // ---------------------------------------------------------------------------
  // What collisions do to the aliens

  /** From w to r the aliens were at most marked, in place, or all cleared by endGame:
      no alien moved, changed mode or queued a bullet. */
  predicate OnlyMarked(w: WorldState, r: WorldState) {
    r.aliens == []
    || (|r.aliens| == |w.aliens|
        && forall i :: 0 <= i < |r.aliens| ==>
             r.aliens[i].mode == w.aliens[i].mode && r.aliens[i].bullets == w.aliens[i].bullets)
  }

  lemma OnlyMarkedChain(w: WorldState, v: WorldState, r: WorldState)
    requires OnlyMarked(w, v) && OnlyMarked(v, r)
    ensures OnlyMarked(w, r)
  {
  }

  lemma {:induction false} AliensFromOnlyMarks(w: WorldState, i: nat, j: nat, rng: Random)
    requires i < |w.player.bullets| && j <= |w.aliens|
    ensures OnlyMarked(w, AliensFrom(w, i, j, rng))
    decreases |w.aliens| - j
  {
    if j < |w.aliens| {
      var v := BulletAlien(w, i, j, rng);
      AliensFromOnlyMarks(v, i, j + 1, rng);
      OnlyMarkedChain(w, v, AliensFrom(v, i, j + 1, rng));
    }
  }

  lemma {:induction false} BulletsFromOnlyMarks(w: WorldState, i: nat, rng: Random)
    requires i <= |w.player.bullets|
    ensures OnlyMarked(w, BulletsFrom(w, i, rng))
    decreases |w.player.bullets| - i
  {
    if i < |w.player.bullets| {
      var v := AliensFrom(w, i, 0, rng);
      AliensFromOnlyMarks(w, i, 0, rng);
      var u := BulletMothership(v, i, rng);
      OnlyMarkedChain(w, v, u);
      BulletsFromOnlyMarks(u, i + 1, rng);
      OnlyMarkedChain(w, u, BulletsFrom(u, i + 1, rng));
    }
  }

  lemma {:induction false} EnemyBulletsOnlyMark(w: WorldState, bs: seq<BulletState>, idx: nat, rng: Random, trig: Trig)
    requires idx <= |bs|
    ensures OnlyMarked(w, EnemyBulletsFrom(w, bs, idx, rng, trig))
    decreases |bs| - idx
  {
    if idx < |bs| {
      var v := EnemyBullet(w, bs[idx], idx, rng, trig);
      assert OnlyMarked(w, v);
      EnemyBulletsOnlyMark(v, bs, idx + 1, rng, trig);
      OnlyMarkedChain(w, v, EnemyBulletsFrom(v, bs, idx + 1, rng, trig));
    }
  }

  lemma MarkAlienOnlyMarks(w: WorldState, idx: nat)
    ensures OnlyMarked(w, MarkAlien(w, idx)) && |MarkAlien(w, idx).aliens| == |w.aliens|
  {
    var r := MarkAlien(w, idx);
    if idx < |w.aliens| {
      forall i | 0 <= i < |r.aliens|
        ensures r.aliens[i].mode == w.aliens[i].mode && r.aliens[i].bullets == w.aliens[i].bullets
      {
      }
    }
  }

  lemma ShieldContactOnlyMarks(w: WorldState, a: AlienState, idx: nat, rng: Random, trig: Trig)
    ensures OnlyMarked(w, ShieldContact(w, a, idx, rng, trig))
  {
    MarkAlienOnlyMarks(w, idx);
  }

  lemma CrashContactOnlyMarks(w: WorldState, a: AlienState, idx: nat, rng: Random)
    ensures OnlyMarked(w, CrashContact(w, a, idx, rng))
  {
    if Crash(w.player, a) {
      var v := AddExplosion(MarkAlien(w, idx), PlayerCenterX(w.player), PlayerCenterY(w.player), "white", rng);
      MarkAlienOnlyMarks(w, idx);
      assert v.aliens == MarkAlien(w, idx).aliens;
      assert OnlyMarked(w, v);
      assert OnlyMarked(v, HandlePlayerHit(v));
      OnlyMarkedChain(w, v, HandlePlayerHit(v));
    }
  }

  lemma AlienContactOnlyMarks(w: WorldState, a: AlienState, idx: nat, rng: Random, trig: Trig)
    ensures OnlyMarked(w, AlienContact(w, a, idx, rng, trig))
  {
    if !a.marked {
      var v := ShieldContact(w, a, idx, rng, trig);
      ShieldContactOnlyMarks(w, a, idx, rng, trig);
      CrashContactOnlyMarks(v, a, idx, rng);
      OnlyMarkedChain(w, v, CrashContact(v, a, idx, rng));
    }
  }

  lemma {:induction false} AlienContactsOnlyMark(w: WorldState, snap: seq<AlienState>, idx: nat, rng: Random, trig: Trig)
    requires idx <= |snap|
    ensures OnlyMarked(w, AlienContactsFrom(w, snap, idx, rng, trig))
    decreases |snap| - idx
  {
    if idx < |snap| {
      var v := AlienContact(w, snap[idx], idx, rng, trig);
      AlienContactOnlyMarks(w, snap[idx], idx, rng, trig);
      AlienContactsOnlyMark(v, snap, idx + 1, rng, trig);
      OnlyMarkedChain(w, v, AlienContactsFrom(v, snap, idx + 1, rng, trig));
    }
  }

  /** checkCollisions only marks aliens, or clears them all when the game ends: it never
      moves one, changes its mode or gives it a bullet. */
  lemma CollisionsOnlyMark(w: WorldState, rng: Random, trig: Trig)
    ensures OnlyMarked(w, CheckCollisions(w, rng, trig))
  {
    var w1 := BulletsFrom(w, 0, rng);
    BulletsFromOnlyMarks(w, 0, rng);
    var w2 := EnemyBulletsFrom(w1, w1.alienBullets, 0, rng, trig);
    EnemyBulletsOnlyMark(w1, w1.alienBullets, 0, rng, trig);
    OnlyMarkedChain(w, w1, w2);
    AlienContactsOnlyMark(w2, w2.aliens, 0, rng, trig);
    OnlyMarkedChain(w, w2, AlienContactsFrom(w2, w2.aliens, 0, rng, trig));
  }
}
