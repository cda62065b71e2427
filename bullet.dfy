/** Bullets, the player's and the aliens' (alien_revenge/Bullet.js). */
module Bullets {
  import opened Globals
  import opened Seqs

  datatype BulletState = BulletState(
    x: real, y: real, radius: real,
    direction: real,  // -1 up, 1 down
    isEnemy: bool, marked: bool, speed: real)

  /** The two bullet speeds a globals file defines. */
  datatype BulletSpeeds = BulletSpeeds(player: real, enemy: real)

  const SrcBulletSpeeds := BulletSpeeds(BulletSpeed, AlienBulletSpeed)
  const RevengeBulletSpeeds := BulletSpeeds(BulletSpeed, RevengeAlienBulletSpeed)

  const BulletRadius: real := 5.0
  const Up: real := -1.0
  const Down: real := 1.0

  /** What every bullet satisfies from construction on. */
  predicate ValidBullet(b: BulletState) {
    b.radius == BulletRadius && (b.direction == Up || b.direction == Down) && b.speed > 0.0
  }

  function NewBullet(x: real, y: real, direction: real, isEnemy: bool, speeds: BulletSpeeds): BulletState {
    BulletState(x, y, BulletRadius, direction, isEnemy, false,
                if isEnemy then speeds.enemy else speeds.player)
  }

  /** How far one update of `dt` milliseconds moves the bullet vertically. */
  function Displacement(b: BulletState, dt: real): real {
    b.speed * b.direction * TimeScale(dt)
  }

  predicate OffScreen(y: real) {
    y < 0.0 || y > GameHeight
  }

  /** Bullet.update: move vertically, then mark once off screen. */
  function BulletStep(b: BulletState, dt: real): BulletState {
    var y := b.y + Displacement(b, dt);
    b.(y := y, marked := b.marked || OffScreen(y))
  }

  /** Every bullet updated in turn, then the marked ones dropped (forEach + filter). */
  function AdvanceBullets(bs: seq<BulletState>, dt: real): seq<BulletState> {
    Filter(MapSeq(bs, (b: BulletState) => BulletStep(b, dt)), (b: BulletState) => !b.marked)
  }

  predicate Unmarked(b: BulletState) {
    !b.marked
  }

  predicate Marked(b: BulletState) {
    b.marked
  }

  /** The constructor's bullet is valid whenever its direction and speeds are. */
  lemma NewBulletValid(x: real, y: real, direction: real, isEnemy: bool, speeds: BulletSpeeds)
    requires direction == Up || direction == Down
    requires speeds.player > 0.0 && speeds.enemy > 0.0
    ensures ValidBullet(NewBullet(x, y, direction, isEnemy, speeds))
  {
  }

  /** An update changes only y and the mark; y moves by speed * direction * dt / 16.66,
      and the mark is set exactly when it was set or y left the screen. */
  lemma BulletStepEffect(b: BulletState, dt: real)
    ensures var r := BulletStep(b, dt);
      && r.x == b.x && r.radius == b.radius && r.direction == b.direction
      && r.isEnemy == b.isEnemy && r.speed == b.speed
      && r.y == b.y + b.speed * b.direction * dt / FrameMs
      && (r.marked <==> b.marked || r.y < 0.0 || r.y > GameHeight)
  {
  }

  /** Scaling the frame time scales the move: doubling dt doubles the displacement. */
  lemma DisplacementScales(b: BulletState, dt: real, c: real)
    ensures Displacement(b, c * dt) == c * Displacement(b, dt)
  {
    calc {
      Displacement(b, c * dt);
      b.speed * b.direction * ((c * dt) / FrameMs);
      { assert (c * dt) / FrameMs == c * (dt / FrameMs); }
      b.speed * b.direction * (c * (dt / FrameMs));
      c * (b.speed * b.direction * (dt / FrameMs));
    }
  }

  /** An upward bullet never moves down and a downward one never moves up. */
  lemma DisplacementSign(b: BulletState, dt: real)
    requires ValidBullet(b) && dt >= 0.0
    ensures b.direction == Up ==> Displacement(b, dt) <= 0.0
    ensures b.direction == Down ==> Displacement(b, dt) >= 0.0
  {
    assert TimeScale(dt) >= 0.0;
    assert b.speed * TimeScale(dt) >= 0.0;
    assert Displacement(b, dt) == b.direction * (b.speed * TimeScale(dt));
  }

  /** Frame-rate independence: two updates of dt1 and dt2 equal one update of
      dt1 + dt2, position and mark alike, for a bullet that starts on screen or
      already marked. */
  lemma {:induction false} BulletTwoFrames(b: BulletState, dt1: real, dt2: real)
    requires ValidBullet(b) && dt1 >= 0.0 && dt2 >= 0.0
    requires b.marked || !OffScreen(b.y)
    ensures BulletStep(BulletStep(b, dt1), dt2) == BulletStep(b, dt1 + dt2)
  {
    var m := BulletStep(b, dt1);
    assert Displacement(m, dt2) == Displacement(b, dt2);
    assert Displacement(b, dt1) + Displacement(b, dt2) == Displacement(b, dt1 + dt2) by {
      assert TimeScale(dt1) + TimeScale(dt2) == TimeScale(dt1 + dt2);
      assert b.speed * b.direction * TimeScale(dt1) + b.speed * b.direction * TimeScale(dt2)
          == b.speed * b.direction * (TimeScale(dt1) + TimeScale(dt2));
    }
    DisplacementSign(b, dt1);
    DisplacementSign(b, dt2);
  }

  /** No bullet that survives an advance is marked, and each survivor is the
      update of one of the bullets before. */
  lemma AdvanceBulletsLive(bs: seq<BulletState>, dt: real)
    ensures forall i :: 0 <= i < |AdvanceBullets(bs, dt)| ==> !AdvanceBullets(bs, dt)[i].marked
    ensures forall c :: c in AdvanceBullets(bs, dt) ==> exists b :: b in bs && c == BulletStep(b, dt)
  {
    var stepped := MapSeq(bs, (b: BulletState) => BulletStep(b, dt));
    forall c | c in AdvanceBullets(bs, dt)
      ensures exists b :: b in bs && c == BulletStep(b, dt)
    {
      assert c in stepped;
      var i :| 0 <= i < |stepped| && stepped[i] == c;
      assert bs[i] in bs;
    }
  }

  /** alien_revenge/Bullet.js as an object updated in place. */
  class Bullet {
    var x: real
    var y: real
    var radius: real
    var direction: real
    var isEnemy: bool
    var marked: bool
    var speed: real

    function State(): BulletState
      reads this
    {
      BulletState(x, y, radius, direction, isEnemy, marked, speed)
    }

    constructor (x: real, y: real, direction: real, isEnemy: bool, speeds: BulletSpeeds)
      ensures State() == NewBullet(x, y, direction, isEnemy, speeds)
      ensures !marked && radius == BulletRadius
      ensures speed == if isEnemy then speeds.enemy else speeds.player
    {
      this.x := x;
      this.y := y;
      this.radius := 5.0;
      this.direction := direction;
      this.isEnemy := isEnemy;
      this.marked := false;
      this.speed := if isEnemy then speeds.enemy else speeds.player;
    }

    method Update(dt: real)
      modifies this
      ensures State() == BulletStep(old(State()), dt)
      ensures x == old(x) && y == old(y) + Displacement(old(State()), dt)
      ensures old(marked) ==> marked
    {
      var timeScale := dt / 16.66;
      y := y + speed * direction * timeScale;
      if y < 0.0 || y > GameHeight {
        marked := true;
      }
    }
  }
}
