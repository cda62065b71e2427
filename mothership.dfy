/** The bonus mothership: the frame-scaled one of Mothership.js (used by src/game.js)
    and the per-call one of alien_revenge/Mothership.js. */
module Motherships {
  import opened Globals

  datatype MothershipState = MothershipState(x: real, y: real, width: real, height: real,
                                             speed: real, marked: bool)

  const MothershipWidth: real := 128.0
  const MothershipHeight: real := 64.0

  /** Mothership.js: enters at the right edge, 38 px from the top; faster each round. */
  function NewMothership(round: int): MothershipState {
    MothershipState(GameWidth, 38.0, MothershipWidth, MothershipHeight,
                    MothershipSpeed + round as real, false)
  }

  /** alien_revenge/Mothership.js: 60 px from the top; 10% faster per round after the
      first. That variant's globals define no base speed, so it is a parameter. */
  function NewRevengeMothership(round: int, baseSpeed: real): MothershipState {
    MothershipState(GameWidth, 60.0, MothershipWidth, MothershipHeight,
                    baseSpeed * (1.0 + (round - 1) as real * 0.1), false)
  }

  predicate PastLeftEdge(m: MothershipState) {
    m.x + m.width < 0.0
  }

  /** Mothership.update: move left by speed * timeScale, then mark once past the left edge. */
  function MothershipStep(m: MothershipState, dt: real): MothershipState {
    var moved := m.(x := m.x - m.speed * TimeScale(dt));
    moved.(marked := m.marked || PastLeftEdge(moved))
  }

  /** alien_revenge Mothership.update: move left by speed per call, whatever dt is. */
  function RevengeMothershipStep(m: MothershipState, dt: real): MothershipState {
    var moved := m.(x := m.x - m.speed);
    moved.(marked := m.marked || PastLeftEdge(moved))
  }

  /** A new mothership starts 128x64 at the right edge, unmarked, at speed 5 + round. */
  lemma NewMothershipShape(round: int)
    ensures var m := NewMothership(round);
      && m.x == GameWidth && m.y == 38.0 && m.width == 128.0 && m.height == 64.0
      && !m.marked && m.speed == 5.0 + round as real
      && (round >= 1 ==> m.speed > 0.0)
  {
  }

  /** An update moves only x, leftwards by speed * dt / 16.66, and never clears the mark. */
  lemma MothershipStepEffect(m: MothershipState, dt: real)
    ensures var r := MothershipStep(m, dt);
      && r.y == m.y && r.width == m.width && r.height == m.height && r.speed == m.speed
      && r.x == m.x - m.speed * dt / FrameMs
      && (r.marked <==> m.marked || r.x + r.width < 0.0)
  {
  }

  /** Displacement is proportional to dt: c times the frame time moves c times as far. */
  lemma MothershipDisplacementScales(m: MothershipState, dt: real, c: real)
    ensures m.x - MothershipStep(m, c * dt).x == c * (m.x - MothershipStep(m, dt).x)
  {
    assert TimeScale(c * dt) == c * TimeScale(dt);
    assert m.speed * (c * TimeScale(dt)) == c * (m.speed * TimeScale(dt));
  }

  /** Frame-rate independence: two updates equal one update of the summed frame time. */
  lemma {:induction false} MothershipTwoFrames(m: MothershipState, dt1: real, dt2: real)
    requires m.speed >= 0.0 && dt1 >= 0.0 && dt2 >= 0.0
    ensures MothershipStep(MothershipStep(m, dt1), dt2) == MothershipStep(m, dt1 + dt2)
  {
    assert TimeScale(dt1) + TimeScale(dt2) == TimeScale(dt1 + dt2);
    assert m.speed * TimeScale(dt1) + m.speed * TimeScale(dt2) == m.speed * TimeScale(dt1 + dt2);
    assert m.speed * TimeScale(dt2) >= 0.0;
  }

  /** A new alien_revenge mothership is 128x64 at (GameWidth, 60), unmarked, and moves at
      the base speed in round 1 and 10% of it faster each later round. */
  lemma NewRevengeMothershipShape(round: int, baseSpeed: real)
    ensures var m := NewRevengeMothership(round, baseSpeed);
      && m.x == GameWidth && m.y == 60.0 && m.width == 128.0 && m.height == 64.0 && !m.marked
      && m.speed == baseSpeed + baseSpeed * 0.1 * (round - 1) as real
      && (round == 1 ==> m.speed == baseSpeed)
  {
  }

  /** The alien_revenge update ignores the frame time: x drops by exactly speed per call. */
  lemma RevengeMothershipIgnoresTime(m: MothershipState, dt1: real, dt2: real)
    ensures RevengeMothershipStep(m, dt1) == RevengeMothershipStep(m, dt2)
    ensures RevengeMothershipStep(m, dt1).x == m.x - m.speed
    ensures RevengeMothershipStep(m, dt1).y == m.y
    ensures m.marked ==> RevengeMothershipStep(m, dt1).marked
  {
  }

  /** Mothership.js as an object updated in place. */
  class Mothership {
    var width: real
    var height: real
    var x: real
    var y: real
    var marked: bool
    var speed: real

    function State(): MothershipState
      reads this
    {
      MothershipState(x, y, width, height, speed, marked)
    }

    constructor (round: int)
      ensures State() == NewMothership(round)
    {
      width := 128.0;
      height := 64.0;
      x := GameWidth;
      y := 38.0;
      marked := false;
      speed := MothershipSpeed + round as real;
    }

    method Update(dt: real)
      modifies this
      ensures State() == MothershipStep(old(State()), dt)
    {
      var timeScale := dt / 16.66;
      x := x - speed * timeScale;
      if x + width < 0.0 {
        marked := true;
      }
    }
  }

  /** alien_revenge/Mothership.js as an object updated in place. */
  class RevengeMothership {
    var width: real
    var height: real
    var x: real
    var y: real
    var marked: bool
    var speed: real

    function State(): MothershipState
      reads this
    {
      MothershipState(x, y, width, height, speed, marked)
    }

    constructor (round: int, baseSpeed: real)
      ensures State() == NewRevengeMothership(round, baseSpeed)
    {
      width := 128.0;
      height := 64.0;
      x := GameWidth;
      y := 60.0;
      marked := false;
      speed := baseSpeed * (1.0 + (round - 1) as real * 0.1);
    }

    method Update(dt: real)
      modifies this
      ensures State() == RevengeMothershipStep(old(State()), dt)
    {
      x := x - speed;
      if x + width < 0.0 {
        marked := true;
      }
    }
  }
}
