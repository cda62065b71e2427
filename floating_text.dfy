/** A rising, fading score text (FloatingText.js). */
module FloatingTexts {
  import opened Globals

  datatype FloatingTextState = FloatingTextState(x: real, y: real, text: string, life: real,
                                                 decay: real, speedY: real, marked: bool)

  function NewFloatingText(x: real, y: real, text: string): FloatingTextState {
    FloatingTextState(x, y, text, 1.5, 0.015, 1.5, false)
  }

  /** FloatingText.update: rise and fade in proportion to the frame time, then mark once
      the life is used up. */
  function FloatingTextStep(t: FloatingTextState, dt: real): FloatingTextState {
    var ts := TimeScale(dt);
    var moved := t.(y := t.y - t.speedY * ts, life := t.life - t.decay * ts);
    moved.(marked := t.marked || moved.life <= 0.0)
  }

  /** A new text starts with life 1.5, decay 0.015, rising speed 1.5, unmarked. */
  lemma NewFloatingTextShape(x: real, y: real, text: string)
    ensures var t := NewFloatingText(x, y, text);
      t.x == x && t.y == y && t.text == text && t.life == 1.5 && t.decay == 0.015
      && t.speedY == 1.5 && !t.marked
  {
  }

  /** An update leaves x and the text alone; y drops by 1.5 * timeScale and life by
      0.015 * timeScale for a text made by the constructor; the mark is set exactly when
      it was set or life reached 0. */
  lemma FloatingTextStepEffect(t: FloatingTextState, dt: real)
    requires t.speedY == 1.5 && t.decay == 0.015
    ensures var r := FloatingTextStep(t, dt);
      && r.x == t.x && r.text == t.text
      && r.y == t.y - 1.5 * TimeScale(dt) && r.life == t.life - 0.015 * TimeScale(dt)
      && (r.marked <==> t.marked || r.life <= 0.0)
  {
  }

  /** Both changes are proportional to dt: c times the frame time moves and fades c times
      as much. */
  lemma FloatingTextScales(t: FloatingTextState, dt: real, c: real)
    ensures t.y - FloatingTextStep(t, c * dt).y == c * (t.y - FloatingTextStep(t, dt).y)
    ensures t.life - FloatingTextStep(t, c * dt).life == c * (t.life - FloatingTextStep(t, dt).life)
  {
    assert TimeScale(c * dt) == c * TimeScale(dt);
    assert t.speedY * (c * TimeScale(dt)) == c * (t.speedY * TimeScale(dt));
    assert t.decay * (c * TimeScale(dt)) == c * (t.decay * TimeScale(dt));
  }

  /** Frame-rate independence: two updates equal one update of the summed frame time. */
  lemma {:induction false} FloatingTextTwoFrames(t: FloatingTextState, dt1: real, dt2: real)
    requires t.decay >= 0.0 && dt1 >= 0.0 && dt2 >= 0.0
    ensures FloatingTextStep(FloatingTextStep(t, dt1), dt2) == FloatingTextStep(t, dt1 + dt2)
  {
    assert TimeScale(dt1) + TimeScale(dt2) == TimeScale(dt1 + dt2);
    assert t.speedY * TimeScale(dt1) + t.speedY * TimeScale(dt2) == t.speedY * TimeScale(dt1 + dt2);
    assert t.decay * TimeScale(dt1) + t.decay * TimeScale(dt2) == t.decay * TimeScale(dt1 + dt2);
    assert TimeScale(dt2) >= 0.0;
    assert t.decay * TimeScale(dt2) >= 0.0;
    var once, twice, whole := FloatingTextStep(t, dt1), FloatingTextStep(FloatingTextStep(t, dt1), dt2),
                              FloatingTextStep(t, dt1 + dt2);
    assert twice.y == whole.y && twice.life == whole.life;
    assert twice.life <= once.life;
    assert twice.marked == whole.marked;
  }

  /** FloatingText.js as an object updated in place. */
  class FloatingText {
    var x: real
    var y: real
    var text: string
    var life: real
    var decay: real
    var speedY: real
    var marked: bool

    function State(): FloatingTextState
      reads this
    {
      FloatingTextState(x, y, text, life, decay, speedY, marked)
    }

    constructor (x: real, y: real, text: string)
      ensures State() == NewFloatingText(x, y, text)
    {
      this.x := x;
      this.y := y;
      this.text := text;
      this.life := 1.5;
      this.decay := 0.015;
      this.speedY := 1.5;
      this.marked := false;
    }

    method Update(dt: real)
      modifies this
      ensures State() == FloatingTextStep(old(State()), dt)
      ensures old(marked) ==> marked
    {
      var timeScale := dt / 16.66;
      y := y - speedY * timeScale;
      life := life - decay * timeScale;
      if life <= 0.0 {
        marked := true;
      }
    }
  }
}
