/** Shared constants and the inputs every simulation step receives from outside:
    frame time, the Math.random stream and the trigonometric functions. */
module Globals {

  // Values shared by src/globals.js, globals.js and alien_revenge/globals.js.
  const GameWidth: real := 1920.0
  const GameHeight: real := 1080.0
  const PlayerSpeed: real := 10.0
  const ShieldDuration: real := 6000.0
  const BulletSpeed: real := 17.25
  const MaxRounds: int := 5

  // src/globals.js and globals.js only.
  const ShieldCooldown: real := 20000.0
  const AlienBulletSpeed: real := 6.0
  const MothershipSpeed: real := 5.0
  const PlayerLives: int := 3

  // alien_revenge/globals.js only.
  const RevengeShieldCooldown: real := 10000.0
  const RevengeAlienBulletSpeed: real := 8.0

  /** Length of one nominal frame in milliseconds: every speed is "units per frame". */
  const FrameMs: real := 16.66

  /** The factor by which a step of `dt` milliseconds scales per-frame speeds. */
  function TimeScale(dt: real): real {
    dt / FrameMs
  }

  /** A result of Math.random(). */
  type Unit = r: real | 0.0 <= r < 1.0

  /** The successive results of Math.random(), the n-th draw at index n. */
  type Random = nat -> Unit

  /** Math.sin, Math.cos and Math.sqrt, supplied from outside the model. */
  datatype Trig = Trig(sin: real -> real, cos: real -> real, sqrt: real -> real)

  function Sin(t: Trig, v: real): real {
    t.sin(v)
  }

  function Cos(t: Trig, v: real): real {
    t.cos(v)
  }

  function Sqrt(t: Trig, v: real): real {
    t.sqrt(v)
  }

  /** The square of a distance, the argument every distance test takes the root of. */
  function Dist2(dx: real, dy: real): (r: real)
    ensures r >= 0.0
  {
    dx * dx + dy * dy
  }

  /** Math.sqrt as the exact square root. */
  ghost predicate ExactRoot(t: Trig) {
    forall v: real {:trigger t.sqrt(v)} :: v >= 0.0 ==> t.sqrt(v) >= 0.0 && t.sqrt(v) * t.sqrt(v) == v
  }

  /** With an exact root, "the distance is below c" is "the squared distance is below
      c * c", for every positive c. */
  lemma RootBelow(t: Trig, v: real, c: real)
    requires ExactRoot(t) && v >= 0.0 && c > 0.0
    ensures Sqrt(t, v) < c <==> v < c * c
  {
    var r := t.sqrt(v);
    assert r >= 0.0 && r * r == v;
    if r < c {
      SquareLess(r, c);
    } else if c < r {
      SquareLess(c, r);
    }
  }

  lemma SquareLess(a: real, b: real)
    requires 0.0 <= a < b
    ensures a * a < b * b
  {
    var d := b - a;
    assert d * d > 0.0;
    assert a * d >= 0.0;
    assert b * b == a * a + 2.0 * (a * d) + d * d;
  }

  datatype Option<T> = None | Some(value: T)

  function Max(a: int, b: int): int {
    if a >= b then a else b
  }
}
