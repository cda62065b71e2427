/** Particle explosions (src/Explosion.js). */
module Explosions {
  import opened Globals
  import opened Seqs

  /** A particle, positioned relative to its explosion's centre. */
  datatype Particle = Particle(x: real, y: real, vx: real, vy: real, size: real, life: real, decay: real)

  datatype ExplosionState = ExplosionState(x: real, y: real, color: string,
                                           particles: seq<Particle>, marked: bool)

  const ParticleCount: nat := 20

  /** Math.random() draws one explosion consumes: four per particle. */
  const DrawsPerExplosion: nat := 80

  /** The particle built from draws k .. k+3, taken in the order the source object
      literal evaluates them: vx, vy, size, decay. */
  function NewParticle(rng: Random, k: nat): Particle {
    Particle(0.0, 0.0, (rng(k) - 0.5) * 10.0, (rng(k + 1) - 0.5) * 10.0,
             rng(k + 2) * 5.0 + 2.0, 1.0, rng(k + 3) * 0.05 + 0.02)
  }

  /** The Explosion constructor, drawing from the random stream at cursor k. */
  function NewExplosion(x: real, y: real, color: string, rng: Random, k: nat): ExplosionState {
    ExplosionState(x, y, color,
                   seq(ParticleCount, i requires 0 <= i < ParticleCount => NewParticle(rng, k + 4 * i)),
                   false)
  }

  function ParticleStep(p: Particle): Particle {
    p.(x := p.x + p.vx, y := p.y + p.vy, life := p.life - p.decay)
  }

  predicate Alive(p: Particle) {
    p.life > 0.0
  }

  /** Explosion.update: move and fade every particle, drop the dead ones, and mark the
      explosion once none is left. The frame time plays no part. */
  function ExplosionStep(e: ExplosionState): ExplosionState {
    var ps := Filter(MapSeq(e.particles, ParticleStep), Alive);
    e.(particles := ps, marked := e.marked || |ps| == 0)
  }

  predicate Unmarked(e: ExplosionState) {
    !e.marked
  }

  /** Every explosion updated in turn, then the marked ones dropped. */
  function AdvanceExplosions(es: seq<ExplosionState>): seq<ExplosionState> {
    Filter(MapSeq(es, ExplosionStep), Unmarked)
  }

  /** The explosion after n updates. */
  function ExplosionAfter(e: ExplosionState, n: nat): ExplosionState {
    if n == 0 then e else ExplosionStep(ExplosionAfter(e, n - 1))
  }

  /** Every particle has at most `bound` life left and fades by at least 0.02 per update. */
  predicate FadesBelow(e: ExplosionState, bound: real) {
    forall i :: 0 <= i < |e.particles| ==>
      e.particles[i].life <= bound && e.particles[i].decay >= 0.02
  }

  /** A new explosion holds 20 particles at its centre, each with life 1.0 and a decay in
      [0.02, 0.07), and is unmarked. */
  lemma NewExplosionShape(x: real, y: real, color: string, rng: Random, k: nat)
    ensures var e := NewExplosion(x, y, color, rng, k);
      && |e.particles| == 20 && !e.marked && e.x == x && e.y == y
      && forall i :: 0 <= i < 20 ==>
           var p := e.particles[i];
           p.x == 0.0 && p.y == 0.0 && p.life == 1.0 && 0.02 <= p.decay < 0.07
  {
  }

  /** An update moves each surviving particle by its velocity and lowers its life by its
      decay; every particle left has life above 0; the mark is set exactly when it was set
      or no particle is left, so it is never cleared. */
  lemma ExplosionStepEffect(e: ExplosionState)
    ensures var r := ExplosionStep(e);
      && r.x == e.x && r.y == e.y && r.color == e.color
      && (forall i :: 0 <= i < |r.particles| ==> r.particles[i].life > 0.0)
      && (forall q :: q in r.particles ==> exists p :: p in e.particles && q == ParticleStep(p))
      && (forall p :: p in e.particles && ParticleStep(p).life > 0.0 ==> ParticleStep(p) in r.particles)
      && (r.marked <==> e.marked || |r.particles| == 0)
      && |r.particles| <= |e.particles|
  {
    var stepped := MapSeq(e.particles, ParticleStep);
    forall q | q in ExplosionStep(e).particles
      ensures exists p :: p in e.particles && q == ParticleStep(p)
    {
      assert q in stepped;
      var i :| 0 <= i < |stepped| && stepped[i] == q;
      assert e.particles[i] in e.particles;
    }
    forall p | p in e.particles
      ensures ParticleStep(p) in stepped
    {
      var i :| 0 <= i < |e.particles| && e.particles[i] == p;
      assert stepped[i] == ParticleStep(p);
    }
  }

  /** One update lowers the life bound by 0.02. */
  lemma {:induction false} FadesOneStep(e: ExplosionState, bound: real)
    requires FadesBelow(e, bound)
    ensures FadesBelow(ExplosionStep(e), bound - 0.02)
  {
    var stepped := MapSeq(e.particles, ParticleStep);
    assert FadesBelow(e.(particles := stepped), bound - 0.02);
    var r := ExplosionStep(e);
    forall i | 0 <= i < |r.particles|
      ensures r.particles[i].life <= bound - 0.02 && r.particles[i].decay >= 0.02
    {
      assert r.particles[i] in stepped;
    }
  }

  /** After n updates of an explosion whose particles fade by at least 0.02 each update,
      no particle has more than 1 - 0.02 n life left. */
  lemma {:induction false} FadesAfter(e: ExplosionState, n: nat)
    requires FadesBelow(e, 1.0)
    ensures FadesBelow(ExplosionAfter(e, n), 1.0 - 0.02 * n as real)
  {
    if n > 0 {
      FadesAfter(e, n - 1);
      FadesOneStep(ExplosionAfter(e, n - 1), 1.0 - 0.02 * (n - 1) as real);
    }
  }

  /** Because every decay is at least 0.02, an explosion is marked after any n >= 50
      updates, so within 50 at most. */
  lemma {:induction false} ExplosionEndsWithin50(e: ExplosionState, n: nat)
    requires FadesBelow(e, 1.0) && n >= 50
    ensures ExplosionAfter(e, n).marked
  {
    var prev := ExplosionAfter(e, n - 1);
    FadesAfter(e, n - 1);
    FadesOneStep(prev, 1.0 - 0.02 * (n - 1) as real);
    var stepped := MapSeq(prev.particles, ParticleStep);
    assert FadesBelow(prev.(particles := stepped), 1.0 - 0.02 * n as real);
    FilterKeepsNone(stepped, Alive);
  }

  /** A new explosion meets the premise of ExplosionEndsWithin50. */
  lemma NewExplosionFades(x: real, y: real, color: string, rng: Random, k: nat)
    ensures FadesBelow(NewExplosion(x, y, color, rng, k), 1.0)
  {
    NewExplosionShape(x, y, color, rng, k);
  }

  /** src/Explosion.js as an object updated in place. */
  class Explosion {
    var x: real
    var y: real
    var color: string
    var particles: seq<Particle>
    var marked: bool

    function State(): ExplosionState
      reads this
    {
      ExplosionState(x, y, color, particles, marked)
    }

    constructor (x: real, y: real, color: string, rng: Random, k: nat)
      ensures State() == NewExplosion(x, y, color, rng, k)
    {
      var ps: seq<Particle> := [];
      var i := 0;
      while i < 20
        invariant 0 <= i <= 20
        invariant ps == seq(i, j requires 0 <= j < i => NewParticle(rng, k + 4 * j))
      {
        var d := k + 4 * i;
        ps := ps + [Particle(0.0, 0.0, (rng(d) - 0.5) * 10.0, (rng(d + 1) - 0.5) * 10.0,
                             rng(d + 2) * 5.0 + 2.0, 1.0, rng(d + 3) * 0.05 + 0.02)];
        i := i + 1;
      }
      this.x := x;
      this.y := y;
      this.color := color;
      this.particles := ps;
      this.marked := false;
    }

    method Update()
      modifies this
      ensures State() == ExplosionStep(old(State()))
    {
      var ps := particles;
      var i := 0;
      while i < |ps|
        invariant 0 <= i <= |ps| == |particles|
        invariant forall j :: 0 <= j < i ==> ps[j] == ParticleStep(particles[j])
        invariant forall j :: i <= j < |ps| ==> ps[j] == particles[j]
      {
        var p := ps[i];
        ps := ps[i := p.(x := p.x + p.vx, y := p.y + p.vy, life := p.life - p.decay)];
        i := i + 1;
      }
      assert ps == MapSeq(particles, ParticleStep);
      particles := Filter(ps, Alive);
      if |particles| == 0 {
        marked := true;
      }
    }
  }
}
