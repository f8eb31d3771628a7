/** The particle canvas: each frame that is not throttled moves and ages
    every particle, drops those that reached their life span, and may spawn
    one new particle while fewer than thirty remain. Random draws and the
    frame time are parameters; drawing is reduced to the opacity factor. */
module ParticleField {
  import opened Random

  datatype Particle = Particle(x: real, y: real, vx: real, vy: real, life: int, maxLife: real)

  /** At most this many particles are kept after a spawn. */
  const Cap := 30

  /** The minimum interval between updates, in seconds (40 per second). */
  const Step: real := 1.0 / 40.0

  /** The chance of a spawn on one update. */
  const SpawnChance: real := 0.2

  /** The six `Math.random()` values one update may consume, in call order:
      the spawn test, then the position, the two velocities and the life span
      of the new particle. */
  datatype Draws = Draws(spawn: real, x: real, y: real, vx: real, vy: real, span: real)

  predicate ValidDraws(d: Draws)
  {
    Unit(d.spawn) && Unit(d.x) && Unit(d.y) && Unit(d.vx) && Unit(d.vy) && Unit(d.span)
  }

  /** A random coordinate across a canvas side: `Math.random() * size`. */
  function Scale(r: real, size: int): real
  {
    r * size as real
  }

  /** `create(x, y)`. */
  function Create(x: real, y: real, rvx: real, rvy: real, rspan: real): (p: Particle)
    requires Unit(rvx) && Unit(rvy) && Unit(rspan)
    ensures p.x == x && p.y == y && p.life == 0
    ensures 80.0 <= p.maxLife < 160.0
    ensures -0.7 <= p.vx < 0.7 && -0.7 <= p.vy < 0.7
  {
    Particle(x, y, (rvx - 0.5) * 1.4, (rvy - 0.5) * 1.4, 0, rspan * 80.0 + 80.0)
  }

  /** The body of the filter callback before its test: move by the velocity
      and age by one. */
  function Advance(p: Particle): Particle
  {
    p.(x := p.x + p.vx, y := p.y + p.vy, life := p.life + 1)
  }

  predicate Alive(p: Particle)
  {
    p.life as real < p.maxLife
  }

  /** The filter: the advanced particles whose life is still below their
      span, in their original order. */
  function Survivors(ps: seq<Particle>): seq<Particle>
  {
    if ps == [] then []
    else
      var q := Advance(ps[|ps| - 1]);
      Survivors(ps[..|ps| - 1]) + (if Alive(q) then [q] else [])
  }

  /** The filter works piece by piece: survivors of a concatenation are the
      survivors of each part, in order, and a single particle survives,
      advanced, exactly when its new life is below its span. */
  lemma {:induction false} SurvivorsSplit(a: seq<Particle>, b: seq<Particle>)
    ensures Survivors(a + b) == Survivors(a) + Survivors(b)
    decreases |b|
  {
    if b == [] {
      assert a + b == a;
    } else {
      var init := b[..|b| - 1];
      assert (a + b)[..|a + b| - 1] == a + init;
      assert (a + b)[|a + b| - 1] == b[|b| - 1];
      SurvivorsSplit(a, init);
    }
  }

  lemma SurvivorsOne(p: Particle)
    ensures Survivors([p]) == if Alive(Advance(p)) then [Advance(p)] else []
  {
    assert [p][..0] == [];
  }

  /** Every survivor is some particle moved by its velocity with life grown
      by one, and every particle whose new life is below its span survives. */
  lemma {:induction false} SurvivorsMembers(ps: seq<Particle>)
    ensures |Survivors(ps)| <= |ps|
    ensures forall q :: q in Survivors(ps) ==> Alive(q) && exists p :: p in ps && q == Advance(p)
    ensures forall p :: p in ps && Alive(Advance(p)) ==> Advance(p) in Survivors(ps)
  {
    if ps != [] {
      var init := ps[..|ps| - 1];
      SurvivorsMembers(init);
      assert ps == init + [ps[|ps| - 1]];
      forall q | q in Survivors(ps) ensures Alive(q) && exists p :: p in ps && q == Advance(p) {
        if q in Survivors(init) {
          var p :| p in init && q == Advance(p);
          assert p in ps;
        } else {
          assert ps[|ps| - 1] in ps;
        }
      }
      forall p | p in ps && Alive(Advance(p)) ensures Advance(p) in Survivors(ps) {
        if p in init {
        } else {
          assert p == ps[|ps| - 1];
        }
      }
    }
  }

  /** A particle on the canvas: its life lies in `[0, maxLife)`. */
  predicate Live(p: Particle)
  {
    0 <= p.life && p.life as real < p.maxLife
  }

  predicate AllLive(ps: seq<Particle>)
  {
    forall k :: 0 <= k < |ps| ==> Live(ps[k])
  }

  /** The alpha factor of a particle, `1 - life / maxLife`, lies in `(0, 1]`. */
  function Opacity(p: Particle): (a: real)
    requires Live(p)
    ensures 0.0 < a <= 1.0
  {
    OpacityBounds(p.life as real, p.maxLife);
    1.0 - p.life as real / p.maxLife
  }

  lemma OpacityBounds(life: real, span: real)
    requires 0.0 <= life < span
    ensures 0.0 <= life / span < 1.0
  {
    assert life / span * span == life;
  }

  datatype FieldState = FieldState(particles: seq<Particle>, last: real)

  /** Whether enough time has passed since the last update: the elapsed
      milliseconds, in seconds, are at least one step. */
  predicate Due(last: real, t: real)
  {
    (t - last) / 1000.0 >= Step
  }

  /** The update half of `tick` at time `t` on a `width` by `height` canvas. */
  function Tick(s: FieldState, t: real, d: Draws, width: int, height: int): FieldState
    requires ValidDraws(d)
  {
    if !Due(s.last, t) then s
    else
      var kept := Survivors(s.particles);
      if |kept| < Cap && d.spawn < SpawnChance then
        FieldState(kept + [Create(Scale(d.x, width), Scale(d.y, height), d.vx, d.vy, d.span)], t)
      else FieldState(kept, t)
  }

  /** Under one step since the last update, nothing changes. */
  lemma ThrottledTickIsIdle(s: FieldState, t: real, d: Draws, width: int, height: int)
    requires ValidDraws(d) && (t - s.last) / 1000.0 < 1.0 / 40.0
    ensures Tick(s, t, d, width, height) == s
  {
  }

  /** An update adds at most one particle, and only when fewer than thirty
      survived and the spawn draw is below 0.2; so a population of at most
      thirty stays at most thirty, and every particle stays live. */
  lemma TickBounds(s: FieldState, t: real, d: Draws, width: int, height: int)
    requires ValidDraws(d) && Due(s.last, t)
    ensures var r := Tick(s, t, d, width, height);
            Survivors(s.particles) <= r.particles
            && |r.particles| <= |Survivors(s.particles)| + 1
            && (|r.particles| > |Survivors(s.particles)| <==> |Survivors(s.particles)| < Cap && d.spawn < SpawnChance)
            && r.last == t
    ensures |s.particles| <= Cap ==> |Tick(s, t, d, width, height).particles| <= Cap
  {
    SurvivorsMembers(s.particles);
  }

  lemma {:induction false} SurvivorsLive(ps: seq<Particle>)
    requires AllLive(ps)
    ensures AllLive(Survivors(ps))
  {
    if ps != [] {
      SurvivorsLive(ps[..|ps| - 1]);
    }
  }

  lemma TickKeepsLive(s: FieldState, t: real, d: Draws, width: int, height: int)
    requires ValidDraws(d) && AllLive(s.particles)
    ensures AllLive(Tick(s, t, d, width, height).particles)
  {
    SurvivorsLive(s.particles);
  }

  /** The component: the particle list behind the ref, the time of the last
      update, and the canvas size. */
  class Field {
    var particles: seq<Particle>
    var last: real
    var width: int
    var height: int

    function State(): FieldState
      reads this
    {
      FieldState(particles, last)
    }

    /** Every particle is live and at most thirty are kept. */
    predicate Valid()
      reads this
    {
      AllLive(particles) && |particles| <= Cap
    }

    constructor (width: int, height: int)
      ensures State() == FieldState([], 0.0) && this.width == width && this.height == height
      ensures Valid()
    {
      particles, last := [], 0.0;
      this.width, this.height := width, height;
    }

    /** `resize`: only the canvas size changes. */
    method Resize(w: int, h: int)
      modifies this
      ensures width == w && height == h && State() == old(State())
    {
      width, height := w, h;
    }

    /** The update half of `tick`. */
    method Update(t: real, d: Draws)
      requires ValidDraws(d) && Valid()
      modifies this
      ensures State() == Tick(old(State()), t, d, width, height)
      ensures width == old(width) && height == old(height)
      ensures Valid()
    {
      ghost var s0 := State();
      TickKeepsLive(s0, t, d, width, height);
      if (t - last) / 1000.0 < Step {
        return;
      }
      TickBounds(s0, t, d, width, height);
      last := t;
      var kept := [];
      var i := 0;
      while i < |particles|
        invariant 0 <= i <= |particles|
        invariant kept == Survivors(particles[..i])
      {
        var p := Advance(particles[i]);
        if p.life as real < p.maxLife {
          kept := kept + [p];
        }
        assert particles[..i + 1][..i] == particles[..i];
        i := i + 1;
      }
      assert particles[..i] == particles;
      assert kept == Survivors(s0.particles);
      particles := kept;
      if |particles| < Cap && d.spawn < SpawnChance {
        particles := particles + [Create(Scale(d.x, width), Scale(d.y, height), d.vx, d.vy, d.span)];
      }
    }
  }
}
