/**
 * The debris thrown up by destruction events (`DestructionParticles` in
 * App.tsx): a burst of wood chips for a tree and of bricks for the house,
 * spawned for the newest event, then moved, slowed by gravity, aged and
 * culled every frame. The random values each particle draws are parameters.
 */
module Particles {
  import opened Numerics
  import opened Types

  const ParticleGravity: real := 35.0
  const AgeRate: real := 0.7
  const FloorY: real := -10.0
  const BrickCount: nat := 40
  const WoodCount: nat := 12

  datatype Material = Wood | Brick

  datatype Particle = Particle(pos: Vec3, vel: Vec3, rot: Vec3, rotVel: Vec3, life: real, material: Material)

  /** The nine `Math.random()` values one particle draws, in [0, 1). */
  datatype ParticleDraw = ParticleDraw(lift: real, vx: real, vy: real, vz: real, rx: real, ry: real, sx: real, sy: real, sz: real)

  predicate DrawInRange(d: ParticleDraw) {
    && 0.0 <= d.lift < 1.0 && 0.0 <= d.vx < 1.0 && 0.0 <= d.vy < 1.0 && 0.0 <= d.vz < 1.0
    && 0.0 <= d.rx < 1.0 && 0.0 <= d.ry < 1.0 && 0.0 <= d.sx < 1.0 && 0.0 <= d.sy < 1.0 && 0.0 <= d.sz < 1.0
  }

  function MaterialFor(kind: EventKind): Material {
    if kind == HouseFell then Brick else Wood
  }

  function SpawnCount(kind: EventKind): nat {
    if kind == HouseFell then BrickCount else WoodCount
  }

  /** One new particle: up to 5 above the event, thrown upwards at 15 to 35 and sideways, with full life. */
  function NewParticle(e: Event, d: ParticleDraw): Particle {
    var spread := if e.kind == HouseFell then 30.0 else 20.0;
    Particle(
      e.pos.Add(Vec3(0.0, d.lift * 5.0, 0.0)),
      Vec3((d.vx - 0.5) * spread, 15.0 + d.vy * 20.0, (d.vz - 0.5) * spread),
      Vec3(d.rx * Pi, d.ry * Pi, 0.0),
      Vec3(d.sx * 5.0, d.sy * 5.0, d.sz * 5.0),
      1.0,
      MaterialFor(e.kind))
  }

  /** The burst for event `e`, one particle per draw. */
  function Burst(e: Event, draws: seq<ParticleDraw>): seq<Particle> {
    seq(|draws|, i requires 0 <= i < |draws| => NewParticle(e, draws[i]))
  }

  /**
   * A burst has full life, flies upwards at 15 or more, starts up to 5 above
   * the event, and is bricks for the house and wood for a tree.
   */
  lemma BurstShape(e: Event, draws: seq<ParticleDraw>)
    requires forall i :: 0 <= i < |draws| ==> DrawInRange(draws[i])
    ensures forall p :: p in Burst(e, draws) ==>
      && p.life == 1.0
      && 15.0 <= p.vel.y < 35.0
      && p.pos.x == e.pos.x && p.pos.z == e.pos.z
      && e.pos.y <= p.pos.y < e.pos.y + 5.0
      && p.material == (if e.kind == HouseFell then Brick else Wood)
  {
    forall p | p in Burst(e, draws)
      ensures 15.0 <= p.vel.y < 35.0 && e.pos.y <= p.pos.y < e.pos.y + 5.0
    {
      var i :| 0 <= i < |draws| && Burst(e, draws)[i] == p;
      var d := draws[i];
      ScaleBelow(20.0, d.vy);
      ScaleBelow(5.0, d.lift);
      assert d.vy * 20.0 == 20.0 * d.vy && d.lift * 5.0 == 5.0 * d.lift;
    }
  }

  /** One frame of motion: move by the velocity, fall, age, spin. */
  function Aged(p: Particle, delta: real): Particle {
    p.(pos := p.pos.Add(p.vel.Scale(delta)),
       vel := p.vel.(y := p.vel.y - ParticleGravity * delta),
       life := p.life - delta * AgeRate,
       rot := p.rot.Add(p.rotVel.Scale(delta)))
  }

  /** A particle is kept while it has life left and is above the floor. */
  predicate Alive(p: Particle) {
    p.life > 0.0 && p.pos.y > FloorY
  }

  /** `Array.prototype.filter` with `Alive`. */
  function Survivors(ps: seq<Particle>): seq<Particle> {
    if ps == [] then []
    else Survivors(ps[..|ps| - 1]) + (if Alive(ps[|ps| - 1]) then [ps[|ps| - 1]] else [])
  }

  /** The list after one frame. */
  function StepAll(ps: seq<Particle>, delta: real): seq<Particle> {
    Survivors(seq(|ps|, i requires 0 <= i < |ps| => Aged(ps[i], delta)))
  }

  /**
   * The filter keeps exactly the live particles, never adds any, and keeps
   * everything when everything is alive.
   */
  lemma {:induction false} SurvivorsExact(ps: seq<Particle>)
    ensures forall p :: p in Survivors(ps) <==> p in ps && Alive(p)
    ensures |Survivors(ps)| <= |ps|
    ensures (forall i :: 0 <= i < |ps| ==> Alive(ps[i])) ==> Survivors(ps) == ps
  {
    if ps != [] {
      var n := |ps| - 1;
      SurvivorsExact(ps[..n]);
      assert ps == ps[..n] + [ps[n]];
      forall p
        ensures p in ps <==> p in ps[..n] || p == ps[n]
      {
      }
    }
  }

  /** Each live particle survives as often as it occurs; a dead one not at all. */
  lemma {:induction false} SurvivorsCount(ps: seq<Particle>)
    ensures forall p :: multiset(Survivors(ps))[p] == if Alive(p) then multiset(ps)[p] else 0
  {
    if ps != [] {
      var n := |ps| - 1;
      SurvivorsCount(ps[..n]);
      assert ps == ps[..n] + [ps[n]];
      assert multiset(ps) == multiset(ps[..n]) + multiset{ps[n]};
      assert multiset(Survivors(ps)) == multiset(Survivors(ps[..n])) + multiset(if Alive(ps[n]) then [ps[n]] else []);
    }
  }

  /** The filter keeps order: filtering a concatenation concatenates the filtered parts. */
  lemma {:induction false} SurvivorsAppend(a: seq<Particle>, b: seq<Particle>)
    ensures Survivors(a + b) == Survivors(a) + Survivors(b)
  {
    if b == [] {
      assert a + b == a;
    } else {
      var n := |b| - 1;
      SurvivorsAppend(a, b[..n]);
      assert (a + b)[..|a + b| - 1] == a + b[..n];
    }
  }

  /** `n` frames at a fixed `delta`. */
  function Steps(ps: seq<Particle>, delta: real, n: nat): seq<Particle> {
    if n == 0 then ps else StepAll(Steps(ps, delta, n - 1), delta)
  }

  /** One frame takes `0.7 * delta` from every particle's life. */
  lemma StepLives(ps: seq<Particle>, delta: real, top: real)
    requires forall p :: p in ps ==> p.life <= top
    ensures forall p :: p in StepAll(ps, delta) ==> Alive(p) && p.life <= top - delta * AgeRate
  {
    var aged := seq(|ps|, i requires 0 <= i < |ps| => Aged(ps[i], delta));
    SurvivorsExact(aged);
    forall p | p in StepAll(ps, delta)
      ensures p.life <= top - delta * AgeRate
    {
      var i :| 0 <= i < |aged| && aged[i] == p;
      assert ps[i] in ps;
    }
  }

  /** After `n` frames every particle has lost `n * 0.7 * delta` of life. */
  lemma {:induction false} LivesFall(ps: seq<Particle>, delta: real, n: nat, top: real)
    requires forall p :: p in ps ==> p.life <= top
    ensures forall p :: p in Steps(ps, delta, n) ==> p.life <= top - (n as real) * AgeRate * delta
    ensures n > 0 ==> forall p :: p in Steps(ps, delta, n) ==> Alive(p)
  {
    if n > 0 {
      LivesFall(ps, delta, n - 1, top);
      var k := (n - 1) as real;
      var bound := top - k * AgeRate * delta;
      StepLives(Steps(ps, delta, n - 1), delta, bound);
      Distribute(k, delta);
      assert n as real == k + 1.0;
      assert bound - delta * AgeRate == top - (n as real) * AgeRate * delta;
    }
  }

  lemma Distribute(k: real, d: real)
    ensures (k + 1.0) * AgeRate * d == k * AgeRate * d + d * AgeRate
  {
  }

  /** With a fixed positive `delta`, every particle of a burst is gone once `n * 0.7 * delta` reaches 1. */
  lemma BurstExpires(ps: seq<Particle>, delta: real, n: nat)
    requires delta > 0.0 && n > 0 && (n as real) * AgeRate * delta >= 1.0
    requires forall p :: p in ps ==> p.life <= 1.0
    ensures Steps(ps, delta, n) == []
  {
    LivesFall(ps, delta, n, 1.0);
    FirstIsMember(Steps(ps, delta, n));
  }

  lemma FirstIsMember(r: seq<Particle>)
    ensures r != [] ==> r[0] in r
  {
  }

  class DestructionParticles {
    var wood: seq<Particle>
    var brick: seq<Particle>

    constructor()
      ensures wood == [] && brick == []
    {
      wood := [];
      brick := [];
    }

    /**
     * The effect run when the event list changes: a burst for the newest
     * event only, appended to the bricks for the house and to the wood for a
     * tree; earlier events spawn nothing more.
     */
    method Spawn(events: seq<Event>, draws: seq<ParticleDraw>)
      requires events != [] ==> |draws| == SpawnCount(events[|events| - 1].kind)
      modifies this
      ensures events == [] ==> wood == old(wood) && brick == old(brick)
      ensures events != [] && events[|events| - 1].kind == HouseFell ==>
        brick == old(brick) + Burst(events[|events| - 1], draws) && wood == old(wood)
      ensures events != [] && events[|events| - 1].kind == TreeFell ==>
        wood == old(wood) + Burst(events[|events| - 1], draws) && brick == old(brick)
    {
      if |events| > 0 {
        var last := events[|events| - 1];
        var isHouse := last.kind == HouseFell;
        var count := if isHouse then BrickCount else WoodCount;
        var added: seq<Particle> := [];
        for i := 0 to count
          invariant added == Burst(last, draws[..i])
        {
          added := added + [NewParticle(last, draws[i])];
        }
        assert draws[..count] == draws;
        if isHouse {
          brick := brick + added;
        } else {
          wood := wood + added;
        }
      }
    }

    /** One frame for one list: update every particle in place, then drop the dead ones. */
    static method Process(ps: seq<Particle>, delta: real) returns (kept: seq<Particle>)
      ensures kept == StepAll(ps, delta)
    {
      var arr := ps;
      for i := 0 to |arr|
        invariant |arr| == |ps|
        invariant forall j :: 0 <= j < i ==> arr[j] == Aged(ps[j], delta)
        invariant forall j :: i <= j < |arr| ==> arr[j] == ps[j]
      {
        var p := arr[i];
        p := p.(pos := p.pos.Add(p.vel.Scale(delta)));
        p := p.(vel := p.vel.(y := p.vel.y - ParticleGravity * delta));
        p := p.(life := p.life - delta * AgeRate);
        p := p.(rot := p.rot.Add(p.rotVel.Scale(delta)));
        arr := arr[i := p];
      }
      assert arr == seq(|ps|, i requires 0 <= i < |ps| => Aged(ps[i], delta));
      kept := [];
      for i := 0 to |arr|
        invariant kept == Survivors(arr[..i])
      {
        assert arr[..i + 1][..i] == arr[..i];
        if Alive(arr[i]) {
          kept := kept + [arr[i]];
        }
      }
      assert arr[..|arr|] == arr;
    }

    /** The frame callback: both lists advance one frame. */
    method Frame(delta: real)
      modifies this
      ensures wood == StepAll(old(wood), delta) && brick == StepAll(old(brick), delta)
    {
      wood := Process(wood, delta);
      brick := Process(brick, delta);
    }
  }
}
