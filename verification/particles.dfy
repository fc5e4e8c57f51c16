/**
 * ParticleSystem.js: a growable list of short-lived particles. `CreateExplosion` appends a
 * burst, `Update` advances every particle and removes the expired ones in place, walking
 * the list backwards so that each removal leaves the unvisited prefix where it was.
 */
module Particles {
  import opened RandomDraws

  /** Life lost per tick. */
  const LifeDecay: real := 0.05
  /** Width of the band each random velocity component is drawn from. */
  const BurstSpread: real := 50.0

  datatype Particle = Particle(
    x: real, y: real, z: real, vx: real, vy: real, vz: real, life: real, color: string)

  /** The three random values drawn for one particle's velocity, each in [0, 1). */
  datatype VelocityDraw = VelocityDraw(vx: real, vy: real, vz: real)

  function Burst(x: real, y: real, z: real, color: string, d: VelocityDraw): Particle
  {
    Particle(x, y, z, (d.vx - 0.5) * BurstSpread, (d.vy - 0.5) * BurstSpread,
             (d.vz - 0.5) * BurstSpread, 1.0, color)
  }

  /** The particles a burst of `draws` adds, in order. */
  function Bursts(x: real, y: real, z: real, color: string, draws: seq<VelocityDraw>): (ps: seq<Particle>)
    ensures |ps| == |draws|
    ensures forall i :: 0 <= i < |draws| ==>
      ps[i].x == x && ps[i].y == y && ps[i].z == z && ps[i].life == 1.0 && ps[i].color == color
    ensures forall i :: (0 <= i < |draws| && InUnit(draws[i].vx) && InUnit(draws[i].vy)
                         && InUnit(draws[i].vz)) ==>
        -BurstSpread / 2.0 <= ps[i].vx < BurstSpread / 2.0
        && -BurstSpread / 2.0 <= ps[i].vy < BurstSpread / 2.0
        && -BurstSpread / 2.0 <= ps[i].vz < BurstSpread / 2.0
  {
    seq(|draws|, i requires 0 <= i < |draws| => Burst(x, y, z, color, draws[i]))
  }

  /** One tick of one particle: move by its own velocity, lose some life. */
  function Advance(p: Particle): Particle
  {
    p.(x := p.x + p.vx, y := p.y + p.vy, z := p.z + p.vz, life := p.life - LifeDecay)
  }

  predicate Survives(p: Particle)
  {
    Advance(p).life > 0.0
  }

  /** The list after one update: every particle advanced once, the expired ones dropped. */
  function Survivors(ps: seq<Particle>): seq<Particle>
  {
    if ps == [] then []
    else (if Survives(ps[0]) then [Advance(ps[0])] else []) + Survivors(ps[1..])
  }

  /** The positions (offset by `base`) of the particles that survive, in increasing order. */
  function Kept(ps: seq<Particle>, base: nat): seq<nat>
  {
    if ps == [] then []
    else (if Survives(ps[0]) then [base] else []) + Kept(ps[1..], base + 1)
  }

  /** One survivor per kept position, and never more than there were particles. */
  lemma {:induction false} KeptCountsSurvivors(ps: seq<Particle>, base: nat)
    ensures |Survivors(ps)| == |Kept(ps, base)| <= |ps|
  {
    if ps != [] {
      KeptCountsSurvivors(ps[1..], base + 1);
    }
  }

  /** Kept positions lie within the list and strictly increase, so relative order is kept. */
  lemma {:induction false} KeptIncreasing(ps: seq<Particle>, base: nat)
    ensures forall j :: 0 <= j < |Kept(ps, base)| ==> base <= Kept(ps, base)[j] < base + |ps|
    ensures forall j, j' :: 0 <= j < j' < |Kept(ps, base)| ==> Kept(ps, base)[j] < Kept(ps, base)[j']
  {
    if ps != [] {
      KeptIncreasing(ps[1..], base + 1);
    }
  }

  /** Survivor j is the particle at kept position j, advanced once. */
  lemma {:induction false} SurvivorsAreKeptParticles(ps: seq<Particle>, base: nat)
    ensures |Survivors(ps)| == |Kept(ps, base)|
    ensures forall j :: 0 <= j < |Kept(ps, base)| ==>
      base <= Kept(ps, base)[j] < base + |ps| && Survivors(ps)[j] == Advance(ps[Kept(ps, base)[j] - base])
  {
    KeptCountsSurvivors(ps, base);
    KeptIncreasing(ps, base);
    if ps != [] {
      SurvivorsAreKeptParticles(ps[1..], base + 1);
      var r := Survivors(ps);
      var ks := Kept(ps, base);
      var off := if Survives(ps[0]) then 1 else 0;
      forall j | off <= j < |ks|
        ensures r[j] == Advance(ps[ks[j] - base])
      {
        assert r[j] == Survivors(ps[1..])[j - off];
        assert ks[j] == Kept(ps[1..], base + 1)[j - off];
        assert ps[ks[j] - base] == ps[1..][ks[j] - (base + 1)];
      }
    }
  }

  /** A position is kept exactly when its particle still has life after the decrement. */
  lemma {:induction false} KeptIffSurvives(ps: seq<Particle>, base: nat)
    ensures forall i :: 0 <= i < |ps| ==> (Survives(ps[i]) <==> base + i in Kept(ps, base))
  {
    if ps != [] {
      KeptIffSurvives(ps[1..], base + 1);
      KeptIncreasing(ps[1..], base + 1);
      var ks := Kept(ps, base);
      var tail := Kept(ps[1..], base + 1);
      forall i | 0 <= i < |ps|
        ensures Survives(ps[i]) <==> base + i in ks
      {
        if i > 0 {
          assert ps[i] == ps[1..][i - 1];
        } else {
          assert base !in tail;
        }
      }
    }
  }

  /** After an update every remaining particle still has life left, and none was added. */
  lemma {:induction false} SurvivorsAlive(ps: seq<Particle>)
    ensures |Survivors(ps)| <= |ps|
    ensures forall p :: p in Survivors(ps) ==> p.life > 0.0
  {
    if ps != [] {
      SurvivorsAlive(ps[1..]);
    }
  }

  class ParticleSystem {
    var particles: seq<Particle>

    constructor ()
      ensures particles == []
    {
      particles := [];
    }

    /** `createExplosion(x, y, z, color, count)`: `draws` holds the random velocity draws,
        one per particle the loop creates (none for a non-positive count). */
    method CreateExplosion(x: real, y: real, z: real, color: string, count: int, draws: seq<VelocityDraw>)
      requires |draws| == if count > 0 then count else 0
      modifies this
      ensures particles == old(particles) + Bursts(x, y, z, color, draws)
    {
      var i := 0;
      while i < count
        invariant 0 <= i <= |draws|
        invariant count > 0 ==> i <= count
        invariant particles == old(particles) + Bursts(x, y, z, color, draws[..i])
      {
        var d := draws[i];
        particles := particles + [Particle(x, y, z, (d.vx - 0.5) * BurstSpread, (d.vy - 0.5) * BurstSpread,
                                           (d.vz - 0.5) * BurstSpread, 1.0, color)];
        assert draws[..i + 1] == draws[..i] + [d];
        i := i + 1;
      }
      assert draws[..i] == draws;
    }

    /** `update()`: the reverse-index loop with in-place removal. */
    method Update()
      modifies this
      ensures particles == Survivors(old(particles))
    {
      var i := |particles| - 1;
      while i >= 0
        invariant -1 <= i < |old(particles)|
        invariant particles == old(particles)[..i + 1] + Survivors(old(particles)[i + 1..])
      {
        var p := particles[i];
        p := p.(x := p.x + p.vx, y := p.y + p.vy, z := p.z + p.vz);
        p := p.(life := p.life - LifeDecay);
        ghost var rest := Survivors(old(particles)[i + 1..]);
        assert old(particles)[i..][1..] == old(particles)[i + 1..];
        if p.life <= 0.0 {
          particles := particles[..i] + particles[i + 1..];
          assert particles == old(particles)[..i] + rest;
        } else {
          particles := particles[i := p];
          assert particles == old(particles)[..i] + [p] + rest;
        }
        i := i - 1;
      }
      assert old(particles)[0..] == old(particles);
    }
  }
}
