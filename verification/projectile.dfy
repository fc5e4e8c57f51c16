/**
 * Projectile.js: a pooled shot that flies away from the camera (+Z) at a fixed speed and
 * releases its slot once it is beyond the maximum draw distance.
 */
module Projectiles {

  /** Units per tick: 600 units per second at 60 ticks per second. */
  const Speed: real := 600.0 / 60.0

  datatype ProjectileState = ProjectileState(active: bool, x: real, y: real, z: real)

  function Spawned(x: real, y: real, z: real): ProjectileState
  {
    ProjectileState(true, x, y, z)
  }

  /** One `update`; `maxDraw` is the configured maximum draw distance. */
  function Step(s: ProjectileState, maxDraw: real): ProjectileState
  {
    if !s.active then s
    else
      var z := s.z + Speed;
      s.(z := z, active := !(z > maxDraw))
  }

  function Run(s: ProjectileState, maxDraw: real, k: nat): ProjectileState
    decreases k
  {
    if k == 0 then s else Run(Step(s, maxDraw), maxDraw, k - 1)
  }

  /** One update: no-op when inactive; otherwise z rises by exactly 10, x and y stay, and
      the slot is released exactly when the new z is beyond the draw distance. */
  lemma StepFliesAway(s: ProjectileState, maxDraw: real)
    ensures var r := Step(s, maxDraw);
      (!s.active ==> r == s)
      && (s.active ==> r.z == s.z + 10.0 && r.x == s.x && r.y == s.y
                       && (r.active <==> r.z <= maxDraw))
  {
  }

  lemma {:induction false} InactiveStaysPut(s: ProjectileState, maxDraw: real, k: nat)
    requires !s.active
    ensures Run(s, maxDraw, k) == s
    decreases k
  {
    if k > 0 {
      InactiveStaysPut(Step(s, maxDraw), maxDraw, k - 1);
    }
  }

  /** Exact lifetime: after k >= 1 updates an active shot is still active exactly when
      z + 10k is within the draw distance, and while active it sits at z + 10k. */
  lemma {:induction false} Lifetime(s: ProjectileState, maxDraw: real, k: nat)
    requires s.active && k >= 1
    ensures var r := Run(s, maxDraw, k);
      (r.active <==> s.z + Speed * (k as real) <= maxDraw)
      && r.x == s.x && r.y == s.y
      && (r.active ==> r.z == s.z + Speed * (k as real))
    decreases k
  {
    var s' := Step(s, maxDraw);
    if k > 1 {
      if s'.active {
        Lifetime(s', maxDraw, k - 1);
        assert s'.z + Speed * ((k - 1) as real) == s.z + Speed * (k as real);
      } else {
        InactiveStaysPut(s', maxDraw, k - 1);
      }
    }
  }

  /** A shot is always released after finitely many updates. */
  lemma EventuallyReleased(s: ProjectileState, maxDraw: real)
    requires s.active
    ensures exists k: nat :: k >= 1 && !Run(s, maxDraw, k).active
  {
    var m := (maxDraw - s.z) / Speed;
    var k: nat := if m < 0.0 then 1 else m.Floor + 1;
    assert (k as real) > m;
    Lifetime(s, maxDraw, k);
  }

  class Projectile {
    var active: bool
    var x: real
    var y: real
    var z: real

    function State(): ProjectileState
      reads this
    {
      ProjectileState(active, x, y, z)
    }

    constructor ()
      ensures State() == ProjectileState(false, 0.0, 0.0, 0.0)
    {
      active, x, y, z := false, 0.0, 0.0, 0.0;
    }

    method Spawn(x0: real, y0: real, z0: real)
      modifies this
      ensures State() == Spawned(x0, y0, z0)
    {
      active := true;
      x := x0;
      y := y0;
      z := z0;
    }

    /** `update()`; `maxDraw` is the configured maximum draw distance. */
    method Update(maxDraw: real)
      modifies this
      ensures State() == Step(old(State()), maxDraw)
    {
      if !active {
        return;
      }
      z := z + Speed;
      if z > maxDraw {
        active := false;
      }
    }
  }
}
