/**
 * Explosion.js: a pooled four-frame explosion. `update` runs the frame counter (four ticks
 * per frame, four frames) and drifts toward the camera with the game speed.
 */
module Explosions {
  import FA = FrameAnimation

  const FrameSpeed: int := 4
  const MaxFrames: int := 4
  /** Updates from spawn to release: FrameSpeed * MaxFrames. */
  const Lifetime: int := 16

  datatype ExplosionState = ExplosionState(
    active: bool, x: real, y: real, z: real, frame: int, frameTimer: int)

  function Spawned(x: real, y: real, z: real): ExplosionState
  {
    ExplosionState(true, x, y, z, 0, 0)
  }

  function CounterOf(s: ExplosionState): FA.Counter
  {
    FA.Counter(s.active, s.frame, s.frameTimer)
  }

  /** One `update` with global speed `speed`: the counter ticks, and z drifts on every
      active update, including the one that releases the slot. */
  function Step(s: ExplosionState, speed: real): ExplosionState
  {
    if !s.active then s
    else
      var c := FA.Tick(CounterOf(s), FrameSpeed, MaxFrames);
      s.(active := c.active, frame := c.frame, frameTimer := c.frameTimer, z := s.z - speed)
  }

  function Run(s: ExplosionState, speed: real, k: nat): ExplosionState
    decreases k
  {
    if k == 0 then s else Run(Step(s, speed), speed, k - 1)
  }

  /** k updates run the shared counter k ticks, keep x and y, and lower z by the speed once
      per tick on which the explosion was active. */
  lemma {:induction false} RunFollowsCounter(s: ExplosionState, speed: real, k: nat)
    ensures var r := Run(s, speed, k);
      CounterOf(r) == FA.Run(CounterOf(s), FrameSpeed, MaxFrames, k)
      && r.x == s.x && r.y == s.y
      && r.z == s.z - speed * (FA.ActiveTicks(CounterOf(s), FrameSpeed, MaxFrames, k) as real)
    decreases k
  {
    if k > 0 {
      var s' := Step(s, speed);
      assert CounterOf(s') == FA.Tick(CounterOf(s), FrameSpeed, MaxFrames);
      RunFollowsCounter(s', speed, k - 1);
    }
  }

  /** The exact lifetime: active after each of the first 15 updates, released by the 16th;
      z has dropped by the speed once per update up to and including the 16th. */
  lemma ExactLifetime(x: real, y: real, z: real, speed: real, k: nat)
    ensures var r := Run(Spawned(x, y, z), speed, k);
      (r.active <==> k < Lifetime)
      && r.x == x && r.y == y
      && r.z == z - speed * ((if k < Lifetime then k else Lifetime) as real)
      && (r.active ==> 0 <= r.frameTimer < FrameSpeed && r.frame * FrameSpeed + r.frameTimer == k)
  {
    RunFollowsCounter(Spawned(x, y, z), speed, k);
    FA.Lifetime(FrameSpeed, MaxFrames, k);
    assert CounterOf(Spawned(x, y, z)) == FA.Started;
  }

  /** One update of an inactive explosion changes nothing. */
  lemma InactiveUpdateIsNoOp(s: ExplosionState, speed: real)
    requires !s.active
    ensures Step(s, speed) == s
  {
  }

  class Explosion {
    var active: bool
    var x: real
    var y: real
    var z: real
    var frame: int
    var frameTimer: int

    function State(): ExplosionState
      reads this
    {
      ExplosionState(active, x, y, z, frame, frameTimer)
    }

    constructor ()
      ensures State() == ExplosionState(false, 0.0, 0.0, 0.0, 0, 0)
    {
      active, x, y, z := false, 0.0, 0.0, 0.0;
      frame, frameTimer := 0, 0;
    }

    method Spawn(x0: real, y0: real, z0: real)
      modifies this
      ensures State() == Spawned(x0, y0, z0)
    {
      active := true;
      x := x0;
      y := y0;
      z := z0;
      frame := 0;
      frameTimer := 0;
    }

    /** `update()`; `speed` is the game's speed. */
    method Update(speed: real)
      modifies this
      ensures State() == Step(old(State()), speed)
    {
      if !active {
        return;
      }
      frameTimer := frameTimer + 1;
      if frameTimer >= FrameSpeed {
        frameTimer := 0;
        frame := frame + 1;
        if frame >= MaxFrames {
          active := false;
        }
      }
      z := z - speed;
    }
  }
}
