/**
 * ShipExplosion.js: the player ship's six-frame explosion. `update` runs the frame counter
 * (five ticks per frame) and never moves; `draw` sizes the frame from the spawn scale and a
 * per-frame growth factor.
 */
module ShipExplosions {
  import FA = FrameAnimation

  const FrameSpeed: int := 5
  const MaxFrames: int := 6
  /** Updates from spawn to release: FrameSpeed * MaxFrames. */
  const Lifetime: int := 30
  /** Base on-screen size before scaling. */
  const BaseSize: real := 100.0

  datatype ShipExplosionState = ShipExplosionState(
    active: bool, x: real, y: real, z: real, frame: int, frameTimer: int, scale: real)

  /** `spawn(x, y, z, scale)`; the source's default scale is 1.0. */
  function Spawned(x: real, y: real, z: real, scale: real): ShipExplosionState
  {
    ShipExplosionState(true, x, y, z, 0, 0, scale)
  }

  function CounterOf(s: ShipExplosionState): FA.Counter
  {
    FA.Counter(s.active, s.frame, s.frameTimer)
  }

  function Step(s: ShipExplosionState): ShipExplosionState
  {
    if !s.active then s
    else
      var c := FA.Tick(CounterOf(s), FrameSpeed, MaxFrames);
      s.(active := c.active, frame := c.frame, frameTimer := c.frameTimer)
  }

  function Run(s: ShipExplosionState, k: nat): ShipExplosionState
    decreases k
  {
    if k == 0 then s else Run(Step(s), k - 1)
  }

  /** k updates run the shared counter k ticks and touch nothing else. */
  lemma {:induction false} RunFollowsCounter(s: ShipExplosionState, k: nat)
    ensures var r := Run(s, k);
      CounterOf(r) == FA.Run(CounterOf(s), FrameSpeed, MaxFrames, k)
      && r.x == s.x && r.y == s.y && r.z == s.z && r.scale == s.scale
    decreases k
  {
    if k > 0 {
      var s' := Step(s);
      assert CounterOf(s') == FA.Tick(CounterOf(s), FrameSpeed, MaxFrames);
      RunFollowsCounter(s', k - 1);
    }
  }

  /** The exact lifetime: active after each of the first 29 updates, released by the 30th;
      position and scale never change, and while active the frame lies in [0, 6), so the
      sprite name suffix frame + 1 lies in 1..6. */
  lemma ExactLifetime(x: real, y: real, z: real, scale: real, k: nat)
    ensures var r := Run(Spawned(x, y, z, scale), k);
      (r.active <==> k < Lifetime)
      && r.x == x && r.y == y && r.z == z && r.scale == scale
      && (r.active ==> 0 <= r.frame < MaxFrames && 1 <= FrameNameIndex(r.frame) <= 6)
  {
    RunFollowsCounter(Spawned(x, y, z, scale), k);
    FA.Lifetime(FrameSpeed, MaxFrames, k);
    assert CounterOf(Spawned(x, y, z, scale)) == FA.Started;
  }

  /** One update of an inactive ship explosion changes nothing. */
  lemma InactiveUpdateIsNoOp(s: ShipExplosionState)
    requires !s.active
    ensures Step(s) == s
  {
  }

  /** The number in the sprite name `ship_explosion_<n>` drawn for a frame. */
  function FrameNameIndex(frame: int): int
  {
    frame + 1
  }

  /** The growth factor of the last two frames. */
  function FrameScale(frame: int): real
  {
    if frame == 4 then 1.2 else if frame == 5 then 1.3 else 1.0
  }

  /** The drawn size for a frame, given the projection scale `pScale` at the explosion's depth. */
  function DrawSize(scale: real, frame: int, pScale: real): real
  {
    BaseSize * scale * FrameScale(frame) * pScale
  }

  /** The explosion grows over its frames: the growth factor is 1.0 for frames 0 to 3, then
      1.2 and 1.3, so it never falls from one frame to a later one. */
  lemma GrowsInFinalFrames(f1: int, f2: int)
    requires 0 <= f1 <= f2 < MaxFrames
    ensures f1 < 4 ==> FrameScale(f1) == 1.0
    ensures FrameScale(4) == 1.2 && FrameScale(5) == 1.3
    ensures 1.0 <= FrameScale(f1) <= FrameScale(f2) <= 1.3
  {
  }

  /** For a non-negative spawn scale and projection scale, later frames are drawn at least as
      large, and frames 4 and 5 exactly 1.2 and 1.3 times the size of frame 0. */
  lemma SizeGrowsOverAnimation(scale: real, pScale: real, f1: int, f2: int)
    requires scale >= 0.0 && pScale >= 0.0
    requires 0 <= f1 <= f2 < MaxFrames
    ensures DrawSize(scale, f1, pScale) <= DrawSize(scale, f2, pScale)
    ensures DrawSize(scale, 4, pScale) == 1.2 * DrawSize(scale, 0, pScale)
    ensures DrawSize(scale, 5, pScale) == 1.3 * DrawSize(scale, 0, pScale)
  {
    var base := BaseSize * scale;
    assert base >= 0.0;
    assert DrawSize(scale, f1, pScale) == (base * pScale) * FrameScale(f1);
    assert DrawSize(scale, f2, pScale) == (base * pScale) * FrameScale(f2);
    assert base * pScale >= 0.0;
  }

  class ShipExplosion {
    var active: bool
    var x: real
    var y: real
    var z: real
    var frame: int
    var frameTimer: int
    var scale: real

    function State(): ShipExplosionState
      reads this
    {
      ShipExplosionState(active, x, y, z, frame, frameTimer, scale)
    }

    constructor ()
      ensures State() == ShipExplosionState(false, 0.0, 0.0, 0.0, 0, 0, 1.0)
    {
      active, x, y, z := false, 0.0, 0.0, 0.0;
      frame, frameTimer, scale := 0, 0, 1.0;
    }

    method Spawn(x0: real, y0: real, z0: real, scale0: real)
      modifies this
      ensures State() == Spawned(x0, y0, z0, scale0)
    {
      active := true;
      x := x0;
      y := y0;
      z := z0;
      frame := 0;
      frameTimer := 0;
      scale := scale0;
    }

    method Update()
      modifies this
      ensures State() == Step(old(State()))
    {
      if !active {
        return;
      }
      frameTimer := frameTimer + 1;
      if frameTimer >= FrameSpeed {
        frameTimer := 0;
        frame := frame + 1;
        if frame >= MaxFrames {
          active := false;
        }
      }
    }
  }
}
