/**
 * Enemy.js: a pooled enemy. `Spawn` claims and resets a slot, `Update` moves an active
 * enemy toward the camera with a per-type speed and lateral rule and releases the slot
 * once it passes the near clip plane.
 */
module Enemies {
  import opened Options
  import opened RandomDraws

  /** The behaviour tag. Any tag other than the three named ones gets no per-type rule. */
  datatype EnemyKind = Diver | Weaver | Sweeper | Other(name: string)

  /** Depth below which an enemy releases its slot. */
  const NearClip: real := 10.0
  /** Width of the band the fallback random x is drawn from. */
  const FallbackSpread: real := 3000.0
  /** Share of the remaining distance to the player a weaver covers per tick. */
  const WeaverLerp: real := 0.02
  /** Lateral distance a sweeper covers per tick. */
  const SweepStep: real := 10.0

  /** A value snapshot of every field `spawn` and `update` touch. */
  datatype EnemyState = EnemyState(
    active: bool, x: real, y: real, z: real, kind: EnemyKind, timer: int, startX: real)

  /** The per-type speed added to the global speed. */
  function KindSpeed(k: EnemyKind): real
  {
    match k
    case Diver => 20.0
    case Weaver => 15.0
    case Sweeper => 30.0
    case Other(_) => 0.0
  }

  /** The state `spawn(z, kind, x)` leaves; `draw` stands for the random value used when x is null. */
  function Spawned(z: real, kind: EnemyKind, x: Option<real>, draw: real, floorY: real): EnemyState
  {
    var x0 := if x.Some? then x.value else (draw - 0.5) * FallbackSpread;
    EnemyState(true, x0, floorY, z, kind, 0, x0)
  }

  function WeaverX(x: real, targetX: real): real
  {
    x + (targetX - x) * WeaverLerp
  }

  function SweeperX(x: real, startX: real): real
  {
    if startX < 0.0 then x + SweepStep else x - SweepStep
  }

  /** The lateral position after one active update. */
  function LateralX(s: EnemyState, playerX: real): real
  {
    match s.kind
    case Weaver => WeaverX(s.x, playerX)
    case Sweeper => SweeperX(s.x, s.startX)
    case _ => s.x
  }

  /** One `update` with global speed `speed` and the player at `playerX`. */
  function Step(s: EnemyState, speed: real, playerX: real): EnemyState
  {
    if !s.active then s
    else
      var z := s.z - (speed + KindSpeed(s.kind));
      s.(x := LateralX(s, playerX), z := z, active := !(z < NearClip))
  }

  /** `k` consecutive updates under a constant speed and player position. */
  function Run(s: EnemyState, speed: real, playerX: real, k: nat): EnemyState
    decreases k
  {
    if k == 0 then s else Run(Step(s, speed, playerX), speed, playerX, k - 1)
  }

  /** A spawn with a given x stores it as both the position and the sweep anchor. */
  lemma SpawnResetsSlot(z: real, kind: EnemyKind, x: real, draw: real, floorY: real)
    ensures var s := Spawned(z, kind, Some(x), draw, floorY);
      s.active && s.z == z && s.kind == kind && s.timer == 0 && s.y == floorY
      && s.x == x && s.startX == x
  {
  }

  /** Without an x the position comes from the draw and stays inside the spawn band. */
  lemma FallbackSpawnInBand(z: real, kind: EnemyKind, draw: real, floorY: real)
    requires InUnit(draw)
    ensures var s := Spawned(z, kind, None, draw, floorY);
      -FallbackSpread / 2.0 <= s.x < FallbackSpread / 2.0 && s.startX == s.x
  {
  }

  /** What one update does: nothing when inactive; otherwise it moves z by exactly the
      combined speed, releases the slot exactly when the new z is below the clip plane,
      and keeps the type, anchor, height and timer. */
  lemma StepMovesTowardCamera(s: EnemyState, speed: real, playerX: real)
    ensures var r := Step(s, speed, playerX);
      (!s.active ==> r == s)
      && (s.active ==>
            r.z == s.z - (speed + KindSpeed(s.kind))
            && (r.active <==> r.z >= NearClip)
            && r.kind == s.kind && r.startX == s.startX && r.y == s.y && r.timer == s.timer)
  {
  }

  /** The per-type lateral rules: a diver (and any untyped enemy) keeps x, a sweeper moves
      one step right when anchored left of centre and one step left otherwise. */
  lemma LateralRules(s: EnemyState, playerX: real)
    ensures s.kind == Diver ==> LateralX(s, playerX) == s.x
    ensures s.kind.Other? ==> LateralX(s, playerX) == s.x
    ensures s.kind == Sweeper && s.startX < 0.0 ==> LateralX(s, playerX) == s.x + SweepStep
    ensures s.kind == Sweeper && s.startX >= 0.0 ==> LateralX(s, playerX) == s.x - SweepStep
  {
  }

  /** A weaver closes 2% of its distance to the player per tick and never overshoots. */
  lemma WeaverClosesGap(x: real, targetX: real)
    ensures targetX - WeaverX(x, targetX) == 0.98 * (targetX - x)
    ensures x <= targetX ==> x <= WeaverX(x, targetX) <= targetX
    ensures targetX <= x ==> targetX <= WeaverX(x, targetX) <= x
  {
  }

  /** An inactive enemy is a fixed point of any number of updates. */
  lemma {:induction false} InactiveStaysPut(s: EnemyState, speed: real, playerX: real, k: nat)
    requires !s.active
    ensures Run(s, speed, playerX, k) == s
    decreases k
  {
    if k > 0 {
      InactiveStaysPut(Step(s, speed, playerX), speed, playerX, k - 1);
    }
  }

  /** With a positive combined speed d, n updates release the slot as soon as z - n*d < 10. */
  lemma {:induction false} ClipsWithin(s: EnemyState, speed: real, playerX: real, n: nat)
    requires n >= 1
    requires speed + KindSpeed(s.kind) > 0.0
    requires s.z - (n as real) * (speed + KindSpeed(s.kind)) < NearClip
    ensures !Run(s, speed, playerX, n).active
    decreases n
  {
    var d := speed + KindSpeed(s.kind);
    var s' := Step(s, speed, playerX);
    if !s'.active {
      InactiveStaysPut(s', speed, playerX, n - 1);
    } else {
      assert s'.z == s.z - d && s'.kind == s.kind;
      assert n != 1;
      assert ((n - 1) as real) * d == (n as real) * d - d;
      ClipsWithin(s', speed, playerX, n - 1);
    }
  }

  /** The converse of ClipsWithin: with combined speed d > 0, an active enemy is still active
      after n updates while z - n*d has not passed the clip plane, at exactly that depth and
      with its type kept. */
  lemma {:induction false} ActiveBeyondClip(s: EnemyState, speed: real, playerX: real, n: nat)
    requires s.active
    requires speed + KindSpeed(s.kind) > 0.0
    requires s.z - (n as real) * (speed + KindSpeed(s.kind)) >= NearClip
    ensures var r := Run(s, speed, playerX, n);
      r.active && r.z == s.z - (n as real) * (speed + KindSpeed(s.kind)) && r.kind == s.kind
    decreases n
  {
    if n > 0 {
      var d := speed + KindSpeed(s.kind);
      var s' := Step(s, speed, playerX);
      assert (n as real) * d == ((n - 1) as real) * d + d;
      assert ((n - 1) as real) * d >= 0.0;
      assert s'.z == s.z - d >= NearClip;
      ActiveBeyondClip(s', speed, playerX, n - 1);
    }
  }

  /** An enemy's exact lifetime: with combined speed d > 0, an active enemy is active after
      n >= 1 updates exactly when z - n*d is still at or beyond the clip plane. */
  lemma EnemyLifetime(s: EnemyState, speed: real, playerX: real, n: nat)
    requires s.active && n >= 1
    requires speed + KindSpeed(s.kind) > 0.0
    ensures Run(s, speed, playerX, n).active
        <==> s.z - (n as real) * (speed + KindSpeed(s.kind)) >= NearClip
  {
    if s.z - (n as real) * (speed + KindSpeed(s.kind)) >= NearClip {
      ActiveBeyondClip(s, speed, playerX, n);
    } else {
      ClipsWithin(s, speed, playerX, n);
    }
  }

  /** With a positive combined speed every enemy is released after finitely many updates. */
  lemma EventuallyReleased(s: EnemyState, speed: real, playerX: real)
    requires speed + KindSpeed(s.kind) > 0.0
    ensures exists n: nat :: n >= 1 && !Run(s, speed, playerX, n).active
  {
    var d := speed + KindSpeed(s.kind);
    var m := (s.z - NearClip) / d;
    var n: nat := if m < 0.0 then 1 else m.Floor + 1;
    assert (n as real) > m;
    assert (n as real) * d > m * d;
    assert m * d == s.z - NearClip;
    ClipsWithin(s, speed, playerX, n);
  }

  class Enemy {
    var active: bool
    var x: real
    var y: real
    var z: real
    var kind: EnemyKind
    var timer: int
    var startX: real

    function State(): EnemyState
      reads this
    {
      EnemyState(active, x, y, z, kind, timer, startX)
    }

    constructor ()
      ensures State() == EnemyState(false, 0.0, 0.0, 0.0, Diver, 0, 0.0)
    {
      active, x, y, z := false, 0.0, 0.0, 0.0;
      kind, timer, startX := Diver, 0, 0.0;
    }

    /** `spawn(z, type, x)`; `floorY` is the configured floor height. */
    method Spawn(z0: real, kind0: EnemyKind, x0: Option<real>, draw: real, floorY: real)
      modifies this
      ensures State() == Spawned(z0, kind0, x0, draw, floorY)
    {
      active := true;
      z := z0;
      kind := kind0;
      timer := 0;
      y := floorY;
      if x0.Some? {
        x := x0.value;
        startX := x0.value;
      } else {
        x := (draw - 0.5) * FallbackSpread;
        startX := x;
      }
    }

    /** `update()`; `speed` is the game's speed and `playerX` the player's lateral position. */
    method Update(speed: real, playerX: real)
      modifies this
      ensures State() == Step(old(State()), speed, playerX)
    {
      if !active {
        return;
      }
      var enemySpeed := 0.0;
      if kind == Diver {
        enemySpeed := 20.0;
      } else if kind == Weaver {
        enemySpeed := 15.0;
        x := x + (playerX - x) * WeaverLerp;
      } else if kind == Sweeper {
        enemySpeed := 30.0;
        if startX < 0.0 {
          x := x + SweepStep;
        } else {
          x := x - SweepStep;
        }
      }
      z := z - (speed + enemySpeed);
      if z < NearClip {
        active := false;
      }
    }
  }
}
