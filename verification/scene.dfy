/**
 * Game.js: the perspective projection, the scrolling floor offset, and the depths and
 * lateral positions at which `draw` lays out the floor grid.
 */
module Scene {
  import opened Options

  /** Near clip depth of the grid. */
  const NearClip: real := 10.0
  /** Draw distance of the grid. */
  const MaxZ: real := 2000.0
  /** Number of grid cells across; the vertical lines run from -HalfLines to HalfLines. */
  const NumLines: int := 20
  const HalfLines: int := NumLines / 2
  /** Height of the floor below the camera. */
  const FloorY: real := 200.0

  datatype Camera = Camera(focalLength: real, cx: real, cy: real)
  datatype Projected = Projected(x: real, y: real, scale: real)
  datatype Segment = Segment(from: Projected, to: Projected)

  /** `project(x, y, z)`: a point at or behind the camera has no projection. */
  function Project(cam: Camera, x: real, y: real, z: real): (p: Option<Projected>)
    ensures p.None? <==> z <= 0.0
    ensures p.Some? ==> p.value.scale * z == cam.focalLength
    ensures p.Some? ==> p.value.x == cam.cx + x * p.value.scale && p.value.y == cam.cy + y * p.value.scale
  {
    if z <= 0.0 then None
    else
      var scale := cam.focalLength / z;
      Some(Projected(cam.cx + x * scale, cam.cy + y * scale, scale))
  }

  /** Recovers the world x and y of a projected point whose depth is known. */
  function Unproject(cam: Camera, p: Projected): (real, real)
    requires p.scale != 0.0
  {
    ((p.x - cam.cx) / p.scale, (p.y - cam.cy) / p.scale)
  }

  /** Projection loses nothing but depth: with a non-zero focal length, the world x and y
      come back from the screen point. */
  lemma UnprojectRoundTrip(cam: Camera, x: real, y: real, z: real)
    requires cam.focalLength != 0.0 && z > 0.0
    ensures Project(cam, x, y, z).Some?
    ensures Unproject(cam, Project(cam, x, y, z).value) == (x, y)
  {
    var p := Project(cam, x, y, z).value;
    assert p.scale != 0.0;
    assert p.x == cam.cx + x * p.scale && p.y == cam.cy + y * p.scale;
    CancelScale(x, p.scale, cam.cx);
    CancelScale(y, p.scale, cam.cy);
    assert Unproject(cam, p).0 == x;
    assert Unproject(cam, p).1 == y;
  }

  lemma CancelScale(a: real, scale: real, c: real)
    requires scale != 0.0
    ensures ((c + a * scale) - c) / scale == a
  {
    var r := ((c + a * scale) - c) / scale;
    assert r * scale == a * scale;
    assert (r - a) * scale == 0.0;
  }

  /** Farther is smaller: with a positive focal length the scale strictly falls with depth. */
  lemma ScaleDecreasesWithDepth(cam: Camera, x: real, y: real, z1: real, z2: real)
    requires cam.focalLength > 0.0 && 0.0 < z1 < z2
    ensures Project(cam, x, y, z1).value.scale > Project(cam, x, y, z2).value.scale > 0.0
  {
    var s1 := Project(cam, x, y, z1).value.scale;
    var s2 := Project(cam, x, y, z2).value.scale;
    assert s1 * z1 == cam.focalLength && s2 * z2 == cam.focalLength;
    assert s2 > 0.0;
    assert s2 * (z2 - z1) > 0.0;
    assert (s1 - s2) * z1 == s1 * z1 - s2 * z1 == s2 * z2 - s2 * z1 == s2 * (z2 - z1);
  }

  /** A point on the viewing axis lands on the screen centre at any visible depth. */
  lemma AxisProjectsToCentre(cam: Camera, z: real)
    requires z > 0.0
    ensures Project(cam, 0.0, 0.0, z).Some?
    ensures Project(cam, 0.0, 0.0, z).value.x == cam.cx && Project(cam, 0.0, 0.0, z).value.y == cam.cy
  {
  }

  /** `update()`'s scroll of the floor offset. */
  function Scroll(offsetZ: real, speed: real, gridSpacing: real): real
  {
    var z := offsetZ - speed;
    if z <= 0.0 then z + gridSpacing else z
  }

  /** The scroll keeps the offset within one grid cell: from [0, spacing] with a speed
      below the spacing it lands in (0, spacing], one speed step back modulo the spacing. */
  lemma ScrollStaysInCell(offsetZ: real, speed: real, gridSpacing: real)
    requires 0.0 < speed < gridSpacing
    requires 0.0 <= offsetZ <= gridSpacing
    ensures 0.0 < Scroll(offsetZ, speed, gridSpacing) <= gridSpacing
    ensures Scroll(offsetZ, speed, gridSpacing) == offsetZ - speed
         || Scroll(offsetZ, speed, gridSpacing) == offsetZ - speed + gridSpacing
  {
  }

  /** Lateral positions of the vertical grid lines, left to right: i * spacing for
      i = -HalfLines .. HalfLines. */
  function LineXsFrom(i: int, gridSpacing: real): (xs: seq<real>)
    requires i <= HalfLines + 1
    ensures |xs| == HalfLines + 1 - i
    ensures forall j :: 0 <= j < |xs| ==> xs[j] == ((i + j) as real) * gridSpacing
    decreases HalfLines + 1 - i
  {
    if i > HalfLines then [] else [(i as real) * gridSpacing] + LineXsFrom(i + 1, gridSpacing)
  }

  function VerticalLineXs(gridSpacing: real): seq<real>
  {
    LineXsFrom(-HalfLines, gridSpacing)
  }

  /** The vertical lines `draw` strokes: one segment per lateral position whose near and
      far projections both exist. */
  function VerticalSegments(cam: Camera, xs: seq<real>): seq<Segment>
  {
    if xs == [] then []
    else
      var p1 := Project(cam, xs[0], FloorY, NearClip);
      var p2 := Project(cam, xs[0], FloorY, MaxZ);
      (if p1.Some? && p2.Some? then [Segment(p1.value, p2.value)] else [])
      + VerticalSegments(cam, xs[1..])
  }

  /** There are 21 vertical lines, evenly spaced and centred, and the visibility guard
      always passes, so every one of them is drawn from the near to the far clip depth. */
  lemma {:induction false} VerticalLinesAllDrawn(cam: Camera, gridSpacing: real)
    ensures var xs := VerticalLineXs(gridSpacing);
      |xs| == 21 && xs[0] == -10.0 * gridSpacing && xs[20] == 10.0 * gridSpacing
      && (forall j :: 0 < j < 21 ==> xs[j] - xs[j - 1] == gridSpacing)
    ensures var xs := VerticalLineXs(gridSpacing);
      var segs := VerticalSegments(cam, xs);
      |segs| == 21
      && forall j :: 0 <= j < 21 ==>
           segs[j] == Segment(Project(cam, xs[j], FloorY, NearClip).value, Project(cam, xs[j], FloorY, MaxZ).value)
  {
    var xs := VerticalLineXs(gridSpacing);
    LineXsSpaced(-HalfLines, gridSpacing);
    AllSegmentsDrawn(cam, xs);
  }

  /** The lateral positions from any start index are one spacing apart. */
  lemma LineXsSpaced(i: int, gridSpacing: real)
    requires i <= HalfLines + 1
    ensures var xs := LineXsFrom(i, gridSpacing);
      forall j :: 0 < j < |xs| ==> xs[j] - xs[j - 1] == gridSpacing
  {
    var xs := LineXsFrom(i, gridSpacing);
    forall j | 0 < j < |xs|
      ensures xs[j] - xs[j - 1] == gridSpacing
    {
      StepApart(i + j - 1, gridSpacing);
    }
  }

  /** Neighbouring multiples of the spacing are one spacing apart. */
  lemma StepApart(a: int, g: real)
    ensures ((a + 1) as real) * g - (a as real) * g == g
  {
    assert ((a + 1) as real) * g == (a as real) * g + 1.0 * g;
  }

  lemma {:induction false} AllSegmentsDrawn(cam: Camera, xs: seq<real>)
    ensures |VerticalSegments(cam, xs)| == |xs|
    ensures forall j :: 0 <= j < |xs| ==>
      VerticalSegments(cam, xs)[j] == Segment(Project(cam, xs[j], FloorY, NearClip).value, Project(cam, xs[j], FloorY, MaxZ).value)
  {
    if xs != [] {
      AllSegmentsDrawn(cam, xs[1..]);
    }
  }

  /** The depth of the k-th candidate horizontal line. */
  function Depth(offsetZ: real, gridSpacing: real, k: nat): real
  {
    offsetZ + (k as real) * gridSpacing
  }

  /** The candidates from one spacing further on are the same candidates, one step later. */
  lemma DepthShift(z: real, g: real, k: nat)
    ensures Depth(z + g, g, k) == Depth(z, g, k + 1)
  {
    StepApart(k, g);
  }

  /** One grid step less of remaining distance is one less step of the loop's measure. */
  lemma DivShift(a: real, gridSpacing: real)
    requires gridSpacing > 0.0
    ensures (a - gridSpacing) / gridSpacing == a / gridSpacing - 1.0
    ensures a > gridSpacing ==> a / gridSpacing > 1.0
  {
    assert (a - gridSpacing) / gridSpacing == a / gridSpacing - gridSpacing / gridSpacing;
    if a > gridSpacing {
      assert (a - gridSpacing) / gridSpacing > 0.0;
    }
  }

  /** The horizontal line depths `draw` visits from `z` on: z, z + spacing, ... below the
      draw distance, skipping those in front of the near clip. */
  function GridDepths(z: real, gridSpacing: real): (r: seq<real>)
    requires gridSpacing > 0.0
    ensures forall j :: 0 <= j < |r| ==> NearClip <= r[j] < MaxZ
    decreases if z < MaxZ then ((MaxZ - z) / gridSpacing).Floor + 1 else 0
  {
    if z >= MaxZ then []
    else
      var rest := z + gridSpacing;
      DivShift(MaxZ - z, gridSpacing);
      if z < NearClip then GridDepths(rest, gridSpacing)
      else [z] + GridDepths(rest, gridSpacing)
  }

  /** One iteration of the depth loop: the current depth, if beyond the near clip, then the
      depths from one spacing further on. */
  lemma GridDepthsUnfold(z: real, gridSpacing: real)
    requires gridSpacing > 0.0 && z < MaxZ
    ensures GridDepths(z, gridSpacing)
         == (if z < NearClip then [] else [z]) + GridDepths(z + gridSpacing, gridSpacing)
  {
  }

  /** `e` is one of the depths offset + k * spacing the grid loop steps through. */
  ghost predicate IsCandidate(e: real, offsetZ: real, gridSpacing: real)
  {
    exists k: nat :: e == Depth(offsetZ, gridSpacing, k)
  }

  /** Every drawn depth is one of the candidates offset + k * spacing. */
  lemma {:induction false} GridDepthsAreCandidates(z: real, gridSpacing: real)
    requires gridSpacing > 0.0
    ensures forall j :: 0 <= j < |GridDepths(z, gridSpacing)| ==>
      IsCandidate(GridDepths(z, gridSpacing)[j], z, gridSpacing)
    decreases if z < MaxZ then ((MaxZ - z) / gridSpacing).Floor + 1 else 0
  {
    if z < MaxZ {
      var r := GridDepths(z, gridSpacing);
      var rest := z + gridSpacing;
      DivShift(MaxZ - z, gridSpacing);
      GridDepthsUnfold(z, gridSpacing);
      GridDepthsAreCandidates(rest, gridSpacing);
      var tail := GridDepths(rest, gridSpacing);
      forall j | 0 <= j < |r|
        ensures IsCandidate(r[j], z, gridSpacing)
      {
        if z >= NearClip && j == 0 {
          assert r[j] == z == Depth(z, gridSpacing, 0);
        } else {
          var jt := if z >= NearClip then j - 1 else j;
          assert r[j] == tail[jt];
          assert IsCandidate(tail[jt], rest, gridSpacing);
          var k: nat :| tail[jt] == Depth(rest, gridSpacing, k);
          DepthShift(z, gridSpacing, k);
        }
      }
    }
  }

  /** Every candidate offset + k * spacing in [near clip, draw distance) is drawn. */
  lemma {:induction false} GridDepthsComplete(z: real, gridSpacing: real)
    requires gridSpacing > 0.0
    ensures forall k: nat :: NearClip <= Depth(z, gridSpacing, k) < MaxZ ==>
      Depth(z, gridSpacing, k) in GridDepths(z, gridSpacing)
    decreases if z < MaxZ then ((MaxZ - z) / gridSpacing).Floor + 1 else 0
  {
    if z < MaxZ {
      var rest := z + gridSpacing;
      DivShift(MaxZ - z, gridSpacing);
      GridDepthsUnfold(z, gridSpacing);
      GridDepthsComplete(rest, gridSpacing);
      forall k: nat | NearClip <= Depth(z, gridSpacing, k) < MaxZ
        ensures Depth(z, gridSpacing, k) in GridDepths(z, gridSpacing)
      {
        if k == 0 {
          assert Depth(z, gridSpacing, k) == z;
        } else {
          DepthShift(z, gridSpacing, k - 1);
          assert Depth(z, gridSpacing, k) in GridDepths(rest, gridSpacing);
        }
      }
    }
  }

  /** Consecutive drawn depths are one grid spacing apart (no candidate is skipped between
      two drawn lines). */
  lemma {:induction false} GridDepthsEvenlySpaced(z: real, gridSpacing: real)
    requires gridSpacing > 0.0
    ensures forall j :: 0 < j < |GridDepths(z, gridSpacing)| ==>
      GridDepths(z, gridSpacing)[j] == GridDepths(z, gridSpacing)[j - 1] + gridSpacing
    decreases if z < MaxZ then ((MaxZ - z) / gridSpacing).Floor + 1 else 0
  {
    if z < MaxZ {
      var rest := z + gridSpacing;
      DivShift(MaxZ - z, gridSpacing);
      GridDepthsUnfold(z, gridSpacing);
      GridDepthsEvenlySpaced(rest, gridSpacing);
      var tail := GridDepths(rest, gridSpacing);
      if z >= NearClip && tail != [] {
        assert rest < MaxZ && rest >= NearClip;
        assert tail[0] == rest;
      }
    }
  }

  /** The horizontal lines `draw` strokes: one segment across the grid per drawn depth. */
  function HorizontalSegments(cam: Camera, depths: seq<real>, gridSpacing: real): seq<Segment>
  {
    if depths == [] then []
    else
      var left := Project(cam, -(HalfLines as real) * gridSpacing, FloorY, depths[0]);
      var right := Project(cam, (HalfLines as real) * gridSpacing, FloorY, depths[0]);
      (if left.Some? && right.Some? then [Segment(left.value, right.value)] else [])
      + HorizontalSegments(cam, depths[1..], gridSpacing)
  }

  /** Every drawn depth is beyond the near clip, so its guard passes and each depth gets
      exactly one segment, from the grid's left edge to its right edge at that depth. */
  lemma {:induction false} HorizontalLinesAllDrawn(cam: Camera, depths: seq<real>, gridSpacing: real)
    requires forall j :: 0 <= j < |depths| ==> depths[j] >= NearClip
    ensures |HorizontalSegments(cam, depths, gridSpacing)| == |depths|
    ensures forall j :: 0 <= j < |depths| ==>
      HorizontalSegments(cam, depths, gridSpacing)[j]
        == Segment(Project(cam, -(HalfLines as real) * gridSpacing, FloorY, depths[j]).value,
                   Project(cam, (HalfLines as real) * gridSpacing, FloorY, depths[j]).value)
  {
    if depths != [] {
      HorizontalLinesAllDrawn(cam, depths[1..], gridSpacing);
    }
  }

  class Game {
    const focalLength: real
    var cx: real
    var cy: real
    var speed: real
    const gridSize: real
    const gridSpacing: real
    var offsetZ: real

    /** The configuration part of the constructor, for a canvas of the given size. */
    constructor (width: real, height: real)
      ensures focalLength == 400.0 && cx == width / 2.0 && cy == height / 2.0
      ensures speed == 20.0 && gridSize == 4000.0 && gridSpacing == 200.0 && offsetZ == 0.0
    {
      focalLength := 400.0;
      cx := width / 2.0;
      cy := height / 2.0;
      speed := 20.0;
      gridSize := 4000.0;
      gridSpacing := 200.0;
      offsetZ := 0.0;
    }

    function Cam(): Camera
      reads this
    {
      Camera(focalLength, cx, cy)
    }

    /** `update()`: scroll the floor toward the camera. */
    method Update()
      modifies this`offsetZ
      ensures offsetZ == Scroll(old(offsetZ), speed, gridSpacing)
      ensures 0.0 < speed < gridSpacing && 0.0 <= old(offsetZ) <= gridSpacing ==> 0.0 < offsetZ <= gridSpacing
    {
      offsetZ := offsetZ - speed;
      if offsetZ <= 0.0 {
        offsetZ := offsetZ + gridSpacing;
      }
      if 0.0 < speed < gridSpacing && 0.0 <= old(offsetZ) <= gridSpacing {
        ScrollStaysInCell(old(offsetZ), speed, gridSpacing);
      }
    }

    /** The floor segments `draw` strokes this frame: vertical lines, then horizontal ones. */
    function GridSegments(): (segs: (seq<Segment>, seq<Segment>))
      reads this
      requires gridSpacing > 0.0
      ensures |segs.0| == 2 * HalfLines + 1
      ensures forall j :: 0 <= j < |segs.0| ==>
        segs.0[j] == Segment(Project(Cam(), ((j - HalfLines) as real) * gridSpacing, FloorY, NearClip).value,
                             Project(Cam(), ((j - HalfLines) as real) * gridSpacing, FloorY, MaxZ).value)
      ensures |segs.1| == |GridDepths(offsetZ, gridSpacing)|
      ensures forall j :: 0 <= j < |segs.1| ==>
        var z := GridDepths(offsetZ, gridSpacing)[j];
        segs.1[j] == Segment(Project(Cam(), -(HalfLines as real) * gridSpacing, FloorY, z).value,
                             Project(Cam(), (HalfLines as real) * gridSpacing, FloorY, z).value)
    {
      VerticalLinesAllDrawn(Cam(), gridSpacing);
      HorizontalLinesAllDrawn(Cam(), GridDepths(offsetZ, gridSpacing), gridSpacing);
      (VerticalSegments(Cam(), VerticalLineXs(gridSpacing)),
       HorizontalSegments(Cam(), GridDepths(offsetZ, gridSpacing), gridSpacing))
    }
  }
}
