/**
 * Starfield.js: a fixed population of background stars that drift towards the camera at half
 * the game speed and are recycled to the far plane once they pass it. `maxDraw` stands for
 * CONFIG.MAX_DRAW_DISTANCE and `speed` for the game's current scroll speed.
 */
module Starfields {
  import opened RandomDraws

  /** Width of the square band (centred on the axis) a star's x and y are drawn from. */
  const FieldWidth: real := 4000.0
  /** Stars move at this fraction of the game speed (parallax). */
  const Parallax: real := 0.5

  datatype Star = Star(x: real, y: real, z: real, size: real)

  /** The four random values `init` draws for one star, in the order drawn, each in [0, 1). */
  datatype StarDraw = StarDraw(x: real, y: real, z: real, size: real)

  /** The two random values a recycled star draws for its new x and y. */
  datatype RespawnDraw = RespawnDraw(x: real, y: real)

  predicate ValidStarDraw(d: StarDraw)
  {
    InUnit(d.x) && InUnit(d.y) && InUnit(d.z) && InUnit(d.size)
  }

  function NewStar(d: StarDraw, maxDraw: real): Star
  {
    Star((d.x - 0.5) * FieldWidth, (d.y - 0.5) * FieldWidth, d.z * maxDraw, d.size * 2.0 + 0.5)
  }

  /** The square the stars' x and y are drawn in, centred on the axis. */
  predicate InBand(v: real)
  {
    -FieldWidth / 2.0 <= v < FieldWidth / 2.0
  }

  /** A star as `init` can make it: inside the band, between the camera plane and the far
      plane, with a size in [0.5, 2.5). */
  predicate InField(s: Star, maxDraw: real)
  {
    InBand(s.x) && InBand(s.y) && 0.0 <= s.z < maxDraw && 0.5 <= s.size < 2.5
  }

  /** `init`'s stars: star i comes from draw record i and, for draws in [0, 1) and a
      positive far plane, lies in the field. */
  function NewStars(ds: seq<StarDraw>, maxDraw: real): (ss: seq<Star>)
    ensures |ss| == |ds|
    ensures forall i :: 0 <= i < |ds| ==> ss[i] == NewStar(ds[i], maxDraw)
    ensures maxDraw > 0.0 ==>
      forall i :: 0 <= i < |ds| && ValidStarDraw(ds[i]) ==> InField(ss[i], maxDraw)
  {
    NewStarsInField(ds, maxDraw);
    seq(|ds|, i requires 0 <= i < |ds| => NewStar(ds[i], maxDraw))
  }

  lemma NewStarsInField(ds: seq<StarDraw>, maxDraw: real)
    ensures maxDraw > 0.0 ==>
      forall i :: 0 <= i < |ds| && ValidStarDraw(ds[i]) ==> InField(NewStar(ds[i], maxDraw), maxDraw)
  {
    if maxDraw > 0.0 {
      forall i | 0 <= i < |ds| && ValidStarDraw(ds[i])
        ensures InField(NewStar(ds[i], maxDraw), maxDraw)
      {
        NewStarInField(ds[i], maxDraw);
      }
    }
  }

  /** A freshly created star lies in the field, between the camera plane and the far plane,
      with a size in [0.5, 2.5). */
  lemma NewStarInField(d: StarDraw, maxDraw: real)
    requires ValidStarDraw(d) && maxDraw > 0.0
    ensures InField(NewStar(d, maxDraw), maxDraw)
  {
    var s := NewStar(d, maxDraw);
    assert s.z == d.z * maxDraw;
    assert d.z * maxDraw >= 0.0;
    assert maxDraw - d.z * maxDraw == (1.0 - d.z) * maxDraw > 0.0;
  }

  /** One star's update: move closer by half the game speed; once at or behind the camera,
      jump back to the far plane at a new x and y, keeping its size. */
  function Drift(s: Star, speed: real, maxDraw: real, d: RespawnDraw): Star
  {
    var z := s.z - speed * Parallax;
    if z <= 0.0 then Star((d.x - 0.5) * FieldWidth, (d.y - 0.5) * FieldWidth, maxDraw, s.size)
    else s.(z := z)
  }

  /** One update of the whole field: star i drifts with respawn draw i, so every star keeps
      its size; with a non-negative speed, stars no farther than the far plane end up in
      view. */
  function DriftAll(ss: seq<Star>, speed: real, maxDraw: real, ds: seq<RespawnDraw>): (r: seq<Star>)
    requires |ds| == |ss|
    ensures |r| == |ss|
    ensures forall i :: 0 <= i < |ss| ==> r[i] == Drift(ss[i], speed, maxDraw, ds[i])
    ensures forall i :: 0 <= i < |ss| ==> r[i].size == ss[i].size
    ensures speed >= 0.0 && maxDraw > 0.0 && (forall i :: 0 <= i < |ss| ==> ss[i].z <= maxDraw)
      ==> InView(r, maxDraw)
  {
    seq(|ss|, i requires 0 <= i < |ss| => Drift(ss[i], speed, maxDraw, ds[i]))
  }

  /** A star is recycled exactly when its drift reaches the camera plane; otherwise it keeps
      x, y and size and moves by exactly half the game speed. */
  lemma DriftRecyclesAtCamera(s: Star, speed: real, maxDraw: real, d: RespawnDraw)
    ensures var r := Drift(s, speed, maxDraw, d);
      r.size == s.size
      && (s.z - speed * Parallax <= 0.0 ==>
            r.z == maxDraw && r.x == (d.x - 0.5) * FieldWidth && r.y == (d.y - 0.5) * FieldWidth
            && (InUnit(d.x) && InUnit(d.y) ==> InBand(r.x) && InBand(r.y)))
      && (s.z - speed * Parallax > 0.0 ==> r.x == s.x && r.y == s.y && r.z == s.z - speed / 2.0)
  {
  }

  /** Every star lies in front of the camera and no farther than the far plane. */
  predicate InView(ss: seq<Star>, maxDraw: real)
  {
    forall i :: 0 <= i < |ss| ==> 0.0 < ss[i].z <= maxDraw
  }

  /** Stars never come out from behind the far plane: with a non-negative speed, one update
      puts every star that was no farther than the far plane strictly in front of the camera. */
  lemma DriftBringsIntoView(ss: seq<Star>, speed: real, maxDraw: real, ds: seq<RespawnDraw>)
    requires |ds| == |ss| && speed >= 0.0 && maxDraw > 0.0
    requires forall i :: 0 <= i < |ss| ==> ss[i].z <= maxDraw
    ensures InView(DriftAll(ss, speed, maxDraw, ds), maxDraw)
  {
  }

  /** From the first update on, every star of a fresh field is in view. */
  lemma FieldInViewAfterFirstUpdate(draws: seq<StarDraw>, speed: real, maxDraw: real, ds: seq<RespawnDraw>)
    requires forall i :: 0 <= i < |draws| ==> ValidStarDraw(draws[i])
    requires |ds| == |draws| && speed >= 0.0 && maxDraw > 0.0
    ensures InView(DriftAll(NewStars(draws, maxDraw), speed, maxDraw, ds), maxDraw)
  {
  }

  class Starfield {
    var count: int
    var stars: seq<Star>

    /** `new Starfield(game, count)`: `draws` holds the values `init` draws, one record per star. */
    constructor (count0: int, draws: seq<StarDraw>, maxDraw: real)
      requires |draws| == if count0 > 0 then count0 else 0
      ensures count == count0
      ensures stars == NewStars(draws, maxDraw)
    {
      count := count0;
      stars := [];
      new;
      Init(draws, maxDraw);
    }

    /** `init()`: appends `count` new stars. */
    method Init(draws: seq<StarDraw>, maxDraw: real)
      requires |draws| == if count > 0 then count else 0
      modifies this`stars
      ensures stars == old(stars) + NewStars(draws, maxDraw)
    {
      var i := 0;
      while i < count
        invariant 0 <= i <= |draws|
        invariant stars == old(stars) + NewStars(draws[..i], maxDraw)
      {
        var d := draws[i];
        ghost var before := stars;
        stars := stars + [Star((d.x - 0.5) * FieldWidth, (d.y - 0.5) * FieldWidth, d.z * maxDraw, d.size * 2.0 + 0.5)];
        assert before == old(stars) + NewStars(draws[..i], maxDraw);
        assert stars[|stars| - 1] == NewStar(d, maxDraw);
        assert draws[..i + 1] == draws[..i] + [d];
        assert NewStars(draws[..i + 1], maxDraw) == NewStars(draws[..i], maxDraw) + [NewStar(d, maxDraw)];
        assert stars == old(stars) + NewStars(draws[..i], maxDraw) + [NewStar(d, maxDraw)];
        i := i + 1;
      }
      assert draws[..i] == draws;
    }

    /** `update()`: `ds[i]` holds the draws star i would use if it is recycled. */
    method Update(speed: real, maxDraw: real, ds: seq<RespawnDraw>)
      requires |ds| == |stars|
      modifies this`stars
      ensures stars == DriftAll(old(stars), speed, maxDraw, ds)
    {
      var i := 0;
      while i < |stars|
        invariant 0 <= i <= |stars| == |old(stars)|
        invariant stars[..i] == DriftAll(old(stars)[..i], speed, maxDraw, ds[..i])
        invariant stars[i..] == old(stars)[i..]
      {
        var star := stars[i];
        star := star.(z := star.z - speed * Parallax);
        if star.z <= 0.0 {
          star := star.(z := maxDraw);
          star := star.(x := (ds[i].x - 0.5) * FieldWidth);
          star := star.(y := (ds[i].y - 0.5) * FieldWidth);
        }
        stars := stars[i := star];
        i := i + 1;
      }
    }
  }
}
