/**
 * SpriteManager.js: the table of named sprite frames cut from one sheet, the guard chain that
 * decides whether a frame can be drawn, the timer-to-frame arithmetic of animated sprites and
 * the dimension lookup. The canvas calls themselves and the asynchronous sheet load are not
 * modelled; `loaded` is the flag the load sets.
 */
module Sprites {
  import opened Options

  /** A rectangle of the sprite sheet, in sheet pixels. */
  datatype Frame = Frame(x: int, y: int, w: int, h: int)

  datatype Dimensions = Dimensions(width: int, height: int)

  /** Why `drawSprite` declined to draw, or the frame it drew. */
  datatype DrawOutcome = NotLoaded | UnknownSprite | MissingFrame | Drawn(frame: Frame)

  const PlayerShip: string := "player_ship"

  /** The two frames of the player ship: idle, then engine thrust. */
  const PlayerShipFrames: seq<Frame> := [Frame(10, 0, 100, 140), Frame(110, 0, 95, 140)]

  /** JavaScript's `%` on integers: the remainder takes the sign of the dividend. */
  function TruncRem(a: int, n: int): (r: int)
    requires n > 0
    ensures a >= 0 ==> 0 <= r < n
    ensures a < 0 ==> -n < r <= 0
    ensures (a - r) % n == 0
  {
    RemCongruent(a, n);
    if a >= 0 then a % n else -((-a) % n)
  }

  /** Both branches of the truncating remainder differ from the dividend by a multiple of n. */
  lemma RemCongruent(a: int, n: int)
    requires n > 0
    ensures a >= 0 ==> (a - a % n) % n == 0
    ensures a < 0 ==> (a + (-a) % n) % n == 0
  {
    if a >= 0 {
      assert a == (a / n) * n + a % n;
      MulMod(a / n, n);
    } else {
      var b := -a;
      assert b == (b / n) * n + b % n;
      assert a + b % n == (-(b / n)) * n;
      MulMod(-(b / n), n);
    }
  }

  /** A multiple of n leaves no remainder. */
  lemma MulMod(q: int, n: int)
    requires n > 0
    ensures (q * n) % n == 0
  {
    ModUnique(q * n, n, q, 0);
  }

  /** The frame `drawAnimatedSprite` asks for: `floor(timer / frameSpeed) % frameCount`.
      A zero `frameSpeed` or an empty sprite makes the JavaScript value NaN, which names no
      frame; that case is `None`. */
  function AnimationFrame(timer: real, frameSpeed: real, frameCount: nat): (r: Option<int>)
    ensures r.None? <==> frameSpeed == 0.0 || frameCount == 0
    ensures r.Some? ==> -(frameCount as int) < r.value < frameCount
  {
    if frameSpeed == 0.0 || frameCount == 0 then None
    else Some(TruncRem((timer / frameSpeed).Floor, frameCount))
  }

  /** With a non-negative timer and a positive frame speed the animated frame is a valid index. */
  lemma AnimationFrameInRange(timer: real, frameSpeed: real, frameCount: nat)
    requires timer >= 0.0 && frameSpeed > 0.0 && frameCount > 0
    ensures AnimationFrame(timer, frameSpeed, frameCount).Some?
    ensures 0 <= AnimationFrame(timer, frameSpeed, frameCount).value < frameCount
  {
    assert timer / frameSpeed >= 0.0;
  }

  /** Shifting by a whole number keeps the fractional part, so the floor moves by that number. */
  lemma FloorShift(x: real, n: int)
    ensures (x + n as real).Floor == x.Floor + n
  {
  }

  /** Dividing a shifted timer: one full cycle adds exactly `frameCount` to the quotient. */
  lemma CycleQuotient(timer: real, frameSpeed: real, c: real)
    requires frameSpeed > 0.0
    ensures (timer + frameSpeed * c) / frameSpeed == timer / frameSpeed + c
  {
    var q := (timer + frameSpeed * c) / frameSpeed;
    assert q * frameSpeed == timer + frameSpeed * c;
    assert (timer / frameSpeed) * frameSpeed == timer;
    assert (q - timer / frameSpeed - c) * frameSpeed == 0.0;
  }

  /** A multiple of a positive number strictly between its negation and itself is zero. */
  lemma SmallMultiple(k: int, n: int)
    requires n > 0 && -n < k * n < n
    ensures k == 0
  {
    assert k >= 1 ==> k * n == n + (k - 1) * n >= n;
    assert k <= -1 ==> k * n == -n + (k + 1) * n <= -n;
  }

  /** Euclidean division is unique: any decomposition with an in-range remainder is it. */
  lemma ModUnique(x: int, n: int, q: int, r: int)
    requires n > 0 && 0 <= r < n && x == q * n + r
    ensures x % n == r
  {
    var k := q - x / n;
    assert x == (x / n) * n + x % n;
    assert k * n == q * n - (x / n) * n;
    SmallMultiple(k, n);
  }

  lemma ModShift(a: int, n: int)
    requires a >= 0 && n > 0
    ensures (a + n) % n == a % n
  {
    assert a == (a / n) * n + a % n;
    ModUnique(a + n, n, a / n + 1, a % n);
  }

  /** The animation repeats: timers one full cycle (`frameSpeed * frameCount` ticks) apart
      select the same frame, for non-negative timers. */
  lemma {:induction false} AnimationPeriodic(timer: real, frameSpeed: real, frameCount: nat)
    requires timer >= 0.0 && frameSpeed > 0.0 && frameCount > 0
    ensures AnimationFrame(timer + frameSpeed * frameCount as real, frameSpeed, frameCount)
         == AnimationFrame(timer, frameSpeed, frameCount)
  {
    CycleQuotient(timer, frameSpeed, frameCount as real);
    FloorShift(timer / frameSpeed, frameCount);
    var a := (timer / frameSpeed).Floor;
    assert a >= 0 by { assert timer / frameSpeed >= 0.0; }
    ModShift(a, frameCount);
  }

  /** The restriction to non-negative timers matters: with a timer of -1, a frame speed of 1
      and two frames, the remainder is -1 (no frame), while one cycle later it is frame 1. */
  lemma NegativeTimerBreaksPeriod()
    ensures AnimationFrame(-1.0, 1.0, 2) == Some(-1)
    ensures AnimationFrame(-1.0 + 1.0 * 2.0, 1.0, 2) == Some(1)
  {
    assert (-1.0 / 1.0).Floor == -1;
    assert ((-1.0 + 2.0) / 1.0).Floor == 1;
  }

  class SpriteManager {
    /** Set once the sprite sheet image has loaded. */
    var loaded: bool
    /** Sprite name to its frames; an index into the sequence is a frame number. */
    var sprites: map<string, seq<Frame>>

    constructor ()
      ensures !loaded
      ensures sprites == map[PlayerShip := PlayerShipFrames]
    {
      loaded := false;
      sprites := map[];
      new;
      DefineSprites();
    }

    /** `defineSprites()`: registers the player ship and nothing else. */
    method DefineSprites()
      modifies this`sprites
      ensures sprites == old(sprites)[PlayerShip := PlayerShipFrames]
    {
      sprites := sprites[PlayerShip := [Frame(10, 0, 100, 140), Frame(110, 0, 95, 140)]];
    }

    /** The guard chain of `drawSprite`: the sheet must be loaded, then the sprite known, then
        the frame present, checked in that order; only then is the frame drawn (result true). */
    function DrawSprite(name: string, frame: int): (r: DrawOutcome)
      reads this
      ensures r == NotLoaded <==> !loaded
      ensures r == UnknownSprite <==> loaded && name !in sprites
      ensures r == MissingFrame <==> loaded && name in sprites && !(0 <= frame < |sprites[name]|)
      ensures r.Drawn? <==> loaded && name in sprites && 0 <= frame < |sprites[name]|
      ensures r.Drawn? ==> r.frame == sprites[name][frame]
    {
      if !loaded then NotLoaded
      else if name !in sprites then UnknownSprite
      else if !(0 <= frame < |sprites[name]|) then MissingFrame
      else Drawn(sprites[name][frame])
    }

    /** `drawAnimatedSprite`: an unknown sprite is refused before the load check; otherwise the
        timer picks the frame and `drawSprite` decides. */
    function DrawAnimatedSprite(name: string, timer: real, frameSpeed: real): (r: DrawOutcome)
      reads this
      ensures r == UnknownSprite <==> name !in sprites
      ensures r == NotLoaded <==> name in sprites && !loaded
      ensures name in sprites ==>
        var f := AnimationFrame(timer, frameSpeed, |sprites[name]|);
        (r == MissingFrame <==> loaded && !(f.Some? && 0 <= f.value < |sprites[name]|))
        && (r.Drawn? <==> loaded && f.Some? && 0 <= f.value < |sprites[name]|)
        && (r.Drawn? ==> r.frame == sprites[name][f.value])
    {
      if name !in sprites then UnknownSprite
      else
        match AnimationFrame(timer, frameSpeed, |sprites[name]|)
        case None => if !loaded then NotLoaded else MissingFrame
        case Some(f) => DrawSprite(name, f)
    }

    /** `getSpriteDimensions(name, frame)`: the frame's width and height, or none when the
        sprite or the frame is missing. */
    function GetSpriteDimensions(name: string, frame: int): (r: Option<Dimensions>)
      reads this
      ensures r.None? <==> name !in sprites || !(0 <= frame < |sprites[name]|)
      ensures r.Some? ==> r.value == Dimensions(sprites[name][frame].w, sprites[name][frame].h)
    {
      if name !in sprites || !(0 <= frame < |sprites[name]|) then None
      else Some(Dimensions(sprites[name][frame].w, sprites[name][frame].h))
    }
  }

  /** Once loaded, a frame has dimensions exactly when it can be drawn, and the dimensions are
      those of the frame drawn. */
  lemma DimensionsAgreeWithDraw(m: SpriteManager, name: string, frame: int)
    requires m.loaded
    ensures m.GetSpriteDimensions(name, frame).Some? <==> m.DrawSprite(name, frame).Drawn?
    ensures m.DrawSprite(name, frame).Drawn? ==>
      m.GetSpriteDimensions(name, frame).value
        == Dimensions(m.DrawSprite(name, frame).frame.w, m.DrawSprite(name, frame).frame.h)
  {
  }

  /** Once loaded, a known non-empty sprite animated with a non-negative timer and a positive
      frame speed is always drawn, at frame `floor(timer / frameSpeed) mod frameCount`. */
  lemma AnimatedSpriteDrawn(m: SpriteManager, name: string, timer: real, frameSpeed: real)
    requires m.loaded && name in m.sprites && |m.sprites[name]| > 0
    requires timer >= 0.0 && frameSpeed > 0.0
    ensures m.DrawAnimatedSprite(name, timer, frameSpeed).Drawn?
    ensures m.DrawAnimatedSprite(name, timer, frameSpeed).frame
         == m.sprites[name][(timer / frameSpeed).Floor % |m.sprites[name]|]
  {
    AnimationFrameInRange(timer, frameSpeed, |m.sprites[name]|);
    assert (timer / frameSpeed).Floor >= 0 by { assert timer / frameSpeed >= 0.0; }
  }

  /** The player ship, once the sheet is loaded, alternates idle and thrust frames; its
      dimensions are 100 by 140 for the idle frame and 95 by 140 for the thrust frame. */
  lemma PlayerShipTable(m: SpriteManager)
    requires m.sprites == map[PlayerShip := PlayerShipFrames]
    ensures m.GetSpriteDimensions(PlayerShip, 0) == Some(Dimensions(100, 140))
    ensures m.GetSpriteDimensions(PlayerShip, 1) == Some(Dimensions(95, 140))
    ensures m.GetSpriteDimensions(PlayerShip, 2).None?
    ensures forall name :: name != PlayerShip ==> m.GetSpriteDimensions(name, 0).None?
  {
  }
}
