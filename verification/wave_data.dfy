/**
 * WaveData.js: the fixed three-wave timeline. Each wave lists enemy and obstacle entries,
 * each with the tick (`delay`) on which the scheduler spawns it, its depth, its type and
 * its lateral position. The timeline is built once from random draws; here the draws are
 * inputs, grouped per generated entry in the order the source consumes them.
 */
module WaveData {
  import opened Enemies
  import opened RandomDraws

  datatype ObstacleKind = Crystal | Pyramid

  /** One timeline entry. */
  datatype Entry<K> = Entry(delay: int, z: real, kind: K, x: real)

  type EnemyEntry = Entry<EnemyKind>
  type ObstacleEntry = Entry<ObstacleKind>

  datatype Wave = Wave(enemies: seq<EnemyEntry>, obstacles: seq<ObstacleEntry>)

  /** The three values one generated enemy draws: its type, then the spread and the
      centre-bias factor of its x. */
  datatype EnemyDraw = EnemyDraw(kind: real, spread: real, bias: real)

  /** The two values one generated obstacle draws: its type, then its x offset. */
  datatype ObstacleDraw = ObstacleDraw(kind: real, offset: real)

  /** All draws the timeline consumes, per wave and per list. */
  datatype Draws = Draws(
    enemies1: seq<EnemyDraw>, obstacles1: seq<ObstacleDraw>,
    enemies2: seq<EnemyDraw>, obstacles2: seq<ObstacleDraw>,
    enemies3: seq<EnemyDraw>, obstacles3: seq<ObstacleDraw>)

  /** Every entry starts this deep. */
  const SpawnZ: real := 7000.0
  /** Width of the band an x is drawn from before any centre bias. */
  const SpawnSpread: real := 3000.0

  predicate ValidEnemyDraws(ds: seq<EnemyDraw>)
  {
    forall i :: 0 <= i < |ds| ==> InUnit(ds[i].kind) && InUnit(ds[i].spread) && InUnit(ds[i].bias)
  }

  predicate ValidObstacleDraws(ds: seq<ObstacleDraw>)
  {
    forall i :: 0 <= i < |ds| ==> InUnit(ds[i].kind) && InUnit(ds[i].offset)
  }

  /** Draws of the right number, each in [0, 1), as `Math.random` provides. */
  predicate ValidDraws(d: Draws)
  {
    |d.enemies1| == 10 && |d.obstacles1| == 50
    && |d.enemies2| == 20 && |d.obstacles2| == 60
    && |d.enemies3| == 30 && |d.obstacles3| == 80
    && ValidEnemyDraws(d.enemies1) && ValidEnemyDraws(d.enemies2) && ValidEnemyDraws(d.enemies3)
    && ValidObstacleDraws(d.obstacles1) && ValidObstacleDraws(d.obstacles2)
    && ValidObstacleDraws(d.obstacles3)
  }

  /** The type a generated enemy of wave `wave` (1, 2 or 3) gets from its type draw. */
  function DrawnEnemyKind(wave: nat, r: real): EnemyKind
    requires InUnit(r)
  {
    if wave == 1 then (if r > 0.5 then Diver else Weaver)
    else if wave == 2 then (if r > 0.3 then Sweeper else Diver)
    else [Diver, Weaver, Sweeper][(r * 3.0).Floor]
  }

  function DrawnObstacleKind(r: real, crystalAbove: real): ObstacleKind
  {
    if r > crystalAbove then Crystal else Pyramid
  }

  /** A generated enemy's x: a spread over the band, scaled by half a second draw (centre bias). */
  function BiasedX(d: EnemyDraw): real
  {
    (d.spread - 0.5) * SpawnSpread * (d.bias * 0.5)
  }

  function ObstacleX(d: ObstacleDraw): real
  {
    (d.offset - 0.5) * SpawnSpread
  }

  /** Generated enemies: entry i is due at `first + gap * i`, so a positive gap gives strictly
      increasing delays; every x lies strictly within 750 of the centre line. */
  function GeneratedEnemies(wave: nat, ds: seq<EnemyDraw>, first: int, gap: int): (r: seq<EnemyEntry>)
    requires ValidEnemyDraws(ds)
    ensures |r| == |ds|
    ensures forall i :: 0 <= i < |ds| ==> r[i].delay == first + gap * i && r[i].z == SpawnZ
    ensures gap > 0 ==> StrictlyIncreasing(r)
    ensures forall i :: 0 <= i < |r| ==> -750.0 < r[i].x < 750.0
  {
    var r := seq(|ds|, i requires 0 <= i < |ds| =>
      Entry(first + gap * i, SpawnZ, DrawnEnemyKind(wave, ds[i].kind), BiasedX(ds[i])));
    AllBiasedXBound(ds);
    if gap > 0 then SpacedIncreasing(r, first, gap); r else r
  }

  /** Generated obstacles: entry i is due at `gap * i`, so a positive gap gives strictly
      increasing delays; for offsets in [0, 1) every x lies in [-1500, 1500). */
  function GeneratedObstacles(ds: seq<ObstacleDraw>, gap: int, crystalAbove: real): (r: seq<ObstacleEntry>)
    ensures |r| == |ds|
    ensures forall i :: 0 <= i < |ds| ==> r[i].delay == gap * i && r[i].z == SpawnZ
    ensures gap > 0 ==> StrictlyIncreasing(r)
    ensures ValidObstacleDraws(ds) ==> forall i :: 0 <= i < |r| ==> -1500.0 <= r[i].x < 1500.0
  {
    var r := seq(|ds|, i requires 0 <= i < |ds| =>
      Entry(gap * i, SpawnZ, DrawnObstacleKind(ds[i].kind, crystalAbove), ObstacleX(ds[i])));
    if gap > 0 then SpacedIncreasing(r, 0, gap); r else r
  }

  /** The four hand-placed openers of wave 1. */
  const Wave1Openers: seq<EnemyEntry> := [
    Entry(60, SpawnZ, Diver, 0.0), Entry(120, SpawnZ, Diver, -200.0),
    Entry(180, SpawnZ, Diver, 200.0), Entry(300, SpawnZ, Weaver, 0.0)]

  /** `WAVES`: intro, ramp-up and chaos, with 14/50, 20/60 and 30/80 enemy/obstacle entries. */
  function Timeline(d: Draws): (ws: seq<Wave>)
    requires ValidDraws(d)
    ensures |ws| == 3
    ensures |ws[0].enemies| == 14 && |ws[0].obstacles| == 50
    ensures |ws[1].enemies| == 20 && |ws[1].obstacles| == 60
    ensures |ws[2].enemies| == 30 && |ws[2].obstacles| == 80
  {
    [ Wave(Wave1Openers + GeneratedEnemies(1, d.enemies1, 400, 100),
           GeneratedObstacles(d.obstacles1, 30, 0.7)),
      Wave(GeneratedEnemies(2, d.enemies2, 60, 80), GeneratedObstacles(d.obstacles2, 25, 0.6)),
      Wave(GeneratedEnemies(3, d.enemies3, 60, 60), GeneratedObstacles(d.obstacles3, 20, 0.5)) ]
  }

  predicate StrictlyIncreasing<K>(s: seq<Entry<K>>)
  {
    forall i, j :: 0 <= i < j < |s| ==> s[i].delay < s[j].delay
  }

  /** Every entry of every wave starts at depth 7000. */
  lemma AllAtSpawnDepth(d: Draws)
    requires ValidDraws(d)
    ensures forall w, i :: 0 <= w < 3 && 0 <= i < |Timeline(d)[w].enemies| ==> Timeline(d)[w].enemies[i].z == SpawnZ
    ensures forall w, i :: 0 <= w < 3 && 0 <= i < |Timeline(d)[w].obstacles| ==> Timeline(d)[w].obstacles[i].z == SpawnZ
  {
    var ws := Timeline(d);
    forall w, i | 0 <= w < 3 && 0 <= i < |ws[w].enemies|
      ensures ws[w].enemies[i].z == SpawnZ
    {
      if w == 0 && i >= 4 {
        assert ws[0].enemies[i] == GeneratedEnemies(1, d.enemies1, 400, 100)[i - 4];
      }
    }
  }

  /** The delay formulas: wave 1 enemies at 60, 120, 180, 300 then every 100 ticks from 400,
      obstacles every 30 ticks from 0; wave 2 enemies every 80 ticks from 60, obstacles every
      25 from 0; wave 3 enemies every 60 ticks from 60, obstacles every 20 from 0. */
  lemma DelaySchedule(d: Draws)
    requires ValidDraws(d)
    ensures var ws := Timeline(d);
      (forall i :: 0 <= i < 14 ==> ws[0].enemies[i].delay == if i < 4 then [60, 120, 180, 300][i] else 400 + 100 * (i - 4))
      && (forall i :: 0 <= i < 50 ==> ws[0].obstacles[i].delay == 30 * i)
      && (forall i :: 0 <= i < 20 ==> ws[1].enemies[i].delay == 60 + 80 * i)
      && (forall i :: 0 <= i < 60 ==> ws[1].obstacles[i].delay == 25 * i)
      && (forall i :: 0 <= i < 30 ==> ws[2].enemies[i].delay == 60 + 60 * i)
      && (forall i :: 0 <= i < 80 ==> ws[2].obstacles[i].delay == 20 * i)
  {
    var ws := Timeline(d);
    forall i | 4 <= i < 14
      ensures ws[0].enemies[i].delay == 400 + 100 * (i - 4)
    {
      assert ws[0].enemies[i] == GeneratedEnemies(1, d.enemies1, 400, 100)[i - 4];
    }
  }

  /** Entries spaced by a positive gap come in strictly increasing delay order. */
  lemma SpacedIncreasing<K>(s: seq<Entry<K>>, first: int, gap: int)
    requires gap > 0
    requires forall i :: 0 <= i < |s| ==> s[i].delay == first + gap * i
    ensures StrictlyIncreasing(s)
  {
    forall i, j | 0 <= i < j < |s|
      ensures s[i].delay < s[j].delay
    {
      GapsAdd(gap, i, j - i);
    }
  }

  /** Moving `k >= 1` entries along a positive gap adds at least one gap. */
  lemma {:induction false} GapsAdd(gap: int, i: int, k: int)
    requires gap > 0 && k >= 1
    ensures gap * (i + k) >= gap * i + gap
    decreases k
  {
    if k > 1 {
      GapsAdd(gap, i, k - 1);
      assert gap * (i + k) == gap * (i + k - 1) + gap;
    }
  }

  /** Within every list of every wave the delays strictly increase, so the last entry of a
      list carries its largest delay. */
  lemma DelaysIncrease(d: Draws)
    requires ValidDraws(d)
    ensures forall w :: 0 <= w < 3 ==>
      StrictlyIncreasing(Timeline(d)[w].enemies) && StrictlyIncreasing(Timeline(d)[w].obstacles)
  {
    var ws := Timeline(d);
    DelaySchedule(d);
    SpacedIncreasing(ws[0].obstacles, 0, 30);
    SpacedIncreasing(ws[1].enemies, 60, 80);
    SpacedIncreasing(ws[1].obstacles, 0, 25);
    SpacedIncreasing(ws[2].enemies, 60, 60);
    SpacedIncreasing(ws[2].obstacles, 0, 20);
    var e := ws[0].enemies;
    forall i, j | 0 <= i < j < |e|
      ensures e[i].delay < e[j].delay
    {
    }
  }

  /** Entry types by wave: wave 1 enemies are divers or weavers, wave 2 sweepers or divers,
      wave 3 any of the three; no enemy is untyped. Obstacles are crystals or pyramids. */
  lemma KindsByWave(d: Draws)
    requires ValidDraws(d)
    ensures var ws := Timeline(d);
      (forall i :: 0 <= i < |ws[0].enemies| ==> ws[0].enemies[i].kind in {Diver, Weaver})
      && (forall i :: 0 <= i < |ws[1].enemies| ==> ws[1].enemies[i].kind in {Sweeper, Diver})
      && (forall i :: 0 <= i < |ws[2].enemies| ==> ws[2].enemies[i].kind in {Diver, Weaver, Sweeper})
  {
    var ws := Timeline(d);
    forall i | 4 <= i < 14
      ensures ws[0].enemies[i].kind in {Diver, Weaver}
    {
      assert ws[0].enemies[i] == GeneratedEnemies(1, d.enemies1, 400, 100)[i - 4];
    }
    forall i | 0 <= i < 30
      ensures ws[2].enemies[i].kind in {Diver, Weaver, Sweeper}
    {
      var r := d.enemies3[i].kind;
      assert 0.0 <= r * 3.0 < 3.0;
      assert 0 <= (r * 3.0).Floor < 3;
    }
  }

  /** A generated enemy's x lies strictly within 750 of the centre line. */
  lemma BiasedXBound(d: EnemyDraw)
    requires InUnit(d.spread) && InUnit(d.bias)
    ensures -750.0 < BiasedX(d) < 750.0
  {
    var a := (d.spread - 0.5) * SpawnSpread;
    var b := d.bias * 0.5;
    assert -1500.0 <= a < 1500.0 && 0.0 <= b < 0.5;
    NonNegProduct(1500.0 - a, b);
    NonNegProduct(a + 1500.0, b);
    assert a * b <= 1500.0 * b < 750.0;
    assert BiasedX(d) == a * b;
  }

  lemma AllBiasedXBound(ds: seq<EnemyDraw>)
    requires ValidEnemyDraws(ds)
    ensures forall i :: 0 <= i < |ds| ==> -750.0 < BiasedX(ds[i]) < 750.0
  {
    forall i | 0 <= i < |ds|
      ensures -750.0 < BiasedX(ds[i]) < 750.0
    {
      BiasedXBound(ds[i]);
    }
  }

  lemma NonNegProduct(x: real, y: real)
    requires x >= 0.0 && y >= 0.0
    ensures x * y >= 0.0
  {
  }

  /** Every enemy of every wave spawns with |x| < 750, every obstacle with x in [-1500, 1500). */
  lemma SpawnXBounds(d: Draws)
    requires ValidDraws(d)
    ensures forall w, i :: 0 <= w < 3 && 0 <= i < |Timeline(d)[w].enemies| ==>
      -750.0 < Timeline(d)[w].enemies[i].x < 750.0
    ensures forall w, i :: 0 <= w < 3 && 0 <= i < |Timeline(d)[w].obstacles| ==>
      -1500.0 <= Timeline(d)[w].obstacles[i].x < 1500.0
  {
    var ws := Timeline(d);
    forall w, i | 0 <= w < 3 && 0 <= i < |ws[w].enemies|
      ensures -750.0 < ws[w].enemies[i].x < 750.0
    {
      if w == 0 && i >= 4 {
        assert ws[0].enemies[i] == GeneratedEnemies(1, d.enemies1, 400, 100)[i - 4];
        BiasedXBound(d.enemies1[i - 4]);
      } else if w == 1 {
        BiasedXBound(d.enemies2[i]);
      } else if w == 2 {
        BiasedXBound(d.enemies3[i]);
      }
    }
  }

  /** The first obstacle of every wave is scheduled for tick 0, and the last entries of the
      lists are due at 1300/1470, 1580/1475 and 1800/1580 (enemies/obstacles) in waves 1-3. */
  lemma FirstAndLastDelays(d: Draws)
    requires ValidDraws(d)
    ensures var ws := Timeline(d);
      ws[0].obstacles[0].delay == 0 && ws[1].obstacles[0].delay == 0 && ws[2].obstacles[0].delay == 0
      && ws[0].enemies[13].delay == 1300 && ws[0].obstacles[49].delay == 1470
      && ws[1].enemies[19].delay == 1580 && ws[1].obstacles[59].delay == 1475
      && ws[2].enemies[29].delay == 1800 && ws[2].obstacles[79].delay == 1580
  {
    DelaySchedule(d);
  }
}
