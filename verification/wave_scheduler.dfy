/**
 * WaveManager.js: the wave scheduler. Between waves it runs a three-second countdown; during
 * a wave it advances a tick counter, spawns every timeline entry whose delay equals the
 * counter into a free pool slot, and ends the wave once the timeline is exhausted (plus a
 * buffer) and no enemy is left. Past the last wave it starts over, faster.
 *
 * The game object the scheduler drives is modelled as `GameSession`: the members the
 * scheduler touches (base speed, wave counter, completion flag, spawn tracker, the enemy and
 * obstacle pools as slot values) and a counter per audio cue in place of the audio calls.
 */
module WaveScheduler {
  import opened Options
  import opened Enemies
  import opened WaveData

  /** What an obstacle slot holds; a claimed slot is active and records its entry. */
  datatype ObstacleState = ObstacleState(active: bool, z: real, kind: ObstacleKind, x: real)

  /** Idle updates counted before the next wave starts (three seconds at 60 ticks). */
  const WaveDelay: int := 180
  /** Ticks past the last scheduled entry before a wave may complete. */
  const CompletionBuffer: int := 200
  /** Base-speed increase each time the timeline starts over. */
  const SpeedBump: real := 5.0

  /** The idle ticks on which the countdown cue plays (2, 1.5, 1 and 0.5 seconds left). */
  predicate CountdownTick(t: int)
  {
    t == 60 || t == 90 || t == 120 || t == 150
  }

  /** The slot value a pooled enemy holds after `spawn(entry.z, entry.type, entry.x)`; the
      reset it performs is Enemies.SpawnResetsSlot. */
  function EnemyFromEntry(c: EnemyEntry, floorY: real): (e: EnemyState)
    ensures e.active && e.z == c.z && e.kind == c.kind && e.x == c.x && e.startX == c.x
    ensures e.y == floorY && e.timer == 0
  {
    SpawnResetsSlot(c.z, c.kind, c.x, 0.0, floorY);
    Spawned(c.z, c.kind, Some(c.x), 0.0, floorY)
  }

  function ObstacleFromEntry(c: ObstacleEntry): ObstacleState
  {
    ObstacleState(true, c.z, c.kind, c.x)
  }

  // ----- counting -----

  function Min(a: int, b: int): int
  {
    if a <= b then a else b
  }

  /** Number of `true` flags. */
  function Trues(bs: seq<bool>): (n: nat)
    ensures n <= |bs|
  {
    if bs == [] then 0 else (if bs[0] then 1 else 0) + Trues(bs[1..])
  }

  lemma {:induction false} TruesSet(bs: seq<bool>, i: int, b: bool)
    requires 0 <= i < |bs|
    ensures Trues(bs[i := b]) == Trues(bs) - (if bs[i] then 1 else 0) + (if b then 1 else 0)
  {
    if i > 0 {
      TruesSet(bs[1..], i - 1, b);
      assert bs[i := b][1..] == bs[1..][i - 1 := b];
    } else {
      assert bs[i := b][1..] == bs[1..];
    }
  }

  /** All flags are set exactly when the count reaches the length. */
  lemma {:induction false} TruesFull(bs: seq<bool>)
    ensures Trues(bs) == |bs| <==> forall i :: 0 <= i < |bs| ==> bs[i]
  {
    if bs != [] {
      TruesFull(bs[1..]);
      if forall i :: 0 <= i < |bs| ==> bs[i] {
        assert forall i :: 0 <= i < |bs[1..]| ==> bs[1..][i] by {
          forall i | 0 <= i < |bs[1..]| ensures bs[1..][i] { assert bs[1..][i] == bs[i + 1]; }
        }
      }
      if Trues(bs) == |bs| {
        forall i | 0 <= i < |bs| ensures bs[i] {
          if i > 0 { assert bs[i] == bs[1..][i - 1]; }
        }
      }
    }
  }

  /** Setting flags never lowers the count, and setting one more strictly raises it. */
  lemma {:induction false} TruesMonotone(a: seq<bool>, b: seq<bool>)
    requires |a| == |b| && forall i :: 0 <= i < |a| ==> a[i] ==> b[i]
    ensures Trues(a) <= Trues(b)
    ensures (exists i :: 0 <= i < |a| && !a[i] && b[i]) ==> Trues(a) < Trues(b)
  {
    if a != [] {
      assert forall i :: 0 <= i < |a[1..]| ==> a[1..][i] == a[i + 1] && b[1..][i] == b[i + 1];
      TruesMonotone(a[1..], b[1..]);
      if exists i :: 0 <= i < |a| && !a[i] && b[i] {
        var i :| 0 <= i < |a| && !a[i] && b[i];
        if i > 0 {
          assert !a[1..][i - 1] && b[1..][i - 1];
        }
      }
    }
  }

  function EnemyFlags(p: seq<EnemyState>): (bs: seq<bool>)
    ensures |bs| == |p| && forall i :: 0 <= i < |p| ==> bs[i] == p[i].active
  {
    seq(|p|, i requires 0 <= i < |p| => p[i].active)
  }

  function ObstacleFlags(p: seq<ObstacleState>): (bs: seq<bool>)
    ensures |bs| == |p| && forall i :: 0 <= i < |p| ==> bs[i] == p[i].active
  {
    seq(|p|, i requires 0 <= i < |p| => p[i].active)
  }

  /** How many entries of a list fall due on tick `t`. */
  function DueCount<K>(s: seq<Entry<K>>, t: int): (n: nat)
    ensures n <= |s|
  {
    if s == [] then 0 else (if s[0].delay == t then 1 else 0) + DueCount(s[1..], t)
  }

  lemma {:induction false} DueCountSnoc<K>(s: seq<Entry<K>>, c: Entry<K>, t: int)
    ensures DueCount(s + [c], t) == DueCount(s, t) + (if c.delay == t then 1 else 0)
  {
    if s != [] {
      DueCountSnoc(s[1..], c, t);
      assert (s + [c])[1..] == s[1..] + [c];
    }
  }

  /** The slots a pass changed, as the multiset of their new values. */
  ghost function Changed<T>(before: seq<T>, after: seq<T>): multiset<T>
    requires |after| == |before|
  {
    if before == [] then multiset{}
    else (if after[0] != before[0] then multiset{after[0]} else multiset{}) + Changed(before[1..], after[1..])
  }

  lemma {:induction false} ChangedNone<T>(s: seq<T>)
    ensures Changed(s, s) == multiset{}
  {
    if s != [] {
      ChangedNone(s[1..]);
    }
  }

  /** Filling one untouched slot with a new value adds exactly that value to the changes. */
  lemma {:induction false} ChangedSet<T>(before: seq<T>, after: seq<T>, i: nat, v: T)
    requires |after| == |before| && i < |before|
    requires after[i] == before[i] && v != before[i]
    ensures Changed(before, after[i := v]) == Changed(before, after) + multiset{v}
  {
    if i > 0 {
      ChangedSet(before[1..], after[1..], i - 1, v);
      assert after[i := v][1..] == after[1..][i - 1 := v];
    } else {
      assert after[i := v][1..] == after[1..];
    }
  }

  /** A claim into a free slot while the pool still has room extends the claimed prefix of
      the due values by the new value. */
  lemma ClaimExtendsPrefix<T>(orig: seq<T>, pool: seq<T>, s: nat, v: T, due: seq<T>, free: int)
    requires |pool| == |orig| && s < |orig| && pool[s] == orig[s] && v != orig[s]
    requires |due| < free
    requires Changed(orig, pool) == multiset(due[..Min(|due|, free)])
    ensures Changed(orig, pool[s := v]) == multiset((due + [v])[..Min(|due| + 1, free)])
  {
    ChangedSet(orig, pool, s, v);
    assert due[..|due|] == due;
    assert (due + [v])[..|due| + 1] == due + [v];
  }

  /** Once the pool is full, a further due value lies past the claimed prefix. */
  lemma FullKeepsPrefix<T>(c: multiset<T>, due: seq<T>, v: T, free: int)
    requires 0 <= free <= |due|
    requires c == multiset(due[..Min(|due|, free)])
    ensures c == multiset((due + [v])[..Min(|due| + 1, free)])
  {
    assert (due + [v])[..free] == due[..free];
  }

  /** The slot values the due entries of a list spawn, one per due entry, in list order. */
  function DueEnemies(es: seq<EnemyEntry>, t: int, floorY: real): (r: seq<EnemyState>)
    ensures |r| == DueCount(es, t)
  {
    if es == [] then []
    else
      var init := es[..|es| - 1];
      DueCountSnoc(init, es[|es| - 1], t);
      assert init + [es[|es| - 1]] == es;
      DueEnemies(init, t, floorY)
      + (if es[|es| - 1].delay == t then [EnemyFromEntry(es[|es| - 1], floorY)] else [])
  }

  /** The same for obstacle entries. */
  function DueObstacles(es: seq<ObstacleEntry>, t: int): (r: seq<ObstacleState>)
    ensures |r| == DueCount(es, t)
  {
    if es == [] then []
    else
      var init := es[..|es| - 1];
      DueCountSnoc(init, es[|es| - 1], t);
      assert init + [es[|es| - 1]] == es;
      DueObstacles(init, t) + (if es[|es| - 1].delay == t then [ObstacleFromEntry(es[|es| - 1])] else [])
  }

  /** A list with no entry at delay `t` has nothing due then. */
  lemma {:induction false} NoneDue<K>(s: seq<Entry<K>>, t: int)
    requires forall i :: 0 <= i < |s| ==> s[i].delay != t
    ensures DueCount(s, t) == 0
  {
    if s != [] {
      assert forall i :: 0 <= i < |s[1..]| ==> s[1..][i] == s[i + 1];
      NoneDue(s[1..], t);
    }
  }

  /** With strictly increasing delays at most one entry of a list is due on any tick, so a
      tick makes at most one spawn attempt per list. */
  lemma {:induction false} AtMostOneDue<K>(s: seq<Entry<K>>, t: int)
    requires StrictlyIncreasing(s)
    ensures DueCount(s, t) <= 1
  {
    if s != [] {
      if s[0].delay == t {
        forall i | 0 <= i < |s[1..]|
          ensures s[1..][i].delay != t
        {
          assert s[1..][i] == s[i + 1];
        }
        NoneDue(s[1..], t);
      } else {
        AtMostOneDue(s[1..], t);
      }
    }
  }

  // ----- completion -----

  /** The delay of a list's final entry, or 0 for an empty list. */
  function LastDelay<K>(s: seq<Entry<K>>): int
  {
    if |s| > 0 then s[|s| - 1].delay else 0
  }

  function LastEventTime(w: Wave): int
  {
    var e := LastDelay(w.enemies);
    var o := LastDelay(w.obstacles);
    if e >= o then e else o
  }

  /** Reading the final entry is reading the maximum, because delays increase. */
  lemma LastDelayIsMax<K>(s: seq<Entry<K>>)
    requires StrictlyIncreasing(s)
    ensures forall i :: 0 <= i < |s| ==> s[i].delay <= LastDelay(s)
  {
  }

  /** The completion condition: the tick is past every scheduled entry plus the buffer and no
      enemy slot is active; obstacles play no part. */
  ghost predicate Completes(w: Wave, t: int, enemies: seq<EnemyState>)
  {
    t > LastEventTime(w) + CompletionBuffer && !(exists i :: 0 <= i < |enemies| && enemies[i].active)
  }

  /** A wave never completes before every one of its entries has had its spawn tick and the
      buffer after it has run out. */
  lemma CompletionAfterEveryEntry(w: Wave, t: int, enemies: seq<EnemyState>)
    requires StrictlyIncreasing(w.enemies) && StrictlyIncreasing(w.obstacles)
    requires Completes(w, t, enemies)
    ensures forall i :: 0 <= i < |w.enemies| ==> w.enemies[i].delay + CompletionBuffer < t
    ensures forall i :: 0 <= i < |w.obstacles| ==> w.obstacles[i].delay + CompletionBuffer < t
    ensures forall i :: 0 <= i < |enemies| ==> !enemies[i].active
  {
    LastDelayIsMax(w.enemies);
    LastDelayIsMax(w.obstacles);
  }

  /** The three waves can complete no earlier than ticks 1671, 1781 and 2001. */
  lemma TimelineCompletionTimes(d: Draws)
    requires ValidDraws(d)
    ensures LastEventTime(Timeline(d)[0]) == 1470
    ensures LastEventTime(Timeline(d)[1]) == 1580
    ensures LastEventTime(Timeline(d)[2]) == 1800
  {
    FirstAndLastDelays(d);
  }

  /** The scheduler only compares the delays with ticks from 1 on, so the delay-0 opener of
      every obstacle list is never spawned: removing it changes no spawn decision. Within a
      list at most one entry is due per tick. */
  lemma {:induction false} OpeningObstacleNeverDue(d: Draws, w: nat, t: int)
    requires ValidDraws(d) && w < 3 && t >= 1
    ensures Timeline(d)[w].obstacles[0].delay == 0
    ensures DueCount(Timeline(d)[w].obstacles, t) == DueCount(Timeline(d)[w].obstacles[1..], t)
    ensures DueCount(Timeline(d)[w].obstacles, t) <= 1 && DueCount(Timeline(d)[w].enemies, t) <= 1
  {
    FirstAndLastDelays(d);
    DelaysIncrease(d);
    AtMostOneDue(Timeline(d)[w].obstacles, t);
    AtMostOneDue(Timeline(d)[w].enemies, t);
  }

  // ----- the inter-wave countdown -----

  /** What one idle update does to the countdown timer. */
  datatype IdleOutcome = IdleOutcome(timer: int, cue: bool, starts: bool)

  function IdleTick(t: int): IdleOutcome
  {
    var t1 := t + 1;
    IdleOutcome(if t1 > WaveDelay then 0 else t1, CountdownTick(t1), t1 > WaveDelay)
  }

  /** The countdown timer after `k` idle updates from `t`. */
  function IdleRun(t: int, k: nat): int
    decreases k
  {
    if k == 0 then t else IdleRun(IdleTick(t).timer, k - 1)
  }

  lemma {:induction false} IdleRunCounts(t: int, k: nat)
    requires 0 <= t && t + k <= WaveDelay
    ensures IdleRun(t, k) == t + k
    decreases k
  {
    if k > 0 {
      IdleRunCounts(t + 1, k - 1);
    }
  }

  /** From a zero timer, idle update number n (counting from 1) plays the countdown cue
      exactly when n is 60, 90, 120 or 150, and starts the next wave exactly when n is 181,
      which also brings the timer back to 0. */
  lemma CountdownSchedule(n: nat)
    requires 1 <= n <= WaveDelay + 1
    ensures IdleTick(IdleRun(0, n - 1)).cue <==> n in {60, 90, 120, 150}
    ensures IdleTick(IdleRun(0, n - 1)).starts <==> n == WaveDelay + 1
    ensures n == WaveDelay + 1 ==> IdleRun(0, n) == 0
  {
    IdleRunCounts(0, n - 1);
    if n == WaveDelay + 1 {
      assert IdleRun(0, n) == IdleRun(IdleTick(IdleRun(0, n - 1)).timer, 0) by {
        IdleRunShift(0, n - 1);
      }
    }
  }

  lemma {:induction false} IdleRunShift(t: int, k: nat)
    ensures IdleRun(t, k + 1) == IdleTick(IdleRun(t, k)).timer
    decreases k
  {
    if k > 0 {
      IdleRunShift(IdleTick(t).timer, k - 1);
    }
  }

  // ----- state snapshots -----

  datatype GameState = GameState(
    baseSpeed: real, wave: int, waveComplete: bool, enemiesSpawnedInWave: int,
    enemies: seq<EnemyState>, obstacles: seq<ObstacleState>,
    waveStartCues: nat, countdownCues: nat, waveCompleteCues: nat)

  datatype ManagerState = ManagerState(
    currentWaveIndex: int, frameTimer: int, isWaveActive: bool, waveComplete: bool,
    waveDelayTimer: int, hasPlayedWaveComplete: bool)

  /** The scheduler state `startWave(index)` leaves with `count` waves in the timeline. */
  function Started(m: ManagerState, index: int, count: nat): ManagerState
  {
    m.(currentWaveIndex := if index >= count then 0 else index, frameTimer := 0,
       isWaveActive := true, waveComplete := false, hasPlayedWaveComplete := false)
  }

  /** The game state `startWave(index)` leaves: faster after a wrap, tracker reset, cue played. */
  function StartedGame(g: GameState, index: int, count: nat): GameState
  {
    g.(baseSpeed := g.baseSpeed + (if index >= count then SpeedBump else 0.0),
       enemiesSpawnedInWave := 0, waveStartCues := g.waveStartCues + 1)
  }

  /** Starting a wave past the end of the timeline wraps to the first wave and raises the base
      speed by exactly 5; an in-range index is kept and leaves the speed alone. Either way the
      wave is active with a zero tick counter and cleared flags, and nothing else changes. */
  lemma StartWaveWraps(m: ManagerState, g: GameState, index: int, count: nat)
    requires index >= 0
    ensures var m' := Started(m, index, count);
      var g' := StartedGame(g, index, count);
      (index >= count ==> m'.currentWaveIndex == 0 && g'.baseSpeed == g.baseSpeed + 5.0)
      && (index < count ==> m'.currentWaveIndex == index && g'.baseSpeed == g.baseSpeed)
      && 0 <= m'.currentWaveIndex && (count > 0 ==> m'.currentWaveIndex < count)
      && m'.frameTimer == 0 && m'.isWaveActive && !m'.waveComplete && !m'.hasPlayedWaveComplete
      && m'.waveDelayTimer == m.waveDelayTimer && g'.enemiesSpawnedInWave == 0
      && g'.waveStartCues == g.waveStartCues + 1
      && g'.enemies == g.enemies && g'.obstacles == g.obstacles && g'.wave == g.wave
  {
  }

  /** The enemy pool after one tick's spawn pass over `entries` (the first `j` of them): every
      slot is either untouched or was free and now holds a due entry; the number of claimed
      slots is the number of due entries, capped by the number of free slots; and the claimed
      slots hold exactly the first that-many due entries, each once (a request that finds no
      free slot is dropped, and once the pool is full every later request finds none). */
  ghost predicate EnemiesClaimed(before: seq<EnemyState>, after: seq<EnemyState>,
                                 entries: seq<EnemyEntry>, j: nat, t: int, floorY: real)
    requires j <= |entries|
  {
    |after| == |before|
    && (forall i :: 0 <= i < |before| ==>
          after[i] == before[i] || (!before[i].active && IsEnemySpawn(after[i], entries, j, t, floorY)))
    && Trues(EnemyFlags(after))
       == Trues(EnemyFlags(before)) + Min(DueCount(entries[..j], t), |before| - Trues(EnemyFlags(before)))
    && Changed(before, after)
       == multiset(DueEnemies(entries[..j], t, floorY)[..Min(DueCount(entries[..j], t), |before| - Trues(EnemyFlags(before)))])
  }

  ghost predicate IsEnemySpawn(v: EnemyState, entries: seq<EnemyEntry>, j: nat, t: int, floorY: real)
  {
    exists k :: 0 <= k < j && k < |entries| && entries[k].delay == t && v == EnemyFromEntry(entries[k], floorY)
  }

  /** The same for the obstacle pool. */
  ghost predicate ObstaclesClaimed(before: seq<ObstacleState>, after: seq<ObstacleState>,
                                   entries: seq<ObstacleEntry>, j: nat, t: int)
    requires j <= |entries|
  {
    |after| == |before|
    && (forall i :: 0 <= i < |before| ==>
          after[i] == before[i] || (!before[i].active && IsObstacleSpawn(after[i], entries, j, t)))
    && Trues(ObstacleFlags(after))
       == Trues(ObstacleFlags(before)) + Min(DueCount(entries[..j], t), |before| - Trues(ObstacleFlags(before)))
    && Changed(before, after)
       == multiset(DueObstacles(entries[..j], t)[..Min(DueCount(entries[..j], t), |before| - Trues(ObstacleFlags(before)))])
  }

  ghost predicate IsObstacleSpawn(v: ObstacleState, entries: seq<ObstacleEntry>, j: nat, t: int)
  {
    exists k :: 0 <= k < j && k < |entries| && entries[k].delay == t && v == ObstacleFromEntry(entries[k])
  }

  /** With nothing due, a spawn pass changes no slot. */
  lemma NothingDueNothingClaimed(before: seq<EnemyState>, after: seq<EnemyState>,
                                 entries: seq<EnemyEntry>, t: int, floorY: real)
    requires EnemiesClaimed(before, after, entries, |entries|, t, floorY)
    requires DueCount(entries, t) == 0
    ensures after == before
  {
    assert entries[..|entries|] == entries;
    forall i | 0 <= i < |before| && after[i] != before[i]
      ensures !before[i].active && after[i].active
    {
    }
    TruesMonotone(EnemyFlags(before), EnemyFlags(after));
  }

  class GameSession {
    var baseSpeed: real
    var wave: int
    var waveComplete: bool
    var enemiesSpawnedInWave: int
    var enemies: seq<EnemyState>
    var obstacles: seq<ObstacleState>
    /** How often each audio cue has played. */
    var waveStartCues: nat
    var countdownCues: nat
    var waveCompleteCues: nat

    function Snapshot(): GameState
      reads this
    {
      GameState(baseSpeed, wave, waveComplete, enemiesSpawnedInWave, enemies, obstacles,
                waveStartCues, countdownCues, waveCompleteCues)
    }

    constructor (enemyPool: seq<EnemyState>, obstaclePool: seq<ObstacleState>, baseSpeed0: real, wave0: int)
      ensures Snapshot() == GameState(baseSpeed0, wave0, false, 0, enemyPool, obstaclePool, 0, 0, 0)
    {
      baseSpeed, wave, waveComplete, enemiesSpawnedInWave := baseSpeed0, wave0, false, 0;
      enemies, obstacles := enemyPool, obstaclePool;
      waveStartCues, countdownCues, waveCompleteCues := 0, 0, 0;
    }

    /** `getInactiveEnemy()`: an inactive slot, or none when every slot is active. */
    method GetInactiveEnemy() returns (r: Option<nat>)
      ensures r.Some? ==> r.value < |enemies| && !enemies[r.value].active
      ensures r.None? ==> forall i :: 0 <= i < |enemies| ==> enemies[i].active
    {
      var i := 0;
      while i < |enemies|
        invariant 0 <= i <= |enemies|
        invariant forall k :: 0 <= k < i ==> enemies[k].active
      {
        if !enemies[i].active {
          return Some(i);
        }
        i := i + 1;
      }
      return None;
    }

    /** `getInactiveObstacle()`: an inactive slot, or none when every slot is active. */
    method GetInactiveObstacle() returns (r: Option<nat>)
      ensures r.Some? ==> r.value < |obstacles| && !obstacles[r.value].active
      ensures r.None? ==> forall i :: 0 <= i < |obstacles| ==> obstacles[i].active
    {
      var i := 0;
      while i < |obstacles|
        invariant 0 <= i <= |obstacles|
        invariant forall k :: 0 <= k < i ==> obstacles[k].active
      {
        if !obstacles[i].active {
          return Some(i);
        }
        i := i + 1;
      }
      return None;
    }

    /** `enemies.some(e => e.active)`. */
    method AnyEnemyActive() returns (b: bool)
      ensures b <==> exists i :: 0 <= i < |enemies| && enemies[i].active
    {
      b := false;
      var i := 0;
      while i < |enemies|
        invariant 0 <= i <= |enemies|
        invariant !b <==> forall k :: 0 <= k < i ==> !enemies[k].active
      {
        if enemies[i].active {
          b := true;
        }
        i := i + 1;
      }
    }
  }

  class WaveManager {
    const game: GameSession
    /** The `WAVES` timeline. */
    const waves: seq<Wave>
    var currentWaveIndex: int
    var frameTimer: int
    var isWaveActive: bool
    var waveComplete: bool
    var waveDelayTimer: int
    var hasPlayedWaveComplete: bool

    function State(): ManagerState
      reads this
    {
      ManagerState(currentWaveIndex, frameTimer, isWaveActive, waveComplete, waveDelayTimer,
                   hasPlayedWaveComplete)
    }

    /** The wave index always names a wave, the tick counter never goes negative and the
        countdown stays within its three seconds. */
    predicate Valid()
      reads this
    {
      |waves| > 0 && 0 <= currentWaveIndex < |waves| && frameTimer >= 0
      && 0 <= waveDelayTimer <= WaveDelay
    }

    /** `new WaveManager(game)` over the timeline built from `draws`. */
    constructor (game0: GameSession, draws: Draws)
      requires ValidDraws(draws)
      ensures game == game0 && waves == Timeline(draws)
      ensures State() == ManagerState(0, 0, false, false, 0, false)
      ensures Valid()
    {
      game := game0;
      waves := Timeline(draws);
      currentWaveIndex, frameTimer, isWaveActive := 0, 0, false;
      waveComplete, waveDelayTimer, hasPlayedWaveComplete := false, 0, false;
    }

    /** `start()`: begins the first wave. */
    method Start()
      requires Valid()
      modifies this, game
      ensures Valid()
      ensures State() == Started(old(State()), 0, |waves|)
      ensures game.Snapshot() == StartedGame(old(game.Snapshot()), 0, |waves|)
      ensures currentWaveIndex == 0 && frameTimer == 0 && isWaveActive
    {
      currentWaveIndex := 0;
      StartWave(0);
    }

    /** `startWave(index)`; every caller passes a non-negative index. */
    method StartWave(index: int)
      requires Valid() && index >= 0
      modifies this, game
      ensures Valid()
      ensures State() == Started(old(State()), index, |waves|)
      ensures game.Snapshot() == StartedGame(old(game.Snapshot()), index, |waves|)
    {
      var i := index;
      if i >= |waves| {
        currentWaveIndex := 0;
        game.baseSpeed := game.baseSpeed + SpeedBump;
        i := 0;
      }
      currentWaveIndex := i;
      frameTimer := 0;
      isWaveActive := true;
      waveComplete := false;
      hasPlayedWaveComplete := false;
      game.enemiesSpawnedInWave := 0;
      game.waveStartCues := game.waveStartCues + 1;
    }

    /** `update()`; `floorY` is the configured floor height given to spawned enemies. */
    method Update(floorY: real)
      requires Valid()
      modifies this, game
      ensures Valid()
      // between waves: count down, cue, and start the next wave after 180 idle ticks
      ensures !old(isWaveActive) ==>
        var o := IdleTick(old(waveDelayTimer));
        var m := old(State()).(waveDelayTimer := o.timer);
        var g := old(game.Snapshot()).(countdownCues := old(game.countdownCues) + (if o.cue then 1 else 0));
        if o.starts then
          State() == Started(m, old(currentWaveIndex) + 1, |waves|)
          && game.Snapshot() == StartedGame(g, old(currentWaveIndex) + 1, |waves|)
        else State() == m && game.Snapshot() == g
      // during a wave: one tick, the spawn passes, then the completion check
      ensures old(isWaveActive) ==>
        var t := old(frameTimer) + 1;
        var w := waves[old(currentWaveIndex)];
        var done := Completes(w, t, game.enemies);
        EnemiesClaimed(old(game.enemies), game.enemies, w.enemies, |w.enemies|, t, floorY)
        && ObstaclesClaimed(old(game.obstacles), game.obstacles, w.obstacles, |w.obstacles|, t)
        && State() == old(State()).(frameTimer := t, isWaveActive := !done,
                                    hasPlayedWaveComplete := old(hasPlayedWaveComplete) || done)
        && game.Snapshot() == old(game.Snapshot()).(
             enemies := game.enemies, obstacles := game.obstacles,
             wave := old(game.wave) + (if done then 1 else 0),
             waveComplete := old(game.waveComplete) || done,
             waveCompleteCues := old(game.waveCompleteCues) + (if done && !old(hasPlayedWaveComplete) then 1 else 0))
    {
      if !isWaveActive {
        Countdown();
      } else {
        Tick(floorY);
      }
    }

    /** The in-wave branch of `update`: one tick, both spawn passes, the completion check. */
    method Tick(floorY: real)
      requires Valid() && isWaveActive
      modifies this, game
      ensures Valid()
      ensures var t := old(frameTimer) + 1;
        var w := waves[old(currentWaveIndex)];
        var done := Completes(w, t, game.enemies);
        EnemiesClaimed(old(game.enemies), game.enemies, w.enemies, |w.enemies|, t, floorY)
        && ObstaclesClaimed(old(game.obstacles), game.obstacles, w.obstacles, |w.obstacles|, t)
        && State() == old(State()).(frameTimer := t, isWaveActive := !done,
                                    hasPlayedWaveComplete := old(hasPlayedWaveComplete) || done)
        && game.Snapshot() == old(game.Snapshot()).(
             enemies := game.enemies, obstacles := game.obstacles,
             wave := old(game.wave) + (if done then 1 else 0),
             waveComplete := old(game.waveComplete) || done,
             waveCompleteCues := old(game.waveCompleteCues) + (if done && !old(hasPlayedWaveComplete) then 1 else 0))
    {
      ghost var m0 := State();
      ghost var g0 := game.Snapshot();
      var waveData := waves[currentWaveIndex];
      frameTimer := frameTimer + 1;
      SpawnEnemies(waveData.enemies, floorY);
      SpawnObstacles(waveData.obstacles);
      assert State() == m0.(frameTimer := m0.frameTimer + 1);
      assert game.Snapshot() == g0.(enemies := game.enemies, obstacles := game.obstacles);
      CheckCompletion(waveData);
    }

    /** The inter-wave branch of `update`. */
    method Countdown()
      requires Valid() && !isWaveActive
      modifies this, game
      ensures Valid()
      ensures var o := IdleTick(old(waveDelayTimer));
        var m := old(State()).(waveDelayTimer := o.timer);
        var g := old(game.Snapshot()).(countdownCues := old(game.countdownCues) + (if o.cue then 1 else 0));
        if o.starts then
          State() == Started(m, old(currentWaveIndex) + 1, |waves|)
          && game.Snapshot() == StartedGame(g, old(currentWaveIndex) + 1, |waves|)
        else State() == m && game.Snapshot() == g
    {
      waveDelayTimer := waveDelayTimer + 1;
      if waveDelayTimer == 60 || waveDelayTimer == 90 || waveDelayTimer == 120 || waveDelayTimer == 150 {
        game.countdownCues := game.countdownCues + 1;
      }
      if waveDelayTimer > WaveDelay {
        waveDelayTimer := 0;
        StartWave(currentWaveIndex + 1);
      }
    }

    /** The completion check at the end of an active `update`. */
    method CheckCompletion(w: Wave)
      modifies this`isWaveActive, this`hasPlayedWaveComplete, game`waveComplete, game`wave, game`waveCompleteCues
      ensures var done := Completes(w, frameTimer, game.enemies);
        isWaveActive == (old(isWaveActive) && !done)
        && hasPlayedWaveComplete == (old(hasPlayedWaveComplete) || done)
        && game.wave == old(game.wave) + (if done then 1 else 0)
        && game.waveComplete == (old(game.waveComplete) || done)
        && game.waveCompleteCues == old(game.waveCompleteCues) + (if done && !old(hasPlayedWaveComplete) then 1 else 0)
    {
      var lastEnemyTime := if |w.enemies| > 0 then w.enemies[|w.enemies| - 1].delay else 0;
      var lastObsTime := if |w.obstacles| > 0 then w.obstacles[|w.obstacles| - 1].delay else 0;
      var lastEventTime := if lastEnemyTime >= lastObsTime then lastEnemyTime else lastObsTime;

      if frameTimer > lastEventTime + CompletionBuffer {
        var anyActive := game.AnyEnemyActive();
        if !anyActive {
          isWaveActive := false;
          game.waveComplete := true;
          game.wave := game.wave + 1;
          if !hasPlayedWaveComplete {
            game.waveCompleteCues := game.waveCompleteCues + 1;
            hasPlayedWaveComplete := true;
          }
        }
      }
    }

    /** The enemy `forEach` of `update`: each entry due on the current tick asks the pool for
        a free slot and spawns into it if there is one. */
    method SpawnEnemies(entries: seq<EnemyEntry>, floorY: real)
      modifies game`enemies
      ensures EnemiesClaimed(old(game.enemies), game.enemies, entries, |entries|, frameTimer, floorY)
    {
      var j := 0;
      NothingClaimedYet(game.enemies, entries, frameTimer, floorY);
      while j < |entries|
        invariant 0 <= j <= |entries|
        invariant EnemiesClaimed(old(game.enemies), game.enemies, entries, j, frameTimer, floorY)
      {
        var cfg := entries[j];
        ghost var before := game.enemies;
        if frameTimer == cfg.delay {
          var slot := game.GetInactiveEnemy();
          if slot.Some? {
            var s := slot.value;
            game.enemies := game.enemies[s := Spawned(cfg.z, cfg.kind, Some(cfg.x), 0.0, floorY)];
            ClaimEnemyStep(old(game.enemies), before, game.enemies, entries, j, frameTimer, floorY, s);
          } else {
            TruesFull(EnemyFlags(before));
            KeepEnemyStep(old(game.enemies), before, entries, j, frameTimer, floorY);
          }
        } else {
          KeepEnemyStep(old(game.enemies), before, entries, j, frameTimer, floorY);
        }
        j := j + 1;
      }
    }

    /** The obstacle `forEach` of `update`. */
    method SpawnObstacles(entries: seq<ObstacleEntry>)
      modifies game`obstacles
      ensures ObstaclesClaimed(old(game.obstacles), game.obstacles, entries, |entries|, frameTimer)
    {
      var j := 0;
      NoObstacleClaimedYet(game.obstacles, entries, frameTimer);
      while j < |entries|
        invariant 0 <= j <= |entries|
        invariant ObstaclesClaimed(old(game.obstacles), game.obstacles, entries, j, frameTimer)
      {
        var cfg := entries[j];
        ghost var before := game.obstacles;
        if frameTimer == cfg.delay {
          var slot := game.GetInactiveObstacle();
          if slot.Some? {
            var s := slot.value;
            game.obstacles := game.obstacles[s := ObstacleState(true, cfg.z, cfg.kind, cfg.x)];
            ClaimObstacleStep(old(game.obstacles), before, game.obstacles, entries, j, frameTimer, s);
          } else {
            TruesFull(ObstacleFlags(before));
            KeepObstacleStep(old(game.obstacles), before, entries, j, frameTimer);
          }
        } else {
          KeepObstacleStep(old(game.obstacles), before, entries, j, frameTimer);
        }
        j := j + 1;
      }
    }
  }

  /** Looking at one more entry adds one to the due count exactly when it is due. */
  lemma DueStep<K>(entries: seq<Entry<K>>, j: nat, t: int)
    requires j < |entries|
    ensures entries[..j + 1] == entries[..j] + [entries[j]]
    ensures DueCount(entries[..j + 1], t) == DueCount(entries[..j], t) + (if entries[j].delay == t then 1 else 0)
  {
    assert entries[..j + 1] == entries[..j] + [entries[j]];
    DueCountSnoc(entries[..j], entries[j], t);
  }

  /** Before the enemy pass looks at any entry, nothing is claimed. */
  lemma NothingClaimedYet(pool: seq<EnemyState>, entries: seq<EnemyEntry>, t: int, floorY: real)
    ensures EnemiesClaimed(pool, pool, entries, 0, t, floorY)
  {
    ChangedNone(pool);
    assert entries[..0] == [];
  }

  lemma NoObstacleClaimedYet(pool: seq<ObstacleState>, entries: seq<ObstacleEntry>, t: int)
    ensures ObstaclesClaimed(pool, pool, entries, 0, t)
  {
    ChangedNone(pool);
    assert entries[..0] == [];
  }

  /** Loop step of the enemy pass when the pool is left alone (entry not due, or no free slot). */
  lemma KeepEnemyStep(orig: seq<EnemyState>, pool: seq<EnemyState>, entries: seq<EnemyEntry>,
                      j: nat, t: int, floorY: real)
    requires j < |entries|
    requires EnemiesClaimed(orig, pool, entries, j, t, floorY)
    requires entries[j].delay == t ==> forall i :: 0 <= i < |pool| ==> pool[i].active
    ensures EnemiesClaimed(orig, pool, entries, j + 1, t, floorY)
  {
    DueStep(entries, j, t);
    forall i | 0 <= i < |orig| && pool[i] != orig[i]
      ensures IsEnemySpawn(pool[i], entries, j + 1, t, floorY)
    {
      var k :| 0 <= k < j && k < |entries| && entries[k].delay == t && pool[i] == EnemyFromEntry(entries[k], floorY);
    }
    var due := DueEnemies(entries[..j], t, floorY);
    assert entries[..j + 1][..j] == entries[..j];
    if entries[j].delay == t {
      TruesFull(EnemyFlags(pool));
      var free := |orig| - Trues(EnemyFlags(orig));
      assert Min(DueCount(entries[..j], t), free) == free;
      assert DueEnemies(entries[..j + 1], t, floorY) == due + [EnemyFromEntry(entries[j], floorY)];
      FullKeepsPrefix(Changed(orig, pool), due, EnemyFromEntry(entries[j], floorY), free);
    } else {
      assert DueEnemies(entries[..j + 1], t, floorY) == due;
    }
  }

  /** Loop step of the enemy pass when the due entry claims free slot `s`. */
  lemma ClaimEnemyStep(orig: seq<EnemyState>, pool: seq<EnemyState>, pool': seq<EnemyState>,
                       entries: seq<EnemyEntry>, j: nat, t: int, floorY: real, s: nat)
    requires j < |entries| && entries[j].delay == t
    requires EnemiesClaimed(orig, pool, entries, j, t, floorY)
    requires s < |pool| && !pool[s].active
    requires pool' == pool[s := EnemyFromEntry(entries[j], floorY)]
    ensures EnemiesClaimed(orig, pool', entries, j + 1, t, floorY)
  {
    DueStep(entries, j, t);
    forall i | 0 <= i < |orig| && pool'[i] != orig[i]
      ensures !orig[i].active && IsEnemySpawn(pool'[i], entries, j + 1, t, floorY)
    {
      if i == s {
        assert pool[s] == orig[s];
        assert entries[j].delay == t && pool'[i] == EnemyFromEntry(entries[j], floorY);
      } else {
        var k :| 0 <= k < j && k < |entries| && entries[k].delay == t && pool[i] == EnemyFromEntry(entries[k], floorY);
      }
    }
    assert EnemyFlags(pool') == EnemyFlags(pool)[s := true];
    TruesSet(EnemyFlags(pool), s, true);
    TruesFull(EnemyFlags(pool));
    var v := EnemyFromEntry(entries[j], floorY);
    var due := DueEnemies(entries[..j], t, floorY);
    assert entries[..j + 1][..j] == entries[..j];
    assert DueEnemies(entries[..j + 1], t, floorY) == due + [v];
    assert pool[s] == orig[s];
    ClaimExtendsPrefix(orig, pool, s, v, due, |orig| - Trues(EnemyFlags(orig)));
  }

  lemma KeepObstacleStep(orig: seq<ObstacleState>, pool: seq<ObstacleState>, entries: seq<ObstacleEntry>,
                         j: nat, t: int)
    requires j < |entries|
    requires ObstaclesClaimed(orig, pool, entries, j, t)
    requires entries[j].delay == t ==> forall i :: 0 <= i < |pool| ==> pool[i].active
    ensures ObstaclesClaimed(orig, pool, entries, j + 1, t)
  {
    DueStep(entries, j, t);
    forall i | 0 <= i < |orig| && pool[i] != orig[i]
      ensures IsObstacleSpawn(pool[i], entries, j + 1, t)
    {
      var k :| 0 <= k < j && k < |entries| && entries[k].delay == t && pool[i] == ObstacleFromEntry(entries[k]);
    }
    var due := DueObstacles(entries[..j], t);
    assert entries[..j + 1][..j] == entries[..j];
    if entries[j].delay == t {
      TruesFull(ObstacleFlags(pool));
      var free := |orig| - Trues(ObstacleFlags(orig));
      assert Min(DueCount(entries[..j], t), free) == free;
      assert DueObstacles(entries[..j + 1], t) == due + [ObstacleFromEntry(entries[j])];
      FullKeepsPrefix(Changed(orig, pool), due, ObstacleFromEntry(entries[j]), free);
    } else {
      assert DueObstacles(entries[..j + 1], t) == due;
    }
  }

  lemma ClaimObstacleStep(orig: seq<ObstacleState>, pool: seq<ObstacleState>, pool': seq<ObstacleState>,
                          entries: seq<ObstacleEntry>, j: nat, t: int, s: nat)
    requires j < |entries| && entries[j].delay == t
    requires ObstaclesClaimed(orig, pool, entries, j, t)
    requires s < |pool| && !pool[s].active
    requires pool' == pool[s := ObstacleFromEntry(entries[j])]
    ensures ObstaclesClaimed(orig, pool', entries, j + 1, t)
  {
    DueStep(entries, j, t);
    forall i | 0 <= i < |orig| && pool'[i] != orig[i]
      ensures !orig[i].active && IsObstacleSpawn(pool'[i], entries, j + 1, t)
    {
      if i == s {
        assert pool[s] == orig[s];
        assert entries[j].delay == t && pool'[i] == ObstacleFromEntry(entries[j]);
      } else {
        var k :| 0 <= k < j && k < |entries| && entries[k].delay == t && pool[i] == ObstacleFromEntry(entries[k]);
      }
    }
    assert ObstacleFlags(pool') == ObstacleFlags(pool)[s := true];
    TruesSet(ObstacleFlags(pool), s, true);
    TruesFull(ObstacleFlags(pool));
    var v := ObstacleFromEntry(entries[j]);
    var due := DueObstacles(entries[..j], t);
    assert entries[..j + 1][..j] == entries[..j];
    assert DueObstacles(entries[..j + 1], t) == due + [v];
    assert pool[s] == orig[s];
    ClaimExtendsPrefix(orig, pool, s, v, due, |orig| - Trues(ObstacleFlags(orig)));
  }
}
