# Northstar core, modelled in Dafny

Northstar is a pseudo-3D browser shooter. Its core is a 60-tick-per-second simulation:

- a **wave scheduler** walks a static three-wave timeline and spawns enemies and obstacles
  into pooled slots on exact ticks;
- **pooled entities** claim a slot on `spawn`, move on every `update` and release the slot
  themselves: enemies, projectiles, explosions and the ship explosion;
- a **perspective projection** maps world points to the screen, and a scrolling offset lays
  out the floor grid;
- a **particle system** and a **starfield** act as containers;
- a **sprite table** describes frames cut from one sprite sheet.

This project models that core and proves what each part promises:

- exact lifetimes of every pooled entity: the number of updates after which it releases
  its slot;
- the per-type enemy motion rules;
- the projection's null case and its round trip;
- the grid depths and lateral positions that `draw` visits;
- the in-place reverse filter of the particle list;
- the starfield's depth wrap;
- the sprite frame arithmetic;
- the timeline's shape, delays, types and spawn bands;
- the scheduler's countdown, exact-tick spawning into a bounded pool, completion rule and
  wrap-around.

## How the model is built

- **Files.** There is one module per source file:

  | module | file |
  |---|---|
  | `Enemies` | `enemy.dfy` |
  | `Projectiles` | `projectile.dfy` |
  | `Explosions` | `explosion.dfy` |
  | `ShipExplosions` | `ship_explosion.dfy` |
  | `Scene` (Game.js) | `scene.dfy` |
  | `Particles` | `particles.dfy` |
  | `Starfields` | `starfield.dfy` |
  | `Sprites` | `sprites.dfy` |
  | `WaveData` | `wave_data.dfy` |
  | `WaveScheduler` (WaveManager.js) | `wave_scheduler.dfy` |

  Two further modules are shared:
  - `FrameAnimation` holds the frame-counter automaton that Explosion.js and ShipExplosion.js
    both run. It is proved once, for any positive frame speed and frame count.
  - `Options` holds the `Option` type.
  - `RandomDraws` holds `InUnit`, the range [0, 1) of a `Math.random()` value.
- **Classes.** A source class whose methods update fields in place is a Dafny `class` with
  those fields. Each method's postcondition ties the new state, a value snapshot `State()`,
  to a pure step function of the old state (`Step`, `Spawned`, `Drift`, `Survivors`, ...).
  The lemmas about those functions carry the lifetime, invariant and termination proofs.
- **The scheduler's game.** Game.js does not define the pool, audio and wave members that
  WaveManager.js calls on the game object. `WaveScheduler.GameSession` stands for them:
  - the base speed, the wave counter, the completion flag and the spawn tracker;
  - the enemy and obstacle pools as sequences of slot values;
  - one counter per audio cue: wave start, countdown and wave complete.
- **Random values.** Every `Math.random()` value is an input in [0, 1). The draws are
  grouped per generated element, in the order the source draws them.
- **Parameters.** `CONFIG.FLOOR_Y`, `CONFIG.MAX_DRAW_DISTANCE`, `game.speed` and `player.x`
  are parameters of the operations that read them.
- **Numbers.** Positions, scales and particle life are `real`s. Tick counters are `int`s.

### Scheduler behaviour worth knowing

- **Past the last wave.** The timeline has exactly three waves and nothing is generated
  beyond them. Past the last wave the code wraps to wave 0 and raises `baseSpeed` by 5, and
  only on that wrap (WaveManager.js:18-23).
- **Delay-0 entries.** `frameTimer` is incremented before it is compared with the delays
  (WaveManager.js:58), so an entry with delay 0 is never spawned. The first obstacle of
  every wave has delay 0: `WaveScheduler.OpeningObstacleNeverDue` states this.
- **`waveComplete`.** `WaveManager`'s own `waveComplete` field is cleared by `startWave`
  but never set. Completion sets the game's flag instead, which the scheduler never clears.
  The model keeps both as written.

## Model

| member | source | states |
|---|---|---|
| FrameAnimation.InactiveStaysPut | Explosion.js:24 | A finished (inactive) counter is left alone by any number of ticks and counts no active tick. |
| FrameAnimation.ElapsedBelowLifetime | Explosion.js:26-35 | While running, `frame * frameSpeed + frameTimer` stays below `frameSpeed * maxFrames`. |
| FrameAnimation.TickAdvances | Explosion.js:26-35 | A running tick either stays running with one more elapsed tick, or uses the last tick and ends at `frame = maxFrames`, timer 0, inactive. |
| FrameAnimation.RunFromRunning | Explosion.js:26-35 | From any running state, the animation is active for exactly the remaining ticks of its lifetime. It counts them in frame/frameTimer, then rests finished. The active-tick count is min(k, remaining). |
| FrameAnimation.Lifetime | Explosion.js:26-35 | From spawn, after k ticks: active iff `k < frameSpeed * maxFrames`. While active, `frame` counts completed periods and `0 <= frameTimer < frameSpeed` with `frame * frameSpeed + frameTimer = k`. |
| Enemies.SpawnResetsSlot | Enemy.js:17-26 | `spawn(z, type, x)` with an x sets active, z, type, `timer = 0`, `y = FLOOR_Y` and `x = startX = x`. |
| Enemies.FallbackSpawnInBand | Enemy.js:27-31 | Without an x, the drawn x lies in [-1500, 1500) and is also the sweep anchor. |
| Enemies.StepMovesTowardCamera | Enemy.js:34-68 | Inactive: nothing changes. Active: z drops by exactly `speed + s` with s = 20/15/30/0 for diver/weaver/sweeper/other. The slot stays active iff the new z >= 10. Type, anchor, y and timer are kept. |
| Enemies.LateralRules | Enemy.js:42-62 | A diver or untyped enemy keeps x. A sweeper moves +10 when `startX < 0` and -10 otherwise (including 0). |
| Enemies.WeaverClosesGap | Enemy.js:46-51 | A weaver's distance to the player becomes 0.98 times the old one, and it never overshoots. |
| Enemies.InactiveStaysPut | Enemy.js:35 | An inactive enemy is a fixed point of any number of updates. |
| Enemies.ClipsWithin | Enemy.js:64-68 | With combined speed d > 0, n updates release the slot once `z - n*d < 10`. |
| Enemies.ActiveBeyondClip | Enemy.js:34-68 | With combined speed d > 0, an active enemy is still active after n updates while `z - n*d >= 10`. It is then at depth exactly `z - n*d`, with its type kept. |
| Enemies.EnemyLifetime | Enemy.js:34-68 | Exact lifetime: with combined speed d > 0, an active enemy is active after n >= 1 updates iff `z - n*d >= 10`. |
| Enemies.EventuallyReleased | Enemy.js:64-68 | With a positive combined speed, some finite number of updates releases every enemy. |
| Enemies.Enemy.constructor | Enemy.js:2-15 | A new enemy is an inactive diver at the origin with timer 0 and anchor 0. |
| Enemies.Enemy.Spawn | Enemy.js:17-32 | The new state is `Spawned(z, type, x)`, covering the given-x and the random-fallback cases. |
| Enemies.Enemy.Update | Enemy.js:34-69 | The new state is `Step` of the old one, under the game speed and player x. |
| Projectiles.StepFliesAway | Projectile.js:21-41 | Inactive: no change. Active: z rises by exactly 10 (600/60), x and y are kept, and the slot stays active iff the new z is within the draw distance. |
| Projectiles.InactiveStaysPut | Projectile.js:22 | An inactive shot is a fixed point of any number of updates. |
| Projectiles.Lifetime | Projectile.js:36-40 | After k >= 1 updates, a live shot is active iff `z + 10k <= MAX_DRAW_DISTANCE`. While active it sits at `z + 10k`. x and y never change. |
| Projectiles.EventuallyReleased | Projectile.js:36-40 | Every live shot is released after finitely many updates. |
| Projectiles.Projectile.constructor | Projectile.js:2-12 | A new projectile is inactive at the origin. |
| Projectiles.Projectile.Spawn | Projectile.js:14-19 | `spawn` sets active and the position exactly. |
| Projectiles.Projectile.Update | Projectile.js:21-41 | The new state is `Step` of the old one. |
| Explosions.RunFollowsCounter | Explosion.js:23-39 | k updates run the shared counter k ticks and keep x and y. z drops by the speed once per update that found the explosion active. |
| Explosions.ExactLifetime | Explosion.js:10-39 | From spawn: active after each of the first 15 updates and released by the 16th (4 x 4). z has dropped by `speed * min(k, 16)`. While active, `frame * 4 + frameTimer = k`. |
| Explosions.InactiveUpdateIsNoOp | Explosion.js:24 | An update of an inactive explosion changes nothing. |
| Explosions.Explosion.constructor | Explosion.js:2-12 | A new explosion is inactive at frame 0 and timer 0. |
| Explosions.Explosion.Spawn | Explosion.js:14-21 | `spawn` sets active and the position, and resets frame and timer to 0. |
| Explosions.Explosion.Update | Explosion.js:23-39 | The new state is `Step` of the old one: a counter tick plus a z drift by the game speed. |
| ShipExplosions.RunFollowsCounter | ShipExplosion.js:25-41 | k updates run the shared counter k ticks and never change x, y, z or scale. |
| ShipExplosions.ExactLifetime | ShipExplosion.js:25-41 | From spawn: active iff fewer than 30 updates (5 x 6) have run. Position and scale are kept. While active, frame is in [0, 6), so the sprite-name index `frame + 1` is in 1..6. |
| ShipExplosions.InactiveUpdateIsNoOp | ShipExplosion.js:26 | An update of an inactive ship explosion changes nothing. |
| ShipExplosions.GrowsInFinalFrames | ShipExplosion.js:55-58 | The frame scale is exactly 1.0 before frame 4, 1.2 at frame 4 and 1.3 at frame 5. It never falls from one frame to a later one. |
| ShipExplosions.SizeGrowsOverAnimation | ShipExplosion.js:55-61 | With non-negative scales, `100 * scale * frameScale * p.scale` never shrinks over the frames. Frames 4 and 5 are exactly 1.2 and 1.3 times frame 0. |
| ShipExplosions.ShipExplosion.constructor | ShipExplosion.js:2-13 | A new ship explosion is inactive with scale 1.0. |
| ShipExplosions.ShipExplosion.Spawn | ShipExplosion.js:15-23 | `spawn` sets active, the position and the scale, and resets frame and timer. |
| ShipExplosions.ShipExplosion.Update | ShipExplosion.js:25-41 | The new state is `Step` of the old one: a counter tick and nothing else. |
| Scene.Project | Game.js:44-50 | The result is null iff `z <= 0`. Otherwise `scale * z = focalLength`, and the screen point is `(cx + x * scale, cy + y * scale)`. |
| Scene.UnprojectRoundTrip | Game.js:46-49 | With a non-zero focal length and z > 0, the world x and y are recovered from `(sx - cx) / scale` and `(sy - cy) / scale`. |
| Scene.ScaleDecreasesWithDepth | Game.js:46 | With a positive focal length, the scale is positive and strictly decreasing in z. |
| Scene.AxisProjectsToCentre | Game.js:46-49 | (0, 0, z) projects to (cx, cy) for every z > 0. |
| Scene.ScrollStaysInCell | Game.js:52-58 | With `0 < speed < spacing` and offset in [0, spacing], the new offset is in (0, spacing] and equals `offset - speed` modulo the spacing. |
| Scene.LineXsFrom | Game.js:86-87 | Lateral line positions from i on: `HalfLines + 1 - i` of them, the j-th at `(i + j) * spacing`. |
| Scene.VerticalLinesAllDrawn | Game.js:82-98 | There are 21 vertical lines at `i * spacing` for i = -10..10, evenly spaced. Both clip projections exist, so every line gets its near-to-far segment. |
| Scene.AllSegmentsDrawn | Game.js:86-98 | Every lateral position gets the segment between its projections at depth 10 and 2000. |
| Scene.GridDepths | Game.js:103-104 | Every horizontal line depth visited lies in [10, 2000). |
| Scene.GridDepthsAreCandidates | Game.js:103 | Every drawn depth is `offsetZ + k * spacing` for some k >= 0. |
| Scene.GridDepthsComplete | Game.js:103-104 | Every `offsetZ + k * spacing` in [10, 2000) is drawn. |
| Scene.GridDepthsEvenlySpaced | Game.js:103 | Consecutive drawn depths are exactly one spacing apart. |
| Scene.HorizontalLinesAllDrawn | Game.js:103-120 | Every drawn depth passes the projection guard, so each depth gets exactly one segment. Segment j runs from the projection of the grid's left edge (x = -10 spacings) to that of its right edge (x = +10 spacings), at depth j on the floor. |
| Scene.Game.constructor | Game.js:10-20 | Focal length 400, centre at half the canvas, speed 20, grid size 4000, spacing 200, offset 0. |
| Scene.Game.Update | Game.js:52-58 | The new offset is `Scroll(offset, speed, spacing)`, and it stays in (0, spacing] under the band precondition. |
| Scene.Game.GridSegments | Game.js:80-120 | A frame's floor has 21 vertical segments and one horizontal segment per drawn depth. Vertical segment j joins the projections of x = (j - 10) spacings at depths 10 and 2000. Horizontal segment j joins the projections of the grid's left and right edges at drawn depth j. |
| Particles.Bursts | ParticleSystem.js:8-19 | A burst makes one particle per draw, at (x, y, z) with life 1.0 and the given color. Each velocity component is in [-25, 25) for draws in [0, 1). |
| Particles.KeptCountsSurvivors | ParticleSystem.js:23-33 | The update leaves one particle per kept position and never lengthens the list. |
| Particles.KeptIncreasing | ParticleSystem.js:23-33 | Kept positions lie in the list and strictly increase, so survivors keep their relative order. |
| Particles.SurvivorsAreKeptParticles | ParticleSystem.js:23-33 | Survivor j is the particle at kept position j, advanced once: moved by its own velocity, life lowered by 0.05, velocity and color kept. |
| Particles.KeptIffSurvives | ParticleSystem.js:28-32 | A particle is kept iff its decremented life is still positive. So each particle is visited once and removed iff `life <= 0`. |
| Particles.SurvivorsAlive | ParticleSystem.js:28-32 | After an update every remaining particle has life > 0, and the length did not grow. |
| Particles.ParticleSystem.constructor | ParticleSystem.js:2-5 | A new system has no particles. |
| Particles.ParticleSystem.CreateExplosion | ParticleSystem.js:7-20 | The push loop appends exactly `count` burst particles (none for a non-positive count) and leaves the existing ones untouched. |
| Particles.ParticleSystem.Update | ParticleSystem.js:22-34 | The reverse loop with in-place `splice` leaves exactly `Survivors(old particles)`. |
| Starfields.NewStars | Starfield.js:10-17 | `init` builds one star per draw record, star i from record i. For draws in [0, 1) and a positive MAX, every new star lies in the field: x and y in [-2000, 2000), z in [0, MAX), size in [0.5, 2.5). |
| Starfields.NewStarInField | Starfield.js:11-16 | A new star has x and y in [-2000, 2000), z in [0, MAX) and size in [0.5, 2.5). |
| Starfields.DriftAll | Starfield.js:20-30 | The update keeps the number of stars, and star i drifts with respawn draw i, keeping its size. With speed >= 0 and MAX > 0, if no star was beyond MAX, every star afterwards has z in (0, MAX]. |
| Starfields.DriftRecyclesAtCamera | Starfield.js:22-28 | A star whose new z is <= 0 is reset to z = MAX, at x = (rx - 0.5) * 4000 and y = (ry - 0.5) * 4000 from its two respawn draws. Those lie in [-2000, 2000) for draws in [0, 1). Otherwise it moves by exactly `speed * 0.5` and keeps x and y. Size never changes. |
| Starfields.DriftBringsIntoView | Starfield.js:20-30 | With speed >= 0 and MAX > 0, if every star is no farther than MAX, after one update every z is in (0, MAX]. |
| Starfields.FieldInViewAfterFirstUpdate | Starfield.js:9-30 | From the first update on, every star of a fresh field has z in (0, MAX]. |
| Starfields.Starfield.constructor | Starfield.js:2-7 | The constructor stores the count and fills the field with `NewStars`. |
| Starfields.Starfield.Init | Starfield.js:9-18 | The push loop appends exactly `count` new stars and keeps the count. |
| Starfields.Starfield.Update | Starfield.js:20-30 | The per-star loop leaves exactly `DriftAll` of the old stars. |
| Sprites.TruncRem | SpriteManager.js:118 | JavaScript's remainder: in [0, n) for a non-negative dividend, in (-n, 0] for a negative one, and it differs from the dividend by a multiple of n. |
| Sprites.AnimationFrame | SpriteManager.js:117-118 | The frame index is undefined (NaN) exactly when the frame speed is 0 or the sprite has no frames. Otherwise it lies strictly between -frameCount and frameCount. |
| Sprites.AnimationFrameInRange | SpriteManager.js:117-118 | With timer >= 0 and frame speed > 0, the index is a valid frame in [0, frameCount). |
| Sprites.AnimationPeriodic | SpriteManager.js:118 | For timer >= 0, the timers `timer` and `timer + frameSpeed * frameCount` select the same frame. |
| Sprites.NegativeTimerBreaksPeriod | SpriteManager.js:118 | Periodicity needs timer >= 0: timer -1 gives index -1 (no frame), while one cycle later gives frame 1. |
| Sprites.SpriteManager.constructor | SpriteManager.js:2-10 | A new manager is not loaded and knows exactly the player ship. |
| Sprites.SpriteManager.DefineSprites | SpriteManager.js:12-27 | Registers `player_ship` with exactly the frames {10,0,100,140} and {110,0,95,140}. |
| Sprites.SpriteManager.DrawSprite | SpriteManager.js:58-99 | The guards run in order: not loaded, unknown sprite, missing frame. Each declines (false). Otherwise the named frame is drawn (true). Each outcome is stated as an iff. |
| Sprites.SpriteManager.DrawAnimatedSprite | SpriteManager.js:112-121 | Each outcome is an iff. Unknown sprite iff the name is missing, checked before the load check. Not loaded iff the sprite is known and the sheet is not loaded. Missing frame iff known, loaded and the timer's frame index is undefined (NaN) or out of range. Drawn iff known, loaded and the index is a valid frame, and then that frame is the one drawn. |
| Sprites.SpriteManager.GetSpriteDimensions | SpriteManager.js:126-134 | Null iff the sprite or frame is missing. Otherwise the frame's w and h as width and height. |
| Sprites.DimensionsAgreeWithDraw | SpriteManager.js:126-134 | Once loaded, a frame has dimensions iff `drawSprite` would draw it, and they are that frame's. |
| Sprites.AnimatedSpriteDrawn | SpriteManager.js:112-121 | Once loaded, a known non-empty sprite with timer >= 0 and frame speed > 0 is always drawn, at `floor(timer / frameSpeed) mod frameCount`. |
| Sprites.PlayerShipTable | SpriteManager.js:16-19 | The player ship's frames measure 100x140 and 95x140. There is no third frame and no other sprite. |
| WaveData.GeneratedEnemies | WaveData.js:10-15 | Generated enemy i is due at `first + gap * i` at depth 7000. With a positive gap, the delays strictly increase. Every x lies strictly within 750 of the centre line. |
| WaveData.GeneratedObstacles | WaveData.js:19-24 | Generated obstacle i is due at `gap * i` at depth 7000. With a positive gap, the delays strictly increase. For offsets in [0, 1), every x lies in [-1500, 1500). |
| WaveData.Timeline | WaveData.js:1-65 | There are exactly three waves, with 14/50, 20/60 and 30/80 enemy/obstacle entries. |
| WaveData.AllAtSpawnDepth | WaveData.js:5-61 | Every entry of every wave has z = 7000. |
| WaveData.DelaySchedule | WaveData.js:5-58 | The delay formulas: 60, 120, 180, 300, then `400 + 100i`; `30i`; `60 + 80i`; `25i`; `60 + 60i`; `20i`. |
| WaveData.DelaysIncrease | WaveData.js:5-58 | Delays strictly increase within every list of every wave. |
| WaveData.KindsByWave | WaveData.js:5-52 | Wave 1 enemies are diver/weaver, wave 2 sweeper/diver, wave 3 diver/weaver/sweeper. The wave 3 index `floor(r * 3)` is always in range. |
| WaveData.BiasedXBound | WaveData.js:14 | A centre-biased x lies strictly within 750 of the centre. |
| WaveData.SpawnXBounds | WaveData.js:5-61 | Every enemy spawns with \|x\| < 750, every obstacle with x in [-1500, 1500). |
| WaveData.FirstAndLastDelays | WaveData.js:10-58 | Every wave's first obstacle is at delay 0. The last entries are at 1300/1470, 1580/1475 and 1800/1580. |
| WaveScheduler.EnemyFromEntry | WaveManager.js:61-68 | A spawned enemy entry is active at the entry's z, type and x, with the x also as its anchor, y at the floor and timer 0. |
| WaveScheduler.AtMostOneDue | WaveManager.js:61-78 | With increasing delays, at most one entry of a list is due on any tick. |
| WaveScheduler.LastDelayIsMax | WaveManager.js:82-83 | Reading the final entry's delay (0 for an empty list) gives the maximum delay. |
| WaveScheduler.CompletionAfterEveryEntry | WaveManager.js:82-88 | A wave completes only after every entry's tick plus 200 has passed and no enemy slot is active. Obstacles do not block completion. |
| WaveScheduler.TimelineCompletionTimes | WaveManager.js:82-86 | The last event times are 1470, 1580 and 1800, so completion comes no earlier than ticks 1671, 1781 and 2001. |
| WaveScheduler.OpeningObstacleNeverDue | WaveManager.js:58-78 | Ticks compared are >= 1, so the delay-0 first obstacle of every wave is never due. At most one enemy and one obstacle are due per tick. |
| WaveScheduler.CountdownSchedule | WaveManager.js:39-54 | From a zero timer, idle update n plays the countdown cue iff n is 60, 90, 120 or 150. It starts the next wave iff n = 181, which resets the timer to 0. |
| WaveScheduler.StartWaveWraps | WaveManager.js:17-30 | An index past the last wave wraps to 0 and raises baseSpeed by exactly 5. An in-range index is kept with the speed unchanged. The timer is reset, the wave is active, the flags and spawn tracker are cleared, and one start cue plays. |
| WaveScheduler.NothingDueNothingClaimed | WaveManager.js:61-68 | A spawn pass with nothing due leaves the enemy pool unchanged. |
| WaveScheduler.GameSession.GetInactiveEnemy | WaveManager.js:63 | Returns an inactive enemy slot, or none only when every slot is active. |
| WaveScheduler.GameSession.GetInactiveObstacle | WaveManager.js:73 | Returns an inactive obstacle slot, or none only when every slot is active. |
| WaveScheduler.GameSession.AnyEnemyActive | WaveManager.js:87 | `enemies.some(e => e.active)`: true iff some enemy slot is active. |
| WaveScheduler.WaveManager.constructor | WaveManager.js:2-10 | Index 0, timers 0, inactive, flags cleared, over `Timeline(draws)`. |
| WaveScheduler.WaveManager.Start | WaveManager.js:12-15 | `start()` leaves wave index 0, frameTimer 0 and an active wave, with the speed unchanged. |
| WaveScheduler.WaveManager.StartWave | WaveManager.js:17-36 | The new scheduler and game states are `Started`/`StartedGame` of the old ones. Wrap and speed bump are as in StartWaveWraps, and nothing else changes. |
| WaveScheduler.WaveManager.Update | WaveManager.js:38-99 | Idle: one countdown tick (cue, then start the next wave after 180). Active: frameTimer + 1, then the claimed-slot relation for both pools. Then completion iff past the last event time + 200 with no active enemy: the wave is deactivated, `game.wave` goes up by one, the game flag is set, and the completion cue plays at most once per wave. |
| WaveScheduler.WaveManager.Tick | WaveManager.js:57-98 | The in-wave branch: frameTimer + 1, then the claimed-slot relation for both pools, then the completion step on the new tick. Nothing else changes. |
| WaveScheduler.WaveManager.Countdown | WaveManager.js:39-55 | The inter-wave branch: the timer goes up by one, the cue plays on 60/90/120/150, and past 180 the timer resets and `startWave(index + 1)` runs. |
| WaveScheduler.WaveManager.CheckCompletion | WaveManager.js:82-98 | The completion branch, exactly as stated for Update. |
| WaveScheduler.WaveManager.SpawnEnemies | WaveManager.js:61-68 | Every slot is untouched, or was free and now holds a due entry. The claimed slots hold exactly the first min(due entries, free slots) due entries in list order, each once (as a multiset): requests that find no slot are dropped. |
| WaveScheduler.WaveManager.SpawnObstacles | WaveManager.js:71-78 | The same claimed-slot relation for the obstacle pool: exactly the first min(due, free) due obstacle entries, each once. |

## Left out

- Audio.js is not part of this model. Each audio cue the scheduler plays is a counter on `GameSession`.
- All canvas work is left out: clearing, strokes, compositing, filters, `globalAlpha`, `drawImage`, the horizon line, and the particle, starfield and explosion `draw` bodies. Only the arithmetic the draw code computes is modelled: the ship explosion's frame scale and size, and the grid's line positions and projected segments.
- `SpriteManager.load` and the sprite sheet image are left out, because they are asynchronous I/O. `loaded` is a plain flag. Console logging is left out.
- The Game constructor's DOM work (`resize`, `init`, `loop`, `horizonY`) is left out. Only the configuration values are kept.
- `Math.random` is replaced by inputs in [0, 1). This applies to WaveData, Starfield, the particle velocities and the enemy's fallback x. The starfield's per-frame twinkle is drawing only.
- Numbers are `real`s, so IEEE-754 rounding is not modelled. A NaN frame index in `drawAnimatedSprite` is modelled as `None`, and it reaches the same `false` result.
- `CONFIG.FLOOR_Y` and `CONFIG.MAX_DRAW_DISTANCE` are operation parameters, and so are `game.speed` and `game.player.x`. `EnemyType` values are the three enemy kinds plus an `Other` tag.
- Obstacle.js is not part of this model. A claimed obstacle slot is assumed to become active and to record the z, type and x it was given.
- WaveScheduler.GameSession.GetInactiveEnemy: Game.js does not define the game's pool lookup. Its contract promises only "an inactive slot, or none when all are active". The first-free scan in its body is not relied on.
- WaveScheduler.GameSession.GetInactiveObstacle: the same as `GetInactiveEnemy`, for the obstacle pool.
- WaveScheduler.GameSession: the pools hold slot values, not references to `Enemy` objects. Aliasing between the pool and other holders of an enemy is not modelled. A pooled enemy's spawn is `Enemies.Spawned`, the same function `Enemies.Enemy.Spawn` is proved against.
- Particles and stars are values in the container's sequence. The source mutates the objects in place, but nothing else refers to them.
- The `width`, `height` and `color` fields of enemies and projectiles are not read by any modelled logic and are not modelled. The same holds for the `game` back-references.
- Default arguments are not modelled: createExplosion's count of 20, Starfield's count of 200, `spawn`'s type `'diver'` and x `null`, the ship explosion's scale of 1.0, and `getSpriteDimensions`'s frame of 0. Callers pass every argument.
- `Sprites.SpriteManager.DrawSprite`: sprites are a map from names to frames. JavaScript property lookup on inherited names such as `toString` is not modelled. A frame number is an integer.
- WaveScheduler.WaveManager.StartWave requires a non-negative index. Every caller in the source passes 0 or the current index plus one.
- `Scene.GridDepths` requires a positive grid spacing. With any other spacing the source's depth loop does not end; the configured spacing is 200.
