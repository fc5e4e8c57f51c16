/**
 * The frame-counter automaton that Explosion.js and ShipExplosion.js both run in `update`:
 * `frameTimer` counts ticks up to `frameSpeed`, each wrap advances `frame`, and the animation
 * ends once `frame` reaches `maxFrames`. Proved here once for any positive constants.
 */
module FrameAnimation {

  datatype Counter = Counter(active: bool, frame: int, frameTimer: int)

  /** The counter `spawn` leaves. */
  const Started: Counter := Counter(true, 0, 0)

  /** One tick of an active counter; an inactive one is left alone. */
  function Tick(c: Counter, frameSpeed: int, maxFrames: int): Counter
  {
    if !c.active then c
    else if c.frameTimer + 1 >= frameSpeed then
      Counter(!(c.frame + 1 >= maxFrames), c.frame + 1, 0)
    else
      Counter(true, c.frame, c.frameTimer + 1)
  }

  function Run(c: Counter, frameSpeed: int, maxFrames: int, k: nat): Counter
    decreases k
  {
    if k == 0 then c else Run(Tick(c, frameSpeed, maxFrames), frameSpeed, maxFrames, k - 1)
  }

  /** How many of the first k ticks found the counter active (the ticks that also move z). */
  function ActiveTicks(c: Counter, frameSpeed: int, maxFrames: int, k: nat): nat
    decreases k
  {
    if k == 0 then 0
    else (if c.active then 1 else 0) + ActiveTicks(Tick(c, frameSpeed, maxFrames), frameSpeed, maxFrames, k - 1)
  }

  /** Ticks consumed so far: completed frames times the period plus the partial period. */
  function Elapsed(c: Counter, frameSpeed: int): int
  {
    c.frame * frameSpeed + c.frameTimer
  }

  /** The shape of every state an animation passes through while active. */
  predicate Running(c: Counter, frameSpeed: int, maxFrames: int)
  {
    c.active && 0 <= c.frame < maxFrames && 0 <= c.frameTimer < frameSpeed
  }

  /** The state an animation ends in. */
  function Finished(maxFrames: int): Counter
  {
    Counter(false, maxFrames, 0)
  }

  lemma {:induction false} InactiveStaysPut(c: Counter, frameSpeed: int, maxFrames: int, k: nat)
    requires !c.active
    ensures Run(c, frameSpeed, maxFrames, k) == c
    ensures ActiveTicks(c, frameSpeed, maxFrames, k) == 0
    decreases k
  {
    if k > 0 {
      InactiveStaysPut(Tick(c, frameSpeed, maxFrames), frameSpeed, maxFrames, k - 1);
    }
  }

  /** A running counter has used fewer than frameSpeed * maxFrames ticks. */
  lemma ElapsedBelowLifetime(c: Counter, frameSpeed: int, maxFrames: int)
    requires frameSpeed >= 1 && maxFrames >= 1 && Running(c, frameSpeed, maxFrames)
    ensures 0 <= Elapsed(c, frameSpeed) < frameSpeed * maxFrames
  {
    assert (maxFrames - 1 - c.frame) * frameSpeed >= 0;
    assert c.frame * frameSpeed >= 0;
  }

  /** One tick of a running counter: either it stays running one tick further on, or it
      used the last tick of its lifetime and finishes. */
  lemma TickAdvances(c: Counter, frameSpeed: int, maxFrames: int)
    requires frameSpeed >= 1 && maxFrames >= 1 && Running(c, frameSpeed, maxFrames)
    ensures var c' := Tick(c, frameSpeed, maxFrames);
      if Elapsed(c, frameSpeed) + 1 < frameSpeed * maxFrames then
        Running(c', frameSpeed, maxFrames) && Elapsed(c', frameSpeed) == Elapsed(c, frameSpeed) + 1
      else
        c' == Finished(maxFrames)
  {
    var c' := Tick(c, frameSpeed, maxFrames);
    if c.frameTimer + 1 >= frameSpeed {
      assert (c.frame + 1) * frameSpeed == c.frame * frameSpeed + frameSpeed;
      if c.frame + 1 >= maxFrames {
        assert c.frame + 1 == maxFrames;
        assert Elapsed(c, frameSpeed) + 1 == frameSpeed * maxFrames;
      } else {
        ElapsedBelowLifetime(c', frameSpeed, maxFrames);
      }
    } else {
      ElapsedBelowLifetime(c', frameSpeed, maxFrames);
    }
  }

  /** From any running state: the animation stays active for exactly the ticks left of its
      lifetime, counts them in frame/frameTimer while it does, and then rests finished. */
  lemma {:induction false} RunFromRunning(c: Counter, frameSpeed: int, maxFrames: int, k: nat)
    requires frameSpeed >= 1 && maxFrames >= 1 && Running(c, frameSpeed, maxFrames)
    ensures var r := Run(c, frameSpeed, maxFrames, k);
      var left := frameSpeed * maxFrames - Elapsed(c, frameSpeed);
      (r.active <==> k < left)
      && (k < left ==> Running(r, frameSpeed, maxFrames) && Elapsed(r, frameSpeed) == Elapsed(c, frameSpeed) + k)
      && (k >= left ==> r == Finished(maxFrames))
      && ActiveTicks(c, frameSpeed, maxFrames, k) == (if k < left then k else left)
    decreases k
  {
    ElapsedBelowLifetime(c, frameSpeed, maxFrames);
    if k > 0 {
      var c' := Tick(c, frameSpeed, maxFrames);
      TickAdvances(c, frameSpeed, maxFrames);
      if Elapsed(c, frameSpeed) + 1 < frameSpeed * maxFrames {
        RunFromRunning(c', frameSpeed, maxFrames, k - 1);
      } else {
        InactiveStaysPut(c', frameSpeed, maxFrames, k - 1);
      }
    }
  }

  /** From spawn: active after exactly the first frameSpeed * maxFrames - 1 updates,
      released by update number frameSpeed * maxFrames, and while active `frame` is the
      number of completed periods and `frameTimer` the ticks into the current one. */
  lemma Lifetime(frameSpeed: int, maxFrames: int, k: nat)
    requires frameSpeed >= 1 && maxFrames >= 1
    ensures var r := Run(Started, frameSpeed, maxFrames, k);
      (r.active <==> k < frameSpeed * maxFrames)
      && (r.active ==> 0 <= r.frame < maxFrames && 0 <= r.frameTimer < frameSpeed
                       && r.frame * frameSpeed + r.frameTimer == k)
      && (!r.active ==> r == Finished(maxFrames))
      && ActiveTicks(Started, frameSpeed, maxFrames, k) == (if k < frameSpeed * maxFrames then k else frameSpeed * maxFrames)
  {
    RunFromRunning(Started, frameSpeed, maxFrames, k);
  }
}
