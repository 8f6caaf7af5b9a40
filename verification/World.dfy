/** A surrounding system that keeps moving on its own while a script waits for it. */
module World {

  /** `history` is everything the surroundings will ever do, one state per instant; a script sees
      the instant at which it looks, and cannot say how long its own steps take, only how long it
      sleeps. Any guarantee proved for an arbitrary history and arbitrary delays holds against every
      such system. */
  class World<S> {
    const history: nat -> S
    var now: nat
    ghost var slept: nat  // everything the script has asked to sleep so far

    constructor (history: nat -> S, start: nat)
      ensures this.history == history && now == start && slept == 0
    {
      this.history, now, slept := history, start, 0;
    }

    /** Some time passes. */
    method Elapse()
      modifies this`now
      ensures now >= old(now)
    {
      var delay: nat :| 0 <= delay;
      now := now + delay;
    }

    /** `time.sleep`: at least `duration` passes. */
    method Sleep(duration: nat)
      modifies this
      ensures now >= old(now) + duration && slept == old(slept) + duration
    {
      var delay: nat :| 0 <= delay;
      now := now + duration + delay;
      slept := slept + duration;
    }

    /** One statement against the surroundings, answered from the instant at which it runs. */
    method Observe() returns (s: S)
      modifies this`now
      ensures now >= old(now) && s == history(now)
    {
      Elapse();
      s := history(now);
    }
  }
}
