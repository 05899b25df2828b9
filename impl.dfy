/**
 * Spectator's atomic double cell and an abstract view of its step-windowed
 * aggregator. Both are used by the Atlas max gauge. The aggregator is
 * reduced to what the gauge relies on: a writable cell for the window in
 * progress, the value of the last completed window, and the rotation that
 * closes a window.
 */
module Impl {
  import opened Api

  /**
   * `AtomicDouble`, run by one thread at a time: compare-and-set succeeds
   * exactly when the stored value is the expected one. The ghost counter
   * `writes` records every store, so that a caller can state that it did not
   * write at all.
   */
  class AtomicDouble {
    var v: real
    ghost var writes: nat

    constructor (init: real)
      ensures v == init && writes == 0
    {
      v := init;
      writes := 0;
    }

    method Get() returns (r: real)
      ensures r == v
    {
      r := v;
    }

    method CompareAndSet(expected: real, updated: real) returns (ok: bool)
      modifies this
      ensures ok <==> old(v) == expected
      ensures v == (if ok then updated else old(v))
      ensures writes == old(writes) + (if ok then 1 else 0)
    {
      ok := v == expected;
      if ok {
        v := updated;
        writes := writes + 1;
      }
    }

    method GetAndSet(x: real) returns (r: real)
      modifies this
      ensures r == old(v) && v == x && writes == old(writes) + 1
    {
      r := v;
      v := x;
      writes := writes + 1;
    }
  }

  /**
   * `StepDouble(init, clock, step)`. `current` is the cell written during the
   * window in progress and `previous` the value of the last completed window;
   * both start at `init`. The check of the clock against the step boundary is
   * not modelled: the environment calls `Rotate` when a boundary has passed.
   */
  class StepDouble {
    const init: real
    const clock: Clock
    const step: int
    const current: AtomicDouble
    var previous: real

    constructor (init: real, clock: Clock, step: int)
      ensures this.init == init && this.clock == clock && this.step == step
      ensures fresh(current) && current.v == init && current.writes == 0
      ensures previous == init
    {
      this.init := init;
      this.clock := clock;
      this.step := step;
      current := new AtomicDouble(init);
      previous := init;
    }

    /** The cell for the window in progress. */
    method GetCurrent() returns (c: AtomicDouble)
      ensures c == current
    {
      c := current;
    }

    /** The value of the last completed window; reading it changes nothing. */
    method Poll() returns (r: real)
      ensures r == previous
    {
      r := previous;
    }

    /**
     * A step boundary has passed: the window in progress becomes the completed
     * one and a new window starts from `init`.
     */
    method Rotate()
      modifies this, current
      ensures previous == old(current.v)
      ensures current.v == init
      ensures current.writes == old(current.writes) + 1
    {
      previous := current.GetAndSet(init);
    }
  }
}
