/** The timestamps of the timestamped containers and the clock that is one atomic counter. */
module Timestamps {

  /** A 64-bit timestamp: a value of the clock, or the largest one, which the clock never reaches. */
  datatype Time = Tick(value: nat) | Top

  /** Whether `t1` is later than `t2`. */
  predicate IsLater(t1: Time, t2: Time) {
    match (t2, t1)
    case (Tick(b), Tick(a)) => b < a
    case (Tick(_), Top) => true
    case (Top, _) => false
  }

  class AtomicCounterTimestamp {
    var clock: nat

    constructor ()
      ensures clock == 1
    {
      clock := 1;
    }

    /** A fetch-and-increment. */
    method NextTimestamp() returns (t: Time)
      modifies this
      ensures t == Tick(old(clock)) && clock == old(clock) + 1
    {
      t := Tick(clock);
      clock := clock + 1;
    }

    method ReadTime() returns (t: Time)
      ensures t == Tick(clock)
    {
      t := Tick(clock);
    }
  }
}
