/** The clock the gateway reads: it never goes back, and nothing else is known of it. */
module Clocks {

  /** `readings` is all that `Now` ever answered. */
  class Clock {
    var time: nat
    ghost var readings: seq<nat>

    constructor()
      ensures time == 0 && readings == []
    {
      time := 0;
      readings := [];
    }

    /** `time.Now()`. */
    method Now() returns (t: nat)
      modifies this
      ensures old(time) <= time == t
      ensures readings == old(readings) + [t]
    {
      var passed: nat :| 0 <= passed;
      time := time + passed;
      t := time;
      readings := readings + [t];
    }

    /** Waits at least `duration`. */
    method Sleep(duration: nat)
      modifies this
      ensures old(time) + duration <= time && readings == old(readings)
    {
      var passed: nat :| 0 <= passed;
      time := time + duration + passed;
    }
  }
}
