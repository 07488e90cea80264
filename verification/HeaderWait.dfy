/** Adding a bag to the local storage and waiting for its header.

    Times are in milliseconds. */
module HeaderWait {
  import opened Clocks

  const BAG_HEADER_LOAD_TIMEOUT: nat := 30_000
  const BAG_HEADER_LOAD_POLL_INTERVAL: nat := 500
  const MAX_POLLS: nat := 62

  /** What `GetBag` answers. */
  datatype Poll = Failed | Found(headerLoaded: bool, files: nat) {
    predicate Ready() {
      Found? && (headerLoaded || files > 0)
    }
  }

  datatype Outcome = Loaded | AddFailed | TimedOut | Cancelled

  /** `bag(i)` is the answer to the call of `GetBag` number i, and `over(i)` says whether the
      request is over before the sleep after poll i. When adding fails the first call only
      tells whether the bag is there. */
  method EnsureBagInStorage(clock: Clock, added: bool, bag: nat -> Poll, over: nat -> bool)
    returns (outcome: Outcome, polls: nat)
    modifies clock
    ensures polls <= 62
    ensures outcome == AddFailed <==> !added && bag(0) == Failed
    ensures outcome == AddFailed <==> polls == 0
    ensures var first := if added then 0 else 1;
            && (forall call | first <= call < first + polls - 1 :: bag(call) == Failed || bag(call) == Found(false, 0))
            && (forall i | 0 <= i < polls - 1 :: !over(i))
            && (polls > 0 ==>
                  (outcome == Loaded <==> bag(first + polls - 1) != Failed && bag(first + polls - 1) != Found(false, 0)))
            && (outcome == Cancelled ==> over(polls - 1))
    ensures outcome == TimedOut ==> old(clock.time) + 30_000 < clock.time
  {
    polls := 0;
    var calls := 0;
    if !added {
      calls := 1;
      if bag(0) == Failed {
        return AddFailed, 0;
      }
    }
    ghost var first := calls;
    var start := clock.Now();
    var deadline := start + BAG_HEADER_LOAD_TIMEOUT;
    while true
      invariant calls == first + polls && polls < MAX_POLLS
      invariant start + BAG_HEADER_LOAD_POLL_INTERVAL * polls <= clock.time
      invariant forall call | first <= call < calls :: bag(call) == Failed || bag(call) == Found(false, 0)
      invariant forall i | 0 <= i < polls :: !over(i)
      decreases MAX_POLLS - polls
    {
      var answer := bag(calls);
      calls := calls + 1;
      polls := polls + 1;
      if answer.Ready() {
        return Loaded, polls;
      }
      var now := clock.Now();
      if now > deadline {
        return TimedOut, polls;
      }
      if over(polls - 1) {
        return Cancelled, polls;
      }
      clock.Sleep(BAG_HEADER_LOAD_POLL_INTERVAL);
    }
  }
}
