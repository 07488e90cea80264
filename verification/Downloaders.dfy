/** What becomes of the downloaders that calls of `getTorrent` open. */
module Downloaders {
  import opened Text
  import opened Wrappers
  import Hex
  import opened BagsCaching
  import opened KeyedMutex
  import opened TorrentProtocol

  /** The downloader is the cached one for its bag. */
  ghost predicate IsCachedDownloader(w: World, d: Downloader) {
    d in w.opener && w.opener[d] in w.cache && w.cache[w.opener[d]].downloader == Some(d)
  }

  /** The downloader is in the hands of the call `tid`. */
  ghost predicate IsConnectedTo(w: World, d: Downloader, tid: Tid) {
    && tid in w.threads && w.threads[tid].phase.Connected? && w.threads[tid].phase.downloader == d
    && d in w.opener && w.threads[tid].bag == w.opener[d]
  }

  ghost predicate InUse(w: World, d: Downloader) {
    IsCachedDownloader(w, d) || exists tid :: IsConnectedTo(w, d, tid)
  }

  /** Open, and known to nobody who could close it. */
  ghost predicate GivenUp(w: World, d: Downloader) {
    && d in w.opener && d !in w.closed
    && (forall bag | bag in w.cache :: w.cache[bag].downloader != Some(d))
    && (forall tid | tid in w.threads && w.threads[tid].phase.Connected? :: w.threads[tid].phase.downloader != d)
  }

  ghost predicate Accounted(w: World) {
    && (forall d | d in w.opener && d !in w.closed :: InUse(w, d) || d in w.leaked)
    && (forall d | d in w.leaked :: GivenUp(w, d))
  }

  // ---- One step ---------------------------------------------------------------------------------------

  lemma EvictedIsClosed(start: Entries, kept: set<string>, id: string)
    requires id in start && start[id].downloader.Some?
    ensures id !in kept ==> start[id].downloader.value in ClosedBy(start, Only(start, kept))
  {
  }

  lemma {:induction false} CachedStaysInUse(hash: Hash, w: World, a: Action, d: Downloader)
    requires Inv(hash, w) && Enabled(w, a) && IsCachedDownloader(w, d) && d !in Next(hash, w, a).closed
    ensures IsCachedDownloader(Next(hash, w, a), d)
  {
    var bag := w.opener[d];
    RecordsGrow(hash, w, a);
    CacheAfter(hash, w, a);
    if a.Store? {
      assert WorkOk(hash, w, w.threads[a.tid]);
      EvictedIsClosed(w.cache[w.threads[a.tid].key := a.entry], a.kept, bag);
    }
  }

  lemma StoredStaysInUse(hash: Hash, w: World, a: Action, d: Downloader)
    requires Inv(hash, w) && Enabled(w, a) && a.Store? && IsConnectedTo(w, d, a.tid) && d !in Next(hash, w, a).closed
    ensures IsCachedDownloader(Next(hash, w, a), d)
  {
    assert WorkOk(hash, w, w.threads[a.tid]);
    CacheAfter(hash, w, a);
    EvictedIsClosed(w.cache[w.threads[a.tid].key := a.entry], a.kept, w.threads[a.tid].key);
  }

  lemma OtherStaysConnected(hash: Hash, w: World, a: Action, d: Downloader, tid: Tid)
    requires Enabled(w, a) && IsConnectedTo(w, d, tid) && tid != a.tid
    ensures IsConnectedTo(Next(hash, w, a), d, tid)
  {
    RecordsGrow(hash, w, a);
  }

  /** A connected call stores its torrent or gives its downloader up. */
  lemma ConnectedMoves(hash: Hash, w: World, a: Action, d: Downloader)
    requires Enabled(w, a) && IsConnectedTo(w, d, a.tid)
    ensures a.Store? || (a.HeaderMissing? && d in Next(hash, w, a).leaked)
  {
  }

  lemma OpenedIsConnected(hash: Hash, w: World, a: Action, d: Downloader)
    requires Enabled(w, a) && d in Next(hash, w, a).opener && d !in w.opener
    ensures IsConnectedTo(Next(hash, w, a), d, a.tid)
  {
  }

  lemma LeakedGrows(hash: Hash, w: World, a: Action)
    requires Enabled(w, a)
    ensures w.leaked <= Next(hash, w, a).leaked && w.closed <= Next(hash, w, a).closed
    ensures if a.HeaderMissing? then Next(hash, w, a).leaked != {} else Next(hash, w, a).leaked == w.leaked
  {
    if a.HeaderMissing? {
      assert w.threads[a.tid].phase.downloader in Next(hash, w, a).leaked;
    }
  }

  lemma OpenIsAccounted(hash: Hash, w: World, a: Action, d: Downloader)
    requires Inv(hash, w) && Accounted(w) && Enabled(w, a)
    requires d in Next(hash, w, a).opener && d !in Next(hash, w, a).closed
    ensures InUse(Next(hash, w, a), d) || d in Next(hash, w, a).leaked
  {
    LeakedGrows(hash, w, a);
    if d !in w.opener {
      OpenedIsConnected(hash, w, a, d);
    } else if IsCachedDownloader(w, d) {
      CachedStaysInUse(hash, w, a, d);
    } else if tid :| IsConnectedTo(w, d, tid) {
      if tid != a.tid {
        OtherStaysConnected(hash, w, a, d, tid);
      } else {
        ConnectedMoves(hash, w, a, d);
        if a.Store? {
          StoredStaysInUse(hash, w, a, d);
        }
      }
    }
  }

  lemma NewlyLeakedIsGivenUp(hash: Hash, w: World, a: Action)
    requires Inv(hash, w) && Enabled(w, a) && a.HeaderMissing?
    ensures GivenUp(Next(hash, w, a), w.threads[a.tid].phase.downloader)
  {
    var t, w' := w.threads[a.tid], Next(hash, w, a);
    var d := t.phase.downloader;
    assert WorkOk(hash, w, t);
    forall bag | bag in w'.cache ensures w'.cache[bag].downloader != Some(d) {
      assert EntryOk(hash, w, bag, w.cache[bag]);
    }
    forall tid | tid in w'.threads && w'.threads[tid].phase.Connected? ensures w'.threads[tid].phase.downloader != d {
      OthersStandStill(hash, w, a, tid);
      assert WorkOk(hash, w, w.threads[tid]);
      if w.threads[tid].bag == t.bag {
        OneCallPerBag(w, tid, a.tid);
      }
    }
  }

  lemma LeakedStaysOpen(hash: Hash, w: World, a: Action, d: Downloader)
    requires Enabled(w, a) && GivenUp(w, d)
    ensures d in Next(hash, w, a).opener && d !in Next(hash, w, a).closed
  {
    RecordsGrow(hash, w, a);
    if a.Store? {
      var start := w.cache[w.threads[a.tid].key := a.entry];
      assert forall id | id in start :: start[id].downloader != Some(d);
    }
  }

  lemma LeakedStaysUncached(hash: Hash, w: World, a: Action, d: Downloader)
    requires Enabled(w, a) && GivenUp(w, d)
    ensures forall bag | bag in Next(hash, w, a).cache :: Next(hash, w, a).cache[bag].downloader != Some(d)
  {
    CacheAfter(hash, w, a);
  }

  lemma LeakedStaysUnconnected(hash: Hash, w: World, a: Action, d: Downloader)
    requires Enabled(w, a) && GivenUp(w, d)
    ensures forall tid | tid in Next(hash, w, a).threads && Next(hash, w, a).threads[tid].phase.Connected? ::
              Next(hash, w, a).threads[tid].phase.downloader != d
  {
  }

  lemma GivenUpForGood(hash: Hash, w: World, a: Action, d: Downloader)
    requires Enabled(w, a) && GivenUp(w, d)
    ensures GivenUp(Next(hash, w, a), d)
  {
    LeakedStaysOpen(hash, w, a, d);
    LeakedStaysUncached(hash, w, a, d);
    LeakedStaysUnconnected(hash, w, a, d);
  }

  lemma LeakedAfter(hash: Hash, w: World, a: Action, d: Downloader)
    requires Enabled(w, a) && d in Next(hash, w, a).leaked && d !in w.leaked
    ensures a.HeaderMissing? && d == w.threads[a.tid].phase.downloader
  {
  }

  lemma {:induction false} NextKeepsAccounted(hash: Hash, w: World, a: Action)
    requires Inv(hash, w) && Accounted(w) && Enabled(w, a)
    ensures Accounted(Next(hash, w, a))
  {
    var w' := Next(hash, w, a);
    forall d | d in w'.opener && d !in w'.closed ensures InUse(w', d) || d in w'.leaked {
      OpenIsAccounted(hash, w, a, d);
    }
    forall d | d in w'.leaked ensures GivenUp(w', d) {
      if d in w.leaked {
        GivenUpForGood(hash, w, a, d);
      } else {
        LeakedAfter(hash, w, a, d);
        NewlyLeakedIsGivenUp(hash, w, a);
      }
    }
  }

  // ---- Runs -----------------------------------------------------------------------------------------------

  lemma {:induction false} RunKeepsAccounted(hash: Hash, w: World, run: seq<Action>)
    requires Injective(hash) && Inv(hash, w) && Accounted(w) && CanRun(hash, w, run) && LowerCase(run)
    ensures Inv(hash, Ran(hash, w, run)) && Accounted(Ran(hash, w, run))
    decreases |run|
  {
    if run != [] {
      NextKeepsInv(hash, w, run[0]);
      NextKeepsAccounted(hash, w, run[0]);
      RunKeepsAccounted(hash, Next(hash, w, run[0]), run[1..]);
    }
  }

  /** In every interleaving an open downloader is the cached one for its bag, or in the hands of
      a call inside that bag's lock, or was given up when a header was missing; and one that was
      given up is neither cached nor held. */
  lemma OpenDownloadersAreAccounted(hash: Hash, run: seq<Action>, d: Downloader)
    requires Injective(hash) && CanRun(hash, IDLE, run) && LowerCase(run)
    requires d in Ran(hash, IDLE, run).opener && d !in Ran(hash, IDLE, run).closed
    ensures var w := Ran(hash, IDLE, run);
            || IsCachedDownloader(w, d)
            || (exists tid :: IsConnectedTo(w, d, tid) && IsInside(w.gate, tid, w.opener[d]))
            || d in w.leaked
    ensures d in Ran(hash, IDLE, run).leaked <==> GivenUp(Ran(hash, IDLE, run), d)
  {
    RanInv(hash, []);
    RunKeepsAccounted(hash, IDLE, run);
    var w := Ran(hash, IDLE, run);
    if tid :| IsConnectedTo(w, d, tid) {
      assert AtGate(w, tid, w.threads[tid]);
    }
  }

  /** What was given up stays so, whatever happens after. */
  lemma {:induction false} LeakedForGood(hash: Hash, w: World, run: seq<Action>, d: Downloader)
    requires CanRun(hash, w, run) && GivenUp(w, d)
    ensures GivenUp(Ran(hash, w, run), d)
    decreases |run|
  {
    if run != [] {
      GivenUpForGood(hash, w, run[0], d);
      LeakedForGood(hash, Next(hash, w, run[0]), run[1..], d);
    }
  }

  ghost predicate NoHeaderMissing(run: seq<Action>) {
    forall k | 0 <= k < |run| :: !run[k].HeaderMissing?
  }

  lemma {:induction false} LeakedByRun(hash: Hash, w: World, run: seq<Action>)
    requires CanRun(hash, w, run)
    ensures w.leaked <= Ran(hash, w, run).leaked
    ensures Ran(hash, w, run).leaked == {} <==> w.leaked == {} && NoHeaderMissing(run)
    decreases |run|
  {
    if run != [] {
      var rest := run[1..];
      LeakedGrows(hash, w, run[0]);
      LeakedByRun(hash, Next(hash, w, run[0]), rest);
      assert run == [run[0]] + rest;
      assert NoHeaderMissing(run) <==> !run[0].HeaderMissing? && NoHeaderMissing(rest);
    }
  }

  /** Every open downloader is cached or in the hands of a call exactly in the runs in which no
      header was missing. */
  lemma ConservedExactly(hash: Hash, run: seq<Action>)
    requires Injective(hash) && CanRun(hash, IDLE, run) && LowerCase(run)
    ensures var w := Ran(hash, IDLE, run);
            (forall d | d in w.opener && d !in w.closed :: InUse(w, d)) <==> NoHeaderMissing(run)
  {
    var w := Ran(hash, IDLE, run);
    RanInv(hash, []);
    RunKeepsAccounted(hash, IDLE, run);
    LeakedByRun(hash, IDLE, run);
    if w.leaked != {} {
      var d :| d in w.leaked;
      assert GivenUp(w, d) && !InUse(w, d);
    }
  }

  // ---- A run that leaks -------------------------------------------------------------------------------------

  lemma OneMoreStep(hash: Hash, w: World, a: Action, rest: seq<Action>)
    requires Enabled(w, a) && CanRun(hash, Next(hash, w, a), rest)
    ensures CanRun(hash, w, [a] + rest) && Ran(hash, w, [a] + rest) == Ran(hash, Next(hash, w, a), rest)
  {
    assert ([a] + rest)[1..] == rest;
  }

  /** All steps of the run are the call's own. */
  ghost predicate Own(run: seq<Action>, tid: Tid) {
    forall k | 0 <= k < |run| :: run[k].tid == tid
  }

  /** The mutex of a bag, and the table of mutexes that has it. */
  function MutexOf(g: Gate, bag: string): nat {
    if bag in g.locks then g.locks[bag] else g.next
  }

  function WithMutex(g: Gate, bag: string): Gate {
    if bag in g.locks then g else g.(locks := g.locks[bag := g.next], next := g.next + 1)
  }

  /** The call `tid` is in the lock of a bag it has found missing. */
  ghost function Entered(w: World, tid: Tid, bag: string, key: string): World {
    var m := MutexOf(w.gate, bag);
    w.(threads := w.threads[tid := Thread(bag, key, Missed)],
       gate := WithMutex(w.gate, bag).(owner := w.gate.owner[m := tid], place := w.gate.place[tid := Inside(bag, m)]))
  }

  /** A new call for a bag that is not cached and whose mutex is free. */
  ghost predicate Newcomer(w: World, tid: Tid, bag: string) {
    && tid !in w.threads && tid !in w.gate.place && MutexOf(w.gate, bag) !in w.gate.owner
    && ToLower(bag) !in w.cache
  }

  lemma Arrives(hash: Hash, w: World, tid: Tid, bag: string, rest: seq<Action>) returns (run: seq<Action>)
    requires tid !in w.threads && ToLower(bag) !in w.cache
    requires CanRun(hash, w.(threads := w.threads[tid := Thread(bag, ToLower(bag), ToLock)]), rest)
    ensures CanRun(hash, w, run)
    ensures Ran(hash, w, run) == Ran(hash, w.(threads := w.threads[tid := Thread(bag, ToLower(bag), ToLock)]), rest)
    ensures (IsLower(bag) && LowerCase(rest) ==> LowerCase(run)) && (Own(rest, tid) ==> Own(run, tid))
  {
    var w1 := Next(hash, w, Call(tid, bag));
    var w2 := Next(hash, w1, FirstCheck(tid, 0));
    assert w2.threads == w.threads[tid := Thread(bag, ToLower(bag), ToLock)];
    run := [FirstCheck(tid, 0)] + rest;
    OneMoreStep(hash, w1, FirstCheck(tid, 0), rest);
    OneMoreStep(hash, w, Call(tid, bag), run);
    run := [Call(tid, bag)] + run;
  }

  /** The same call with a reference to the mutex. */
  ghost function Waits(w: World, tid: Tid): World
    requires tid in w.threads
  {
    var bag := w.threads[tid].bag;
    w.(threads := w.threads[tid := w.threads[tid].(phase := Queued)],
       gate := WithMutex(w.gate, bag).(place := w.gate.place[tid := Waiting(bag, MutexOf(w.gate, bag))]))
  }

  lemma {:induction false} Locks(hash: Hash, w: World, tid: Tid, mutex: nat, rest: seq<Action>) returns (run: seq<Action>)
    requires tid in w.threads && w.threads[tid].phase == Queued && w.threads[tid].key !in w.cache
    requires tid in w.gate.place && w.gate.place[tid] == Waiting(w.threads[tid].bag, mutex) && mutex !in w.gate.owner
    requires CanRun(hash, InLock(w, tid, mutex), rest)
    ensures CanRun(hash, w, run) && Ran(hash, w, run) == Ran(hash, InLock(w, tid, mutex), rest)
    ensures (LowerCase(rest) ==> LowerCase(run)) && (Own(rest, tid) ==> Own(run, tid))
  {
    var w1 := Next(hash, w, Enter(tid));
    var w2 := Next(hash, w1, SecondCheck(tid, 0));
    assert w2.threads == InLock(w, tid, mutex).threads;
    run := [SecondCheck(tid, 0)] + rest;
    OneMoreStep(hash, w1, SecondCheck(tid, 0), rest);
    OneMoreStep(hash, w, Enter(tid), run);
    run := [Enter(tid)] + run;
  }

  ghost function InLock(w: World, tid: Tid, mutex: nat): World
    requires tid in w.threads
  {
    w.(threads := w.threads[tid := w.threads[tid].(phase := Missed)],
       gate := w.gate.(place := w.gate.place[tid := Inside(w.threads[tid].bag, mutex)], owner := w.gate.owner[mutex := tid]))
  }

  lemma Queues(hash: Hash, w: World, tid: Tid, rest: seq<Action>) returns (run: seq<Action>)
    requires tid in w.threads && w.threads[tid].phase == ToLock
    requires tid !in w.gate.place
    requires CanRun(hash, Waits(w, tid), rest)
    ensures CanRun(hash, w, run) && Ran(hash, w, run) == Ran(hash, Waits(w, tid), rest)
    ensures (LowerCase(rest) ==> LowerCase(run)) && (Own(rest, tid) ==> Own(run, tid))
  {
    assert Next(hash, w, Queue(tid)) == Waits(w, tid);
    OneMoreStep(hash, w, Queue(tid), rest);
    run := [Queue(tid)] + rest;
  }

  lemma ByWaiting(w: World, w1: World, tid: Tid, bag: string, key: string)
    requires tid !in w.gate.place && w1 == w.(threads := w.threads[tid := Thread(bag, key, ToLock)])
    ensures InLock(Waits(w1, tid), tid, MutexOf(w.gate, bag)) == Entered(w, tid, bag, key)
  {
    var w3, e := InLock(Waits(w1, tid), tid, MutexOf(w.gate, bag)), Entered(w, tid, bag, key);
    assert w3.threads == e.threads && w3.gate.place == e.gate.place;
  }

  lemma Enters(hash: Hash, w: World, tid: Tid, bag: string, rest: seq<Action>) returns (run: seq<Action>)
    requires Newcomer(w, tid, bag) && CanRun(hash, Entered(w, tid, bag, ToLower(bag)), rest)
    ensures CanRun(hash, w, run) && Ran(hash, w, run) == Ran(hash, Entered(w, tid, bag, ToLower(bag)), rest)
    ensures (IsLower(bag) && LowerCase(rest) ==> LowerCase(run)) && (Own(rest, tid) ==> Own(run, tid))
  {
    var w1 := w.(threads := w.threads[tid := Thread(bag, ToLower(bag), ToLock)]);
    var w2 := Waits(w1, tid);
    ByWaiting(w, w1, tid, bag, ToLower(bag));
    run := Locks(hash, w2, tid, MutexOf(w.gate, bag), rest);
    run := Queues(hash, w1, tid, run);
    run := Arrives(hash, w, tid, bag, run);
  }

  /** It has made and started a torrent and opened a downloader. */
  ghost function Opened(hash: Hash, w: World, tid: Tid, t: Torrent, d: Downloader): World
    requires tid in w.threads && Hex.Decode(w.threads[tid].bag).Some?
  {
    var bag := w.threads[tid].bag;
    w.(threads := w.threads[tid := w.threads[tid].(phase := Connected(t, d))],
       index := w.index[hash(Hex.Decode(bag).value) := t], running := w.running + {t},
       maker := w.maker[t := bag], opener := w.opener[d := bag])
  }

  lemma ConnectsOpened(hash: Hash, w: World, w1: World, w2: World, tid: Tid, t: Torrent, d: Downloader)
    requires Enabled(w, Create(tid, t)) && w1 == Next(hash, w, Create(tid, t))
    requires w2 == Next(hash, w1, Start(tid)) && d !in w.opener
    ensures Enabled(w2, Connect(tid, d)) && Next(hash, w2, Connect(tid, d)) == Opened(hash, w, tid, t, d)
  {
    assert Next(hash, w2, Connect(tid, d)).threads == Opened(hash, w, tid, t, d).threads;
  }

  lemma {:induction false} Opens(hash: Hash, w: World, tid: Tid, t: Torrent, d: Downloader, rest: seq<Action>) returns (run: seq<Action>)
    requires tid in w.threads && w.threads[tid].phase.Missed? && Hex.Decode(w.threads[tid].bag).Some?
    requires t !in w.maker && d !in w.opener && CanRun(hash, Opened(hash, w, tid, t, d), rest)
    ensures CanRun(hash, w, run) && Ran(hash, w, run) == Ran(hash, Opened(hash, w, tid, t, d), rest)
    ensures (LowerCase(rest) ==> LowerCase(run)) && (Own(rest, tid) ==> Own(run, tid))
  {
    var w1 := Next(hash, w, Create(tid, t));
    var w2 := Next(hash, w1, Start(tid));
    ConnectsOpened(hash, w, w1, w2, tid, t, d);
    run := [Connect(tid, d)] + rest;
    OneMoreStep(hash, w2, Connect(tid, d), rest);
    OneMoreStep(hash, w1, Start(tid), run);
    run := [Start(tid)] + run;
    OneMoreStep(hash, w, Create(tid, t), run);
    run := [Create(tid, t)] + run;
  }

  lemma GivesUp(hash: Hash, w: World, tid: Tid, d: Downloader) returns (run: seq<Action>)
    requires w.threads.Keys == {tid} && w.threads[tid].phase.Connected? && w.threads[tid].phase.downloader == d
    requires tid in w.gate.place && w.gate.place[tid].Inside? && w.cache == map[] && d in w.opener && d !in w.closed
    ensures CanRun(hash, w, run) && LowerCase(run)
    ensures var w' := Ran(hash, w, run);
            && (forall other | other in w'.threads :: w'.threads[other].phase.Returned?)
            && w'.cache == map[] && d in w'.opener && d !in w'.closed && !InUse(w', d)
  {
    var w1 := Next(hash, w, HeaderMissing(tid));
    var w2 := Next(hash, w1, Leave(tid));
    assert Ran(hash, w2, []) == w2;
    run := [Leave(tid)] + [];
    OneMoreStep(hash, w1, Leave(tid), []);
    OneMoreStep(hash, w, HeaderMissing(tid), run);
    run := [HeaderMissing(tid)] + run;
  }

  /** The failing input: one call for any bag, whose header does not load. All calls return,
      nothing is cached, and the downloader stays open. */
  lemma HeaderMissingLeaks(hash: Hash, bag: string, t: Torrent, d: Downloader) returns (run: seq<Action>)
    requires IsLower(bag) && Hex.Decode(bag).Some?
    ensures CanRun(hash, IDLE, run) && LowerCase(run)
    ensures var w := Ran(hash, IDLE, run);
            && (forall tid | tid in w.threads :: w.threads[tid].phase.Returned?)
            && w.cache == map[] && d in w.opener && d !in w.closed && !InUse(w, d)
  {
    var e := Entered(IDLE, 0, bag, ToLower(bag));
    var o := Opened(hash, e, 0, t, d);
    run := GivesUp(hash, o, 0, d);
    run := Opens(hash, e, 0, t, d, run);
    run := Enters(hash, IDLE, 0, bag, run);
  }

  // ---- Two spellings of one bag ------------------------------------------------------------------------------

  /** Why ids must be lower-case: for any two spellings of a bag there is a run in which both
      calls make a torrent and the second store overwrites the first, which then runs on,
      neither cached nor in anyone's hands. */
  lemma SpellingsLoseATorrent(hash: Hash, a: string, b: string) returns (run: seq<Action>)
    requires a != b && ToLower(a) == ToLower(b) && Hex.Decode(a).Some?
    ensures CanRun(hash, IDLE, run)
    ensures var w := Ran(hash, IDLE, run);
            && 0 in w.running && !IsHeld(w, 0)
            && (forall key | key in w.cache :: w.cache[key].torrent != 0)
  {
    Hex.DecodeIgnoresCase(a);
    Hex.DecodeIgnoresCase(b);
    var key := ToLower(a);
    var first, second := Entry(0, Some(0), 0, 0), Entry(1, Some(1), 0, 0);
    var e := Entered(IDLE, 0, a, key);
    var o := Opened(hash, e, 0, 0, 0);
    var e' := Entered(o, 1, b, key);
    var o' := Opened(hash, e', 1, 1, 1);
    run := Overwrites(hash, o', key, first, second);
    run := Opens(hash, e', 1, 1, 1, run);
    run := Enters(hash, o, 1, b, run);
    run := Opens(hash, e, 0, 0, 0, run);
    run := Enters(hash, IDLE, 0, a, run);
  }

  lemma Overwrites(hash: Hash, w: World, key: string, first: Entry, second: Entry) returns (run: seq<Action>)
    requires w.threads.Keys == {0, 1} && w.threads[0].key == key == w.threads[1].key && w.cache == map[]
    requires w.threads[0].phase == Connected(0, 0) && w.threads[1].phase == Connected(1, 1)
    requires first == Entry(0, Some(0), 0, 0) && second == Entry(1, Some(1), 0, 0) && 0 in w.running
    ensures CanRun(hash, w, run)
    ensures var w' := Ran(hash, w, run);
            0 in w'.running && !IsHeld(w', 0) && forall id | id in w'.cache :: w'.cache[id].torrent != 0
  {
    var w1 := Next(hash, w, Store(0, first, {key}));
    assert w1.cache == map[key := first];
    assert StoppedBy(map[key := first], w1.cache) == {};
    var w2 := Next(hash, w1, Store(1, second, {key}));
    assert w2.cache == map[key := second];
    assert StoppedBy(map[key := second], w2.cache) == {};
    assert Ran(hash, w2, []) == w2;
    OneMoreStep(hash, w1, Store(1, second, {key}), []);
    run := [Store(1, second, {key})] + [];
    OneMoreStep(hash, w, Store(0, first, {key}), run);
    run := [Store(0, first, {key})] + run;
  }
}
