/** What calls of `getTorrent` return: among many, a live torrent of their own bag; alone, what
    `TorrentClient` says of one caller. */
module Calls {
  import opened Text
  import opened Wrappers
  import Hex
  import opened BagsCaching
  import opened KeyedMutex
  import opened TorrentProtocol
  import opened Downloaders
  import TorrentClient

  // ---- What is handed out ---------------------------------------------------------------------------

  /** What the call is about to return, or has returned. */
  ghost predicate HandsOut(t: Thread, h: Handle) {
    (t.phase.Leaving? || t.phase.Returned?) && t.phase.got == Some(h)
  }

  /** Made for the bag of the call. */
  ghost predicate MadeFor(w: World, bag: string, h: Handle) {
    && h.torrent in w.maker && w.maker[h.torrent] == bag
    && h.downloader.Some? && h.downloader.value in w.opener && w.opener[h.downloader.value] == bag
  }

  ghost predicate AllMadeFor(w: World) {
    forall tid, h | tid in w.threads && HandsOut(w.threads[tid], h) :: MadeFor(w, w.threads[tid].bag, h)
  }

  lemma {:induction false} MoverIsHanded(hash: Hash, w: World, a: Action, h: Handle)
    requires Inv(hash, w) && AllMadeFor(w) && Enabled(w, a) && HandsOut(Next(hash, w, a).threads[a.tid], h)
    ensures MadeFor(w, w.threads[a.tid].bag, h)
  {
    assert a.tid in w.threads;
    var t := w.threads[a.tid];
    assert WorkOk(hash, w, t);
    if a.FirstCheck? || a.SecondCheck? {
      assert EntryOk(hash, w, t.key, w.cache[t.key]);
    }
    if a.Leave? {
      assert HandsOut(t, h);
    }
  }

  lemma {:induction false} NextKeepsMadeFor(hash: Hash, w: World, a: Action)
    requires Inv(hash, w) && AllMadeFor(w) && Enabled(w, a)
    ensures AllMadeFor(Next(hash, w, a))
  {
    var w' := Next(hash, w, a);
    RecordsGrow(hash, w, a);
    forall tid, h | tid in w'.threads && HandsOut(w'.threads[tid], h) ensures MadeFor(w', w'.threads[tid].bag, h) {
      if tid == a.tid {
        MoverIsHanded(hash, w, a, h);
        PhaseAfter(hash, w, a);
      } else {
        OthersStandStill(hash, w, a, tid);
        assert MadeFor(w, w.threads[tid].bag, h);
      }
    }
  }

  lemma {:induction false} RunKeepsMadeFor(hash: Hash, w: World, run: seq<Action>)
    requires Injective(hash) && Inv(hash, w) && AllMadeFor(w) && CanRun(hash, w, run) && LowerCase(run)
    ensures AllMadeFor(Ran(hash, w, run))
    decreases |run|
  {
    if run != [] {
      NextKeepsInv(hash, w, run[0]);
      NextKeepsMadeFor(hash, w, run[0]);
      RunKeepsMadeFor(hash, Next(hash, w, run[0]), run[1..]);
    }
  }

  /** In every interleaving no call returns a torrent or a downloader of another bag. */
  lemma {:induction false} ReturnedIsOfItsBag(hash: Hash, run: seq<Action>, tid: Tid, h: Handle)
    requires Injective(hash) && CanRun(hash, IDLE, run) && LowerCase(run)
    requires tid in Ran(hash, IDLE, run).threads && HandsOut(Ran(hash, IDLE, run).threads[tid], h)
    ensures MadeFor(Ran(hash, IDLE, run), Ran(hash, IDLE, run).threads[tid].bag, h)
  {
    RanInv(hash, []);
    RunKeepsMadeFor(hash, IDLE, run);
  }

  /** In every interleaving what a call finds in the cache, or leaves there, is alive at that
      step: the torrent runs and the downloader is open. */
  lemma {:induction false} HandedOutAlive(hash: Hash, run: seq<Action>, a: Action, h: Handle)
    requires Injective(hash) && CanRun(hash, IDLE, run) && LowerCase(run) && Enabled(Ran(hash, IDLE, run), a) && Spelled(a)
    requires HandsOut(Next(hash, Ran(hash, IDLE, run), a).threads[a.tid], h) && !a.Leave?
    requires a.Store? ==> Ran(hash, IDLE, run).threads[a.tid].key in a.kept
    ensures var w' := Next(hash, Ran(hash, IDLE, run), a);
            h.torrent in w'.running && h.downloader.Some? && h.downloader.value !in w'.closed
  {
    RanInv(hash, run);
    var w := Ran(hash, IDLE, run);
    NextKeepsInv(hash, w, a);
    var w', t := Next(hash, w, a), w.threads[a.tid];
    CachedAfter(hash, w, a, h);
    assert EntryOk(hash, w', t.key, w'.cache[t.key]);
  }

  lemma CachedAfter(hash: Hash, w: World, a: Action, h: Handle)
    requires Enabled(w, a) && HandsOut(Next(hash, w, a).threads[a.tid], h) && !a.Leave?
    requires a.Store? ==> w.threads[a.tid].key in a.kept
    ensures a.tid in w.threads
    ensures var w', key := Next(hash, w, a), w.threads[a.tid].key;
            key in w'.cache && w'.cache[key].torrent == h.torrent && w'.cache[key].downloader == h.downloader
  {
  }

  // ---- A call that nobody disturbs ----------------------------------------------------------------------

  lemma OneStep(hash: Hash, w: World, a: Action, rest: seq<Action>) returns (run: seq<Action>)
    requires Enabled(w, a) && CanRun(hash, Next(hash, w, a), rest) && Own(rest, a.tid)
    ensures CanRun(hash, w, run) && Own(run, a.tid) && Ran(hash, w, run) == Ran(hash, Next(hash, w, a), rest)
  {
    OneMoreStep(hash, w, a, rest);
    run := [a] + rest;
  }

  lemma LastStep(hash: Hash, w: World, a: Action) returns (run: seq<Action>)
    requires Enabled(w, a)
    ensures CanRun(hash, w, run) && Own(run, a.tid) && Ran(hash, w, run) == Next(hash, w, a)
  {
    assert Ran(hash, Next(hash, w, a), []) == Next(hash, w, a);
    run := OneStep(hash, w, a, []);
  }

  /** The call is between lock and unlock. */
  ghost predicate IsIn(w: World, tid: Tid) {
    tid in w.threads && tid in w.gate.place && w.gate.place[tid].Inside?
  }

  /** The call has unlocked and returned. */
  ghost function Back(w: World, tid: Tid, got: Option<Handle>): World
    requires IsIn(w, tid)
  {
    w.(threads := w.threads[tid := w.threads[tid].(phase := Returned(got))], gate := Moved(w.gate, Unlock(tid)))
  }

  lemma Leaves(hash: Hash, w: World, tid: Tid) returns (run: seq<Action>)
    requires IsIn(w, tid) && w.threads[tid].phase.Leaving?
    ensures CanRun(hash, w, run) && Own(run, tid) && Ran(hash, w, run) == Back(w, tid, w.threads[tid].phase.got)
  {
    run := LastStep(hash, w, Leave(tid));
  }

  lemma BadIds(hash: Hash, w: World, tid: Tid) returns (run: seq<Action>)
    requires IsIn(w, tid) && w.threads[tid].phase == Missed && Hex.Decode(w.threads[tid].bag) == None
    ensures CanRun(hash, w, run) && Own(run, tid) && Ran(hash, w, run) == Back(w, tid, None)
  {
    var w1 := Next(hash, w, BadId(tid));
    run := Leaves(hash, w1, tid);
    run := OneStep(hash, w, BadId(tid), run);
    assert w1.threads[tid := w.threads[tid].(phase := Returned(None))] == w.threads[tid := w.threads[tid].(phase := Returned(None))];
  }

  /** A torrent has been made and is in the index, and was stopped if it was started. */
  ghost function Made(hash: Hash, w: World, tid: Tid, t: Torrent): World
    requires tid in w.threads && Hex.Decode(w.threads[tid].bag).Some?
  {
    var bag := w.threads[tid].bag;
    w.(index := w.index[hash(Hex.Decode(bag).value) := t], maker := w.maker[t := bag])
  }

  lemma FailedIsMade(hash: Hash, w: World, w1: World, w2: World, w3: World, tid: Tid, t: Torrent)
    requires IsIn(w, tid) && Enabled(w, Create(tid, t)) && t !in w.running
    requires w1 == Next(hash, w, Create(tid, t)) && w2 == Next(hash, w1, Start(tid)) && w3 == Next(hash, w2, Fail(tid))
    ensures IsIn(w3, tid) && w3.threads[tid].phase == Leaving(None)
    ensures Back(w3, tid, None) == Back(Made(hash, w, tid, t), tid, None)
  {
    assert w3.running == w.running;
    assert w3.threads == w.threads[tid := w.threads[tid].(phase := Leaving(None))];
    assert Back(w3, tid, None).threads == Back(Made(hash, w, tid, t), tid, None).threads;
  }

  lemma {:induction false} Fails(hash: Hash, w: World, tid: Tid, t: Torrent) returns (run: seq<Action>)
    requires IsIn(w, tid) && w.threads[tid].phase == Missed && Hex.Decode(w.threads[tid].bag).Some?
    requires t !in w.maker && t !in w.running
    ensures CanRun(hash, w, run) && Own(run, tid) && Ran(hash, w, run) == Back(Made(hash, w, tid, t), tid, None)
  {
    var w1 := Next(hash, w, Create(tid, t));
    var w2 := Next(hash, w1, Start(tid));
    var w3 := Next(hash, w2, Fail(tid));
    FailedIsMade(hash, w, w1, w2, w3, tid, t);
    run := Leaves(hash, w3, tid);
    run := OneStep(hash, w2, Fail(tid), run);
    run := OneStep(hash, w1, Start(tid), run);
    run := OneStep(hash, w, Create(tid, t), run);
  }

  lemma {:induction false} LosesHeader(hash: Hash, w: World, tid: Tid, t: Torrent, d: Downloader) returns (run: seq<Action>)
    requires IsIn(w, tid) && w.threads[tid].phase == Missed && Hex.Decode(w.threads[tid].bag).Some?
    requires t !in w.maker && t !in w.running && d !in w.opener
    ensures CanRun(hash, w, run) && Own(run, tid)
    ensures Ran(hash, w, run)
            == Back(Made(hash, w, tid, t).(opener := w.opener[d := w.threads[tid].bag], leaked := w.leaked + {d}), tid, None)
  {
    var o := Opened(hash, w, tid, t, d);
    var w1 := Next(hash, o, HeaderMissing(tid));
    assert w1.running == w.running;
    assert w1.threads == w.threads[tid := w.threads[tid].(phase := Leaving(None))];
    run := Leaves(hash, w1, tid);
    assert Back(w1, tid, None)
           == Back(Made(hash, w, tid, t).(opener := w.opener[d := w.threads[tid].bag], leaked := w.leaked + {d}), tid, None);
    run := OneStep(hash, o, HeaderMissing(tid), run);
    run := Opens(hash, w, tid, t, d, run);
  }

  /** The torrent is stored and the cache evicts. */
  ghost function StoredIn(w: World, key: string, e: Entry, kept: set<string>): World {
    var start := w.cache[key := e];
    var after := Only(start, kept);
    w.(cache := after, running := w.running - StoppedBy(start, after), closed := w.closed + ClosedBy(start, after))
  }

  lemma {:induction false} Stores(hash: Hash, w: World, tid: Tid, t: Torrent, d: Downloader, e: Entry, kept: set<string>)
    returns (run: seq<Action>)
    requires IsIn(w, tid) && w.threads[tid].phase == Missed && Hex.Decode(w.threads[tid].bag).Some?
    requires t !in w.maker && d !in w.opener && e.torrent == t && e.downloader == Some(d)
    requires kept <= w.cache.Keys + {w.threads[tid].key}
    ensures CanRun(hash, w, run) && Own(run, tid)
    ensures Ran(hash, w, run)
            == Back(StoredIn(Opened(hash, w, tid, t, d), w.threads[tid].key, e, kept), tid, Some(Handle(t, Some(d))))
  {
    var o := Opened(hash, w, tid, t, d);
    var w1 := Next(hash, o, Store(tid, e, kept));
    run := Leaves(hash, w1, tid);
    assert Back(w1, tid, Some(Handle(t, Some(d))))
           == Back(StoredIn(o, w.threads[tid].key, e, kept), tid, Some(Handle(t, Some(d))));
    run := OneStep(hash, o, Store(tid, e, kept), run);
    run := Opens(hash, w, tid, t, d, run);
  }

  /** A call for a cached bag: it is handed out and stamped, and nothing else happens. */
  lemma {:induction false} CachedCallAlone(hash: Hash, w: World, tid: Tid, bag: string, stamp: nat) returns (run: seq<Action>)
    requires tid !in w.threads && ToLower(bag) in w.cache
    ensures CanRun(hash, w, run) && Own(run, tid)
    ensures var key, w' := ToLower(bag), Ran(hash, w, run);
            var e := w.cache[key];
            w' == w.(threads := w.threads[tid := Thread(bag, key, Returned(Some(Handle(e.torrent, e.downloader))))],
                     cache := w.cache[key := e.(lastUsed := stamp)])
  {
    var w1 := Next(hash, w, Call(tid, bag));
    run := LastStep(hash, w1, FirstCheck(tid, stamp));
    run := OneStep(hash, w, Call(tid, bag), run);
    var key := ToLower(bag);
    var t := Thread(bag, key, Returned(Some(Handle(w.cache[key].torrent, w.cache[key].downloader))));
    assert w1.threads[tid := t] == w.threads[tid := t];
  }

  /** A call that had to wait for its mutex, when another call has stored the bag meanwhile: it is
      handed out and stamped, and nothing is made. */
  lemma {:induction false} WaitedCallGetsStored(hash: Hash, w: World, tid: Tid, stamp: nat) returns (run: seq<Action>)
    requires IsIn(w, tid) && w.threads[tid].phase == Locked && w.threads[tid].key in w.cache
    ensures CanRun(hash, w, run) && Own(run, tid)
    ensures var key, w' := w.threads[tid].key, Ran(hash, w, run);
            var e := w.cache[key];
            && w'.threads == w.threads[tid := w.threads[tid].(phase := Returned(Some(Handle(e.torrent, e.downloader))))]
            && w'.cache == w.cache[key := e.(lastUsed := stamp)]
            && w'.running == w.running && w'.closed == w.closed && w'.index == w.index && w'.leaked == w.leaked
            && w'.gate.place == w.gate.place - {tid}
  {
    var w1 := Next(hash, w, SecondCheck(tid, stamp));
    run := Leaves(hash, w1, tid);
    run := OneStep(hash, w, SecondCheck(tid, stamp), run);
    var t := w.threads[tid].(phase := w1.threads[tid].phase);
    var t' := t.(phase := Returned(t.phase.got));
    assert w1.threads[tid := t'] == w.threads[tid := t'];
  }

  /** The call has returned `got`; the other threads and who holds which mutex are as before. */
  ghost predicate CameBack(w: World, w': World, tid: Tid, bag: string, got: Option<Handle>) {
    && w'.threads == w.threads[tid := Thread(bag, ToLower(bag), Returned(got))]
    && w'.gate.place == w.gate.place && w'.gate.owner == w.gate.owner
  }

  lemma CameBackIn(w: World, v: World, tid: Tid, bag: string, got: Option<Handle>)
    requires Newcomer(w, tid, bag)
    requires v.threads.Keys == w.threads.Keys + {tid}
    requires forall other | other in w.threads :: other in v.threads && v.threads[other] == w.threads[other]
    requires tid in v.threads && v.threads[tid].bag == bag && v.threads[tid].key == ToLower(bag)
    requires v.gate == Entered(w, tid, bag, ToLower(bag)).gate
    ensures IsIn(v, tid) && CameBack(w, Back(v, tid, got), tid, bag, got)
  {
    var m := MutexOf(w.gate, bag);
    assert w.gate.owner[m := tid] - {m} == w.gate.owner;
    assert w.gate.place[tid := Inside(bag, m)] - {tid} == w.gate.place;
  }

  /** A call for a bag that is not cached, when nobody disturbs it. What fails leaves the cache and
      the running torrents as they were, and a torrent that does not run in the index; a missing
      header leaves a downloader open besides. What works is stored, and what that evicts is
      stopped and closed. */
  lemma {:induction false} NewCallAlone(hash: Hash, w: World, tid: Tid, bag: string, t: Torrent, d: Downloader,
                                        how: TorrentClient.Creation, stamp: nat, kept: set<string>)
    returns (run: seq<Action>)
    requires Newcomer(w, tid, bag) && t !in w.maker && t !in w.running && d !in w.opener
    requires kept <= w.cache.Keys + {ToLower(bag)} && (how.Works? ==> how.downloader == d)
    ensures CanRun(hash, w, run) && Own(run, tid)
    ensures var w', id := Ran(hash, w, run), Hex.Decode(bag);
            if id == None then
              CameBack(w, w', tid, bag, None) && SameTorrents(w, w') && w'.index == w.index && w'.leaked == w.leaked
            else if !how.Works? then
              && CameBack(w, w', tid, bag, None) && SameTorrents(w, w')
              && w'.index == w.index[hash(id.value) := t]
              && w'.leaked == w.leaked + if how.NoHeader? then {d} else {}
            else
              && CameBack(w, w', tid, bag, Some(Handle(t, Some(d))))
              && w'.index == w.index[hash(id.value) := t] && w'.leaked == w.leaked
              && var start := w.cache[ToLower(bag) := Entry(t, Some(d), how.bagSize, stamp)];
                 && w'.cache == Only(start, kept)
                 && w'.running == w.running + {t} - StoppedBy(start, w'.cache)
                 && w'.closed == w.closed + ClosedBy(start, w'.cache)
  {
    if Hex.Decode(bag) == None {
      CameBackIn(w, Entered(w, tid, bag, ToLower(bag)), tid, bag, None);
      run := BadIds(hash, Entered(w, tid, bag, ToLower(bag)), tid);
      run := Enters(hash, w, tid, bag, run);
    } else if how.Works? {
      run := NewCallStores(hash, w, tid, bag, t, d, Entry(t, Some(d), how.bagSize, stamp), kept);
    } else {
      run := NewCallFails(hash, w, tid, bag, t, d, how.NoHeader?);
    }
  }

  lemma {:induction false} NewCallStores(hash: Hash, w: World, tid: Tid, bag: string, t: Torrent, d: Downloader,
                                         entry: Entry, kept: set<string>)
    returns (run: seq<Action>)
    requires Newcomer(w, tid, bag) && Hex.Decode(bag).Some? && t !in w.maker && d !in w.opener
    requires kept <= w.cache.Keys + {ToLower(bag)} && entry.torrent == t && entry.downloader == Some(d)
    ensures CanRun(hash, w, run) && Own(run, tid)
    ensures var w' := Ran(hash, w, run);
            && CameBack(w, w', tid, bag, Some(Handle(t, Some(d))))
            && w'.index == w.index[hash(Hex.Decode(bag).value) := t] && w'.leaked == w.leaked
            && var start := w.cache[ToLower(bag) := entry];
               && w'.cache == Only(start, kept)
               && w'.running == w.running + {t} - StoppedBy(start, w'.cache)
               && w'.closed == w.closed + ClosedBy(start, w'.cache)
  {
    var e := Entered(w, tid, bag, ToLower(bag));
    CameBackIn(w, StoredIn(Opened(hash, e, tid, t, d), ToLower(bag), entry, kept), tid, bag, Some(Handle(t, Some(d))));
    run := Stores(hash, e, tid, t, d, entry, kept);
    run := Enters(hash, w, tid, bag, run);
  }

  lemma {:induction false} NewCallFails(hash: Hash, w: World, tid: Tid, bag: string, t: Torrent, d: Downloader, connected: bool)
    returns (run: seq<Action>)
    requires Newcomer(w, tid, bag) && Hex.Decode(bag).Some? && t !in w.maker && t !in w.running && d !in w.opener
    ensures CanRun(hash, w, run) && Own(run, tid)
    ensures var w' := Ran(hash, w, run);
            && CameBack(w, w', tid, bag, None) && SameTorrents(w, w')
            && w'.index == w.index[hash(Hex.Decode(bag).value) := t]
            && w'.leaked == w.leaked + if connected then {d} else {}
  {
    var e := Entered(w, tid, bag, ToLower(bag));
    if connected {
      CameBackIn(w, Made(hash, e, tid, t).(opener := e.opener[d := bag], leaked := e.leaked + {d}), tid, bag, None);
      run := LosesHeader(hash, e, tid, t, d);
    } else {
      CameBackIn(w, Made(hash, e, tid, t), tid, bag, None);
      run := Fails(hash, e, tid, t);
    }
    run := Enters(hash, w, tid, bag, run);
  }

  ghost predicate SameTorrents(w: World, w': World) {
    w'.cache == w.cache && w'.running == w.running && w'.closed == w.closed
  }
}
