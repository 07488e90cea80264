/** Any number of `getTorrent` calls at work at the same time: the cache of bags, the mutex of
    each bag, and the index of torrents by overlay, one atomic step at a time.

    The cache and the overlay index do not tell spellings of a bag id apart, the mutexes do.
    The theorems are about runs whose ids are lower-case, as the handlers make them; what two
    spellings can do to each other is in Downloaders. */
module TorrentProtocol {
  import opened Text
  import opened Wrappers
  import Hex
  import opened BagsCaching
  import opened KeyedMutex

  // ---- The overlay index ----------------------------------------------------------------------------

  /** The hash that names a bag's overlay. */
  type Hash = seq<int> -> nat

  ghost predicate Injective(hash: Hash) {
    forall a, b | hash(a) == hash(b) :: a == b
  }

  class VirtualStorage {
    const hash: Hash
    var torrents: map<nat, Torrent>

    constructor (hash: Hash)
      ensures torrents == map[] && this.hash == hash
    {
      this.hash := hash;
      torrents := map[];
    }

    method SetTorrent(bagId: seq<int>, torrent: Torrent)
      modifies this
      ensures torrents == old(torrents)[hash(bagId) := torrent]
    {
      torrents := torrents[hash(bagId) := torrent];
    }

    method GetTorrentByOverlay(overlay: nat) returns (torrent: Option<Torrent>)
      ensures torrent.Some? <==> overlay in torrents
      ensures torrent.Some? ==> torrent.value == torrents[overlay]
    {
      torrent := if overlay in torrents then Some(torrents[overlay]) else None;
    }
  }

  // ---- Threads and the state they share -------------------------------------------------------------

  /** What a call hands out. */
  datatype Handle = Handle(torrent: Torrent, downloader: Option<Downloader>)

  /** Where a call stands between two atomic steps. From `Locked` to `Leaving` it is between
      lock and unlock. */
  datatype Phase =
    | Called
    | ToLock
    | Queued
    | Locked
    | Missed
    | Created(torrent: Torrent)
    | Started(torrent: Torrent)
    | Connected(torrent: Torrent, downloader: Downloader)
    | Leaving(got: Option<Handle>)
    | Returned(got: Option<Handle>)
  {
    predicate InLock() {
      Locked? || Missed? || Holds() || Leaving?
    }

    /** A torrent that only this call knows, but for the overlay index. */
    predicate Holds() {
      Created? || Started? || Connected?
    }
  }

  /** A call for `bag`; `key` is the lower-case id it looks up in the cache. */
  datatype Thread = Thread(bag: string, key: string, phase: Phase)

  /** `maker` and `opener` remember the bag each torrent and each downloader was made for,
      `leaked` the downloaders given up when a header was missing. */
  datatype World = World(
    threads: map<Tid, Thread>,
    gate: Gate,
    cache: Entries,
    index: map<nat, Torrent>,
    running: set<Torrent>,
    closed: set<Downloader>,
    maker: map<Torrent, string>,
    opener: map<Downloader, string>,
    leaked: set<Downloader>)

  const IDLE := World(map[], OPEN_GATE, map[], map[], {}, {}, map[], map[], {})

  datatype Action =
    | Call(tid: Tid, bag: string)
    | FirstCheck(tid: Tid, stamp: nat)
    | Queue(tid: Tid)
    | Enter(tid: Tid)
    | SecondCheck(tid: Tid, stamp: nat)
    | BadId(tid: Tid)
    | Create(tid: Tid, torrent: Torrent)
    | Start(tid: Tid)
    | Fail(tid: Tid)
    | Connect(tid: Tid, downloader: Downloader)
    | HeaderMissing(tid: Tid)
    | Store(tid: Tid, entry: Entry, kept: set<string>)
    | Leave(tid: Tid)

  predicate At(w: World, tid: Tid, phase: Phase) {
    tid in w.threads && w.threads[tid].phase == phase
  }

  predicate Enabled(w: World, a: Action) {
    match a
    case Call(tid, _) => tid !in w.threads
    case FirstCheck(tid, _) => At(w, tid, Called)
    case Queue(tid) => At(w, tid, ToLock) && CanMove(w.gate, TakeLock(tid, w.threads[tid].bag))
    case Enter(tid) => At(w, tid, Queued) && CanMove(w.gate, Lock(tid))
    case SecondCheck(tid, _) => At(w, tid, Locked)
    case BadId(tid) => At(w, tid, Missed) && Hex.Decode(w.threads[tid].bag) == None
    case Create(tid, t) => At(w, tid, Missed) && Hex.Decode(w.threads[tid].bag).Some? && t !in w.maker
    case Start(tid) => tid in w.threads && w.threads[tid].phase.Created?
    case Fail(tid) => tid in w.threads && w.threads[tid].phase.Started?
    case Connect(tid, d) => tid in w.threads && w.threads[tid].phase.Started? && d !in w.opener
    case HeaderMissing(tid) => tid in w.threads && w.threads[tid].phase.Connected?
    case Store(tid, e, kept) =>
      && tid in w.threads && w.threads[tid].phase.Connected?
      && e.torrent == w.threads[tid].phase.torrent && e.downloader == Some(w.threads[tid].phase.downloader)
      && kept <= w.cache.Keys + {w.threads[tid].key}
    case Leave(tid) => tid in w.threads && w.threads[tid].phase.Leaving? && CanMove(w.gate, Unlock(tid))
  }

  /** The id of a new call is lower-case. */
  predicate Spelled(a: Action) {
    a.Call? ==> IsLower(a.bag)
  }

  function Put(w: World, tid: Tid, phase: Phase): World
    requires tid in w.threads
  {
    w.(threads := w.threads[tid := w.threads[tid].(phase := phase)])
  }

  /** `BagsCache.Get`: a hit is stamped, a miss changes nothing. */
  function Stamp(cache: Entries, bag: string, stamp: nat): Entries {
    if bag in cache then cache[bag := cache[bag].(lastUsed := stamp)] else cache
  }

  function Cached(cache: Entries, bag: string): Option<Handle>
    requires bag in cache
  {
    Some(Handle(cache[bag].torrent, cache[bag].downloader))
  }

  function Only(cache: Entries, kept: set<string>): Entries {
    map id | id in cache && id in kept :: cache[id]
  }

  /** A step. `Store` keeps any part of the cache, so its evictions include those of
      `BagsCache.Set`; what is evicted is stopped and closed. */
  ghost function Next(hash: Hash, w: World, a: Action): World
    requires Enabled(w, a)
  {
    match a
    case Call(tid, bag) => w.(threads := w.threads[tid := Thread(bag, ToLower(bag), Called)])
    case FirstCheck(tid, stamp) =>
      var key := w.threads[tid].key;
      Put(w.(cache := Stamp(w.cache, key, stamp)), tid, if key in w.cache then Returned(Cached(w.cache, key)) else ToLock)
    case Queue(tid) => Put(w.(gate := Moved(w.gate, TakeLock(tid, w.threads[tid].bag))), tid, Queued)
    case Enter(tid) => Put(w.(gate := Moved(w.gate, Lock(tid))), tid, Locked)
    case SecondCheck(tid, stamp) =>
      var key := w.threads[tid].key;
      Put(w.(cache := Stamp(w.cache, key, stamp)), tid, if key in w.cache then Leaving(Cached(w.cache, key)) else Missed)
    case BadId(tid) => Put(w, tid, Leaving(None))
    case Create(tid, t) =>
      var bag := w.threads[tid].bag;
      Put(w.(index := w.index[hash(Hex.Decode(bag).value) := t], maker := w.maker[t := bag]), tid, Created(t))
    case Start(tid) =>
      var t := w.threads[tid].phase.torrent;
      Put(w.(running := w.running + {t}), tid, Started(t))
    case Fail(tid) => Put(w.(running := w.running - {w.threads[tid].phase.torrent}), tid, Leaving(None))
    case Connect(tid, d) =>
      Put(w.(opener := w.opener[d := w.threads[tid].bag]), tid, Connected(w.threads[tid].phase.torrent, d))
    case HeaderMissing(tid) =>
      var phase := w.threads[tid].phase;
      Put(w.(running := w.running - {phase.torrent}, leaked := w.leaked + {phase.downloader}), tid, Leaving(None))
    case Store(tid, e, kept) =>
      var start := w.cache[w.threads[tid].key := e];
      var after := Only(start, kept);
      Put(w.(cache := after, running := w.running - StoppedBy(start, after), closed := w.closed + ClosedBy(start, after)),
          tid, Leaving(Some(Handle(e.torrent, e.downloader))))
    case Leave(tid) => Put(w.(gate := Moved(w.gate, Unlock(tid))), tid, Returned(w.threads[tid].phase.got))
  }

  // ---- The invariant ------------------------------------------------------------------------------------

  /** A call stands at the gate where its phase says. */
  ghost predicate AtGate(w: World, tid: Tid, t: Thread) {
    && IsLower(t.bag)
    && (t.phase.InLock() <==> IsInside(w.gate, tid, t.bag))
    && (t.phase.Queued? ==> tid in w.gate.place && w.gate.place[tid].Waiting? && w.gate.place[tid].key == t.bag)
    && (!t.phase.InLock() && !t.phase.Queued? ==> tid !in w.gate.place)
  }

  ghost predicate GateOk(w: World) {
    && Valid(w.gate)
    && (forall tid | tid in w.threads :: AtGate(w, tid, w.threads[tid]))
    && (forall tid | tid in w.gate.place :: tid in w.threads)
  }

  /** The index leads from a bag to `t`. */
  ghost predicate Indexed(hash: Hash, index: map<nat, Torrent>, bag: string, t: Torrent) {
    && Hex.Decode(bag).Some?
    && hash(Hex.Decode(bag).value) in index
    && index[hash(Hex.Decode(bag).value)] == t
  }

  /** A cached bag: its torrent runs, its downloader is open, the index leads to it. */
  ghost predicate EntryOk(hash: Hash, w: World, bag: string, e: Entry) {
    && IsLower(bag)
    && e.torrent in w.maker && w.maker[e.torrent] == bag && e.torrent in w.running
    && e.downloader.Some? && e.downloader.value in w.opener && w.opener[e.downloader.value] == bag
    && e.downloader.value !in w.closed
    && Indexed(hash, w.index, bag, e.torrent)
  }

  /** A call that saw a miss under the lock: its bag is not cached. */
  ghost predicate WorkOk(hash: Hash, w: World, t: Thread) {
    && t.key == t.bag
    && (t.phase.Missed? || t.phase.Holds() ==> t.bag !in w.cache)
    && (t.phase.Holds() ==>
          && t.phase.torrent in w.maker && w.maker[t.phase.torrent] == t.bag
          && Indexed(hash, w.index, t.bag, t.phase.torrent)
          && (t.phase.torrent in w.running <==> !t.phase.Created?))
    && (t.phase.Connected? ==>
          t.phase.downloader in w.opener && w.opener[t.phase.downloader] == t.bag && t.phase.downloader !in w.closed)
  }

  /** The torrent is the cached one for its bag. */
  ghost predicate IsCached(w: World, t: Torrent) {
    t in w.maker && w.maker[t] in w.cache && w.cache[w.maker[t]].torrent == t
  }

  /** The torrent is in the hands of the call `tid`, which is between lock and unlock. */
  ghost predicate IsHeldBy(w: World, t: Torrent, tid: Tid) {
    && tid in w.threads && w.threads[tid].phase.Holds() && w.threads[tid].phase.torrent == t
    && t in w.maker && w.threads[tid].bag == w.maker[t]
  }

  ghost predicate IsHeld(w: World, t: Torrent) {
    exists tid :: IsHeldBy(w, t, tid)
  }

  ghost predicate Inv(hash: Hash, w: World) {
    && GateOk(w)
    && (forall bag | bag in w.cache :: EntryOk(hash, w, bag, w.cache[bag]))
    && (forall tid | tid in w.threads :: WorkOk(hash, w, w.threads[tid]))
    && (forall t | t in w.running :: IsCached(w, t) || IsHeld(w, t))
    && (forall d | d in w.closed :: d in w.opener)
  }

  // ---- The gate ---------------------------------------------------------------------------------------------

  lemma OthersStandStill(hash: Hash, w: World, a: Action, tid: Tid)
    requires Enabled(w, a) && tid in Next(hash, w, a).threads && tid != a.tid
    ensures tid in w.threads && Next(hash, w, a).threads[tid] == w.threads[tid]
  {
  }

  lemma {:induction false} GateStaysValid(hash: Hash, w: World, a: Action)
    requires GateOk(w) && Enabled(w, a)
    ensures Valid(Next(hash, w, a).gate)
  {
    match a {
      case Queue(tid) => MoveKeepsValid(w.gate, TakeLock(tid, w.threads[tid].bag));
      case Enter(tid) => MoveKeepsValid(w.gate, Lock(tid));
      case Leave(tid) => MoveKeepsValid(w.gate, Unlock(tid));
      case _ =>
    }
  }

  lemma OtherPlacesStay(hash: Hash, w: World, a: Action, tid: Tid)
    requires Enabled(w, a) && tid != a.tid
    ensures tid in Next(hash, w, a).gate.place <==> tid in w.gate.place
    ensures tid in w.gate.place ==> Next(hash, w, a).gate.place[tid] == w.gate.place[tid]
  {
  }

  lemma {:induction false} OthersStayAtGate(hash: Hash, w: World, a: Action, tid: Tid)
    requires GateOk(w) && Enabled(w, a) && tid in Next(hash, w, a).threads && tid != a.tid
    ensures AtGate(Next(hash, w, a), tid, Next(hash, w, a).threads[tid])
  {
    OthersStandStill(hash, w, a, tid);
    OtherPlacesStay(hash, w, a, tid);
    assert AtGate(w, tid, w.threads[tid]);
  }

  lemma MoverPassesGate(hash: Hash, w: World, a: Action)
    requires GateOk(w) && Enabled(w, a) && (a.Queue? || a.Enter? || a.Leave?)
    ensures a.tid in Next(hash, w, a).threads && AtGate(Next(hash, w, a), a.tid, Next(hash, w, a).threads[a.tid])
  {
    assert AtGate(w, a.tid, w.threads[a.tid]);
  }

  lemma {:induction false} MoverIsAtGate(hash: Hash, w: World, a: Action)
    requires GateOk(w) && Enabled(w, a) && Spelled(a)
    ensures a.tid in Next(hash, w, a).threads && AtGate(Next(hash, w, a), a.tid, Next(hash, w, a).threads[a.tid])
  {
    if a.Queue? || a.Enter? || a.Leave? {
      MoverPassesGate(hash, w, a);
    } else if !a.Call? {
      MoverStaysAtGate(hash, w, a);
    }
  }

  lemma MoverStaysAtGate(hash: Hash, w: World, a: Action)
    requires GateOk(w) && Enabled(w, a) && !a.Call? && !a.Queue? && !a.Enter? && !a.Leave?
    ensures a.tid in Next(hash, w, a).threads && AtGate(Next(hash, w, a), a.tid, Next(hash, w, a).threads[a.tid])
  {
    assert AtGate(w, a.tid, w.threads[a.tid]);
  }

  lemma {:induction false} NextKeepsGate(hash: Hash, w: World, a: Action)
    requires GateOk(w) && Enabled(w, a) && Spelled(a)
    ensures GateOk(Next(hash, w, a))
  {
    var w' := Next(hash, w, a);
    GateStaysValid(hash, w, a);
    forall tid | tid in w'.threads ensures AtGate(w', tid, w'.threads[tid]) {
      if tid == a.tid {
        MoverIsAtGate(hash, w, a);
      } else {
        OthersStayAtGate(hash, w, a, tid);
      }
    }
    PlacesAreThreads(hash, w, a);
  }

  lemma PlacesAreThreads(hash: Hash, w: World, a: Action)
    requires GateOk(w) && Enabled(w, a)
    ensures forall tid | tid in Next(hash, w, a).gate.place :: tid in Next(hash, w, a).threads
  {
  }

  /** At most one call per bag is between lock and unlock. */
  lemma OneCallPerBag(w: World, a: Tid, b: Tid)
    requires GateOk(w) && a in w.threads && b in w.threads
    requires w.threads[a].phase.InLock() && w.threads[b].phase.InLock() && w.threads[a].bag == w.threads[b].bag
    ensures a == b
  {
    assert AtGate(w, a, w.threads[a]) && AtGate(w, b, w.threads[b]);
    AtMostOneInside(w.gate, a, b, w.threads[a].bag);
  }

  // ---- Torrents, downloaders and the index ------------------------------------------------------------------

  /** What was made for a bag stays made for it. */
  lemma RecordsGrow(hash: Hash, w: World, a: Action)
    requires Enabled(w, a)
    ensures forall t | t in w.maker :: t in Next(hash, w, a).maker && Next(hash, w, a).maker[t] == w.maker[t]
    ensures forall d | d in w.opener :: d in Next(hash, w, a).opener && Next(hash, w, a).opener[d] == w.opener[d]
  {
  }

  /** Storing another bag's torrent in the index moves nothing: the hash is injective, and
      lower-case ids are spelled in one way. */
  lemma IndexKeepsOthers(hash: Hash, index: map<nat, Torrent>, bag: string, t: Torrent, other: string, u: Torrent)
    requires Injective(hash) && IsLower(bag) && IsLower(other) && bag != other
    requires Hex.Decode(other).Some? && Indexed(hash, index, bag, t)
    ensures Indexed(hash, index[hash(Hex.Decode(other).value) := u], bag, t)
  {
    if Hex.Decode(bag) == Hex.Decode(other) {
      Hex.LowerIsUnique(bag, other);
    }
  }

  /** A step keeps what the index says of every bag but the one it creates a torrent for. */
  lemma {:induction false} IndexStays(hash: Hash, w: World, a: Action, bag: string, t: Torrent)
    requires Injective(hash) && Inv(hash, w) && Enabled(w, a) && IsLower(bag) && Indexed(hash, w.index, bag, t)
    requires !WorksOn(w, a, bag)
    ensures Indexed(hash, Next(hash, w, a).index, bag, t)
  {
    if a.Create? {
      assert AtGate(w, a.tid, w.threads[a.tid]);
      IndexKeepsOthers(hash, w.index, bag, t, w.threads[a.tid].bag, a.torrent);
    }
  }

  /** The bag a call works on when a torrent or downloader of the cache may change hands. */
  ghost predicate WorksOn(w: World, a: Action, bag: string) {
    a.tid in w.threads && w.threads[a.tid].bag == bag && !a.Call? && (w.threads[a.tid].phase.Missed? || w.threads[a.tid].phase.Holds())
  }

  /** A step stops only torrents of the bag it works on and of bags it evicts. */
  lemma {:induction false} RunningStays(hash: Hash, w: World, a: Action, t: Torrent)
    requires Inv(hash, w) && Enabled(w, a) && t in w.running && t in w.maker && !WorksOn(w, a, w.maker[t])
    requires w.maker[t] in w.cache ==> w.maker[t] in Next(hash, w, a).cache
    ensures t in Next(hash, w, a).running
  {
    if a.Store? {
      StoppedIsDropped(hash, w, a, t);
      assert Next(hash, w, a).running ==
        w.running - StoppedBy(w.cache[w.threads[a.tid].key := a.entry], Only(w.cache[w.threads[a.tid].key := a.entry], a.kept));
    } else if a.Fail? || a.HeaderMissing? {
      FailureStopsItsOwn(hash, w, a, t);
    } else {
      NothingStops(hash, w, a);
    }
  }

  lemma {:induction false} FailureStopsItsOwn(hash: Hash, w: World, a: Action, t: Torrent)
    requires Inv(hash, w) && Enabled(w, a) && (a.Fail? || a.HeaderMissing?)
    requires t in w.running && t in w.maker && !WorksOn(w, a, w.maker[t])
    ensures t in Next(hash, w, a).running
  {
    assert WorkOk(hash, w, w.threads[a.tid]);
  }

  lemma {:induction false} NothingStops(hash: Hash, w: World, a: Action)
    requires Enabled(w, a) && !a.Store? && !a.Fail? && !a.HeaderMissing?
    ensures w.running <= Next(hash, w, a).running
  {
  }

  lemma {:induction false} StoppedIsDropped(hash: Hash, w: World, a: Action, t: Torrent)
    requires Inv(hash, w) && Enabled(w, a) && a.Store? && t in w.maker
    requires w.maker[t] != w.threads[a.tid].bag
    requires w.maker[t] in w.cache ==> w.maker[t] in Next(hash, w, a).cache
    ensures var start := w.cache[w.threads[a.tid].key := a.entry]; t !in StoppedBy(start, Only(start, a.kept))
  {
    var start := w.cache[w.threads[a.tid].key := a.entry];
    assert WorkOk(hash, w, w.threads[a.tid]);
    forall id | id in start && start[id].torrent == t ensures id == w.maker[t] {
      if id != w.threads[a.tid].bag {
        assert EntryOk(hash, w, id, w.cache[id]);
      }
    }
  }

  lemma {:induction false} OpenStays(hash: Hash, w: World, a: Action, d: Downloader)
    requires Inv(hash, w) && Enabled(w, a) && d !in w.closed && d in w.opener && !WorksOn(w, a, w.opener[d])
    requires w.opener[d] in w.cache ==> w.opener[d] in Next(hash, w, a).cache
    ensures d !in Next(hash, w, a).closed
  {
    if a.Store? {
      ClosedIsDropped(hash, w, a, d);
    }
  }

  lemma {:induction false} ClosedIsDropped(hash: Hash, w: World, a: Action, d: Downloader)
    requires Inv(hash, w) && Enabled(w, a) && a.Store? && d in w.opener
    requires w.opener[d] != w.threads[a.tid].bag
    requires w.opener[d] in w.cache ==> w.opener[d] in Next(hash, w, a).cache
    ensures var start := w.cache[w.threads[a.tid].key := a.entry]; d !in ClosedBy(start, Only(start, a.kept))
  {
    var start := w.cache[w.threads[a.tid].key := a.entry];
    assert WorkOk(hash, w, w.threads[a.tid]);
    forall id | id in start && start[id].downloader == Some(d) ensures id == w.opener[d] {
      if id != w.threads[a.tid].bag {
        assert EntryOk(hash, w, id, w.cache[id]);
      }
    }
  }

  // ---- Cached entries -----------------------------------------------------------------------------------------

  /** Only a store adds or drops entries, and lookups change nothing but stamps. */
  lemma {:induction false} CacheAfter(hash: Hash, w: World, a: Action)
    requires Enabled(w, a)
    ensures a.Store? ==> Next(hash, w, a).cache == Only(w.cache[w.threads[a.tid].key := a.entry], a.kept)
    ensures !a.Store? ==> Next(hash, w, a).cache.Keys == w.cache.Keys
    ensures !a.Store? ==> forall id | id in w.cache ::
              Next(hash, w, a).cache[id].torrent == w.cache[id].torrent
              && Next(hash, w, a).cache[id].downloader == w.cache[id].downloader
  {
  }

  lemma {:induction false} OldEntryKeepsItsOwn(hash: Hash, w: World, a: Action, bag: string)
    requires Inv(hash, w) && Enabled(w, a) && bag in w.cache && bag in Next(hash, w, a).cache
    ensures Next(hash, w, a).cache[bag].torrent == w.cache[bag].torrent
    ensures Next(hash, w, a).cache[bag].downloader == w.cache[bag].downloader
    ensures !WorksOn(w, a, bag)
  {
    CacheAfter(hash, w, a);
    assert a.tid in w.threads ==> WorkOk(hash, w, w.threads[a.tid]);
  }

  /** Entries that were cached before the step and still are. */
  lemma {:induction false} OldEntryStaysOk(hash: Hash, w: World, a: Action, bag: string)
    requires Injective(hash) && Inv(hash, w) && Enabled(w, a)
    requires bag in w.cache && bag in Next(hash, w, a).cache
    ensures EntryOk(hash, Next(hash, w, a), bag, Next(hash, w, a).cache[bag])
  {
    var e := w.cache[bag];
    assert EntryOk(hash, w, bag, e);
    OldEntryKeepsItsOwn(hash, w, a, bag);
    RecordsGrow(hash, w, a);
    IndexStays(hash, w, a, bag, e.torrent);
    RunningStays(hash, w, a, e.torrent);
    OpenStays(hash, w, a, e.downloader.value);
  }

  /** The entry a call stores, unless it is evicted at once. */
  lemma {:induction false} NewEntryIsOk(hash: Hash, w: World, a: Action, bag: string)
    requires Inv(hash, w) && Enabled(w, a) && bag !in w.cache && bag in Next(hash, w, a).cache
    ensures a.Store? && bag == w.threads[a.tid].bag
    ensures EntryOk(hash, Next(hash, w, a), bag, Next(hash, w, a).cache[bag])
  {
    CacheAfter(hash, w, a);
    assert WorkOk(hash, w, w.threads[a.tid]) && AtGate(w, a.tid, w.threads[a.tid]);
    StoredStaysUp(hash, w, a);
  }

  lemma {:induction false} StoredStaysUp(hash: Hash, w: World, a: Action)
    requires Inv(hash, w) && Enabled(w, a) && a.Store? && w.threads[a.tid].key in a.kept
    ensures var start := w.cache[w.threads[a.tid].key := a.entry];
            && a.entry.torrent !in StoppedBy(start, Only(start, a.kept))
            && a.entry.downloader.value !in ClosedBy(start, Only(start, a.kept))
  {
    var bag := w.threads[a.tid].key;
    var start := w.cache[bag := a.entry];
    assert WorkOk(hash, w, w.threads[a.tid]);
    forall id | id in start && id != bag
      ensures start[id].torrent != a.entry.torrent && start[id].downloader != a.entry.downloader
    {
      assert EntryOk(hash, w, id, w.cache[id]);
    }
  }

  // ---- Calls under the lock -----------------------------------------------------------------------------------

  /** No other call works on a bag between a miss under its lock and the unlock. */
  lemma {:induction false} OthersWorkElsewhere(hash: Hash, w: World, a: Action, tid: Tid)
    requires Inv(hash, w) && Enabled(w, a) && tid in w.threads && tid != a.tid
    requires w.threads[tid].phase.Missed? || w.threads[tid].phase.Holds()
    ensures !WorksOn(w, a, w.threads[tid].bag)
  {
    if WorksOn(w, a, w.threads[tid].bag) {
      OneCallPerBag(w, tid, a.tid);
    }
  }

  lemma {:induction false} OtherTorrentsDiffer(hash: Hash, w: World, a: Action, tid: Tid)
    requires Inv(hash, w) && Enabled(w, a) && tid in w.threads && tid != a.tid && w.threads[tid].phase.Holds()
    ensures a.Start? ==> w.threads[a.tid].phase.torrent != w.threads[tid].phase.torrent
  {
    OthersWorkElsewhere(hash, w, a, tid);
    assert WorkOk(hash, w, w.threads[tid]);
    assert a.tid in w.threads ==> WorkOk(hash, w, w.threads[a.tid]);
  }

  lemma {:induction false} OtherStaysUncached(hash: Hash, w: World, a: Action, tid: Tid)
    requires Inv(hash, w) && Enabled(w, a) && tid in w.threads && tid != a.tid
    requires w.threads[tid].phase.Missed? || w.threads[tid].phase.Holds()
    ensures w.threads[tid].bag !in Next(hash, w, a).cache
  {
    OthersWorkElsewhere(hash, w, a, tid);
    CacheAfter(hash, w, a);
    assert WorkOk(hash, w, w.threads[tid]);
  }

  lemma {:induction false} OtherWorkStaysOk(hash: Hash, w: World, a: Action, tid: Tid)
    requires Injective(hash) && Inv(hash, w) && Enabled(w, a) && tid in w.threads && tid != a.tid
    ensures WorkOk(hash, Next(hash, w, a), w.threads[tid])
  {
    var t := w.threads[tid];
    assert WorkOk(hash, w, t) && AtGate(w, tid, t);
    RecordsGrow(hash, w, a);
    if t.phase.Missed? || t.phase.Holds() {
      OthersWorkElsewhere(hash, w, a, tid);
      OtherStaysUncached(hash, w, a, tid);
    }
    if t.phase.Holds() {
      IndexStays(hash, w, a, t.bag, t.phase.torrent);
      HeldTorrentStays(hash, w, a, tid);
    }
    if t.phase.Connected? {
      OpenStays(hash, w, a, t.phase.downloader);
    }
  }

  lemma {:induction false} HeldTorrentStays(hash: Hash, w: World, a: Action, tid: Tid)
    requires Inv(hash, w) && Enabled(w, a) && tid in w.threads && tid != a.tid && w.threads[tid].phase.Holds()
    ensures w.threads[tid].phase.torrent in Next(hash, w, a).running <==> w.threads[tid].phase.torrent in w.running
  {
    assert WorkOk(hash, w, w.threads[tid]);
    OthersWorkElsewhere(hash, w, a, tid);
    OtherTorrentsDiffer(hash, w, a, tid);
    if w.threads[tid].phase.torrent in w.running {
      RunningStays(hash, w, a, w.threads[tid].phase.torrent);
    }
  }

  lemma {:induction false} RunningIsMade(hash: Hash, w: World, t: Torrent)
    requires Inv(hash, w) && t in w.running
    ensures t in w.maker
  {
    assert IsCached(w, t) || IsHeld(w, t);
  }

  lemma {:induction false} CreatorWorkIsOk(hash: Hash, w: World, a: Action)
    requires Inv(hash, w) && Enabled(w, a) && a.Create?
    ensures WorkOk(hash, Next(hash, w, a), Next(hash, w, a).threads[a.tid])
  {
    assert WorkOk(hash, w, w.threads[a.tid]);
    if a.torrent in w.running {
      RunningIsMade(hash, w, a.torrent);
    }
  }

  lemma {:induction false} HolderWorkIsOk(hash: Hash, w: World, a: Action)
    requires Inv(hash, w) && Enabled(w, a) && (a.Start? || a.Connect?)
    ensures WorkOk(hash, Next(hash, w, a), Next(hash, w, a).threads[a.tid])
  {
    assert WorkOk(hash, w, w.threads[a.tid]);
  }

  /** How a call comes to see a miss, and to hold a torrent. */
  lemma {:induction false} PhaseAfter(hash: Hash, w: World, a: Action)
    requires Enabled(w, a)
    ensures a.tid in Next(hash, w, a).threads
    ensures var t := Next(hash, w, a).threads[a.tid];
            && (if a.Call? then t.key == ToLower(t.bag) && t.bag == a.bag
                else a.tid in w.threads && t.key == w.threads[a.tid].key && t.bag == w.threads[a.tid].bag)
            && (t.phase.Missed? ==> t.key !in Next(hash, w, a).cache)
            && (t.phase.Holds() ==> a.Create? || a.Start? || a.Connect?)
  {
  }

  lemma {:induction false} MoverWorkIsOk(hash: Hash, w: World, a: Action)
    requires Inv(hash, w) && Enabled(w, a) && Spelled(a)
    ensures a.tid in Next(hash, w, a).threads && WorkOk(hash, Next(hash, w, a), Next(hash, w, a).threads[a.tid])
  {
    PhaseAfter(hash, w, a);
    if a.Call? {
      ToLowerFixesLower(a.bag);
    } else {
      assert WorkOk(hash, w, w.threads[a.tid]);
    }
    if a.Create? {
      CreatorWorkIsOk(hash, w, a);
    } else if a.Start? || a.Connect? {
      HolderWorkIsOk(hash, w, a);
    }
  }

  // ---- No live torrent is lost -----------------------------------------------------------------------------------

  lemma {:induction false} EvictedIsStopped(start: Entries, kept: set<string>, id: string)
    requires id in start && start[id].downloader.Some?
    ensures id !in kept ==> start[id].torrent in StoppedBy(start, Only(start, kept))
  {
  }

  lemma {:induction false} CachedStaysFound(hash: Hash, w: World, a: Action, t: Torrent)
    requires Injective(hash) && Inv(hash, w) && Enabled(w, a) && IsCached(w, t) && t in Next(hash, w, a).running
    ensures IsCached(Next(hash, w, a), t)
  {
    var bag := w.maker[t];
    RecordsGrow(hash, w, a);
    CachedStaysCached(hash, w, a, bag);
    OldEntryKeepsItsOwn(hash, w, a, bag);
  }

  /** A cached bag is evicted only by stopping its torrent. */
  lemma {:induction false} CachedStaysCached(hash: Hash, w: World, a: Action, bag: string)
    requires Inv(hash, w) && Enabled(w, a) && bag in w.cache && w.cache[bag].torrent in Next(hash, w, a).running
    ensures bag in Next(hash, w, a).cache
  {
    CacheAfter(hash, w, a);
    if a.Store? {
      assert WorkOk(hash, w, w.threads[a.tid]) && EntryOk(hash, w, bag, w.cache[bag]);
      EvictedIsStopped(w.cache[w.threads[a.tid].key := a.entry], a.kept, bag);
    }
  }

  lemma {:induction false} OtherHoldsOn(hash: Hash, w: World, a: Action, t: Torrent, tid: Tid)
    requires Enabled(w, a) && IsHeldBy(w, t, tid) && tid != a.tid
    ensures IsHeldBy(Next(hash, w, a), t, tid)
  {
    RecordsGrow(hash, w, a);
  }

  lemma {:induction false} HeldStaysFound(hash: Hash, w: World, a: Action, t: Torrent, tid: Tid)
    requires Inv(hash, w) && Enabled(w, a) && IsHeldBy(w, t, tid) && t in Next(hash, w, a).running
    ensures IsHeldBy(Next(hash, w, a), t, tid) || IsCached(Next(hash, w, a), t)
  {
    if a.tid != tid {
      OtherHoldsOn(hash, w, a, t, tid);
    } else if a.Store? {
      StoredStaysFound(hash, w, a, t);
    } else {
      HolderKeeps(hash, w, a, t);
    }
  }

  lemma {:induction false} StoredStaysFound(hash: Hash, w: World, a: Action, t: Torrent)
    requires Inv(hash, w) && Enabled(w, a) && IsHeldBy(w, t, a.tid) && a.Store? && t in Next(hash, w, a).running
    ensures IsCached(Next(hash, w, a), t)
  {
    assert WorkOk(hash, w, w.threads[a.tid]);
    EvictedIsStopped(w.cache[w.threads[a.tid].key := a.entry], a.kept, w.threads[a.tid].key);
  }

  lemma {:induction false} HolderKeeps(hash: Hash, w: World, a: Action, t: Torrent)
    requires Inv(hash, w) && Enabled(w, a) && IsHeldBy(w, t, a.tid) && !a.Store? && t in Next(hash, w, a).running
    ensures IsHeldBy(Next(hash, w, a), t, a.tid)
  {
  }

  lemma {:induction false} RunningIsFound(hash: Hash, w: World, a: Action, t: Torrent)
    requires Injective(hash) && Inv(hash, w) && Enabled(w, a) && t in Next(hash, w, a).running
    ensures IsCached(Next(hash, w, a), t) || IsHeld(Next(hash, w, a), t)
  {
    if t !in w.running {
      StartedIsHeld(hash, w, a, t);
    } else if IsCached(w, t) {
      CachedStaysFound(hash, w, a, t);
    } else {
      assert IsHeld(w, t);
      var tid :| IsHeldBy(w, t, tid);
      HeldStaysFound(hash, w, a, t, tid);
    }
  }

  lemma {:induction false} StartedIsHeld(hash: Hash, w: World, a: Action, t: Torrent)
    requires Inv(hash, w) && Enabled(w, a) && t in Next(hash, w, a).running && t !in w.running
    ensures IsHeld(Next(hash, w, a), t)
  {
    assert WorkOk(hash, w, w.threads[a.tid]);
    assert IsHeldBy(Next(hash, w, a), t, a.tid);
  }

  lemma {:induction false} ClosedWasOpened(hash: Hash, w: World, a: Action, d: Downloader)
    requires Inv(hash, w) && Enabled(w, a) && d in Next(hash, w, a).closed
    ensures d in Next(hash, w, a).opener
  {
    RecordsGrow(hash, w, a);
    if d !in w.closed {
      var start := w.cache[w.threads[a.tid].key := a.entry];
      var id :| id in start && start[id].downloader == Some(d);
      assert WorkOk(hash, w, w.threads[a.tid]);
      assert id in w.cache ==> EntryOk(hash, w, id, w.cache[id]);
    }
  }

  lemma {:induction false} NextKeepsInv(hash: Hash, w: World, a: Action)
    requires Injective(hash) && Inv(hash, w) && Enabled(w, a) && Spelled(a)
    ensures Inv(hash, Next(hash, w, a))
  {
    var w' := Next(hash, w, a);
    NextKeepsGate(hash, w, a);
    forall bag | bag in w'.cache ensures EntryOk(hash, w', bag, w'.cache[bag]) {
      if bag in w.cache {
        OldEntryStaysOk(hash, w, a, bag);
      } else {
        NewEntryIsOk(hash, w, a, bag);
      }
    }
    forall tid | tid in w'.threads ensures WorkOk(hash, w', w'.threads[tid]) {
      if tid == a.tid {
        MoverWorkIsOk(hash, w, a);
      } else {
        OthersStandStill(hash, w, a, tid);
        OtherWorkStaysOk(hash, w, a, tid);
      }
    }
    forall t | t in w'.running ensures IsCached(w', t) || IsHeld(w', t) {
      RunningIsFound(hash, w, a, t);
    }
    forall d | d in w'.closed ensures d in w'.opener {
      ClosedWasOpened(hash, w, a, d);
    }
  }

  // ---- Runs --------------------------------------------------------------------------------------------------------

  ghost predicate CanRun(hash: Hash, w: World, run: seq<Action>)
    decreases |run|
  {
    run != [] ==> Enabled(w, run[0]) && CanRun(hash, Next(hash, w, run[0]), run[1..])
  }

  ghost function Ran(hash: Hash, w: World, run: seq<Action>): World
    requires CanRun(hash, w, run)
    decreases |run|
  {
    if run == [] then w else Ran(hash, Next(hash, w, run[0]), run[1..])
  }

  /** Every id of the run is lower-case. */
  predicate LowerCase(run: seq<Action>) {
    forall k | 0 <= k < |run| :: Spelled(run[k])
  }

  lemma {:induction false} RunKeepsInv(hash: Hash, w: World, run: seq<Action>)
    requires Injective(hash) && Inv(hash, w) && CanRun(hash, w, run) && LowerCase(run)
    ensures Inv(hash, Ran(hash, w, run))
    decreases |run|
  {
    if run != [] {
      NextKeepsInv(hash, w, run[0]);
      RunKeepsInv(hash, Next(hash, w, run[0]), run[1..]);
    }
  }

  lemma {:induction false} RanInv(hash: Hash, run: seq<Action>)
    requires Injective(hash) && CanRun(hash, IDLE, run) && LowerCase(run)
    ensures Inv(hash, Ran(hash, IDLE, run))
  {
    assert GateOk(IDLE);
    RunKeepsInv(hash, IDLE, run);
  }

  /** In every interleaving at most one call per bag is between lock and unlock. */
  lemma {:induction false} CallsExcludeEachOther(hash: Hash, run: seq<Action>, a: Tid, b: Tid)
    requires Injective(hash) && CanRun(hash, IDLE, run) && LowerCase(run)
    requires var w := Ran(hash, IDLE, run);
             && a in w.threads && b in w.threads && w.threads[a].bag == w.threads[b].bag
             && w.threads[a].phase.InLock() && w.threads[b].phase.InLock()
    ensures a == b
  {
    RanInv(hash, run);
    OneCallPerBag(Ran(hash, IDLE, run), a, b);
  }

  /** In every interleaving: a store never overwrites an entry. */
  lemma {:induction false} StoreNeverOverwrites(hash: Hash, run: seq<Action>, a: Action)
    requires Injective(hash) && CanRun(hash, IDLE, run) && LowerCase(run)
    requires Enabled(Ran(hash, IDLE, run), a) && a.Store?
    ensures var w := Ran(hash, IDLE, run); w.threads[a.tid].key !in w.cache
  {
    RanInv(hash, run);
    var w := Ran(hash, IDLE, run);
    assert WorkOk(hash, w, w.threads[a.tid]);
  }

  /** In every interleaving: a torrent that was started and not stopped is the cached one for
      its bag, or in the hands of the one call between lock and unlock for that bag. */
  lemma {:induction false} NoLiveTorrentIsLost(hash: Hash, run: seq<Action>, t: Torrent)
    requires Injective(hash) && CanRun(hash, IDLE, run) && LowerCase(run) && t in Ran(hash, IDLE, run).running
    ensures var w := Ran(hash, IDLE, run);
            && t in w.maker
            && (IsCached(w, t) || exists tid :: IsHeldBy(w, t, tid) && IsInside(w.gate, tid, w.maker[t]))
  {
    RanInv(hash, run);
    var w := Ran(hash, IDLE, run);
    if !IsCached(w, t) {
      assert IsHeld(w, t);
      var tid :| IsHeldBy(w, t, tid);
      assert AtGate(w, tid, w.threads[tid]);
    }
  }

  /** In every interleaving: what a cached bag hands out is alive, and the overlay index leads
      to that very torrent. */
  lemma {:induction false} CachedIsAliveAndIndexed(hash: Hash, run: seq<Action>, bag: string)
    requires Injective(hash) && CanRun(hash, IDLE, run) && LowerCase(run) && bag in Ran(hash, IDLE, run).cache
    ensures var w := Ran(hash, IDLE, run); var e := w.cache[bag];
            && e.torrent in w.running
            && e.downloader.Some? && e.downloader.value !in w.closed
            && Indexed(hash, w.index, bag, e.torrent)
  {
    RanInv(hash, run);
    var w := Ran(hash, IDLE, run);
    assert EntryOk(hash, w, bag, w.cache[bag]);
  }

  /** Once all calls have returned, the running torrents are exactly the cached ones. */
  lemma {:induction false} RestLeavesCachedTorrents(hash: Hash, run: seq<Action>, t: Torrent)
    requires Injective(hash) && CanRun(hash, IDLE, run) && LowerCase(run)
    requires forall tid | tid in Ran(hash, IDLE, run).threads :: Ran(hash, IDLE, run).threads[tid].phase.Returned?
    ensures var w := Ran(hash, IDLE, run);
            t in w.running <==> exists bag :: bag in w.cache && w.cache[bag].torrent == t
  {
    RanInv(hash, run);
    var w := Ran(hash, IDLE, run);
    if t in w.running {
      assert !IsHeld(w, t);
      assert IsCached(w, t);
      assert w.maker[t] in w.cache;
    }
    forall bag | bag in w.cache ensures w.cache[bag].torrent in w.running {
      assert EntryOk(hash, w, bag, w.cache[bag]);
    }
  }

  /** Why ids must be lower-case: two spellings of one bag share its cache entry and its
      overlay, but not its mutex, and both calls can be between lock and unlock. */
  lemma {:induction false} SpellingsShareEverythingButTheLock(a: string, b: string)
    requires a != b && ToLower(a) == ToLower(b)
    ensures Hex.Decode(a) == Hex.Decode(b)
    ensures exists run :: Possible(OPEN_GATE, run)
                          && IsInside(After(OPEN_GATE, run), 0, a) && IsInside(After(OPEN_GATE, run), 1, b)
  {
    Hex.DecodeIgnoresCase(a);
    Hex.DecodeIgnoresCase(b);
    var _ := DifferentKeysGoTogether(a, b);
  }
}
