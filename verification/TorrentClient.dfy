/** `getTorrent` as one caller runs it, on the cache, the overlay index and the table of
    mutexes. What many callers do to each other is in TorrentProtocol. */
module TorrentClient {
  import opened Text
  import opened Wrappers
  import opened Clocks
  import Hex
  import opened BagsCaching
  import KeyedMutex
  import opened TorrentProtocol

  /** How the creation of a torrent goes. */
  datatype Creation =
    | StartFails
    | ConnectFails(timedOut: bool)
    | NoHeader
    | Works(downloader: Downloader, bagSize: nat)

  datatype Failure = InvalidId | StartFailed | ConnectFailed | Timeout | HeaderNotLoaded

  /** The error of a creation that does not work. */
  function FailureOf(how: Creation): Failure
    requires !how.Works?
  {
    match how
    case StartFails => StartFailed
    case ConnectFails(timedOut) => if timedOut then Timeout else ConnectFailed
    case NoHeader => HeaderNotLoaded
  }

  // ---- What holds between calls ---------------------------------------------------------------------

  /** A cached bag: its torrent runs, its downloader is open, the index leads to it. */
  ghost predicate Up(bag: string, e: Entry, hash: Hash, index: map<nat, Torrent>, running: set<Torrent>, closed: set<Downloader>) {
    && IsLower(bag)
    && e.torrent in running
    && e.downloader.Some? && e.downloader.value !in closed
    && Indexed(hash, index, bag, e.torrent)
  }

  ghost predicate NoneShared(cache: Entries) {
    forall a, b | a in cache && b in cache && a != b ::
      cache[a].torrent != cache[b].torrent && cache[a].downloader != cache[b].downloader
  }

  /** Cached bags are up and share nothing, and no other torrent runs. */
  ghost predicate AllUp(cache: Entries, hash: Hash, index: map<nat, Torrent>, running: set<Torrent>, closed: set<Downloader>) {
    && (forall bag | bag in cache :: Up(bag, cache[bag], hash, index, running, closed))
    && NoneShared(cache)
    && (forall t | t in running :: exists bag :: bag in cache && cache[bag].torrent == t)
  }

  /** Stamps do not matter. */
  lemma StampKeepsUp(cache: Entries, after: Entries, hash: Hash, index: map<nat, Torrent>,
                                        running: set<Torrent>, closed: set<Downloader>)
    requires AllUp(cache, hash, index, running, closed) && after.Keys == cache.Keys
    requires forall id | id in cache :: after[id].torrent == cache[id].torrent && after[id].downloader == cache[id].downloader
    ensures AllUp(after, hash, index, running, closed)
  {
    forall id | id in after ensures Up(id, after[id], hash, index, running, closed) {
      assert Up(id, cache[id], hash, index, running, closed);
    }
    forall t | t in running ensures exists b :: b in after && after[b].torrent == t {
      var b :| b in cache && cache[b].torrent == t;
      assert after[b].torrent == t;
    }
  }

  lemma IndexingKeepsUp(cache: Entries, bag: string, t: Torrent, hash: Hash, index: map<nat, Torrent>,
                                           running: set<Torrent>, closed: set<Downloader>)
    requires AllUp(cache, hash, index, running, closed)
    requires Injective(hash) && IsLower(bag) && bag !in cache && Hex.Decode(bag).Some?
    ensures AllUp(cache, hash, index[hash(Hex.Decode(bag).value) := t], running, closed)
  {
    forall id | id in cache ensures Up(id, cache[id], hash, index[hash(Hex.Decode(bag).value) := t], running, closed) {
      assert Up(id, cache[id], hash, index, running, closed);
      IndexKeepsOthers(hash, index, id, cache[id].torrent, bag, t);
    }
  }

  lemma AddingKeepsUp(cache: Entries, bag: string, e: Entry, hash: Hash, index: map<nat, Torrent>,
                                         running: set<Torrent>, closed: set<Downloader>)
    requires AllUp(cache, hash, index, running, closed) && bag !in cache
    requires Up(bag, e, hash, index, running + {e.torrent}, closed) && e.torrent !in running
    requires forall id | id in cache :: cache[id].downloader != e.downloader
    ensures AllUp(cache[bag := e], hash, index, running + {e.torrent}, closed)
  {
    var after := cache[bag := e];
    forall id | id in after ensures Up(id, after[id], hash, index, running + {e.torrent}, closed) {
      assert id in cache ==> Up(id, cache[id], hash, index, running, closed);
    }
    forall t | t in running + {e.torrent} ensures exists b :: b in after && after[b].torrent == t {
      if t == e.torrent {
        assert after[bag].torrent == t;
      } else {
        var b :| b in cache && cache[b].torrent == t;
        assert after[b].torrent == t;
      }
    }
    forall id | id in cache ensures cache[id].torrent != e.torrent {
      assert Up(id, cache[id], hash, index, running, closed);
    }
  }

  lemma EvictingKeepsUp(start: Entries, cache: Entries, hash: Hash, index: map<nat, Torrent>,
                                           running: set<Torrent>, closed: set<Downloader>)
    requires AllUp(start, hash, index, running, closed)
    requires forall id | id in cache :: id in start && cache[id] == start[id]
    ensures AllUp(cache, hash, index, running - StoppedBy(start, cache), closed + ClosedBy(start, cache))
  {
    var left, shut := running - StoppedBy(start, cache), closed + ClosedBy(start, cache);
    forall id | id in cache ensures Up(id, cache[id], hash, index, left, shut) {
      assert Up(id, start[id], hash, index, running, closed);
    }
    forall t | t in left ensures exists b :: b in cache && cache[b].torrent == t {
      var b :| b in start && start[b].torrent == t;
      assert Up(b, start[b], hash, index, running, closed);
      assert b in cache;
    }
  }

  lemma StoringKeepsUp(before: Entries, bag: string, e: Entry, after: Entries, hash: Hash, index: map<nat, Torrent>,
                                          running: set<Torrent>, closed: set<Downloader>)
    requires AllUp(before, hash, index, running - {e.torrent}, closed) && bag !in before
    requires Up(bag, e, hash, index, running, closed)
    requires forall id | id in before :: before[id].downloader != e.downloader
    requires forall id | id in after :: id in before[bag := e] && after[id] == before[bag := e][id]
    ensures AllUp(after, hash, index, running - StoppedBy(before[bag := e], after), closed + ClosedBy(before[bag := e], after))
  {
    assert running - {e.torrent} + {e.torrent} == running;
    AddingKeepsUp(before, bag, e, hash, index, running - {e.torrent}, closed);
    EvictingKeepsUp(before[bag := e], after, hash, index, running, closed);
  }

  /** The bag's entry was stamped anew between the times `from` and `to`, and nothing else changed. */
  ghost predicate StampedBetween(before: Entries, after: Entries, bag: string, from: nat, to: nat) {
    bag in before && exists stamp: nat :: from <= stamp <= to && after == before[bag := before[bag].(lastUsed := stamp)]
  }

  /** The torrent was stored between the times `from` and `to`, and the cache then evicted; the
      entries that stayed are as they were stored. */
  ghost predicate StoredBetween(before: Entries, after: Entries, bag: string, h: Handle, bagSize: nat, max: nat, from: nat, to: nat) {
    exists stamp: nat :: from <= stamp <= to
                         && StoredAt(before[bag := Entry(h.torrent, h.downloader, bagSize, stamp)], after, max, to)
  }

  ghost predicate StoredAt(start: Entries, after: Entries, max: nat, to: nat) {
    && Trimmed(StampsOf(start), StampsOf(after), max, to)
    && forall id | id in after :: id in start && after[id] == start[id]
  }

  // ---- The call -------------------------------------------------------------------------------------

  class Client {
    const bagsCache: BagsCache
    const store: VirtualStorage
    const locks: KeyedMutex.LockTable
    const resources: Resources

    constructor (hash: Hash, maxCacheEntries: int)
      ensures Valid() && fresh(bagsCache) && fresh(store) && fresh(locks) && fresh(resources)
      ensures bagsCache.cache == map[] && store.torrents == map[] && store.hash == hash
    {
      bagsCache := new BagsCache(maxCacheEntries);
      store := new VirtualStorage(hash);
      locks := new KeyedMutex.LockTable();
      resources := new Resources();
    }

    ghost function Running(): set<Torrent>
      reads resources
    {
      resources.started - resources.stopped
    }

    ghost predicate Valid()
      reads bagsCache, store, locks, resources
    {
      locks.Valid() && AllUp(bagsCache.cache, store.hash, store.torrents, Running(), resources.closed)
    }

    /** Looks the bag up. */
    method Find(clock: Clock, bagId: string) returns (found: Option<Handle>)
      requires Valid() && IsLower(bagId)
      modifies clock, bagsCache
      ensures Valid() && bagsCache.cache.Keys == old(bagsCache.cache.Keys)
      ensures found.Some? <==> bagId in old(bagsCache.cache)
      ensures found.Some? ==>
                found.value == Handle(old(bagsCache.cache)[bagId].torrent, old(bagsCache.cache)[bagId].downloader)
      ensures found.Some? ==> StampedBetween(old(bagsCache.cache), bagsCache.cache, bagId, old(clock.time), clock.time)
      ensures found == None ==> bagsCache.cache == old(bagsCache.cache)
      ensures old(clock.time) <= clock.time
    {
      ToLowerFixesLower(bagId);
      var entry := bagsCache.Get(clock, bagId);
      if entry == None {
        return None;
      }
      StampKeepsUp(old(bagsCache.cache), bagsCache.cache, store.hash, store.torrents, Running(), resources.closed);
      found := Some(Handle(entry.value.torrent, entry.value.downloader));
    }

    /** Makes the torrent of a bag that is not cached. */
    method Create(clock: Clock, bagId: string, id: seq<int>, torrent: Torrent, how: Creation) returns (r: Result<Handle, Failure>)
      requires Valid() && Injective(store.hash) && IsLower(bagId)
      requires bagId !in bagsCache.cache && Hex.Decode(bagId) == Some(id)
      requires torrent !in resources.started && torrent !in resources.stopped
      requires how.Works? ==> how.downloader !in resources.closed
                              && forall bag | bag in bagsCache.cache :: bagsCache.cache[bag].downloader != Some(how.downloader)
      modifies clock, bagsCache, store, resources
      ensures Valid()
      ensures r == (if how.Works? then Ok(Handle(torrent, Some(how.downloader))) else Err(FailureOf(how)))
      ensures store.torrents == old(store.torrents)[store.hash(id) := torrent]
      ensures resources.started == old(resources.started) + {torrent}
      ensures !how.Works? ==> resources.stopped == old(resources.stopped) + {torrent}
      ensures !how.Works? ==> bagsCache.cache == old(bagsCache.cache) && Running() == old(Running())
                              && resources.closed == old(resources.closed)
      ensures old(clock.time) <= clock.time
      ensures how.Works? ==>
                StoredBetween(old(bagsCache.cache), bagsCache.cache, bagId, r.value, how.bagSize, bagsCache.maxCacheEntries,
                              old(clock.time), clock.time)
    {
      store.SetTorrent(id, torrent);
      IndexingKeepsUp(bagsCache.cache, bagId, torrent, store.hash, old(store.torrents), Running(), resources.closed);
      resources.Start(torrent);
      if !how.Works? {
        resources.Stop(torrent);
        assert Running() == old(Running());
        return Err(FailureOf(how));
      }
      assert Running() - {torrent} == old(Running());
      r := Store(clock, bagId, torrent, how.downloader, how.bagSize);
    }

    /** Puts a torrent that has just been started into the cache. */
    method Store(clock: Clock, bagId: string, torrent: Torrent, downloader: Downloader, bagSize: nat)
      returns (r: Result<Handle, Failure>)
      requires locks.Valid() && AllUp(bagsCache.cache, store.hash, store.torrents, Running() - {torrent}, resources.closed)
      requires IsLower(bagId) && bagId !in bagsCache.cache && Indexed(store.hash, store.torrents, bagId, torrent)
      requires torrent in Running() && downloader !in resources.closed
      requires forall bag | bag in bagsCache.cache :: bagsCache.cache[bag].downloader != Some(downloader)
      modifies clock, bagsCache, resources
      ensures Valid() && r == Ok(Handle(torrent, Some(downloader))) && old(clock.time) <= clock.time
      ensures resources.started == old(resources.started)
      ensures StoredBetween(old(bagsCache.cache), bagsCache.cache, bagId, r.value, bagSize, bagsCache.maxCacheEntries,
                            old(clock.time), clock.time)
    {
      ToLowerFixesLower(bagId);
      ghost var before, running, closed := bagsCache.cache, Running(), resources.closed;
      ghost var stamp := bagsCache.Set(clock, resources, bagId, torrent, bagSize, Some(downloader));
      ghost var e := Entry(torrent, Some(downloader), bagSize, stamp);
      StoringKeepsUp(before, bagId, e, bagsCache.cache, store.hash, store.torrents, running, closed);
      assert Running() == running - StoppedBy(before[bagId := e], bagsCache.cache);
      r := Ok(Handle(torrent, Some(downloader)));
    }

    /** What the call may assume of the torrent and the downloader it makes: they are new. */
    ghost predicate New(torrent: Torrent, how: Creation)
      reads bagsCache, resources
    {
      && torrent !in resources.started && torrent !in resources.stopped
      && (how.Works? ==> how.downloader !in resources.closed
                         && forall bag | bag in bagsCache.cache :: bagsCache.cache[bag].downloader != Some(how.downloader))
    }

    /** The part of the call under the mutex of the bag. */
    method GetLocked(clock: Clock, bagId: string, torrent: Torrent, how: Creation) returns (r: Result<Handle, Failure>)
      requires Valid() && Injective(store.hash) && IsLower(bagId) && New(torrent, how)
      modifies clock, bagsCache, store, resources
      ensures Valid()
      ensures bagId in old(bagsCache.cache) ==>
                && r == Ok(Handle(old(bagsCache.cache)[bagId].torrent, old(bagsCache.cache)[bagId].downloader))
                && store.torrents == old(store.torrents)
                && resources.started == old(resources.started) && resources.stopped == old(resources.stopped)
      ensures bagId !in old(bagsCache.cache) && Hex.Decode(bagId) == None ==>
                && r == Err(InvalidId)
                && store.torrents == old(store.torrents)
                && resources.started == old(resources.started) && resources.stopped == old(resources.stopped)
      ensures bagId !in old(bagsCache.cache) && Hex.Decode(bagId).Some? ==>
                && (r == Err(StartFailed) <==> how == StartFails)
                && (r == Err(Timeout) <==> how == ConnectFails(true))
                && (r == Err(ConnectFailed) <==> how == ConnectFails(false))
                && (r == Err(HeaderNotLoaded) <==> how == NoHeader)
                && (how.Works? ==> r == Ok(Handle(torrent, Some(how.downloader))))
                && store.torrents == old(store.torrents)[store.hash(Hex.Decode(bagId).value) := torrent]
                && resources.started == old(resources.started) + {torrent}
                && (!how.Works? ==> resources.stopped == old(resources.stopped) + {torrent})
      ensures old(clock.time) <= clock.time
      ensures r.Err? ==> bagsCache.cache == old(bagsCache.cache)
      ensures bagId in old(bagsCache.cache) ==>
                StampedBetween(old(bagsCache.cache), bagsCache.cache, bagId, old(clock.time), clock.time)
      ensures r.Ok? && bagId !in old(bagsCache.cache) ==>
                StoredBetween(old(bagsCache.cache), bagsCache.cache, bagId, r.value, how.bagSize, bagsCache.maxCacheEntries,
                              old(clock.time), clock.time)
      ensures r.Err? || bagId in old(bagsCache.cache) ==> Running() == old(Running()) && resources.closed == old(resources.closed)
    {
      var found := Find(clock, bagId);
      if found.Some? {
        return Ok(found.value);
      }
      var id := Hex.Decode(bagId);
      if id == None {
        return Err(InvalidId);
      }
      r := Create(clock, bagId, id.value, torrent, how);
    }

    /** A cached bag is handed out and stamped; any other is created, with `torrent` and the
        outcome `how`, and stored. A failure says what failed, a timed out connection apart from
        any other, and leaves nothing running, nothing cached, and a stopped torrent in the
        index. An id that is not hexadecimal leaves everything as it was. */
    method GetTorrent(clock: Clock, bagId: string, torrent: Torrent, how: Creation) returns (r: Result<Handle, Failure>)
      requires Valid() && Injective(store.hash) && IsLower(bagId) && New(torrent, how)
      modifies clock, bagsCache, store, locks, resources
      ensures Valid()
      ensures forall key | key in old(locks.locks) :: key in locks.locks && locks.locks[key] == old(locks.locks)[key]
      ensures locks.locks.Keys == old(locks.locks.Keys) + if bagId in old(bagsCache.cache) then {} else {bagId}
      ensures bagId in old(bagsCache.cache) ==>
                && r == Ok(Handle(old(bagsCache.cache)[bagId].torrent, old(bagsCache.cache)[bagId].downloader))
                && store.torrents == old(store.torrents)
                && resources.started == old(resources.started) && resources.stopped == old(resources.stopped)
      ensures bagId !in old(bagsCache.cache) && Hex.Decode(bagId) == None ==>
                && r == Err(InvalidId)
                && store.torrents == old(store.torrents)
                && resources.started == old(resources.started) && resources.stopped == old(resources.stopped)
      ensures bagId !in old(bagsCache.cache) && Hex.Decode(bagId).Some? ==>
                && (r == Err(StartFailed) <==> how == StartFails)
                && (r == Err(Timeout) <==> how == ConnectFails(true))
                && (r == Err(ConnectFailed) <==> how == ConnectFails(false))
                && (r == Err(HeaderNotLoaded) <==> how == NoHeader)
                && (how.Works? ==> r == Ok(Handle(torrent, Some(how.downloader))))
                && store.torrents == old(store.torrents)[store.hash(Hex.Decode(bagId).value) := torrent]
                && resources.started == old(resources.started) + {torrent}
                && (!how.Works? ==> resources.stopped == old(resources.stopped) + {torrent})
      ensures old(clock.time) <= clock.time
      ensures r.Err? ==> bagsCache.cache == old(bagsCache.cache)
      ensures bagId in old(bagsCache.cache) ==>
                StampedBetween(old(bagsCache.cache), bagsCache.cache, bagId, old(clock.time), clock.time)
      ensures r.Ok? && bagId !in old(bagsCache.cache) ==>
                StoredBetween(old(bagsCache.cache), bagsCache.cache, bagId, r.value, how.bagSize, bagsCache.maxCacheEntries,
                              old(clock.time), clock.time)
      ensures r.Err? || bagId in old(bagsCache.cache) ==> Running() == old(Running()) && resources.closed == old(resources.closed)
    {
      var found := Find(clock, bagId);
      if found.Some? {
        return Ok(found.value);
      }
      var lock := locks.Get(bagId);
      r := GetLocked(clock, bagId, torrent, how);
    }
  }
}
