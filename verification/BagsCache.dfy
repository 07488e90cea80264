/** The cache of remote bags: a map with timestamps and an eviction loop that stops torrents
    and closes downloaders. */
module BagsCaching {
  import opened Text
  import opened Clocks
  import opened Wrappers

  type Torrent = nat

  type Downloader = nat

  /** What has been done to torrents and downloaders. */
  class Resources {
    var started: set<Torrent>
    var stopped: set<Torrent>
    var closed: set<Downloader>

    constructor ()
      ensures started == {} && stopped == {} && closed == {}
    {
      started, stopped, closed := {}, {}, {};
    }

    method Start(torrent: Torrent)
      modifies this`started
      ensures started == old(started) + {torrent}
    {
      started := started + {torrent};
    }

    method Stop(torrent: Torrent)
      modifies this`stopped
      ensures stopped == old(stopped) + {torrent}
    {
      stopped := stopped + {torrent};
    }

    method Close(downloader: Downloader)
      modifies this`closed
      ensures closed == old(closed) + {downloader}
    {
      closed := closed + {downloader};
    }
  }

  datatype Entry = Entry(torrent: Torrent, downloader: Option<Downloader>, bagSize: nat, lastUsed: nat)

  type Entries = map<string, Entry>

  type Stamps = map<string, nat>

  // ---- The eviction policy on stamps -------------------------------------------------------------

  ghost function StampsOf(cache: Entries): Stamps {
    map id | id in cache :: cache[id].lastUsed
  }

  /** `id` was used before `now` and no other entry earlier. */
  ghost predicate Oldest(m: Stamps, id: string, now: nat) {
    id in m && m[id] < now && forall other | other in m :: m[id] <= m[other]
  }

  /** Nothing more is evicted: the cache is within its limit, or no stamp is earlier than
      `now`, or the oldest entry is the one with the empty id, which stands for none. */
  ghost predicate Settled(m: Stamps, max: nat, now: nat) {
    |m| <= max || (forall id | id in m :: now <= m[id]) || Oldest(m, "", now)
  }

  /** What the eviction loop makes of `start`: least recently used entries are dropped, one by
      one and only above the limit, until the rest is settled. */
  ghost predicate Trimmed(start: Stamps, m: Stamps, max: nat, now: nat) {
    && (forall id | id in m :: id in start && m[id] == start[id])
    && (forall id | id in start && id !in m ::
          id != "" && start[id] < now && forall kept | kept in m :: start[id] <= m[kept])
    && (m.Keys != start.Keys ==> max <= |m|)
    && Settled(m, max, now)
  }

  /** With non-empty ids and no stamp at or after the last clock reading, the limit holds. */
  lemma TrimmedFits(start: Stamps, m: Stamps, max: nat, now: nat)
    requires Trimmed(start, m, max, now)
    requires "" !in start && forall id | id in start :: start[id] < now
    ensures |m| <= max
  {
    if m == map[] {
      assert |m| == 0;
    } else {
      var id :| id in m;
      assert m[id] < now;
    }
  }

  /** The newest entry survives. */
  lemma NewestSurvives(start: Stamps, m: Stamps, max: nat, now: nat, id: string)
    requires Trimmed(start, m, max, now) && max > 0
    requires id in start && forall other | other in start && other != id :: start[other] < start[id]
    ensures id in m
  {
    if m.Keys != start.Keys {
      assert |m| > 0;
      var kept :| kept in m;
      assert kept != id ==> start[kept] < start[id];
    }
  }

  // ---- Eviction on entries -----------------------------------------------------------------------

  /** The torrents and downloaders of the entries that were dropped; an entry without a
      downloader is dropped without stopping its torrent. */
  ghost function StoppedBy(before: Entries, after: Entries): set<Torrent> {
    set id | id in before && id !in after && before[id].downloader.Some? :: before[id].torrent
  }

  ghost function ClosedBy(before: Entries, after: Entries): set<Downloader> {
    set id | id in before && id !in after && before[id].downloader.Some? :: before[id].downloader.value
  }

  /** Eviction so far: the rest is untouched, every dropped entry is at least as old as every
      kept one, and nothing was dropped at or below the limit. */
  ghost predicate Evicting(start: Entries, cache: Entries, max: nat, now: nat) {
    && (forall id | id in cache :: id in start && cache[id] == start[id])
    && (forall id | id in start && id !in cache ::
          id != "" && start[id].lastUsed < now
          && forall kept | kept in cache :: start[id].lastUsed <= cache[kept].lastUsed)
    && (cache.Keys != start.Keys ==> max <= |cache|)
  }

  lemma EvictingStep(start: Entries, cache: Entries, max: nat, earlier: nat, now: nat, id: string)
    requires Evicting(start, cache, max, earlier) && earlier <= now
    requires id != "" && Oldest(StampsOf(cache), id, now) && max < |cache|
    ensures Evicting(start, cache - {id}, max, now)
  {
    assert (cache - {id}).Keys == cache.Keys - {id};
    assert forall kept | kept in cache :: StampsOf(cache)[kept] == cache[kept].lastUsed;
  }

  lemma EvictingLater(start: Entries, cache: Entries, max: nat, earlier: nat, now: nat)
    requires Evicting(start, cache, max, earlier) && earlier <= now
    ensures Evicting(start, cache, max, now)
  {
  }

  lemma OneLess(cache: Entries, id: string)
    requires id in cache
    ensures |cache - {id}| < |cache|
  {
    assert (cache - {id}).Keys == cache.Keys - {id};
  }

  /** What is stopped and closed round by round is what all the dropped entries held. */
  lemma DroppedStep(start: Entries, cache: Entries, rest: Entries)
    requires forall id | id in cache :: id in start && cache[id] == start[id]
    requires rest.Keys <= cache.Keys
    ensures StoppedBy(start, rest) == StoppedBy(start, cache) + StoppedBy(cache, rest)
    ensures ClosedBy(start, rest) == ClosedBy(start, cache) + ClosedBy(cache, rest)
  {
    forall t ensures t in StoppedBy(start, rest) <==> t in StoppedBy(start, cache) + StoppedBy(cache, rest) {
      if t in StoppedBy(start, rest) {
        var id :| id in start && id !in rest && start[id].downloader.Some? && start[id].torrent == t;
        assert id in cache ==> cache[id] == start[id];
      }
    }
    forall d ensures d in ClosedBy(start, rest) <==> d in ClosedBy(start, cache) + ClosedBy(cache, rest) {
      if d in ClosedBy(start, rest) {
        var id :| id in start && id !in rest && start[id].downloader.Some? && start[id].downloader.value == d;
        assert id in cache ==> cache[id] == start[id];
      }
    }
  }

  lemma NothingEvicted(start: Entries, max: nat, now: nat)
    ensures Evicting(start, start, max, now)
    ensures StoppedBy(start, start) == {} && ClosedBy(start, start) == {}
  {
  }

  lemma Gathered(all: set<nat>, before: set<nat>, more: set<nat>, after: set<nat>, first: set<nat>)
    requires all == first + before && after == before + more
    ensures all + more == first + after
  {
  }

  /** One round of the eviction loop. */
  lemma EvictingRound(start: Entries, before: Entries, cache: Entries, max: nat, earlier: nat, now: nat,
                                         updated: bool, victim: string)
    requires Evicting(start, before, max, earlier) && earlier <= now
    requires if updated
             then victim != "" && Oldest(StampsOf(before), victim, now) && cache == before - {victim} && max < |before|
             else cache == before
    ensures Evicting(start, cache, max, now)
    ensures updated ==> |cache| < |before|
    ensures StoppedBy(start, cache) == StoppedBy(start, before) + StoppedBy(before, cache)
    ensures ClosedBy(start, cache) == ClosedBy(start, before) + ClosedBy(before, cache)
  {
    DroppedStep(start, before, cache);
    if updated {
      EvictingStep(start, before, max, earlier, now, victim);
      OneLess(before, victim);
    } else {
      EvictingLater(start, before, max, earlier, now);
    }
  }

  lemma EvictingIsTrimmed(start: Entries, cache: Entries, max: nat, now: nat)
    requires Evicting(start, cache, max, now) && Settled(StampsOf(cache), max, now)
    ensures Trimmed(StampsOf(start), StampsOf(cache), max, now)
  {
    assert StampsOf(start).Keys == start.Keys && StampsOf(cache).Keys == cache.Keys;
  }

  // ---- The cache -----------------------------------------------------------------------------------

  class BagsCache {
    var cache: Entries
    const maxCacheEntries: nat

    constructor (maxCacheEntries: int)
      ensures cache == map[]
      ensures this.maxCacheEntries == if maxCacheEntries <= 0 then 100 else maxCacheEntries
    {
      cache := map[];
      this.maxCacheEntries := if maxCacheEntries <= 0 then 100 else maxCacheEntries;
    }

    method Get(clock: Clock, bagId: string) returns (found: Option<Entry>)
      modifies this, clock
      ensures old(clock.time) <= clock.time
      ensures var id := ToLower(bagId);
              if id in old(cache)
              then found == Some(old(cache)[id].(lastUsed := clock.time)) && cache == old(cache)[id := found.value]
              else found == None && cache == old(cache)
    {
      var id := ToLower(bagId);
      if id !in cache {
        return None;
      }
      var now := clock.Now();
      cache := cache[id := cache[id].(lastUsed := now)];
      return Some(cache[id]);
    }

    /** The search for the entry to evict: `oldestBagId` is empty when there is none. */
    method FindOldest(now: nat) returns (oldestBagId: string)
      ensures oldestBagId != "" ==> Oldest(StampsOf(cache), oldestBagId, now)
      ensures oldestBagId == "" ==>
                (forall id | id in cache :: now <= cache[id].lastUsed) || Oldest(StampsOf(cache), "", now)
    {
      oldestBagId := "";
      var oldestTime := now;
      ghost var found := false;
      var ids := cache.Keys;
      while ids != {}
        invariant ids <= cache.Keys && oldestTime <= now
        invariant found ==> oldestBagId in cache && cache[oldestBagId].lastUsed == oldestTime < now
        invariant !found ==> oldestBagId == "" && oldestTime == now
        invariant forall id | id in cache && id !in ids :: oldestTime <= cache[id].lastUsed
        decreases ids
      {
        var id :| id in ids;
        ids := ids - {id};
        if cache[id].lastUsed < oldestTime {
          oldestBagId, oldestTime, found := id, cache[id].lastUsed, true;
        }
      }
    }

    /** One round of eviction; `victim` is the entry dropped, if any. */
    method FreeUnsafe(clock: Clock, resources: Resources) returns (updated: bool, ghost victim: string)
      modifies this, clock, resources`stopped, resources`closed
      ensures old(clock.time) <= clock.time
      ensures resources.stopped == old(resources.stopped) + StoppedBy(old(cache), cache)
      ensures resources.closed == old(resources.closed) + ClosedBy(old(cache), cache)
      ensures if updated
              then victim != "" && Oldest(StampsOf(old(cache)), victim, clock.time)
                   && cache == old(cache) - {victim} && maxCacheEntries < |old(cache)|
              else cache == old(cache) && Settled(StampsOf(cache), maxCacheEntries, clock.time)
    {
      updated, victim := false, "";
      assert StampsOf(cache).Keys == cache.Keys;
      if |cache| > maxCacheEntries {
        var now := clock.Now();
        var oldestBagId := FindOldest(now);
        if oldestBagId != "" {
          var entry := cache[oldestBagId];
          if entry.downloader.Some? {
            resources.Stop(entry.torrent);
            resources.Close(entry.downloader.value);
          }
          cache := cache - {oldestBagId};
          updated, victim := true, oldestBagId;
        }
      }
    }

    /** Evicts until the cache is settled. */
    method EvictAll(clock: Clock, resources: Resources)
      modifies this, clock, resources`stopped, resources`closed
      ensures old(clock.time) <= clock.time
      ensures Evicting(old(cache), cache, maxCacheEntries, clock.time)
      ensures Settled(StampsOf(cache), maxCacheEntries, clock.time)
      ensures resources.stopped == old(resources.stopped) + StoppedBy(old(cache), cache)
      ensures resources.closed == old(resources.closed) + ClosedBy(old(cache), cache)
    {
      ghost var start, stopped, closed := cache, resources.stopped, resources.closed;
      NothingEvicted(start, maxCacheEntries, clock.time);
      var updated := true;
      while updated
        invariant old(clock.time) <= clock.time
        invariant Evicting(start, cache, maxCacheEntries, clock.time)
        invariant resources.stopped == stopped + StoppedBy(start, cache)
        invariant resources.closed == closed + ClosedBy(start, cache)
        invariant !updated ==> Settled(StampsOf(cache), maxCacheEntries, clock.time)
        decreases |cache|, updated
      {
        ghost var before, earlier, victim := cache, clock.time, "";
        ghost var stoppedBefore, closedBefore := resources.stopped, resources.closed;
        updated, victim := FreeUnsafe(clock, resources);
        EvictingRound(start, before, cache, maxCacheEntries, earlier, clock.time, updated, victim);
        Gathered(stoppedBefore, StoppedBy(start, before), StoppedBy(before, cache), StoppedBy(start, cache), stopped);
        Gathered(closedBefore, ClosedBy(start, before), ClosedBy(before, cache), ClosedBy(start, cache), closed);
      }
    }

    /** Stores the torrent and evicts until the cache is settled. */
    method Set(clock: Clock, resources: Resources, bagId: string, torrent: Torrent, bagSize: nat,
               downloader: Option<Downloader>)
      returns (ghost stamp: nat)
      modifies this, clock, resources`stopped, resources`closed
      ensures old(clock.time) <= stamp <= clock.time
      ensures var start := old(cache)[ToLower(bagId) := Entry(torrent, downloader, bagSize, stamp)];
              && Trimmed(StampsOf(start), StampsOf(cache), maxCacheEntries, clock.time)
              && (forall id | id in cache :: id in start && cache[id] == start[id])
              && resources.stopped == old(resources.stopped) + StoppedBy(start, cache)
              && resources.closed == old(resources.closed) + ClosedBy(start, cache)
              && (forall t :: t in resources.stopped <==>
                    || t in old(resources.stopped)
                    || exists id :: id in start && id !in cache && start[id].downloader.Some? && start[id].torrent == t)
              && (forall d :: d in resources.closed <==>
                    || d in old(resources.closed)
                    || exists id :: id in start && id !in cache && start[id].downloader == Some(d))
    {
      var now := clock.Now();
      cache := cache[ToLower(bagId) := Entry(torrent, downloader, bagSize, now)];
      stamp := now;
      ghost var start := cache;
      EvictAll(clock, resources);
      EvictingIsTrimmed(start, cache, maxCacheEntries, clock.time);
    }
  }
}
