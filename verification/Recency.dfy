/** The cache's timestamps against the textbook recency list: which bags stay cached over
    whole runs. */
module Recency {
  import opened Text
  import opened Wrappers
  import opened Clocks
  import opened BagsCaching
  import TorrentProtocol
  import opened TorrentClient

  // ---- The recency list -----------------------------------------------------------------------------

  function Without(list: seq<string>, id: string): seq<string> {
    if list == [] then []
    else if list[0] == id then Without(list[1..], id)
    else [list[0]] + Without(list[1..], id)
  }

  /** Every bag touched so far once, the last one touched first. */
  function Recent(touches: seq<string>): seq<string> {
    if touches == [] then []
    else
      var id := touches[|touches| - 1];
      [id] + Without(Recent(touches[..|touches| - 1]), id)
  }

  /** The bags a textbook cache of `max` entries keeps. */
  function Front(list: seq<string>, max: nat): set<string> {
    if list == [] || max == 0 then {} else {list[0]} + Front(list[1..], max - 1)
  }

  /** `list` names every key of `m` once, the newest stamp first. */
  ghost predicate Lists(list: seq<string>, m: Stamps) {
    if list == [] then m == map[]
    else
      && list[0] in m
      && (forall id | id in m && id != list[0] :: m[id] < m[list[0]])
      && Lists(list[1..], m - {list[0]})
  }

  lemma {:induction false} WithoutLists(list: seq<string>, m: Stamps, id: string)
    requires Lists(list, m)
    ensures Lists(Without(list, id), m - {id})
  {
    if list == [] {
      assert m - {id} == m;
    } else {
      var head, tail := list[0], list[1..];
      WithoutLists(tail, m - {head}, id);
      assert m - {head} - {id} == m - {id} - {head};
      if head == id {
        assert m - {id} - {id} == m - {id};
      } else {
        var rest := Without(tail, id);
        assert ([head] + rest)[1..] == rest;
      }
    }
  }

  lemma TouchLists(list: seq<string>, m: Stamps, id: string, stamp: nat)
    requires Lists(list, m) && forall other | other in m :: m[other] < stamp
    ensures Lists([id] + Without(list, id), m[id := stamp])
  {
    WithoutLists(list, m, id);
    assert ([id] + Without(list, id))[1..] == Without(list, id);
    assert m[id := stamp] - {id} == m - {id};
  }

  // ---- The cache among all the stamps ever given ------------------------------------------------------

  ghost predicate PartOf(m: Stamps, all: Stamps) {
    forall id | id in m :: id in all && m[id] == all[id]
  }

  ghost predicate NewerThanRest(m: Stamps, all: Stamps) {
    forall id, kept | id in all && id !in m && kept in m :: all[id] < m[kept]
  }

  ghost predicate Latest(id: string, m: Stamps) {
    id in m && forall other | other in m && other != id :: m[other] < m[id]
  }

  /** `m` keeps the `max` newest stamps of `all`. */
  ghost predicate Newest(all: Stamps, m: Stamps, max: nat) {
    && PartOf(m, all)
    && NewerThanRest(m, all)
    && |m.Keys| <= max
    && (m.Keys != all.Keys ==> |m.Keys| == max)
  }

  ghost predicate Distinct(m: Stamps) {
    forall a, b | a in m && b in m && a != b :: m[a] != m[b]
  }

  /** The two views agree: the newest stamps are the front of the recency list. */
  lemma {:induction false} NewestIsFront(list: seq<string>, all: Stamps, m: Stamps, max: nat)
    requires Lists(list, all) && Newest(all, m, max)
    ensures m.Keys == Front(list, max)
  {
    if list == [] || max == 0 {
      NothingKept(all, m, max);
    } else {
      var head := list[0];
      HeadIsKept(all, m, max, head);
      NewestTail(all, m, max, head);
      NewestIsFront(list[1..], all - {head}, m - {head}, max - 1);
      KeysAround(m, head);
    }
  }

  lemma NothingKept(all: Stamps, m: Stamps, max: nat)
    requires Newest(all, m, max) && (all == map[] || max == 0)
    ensures m.Keys == {}
  {
    assert |m.Keys| == |m|;
  }

  lemma KeysAround(m: Stamps, head: string)
    requires head in m
    ensures m.Keys == {head} + (m - {head}).Keys
  {
  }

  lemma HeadIsKept(all: Stamps, m: Stamps, max: nat, head: string)
    requires Newest(all, m, max) && max > 0
    requires head in all && forall id | id in all && id != head :: all[id] < all[head]
    ensures head in m
  {
    if m == map[] {
      assert |m| == 0;
    } else {
      var kept :| kept in m;
      assert kept == head || all[kept] < all[head];
    }
  }

  lemma NewestTail(all: Stamps, m: Stamps, max: nat, head: string)
    requires Newest(all, m, max) && max > 0 && head in m
    ensures Newest(all - {head}, m - {head}, max - 1)
  {
    assert (m - {head}).Keys == m.Keys - {head} && (all - {head}).Keys == all.Keys - {head};
    assert |(m - {head}).Keys| == |m.Keys| - 1;
    assert m.Keys == all.Keys ==> (m - {head}).Keys == (all - {head}).Keys;
  }

  // ---- Runs ---------------------------------------------------------------------------------------------

  /** A call on the cache and the time it stamped its bag with. */
  datatype Call =
    | Get(id: string, stamp: nat)
    | Set(id: string, stamp: nat)

  /** The cache's stamps, the time, and the bags stamped so far. */
  datatype State = State(m: Stamps, now: nat, touches: seq<string>)

  const EMPTY := State(map[], 0, [])

  /** What a call does to the stamps when it reads a later time than the calls before it. That
      `BagsCache.Get` and `BagsCache.Set` do this is ensured by `GetLater` and `SetLater`. */
  ghost predicate Next(s: State, c: Call, t: State, max: nat) {
    match c
    case Get(id, stamp) =>
      if id in s.m
      then s.now < stamp <= t.now && t.m == s.m[id := stamp] && t.touches == s.touches + [id]
      else s.now <= t.now && t.m == s.m && t.touches == s.touches
    case Set(id, stamp) =>
      && s.now < stamp <= t.now && id != ""
      && Trimmed(s.m[id := stamp], t.m, max, t.now)
      && t.touches == s.touches + [id]
  }

  ghost predicate Run(states: seq<State>, calls: seq<Call>, max: nat) {
    && |states| == |calls| + 1
    && states[0] == EMPTY
    && forall k | 0 <= k < |calls| :: Next(states[k], calls[k], states[k + 1], max)
  }

  /** The cache agrees with `all`, the last stamp each bag ever got. */
  ghost predicate Agrees(s: State, all: Stamps, max: nat) {
    Newest(all, s.m, max) && Traced(s, all)
  }

  ghost predicate Traced(s: State, all: Stamps) {
    && Lists(Recent(s.touches), all)
    && "" !in all
    && Distinct(all)
    && forall id | id in all :: all[id] <= s.now
  }

  lemma TouchIsTraced(s: State, t: State, all: Stamps, id: string, stamp: nat)
    requires Traced(s, all) && t.touches == s.touches + [id] && s.now < stamp <= t.now && id != ""
    ensures Traced(t, all[id := stamp])
  {
    assert t.touches[..|t.touches| - 1] == s.touches;
    TouchLists(Recent(s.touches), all, id, stamp);
    StampsStayDistinct(all, id, stamp);
  }

  lemma StampsStayDistinct(all: Stamps, id: string, stamp: nat)
    requires Distinct(all) && forall other | other in all :: all[other] < stamp
    ensures Distinct(all[id := stamp])
  {
  }

  lemma RestampKeepsKeys(m: Stamps, id: string, stamp: nat)
    requires id in m
    ensures m[id := stamp].Keys == m.Keys
  {
  }

  lemma RestampIsNewest(all: Stamps, m: Stamps, id: string, stamp: nat, max: nat)
    requires Newest(all, m, max) && Distinct(all) && id in m && forall other | other in all :: all[other] < stamp
    ensures Newest(all[id := stamp], m[id := stamp], max)
  {
    StampingKeepsOrder(all, m, id, stamp);
    RestampKeepsKeys(all, id, stamp);
    RestampKeepsKeys(m, id, stamp);
  }

  lemma GetAgrees(s: State, t: State, all: Stamps, id: string, stamp: nat, max: nat)
    requires Agrees(s, all, max) && id in s.m && Next(s, Get(id, stamp), t, max)
    ensures Agrees(t, all[id := stamp], max)
  {
    assert id in all;
    TouchIsTraced(s, t, all, id, stamp);
    RestampIsNewest(all, s.m, id, stamp, max);
  }

  lemma StampingKeepsOrder(all: Stamps, m: Stamps, id: string, stamp: nat)
    requires PartOf(m, all) && NewerThanRest(m, all) && Distinct(all)
    requires forall other | other in all :: all[other] < stamp
    ensures PartOf(m[id := stamp], all[id := stamp])
    ensures NewerThanRest(m[id := stamp], all[id := stamp])
    ensures Distinct(all[id := stamp])
    ensures Latest(id, m[id := stamp])
    ensures m[id := stamp].Keys == m.Keys + {id}
  {
    assert forall other | other in m :: other in all;
  }

  lemma NewKey(m: Stamps, id: string, stamp: nat)
    ensures m[id := stamp].Keys == m.Keys + {id}
  {
  }

  /** Storing above the limit drops exactly the oldest entry. */
  lemma TrimDropsOldest(all: Stamps, m: Stamps, kept: Stamps, id: string, stamp: nat, last: nat, max: nat)
    requires Newest(all, m, max) && Distinct(all) && max > 0 && "" !in all && id != ""
    requires stamp <= last && forall other | other in all :: all[other] < stamp
    requires Trimmed(m[id := stamp], kept, max, last)
    ensures Newest(all[id := stamp], kept, max)
  {
    StampingKeepsOrder(all, m, id, stamp);
    NewKey(all, id, stamp);
    KeptIsNewest(all.Keys, m.Keys, m[id := stamp], all[id := stamp], kept, id, last, max);
  }

  lemma KeptIsNewest(all: set<string>, m: set<string>, start: Stamps, full: Stamps, kept: Stamps,
                                        id: string, last: nat, max: nat)
    requires start.Keys == m + {id} && full.Keys == all + {id} && (m != all ==> |m| == max) && max > 0
    requires "" !in full && Latest(id, start) && start[id] <= last
    requires PartOf(start, full) && NewerThanRest(start, full) && Distinct(full)
    requires Trimmed(start, kept, max, last)
    ensures Newest(full, kept, max)
  {
    TrimmedNearlyFits(start, kept, max, last, id);
    NewestSurvives(start, kept, max, last, id);
    TrimmedSize(all, m, kept.Keys, id, max);
    KeptIsNewerThanRest(start, full, kept, max, last);
  }

  lemma KeptIsNewerThanRest(start: Stamps, full: Stamps, kept: Stamps, max: nat, last: nat)
    requires PartOf(start, full) && NewerThanRest(start, full) && Distinct(full)
    requires Trimmed(start, kept, max, last)
    ensures PartOf(kept, full) && NewerThanRest(kept, full)
  {
    forall a, k | a in full && a !in kept && k in kept ensures full[a] < kept[k] {
      assert kept[k] == start[k] == full[k];
    }
  }

  /** The limit holds after a store even when the clock stood still during it. */
  lemma TrimmedNearlyFits(start: Stamps, kept: Stamps, max: nat, last: nat, id: string)
    requires Trimmed(start, kept, max, last) && max > 0 && "" !in start
    requires Latest(id, start) && start[id] <= last
    ensures |kept| <= max
  {
    if forall other | other in kept :: last <= kept[other] {
      assert kept.Keys <= {id};
      SubsetSize(kept.Keys, {id});
    }
  }

  lemma SubsetSize(a: set<string>, b: set<string>)
    requires a <= b
    ensures |a| <= |b|
  {
    assert b == a + (b - a);
  }

  lemma TrimmedSize(all: set<string>, m: set<string>, kept: set<string>, id: string, max: nat)
    requires m != all ==> |m| == max
    requires kept != m + {id} ==> max <= |kept|
    requires |kept| <= max
    ensures kept != all + {id} ==> |kept| == max
  {
    if kept == m + {id} && kept != all + {id} {
      SubsetSize(m, kept);
    }
  }

  lemma SetAgrees(s: State, t: State, all: Stamps, id: string, stamp: nat, max: nat)
    requires Agrees(s, all, max) && max > 0 && Next(s, Set(id, stamp), t, max)
    ensures Agrees(t, all[id := stamp], max)
  {
    TouchIsTraced(s, t, all, id, stamp);
    TrimDropsOldest(all, s.m, t.m, id, stamp, t.now, max);
  }

  lemma NothingAgrees(max: nat)
    ensures Agrees(EMPTY, map[], max)
  {
  }

  lemma CallAgrees(s: State, c: Call, t: State, max: nat, all: Stamps) returns (later: Stamps)
    requires Agrees(s, all, max) && max > 0 && Next(s, c, t, max)
    ensures Agrees(t, later, max)
  {
    if c.Set? {
      SetAgrees(s, t, all, c.id, c.stamp, max);
      later := all[c.id := c.stamp];
    } else if c.id in s.m {
      GetAgrees(s, t, all, c.id, c.stamp, max);
      later := all[c.id := c.stamp];
    } else {
      later := all;
    }
  }

  lemma {:induction false} RunAgrees(states: seq<State>, calls: seq<Call>, max: nat, n: nat) returns (all: Stamps)
    requires Run(states, calls, max) && max > 0 && n <= |calls|
    ensures Agrees(states[n], all, max)
  {
    if n == 0 {
      all := map[];
      NothingAgrees(max);
    } else {
      var before := RunAgrees(states, calls, max, n - 1);
      all := CallAgrees(states[n - 1], calls[n - 1], states[n], max, before);
    }
  }

  /** After every run the cache holds exactly the bags at the front of the recency list. */
  lemma CacheIsRecencyList(states: seq<State>, calls: seq<Call>, max: nat)
    requires Run(states, calls, max) && max > 0
    ensures states[|calls|].m.Keys == Front(Recent(states[|calls|].touches), max)
  {
    var all := RunAgrees(states, calls, max, |calls|);
    NewestIsFront(Recent(states[|calls|].touches), all, states[|calls|].m, max);
  }

  // ---- Request traces: `getTorrent` looks up, and stores after a miss --------------------------------------

  ghost predicate Asked(s: State, id: string, t: State, max: nat) {
    if id in s.m then exists hit :: Next(s, Get(id, hit), t, max)
    else exists stored, between :: Next(s, Get(id, 0), between, max) && Next(between, Set(id, stored), t, max)
  }

  ghost predicate Served(states: seq<State>, requests: seq<string>, max: nat) {
    && |states| == |requests| + 1
    && states[0] == EMPTY
    && forall k | 0 <= k < |requests| :: Asked(states[k], requests[k], states[k + 1], max)
  }

  lemma AskedAgrees(s: State, id: string, t: State, max: nat, all: Stamps) returns (later: Stamps)
    requires Agrees(s, all, max) && Asked(s, id, t, max) && max > 0
    ensures Agrees(t, later, max) && t.touches == s.touches + [id]
  {
    if id in s.m {
      var hit :| Next(s, Get(id, hit), t, max);
      GetAgrees(s, t, all, id, hit, max);
      later := all[id := hit];
    } else {
      var stored, between :| Next(s, Get(id, 0), between, max) && Next(between, Set(id, stored), t, max);
      assert Agrees(between, all, max);
      SetAgrees(between, t, all, id, stored, max);
      later := all[id := stored];
    }
  }

  lemma {:induction false} ServedAgrees(states: seq<State>, requests: seq<string>, max: nat, n: nat) returns (all: Stamps)
    requires Served(states, requests, max) && max > 0 && n <= |requests|
    ensures Agrees(states[n], all, max) && states[n].touches == requests[..n]
  {
    if n == 0 {
      all := map[];
      NothingAgrees(max);
    } else {
      var before := ServedAgrees(states, requests, max, n - 1);
      all := AskedAgrees(states[n - 1], requests[n - 1], states[n], max, before);
      assert requests[..n] == requests[..n - 1] + [requests[n - 1]] == states[n].touches;
    }
  }

  lemma ServedKeys(states: seq<State>, requests: seq<string>, max: nat, n: nat)
    requires Served(states, requests, max) && max > 0 && n <= |requests|
    ensures states[n].m.Keys == Front(Recent(requests[..n]), max)
  {
    var all := ServedAgrees(states, requests, max, n);
    NewestIsFront(Recent(requests[..n]), all, states[n].m, max);
  }

  lemma {:induction false} FrontGrows(list: seq<string>, small: nat, large: nat)
    requires small <= large
    ensures Front(list, small) <= Front(list, large)
  {
    if list != [] && small > 0 {
      FrontGrows(list[1..], small - 1, large - 1);
    }
  }

  /** On one request trace a larger cache always holds what a smaller one holds, whatever the
      clock read in the two runs. */
  lemma LargerCacheHoldsMore(
      small: seq<State>, large: seq<State>, requests: seq<string>, maxSmall: nat, maxLarge: nat, n: nat)
    requires Served(small, requests, maxSmall) && Served(large, requests, maxLarge)
    requires 0 < maxSmall <= maxLarge && n <= |requests|
    ensures small[n].m.Keys <= large[n].m.Keys
  {
    ServedKeys(small, requests, maxSmall, n);
    ServedKeys(large, requests, maxLarge, n);
    FrontGrows(Recent(requests[..n]), maxSmall, maxLarge);
  }

  // ---- The cache and the client do these steps -------------------------------------------------------------

  /** The state of a cache after the given touches. */
  ghost function StateOf(cache: BagsCache, clock: Clock, touches: seq<string>): State
    reads cache, clock
  {
    State(StampsOf(cache.cache), clock.time, touches)
  }

  lemma StoringStamps(cache: Entries, id: string, e: Entry)
    ensures StampsOf(cache[id := e]) == StampsOf(cache)[id := e.lastUsed]
  {
    assert StampsOf(cache[id := e]).Keys == StampsOf(cache)[id := e.lastUsed].Keys;
  }

  /** A lookup at a later time than before. */
  method GetLater(cache: BagsCache, clock: Clock, bagId: string, ghost touches: seq<string>)
    returns (found: Option<Entry>, ghost after: seq<string>, ghost stamp: nat)
    modifies cache, clock
    ensures Next(old(StateOf(cache, clock, touches)), Get(ToLower(bagId), stamp), StateOf(cache, clock, after), cache.maxCacheEntries)
  {
    clock.Sleep(1);
    found := cache.Get(clock, bagId);
    stamp := clock.time;
    after := touches;
    ghost var id := ToLower(bagId);
    assert id in StampsOf(old(cache.cache)) <==> id in old(cache.cache);
    if found.Some? {
      after := touches + [id];
      StoringStamps(old(cache.cache), id, found.value);
    }
  }

  /** A store at a later time than before. */
  method SetLater(cache: BagsCache, clock: Clock, resources: Resources, bagId: string, torrent: Torrent, bagSize: nat,
                  downloader: Option<Downloader>, ghost touches: seq<string>)
    returns (ghost stamp: nat)
    requires ToLower(bagId) != ""
    modifies cache, clock, resources`stopped, resources`closed
    ensures Next(old(StateOf(cache, clock, touches)), Set(ToLower(bagId), stamp),
                 StateOf(cache, clock, touches + [ToLower(bagId)]), cache.maxCacheEntries)
  {
    clock.Sleep(1);
    stamp := cache.Set(clock, resources, bagId, torrent, bagSize, downloader);
    StoringStamps(old(cache.cache), ToLower(bagId), Entry(torrent, downloader, bagSize, stamp));
  }

  lemma StampedIsAsked(before: Entries, after: Entries, bag: string, from: nat, to: nat, now: nat,
                                          touches: seq<string>, max: nat)
    requires StampedBetween(before, after, bag, from, to) && now < from
    ensures Asked(State(StampsOf(before), now, touches), bag, State(StampsOf(after), to, touches + [bag]), max)
  {
    var stamp: nat :| from <= stamp <= to && after == before[bag := before[bag].(lastUsed := stamp)];
    StoringStamps(before, bag, before[bag].(lastUsed := stamp));
    assert bag in StampsOf(before);
    assert Next(State(StampsOf(before), now, touches), Get(bag, stamp), State(StampsOf(after), to, touches + [bag]), max);
  }

  lemma StoredIsAsked(before: Entries, after: Entries, bag: string, h: TorrentProtocol.Handle, bagSize: nat, from: nat, to: nat,
                                         now: nat, touches: seq<string>, max: nat)
    requires StoredBetween(before, after, bag, h, bagSize, max, from, to) && now < from && bag !in before && bag != ""
    ensures Asked(State(StampsOf(before), now, touches), bag, State(StampsOf(after), to, touches + [bag]), max)
  {
    var stamp: nat :| from <= stamp <= to && StoredAt(before[bag := Entry(h.torrent, h.downloader, bagSize, stamp)], after, max, to);
    StoringStamps(before, bag, Entry(h.torrent, h.downloader, bagSize, stamp));
    var s, t := State(StampsOf(before), now, touches), State(StampsOf(after), to, touches + [bag]);
    assert bag !in StampsOf(before);
    assert Next(s, Get(bag, 0), s, max) && Next(s, Set(bag, stamp), t, max);
  }

  /** A successful `getTorrent` at a later time than before is a request of the trace. */
  method AskLater(client: Client, clock: Clock, bagId: string, torrent: Torrent, how: Creation, ghost touches: seq<string>)
    returns (r: Result<TorrentProtocol.Handle, Failure>)
    requires client.Valid() && TorrentProtocol.Injective(client.store.hash) && IsLower(bagId) && bagId != "" && client.New(torrent, how)
    modifies clock, client.bagsCache, client.store, client.locks, client.resources
    ensures client.Valid()
    ensures r.Ok? ==>
              Asked(old(StateOf(client.bagsCache, clock, touches)), bagId,
                    StateOf(client.bagsCache, clock, touches + [bagId]), client.bagsCache.maxCacheEntries)
  {
    clock.Sleep(1);
    ghost var before, now, from := client.bagsCache.cache, old(clock.time), clock.time;
    r := client.GetTorrent(clock, bagId, torrent, how);
    ghost var after, max := client.bagsCache.cache, client.bagsCache.maxCacheEntries;
    if r.Ok? {
      if bagId in before {
        StampedIsAsked(before, after, bagId, from, clock.time, now, touches, max);
      } else {
        StoredIsAsked(before, after, bagId, r.value, how.bagSize, from, clock.time, now, touches, max);
      }
    }
  }
}
