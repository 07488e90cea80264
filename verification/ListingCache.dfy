/** The one-minute cache in front of the file service. */
module ListingCaching {
  import opened Text
  import opened DirectoryTree
  import opened Requests
  import opened Clocks
  import opened FileService
  import opened Wrappers
  import opened Lifetimes
  import Caching = SimpleCaching

  function ListingKey(bagId: string, path: string): string {
    bagId + ":" + path
  }

  function FirstColon(s: string): nat {
    if s == "" || s[0] == ':' then 0 else 1 + FirstColon(s[1..])
  }

  lemma {:induction false} FirstColonOfKey(bagId: string, path: string)
    requires ':' !in bagId
    ensures FirstColon(ListingKey(bagId, path)) == |bagId|
  {
    if bagId != "" {
      assert ListingKey(bagId, path)[1..] == ListingKey(bagId[1..], path);
      FirstColonOfKey(bagId[1..], path);
    }
  }

  /** Bag ids hold no colon, so no two requests share a key. */
  lemma ListingKeysDiffer(a: string, p: string, b: string, q: string)
    requires ':' !in a && ':' !in b
    requires ListingKey(a, p) == ListingKey(b, q)
    ensures a == b && p == q
  {
    FirstColonOfKey(a, p);
    FirstColonOfKey(b, q);
    var k := ListingKey(a, p);
    assert a == k[..|a|] && b == k[..|b|];
    assert p == k[|a| + 1..] && q == k[|b| + 1..];
  }

  /** Neither a file nor a stream. */
  predicate PlainListing(info: FolderInfo) {
    info.stream == None && info.singleFilePath == ""
  }

  class ListingCache {
    const cache: Caching.SimpleCache<FolderInfo>

    constructor()
      ensures fresh(cache) && cache.ttl == LISTING_TTL && Valid()
    {
      cache := new Caching.SimpleCache(LISTING_TTL);
    }

    /** Files and streams are never stored. */
    ghost predicate Valid()
      reads cache
    {
      cache.ttl == LISTING_TTL && forall key | key in cache.items :: PlainListing(cache.items[key].value)
    }

    /** A live entry is returned as it was stored; otherwise the service answers, and its answer
        is stored exactly when it is a listing without error. */
    method GetPathInfo(clock: Clock, bagId: string, w: World, path: string) returns (a: Answer, cached: bool)
      requires Valid()
      modifies cache`items, clock
      ensures Valid()
      ensures cached ==>
                var key, before := ListingKey(bagId, path), old(cache.items);
                && key in before && old(clock.time) <= clock.time <= before[key].expiry
                && a == Answer(before[key].value, None) && cache.items == before
      ensures !cached ==>
                var key, before := ListingKey(bagId, path), old(cache.items);
                key in before ==> before[key].expiry < clock.time
      ensures !cached && Sound(w) && Accepted(path) ==> a == PathInfo(bagId, w, path)
      ensures !cached && w.banned == None ==> a == Answer(NO_INFO, Some(Internal))
      ensures !cached && w.banned == Some(true) ==> a == Answer(NO_INFO, Some(Banned))
      ensures !cached ==>
                var key := ListingKey(bagId, path);
                && cache.items - {key} == old(cache.items) - {key}
                && (key in cache.items <==> a.error == None && PlainListing(a.info))
                && (key in cache.items ==>
                      cache.items[key] == Caching.Item(a.info, clock.time + LISTING_TTL))
    {
      var key := ListingKey(bagId, path);
      var found := cache.Get(clock, key);
      if found.Hit? {
        return Answer(found.value, None), true;
      }
      cached := false;
      a := FileService.GetPathInfo(bagId, w, path);
      if a.error != None {
        return;
      }
      if a.info.stream.Some? || a.info.singleFilePath != "" {
        return;
      }
      cache.Set(clock, key, a.info);
    }
  }
}
