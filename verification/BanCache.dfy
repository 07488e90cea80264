/** The ban cache over the blacklist, and the moderation endpoint above both. */
module BanCaching {
  import opened Text
  import opened Clocks
  import opened SimpleCaching
  import opened Blacklist
  import opened Lifetimes

  const HAS_BAN_KEY: string := "hb:"

  function BanKey(bagId: string): string {
    HAS_BAN_KEY + ToLower(bagId)
  }

  /** The key is that of a bag in the set. */
  ghost predicate KeyOf(key: string, bagId: string) {
    ToLower(bagId) == bagId && key == HAS_BAN_KEY + bagId
  }

  lemma KeyNamesBag(key: string, a: string, b: string)
    requires KeyOf(key, a) && KeyOf(key, b)
    ensures a == b
  {
    assert a == key[|HAS_BAN_KEY|..] && b == key[|HAS_BAN_KEY|..];
  }

  lemma BanKeyOfLower(bagId: string)
    requires ToLower(bagId) == bagId
    ensures KeyOf(BanKey(bagId), bagId)
  {
  }

  ghost predicate LowerTable(t: Table) {
    forall id | id in t :: ToLower(id) == id
  }

  /** Every cached entry, expired or not, says true of a bag that is banned now, or is about to
      be released. */
  ghost predicate Covered(items: Items<bool>, t: Table, pending: set<string>) {
    forall key | key in items :: items[key].value && exists id :: (id in t || id in pending) && KeyOf(key, id)
  }

  ghost function Unbanned(batch: seq<Status>): set<string> {
    set s | s in batch && !s.banned :: s.bagId
  }

  ghost predicate LowerBatch(batch: seq<Status>) {
    forall s | s in batch :: ToLower(s.bagId) == s.bagId
  }

  lemma LowerTableAfter(t: Table, batch: seq<Status>, t': Table)
    requires LowerTable(t) && LowerBatch(batch) && TableAfter(t, batch, t')
    ensures LowerTable(t')
  {
    forall id | id in t' ensures ToLower(id) == id {
      if s :| s in batch && s.bagId == id {
      } else {
        assert id in t;
      }
    }
  }

  /** Right after the statement commits, only the bags it unbanned are out of step. */
  lemma CommitCovers(items: Items<bool>, t: Table, batch: seq<Status>, t': Table)
    requires Covered(items, t, {}) && TableAfter(t, batch, t')
    ensures Covered(items, t', Unbanned(batch))
  {
    forall key | key in items ensures exists id :: (id in t' || id in Unbanned(batch)) && KeyOf(key, id) {
      var id :| id in t && KeyOf(key, id);
      if s :| s in batch && s.bagId == id {
        assert s.banned || id in Unbanned(batch);
      } else {
        assert id in t';
      }
    }
  }

  lemma ReleaseCovers(items: Items<bool>, t: Table, pending: set<string>, id: string, key: string)
    requires Covered(items, t, pending) && KeyOf(key, id)
    ensures Covered(items - {key}, t, pending - {id})
  {
    forall k | k in items - {key} ensures exists x :: (x in t || x in pending - {id}) && KeyOf(k, x) {
      var x :| (x in t || x in pending) && KeyOf(k, x);
      assert x == id ==> k == key;
    }
  }

  lemma SetCovers(items: Items<bool>, t: Table, pending: set<string>, id: string, key: string, expiry: nat)
    requires Covered(items, t, pending) && KeyOf(key, id) && id in t
    ensures Covered(items[key := Item(true, expiry)], t, pending)
  {
  }

  /** What a batch makes of the cache between the times `from` and `to`: banned bags are cached
      anew, unbanned ones are gone, the rest is as it was. */
  ghost predicate Refreshed(before: Items<bool>, after: Items<bool>, batch: seq<Status>, from: nat, to: nat) {
    && (forall s | s in batch ::
          if s.banned
          then BanKey(s.bagId) in after && after[BanKey(s.bagId)].value
               && from + BAN_TTL <= after[BanKey(s.bagId)].expiry <= to + BAN_TTL
          else BanKey(s.bagId) !in after)
    && (forall key | (forall s | s in batch :: BanKey(s.bagId) != key) ::
          (key in after <==> key in before) && (key in before ==> after[key] == before[key]))
  }

  lemma BanKeysDiffer(a: string, b: string)
    requires ToLower(a) == a && ToLower(b) == b && a != b
    ensures BanKey(a) != BanKey(b)
  {
    BanKeyOfLower(a);
    BanKeyOfLower(b);
    if BanKey(a) == BanKey(b) {
      KeyNamesBag(BanKey(a), a, b);
    }
  }

  lemma EarlierDiffer(batch: seq<Status>, i: nat)
    requires DistinctBags(batch) && i < |batch|
    ensures forall d | d in batch[..i] :: d.bagId != batch[i].bagId
  {
    forall d | d in batch[..i] ensures d.bagId != batch[i].bagId {
      var k :| 0 <= k < i && batch[..i][k] == d;
      assert batch[k] == d;
    }
  }

  lemma RefreshOne(before: Items<bool>, items: Items<bool>, after: Items<bool>, done: seq<Status>, s: Status,
                                      from: nat, earlier: nat, now: nat)
    requires Refreshed(before, items, done, from, earlier) && from <= earlier <= now
    requires LowerBatch(done) && ToLower(s.bagId) == s.bagId && forall d | d in done :: d.bagId != s.bagId
    requires after == if s.banned then items[BanKey(s.bagId) := Item(true, now + BAN_TTL)] else items - {BanKey(s.bagId)}
    ensures Refreshed(before, after, done + [s], from, now)
  {
    var key := BanKey(s.bagId);
    forall d | d in done ensures BanKey(d.bagId) != key {
      BanKeysDiffer(d.bagId, s.bagId);
    }
    forall other | (forall d | d in done + [s] :: BanKey(d.bagId) != other)
      ensures (other in after <==> other in before) && (other in before ==> after[other] == before[other])
    {
      assert s in done + [s];
      assert forall d | d in done :: d in done + [s];
    }
  }

  class CachedRepository {
    const repo: Repository
    const cache: SimpleCache<bool>

    constructor(repo: Repository)
      requires LowerTable(repo.table)
      ensures this.repo == repo && fresh(cache) && cache.ttl == BAN_TTL && Coherent()
    {
      this.repo := repo;
      this.cache := new SimpleCache(BAN_TTL);
    }

    /** Each cached entry names a banned bag. */
    ghost predicate Coherent()
      reads repo, cache
    {
      LowerTable(repo.table) && Covered(cache.items, repo.table, {}) && cache.ttl == BAN_TTL
    }

    /** A live entry says that the bag is banned; otherwise the table is asked, which fails when
        the database is down. The answer is the table's, for lower-case ids whatever is cached. */
    method HasBan(clock: Clock, bagId: string, up: bool) returns (ok: bool, banned: bool)
      requires Coherent()
      modifies cache, clock
      ensures Coherent()
      ensures old(clock.time) <= clock.time
      ensures !ok ==> !up && !banned
      ensures var key := "hb:" + ToLower(bagId);
              if key in old(cache.items) && clock.time <= old(cache.items)[key].expiry then ok && banned
              else if up then
                && ok && (banned <==> bagId in repo.table)
                && (banned ==> key in cache.items && cache.items[key] == Item(true, clock.time + 3600))
              else !ok
      ensures ok ==> (bagId in repo.table ==> banned) && (banned ==> ToLower(bagId) in repo.table)
      ensures ok && ToLower(bagId) == bagId ==> (banned <==> bagId in repo.table)
      ensures var key := BanKey(bagId);
              && cache.items - {key} == old(cache.items) - {key}
              && (banned <==> key in cache.items)
              && (banned ==> clock.time <= cache.items[key].expiry)
    {
      var key := BanKey(bagId);
      var found := cache.Get(clock, key);
      ToLowerFixesLower(ToLower(bagId));
      ToLowerFixesLower(bagId);
      if found.Hit? && found.value {
        ghost var id :| id in repo.table && KeyOf(key, id);
        KeyNamesBag(key, id, ToLower(bagId));
        return true, true;
      }
      if !up {
        return false, false;
      }
      ok := true;
      banned := repo.HasBan(bagId);
      if banned {
        BanKeyOfLower(bagId);
        SetCovers(cache.items, repo.table, {}, bagId, key, 0);
        cache.Set(clock, key, true);
      }
    }

    /** One turn of the loop that follows a batch. */
    method Refresh(clock: Clock, status: Status, ghost pending: set<string>)
      requires Covered(cache.items, repo.table, pending) && cache.ttl == BAN_TTL
      requires ToLower(status.bagId) == status.bagId && (status.banned ==> status.bagId in repo.table)
      modifies cache, clock
      ensures old(clock.time) <= clock.time
      ensures cache.items == if status.banned
                             then old(cache.items)[BanKey(status.bagId) := Item(true, clock.time + BAN_TTL)]
                             else old(cache.items) - {BanKey(status.bagId)}
      ensures Covered(cache.items, repo.table, if status.banned then pending else pending - {status.bagId})
    {
      var key := BanKey(status.bagId);
      BanKeyOfLower(status.bagId);
      if !status.banned {
        ReleaseCovers(cache.items, repo.table, pending, status.bagId, key);
        var _ := cache.Release(clock, key);
      } else {
        SetCovers(cache.items, repo.table, pending, status.bagId, key, 0);
        cache.Set(clock, key, true);
      }
    }

    /** The loop over a batch that has been committed. */
    method RefreshAll(clock: Clock, batch: seq<Status>)
      requires Covered(cache.items, repo.table, Unbanned(batch)) && cache.ttl == BAN_TTL
      requires DistinctBags(batch) && LowerBatch(batch)
      requires forall s | s in batch && s.banned :: s.bagId in repo.table
      modifies cache, clock
      ensures Covered(cache.items, repo.table, {})
      ensures old(clock.time) <= clock.time
      ensures Refreshed(old(cache.items), cache.items, batch, old(clock.time), clock.time)
    {
      ghost var pending, before, from := Unbanned(batch), cache.items, clock.time;
      for i := 0 to |batch|
        invariant Covered(cache.items, repo.table, pending) && pending <= Unbanned(batch[i..])
        invariant from <= clock.time && Refreshed(before, cache.items, batch[..i], from, clock.time)
      {
        ghost var items, earlier := cache.items, clock.time;
        var status := batch[i];
        Refresh(clock, status, pending);
        pending := if status.banned then pending else pending - {status.bagId};
        assert batch[i..] == [status] + batch[i + 1..] && batch[..i + 1] == batch[..i] + [status];
        EarlierDiffer(batch, i);
        RefreshOne(before, items, cache.items, batch[..i], status, from, earlier, clock.time);
      }
      assert batch[..|batch|] == batch;
      assert pending == {};
    }

    method UpdateBanStatus(clock: Clock, batch: seq<Status>, up: bool) returns (ok: bool)
      requires Coherent() && DistinctBags(batch) && LowerBatch(batch)
      modifies repo, cache, clock
      ensures Coherent() && ok == up
      ensures ok ==> BatchStep(old(repo.State()), batch, repo.State())
      ensures ok ==> Refreshed(old(cache.items), cache.items, batch, old(clock.time), clock.time)
      ensures !ok ==> repo.State() == old(repo.State()) && cache.items == old(cache.items)
    {
      ok := repo.UpdateBanStatus(batch, up);
      if !ok {
        return;
      }
      LowerTableAfter(old(repo.table), batch, repo.table);
      CommitCovers(cache.items, old(repo.table), batch, repo.table);
      RefreshAll(clock, batch);
    }

    /** A background sweep, at any moment between operations. */
    method Sweep(now: nat)
      requires Coherent()
      modifies cache
      ensures Coherent()
    {
      cache.Sweep(now);
    }
  }

  // ---- The moderation endpoint -----------------------------------------------------------------------

  datatype Outcome = Done | BadRequest | InternalError

  /** The batch as the service hands it on. */
  function Lowered(statuses: seq<Status>): (batch: seq<Status>)
    ensures |batch| == |statuses|
    ensures forall i | 0 <= i < |batch| :: batch[i] == statuses[i].(bagId := ToLower(statuses[i].bagId))
  {
    seq(|statuses|, i requires 0 <= i < |statuses| => statuses[i].(bagId := ToLower(statuses[i].bagId)))
  }

  /** What a batch made of the bag that `s` names, as `id`. */
  ghost predicate BanDone(before: Database, after: Database, items: Items<bool>, s: Status, id: string, from: nat, to: nat) {
    if s.banned then
      && id in after.table && after.table[id] == s.row
      && Of(after.history, id) == Of(before.history, id) + [Change(id, s.row, true)]
      && "hb:" + id in items && items["hb:" + id].value
      && from + 3600 <= items["hb:" + id].expiry <= to + 3600
    else
      && id !in after.table
      && Of(after.history, id)
         == Of(before.history, id) + (if id in before.table then [Change(id, before.table[id], false)] else [])
      && "hb:" + id !in items
  }

  /** The bag is on the blacklist, in the history and in the cache as it was. */
  ghost predicate BanUntouched(before: Database, after: Database, items: Items<bool>, items': Items<bool>, id: string) {
    && (id in after.table <==> id in before.table) && (id in before.table ==> after.table[id] == before.table[id])
    && Of(after.history, id) == Of(before.history, id)
    && ("hb:" + id in items' <==> "hb:" + id in items)
    && ("hb:" + id in items ==> items'["hb:" + id] == items["hb:" + id])
  }

  lemma {:induction false} AppliedDone(before: Database, after: Database, items: Items<bool>, items': Items<bool>,
                                       statuses: seq<Status>, i: nat, from: nat, to: nat)
    requires BatchStep(before, Lowered(statuses), after) && Refreshed(items, items', Lowered(statuses), from, to)
    requires i < |statuses|
    ensures BanDone(before, after, items', statuses[i], ToLower(statuses[i].bagId), from, to)
  {
    var s := Lowered(statuses)[i];
    ToLowerFixesLower(s.bagId);
    ToLowerFixesLower(statuses[i].bagId);
    BatchOnBag(before, Lowered(statuses), after, s);
    assert BanKey(s.bagId) == "hb:" + s.bagId;
  }

  lemma {:induction false} AppliedUntouched(before: Database, after: Database, items: Items<bool>, items': Items<bool>,
                                            statuses: seq<Status>, id: string, from: nat, to: nat)
    requires BatchStep(before, Lowered(statuses), after) && Refreshed(items, items', Lowered(statuses), from, to)
    requires IsLower(id) && forall i | 0 <= i < |statuses| :: ToLower(statuses[i].bagId) != id
    ensures BanUntouched(before, after, items, items', id)
  {
    var batch := Lowered(statuses);
    ToLowerFixesLower(id);
    forall s | s in batch ensures s.bagId != id && BanKey(s.bagId) != "hb:" + id {
      var i :| 0 <= i < |batch| && batch[i] == s;
      ToLowerFixesLower(statuses[i].bagId);
      ToLowerFixesLower(s.bagId);
      BanKeysDiffer(s.bagId, id);
    }
    BatchOffBag(before, batch, after, id);
  }

  /** `UpdateBanStatus` of the reports service: the whole batch is refused if one id has not
      64 bytes; otherwise it is lowered and applied as one statement. */
  method UpdateBans(files: CachedRepository, clock: Clock, statuses: seq<Status>, up: bool) returns (r: Outcome)
    requires files.Coherent() && DistinctBags(Lowered(statuses))
    modifies files.repo, files.cache, clock
    ensures files.Coherent()
    ensures r == BadRequest <==> exists i :: 0 <= i < |statuses| && ByteLen(statuses[i].bagId) != 64
    ensures r == Done && statuses != [] ==>
              BatchStep(old(files.repo.State()), Lowered(statuses), files.repo.State())
    ensures r != Done || statuses == [] ==>
              files.repo.State() == old(files.repo.State()) && files.cache.items == old(files.cache.items)
    ensures r == Done <==> statuses == [] || (up && forall i | 0 <= i < |statuses| :: ByteLen(statuses[i].bagId) == 64)
    ensures r == Done ==> old(files.repo.history) <= files.repo.history
    ensures r == Done ==>
              forall i | 0 <= i < |statuses| ::
                BanDone(old(files.repo.State()), files.repo.State(), files.cache.items,
                        statuses[i], ToLower(statuses[i].bagId), old(clock.time), clock.time)
    ensures r == Done ==>
              forall id | IsLower(id) && (forall i | 0 <= i < |statuses| :: ToLower(statuses[i].bagId) != id) ::
                BanUntouched(old(files.repo.State()), files.repo.State(), old(files.cache.items), files.cache.items, id)
  {
    if statuses == [] {
      return Done;
    }
    var batch: seq<Status> := [];
    for i := 0 to |statuses|
      invariant |batch| == i
      invariant forall k | 0 <= k < i ::
                  batch[k] == Lowered(statuses)[k] && ByteLen(statuses[k].bagId) == 64
    {
      if ByteLen(statuses[i].bagId) != 64 {
        return BadRequest;
      }
      batch := batch + [statuses[i].(bagId := ToLower(statuses[i].bagId))];
    }
    assert batch == Lowered(statuses);
    forall s | s in batch ensures ToLower(s.bagId) == s.bagId {
      var k :| 0 <= k < |batch| && batch[k] == s;
      ToLowerFixesLower(statuses[k].bagId);
      ToLowerFixesLower(s.bagId);
    }
    ghost var before, items, from := files.repo.State(), files.cache.items, clock.time;
    var ok := files.UpdateBanStatus(clock, batch, up);
    r := if ok then Done else InternalError;
    if ok {
      ghost var after, items' := files.repo.State(), files.cache.items;
      forall i | 0 <= i < |statuses|
        ensures BanDone(before, after, items', statuses[i], ToLower(statuses[i].bagId), from, clock.time)
      {
        AppliedDone(before, after, items, items', statuses, i, from, clock.time);
      }
      forall id | IsLower(id) && (forall i | 0 <= i < |statuses| :: ToLower(statuses[i].bagId) != id)
        ensures BanUntouched(before, after, items, items', id)
      {
        AppliedUntouched(before, after, items, items', statuses, id, from, clock.time);
      }
    }
  }
}
