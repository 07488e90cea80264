/** Runs in which the caches of the gateway answer from the past. */
module StaleAnswers {
  import opened Lifetimes
  import opened Moderation

  // ---- Putting runs together ----------------------------------------------------------------------------

  lemma {:induction false} Joined(w: World, a: seq<Action>, b: seq<Action>)
    requires w.trace != [] && Possible(w, a) && Possible(After(w, a), b)
    ensures Possible(w, a + b) && After(w, a + b) == After(After(w, a), b)
    decreases |a|
  {
    if a == [] {
      assert a + b == b;
    } else {
      Joined(Next(w, a[0]), a[1..], b);
      assert (a + b)[1..] == a[1..] + b;
    }
  }

  lemma TwoSteps(w: World, a: Action, b: Action) returns (run: seq<Action>)
    requires w.trace != [] && Enabled(w, a) && Enabled(Next(w, a), b)
    ensures Possible(w, run) && After(w, run) == Next(Next(w, a), b)
  {
    var w2 := Next(Next(w, a), b);
    assert After(w2, []) == w2;
    OneMoreStep(Next(w, a), b, []);
    OneMoreStep(w, a, [b] + []);
    run := [a] + ([b] + []);
  }

  // ---- Pieces of runs -------------------------------------------------------------------------------------

  /** Nothing is cached for the bag and the path. */
  ghost predicate Uncached(w: World, bag: string, path: string) {
    (bag, path) !in w.listings && bag !in w.bans
  }

  /** All but the clock and the threads is as it was. */
  ghost predicate SameShared(w: World, w': World) {
    w'.banned == w.banned && w'.bans == w.bans && w'.listings == w.listings
  }

  /** A moderator bans or unbans the bag; its turn at the ban cache is to come. */
  lemma Moderates(w: World, tid: Tid, item: Item) returns (run: seq<Action>)
    requires w.trace != [] && tid !in w.threads
    ensures Possible(w, run)
    ensures var w' := After(w, run);
            && w'.banned == (if item.banned then w.banned + {item.bag} else w.banned - {item.bag})
            && w'.bans == w.bans && w'.listings == w.listings && w'.now == w.now
            && w'.threads == w.threads[tid := ToRefresh([item], |w.trace| + 1)]
            && w'.trace == w.trace + [w.banned, w'.banned]
  {
    run := TwoSteps(w, Moderate(tid, [item]), Commit(tid, true));
    var w1 := Next(w, Moderate(tid, [item]));
    var w2 := Next(w1, Commit(tid, true));
    assert [item][0] == item;
    assert w2.banned == Applied(w.banned, [item]);
    assert w2.threads == w.threads[tid := ToRefresh([item], |w.trace| + 1)];
  }

  /** A request comes to the ban check. */
  lemma Asks(w: World, tid: Tid, bag: string, path: string) returns (run: seq<Action>)
    requires w.trace != [] && tid !in w.threads && Uncached(w, bag, path)
    ensures Possible(w, run)
    ensures var w' := After(w, run);
            && SameShared(w, w') && w'.now == w.now
            && w'.threads == w.threads[tid := Request(bag, path, |w.trace| - 1, AtBanCache)]
            && w'.trace == w.trace + [w.banned, w.banned]
  {
    run := TwoSteps(w, Ask(tid, bag, path), LookUpListing(tid));
    var w1 := Next(w, Ask(tid, bag, path));
    var w2 := Next(w1, LookUpListing(tid));
    assert w2.listings == w.listings;
    assert w2.threads == w.threads[tid := Request(bag, path, |w.trace| - 1, AtBanCache)];
  }

  /** It reads the table. */
  lemma Reads(w: World, tid: Tid) returns (run: seq<Action>)
    requires w.trace != [] && InStage(w, tid, AtBanCache) && w.threads[tid].bag !in w.bans
    ensures Possible(w, run)
    ensures var w' := After(w, run);
            && SameShared(w, w') && w'.now == w.now
            && w'.threads == w.threads[tid := w.threads[tid].(stage :=
                 if w.threads[tid].bag in w.banned then ToStoreBan(|w.trace|) else ToFetch(|w.trace|))]
            && w'.trace == w.trace + [w.banned, w.banned]
  {
    run := TwoSteps(w, LookUpBan(tid), ReadTable(tid, true));
    var w1 := Next(w, LookUpBan(tid));
    var w2 := Next(w1, ReadTable(tid, true));
    assert w1.bans == w.bans;
    assert w2.threads == w.threads[tid := w.threads[tid].(stage :=
             if w.threads[tid].bag in w.banned then ToStoreBan(|w.trace|) else ToFetch(|w.trace|))];
  }

  /** It fetches a listing and stores it. */
  lemma Lists(w: World, tid: Tid) returns (run: seq<Action>)
    requires w.trace != [] && tid in w.threads && w.threads[tid].Request? && w.threads[tid].stage.ToFetch?
    ensures Possible(w, run)
    ensures var w', t := After(w, run), w.threads[tid];
            && w'.banned == w.banned && w'.now == w.now && w'.threads.Keys == w.threads.Keys
            && w'.listings == w.listings[(t.bag, t.path) := Listing(t.path, w.now, t.stage.check)]
            && w'.trace == w.trace + [w.banned, w.banned]
  {
    run := TwoSteps(w, Fetch(tid, AListing), StoreListing(tid));
  }

  /** Time passes and a request is answered from the listing cache. */
  lemma GetsCachedListing(w: World, tid: Tid, bag: string, path: string, passed: nat) returns (run: seq<Action>)
    requires w.trace != [] && tid !in w.threads && (bag, path) in w.listings
    requires w.now + passed <= w.listings[(bag, path)].storedAt + LISTING_TTL
    ensures Possible(w, run)
    ensures var w' := After(w, run);
            && tid in w'.threads && w'.threads[tid].Request?
            && w'.threads[tid].bag == bag && w'.threads[tid].path == path && w'.threads[tid].began == |w.trace|
            && w'.threads[tid].stage == Answered(CachedListing(w.listings[(bag, path)]), |w.trace| + 1, w.now + passed)
            && w'.trace == w.trace + [w.banned, w.banned, w.banned]
  {
    var w1 := Next(w, Tick(passed));
    run := TwoSteps(w1, Ask(tid, bag, path), LookUpListing(tid));
    var w2 := Next(w1, Ask(tid, bag, path));
    assert LiveListing(w2, (bag, path));
    OneMoreStep(w, Tick(passed), run);
    run := [Tick(passed)] + run;
  }

  // ---- A listing from before a ban --------------------------------------------------------------------------

  lemma ListsFirst(bag: string, path: string) returns (run: seq<Action>)
    ensures Possible(Start(), run)
    ensures var w := After(Start(), run);
            && w.banned == {} && w.now == 0 && w.threads.Keys == {0} && w.trace != []
            && (bag, path) in w.listings && w.listings[(bag, path)].storedAt == 0
  {
    var w0 := Start();
    run := Asks(w0, 0, bag, path);
    var w1 := After(w0, run);
    var more := Reads(w1, 0);
    Joined(w0, run, more);
    run := run + more;
    var w2 := After(w0, run);
    more := Lists(w2, 0);
    Joined(w0, run, more);
    run := run + more;
  }

  /** The bound of `BanIsEffective` is reached: a request that begins after a ban has been
      committed, and for up to a minute, is given a listing. */
  lemma ListingOutlivesBan(bag: string, path: string, passed: nat) returns (run: seq<Action>, commit: nat)
    requires passed <= LISTING_TTL
    ensures Possible(Start(), run)
    ensures var w := After(Start(), run);
            && 2 in w.threads && w.threads[2].Request? && w.threads[2].bag == bag && w.threads[2].path == path
            && w.threads[2].stage.Answered? && w.threads[2].stage.reply.CachedListing?
            && commit <= w.threads[2].began && w.threads[2].stage.at == passed
            && BannedThroughout(w, bag, commit, w.threads[2].stage.ended)
  {
    run := ListsFirst(bag, path);
    var w1 := After(Start(), run);
    var more := Moderates(w1, 1, Item(bag, true));
    Joined(Start(), run, more);
    run := run + more;
    var w2 := After(Start(), run);
    commit := |w2.trace| - 1;
    more := GetsCachedListing(w2, 2, bag, path, passed);
    Joined(Start(), run, more);
    run := run + more;
  }

  // ---- A refusal from a lifted ban ----------------------------------------------------------------------------

  /** The moderator's turn at the ban cache. */
  lemma Releases(w: World, tid: Tid, bag: string) returns (run: seq<Action>)
    requires w.trace != [] && tid in w.threads && w.threads[tid].ToRefresh? && w.threads[tid].rest == [Item(bag, false)]
    ensures Possible(w, run)
    ensures var w' := After(w, run);
            && w'.banned == w.banned && w'.bans == w.bans - {bag} && w'.listings == w.listings && w'.now == w.now
            && w'.threads == w.threads[tid := ToRefresh([], w.threads[tid].commit)]
            && w'.trace == w.trace + [w.banned]
  {
    var w1 := Next(w, Refresh(tid));
    assert [Item(bag, false)][1..] == [];
    assert After(w1, []) == w1;
    OneMoreStep(w, Refresh(tid), []);
    run := [Refresh(tid)] + [];
  }

  /** A request stores the ban it read, however long ago, and time passes. */
  lemma StoresLate(w: World, tid: Tid, passed: nat) returns (run: seq<Action>)
    requires w.trace != [] && tid in w.threads && w.threads[tid].Request? && w.threads[tid].stage.ToStoreBan?
    ensures Possible(w, run)
    ensures var w', t := After(w, run), w.threads[tid];
            && w'.banned == w.banned && w'.listings == w.listings && w'.now == w.now + passed
            && w'.bans == w.bans[t.bag := Ban(w.now, t.stage.seen)]
            && w'.threads.Keys == w.threads.Keys
            && (forall other | other in w.threads && other != tid :: w'.threads[other] == w.threads[other])
            && w'.threads[tid].Request?
            && w'.trace == w.trace + [w.banned, w.banned]
  {
    run := TwoSteps(w, StoreBan(tid), Tick(passed));
  }

  /** A request is refused from the ban cache. */
  lemma Refused(w: World, tid: Tid, bag: string, path: string) returns (run: seq<Action>)
    requires w.trace != [] && tid !in w.threads && (bag, path) !in w.listings && LiveBan(w, bag)
    ensures Possible(w, run)
    ensures var w' := After(w, run);
            && tid in w'.threads && w'.threads[tid].Request? && w'.threads[tid].bag == bag && w'.threads[tid].path == path
            && w'.threads[tid].began == |w.trace| - 1
            && w'.threads[tid].stage == Answered(RefusedByCache(w.bans[bag]), |w.trace| + 1, w.now)
            && w'.trace == w.trace + [w.banned, w.banned, w.banned]
            && (forall other | other in w.threads :: other in w'.threads && w'.threads[other] == w.threads[other])
            && w'.threads.Keys == w.threads.Keys + {tid}
  {
    var w1 := Next(w, Ask(tid, bag, path));
    var w2 := Next(w1, LookUpListing(tid));
    assert LiveBan(w2, bag);
    var w3 := Next(w2, LookUpBan(tid));
    assert After(w3, []) == w3;
    OneMoreStep(w2, LookUpBan(tid), []);
    run := [LookUpBan(tid)] + [];
    OneMoreStep(w1, LookUpListing(tid), run);
    run := [LookUpListing(tid)] + run;
    OneMoreStep(w, Ask(tid, bag, path), run);
    run := [Ask(tid, bag, path)] + run;
  }

  /** A reader has seen a ban that is then lifted and released. */
  lemma ReadsThenLifted(bag: string, path: string) returns (run: seq<Action>)
    ensures Possible(Start(), run)
    ensures var w := After(Start(), run);
            && w.banned == {} && w.now == 0 && w.trace != [] && Uncached(w, bag, path) && w.threads.Keys == {0, 1, 2}
            && w.threads[0].Request? && w.threads[0].bag == bag && w.threads[0].stage.ToStoreBan?
            && (forall tid | tid in {1, 2} :: w.threads[tid].ToRefresh? && Item(bag, false) !in w.threads[tid].rest)
  {
    var w0 := Start();
    run := Moderates(w0, 1, Item(bag, true));
    var w1 := After(w0, run);
    var more := Asks(w1, 0, bag, path);
    Joined(w0, run, more);
    run := run + more;
    var w2 := After(w0, run);
    more := Reads(w2, 0);
    Joined(w0, run, more);
    run := run + more;
    var w3 := After(w0, run);
    more := Moderates(w3, 2, Item(bag, false));
    Joined(w0, run, more);
    run := run + more;
    var w4 := After(w0, run);
    more := Releases(w4, 2, bag);
    Joined(w0, run, more);
    run := run + more;
  }

  /** The late step is possible: a request that begins up to an hour after its bag's ban has been
      lifted and released is refused from the cache, though the bag is free at every moment of
      the request. */
  lemma RefusalOutlivesBan(bag: string, path: string, passed: nat) returns (run: seq<Action>)
    requires passed <= BAN_TTL
    ensures Possible(Start(), run)
    ensures var w := After(Start(), run);
            && 3 in w.threads && w.threads[3].Request? && w.threads[3].bag == bag && w.threads[3].path == path
            && w.threads[3].stage.Answered? && w.threads[3].stage.reply.RefusedByCache? && w.threads[3].stage.at == passed
            && (forall m | w.threads[3].began <= m <= w.threads[3].stage.ended && m < |w.trace| :: bag !in w.trace[m])
            && !Releasing(w, bag)
  {
    run := ReadsThenLifted(bag, path);
    var w1 := After(Start(), run);
    var more := StoresLate(w1, 0, passed);
    Joined(Start(), run, more);
    run := run + more;
    var w2 := After(Start(), run);
    more := Refused(w2, 3, bag, path);
    Joined(Start(), run, more);
    run := run + more;
  }
}
