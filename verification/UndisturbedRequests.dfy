/** Requests and moderators that nobody disturbs: what each of them then does, from any state
    that the others have left behind. Interleaved runs are made of the same steps. */
module UndisturbedRequests {
  import opened Lifetimes
  import opened Moderation

  /** All steps of the run are the thread's own. */
  ghost predicate Own(run: seq<Action>, tid: Tid) {
    forall k | 0 <= k < |run| :: !run[k].Tick? && !run[k].SweepBans? && !run[k].SweepListings? && Mover(run[k]) == tid
  }

  /** The time and the other threads are as they were. */
  ghost predicate OthersStand(w: World, w': World, tid: Tid) {
    && w'.now == w.now && tid in w'.threads
    && (forall other | other != tid :: other in w'.threads <==> other in w.threads)
    && (forall other | other in w.threads && other != tid :: w'.threads[other] == w.threads[other])
  }

  lemma FirstStep(w: World, a: Action, rest: seq<Action>, tid: Tid) returns (run: seq<Action>)
    requires w.trace != [] && Enabled(w, a) && Possible(Next(w, a), rest) && Own(rest, tid) && Own([a], tid)
    ensures Possible(w, run) && After(w, run) == After(Next(w, a), rest) && Own(run, tid)
  {
    OneMoreStep(w, a, rest);
    run := [a] + rest;
    assert [a][0] == a;
  }

  lemma OneStep(w: World, a: Action, tid: Tid) returns (run: seq<Action>)
    requires w.trace != [] && Enabled(w, a) && Own([a], tid)
    ensures Possible(w, run) && After(w, run) == Next(w, a) && Own(run, tid)
  {
    assert After(Next(w, a), []) == Next(w, a);
    run := FirstStep(w, a, [], tid);
  }

  /** Nobody but `tid` moved, and it answers what it answers now. */
  ghost predicate Replied(w: World, w': World, tid: Tid, t: Thread, reply: Reply)
    requires t.Request?
  {
    && OthersStand(w, w', tid) && w'.banned == w.banned
    && |w'.trace| > 1 && w'.threads[tid] == t.(stage := Answered(reply, |w'.trace| - 2, w.now))
  }

  // ---- A request ------------------------------------------------------------------------------------------

  /** The reply of a request that reads the table at moment `m`. */
  function TableReply(banned: bool, up: bool, outcome: Fetched, m: nat): Reply {
    if !up then Failed
    else if banned then RefusedByTable(m)
    else
      match outcome
      case Nothing => Failed
      case AFile => Content(m)
      case AListing => FreshListing(m)
  }

  /** From the table on. */
  lemma AsksTable(w: World, tid: Tid, up: bool, outcome: Fetched) returns (run: seq<Action>)
    requires w.trace != [] && InStage(w, tid, AtTable)
    ensures Possible(w, run) && Own(run, tid)
    ensures var w', t, m := After(w, run), w.threads[tid], |w.trace| - 1;
            var reply := TableReply(t.bag in w.banned, up, outcome, m);
            && Replied(w, w', tid, t, reply)
            && w'.bans == (if reply.RefusedByTable? then w.bans[t.bag := Ban(w.now, m)] else w.bans)
            && w'.listings == (if reply.FreshListing? then w.listings[(t.bag, t.path) := Listing(t.path, w.now, m)]
                               else w.listings)
  {
    if !up {
      run := OneStep(w, ReadTable(tid, up), tid);
    } else if w.threads[tid].bag in w.banned {
      run := StoresBan(w, tid);
    } else {
      run := Passes(w, tid, outcome);
    }
  }

  lemma Passes(w: World, tid: Tid, outcome: Fetched) returns (run: seq<Action>)
    requires w.trace != [] && InStage(w, tid, AtTable) && w.threads[tid].bag !in w.banned
    ensures Possible(w, run) && Own(run, tid)
    ensures var w', t, m := After(w, run), w.threads[tid], |w.trace| - 1;
            var reply := TableReply(false, true, outcome, m);
            && Replied(w, w', tid, t, reply) && w'.bans == w.bans
            && w'.listings == (if reply.FreshListing? then w.listings[(t.bag, t.path) := Listing(t.path, w.now, m)]
                               else w.listings)
  {
    var w1 := Next(w, ReadTable(tid, true));
    assert InOrder(w, w1, tid, ToFetch(|w.trace| - 1));
    run := Fetches(w1, tid, outcome);
    run := FirstStep(w, ReadTable(tid, true), run, tid);
  }

  /** The thread has gone on to another stage, and nothing else has happened. */
  ghost predicate InOrder(w: World, w1: World, tid: Tid, stage: Stage) {
    && tid in w.threads && w.threads[tid].Request? && w1.threads == w.threads[tid := w.threads[tid].(stage := stage)]
    && w1.now == w.now && w1.banned == w.banned && w1.bans == w.bans && w1.listings == w.listings
  }

  lemma StoresBan(w: World, tid: Tid) returns (run: seq<Action>)
    requires w.trace != [] && InStage(w, tid, AtTable) && w.threads[tid].bag in w.banned
    ensures Possible(w, run) && Own(run, tid)
    ensures var w', t, m := After(w, run), w.threads[tid], |w.trace| - 1;
            && Replied(w, w', tid, t, RefusedByTable(m))
            && w'.bans == w.bans[t.bag := Ban(w.now, m)] && w'.listings == w.listings
  {
    var w1 := Next(w, ReadTable(tid, true));
    assert InOrder(w, w1, tid, ToStoreBan(|w.trace| - 1));
    run := OneStep(w1, StoreBan(tid), tid);
    run := FirstStep(w, ReadTable(tid, true), run, tid);
  }

  lemma Fetches(w: World, tid: Tid, outcome: Fetched) returns (run: seq<Action>)
    requires w.trace != [] && tid in w.threads && w.threads[tid].Request? && w.threads[tid].stage.ToFetch?
    ensures Possible(w, run) && Own(run, tid)
    ensures var w', t, m := After(w, run), w.threads[tid], w.threads[tid].stage.check;
            var reply := TableReply(false, true, outcome, m);
            && Replied(w, w', tid, t, reply) && w'.bans == w.bans
            && w'.listings == (if reply.FreshListing? then w.listings[(t.bag, t.path) := Listing(t.path, w.now, m)]
                               else w.listings)
  {
    if outcome.AListing? {
      var w1 := Next(w, Fetch(tid, outcome));
      assert InOrder(w, w1, tid, ToStoreListing(w.threads[tid].stage.check));
      run := OneStep(w1, StoreListing(tid), tid);
      run := FirstStep(w, Fetch(tid, outcome), run, tid);
    } else {
      run := OneStep(w, Fetch(tid, outcome), tid);
    }
  }

  /** A request that nobody disturbs: a listing stored at most a minute ago is given; otherwise
      a ban stored at most an hour ago refuses; otherwise the table decides, and what it decided
      is stored. An entry past its time is dropped. */
  lemma {:induction false} RequestAlone(w: World, tid: Tid, bag: string, path: string, up: bool, outcome: Fetched)
    returns (run: seq<Action>)
    requires w.trace != [] && tid !in w.threads
    ensures Possible(w, run) && Own(run, tid)
    ensures var w', key, m := After(w, run), (bag, path), |w.trace| + 2;
            && tid in w'.threads && w'.threads[tid].Request? && w'.threads[tid].stage.Answered?
            && var reply := w'.threads[tid].stage.reply;
               && Replied(w, w', tid, Request(bag, path, |w.trace| - 1, AtListingCache), reply)
               &&
               if key in w.listings && w.now <= w.listings[key].storedAt + 60 then
                 && reply == CachedListing(w.listings[key]) && w'.listings == w.listings && w'.bans == w.bans
               else if bag in w.bans && w.now <= w.bans[bag].storedAt + 3600 then
                 && reply == RefusedByCache(w.bans[bag]) && w'.listings == w.listings - {key} && w'.bans == w.bans
               else if !up then
                 && reply == Failed && w'.listings == w.listings - {key} && w'.bans == w.bans - {bag}
               else if bag in w.banned then
                 && reply == RefusedByTable(m)
                 && w'.listings == w.listings - {key} && w'.bans == w.bans[bag := Ban(w.now, m)]
               else
                 && w'.bans == w.bans - {bag}
                 && match outcome
                    case Nothing => reply == Failed && w'.listings == w.listings - {key}
                    case AFile => reply == Content(m) && w'.listings == w.listings - {key}
                    case AListing => reply == FreshListing(m) && w'.listings == w.listings[key := Listing(path, w.now, m)]
  {
    var w1 := Next(w, Ask(tid, bag, path));
    run := LooksUp(w1, tid, up, outcome);
    run := FirstStep(w, Ask(tid, bag, path), run, tid);
  }

  lemma {:induction false} LooksUp(w: World, tid: Tid, up: bool, outcome: Fetched) returns (run: seq<Action>)
    requires w.trace != [] && InStage(w, tid, AtListingCache)
    ensures Possible(w, run) && Own(run, tid)
    ensures var w', t, m := After(w, run), w.threads[tid], |w.trace| + 1;
            var key, bag := (t.bag, t.path), t.bag;
            && tid in w'.threads && w'.threads[tid].Request? && w'.threads[tid].stage.Answered?
            && var reply := w'.threads[tid].stage.reply;
               && Replied(w, w', tid, t, reply)
               &&
               if LiveListing(w, key) then
                 reply == CachedListing(w.listings[key]) && w'.listings == w.listings && w'.bans == w.bans
               else if LiveBan(w, bag) then
                 reply == RefusedByCache(w.bans[bag]) && w'.listings == w.listings - {key} && w'.bans == w.bans
               else
                 && reply == TableReply(bag in w.banned, up, outcome, m)
                 && w'.bans == (if reply.RefusedByTable? then w.bans[bag := Ban(w.now, m)] else w.bans - {bag})
                 && w'.listings == (if reply.FreshListing? then w.listings[key := Listing(t.path, w.now, m)]
                                    else w.listings - {key})
  {
    var t := w.threads[tid];
    if LiveListing(w, (t.bag, t.path)) {
      run := OneStep(w, LookUpListing(tid), tid);
    } else if LiveBan(w, t.bag) {
      run := IsRefused(w, tid);
    } else {
      run := MissesTwice(w, tid, up, outcome);
    }
  }

  lemma IsRefused(w: World, tid: Tid) returns (run: seq<Action>)
    requires w.trace != [] && InStage(w, tid, AtListingCache)
    requires var t := w.threads[tid]; !LiveListing(w, (t.bag, t.path)) && LiveBan(w, t.bag)
    ensures Possible(w, run) && Own(run, tid)
    ensures var w', t := After(w, run), w.threads[tid];
            && Replied(w, w', tid, t, RefusedByCache(w.bans[t.bag]))
            && w'.listings == w.listings - {(t.bag, t.path)} && w'.bans == w.bans
  {
    run := OneStep(Next(w, LookUpListing(tid)), LookUpBan(tid), tid);
    run := FirstStep(w, LookUpListing(tid), run, tid);
  }

  lemma {:induction false} MissesTwice(w: World, tid: Tid, up: bool, outcome: Fetched) returns (run: seq<Action>)
    requires w.trace != [] && InStage(w, tid, AtListingCache)
    requires var t := w.threads[tid]; !LiveListing(w, (t.bag, t.path)) && !LiveBan(w, t.bag)
    ensures Possible(w, run) && Own(run, tid)
    ensures var w', t, m := After(w, run), w.threads[tid], |w.trace| + 1;
            var reply := TableReply(t.bag in w.banned, up, outcome, m);
            && Replied(w, w', tid, t, reply)
            && w'.bans == (if reply.RefusedByTable? then w.bans[t.bag := Ban(w.now, m)] else w.bans - {t.bag})
            && w'.listings == (if reply.FreshListing? then w.listings[(t.bag, t.path) := Listing(t.path, w.now, m)]
                               else w.listings - {(t.bag, t.path)})
  {
    var t := w.threads[tid];
    var w1 := Next(w, LookUpListing(tid));
    var w2 := Next(w1, LookUpBan(tid));
    Missed(w, w1, w2, tid);
    run := AsksTable(w2, tid, up, outcome);
    var m := |w.trace| + 1;
    AnsweredLater(w, w2, After(w2, run), tid, t, TableReply(t.bag in w.banned, up, outcome, m), m);
    run := FirstStep(w1, LookUpBan(tid), run, tid);
    run := FirstStep(w, LookUpListing(tid), run, tid);
  }

  lemma Missed(w: World, w1: World, w2: World, tid: Tid)
    requires w.trace != [] && InStage(w, tid, AtListingCache)
    requires var t := w.threads[tid]; !LiveListing(w, (t.bag, t.path)) && !LiveBan(w, t.bag)
    requires w1 == Next(w, LookUpListing(tid))
    requires Enabled(w1, LookUpBan(tid)) ==> w2 == Next(w1, LookUpBan(tid))
    ensures Enabled(w1, LookUpBan(tid))
    ensures var t := w.threads[tid];
            && w2.threads == w.threads[tid := t.(stage := AtTable)] && w2.now == w.now && w2.banned == w.banned
            && w2.listings == w.listings - {(t.bag, t.path)} && w2.bans == w.bans - {t.bag}
            && |w2.trace| == |w.trace| + 2
  {
  }

  lemma AnsweredLater(w: World, w2: World, w': World, tid: Tid, t: Thread, reply: Reply, m: nat)
    requires tid in w.threads && w.threads[tid] == t && t.Request?
    requires w2.threads == w.threads[tid := t.(stage := AtTable)] && w2.now == w.now && w2.banned == w.banned
    requires w2.listings == w.listings - {(t.bag, t.path)} && w2.bans == w.bans - {t.bag}
    requires Replied(w2, w', tid, t.(stage := AtTable), reply)
    requires w'.bans == if reply.RefusedByTable? then w2.bans[t.bag := Ban(w2.now, m)] else w2.bans
    requires w'.listings == if reply.FreshListing? then w2.listings[(t.bag, t.path) := Listing(t.path, w2.now, m)]
                            else w2.listings
    ensures Replied(w, w', tid, t, reply)
    ensures w'.bans == if reply.RefusedByTable? then w.bans[t.bag := Ban(w.now, m)] else w.bans - {t.bag}
    ensures w'.listings == if reply.FreshListing? then w.listings[(t.bag, t.path) := Listing(t.path, w.now, m)]
                           else w.listings - {(t.bag, t.path)}
  {
  }

  // ---- A moderator ----------------------------------------------------------------------------------------

  ghost predicate DistinctItems(batch: seq<Item>) {
    forall i, j | 0 <= i < j < |batch| :: batch[i].bag != batch[j].bag
  }

  /** The turns at the ban cache. */
  lemma {:induction false} RefreshesAlone(w: World, tid: Tid) returns (run: seq<Action>)
    requires w.trace != [] && tid in w.threads && w.threads[tid].ToRefresh? && DistinctItems(w.threads[tid].rest)
    ensures Possible(w, run) && Own(run, tid)
    ensures var w', batch, commit := After(w, run), w.threads[tid].rest, w.threads[tid].commit;
            && OthersStand(w, w', tid) && w'.banned == w.banned && w'.listings == w.listings
            && w'.threads[tid] == ToRefresh([], commit)
            && (forall i | 0 <= i < |batch| ::
                  if batch[i].banned then batch[i].bag in w'.bans && w'.bans[batch[i].bag] == Ban(w.now, commit)
                  else batch[i].bag !in w'.bans)
            && (forall bag | (forall i | 0 <= i < |batch| :: batch[i].bag != bag) ::
                  (bag in w'.bans <==> bag in w.bans) && (bag in w.bans ==> w'.bans[bag] == w.bans[bag]))
    decreases |w.threads[tid].rest|
  {
    var batch := w.threads[tid].rest;
    if batch == [] {
      run := [];
    } else {
      var w1 := Next(w, Refresh(tid));
      assert w1.threads[tid].rest == batch[1..];
      assert forall i | 0 <= i < |batch| - 1 :: batch[1..][i] == batch[i + 1];
      run := RefreshesAlone(w1, tid);
      run := FirstStep(w, Refresh(tid), run, tid);
      RefreshedRest(w, w1, After(w, run), tid);
    }
  }

  lemma RefreshedRest(w: World, w1: World, w': World, tid: Tid)
    requires w.trace != [] && Enabled(w, Refresh(tid)) && w1 == Next(w, Refresh(tid)) && DistinctItems(w.threads[tid].rest)
    requires var rest := w.threads[tid].rest[1..];
             && (forall i | 0 <= i < |rest| ::
                   if rest[i].banned then rest[i].bag in w'.bans && w'.bans[rest[i].bag] == Ban(w.now, w.threads[tid].commit)
                   else rest[i].bag !in w'.bans)
             && (forall bag | (forall i | 0 <= i < |rest| :: rest[i].bag != bag) ::
                   (bag in w'.bans <==> bag in w1.bans) && (bag in w1.bans ==> w'.bans[bag] == w1.bans[bag]))
    ensures var batch := w.threads[tid].rest;
            && (forall i | 0 <= i < |batch| ::
                  if batch[i].banned then batch[i].bag in w'.bans && w'.bans[batch[i].bag] == Ban(w.now, w.threads[tid].commit)
                  else batch[i].bag !in w'.bans)
            && (forall bag | (forall i | 0 <= i < |batch| :: batch[i].bag != bag) ::
                  (bag in w'.bans <==> bag in w.bans) && (bag in w.bans ==> w'.bans[bag] == w.bans[bag]))
  {
    var batch := w.threads[tid].rest;
    var rest := batch[1..];
    assert forall i | 0 <= i < |rest| :: rest[i] == batch[i + 1];
    forall i | 0 <= i < |batch|
      ensures if batch[i].banned then batch[i].bag in w'.bans && w'.bans[batch[i].bag] == Ban(w.now, w.threads[tid].commit)
              else batch[i].bag !in w'.bans
    {
      if i > 0 {
        assert rest[i - 1] == batch[i];
      }
    }
  }

  /** A moderator that nobody disturbs: once the statement is committed, exactly the bags it bans
      are on the blacklist and cached as banned at the commit, those it unbans are on neither,
      and the others are as they were. A refused statement changes nothing. */
  lemma {:induction false} ModeratorAlone(w: World, tid: Tid, batch: seq<Item>, up: bool) returns (run: seq<Action>)
    requires w.trace != [] && tid !in w.threads && DistinctItems(batch)
    ensures Possible(w, run) && Own(run, tid)
    ensures var w' := After(w, run);
            && OthersStand(w, w', tid) && w'.listings == w.listings
            && (!up ==> w'.banned == w.banned && w'.bans == w.bans && w'.threads[tid] == Finished)
            && (up ==>
                  && w'.threads[tid] == ToRefresh([], |w.trace| + 1)
                  && |w.trace| + 1 < |w'.trace| && w'.trace[|w.trace| + 1] == w'.banned
                  && (forall i | 0 <= i < |batch| ::
                        && (batch[i].bag in w'.banned <==> batch[i].banned)
                        && (batch[i].bag in w'.bans <==> batch[i].banned)
                        && (batch[i].banned ==> w'.bans[batch[i].bag] == Ban(w.now, |w.trace| + 1)))
                  && (forall bag | (forall i | 0 <= i < |batch| :: batch[i].bag != bag) ::
                        && (bag in w'.banned <==> bag in w.banned) && (bag in w'.bans <==> bag in w.bans)
                        && (bag in w.bans ==> w'.bans[bag] == w.bans[bag])))
  {
    var w1 := Next(w, Moderate(tid, batch));
    var w2 := Next(w1, Commit(tid, up));
    if up {
      AppliedBags(w.banned, batch);
      run := RefreshesAlone(w2, tid);
      TraceGrows(w2, run);
      run := FirstStep(w1, Commit(tid, up), run, tid);
    } else {
      run := OneStep(w1, Commit(tid, up), tid);
    }
    run := FirstStep(w, Moderate(tid, batch), run, tid);
  }

  lemma AppliedBags(banned: set<string>, batch: seq<Item>)
    requires DistinctItems(batch)
    ensures forall i | 0 <= i < |batch| :: batch[i].bag in Applied(banned, batch) <==> batch[i].banned
    ensures forall bag | (forall i | 0 <= i < |batch| :: batch[i].bag != bag) ::
              bag in Applied(banned, batch) <==> bag in banned
  {
    forall i | 0 <= i < |batch| ensures batch[i].bag in Applied(banned, batch) <==> batch[i].banned {
      if j :| 0 <= j < |batch| && batch[j].banned && batch[j].bag == batch[i].bag {
        assert j < i || i < j || i == j;
      }
    }
  }

  lemma {:induction false} TraceGrows(w: World, run: seq<Action>)
    requires w.trace != [] && Possible(w, run)
    ensures w.trace <= After(w, run).trace
    decreases |run|
  {
    if run != [] {
      TraceGrows(Next(w, run[0]), run[1..]);
    }
  }

  // ---- Sweeps -----------------------------------------------------------------------------------------------

  /** A sweep takes nothing that could still be given: what is live stays as it is, and only what
      was past its time when the sweep read the clock goes. */
  lemma SweepsKeepLive(w: World, read: nat, bag: string, key: (string, string))
    requires w.trace != [] && read <= w.now
    ensures LiveBan(Next(w, SweepBans(read)), bag) <==> LiveBan(w, bag)
    ensures LiveListing(Next(w, SweepListings(read)), key) <==> LiveListing(w, key)
    ensures bag in w.bans ==> (bag !in Next(w, SweepBans(read)).bans <==> w.bans[bag].storedAt + 3600 < read)
    ensures key in w.listings ==> (key !in Next(w, SweepListings(read)).listings <==> w.listings[key].storedAt + 60 < read)
  {
  }
}
