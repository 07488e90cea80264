/** Requests and moderators at work at the same time: the listing cache, the ban cache and the
    blacklist, each touched in one atomic step, with any interleaving of the steps.

    Bag ids are lower-case here, as the handlers and the reports service make them. */
module Moderation {
  import opened Lifetimes
  import SimpleCaching

  type Tid = nat

  /** A cached listing: of which path, when it was stored, and the moment its request read the
      blacklist. */
  datatype Listing = Listing(path: string, storedAt: nat, check: nat)

  /** A cached ban: when it was stored and a moment at which the bag was banned, its basis. */
  datatype Ban = Ban(storedAt: nat, basis: nat)

  datatype Reply =
    | RefusedByTable(seen: nat)
    | RefusedByCache(ban: Ban)
    | Failed
    | Content(check: nat)
    | FreshListing(check: nat)
    | CachedListing(entry: Listing)

  /** Where a request stands between two atomic steps. */
  datatype Stage =
    | AtListingCache
    | AtBanCache
    | AtTable
    | ToStoreBan(seen: nat)
    | ToFetch(check: nat)
    | ToStoreListing(check: nat)
    | Answered(reply: Reply, ended: nat, at: nat)

  datatype Item = Item(bag: string, banned: bool)

  datatype Thread =
    | Request(bag: string, path: string, began: nat, stage: Stage)
    | ToCommit(batch: seq<Item>)
    | ToRefresh(rest: seq<Item>, commit: nat)
    | Finished

  /** `trace` remembers the blacklist after each step, so that a moment is an index into it. */
  datatype World = World(
    banned: set<string>,
    bans: map<string, Ban>,
    listings: map<(string, string), Listing>,
    now: nat,
    threads: map<Tid, Thread>,
    trace: seq<set<string>>)

  function Start(): World {
    World({}, map[], map[], 0, map[], [{}])
  }

  function Moment(w: World): int {
    |w.trace| - 1
  }

  // ---- Steps ---------------------------------------------------------------------------------------

  datatype Action =
    | Tick(passed: nat)
    | Ask(tid: Tid, bag: string, path: string)
    | LookUpListing(tid: Tid)
    | LookUpBan(tid: Tid)
    | ReadTable(tid: Tid, up: bool)
    | StoreBan(tid: Tid)
    | Fetch(tid: Tid, outcome: Fetched)
    | StoreListing(tid: Tid)
    | Moderate(tid: Tid, batch: seq<Item>)
    | Commit(tid: Tid, up: bool)
    | Refresh(tid: Tid)
    | SweepBans(read: nat)
    | SweepListings(read: nat)

  /** What the storages give a request that passed its ban check. */
  datatype Fetched = Nothing | AFile | AListing

  predicate InStage(w: World, tid: Tid, stage: Stage) {
    tid in w.threads && w.threads[tid].Request? && w.threads[tid].stage == stage
  }

  predicate Enabled(w: World, a: Action) {
    match a
    case Tick(_) => true
    case Ask(tid, _, _) => tid !in w.threads
    case Moderate(tid, _) => tid !in w.threads
    case LookUpListing(tid) => InStage(w, tid, AtListingCache)
    case LookUpBan(tid) => InStage(w, tid, AtBanCache)
    case ReadTable(tid, _) => InStage(w, tid, AtTable)
    case StoreBan(tid) => tid in w.threads && w.threads[tid].Request? && w.threads[tid].stage.ToStoreBan?
    case Fetch(tid, _) => tid in w.threads && w.threads[tid].Request? && w.threads[tid].stage.ToFetch?
    case StoreListing(tid) => tid in w.threads && w.threads[tid].Request? && w.threads[tid].stage.ToStoreListing?
    case Commit(tid, _) => tid in w.threads && w.threads[tid].ToCommit?
    case Refresh(tid) => tid in w.threads && w.threads[tid].ToRefresh? && w.threads[tid].rest != []
    case SweepBans(read) => read <= w.now
    case SweepListings(read) => read <= w.now
  }

  predicate LiveListing(w: World, key: (string, string)) {
    key in w.listings && SimpleCaching.Unexpired(w.listings[key].storedAt + LISTING_TTL, w.now)
  }

  predicate LiveBan(w: World, bag: string) {
    bag in w.bans && SimpleCaching.Unexpired(w.bans[bag].storedAt + BAN_TTL, w.now)
  }

  /** The blacklist after a batch with distinct bags. */
  function Applied(banned: set<string>, batch: seq<Item>): set<string> {
    (banned - set i | 0 <= i < |batch| && !batch[i].banned :: batch[i].bag)
    + set i | 0 <= i < |batch| && batch[i].banned :: batch[i].bag
  }

  function Put(w: World, tid: Tid, t: Thread): World {
    w.(threads := w.threads[tid := t])
  }

  function Advance(w: World, tid: Tid, stage: Stage): World
    requires tid in w.threads && w.threads[tid].Request?
  {
    Put(w, tid, w.threads[tid].(stage := stage))
  }

  function Answer(w: World, tid: Tid, reply: Reply): World
    requires tid in w.threads && w.threads[tid].Request? && w.trace != []
  {
    Advance(w, tid, Answered(reply, Moment(w), w.now))
  }

  function Effect(w: World, a: Action): World
    requires Enabled(w, a) && w.trace != []
  {
    match a
    case Tick(passed) => w.(now := w.now + passed)
    case Ask(tid, bag, path) => Put(w, tid, Request(bag, path, Moment(w), AtListingCache))
    case Moderate(tid, batch) => Put(w, tid, ToCommit(batch))
    case LookUpListing(tid) =>
      var key := (w.threads[tid].bag, w.threads[tid].path);
      if LiveListing(w, key) then Answer(w, tid, CachedListing(w.listings[key]))
      else Advance(w.(listings := w.listings - {key}), tid, AtBanCache)
    case LookUpBan(tid) =>
      var bag := w.threads[tid].bag;
      if LiveBan(w, bag) then Answer(w, tid, RefusedByCache(w.bans[bag]))
      else Advance(w.(bans := w.bans - {bag}), tid, AtTable)
    case ReadTable(tid, up) =>
      if !up then Answer(w, tid, Failed)
      else if w.threads[tid].bag in w.banned then Advance(w, tid, ToStoreBan(Moment(w)))
      else Advance(w, tid, ToFetch(Moment(w)))
    case StoreBan(tid) =>
      var t := w.threads[tid];
      Answer(w.(bans := w.bans[t.bag := Ban(w.now, t.stage.seen)]), tid, RefusedByTable(t.stage.seen))
    case Fetch(tid, outcome) =>
      var check := w.threads[tid].stage.check;
      (match outcome
       case Nothing => Answer(w, tid, Failed)
       case AFile => Answer(w, tid, Content(check))
       case AListing => Advance(w, tid, ToStoreListing(check)))
    case StoreListing(tid) =>
      var t := w.threads[tid];
      var entry := Listing(t.path, w.now, t.stage.check);
      Answer(w.(listings := w.listings[(t.bag, t.path) := entry]), tid, FreshListing(t.stage.check))
    case Commit(tid, up) =>
      if up then Put(w.(banned := Applied(w.banned, w.threads[tid].batch)), tid,
                     ToRefresh(w.threads[tid].batch, |w.trace|))
      else Put(w, tid, Finished)
    case Refresh(tid) =>
      var t := w.threads[tid];
      var head := t.rest[0];
      var bans := if head.banned then w.bans[head.bag := Ban(w.now, t.commit)] else w.bans - {head.bag};
      Put(w.(bans := bans), tid, ToRefresh(t.rest[1..], t.commit))
    case SweepBans(read) =>
      w.(bans := map bag | bag in w.bans && SimpleCaching.Unexpired(w.bans[bag].storedAt + BAN_TTL, read) :: w.bans[bag])
    case SweepListings(read) =>
      w.(listings := map key | key in w.listings && SimpleCaching.Unexpired(w.listings[key].storedAt + LISTING_TTL, read) :: w.listings[key])
  }

  function Next(w: World, a: Action): World
    requires Enabled(w, a) && w.trace != []
  {
    var w' := Effect(w, a);
    w'.(trace := w.trace + [w'.banned])
  }

  // ---- The invariant ---------------------------------------------------------------------------------

  ghost predicate Saw(trace: seq<set<string>>, moment: nat, bag: string, banned: bool) {
    moment < |trace| && (bag in trace[moment] <==> banned)
  }

  ghost predicate ListingOk(w: World, bag: string, path: string, e: Listing) {
    e.path == path && e.storedAt <= w.now && Saw(w.trace, e.check, bag, false)
  }

  ghost predicate BanOk(w: World, bag: string, b: Ban) {
    b.storedAt <= w.now && Saw(w.trace, b.basis, bag, true)
  }

  /** What every answer rests on. */
  ghost predicate ReplyOk(w: World, bag: string, path: string, began: nat, reply: Reply, ended: nat, at: nat) {
    && began <= ended < |w.trace| && at <= w.now
    && match reply
       case RefusedByTable(seen) => began <= seen <= ended && Saw(w.trace, seen, bag, true)
       case RefusedByCache(b) => BanOk(w, bag, b) && b.basis <= ended && b.storedAt <= at <= b.storedAt + BAN_TTL
       case Failed => true
       case Content(check) => began <= check <= ended && Saw(w.trace, check, bag, false)
       case FreshListing(check) => began <= check <= ended && Saw(w.trace, check, bag, false)
       case CachedListing(e) => ListingOk(w, bag, path, e) && e.check <= ended && e.storedAt <= at <= e.storedAt + LISTING_TTL
  }

  ghost predicate ThreadOk(w: World, t: Thread) {
    match t
    case Request(bag, path, began, stage) =>
      && began < |w.trace|
      && (match stage
          case ToStoreBan(seen) => began <= seen && Saw(w.trace, seen, bag, true)
          case ToFetch(check) => began <= check && Saw(w.trace, check, bag, false)
          case ToStoreListing(check) => began <= check && Saw(w.trace, check, bag, false)
          case Answered(reply, ended, at) => ReplyOk(w, bag, path, began, reply, ended, at)
          case _ => true)
    case ToRefresh(rest, commit) =>
      forall i | 0 <= i < |rest| && rest[i].banned :: Saw(w.trace, commit, rest[i].bag, true)
    case _ => true
  }

  ghost predicate Inv(w: World) {
    && w.trace != [] && w.trace[|w.trace| - 1] == w.banned
    && (forall tid | tid in w.threads :: ThreadOk(w, w.threads[tid]))
    && (forall bag | bag in w.bans :: BanOk(w, bag, w.bans[bag]))
    && (forall key | key in w.listings :: ListingOk(w, key.0, key.1, w.listings[key]))
  }

  /** Time and the trace only grow, so what rested on them still does. */
  ghost predicate Later(w: World, w': World) {
    w.trace <= w'.trace && w.now <= w'.now
  }

  lemma ThreadStaysOk(w: World, w': World, t: Thread)
    requires Later(w, w') && ThreadOk(w, t)
    ensures ThreadOk(w', t)
  {
    assert forall i | 0 <= i < |w.trace| :: w'.trace[i] == w.trace[i];
  }

  lemma EntriesStayOk(w: World, w': World, bag: string)
    requires Later(w, w')
    ensures forall b: Ban | BanOk(w, bag, b) :: BanOk(w', bag, b)
    ensures forall path, e: Listing | ListingOk(w, bag, path, e) :: ListingOk(w', bag, path, e)
  {
    assert forall i | 0 <= i < |w.trace| :: w'.trace[i] == w.trace[i];
  }

  lemma NextIsLater(w: World, a: Action)
    requires Inv(w) && Enabled(w, a)
    ensures Later(w, Next(w, a)) && Next(w, a).trace == w.trace + [Next(w, a).banned]
  {
  }

  /** The thread a step moved. */
  function Mover(a: Action): Tid {
    match a
    case Tick(_) => 0
    case SweepBans(_) => 0
    case SweepListings(_) => 0
    case _ => a.tid
  }

  ghost predicate MoverOk(w: World, a: Action)
    requires Enabled(w, a) && w.trace != []
  {
    Mover(a) in Next(w, a).threads && ThreadOk(Next(w, a), Next(w, a).threads[Mover(a)])
  }

  /** The thread that moves, as it was, in the state after the step. */
  lemma MoverWasOk(w: World, a: Action)
    requires Inv(w) && Enabled(w, a) && Mover(a) in w.threads
    ensures ThreadOk(Next(w, a), w.threads[Mover(a)])
    ensures Next(w, a).trace[|w.trace| - 1] == w.banned && w.now <= Next(w, a).now
    ensures |Next(w, a).trace| == |w.trace| + 1
  {
    NextIsLater(w, a);
    ThreadStaysOk(w, Next(w, a), w.threads[Mover(a)]);
  }

  lemma NewThreadOk(w: World, a: Action)
    requires Inv(w) && Enabled(w, a) && (a.Ask? || a.Moderate?)
    ensures MoverOk(w, a)
  {
  }

  lemma LookUpOk(w: World, a: Action)
    requires Inv(w) && Enabled(w, a) && (a.LookUpListing? || a.LookUpBan?)
    ensures MoverOk(w, a)
  {
    MoverWasOk(w, a);
    NextIsLater(w, a);
    EntriesStayOk(w, Next(w, a), w.threads[a.tid].bag);
  }

  lemma ReadTableOk(w: World, a: Action)
    requires Inv(w) && Enabled(w, a) && a.ReadTable?
    ensures MoverOk(w, a)
  {
    MoverWasOk(w, a);
  }

  lemma FetchListingOk(w: World, a: Action)
    requires Inv(w) && Enabled(w, a) && a.Fetch? && a.outcome.AListing?
    ensures MoverOk(w, a)
  {
    MoverWasOk(w, a);
  }

  lemma FetchOk(w: World, a: Action)
    requires Inv(w) && Enabled(w, a) && a.Fetch? && !a.outcome.AListing?
    ensures MoverOk(w, a)
  {
    MoverWasOk(w, a);
    assert ThreadOk(w, w.threads[a.tid]);
  }

  lemma StoreOk(w: World, a: Action)
    requires Inv(w) && Enabled(w, a) && (a.StoreBan? || a.StoreListing?)
    ensures MoverOk(w, a)
  {
    MoverWasOk(w, a);
    assert ThreadOk(w, w.threads[a.tid]);
  }

  lemma ModeratorOk(w: World, a: Action)
    requires Inv(w) && Enabled(w, a) && (a.Commit? || a.Refresh?)
    ensures MoverOk(w, a)
  {
    MoverWasOk(w, a);
    NextIsLater(w, a);
  }

  lemma {:induction false} MoverStaysOk(w: World, a: Action)
    requires Inv(w) && Enabled(w, a)
    requires !a.Tick? && !a.SweepBans? && !a.SweepListings?
    ensures MoverOk(w, a)
  {
    match a {
      case Ask(_, _, _) => NewThreadOk(w, a);
      case Moderate(_, _) => NewThreadOk(w, a);
      case LookUpListing(_) => LookUpOk(w, a);
      case LookUpBan(_) => LookUpOk(w, a);
      case ReadTable(_, _) => ReadTableOk(w, a);
      case Fetch(_, outcome) =>
        if outcome.AListing? {
          FetchListingOk(w, a);
        } else {
          FetchOk(w, a);
        }
      case StoreBan(_) => StoreOk(w, a);
      case StoreListing(_) => StoreOk(w, a);
      case Commit(_, _) => ModeratorOk(w, a);
      case Refresh(_) => ModeratorOk(w, a);
      case _ =>
    }
  }

  lemma BansStayOk(w: World, a: Action, bag: string)
    requires Inv(w) && Enabled(w, a) && bag in Next(w, a).bans
    ensures BanOk(Next(w, a), bag, Next(w, a).bans[bag])
  {
    NextIsLater(w, a);
    EntriesStayOk(w, Next(w, a), bag);
    if a.StoreBan? || a.Refresh? {
      ThreadStaysOk(w, Next(w, a), w.threads[a.tid]);
    }
  }

  lemma ListingsStayOk(w: World, a: Action, key: (string, string))
    requires Inv(w) && Enabled(w, a) && key in Next(w, a).listings
    ensures ListingOk(Next(w, a), key.0, key.1, Next(w, a).listings[key])
  {
    NextIsLater(w, a);
    EntriesStayOk(w, Next(w, a), key.0);
    if a.StoreListing? {
      ThreadStaysOk(w, Next(w, a), w.threads[a.tid]);
    }
  }

  lemma {:induction false} ThreadsStayOk(w: World, a: Action, tid: Tid)
    requires Inv(w) && Enabled(w, a) && tid in Next(w, a).threads
    ensures ThreadOk(Next(w, a), Next(w, a).threads[tid])
  {
    if !a.Tick? && !a.SweepBans? && !a.SweepListings? && tid == Mover(a) {
      MoverStaysOk(w, a);
    } else {
      OthersStandStill(w, a, tid);
      NextIsLater(w, a);
      ThreadStaysOk(w, Next(w, a), w.threads[tid]);
    }
  }

  lemma OthersStandStill(w: World, a: Action, tid: Tid)
    requires Enabled(w, a) && w.trace != [] && tid in Next(w, a).threads
    requires a.Tick? || a.SweepBans? || a.SweepListings? || tid != Mover(a)
    ensures tid in w.threads && Next(w, a).threads[tid] == w.threads[tid]
  {
  }

  lemma {:induction false} NextKeepsInv(w: World, a: Action)
    requires Inv(w) && Enabled(w, a)
    ensures Inv(Next(w, a))
  {
    var w' := Next(w, a);
    NextIsLater(w, a);
    forall tid | tid in w'.threads ensures ThreadOk(w', w'.threads[tid]) {
      ThreadsStayOk(w, a, tid);
    }
    forall bag | bag in w'.bans ensures BanOk(w', bag, w'.bans[bag]) {
      BansStayOk(w, a, bag);
    }
    forall key | key in w'.listings ensures ListingOk(w', key.0, key.1, w'.listings[key]) {
      ListingsStayOk(w, a, key);
    }
  }

  // ---- Runs --------------------------------------------------------------------------------------------

  ghost predicate Possible(w: World, run: seq<Action>)
    decreases |run|
  {
    run != [] ==> w.trace != [] && Enabled(w, run[0]) && Possible(Next(w, run[0]), run[1..])
  }

  ghost function After(w: World, run: seq<Action>): World
    requires Possible(w, run)
    decreases |run|
  {
    if run == [] then w else After(Next(w, run[0]), run[1..])
  }

  lemma {:induction false} RunKeepsInv(w: World, run: seq<Action>)
    requires Inv(w) && Possible(w, run)
    ensures Inv(After(w, run))
    decreases |run|
  {
    if run != [] {
      NextKeepsInv(w, run[0]);
      RunKeepsInv(Next(w, run[0]), run[1..]);
    }
  }

  lemma OneMoreStep(w: World, a: Action, rest: seq<Action>)
    requires w.trace != [] && Enabled(w, a) && Possible(Next(w, a), rest)
    ensures Possible(w, [a] + rest) && After(w, [a] + rest) == After(Next(w, a), rest)
  {
    assert ([a] + rest)[1..] == rest;
  }

  /** The bag is on the blacklist at every moment from `from` to `to`. */
  ghost predicate BannedThroughout(w: World, bag: string, from: nat, to: nat) {
    forall m | from <= m <= to && m < |w.trace| :: bag in w.trace[m]
  }

  /** In every run: a request that begins after a ban commits, the ban not being lifted, never
      gets a file, a stream or a fresh listing. It is refused, or fails, or is given a listing
      of the path it asked for that was cached at most a minute ago by a request whose ban check
      preceded the commit. */
  lemma BanIsEffective(run: seq<Action>, tid: Tid, commit: nat)
    requires Possible(Start(), run)
    requires var w := After(Start(), run);
             && tid in w.threads && w.threads[tid].Request? && w.threads[tid].stage.Answered?
             && commit <= w.threads[tid].began
             && BannedThroughout(w, w.threads[tid].bag, commit, w.threads[tid].stage.ended)
    ensures var t := After(Start(), run).threads[tid];
            match t.stage.reply
            case RefusedByTable(_) => true
            case RefusedByCache(_) => true
            case Failed => true
            case CachedListing(e) =>
              e.path == t.path && e.check < commit && e.storedAt <= t.stage.at <= e.storedAt + LISTING_TTL
            case Content(_) => false
            case FreshListing(_) => false
  {
    RunKeepsInv(Start(), run);
    var w := After(Start(), run);
    assert ThreadOk(w, w.threads[tid]);
  }

  /** In every run, content and fresh listings rest on a reading of the table made during the
      request, at a moment the bag was not banned. */
  lemma PassRestsOnTableRead(run: seq<Action>, tid: Tid)
    requires Possible(Start(), run)
    requires var w := After(Start(), run);
             && tid in w.threads && w.threads[tid].Request? && w.threads[tid].stage.Answered?
             && (w.threads[tid].stage.reply.Content? || w.threads[tid].stage.reply.FreshListing?)
    ensures var w := After(Start(), run);
            var t := w.threads[tid];
            && t.began <= t.stage.reply.check <= t.stage.ended < |w.trace|
            && t.bag !in w.trace[t.stage.reply.check]
  {
    RunKeepsInv(Start(), run);
    var w := After(Start(), run);
    assert ThreadOk(w, w.threads[tid]);
  }

  /** In every run, a refusal rests on a moment at which the bag was banned: a reading of the
      table during the request, or the reading or commit behind a cache entry that was stored at
      most an hour before the answer. The entry may be stored after the ban is lifted: see
      `CachedBansAreCurrentExactly`. */
  lemma RefusalRestsOnBan(run: seq<Action>, tid: Tid)
    requires Possible(Start(), run)
    requires var w := After(Start(), run);
             && tid in w.threads && w.threads[tid].Request? && w.threads[tid].stage.Answered?
             && (w.threads[tid].stage.reply.RefusedByTable? || w.threads[tid].stage.reply.RefusedByCache?)
    ensures var w := After(Start(), run);
            var t := w.threads[tid];
            match t.stage.reply
            case RefusedByTable(seen) => t.began <= seen <= t.stage.ended < |w.trace| && t.bag in w.trace[seen]
            case RefusedByCache(b) =>
              && b.basis <= t.stage.ended < |w.trace| && t.bag in w.trace[b.basis]
              && b.storedAt <= t.stage.at <= b.storedAt + BAN_TTL
            case _ => false
  {
    RunKeepsInv(Start(), run);
    var w := After(Start(), run);
    assert ThreadOk(w, w.threads[tid]);
  }

  // ---- When a cached ban names a banned bag ------------------------------------------------------------

  /** An unban of the bag is committed, and its turn in the loop over the ban cache is to come. */
  ghost predicate Releasing(w: World, bag: string) {
    exists tid, i :: tid in w.threads && w.threads[tid].ToRefresh? && 0 <= i < |w.threads[tid].rest|
                     && w.threads[tid].rest[i] == Item(bag, false)
  }

  /** Every cached ban names a banned bag, or one about to be released. */
  ghost predicate Covered(w: World) {
    forall bag | bag in w.bans :: bag in w.banned || Releasing(w, bag)
  }

  /** The bag the step stores a ban for. */
  ghost predicate Stores(w: World, a: Action, bag: string)
    requires Enabled(w, a)
  {
    || (a.StoreBan? && w.threads[a.tid].bag == bag)
    || (a.Refresh? && w.threads[a.tid].rest[0] == Item(bag, true))
  }

  /** The step stores a ban that has been lifted and released in the meantime. */
  ghost predicate Late(w: World, a: Action)
    requires Enabled(w, a)
  {
    exists bag :: Stores(w, a, bag) && bag !in w.banned && !Releasing(w, bag)
  }

  lemma OthersStillRelease(w: World, a: Action, bag: string, tid: Tid, i: nat)
    requires Enabled(w, a) && w.trace != [] && tid in w.threads && w.threads[tid].ToRefresh?
    requires i < |w.threads[tid].rest| && w.threads[tid].rest[i] == Item(bag, false)
    requires !(a.Refresh? && a.tid == tid && i == 0)
    ensures Releasing(Next(w, a), bag)
  {
    var w' := Next(w, a);
    if a.Refresh? && a.tid == tid {
      assert w'.threads[tid].rest[i - 1] == Item(bag, false);
    } else {
      assert tid in w'.threads && w'.threads[tid] == w.threads[tid];
    }
  }

  /** A release is over only when the cached ban is gone. */
  lemma ReleaseGoesOn(w: World, a: Action, bag: string)
    requires Enabled(w, a) && w.trace != [] && Releasing(w, bag)
    ensures Releasing(Next(w, a), bag) || bag !in Next(w, a).bans
  {
    var tid, i :| tid in w.threads && w.threads[tid].ToRefresh? && 0 <= i < |w.threads[tid].rest|
                  && w.threads[tid].rest[i] == Item(bag, false);
    if !(a.Refresh? && a.tid == tid && i == 0) {
      OthersStillRelease(w, a, bag, tid, i);
    }
  }

  /** A bag whose ban is lifted by a commit is about to be released. */
  lemma LiftedIsReleasing(w: World, a: Action, bag: string)
    requires Enabled(w, a) && w.trace != [] && bag in w.banned && bag !in Next(w, a).banned
    ensures Releasing(Next(w, a), bag)
  {
    var batch := w.threads[a.tid].batch;
    var i :| 0 <= i < |batch| && !batch[i].banned && batch[i].bag == bag;
    assert Next(w, a).threads[a.tid].rest[i] == Item(bag, false);
  }

  lemma NewBanIsStored(w: World, a: Action, bag: string)
    requires Enabled(w, a) && w.trace != [] && bag in Next(w, a).bans && bag !in w.bans
    ensures Stores(w, a, bag)
  {
  }

  lemma StoringKeepsTable(w: World, a: Action, bag: string)
    requires Enabled(w, a) && w.trace != [] && Stores(w, a, bag)
    ensures Next(w, a).banned == w.banned && bag in Next(w, a).bans
  {
  }

  lemma PromptStepKeepsCovered(w: World, a: Action)
    requires Enabled(w, a) && w.trace != [] && Covered(w) && !Late(w, a)
    ensures Covered(Next(w, a))
  {
    var w' := Next(w, a);
    forall bag | bag in w'.bans ensures bag in w'.banned || Releasing(w', bag) {
      if bag !in w.bans {
        NewBanIsStored(w, a, bag);
        StoringKeepsTable(w, a, bag);
      }
      if bag !in w'.banned {
        if bag in w.banned {
          LiftedIsReleasing(w, a, bag);
        } else {
          ReleaseGoesOn(w, a, bag);
        }
      }
    }
  }

  lemma StoringReleasesNothing(w: World, a: Action, bag: string)
    requires Enabled(w, a) && w.trace != [] && (a.StoreBan? || a.Refresh?) && Releasing(Next(w, a), bag)
    ensures Releasing(w, bag)
  {
    var w' := Next(w, a);
    var tid, i :| tid in w'.threads && w'.threads[tid].ToRefresh? && 0 <= i < |w'.threads[tid].rest|
                  && w'.threads[tid].rest[i] == Item(bag, false);
    if a.Refresh? && tid == a.tid {
      assert w.threads[tid].rest[i + 1] == Item(bag, false);
    } else {
      assert w.threads[tid].rest[i] == Item(bag, false);
    }
  }

  lemma LateStepUncovers(w: World, a: Action)
    requires Enabled(w, a) && w.trace != [] && Late(w, a)
    ensures !Covered(Next(w, a))
  {
    var bag :| Stores(w, a, bag) && bag !in w.banned && !Releasing(w, bag);
    StoringKeepsTable(w, a, bag);
    if Releasing(Next(w, a), bag) {
      StoringReleasesNothing(w, a, bag);
    }
  }

  /** No step of the run is late. */
  ghost predicate Prompt(w: World, run: seq<Action>)
    requires Possible(w, run)
    decreases |run|
  {
    run != [] ==> !Late(w, run[0]) && Prompt(Next(w, run[0]), run[1..])
  }

  /** Covered after each step of the run. */
  ghost predicate AlwaysCovered(w: World, run: seq<Action>)
    requires Possible(w, run)
    decreases |run|
  {
    run != [] ==> Covered(Next(w, run[0])) && AlwaysCovered(Next(w, run[0]), run[1..])
  }

  lemma {:induction false} PromptIsCovered(w: World, run: seq<Action>)
    requires w.trace != [] && Possible(w, run) && Covered(w)
    ensures AlwaysCovered(w, run) <==> Prompt(w, run)
    ensures Prompt(w, run) ==> Covered(After(w, run))
    decreases |run|
  {
    if run != [] {
      if Late(w, run[0]) {
        LateStepUncovers(w, run[0]);
      } else {
        PromptStepKeepsCovered(w, run[0]);
        PromptIsCovered(Next(w, run[0]), run[1..]);
      }
    }
  }

  /** In a run every cached ban names, at every moment, a banned bag or one about to be released,
      exactly when no step of the run stores a ban that was lifted and released before. */
  lemma CachedBansAreCurrentExactly(run: seq<Action>)
    requires Possible(Start(), run)
    ensures AlwaysCovered(Start(), run) <==> Prompt(Start(), run)
  {
    PromptIsCovered(Start(), run);
  }

  /** The moment at which the bag whose ban is stored was read or committed as banned. */
  function Basis(w: World, a: Action): nat
    requires Enabled(w, a) && (a.StoreBan? || a.Refresh?)
  {
    if a.StoreBan? then w.threads[a.tid].stage.seen else w.threads[a.tid].commit
  }

  /** At moment `basis` the bag was banned, and later it was not. */
  ghost predicate LiftedSince(trace: seq<set<string>>, bag: string, basis: nat) {
    basis < |trace| - 1 && bag in trace[basis] && bag !in trace[|trace| - 1]
  }

  lemma LateIsLifted(w: World, a: Action, bag: string)
    requires Inv(w) && Enabled(w, a) && Stores(w, a, bag) && bag !in w.banned
    ensures LiftedSince(w.trace, bag, Basis(w, a))
  {
    assert ThreadOk(w, w.threads[a.tid]);
    assert a.Refresh? ==> w.threads[a.tid].rest[0].banned && w.threads[a.tid].rest[0].bag == bag;
    assert Saw(w.trace, Basis(w, a), bag, true);
  }

  /** A late step goes back to a reading or a commit older than an unban. */
  lemma LateRestsOnOlderReading(run: seq<Action>, a: Action)
    requires Possible(Start(), run) && Enabled(After(Start(), run), a) && Late(After(Start(), run), a)
    ensures a.StoreBan? || a.Refresh?
    ensures exists bag :: Stores(After(Start(), run), a, bag)
                          && LiftedSince(After(Start(), run).trace, bag, Basis(After(Start(), run), a))
  {
    RunKeepsInv(Start(), run);
    var w := After(Start(), run);
    var bag :| Stores(w, a, bag) && bag !in w.banned && !Releasing(w, bag);
    LateIsLifted(w, a, bag);
  }

  /** In a run without late steps a request is refused from the cache only while the bag is
      banned or about to be released. */
  lemma PromptRefusalIsCurrent(run: seq<Action>, tid: Tid)
    requires Possible(Start(), run) && Prompt(Start(), run)
    requires var w := After(Start(), run); Enabled(w, LookUpBan(tid)) && LiveBan(w, w.threads[tid].bag)
    ensures var w := After(Start(), run); w.threads[tid].bag in w.banned || Releasing(w, w.threads[tid].bag)
  {
    PromptIsCovered(Start(), run);
  }
}
