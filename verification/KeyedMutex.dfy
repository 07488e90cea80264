/** One mutex per bag: `getBagLock` and `getEnsureLock`, and what threads gain by locking
    the mutex of their bag. */
module KeyedMutex {

  // ---- The table of mutexes --------------------------------------------------------------------------

  class Mutex {
    constructor ()
    {
    }
  }

  class LockTable {
    var locks: map<string, Mutex>

    /** Different keys have different mutexes. */
    ghost predicate Valid()
      reads this
    {
      forall a, b | a in locks && b in locks && locks[a] == locks[b] :: a == b
    }

    constructor ()
      ensures Valid() && locks == map[]
    {
      locks := map[];
    }

    method Get(key: string) returns (m: Mutex)
      requires Valid()
      modifies this
      ensures Valid()
      ensures key in old(locks) ==> m == old(locks)[key] && locks == old(locks)
      ensures key !in old(locks) ==> fresh(m) && locks == old(locks)[key := m]
    {
      if key in locks {
        return locks[key];
      }
      m := new Mutex();
      locks := locks[key := m];
    }
  }

  // ---- Threads at the table --------------------------------------------------------------------------

  type Tid = nat

  datatype Place =
    | Waiting(key: string, mutex: nat)
    | Inside(key: string, mutex: nat)

  /** The table with mutexes as numbers, the owners of the locked ones, and where each thread
      stands that holds a reference to a mutex. */
  datatype Gate = Gate(locks: map<string, nat>, owner: map<nat, Tid>, place: map<Tid, Place>, next: nat)

  const OPEN_GATE := Gate(map[], map[], map[], 0)

  datatype Move =
    | TakeLock(tid: Tid, key: string)
    | Lock(tid: Tid)
    | Unlock(tid: Tid)

  predicate CanMove(g: Gate, m: Move) {
    match m
    case TakeLock(tid, _) => tid !in g.place
    case Lock(tid) => tid in g.place && g.place[tid].Waiting? && g.place[tid].mutex !in g.owner
    case Unlock(tid) => tid in g.place && g.place[tid].Inside?
  }

  function Moved(g: Gate, m: Move): Gate
    requires CanMove(g, m)
  {
    match m
    case TakeLock(tid, key) =>
      if key in g.locks then g.(place := g.place[tid := Waiting(key, g.locks[key])])
      else g.(locks := g.locks[key := g.next], place := g.place[tid := Waiting(key, g.next)], next := g.next + 1)
    case Lock(tid) =>
      var p := g.place[tid];
      g.(place := g.place[tid := Inside(p.key, p.mutex)], owner := g.owner[p.mutex := tid])
    case Unlock(tid) =>
      g.(place := g.place - {tid}, owner := g.owner - {g.place[tid].mutex})
  }

  /** Different keys have different mutexes, all made before `next`. */
  ghost predicate TableOk(locks: map<string, nat>, next: nat) {
    && (forall a, b | a in locks && b in locks && locks[a] == locks[b] :: a == b)
    && (forall key | key in locks :: locks[key] < next)
  }

  /** Threads stand at the mutex of their key. */
  ghost predicate PlacesOk(locks: map<string, nat>, place: map<Tid, Place>) {
    forall tid | tid in place :: place[tid].key in locks && locks[place[tid].key] == place[tid].mutex
  }

  /** The threads inside are the owners of the locked mutexes. */
  ghost predicate OwnersOk(place: map<Tid, Place>, owner: map<nat, Tid>) {
    && (forall tid | tid in place && place[tid].Inside? :: place[tid].mutex in owner && owner[place[tid].mutex] == tid)
    && (forall m | m in owner :: owner[m] in place && place[owner[m]].Inside? && place[owner[m]].mutex == m)
  }

  ghost predicate Valid(g: Gate) {
    TableOk(g.locks, g.next) && PlacesOk(g.locks, g.place) && OwnersOk(g.place, g.owner)
  }

  lemma TableGrows(locks: map<string, nat>, next: nat, key: string)
    requires TableOk(locks, next) && key !in locks
    ensures TableOk(locks[key := next], next + 1)
  {
  }

  lemma {:induction false} TakeLockKeepsValid(g: Gate, tid: Tid, key: string)
    requires Valid(g) && CanMove(g, TakeLock(tid, key))
    ensures Valid(Moved(g, TakeLock(tid, key)))
  {
    if key !in g.locks {
      TableGrows(g.locks, g.next, key);
    }
  }

  lemma LockKeepsValid(g: Gate, tid: Tid)
    requires Valid(g) && CanMove(g, Lock(tid))
    ensures Valid(Moved(g, Lock(tid)))
  {
  }

  lemma UnlockKeepsValid(g: Gate, tid: Tid)
    requires Valid(g) && CanMove(g, Unlock(tid))
    ensures Valid(Moved(g, Unlock(tid)))
  {
  }

  lemma {:induction false} MoveKeepsValid(g: Gate, m: Move)
    requires Valid(g) && CanMove(g, m)
    ensures Valid(Moved(g, m))
  {
    match m
    case TakeLock(tid, key) => TakeLockKeepsValid(g, tid, key);
    case Lock(tid) => LockKeepsValid(g, tid);
    case Unlock(tid) => UnlockKeepsValid(g, tid);
  }

  ghost predicate IsInside(g: Gate, tid: Tid, key: string) {
    tid in g.place && g.place[tid].Inside? && g.place[tid].key == key
  }

  /** Mutual exclusion per key. */
  lemma AtMostOneInside(g: Gate, a: Tid, b: Tid, key: string)
    requires Valid(g) && IsInside(g, a, key) && IsInside(g, b, key)
    ensures a == b
  {
    assert g.owner[g.place[a].mutex] == a && g.owner[g.place[b].mutex] == b;
  }

  /** Keys do not block each other: whoever has to wait waits for a thread of the same key. */
  lemma BlockedBySameKey(g: Gate, tid: Tid)
    requires Valid(g) && tid in g.place && g.place[tid].Waiting?
    ensures !CanMove(g, Lock(tid)) ==> exists other :: IsInside(g, other, g.place[tid].key)
    ensures forall other | IsInside(g, other, g.place[tid].key) :: !CanMove(g, Lock(tid))
  {
    var p := g.place[tid];
    if p.mutex in g.owner {
      var other := g.owner[p.mutex];
      assert g.locks[g.place[other].key] == g.locks[p.key];
      assert IsInside(g, other, p.key);
    }
  }

  // ---- Runs ------------------------------------------------------------------------------------------

  ghost predicate Possible(g: Gate, run: seq<Move>)
    decreases |run|
  {
    run != [] ==> CanMove(g, run[0]) && Possible(Moved(g, run[0]), run[1..])
  }

  ghost function After(g: Gate, run: seq<Move>): Gate
    requires Possible(g, run)
    decreases |run|
  {
    if run == [] then g else After(Moved(g, run[0]), run[1..])
  }

  lemma {:induction false} RunKeepsValid(g: Gate, run: seq<Move>)
    requires Valid(g) && Possible(g, run)
    ensures Valid(After(g, run))
    decreases |run|
  {
    if run != [] {
      MoveKeepsValid(g, run[0]);
      RunKeepsValid(Moved(g, run[0]), run[1..]);
    }
  }

  /** However threads interleave, at most one per key is between lock and unlock: one creator
      per bag in `getTorrent`, one waiter per bag in `ensureBagInStorage`. */
  lemma OneInsidePerKey(run: seq<Move>, a: Tid, b: Tid, key: string)
    requires Possible(OPEN_GATE, run)
    requires IsInside(After(OPEN_GATE, run), a, key) && IsInside(After(OPEN_GATE, run), b, key)
    ensures a == b
  {
    RunKeepsValid(OPEN_GATE, run);
    AtMostOneInside(After(OPEN_GATE, run), a, b, key);
  }

  /** Different keys are locked at the same time. */
  lemma DifferentKeysGoTogether(a: string, b: string) returns (run: seq<Move>)
    requires a != b
    ensures Possible(OPEN_GATE, run)
    ensures IsInside(After(OPEN_GATE, run), 0, a) && IsInside(After(OPEN_GATE, run), 1, b)
  {
    var g1 := Moved(OPEN_GATE, TakeLock(0, a));
    var g2 := Moved(g1, Lock(0));
    var g3 := Moved(g2, TakeLock(1, b));
    var g4 := Moved(g3, Lock(1));
    assert After(g4, []) == g4;
    assert [Lock(1)] + [] == [Lock(1)];
    OneMore(g3, Lock(1), []);
    OneMore(g2, TakeLock(1, b), [Lock(1)]);
    OneMore(g1, Lock(0), [TakeLock(1, b)] + [Lock(1)]);
    OneMore(OPEN_GATE, TakeLock(0, a), [Lock(0)] + ([TakeLock(1, b)] + [Lock(1)]));
    run := [TakeLock(0, a)] + ([Lock(0)] + ([TakeLock(1, b)] + [Lock(1)]));
  }

  lemma OneMore(g: Gate, m: Move, rest: seq<Move>)
    requires CanMove(g, m) && Possible(Moved(g, m), rest)
    ensures Possible(g, [m] + rest) && After(g, [m] + rest) == After(Moved(g, m), rest)
  {
    assert ([m] + rest)[1..] == rest;
  }
}
