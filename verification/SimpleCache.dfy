/** `SimpleCache`: a map whose entries expire, swept in the background. */
module SimpleCaching {
  import opened Clocks

  datatype Item<V> = Item(value: V, expiry: nat)

  datatype Lookup<V> = Hit(value: V) | Miss

  type Items<!V> = map<string, Item<V>>

  // ---- One operation on the map ----------------------------------------------------------------

  datatype Op<V> = Set(key: string, value: V) | Get(key: string) | Release(key: string)

  /** An entry still counts at the very moment of its expiry. */
  predicate Unexpired(expiry: nat, now: nat) {
    now <= expiry
  }

  predicate Live<V>(items: Items<V>, key: string, now: nat) {
    key in items && Unexpired(items[key].expiry, now)
  }

  function Answer<V>(items: Items<V>, op: Op<V>, now: nat): Lookup<V> {
    if op.Set? || !Live(items, op.key, now) then Miss else Hit(items[op.key].value)
  }

  /** The map after an operation: `Get` and `Release` drop an expired entry. */
  function After<V>(items: Items<V>, op: Op<V>, ttl: nat, now: nat): Items<V> {
    match op
    case Set(key, value) => items[key := Item(value, now + ttl)]
    case Get(key) => if Live(items, key, now) then items else items - {key}
    case Release(key) => items - {key}
  }

  /** What a sweep leaves: the entries not expired at the time it read. */
  function Swept<V>(items: Items<V>, now: nat): Items<V> {
    map key | key in items && now <= items[key].expiry :: items[key]
  }

  // ---- The cache ---------------------------------------------------------------------------------

  class SimpleCache<V> {
    var items: Items<V>
    const ttl: nat

    constructor(ttl: nat)
      ensures items == map[] && this.ttl == ttl
    {
      items := map[];
      this.ttl := ttl;
    }

    method Set(clock: Clock, key: string, value: V)
      modifies this`items, clock
      ensures old(clock.time) <= clock.time
      ensures items == old(items)[key := Item(value, clock.time + ttl)]
      ensures items == After(old(items), Op.Set(key, value), ttl, clock.time)
    {
      var now := clock.Now();
      items := items[key := Item(value, now + ttl)];
    }

    method Get(clock: Clock, key: string) returns (found: Lookup<V>)
      modifies this`items, clock
      ensures old(clock.time) <= clock.time
      ensures if key in old(items) && clock.time <= old(items)[key].expiry
              then found == Hit(old(items)[key].value) && items == old(items)
              else found == Miss && items == old(items) - {key}
      ensures found == Answer(old(items), Op.Get(key), clock.time)
      ensures items == After(old(items), Op.Get(key), ttl, clock.time)
    {
      var now := clock.Now();
      if key !in items || now > items[key].expiry {
        items := items - {key};
        return Miss;
      }
      found := Hit(items[key].value);
    }

    method Release(clock: Clock, key: string) returns (found: Lookup<V>)
      modifies this`items, clock
      ensures old(clock.time) <= clock.time
      ensures found == if key in old(items) && clock.time <= old(items)[key].expiry
                       then Hit(old(items)[key].value) else Miss
      ensures items == old(items) - {key}
      ensures found == Answer(old(items), Op.Release(key), clock.time)
      ensures items == After(old(items), Op.Release(key), ttl, clock.time)
    {
      var now := clock.Now();
      if key !in items || now > items[key].expiry {
        items := items - {key};
        return Miss;
      }
      found := Hit(items[key].value);
      items := items - {key};
    }

    /** One round of `cleanup`; the clock was read, as `now`, before the lock was taken. */
    method Sweep(now: nat)
      modifies this`items
      ensures forall key :: key in items <==> key in old(items) && now <= old(items)[key].expiry
      ensures forall key | key in items :: items[key] == old(items)[key]
      ensures items == Swept(old(items), now)
    {
      var keys := items.Keys;
      while keys != {}
        invariant keys <= old(items).Keys
        invariant forall key | key in items :: key in old(items) && items[key] == old(items)[key]
        invariant forall key | key in old(items) ::
                    key in items <==> key in keys || now <= old(items)[key].expiry
        decreases keys
      {
        var key :| key in keys;
        keys := keys - {key};
        if now > items[key].expiry {
          items := items - {key};
        }
      }
    }
  }

  // ---- Sweeps cannot be observed -----------------------------------------------------------------

  /** A run under the cache's lock: operations and sweeps, each with the clock value it used. */
  datatype Event<V> = Do(op: Op<V>, now: nat) | Sweep(now: nat)

  function Results<V>(items: Items<V>, ttl: nat, run: seq<Event<V>>): seq<Lookup<V>>
    decreases |run|
  {
    if run == [] then []
    else
      match run[0]
      case Do(op, now) => [Answer(items, op, now)] + Results(After(items, op, ttl, now), ttl, run[1..])
      case Sweep(now) => Results(Swept(items, now), ttl, run[1..])
  }

  /** The reference: a timed map that forgets nothing on its own. Only `Set` and `Release`
      change it, and sweeps are ignored. */
  function Ideal<V>(items: Items<V>, op: Op<V>, ttl: nat, now: nat): Items<V> {
    match op
    case Set(key, value) => items[key := Item(value, now + ttl)]
    case Get(key) => items
    case Release(key) => items - {key}
  }

  function IdealResults<V>(items: Items<V>, ttl: nat, run: seq<Event<V>>): seq<Lookup<V>>
    decreases |run|
  {
    if run == [] then []
    else
      match run[0]
      case Do(op, now) => [Answer(items, op, now)] + IdealResults(Ideal(items, op, ttl, now), ttl, run[1..])
      case Sweep(_) => IdealResults(items, ttl, run[1..])
  }

  /** Operations read the clock under the lock, so it never goes back from one to the next. A
      sweep read it earlier, at some moment before the operations that follow it. */
  ghost predicate WellTimed<V>(run: seq<Event<V>>) {
    forall i, j | 0 <= i < j < |run| && run[j].Do? :: run[i].now <= run[j].now
  }

  /** The cache holds the reference map less some entries that are past their time. */
  ghost predicate Forgets<V>(items: Items<V>, ideal: Items<V>, from: nat) {
    && (forall key | key in items :: key in ideal && items[key] == ideal[key])
    && (forall key | key in ideal && key !in items :: ideal[key].expiry < from)
  }

  lemma StepForgets<V>(items: Items<V>, ideal: Items<V>, op: Op<V>, ttl: nat, now: nat)
    requires Forgets(items, ideal, now)
    ensures Answer(items, op, now) == Answer(ideal, op, now)
    ensures Forgets(After(items, op, ttl, now), Ideal(ideal, op, ttl, now), now)
  {
  }

  lemma SweepForgets<V>(items: Items<V>, ideal: Items<V>, from: nat, now: nat)
    requires Forgets(items, ideal, from)
    ensures Forgets(Swept(items, now), ideal, if from < now then now else from)
  {
  }

  lemma {:induction false} ForgettingRun<V>(items: Items<V>, ideal: Items<V>, from: nat, ttl: nat, run: seq<Event<V>>)
    requires Forgets(items, ideal, from) && WellTimed(run)
    requires forall i | 0 <= i < |run| && run[i].Do? :: from <= run[i].now
    ensures Results(items, ttl, run) == IdealResults(ideal, ttl, run)
    decreases |run|
  {
    if run != [] {
      var rest := run[1..];
      assert forall i | 0 <= i < |rest| && rest[i].Do? :: run[0].now <= rest[i].now && from <= rest[i].now;
      match run[0]
      case Do(op, now) =>
        StepForgets(items, ideal, op, ttl, now);
        ForgettingRun(After(items, op, ttl, now), Ideal(ideal, op, ttl, now), now, ttl, rest);
      case Sweep(now) =>
        SweepForgets(items, ideal, from, now);
        ForgettingRun(Swept(items, now), ideal, if from < now then now else from, ttl, rest);
    }
  }

  /** For every run with sweeps at arbitrary moments, the results are those of a timed map that
      is never swept. */
  lemma SweepsAreUnobservable<V>(ttl: nat, run: seq<Event<V>>)
    requires WellTimed(run)
    ensures Results(map[], ttl, run) == IdealResults(map[], ttl, run)
  {
    ForgettingRun(map[], map[], 0, ttl, run);
  }

  // ---- What a hit means --------------------------------------------------------------------------

  /** The `i`-th event set the key, and nothing set or released it since. */
  ghost predicate SetAt<V>(run: seq<Event<V>>, i: nat, key: string, item: Item<V>, ttl: nat) {
    && i < |run| && run[i].Do? && run[i].op == Op.Set(key, item.value) && item.expiry == run[i].now + ttl
    && forall j | i < j < |run| && run[j].Do? :: run[j].op.key != key || run[j].op.Get?
  }

  function IdealMap<V>(items: Items<V>, ttl: nat, run: seq<Event<V>>): Items<V>
    decreases |run|
  {
    if run == [] then items
    else
      match run[0]
      case Do(op, now) => IdealMap(Ideal(items, op, ttl, now), ttl, run[1..])
      case Sweep(_) => IdealMap(items, ttl, run[1..])
  }

  lemma {:induction false} IdealMapSnoc<V>(items: Items<V>, ttl: nat, run: seq<Event<V>>, op: Op<V>, now: nat)
    ensures IdealMap(items, ttl, run + [Do(op, now)]) == Ideal(IdealMap(items, ttl, run), op, ttl, now)
    ensures IdealMap(items, ttl, run + [Sweep(now)]) == IdealMap(items, ttl, run)
    ensures IdealResults(items, ttl, run + [Do(op, now)])
            == IdealResults(items, ttl, run) + [Answer(IdealMap(items, ttl, run), op, now)]
    decreases |run|
  {
    if run == [] {
      assert (run + [Do(op, now)])[1..] == [] && (run + [Sweep(now)])[1..] == [];
    } else {
      assert (run + [Do(op, now)])[1..] == run[1..] + [Do(op, now)];
      assert (run + [Sweep(now)])[1..] == run[1..] + [Sweep(now)];
      match run[0]
      case Do(o, t) => IdealMapSnoc(Ideal(items, o, ttl, t), ttl, run[1..], op, now);
      case Sweep(_) => IdealMapSnoc(items, ttl, run[1..], op, now);
    }
  }

  lemma SetAtSnoc<V>(run: seq<Event<V>>, e: Event<V>, key: string, item: Item<V>, ttl: nat)
    ensures (exists i: nat :: SetAt(run + [e], i, key, item, ttl)) <==>
            || (e.Do? && e.op == Op.Set(key, item.value) && item.expiry == e.now + ttl)
            || (!(e.Do? && e.op.key == key && !e.op.Get?) && exists i: nat :: SetAt(run, i, key, item, ttl))
  {
    var all := run + [e];
    assert all[|run|] == e && forall j | 0 <= j < |run| :: all[j] == run[j];
    if i: nat :| SetAt(all, i, key, item, ttl) {
      if i < |run| {
        assert SetAt(run, i, key, item, ttl);
      }
    }
    if e.Do? && e.op == Op.Set(key, item.value) && item.expiry == e.now + ttl {
      assert SetAt(all, |run|, key, item, ttl);
    }
    if i: nat :| SetAt(run, i, key, item, ttl) {
      if !(e.Do? && e.op.key == key && !e.op.Get?) {
        assert SetAt(all, i, key, item, ttl);
      }
    }
  }

  /** The reference map holds exactly what was set and neither replaced nor released since. */
  lemma {:induction false} IdealMapHolds<V>(ttl: nat, run: seq<Event<V>>, key: string, item: Item<V>)
    ensures var m := IdealMap(map[], ttl, run);
            key in m && m[key] == item <==> exists i: nat :: SetAt(run, i, key, item, ttl)
    decreases |run|
  {
    if run != [] {
      var front, e := run[..|run| - 1], run[|run| - 1];
      assert run == front + [e];
      IdealMapHolds(ttl, front, key, item);
      SetAtSnoc(front, e, key, item, ttl);
      match e
      case Do(op, now) => IdealMapSnoc(map[], ttl, front, op, now);
      case Sweep(now) => IdealMapSnoc(map[], ttl, front, Op.Get(key), now);
    }
  }

  /** In every run, swept or not, `Get` at time `now` hits with `value` exactly when that value
      was the last thing set for the key, at most `ttl` ago, and was not released since. */
  lemma GetHitsExactly<V>(ttl: nat, run: seq<Event<V>>, key: string, now: nat, value: V)
    requires WellTimed(run + [Do(Op.Get(key), now)])
    ensures var results := Results(map[], ttl, run + [Do(Op.Get(key), now)]);
            |results| > 0 &&
            (results[|results| - 1] == Hit(value) <==>
             exists i: nat, expiry: nat :: SetAt(run, i, key, Item(value, expiry), ttl) && now <= expiry)
  {
    SweepsAreUnobservable(ttl, run + [Do(Op.Get(key), now)]);
    IdealMapSnoc(map[], ttl, run, Op.Get(key), now);
    var m := IdealMap(map[], ttl, run);
    if key in m {
      IdealMapHolds(ttl, run, key, m[key]);
    }
    if i: nat, expiry: nat :| SetAt(run, i, key, Item(value, expiry), ttl) && now <= expiry {
      IdealMapHolds(ttl, run, key, Item(value, expiry));
    }
  }
}
