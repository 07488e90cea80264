/** The blacklist table, the batch statement of `UpdateBanStatus` and the history its triggers
    append. */
module Blacklist {

  /** The columns an upsert writes. */
  datatype Row = Row(admin: string, reason: string, comment: string)

  type Table = map<string, Row>

  /** One item of a batch. */
  datatype Status = Status(bagId: string, row: Row, banned: bool)

  /** One row of blacklist_history. */
  datatype Change = Change(bagId: string, row: Row, banned: bool)

  ghost predicate DistinctBags(batch: seq<Status>) {
    forall i, j | 0 <= i < j < |batch| :: batch[i].bagId != batch[j].bagId
  }

  // ---- What one statement does ---------------------------------------------------------------------

  /** The table after a batch: banned bags carry the batch's row, unbanned ones are gone, the
      others are as they were. */
  ghost predicate TableAfter(t: Table, batch: seq<Status>, t': Table) {
    && (forall s | s in batch ::
          if s.banned then s.bagId in t' && t'[s.bagId] == s.row else s.bagId !in t')
    && (forall id | (forall s | s in batch :: s.bagId != id) ::
          (id in t' <==> id in t) && (id in t ==> t'[id] == t[id]))
  }

  /** The row triggers log for one item: the new row of an insert or update, the old row of a
      delete, nothing for a bag that was not in the table. */
  predicate Logs(t: Table, s: Status, c: Change) {
    if s.banned then c == Change(s.bagId, s.row, true)
    else s.bagId in t && c == Change(s.bagId, t[s.bagId], false)
  }

  predicate Touches(t: Table, s: Status) {
    s.banned || s.bagId in t
  }

  /** The rows appended by one statement, once each and in any order: the parts of one
      statement share a snapshot and their triggers fire in an order nobody promises. */
  ghost predicate LogOf(log: seq<Change>, t: Table, batch: seq<Status>) {
    && (forall c | c in log :: exists s :: s in batch && Logs(t, s, c))
    && (forall s | s in batch && Touches(t, s) :: exists c :: c in log && Logs(t, s, c))
    && (forall i, j | 0 <= i < j < |log| :: log[i].bagId != log[j].bagId)
  }

  datatype Database = Database(table: Table, history: seq<Change>)

  ghost predicate BatchStep(d: Database, batch: seq<Status>, d': Database) {
    && DistinctBags(batch)
    && TableAfter(d.table, batch, d'.table)
    && d.history <= d'.history
    && LogOf(d'.history[|d.history|..], d.table, batch)
  }

  // ---- Replaying the history -------------------------------------------------------------------------

  function Replay(history: seq<Change>): Table {
    if history == [] then map[]
    else
      var c, before := history[|history| - 1], Replay(history[..|history| - 1]);
      if c.banned then before[c.bagId := c.row] else before - {c.bagId}
  }

  /** The history of one bag. */
  function Of(history: seq<Change>, id: string): seq<Change> {
    if history == [] then []
    else
      var c, before := history[|history| - 1], Of(history[..|history| - 1], id);
      if c.bagId == id then before + [c] else before
  }

  /** Starts with a ban; every unban directly follows a ban with the same row. */
  ghost predicate Alternates(own: seq<Change>) {
    && (own != [] ==> own[0].banned)
    && (forall i | 0 <= i < |own| && !own[i].banned :: i > 0 && own[i - 1].banned && own[i - 1].row == own[i].row)
  }

  ghost predicate Current(own: seq<Change>, t: Table, id: string) {
    if own != [] && own[|own| - 1].banned then id in t && t[id] == own[|own| - 1].row else id !in t
  }

  ghost predicate Faithful(d: Database) {
    && Replay(d.history) == d.table
    && forall id :: Alternates(Of(d.history, id)) && Current(Of(d.history, id), d.table, id)
  }

  /** A log with one row per bag, replayed after a history, decides exactly the bags it names. */
  lemma {:induction false} ReplayOthers(history: seq<Change>, log: seq<Change>, id: string)
    requires forall c | c in log :: c.bagId != id
    ensures Of(history + log, id) == Of(history, id)
    ensures id in Replay(history + log) <==> id in Replay(history)
    ensures id in Replay(history) ==> Replay(history + log)[id] == Replay(history)[id]
    decreases |log|
  {
    var all := history + log;
    if log == [] {
      assert all == history;
    } else {
      var front, last := log[..|log| - 1], log[|log| - 1];
      assert all[..|all| - 1] == history + front && all[|all| - 1] == last;
      assert last in log && forall c | c in front :: c in log;
      ReplayOthers(history, front, id);
    }
  }

  lemma {:induction false} ReplayLogged(history: seq<Change>, log: seq<Change>, k: nat)
    requires k < |log| && forall i, j | 0 <= i < j < |log| :: log[i].bagId != log[j].bagId
    ensures var c, m := log[k], Replay(history + log);
            && Of(history + log, c.bagId) == Of(history, c.bagId) + [c]
            && (c.bagId in m <==> c.banned)
            && (c.banned ==> m[c.bagId] == c.row)
  {
    var c := log[k];
    var upTo := history + log[..k];
    forall x | x in log[..k] ensures x.bagId != c.bagId {
      var i :| 0 <= i < k && log[..k][i] == x;
      assert log[i].bagId != log[k].bagId;
    }
    forall x | x in log[k + 1..] ensures x.bagId != c.bagId {
      var i :| 0 <= i < |log| - k - 1 && log[k + 1..][i] == x;
      assert log[k].bagId != log[k + 1 + i].bagId;
    }
    ReplayOthers(history, log[..k], c.bagId);
    assert (upTo + [c])[..|upTo|] == upTo && (upTo + [c])[|upTo|] == c;
    ReplayOthers(upTo + [c], log[k + 1..], c.bagId);
    assert upTo + [c] + log[k + 1..] == history + log;
  }

  ghost predicate BagFaithful(d: Database, id: string) {
    && (id in Replay(d.history) <==> id in d.table)
    && (id in d.table ==> Replay(d.history)[id] == d.table[id])
    && Alternates(Of(d.history, id)) && Current(Of(d.history, id), d.table, id)
  }

  lemma AlternatesWith(own: seq<Change>, c: Change)
    requires Alternates(own)
    requires !c.banned ==> own != [] && own[|own| - 1].banned && own[|own| - 1].row == c.row
    ensures Alternates(own + [c])
  {
    var all := own + [c];
    assert forall i | 0 <= i < |own| :: all[i] == own[i];
  }

  lemma LoggedBagStep(d: Database, batch: seq<Status>, d': Database, log: seq<Change>, k: nat, s: Status)
    requires TableAfter(d.table, batch, d'.table) && d'.history == d.history + log && LogOf(log, d.table, batch)
    requires k < |log| && BagFaithful(d, log[k].bagId) && s in batch && Logs(d.table, s, log[k])
    ensures BagFaithful(d', log[k].bagId)
  {
    var c := log[k];
    var own := Of(d.history, c.bagId);
    ReplayLogged(d.history, log, k);
    AlternatesWith(own, c);
    LoggedTable(d.table, batch, d'.table, c, s);
    BanIsLast(d', own, c);
  }

  lemma BanIsLast(d: Database, own: seq<Change>, c: Change)
    requires Of(d.history, c.bagId) == own + [c] && Alternates(own + [c])
    requires c.bagId in Replay(d.history) <==> c.banned
    requires c.banned ==> Replay(d.history)[c.bagId] == c.row
    requires if c.banned then c.bagId in d.table && d.table[c.bagId] == c.row else c.bagId !in d.table
    ensures BagFaithful(d, c.bagId)
  {
    var all := own + [c];
    assert all[|all| - 1] == c;
  }

  lemma LoggedTable(t: Table, batch: seq<Status>, t': Table, c: Change, s: Status)
    requires TableAfter(t, batch, t') && s in batch && Logs(t, s, c)
    ensures if c.banned then c.bagId in t' && t'[c.bagId] == c.row else c.bagId !in t'
  {
  }

  lemma UnloggedBagStep(d: Database, batch: seq<Status>, d': Database, log: seq<Change>, id: string)
    requires TableAfter(d.table, batch, d'.table) && d'.history == d.history + log && LogOf(log, d.table, batch)
    requires BagFaithful(d, id) && forall c | c in log :: c.bagId != id
    ensures BagFaithful(d', id)
  {
    ReplayOthers(d.history, log, id);
    assert forall s | s in batch && s.bagId == id :: !Touches(d.table, s);
  }

  /** What a batch does to one bag, in the table and in the log. */
  lemma BagStep(d: Database, batch: seq<Status>, d': Database, id: string)
    requires BatchStep(d, batch, d') && BagFaithful(d, id)
    ensures BagFaithful(d', id)
  {
    var log := d'.history[|d.history|..];
    assert d'.history == d.history + log;
    if k :| 0 <= k < |log| && log[k].bagId == id {
      assert log[k] in log;
      var s :| s in batch && Logs(d.table, s, log[k]);
      LoggedBagStep(d, batch, d', log, k, s);
    } else {
      UnloggedBagStep(d, batch, d', log, id);
    }
  }

  lemma BatchKeepsFaithful(d: Database, batch: seq<Status>, d': Database)
    requires BatchStep(d, batch, d') && Faithful(d)
    ensures Faithful(d')
  {
    forall id ensures BagFaithful(d', id) {
      BagStep(d, batch, d', id);
    }
    assert forall id :: id in Replay(d'.history) <==> id in d'.table by {
      forall id ensures id in Replay(d'.history) <==> id in d'.table {
        assert BagFaithful(d', id);
      }
    }
    forall id ensures id in d'.table ==> Replay(d'.history)[id] == d'.table[id] {
      assert BagFaithful(d', id);
    }
    assert Replay(d'.history) == d'.table;
    forall id ensures Alternates(Of(d'.history, id)) && Current(Of(d'.history, id), d'.table, id) {
      assert BagFaithful(d', id);
    }
  }

  /** A batch names a bag once. */
  lemma NamedOnce(batch: seq<Status>, a: Status, b: Status)
    requires DistinctBags(batch) && a in batch && b in batch && a.bagId == b.bagId
    ensures a == b
  {
    var i :| 0 <= i < |batch| && batch[i] == a;
    var j :| 0 <= j < |batch| && batch[j] == b;
  }

  /** What a batch does to a bag it names: a ban writes its row and logs it, an unban deletes the
      row and logs what it deleted, and there is nothing to log for a bag that was not banned. */
  lemma {:induction false} BatchOnBag(d: Database, batch: seq<Status>, d': Database, s: Status)
    requires BatchStep(d, batch, d') && s in batch
    ensures if s.banned then s.bagId in d'.table && d'.table[s.bagId] == s.row else s.bagId !in d'.table
    ensures Of(d'.history, s.bagId)
            == Of(d.history, s.bagId)
               + if s.banned then [Change(s.bagId, s.row, true)]
                 else if s.bagId in d.table then [Change(s.bagId, d.table[s.bagId], false)]
                 else []
  {
    var log := d'.history[|d.history|..];
    assert d'.history == d.history + log;
    if k :| 0 <= k < |log| && log[k].bagId == s.bagId {
      assert log[k] in log;
      var other :| other in batch && Logs(d.table, other, log[k]);
      NamedOnce(batch, s, other);
      ReplayLogged(d.history, log, k);
    } else {
      ReplayOthers(d.history, log, s.bagId);
      assert !Touches(d.table, s);
    }
  }

  /** And to any other bag: nothing. */
  lemma {:induction false} BatchOffBag(d: Database, batch: seq<Status>, d': Database, id: string)
    requires BatchStep(d, batch, d') && forall s | s in batch :: s.bagId != id
    ensures (id in d'.table <==> id in d.table) && (id in d.table ==> d'.table[id] == d.table[id])
    ensures Of(d'.history, id) == Of(d.history, id)
  {
    var log := d'.history[|d.history|..];
    assert d'.history == d.history + log;
    ReplayOthers(d.history, log, id);
  }

  ghost predicate Run(states: seq<Database>, batches: seq<seq<Status>>) {
    && |states| == |batches| + 1
    && states[0] == Database(map[], [])
    && forall i | 0 <= i < |batches| :: BatchStep(states[i], batches[i], states[i + 1])
  }

  /** After every run of batches the history replays to the table, and each bag's own history
      starts with a ban and unbans only what the row before it banned. */
  lemma {:induction false} HistoryReplaysTable(states: seq<Database>, batches: seq<seq<Status>>, i: nat)
    requires Run(states, batches) && i < |states|
    ensures Replay(states[i].history) == states[i].table
    ensures forall id :: Alternates(Of(states[i].history, id))
    ensures forall id :: Current(Of(states[i].history, id), states[i].table, id)
    ensures Faithful(states[i])
  {
    if i > 0 {
      HistoryReplaysTable(states, batches, i - 1);
      BatchKeepsFaithful(states[i - 1], batches[i - 1], states[i]);
    }
  }

  // ---- The repository ------------------------------------------------------------------------------------

  lemma TableTakes(t: Table, done: seq<Status>, s: Status, now: Table)
    requires TableAfter(t, done, now)
    requires forall d | d in done :: d.bagId != s.bagId
    ensures TableAfter(t, done + [s], if s.banned then now[s.bagId := s.row] else now - {s.bagId})
  {
    var more := done + [s];
    assert s in more && forall d :: d in more <==> d in done || d == s;
  }

  lemma Untouched(t: Table, done: seq<Status>, id: string, now: Table)
    requires TableAfter(t, done, now)
    requires forall d | d in done :: d.bagId != id
    ensures (id in now <==> id in t) && (id in t ==> now[id] == t[id])
  {
  }

  lemma LogSkips(t: Table, done: seq<Status>, s: Status, log: seq<Change>)
    requires LogOf(log, t, done) && !Touches(t, s)
    ensures LogOf(log, t, done + [s])
  {
    forall c | c in log ensures exists d :: d in done + [s] && Logs(t, d, c) {
      var d :| d in done && Logs(t, d, c);
      assert d in done + [s];
    }
  }

  lemma LogTakes(t: Table, done: seq<Status>, s: Status, log: seq<Change>, c: Change)
    requires LogOf(log, t, done) && Logs(t, s, c)
    requires forall d | d in done :: d.bagId != s.bagId
    ensures LogOf(log + [c], t, done + [s])
  {
    var more, longer := done + [s], log + [c];
    forall x | x in longer ensures exists d :: d in more && Logs(t, d, x) {
      if x in log {
        var d :| d in done && Logs(t, d, x);
        assert d in more;
      } else {
        assert s in more && Logs(t, s, x);
      }
    }
    forall d | d in more && Touches(t, d) ensures exists x :: x in longer && Logs(t, d, x) {
      if d in done {
        var x :| x in log && Logs(t, d, x);
        assert x in longer;
      } else {
        assert c in longer && Logs(t, d, c);
      }
    }
    forall i | 0 <= i < |log| ensures log[i].bagId != c.bagId {
      assert log[i] in log;
      var d :| d in done && Logs(t, d, log[i]);
    }
  }

  lemma SameItems(t: Table, a: seq<Status>, b: seq<Status>, t': Table, log: seq<Change>)
    requires forall s :: s in a <==> s in b
    requires TableAfter(t, a, t') && LogOf(log, t, a)
    ensures TableAfter(t, b, t') && LogOf(log, t, b)
  {
    forall c | c in log ensures exists s :: s in b && Logs(t, s, c) {
      var s :| s in a && Logs(t, s, c);
      assert s in b;
    }
  }

  class Repository {
    var table: Table
    var history: seq<Change>

    constructor()
      ensures table == map[] && history == []
    {
      table, history := map[], [];
    }

    ghost function State(): Database
      reads this
    {
      Database(table, history)
    }

    /** The query of `HasBan`: the id is compared as it is. */
    method HasBan(bagId: string) returns (banned: bool)
      ensures banned <==> bagId in table
    {
      banned := bagId in table;
    }

    /** An insert that turns into an update on conflict, with its row trigger. */
    method Upsert(bagId: string, row: Row)
      modifies this
      ensures table == old(table)[bagId := row]
      ensures history == old(history) + [Change(bagId, row, true)]
    {
      table := table[bagId := row];
      history := history + [Change(bagId, row, true)];
    }

    /** A delete of at most one row, with its row trigger. */
    method Delete(bagId: string)
      modifies this
      ensures table == old(table) - {bagId}
      ensures history == old(history) + if bagId in old(table) then [Change(bagId, old(table)[bagId], false)] else []
    {
      if bagId in table {
        history := history + [Change(bagId, table[bagId], false)];
        table := table - {bagId};
      }
    }

    /** The batch statement: the banned items are upserted, the others deleted. When the
        database refuses, nothing changes. */
    method UpdateBanStatus(batch: seq<Status>, up: bool) returns (ok: bool)
      requires DistinctBags(batch)
      modifies this
      ensures ok == up
      ensures ok ==> BatchStep(old(State()), batch, State())
      ensures !ok ==> State() == old(State())
    {
      if !up {
        return false;
      }
      ghost var t, h := table, history;
      ghost var log: seq<Change>, done: seq<Status> := [], [];
      log, done := UpsertBanned(batch, t, h);
      log, done := DeleteUnbanned(batch, t, h, log, done);
      SameItems(t, done, batch, table, log);
      assert history[|h|..] == log;
      ok := true;
    }

    method UpsertBanned(batch: seq<Status>, ghost t: Table, ghost h: seq<Change>)
      returns (ghost log: seq<Change>, ghost done: seq<Status>)
      requires DistinctBags(batch) && table == t && history == h
      modifies this
      ensures history == h + log && TableAfter(t, done, table) && LogOf(log, t, done)
      ensures forall s :: s in done <==> s in batch && s.banned
    {
      log, done := [], [];
      for i := 0 to |batch|
        invariant history == h + log && TableAfter(t, done, table) && LogOf(log, t, done)
        invariant forall s :: s in done <==> s in batch[..i] && s.banned
      {
        var s := batch[i];
        assert batch[..i + 1] == batch[..i] + [s];
        if s.banned {
          NotYet(batch, i, done);
          TableTakes(t, done, s, table);
          LogTakes(t, done, s, log, Change(s.bagId, s.row, true));
          done, log := done + [s], log + [Change(s.bagId, s.row, true)];
          Upsert(s.bagId, s.row);
        }
      }
    }

    method DeleteOne(s: Status, ghost t: Table, ghost h: seq<Change>, ghost log0: seq<Change>, ghost done: seq<Status>)
      returns (ghost log: seq<Change>)
      requires history == h + log0 && LogOf(log0, t, done) && !s.banned
      requires forall d | d in done :: d.bagId != s.bagId
      requires (s.bagId in table <==> s.bagId in t) && (s.bagId in t ==> table[s.bagId] == t[s.bagId])
      modifies this
      ensures table == old(table) - {s.bagId}
      ensures history == h + log && LogOf(log, t, done + [s])
    {
      log := log0;
      if s.bagId in table {
        LogTakes(t, done, s, log, Change(s.bagId, t[s.bagId], false));
        log := log + [Change(s.bagId, t[s.bagId], false)];
      } else {
        LogSkips(t, done, s, log);
      }
      Delete(s.bagId);
    }

    method DeleteUnbanned(batch: seq<Status>, ghost t: Table, ghost h: seq<Change>,
                          ghost log0: seq<Change>, ghost done0: seq<Status>)
      returns (ghost log: seq<Change>, ghost done: seq<Status>)
      requires DistinctBags(batch)
      requires history == h + log0 && TableAfter(t, done0, table) && LogOf(log0, t, done0)
      requires forall s :: s in done0 <==> s in batch && s.banned
      modifies this
      ensures history == h + log && TableAfter(t, done, table) && LogOf(log, t, done)
      ensures forall s :: s in done <==> s in batch
    {
      log, done := log0, done0;
      for i := 0 to |batch|
        invariant history == h + log && TableAfter(t, done, table) && LogOf(log, t, done)
        invariant forall s :: s in done <==> s in batch && (s.banned || s in batch[..i])
      {
        var s := batch[i];
        assert batch[..i + 1] == batch[..i] + [s];
        if !s.banned {
          NotYet(batch, i, done);
          Untouched(t, done, s.bagId, table);
          TableTakes(t, done, s, table);
          log := DeleteOne(s, t, h, log, done);
          done := done + [s];
        }
      }
    }
  }

  lemma NotYet(batch: seq<Status>, i: nat, done: seq<Status>)
    requires DistinctBags(batch) && i < |batch|
    requires forall s | s in done :: s in batch && (s.banned != batch[i].banned || s in batch[..i])
    ensures forall s | s in done :: s.bagId != batch[i].bagId
  {
    forall s | s in done ensures s.bagId != batch[i].bagId {
      if s in batch[..i] {
        var j :| 0 <= j < i && batch[..i][j] == s;
        assert batch[j].bagId != batch[i].bagId;
      } else {
        var j :| 0 <= j < |batch| && batch[j] == s;
      }
    }
  }
}
