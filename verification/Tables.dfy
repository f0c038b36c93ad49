/** A log of node or edge records read as a table: loading keeps the record of each id that
    is not a tombstone. */
module Tables {
  import opened Pages
  import opened PageLogs

  predicate Deleted(r: Record) {
    match r
    case NodeRec(_, deleted) => deleted
    case EdgeRec(_, deleted) => deleted
    case _ => false
  }

  /** The records a load inserts, in log order; a tombstone inserts nothing. */
  function LoadRecords(log: seq<Entry>): map<nat, Record> {
    if log == [] then map[]
    else
      var t, last := LoadRecords(log[..|log| - 1]), log[|log| - 1].1;
      if Deleted(last) then t else t[IdOf(last) := last]
  }

  /** The page map a load rebuilds. */
  function LoadPages(log: seq<Entry>): map<nat, nat> {
    if log == [] then map[]
    else
      var t, last := LoadPages(log[..|log| - 1]), log[|log| - 1];
      if Deleted(last.1) then t else t[IdOf(last.1) := last.0]
  }

  // ---------------------------------------------------------------------------
  // What a log in good order holds
  // ---------------------------------------------------------------------------

  /** The log entry of an id: in the table, unless a tombstone, and at the page the page map
      names; no live id has a tombstone. */
  predicate EntryOk(e: Entry, table: map<nat, Record>, live: set<nat>, pageOf: map<nat, nat>, next: nat) {
    var id := IdOf(e.1);
    && id < next
    && if Deleted(e.1) then id !in table && id !in live
       else id in table && table[id] == e.1 && id in pageOf && pageOf[id] == e.0
  }

  ghost predicate DistinctIds(log: seq<Entry>) {
    forall i, j | 0 <= i < j < |log| :: IdOf(log[i].1) != IdOf(log[j].1)
  }

  ghost predicate InLog(log: seq<Entry>, id: nat) {
    exists k :: 0 <= k < |log| && IdOf(log[k].1) == id
  }

  ghost predicate TableOk(log: seq<Entry>, table: map<nat, Record>, live: set<nat>, pageOf: map<nat, nat>, next: nat) {
    && DistinctIds(log)
    && (forall k | 0 <= k < |log| :: EntryOk(log[k], table, live, pageOf, next))
    && (forall id | id in table :: InLog(log, id) && IdOf(table[id]) == id)
  }

  /** The page map of the ids in the table only. */
  function Restricted(pageOf: map<nat, nat>, table: map<nat, Record>): map<nat, nat> {
    map id | id in table && id in pageOf :: pageOf[id]
  }

  lemma {:induction false} LoadedAt(log: seq<Entry>, k: nat)
    requires DistinctIds(log) && k < |log| && !Deleted(log[k].1)
    ensures var id := IdOf(log[k].1);
            && id in LoadRecords(log) && LoadRecords(log)[id] == log[k].1
            && id in LoadPages(log) && LoadPages(log)[id] == log[k].0
  {
    if k < |log| - 1 {
      assert log[..|log| - 1][k] == log[k];
      LoadedAt(log[..|log| - 1], k);
    }
  }

  lemma {:induction false} LoadedFrom(log: seq<Entry>, id: nat)
    requires id in LoadRecords(log) || id in LoadPages(log)
    ensures exists k :: 0 <= k < |log| && IdOf(log[k].1) == id && !Deleted(log[k].1)
  {
    var front, last := log[..|log| - 1], log[|log| - 1];
    if Deleted(last.1) || IdOf(last.1) != id {
      LoadedFrom(front, id);
      var k :| 0 <= k < |front| && IdOf(front[k].1) == id && !Deleted(front[k].1);
      assert log[k] == front[k];
    }
  }

  /** Loading a log in good order gives back the table and the pages its records are on. */
  lemma LoadFindsTable(log: seq<Entry>, table: map<nat, Record>, live: set<nat>, pageOf: map<nat, nat>, next: nat)
    requires TableOk(log, table, live, pageOf, next)
    ensures LoadRecords(log) == table && LoadPages(log) == Restricted(pageOf, table)
  {
    hide LoadRecords, LoadPages;
    forall id
      ensures id in LoadRecords(log) <==> id in table
      ensures id in LoadPages(log) <==> id in table
      ensures id in table ==> id in pageOf && id in LoadRecords(log) && id in LoadPages(log)
                              && LoadRecords(log)[id] == table[id] && LoadPages(log)[id] == pageOf[id]
    {
      if id in table {
        var k :| 0 <= k < |log| && IdOf(log[k].1) == id;
        assert EntryOk(log[k], table, live, pageOf, next);
        LoadedAt(log, k);
      } else if id in LoadRecords(log) || id in LoadPages(log) {
        LoadedFrom(log, id);
      }
    }
  }

  lemma TableIds(log: seq<Entry>, table: map<nat, Record>, live: set<nat>, pageOf: map<nat, nat>, next: nat)
    requires TableOk(log, table, live, pageOf, next)
    ensures forall id | id in table :: id < next
  {
    forall id | id in table
      ensures id < next
    {
      var k :| 0 <= k < |log| && IdOf(log[k].1) == id;
      assert EntryOk(log[k], table, live, pageOf, next);
    }
  }

  // ---------------------------------------------------------------------------
  // Steps
  // ---------------------------------------------------------------------------

  /** A record under a new id; one too large for any page is not logged. */
  lemma CreateKeepsTable(log: seq<Entry>, table: map<nat, Record>, live: set<nat>, pageOf: map<nat, nat>, next: nat, pid: nat, r: Record)
    requires TableOk(log, table, live, pageOf, next) && IdOf(r) >= next && !Deleted(r)
    ensures var id := IdOf(r);
            && TableOk(log + [(pid, r)], table[id := r], live + {id}, pageOf[id := pid], id + 1)
            && TableOk(log, table, live + {id}, pageOf[id := pid], id + 1)
  {
    var id, more := IdOf(r), log + [(pid, r)];
    assert forall k | 0 <= k < |log| :: EntryOk(log[k], table, live + {id}, pageOf[id := pid], id + 1) by {
      assert forall k | 0 <= k < |log| :: EntryOk(log[k], table, live, pageOf, next);
    }
    assert forall k | 0 <= k < |log| :: more[k] == log[k];
    assert more[|log|] == (pid, r);
    forall k | 0 <= k < |more|
      ensures EntryOk(more[k], table[id := r], live + {id}, pageOf[id := pid], id + 1)
    {
      if k < |log| {
        assert EntryOk(log[k], table, live, pageOf, next);
      }
    }
    forall j | j in table[id := r]
      ensures InLog(more, j)
    {
      if j != id {
        var k :| 0 <= k < |log| && IdOf(log[k].1) == j;
        assert more[k] == log[k];
      }
    }
  }

  /** Replacing the record of a live id, by a new version or by its tombstone. An id whose
      record never fitted a page has no entry, and none is made. */
  lemma ReplaceKeepsTable(log: seq<Entry>, table: map<nat, Record>, live: set<nat>, pageOf: map<nat, nat>, next: nat, r: Record)
    requires TableOk(log, table, live, pageOf, next)
    requires IdOf(r) in live && IdOf(r) in pageOf
    ensures var id := IdOf(r);
            var after := UpdateLog(log, pageOf[id], id, r);
            if Deleted(r) then TableOk(after, table - {id}, live - {id}, pageOf, next)
            else TableOk(after, if id in table then table[id := r] else table, live, pageOf, next)
  {
    var id := IdOf(r);
    var after := UpdateLog(log, pageOf[id], id, r);
    var table' := if Deleted(r) then table - {id} else if id in table then table[id := r] else table;
    var live' := if Deleted(r) then live - {id} else live;
    forall k | 0 <= k < |log|
      ensures IdOf(after[k].1) == IdOf(log[k].1) && EntryOk(after[k], table', live', pageOf, next)
    {
      assert EntryOk(log[k], table, live, pageOf, next);
    }
    forall j | j in table'
      ensures InLog(after, j)
    {
      var k :| 0 <= k < |log| && IdOf(log[k].1) == j;
      assert IdOf(after[k].1) == j;
    }
  }

  /** After a load exactly the ids of the table are live. */
  lemma ReloadKeepsTable(log: seq<Entry>, table: map<nat, Record>, live: set<nat>, pageOf: map<nat, nat>, next: nat)
    requires TableOk(log, table, live, pageOf, next)
    ensures TableOk(log, table, table.Keys, Restricted(pageOf, table), next)
  {
    forall k | 0 <= k < |log|
      ensures EntryOk(log[k], table, table.Keys, Restricted(pageOf, table), next)
    {
      assert EntryOk(log[k], table, live, pageOf, next);
    }
  }

  /** Fewer live ids do no harm. */
  lemma ForgetKeepsTable(log: seq<Entry>, table: map<nat, Record>, live: set<nat>, fewer: set<nat>, pageOf: map<nat, nat>, next: nat)
    requires TableOk(log, table, live, pageOf, next) && fewer <= live
    ensures TableOk(log, table, fewer, pageOf, next)
  {
    forall k | 0 <= k < |log|
      ensures EntryOk(log[k], table, fewer, pageOf, next)
    {
      assert EntryOk(log[k], table, live, pageOf, next);
    }
  }
}
