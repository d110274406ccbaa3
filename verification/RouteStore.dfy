/** The persisted copy of the confirmed terminal-session routes. Each method is one statement or one
    transaction; `up` says whether it succeeds, and a failed one leaves the rows alone. */
module RouteStore {
  import opened Common
  import opened RouteModel

  datatype Ref = Ref(session: SessionId, nodeId: NodeId)

  /** No ref in the list deletes the row of s. */
  predicate Untouched(rows: map<SessionId, Row>, refs: seq<Ref>, s: SessionId)
    requires s in rows
  {
    forall i | 0 <= i < |refs| :: refs[i] != Ref(s, rows[s].nodeId)
  }

  /** The rows left when the listed rows are deleted one after the other. */
  function RowsAfter(rows: map<SessionId, Row>, refs: seq<Ref>): map<SessionId, Row> {
    map s | s in rows && Untouched(rows, refs, s) :: rows[s]
  }

  /** The list holds every entry of the map once, in any order. */
  predicate Lists(list: seq<(SessionId, Row)>, rows: map<SessionId, Row>) {
    && (forall i, j | 0 <= i < j < |list| :: list[i].0 != list[j].0)
    && (forall i | 0 <= i < |list| :: list[i].0 in rows && rows[list[i].0] == list[i].1)
    && (forall s | s in rows :: (s, rows[s]) in list)
  }

  lemma ListsOneMore(list: seq<(SessionId, Row)>, rows: map<SessionId, Row>, todo: set<SessionId>, s: SessionId)
    requires todo <= rows.Keys && s in todo && Lists(list, rows - todo)
    ensures Lists(list + [(s, rows[s])], rows - (todo - {s}))
  {
    var longer := list + [(s, rows[s])];
    forall x | x in rows - (todo - {s}) ensures (x, rows[x]) in longer {
      if x == s {
        assert longer[|list|] == (s, rows[s]);
      } else {
        assert x in rows - todo && (x, rows[x]) in list;
        var i :| 0 <= i < |list| && list[i] == (x, rows[x]);
        assert longer[i] == (x, rows[x]);
      }
    }
  }

  /** Deleting rows listed under one node. */
  lemma RowsAfterOnNode(rows: map<SessionId, Row>, refs: seq<Ref>, sessions: set<SessionId>, n: NodeId)
    requires forall i | 0 <= i < |refs| :: refs[i].nodeId == n && refs[i].session in sessions
    requires forall s | s in sessions :: Ref(s, n) in refs
    ensures RowsAfter(rows, refs) == RowsWithout(rows, sessions, n)
  {
    forall s | s in rows ensures Untouched(rows, refs, s) <==> !(s in sessions && rows[s].nodeId == n) {
      if s in sessions && rows[s].nodeId == n {
        var i :| 0 <= i < |refs| && refs[i] == Ref(s, n);
      }
    }
  }

  class Store {
    var rows: map<SessionId, Row>

    constructor ()
      ensures rows == map[]
    {
      rows := map[];
    }

    /** Written as the statement is: insert, or update in place when the node agrees. */
    method Upsert(s: SessionId, row: Row, up: bool) returns (result: CommitResult)
      modifies this
      ensures result == if !up then StoreFailed
                        else if UpsertRow(old(rows), s, row).NodeConflict? then StoreConflict else Committed
      ensures result == Committed ==> rows == UpsertRow(old(rows), s, row).rows
      ensures result != Committed ==> rows == old(rows)
    {
      if !up {
        return StoreFailed;
      }
      if s in rows {
        if rows[s].nodeId != row.nodeId {
          return StoreConflict;
        }
        var was := rows[s];
        rows := rows[s := was.(lease := Max(was.lease, row.lease),
                               lastUsed := Max(was.lastUsed, row.lastUsed),
                               updatedAt := Max(was.updatedAt, row.updatedAt))];
      } else {
        rows := rows[s := row];
      }
      return Committed;
    }

    method Delete(s: SessionId, n: NodeId, up: bool) returns (ok: bool)
      modifies this
      ensures ok == up
      ensures rows == if up then RowsWithout(old(rows), {s}, n) else old(rows)
    {
      if up {
        if s in rows && rows[s].nodeId == n {
          rows := rows - {s};
        }
        assert rows == RowsWithout(old(rows), {s}, n);
      }
      return up;
    }

    /** One transaction. When a statement fails, the earlier deletions are rolled back with it. */
    method DeleteAll(refs: seq<Ref>, failing: Option<nat>) returns (ok: bool)
      modifies this
      ensures ok <==> failing.None? || failing.value >= |refs|
      ensures rows == if ok then RowsAfter(old(rows), refs) else old(rows)
    {
      var before := rows;
      for i := 0 to |refs|
        invariant failing.None? || failing.value >= i
        invariant before == old(rows)
        invariant rows == RowsAfter(old(rows), refs[..i])
      {
        if failing == Some(i) {
          rows := before;
          return false;
        }
        assert refs[..i + 1] == refs[..i] + [refs[i]];
        var ref := refs[i];
        if ref.session in rows && rows[ref.session].nodeId == ref.nodeId {
          rows := rows - {ref.session};
        }
        assert rows == RowsAfter(old(rows), refs[..i + 1]);
      }
      assert refs[..|refs|] == refs;
      return true;
    }

    /** The live rows as a list. The primary key makes each session appear once. */
    method LoadActive(now: Instant, up: bool) returns (listed: Option<seq<(SessionId, Row)>>)
      ensures listed.Some? <==> up
      ensures up ==> Lists(listed.value, LiveRows(rows, now))
    {
      if !up {
        return None;
      }
      var live := LiveRows(rows, now);
      var todo, list: seq<(SessionId, Row)> := live.Keys, [];
      while todo != {}
        invariant todo <= live.Keys
        invariant Lists(list, live - todo)
      {
        var s :| s in todo;
        ListsOneMore(list, live, todo, s);
        list := list + [(s, live[s])];
        todo := todo - {s};
      }
      assert live - {} == live;
      return Some(list);
    }

    /** What remains is unchanged, and none of it is at the node. */
    method DeleteByNode(n: NodeId, up: bool) returns (ok: bool)
      modifies this
      ensures ok == up
      ensures forall s :: s in rows <==> s in old(rows) && (up ==> old(rows)[s].nodeId != n)
      ensures forall s | s in rows :: rows[s] == old(rows)[s]
    {
      if up {
        rows := map s | s in rows && rows[s].nodeId != n :: rows[s];
      }
      return up;
    }

    /** What remains is unchanged, and all of it is live. */
    method DeleteExpired(now: Instant, up: bool) returns (ok: bool)
      modifies this
      ensures ok == up
      ensures forall s :: s in rows <==> s in old(rows) && (up ==> old(rows)[s].lease > now)
      ensures forall s | s in rows :: rows[s] == old(rows)[s]
    {
      if up {
        rows := map s | s in rows && rows[s].lease > now :: rows[s];
      }
      return up;
    }
  }
}
