/** Outbox ids. The sequence hands them out when a row is inserted, not when it commits; still the StockChanged rows of
    one balance row get ascending ids in commit order, because their row lock is held from before the insert
    (services/inventory/domains/outbox/repository/repository.go). */
module EventOrder {
  import opened Schema
  import opened Events
  import opened Transactions
  import opened Serializability
  import opened Ledger

  // ---- Outbox ids ---------------------------------------------------------------------------------

  ghost predicate Increasing(rows: seq<Row>) {
    forall i, j :: 0 <= i < j < |rows| ==> rows[i].id < rows[j].id
  }

  ghost predicate Distinct(rows: seq<Row>) {
    forall i, j :: 0 <= i < j < |rows| ==> rows[i].id != rows[j].id
  }

  /** The committed outbox holds exactly the rows of the log, each under its own id. */
  ghost predicate OutboxIsLog(s: Sys) {
    && Distinct(AllRows(s.log))
    && (forall r <- AllRows(s.log) :: r.id in s.outbox && s.outbox[r.id] == r.event)
    && (forall id <- s.outbox :: Row(id, s.outbox[id]) in AllRows(s.log))
  }

  /** Uncommitted rows have ids of their own, in insertion order, and those that change a balance row, whose lock
      the transaction holds, come after every committed change of that row. */
  ghost predicate TxIds(s: Sys, x: Tx) {
    && Increasing(x.rows)
    && (forall r <- x.rows :: r.id < s.nextId && r.id !in s.outbox)
    && (forall r <- x.rows :: r.event.StockChanged? ==> r.event.change.key in x.view)
    && (forall r <- x.rows, o <- AllRows(s.log) ::
          r.event.StockChanged? && Changes(o, r.event.change.key) ==> o.id < r.id)
  }

  ghost predicate NoSharedIds(x: Tx, y: Tx) {
    forall r <- x.rows, o <- y.rows :: r.id != o.id
  }

  ghost predicate CommittedIds(s: Sys) {
    && (forall id <- s.outbox :: id < s.nextId)
    && OutboxIsLog(s)
    && (forall k :: Increasing(History(s.log, k)))
  }

  ghost predicate IdsInv(s: Sys) {
    && CommittedIds(s)
    && (forall t <- s.txs :: TxIds(s, s.txs[t]))
    && (forall t <- s.txs, u <- s.txs :: t != u ==> NoSharedIds(s.txs[t], s.txs[u]))
  }

  lemma {:induction false} WithRowsHolds(outbox: map<nat, Event>, rows: seq<Row>)
    requires Distinct(rows)
    ensures var w := WithRows(outbox, rows);
            && (forall r <- rows :: r.id in w && w[r.id] == r.event)
            && (forall id <- outbox :: id in w && ((forall r <- rows :: r.id != id) ==> w[id] == outbox[id]))
            && (forall id <- w :: (id in outbox && w[id] == outbox[id]) || Row(id, w[id]) in rows)
  {
    if rows == [] {
    } else {
      var n := |rows| - 1;
      WithRowsHolds(outbox, rows[..n]);
      assert rows == rows[..n] + [rows[n]];
    }
  }

  lemma {:induction false} RowsOfIncreasing(rows: seq<Row>, k: Key)
    requires Increasing(rows)
    ensures Increasing(RowsOf(rows, k))
  {
    if rows == [] {
    } else {
      var n := |rows| - 1;
      RowsOfIncreasing(rows[..n], k);
      RowsOfMembers(rows[..n], k);
      forall r | r in RowsOf(rows[..n], k)
        ensures r.id < rows[n].id
      {
        assert r in rows[..n];
      }
    }
  }

  lemma IncreasingConcat(a: seq<Row>, b: seq<Row>)
    requires Increasing(a) && Increasing(b) && forall r <- a, o <- b :: r.id < o.id
    ensures Increasing(a + b)
  {
    forall i, j | 0 <= i < j < |a + b|
      ensures (a + b)[i].id < (a + b)[j].id
    {
      if i < |a| && |a| <= j {
        assert a[i] in a && b[j - |a|] in b;
      }
    }
  }

  ghost predicate SameRows(s: Sys, s': Sys, t: nat)
    requires t in s'.txs
  {
    s'.txs[t].rows == [] || (t in s.txs && s'.txs[t].rows == s.txs[t].rows && s'.txs[t].view == s.txs[t].view)
  }

  /** A step that inserts no row and commits none. */
  ghost predicate Quiet(s: Sys, s': Sys) {
    && s'.outbox == s.outbox && s'.nextId == s.nextId && AllRows(s'.log) == AllRows(s.log)
    && forall t <- s'.txs :: SameRows(s, s', t)
  }

  lemma QuietKeeps(s: Sys, s': Sys)
    requires IdsInv(s) && Quiet(s, s')
    ensures IdsInv(s')
  {
    forall t <- s'.txs
      ensures TxIds(s', s'.txs[t])
    {
      if s'.txs[t].rows != [] {
        assert TxIds(s, s.txs[t]);
      }
    }
    forall t <- s'.txs, u <- s'.txs | t != u
      ensures NoSharedIds(s'.txs[t], s'.txs[u])
    {
      if s'.txs[t].rows != [] && s'.txs[u].rows != [] {
        assert NoSharedIds(s.txs[t], s.txs[u]);
      }
    }
    forall k
      ensures Increasing(History(s'.log, k))
    {
      assert History(s'.log, k) == History(s.log, k);
    }
  }

  lemma EventKeysInView(s: Sys, x: Tx, i: nat)
    requires TxOk(s, x) && i < |EventsOf(x)| && EventsOf(x)[i].StockChanged?
    ensures EventsOf(x)[i].change.key in x.view
  {
    MovementEventsCarryChanges(x.m, x.changes, x.levels.value);
    var es := EventsOf(x);
    assert i > 0 && es[i] == es[1..][i - 1];
    assert es[i].change in x.changes;
  }

  /** The row about to be inserted gets the largest id so far. */
  lemma InsertOwnIds(s: Sys, x: Tx, row: Row)
    requires TxIds(s, x) && row.id == s.nextId
    requires forall id <- s.outbox :: id < s.nextId
    requires OutboxIsLog(s)
    requires row.event.StockChanged? ==> row.event.change.key in x.view
    ensures TxIds(s.(nextId := s.nextId + 1), x.(rows := x.rows + [row]))
  {
    forall o <- AllRows(s.log) ensures o.id < s.nextId { assert o.id in s.outbox; }
    IncreasingConcat(x.rows, [row]);
  }

  lemma InsertIds(s: Sys, s': Sys, t: nat)
    requires Inv(s) && IdsInv(s) && InsertStep(s, s', t)
    ensures IdsInv(s')
  {
    var x := s.txs[t];
    var row := Row(s.nextId, EventsOf(x)[|x.rows|]);
    assert TxOk(s, x);
    if row.event.StockChanged? {
      EventKeysInView(s, x, |x.rows|);
    }
    InsertOwnIds(s, x, row);
    OneInsertKeeps(s, s', t, row);
  }

  lemma LaterIds(s: Sys, s': Sys, x: Tx)
    requires TxIds(s, x) && s'.outbox == s.outbox && s'.log == s.log && s.nextId <= s'.nextId
    ensures TxIds(s', x)
  {
  }

  lemma FreshRowIsNotShared(s: Sys, x: Tx, y: Tx, row: Row)
    requires TxIds(s, y) && NoSharedIds(x, y) && NoSharedIds(y, x) && row.id == s.nextId
    ensures NoSharedIds(x.(rows := x.rows + [row]), y) && NoSharedIds(y, x.(rows := x.rows + [row]))
  {
  }

  lemma OneInsertKeeps(s: Sys, s': Sys, t: nat, row: Row)
    requires IdsInv(s) && t in s.txs && row.id == s.nextId
    requires s' == s.(txs := s.txs[t := s.txs[t].(rows := s.txs[t].rows + [row])], nextId := s.nextId + 1)
    requires TxIds(s.(nextId := s.nextId + 1), s'.txs[t])
    ensures IdsInv(s')
  {
    LaterIds(s.(nextId := s.nextId + 1), s', s'.txs[t]);
    forall u <- s'.txs | u != t
      ensures TxIds(s', s'.txs[u]) && NoSharedIds(s'.txs[u], s'.txs[t]) && NoSharedIds(s'.txs[t], s'.txs[u])
    {
      OtherAfterInsert(s, s', t, row, u);
    }
    LaterCommitted(s, s');
  }

  lemma LaterCommitted(s: Sys, s': Sys)
    requires CommittedIds(s) && s'.outbox == s.outbox && s'.log == s.log && s.nextId <= s'.nextId
    ensures CommittedIds(s')
  {
  }

  lemma OtherAfterInsert(s: Sys, s': Sys, t: nat, row: Row, u: nat)
    requires IdsInv(s) && t in s.txs && row.id == s.nextId && u in s.txs && u != t
    requires s' == s.(txs := s.txs[t := s.txs[t].(rows := s.txs[t].rows + [row])], nextId := s.nextId + 1)
    ensures TxIds(s', s'.txs[u]) && NoSharedIds(s'.txs[u], s'.txs[t]) && NoSharedIds(s'.txs[t], s'.txs[u])
  {
    LaterIds(s, s', s.txs[u]);
    FreshRowIsNotShared(s, s.txs[t], s.txs[u], row);
  }

  lemma CommitIds(s: Sys, s': Sys, t: nat)
    requires Inv(s) && IdsInv(s) && CommitStep(s, s', t)
    ensures IdsInv(s')
  {
    var x := s.txs[t];
    assert TxOk(s, x) && TxIds(s, x);
    WithRowsHolds(s.outbox, x.rows);
    assert s'.log[..|s.log|] == s.log;
    var before, now := AllRows(s.log), AllRows(s'.log);
    assert now == before + x.rows;
    forall o <- before ensures o.id in s.outbox && forall r <- x.rows :: r.id != o.id {}
    CommitOutbox(s, s', x);
    forall u <- s'.txs
      ensures TxIds(s', s'.txs[u])
    {
      CommitOthers(s, s', t, u);
    }
    forall k
      ensures Increasing(History(s'.log, k))
    {
      RowsOfConcat(before, x.rows, k);
      RowsOfMembers(before, k);
      RowsOfMembers(x.rows, k);
      RowsOfIncreasing(x.rows, k);
      IncreasingConcat(History(s.log, k), RowsOf(x.rows, k));
    }
  }

  lemma CommitOutbox(s: Sys, s': Sys, x: Tx)
    requires OutboxIsLog(s) && TxIds(s, x) && (forall id <- s.outbox :: id < s.nextId)
    requires s'.outbox == WithRows(s.outbox, x.rows) && s'.nextId == s.nextId
    requires AllRows(s'.log) == AllRows(s.log) + x.rows
    ensures OutboxIsLog(s') && forall id <- s'.outbox :: id < s'.nextId
  {
    WithRowsHolds(s.outbox, x.rows);
    var before, now := AllRows(s.log), AllRows(s'.log);
    forall i, j | 0 <= i < j < |now|
      ensures now[i].id != now[j].id
    {
      if i < |before| && |before| <= j {
        assert before[i] in before && x.rows[j - |before|] in x.rows;
      }
    }
    forall r <- now
      ensures r.id in s'.outbox && s'.outbox[r.id] == r.event
    {
      if r in before {
        assert forall o <- x.rows :: o.id != r.id;
      }
    }
  }

  /** What another transaction commits leaves the ids of `y` in order: the rows it changed are not those `y` holds. */
  lemma IdsDespiteCommit(s: Sys, s': Sys, x: Tx, y: Tx)
    requires TxIds(s, x) && TxIds(s, y) && NoSharedIds(y, x) && x.view.Keys !! y.view.Keys
    requires s'.outbox == WithRows(s.outbox, x.rows) && s'.nextId == s.nextId
    requires AllRows(s'.log) == AllRows(s.log) + x.rows
    ensures TxIds(s', y)
  {
    WithRowsHolds(s.outbox, x.rows);
    forall r <- y.rows, o <- AllRows(s'.log) | r.event.StockChanged? && Changes(o, r.event.change.key)
      ensures o.id < r.id
    {
      assert o in AllRows(s.log) || o in x.rows;
    }
  }

  lemma CommitOthers(s: Sys, s': Sys, t: nat, u: nat)
    requires Inv(s) && IdsInv(s) && CommitStep(s, s', t) && u in s'.txs
    requires AllRows(s'.log) == AllRows(s.log) + s.txs[t].rows
    ensures TxIds(s', s'.txs[u])
  {
    assert Apart(s.txs[t], s.txs[u]);
    IdsDespiteCommit(s, s', s.txs[t], s.txs[u]);
  }

  lemma NoRowsBeforeLookup(s: Sys, x: Tx)
    requires TxOk(s, x) && x.pc < |Program(x.m, x.m.lines)|
    ensures x.rows == []
  {
    assert EventsOf(x) == [];
  }

  lemma StepIds(s: Sys, s': Sys)
    requires Inv(s) && IdsInv(s) && Step(s, s')
    ensures IdsInv(s')
  {
    var a :| StepBy(s, s', a);
    match a
    case Insert(t) => InsertIds(s, s', t);
    case Commit(t) => CommitIds(s, s', t);
    case Statement(t) => StatementIds(s, s', t);
    case _ => QuietIds(s, s', a);
  }

  lemma StatementIds(s: Sys, s': Sys, t: nat)
    requires Inv(s) && IdsInv(s) && StatementStep(s, s', t)
    ensures IdsInv(s')
  {
    QuietStatement(s, s', t);
    QuietKeeps(s, s');
  }

  lemma QuietIds(s: Sys, s': Sys, a: Action)
    requires IdsInv(s) && StepBy(s, s', a) && !a.Insert? && !a.Commit? && !a.Statement?
    ensures IdsInv(s')
  {
    QuietStep(s, s', a);
    QuietKeeps(s, s');
  }

  lemma QuietStatement(s: Sys, s': Sys, t: nat)
    requires Inv(s) && StatementStep(s, s', t)
    ensures Quiet(s, s')
  {
    assert TxOk(s, s.txs[t]);
    StatementRuns(s, s', t);
    NoRowsBeforeLookup(s, s.txs[t]);
  }

  lemma QuietStep(s: Sys, s': Sys, a: Action)
    requires StepBy(s, s', a) && !a.Insert? && !a.Commit? && !a.Statement?
    ensures Quiet(s, s')
  {
    if s'.log != s.log {
      assert s'.log[..|s.log|] == s.log;
    }
  }

  lemma {:induction false} RunIds(run: seq<Sys>, i: nat)
    requires Run(run) && i < |run|
    ensures Inv(run[i]) && IdsInv(run[i])
  {
    RunKeeps(run, i);
    if i > 0 {
      RunIds(run, i - 1);
      StepIds(run[i - 1], run[i]);
    } else {
      forall k ensures Increasing(History(EMPTY.log, k)) {}
    }
  }

  /** Rows of one balance row get their ids in commit order although ids are handed out before the commit, and
      no committed row is ever overwritten. */
  lemma HistoryInIdOrder(run: seq<Sys>, i: nat, k: Key)
    requires Run(run) && i < |run|
    ensures Increasing(History(run[i].log, k))
    ensures OutboxIsLog(run[i])
  {
    RunIds(run, i);
  }
}
