/** One MovementCreated row per confirmed movement, with its StockChanged rows behind it. */
module LifeCycle {
  import opened Common
  import opened Schema
  import opened Stock
  import opened Events
  import opened Effects
  import opened Transactions
  import opened Serializability
  import opened Ledger
  import opened EventOrder

  ghost predicate IsCreatedRow(s: Sys, rid: nat, id: Id) {
    rid in s.outbox && s.outbox[rid].MovementCreated? && s.outbox[rid].movement == id
  }

  lemma {:induction false} AllRowsMember(log: seq<Entry>, r: Row) returns (i: nat)
    requires r in AllRows(log)
    ensures i < |log| && log[i].MovementConfirmed? && r in log[i].rows
  {
    var n := |log| - 1;
    if r in AllRows(log[..n]) {
      i := AllRowsMember(log[..n], r);
    } else {
      i := n;
    }
  }

  lemma {:induction false} AllRowsContains(log: seq<Entry>, i: nat, r: Row)
    requires i < |log| && log[i].MovementConfirmed? && r in log[i].rows
    ensures r in AllRows(log)
  {
    var n := |log| - 1;
    if i < n {
      AllRowsContains(log[..n], i, r);
    }
  }

  /** The rows a confirm inserted: MovementCreated first, then for each change of applyStock, run on the balances of
      that moment, its StockChanged and the threshold row when one is due. */
  lemma {:induction false} ConfirmedRows(log: seq<Entry>, i: nat) returns (a: Applied)
    requires SerialRun(log).Success? && i < |log| && log[i].MovementConfirmed?
    ensures SerialRun(log[..i]).Success? && WarehousesOk(log[i].m)
    ensures ApplyStock(SerialRun(log[..i]).value.balances, log[i].m) == Success(a) && |log[i].levels| == |a.changes|
    ensures Carries(log[i].rows, MovementEvents(log[i].m, a.changes, log[i].levels))
  {
    var n := |log| - 1;
    if i < n {
      a := ConfirmedRows(log[..n], i);
      assert log[..n][..i] == log[..i];
    } else {
      a := ConfirmUnfolds(SerialRun(log[..n]).value, log[n].m, log[n].levels, log[n].rows);
    }
  }

  /** The rows of every confirm have ascending ids. */
  ghost predicate ConfirmsAscend(log: seq<Entry>) {
    forall i :: 0 <= i < |log| && log[i].MovementConfirmed? ==> Increasing(log[i].rows)
  }

  lemma StepAscends(s: Sys, s': Sys)
    requires IdsInv(s) && Step(s, s') && ConfirmsAscend(s.log)
    ensures ConfirmsAscend(s'.log)
  {
    var a :| StepBy(s, s', a);
    match a
    case Commit(t) =>
      assert TxIds(s, s.txs[t]);
      CommitAppends(s, s', t);
    case _ => OthersAppend(s, s', a);
  }

  lemma CommitAppends(s: Sys, s': Sys, t: nat)
    requires CommitStep(s, s', t) && Increasing(s.txs[t].rows) && ConfirmsAscend(s.log)
    ensures ConfirmsAscend(s'.log)
  {
  }

  lemma OthersAppend(s: Sys, s': Sys, a: Action)
    requires StepBy(s, s', a) && !a.Commit? && ConfirmsAscend(s.log)
    ensures ConfirmsAscend(s'.log)
  {
  }

  lemma {:induction false} RunAscends(run: seq<Sys>, n: nat)
    requires Run(run) && n < |run|
    ensures ConfirmsAscend(run[n].log)
  {
    if n == 0 {
    } else {
      RunAscends(run, n - 1);
      RunIds(run, n - 1);
      StepAscends(run[n - 1], run[n]);
    }
  }

  function EventsIn(rows: seq<Row>): seq<Event> {
    seq(|rows|, i requires 0 <= i < |rows| => rows[i].event)
  }

  /** In every reachable state the rows of a committed confirm, under ascending ids, are MovementCreated, then the
      StockChanged of each change in order, directly followed by its threshold row exactly when the new quantity is
      below a positive reorder level. A relay that goes by id sends them in this order. */
  lemma ConfirmedRowsInOrder(run: seq<Sys>, n: nat, i: nat) returns (a: Applied, at: seq<nat>)
    requires Run(run) && n < |run| && i < |run[n].log| && run[n].log[i].MovementConfirmed?
    ensures var log := run[n].log;
            && SerialRun(log[..i]).Success? && WarehousesOk(log[i].m)
            && ApplyStock(SerialRun(log[..i]).value.balances, log[i].m) == Success(a) && |log[i].levels| == |a.changes|
            && Carries(log[i].rows, MovementEvents(log[i].m, a.changes, log[i].levels))
            && Increasing(log[i].rows)
            && Announces(EventsIn(log[i].rows), log[i].m, a.changes, log[i].levels, at)
  {
    Serializable(run, n);
    RunAscends(run, n);
    var log := run[n].log;
    a := ConfirmedRows(log, i);
    at := EventsAnnounce(log[i].m, a.changes, log[i].levels);
    assert EventsIn(log[i].rows) == MovementEvents(log[i].m, a.changes, log[i].levels);
  }

  lemma CreatedRowOrigin(log: seq<Entry>, i: nat, r: Row)
    requires SerialRun(log).Success? && i < |log| && log[i].MovementConfirmed? && r in log[i].rows
    requires r.event.MovementCreated?
    ensures r == log[i].rows[0] && r.event.movement == log[i].m.id
  {
    var a := ConfirmedRows(log, i);
    var e := log[i];
    MovementEventsCarryChanges(e.m, a.changes, e.levels);
    var es := MovementEvents(e.m, a.changes, e.levels);
    forall j | 0 < j < |es|
      ensures !es[j].MovementCreated?
    {
      assert es[1..][j - 1] == es[j];
    }
    var j :| 0 <= j < |e.rows| && e.rows[j] == r;
  }

  /** A MovementCreated row is the first row of the confirm of its movement. */
  lemma CreatedRowIsFirst(s: Sys, rid: nat, id: Id) returns (i: nat)
    requires SerialRun(s.log).Success? && OutboxIsLog(s) && IsCreatedRow(s, rid, id)
    ensures ConfirmAt(s.log, i, id) && s.log[i].rows != [] && Row(rid, s.outbox[rid]) == s.log[i].rows[0]
  {
    var r := Row(rid, s.outbox[rid]);
    i := AllRowsMember(s.log, r);
    CreatedRowOrigin(s.log, i, r);
  }

  lemma ConfirmHasCreatedRow(s: Sys, i: nat, id: Id)
    requires SerialRun(s.log).Success? && OutboxIsLog(s) && ConfirmAt(s.log, i, id)
    ensures exists rid :: IsCreatedRow(s, rid, id)
  {
    var a := ConfirmedRows(s.log, i);
    var r := s.log[i].rows[0];
    AllRowsContains(s.log, i, r);
    assert IsCreatedRow(s, r.id, id);
  }

  lemma CreatedRowIsUnique(s: Sys, p: nat, q: nat, id: Id)
    requires SerialRun(s.log).Success? && OutboxIsLog(s) && IsCreatedRow(s, p, id) && IsCreatedRow(s, q, id)
    ensures p == q
  {
    var i := CreatedRowIsFirst(s, p, id);
    var j := CreatedRowIsFirst(s, q, id);
    ConfirmedOnce(s.log, i, j, id);
  }

  /** In every reachable state, MovementCreated outbox rows and confirmed movements correspond one to one. */
  lemma MovementCreatedOnce(run: seq<Sys>, n: nat, id: Id)
    requires Run(run) && n < |run|
    ensures IsConfirmed(run[n].movements, id) <==> exists rid :: IsCreatedRow(run[n], rid, id)
    ensures forall p, q :: IsCreatedRow(run[n], p, id) && IsCreatedRow(run[n], q, id) ==> p == q
  {
    var s := run[n];
    Serializable(run, n);
    HistoryInIdOrder(run, n, Key("", "", ""));
    ConfirmedByLog(s.log, id);
    if i: nat :| ConfirmAt(s.log, i, id) {
      ConfirmHasCreatedRow(s, i, id);
    }
    if rid :| IsCreatedRow(s, rid, id) {
      var i := CreatedRowIsFirst(s, rid, id);
    }
    forall p, q | IsCreatedRow(s, p, id) && IsCreatedRow(s, q, id)
      ensures p == q
    {
      CreatedRowIsUnique(s, p, q, id);
    }
  }
}
