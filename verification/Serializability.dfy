/** Every interleaving of creates, line inserts, cancels and confirms commits what running the committed ones
    alone, in commit order, would. */
module Serializability {
  import opened Common
  import opened Schema
  import opened Stock
  import opened StockLaws
  import opened Events
  import opened Transactions

  /** The committed database. */
  datatype Serial = Serial(movements: map<Id, Movement>, balances: Balances, outbox: map<nat, Event>)

  const NOTHING := Serial(map[], map[], map[])

  predicate Carries(rows: seq<Row>, events: seq<Event>) {
    |rows| == |events| && forall i :: 0 <= i < |rows| ==> rows[i].event == events[i]
  }

  /** One committed operation run alone. A confirm re-runs applyStock on the committed balances and must insert
      the events of exactly those changes. */
  ghost function SerialStep(st: Serial, e: Entry): Result<Serial> {
    match e
    case MovementAdded(m) =>
      if m.id in st.movements || m.status != Draft then Failure(Conflict)
      else Success(st.(movements := st.movements[m.id := m]))
    case LineAdded(id, line) =>
      if id !in st.movements then Failure(NotFound)
      else
        var m := st.movements[id];
        Success(st.(movements := st.movements[id := m.(lines := m.lines + [line])]))
    case MovementCancelled(id) =>
      if id !in st.movements || st.movements[id].status != Draft then Failure(MovementDraft)
      else Success(st.(movements := st.movements[id := st.movements[id].(status := Status.Cancelled)]))
    case MovementConfirmed(m, levels, rows) =>
      if m.id !in st.movements || st.movements[m.id] != m || m.status != Draft || !MovementOk(m)
      then Failure(MovementDraft)
      else
        var a :- ApplyStock(st.balances, m);
        if |levels| != |a.changes| || !Carries(rows, MovementEvents(m, a.changes, levels)) then Failure(Internal)
        else Success(Serial(st.movements[m.id := m.(status := Status.Confirmed)], a.balances,
            WithRows(st.outbox, rows)))
  }

  ghost function SerialRun(log: seq<Entry>): Result<Serial> {
    if log == [] then Success(NOTHING)
    else
      var before :- SerialRun(log[..|log| - 1]);
      SerialStep(before, log[|log| - 1])
  }

  // ---- Invariant ------------------------------------------------------------------------------

  /** The rows some statements use. */
  ghost function KeysOf(program: seq<Instr>): set<Key> {
    set i | 0 <= i < |program| :: program[i].key
  }

  lemma KeysOfNext(program: seq<Instr>, n: nat)
    requires n < |program|
    ensures KeysOf(program[..n + 1]) == KeysOf(program[..n]) + {program[n].key}
  {
    var before, after := program[..n], program[..n + 1];
    assert after == before + [program[n]];
    forall i | 0 <= i < n ensures before[i].key in KeysOf(after) { assert after[i] == before[i]; }
    forall i | 0 <= i < n ensures after[i].key in KeysOf(before) { assert after[i] == before[i]; }
    assert after[n].key in KeysOf(after);
  }

  /** A transaction has executed a prefix of its program on the committed balances: its view is what that prefix
      leaves of the rows it has locked, which are the rows the prefix uses. */
  ghost predicate Executed(b: Balances, x: Tx)
    requires WarehousesOk(x.m)
  {
    var program := Program(x.m, x.m.lines);
    && x.pc <= |program|
    && x.view.Keys == KeysOf(program[..x.pc])
    && ExecAll(Applied(b, []), program[..x.pc]) == Success(Applied(b + x.view, x.changes))
  }

  ghost predicate TxOk(s: Sys, x: Tx) {
    && x.m.id in s.movements && s.movements[x.m.id] == x.m && x.m.status == Draft && MovementOk(x.m)
    && Executed(s.balances, x)
    && (forall i :: 0 <= i < |x.changes| ==> x.changes[i].key in x.view)
    && (x.levels.Some? ==> x.pc == |Program(x.m, x.m.lines)| && |x.levels.value| == |x.changes|)
    && |x.rows| <= |EventsOf(x)|
    && (forall i :: 0 <= i < |x.rows| ==> x.rows[i].event == EventsOf(x)[i])
  }

  /** Two transactions hold no row in common. */
  ghost predicate Apart(x: Tx, y: Tx) {
    x.m.id != y.m.id && x.view.Keys !! y.view.Keys
  }

  ghost predicate MovementRowsOk(ms: map<Id, Movement>) {
    forall id <- ms :: ms[id].id == id && MovementOk(ms[id])
  }

  ghost predicate Inv(s: Sys) {
    && InRange(s.balances)
    && MovementRowsOk(s.movements)
    && (forall t <- s.txs :: TxOk(s, s.txs[t]))
    && (forall t <- s.txs, u <- s.txs :: t != u ==> Apart(s.txs[t], s.txs[u]))
    && SerialRun(s.log) == Success(Serial(s.movements, s.balances, s.outbox))
  }

  lemma SerialAppend(log: seq<Entry>, e: Entry)
    ensures SerialRun(log + [e]) ==
            if SerialRun(log).Success? then SerialStep(SerialRun(log).value, e) else SerialRun(log)
  {
    assert (log + [e])[..|log|] == log;
  }

  // ---- Frame: what others commit does not matter to a transaction --------------------------------------

  lemma {:induction false} ExecIgnoresOthers(b: Balances, other: Balances, program: seq<Instr>)
    requires forall i :: 0 <= i < |program| ==> program[i].key !in other
    ensures ExecAll(Applied(b + other, []), program).Success? <==> ExecAll(Applied(b, []), program).Success?
    ensures ExecAll(Applied(b, []), program).Success? ==>
              var r := ExecAll(Applied(b, []), program).value;
              ExecAll(Applied(b + other, []), program) == Success(Applied(r.balances + other, r.changes))
  {
    if program == [] {
    } else {
      var n := |program| - 1;
      ExecIgnoresOthers(b, other, program[..n]);
      if ExecAll(Applied(b, []), program[..n]).Success? {
        var r := ExecAll(Applied(b, []), program[..n]).value;
        ExecOneIgnoresOthers(r, other, program[n]);
      }
    }
  }

  lemma ExecOneIgnoresOthers(a: Applied, other: Balances, i: Instr)
    requires i.key !in other
    ensures Exec(Applied(a.balances + other, a.changes), i).Success? <==> Exec(a, i).Success?
    ensures Exec(a, i).Success? ==>
              Exec(Applied(a.balances + other, a.changes), i)
              == Success(Applied(Exec(a, i).value.balances + other, Exec(a, i).value.changes))
  {
    var b := a.balances;
    match i
    case Ensure(k) => assert k !in b ==> b[k := 0] + other == (b + other)[k := 0];
    case Lock(k) =>
    case Add(k, delta) =>
      if k in b {
        assert b[k := b[k] + delta] + other == (b + other)[k := b[k] + delta];
      }
  }

  lemma ExecutedDespiteCommit(b: Balances, other: Balances, x: Tx)
    requires WarehousesOk(x.m) && Executed(b, x) && x.view.Keys !! other.Keys
    ensures Executed(b + other, x)
  {
    var program := Program(x.m, x.m.lines)[..x.pc];
    ExecIgnoresOthers(b, other, program);
    assert b + x.view + other == b + other + x.view;
  }

  // ---- Each step keeps the invariant ------------------------------------------------------------------------

  lemma CreateKeeps(s: Sys, s': Sys, m: Movement)
    requires Inv(s) && CreateStep(s, s', m)
    ensures Inv(s')
  {
    SerialAppend(s.log, MovementAdded(m));
    forall t <- s'.txs
      ensures TxOk(s', s'.txs[t])
    {
      assert TxOk(s, s.txs[t]);
    }
  }

  lemma AddLineKeeps(s: Sys, s': Sys, id: Id, line: Line)
    requires Inv(s) && AddLineStep(s, s', id, line)
    ensures Inv(s')
  {
    SerialAppend(s.log, LineAdded(id, line));
    forall t <- s'.txs
      ensures TxOk(s', s'.txs[t])
    {
      assert TxOk(s, s.txs[t]);
    }
  }

  lemma CancelKeeps(s: Sys, s': Sys, id: Id)
    requires Inv(s) && CancelStep(s, s', id)
    ensures Inv(s')
  {
    SerialAppend(s.log, MovementCancelled(id));
    forall t <- s'.txs
      ensures TxOk(s', s'.txs[t])
    {
      assert TxOk(s, s.txs[t]);
    }
  }

  lemma FreshIsOk(s: Sys, x: Tx)
    requires Inv(s) && x.m.id in s.movements && x == Tx(s.movements[x.m.id], 0, map[], [], None, [])
    requires x.m.status == Draft
    ensures TxOk(s, x)
  {
    assert s.balances + map[] == s.balances;
    var program := Program(x.m, x.m.lines);
    assert program[..0] == [];
  }

  lemma FreshIsApart(s: Sys, u: nat, x: Tx)
    requires u in s.txs && !MovementHeld(s, x.m.id) && x.view == map[]
    ensures Apart(s.txs[u], x) && Apart(x, s.txs[u])
  {
  }

  lemma BeginKeeps(s: Sys, s': Sys, t: nat, id: Id)
    requires Inv(s) && BeginStep(s, s', t, id)
    ensures Inv(s')
  {
    var x := s'.txs[t];
    FreshIsOk(s, x);
    forall u <- s'.txs
      ensures TxOk(s', s'.txs[u])
      ensures u != t ==> Apart(s'.txs[u], x) && Apart(x, s'.txs[u])
    {
      SameTx(s, s', s'.txs[u]);
      if u != t {
        FreshIsApart(s, u, x);
      }
    }
  }

  lemma SameTx(s: Sys, s': Sys, x: Tx)
    requires TxOk(s, x) && s'.movements == s.movements && s'.balances == s.balances
    ensures TxOk(s', x)
  {
  }

  /** A step that changes one transaction only. */
  lemma OneTxKeeps(s: Sys, s': Sys, t: nat, x: Tx)
    requires Inv(s) && t in s.txs && s' == s.(txs := s.txs[t := x], nextId := s'.nextId)
    requires x.m == s.txs[t].m && TxOk(s, x)
    requires forall k <- x.view :: k in s.txs[t].view || !HeldByOther(s, t, k)
    ensures Inv(s')
  {
    forall u <- s'.txs
      ensures TxOk(s', s'.txs[u])
      ensures u != t ==> Apart(s'.txs[u], x)
    {
      assert TxOk(s, if u == t then x else s.txs[u]);
    }
  }

  lemma ExecNext(a: Applied, program: seq<Instr>, n: nat)
    requires n < |program|
    ensures ExecAll(a, program[..n + 1]) ==
            if ExecAll(a, program[..n]).Success? then Exec(ExecAll(a, program[..n]).value, program[n])
            else ExecAll(a, program[..n])
  {
    assert program[..n + 1][..n] == program[..n];
  }

  lemma ExecutedNext(b: Balances, x: Tx, program: seq<Instr>, view: Balances, changes: seq<Change>)
    requires WarehousesOk(x.m) && Executed(b, x) && program == Program(x.m, x.m.lines) && x.pc < |program|
    requires Exec(Applied(b + x.view, x.changes), program[x.pc]) == Success(Applied(b + view, changes))
    requires view.Keys == x.view.Keys + {program[x.pc].key}
    ensures Executed(b, x.(pc := x.pc + 1, view := view, changes := changes))
  {
    ExecNext(Applied(b, []), program, x.pc);
    KeysOfNext(program, x.pc);
  }

  /** Statement `i` of transaction `x` ran and left `x'`. */
  ghost predicate Ran(s: Sys, x: Tx, x': Tx, i: Instr) {
    && Exec(Applied(s.balances + x.view, x.changes), i) == Success(Applied(s.balances + x'.view, x'.changes))
    && x' == x.(pc := x.pc + 1, view := x'.view, changes := x'.changes)
    && x'.view.Keys == x.view.Keys + {i.key}
    && (x'.changes == x.changes || exists c: Change :: c.key == i.key && x'.changes == x.changes + [c])
  }

  lemma LockRuns(s: Sys, x: Tx, i: Instr)
    requires i.Ensure? || (i.Lock? && (i.key in x.view || i.key in s.balances))
    ensures Ran(s, x, x.(pc := x.pc + 1, view := Locked(s, x.view, i.key)), i)
  {
    LockAddsNothing(s, x.view, i.key);
    if i.Lock? {
      assert s.balances + Locked(s, x.view, i.key) == s.balances + x.view;
    }
  }

  lemma AddRuns(s: Sys, x: Tx, k: Key, delta: int)
    requires k in x.view && 0 <= x.view[k] + delta <= MAX_INT32
    ensures var q := x.view[k];
            Ran(s, x, x.(pc := x.pc + 1, view := x.view[k := q + delta],
                changes := x.changes + [Change(k, q, q + delta)]),
                Add(k, delta))
  {
    var q := x.view[k];
    assert (s.balances + x.view)[k := q + delta] == s.balances + x.view[k := q + delta];
    var c := Change(k, q, q + delta);
    assert c.key == k && x.changes + [c] == x.changes + [Change(k, q, q + delta)];
  }

  lemma StatementRuns(s: Sys, s': Sys, t: nat)
    requires StatementStep(s, s', t)
    ensures t in s'.txs && s' == s.(txs := s.txs[t := s'.txs[t]])
    ensures Ran(s, s.txs[t], s'.txs[t], Program(s.txs[t].m, s.txs[t].m.lines)[s.txs[t].pc])
  {
    var x := s.txs[t];
    match Program(x.m, x.m.lines)[x.pc]
    case Add(k, delta) => AddRuns(s, x, k, delta);
    case i => LockRuns(s, x, i);
  }

  lemma AdvancedIsOk(s: Sys, x: Tx, x': Tx, i: Instr)
    requires TxOk(s, x) && x.pc < |Program(x.m, x.m.lines)| && i == Program(x.m, x.m.lines)[x.pc] && Ran(s, x, x', i)
    ensures TxOk(s, x')
  {
    ExecutedNext(s.balances, x, Program(x.m, x.m.lines), x'.view, x'.changes);
    assert EventsOf(x) == [] && EventsOf(x') == [];
  }

  lemma StatementKeeps(s: Sys, s': Sys, t: nat)
    requires Inv(s) && StatementStep(s, s', t)
    ensures Inv(s')
  {
    var x, x' := s.txs[t], s'.txs[t];
    var i := Program(x.m, x.m.lines)[x.pc];
    StatementRuns(s, s', t);
    AdvancedIsOk(s, x, x', i);
    OneTxKeeps(s, s', t, x');
  }

  lemma LockAddsNothing(s: Sys, view: Balances, k: Key)
    ensures EnsureRow(s.balances + view, k) == s.balances + Locked(s, view, k)
  {
  }

  lemma LookupKeeps(s: Sys, s': Sys, t: nat, levels: seq<int>)
    requires Inv(s) && LookupStep(s, s', t, levels)
    ensures Inv(s')
  {
    assert TxOk(s, s.txs[t]);
    OneTxKeeps(s, s', t, s'.txs[t]);
  }

  lemma WithRowIsOk(s: Sys, x: Tx, es: seq<Event>, id: nat)
    requires TxOk(s, x) && es == EventsOf(x) && |x.rows| < |es|
    ensures TxOk(s, x.(rows := x.rows + [Row(id, es[|x.rows|])]))
  {
    var x' := x.(rows := x.rows + [Row(id, es[|x.rows|])]);
    assert EventsOf(x') == es;
    assert Executed(s.balances, x');
    forall i | 0 <= i < |x'.rows|
      ensures x'.rows[i].event == es[i]
    {
    }
  }

  lemma InsertKeeps(s: Sys, s': Sys, t: nat)
    requires Inv(s) && InsertStep(s, s', t)
    ensures Inv(s')
  {
    WithRowIsOk(s, s.txs[t], EventsOf(s.txs[t]), s.nextId);
    OneTxKeeps(s, s', t, s'.txs[t]);
  }

  lemma AbortKeeps(s: Sys, s': Sys, t: nat)
    requires Inv(s) && AbortStep(s, s', t)
    ensures Inv(s')
  {
    forall u <- s'.txs
      ensures TxOk(s', s'.txs[u])
    {
      assert TxOk(s, s.txs[u]);
    }
  }

  /** At its commit a transaction has run its whole program on the committed balances. */
  lemma CommitIsApplyStock(s: Sys, t: nat)
    requires Inv(s) && t in s.txs && s.txs[t].levels.Some?
    ensures var x := s.txs[t];
            ApplyStock(s.balances, x.m) == Success(Applied(s.balances + x.view, x.changes))
  {
    var x := s.txs[t];
    assert TxOk(s, x);
    var program := Program(x.m, x.m.lines);
    assert program[..|program|] == program;
    ProgramIsApplyStock(s.balances, x.m, x.m.lines);
  }

  /** A confirm that satisfies its checks runs alone. */
  lemma ConfirmRuns(st: Serial, m: Movement, a: Applied, levels: seq<int>, rows: seq<Row>)
    requires m.id in st.movements && st.movements[m.id] == m && m.status == Draft && MovementOk(m)
    requires ApplyStock(st.balances, m) == Success(a) && |levels| == |a.changes|
    requires Carries(rows, MovementEvents(m, a.changes, levels))
    ensures SerialStep(st, MovementConfirmed(m, levels, rows)) ==
            Success(Serial(st.movements[m.id := m.(status := Status.Confirmed)], a.balances, WithRows(st.outbox, rows)))
  {
  }

  lemma CommitIsSerial(s: Sys, s': Sys, t: nat)
    requires Inv(s) && CommitStep(s, s', t)
    ensures InRange(s'.balances) && MovementRowsOk(s'.movements)
    ensures SerialRun(s'.log) == Success(Serial(s'.movements, s'.balances, s'.outbox))
  {
    var x := s.txs[t];
    var st := Serial(s.movements, s.balances, s.outbox);
    assert TxOk(s, x);
    CommitIsApplyStock(s, t);
    ApplyLinesExact(s.balances, x.m, x.m.lines);
    ConfirmRuns(st, x.m, Applied(s.balances + x.view, x.changes), x.levels.value, x.rows);
    SerialAppend(s.log, MovementConfirmed(x.m, x.levels.value, x.rows));
  }

  lemma CommitKeeps(s: Sys, s': Sys, t: nat)
    requires Inv(s) && CommitStep(s, s', t)
    ensures Inv(s')
  {
    CommitIsSerial(s, s', t);
    var x := s.txs[t];
    forall u <- s'.txs
      ensures TxOk(s', s'.txs[u])
    {
      assert TxOk(s, s.txs[u]) && Apart(s.txs[u], x);
      ExecutedDespiteCommit(s.balances, x.view, s.txs[u]);
    }
  }

  lemma StepKeeps(s: Sys, s': Sys)
    requires Inv(s) && Step(s, s')
    ensures Inv(s')
  {
    var a :| StepBy(s, s', a);
    match a
    case Create(m) => CreateKeeps(s, s', m);
    case AddLine(id, line) => AddLineKeeps(s, s', id, line);
    case Cancel(id) => CancelKeeps(s, s', id);
    case Begin(t, id) => BeginKeeps(s, s', t, id);
    case _ => TxStepKeeps(s, s', a);
  }

  /** The steps of a transaction that has begun. */
  lemma TxStepKeeps(s: Sys, s': Sys, a: Action)
    requires Inv(s) && StepBy(s, s', a) && (a.Statement? || a.Lookup? || a.Insert? || a.Commit? || a.Abort?)
    ensures Inv(s')
  {
    match a
    case Statement(t) => StatementKeeps(s, s', t);
    case Lookup(t, levels) => LookupKeeps(s, s', t, levels);
    case Insert(t) => InsertKeeps(s, s', t);
    case Commit(t) => CommitKeeps(s, s', t);
    case Abort(t) => AbortKeeps(s, s', t);
  }

  lemma {:induction false} RunKeeps(run: seq<Sys>, i: nat)
    requires Run(run) && i < |run|
    ensures Inv(run[i])
  {
    if i == 0 {
    } else {
      RunKeeps(run, i - 1);
      StepKeeps(run[i - 1], run[i]);
    }
  }

  /** Serializability: in every reachable state of every interleaving, the committed movements, balances and outbox
      rows are those of running the committed operations one at a time in commit order. */
  lemma Serializable(run: seq<Sys>, i: nat)
    requires Run(run) && i < |run|
    ensures SerialRun(run[i].log) == Success(Serial(run[i].movements, run[i].balances, run[i].outbox))
    ensures InRange(run[i].balances)
  {
    RunKeeps(run, i);
  }
}
