/** What every serial run of commits leaves behind: the ledger, the change chain of each balance row and the
    life cycle of movements. Transactions.Run reaches only such states (Serializability.Serializable). */
module Ledger {
  import opened Common
  import opened Schema
  import opened Stock
  import opened StockLaws
  import opened Events
  import opened Transactions
  import opened Serializability

  /** The outbox rows committed so far, in commit order. */
  function AllRows(log: seq<Entry>): seq<Row> {
    if log == [] then []
    else
      var last := log[|log| - 1];
      AllRows(log[..|log| - 1]) + if last.MovementConfirmed? then last.rows else []
  }

  predicate Changes(row: Row, k: Key) {
    row.event.StockChanged? && row.event.change.key == k
  }

  /** The StockChanged rows of one balance row. */
  function RowsOf(rows: seq<Row>, k: Key): seq<Row> {
    if rows == [] then []
    else
      var last := rows[|rows| - 1];
      RowsOf(rows[..|rows| - 1], k) + if Changes(last, k) then [last] else []
  }

  /** The history of one balance row: its StockChanged rows in commit order. */
  function History(log: seq<Entry>, k: Key): seq<Row> {
    RowsOf(AllRows(log), k)
  }

  function ChangeOf(row: Row): Change {
    if row.event.StockChanged? then row.event.change else Change(Key("", "", ""), 0, 0)
  }

  function ChangesOfRows(rows: seq<Row>): seq<Change> {
    seq(|rows|, i requires 0 <= i < |rows| => ChangeOf(rows[i]))
  }

  lemma ChangesOfRowsConcat(a: seq<Row>, b: seq<Row>)
    ensures ChangesOfRows(a + b) == ChangesOfRows(a) + ChangesOfRows(b)
  {
  }

  lemma {:induction false} RowsOfConcat(a: seq<Row>, b: seq<Row>, k: Key)
    ensures RowsOf(a + b, k) == RowsOf(a, k) + RowsOf(b, k)
  {
    if b == [] {
      assert a + b == a;
    } else {
      RowsOfConcat(a, b[..|b| - 1], k);
      assert (a + b)[..|a + b| - 1] == a + b[..|b| - 1];
    }
  }

  lemma {:induction false} RowsOfMembers(rows: seq<Row>, k: Key)
    ensures forall r :: r in RowsOf(rows, k) <==> r in rows && Changes(r, k)
  {
    if rows == [] {
    } else {
      var n := |rows| - 1;
      RowsOfMembers(rows[..n], k);
      assert rows == rows[..n] + [rows[n]];
    }
  }

  /** The rows of a confirm carry, for one balance row, exactly its changes in order. */
  lemma {:induction false} RowsCarryChanges(rows: seq<Row>, events: seq<Event>, k: Key)
    requires Carries(rows, events)
    ensures ChangesOfRows(RowsOf(rows, k)) == ChangesOf(ChangesIn(events), k)
  {
    if rows == [] {
    } else {
      var n := |rows| - 1;
      RowsCarryChanges(rows[..n], events[..n], k);
      var last := if Changes(rows[n], k) then [rows[n]] else [];
      var change := if events[n].StockChanged? then [events[n].change] else [];
      assert RowsOf(rows, k) == RowsOf(rows[..n], k) + last;
      assert ChangesIn(events) == ChangesIn(events[..n]) + change;
      ChangesOfRowsConcat(RowsOf(rows[..n], k), last);
      ChangesOfConcat(ChangesIn(events[..n]), change, k);
      if events[n].StockChanged? {
        ChangesOfOne(events[n].change, k);
      }
    }
  }

  // ---- Ledger and change chain -------------------------------------------------------------------

  /** The signed line quantities of all confirmed movements for one balance row. */
  function LedgerSum(log: seq<Entry>, k: Key): int {
    if log == [] then 0
    else
      var last := log[|log| - 1];
      LedgerSum(log[..|log| - 1], k) + if last.MovementConfirmed? then Net(last.m, last.m.lines, k) else 0
  }

  /** What the balance of one row owes to the confirms so far. */
  ghost predicate Accounted(log: seq<Entry>, b: Balances, k: Key) {
    && Quantity(b, k) == LedgerSum(log, k)
    && Chain(ChangesOfRows(History(log, k)), 0, Quantity(b, k))
    && (k in b <==> History(log, k) != [])
  }

  /** What a confirm that runs alone has established. */
  lemma ConfirmUnfolds(st: Serial, m: Movement, levels: seq<int>, rows: seq<Row>) returns (a: Applied)
    requires SerialStep(st, MovementConfirmed(m, levels, rows)).Success?
    ensures MovementOk(m) && ApplyStock(st.balances, m) == Success(a) && |levels| == |a.changes|
    ensures Carries(rows, MovementEvents(m, a.changes, levels))
    ensures m.id in st.movements && st.movements[m.id] == m && m.status == Draft
    ensures SerialStep(st, MovementConfirmed(m, levels, rows)).value ==
            Serial(st.movements[m.id := m.(status := Status.Confirmed)], a.balances, WithRows(st.outbox, rows))
  {
    a := ApplyStock(st.balances, m).value;
  }

  /** The StockChanged rows of a confirm are the changes applyStock recorded. */
  lemma ConfirmRows(b: Balances, m: Movement, a: Applied, levels: seq<int>, rows: seq<Row>, k: Key)
    requires InRange(b) && MovementOk(m) && ApplyStock(b, m) == Success(a) && |levels| == |a.changes|
    requires Carries(rows, MovementEvents(m, a.changes, levels))
    ensures ChangesOfRows(RowsOf(rows, k)) == ChangesOf(a.changes, k)
    ensures Chain(ChangesOfRows(RowsOf(rows, k)), Quantity(b, k), Quantity(a.balances, k))
    ensures RowsOf(rows, k) != [] <==> Touches(m, m.lines, k)
  {
    MovementEventsCarryChanges(m, a.changes, levels);
    RowsCarryChanges(rows, MovementEvents(m, a.changes, levels), k);
    ApplyLinesChain(b, m, m.lines, k);
    assert |ChangesOfRows(RowsOf(rows, k))| == |RowsOf(rows, k)|;
  }

  lemma ConfirmAccounts(log: seq<Entry>, b: Balances, m: Movement, a: Applied, levels: seq<int>, rows: seq<Row>, k: Key)
    requires InRange(b) && Accounted(log, b, k)
    requires MovementOk(m) && ApplyStock(b, m) == Success(a) && |levels| == |a.changes|
    requires Carries(rows, MovementEvents(m, a.changes, levels))
    ensures InRange(a.balances) && Accounted(log + [MovementConfirmed(m, levels, rows)], a.balances, k)
  {
    var log' := log + [MovementConfirmed(m, levels, rows)];
    assert log'[..|log|] == log;
    ApplyLinesExact(b, m, m.lines);
    ConfirmRows(b, m, a, levels, rows, k);
    RowsOfConcat(AllRows(log), rows, k);
    var before, now := History(log, k), RowsOf(rows, k);
    ChangesOfRowsConcat(before, now);
    ChainConcat(ChangesOfRows(before), ChangesOfRows(now), 0, Quantity(b, k), Quantity(a.balances, k));
    if k !in a.balances {
      NetOfUntouched(m, k);
    }
  }

  lemma NetOfUntouched(m: Movement, k: Key)
    requires LinesOk(m.lines) && !Touches(m, m.lines, k)
    ensures Net(m, m.lines, k) == 0
  {
    TotalNonNegative(m.lines, k.product);
  }

  /** Ledger: after any commits each balance is the signed sum of the lines of the confirmed movements and
      fits 0..2^31-1. Change chain: the StockChanged rows of a balance row start at 0, each starts where the
      previous ended, and the last ends at the balance. */
  lemma {:induction false} LedgerHolds(log: seq<Entry>, k: Key)
    requires SerialRun(log).Success?
    ensures InRange(SerialRun(log).value.balances)
    ensures Accounted(log, SerialRun(log).value.balances, k)
  {
    if log == [] {
    } else {
      var n := |log| - 1;
      LedgerHolds(log[..n], k);
      assert log == log[..n] + [log[n]];
      if log[n].MovementConfirmed? {
        var st, e := SerialRun(log[..n]).value, log[n];
        var a := ConfirmUnfolds(st, e.m, e.levels, e.rows);
        ConfirmAccounts(log[..n], st.balances, e.m, a, e.levels, e.rows, k);
      } else {
        assert AllRows(log) == AllRows(log[..n]);
      }
    }
  }

  /** No old or new quantity of any committed StockChanged row leaves int32. */
  lemma {:induction false} HistoryInRange(log: seq<Entry>, k: Key)
    requires SerialRun(log).Success?
    ensures ChangesInRange(ChangesOfRows(History(log, k)))
  {
    if log == [] {
    } else {
      var n := |log| - 1;
      HistoryInRange(log[..n], k);
      assert log == log[..n] + [log[n]];
      if log[n].MovementConfirmed? {
        var st, e := SerialRun(log[..n]).value, log[n];
        var a := ConfirmUnfolds(st, e.m, e.levels, e.rows);
        LedgerHolds(log[..n], k);
        ApplyLinesInRange(st.balances, e.m, e.m.lines);
        ChangesOfInRange(a.changes, k);
        ConfirmRows(st.balances, e.m, a, e.levels, e.rows, k);
        RowsOfConcat(AllRows(log[..n]), e.rows, k);
        ChangesOfRowsConcat(History(log[..n], k), RowsOf(e.rows, k));
      } else {
        assert AllRows(log) == AllRows(log[..n]);
      }
    }
  }

  lemma {:induction false} ChangesOfInRange(changes: seq<Change>, k: Key)
    requires ChangesInRange(changes)
    ensures ChangesInRange(ChangesOf(changes, k))
  {
    if changes == [] {
    } else {
      ChangesOfInRange(changes[..|changes| - 1], k);
    }
  }

  // ---- Life cycle ------------------------------------------------------------------------------------------

  predicate ConfirmAt(log: seq<Entry>, i: nat, id: Id) {
    i < |log| && log[i].MovementConfirmed? && log[i].m.id == id
  }

  ghost predicate IsConfirmed(ms: map<Id, Movement>, id: Id) {
    id in ms && ms[id].status == Status.Confirmed
  }

  lemma StepConfirms(st: Serial, e: Entry, id: Id)
    requires SerialStep(st, e).Success?
    ensures var confirms := e.MovementConfirmed? && e.m.id == id;
            && (IsConfirmed(SerialStep(st, e).value.movements, id) <==> IsConfirmed(st.movements, id) || confirms)
            && (confirms ==> !IsConfirmed(st.movements, id))
  {
    if e.MovementConfirmed? {
      var a := ConfirmUnfolds(st, e.m, e.levels, e.rows);
    }
  }

  /** A movement is confirmed exactly when the log confirms it. */
  lemma {:induction false} ConfirmedByLog(log: seq<Entry>, id: Id)
    requires SerialRun(log).Success?
    ensures IsConfirmed(SerialRun(log).value.movements, id) <==> exists i :: ConfirmAt(log, i, id)
  {
    if log == [] {
    } else {
      var n := |log| - 1;
      ConfirmedByLog(log[..n], id);
      StepConfirms(SerialRun(log[..n]).value, log[n], id);
      assert forall i: nat :: i < n ==> (ConfirmAt(log, i, id) <==> ConfirmAt(log[..n], i, id));
      if i :| ConfirmAt(log[..n], i, id) {
        assert ConfirmAt(log, i, id);
      }
      if i :| ConfirmAt(log, i, id) {
        assert i == n || ConfirmAt(log[..n], i, id);
      }
      if log[n].MovementConfirmed? && log[n].m.id == id {
        assert ConfirmAt(log, n, id);
      }
    }
  }

  /** The log confirms a movement at most once: with ConfirmedByLog, stock is applied exactly once per confirmed
      movement and never otherwise. */
  lemma {:induction false} ConfirmedOnce(log: seq<Entry>, i: nat, j: nat, id: Id)
    requires SerialRun(log).Success? && ConfirmAt(log, i, id) && ConfirmAt(log, j, id)
    ensures i == j
  {
    var n := |log| - 1;
    if i < n && j < n {
      ConfirmedOnce(log[..n], i, j, id);
    } else if i != j {
      var first := if i < j then i else j;
      assert ConfirmAt(log[..n], first, id);
      ConfirmedByLog(log[..n], id);
      StepConfirms(SerialRun(log[..n]).value, log[n], id);
    }
  }

  /** Statuses only go from draft to confirmed or cancelled and then never change. */
  ghost predicate StatusesAdvance(a: map<Id, Movement>, b: map<Id, Movement>) {
    forall id <- a :: id in b && (a[id].status == Draft || b[id].status == a[id].status)
  }

  lemma CommitAdvances(s: Sys, s': Sys, t: nat)
    requires Inv(s) && CommitStep(s, s', t)
    ensures StatusesAdvance(s.movements, s'.movements)
  {
    var x := s.txs[t];
    assert TxOk(s, x);
    assert s'.movements == s.movements[x.m.id := x.m.(status := Status.Confirmed)];
  }

  lemma StepAdvances(s: Sys, s': Sys)
    requires Inv(s) && Step(s, s')
    ensures StatusesAdvance(s.movements, s'.movements)
  {
    var a :| StepBy(s, s', a);
    match a
    case Create(m) => CreateAdvances(s, s', m);
    case AddLine(id, line) => AddLineAdvances(s, s', id, line);
    case Cancel(id) => CancelAdvances(s, s', id);
    case Commit(t) => CommitAdvances(s, s', t);
    case _ => SameMovements(s, s', a);
  }

  lemma CreateAdvances(s: Sys, s': Sys, m: Movement)
    requires CreateStep(s, s', m)
    ensures StatusesAdvance(s.movements, s'.movements)
  {
  }

  lemma AddLineAdvances(s: Sys, s': Sys, id: Id, line: Line)
    requires AddLineStep(s, s', id, line)
    ensures StatusesAdvance(s.movements, s'.movements)
  {
  }

  lemma CancelAdvances(s: Sys, s': Sys, id: Id)
    requires CancelStep(s, s', id)
    ensures StatusesAdvance(s.movements, s'.movements)
  {
  }

  lemma SameMovements(s: Sys, s': Sys, a: Action)
    requires StepBy(s, s', a) && (a.Begin? || a.Statement? || a.Lookup? || a.Insert? || a.Abort?)
    ensures s'.movements == s.movements
  {
  }

  lemma RunStepAdvances(run: seq<Sys>, j: nat)
    requires Run(run) && 0 < j < |run|
    ensures StatusesAdvance(run[j - 1].movements, run[j].movements)
  {
    RunKeeps(run, j - 1);
    StepAdvances(run[j - 1], run[j]);
  }

  lemma {:induction false} RunAdvances(run: seq<Sys>, i: nat, j: nat)
    requires Run(run) && i <= j < |run|
    ensures StatusesAdvance(run[i].movements, run[j].movements)
    decreases j - i
  {
    if i < j {
      RunAdvances(run, i, j - 1);
      RunStepAdvances(run, j);
      AdvanceTransitive(run[i].movements, run[j - 1].movements, run[j].movements);
    }
  }

  lemma AdvanceTransitive(a: map<Id, Movement>, b: map<Id, Movement>, c: map<Id, Movement>)
    requires StatusesAdvance(a, b) && StatusesAdvance(b, c)
    ensures StatusesAdvance(a, c)
  {
  }

  // ---- Lines inserted after the confirm ----------------------------------------------------------------------

  /** The lines of a movement that entry `i` of the log did not see. */
  function LateLines(log: seq<Entry>, i: nat, id: Id): seq<Line> {
    if |log| <= i + 1 then []
    else
      var last := log[|log| - 1];
      LateLines(log[..|log| - 1], i, id)
      + if last.LineAdded? && last.movement == id then [last.line] else []
  }

  /** Header and lines of a create are separate commits, so a confirm may come between them. The stored lines
      of a confirmed movement are the lines it applied followed by those that arrived later: they are the
      applied lines exactly when none did. */
  lemma {:induction false} StoredLines(log: seq<Entry>, i: nat, id: Id)
    requires SerialRun(log).Success? && ConfirmAt(log, i, id)
    ensures var ms := SerialRun(log).value.movements;
            && IsConfirmed(ms, id) && ms[id].lines == log[i].m.lines + LateLines(log, i, id)
            && (ms[id].lines == log[i].m.lines <==> LateLines(log, i, id) == [])
  {
    var n := |log| - 1;
    if i < n {
      StoredLines(log[..n], i, id);
      var st := SerialRun(log[..n]).value;
      StepConfirms(st, log[n], id);
      if log[n].MovementConfirmed? {
        var a := ConfirmUnfolds(st, log[n].m, log[n].levels, log[n].rows);
      }
    } else {
      var a := ConfirmUnfolds(SerialRun(log[..n]).value, log[n].m, log[n].levels, log[n].rows);
    }
  }

  lemma Extend(run: seq<Sys>, s: Sys, a: Action) returns (longer: seq<Sys>)
    requires Run(run) && StepBy(run[|run| - 1], s, a)
    ensures Run(longer) && longer[|longer| - 1] == s
  {
    longer := run + [s];
    forall i | 0 < i < |longer|
      ensures Step(longer[i - 1], longer[i])
    {
      if i == |run| {
        assert StepBy(longer[i - 1], longer[i], a);
      }
    }
  }

  lemma EmptyDraftIsInserted(m: Movement, y: Tx, event: Event) returns (run: seq<Sys>)
    requires m.status == Draft && m.lines == [] && WarehousesOk(m)
    requires y == Tx(m, 0, map[], [], Some([]), []) && EventsOf(y) == [event]
    ensures Run(run)
    ensures run[|run| - 1] ==
            Sys(map[m.id := m], map[], map[], 2, map[0 := y.(rows := y.rows + [Row(1, event)])], [MovementAdded(m)])
  {
    var s1 := EMPTY.(movements := map[m.id := m], log := [MovementAdded(m)]);
    var s2 := s1.(txs := map[0 := y.(levels := None)]);
    var s3 := s2.(txs := map[0 := y]);
    run := Extend([EMPTY], s1, Create(m));
    run := Extend(run, s2, Begin(0, m.id));
    run := Extend(run, s3, Lookup(0, []));
    run := Extend(run, s3.(txs := map[0 := y.(rows := y.rows + [Row(1, event)])], nextId := 2), Insert(0));
  }

  /** A draft whose header is committed and whose lines are not can be confirmed. */
  lemma EmptyDraftIsConfirmed(m: Movement) returns (run: seq<Sys>)
    requires m.status == Draft && m.lines == [] && WarehousesOk(m)
    ensures Run(run)
    ensures var s := run[|run| - 1];
            && s.movements == map[m.id := m.(status := Status.Confirmed)] && s.txs == map[]
            && |s.log| == 2 && ConfirmAt(s.log, 1, m.id)
  {
    var event := MovementCreated(m.tenant, m.id, m.kind, m.reference, 0);
    var y := Tx(m, 0, map[], [], Some([]), []);
    assert EventsOf(y) == [event];
    run := EmptyDraftIsInserted(m, y, event);
    var z := y.(rows := y.rows + [Row(1, event)]);
    assert EventsOf(z) == [event];
    var s := Sys(map[m.id := m.(status := Status.Confirmed)], map[], WithRows(map[], z.rows), 2, map[],
                 [MovementAdded(m), MovementConfirmed(m, [], z.rows)]);
    run := Extend(run, s, Commit(0));
  }

  /** A late line does happen: header, confirm of the empty draft, then the line of the same create. */
  lemma LateLineIsReachable(m: Movement, line: Line) returns (run: seq<Sys>)
    requires m.status == Draft && m.lines == [] && WarehousesOk(m) && 0 < line.quantity <= MAX_INT32
    ensures Run(run) && ConfirmAt(run[|run| - 1].log, 1, m.id)
    ensures LateLines(run[|run| - 1].log, 1, m.id) == [line]
  {
    var confirmed := EmptyDraftIsConfirmed(m);
    var s := confirmed[|confirmed| - 1];
    var row := s.movements[m.id];
    var s' := s.(movements := s.movements[m.id := row.(lines := row.lines + [line])],
        log := s.log + [LineAdded(m.id, line)]);
    run := Extend(confirmed, s', AddLine(m.id, line));
    assert s'.log[..2] == s.log && LateLines(s.log, 1, m.id) == [];
  }
}
