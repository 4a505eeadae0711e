/** ConfirmMovement and CancelMovement as concurrent transactions at READ COMMITTED, one step per locked
    read or write. Row locks taken by FOR UPDATE, by INSERT and by UPDATE are held to the end of the
    transaction; a waiter sees the latest committed row when the lock is released. */
module Transactions {
  import opened Common
  import opened Schema
  import opened Stock
  import opened StockLaws
  import opened Events
  import LockOrder

  // ---- Programs -----------------------------------------------------------------------------

  /** One statement against stock_balances: INSERT ON CONFLICT DO NOTHING with its locked read, a locked
      read, or the write of a locked row together with the change it records. */
  datatype Instr = Ensure(key: Key) | Lock(key: Key) | Add(key: Key, delta: int)

  function TransferLocks(src: Key, dst: Key): seq<Instr> {
    var (first, second) := LockOrder.OrderedWarehouseProduct(
      LockOrder.RowKey(src.warehouse, src.product), LockOrder.RowKey(dst.warehouse, dst.product));
    [Lock(Key(src.tenant, first.warehouse, first.product)), Lock(Key(src.tenant, second.warehouse, second.product))]
  }

  function LineProgram(m: Movement, line: Line): seq<Instr>
    requires WarehousesOk(m)
  {
    match (LoweredAt(m), RaisedAt(m))
    case (None, Some(dst)) =>
      var d := Key(m.tenant, dst, line.product);
      [Ensure(d), Add(d, line.quantity)]
    case (Some(src), None) =>
      var s := Key(m.tenant, src, line.product);
      [Lock(s), Add(s, -line.quantity)]
    case (Some(src), Some(dst)) =>
      var s, d := Key(m.tenant, src, line.product), Key(m.tenant, dst, line.product);
      [Ensure(d)] + TransferLocks(s, d) + [Add(s, -line.quantity), Add(d, line.quantity)]
  }

  function Program(m: Movement, lines: seq<Line>): seq<Instr>
    requires WarehousesOk(m)
  {
    if lines == [] then []
    else Program(m, lines[..|lines| - 1]) + LineProgram(m, lines[|lines| - 1])
  }

  /** A statement executed alone on a table. */
  function Exec(a: Applied, i: Instr): Result<Applied> {
    match i
    case Ensure(k) => Success(Applied(EnsureRow(a.balances, k), a.changes))
    case Lock(k) => if k in a.balances then Success(a) else Failure(Insufficient)
    case Add(k, delta) =>
      if k !in a.balances then Failure(Internal)
      else
        var q := a.balances[k];
        var b :- SetQuantity(a.balances, k, q + delta);
        Success(Applied(b, a.changes + [Change(k, q, q + delta)]))
  }

  function ExecAll(a: Applied, program: seq<Instr>): Result<Applied> {
    if program == [] then Success(a)
    else
      var before :- ExecAll(a, program[..|program| - 1]);
      Exec(before, program[|program| - 1])
  }

  lemma {:induction false} ExecConcat(a: Applied, p: seq<Instr>, q: seq<Instr>)
    ensures ExecAll(a, p + q) ==
            if ExecAll(a, p).Success? then ExecAll(ExecAll(a, p).value, q) else ExecAll(a, p)
  {
    if q == [] {
      assert p + q == p;
    } else {
      ExecConcat(a, p, q[..|q| - 1]);
      assert (p + q)[..|p + q| - 1] == p + q[..|q| - 1];
    }
  }

  lemma ExecTwo(a: Applied, i: Instr, j: Instr)
    ensures ExecAll(a, [i]) == Exec(a, i)
    ensures ExecAll(a, [i, j]) == if Exec(a, i).Success? then Exec(Exec(a, i).value, j) else Exec(a, i)
  {
    assert [i][..0] == [] && [i, j][..1] == [i];
  }

  lemma ExecTransferLocks(a: Applied, s: Key, d: Key)
    requires s.tenant == d.tenant && s.product == d.product && s.warehouse != d.warehouse
    ensures var r := ExecAll(a, TransferLocks(s, d));
            if s in a.balances && d in a.balances then r == Success(a) else r == Failure(Insufficient)
  {
    var locks := TransferLocks(s, d);
    assert locks == [locks[0], locks[1]];
    ExecTwo(a, locks[0], locks[1]);
  }

  lemma ExecMove(a: Applied, s: Key, d: Key, q: int)
    requires InRange(a.balances) && 0 < q <= MAX_INT32
    requires s.tenant == d.tenant && s.product == d.product && s.warehouse != d.warehouse
    ensures var r := ExecAll(a, [Ensure(d)] + TransferLocks(s, d) + [Add(s, -q), Add(d, q)]);
            && (r.Success? <==> Move(a.balances, s, d, q).Success?)
            && (r.Success? ==> r.value == Applied(Move(a.balances, s, d, q).value.balances,
                                                  a.changes + Move(a.balances, s, d, q).value.changes))
  {
    MoveExact(a.balances, s, d, q);
    var ensured := Applied(EnsureRow(a.balances, d), a.changes);
    ExecConcat(a, [Ensure(d)], TransferLocks(s, d));
    ExecConcat(a, [Ensure(d)] + TransferLocks(s, d), [Add(s, -q), Add(d, q)]);
    ExecTwo(a, Ensure(d), Ensure(d));
    ExecTransferLocks(ensured, s, d);
    ExecTwo(ensured, Add(s, -q), Add(d, q));
  }

  lemma ExecLine(a: Applied, m: Movement, line: Line)
    requires WarehousesOk(m) && InRange(a.balances) && 0 < line.quantity <= MAX_INT32
    ensures var r := ExecAll(a, LineProgram(m, line));
            && (r.Success? <==> ApplyLine(a.balances, m, line).Success?)
            && (r.Success? ==> r.value == Applied(ApplyLine(a.balances, m, line).value.balances,
                                                  a.changes + ApplyLine(a.balances, m, line).value.changes))
  {
    match (LoweredAt(m), RaisedAt(m))
    case (None, Some(dst)) =>
      var d := Key(m.tenant, dst, line.product);
      RaiseExact(a.balances, d, line.quantity);
      ExecTwo(a, Ensure(d), Add(d, line.quantity));
    case (Some(src), None) =>
      var s := Key(m.tenant, src, line.product);
      LowerExact(a.balances, s, line.quantity);
      ExecTwo(a, Lock(s), Add(s, -line.quantity));
    case (Some(src), Some(dst)) =>
      ExecMove(a, Key(m.tenant, src, line.product), Key(m.tenant, dst, line.product), line.quantity);
  }

  /** Running the statements of a movement alone is applyStock. */
  lemma {:induction false} ProgramIsApplyStock(b: Balances, m: Movement, lines: seq<Line>)
    requires WarehousesOk(m) && InRange(b) && LinesOk(lines)
    ensures ExecAll(Applied(b, []), Program(m, lines)).Success? <==> ApplyLines(b, m, lines).Success?
    ensures ApplyLines(b, m, lines).Success? ==> ExecAll(Applied(b, []), Program(m, lines)) == ApplyLines(b, m, lines)
  {
    if lines == [] {
    } else {
      var n := |lines| - 1;
      ProgramIsApplyStock(b, m, lines[..n]);
      ApplyLinesExact(b, m, lines[..n]);
      ExecConcat(Applied(b, []), Program(m, lines[..n]), LineProgram(m, lines[n]));
      if ApplyLines(b, m, lines[..n]).Success? {
        ExecLine(ApplyLines(b, m, lines[..n]).value, m, lines[n]);
      }
    }
  }

  // ---- The concurrent system ---------------------------------------------------------------------

  /** One ConfirmMovement transaction: the draft it locked, how far it is, its locked rows with their
      uncommitted quantities, the changes recorded, the reorder levels looked up for them and the outbox rows
      inserted so far. */
  datatype Tx = Tx(
    m: Movement,
    pc: nat,
    view: Balances,
    changes: seq<Change>,
    levels: Option<seq<int>>,
    rows: seq<Row>)

  /** What the commits did, in commit order. */
  datatype Entry =
    | MovementAdded(m: Movement)
    | LineAdded(movement: Id, line: Line)
    | MovementCancelled(movement: Id)
    | MovementConfirmed(m: Movement, levels: seq<int>, rows: seq<Row>)

  datatype Sys = Sys(
    movements: map<Id, Movement>,
    balances: Balances,
    outbox: map<nat, Event>,
    nextId: nat,
    txs: map<nat, Tx>,
    log: seq<Entry>)

  const EMPTY := Sys(map[], map[], map[], 1, map[], [])

  /** The outbox events a transaction inserts, once its lookups are done. */
  function EventsOf(x: Tx): seq<Event> {
    if x.levels.Some? && |x.levels.value| == |x.changes| then MovementEvents(x.m, x.changes, x.levels.value) else []
  }

  /** Some transaction holds the lock of the movement row. */
  ghost predicate MovementHeld(s: Sys, id: Id) {
    exists t <- s.txs :: s.txs[t].m.id == id
  }

  /** Some other transaction holds the lock of the balance row. */
  ghost predicate HeldByOther(s: Sys, t: nat, k: Key) {
    exists u <- s.txs :: u != t && k in s.txs[u].view
  }

  /** The uncommitted quantity under which a newly locked row enters the view. */
  function Locked(s: Sys, view: Balances, k: Key): Balances {
    if k in view then view else view[k := Quantity(s.balances, k)]
  }

  /** No unique constraint refuses the header: the id, and within the tenant the reference and the idempotency key. */
  ghost predicate IsNew(ms: map<Id, Movement>, m: Movement) {
    && m.id !in ms
    && forall o <- ms :: ms[o].tenant == m.tenant ==>
      ms[o].reference != m.reference && (m.idempotencyKey.Some? ==> ms[o].idempotencyKey != m.idempotencyKey)
  }

  ghost predicate CreateStep(s: Sys, s': Sys, m: Movement) {
    && IsNew(s.movements, m) && m.status == Draft && m.lines == [] && WarehousesOk(m)
    && s' == s.(movements := s.movements[m.id := m], log := s.log + [MovementAdded(m)])
  }

  /** The foreign key of a line takes a share lock on its movement, so it waits for a confirm in progress. */
  ghost predicate AddLineStep(s: Sys, s': Sys, id: Id, line: Line) {
    && id in s.movements && !MovementHeld(s, id) && 0 < line.quantity <= MAX_INT32
    && var m := s.movements[id];
       s' == s.(movements := s.movements[id := m.(lines := m.lines + [line])], log := s.log + [LineAdded(id, line)])
  }

  /** CancelMovement: the compare-and-set waits for a confirm in progress and then tests the latest status. */
  ghost predicate CancelStep(s: Sys, s': Sys, id: Id) {
    && id in s.movements && !MovementHeld(s, id) && s.movements[id].status == Draft
    && s' == s.(movements := s.movements[id := s.movements[id].(status := Status.Cancelled)],
                log := s.log + [MovementCancelled(id)])
  }

  /** GetByIDForUpdate of a draft. */
  ghost predicate BeginStep(s: Sys, s': Sys, t: nat, id: Id) {
    && t !in s.txs && id in s.movements && !MovementHeld(s, id) && s.movements[id].status == Draft
    && s' == s.(txs := s.txs[t := Tx(s.movements[id], 0, map[], [], None, [])])
  }

  /** The effect of the next statement on the transaction, when it can run and succeeds. */
  ghost predicate StatementStep(s: Sys, s': Sys, t: nat) {
    && t in s.txs && WarehousesOk(s.txs[t].m)
    && var x := s.txs[t];
       var program := Program(x.m, x.m.lines);
       && x.pc < |program|
       && !HeldByOther(s, t, program[x.pc].key)
       && match program[x.pc]
          case Ensure(k) =>
            s' == s.(txs := s.txs[t := x.(pc := x.pc + 1, view := Locked(s, x.view, k))])
          case Lock(k) =>
            && (k in x.view || k in s.balances)
            && s' == s.(txs := s.txs[t := x.(pc := x.pc + 1, view := Locked(s, x.view, k))])
          case Add(k, delta) =>
            && k in x.view && 0 <= x.view[k] + delta <= MAX_INT32
            && s' == s.(txs := s.txs[t := x.(pc := x.pc + 1,
                                              view := x.view[k := x.view[k] + delta],
                                              changes := x.changes + [Change(k, x.view[k], x.view[k] + delta)])])
  }

  /** The product lookups, outside the transaction, find one reorder level per change. */
  ghost predicate LookupStep(s: Sys, s': Sys, t: nat, levels: seq<int>) {
    && t in s.txs && WarehousesOk(s.txs[t].m)
    && var x := s.txs[t];
       && x.pc == |Program(x.m, x.m.lines)| && x.levels == None && |levels| == |x.changes|
       && s' == s.(txs := s.txs[t := x.(levels := Some(levels))])
  }

  /** One outbox INSERT. The id comes from the sequence at once and is not given back on rollback. */
  ghost predicate InsertStep(s: Sys, s': Sys, t: nat) {
    && t in s.txs
    && var x := s.txs[t];
       && |x.rows| < |EventsOf(x)|
       && s' == s.(txs := s.txs[t := x.(rows := x.rows + [Row(s.nextId, EventsOf(x)[|x.rows|])])],
                   nextId := s.nextId + 1)
  }

  function WithRows(outbox: map<nat, Event>, rows: seq<Row>): map<nat, Event> {
    if rows == [] then outbox
    else
      var last := rows[|rows| - 1];
      WithRows(outbox, rows[..|rows| - 1])[last.id := last.event]
  }

  ghost predicate CommitStep(s: Sys, s': Sys, t: nat) {
    && t in s.txs && s.txs[t].levels.Some? && s.txs[t].m.id in s.movements
    && var x := s.txs[t];
       && |x.rows| == |EventsOf(x)|
       && s' == s.(movements := s.movements[x.m.id := s.movements[x.m.id].(status := Status.Confirmed)],
                   balances := s.balances + x.view,
                   outbox := WithRows(s.outbox, x.rows),
                   txs := s.txs - {t},
                   log := s.log + [MovementConfirmed(x.m, x.levels.value, x.rows)])
  }

  /** A failed check, a refused statement, a deadlock victim, a lost connection: everything uncommitted goes. */
  ghost predicate AbortStep(s: Sys, s': Sys, t: nat) {
    t in s.txs && s' == s.(txs := s.txs - {t})
  }

  datatype Action =
    | Create(m: Movement)
    | AddLine(id: Id, line: Line)
    | Cancel(id: Id)
    | Begin(t: nat, id: Id)
    | Statement(t: nat)
    | Lookup(t: nat, levels: seq<int>)
    | Insert(t: nat)
    | Commit(t: nat)
    | Abort(t: nat)

  ghost predicate StepBy(s: Sys, s': Sys, a: Action) {
    match a
    case Create(m) => CreateStep(s, s', m)
    case AddLine(id, line) => AddLineStep(s, s', id, line)
    case Cancel(id) => CancelStep(s, s', id)
    case Begin(t, id) => BeginStep(s, s', t, id)
    case Statement(t) => StatementStep(s, s', t)
    case Lookup(t, levels) => LookupStep(s, s', t, levels)
    case Insert(t) => InsertStep(s, s', t)
    case Commit(t) => CommitStep(s, s', t)
    case Abort(t) => AbortStep(s, s', t)
  }

  ghost predicate Step(s: Sys, s': Sys) {
    exists a :: StepBy(s, s', a)
  }

  ghost predicate Run(run: seq<Sys>) {
    && run != [] && run[0] == EMPTY
    && forall i :: 0 < i < |run| ==> Step(run[i - 1], run[i])
  }
}
