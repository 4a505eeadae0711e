/** When two confirms deadlock: each waits for a balance row that the other has locked
    (services/inventory/domains/movement/usecase/stock_apply.go). */
module ConfirmDeadlock {
  import opened Common
  import opened Schema
  import opened Stock
  import opened StockLaws
  import opened Transactions
  import opened Serializability
  import opened Ledger
  import opened LockPlan
  import opened Reachability
  import Deadlock
  import LockOrder
  import MovementRepository

  // ---- The rows a program locks -----------------------------------------------------------------

  function KeySeq(program: seq<Instr>): seq<Key> {
    seq(|program|, i requires 0 <= i < |program| => program[i].key)
  }

  /** The rows a program locks, in the order of their first use. */
  function Uses(program: seq<Instr>): seq<Key> {
    LockRows([], KeySeq(program))
  }

  lemma KeySeqConcat(p: seq<Instr>, q: seq<Instr>)
    ensures KeySeq(p + q) == KeySeq(p) + KeySeq(q)
  {
  }

  lemma UsedKeys(program: seq<Instr>, k: Key)
    ensures k in Uses(program) <==> k in KeysOf(program)
  {
    LockedRows([], KeySeq(program), k);
    if k in KeySeq(program) {
      var i :| 0 <= i < |program| && KeySeq(program)[i] == k;
      assert program[i].key == k;
    }
    if k in KeysOf(program) {
      var i :| 0 <= i < |program| && program[i].key == k;
      assert KeySeq(program)[i] == k;
    }
  }

  lemma TransferLineUses(s: Key, d: Key, q: int, held: seq<Key>)
    requires s.tenant == d.tenant && s.product == d.product && s.warehouse != d.warehouse
    ensures LockRows(held, KeySeq([Ensure(d)] + TransferLocks(s, d) + [Add(s, -q), Add(d, q)])) ==
            LockRows(held, [d, s])
  {
    var p := [Ensure(d)] + TransferLocks(s, d) + [Add(s, -q), Add(d, q)];
    assert KeySeq(p) == [d] + TransferRows(s, d) + [s, d];
    LockOne(held, d);
    LockConcat(held, [d], TransferRows(s, d));
    LockConcat(held, [d] + TransferRows(s, d), [s, d]);
    LockedAll(LockRow(held, d), TransferRows(s, d));
    TransferLineLocks(held, s, d, LockRows(LockRow(held, d), TransferRows(s, d)));
    LockHeld(LockRows(held, [d, s]), [s, d]);
  }

  lemma OneRowUses(k: Key, p: seq<Instr>, held: seq<Key>)
    requires |p| == 2 && p[0].key == k && p[1].key == k
    ensures LockRows(held, KeySeq(p)) == LockRows(held, [k])
  {
    assert KeySeq(p) == [k, k];
    LockTwo(held, k, k);
    LockOne(held, k);
  }

  /** The statements of a line lock the rows of its product. */
  lemma LineUses(m: Movement, line: Line, held: seq<Key>)
    requires WarehousesOk(m)
    ensures LockRows(held, KeySeq(LineProgram(m, line))) == LockRows(held, LineRows(m, line.product))
  {
    match (LoweredAt(m), RaisedAt(m))
    case (Some(src), Some(dst)) =>
      TransferLineUses(Key(m.tenant, src, line.product), Key(m.tenant, dst, line.product), line.quantity, held);
      assert LineRows(m, line.product) == [Key(m.tenant, dst, line.product), Key(m.tenant, src, line.product)];
    case (Some(w), None) =>
      OneRowUses(Key(m.tenant, w, line.product), LineProgram(m, line), held);
      assert LineRows(m, line.product) == [Key(m.tenant, w, line.product)];
    case (None, Some(w)) =>
      OneRowUses(Key(m.tenant, w, line.product), LineProgram(m, line), held);
      assert LineRows(m, line.product) == [Key(m.tenant, w, line.product)];
  }

  /** The statements of a movement lock the rows of its plan in that order, as applyStock does. */
  lemma {:induction false} UsesArePlanned(m: Movement, lines: seq<Line>)
    requires WarehousesOk(m)
    ensures Uses(Program(m, lines)) == LockRows([], RowsOfLines(m, lines))
  {
    if lines == [] {
    } else {
      var n := |lines| - 1;
      var before, line := Program(m, lines[..n]), LineProgram(m, lines[n]);
      UsesArePlanned(m, lines[..n]);
      KeySeqConcat(before, line);
      LockConcat([], KeySeq(before), KeySeq(line));
      LineUses(m, lines[n], Uses(before));
      LockConcat([], RowsOfLines(m, lines[..n]), LineRows(m, lines[n].product));
    }
  }

  lemma {:induction false} FirstProductsNamed(lines: seq<Line>, p: Id)
    ensures p in FirstProducts(lines) <==> Names(lines, p)
  {
    if lines == [] {
    } else {
      FirstProductsNamed(lines[..|lines| - 1], p);
      NamesSplit(lines, p);
    }
  }

  /** The rows that statements use are the rows that the lines touch. */
  lemma UsedIsTouched(m: Movement, lines: seq<Line>, k: Key)
    requires WarehousesOk(m)
    ensures k in KeysOf(Program(m, lines)) <==> Touches(m, lines, k)
  {
    UsedKeys(Program(m, lines), k);
    UsesArePlanned(m, lines);
    PlanIsByProduct(m, lines);
    RowsOfProductsMembers(m, FirstProducts(lines), k);
    FirstProductsNamed(lines, k.product);
  }

  /** Some statement locks row `i` of the plan, and those before it lock the rows before. */
  lemma {:induction false} UseAt(ks: seq<Key>, i: nat) returns (n: nat)
    requires i < |LockRows([], ks)|
    ensures n < |ks| && ks[n] == LockRows([], ks)[i] && LockRows([], ks[..n]) == LockRows([], ks)[..i]
  {
    var last := |ks| - 1;
    var before := LockRows([], ks[..last]);
    if i < |before| {
      n := UseAt(ks[..last], i);
      assert ks[..last][..n] == ks[..n];
      assert LockRows([], ks)[..i] == before[..i];
    } else {
      n := last;
      assert LockRows([], ks)[..i] == before;
    }
  }

  // ---- How far a confirm gets ----------------------------------------------------------------------

  /** The first line that names a product. */
  function FirstLine(lines: seq<Line>, p: Id): (n: nat)
    ensures n <= |lines| && (n < |lines| ==> lines[n].product == p)
    ensures forall i :: 0 <= i < n ==> lines[i].product != p
  {
    if lines == [] || lines[0].product == p then 0 else 1 + FirstLine(lines[1..], p)
  }

  lemma FirstLineNames(lines: seq<Line>, p: Id, l: nat)
    requires l <= |lines|
    ensures FirstLine(lines, p) < l <==> Names(lines[..l], p)
  {
    var n := FirstLine(lines, p);
    if n < l {
      assert lines[..l][n].product == p;
    }
  }

  /** The lines that have succeeded before a row of the product is locked. */
  function LinesBefore(lines: seq<Line>, p: Id): seq<Line> {
    lines[..FirstLine(lines, p)]
  }

  ghost predicate TotalsFit(lines: seq<Line>) {
    forall p :: Names(lines, p) ==> Total(lines, p) <= MAX_INT32
  }

  /** Lines can succeed on some table exactly when no product's total exceeds the quantity column. */
  lemma TotalsFitSomeTable(m: Movement, lines: seq<Line>)
    requires WarehousesOk(m) && LinesOk(lines)
    ensures TotalsFit(lines) <==> exists b :: InRange(b) && ApplyLines(b, m, lines).Success?
  {
    if b :| InRange(b) && ApplyLines(b, m, lines).Success? {
      FittingTotals(b, m, lines);
    }
    if TotalsFit(lines) {
      var b := map k <- KeysOf(Program(m, lines)) :: Needed(m, lines, k);
      forall k <- b
        ensures 0 <= b[k] <= MAX_INT32
      {
        NeededInRange(m, lines, k);
      }
      forall p | Names(lines, p)
        ensures LoweredAt(m).Some? ==> Total(lines, p) <= Quantity(b, Key(m.tenant, LoweredAt(m).value, p))
        ensures RaisedAt(m).Some? ==> Quantity(b, Key(m.tenant, RaisedAt(m).value, p)) == 0
      {
        if LoweredAt(m).Some? {
          UsedIsTouched(m, lines, Key(m.tenant, LoweredAt(m).value, p));
        }
      }
      ApplyLinesExact(b, m, lines);
    }
  }

  lemma FittingTotals(b: Balances, m: Movement, lines: seq<Line>)
    requires WarehousesOk(m) && LinesOk(lines) && InRange(b) && ApplyLines(b, m, lines).Success?
    ensures TotalsFit(lines)
  {
    ApplyLinesExact(b, m, lines);
  }

  /** What a row must hold for some lines to lower it. */
  function Needed(m: Movement, lines: seq<Line>, k: Key): int {
    if k.tenant == m.tenant && LoweredAt(m) == Some(k.warehouse) then Total(lines, k.product) else 0
  }

  lemma NeededInRange(m: Movement, lines: seq<Line>, k: Key)
    requires LinesOk(lines) && TotalsFit(lines)
    ensures 0 <= Needed(m, lines, k) <= MAX_INT32
    ensures Needed(m, lines, k) != 0 ==> Touches(m, lines, k)
  {
    TotalNonNegative(lines, k.product);
  }

  lemma {:induction false} TotalsFitPrefix(lines: seq<Line>, n: nat)
    requires LinesOk(lines) && TotalsFit(lines) && n <= |lines|
    ensures TotalsFit(lines[..n])
  {
    if n == |lines| {
      assert lines[..n] == lines;
    } else {
      var init := lines[..|lines| - 1];
      forall p | Names(init, p)
        ensures Total(init, p) <= MAX_INT32
      {
        NamesSplit(lines, p);
      }
      TotalsFitPrefix(init, n);
      assert init[..n] == lines[..n];
    }
  }

  /** A confirm can get to its row `i`: the lines before the first one of that row's product can succeed. */
  ghost predicate GetsTo(m: Movement, i: nat) {
    i < |Plan(m)| && TotalsFit(LinesBefore(m.lines, Plan(m)[i].product))
  }

  /** The lines before the first one of the next statement's product have succeeded. */
  lemma LinesBeforeFit(s: Sys, x: Tx)
    requires TxOk(s, x) && InRange(s.balances) && x.pc < |Program(x.m, x.m.lines)|
    ensures TotalsFit(LinesBefore(x.m.lines, StatementAt(x, x.pc).key.product))
  {
    var l, o := StatementOfLine(x.m, x.m.lines, x.pc);
    LineKeys(x.m, x.m.lines[l], o);
    LinesHaveRun(s.balances, x.m, Program(x.m, x.m.lines)[..x.pc], l);
    var n := FirstLine(x.m.lines, StatementAt(x, x.pc).key.product);
    TotalsFitPrefix(x.m.lines[..l], n);
    assert x.m.lines[..l][..n] == x.m.lines[..n];
  }

  /** A transaction about to lock a new row has locked its plan up to there. */
  lemma LocksFollowPlan(s: Sys, x: Tx) returns (i: nat)
    requires TxOk(s, x) && InRange(s.balances) && x.pc < |Program(x.m, x.m.lines)|
    requires StatementAt(x, x.pc).key !in x.view
    ensures GetsTo(x.m, i) && Plan(x.m)[i] == StatementAt(x, x.pc).key
    ensures forall k :: k in Plan(x.m)[..i] <==> k in x.view
  {
    var program := Program(x.m, x.m.lines);
    i := |Uses(program[..x.pc])|;
    NextIsPlanned(x.m, program, x.pc);
    forall r ensures r in Plan(x.m)[..i] <==> r in x.view { UsedKeys(program[..x.pc], r); }
    LinesBeforeFit(s, x);
  }

  lemma NextLock(ks: seq<Key>, n: nat)
    requires n < |ks| && ks[n] !in LockRows([], ks[..n])
    ensures var held, all := LockRows([], ks[..n]), LockRows([], ks);
            |held| < |all| && all[|held|] == ks[n] && all[..|held|] == held
  {
    LockNext([], ks, n);
    LocksGrow([], ks, n + 1);
  }

  lemma NextIsPlanned(m: Movement, program: seq<Instr>, pc: nat)
    requires WarehousesOk(m) && program == Program(m, m.lines) && pc < |program|
    requires program[pc].key !in KeysOf(program[..pc])
    ensures var i := |Uses(program[..pc])|;
            i < |Plan(m)| && Plan(m)[i] == program[pc].key && Plan(m)[..i] == Uses(program[..pc])
  {
    var ks := KeySeq(program);
    UsesArePlanned(m, m.lines);
    UsedKeys(program[..pc], program[pc].key);
    assert KeySeq(program[..pc]) == ks[..pc];
    NextLock(ks, pc);
  }

  lemma LineKeys(m: Movement, line: Line, o: nat)
    requires WarehousesOk(m) && o < |LineProgram(m, line)|
    ensures LineProgram(m, line)[o].key.product == line.product && Involves(m, LineProgram(m, line)[o].key)
  {
  }

  lemma LinesHaveRun(b: Balances, m: Movement, done: seq<Instr>, l: nat)
    requires MovementOk(m) && InRange(b) && l <= |m.lines|
    requires Program(m, m.lines[..l]) <= done && ExecAll(Applied(b, []), done).Success?
    ensures TotalsFit(m.lines[..l])
  {
    var p := Program(m, m.lines[..l]);
    assert done == p + done[|p|..];
    ExecConcat(Applied(b, []), p, done[|p|..]);
    ProgramIsApplyStock(b, m, m.lines[..l]);
    FittingTotals(b, m, m.lines[..l]);
  }

  // ---- Stopping before a row ---------------------------------------------------------------------------

  /** Where a confirm stands that is about to lock row `i` of its plan: the lines before have run, and of the next one
      only locks. */
  ghost predicate StandsAt(m: Movement, i: nat, pc: nat)
    requires WarehousesOk(m)
  {
    var program := Program(m, m.lines);
    && i < |Plan(m)| && pc < |program| && program[pc].key == Plan(m)[i] && !program[pc].Add?
    && Uses(program[..pc]) == Plan(m)[..i]
    && var p := Program(m, LinesBefore(m.lines, Plan(m)[i].product));
       p <= program[..pc] && forall q :: |p| <= q < pc ==> !program[q].Add?
  }

  lemma PlanIsDistinct(m: Movement, i: nat)
    requires i < |Plan(m)|
    ensures Plan(m)[i] !in Plan(m)[..i]
  {
    LocksAreDistinct([], RowsOfLines(m, m.lines));
  }

  /** The row is first used in the first line of its product. */
  lemma FirstUseIsInFirstLine(m: Movement, pc: nat, l: nat, o: nat)
    requires WarehousesOk(m) && l < |m.lines| && o < |LineProgram(m, m.lines[l])|
    requires pc < |Program(m, m.lines)| && Program(m, m.lines)[pc] == LineProgram(m, m.lines[l])[o]
    requires Program(m, m.lines[..l]) <= Program(m, m.lines)[..pc]
    requires Program(m, m.lines)[pc].key !in KeysOf(Program(m, m.lines)[..pc])
    ensures m.lines[..l] == LinesBefore(m.lines, Program(m, m.lines)[pc].key.product)
  {
    var k := Program(m, m.lines)[pc].key;
    LineKeys(m, m.lines[l], o);
    KeysOfPrefix(Program(m, m.lines[..l]), Program(m, m.lines)[..pc]);
    UsedIsTouched(m, m.lines[..l], k);
    FirstLineNames(m.lines, k.product, l);
  }

  lemma NoAddBefore(m: Movement, line: Line, o: nat, q: nat)
    requires WarehousesOk(m) && q <= o < |LineProgram(m, line)|
    requires LineProgram(m, line)[o].key !in KeysOf(LineProgram(m, line)[..o])
    ensures !LineProgram(m, line)[q].Add?
  {
    var p := LineProgram(m, line);
    KeyUsed(p, o);
    KeysOfPrefix(p[..q], p[..o]);
    if p[q].Add? {
      LineLocksFirst(m, line, q);
    }
  }

  lemma StopAt(m: Movement, i: nat) returns (pc: nat)
    requires WarehousesOk(m) && i < |Plan(m)|
    ensures StandsAt(m, i, pc)
  {
    var program := Program(m, m.lines);
    UsesArePlanned(m, m.lines);
    pc := UseAt(KeySeq(program), i);
    assert KeySeq(program)[..pc] == KeySeq(program[..pc]);
    PlanIsDistinct(m, i);
    UsedKeys(program[..pc], program[pc].key);
    var l, o := StatementOfLine(m, m.lines, pc);
    FirstUseIsInFirstLine(m, pc, l, o);
    NoAddsSince(m, pc, l, o);
  }

  lemma NoAddsSince(m: Movement, pc: nat, l: nat, o: nat)
    requires WarehousesOk(m) && pc < |Program(m, m.lines)| && l < |m.lines| && o < |LineProgram(m, m.lines[l])|
    requires Program(m, m.lines)[pc] == LineProgram(m, m.lines[l])[o]
    requires Program(m, m.lines)[..pc] == Program(m, m.lines[..l]) + LineProgram(m, m.lines[l])[..o]
    requires Program(m, m.lines)[pc].key !in KeysOf(Program(m, m.lines)[..pc])
    ensures forall q :: |Program(m, m.lines[..l])| <= q <= pc ==> !Program(m, m.lines)[q].Add?
  {
    var program, p, line := Program(m, m.lines), Program(m, m.lines[..l]), LineProgram(m, m.lines[l]);
    KeysOfConcat(p, line[..o]);
    forall q | |p| <= q <= pc
      ensures !program[q].Add?
    {
      NoAddBefore(m, m.lines[l], o, q - |p|);
      assert q < pc ==> program[q] == program[..pc][q] == line[..o][q - |p|];
    }
  }

  lemma {:induction false} LocksOnlySucceed(a: Applied, p: seq<Instr>)
    requires forall i :: 0 <= i < |p| ==> !p[i].Add? && p[i].key in a.balances
    ensures ExecAll(a, p) == Success(a)
  {
    if p == [] {
    } else {
      LocksOnlySucceed(a, p[..|p| - 1]);
    }
  }

  /** A table with every row of the plan and enough for the lines before lets the confirm get there. */
  lemma StopIsReached(b: Balances, m: Movement, i: nat, pc: nat)
    requires MovementOk(m) && InRange(b) && StandsAt(m, i, pc)
    requires Fits(b, m, LinesBefore(m.lines, Plan(m)[i].product)) && forall k <- Plan(m) :: k in b
    ensures ExecAll(Applied(b, []), Program(m, m.lines)[..pc]).Success?
  {
    var lines, program := LinesBefore(m.lines, Plan(m)[i].product), Program(m, m.lines);
    var p := Program(m, lines);
    var rest := program[..pc][|p|..];
    assert program[..pc] == p + rest;
    ProgramIsApplyStock(b, m, lines);
    ApplyLinesExact(b, m, lines);
    ExecConcat(Applied(b, []), p, rest);
    var a := ApplyLines(b, m, lines).value;
    forall q | 0 <= q < |rest|
      ensures !rest[q].Add? && rest[q].key in a.balances
    {
      assert rest[q] == program[|p| + q];
      KeyUsed(program, |p| + q);
      UsedKeys(program, rest[q].key);
      UsesArePlanned(m, m.lines);
    }
    LocksOnlySucceed(a, rest);
  }

  /** The rows of the lines before are locked by then. */
  lemma RowsBeforeAreHeld(m: Movement, i: nat, pc: nat, k: Key)
    requires WarehousesOk(m) && StandsAt(m, i, pc)
    requires Touches(m, LinesBefore(m.lines, Plan(m)[i].product), k)
    ensures k in Plan(m)[..i]
  {
    var lines, done := LinesBefore(m.lines, Plan(m)[i].product), Program(m, m.lines)[..pc];
    UsedIsTouched(m, lines, k);
    KeysOfPrefix(Program(m, lines), done);
    UsedKeys(done, k);
  }

  // ---- Deadlocks -------------------------------------------------------------------------------------

  /** The next statement of `t` has to wait for `u`: its row is locked by `u`. A locked read does not wait for a row
      that only `u` has inserted, since it does not see it, but an insert does. */
  ghost predicate Waits(s: Sys, t: nat, u: nat) {
    && t in s.txs && u in s.txs && t != u && WarehousesOk(s.txs[t].m)
    && s.txs[t].pc < |Program(s.txs[t].m, s.txs[t].m.lines)|
    && var i := StatementAt(s.txs[t], s.txs[t].pc);
       i.key in s.txs[u].view && (i.Ensure? || i.key in s.balances)
  }

  ghost predicate Deadlocked(s: Sys, t: nat, u: nat) {
    Waits(s, t, u) && Waits(s, u, t)
  }

  /** The transaction that a step belongs to. */
  predicate IsOf(a: Action, t: nat) {
    match a
    case Begin(u, _) => t == u
    case Statement(u) => t == u
    case Lookup(u, _) => t == u
    case Insert(u) => t == u
    case Commit(u) => t == u
    case Abort(u) => t == u
    case _ => false
  }

  /** Nothing that happens ends a deadlock but the abort of one of the two. */
  lemma DeadlockStays(s: Sys, s': Sys, a: Action, t: nat, u: nat)
    requires Inv(s) && Deadlocked(s, t, u) && StepBy(s, s', a)
    ensures Deadlocked(s', t, u) || a == Abort(t) || a == Abort(u)
  {
    if IsOf(a, t) {
      WaiterIsStuck(s, s', a, t, u);
    } else if IsOf(a, u) {
      WaiterIsStuck(s, s', a, u, t);
    } else {
      WaiterStays(s, s', a, t, u);
      WaiterStays(s, s', a, u, t);
    }
  }

  /** A waiting transaction cannot go on. */
  lemma WaiterIsStuck(s: Sys, s': Sys, a: Action, t: nat, u: nat)
    requires Inv(s) && Waits(s, t, u) && StepBy(s, s', a) && IsOf(a, t)
    ensures a == Abort(t)
  {
    var x := s.txs[t];
    assert TxOk(s, x);
    assert HeldByOther(s, t, StatementAt(x, x.pc).key);
    assert EventsOf(x) == [];
  }

  lemma WaiterStays(s: Sys, s': Sys, a: Action, t: nat, u: nat)
    requires Waits(s, t, u) && StepBy(s, s', a) && !IsOf(a, t) && !IsOf(a, u)
    ensures Waits(s', t, u)
  {
    OtherTxStays(s, s', a, t);
    OtherTxStays(s, s', a, u);
  }

  lemma OtherTxStays(s: Sys, s': Sys, a: Action, t: nat)
    requires StepBy(s, s', a) && !IsOf(a, t) && t in s.txs
    ensures t in s'.txs && s'.txs[t] == s.txs[t] && s.balances.Keys <= s'.balances.Keys
  {
    match a
    case Statement(u) => assert s' == s.(txs := s.txs[u := s'.txs[u]]);
    case Commit(u) => assert s'.txs == s.txs - {u};
    case _ =>
  }

  /** Confirms of these two movements can deadlock. */
  ghost predicate CanDeadlock(m1: Movement, m2: Movement) {
    exists run, t, u :: DeadlockRun(run, t, u, m1, m2)
  }

  ghost predicate DeadlockRun(run: seq<Sys>, t: nat, u: nat, m1: Movement, m2: Movement) {
    && Run(run) && Deadlocked(Last(run), t, u)
    && Last(run).txs[t].m == m1 && Last(run).txs[u].m == m2
  }

  /** Both can be stored: no unique constraint tells them apart from being one row. */
  ghost predicate Together(m1: Movement, m2: Movement) {
    IsNew(map[m1.id := m1], m2)
  }

  /** Each gets to a row that the other has locked by then, and neither has locked a row of the other before. */
  ghost predicate Interlock(m1: Movement, m2: Movement, i: nat, j: nat) {
    Deadlock.Crosses(Plan(m1), Plan(m2), i, j) && GetsTo(m1, i) && GetsTo(m2, j)
  }

  lemma {:induction false} RunIsUnique(run: seq<Sys>, n: nat)
    requires Run(run) && n < |run|
    ensures MovementRepository.Unique(run[n].movements)
  {
    if n == 0 {
    } else {
      RunIsUnique(run, n - 1);
      RunKeeps(run, n - 1);
      var a :| StepBy(run[n - 1], run[n], a);
      StepIsUnique(run[n - 1], run[n], a);
    }
  }

  lemma StepIsUnique(s: Sys, s': Sys, a: Action)
    requires Inv(s) && StepBy(s, s', a) && MovementRepository.Unique(s.movements)
    ensures MovementRepository.Unique(s'.movements)
  {
    if a.Create? {
      NewIsUnique(s.movements, a.m);
    } else {
      StepKeepsIdentity(s, s', a);
      SameIsUnique(s.movements, s'.movements);
    }
  }

  lemma NewIsUnique(ms: map<Id, Movement>, m: Movement)
    requires IsNew(ms, m) && MovementRepository.Unique(ms)
    ensures MovementRepository.Unique(ms[m.id := m])
  {
  }

  ghost predicate SameRows(a: map<Id, Movement>, b: map<Id, Movement>) {
    && a.Keys == b.Keys
    && forall id <- a ::
      && a[id].id == b[id].id && a[id].tenant == b[id].tenant && a[id].reference == b[id].reference
      && a[id].idempotencyKey == b[id].idempotencyKey
  }

  lemma StepKeepsIdentity(s: Sys, s': Sys, a: Action)
    requires StepBy(s, s', a) && !a.Create?
    ensures SameRows(s.movements, s'.movements)
  {
    match a
    case AddLine(id, _) => RowUpdated(s.movements, s'.movements, id);
    case Cancel(id) => RowUpdated(s.movements, s'.movements, id);
    case Commit(t) => RowUpdated(s.movements, s'.movements, s.txs[t].m.id);
    case _ => SameMovements(s, s', a);
  }

  lemma RowUpdated(ms: map<Id, Movement>, after: map<Id, Movement>, id: Id)
    requires id in ms && id in after && after == ms[id := after[id]]
    requires after[id] == ms[id].(lines := after[id].lines, status := after[id].status)
    ensures SameRows(ms, after)
  {
  }

  lemma SameIsUnique(a: map<Id, Movement>, b: map<Id, Movement>)
    requires SameRows(a, b) && MovementRepository.Unique(a)
    ensures MovementRepository.Unique(b)
  {
  }

  lemma StoredTogether(s: Sys, x: Tx, y: Tx)
    requires TxOk(s, x) && TxOk(s, y) && Apart(x, y) && MovementRepository.Unique(s.movements)
    ensures Together(x.m, y.m)
  {
  }

  lemma WaiterGetsTo(s: Sys, t: nat, u: nat) returns (i: nat)
    requires Inv(s) && Waits(s, t, u)
    ensures GetsTo(s.txs[t].m, i) && Plan(s.txs[t].m)[i] in s.txs[u].view
    ensures forall k :: k in Plan(s.txs[t].m)[..i] <==> k in s.txs[t].view
  {
    assert TxOk(s, s.txs[t]) && Apart(s.txs[t], s.txs[u]);
    i := LocksFollowPlan(s, s.txs[t]);
  }

  lemma DeadlockIsInterlock(s: Sys, t: nat, u: nat)
    requires Inv(s) && Deadlocked(s, t, u) && MovementRepository.Unique(s.movements)
    ensures Together(s.txs[t].m, s.txs[u].m) && exists i, j :: Interlock(s.txs[t].m, s.txs[u].m, i, j)
  {
    var x, y := s.txs[t], s.txs[u];
    assert TxOk(s, x) && TxOk(s, y) && Apart(x, y);
    StoredTogether(s, x, y);
    var i := WaiterGetsTo(s, t, u);
    var j := WaiterGetsTo(s, u, t);
    forall k <- Plan(x.m)[..i]
      ensures k !in Plan(y.m)[..j]
    {
      assert k in x.view;
    }
    assert Interlock(x.m, y.m, i, j);
  }

  // ---- Reaching a deadlock -------------------------------------------------------------------------------

  /** Every row of the two plans, holding what the lines before lower. */
  ghost function TableFor(m1: Movement, i: nat, m2: Movement, j: nat): Balances
    requires i < |Plan(m1)| && j < |Plan(m2)|
  {
    var l1, l2 := LinesBefore(m1.lines, Plan(m1)[i].product), LinesBefore(m2.lines, Plan(m2)[j].product);
    map k | k in Plan(m1) + Plan(m2) :: Needed(m1, l1, k) + Needed(m2, l2, k)
  }

  /** A row is needed by at most one of the two. */
  lemma NeededOnce(m1: Movement, i: nat, pc1: nat, m2: Movement, j: nat, pc2: nat, k: Key)
    requires MovementOk(m1) && MovementOk(m2) && Interlock(m1, m2, i, j) && StandsAt(m1, i, pc1) && StandsAt(m2, j, pc2)
    ensures var l1, l2 := LinesBefore(m1.lines, Plan(m1)[i].product), LinesBefore(m2.lines, Plan(m2)[j].product);
            && 0 <= Needed(m1, l1, k) <= MAX_INT32 && 0 <= Needed(m2, l2, k) <= MAX_INT32
            && (Touches(m1, l1, k) ==> Needed(m2, l2, k) == 0)
            && (Touches(m2, l2, k) ==> Needed(m1, l1, k) == 0)
            && (Needed(m1, l1, k) == 0 || Needed(m2, l2, k) == 0)
  {
    var l1, l2 := LinesBefore(m1.lines, Plan(m1)[i].product), LinesBefore(m2.lines, Plan(m2)[j].product);
    NeededInRange(m1, l1, k);
    NeededInRange(m2, l2, k);
    if Touches(m1, l1, k) && Touches(m2, l2, k) {
      RowsBeforeAreHeld(m1, i, pc1, k);
      RowsBeforeAreHeld(m2, j, pc2, k);
      assert false;
    }
  }

  lemma TableFits(m1: Movement, i: nat, pc1: nat, m2: Movement, j: nat, pc2: nat)
    requires MovementOk(m1) && MovementOk(m2) && Interlock(m1, m2, i, j) && StandsAt(m1, i, pc1) && StandsAt(m2, j, pc2)
    ensures var b := TableFor(m1, i, m2, j);
            && InRange(b) && (forall k <- Plan(m1) :: k in b) && (forall k <- Plan(m2) :: k in b)
            && Fits(b, m1, LinesBefore(m1.lines, Plan(m1)[i].product))
            && Fits(b, m2, LinesBefore(m2.lines, Plan(m2)[j].product))
  {
    var b := TableFor(m1, i, m2, j);
    forall k
      ensures k in b ==> 0 <= b[k] <= MAX_INT32
    {
      NeededOnce(m1, i, pc1, m2, j, pc2, k);
    }
    TableFitsOne(m1, i, pc1, m2, j, pc2, b);
    InterlockIsSymmetric(m1, m2, i, j);
    TableFitsOne(m2, j, pc2, m1, i, pc1, b);
  }

  lemma InterlockIsSymmetric(m1: Movement, m2: Movement, i: nat, j: nat)
    requires Interlock(m1, m2, i, j)
    ensures Interlock(m2, m1, j, i)
  {
  }

  /** The table holds exactly what a row of the lines before must hold. */
  lemma RowHoldsNeeded(m1: Movement, i: nat, pc1: nat, m2: Movement, j: nat, pc2: nat, b: Balances, k: Key)
    requires MovementOk(m1) && MovementOk(m2) && Interlock(m1, m2, i, j) && StandsAt(m1, i, pc1) && StandsAt(m2, j, pc2)
    requires var l1, l2 := LinesBefore(m1.lines, Plan(m1)[i].product), LinesBefore(m2.lines, Plan(m2)[j].product);
             && (k in b ==> b[k] == Needed(m1, l1, k) + Needed(m2, l2, k)) && (k in Plan(m1) ==> k in b)
             && Touches(m1, l1, k)
    ensures Quantity(b, k) == Needed(m1, LinesBefore(m1.lines, Plan(m1)[i].product), k)
  {
    NeededOnce(m1, i, pc1, m2, j, pc2, k);
    RowsBeforeAreHeld(m1, i, pc1, k);
  }

  lemma TableFitsOne(m1: Movement, i: nat, pc1: nat, m2: Movement, j: nat, pc2: nat, b: Balances)
    requires MovementOk(m1) && MovementOk(m2) && Interlock(m1, m2, i, j) && StandsAt(m1, i, pc1) && StandsAt(m2, j, pc2)
    requires var l1, l2 := LinesBefore(m1.lines, Plan(m1)[i].product), LinesBefore(m2.lines, Plan(m2)[j].product);
             && (forall k <- b :: b[k] == Needed(m1, l1, k) + Needed(m2, l2, k)) && forall k <- Plan(m1) :: k in b
    ensures Fits(b, m1, LinesBefore(m1.lines, Plan(m1)[i].product))
  {
    var lines := LinesBefore(m1.lines, Plan(m1)[i].product);
    forall p | Names(lines, p)
      ensures LoweredAt(m1).Some? ==> Total(lines, p) <= Quantity(b, Key(m1.tenant, LoweredAt(m1).value, p))
      ensures RaisedAt(m1).Some? ==>
                Quantity(b, Key(m1.tenant, RaisedAt(m1).value, p)) + Total(lines, p) <= MAX_INT32
    {
      if LoweredAt(m1).Some? {
        RowHoldsNeeded(m1, i, pc1, m2, j, pc2, b, Key(m1.tenant, LoweredAt(m1).value, p));
      }
      if RaisedAt(m1).Some? {
        RowHoldsNeeded(m1, i, pc1, m2, j, pc2, b, Key(m1.tenant, RaisedAt(m1).value, p));
      }
    }
  }

  lemma NewBesides(ms: map<Id, Movement>, m1: Movement, m2: Movement)
    requires IsNew(ms, m2) && Together(m1, m2)
    ensures IsNew(ms[m1.id := m1], m2)
  {
    assert m1.id in map[m1.id := m1];
  }

  /** Both drafts are stored over any table. */
  lemma RunTwoDrafts(b: Balances, m1: Movement, m2: Movement) returns (run: seq<Sys>)
    requires InRange(b) && MovementOk(m1) && MovementOk(m2) && m1.status == Draft && m2.status == Draft
    requires Together(m1, m2)
    ensures Run(run) && Last(run).balances == b && Last(run).txs == map[]
    ensures m1.id != m2.id && m1.id in Last(run).movements && Last(run).movements[m1.id] == m1
    ensures m2.id in Last(run).movements && Last(run).movements[m2.id] == m2
  {
    var low := |m1.id| + |m2.id| + |m1.reference| + |m2.reference| + 1;
    var high;
    run, high := RunTable(b, low);
    var ms := Last(run).movements;
    forall o <- ms
      ensures o != m1.id && o != m2.id && ms[o].reference != m1.reference && ms[o].reference != m2.reference
    {
      assert |o| >= low;
    }
    assert IsNew(ms, m1) && IsNew(ms, m2);
    run := RunDraft(run, m1);
    NewBesides(ms, m1, m2);
    run := RunDraft(run, m2);
  }

  /** Transaction `t` locks a draft and runs up to statement `pc`, which needs no row of the others. */
  lemma RunConfirmTo(before: seq<Sys>, t: nat, id: Id, pc: nat) returns (run: seq<Sys>)
    requires Run(before) && t !in Last(before).txs && id in Last(before).movements
    requires Last(before).movements[id].status == Draft && !MovementHeld(Last(before), id)
    requires var m := Last(before).movements[id];
             && WarehousesOk(m) && pc <= |Program(m, m.lines)|
             && ExecAll(Applied(Last(before).balances, []), Program(m, m.lines)[..pc]).Success?
             && forall k <- KeysOf(Program(m, m.lines)[..pc]), u <- Last(before).txs :: k !in Last(before).txs[u].view
    ensures Run(run)
    ensures var s, s' := Last(before), Last(run);
            && t in s'.txs && s' == s.(txs := s.txs[t := s'.txs[t]])
            && s'.txs[t].m == s.movements[id] && s'.txs[t].pc == pc
            && s'.txs[t].view.Keys == KeysOf(Program(s.movements[id], s.movements[id].lines)[..pc])
  {
    var s := Last(before);
    var x := Tx(s.movements[id], 0, map[], [], None, []);
    var s1 := s.(txs := s.txs[t := x]);
    run := Extend(before, s1, Begin(t, id));
    assert ClearUpTo(s1, t, pc);
    run := RunStatements(run, t, pc);
    ViewIsUsed(run, t);
    assert s1.txs[t := Last(run).txs[t]] == s.txs[t := Last(run).txs[t]];
  }

  lemma ViewIsUsed(run: seq<Sys>, t: nat)
    requires Run(run) && t in Last(run).txs
    ensures var x := Last(run).txs[t];
            && WarehousesOk(x.m) && x.pc <= |Program(x.m, x.m.lines)|
            && x.view.Keys == KeysOf(Program(x.m, x.m.lines)[..x.pc])
  {
    RunKeeps(run, |run| - 1);
    assert TxOk(Last(run), Last(run).txs[t]);
  }

  /** On table `b` a confirm gets to row `i` of its plan, statement `pc`. */
  ghost predicate StopsAt(b: Balances, m: Movement, i: nat, pc: nat)
    requires WarehousesOk(m)
  {
    var program := Program(m, m.lines);
    && i < |Plan(m)| && Plan(m)[i] in b && pc < |program| && program[pc].key == Plan(m)[i]
    && ExecAll(Applied(b, []), program[..pc]).Success?
    && forall k :: k in KeysOf(program[..pc]) <==> k in Plan(m)[..i]
  }

  lemma StandingStops(b: Balances, m: Movement, i: nat, pc: nat)
    requires MovementOk(m) && InRange(b) && StandsAt(m, i, pc)
    requires Fits(b, m, LinesBefore(m.lines, Plan(m)[i].product)) && forall k <- Plan(m) :: k in b
    ensures StopsAt(b, m, i, pc)
  {
    StopIsReached(b, m, i, pc);
    forall k
      ensures k in KeysOf(Program(m, m.lines)[..pc]) <==> k in Plan(m)[..i]
    {
      UsedKeys(Program(m, m.lines)[..pc], k);
    }
  }

  lemma BothStop(m1: Movement, m2: Movement, i: nat, j: nat) returns (b: Balances, pc1: nat, pc2: nat)
    requires MovementOk(m1) && MovementOk(m2) && Interlock(m1, m2, i, j)
    ensures InRange(b) && StopsAt(b, m1, i, pc1) && StopsAt(b, m2, j, pc2)
  {
    pc1 := StopAt(m1, i);
    pc2 := StopAt(m2, j);
    b := TableFor(m1, i, m2, j);
    TableFits(m1, i, pc1, m2, j, pc2);
    StandingStops(b, m1, i, pc1);
    StandingStops(b, m2, j, pc2);
  }

  lemma InterlockIsReached(m1: Movement, m2: Movement, i: nat, j: nat) returns (run: seq<Sys>)
    requires MovementOk(m1) && MovementOk(m2) && m1.status == Draft && m2.status == Draft
    requires Together(m1, m2) && Interlock(m1, m2, i, j)
    ensures DeadlockRun(run, 0, 1, m1, m2)
  {
    var b, pc1, pc2 := BothStop(m1, m2, i, j);
    run := RunTwoDrafts(b, m1, m2);
    run := RunConfirmTo(run, 0, m1.id, pc1);
    run := RunConfirmTo(run, 1, m2.id, pc2);
  }

  // ---- Main results ----------------------------------------------------------------------------------------

  /** Two confirms, of any kinds with any lines, can deadlock exactly when they are of different movements, the orders
      in which they lock rows cross, and both get as far as the crossing: no product's total exceeds the quantity column
      in the lines before the first one of the wanted row's product. */
  lemma ConfirmsDeadlock(m1: Movement, m2: Movement)
    requires MovementOk(m1) && MovementOk(m2) && m1.status == Draft && m2.status == Draft
    ensures CanDeadlock(m1, m2) <==> Together(m1, m2) && exists i, j :: Interlock(m1, m2, i, j)
  {
    if CanDeadlock(m1, m2) {
      var run, t, u :| DeadlockRun(run, t, u, m1, m2);
      RunKeeps(run, |run| - 1);
      RunIsUnique(run, |run| - 1);
      DeadlockIsInterlock(Last(run), t, u);
    }
    if Together(m1, m2) && exists i, j :: Interlock(m1, m2, i, j) {
      var i, j :| Interlock(m1, m2, i, j);
      var run := InterlockIsReached(m1, m2, i, j);
      assert DeadlockRun(run, 0, 1, m1, m2);
    }
  }

  /** In lines of which none repeats a product, only the crossing of the plans counts. */
  lemma NothingOverflows(m: Movement, p: Id)
    requires MovementOk(m) && forall i, j :: 0 <= i < j < |m.lines| ==> m.lines[i].product != m.lines[j].product
    ensures TotalsFit(LinesBefore(m.lines, p))
  {
    var n := FirstLine(m.lines, p);
    forall q
      ensures Total(m.lines[..n], q) <= MAX_INT32
    {
      TotalOfDistinct(m.lines[..n], q);
    }
  }

  lemma {:induction false} TotalOfDistinct(lines: seq<Line>, p: Id)
    requires LinesOk(lines) && forall i, j :: 0 <= i < j < |lines| ==> lines[i].product != lines[j].product
    ensures Total(lines, p) <= MAX_INT32 && (Total(lines, p) > 0 ==> Names(lines, p))
  {
    if lines == [] {
    } else {
      var n := |lines| - 1;
      TotalOfDistinct(lines[..n], p);
      NamesSplit(lines, p);
    }
  }

  /** The ordering of TransferDelta does not protect a confirm, which locks a transfer's destination first: confirms of
      two one-line transfers can deadlock exactly when they move one product in opposite directions. */
  lemma OppositeConfirmsDeadlock(m1: Movement, m2: Movement, l1: Line, l2: Line)
    requires MovementOk(m1) && MovementOk(m2) && m1.status == Draft && m2.status == Draft
    requires m1.kind == Transfer && m2.kind == Transfer && m1.lines == [l1] && m2.lines == [l2]
    ensures CanDeadlock(m1, m2) <==>
            && Together(m1, m2) && m1.tenant == m2.tenant && l1.product == l2.product
            && m1.source == m2.destination && m1.destination == m2.source
  {
    ConfirmsDeadlock(m1, m2);
    TransferPlan(m1, l1);
    TransferPlan(m2, l2);
    var x, y := Plan(m1), Plan(m2);
    assert x[..0] == [] && y[..0] == [] && x[..1] == [x[0]] && y[..1] == [y[0]];
    forall i, j
      ensures Interlock(m1, m2, i, j) <==> i == 1 && j == 1 && x[1] == y[0] && y[1] == x[0]
    {
      NothingOverflows(m1, l1.product);
      NothingOverflows(m2, l2.product);
    }
    if x[1] == y[0] && y[1] == x[0] {
      assert Interlock(m1, m2, 1, 1);
    }
  }

  lemma TransferPlan(m: Movement, line: Line)
    requires MovementOk(m) && m.kind == Transfer && m.lines == [line]
    ensures Plan(m) == [Key(m.tenant, m.destination.value, line.product), Key(m.tenant, m.source.value, line.product)]
  {
    assert m.lines[..0] == [];
    assert RowsOfLines(m, m.lines[..0]) == [];
    var rows := LineRows(m, line.product);
    assert RowsOfLines(m, m.lines) == rows;
    LockFresh([], rows);
  }

  /** The only warehouse of a movement that is not a transfer. */
  function OnlyWarehouse(m: Movement): Id
    requires WarehousesOk(m) && m.kind != Transfer
  {
    if RaisedAt(m).Some? then RaisedAt(m).value else LoweredAt(m).value
  }

  lemma {:induction false} RowsAtOneWarehouse(m: Movement, products: seq<Id>)
    requires WarehousesOk(m) && m.kind != Transfer
    ensures |RowsOfProducts(m, products)| == |products|
    ensures forall i :: 0 <= i < |products| ==>
              RowsOfProducts(m, products)[i] == Key(m.tenant, OnlyWarehouse(m), products[i])
  {
    if products == [] {
    } else {
      RowsAtOneWarehouse(m, products[..|products| - 1]);
    }
  }

  lemma PrefixRows(x: seq<Key>, t: Id, w: Id, ps: seq<Id>, i: nat)
    requires |x| == |ps| && i <= |x| && forall n :: 0 <= n < |ps| ==> x[n] == Key(t, w, ps[n])
    ensures forall k :: k in x[..i] <==> k == Key(t, w, k.product) && k.product in ps[..i]
  {
    forall k
      ensures k in x[..i] <==> k == Key(t, w, k.product) && k.product in ps[..i]
    {
      if k == Key(t, w, k.product) && k.product in ps[..i] {
        var n :| 0 <= n < i && ps[n] == k.product;
        assert x[..i][n] == k;
      }
      if k in x[..i] {
        var n :| 0 <= n < i && x[n] == k;
        assert ps[..i][n] == k.product;
      }
    }
  }

  lemma CrossingRows(x: seq<Key>, y: seq<Key>, t: Id, v: Id, u: Id, w: Id, ps: seq<Id>, qs: seq<Id>, i: nat, j: nat)
    requires |x| == |ps| && |y| == |qs|
    requires forall n :: 0 <= n < |ps| ==> x[n] == Key(t, v, ps[n])
    requires forall n :: 0 <= n < |qs| ==> y[n] == Key(u, w, qs[n])
    ensures Deadlock.Crosses(x, y, i, j) <==> t == u && v == w && Deadlock.Crosses(ps, qs, i, j)
  {
    if i < |x| && j < |y| {
      PrefixRows(x, t, v, ps, i);
      PrefixRows(y, u, w, qs, j);
      assert forall p :: p in ps[..i] <==> Key(t, v, p) in x[..i];
      assert forall p :: p in qs[..j] <==> Key(u, w, p) in y[..j];
    }
  }

  /** A confirm gets to its product `i` in the order in which the lines first name them. */
  ghost predicate GetsToProduct(m: Movement, i: nat) {
    i < |FirstProducts(m.lines)| && TotalsFit(LinesBefore(m.lines, FirstProducts(m.lines)[i]))
  }

  /** No transfer is needed: receipts, issues and adjustments can deadlock exactly when they concern one warehouse, the
      orders in which their products first come cross, and both get that far. */
  lemma OneWarehouseConfirmsDeadlock(m1: Movement, m2: Movement)
    requires MovementOk(m1) && MovementOk(m2) && m1.status == Draft && m2.status == Draft
    requires m1.kind != Transfer && m2.kind != Transfer
    ensures CanDeadlock(m1, m2) <==>
            && Together(m1, m2) && m1.tenant == m2.tenant && OnlyWarehouse(m1) == OnlyWarehouse(m2)
            && exists i, j ::
              && Deadlock.Crosses(FirstProducts(m1.lines), FirstProducts(m2.lines), i, j)
              && GetsToProduct(m1, i) && GetsToProduct(m2, j)
  {
    ConfirmsDeadlock(m1, m2);
    var ps, qs := FirstProducts(m1.lines), FirstProducts(m2.lines);
    PlanIsByProduct(m1, m1.lines);
    PlanIsByProduct(m2, m2.lines);
    RowsAtOneWarehouse(m1, ps);
    RowsAtOneWarehouse(m2, qs);
    forall i: nat, j: nat
      ensures Interlock(m1, m2, i, j) <==>
              && m1.tenant == m2.tenant && OnlyWarehouse(m1) == OnlyWarehouse(m2)
              && Deadlock.Crosses(ps, qs, i, j) && GetsToProduct(m1, i) && GetsToProduct(m2, j)
    {
      CrossingRows(Plan(m1), Plan(m2), m1.tenant, OnlyWarehouse(m1), m2.tenant, OnlyWarehouse(m2), ps, qs, i, j);
    }
  }

  lemma FirstProductsOfTwo(a: Line, b: Line)
    requires a.product != b.product
    ensures FirstProducts([a, b]) == [a.product, b.product]
  {
    assert [a, b][..1] == [a] && [a][..0] == [];
    assert FirstProducts([a]) == [] + [a.product];
  }

  /** Even one list of two lines, read back in two orders, can do it. */
  lemma ReorderedLinesDeadlock(m1: Movement, m2: Movement, a: Line, b: Line)
    requires MovementOk(m1) && MovementOk(m2) && m1.status == Draft && m2.status == Draft && Together(m1, m2)
    requires m1.kind != Transfer && m2.kind != Transfer && m1.tenant == m2.tenant
    requires OnlyWarehouse(m1) == OnlyWarehouse(m2) && a.product != b.product
    requires m1.lines == [a, b] && m2.lines == [b, a]
    ensures CanDeadlock(m1, m2)
  {
    OneWarehouseConfirmsDeadlock(m1, m2);
    TwoProductsCross(a.product, b.product);
    GetsToSecond(m1, a, b);
    GetsToSecond(m2, b, a);
    assert Deadlock.Crosses(FirstProducts(m1.lines), FirstProducts(m2.lines), 1, 1);
  }

  lemma TwoProductsCross(p: Id, q: Id)
    requires p != q
    ensures Deadlock.Crosses([p, q], [q, p], 1, 1)
  {
    assert [p, q][..1] == [p] && [q, p][..1] == [q];
  }

  lemma GetsToSecond(m: Movement, a: Line, b: Line)
    requires MovementOk(m) && m.lines == [a, b] && a.product != b.product
    ensures FirstProducts(m.lines) == [a.product, b.product] && GetsToProduct(m, 1)
  {
    FirstProductsOfTwo(a, b);
    NothingOverflows(m, b.product);
  }

  /** Crossing plans alone are not enough: a receipt whose first lines overflow is refused before it wants the other's
      row. */
  lemma OverflowPreventsDeadlock(m1: Movement, m2: Movement, p: Id, q: Id)
    requires MovementOk(m1) && MovementOk(m2) && m1.status == Draft && m2.status == Draft
    requires m1.kind == Inbound && m2.kind == Inbound && p != q
    requires m1.lines == [Line(p, MAX_INT32), Line(p, 1), Line(q, 1)] && m2.lines == [Line(q, 1), Line(p, 1)]
    ensures Deadlock.Crosses(FirstProducts(m1.lines), FirstProducts(m2.lines), 1, 1)
    ensures !CanDeadlock(m1, m2)
  {
    var ps, qs := [p, q], [q, p];
    assert m1.lines[..2] == [Line(p, MAX_INT32), Line(p, 1)] && m1.lines[..2][..1] == [Line(p, MAX_INT32)];
    assert FirstProducts([Line(p, MAX_INT32)]) == [p] by { assert [Line(p, MAX_INT32)][..0] == []; }
    assert FirstProducts(m1.lines) == ps;
    FirstProductsOfTwo(Line(q, 1), Line(p, 1));
    assert ps[..0] == [] && qs[..0] == [] && ps[..1] == [p] && qs[..1] == [q];
    TwoProductsCross(p, q);
    OneWarehouseConfirmsDeadlock(m1, m2);
    OverflowingTotal(m1, p, q);
  }

  lemma OverflowingTotal(m: Movement, p: Id, q: Id)
    requires p != q && m.lines == [Line(p, MAX_INT32), Line(p, 1), Line(q, 1)]
    ensures !TotalsFit(LinesBefore(m.lines, q))
  {
    assert FirstLine(m.lines, q) == 2 by { assert m.lines[2].product == q; }
    var lines := m.lines[..2];
    assert lines[..1] == [lines[0]] && lines[..1][..0] == [];
    assert Total(lines[..1], p) == MAX_INT32;
    assert lines[0].product == p;
    assert Names(lines, p) && Total(lines, p) == MAX_INT32 + 1;
  }

  // ---- The lock order ------------------------------------------------------------------------------------------

  function RowOf(k: Key): LockOrder.RowKey {
    LockOrder.RowKey(k.warehouse, k.product)
  }

  /** TransferDelta alone locks its rows in lock order. */
  lemma TransferDeltaIsOrdered(src: Key, dst: Key)
    requires src.product == dst.product
    ensures var rows := TransferRows(src, dst);
            seq(|rows|, i requires 0 <= i < |rows| => RowOf(rows[i]))
            == Deadlock.PlanOf(Deadlock.TransferDelta(src.warehouse, dst.warehouse, src.product))
  {
  }

  /** A confirmed transfer line follows the lock order exactly when its destination comes before its source. */
  lemma TransferLineOrder(m: Movement, product: Id)
    requires WarehousesOk(m) && m.kind == Transfer
    ensures var rows := LineRows(m, product);
            && |rows| == 2
            && (LockOrder.LessWarehouseProduct(RowOf(rows[0]), RowOf(rows[1])) <==>
                LockOrder.StringLess(m.destination.value, m.source.value))
  {
  }
}
