/** What the concurrent transactions can be brought to: any draft can be stored, any confirm whose lines fit goes
    through, and any balance table is reached. */
module Reachability {
  import opened Common
  import opened Schema
  import opened Stock
  import opened StockLaws
  import opened Transactions
  import opened Serializability
  import opened Ledger

  function Last(run: seq<Sys>): Sys
    requires run != []
  {
    run[|run| - 1]
  }

  // ---- The statements of a movement ------------------------------------------------------------

  lemma KeysOfConcat(p: seq<Instr>, q: seq<Instr>)
    ensures KeysOf(p + q) == KeysOf(p) + KeysOf(q)
  {
    forall i | 0 <= i < |p| ensures p[i].key in KeysOf(p + q) { assert (p + q)[i] == p[i]; }
    forall i | 0 <= i < |q| ensures q[i].key in KeysOf(p + q) { assert (p + q)[|p| + i] == q[i]; }
    forall i | 0 <= i < |p + q|
      ensures (p + q)[i].key in KeysOf(p) + KeysOf(q)
    {
      assert (p + q)[i] == if i < |p| then p[i] else q[i - |p|];
    }
  }

  lemma KeysOfPrefix(p: seq<Instr>, q: seq<Instr>)
    requires p <= q
    ensures KeysOf(p) <= KeysOf(q)
  {
    assert q == p + q[|p|..];
    KeysOfConcat(p, q[|p|..]);
  }

  lemma KeyUsed(p: seq<Instr>, i: nat)
    requires i < |p|
    ensures p[i].key in KeysOf(p)
  {
  }

  /** A line writes only after it has locked all its rows. */
  lemma LineLocksFirst(m: Movement, line: Line, n: nat)
    requires WarehousesOk(m) && n < |LineProgram(m, line)| && LineProgram(m, line)[n].Add?
    ensures KeysOf(LineProgram(m, line)) <= KeysOf(LineProgram(m, line)[..n])
  {
    var p := LineProgram(m, line);
    if m.kind == Transfer {
      var s, d := Key(m.tenant, m.source.value, line.product), Key(m.tenant, m.destination.value, line.product);
      assert p == [Ensure(d)] + TransferLocks(s, d) + [Add(s, -line.quantity), Add(d, line.quantity)];
      assert p[..n][0] == p[0] && p[..n][1] == p[1] && p[..n][2] == p[2];
      KeyUsed(p[..n], 0);
      KeyUsed(p[..n], 1);
      KeyUsed(p[..n], 2);
    } else {
      assert p[..n][0] == p[0];
      KeyUsed(p[..n], 0);
    }
  }

  /** Statement `n` of some lines belongs to line `i`. */
  lemma {:induction false} StatementOfLine(m: Movement, lines: seq<Line>, n: nat) returns (i: nat, o: nat)
    requires WarehousesOk(m) && n < |Program(m, lines)|
    ensures i < |lines| && o < |LineProgram(m, lines[i])| && n == |Program(m, lines[..i])| + o
    ensures Program(m, lines)[n] == LineProgram(m, lines[i])[o]
    ensures Program(m, lines)[..n] == Program(m, lines[..i]) + LineProgram(m, lines[i])[..o]
  {
    var last := |lines| - 1;
    var before := Program(m, lines[..last]);
    if n < |before| {
      i, o := StatementOfLine(m, lines[..last], n);
      assert lines[..last][..i] == lines[..i];
      assert Program(m, lines)[..n] == before[..n];
    } else {
      i, o := last, n - |before|;
    }
  }

  lemma AddsAreLocked(m: Movement, lines: seq<Line>, n: nat)
    requires WarehousesOk(m) && n < |Program(m, lines)| && Program(m, lines)[n].Add?
    ensures Program(m, lines)[n].key in KeysOf(Program(m, lines)[..n])
  {
    var i, o := StatementOfLine(m, lines, n);
    LineLocksFirst(m, lines[i], o);
    KeyUsed(LineProgram(m, lines[i]), o);
    KeysOfConcat(Program(m, lines[..i]), LineProgram(m, lines[i])[..o]);
  }

  /** A transaction that is `x'` instead and nothing else changed. */
  ghost predicate Advanced(s: Sys, s': Sys, t: nat, n: nat) {
    && t in s.txs && t in s'.txs && s' == s.(txs := s.txs[t := s'.txs[t]])
    && s'.txs[t] == s.txs[t].(pc := n, view := s'.txs[t].view, changes := s'.txs[t].changes)
  }

  /** Statement `n` of a transaction's program. */
  function StatementAt(x: Tx, n: nat): Instr
    requires WarehousesOk(x.m) && n < |Program(x.m, x.m.lines)|
  {
    Program(x.m, x.m.lines)[n]
  }

  lemma LockCanRun(s: Sys, t: nat, k: Key) returns (s': Sys)
    requires t in s.txs && WarehousesOk(s.txs[t].m) && s.txs[t].pc < |Program(s.txs[t].m, s.txs[t].m.lines)|
    requires var i := StatementAt(s.txs[t], s.txs[t].pc);
             i == Ensure(k) || (i == Lock(k) && (k in s.txs[t].view || k in s.balances))
    requires !HeldByOther(s, t, k)
    ensures StatementStep(s, s', t) && Advanced(s, s', t, s.txs[t].pc + 1)
  {
    var x := s.txs[t];
    s' := s.(txs := s.txs[t := x.(pc := x.pc + 1, view := Locked(s, x.view, k))]);
  }

  lemma AddCanRun(s: Sys, t: nat, k: Key, delta: int) returns (s': Sys)
    requires t in s.txs && WarehousesOk(s.txs[t].m) && s.txs[t].pc < |Program(s.txs[t].m, s.txs[t].m.lines)|
    requires StatementAt(s.txs[t], s.txs[t].pc) == Add(k, delta)
    requires k in s.txs[t].view && 0 <= s.txs[t].view[k] + delta <= MAX_INT32 && !HeldByOther(s, t, k)
    ensures StatementStep(s, s', t) && Advanced(s, s', t, s.txs[t].pc + 1)
  {
    var x := s.txs[t];
    var q := x.view[k];
    s' := s.(txs := s.txs[t := x.(pc := x.pc + 1, view := x.view[k := q + delta],
        changes := x.changes + [Change(k, q, q + delta)])]);
  }

  /** The statements of a transaction up to `n` succeed on the committed balances and want no row of another. */
  ghost predicate ClearUpTo(s: Sys, t: nat, n: nat) {
    && t in s.txs && WarehousesOk(s.txs[t].m)
    && var program := Program(s.txs[t].m, s.txs[t].m.lines);
       && s.txs[t].pc <= n <= |program| && ExecAll(Applied(s.balances, []), program[..n]).Success?
       && forall k <- KeysOf(program[..n]) :: !HeldByOther(s, t, k)
  }

  lemma NextSucceeds(s: Sys, x: Tx, program: seq<Instr>)
    requires TxOk(s, x) && program == Program(x.m, x.m.lines) && x.pc < |program|
    requires ExecAll(Applied(s.balances, []), program[..x.pc + 1]).Success?
    ensures Exec(Applied(s.balances + x.view, x.changes), program[x.pc]).Success?
    ensures program[x.pc].Add? ==> program[x.pc].key in x.view
  {
    ExecNext(Applied(s.balances, []), program, x.pc);
    if program[x.pc].Add? {
      AddsAreLocked(x.m, x.m.lines, x.pc);
    }
  }

  /** The next statement runs when nobody else holds its row and it succeeds on the committed balances. */
  lemma StatementCanRun(s: Sys, t: nat) returns (s': Sys)
    requires Inv(s) && t in s.txs && ClearUpTo(s, t, s.txs[t].pc + 1)
    ensures StatementStep(s, s', t) && Advanced(s, s', t, s.txs[t].pc + 1)
  {
    var x := s.txs[t];
    var program := Program(x.m, x.m.lines);
    NextSucceeds(s, x, program);
    KeysOfNext(program, x.pc);
    match program[x.pc]
    case Add(k, delta) => s' := AddCanRun(s, t, k, delta);
    case i => s' := LockCanRun(s, t, i.key);
  }

  lemma ClearBefore(s: Sys, t: nat, n: nat)
    requires t in s.txs && s.txs[t].pc < n && ClearUpTo(s, t, n)
    ensures ClearUpTo(s, t, n - 1)
  {
    var program := Program(s.txs[t].m, s.txs[t].m.lines);
    ExecNext(Applied(s.balances, []), program, n - 1);
    KeysOfNext(program, n - 1);
  }

  lemma ClearStays(s: Sys, s': Sys, t: nat, n: nat)
    requires 0 < n && ClearUpTo(s, t, n) && Advanced(s, s', t, n - 1)
    ensures ClearUpTo(s', t, n)
  {
    var program := Program(s.txs[t].m, s.txs[t].m.lines);
    forall k <- KeysOf(program[..n])
      ensures !HeldByOther(s', t, k)
    {
      OthersHold(s, s', t, k);
    }
  }

  lemma AdvancedTwice(s: Sys, mid: Sys, s': Sys, t: nat, n: nat, p: nat)
    requires Advanced(s, mid, t, n) && Advanced(mid, s', t, p)
    ensures Advanced(s, s', t, p)
  {
    assert s.txs[t := mid.txs[t]][t := s'.txs[t]] == s.txs[t := s'.txs[t]];
  }

  lemma AdvancedNot(s: Sys, t: nat)
    requires t in s.txs
    ensures Advanced(s, s, t, s.txs[t].pc)
  {
    assert s.txs == s.txs[t := s.txs[t]];
  }

  /** One statement more. */
  lemma RunStatement(before: seq<Sys>, t: nat) returns (run: seq<Sys>)
    requires Run(before) && t in Last(before).txs && ClearUpTo(Last(before), t, Last(before).txs[t].pc + 1)
    ensures Run(run) && Advanced(Last(before), Last(run), t, Last(before).txs[t].pc + 1)
  {
    RunKeeps(before, |before| - 1);
    var s' := StatementCanRun(Last(before), t);
    run := Extend(before, s', Statement(t));
  }

  /** An open transaction runs on to its statement `n`. */
  lemma {:induction false} RunStatements(before: seq<Sys>, t: nat, n: nat) returns (run: seq<Sys>)
    requires Run(before) && ClearUpTo(Last(before), t, n)
    ensures Run(run) && Advanced(Last(before), Last(run), t, n)
    decreases n
  {
    var s := Last(before);
    if s.txs[t].pc == n {
      run := before;
      AdvancedNot(s, t);
    } else {
      ClearBefore(s, t, n);
      var shorter := RunStatements(before, t, n - 1);
      ClearStays(s, Last(shorter), t, n);
      run := RunStatement(shorter, t);
      AdvancedTwice(s, Last(shorter), Last(run), t, n - 1, n);
    }
  }

  lemma OthersHold(s: Sys, s': Sys, t: nat, k: Key)
    requires t in s.txs && t in s'.txs && s' == s.(txs := s.txs[t := s'.txs[t]])
    ensures HeldByOther(s', t, k) <==> HeldByOther(s, t, k)
  {
    if HeldByOther(s, t, k) {
      var u :| u in s.txs && u != t && k in s.txs[u].view;
      assert s'.txs[u] == s.txs[u];
    }
    if HeldByOther(s', t, k) {
      var u :| u in s'.txs && u != t && k in s'.txs[u].view;
      assert s'.txs[u] == s.txs[u];
    }
  }

  // ---- Drafts ---------------------------------------------------------------------------------------

  lemma {:induction false} RunLines(before: seq<Sys>, m: Movement, n: nat) returns (run: seq<Sys>)
    requires Run(before) && Last(before).txs == map[] && MovementOk(m) && n <= |m.lines|
    requires m.id in Last(before).movements && Last(before).movements[m.id] == m.(lines := [])
    ensures Run(run) && Last(run).txs == map[] && Last(run).balances == Last(before).balances
    ensures Last(run).movements == Last(before).movements[m.id := m.(lines := m.lines[..n])]
  {
    if n == 0 {
      run := before;
      assert m.lines[..0] == [];
    } else {
      run := RunLines(before, m, n - 1);
      var s := Last(run);
      assert m.lines[..n - 1] + [m.lines[n - 1]] == m.lines[..n];
      run := Extend(run, s.(movements := s.movements[m.id := m.(lines := m.lines[..n])],
          log := s.log + [LineAdded(m.id, m.lines[n - 1])]), AddLine(m.id, m.lines[n - 1]));
    }
  }

  /** Any draft that no unique constraint refuses can be stored. */
  lemma RunDraft(before: seq<Sys>, m: Movement) returns (run: seq<Sys>)
    requires Run(before) && Last(before).txs == map[]
    requires MovementOk(m) && m.status == Draft && IsNew(Last(before).movements, m)
    ensures Run(run) && Last(run).txs == map[] && Last(run).balances == Last(before).balances
    ensures Last(run).movements == Last(before).movements[m.id := m]
  {
    var s, header := Last(before), m.(lines := []);
    run := Extend(before, s.(movements := s.movements[m.id := header], log := s.log + [MovementAdded(header)]),
        Create(header));
    run := RunLines(run, m, |m.lines|);
    assert m.lines[..|m.lines|] == m.lines;
  }

  // ---- Confirms -----------------------------------------------------------------------------------------

  lemma {:induction false} RunInserts(before: seq<Sys>, t: nat, n: nat) returns (run: seq<Sys>)
    requires Run(before) && t in Last(before).txs
    requires var x := Last(before).txs[t]; x.rows == [] && n <= |EventsOf(x)|
    ensures Run(run) && t in Last(run).txs
    ensures var s, s' := Last(before), Last(run);
            && s' == s.(txs := s.txs[t := s'.txs[t]], nextId := s'.nextId)
            && s'.txs[t] == s.txs[t].(rows := s'.txs[t].rows) && |s'.txs[t].rows| == n
  {
    if n == 0 {
      run := before;
      var s := Last(before);
      assert s == s.(txs := s.txs[t := s.txs[t]]);
    } else {
      run := RunInserts(before, t, n - 1);
      var s := Last(run);
      var x := s.txs[t];
      assert EventsOf(x) == EventsOf(Last(before).txs[t]);
      run := Extend(run, s.(txs := s.txs[t := x.(rows := x.rows + [Row(s.nextId, EventsOf(x)[|x.rows|])])],
          nextId := s.nextId + 1), Insert(t));
    }
  }

  /** A transaction that has run all its statements, with its lookups and inserts to come. */
  ghost predicate Ready(s: Sys, t: nat) {
    && t in s.txs && WarehousesOk(s.txs[t].m)
    && s.txs[t].pc == |Program(s.txs[t].m, s.txs[t].m.lines)| && s.txs[t].levels.None? && s.txs[t].rows == []
  }

  /** The lookups find reorder level 0 everywhere, and the outbox rows are inserted. */
  lemma RunEvents(before: seq<Sys>, t: nat) returns (run: seq<Sys>)
    requires Run(before) && Ready(Last(before), t)
    ensures Run(run) && t in Last(run).txs
    ensures var s, s' := Last(before), Last(run);
            var x, y := s.txs[t], s'.txs[t];
            && s' == s.(txs := s.txs[t := y], nextId := s'.nextId)
            && y == x.(levels := y.levels, rows := y.rows) && y.levels.Some? && |y.rows| == |EventsOf(y)|
  {
    var s, x := Last(before), Last(before).txs[t];
    var levels := seq(|x.changes|, _ => 0);
    var y := x.(levels := Some(levels));
    run := Extend(before, s.(txs := s.txs[t := y]), Lookup(t, levels));
    run := RunInserts(run, t, |EventsOf(y)|);
    assert EventsOf(Last(run).txs[t]) == EventsOf(y);
  }

  lemma RunCommit(before: seq<Sys>, t: nat) returns (run: seq<Sys>)
    requires Run(before) && t in Last(before).txs
    requires var y := Last(before).txs[t]; y.levels.Some? && |y.rows| == |EventsOf(y)|
    ensures Run(run)
    ensures var s, s' := Last(before), Last(run);
            var m := s.txs[t].m;
            && s'.txs == s.txs - {t} && m.id in s.movements && WarehousesOk(m)
            && s'.movements == s.movements[m.id := m.(status := Status.Confirmed)]
            && ApplyStock(s.balances, m).Success? && s'.balances == ApplyStock(s.balances, m).value.balances
  {
    var s, y := Last(before), Last(before).txs[t];
    RunKeeps(before, |before| - 1);
    assert TxOk(s, y);
    CommitIsApplyStock(s, t);
    var s' := Sys(s.movements[y.m.id := y.m.(status := Status.Confirmed)], s.balances + y.view,
        WithRows(s.outbox, y.rows), s.nextId, s.txs - {t}, s.log + [MovementConfirmed(y.m, y.levels.value, y.rows)]);
    assert CommitStep(s, s', t);
    run := Extend(before, s', Commit(t));
  }

  /** Any stored draft whose lines fit can be confirmed. */
  lemma RunConfirm(before: seq<Sys>, id: Id) returns (run: seq<Sys>)
    requires Run(before) && Last(before).txs == map[] && id in Last(before).movements
    requires var m := Last(before).movements[id];
             m.status == Draft && WarehousesOk(m) && ApplyStock(Last(before).balances, m).Success?
    ensures Run(run) && Last(run).txs == map[]
    ensures var s, m := Last(before), Last(before).movements[id];
            && Last(run).movements == s.movements[id := m.(status := Status.Confirmed)]
            && Last(run).balances == ApplyStock(s.balances, m).value.balances
  {
    var s, m := Last(before), Last(before).movements[id];
    RunKeeps(before, |before| - 1);
    var program := Program(m, m.lines);
    assert program[..|program|] == program;
    ProgramIsApplyStock(s.balances, m, m.lines);
    run := Extend(before, s.(txs := s.txs[0 := Tx(m, 0, map[], [], None, [])]), Begin(0, id));
    run := RunStatements(run, 0, |program|);
    run := RunEvents(run, 0);
    run := RunCommit(run, 0);
  }

  /** A movement is stored and confirmed. */
  lemma RunMovement(before: seq<Sys>, m: Movement) returns (run: seq<Sys>)
    requires Run(before) && Last(before).txs == map[]
    requires MovementOk(m) && m.status == Draft && IsNew(Last(before).movements, m)
    requires ApplyStock(Last(before).balances, m).Success?
    ensures Run(run) && Last(run).txs == map[]
    ensures Last(run).movements == Last(before).movements[m.id := m.(status := Status.Confirmed)]
    ensures Last(run).balances == ApplyStock(Last(before).balances, m).value.balances
  {
    run := RunDraft(before, m);
    run := RunConfirm(run, m.id);
    assert Last(before).movements[m.id := m][m.id := m.(status := Status.Confirmed)]
        == Last(before).movements[m.id := m.(status := Status.Confirmed)];
  }

  // ---- Tables ---------------------------------------------------------------------------------------------

  /** An id and reference of `n` characters. */
  function Name(n: nat): string {
    seq(n, _ => 'x')
  }

  /** All movements are named by their length, from `low` on and below `high`. */
  ghost predicate Named(ms: map<Id, Movement>, low: nat, high: nat) {
    forall id <- ms :: low <= |id| < high && ms[id].reference == id && ms[id].idempotencyKey.None?
  }

  /** A movement of one line of row `k`: a receipt or an issue. */
  function OneLine(n: nat, k: Key, quantity: int, kind: MovementType): Movement {
    Movement(Name(n), k.tenant, kind, Name(n), if kind == Inbound then None else Some(k.warehouse),
             if kind == Inbound then Some(k.warehouse) else None, Status.Draft, None, None,
             [Line(k.product, quantity)])
  }

  lemma OneLineIsNew(ms: map<Id, Movement>, low: nat, high: nat, k: Key, quantity: int, kind: MovementType)
    requires Named(ms, low, high)
    ensures IsNew(ms, OneLine(high, k, quantity, kind))
  {
    assert |Name(high)| == high;
    forall o <- ms
      ensures o != Name(high) && ms[o].reference != Name(high)
    {
      assert |o| < high;
    }
  }

  lemma OneLineApplies(b: Balances, n: nat, k: Key, quantity: int, kind: MovementType)
    requires InRange(b) && 0 < quantity <= MAX_INT32 && (kind == Inbound || kind == Outbound)
    requires if kind == Inbound then Quantity(b, k) + quantity <= MAX_INT32 else quantity <= Quantity(b, k)
    ensures MovementOk(OneLine(n, k, quantity, kind))
    ensures ApplyStock(b, OneLine(n, k, quantity, kind)).Success?
    ensures ApplyStock(b, OneLine(n, k, quantity, kind)).value.balances ==
            b[k := Quantity(b, k) + if kind == Inbound then quantity else -quantity]
  {
    var m := OneLine(n, k, quantity, kind);
    assert m.lines[..0] == [];
    assert ApplyLines(b, m, m.lines[..0]) == Success(Applied(b, []));
    RaiseExact(b, k, quantity);
    LowerExact(b, k, quantity);
  }

  lemma RunOneLine(before: seq<Sys>, low: nat, high: nat, k: Key, quantity: int, kind: MovementType)
      returns (run: seq<Sys>)
    requires Run(before) && Last(before).txs == map[] && Named(Last(before).movements, low, high) && low <= high
    requires 0 < quantity <= MAX_INT32 && (kind == Inbound || kind == Outbound)
    requires var q := Quantity(Last(before).balances, k);
             if kind == Inbound then q + quantity <= MAX_INT32 else quantity <= q
    ensures Run(run) && Last(run).txs == map[] && Named(Last(run).movements, low, high + 1)
    ensures var b := Last(before).balances;
            Last(run).balances == b[k := Quantity(b, k) + if kind == Inbound then quantity else -quantity]
  {
    RunKeeps(before, |before| - 1);
    OneLineIsNew(Last(before).movements, low, high, k, quantity, kind);
    OneLineApplies(Last(before).balances, high, k, quantity, kind);
    run := RunMovement(before, OneLine(high, k, quantity, kind));
    assert |Name(high)| == high;
  }

  /** Every balance table is reached, by movements whose ids and references are as long as one likes. */
  lemma {:induction false} RunTable(b: Balances, low: nat) returns (run: seq<Sys>, high: nat)
    requires InRange(b)
    ensures Run(run) && Last(run).balances == b && Last(run).txs == map[]
    ensures low <= high && Named(Last(run).movements, low, high)
    decreases b.Keys
  {
    if b == map[] {
      run, high := [EMPTY], low;
    } else {
      var k :| k in b;
      var rest := b - {k};
      run, high := RunTable(rest, low);
      run := RunOneLine(run, low, high, k, if b[k] == 0 then 1 else b[k], Inbound);
      high := high + 1;
      if b[k] == 0 {
        run := RunOneLine(run, low, high, k, 1, Outbound);
        high := high + 1;
      }
      assert rest[k := b[k]] == b;
    }
  }
}
