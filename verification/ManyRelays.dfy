/** The transactions with any number of relays on their outbox: how many relay transactions may be open at once for the
    stream to keep the order of every balance row (services/inventory/domains/outbox/repository/relay.go). A relay that
    crashed counts as long as the database has not ended its transaction. */
module ManyRelays {
  import opened Common
  import opened Schema
  import opened Events
  import opened Transactions
  import opened Serializability
  import opened Ledger
  import opened EventOrder
  import opened Delivery
  import W = RelayWorkers

  /** The outbox of the relays is the committed one. */
  datatype Pipes = Pipes(sys: Sys, hub: W.State)

  const START := Pipes(EMPTY, W.EMPTY)

  /** A step of the transactions, or of relay `a.w` of `n`. */
  ghost predicate PipesStep(p: Pipes, p': Pipes, n: nat) {
    || (Step(p.sys, p'.sys) && p'.hub == p.hub.(outbox := p'.sys.outbox))
    || (p'.sys == p.sys && exists a: W.Action :: RelayMoves(p.hub, p'.hub, a, n))
  }

  ghost predicate RelayMoves(s: W.State, s': W.State, a: W.Action, n: nat) {
    !a.Grow? && a.w < n && W.StepBy(s, s', a)
  }

  ghost predicate PipesRun(run: seq<Pipes>, n: nat) {
    && run != [] && run[0] == START
    && forall i :: 0 < i < |run| ==> PipesStep(run[i - 1], run[i], n)
  }

  // ---- Invariant ------------------------------------------------------------------------------------------

  ghost predicate PipesInv(p: Pipes, n: nat) {
    && Inv(p.sys) && IdsInv(p.sys) && W.Inv(p.hub)
    && p.hub.outbox == p.sys.outbox
    && forall w <- p.hub.workers :: w < n
  }

  lemma PipesStepKeeps(p: Pipes, p': Pipes, n: nat)
    requires PipesInv(p, n) && PipesStep(p, p', n)
    ensures PipesInv(p', n)
  {
    if Step(p.sys, p'.sys) && p'.hub == p.hub.(outbox := p'.sys.outbox) {
      StepKeeps(p.sys, p'.sys);
      StepIds(p.sys, p'.sys);
      HistoryGrows(p.sys, p'.sys, Key("", "", ""));
      assert Grows(p.sys, p'.sys, Key("", "", ""));
      W.GrowKeeps(p.hub, p'.hub);
    } else {
      var a: W.Action :| RelayMoves(p.hub, p'.hub, a, n);
      assert W.Step(p.hub, p'.hub);
      W.StepKeeps(p.hub, p'.hub);
    }
  }

  lemma StartIsFine(n: nat)
    ensures PipesInv(START, n)
  {
    W.RunKeeps([W.EMPTY], 0);
    RunIds([EMPTY], 0);
  }

  lemma {:induction false} PipesRunKeeps(run: seq<Pipes>, i: nat, n: nat)
    requires PipesRun(run, n) && i < |run|
    ensures PipesInv(run[i], n)
  {
    if i == 0 {
      StartIsFine(n);
    } else {
      PipesRunKeeps(run, i - 1, n);
      PipesStepKeeps(run[i - 1], run[i], n);
    }
  }

  // ---- One relay --------------------------------------------------------------------------------------------

  function OnlyRelay(s: W.State): W.Phase {
    if 0 in s.workers then s.workers[0] else W.Idle
  }

  function Single(p: Pipes): Pipe {
    Pipe(p.sys, p.hub.published, OnlyRelay(p.hub), p.hub.stream)
  }

  lemma NobodyElseHolds(s: W.State, id: nat)
    requires OnlyRelay(s).Idle? && forall w <- s.workers :: w == 0
    ensures W.Free(s, id) <==> id in s.outbox && id !in s.published
  {
  }

  lemma RelayMoveIsSingle(p: Pipes, p': Pipes, a: W.Action)
    requires p'.sys == p.sys && RelayMoves(p.hub, p'.hub, a, 1)
    requires p.hub.outbox == p.sys.outbox && forall w <- p.hub.workers :: w == 0
    ensures PipeStep(Single(p), Single(p'))
  {
    match a
    case Join(w) => assert RelayStep(Single(p), Single(p'), Fail);
    case Claim(w, id) =>
      forall o ensures W.Free(p.hub, o) <==> o in p.hub.outbox && o !in p.hub.published { NobodyElseHolds(p.hub, o); }
      assert RelayStep(Single(p), Single(p'), RelayAction.Claim(id));
    case Publish(w) => assert RelayStep(Single(p), Single(p'), RelayAction.Publish);
    case PublishUnsure(w) => assert RelayStep(Single(p), Single(p'), RelayAction.PublishUnsure);
    case Mark(w) => assert RelayStep(Single(p), Single(p'), RelayAction.Mark);
    case Crash(w) => assert RelayStep(Single(p), Single(p'), Fail);
  }

  lemma StepIsSingle(p: Pipes, p': Pipes, n: nat)
    requires PipesInv(p, n) && PipesStep(p, p', n) && n <= 1
    ensures PipeStep(Single(p), Single(p'))
  {
    if !(Step(p.sys, p'.sys) && p'.hub == p.hub.(outbox := p'.sys.outbox)) {
      var a: W.Action :| RelayMoves(p.hub, p'.hub, a, n);
      RelayMoveIsSingle(p, p', a);
    }
  }

  lemma RunIsSingle(run: seq<Pipes>, n: nat) returns (single: seq<Pipe>)
    requires PipesRun(run, n) && n <= 1
    ensures PipeRun(single) && |single| == |run|
    ensures forall i :: 0 <= i < |run| ==> single[i] == Single(run[i])
  {
    single := seq(|run|, i requires 0 <= i < |run| => Single(run[i]));
    forall i | 0 < i < |single|
      ensures PipeStep(single[i - 1], single[i])
    {
      PipesRunKeeps(run, i - 1, n);
      StepIsSingle(run[i - 1], run[i], n);
    }
  }

  // ---- Two confirms of one balance row ---------------------------------------------------------------------------

  const ROW := Key("t", "w", "p")
  const LINE := Line("p", 1)

  function Receipt(id: Id, lines: seq<Line>): Movement {
    Movement(id, "t", Inbound, id, None, Some("w"), Status.Draft, None, None, lines)
  }

  function ReceiptRows(s: Sys, id: Id): seq<Row> {
    var q := Quantity(s.balances, ROW);
    [Row(s.nextId, MovementCreated("t", id, Inbound, id, 1)),
        Row(s.nextId + 1, StockChanged(id, Change(ROW, q, q + 1)))]
  }

  /** The state after a receipt of one unit was created and confirmed. */
  function Received(s: Sys, id: Id): Sys {
    var m := Receipt(id, [LINE]);
    Sys(s.movements[id := m.(status := Status.Confirmed)],
        s.balances[ROW := Quantity(s.balances, ROW) + 1],
        s.outbox[s.nextId := ReceiptRows(s, id)[0].event][s.nextId + 1 := ReceiptRows(s, id)[1].event],
        s.nextId + 2,
        map[],
        s.log + [MovementAdded(Receipt(id, [])), LineAdded(id, LINE), MovementConfirmed(m, [0], ReceiptRows(s, id))])
  }

  /** Header and line are stored. */
  function Drafted(s: Sys, id: Id): Sys {
    s.(movements := s.movements[id := Receipt(id, [LINE])],
       log := s.log + [MovementAdded(Receipt(id, [])), LineAdded(id, LINE)])
  }

  lemma DraftReceipt(before: seq<Sys>, id: Id) returns (run: seq<Sys>)
    requires Run(before) && before[|before| - 1].txs == map[] && IsNew(before[|before| - 1].movements, Receipt(id, []))
    ensures Run(run) && run[|run| - 1] == Drafted(before[|before| - 1], id)
  {
    var s := before[|before| - 1];
    var m := Receipt(id, []);
    var s1 := s.(movements := s.movements[id := m], log := s.log + [MovementAdded(m)]);
    run := Extend(before, s1, Create(m));
    assert m.lines + [LINE] == [LINE];
    assert s1.log + [LineAdded(id, LINE)] == Drafted(s, id).log;
    assert s1.movements[id := Receipt(id, [LINE])] == Drafted(s, id).movements;
    run := Extend(run, Drafted(s, id), AddLine(id, LINE));
  }

  lemma ReceiptProgram(id: Id)
    ensures Program(Receipt(id, [LINE]), [LINE]) == [Ensure(ROW), Add(ROW, 1)]
  {
    var m := Receipt(id, [LINE]);
    assert [LINE][..0] == [];
    assert Program(m, [LINE]) == Program(m, []) + LineProgram(m, LINE);
  }

  /** Its one line is applied in transaction 0. */
  function Applying(s: Sys, id: Id): Sys {
    var q := Quantity(s.balances, ROW);
    s.(txs := map[0 := Tx(Receipt(id, [LINE]), 2, map[ROW := q + 1], [Change(ROW, q, q + 1)], None, [])])
  }

  lemma ApplyReceipt(before: seq<Sys>, id: Id) returns (run: seq<Sys>)
    requires Run(before)
    requires var s := before[|before| - 1];
             && s.txs == map[] && id in s.movements && s.movements[id] == Receipt(id, [LINE])
             && 0 <= Quantity(s.balances, ROW) < MAX_INT32
    ensures Run(run) && run[|run| - 1] == Applying(before[|before| - 1], id)
  {
    var s := before[|before| - 1];
    var q := Quantity(s.balances, ROW);
    var x := Tx(Receipt(id, [LINE]), 0, map[], [], None, []);
    ReceiptProgram(id);
    run := Extend(before, s.(txs := map[0 := x]), Begin(0, id));
    run := Extend(run, s.(txs := map[0 := x.(pc := 1, view := map[ROW := q])]), Statement(0));
    assert [] + [Change(ROW, q, q + 1)] == [Change(ROW, q, q + 1)] && map[ROW := q][ROW := q + 1] == map[ROW := q + 1];
    run := Extend(run, Applying(s, id), Statement(0));
  }

  /** Transaction 0 with its lookup done and some rows inserted. */
  function Emitting(s: Sys, id: Id, rows: seq<Row>): Sys {
    var q := Quantity(s.balances, ROW);
    s.(txs := map[0 := Tx(Receipt(id, [LINE]), 2, map[ROW := q + 1], [Change(ROW, q, q + 1)], Some([0]), rows)],
       nextId := s.nextId + |rows|)
  }

  lemma ReceiptEvents(s: Sys, id: Id, rows: seq<Row>)
    ensures var es := EventsOf(Emitting(s, id, rows).txs[0]);
            |es| == 2 && es[0] == ReceiptRows(s, id)[0].event && es[1] == ReceiptRows(s, id)[1].event
  {
    var q := Quantity(s.balances, ROW);
    var c := Change(ROW, q, q + 1);
    assert [c][..0] == [] && [0][..0] == [];
    assert AllChangeEvents(Receipt(id, [LINE]), [c], [0]) == [] + [StockChanged(id, c)];
  }

  lemma InsertReceiptRow(before: seq<Sys>, s: Sys, id: Id, rows: seq<Row>) returns (run: seq<Sys>)
    requires Run(before) && |rows| < 2 && before[|before| - 1] == Emitting(s, id, rows)
    ensures Run(run)
    ensures run[|run| - 1] == Emitting(s, id, rows + [Row(s.nextId + |rows|, ReceiptRows(s, id)[|rows|].event)])
  {
    ReceiptEvents(s, id, rows);
    var row := Row(s.nextId + |rows|, ReceiptRows(s, id)[|rows|].event);
    run := Extend(before, Emitting(s, id, rows + [row]), Insert(0));
  }

  lemma EmitReceipt(before: seq<Sys>, s: Sys, id: Id) returns (run: seq<Sys>)
    requires Run(before) && before[|before| - 1] == Applying(s, id)
    ensures Run(run) && run[|run| - 1] == Emitting(s, id, ReceiptRows(s, id))
  {
    ReceiptProgram(id);
    var rows := ReceiptRows(s, id);
    run := Extend(before, Emitting(s, id, []), Lookup(0, [0]));
    run := InsertReceiptRow(run, s, id, []);
    assert [] + [rows[0]] == [rows[0]];
    run := InsertReceiptRow(run, s, id, [rows[0]]);
    assert [rows[0]] + [rows[1]] == rows;
  }

  lemma WithTwoRows(outbox: map<nat, Event>, rows: seq<Row>)
    requires |rows| == 2
    ensures WithRows(outbox, rows) == outbox[rows[0].id := rows[0].event][rows[1].id := rows[1].event]
  {
    assert rows[..1] == [rows[0]] && rows[..1][..0] == [];
    assert WithRows(outbox, rows[..1]) == WithRows(outbox, [])[rows[0].id := rows[0].event];
  }

  lemma CommitReceipt(before: seq<Sys>, s: Sys, id: Id) returns (run: seq<Sys>)
    requires Run(before) && before[|before| - 1] == Emitting(Drafted(s, id), id, ReceiptRows(s, id))
    requires s.txs == map[]
    ensures Run(run) && run[|run| - 1] == Received(s, id)
  {
    var d := Drafted(s, id);
    ReceiptEvents(d, id, ReceiptRows(s, id));
    WithTwoRows(s.outbox, ReceiptRows(s, id));
    assert d.movements[id := Receipt(id, [LINE]).(status := Status.Confirmed)] == Received(s, id).movements;
    assert s.balances + map[ROW := Quantity(s.balances, ROW) + 1] == Received(s, id).balances;
    assert d.log + [MovementConfirmed(Receipt(id, [LINE]), [0], ReceiptRows(s, id))] == Received(s, id).log;
    assert Emitting(d, id, ReceiptRows(s, id)).txs - {0} == map[];
    run := Extend(before, Received(s, id), Commit(0));
  }

  lemma Receive(before: seq<Sys>, id: Id) returns (run: seq<Sys>)
    requires Run(before)
    requires var s := before[|before| - 1];
             && s.txs == map[] && IsNew(s.movements, Receipt(id, []))
             && 0 <= Quantity(s.balances, ROW) < MAX_INT32
    ensures Run(run) && run[|run| - 1] == Received(before[|before| - 1], id)
  {
    var s := before[|before| - 1];
    run := DraftReceipt(before, id);
    run := ApplyReceipt(run, id);
    run := EmitReceipt(run, Drafted(s, id), id);
    assert ReceiptRows(Drafted(s, id), id) == ReceiptRows(s, id);
    run := CommitReceipt(run, s, id);
  }

  /** Two receipts of one product into one warehouse. */
  function TwoReceipts(): Sys {
    Received(Received(EMPTY, "a"), "b")
  }

  const CHANGE1 := Row(2, StockChanged("a", Change(ROW, 0, 1)))
  const CHANGE2 := Row(4, StockChanged("b", Change(ROW, 1, 2)))
  const HEADER1 := Row(1, MovementCreated("t", "a", Inbound, "a", 1))
  const HEADER2 := Row(3, MovementCreated("t", "b", Inbound, "b", 1))

  const OUTBOX: map<nat, Event> :=
    map[1 := HEADER1.event, 2 := CHANGE1.event, 3 := HEADER2.event, 4 := CHANGE2.event]

  lemma ReachTwoReceipts() returns (run: seq<Sys>)
    ensures Run(run) && run[|run| - 1] == TwoReceipts() && TwoReceipts().outbox == OUTBOX
  {
    run := Receive([EMPTY], "a");
    run := Receive(run, "b");
  }

  lemma RowsOfTwo(a: Row, b: Row, k: Key)
    ensures RowsOf([a, b], k) == (if Changes(a, k) then [a] else []) + (if Changes(b, k) then [b] else [])
  {
    assert [a, b][..1] == [a] && [a][..0] == [];
    assert RowsOf([a], k) == RowsOf([], k) + if Changes(a, k) then [a] else [];
  }

  lemma AllRowsAppend(log: seq<Entry>, e: Entry)
    ensures AllRows(log + [e]) == AllRows(log) + if e.MovementConfirmed? then e.rows else []
  {
    assert (log + [e])[..|log|] == log;
  }

  lemma ReceivedHistory(s: Sys, id: Id)
    ensures History(Received(s, id).log, ROW) == History(s.log, ROW) + [ReceiptRows(s, id)[1]]
  {
    var a, b := MovementAdded(Receipt(id, [])), LineAdded(id, LINE);
    var c := MovementConfirmed(Receipt(id, [LINE]), [0], ReceiptRows(s, id));
    AllRowsAppend(s.log, a);
    AllRowsAppend(s.log + [a], b);
    AllRowsAppend(s.log + [a] + [b], c);
    assert s.log + [a] + [b] + [c] == Received(s, id).log;
    assert AllRows(Received(s, id).log) == AllRows(s.log) + ReceiptRows(s, id);
    RowsOfConcat(AllRows(s.log), ReceiptRows(s, id), ROW);
    RowsOfTwo(ReceiptRows(s, id)[0], ReceiptRows(s, id)[1], ROW);
  }

  lemma TwoReceiptsHistory()
    ensures History(TwoReceipts().log, ROW) == [CHANGE1, CHANGE2]
  {
    ReceivedHistory(EMPTY, "a");
    ReceivedHistory(Received(EMPTY, "a"), "b");
  }

  // ---- The second relay overtakes -----------------------------------------------------------------------------------

  lemma ExtendPipes(run: seq<Pipes>, p: Pipes, n: nat) returns (longer: seq<Pipes>)
    requires PipesRun(run, n) && PipesStep(run[|run| - 1], p, n)
    ensures PipesRun(longer, n) && longer[|longer| - 1] == p
  {
    longer := run + [p];
  }

  /** The transactions first, without any relay. */
  lemma {:induction false} WithoutRelays(run: seq<Sys>, n: nat) returns (pipes: seq<Pipes>)
    requires Run(run)
    ensures PipesRun(pipes, n)
    ensures var s := run[|run| - 1]; pipes[|pipes| - 1] == Pipes(s, W.EMPTY.(outbox := s.outbox))
  {
    if |run| == 1 {
      pipes := [START];
    } else {
      var k := |run| - 1;
      pipes := WithoutRelays(run[..k], n);
      var s := run[k];
      assert Step(run[k - 1], s);
      pipes := ExtendPipes(pipes, Pipes(s, W.EMPTY.(outbox := s.outbox)), n);
    }
  }

  lemma RelayMove(run: seq<Pipes>, hub: W.State, a: W.Action, n: nat) returns (longer: seq<Pipes>)
    requires PipesRun(run, n) && RelayMoves(run[|run| - 1].hub, hub, a, n)
    ensures PipesRun(longer, n) && longer[|longer| - 1] == run[|run| - 1].(hub := hub)
  {
    longer := ExtendPipes(run, run[|run| - 1].(hub := hub), n);
  }

  function Hub(published: set<nat>, first: W.Phase, second: W.Phase, stream: seq<Row>): W.State {
    W.State(OUTBOX, published, map[0 := first, 1 := second], stream, map[])
  }

  /** The next row for relay `w` is `id`. */
  lemma ClaimNext(run: seq<Pipes>, hub: W.State, w: nat, id: nat, n: nat) returns (longer: seq<Pipes>)
    requires PipesRun(run, n) && w < n
    requires var s := run[|run| - 1].hub;
             && w in s.workers && s.workers[w].Idle? && W.Free(s, id)
                 && (forall o <- s.outbox :: W.Free(s, o) ==> id <= o)
             && hub == s.(workers := s.workers[w := W.Claimed(id)])
    ensures PipesRun(longer, n) && longer[|longer| - 1] == run[|run| - 1].(hub := hub)
  {
    longer := RelayMove(run, hub, W.Claim(w, id), n);
  }

  lemma IsFree(s: W.State, id: nat)
    requires s.workers.Keys == {0, 1}
    ensures W.Free(s, id) <==>
            && id in s.outbox && id !in s.published
            && (s.workers[0].Idle? || s.workers[0].id != id) && (s.workers[1].Idle? || s.workers[1].id != id)
  {
    assert W.Holds(s, 0, id) <==> !s.workers[0].Idle? && s.workers[0].id == id;
    assert W.Holds(s, 1, id) <==> !s.workers[1].Idle? && s.workers[1].id == id;
  }

  /** Relay 0 publishes the first header; then relay 1 is about to publish the first change. */
  lemma FirstHalf(before: seq<Pipes>, n: nat) returns (run: seq<Pipes>)
    requires PipesRun(before, n) && n >= 2
    requires before[|before| - 1].hub == W.State(OUTBOX, {}, map[], [], map[])
    ensures PipesRun(run, n)
    ensures run[|run| - 1] == before[|before| - 1].(hub := Hub({1}, W.Idle, W.Claimed(2), [HEADER1]))
  {
    run := RelayMove(before, W.State(OUTBOX, {}, map[0 := W.Idle], [], map[]), W.Join(0), n);
    run := RelayMove(run, Hub({}, W.Idle, W.Idle, []), W.Join(1), n);
    forall id ensures W.Free(Hub({}, W.Idle, W.Idle, []), id)
        <==> id in OUTBOX { IsFree(Hub({}, W.Idle, W.Idle, []), id); }
    run := ClaimNext(run, Hub({}, W.Claimed(1), W.Idle, []), 0, 1, n);
    run := RelayMove(run, Hub({}, W.Sent(1), W.Idle, [] + [HEADER1]), W.Publish(0), n);
    var s := Hub({1}, W.Idle, W.Idle, [HEADER1]);
    run := RelayMove(run, s, W.Mark(0), n);
    forall id ensures W.Free(s, id) <==> id in OUTBOX && id != 1 { IsFree(s, id); }
    run := ClaimNext(run, Hub({1}, W.Idle, W.Claimed(2), [HEADER1]), 1, 2, n);
  }

  /** Before relay 1 publishes the first change, relay 0 publishes the second. */
  lemma SecondHalf(before: seq<Pipes>, n: nat) returns (run: seq<Pipes>)
    requires PipesRun(before, n) && n >= 2
    requires before[|before| - 1].hub == Hub({1}, W.Idle, W.Claimed(2), [HEADER1])
    ensures PipesRun(run, n)
    ensures run[|run| - 1] ==
            before[|before| - 1].(hub := Hub({1, 3}, W.Sent(4), W.Claimed(2), [HEADER1, HEADER2, CHANGE2]))
  {
    var s := Hub({1}, W.Idle, W.Claimed(2), [HEADER1]);
    forall id ensures W.Free(s, id) <==> id in OUTBOX && id != 1 && id != 2 { IsFree(s, id); }
    run := ClaimNext(before, Hub({1}, W.Claimed(3), W.Claimed(2), [HEADER1]), 0, 3, n);
    run := RelayMove(run, Hub({1}, W.Sent(3), W.Claimed(2), [HEADER1] + [HEADER2]), W.Publish(0), n);
    var t := Hub({1, 3}, W.Idle, W.Claimed(2), [HEADER1, HEADER2]);
    assert {1} + {3} == {1, 3};
    run := RelayMove(run, t, W.Mark(0), n);
    forall id ensures W.Free(t, id) <==> id == 4 { IsFree(t, id); }
    run := ClaimNext(run, Hub({1, 3}, W.Claimed(4), W.Claimed(2), [HEADER1, HEADER2]), 0, 4, n);
    assert [HEADER1, HEADER2] + [CHANGE2] == [HEADER1, HEADER2, CHANGE2];
    run := RelayMove(run, Hub({1, 3}, W.Sent(4), W.Claimed(2), [HEADER1, HEADER2, CHANGE2]), W.Publish(0), n);
  }

  // ---- Main results ------------------------------------------------------------------------------------------------

  /** The entries of a balance row in the stream are a stuttering prefix of its history. */
  ghost predicate FollowsHistory(sys: Sys, stream: seq<Row>, k: Key) {
    exists m: nat :: m <= |History(sys.log, k)| && Dedup(RowsOf(stream, k)) == History(sys.log, k)[..m]
  }

  ghost predicate OrderKept(n: nat) {
    forall run: seq<Pipes>, i: nat, k: Key :: PipesRun(run, n) && i < |run| ==>
      FollowsHistory(run[i].sys, run[i].hub.stream, k)
  }

  lemma Overtaken()
    ensures !FollowsHistory(TwoReceipts(), [HEADER1, HEADER2, CHANGE2], ROW)
  {
    TwoReceiptsHistory();
    var stream := [HEADER1, HEADER2, CHANGE2];
    assert stream == [HEADER1, HEADER2] + [CHANGE2];
    RowsOfTwo(HEADER1, HEADER2, ROW);
    RowsOfAppend([HEADER1, HEADER2], CHANGE2, ROW);
    assert [CHANGE2][..0] == [];
    assert Dedup([CHANGE2])[0] == CHANGE2;
    forall m: nat | m <= 2
      ensures Dedup(RowsOf(stream, ROW)) != [CHANGE1, CHANGE2][..m]
    {
      assert m > 0 ==> [CHANGE1, CHANGE2][..m][0] == CHANGE1;
    }
  }

  /** With at most `n` relay transactions open at once, whatever fails or crashes, the stream keeps the order of every
      balance row exactly when `n` is at most one. */
  lemma OneRelayKeepsOrder(n: nat)
    ensures OrderKept(n) <==> n <= 1
  {
    if n <= 1 {
      forall run: seq<Pipes>, i: nat, k: Key | PipesRun(run, n) && i < |run|
        ensures FollowsHistory(run[i].sys, run[i].hub.stream, k)
      {
        var single := RunIsSingle(run, n);
        StreamFollowsHistory(single, i, k);
      }
    } else {
      var sys := ReachTwoReceipts();
      var run := WithoutRelays(sys, n);
      run := FirstHalf(run, n);
      run := SecondHalf(run, n);
      Overtaken();
      var last: nat := |run| - 1;
      assert PipesRun(run, n) && !FollowsHistory(run[last].sys, run[last].hub.stream, ROW);
    }
  }

  /** With any number of relays, in every reachable state: no row is held by two of them, every entry of the stream is a
      committed row with its own event, and a published row appears exactly once more than its attempts that aborted
      after the publish. */
  lemma RelaysAreSafe(run: seq<Pipes>, i: nat, n: nat)
    requires PipesRun(run, n) && i < |run|
    ensures var p := run[i];
            && (forall w, u, id :: W.Holds(p.hub, w, id) && W.Holds(p.hub, u, id) ==> w == u)
            && (forall e <- p.hub.stream :: e.id in p.sys.outbox && p.sys.outbox[e.id] == e.event)
            && (forall id <- p.hub.published :: W.Count(p.hub.stream, id) == 1 + W.Aborted(p.hub, id))
  {
    PipesRunKeeps(run, i, n);
    forall id <- run[i].hub.published
      ensures W.Count(run[i].hub.stream, id) == 1 + W.Aborted(run[i].hub, id)
    {
      assert W.Counted(run[i].hub, id);
    }
  }
}
