/** One relay publishing the committed outbox to the stream, and a consumer that folds the stream
    (services/inventory/domains/outbox/repository/relay.go, workers/internal/outboxrelay/relay.go). */
module Delivery {
  import opened Schema
  import opened Transactions
  import opened Serializability
  import opened Ledger
  import opened EventOrder
  import RelayWorkers

  /** A stream entry keeps the outbox id as its event id `outbox:<id>`. */
  datatype Pipe = Pipe(sys: Sys, published: set<nat>, relay: RelayWorkers.Phase, stream: seq<Row>)

  const EMPTY_PIPE := Pipe(EMPTY, {}, RelayWorkers.Idle, [])

  /** What the relay does next: its row transaction reads the lowest unpublished committed id, publishes, and marks.
      A publish may reach the stream and still report an error; a crash or an error before the mark commits
      leaves the row unpublished. */
  datatype RelayAction = Claim(id: nat) | Publish | PublishUnsure | Mark | Fail

  ghost predicate RelayStep(p: Pipe, p': Pipe, a: RelayAction) {
    match a
    case Claim(id) =>
      && p.relay.Idle? && id in p.sys.outbox && id !in p.published
      && (forall o <- p.sys.outbox :: o !in p.published ==> id <= o)
      && p' == p.(relay := RelayWorkers.Claimed(id))
    case Publish =>
      && p.relay.Claimed? && p.relay.id in p.sys.outbox
      && p' == p.(relay := RelayWorkers.Sent(p.relay.id), stream := p.stream
          + [Row(p.relay.id, p.sys.outbox[p.relay.id])])
    case PublishUnsure =>
      && p.relay.Claimed? && p.relay.id in p.sys.outbox
      && p' == p.(relay := RelayWorkers.Idle, stream := p.stream + [Row(p.relay.id, p.sys.outbox[p.relay.id])])
    case Mark =>
      p.relay.Sent? && p' == p.(relay := RelayWorkers.Idle, published := p.published + {p.relay.id})
    case Fail =>
      p' == p.(relay := RelayWorkers.Idle)
  }

  ghost predicate PipeStep(p: Pipe, p': Pipe) {
    || (Step(p.sys, p'.sys) && p' == p.(sys := p'.sys))
    || exists a :: RelayStep(p, p', a)
  }

  ghost predicate PipeRun(run: seq<Pipe>) {
    && run != [] && run[0] == EMPTY_PIPE
    && forall i :: 0 < i < |run| ==> PipeStep(run[i - 1], run[i])
  }

  // ---- Stuttering --------------------------------------------------------------------------------------

  /** A sequence with repeated neighbours merged. */
  function Dedup(rows: seq<Row>): seq<Row> {
    if rows == [] then []
    else
      var d := Dedup(rows[..|rows| - 1]);
      if d != [] && d[|d| - 1] == rows[|rows| - 1] then d else d + [rows[|rows| - 1]]
  }

  /** The stream holds `n` rows of the history of `k`, each at least once and in order; `n` is the number of published
      ones or one more. */
  ghost predicate Stutters(p: Pipe, k: Key, n: nat) {
    var h := History(p.sys.log, k);
    && n <= |h|
    && Dedup(RowsOf(p.stream, k)) == h[..n]
    && (forall i :: 0 <= i < |h| && h[i].id in p.published ==> i < n)
    && (forall i :: 0 <= i < n - 1 ==> h[i].id in p.published)
  }

  /** The relay works on an unpublished row all of whose predecessors in its history are published, and once sent it is
      in the stream. */
  ghost predicate RelayOk(p: Pipe, k: Key) {
    !p.relay.Idle? ==>
      && p.relay.id in p.sys.outbox && p.relay.id !in p.published
      && (p.relay.Sent? ==> Row(p.relay.id, p.sys.outbox[p.relay.id]) in p.stream)
      && (forall i, j :: var h := History(p.sys.log, k);
                         0 <= i < j < |h| && h[j].id == p.relay.id ==> h[i].id in p.published)
  }

  ghost predicate Carried(p: Pipe) {
    && (forall id <- p.published :: id in p.sys.outbox && Row(id, p.sys.outbox[id]) in p.stream)
    && (forall r <- p.stream :: r.id in p.sys.outbox && p.sys.outbox[r.id] == r.event)
  }

  ghost predicate Ordered(p: Pipe, k: Key) {
    RelayOk(p, k) && exists n: nat :: Stutters(p, k, n)
  }

  ghost predicate PipeInv(p: Pipe) {
    && Inv(p.sys) && IdsInv(p.sys) && Carried(p)
    && forall k :: Ordered(p, k)
  }

  lemma HistoryMembers(s: Sys, k: Key)
    requires IdsInv(s)
    ensures forall r: Row :: r in History(s.log, k) <==> r.id in s.outbox && s.outbox[r.id] == r.event && Changes(r, k)
  {
    RowsOfMembers(AllRows(s.log), k);
    forall r: Row | r.id in s.outbox && s.outbox[r.id] == r.event
      ensures r in AllRows(s.log)
    {
      assert Row(r.id, s.outbox[r.id]) == r;
    }
  }

  lemma CommitGrows(s: Sys, s': Sys, t: nat, k: Key)
    requires IdsInv(s) && CommitStep(s, s', t)
    ensures History(s'.log, k) == History(s.log, k) + RowsOf(s.txs[t].rows, k)
    ensures forall id <- s.outbox :: id in s'.outbox && s'.outbox[id] == s.outbox[id]
    ensures forall r <- RowsOf(s.txs[t].rows, k) :: r.id !in s.outbox
  {
    var x := s.txs[t];
    assert TxIds(s, x);
    WithRowsHolds(s.outbox, x.rows);
    assert s'.log[..|s.log|] == s.log;
    assert AllRows(s'.log) == AllRows(s.log) + x.rows;
    RowsOfConcat(AllRows(s.log), x.rows, k);
    RowsOfMembers(x.rows, k);
  }

  /** Only a commit adds rows. */
  lemma OthersAddNothing(s: Sys, s': Sys, a: Action)
    requires Inv(s) && StepBy(s, s', a) && !a.Commit?
    ensures AllRows(s'.log) == AllRows(s.log) && s'.outbox == s.outbox
  {
    match a
    case Insert(t) =>
    case Statement(t) => QuietStatement(s, s', t);
    case _ => QuietStep(s, s', a);
  }

  /** A step only appends to the histories, and what it appends is not published. */
  ghost predicate Grows(s: Sys, s': Sys, k: Key) {
    var h, h' := History(s.log, k), History(s'.log, k);
    && |h| <= |h'| && h'[..|h|] == h
    && (forall id <- s.outbox :: id in s'.outbox && s'.outbox[id] == s.outbox[id])
    && (forall r <- h'[|h|..] :: r.id !in s.outbox)
  }

  lemma SameGrows(s: Sys, s': Sys, k: Key)
    requires AllRows(s'.log) == AllRows(s.log) && s'.outbox == s.outbox
    ensures Grows(s, s', k)
  {
    var h := History(s.log, k);
    assert h[..|h|] == h && h[|h|..] == [];
  }

  lemma HistoryGrows(s: Sys, s': Sys, k: Key)
    requires Inv(s) && IdsInv(s) && Step(s, s')
    ensures Grows(s, s', k)
  {
    var a :| StepBy(s, s', a);
    if a.Commit? {
      CommitGrows(s, s', a.t, k);
      var h, more := History(s.log, k), RowsOf(s.txs[a.t].rows, k);
      assert (h + more)[..|h|] == h && (h + more)[|h|..] == more;
    } else {
      OthersAddNothing(s, s', a);
      SameGrows(s, s', k);
    }
  }

  lemma SysKeeps(p: Pipe, p': Pipe)
    requires PipeInv(p) && Step(p.sys, p'.sys) && p' == p.(sys := p'.sys)
    ensures PipeInv(p')
  {
    StepKeeps(p.sys, p'.sys);
    StepIds(p.sys, p'.sys);
    HistoryGrows(p.sys, p'.sys, Key("", "", ""));
    forall k
      ensures Ordered(p', k)
    {
      SysKeepsKey(p, p', k);
    }
  }

  lemma SysKeepsKey(p: Pipe, p': Pipe, k: Key)
    requires PipeInv(p) && Step(p.sys, p'.sys) && p' == p.(sys := p'.sys) && Inv(p'.sys) && IdsInv(p'.sys)
    ensures Ordered(p', k)
  {
    HistoryGrows(p.sys, p'.sys, k);
    GrownKeeps(p, p', k);
  }

  lemma GrownKeeps(p: Pipe, p': Pipe, k: Key)
    requires Carried(p) && Ordered(p, k)
    requires p' == p.(sys := p'.sys)
    requires Grows(p.sys, p'.sys, k)
    ensures Ordered(p', k)
  {
    var h, h' := History(p.sys.log, k), History(p'.sys.log, k);
    forall i | 0 <= i < |h'|
      ensures i < |h| ==> h'[i] == h[i]
      ensures i >= |h| ==> h'[i].id !in p.sys.outbox
    {
      if i < |h| {
        assert h'[..|h|][i] == h[i];
      } else {
        assert h'[|h|..][i - |h|] == h'[i];
      }
    }
    var n: nat :| Stutters(p, k, n);
    assert h'[..n] == h[..n];
    assert Stutters(p', k, n);
  }

  lemma RowsOfAppend(rows: seq<Row>, r: Row, k: Key)
    ensures RowsOf(rows + [r], k) == if Changes(r, k) then RowsOf(rows, k) + [r] else RowsOf(rows, k)
  {
    assert (rows + [r])[..|rows|] == rows;
  }

  /** The row the relay sends is next in its history, or the last one sent again. */
  lemma NextOrLast(p: Pipe, k: Key, n: nat) returns (c: nat)
    requires IdsInv(p.sys) && !p.relay.Idle? && RelayOk(p, k) && Stutters(p, k, n)
    requires Changes(Row(p.relay.id, p.sys.outbox[p.relay.id]), k)
    ensures c < |History(p.sys.log, k)| && (c == n || c == n - 1)
    ensures History(p.sys.log, k)[c] == Row(p.relay.id, p.sys.outbox[p.relay.id])
    ensures forall i :: 0 <= i < c ==> History(p.sys.log, k)[i].id in p.published
  {
    var row := Row(p.relay.id, p.sys.outbox[p.relay.id]);
    var h := History(p.sys.log, k);
    HistoryMembers(p.sys, k);
    assert row in h;
    c :| 0 <= c < |h| && h[c] == row;
    assert forall i :: 0 <= i < c ==> h[i].id in p.published;
    assert n < |h| ==> h[n].id !in p.published;
    assert h[c].id !in p.published;
  }

  lemma DedupAppend(rows: seq<Row>, r: Row)
    ensures var d := Dedup(rows);
            Dedup(rows + [r]) == if d != [] && d[|d| - 1] == r then d else d + [r]
  {
    assert (rows + [r])[..|rows|] == rows;
  }

  lemma DedupNext(rows: seq<Row>, h: seq<Row>, n: nat, c: nat)
    requires Increasing(h) && n <= |h| && c < |h| && (c == n || c == n - 1) && Dedup(rows) == h[..n]
    ensures Dedup(rows + [h[c]]) == h[..c + 1]
  {
    DedupAppend(rows, h[c]);
    assert n > 0 ==> h[..n][n - 1] == h[n - 1];
    assert n > 0 && c == n ==> h[n - 1].id < h[n].id;
    assert h[..c] + [h[c]] == h[..c + 1];
  }

  /** The stream seen from one balance row after sending entry `c` of its history. */
  lemma SendInHistory(p: Pipe, p': Pipe, k: Key, n: nat, c: nat)
    requires Stutters(p, k, n) && Increasing(History(p.sys.log, k))
    requires c < |History(p.sys.log, k)| && (c == n || c == n - 1)
    requires forall i :: 0 <= i < c ==> History(p.sys.log, k)[i].id in p.published
    requires p'.sys == p.sys && p'.published == p.published
    requires RowsOf(p'.stream, k) == RowsOf(p.stream, k) + [History(p.sys.log, k)[c]]
    ensures Stutters(p', k, c + 1)
  {
    DedupNext(RowsOf(p.stream, k), History(p.sys.log, k), n, c);
  }

  lemma SendKeeps(p: Pipe, p': Pipe, k: Key, n: nat)
    requires IdsInv(p.sys) && !p.relay.Idle? && RelayOk(p, k) && Stutters(p, k, n)
    requires p'.sys == p.sys && p'.published == p.published
    requires p'.stream == p.stream + [Row(p.relay.id, p.sys.outbox[p.relay.id])]
    ensures exists n': nat :: Stutters(p', k, n')
  {
    var row := Row(p.relay.id, p.sys.outbox[p.relay.id]);
    RowsOfAppend(p.stream, row, k);
    if Changes(row, k) {
      var c := NextOrLast(p, k, n);
      SendInHistory(p, p', k, n, c);
    } else {
      assert Stutters(p', k, n);
    }
  }

  lemma MarkKeeps(p: Pipe, p': Pipe, k: Key, n: nat)
    requires IdsInv(p.sys) && p.relay.Sent? && RelayOk(p, k) && Stutters(p, k, n)
    requires p' == p.(relay := RelayWorkers.Idle, published := p.published + {p.relay.id})
    ensures Stutters(p', k, n)
  {
    var row := Row(p.relay.id, p.sys.outbox[p.relay.id]);
    var h := History(p.sys.log, k);
    HistoryMembers(p.sys, k);
    forall i | 0 <= i < |h| && h[i].id in p'.published
      ensures i < n
    {
      if h[i].id !in p.published {
        assert h[i] in h;
        assert h[i] == row;
        RowsOfMembers(p.stream, k);
        DedupMembers(RowsOf(p.stream, k));
        assert row in h[..n];
        var j :| 0 <= j < n && h[..n][j] == row;
        assert h[j].id == h[i].id;
      }
    }
  }

  lemma {:induction false} DedupMembers(rows: seq<Row>)
    ensures forall r :: r in Dedup(rows) <==> r in rows
  {
    if rows == [] {
    } else {
      DedupMembers(rows[..|rows| - 1]);
      assert rows == rows[..|rows| - 1] + [rows[|rows| - 1]];
    }
  }

  lemma ClaimKeeps(p: Pipe, p': Pipe, k: Key, id: nat)
    requires IdsInv(p.sys) && RelayStep(p, p', Claim(id))
    ensures RelayOk(p', k)
  {
    HistoryMembers(p.sys, k);
    var h := History(p.sys.log, k);
    forall i, j | 0 <= i < j < |h| && h[j].id == id
      ensures h[i].id in p.published
    {
      assert h[i] in h && h[i].id < h[j].id;
    }
  }

  lemma RelayKeeps(p: Pipe, p': Pipe, a: RelayAction)
    requires PipeInv(p) && RelayStep(p, p', a)
    ensures PipeInv(p')
  {
    forall k
      ensures Ordered(p', k)
    {
      assert Ordered(p, k);
      var n: nat :| Stutters(p, k, n);
      match a
      case Claim(id) => ClaimKeeps(p, p', k, id); assert Stutters(p', k, n);
      case Publish => SendKeeps(p, p', k, n);
      case PublishUnsure => SendKeeps(p, p', k, n);
      case Mark => MarkKeeps(p, p', k, n);
      case Fail => assert Stutters(p', k, n);
    }
    assert Ordered(p, Key("", "", ""));
  }

  lemma PipeStepKeeps(p: Pipe, p': Pipe)
    requires PipeInv(p) && PipeStep(p, p')
    ensures PipeInv(p')
  {
    if Step(p.sys, p'.sys) && p' == p.(sys := p'.sys) {
      SysKeeps(p, p');
    } else {
      var a :| RelayStep(p, p', a);
      RelayKeeps(p, p', a);
    }
  }

  lemma {:induction false} PipeRunKeeps(run: seq<Pipe>, i: nat)
    requires PipeRun(run) && i < |run|
    ensures PipeInv(run[i])
  {
    if i > 0 {
      PipeRunKeeps(run, i - 1);
      PipeStepKeeps(run[i - 1], run[i]);
    } else {
      var p := run[0];
      forall k
        ensures Ordered(p, k) && Increasing(History(p.sys.log, k))
      {
        assert Stutters(p, k, 0);
      }
    }
  }

  // ---- Main results --------------------------------------------------------------------------------------------

  /** Whatever fails or crashes, with one relay the stream's StockChanged entries of a balance row are a stuttering
      prefix of its history, and a published row is in the stream. */
  lemma StreamFollowsHistory(run: seq<Pipe>, i: nat, k: Key)
    requires PipeRun(run) && i < |run|
    ensures exists n: nat :: n <= |History(run[i].sys.log, k)|
                             && Dedup(RowsOf(run[i].stream, k)) == History(run[i].sys.log, k)[..n]
    ensures Carried(run[i])
  {
    PipeRunKeeps(run, i);
    assert Ordered(run[i], k);
    var n: nat :| Stutters(run[i], k, n);
  }

  /** The consumer: the first entry of every event id is applied, later ones are dropped. */
  function Rebuild(stream: seq<Row>): Balances {
    if stream == [] then map[]
    else
      var n := |stream| - 1;
      var b := Rebuild(stream[..n]);
      var r := stream[n];
      if r.event.StockChanged? && (forall j :: 0 <= j < n ==> stream[j].id != r.id)
      then b[r.event.change.key := r.event.change.newQty]
      else b
  }

  /** Entries with the same id are the same event. */
  ghost predicate IdsNameEvents(stream: seq<Row>) {
    forall r <- stream, o <- stream :: r.id == o.id ==> r == o
  }

  lemma NoRepeat(rows: seq<Row>, r: Row)
    requires Increasing(rows + [r])
    ensures r !in rows
  {
    forall i | 0 <= i < |rows|
      ensures rows[i].id < r.id
    {
      assert (rows + [r])[i] == rows[i] && (rows + [r])[|rows|] == r;
    }
  }

  lemma PrefixIncreasing(rows: seq<Row>, r: Row)
    requires Increasing(rows + [r])
    ensures Increasing(rows)
  {
    forall i, j | 0 <= i < j < |rows|
      ensures rows[i].id < rows[j].id
    {
      assert (rows + [r])[i] == rows[i] && (rows + [r])[j] == rows[j];
    }
  }

  /** Adding an entry of `k` to the stream either repeats the last one of `k` or is new to the stream. */
  lemma RepeatOrNew(init: seq<Row>, r: Row, k: Key)
    requires IdsNameEvents(init + [r]) && Increasing(Dedup(RowsOf(init + [r], k))) && Changes(r, k)
    ensures var d0, d := Dedup(RowsOf(init, k)), Dedup(RowsOf(init + [r], k));
            && Increasing(d0)
            && (r in init ==> d == d0 && d0 != [] && d0[|d0| - 1] == r)
            && (r !in init ==> d == d0 + [r] && forall o <- init :: o.id != r.id)
  {
    var d0, d := Dedup(RowsOf(init, k)), Dedup(RowsOf(init + [r], k));
    RowsOfAppend(init, r, k);
    DedupAppend(RowsOf(init, k), r);
    RowsOfMembers(init, k);
    DedupMembers(RowsOf(init, k));
    assert r in d0 <==> r in init;
    if d == d0 + [r] {
      PrefixIncreasing(d0, r);
      NoRepeat(d0, r);
    }
    if r !in init {
      NewId(init, r);
    }
  }

  lemma NewId(init: seq<Row>, r: Row)
    requires IdsNameEvents(init + [r]) && r !in init
    ensures forall o <- init :: o.id != r.id
  {
    forall o <- init
      ensures o.id != r.id
    {
      assert o in init + [r] && r in init + [r];
    }
  }

  lemma RebuildAppend(init: seq<Row>, r: Row)
    ensures Rebuild(init + [r]) ==
            if r.event.StockChanged? && (forall o <- init :: o.id != r.id)
            then Rebuild(init)[r.event.change.key := r.event.change.newQty]
            else Rebuild(init)
  {
    var stream := init + [r];
    var n := |stream| - 1;
    assert stream[..n] == init;
    assert (forall j :: 0 <= j < n ==> stream[j].id != r.id) <==> (forall o <- init :: o.id != r.id);
  }

  /** The rebuilt quantity of a row is the one its last entry carries. */
  ghost predicate RebuiltFrom(stream: seq<Row>, k: Key) {
    var d := Dedup(RowsOf(stream, k));
    && (k in Rebuild(stream) <==> d != [])
    && (d != [] ==> Rebuild(stream)[k] == ChangeOf(d[|d| - 1]).newQty)
  }

  lemma RebuiltAppend(init: seq<Row>, r: Row, k: Key)
    requires IdsNameEvents(init + [r]) && Increasing(Dedup(RowsOf(init + [r], k)))
    requires RebuiltFrom(init, k)
    ensures RebuiltFrom(init + [r], k)
  {
    RowsOfAppend(init, r, k);
    RebuildAppend(init, r);
    if Changes(r, k) {
      RepeatOrNew(init, r, k);
    }
  }

  lemma OrderedBefore(init: seq<Row>, r: Row, k: Key)
    requires IdsNameEvents(init + [r]) && Increasing(Dedup(RowsOf(init + [r], k)))
    ensures IdsNameEvents(init) && Increasing(Dedup(RowsOf(init, k)))
  {
    RowsOfAppend(init, r, k);
    forall o <- init
      ensures o in init + [r]
    {
    }
    if Changes(r, k) {
      RepeatOrNew(init, r, k);
    }
  }

  lemma {:induction false} RebuildIsLast(stream: seq<Row>, k: Key)
    requires IdsNameEvents(stream) && Increasing(Dedup(RowsOf(stream, k)))
    ensures RebuiltFrom(stream, k)
  {
    if stream == [] {
    } else {
      var n := |stream| - 1;
      assert stream == stream[..n] + [stream[n]];
      OrderedBefore(stream[..n], stream[n], k);
      RebuildIsLast(stream[..n], k);
      RebuiltAppend(stream[..n], stream[n], k);
    }
  }

  /** Every committed row has been published. */
  ghost predicate Drained(p: Pipe) {
    forall id <- p.sys.outbox :: id in p.published
  }

  lemma DrainedKey(p: Pipe, k: Key)
    requires IdsInv(p.sys) && Ordered(p, k) && Drained(p)
    ensures Dedup(RowsOf(p.stream, k)) == History(p.sys.log, k)
  {
    var h := History(p.sys.log, k);
    var n: nat :| Stutters(p, k, n);
    HistoryMembers(p.sys, k);
    assert h != [] ==> h[|h| - 1] in h;
    assert h[..|h|] == h;
  }

  lemma RebuiltRow(p: Pipe, k: Key)
    requires PipeInv(p) && Drained(p)
    ensures k in Rebuild(p.stream) <==> k in p.sys.balances
    ensures k in p.sys.balances ==> Rebuild(p.stream)[k] == p.sys.balances[k]
  {
    var h := History(p.sys.log, k);
    assert Ordered(p, k);
    DrainedKey(p, k);
    assert Increasing(h);
    RebuildIsLast(p.stream, k);
    LedgerHolds(p.sys.log, k);
    if h != [] {
      assert ChangesOfRows(h)[|h| - 1] == ChangeOf(h[|h| - 1]);
    }
  }

  /** Once the outbox is drained, folding the stream rebuilds exactly the balance table. */
  lemma DrainedStreamRebuildsBalances(run: seq<Pipe>, i: nat)
    requires PipeRun(run) && i < |run| && Drained(run[i])
    ensures Rebuild(run[i].stream) == run[i].sys.balances
  {
    PipeRunKeeps(run, i);
    forall k
      ensures k in Rebuild(run[i].stream) <==> k in run[i].sys.balances
      ensures k in run[i].sys.balances ==> Rebuild(run[i].stream)[k] == run[i].sys.balances[k]
    {
      RebuiltRow(run[i], k);
    }
  }
}
