/** Laws of applyStock over every movement and every balance table. */
module StockLaws {
  import opened Common
  import opened Schema
  import opened Stock

  // ---- What a movement asks for -------------------------------------------------------------

  /** The quantity the lines ask for of one product. */
  function Total(lines: seq<Line>, product: Id): int {
    if lines == [] then 0
    else
      var last := lines[|lines| - 1];
      Total(lines[..|lines| - 1], product) + if last.product == product then last.quantity else 0
  }

  ghost predicate Names(lines: seq<Line>, product: Id) {
    exists i :: 0 <= i < |lines| && lines[i].product == product
  }

  /** The signed quantity the lines add to one balance row. */
  function Net(m: Movement, lines: seq<Line>, k: Key): int {
    if k.tenant != m.tenant then 0
    else
      (if RaisedAt(m) == Some(k.warehouse) then Total(lines, k.product) else 0)
      - (if LoweredAt(m) == Some(k.warehouse) then Total(lines, k.product) else 0)
  }

  /** The rows the lines read or write. */
  ghost predicate Touches(m: Movement, lines: seq<Line>, k: Key) {
    && k.tenant == m.tenant
    && (RaisedAt(m) == Some(k.warehouse) || LoweredAt(m) == Some(k.warehouse))
    && Names(lines, k.product)
  }

  /** Every product's total fits: the lowered balance covers it and the raised one can hold it. */
  ghost predicate Fits(b: Balances, m: Movement, lines: seq<Line>) {
    forall p :: Names(lines, p) ==>
      && (LoweredAt(m).Some? ==> Total(lines, p) <= Quantity(b, Key(m.tenant, LoweredAt(m).value, p)))
      && (RaisedAt(m).Some? ==> Quantity(b, Key(m.tenant, RaisedAt(m).value, p)) + Total(lines, p) <= MAX_INT32)
  }

  /** `r` is `b` with every touched row moved by the net quantity of the lines, and nothing else. */
  ghost predicate MovedBy(b: Balances, r: Balances, m: Movement, lines: seq<Line>) {
    && (forall k :: k in r <==> k in b || Touches(m, lines, k))
    && (forall k <- r :: r[k] == Quantity(b, k) + Net(m, lines, k))
  }

  // ---- Exact success condition -----------------------------------------------------------------

  lemma {:induction false} TotalNonNegative(lines: seq<Line>, p: Id)
    requires LinesOk(lines)
    ensures Total(lines, p) >= 0
    ensures Names(lines, p) <==> Total(lines, p) > 0
  {
    if lines == [] {
    } else {
      var n := |lines| - 1;
      TotalNonNegative(lines[..n], p);
      if Names(lines[..n], p) {
        var i :| 0 <= i < n && lines[..n][i].product == p;
        assert lines[i].product == p;
      }
      if Names(lines, p) && lines[n].product != p {
        var i :| 0 <= i < |lines| && lines[i].product == p;
        assert lines[..n][i].product == p;
      }
    }
  }

  /** One line fits: the lowered balance covers it and the raised one can hold it. */
  predicate LineFits(b: Balances, m: Movement, line: Line) {
    && (LoweredAt(m).Some? ==> line.quantity <= Quantity(b, Key(m.tenant, LoweredAt(m).value, line.product)))
    && (RaisedAt(m).Some? ==>
          Quantity(b, Key(m.tenant, RaisedAt(m).value, line.product)) + line.quantity <= MAX_INT32)
  }

  /** The signed quantity one line adds to one balance row. */
  function LineNet(m: Movement, line: Line, k: Key): int {
    if k.tenant != m.tenant || k.product != line.product then 0
    else
      (if RaisedAt(m) == Some(k.warehouse) then line.quantity else 0)
      - (if LoweredAt(m) == Some(k.warehouse) then line.quantity else 0)
  }

  predicate LineTouches(m: Movement, line: Line, k: Key) {
    && k.tenant == m.tenant && k.product == line.product
    && (RaisedAt(m) == Some(k.warehouse) || LoweredAt(m) == Some(k.warehouse))
  }

  /** One line succeeds exactly when it fits, and then moves exactly its own rows. */
  lemma ApplyLineExact(b: Balances, m: Movement, line: Line)
    requires WarehousesOk(m) && InRange(b) && 0 < line.quantity <= MAX_INT32
    ensures ApplyLine(b, m, line).Success? <==> LineFits(b, m, line)
    ensures ApplyLine(b, m, line).Success? ==>
              var r := ApplyLine(b, m, line).value.balances;
              && InRange(r)
              && (forall k :: k in r <==> k in b || LineTouches(m, line, k))
              && (forall k <- r :: r[k] == Quantity(b, k) + LineNet(m, line, k))
  {
    match (LoweredAt(m), RaisedAt(m))
    case (None, Some(dst)) =>
      RaiseExact(b, Key(m.tenant, dst, line.product), line.quantity);
    case (Some(src), None) =>
      LowerExact(b, Key(m.tenant, src, line.product), line.quantity);
    case (Some(src), Some(dst)) =>
      MoveExact(b, Key(m.tenant, src, line.product), Key(m.tenant, dst, line.product), line.quantity);
  }

  lemma RaiseExact(b: Balances, k: Key, q: int)
    requires InRange(b) && 0 < q <= MAX_INT32
    ensures Raise(b, k, q).Success? <==> Quantity(b, k) + q <= MAX_INT32
    ensures Raise(b, k, q).Success? ==>
              Raise(b, k, q).value
              == Applied(b[k := Quantity(b, k) + q], [Change(k, Quantity(b, k), Quantity(b, k) + q)])
  {
  }

  lemma LowerExact(b: Balances, k: Key, q: int)
    requires InRange(b) && 0 < q <= MAX_INT32
    ensures Lower(b, k, q).Success? <==> q <= Quantity(b, k)
    ensures Lower(b, k, q).Success? ==>
              Lower(b, k, q).value
              == Applied(b[k := Quantity(b, k) - q], [Change(k, Quantity(b, k), Quantity(b, k) - q)])
  {
  }

  lemma MoveExact(b: Balances, src: Key, dst: Key, q: int)
    requires InRange(b) && 0 < q <= MAX_INT32 && src.warehouse != dst.warehouse
    ensures Move(b, src, dst, q).Success? <==> q <= Quantity(b, src) && Quantity(b, dst) + q <= MAX_INT32
    ensures Move(b, src, dst, q).Success? ==>
              Move(b, src, dst, q).value
              == Applied(b[src := Quantity(b, src) - q][dst := Quantity(b, dst) + q],
                         [Change(src, Quantity(b, src), Quantity(b, src) - q),
                          Change(dst, Quantity(b, dst), Quantity(b, dst) + q)])
  {
  }

  // ---- Whole movements -----------------------------------------------------------------------------

  lemma NamesSplit(lines: seq<Line>, p: Id)
    requires lines != []
    ensures Names(lines, p) <==> Names(lines[..|lines| - 1], p) || p == lines[|lines| - 1].product
  {
    var n := |lines| - 1;
    if Names(lines[..n], p) {
      var i :| 0 <= i < n && lines[..n][i].product == p;
      assert lines[i].product == p;
    }
    if Names(lines, p) && p != lines[n].product {
      var i :| 0 <= i < |lines| && lines[i].product == p;
      assert lines[..n][i].product == p;
    }
  }

  /** Adding a last line: the totals fit exactly when those of the earlier lines do and the last line
      fits the table they leave. */
  lemma FitsSplit(b: Balances, mid: Balances, m: Movement, lines: seq<Line>)
    requires lines != [] && WarehousesOk(m) && LinesOk(lines)
    requires MovedBy(b, mid, m, lines[..|lines| - 1])
    ensures Fits(b, m, lines) <==> Fits(b, m, lines[..|lines| - 1]) && LineFits(mid, m, lines[|lines| - 1])
  {
    var n := |lines| - 1;
    var init, last := lines[..n], lines[n];
    forall p
      ensures Names(lines, p) <==> Names(init, p) || p == last.product
      ensures Total(init, p) >= 0 && (Names(init, p) <==> Total(init, p) > 0)
    {
      NamesSplit(lines, p);
      TotalNonNegative(init, p);
    }
    forall k
      ensures Quantity(mid, k) == Quantity(b, k) + Net(m, init, k)
    {
      if k !in mid { assert !Touches(m, init, k); }
    }
    assert Names(lines, last.product);
  }

  lemma MovedBySplit(b: Balances, mid: Balances, r: Balances, m: Movement, lines: seq<Line>)
    requires lines != [] && LinesOk(lines) && MovedBy(b, mid, m, lines[..|lines| - 1])
    requires forall k :: k in r <==> k in mid || LineTouches(m, lines[|lines| - 1], k)
    requires forall k <- r :: r[k] == Quantity(mid, k) + LineNet(m, lines[|lines| - 1], k)
    ensures MovedBy(b, r, m, lines)
  {
    var n := |lines| - 1;
    var init, last := lines[..n], lines[n];
    forall k
      ensures k in r <==> k in b || Touches(m, lines, k)
      ensures k in r ==> r[k] == Quantity(b, k) + Net(m, lines, k)
    {
      NamesSplit(lines, k.product);
      TotalNonNegative(init, k.product);
    }
  }

  /** applyStock succeeds exactly when the totals per product fit, and then the new table is the
      old one with the net quantities added. */
  lemma {:induction false} ApplyLinesExact(b: Balances, m: Movement, lines: seq<Line>)
    requires WarehousesOk(m) && InRange(b) && LinesOk(lines)
    ensures ApplyLines(b, m, lines).Success? <==> Fits(b, m, lines)
    ensures ApplyLines(b, m, lines).Success? ==>
              InRange(ApplyLines(b, m, lines).value.balances)
              && MovedBy(b, ApplyLines(b, m, lines).value.balances, m, lines)
  {
    if lines == [] {
    } else {
      var n := |lines| - 1;
      ApplyLinesExact(b, m, lines[..n]);
      if ApplyLines(b, m, lines[..n]).Success? {
        var mid := ApplyLines(b, m, lines[..n]).value.balances;
        ApplyLineExact(mid, m, lines[n]);
        FitsSplit(b, mid, m, lines);
        if ApplyLine(mid, m, lines[n]).Success? {
          MovedBySplit(b, mid, ApplyLine(mid, m, lines[n]).value.balances, m, lines);
        }
      } else if Fits(b, m, lines) {
        FitsOfPrefix(b, m, lines);
      }
    }
  }

  lemma FitsOfPrefix(b: Balances, m: Movement, lines: seq<Line>)
    requires lines != [] && LinesOk(lines) && Fits(b, m, lines)
    ensures Fits(b, m, lines[..|lines| - 1])
  {
    forall p | Names(lines[..|lines| - 1], p)
      ensures Names(lines, p) && Total(lines[..|lines| - 1], p) <= Total(lines, p)
    {
      NamesSplit(lines, p);
    }
  }

  // ---- Order of the lines ----------------------------------------------------------------------------

  lemma {:induction false} TotalWithout(lines: seq<Line>, i: nat, p: Id)
    requires i < |lines|
    ensures Total(lines, p) ==
            Total(lines[..i] + lines[i + 1..], p) + if lines[i].product == p then lines[i].quantity else 0
  {
    var n := |lines| - 1;
    if i == n {
      assert lines[..i] + lines[i + 1..] == lines[..n];
    } else {
      TotalWithout(lines[..n], i, p);
      var rest := lines[..i] + lines[i + 1..];
      assert rest[..|rest| - 1] == lines[..n][..i] + lines[..n][i + 1..];
      assert rest[|rest| - 1] == lines[n];
    }
  }

  lemma DropFromPermutation(a: seq<Line>, b: seq<Line>) returns (i: nat)
    requires a != [] && multiset(a) == multiset(b)
    ensures i < |b| && b[i] == a[|a| - 1]
    ensures multiset(a[..|a| - 1]) == multiset(b[..i] + b[i + 1..])
  {
    var last := a[|a| - 1];
    assert last in multiset(b);
    i :| 0 <= i < |b| && b[i] == last;
    assert a == a[..|a| - 1] + [last];
    assert b == b[..i] + [last] + b[i + 1..];
    assert multiset(b) == multiset(b[..i]) + multiset{last} + multiset(b[i + 1..]);
    assert multiset(a) == multiset(a[..|a| - 1]) + multiset{last};
    assert multiset(a[..|a| - 1]) == multiset(a) - multiset{last};
    assert multiset(b[..i] + b[i + 1..]) == multiset(b) - multiset{last};
  }

  lemma {:induction false} TotalOfPermutation(a: seq<Line>, b: seq<Line>, p: Id)
    requires multiset(a) == multiset(b)
    ensures Total(a, p) == Total(b, p)
    decreases |a|
  {
    if a == [] {
      assert b == [] by { assert |multiset(b)| == |b|; }
    } else {
      var i := DropFromPermutation(a, b);
      TotalOfPermutation(a[..|a| - 1], b[..i] + b[i + 1..], p);
      TotalWithout(b, i, p);
    }
  }

  lemma LinesOkOfPermutation(a: seq<Line>, b: seq<Line>)
    requires multiset(a) == multiset(b) && LinesOk(a)
    ensures LinesOk(b)
  {
    forall i | 0 <= i < |b|
      ensures 0 < b[i].quantity <= MAX_INT32
    {
      assert b[i] in multiset(a);
      var j :| 0 <= j < |a| && a[j] == b[i];
    }
  }

  /** The lines of a movement are read back in no particular order: every order has the same verdict
      and leaves the same balances. */
  lemma OrderOfLinesIsIrrelevant(b: Balances, m: Movement, a: seq<Line>, c: seq<Line>)
    requires WarehousesOk(m) && InRange(b) && LinesOk(a) && multiset(a) == multiset(c)
    ensures ApplyLines(b, m, a).Success? <==> ApplyLines(b, m, c).Success?
    ensures ApplyLines(b, m, a).Success? ==>
              ApplyLines(b, m, a).value.balances == ApplyLines(b, m, c).value.balances
  {
    LinesOkOfPermutation(a, c);
    ApplyLinesExact(b, m, a);
    ApplyLinesExact(b, m, c);
    forall p
      ensures Total(a, p) == Total(c, p) && (Names(a, p) <==> Names(c, p))
    {
      TotalOfPermutation(a, c, p);
      TotalNonNegative(a, p);
      TotalNonNegative(c, p);
    }
    if ApplyLines(b, m, a).Success? {
      var ra, rc := ApplyLines(b, m, a).value.balances, ApplyLines(b, m, c).value.balances;
      forall k
        ensures k in ra <==> k in rc
        ensures k in ra ==> ra[k] == rc[k]
      {
        assert Touches(m, a, k) <==> Touches(m, c, k);
      }
      assert ra == rc;
    }
  }

  // ---- The recorded changes ------------------------------------------------------------------------------

  /** The changes of one row. */
  function ChangesOf(changes: seq<Change>, k: Key): seq<Change> {
    if changes == [] then []
    else
      var last := changes[|changes| - 1];
      ChangesOf(changes[..|changes| - 1], k) + if last.key == k then [last] else []
  }

  /** Each change starts where the previous one ended, from `first` to `last`. */
  predicate Chain(changes: seq<Change>, first: int, last: int) {
    if changes == [] then first == last
    else
      var c := changes[|changes| - 1];
      c.newQty == last && Chain(changes[..|changes| - 1], first, c.oldQty)
  }

  lemma {:induction false} ChangesOfConcat(a: seq<Change>, b: seq<Change>, k: Key)
    ensures ChangesOf(a + b, k) == ChangesOf(a, k) + ChangesOf(b, k)
  {
    if b == [] {
      assert a + b == a;
    } else {
      ChangesOfConcat(a, b[..|b| - 1], k);
      assert (a + b)[..|a + b| - 1] == a + b[..|b| - 1];
    }
  }

  lemma {:induction false} ChainConcat(a: seq<Change>, b: seq<Change>, first: int, mid: int, last: int)
    requires Chain(a, first, mid) && Chain(b, mid, last)
    ensures Chain(a + b, first, last)
  {
    if b == [] {
      assert a + b == a;
    } else {
      ChainConcat(a, b[..|b| - 1], first, mid, b[|b| - 1].oldQty);
      assert (a + b)[..|a + b| - 1] == a + b[..|b| - 1];
    }
  }

  lemma ChangesOfOne(c: Change, k: Key)
    ensures ChangesOf([c], k) == if c.key == k then [c] else []
    ensures Chain([], c.oldQty, c.oldQty) && Chain([c], c.oldQty, c.newQty)
  {
    assert [c][..0] == [];
  }

  lemma ChangesOfTwo(c: Change, d: Change, k: Key)
    requires c.key != d.key
    ensures ChangesOf([c, d], k) == if c.key == k then [c] else if d.key == k then [d] else []
  {
    assert [c, d] == [c] + [d];
    ChangesOfConcat([c], [d], k);
    ChangesOfOne(c, k);
    ChangesOfOne(d, k);
  }

  /** What one recorded change says about one row of the table it leaves. */
  lemma OneChange(b: Balances, r: Balances, c: Change, k: Key)
    requires c.oldQty == Quantity(b, c.key) && r == b[c.key := c.newQty]
    ensures Chain(ChangesOf([c], k), Quantity(b, k), Quantity(r, k))
    ensures ChangesOf([c], k) != [] <==> k == c.key
  {
    ChangesOfOne(c, k);
  }

  lemma TwoChanges(b: Balances, r: Balances, c: Change, d: Change, k: Key)
    requires c.key != d.key && r == b[c.key := c.newQty][d.key := d.newQty]
    requires c.oldQty == Quantity(b, c.key) && d.oldQty == Quantity(b, d.key)
    ensures Chain(ChangesOf([c, d], k), Quantity(b, k), Quantity(r, k))
    ensures ChangesOf([c, d], k) != [] <==> k == c.key || k == d.key
  {
    ChangesOfTwo(c, d, k);
    ChangesOfOne(c, k);
    ChangesOfOne(d, k);
  }

  lemma ApplyLineChain(b: Balances, m: Movement, line: Line, k: Key)
    requires WarehousesOk(m) && InRange(b) && 0 < line.quantity <= MAX_INT32
    requires ApplyLine(b, m, line).Success?
    ensures var r := ApplyLine(b, m, line).value;
            && Chain(ChangesOf(r.changes, k), Quantity(b, k), Quantity(r.balances, k))
            && (ChangesOf(r.changes, k) != [] <==> LineTouches(m, line, k))
  {
    var p, q := line.product, line.quantity;
    var r := ApplyLine(b, m, line).value;
    match (LoweredAt(m), RaisedAt(m))
    case (None, Some(dst)) =>
      RaiseExact(b, Key(m.tenant, dst, p), q);
      OneChange(b, r.balances, r.changes[0], k);
      assert r.changes == [r.changes[0]];
    case (Some(src), None) =>
      LowerExact(b, Key(m.tenant, src, p), q);
      OneChange(b, r.balances, r.changes[0], k);
      assert r.changes == [r.changes[0]];
    case (Some(src), Some(dst)) =>
      MoveExact(b, Key(m.tenant, src, p), Key(m.tenant, dst, p), q);
      TwoChanges(b, r.balances, r.changes[0], r.changes[1], k);
      assert r.changes == [r.changes[0], r.changes[1]];
  }

  /** The changes of one row form a chain from its old to its new quantity, and a row has changes
      exactly when a line touches it. */
  lemma {:induction false} ApplyLinesChain(b: Balances, m: Movement, lines: seq<Line>, k: Key)
    requires WarehousesOk(m) && InRange(b) && LinesOk(lines) && ApplyLines(b, m, lines).Success?
    ensures var r := ApplyLines(b, m, lines).value;
            && Chain(ChangesOf(r.changes, k), Quantity(b, k), Quantity(r.balances, k))
            && (ChangesOf(r.changes, k) != [] <==> Touches(m, lines, k))
  {
    if lines == [] {
    } else {
      var n := |lines| - 1;
      ApplyLinesExact(b, m, lines[..n]);
      ApplyLinesChain(b, m, lines[..n], k);
      NamesSplit(lines, k.product);
      var before := ApplyLines(b, m, lines[..n]).value;
      var last := ApplyLine(before.balances, m, lines[n]).value;
      ApplyLineChain(before.balances, m, lines[n], k);
      ChangesOfConcat(before.changes, last.changes, k);
      ChainConcat(ChangesOf(before.changes, k), ChangesOf(last.changes, k),
                  Quantity(b, k), Quantity(before.balances, k), Quantity(last.balances, k));
    }
  }

  ghost predicate ChangesInRange(changes: seq<Change>) {
    forall i :: 0 <= i < |changes| ==>
      0 <= changes[i].oldQty <= MAX_INT32 && 0 <= changes[i].newQty <= MAX_INT32
  }

  lemma ApplyLineInRange(b: Balances, m: Movement, line: Line)
    requires WarehousesOk(m) && InRange(b) && 0 < line.quantity <= MAX_INT32 && ApplyLine(b, m, line).Success?
    ensures ChangesInRange(ApplyLine(b, m, line).value.changes)
  {
    match (LoweredAt(m), RaisedAt(m))
    case (None, Some(dst)) => RaiseExact(b, Key(m.tenant, dst, line.product), line.quantity);
    case (Some(src), None) => LowerExact(b, Key(m.tenant, src, line.product), line.quantity);
    case (Some(src), Some(dst)) =>
      MoveExact(b, Key(m.tenant, src, line.product), Key(m.tenant, dst, line.product), line.quantity);
  }

  /** Every old and new quantity fits int32, so the int32 expressions that compute them never wrap. */
  lemma {:induction false} ApplyLinesInRange(b: Balances, m: Movement, lines: seq<Line>)
    requires WarehousesOk(m) && InRange(b) && LinesOk(lines) && ApplyLines(b, m, lines).Success?
    ensures ChangesInRange(ApplyLines(b, m, lines).value.changes)
  {
    if lines == [] {
    } else {
      var n := |lines| - 1;
      ApplyLinesExact(b, m, lines[..n]);
      ApplyLinesInRange(b, m, lines[..n]);
      ApplyLineInRange(ApplyLines(b, m, lines[..n]).value.balances, m, lines[n]);
    }
  }

  // ---- Conservation ------------------------------------------------------------------------------------------

  ghost function SumOver(b: Balances, keys: set<Key>): int
    decreases keys
  {
    if keys == {} then 0
    else
      var k :| k in keys;
      Quantity(b, k) + SumOver(b, keys - {k})
  }

  lemma {:induction false} SumWithout(b: Balances, keys: set<Key>, k: Key)
    requires k in keys
    ensures SumOver(b, keys) == Quantity(b, k) + SumOver(b, keys - {k})
    decreases keys
  {
    var picked :| picked in keys && SumOver(b, keys) == Quantity(b, picked) + SumOver(b, keys - {picked});
    if picked != k {
      SumWithout(b, keys - {picked}, k);
      SumWithout(b, keys - {k}, picked);
      assert keys - {picked} - {k} == keys - {k} - {picked};
    }
  }

  lemma {:induction false} SumAgrees(b: Balances, c: Balances, keys: set<Key>)
    requires forall k <- keys :: Quantity(b, k) == Quantity(c, k)
    ensures SumOver(b, keys) == SumOver(c, keys)
    decreases keys
  {
    if keys == {} {
    } else {
      var k :| k in keys;
      SumWithout(b, keys, k);
      SumWithout(c, keys, k);
      SumAgrees(b, c, keys - {k});
    }
  }

  lemma {:induction false} SumIgnoresMissing(b: Balances, keys: set<Key>, more: set<Key>)
    requires keys <= more && forall k <- more - keys :: k !in b
    ensures SumOver(b, keys) == SumOver(b, more)
    decreases more
  {
    if keys != more {
      assert exists k :: k in more && k !in keys;
      var k :| k in more && k !in keys;
      SumWithout(b, more, k);
      SumIgnoresMissing(b, keys, more - {k});
    }
  }

  function ProductRows(b: Balances, tenant: Id, product: Id): set<Key> {
    set k <- b | k.tenant == tenant && k.product == product
  }

  /** The stock of one product over all warehouses of a tenant. */
  ghost function ProductTotal(b: Balances, tenant: Id, product: Id): int {
    SumOver(b, ProductRows(b, tenant, product))
  }

  lemma SumWithOneChange(b: Balances, c: Balances, keys: set<Key>, k: Key)
    requires forall j <- keys :: j != k ==> Quantity(b, j) == Quantity(c, j)
    ensures SumOver(c, keys) == SumOver(b, keys) + if k in keys then Quantity(c, k) - Quantity(b, k) else 0
  {
    if k in keys {
      SumWithout(b, keys, k);
      SumWithout(c, keys, k);
      SumAgrees(b, c, keys - {k});
    } else {
      SumAgrees(b, c, keys);
    }
  }

  /** A movement changes the tenant's stock of a product by what it brings in minus what it takes out;
      a transfer conserves it. */
  lemma StockIsConserved(b: Balances, r: Balances, m: Movement, lines: seq<Line>, p: Id)
    requires WarehousesOk(m) && LinesOk(lines) && MovedBy(b, r, m, lines)
    ensures ProductTotal(r, m.tenant, p) ==
            ProductTotal(b, m.tenant, p)
            + (if RaisedAt(m).Some? then Total(lines, p) else 0)
            - (if LoweredAt(m).Some? then Total(lines, p) else 0)
    ensures m.kind == Transfer ==> ProductTotal(r, m.tenant, p) == ProductTotal(b, m.tenant, p)
  {
    TotalNonNegative(lines, p);
    var keys := ProductRows(r, m.tenant, p);
    assert ProductRows(b, m.tenant, p) <= keys;
    SumIgnoresMissing(b, ProductRows(b, m.tenant, p), keys);
    if RaisedAt(m).Some? {
      var dst := Key(m.tenant, RaisedAt(m).value, p);
      assert Names(lines, p) ==> Touches(m, lines, dst);
      var raised := b[dst := Quantity(b, dst) + Total(lines, p)];
      SumWithOneChange(b, raised, keys, dst);
      if LoweredAt(m).Some? {
        var src := Key(m.tenant, LoweredAt(m).value, p);
        assert Names(lines, p) ==> Touches(m, lines, src);
        SumWithOneChange(raised, r, keys, src);
      } else {
        SumAgrees(raised, r, keys);
      }
    } else {
      var src := Key(m.tenant, LoweredAt(m).value, p);
      assert Names(lines, p) ==> Touches(m, lines, src);
      SumWithOneChange(b, r, keys, src);
    }
  }
}
