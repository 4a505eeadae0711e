/** The stock_balances rows that applying a movement locks, in order
    (services/inventory/domains/movement/usecase/stock_apply.go). */
module LockPlan {
  import opened Common
  import opened Schema
  import opened Stock
  import LockOrder

  /** A lock that is held already is not taken again. */
  function LockRow(held: seq<Key>, k: Key): seq<Key> {
    if k in held then held else held + [k]
  }

  function LockRows(held: seq<Key>, ks: seq<Key>): seq<Key> {
    if ks == [] then held else LockRow(LockRows(held, ks[..|ks| - 1]), ks[|ks| - 1])
  }

  /** Some of `rows` were locked, in their order and from the first on. */
  ghost predicate LockedSome(before: seq<Key>, rows: seq<Key>, after: seq<Key>) {
    exists n: nat :: n <= |rows| && after == LockRows(before, rows[..n])
  }

  /** The two rows of a transfer in lock order, none when both are the same warehouse. */
  function TransferRows(src: Key, dst: Key): seq<Key> {
    if src.warehouse == dst.warehouse then []
    else
      var (first, second) := LockOrder.OrderedWarehouseProduct(
        LockOrder.RowKey(src.warehouse, src.product), LockOrder.RowKey(dst.warehouse, src.product));
      [Key(src.tenant, first.warehouse, first.product), Key(src.tenant, second.warehouse, second.product)]
  }

  /** The rows of one line: the raised one, which is ensured first, then the lowered one. */
  function LineRows(m: Movement, product: Id): seq<Key> {
    (if RaisedAt(m).Some? then [Key(m.tenant, RaisedAt(m).value, product)] else [])
    + (if LoweredAt(m).Some? then [Key(m.tenant, LoweredAt(m).value, product)] else [])
  }

  /** The rows of some lines, line by line. */
  function RowsOfLines(m: Movement, lines: seq<Line>): seq<Key> {
    if lines == [] then []
    else RowsOfLines(m, lines[..|lines| - 1]) + LineRows(m, lines[|lines| - 1].product)
  }

  /** The order in which a confirm whose lines all succeed locks its rows. */
  function Plan(m: Movement): seq<Key> {
    LockRows([], RowsOfLines(m, m.lines))
  }

  // ---- Laws of LockRows -----------------------------------------------------------------------

  lemma {:induction false} LockConcat(held: seq<Key>, a: seq<Key>, b: seq<Key>)
    ensures LockRows(held, a + b) == LockRows(LockRows(held, a), b)
  {
    if b == [] {
      assert a + b == a;
    } else {
      LockConcat(held, a, b[..|b| - 1]);
      assert (a + b)[..|a + b| - 1] == a + b[..|b| - 1];
    }
  }

  lemma LockNext(held: seq<Key>, ks: seq<Key>, n: nat)
    requires n < |ks|
    ensures LockRows(held, ks[..n + 1]) == LockRow(LockRows(held, ks[..n]), ks[n])
  {
    assert ks[..n + 1][..n] == ks[..n];
  }

  lemma LockOne(held: seq<Key>, k: Key)
    ensures LockRows(held, [k]) == LockRow(held, k)
  {
    assert [k][..0] == [];
  }

  lemma LockTwo(held: seq<Key>, a: Key, b: Key)
    ensures LockRows(held, [a, b]) == LockRow(LockRow(held, a), b)
  {
    assert [a, b][..1] == [a];
    LockOne(held, a);
  }

  lemma LockedNone(held: seq<Key>, rows: seq<Key>)
    ensures LockedSome(held, rows, held)
  {
    assert rows[..0] == [];
    assert held == LockRows(held, rows[..0]);
  }

  lemma LockedAll(held: seq<Key>, rows: seq<Key>)
    ensures LockedSome(held, rows, LockRows(held, rows))
  {
    assert rows[..|rows|] == rows;
  }

  /** Having locked `done` and then some of `rows` is having locked some of both together. */
  lemma LockedMore(held: seq<Key>, done: seq<Key>, rows: seq<Key>, later: seq<Key>, after: seq<Key>)
    requires LockedSome(LockRows(held, done), rows, after)
    ensures LockedSome(held, done + rows + later, after)
  {
    var n: nat :| n <= |rows| && after == LockRows(LockRows(held, done), rows[..n]);
    LockConcat(held, done, rows[..n]);
    assert (done + rows + later)[..|done| + n] == done + rows[..n];
  }

  lemma LockedOne(held: seq<Key>, k: Key, after: seq<Key>)
    requires after == held || after == LockRow(held, k)
    ensures LockedSome(held, [k], after)
  {
    LockedNone(held, [k]);
    LockedAll(held, [k]);
    LockOne(held, k);
  }

  /** TransferDelta locks its pair in order, but when the destination is held already only the source is new. */
  lemma TransferAfterEnsure(held: seq<Key>, src: Key, dst: Key, after: seq<Key>)
    requires src.tenant == dst.tenant && src.product == dst.product && src.warehouse != dst.warehouse
    requires dst in held && LockedSome(held, TransferRows(src, dst), after)
    ensures after == held || after == LockRow(held, src)
    ensures LockRows(held, TransferRows(src, dst)) == LockRow(held, src)
  {
    var rows := TransferRows(src, dst);
    assert rows == [src, dst] || rows == [dst, src];
    LockTwo(held, rows[0], rows[1]);
    LockOne(held, rows[0]);
    assert rows == [rows[0], rows[1]] && rows[..0] == [] && rows[..1] == [rows[0]] && rows[..2] == rows;
    var n: nat :| n <= |rows| && after == LockRows(held, rows[..n]);
    assert n == 0 || n == 1 || n == 2;
  }

  lemma LockedTwo(held: seq<Key>, a: Key, b: Key, after: seq<Key>)
    requires after == held || after == LockRow(held, a) || after == LockRow(LockRow(held, a), b)
    ensures LockedSome(held, [a, b], after)
  {
    LockedNone(held, [a, b]);
    LockedAll(held, [a, b]);
    LockTwo(held, a, b);
    LockOne(held, a);
    assert [a, b][..1] == [a];
  }

  /** The locks of a transfer line: its destination, then TransferDelta's pair. */
  lemma TransferLineLocks(held: seq<Key>, src: Key, dst: Key, after: seq<Key>)
    requires src.tenant == dst.tenant && src.product == dst.product && src.warehouse != dst.warehouse
    requires LockedSome(LockRow(held, dst), TransferRows(src, dst), after)
    ensures LockedSome(held, [dst, src], after)
    ensures var all := LockRows(held, [dst, src]);
            LockRows(LockRow(held, dst), TransferRows(src, dst)) == all && src in all && dst in all
  {
    TransferAfterEnsure(LockRow(held, dst), src, dst, after);
    LockedTwo(held, dst, src, after);
    LockTwo(held, dst, src);
  }

  lemma PairLocks(held: seq<Key>, a: Key, b: Key)
    ensures LockedSome(held, [a, b], LockRow(held, a))
    ensures LockedSome(held, [a, b], LockRow(LockRow(held, a), b))
    ensures LockRows(held, [a, b]) == LockRow(LockRow(held, a), b)
  {
    LockedTwo(held, a, b, LockRow(held, a));
    LockedTwo(held, a, b, LockRow(LockRow(held, a), b));
    LockTwo(held, a, b);
  }

  lemma {:induction false} RowsOfLinesSplit(m: Movement, lines: seq<Line>, i: nat) returns (later: seq<Key>)
    requires i < |lines|
    ensures RowsOfLines(m, lines) == RowsOfLines(m, lines[..i]) + LineRows(m, lines[i].product) + later
  {
    var n := |lines| - 1;
    if i == n {
      later := [];
    } else {
      later := RowsOfLinesSplit(m, lines[..n], i);
      assert lines[..n][..i] == lines[..i];
      later := later + LineRows(m, lines[n].product);
    }
  }

  lemma RowsOfLinesNext(m: Movement, lines: seq<Line>, i: nat)
    requires i < |lines|
    ensures RowsOfLines(m, lines[..i + 1]) == RowsOfLines(m, lines[..i]) + LineRows(m, lines[i].product)
  {
    assert lines[..i + 1][..i] == lines[..i];
  }

  /** After `i` lines and some rows of the next one, some rows of all the lines are locked. */
  lemma LocksStep(held: seq<Key>, m: Movement, lines: seq<Line>, i: nat, after: seq<Key>)
    requires i < |lines|
    requires LockedSome(LockRows(held, RowsOfLines(m, lines[..i])), LineRows(m, lines[i].product), after)
    ensures LockedSome(held, RowsOfLines(m, lines), after)
    ensures LockRows(held, RowsOfLines(m, lines[..i + 1])) ==
            LockRows(LockRows(held, RowsOfLines(m, lines[..i])), LineRows(m, lines[i].product))
  {
    var later := RowsOfLinesSplit(m, lines, i);
    LockedMore(held, RowsOfLines(m, lines[..i]), LineRows(m, lines[i].product), later, after);
    RowsOfLinesNext(m, lines, i);
    LockConcat(held, RowsOfLines(m, lines[..i]), LineRows(m, lines[i].product));
  }

  lemma {:induction false} LockedRows(held: seq<Key>, ks: seq<Key>, k: Key)
    ensures k in LockRows(held, ks) <==> k in held || k in ks
  {
    if ks == [] {
    } else {
      var n := |ks| - 1;
      LockedRows(held, ks[..n], k);
      assert ks == ks[..n] + [ks[n]];
    }
  }

  /** Locks are only added at the end. */
  lemma {:induction false} LocksGrow(held: seq<Key>, ks: seq<Key>, n: nat)
    requires n <= |ks|
    ensures LockRows(held, ks[..n]) <= LockRows(held, ks)
  {
    if n == |ks| {
      assert ks[..n] == ks;
    } else {
      LocksGrow(held, ks[..|ks| - 1], n);
      assert ks[..|ks| - 1][..n] == ks[..n];
    }
  }

  ghost predicate Distinct(ks: seq<Key>) {
    forall i, j :: 0 <= i < j < |ks| ==> ks[i] != ks[j]
  }

  lemma {:induction false} LocksAreDistinct(held: seq<Key>, ks: seq<Key>)
    requires Distinct(held)
    ensures Distinct(LockRows(held, ks))
  {
    if ks == [] {
    } else {
      LocksAreDistinct(held, ks[..|ks| - 1]);
    }
  }

  // ---- Product by product ------------------------------------------------------------------------

  /** The products of some lines, each where it comes first. */
  function FirstProducts(lines: seq<Line>): seq<Id> {
    if lines == [] then []
    else
      var before := FirstProducts(lines[..|lines| - 1]);
      var product := lines[|lines| - 1].product;
      if product in before then before else before + [product]
  }

  function RowsOfProducts(m: Movement, products: seq<Id>): seq<Key> {
    if products == [] then []
    else RowsOfProducts(m, products[..|products| - 1]) + LineRows(m, products[|products| - 1])
  }

  predicate Involves(m: Movement, k: Key) {
    k.tenant == m.tenant && (RaisedAt(m) == Some(k.warehouse) || LoweredAt(m) == Some(k.warehouse))
  }

  lemma {:induction false} RowsOfProductsMembers(m: Movement, products: seq<Id>, k: Key)
    ensures k in RowsOfProducts(m, products) <==> Involves(m, k) && k.product in products
  {
    if products == [] {
    } else {
      var n := |products| - 1;
      RowsOfProductsMembers(m, products[..n], k);
      assert products == products[..n] + [products[n]];
    }
  }

  lemma LockFresh(held: seq<Key>, more: seq<Key>)
    requires |more| == 1 || (|more| == 2 && more[0] != more[1])
    requires more[0] !in held && (|more| == 2 ==> more[1] !in held)
    ensures LockRows(held, more) == held + more
  {
    if |more| == 2 {
      LockTwo(held, more[0], more[1]);
      assert more == [more[0], more[1]] && held + [more[0]] + [more[1]] == held + more;
    } else {
      LockOne(held, more[0]);
      assert more == [more[0]];
    }
  }

  lemma LockHeld(held: seq<Key>, more: seq<Key>)
    requires |more| == 1 || |more| == 2
    requires more[0] in held && (|more| == 2 ==> more[1] in held)
    ensures LockRows(held, more) == held
  {
    if |more| == 2 {
      LockTwo(held, more[0], more[1]);
      assert more == [more[0], more[1]];
    } else {
      LockOne(held, more[0]);
      assert more == [more[0]];
    }
  }

  lemma LineRowsShape(m: Movement, product: Id)
    requires WarehousesOk(m)
    ensures var rows := LineRows(m, product);
            && (|rows| == 1 || (|rows| == 2 && rows[0] != rows[1]))
            && (forall i :: 0 <= i < |rows| ==> Involves(m, rows[i]) && rows[i].product == product)
  {
  }

  /** What a confirm locks: product by product in the order of the lines, the raised warehouse's row before the lowered
      one's. */
  lemma {:induction false} PlanIsByProduct(m: Movement, lines: seq<Line>)
    requires WarehousesOk(m)
    ensures LockRows([], RowsOfLines(m, lines)) == RowsOfProducts(m, FirstProducts(lines))
  {
    if lines == [] {
    } else {
      var n := |lines| - 1;
      var product, before := lines[n].product, FirstProducts(lines[..n]);
      PlanIsByProduct(m, lines[..n]);
      LockConcat([], RowsOfLines(m, lines[..n]), LineRows(m, product));
      LineRowsShape(m, product);
      var more := LineRows(m, product);
      forall i | 0 <= i < |more|
        ensures more[i] in RowsOfProducts(m, before) <==> product in before
      {
        RowsOfProductsMembers(m, before, more[i]);
      }
      if product in before {
        LockHeld(RowsOfProducts(m, before), more);
      } else {
        LockFresh(RowsOfProducts(m, before), more);
      }
      assert (before + [product])[..|before|] == before;
    }
  }
}
