/** The order in which stock_balances rows are locked
    (services/inventory/domains/stock/repository/order.go). */
module LockOrder {

  /** WarehouseProductKey; the tenant is passed beside it. */
  datatype RowKey = RowKey(warehouse: string, product: string)

  /** Go's `<` on strings. */
  predicate StringLess(a: string, b: string) {
    if b == "" then false
    else if a == "" then true
    else if a[0] != b[0] then a[0] < b[0]
    else StringLess(a[1..], b[1..])
  }

  predicate LessWarehouseProduct(a: RowKey, b: RowKey) {
    if a.warehouse != b.warehouse then StringLess(a.warehouse, b.warehouse)
    else StringLess(a.product, b.product)
  }

  function OrderedWarehouseProduct(a: RowKey, b: RowKey): (r: (RowKey, RowKey))
    ensures r == (a, b) || r == (b, a)
  {
    if LessWarehouseProduct(b, a) then (b, a) else (a, b)
  }

  lemma {:induction false} StringLessTotal(a: string, b: string)
    ensures !(StringLess(a, b) && StringLess(b, a))
    ensures a == b <==> !StringLess(a, b) && !StringLess(b, a)
  {
    if a != "" && b != "" && a[0] == b[0] {
      StringLessTotal(a[1..], b[1..]);
      assert a == [a[0]] + a[1..] && b == [b[0]] + b[1..];
    }
  }

  lemma {:induction false} StringLessTransitive(a: string, b: string, c: string)
    requires StringLess(a, b) && StringLess(b, c)
    ensures StringLess(a, c)
  {
    if a != "" && a[0] == b[0] && b[0] == c[0] {
      StringLessTransitive(a[1..], b[1..], c[1..]);
    }
  }

  /** Exactly one of `a` before `b`, `b` before `a`, and `a == b` holds. */
  lemma LessIsTrichotomous(a: RowKey, b: RowKey)
    ensures LessWarehouseProduct(a, b) ==> !LessWarehouseProduct(b, a)
    ensures a == b <==> !LessWarehouseProduct(a, b) && !LessWarehouseProduct(b, a)
  {
    StringLessTotal(a.warehouse, b.warehouse);
    StringLessTotal(a.product, b.product);
  }

  lemma LessIsTransitive(a: RowKey, b: RowKey, c: RowKey)
    requires LessWarehouseProduct(a, b) && LessWarehouseProduct(b, c)
    ensures LessWarehouseProduct(a, c)
  {
    StringLessTotal(a.warehouse, b.warehouse);
    if a.warehouse == b.warehouse && b.warehouse == c.warehouse {
      StringLessTransitive(a.product, b.product, c.product);
    } else if a.warehouse != b.warehouse && b.warehouse != c.warehouse {
      StringLessTotal(b.warehouse, c.warehouse);
      StringLessTransitive(a.warehouse, b.warehouse, c.warehouse);
      StringLessTotal(a.warehouse, c.warehouse);
    }
  }

  /** Whichever way round two transfers name the same two rows, they lock them in the same order. */
  lemma OrderedIsSymmetric(a: RowKey, b: RowKey)
    ensures OrderedWarehouseProduct(a, b) == OrderedWarehouseProduct(b, a)
    ensures a != b ==> LessWarehouseProduct(OrderedWarehouseProduct(a, b).0, OrderedWarehouseProduct(a, b).1)
  {
    LessIsTrichotomous(a, b);
  }

  /** A finite non-empty set of row keys has a last one. */
  lemma {:induction false} LastKey(keys: set<RowKey>) returns (last: RowKey)
    requires keys != {}
    ensures last in keys
    ensures forall k :: k in keys ==> !LessWarehouseProduct(last, k)
    decreases keys
  {
    var any :| any in keys;
    LessIsTrichotomous(any, any);
    if keys == {any} {
      last := any;
    } else {
      var rest := LastKey(keys - {any});
      last := if LessWarehouseProduct(rest, any) then any else rest;
      forall k | k in keys
        ensures !LessWarehouseProduct(last, k)
      {
        if k != any && LessWarehouseProduct(any, k) && LessWarehouseProduct(rest, any) {
          LessIsTransitive(rest, any, k);
        }
      }
    }
  }
}
