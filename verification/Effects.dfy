/** What a confirm and a create do to the database, said row by row. */
module Effects {
  import opened Common
  import opened Schema
  import opened Store
  import opened Stock
  import opened StockLaws
  import opened Events
  import StockApply

  // ---- Stock -----------------------------------------------------------------------------------

  /** Warehouse `w` receives what the lines of such a movement name. */
  predicate Brings(kind: MovementType, source: Option<Id>, destination: Option<Id>, w: Id) {
    match kind
    case Inbound => destination == Some(w)
    case Outbound => false
    case Transfer => destination == Some(w)
    case Adjustment => source == None && destination == Some(w)
  }

  /** Warehouse `w` gives it. */
  predicate Takes(kind: MovementType, source: Option<Id>, destination: Option<Id>, w: Id) {
    match kind
    case Inbound => false
    case Outbound => source == Some(w)
    case Transfer => source == Some(w)
    case Adjustment => source == Some(w)
  }

  /** Every quantity of the tenant moved by the totals of the lines, and no other quantity did. */
  ghost predicate StockMoves(b: Balances, r: Balances, tenant: Id, kind: MovementType, source: Option<Id>,
      destination: Option<Id>, lines: seq<Line>) {
    forall k: Key ::
      Quantity(r, k) ==
        Quantity(b, k)
        + (if k.tenant == tenant && Brings(kind, source, destination, k.warehouse) then Total(lines, k.product) else 0)
        - (if k.tenant == tenant && Takes(kind, source, destination, k.warehouse) then Total(lines, k.product) else 0)
  }

  /** What the recorded changes say: per row they lead from the old to the new quantity. */
  ghost predicate ChangesTell(b: Balances, r: Balances, changes: seq<Change>) {
    forall k: Key :: Chain(ChangesOf(changes, k), Quantity(b, k), Quantity(r, k))
  }

  lemma ApplyStockMoves(b: Balances, m: Movement)
    requires MovementOk(m) && InRange(b) && ApplyStock(b, m).Success?
    ensures var a := ApplyStock(b, m).value;
            && StockMoves(b, a.balances, m.tenant, m.kind, m.source, m.destination, m.lines)
            && ChangesTell(b, a.balances, a.changes)
  {
    var a := ApplyStock(b, m).value;
    ApplyLinesExact(b, m, m.lines);
    forall k: Key
      ensures Quantity(a.balances, k) == Quantity(b, k) + Net(m, m.lines, k)
      ensures Chain(ChangesOf(a.changes, k), Quantity(b, k), Quantity(a.balances, k))
    {
      TotalNonNegative(m.lines, k.product);
      ApplyLinesChain(b, m, m.lines, k);
    }
  }

  // ---- Why stock is refused -----------------------------------------------------------------------

  /** The first line with which the totals do not fit any more. */
  ghost predicate FailsAt(b: Balances, m: Movement, i: nat) {
    i < |m.lines| && Fits(b, m, m.lines[..i]) && !Fits(b, m, m.lines[..i + 1])
  }

  /** Some warehouse that gives the product of line `i` has less than the lines up to it take. */
  ghost predicate Short(b: Balances, m: Movement, i: nat)
    requires i < |m.lines|
  {
    var p := m.lines[i].product;
    exists w :: Takes(m.kind, m.source, m.destination, w)
                && Quantity(b, Key(m.tenant, w, p)) < Total(m.lines[..i + 1], p)
  }

  lemma LineError(b: Balances, m: Movement, line: Line)
    requires WarehousesOk(m) && InRange(b) && 0 < line.quantity <= MAX_INT32 && !LineFits(b, m, line)
    ensures ApplyLine(b, m, line) ==
            Failure(
              if LoweredAt(m).Some? && Quantity(b, Key(m.tenant, LoweredAt(m).value, line.product)) < line.quantity
              then Insufficient else Validation)
  {
    ApplyLineExact(b, m, line);
  }

  lemma FailingLine(b: Balances, m: Movement, i: nat)
    requires MovementOk(m) && InRange(b) && FailsAt(b, m, i)
    ensures ApplyLines(b, m, m.lines[..i + 1]) == Failure(if Short(b, m, i) then Insufficient else Validation)
  {
    var lines, line := m.lines[..i + 1], m.lines[i];
    assert lines[..i] == m.lines[..i];
    ApplyLinesExact(b, m, lines[..i]);
    ApplyLinesExact(b, m, lines);
    var mid := ApplyLines(b, m, lines[..i]).value.balances;
    ApplyLineExact(mid, m, line);
    LineError(mid, m, line);
    TotalNonNegative(lines[..i], line.product);
    if LoweredAt(m).Some? {
      var k := Key(m.tenant, LoweredAt(m).value, line.product);
      assert Quantity(mid, k) == Quantity(b, k) - Total(lines[..i], line.product);
      assert Takes(m.kind, m.source, m.destination, k.warehouse);
    }
  }

  lemma {:induction false} SomeLineFails(b: Balances, m: Movement, n: nat) returns (i: nat)
    requires MovementOk(m) && n <= |m.lines| && !Fits(b, m, m.lines[..n])
    ensures i < n && FailsAt(b, m, i)
  {
    if n == 0 {
      assert m.lines[..0] == [];
      assert Fits(b, m, []);
    } else if Fits(b, m, m.lines[..n - 1]) {
      i := n - 1;
    } else {
      i := SomeLineFails(b, m, n - 1);
    }
  }

  /** applyStock fails exactly when the totals of some first lines do not fit. The last of these decides: insufficient
      stock when a warehouse that gives its product has less than they take, an overflow otherwise. */
  lemma StockRefusal(b: Balances, m: Movement)
    requires MovementOk(m) && InRange(b)
    ensures ApplyStock(b, m).Failure? <==> exists i: nat :: FailsAt(b, m, i)
    ensures forall i: nat :: FailsAt(b, m, i) ==>
              ApplyStock(b, m) == Failure(if Short(b, m, i) then Insufficient else Validation)
  {
    ApplyLinesExact(b, m, m.lines);
    if ApplyStock(b, m).Failure? {
      assert m.lines[..|m.lines|] == m.lines;
      var i := SomeLineFails(b, m, |m.lines|);
    }
    forall i: nat | FailsAt(b, m, i)
      ensures ApplyStock(b, m) == Failure(if Short(b, m, i) then Insufficient else Validation)
    {
      FailingLine(b, m, i);
      StockApply.FailsFrom(b, m, m.lines, i + 1, if Short(b, m, i) then Insufficient else Validation);
    }
  }

  // ---- Outbox rows ------------------------------------------------------------------------------------

  /** The events of a confirm: MovementCreated, then at `at[i]` the StockChanged of change `i`, directly followed by
      StockBelowThreshold exactly when the product has a reorder level and the new quantity is below it. */
  ghost predicate Announces(es: seq<Event>, m: Movement, changes: seq<Change>, levels: seq<int>, at: seq<nat>) {
    && |levels| == |changes| && |at| == |changes| + 1 && at[0] == 1 && at[|changes|] == |es| > 0
    && es[0] == MovementCreated(m.tenant, m.id, m.kind, m.reference, |m.lines|)
    && forall i :: 0 <= i < |changes| ==>
      && at[i] < |es| && es[at[i]] == StockChanged(m.id, changes[i])
      && if 0 < levels[i] && changes[i].newQty < levels[i]
         then
           && at[i + 1] == at[i] + 2 <= |es|
           && es[at[i] + 1] == StockBelowThreshold(changes[i].key, changes[i].newQty, levels[i])
         else at[i + 1] == at[i] + 1
  }

  lemma OneMoreAnnounced(es: seq<Event>, m: Movement, changes: seq<Change>, levels: seq<int>, at: seq<nat>, c: Change,
      level: int)
    requires Announces(es, m, changes, levels, at)
    ensures var more := ChangeEvents(m, c, level);
            Announces(es + more, m, changes + [c], levels + [level], at + [|es| + |more|])
  {
    var more := ChangeEvents(m, c, level);
    var all := es + more;
    assert all[0] == es[0];
    forall i | 0 <= i < |changes|
      ensures at[i] < |es| && all[at[i]] == es[at[i]]
      ensures at[i] + 1 < |es| ==> all[at[i] + 1] == es[at[i] + 1]
    {
    }
    assert all[|es|] == more[0] && (|more| == 2 ==> all[|es| + 1] == more[1]);
  }

  lemma {:induction false} EventsAnnounce(m: Movement, changes: seq<Change>, levels: seq<int>) returns (at: seq<nat>)
    requires |levels| == |changes|
    ensures Announces(MovementEvents(m, changes, levels), m, changes, levels, at)
  {
    if changes == [] {
      at := [1];
    } else {
      var n := |changes| - 1;
      var before := MovementEvents(m, changes[..n], levels[..n]);
      at := EventsAnnounce(m, changes[..n], levels[..n]);
      OneMoreAnnounced(before, m, changes[..n], levels[..n], at, changes[n], levels[n]);
      at := at + [|before| + |ChangeEvents(m, changes[n], levels[n])|];
      assert changes == changes[..n] + [changes[n]] && levels == levels[..n] + [levels[n]];
      assert MovementEvents(m, changes, levels) == before + ChangeEvents(m, changes[n], levels[n]);
    }
  }

  /** The events were inserted under consecutive ids from `first` on, unpublished, and nothing else changed. */
  ghost predicate Inserts(before: map<nat, OutboxRow>, after: map<nat, OutboxRow>, first: nat, tenant: Id,
      aggregate: Id, es: seq<Event>) {
    && (forall id: nat :: id in after <==> id in before || first <= id < first + |es|)
    && (forall id: nat :: id in after ==>
          after[id] == if first <= id < first + |es| then OutboxRow(tenant, aggregate, es[id - first], false)
                       else before[id])
  }

  /** The outbox rows of a confirm that recorded these changes and found these reorder levels. */
  ghost predicate RowsAnnounce(before: map<nat, OutboxRow>, after: map<nat, OutboxRow>, first: nat, m: Movement,
      changes: seq<Change>, levels: seq<int>) {
    exists es, at :: Announces(es, m, changes, levels, at) && Inserts(before, after, first, m.tenant, m.id, es)
  }

  // ---- Confirms ----------------------------------------------------------------------------------------

  /** A warehouse that is named exists, belongs to the tenant and is not deleted. */
  predicate Present(warehouses: map<Id, Warehouse>, tenant: Id, w: Option<Id>) {
    w.Some? ==> w.value in warehouses && warehouses[w.value].tenant == tenant && !warehouses[w.value].deleted
  }

  /** It is active as well. */
  predicate Usable(warehouses: map<Id, Warehouse>, tenant: Id, w: Option<Id>) {
    w.Some? ==>
      && w.value in warehouses && warehouses[w.value].tenant == tenant && !warehouses[w.value].deleted
      && warehouses[w.value].active
  }

  /** The confirm of a tenant's movement took effect, all of it and nothing else. */
  ghost predicate TakesEffect(t: Tables, t': Tables, tenant: Id, id: Id, levels: seq<int>, first: nat) {
    && id in t.movements && t.movements[id].tenant == tenant && t.movements[id].status == Draft
    && var m := t.movements[id];
       && Usable(t.warehouses, tenant, m.source) && Usable(t.warehouses, tenant, m.destination)
       && StockMoves(t.balances, t'.balances, tenant, m.kind, m.source, m.destination, m.lines)
       && t'.movements == t.movements[id := m.(status := Confirmed)]
       && t'.products == t.products && t'.warehouses == t.warehouses
       && t'.audit == t.audit + [AuditRow(tenant, id, Draft, Confirmed, |m.lines|)]
       && exists changes ::
         ChangesTell(t.balances, t'.balances, changes)
         && RowsAnnounce(t.outbox, t'.outbox, first, m, changes, levels)
  }

  /** A product that some line names cannot be found. */
  ghost predicate ProductGone(products: map<Id, Product>, tenant: Id, lines: seq<Line>) {
    exists i :: 0 <= i < |lines|
                && var p := lines[i].product;
                   !(p in products && products[p].tenant == tenant && !products[p].deleted)
  }

  /** Why a confirm is refused: the first of these that applies. */
  ghost predicate Refuses(t: Tables, auditFits: bool, tenant: Id, id: Id, e: Error) {
    if !(id in t.movements && t.movements[id].tenant == tenant) then e == NotFound
    else
      var m := t.movements[id];
      if m.status != Draft then e == MovementDraft
      else if !Usable(t.warehouses, tenant, m.source) then
        e == if Present(t.warehouses, tenant, m.source) then Validation else NotFound
      else if !Usable(t.warehouses, tenant, m.destination) then
        e == if Present(t.warehouses, tenant, m.destination) then Validation else NotFound
      else if exists i: nat :: FailsAt(t.balances, m, i) then
        exists i: nat :: FailsAt(t.balances, m, i) && e == if Short(t.balances, m, i) then Insufficient else Validation
      else if !auditFits then e == Constraint
      else e == NotFound && ProductGone(t.products, tenant, m.lines)
  }
}
