/** The outbox events of one confirmed movement (services/inventory/domains/movement/usecase/emit.go). */
module Events {
  import opened Schema

  /** The events of one change: StockChanged, and StockBelowThreshold when the product has a reorder level
      and the new quantity is below it. */
  function ChangeEvents(m: Movement, c: Change, level: int): seq<Event> {
    [StockChanged(m.id, c)]
    + if level > 0 && c.newQty < level then [StockBelowThreshold(c.key, c.newQty, level)] else []
  }

  /** The events of the changes in order; `levels[i]` is the reorder level found for change `i`. */
  function AllChangeEvents(m: Movement, changes: seq<Change>, levels: seq<int>): seq<Event>
    requires |levels| == |changes|
  {
    if changes == [] then []
    else
      var n := |changes| - 1;
      AllChangeEvents(m, changes[..n], levels[..n]) + ChangeEvents(m, changes[n], levels[n])
  }

  function MovementEvents(m: Movement, changes: seq<Change>, levels: seq<int>): seq<Event>
    requires |levels| == |changes|
  {
    [MovementCreated(m.tenant, m.id, m.kind, m.reference, |m.lines|)] + AllChangeEvents(m, changes, levels)
  }

  /** The StockChanged events among some events. */
  function ChangesIn(events: seq<Event>): seq<Change> {
    if events == [] then []
    else
      var last := events[|events| - 1];
      ChangesIn(events[..|events| - 1]) + if last.StockChanged? then [last.change] else []
  }

  lemma {:induction false} ChangesInConcat(a: seq<Event>, b: seq<Event>)
    ensures ChangesIn(a + b) == ChangesIn(a) + ChangesIn(b)
  {
    if b == [] {
      assert a + b == a;
    } else {
      ChangesInConcat(a, b[..|b| - 1]);
      assert (a + b)[..|a + b| - 1] == a + b[..|b| - 1];
    }
  }

  lemma ChangesInOne(e: Event)
    ensures ChangesIn([e]) == if e.StockChanged? then [e.change] else []
  {
    assert [e][..0] == [];
  }

  ghost predicate OnlyChanges(m: Movement, changes: seq<Change>, events: seq<Event>) {
    forall i :: 0 <= i < |events| ==>
      && !events[i].MovementCreated?
      && (events[i].StockChanged? ==> events[i].movement == m.id && events[i].change in changes)
  }

  lemma ChangesInChangeEvents(m: Movement, c: Change, level: int)
    ensures ChangesIn(ChangeEvents(m, c, level)) == [c]
    ensures OnlyChanges(m, [c], ChangeEvents(m, c, level))
  {
    var es := ChangeEvents(m, c, level);
    ChangesInOne(es[0]);
    if |es| == 2 {
      ChangesInOne(es[1]);
      ChangesInConcat([es[0]], [es[1]]);
      assert es == [es[0]] + [es[1]];
    } else {
      assert es == [es[0]];
    }
  }

  lemma OnlyChangesConcat(m: Movement, changes: seq<Change>, last: Change, a: seq<Event>, b: seq<Event>)
    requires OnlyChanges(m, changes, a) && OnlyChanges(m, [last], b)
    ensures OnlyChanges(m, changes + [last], a + b)
  {
  }

  lemma {:induction false} ChangesInAll(m: Movement, changes: seq<Change>, levels: seq<int>)
    requires |levels| == |changes|
    ensures ChangesIn(AllChangeEvents(m, changes, levels)) == changes
  {
    if changes == [] {
    } else {
      var n := |changes| - 1;
      var init := AllChangeEvents(m, changes[..n], levels[..n]);
      ChangesInAll(m, changes[..n], levels[..n]);
      ChangesInChangeEvents(m, changes[n], levels[n]);
      ChangesInConcat(init, ChangeEvents(m, changes[n], levels[n]));
      assert changes == changes[..n] + [changes[n]];
    }
  }

  lemma {:induction false} OnlyChangesAll(m: Movement, changes: seq<Change>, levels: seq<int>)
    requires |levels| == |changes|
    ensures OnlyChanges(m, changes, AllChangeEvents(m, changes, levels))
  {
    if changes == [] {
    } else {
      var n := |changes| - 1;
      var init := AllChangeEvents(m, changes[..n], levels[..n]);
      OnlyChangesAll(m, changes[..n], levels[..n]);
      ChangesInChangeEvents(m, changes[n], levels[n]);
      OnlyChangesConcat(m, changes[..n], changes[n], init, ChangeEvents(m, changes[n], levels[n]));
      assert changes == changes[..n] + [changes[n]];
    }
  }

  /** The events start with the one MovementCreated, and their StockChanged events are exactly the changes
      in order. */
  lemma MovementEventsCarryChanges(m: Movement, changes: seq<Change>, levels: seq<int>)
    requires |levels| == |changes|
    ensures var es := MovementEvents(m, changes, levels);
            && ChangesIn(es) == changes
            && es[0] == MovementCreated(m.tenant, m.id, m.kind, m.reference, |m.lines|)
            && OnlyChanges(m, changes, es[1..])
  {
    var first := MovementCreated(m.tenant, m.id, m.kind, m.reference, |m.lines|);
    ChangesInAll(m, changes, levels);
    OnlyChangesAll(m, changes, levels);
    ChangesInConcat([first], AllChangeEvents(m, changes, levels));
    ChangesInOne(first);
  }
}
