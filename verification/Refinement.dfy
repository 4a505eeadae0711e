/** The two models of a confirm and of a cancel agree: what the methods do to the tables is the step of the serial
    machine that every concurrent run is equivalent to. */
module Refinement {
  import opened Common
  import opened Schema
  import opened Store
  import opened Events
  import opened MovementUsecase
  import Catalog
  import Serializability
  import Transactions

  function EventsOnly(outbox: map<nat, OutboxRow>): map<nat, Event> {
    map id <- outbox :: outbox[id].event
  }

  function Numbered(first: nat, events: seq<Event>): seq<Row> {
    seq(|events|, i requires 0 <= i < |events| => Row(first + i, events[i]))
  }

  /** The tables as the serial machine sees them. */
  function Abstract(t: Tables): Serializability.Serial {
    Serializability.Serial(t.movements, t.balances, EventsOnly(t.outbox))
  }

  lemma EventsOnlyUpdate(outbox: map<nat, OutboxRow>, id: nat, row: OutboxRow)
    ensures EventsOnly(outbox[id := row]) == EventsOnly(outbox)[id := row.event]
  {
  }

  lemma {:induction false} RowsAgree(outbox: map<nat, OutboxRow>, first: nat, tenant: Id, aggregate: Id,
      events: seq<Event>)
    ensures EventsOnly(outbox + OutboxRows(first, tenant, aggregate, events))
            == Transactions.WithRows(EventsOnly(outbox), Numbered(first, events))
  {
    if events == [] {
      assert outbox + map[] == outbox;
    } else {
      var n := |events| - 1;
      var init := OutboxRows(first, tenant, aggregate, events[..n]);
      var row := OutboxRow(tenant, aggregate, events[n], false);
      assert outbox + OutboxRows(first, tenant, aggregate, events) == (outbox + init)[first + n := row];
      EventsOnlyUpdate(outbox + init, first + n, row);
      RowsAgree(outbox, first, tenant, aggregate, events[..n]);
      WithRowsAppend(EventsOnly(outbox), Numbered(first, events[..n]), Row(first + n, events[n]));
      assert Numbered(first, events) == Numbered(first, events[..n]) + [Row(first + n, events[n])];
    }
  }

  lemma WithRowsAppend(outbox: map<nat, Event>, rows: seq<Row>, r: Row)
    ensures Transactions.WithRows(outbox, rows + [r]) == Transactions.WithRows(outbox, rows)[r.id := r.event]
  {
    assert (rows + [r])[..|rows|] == rows;
  }

  lemma ConfirmIsSerialStep(t: Tables, t': Tables, entries: Catalog.Entries, tenant: Id, id: Id, levels: seq<int>,
      first: nat)
    requires TablesOk(t) && Committed(t, t', entries, tenant, id, levels, first)
    ensures var m := t.movements[id];
            var changes := ConfirmDecision(t, tenant, id).value.changes;
            |levels| == |changes|
            && Serializability.SerialStep(
                 Abstract(t),
                 Transactions.MovementConfirmed(m, levels, Numbered(first, MovementEvents(m, changes, levels))))
               == Success(Abstract(t'))
  {
    var m := t.movements[id];
    var a := ConfirmDecision(t, tenant, id).value;
    var events := MovementEvents(m, a.changes, levels);
    RowsAgree(t.outbox, first, tenant, id, events);
    Serializability.ConfirmRuns(Abstract(t), m, a, levels, Numbered(first, events));
  }

  lemma CancelIsSerialStep(t: Tables, t': Tables, tenant: Id, id: Id)
    requires TablesOk(t) && CancelDecision(t.movements, tenant, id).Success?
    requires t' == t.(movements := t.movements[id := CancelDecision(t.movements, tenant, id).value])
    ensures Serializability.SerialStep(Abstract(t), Transactions.MovementCancelled(id)) == Success(Abstract(t'))
  {
  }
}
