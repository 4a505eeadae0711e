/** The outbox relay: one batch (services/inventory/domains/outbox/repository/relay.go) and the publishing of one row
    (workers/internal/outboxrelay/relay.go). */
module Relay {
  import opened Common
  import opened Schema
  import opened Store
  import Text

  /** The stream inventory.events. */
  class EventStream {
    var entries: seq<Row>

    constructor ()
      ensures entries == []
    {
      entries := [];
    }

    /** publishOne: without a signing secret, or with a blank one, nothing is sent. */
    method PublishOne(secret: string, id: nat, event: Event, outcome: Outcome) returns (ok: bool)
      modifies this`entries
      ensures ok <==> Text.TrimSpace(secret) != "" && outcome == Done
      ensures entries == if Text.TrimSpace(secret) == "" || outcome == Refused then old(entries)
                         else old(entries) + [Row(id, event)]
    {
      ok := false;
      if Text.TrimSpace(secret) != "" {
        if outcome != Refused {
          entries := entries + [Row(id, event)];
        }
        ok := outcome == Done;
      }
    }
  }

  type Outbox = map<nat, OutboxRow>

  predicate Unpublished(ob: Outbox, id: nat) {
    id in ob && !ob[id].published
  }

  ghost predicate AllPublished(ob: Outbox) {
    forall id :: !Unpublished(ob, id)
  }

  /** The row a batch takes next. */
  ghost predicate IsLowest(ob: Outbox, id: nat) {
    Unpublished(ob, id) && forall o :: Unpublished(ob, o) ==> id <= o
  }

  function MarkRow(ob: Outbox, id: nat): Outbox
    requires id in ob
  {
    ob[id := ob[id].(published := true)]
  }

  function Entries(ob: Outbox, ids: seq<nat>): seq<Row>
    requires forall id <- ids :: id in ob
  {
    seq(|ids|, i requires 0 <= i < |ids| => Row(ids[i], ob[ids[i]].event))
  }

  /** The ids ascend, they are the lowest unpublished ones, and exactly they are marked. */
  ghost predicate MarksLowest(before: Outbox, ids: seq<nat>, after: Outbox) {
    && (forall i, j :: 0 <= i < j < |ids| ==> ids[i] < ids[j])
    && (forall id <- ids :: Unpublished(before, id))
    && (forall id, o: nat :: id in ids && Unpublished(after, o) ==> id < o)
    && (forall o: nat :: Unpublished(after, o) <==> Unpublished(before, o) && o !in ids)
    && after.Keys == before.Keys
    && (forall id <- before :: after[id] == before[id].(published := after[id].published))
  }

  lemma MarksOneMore(before: Outbox, ids: seq<nat>, mid: Outbox, id: nat)
    requires MarksLowest(before, ids, mid) && IsLowest(mid, id)
    ensures MarksLowest(before, ids + [id], MarkRow(mid, id))
  {
    var after := MarkRow(mid, id);
    forall o: nat
      ensures Unpublished(after, o) <==> Unpublished(mid, o) && o != id
    {
    }
    forall i, j | 0 <= i < j < |ids + [id]|
      ensures (ids + [id])[i] < (ids + [id])[j]
    {
      if j == |ids| {
        assert ids[i] in ids;
      }
    }
  }

  lemma {:induction false} SamePrefix(ob: Outbox, a: seq<nat>, obA: Outbox, b: seq<nat>, obB: Outbox, i: nat)
    requires MarksLowest(ob, a, obA) && MarksLowest(ob, b, obB) && i <= |a| && i <= |b|
    ensures a[..i] == b[..i]
  {
    if i == 0 {
    } else {
      SamePrefix(ob, a, obA, b, obB, i - 1);
      assert a[i - 1] in a && b[i - 1] in b;
      if a[i - 1] < b[i - 1] {
        NotBefore(b, i - 1, a);
      } else if b[i - 1] < a[i - 1] {
        NotBefore(a, i - 1, b);
      }
      assert a[..i] == a[..i - 1] + [a[i - 1]] && b[..i] == b[..i - 1] + [b[i - 1]];
    }
  }

  /** A number that comes before `ids[i]` and after all earlier ones is not among `ids`. */
  lemma NotBefore(ids: seq<nat>, i: nat, other: seq<nat>)
    requires i < |ids| && i < |other| && ids[..i] == other[..i]
    requires forall x, y :: 0 <= x < y < |ids| ==> ids[x] < ids[y]
    requires forall x, y :: 0 <= x < y < |other| ==> other[x] < other[y]
    requires other[i] < ids[i]
    ensures other[i] !in ids
  {
    forall x | 0 <= x < |ids|
      ensures ids[x] != other[i]
    {
      if x < i {
        assert ids[..i][x] == ids[x] && other[..i][x] == other[x];
      }
    }
  }

  /** How many rows a batch publishes determines which rows and what is left. */
  lemma MarksLowestIsUnique(ob: Outbox, a: seq<nat>, obA: Outbox, b: seq<nat>, obB: Outbox)
    requires MarksLowest(ob, a, obA) && MarksLowest(ob, b, obB) && |a| == |b|
    ensures a == b && obA == obB
  {
    SamePrefix(ob, a, obA, b, obB, |a|);
    assert a[..|a|] == a && b[..|b|] == b;
    forall id <- ob
      ensures obA[id] == obB[id]
    {
      assert Unpublished(obA, id) <==> Unpublished(obB, id);
    }
  }

  /** SELECT ... WHERE published = false ORDER BY id LIMIT 1 FOR UPDATE SKIP LOCKED, with no other relay. */
  method SelectLowest(db: Database) returns (r: Result<nat>)
    modifies db`budget
    ensures db.budget == if old(db.budget) == 0 then 0 else old(db.budget) - 1
    ensures r.Success? ==> IsLowest(db.outbox, r.value)
    ensures r == Failure(NotFound) ==> AllPublished(db.outbox)
    ensures r.Failure? ==> r.error == if old(db.budget) == 0 then Fault else NotFound
  {
    var ok := db.Statement();
    if !ok {
      return Failure(Fault);
    }
    var rest := set id <- db.outbox | !db.outbox[id].published;
    if rest == {} {
      forall id ensures !Unpublished(db.outbox, id) { assert id !in rest; }
      return Failure(NotFound);
    }
    var low: nat :| low in rest;
    rest := rest - {low};
    while rest != {}
      invariant Unpublished(db.outbox, low)
      invariant forall id :: Unpublished(db.outbox, id) ==> id in rest || low <= id
      invariant forall id <- rest :: Unpublished(db.outbox, id)
      decreases rest
    {
      var id: nat :| id in rest;
      rest := rest - {id};
      if id < low {
        low := id;
      }
    }
    return Success(low);
  }

  /** One row transaction: select, publish, mark, commit. On any error it rolls back and the row stays unpublished. */
  method RelayRow(db: Database, bus: EventStream, secret: string, outcome: Outcome) returns (r: Result<nat>)
    modifies db`budget, db`outbox, bus`entries
    ensures old(db.budget) - 3 <= db.budget
    ensures r.Success? ==>
              && IsLowest(old(db.outbox), r.value) && db.outbox == MarkRow(old(db.outbox), r.value)
              && bus.entries == old(bus.entries) + [Row(r.value, old(db.outbox)[r.value].event)]
    ensures r.Failure? ==> db.outbox == old(db.outbox)
    ensures r == Failure(NotFound) ==> AllPublished(db.outbox) && bus.entries == old(bus.entries)
    ensures r.Failure? && r.error != NotFound ==>
              || bus.entries == old(bus.entries)
              || exists id :: IsLowest(db.outbox, id)
                              && bus.entries == old(bus.entries) + [Row(id, db.outbox[id].event)]
    ensures r.Failure? && r.error != NotFound ==> db.budget == 0 || Text.TrimSpace(secret) == "" || outcome != Done
  {
    var low := SelectLowest(db);
    if low.Failure? {
      return Failure(low.error);
    }
    var id := low.value;
    var published := bus.PublishOne(secret, id, db.outbox[id].event, outcome);
    if !published {
      return Failure(Internal);
    }
    var marked := db.Statement();
    if !marked {
      return Failure(Fault);
    }
    var committed := db.Statement();
    if !committed {
      return Failure(Fault);
    }
    db.outbox := MarkRow(db.outbox, id);
    return Success(id);
  }

  /** RelayPublishBatch: `outcomes` says what each publish meets. The rows before an error stay published and
      marked; at most one more entry, of the row that failed, is in the stream. */
  method RelayPublishBatch(db: Database, bus: EventStream, secret: string, limit: int, outcomes: seq<Outcome>)
    returns (n: nat, err: Option<Error>, ghost ids: seq<nat>)
    requires |outcomes| == (if limit <= 0 then 1 else limit)
    modifies db`budget, db`outbox, bus`entries
    ensures n == |ids| && n <= |outcomes| && MarksLowest(old(db.outbox), ids, db.outbox)
    ensures forall id <- ids :: id in old(db.outbox)
    ensures err.None? ==>
              && bus.entries == old(bus.entries) + Entries(old(db.outbox), ids)
              && (n < |outcomes| ==> AllPublished(db.outbox))
    ensures err.Some? ==>
              || bus.entries == old(bus.entries) + Entries(old(db.outbox), ids)
              || exists id :: id in old(db.outbox) && IsLowest(db.outbox, id)
                              && bus.entries == old(bus.entries) + Entries(old(db.outbox), ids + [id])
    ensures err.Some? ==> n < |outcomes| && (db.budget == 0 || Text.TrimSpace(secret) == "" || outcomes[n] != Done)
  {
    n, err, ids := 0, None, [];
    var max := if limit <= 0 then 1 else limit;
    assert Entries(db.outbox, []) == [];
    while n < max
      invariant n == |ids| && n <= max
      invariant MarksLowest(old(db.outbox), ids, db.outbox)
      invariant forall id <- ids :: id in old(db.outbox)
      invariant bus.entries == old(bus.entries) + Entries(old(db.outbox), ids)
    {
      ghost var mid := db.outbox;
      var r := RelayRow(db, bus, secret, outcomes[n]);
      if r == Failure(NotFound) {
        return;
      }
      if r.Failure? {
        err := Some(r.error);
        if id :| IsLowest(db.outbox, id)
                 && bus.entries == old(bus.entries) + Entries(old(db.outbox), ids) + [Row(id, db.outbox[id].event)] {
          EntriesAppend(old(db.outbox), ids, id);
        }
        return;
      }
      EntriesAppend(old(db.outbox), ids, r.value);
      MarksOneMore(old(db.outbox), ids, mid, r.value);
      ids := ids + [r.value];
      n := n + 1;
    }
  }

  lemma EntriesAppend(ob: Outbox, ids: seq<nat>, id: nat)
    requires id in ob && forall i <- ids :: i in ob
    ensures forall i <- ids + [id] :: i in ob
    ensures Entries(ob, ids + [id]) == Entries(ob, ids) + [Row(id, ob[id].event)]
  {
  }
}
