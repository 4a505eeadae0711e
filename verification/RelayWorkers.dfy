/** Any number of relays on one outbox: SKIP LOCKED hands out the lowest unpublished row that no other relay holds
    (services/inventory/domains/outbox/repository/relay.go). */
module RelayWorkers {
  import opened Schema

  datatype Phase = Idle | Claimed(id: nat) | Sent(id: nat)

  /** `aborted[id]` counts the attempts for a row that ended after the entry reached the stream and before the mark
      committed. */
  datatype State = State(
    outbox: map<nat, Event>,
    published: set<nat>,
    workers: map<nat, Phase>,
    stream: seq<Row>,
    aborted: map<nat, nat>)

  datatype Action =
    | Grow(outbox: map<nat, Event>)
    | Join(w: nat)
    | Claim(w: nat, id: nat)
    | Publish(w: nat)
    | PublishUnsure(w: nat)
    | Mark(w: nat)
    | Crash(w: nat)

  function Aborted(s: State, id: nat): nat {
    if id in s.aborted then s.aborted[id] else 0
  }

  /** The worker's row transaction holds the row lock. */
  predicate Holds(s: State, w: nat, id: nat) {
    w in s.workers && !s.workers[w].Idle? && s.workers[w].id == id
  }

  ghost predicate Free(s: State, id: nat) {
    id in s.outbox && id !in s.published && forall w :: !Holds(s, w, id)
  }

  ghost predicate StepBy(s: State, s': State, a: Action) {
    match a
    case Grow(outbox) =>
      (forall id <- s.outbox :: id in outbox && outbox[id] == s.outbox[id]) && s' == s.(outbox := outbox)
    case Join(w) =>
      w !in s.workers && s' == s.(workers := s.workers[w := Idle])
    case Claim(w, id) =>
      && w in s.workers && s.workers[w].Idle?
      && Free(s, id) && (forall o :: Free(s, o) ==> id <= o)
      && s' == s.(workers := s.workers[w := Claimed(id)])
    case Publish(w) =>
      && w in s.workers && s.workers[w].Claimed? && s.workers[w].id in s.outbox
      && var id := s.workers[w].id;
         s' == s.(workers := s.workers[w := Sent(id)], stream := s.stream + [Row(id, s.outbox[id])])
    case PublishUnsure(w) =>
      && w in s.workers && s.workers[w].Claimed? && s.workers[w].id in s.outbox
      && var id := s.workers[w].id;
         s' == s.(workers := s.workers[w := Idle], stream := s.stream + [Row(id, s.outbox[id])],
                  aborted := s.aborted[id := Aborted(s, id) + 1])
    case Mark(w) =>
      && w in s.workers && s.workers[w].Sent?
      && s' == s.(workers := s.workers[w := Idle], published := s.published + {s.workers[w].id})
    case Crash(w) =>
      && w in s.workers
      && s' == s.(workers := s.workers[w := Idle],
                  aborted := if s.workers[w].Sent?
                             then s.aborted[s.workers[w].id := Aborted(s, s.workers[w].id) + 1] else s.aborted)
  }

  ghost predicate Step(s: State, s': State) {
    exists a :: StepBy(s, s', a)
  }

  const EMPTY := State(map[], {}, map[], [], map[])

  ghost predicate Run(run: seq<State>) {
    && run != [] && run[0] == EMPTY
    && forall i :: 0 < i < |run| ==> Step(run[i - 1], run[i])
  }

  // ---- Invariant -------------------------------------------------------------------------------

  /** How often a row is in the stream. */
  function Count(stream: seq<Row>, id: nat): nat {
    if stream == [] then 0
    else Count(stream[..|stream| - 1], id) + if stream[|stream| - 1].id == id then 1 else 0
  }

  ghost predicate IsSent(s: State, id: nat) {
    exists w :: w in s.workers && s.workers[w] == Sent(id)
  }

  /** Every appearance of a row in the stream is its published one, one in flight, or one of an aborted attempt. */
  ghost predicate Counted(s: State, id: nat) {
    Count(s.stream, id) == Aborted(s, id) + (if id in s.published || IsSent(s, id) then 1 else 0)
  }

  ghost predicate Inv(s: State) {
    && (forall w, id :: Holds(s, w, id) ==> id in s.outbox && id !in s.published)
    && (forall w, u, id :: Holds(s, w, id) && Holds(s, u, id) ==> w == u)
    && (forall id <- s.published :: id in s.outbox)
    && (forall e <- s.stream :: e.id in s.outbox && s.outbox[e.id] == e.event)
    && (forall id :: Counted(s, id))
  }

  lemma CountAppend(stream: seq<Row>, e: Row, id: nat)
    ensures Count(stream + [e], id) == Count(stream, id) + if e.id == id then 1 else 0
  {
    assert (stream + [e])[..|stream|] == stream;
  }

  lemma IsSentElsewhere(s: State, s': State, w: nat, id: nat)
    requires w in s.workers && w in s'.workers && s'.workers == s.workers[w := s'.workers[w]]
    requires s.workers[w] != Sent(id) && s'.workers[w] != Sent(id)
    ensures IsSent(s, id) <==> IsSent(s', id)
  {
    if u :| u in s.workers && s.workers[u] == Sent(id) {
      assert s'.workers[u] == Sent(id);
    }
    if u :| u in s'.workers && s'.workers[u] == Sent(id) {
      assert s.workers[u] == Sent(id);
    }
  }

  /** The counting part of a step of worker `w` on its own row. */
  lemma WorkerStepCounts(s: State, s': State, a: Action, id: nat)
    requires Inv(s) && StepBy(s, s', a) && (a.Publish? || a.PublishUnsure? || a.Mark? || a.Crash?)
    ensures Counted(s', id)
  {
    var w := a.w;
    assert Counted(s, id);
    if (a.Publish? || a.PublishUnsure?) {
      CountAppend(s.stream, Row(s.workers[w].id, s.outbox[s.workers[w].id]), id);
    }
    if Holds(s, w, id) {
      forall u | u != w
        ensures !(u in s.workers && s.workers[u] == Sent(id)) && !(u in s'.workers && s'.workers[u] == Sent(id))
      {
        assert u in s.workers && s.workers[u] == Sent(id) ==> Holds(s, u, id);
      }
      assert IsSent(s, id) <==> s.workers[w] == Sent(id);
      assert IsSent(s', id) <==> s'.workers[w] == Sent(id);
    } else {
      IsSentElsewhere(s, s', w, id);
    }
  }

  lemma WorkerStepKeeps(s: State, s': State, a: Action)
    requires Inv(s) && StepBy(s, s', a) && (a.Publish? || a.PublishUnsure? || a.Mark? || a.Crash?)
    ensures Inv(s')
  {
    forall id
      ensures Counted(s', id)
    {
      WorkerStepCounts(s, s', a, id);
    }
    assert a.Mark? ==> Holds(s, a.w, s.workers[a.w].id);
    forall u, id | Holds(s', u, id)
      ensures Holds(s, u, id) && id !in s'.published
    {
      assert Holds(s, u, id);
      assert Holds(s, a.w, id) ==> u == a.w;
    }
  }

  lemma ClaimKeeps(s: State, s': State, w: nat, id: nat)
    requires Inv(s) && StepBy(s, s', Claim(w, id))
    ensures Inv(s')
  {
    forall o
      ensures Counted(s', o)
    {
      assert Counted(s, o);
      IsSentElsewhere(s, s', w, o);
    }
    forall u, o | Holds(s', u, o)
      ensures Holds(s, u, o) || (u == w && o == id)
    {
    }
  }

  lemma JoinKeeps(s: State, s': State, w: nat)
    requires Inv(s) && StepBy(s, s', Join(w))
    ensures Inv(s')
  {
    forall id
      ensures Counted(s', id)
    {
      assert Counted(s, id);
      if u :| u in s.workers && s.workers[u] == Sent(id) {
        assert s'.workers[u] == Sent(id);
      }
    }
    forall u, id | Holds(s', u, id) ensures Holds(s, u, id) {}
  }

  lemma GrowKeeps(s: State, s': State)
    requires Inv(s) && StepBy(s, s', Grow(s'.outbox))
    ensures Inv(s')
  {
    forall o
      ensures Counted(s', o)
    {
      assert Counted(s, o);
      assert IsSent(s, o) <==> IsSent(s', o);
    }
    forall u, o ensures Holds(s', u, o) <==> Holds(s, u, o) {}
  }

  lemma {:induction false} RunKeeps(run: seq<State>, i: nat)
    requires Run(run) && i < |run|
    ensures Inv(run[i])
  {
    if i > 0 {
      RunKeeps(run, i - 1);
      StepKeeps(run[i - 1], run[i]);
    } else {
      forall id ensures Counted(EMPTY, id) {}
    }
  }

  lemma StepKeeps(s: State, s': State)
    requires Inv(s) && Step(s, s')
    ensures Inv(s')
  {
    var a :| StepBy(s, s', a);
    match a
    case Grow(outbox) => GrowKeeps(s, s');
    case Join(w) => JoinKeeps(s, s', w);
    case Claim(w, id) => ClaimKeeps(s, s', w, id);
    case _ => WorkerStepKeeps(s, s', a);
  }

  // ---- Main results --------------------------------------------------------------------------------------

  /** Under any interleaving of relays and crashes no row is held twice, entries carry the row's own event, and a
      published row appears exactly once more than its attempts that aborted after the publish. */
  lemma WorkersAreSafe(run: seq<State>, i: nat)
    requires Run(run) && i < |run|
    ensures var s := run[i];
            && (forall w, u, id :: Holds(s, w, id) && Holds(s, u, id) ==> w == u)
            && (forall e <- s.stream :: e.id in s.outbox && s.outbox[e.id] == e.event)
            && (forall id <- s.published :: Count(s.stream, id) == 1 + Aborted(s, id))
  {
    RunKeeps(run, i);
    forall id <- run[i].published
      ensures Count(run[i].stream, id) == 1 + Aborted(run[i], id)
    {
      assert Counted(run[i], id);
    }
  }
}
