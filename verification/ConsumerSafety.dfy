/** One consumer group over every interleaving of its consumers: the effects of HandleMessage
    (pkg/eventbus/processing.go) step by step, with a crash or a lost reply possible between any two of them. */
module ConsumerSafety {
  import opened Common
  import opened EventBus
  import opened Envelope

  /** A stream entry, with the id of the entry in which its message first arrived: a copy keeps it. */
  datatype Item = Item(values: Values, origin: nat)

  /** What tells messages apart: their arrival, or the id of their event, when one decodes, so that two arrivals of one
      event are one message. */
  datatype Naming = ByArrival | ByEvent(isTime: string -> bool)

  datatype Name = Event(id: string) | Arrival(origin: nat)

  function NameOf(item: Item, n: Naming): Name {
    match n
    case ByArrival => Arrival(item.origin)
    case ByEvent(isTime) =>
      match DecodeEvent(item.values, isTime)
      case Some(e) => if e.id != "" then Event(e.id) else Arrival(item.origin)
      case None => Arrival(item.origin)
  }

  /** How the group is run: the stream it reads, the dead-letter stream it is given, whether HandleMessage gets the key
      of BuildIdempotencyKey, whether entries left pending are ever read again, the retry limit, and which texts
      parse as times. */
  datatype Config = Config(
    stream: string,
    dlqStream: string,
    keyed: bool,
    reread: bool,
    maxRetry: int,
    isTime: string -> bool)

  /** The message of an entry as HandleMessage gets it. */
  function MessageOf(values: Values, cfg: Config): Message {
    Message("", values, cfg.stream)
  }

  /** What HandleMessage publishes when the message fails. */
  function Copy(values: Values, cfg: Config, verdict: Handled): Entry
    requires verdict != Ok
  {
    var msg := MessageOf(values, cfg);
    EventBus.CopyOf(msg, cfg.maxRetry, DLQFor(msg, cfg.dlqStream), verdict)
  }

  /** Dead letters go to another stream than the one that is read. */
  predicate HasDLQ(cfg: Config) {
    DLQFor(MessageOf(map[], cfg), cfg.dlqStream) != cfg.stream
  }

  /** BuildIdempotencyKey within one stream and group: the event's id, or the entry's when no event decodes. Event ids
      are not entry ids. */
  datatype Key = EventKey(event: string) | EntryKey(id: nat)

  function BuildIdempotencyKey(values: Values, id: nat, isTime: string -> bool): Key {
    match DecodeEvent(values, isTime)
    case Some(e) => if e.id != "" then EventKey(e.id) else EntryKey(id)
    case None => EntryKey(id)
  }

  /** Where a consumer is inside HandleMessage. */
  datatype Phase =
    | Idle
    | Got(id: nat)
    | Working(id: nat)
    | Finished(id: nat)
    | Copied(id: nat)
    | Skipped(id: nat)

  /** The stream, indexed by entry id, what the group has read and not acknowledged, the consumers, the dead-letter
      stream, the idempotency keys, and what happened so far. */
  datatype State = State(
    entries: seq<Item>,
    undelivered: set<nat>,
    pending: set<nat>,
    consumers: map<nat, Phase>,
    dead: seq<Item>,
    keys: set<Key>,
    arrived: set<Item>,
    handled: set<Item>,
    starts: multiset<Key>)

  const EMPTY := State([], {}, {}, map[], [], {}, {}, {}, multiset{})

  datatype Action =
    | Arrive(values: Values)
    | Join(c: nat)
    | Deliver(c: nat, id: nat)
    | Start(c: nat)
    | AcquireUnsure(c: nat)
    | Skip(c: nat)
    | Succeed(c: nat)
    | Fail(c: nat, verdict: Handled)
    | FailUnsure(c: nat, verdict: Handled)
    | Ack(c: nat)
    | Crash(c: nat)

  function At(s: State, c: nat): Phase {
    if c in s.consumers then s.consumers[c] else Idle
  }

  function Move(s: State, c: nat, p: Phase): State {
    s.(consumers := s.consumers[c := p])
  }

  /** The message of the entry with this id. */
  function NameAt(s: State, id: nat, n: Naming): Name {
    if id < |s.entries| then NameOf(s.entries[id], n) else Arrival(id)
  }

  function KeyAt(s: State, id: nat, cfg: Config): Key {
    if id < |s.entries| then BuildIdempotencyKey(s.entries[id].values, id, cfg.isTime) else EntryKey(id)
  }

  function Append(s: State, item: Item): State {
    s.(entries := s.entries + [item], undelivered := s.undelivered + {|s.entries|})
  }

  /** The copy a failed message leaves behind, in the stream that HandleMessage publishes it to. */
  function AddCopy(s: State, id: nat, cfg: Config, verdict: Handled): State
    requires id < |s.entries| && verdict != Ok
  {
    var e := Copy(s.entries[id].values, cfg, verdict);
    var item := Item(e.values, s.entries[id].origin);
    if e.stream == cfg.stream then Append(s, item) else s.(dead := s.dead + [item])
  }

  /** One effect. A consumer acknowledges only after its handler succeeded, its copy was added or its key was found
      taken; it can stop anywhere. */
  ghost predicate StepBy(s: State, s': State, a: Action, cfg: Config) {
    match a
    case Arrive(values) =>
      var item := Item(values, |s.entries|);
      RETRY_COUNT !in values && s' == Append(s, item).(arrived := s.arrived + {item})
    case Join(c) => c !in s.consumers && s' == Move(s, c, Idle)
    case Deliver(c, id) =>
      && At(s, c) == Idle && c in s.consumers
      && (id in s.undelivered || (cfg.reread && id in s.pending))
      && s' == Move(s, c, Got(id)).(undelivered := s.undelivered - {id}, pending := s.pending + {id})
    case Start(c) =>
      && At(s, c).Got?
      && var key := KeyAt(s, At(s, c).id, cfg);
         && (cfg.keyed ==> key !in s.keys)
         && s' == Move(s, c, Working(At(s, c).id)).(keys := if cfg.keyed then s.keys + {key} else s.keys,
                                                    starts := s.starts + multiset{key})
    case AcquireUnsure(c) =>
      cfg.keyed && At(s, c).Got? && s' == Move(s, c, Idle).(keys := s.keys + {KeyAt(s, At(s, c).id, cfg)})
    case Skip(c) =>
      cfg.keyed && At(s, c).Got? && KeyAt(s, At(s, c).id, cfg) in s.keys && s' == Move(s, c, Skipped(At(s, c).id))
    case Succeed(c) =>
      && At(s, c).Working? && At(s, c).id < |s.entries|
      && s' == Move(s, c, Finished(At(s, c).id)).(handled := s.handled + {s.entries[At(s, c).id]})
    case Fail(c, verdict) =>
      && At(s, c).Working? && At(s, c).id < |s.entries| && verdict != Ok
      && s' == Move(AddCopy(s, At(s, c).id, cfg, verdict), c, Copied(At(s, c).id))
    case FailUnsure(c, verdict) =>
      && At(s, c).Working? && At(s, c).id < |s.entries| && verdict != Ok
      && s' == Move(AddCopy(s, At(s, c).id, cfg, verdict), c, Idle)
    case Ack(c) =>
      && (At(s, c).Finished? || At(s, c).Copied? || At(s, c).Skipped?)
      && s' == Move(s, c, Idle).(pending := s.pending - {At(s, c).id})
    case Crash(c) => c in s.consumers && s' == Move(s, c, Idle)
  }

  ghost predicate Step(s: State, s': State, cfg: Config) {
    exists a :: StepBy(s, s', a, cfg)
  }

  ghost predicate Run(run: seq<State>, cfg: Config) {
    && run != [] && run[0] == EMPTY
    && forall i :: 0 < i < |run| ==> Step(run[i - 1], run[i], cfg)
  }

  // ---- What must not be lost ---------------------------------------------------------------------------

  ghost predicate IsDead(s: State, e: Name, n: Naming) {
    exists i :: 0 <= i < |s.dead| && NameOf(s.dead[i], n) == e
  }

  ghost predicate IsHandled(s: State, e: Name, n: Naming) {
    exists item :: item in s.handled && NameOf(item, n) == e
  }

  predicate IsLive(s: State, e: Name, id: nat, n: Naming) {
    (id in s.undelivered || id in s.pending) && id < |s.entries| && NameAt(s, id, n) == e
  }

  ghost predicate Settled(s: State, e: Name, n: Naming) {
    IsHandled(s, e, n) || IsDead(s, e, n)
  }

  /** Not lost: still in the stream for the group, handled, or dead-lettered. */
  ghost predicate Accounted(s: State, e: Name, n: Naming) {
    Settled(s, e, n) || exists id: nat :: IsLive(s, e, id, n)
  }

  /** The consumer is about to acknowledge this entry. */
  predicate Retires(p: Phase, id: nat) {
    p == Finished(id) || p == Copied(id) || p == Skipped(id)
  }

  ghost predicate Retiring(s: State, id: nat) {
    exists c :: c in s.consumers && Retires(s.consumers[c], id)
  }

  /** Live, and no consumer will acknowledge it before deciding about it anew. */
  ghost predicate Kept(s: State, e: Name, id: nat, n: Naming) {
    IsLive(s, e, id, n) && !Retiring(s, id)
  }

  ghost predicate Safe(s: State, e: Name, n: Naming) {
    Settled(s, e, n) || exists id: nat :: Kept(s, e, id, n)
  }

  // ---- One hop keeps the message -------------------------------------------------------------------

  lemma CopyKeepsField(values: Values, cfg: Config, verdict: Handled, field: string)
    requires verdict != Ok && !IsMetadata(field)
    ensures var copy := Copy(values, cfg, verdict).values;
            (field in copy <==> field in values) && Field(copy, field) == Field(values, field)
  {
  }

  /** A copy is the same message, by its arrival and by its event. */
  lemma CopyKeepsName(item: Item, cfg: Config, verdict: Handled, n: Naming)
    requires verdict != Ok
    ensures NameOf(Item(Copy(item.values, cfg, verdict).values, item.origin), n) == NameOf(item, n)
  {
    EventFieldsAreData();
    CopyKeepsField(item.values, cfg, verdict, EVENT_ID);
    CopyKeepsField(item.values, cfg, verdict, EVENT_PAYLOAD);
    CopyKeepsField(item.values, cfg, verdict, EVENT_CREATED_AT);
    CopyKeepsField(item.values, cfg, verdict, EVENT_PUBLISHED_AT);
  }

  // ---- Steps --------------------------------------------------------------------------------------------------

  lemma SettledStays(s: State, s': State, a: Action, cfg: Config, e: Name, n: Naming)
    requires StepBy(s, s', a, cfg) && Settled(s, e, n)
    ensures Settled(s', e, n)
  {
    if IsDead(s, e, n) {
      var i :| 0 <= i < |s.dead| && NameOf(s.dead[i], n) == e;
      assert s'.dead[i] == s.dead[i];
    } else {
      var item :| item in s.handled && NameOf(item, n) == e;
      assert item in s'.handled;
    }
  }

  lemma LiveStays(s: State, s': State, a: Action, cfg: Config, e: Name, id: nat, n: Naming)
    requires StepBy(s, s', a, cfg) && IsLive(s, e, id, n)
    requires a.Ack? ==> At(s, a.c).id != id
    ensures IsLive(s', e, id, n)
  {
    assert s'.entries[..|s.entries|] == s.entries;
    assert NameAt(s', id, n) == NameAt(s, id, n);
  }

  /** A kept entry stays kept unless the consumer that has it moves on to acknowledge it. */
  lemma KeptStays(s: State, s': State, a: Action, cfg: Config, e: Name, id: nat, n: Naming)
    requires StepBy(s, s', a, cfg) && Kept(s, e, id, n)
    requires (a.Skip? || a.Succeed? || a.Fail?) ==> At(s, a.c).id != id
    ensures Kept(s', e, id, n)
  {
    if a.Ack? {
      assert Retires(s.consumers[a.c], At(s, a.c).id);
    }
    LiveStays(s, s', a, cfg, e, id, n);
    forall c | c in s'.consumers
      ensures !Retires(s'.consumers[c], id)
    {
      assert c in s.consumers ==> !Retires(s.consumers[c], id);
    }
  }

  lemma AppendedIsKept(s: State, s': State, e: Name, n: Naming)
    requires |s'.entries| == |s.entries| + 1 && NameOf(s'.entries[|s.entries|], n) == e
    requires |s.entries| in s'.undelivered
    requires forall c <- s'.consumers, id: nat :: Retires(s'.consumers[c], id) ==> id < |s.entries|
    ensures Kept(s', e, |s.entries|, n)
  {
  }

  /** Consumers hold entries that were read, and read entries exist. */
  ghost predicate Known(s: State) {
    && (forall id <- s.undelivered + s.pending :: id < |s.entries|)
    && (forall c <- s.consumers :: s.consumers[c] != Idle ==> s.consumers[c].id < |s.entries|)
  }

  lemma KnownStays(s: State, s': State, a: Action, cfg: Config)
    requires StepBy(s, s', a, cfg) && Known(s)
    ensures Known(s')
  {
  }

  /** The copy of a failed message keeps it safe. */
  lemma CopySaves(s: State, s': State, a: Action, cfg: Config, n: Naming)
    requires StepBy(s, s', a, cfg) && Known(s) && (a.Fail? || a.FailUnsure?)
    ensures Safe(s', NameAt(s, At(s, a.c).id, n), n)
  {
    var id := At(s, a.c).id;
    var e := NameAt(s, id, n);
    CopyKeepsName(s.entries[id], cfg, a.verdict, n);
    if Copy(s.entries[id].values, cfg, a.verdict).stream == cfg.stream {
      KnownStays(s, s', a, cfg);
      forall c <- s'.consumers, o: nat | Retires(s'.consumers[c], o)
        ensures o < |s.entries|
      {
      }
      AppendedIsKept(s, s', e, n);
    } else {
      assert NameOf(s'.dead[|s.dead|], n) == e;
    }
  }

  lemma SucceedSettles(s: State, s': State, a: Action, cfg: Config, n: Naming)
    requires StepBy(s, s', a, cfg) && a.Succeed?
    ensures Settled(s', NameAt(s, At(s, a.c).id, n), n)
  {
    assert s.entries[At(s, a.c).id] in s'.handled;
  }

  /** Every message that is safe stays safe, except perhaps when its last entry is recognised as a duplicate. */
  lemma SafeStays(s: State, s': State, a: Action, cfg: Config, e: Name, n: Naming)
    requires StepBy(s, s', a, cfg) && Known(s) && Safe(s, e, n) && !a.Skip?
    ensures Safe(s', e, n)
  {
    if Settled(s, e, n) {
      SettledStays(s, s', a, cfg, e, n);
    } else {
      var id: nat :| Kept(s, e, id, n);
      if a.Succeed? && At(s, a.c).id == id {
        SucceedSettles(s, s', a, cfg, n);
      } else if a.Fail? && At(s, a.c).id == id {
        CopySaves(s, s', a, cfg, n);
      } else {
        KeptStays(s, s', a, cfg, e, id, n);
      }
    }
  }

  lemma ArrivedIsSafe(s: State, s': State, values: Values, cfg: Config, n: Naming)
    requires StepBy(s, s', Arrive(values), cfg) && Known(s)
    ensures Safe(s', NameOf(Item(values, |s.entries|), n), n)
  {
    forall c <- s'.consumers, o: nat | Retires(s'.consumers[c], o)
      ensures o < |s.entries|
    {
      assert s.consumers[c] != Idle;
    }
    AppendedIsKept(s, s', NameOf(Item(values, |s.entries|), n), n);
  }

  ghost predicate AllSafe(s: State, n: Naming) {
    Known(s) && forall item <- s.arrived :: Safe(s, NameOf(item, n), n)
  }

  lemma StepKeepsSafe(s: State, s': State, a: Action, cfg: Config, n: Naming)
    requires StepBy(s, s', a, cfg) && AllSafe(s, n) && !a.Skip?
    ensures AllSafe(s', n)
  {
    KnownStays(s, s', a, cfg);
    forall item <- s'.arrived
      ensures Safe(s', NameOf(item, n), n)
    {
      if item in s.arrived {
        SafeStays(s, s', a, cfg, NameOf(item, n), n);
      } else {
        ArrivedIsSafe(s, s', a.values, cfg, n);
      }
    }
  }

  lemma UnkeyedStepKeeps(s: State, s': State, cfg: Config, n: Naming)
    requires Step(s, s', cfg) && !cfg.keyed && AllSafe(s, n)
    ensures AllSafe(s', n)
  {
    var a :| StepBy(s, s', a, cfg);
    StepKeepsSafe(s, s', a, cfg, n);
  }

  lemma {:induction false} UnkeyedRunKeeps(run: seq<State>, i: nat, cfg: Config, n: Naming)
    requires Run(run, cfg) && i < |run| && !cfg.keyed
    ensures AllSafe(run[i], n)
  {
    if i == 0 {
    } else {
      UnkeyedRunKeeps(run, i - 1, cfg, n);
      UnkeyedStepKeeps(run[i - 1], run[i], cfg, n);
    }
  }

  lemma SafeIsAccounted(s: State, e: Name, n: Naming)
    requires Safe(s, e, n)
    ensures Accounted(s, e, n)
  {
    if !Settled(s, e, n) {
      var id: nat :| Kept(s, e, id, n);
      assert IsLive(s, e, id, n);
    }
  }

  // ---- HandleMessage as steps --------------------------------------------------------------------------------

  ghost predicate Path(path: seq<State>, cfg: Config) {
    path != [] && forall i :: 0 < i < |path| ==> Step(path[i - 1], path[i], cfg)
  }

  lemma Then(path: seq<State>, s: State, a: Action, cfg: Config) returns (longer: seq<State>)
    requires Path(path, cfg) && StepBy(path[|path| - 1], s, a, cfg)
    ensures Path(longer, cfg) && longer[0] == path[0] && longer[|longer| - 1] == s
  {
    longer := path + [s];
    forall i | 0 < i < |longer|
      ensures Step(longer[i - 1], longer[i], cfg)
    {
      if i == |path| {
        assert StepBy(longer[i - 1], longer[i], a, cfg);
      }
    }
  }

  /** What a call that had entry `id` has changed for others to see. */
  ghost predicate Observed(s: State, t: State, c: nat, id: nat, cfg: Config, verdict: Handled,
                           acquired: bool, copied: bool, acked: bool)
    requires id < |s.entries| && (copied ==> verdict != Ok)
  {
    var u := if copied then AddCopy(s, id, cfg, verdict) else s;
    && t.entries == u.entries && t.undelivered == u.undelivered && t.dead == u.dead
    && t.pending == (if acked then s.pending - {id} else s.pending)
    && t.keys == (if acquired then s.keys + {KeyAt(s, id, cfg)} else s.keys)
    && t.consumers == s.consumers[c := Idle]
    && (acked && verdict == Ok && !(cfg.keyed && KeyAt(s, id, cfg) in s.keys) ==> s.entries[id] in t.handled)
  }

  /** Whatever a call of HandleMessage may have done, steps of this system do. */
  lemma HandleMessageIsSteps(s: State, c: nat, cfg: Config, verdict: Handled, acquired: bool, copied: bool, acked: bool)
    returns (path: seq<State>)
    requires c in s.consumers && s.consumers[c].Got? && s.consumers[c].id < |s.entries|
    requires Allowed(cfg.keyed, cfg.keyed && KeyAt(s, s.consumers[c].id, cfg) in s.keys, verdict, acquired, copied,
        acked)
    ensures Path(path, cfg) && path[0] == s
    ensures Observed(s, path[|path| - 1], c, s.consumers[c].id, cfg, verdict, acquired, copied, acked)
  {
    var id := s.consumers[c].id;
    path := [s];
    if cfg.keyed && KeyAt(s, id, cfg) in s.keys {
      path := Then(path, Move(s, c, Skipped(id)), Skip(c), cfg);
    } else if !cfg.keyed || acquired {
      path := StartedSteps(path, c, cfg, verdict, copied);
    }
    path := LeaveSteps(path, c, id, cfg, acked);
  }

  /** Acknowledge, or stop without. */
  lemma LeaveSteps(before: seq<State>, c: nat, id: nat, cfg: Config, acked: bool) returns (path: seq<State>)
    requires Path(before, cfg)
    requires var s := before[|before| - 1]; c in s.consumers && (acked ==> Retires(s.consumers[c], id))
    ensures Path(path, cfg) && path[0] == before[0]
    ensures var s := before[|before| - 1];
            path[|path| - 1] == Move(s, c, Idle).(pending := if acked then s.pending - {id} else s.pending)
  {
    var s := before[|before| - 1];
    if acked {
      path := Then(before, Move(s, c, Idle).(pending := s.pending - {id}), Ack(c), cfg);
    } else {
      path := Then(before, Move(s, c, Idle), Crash(c), cfg);
    }
  }

  lemma CopiedStep(before: seq<State>, c: nat, id: nat, cfg: Config, verdict: Handled) returns (path: seq<State>)
    requires Path(before, cfg) && verdict != Ok
    requires var s := before[|before| - 1]; c in s.consumers && s.consumers[c] == Working(id) && id < |s.entries|
    ensures Path(path, cfg) && path[0] == before[0]
    ensures path[|path| - 1] == Move(AddCopy(before[|before| - 1], id, cfg, verdict), c, Copied(id))
  {
    var s := before[|before| - 1];
    path := Then(before, Move(AddCopy(s, id, cfg, verdict), c, Copied(id)), Fail(c, verdict), cfg);
  }

  /** The handler, and what its verdict leads to. */
  lemma StartedSteps(before: seq<State>, c: nat, cfg: Config, verdict: Handled, copied: bool) returns (path: seq<State>)
    requires Path(before, cfg) && (copied ==> verdict != Ok)
    requires var s := before[|before| - 1];
             && c in s.consumers && s.consumers[c].Got? && s.consumers[c].id < |s.entries|
             && (cfg.keyed ==> KeyAt(s, s.consumers[c].id, cfg) !in s.keys)
    ensures Path(path, cfg) && path[0] == before[0]
    ensures var s, t := before[|before| - 1], path[|path| - 1];
            var id := s.consumers[c].id;
            var u := if copied then AddCopy(s, id, cfg, verdict) else s;
            && t.entries == u.entries && t.undelivered == u.undelivered && t.dead == u.dead && t.pending == s.pending
            && t.keys == (if cfg.keyed then s.keys + {KeyAt(s, id, cfg)} else s.keys)
            && c in t.consumers && t.consumers == s.consumers[c := t.consumers[c]]
            && (verdict == Ok || copied ==> Retires(t.consumers[c], id))
            && (verdict == Ok ==> s.entries[id] in t.handled)
  {
    var s := before[|before| - 1];
    var id := s.consumers[c].id;
    var s1 := Started(s, c, cfg);
    path := Then(before, s1, Start(c), cfg);
    assert s1.consumers == s.consumers[c := Working(id)];
    if verdict == Ok {
      path := Then(path, Move(s1, c, Finished(id)).(handled := s1.handled + {s.entries[id]}), Succeed(c), cfg);
    } else if copied {
      CopyOfSame(s, s1, id, cfg, verdict);
      path := CopiedStep(path, c, id, cfg, verdict);
    }
  }

  function Started(s: State, c: nat, cfg: Config): State
    requires c in s.consumers && s.consumers[c].Got?
  {
    var key := KeyAt(s, s.consumers[c].id, cfg);
    Move(s, c, Working(s.consumers[c].id)).(keys := if cfg.keyed then s.keys + {key} else s.keys,
                                           starts := s.starts + multiset{key})
  }

  lemma CopyOfSame(s: State, t: State, id: nat, cfg: Config, verdict: Handled)
    requires id < |s.entries| && verdict != Ok
    requires t.entries == s.entries && t.undelivered == s.undelivered && t.dead == s.dead
    ensures var u, v := AddCopy(s, id, cfg, verdict), AddCopy(t, id, cfg, verdict);
            && u.entries == v.entries && u.undelivered == v.undelivered && u.dead == v.dead
            && v.pending == t.pending && v.keys == t.keys && v.consumers == t.consumers
  {
  }

  // ---- With idempotency keys ---------------------------------------------------------------------------------

  /** The keyed configurations that lose no message: no copy comes back to the stream and nothing is read twice. */
  predicate OneShot(cfg: Config) {
    cfg.keyed && !cfg.reread && cfg.maxRetry < 1 && HasDLQ(cfg)
  }

  /** The messages as the keys tell them apart. */
  function Named(cfg: Config): Naming {
    ByEvent(cfg.isTime)
  }

  /** Without requeues no entry carries a counter. */
  ghost predicate Fresh(s: State) {
    forall i :: 0 <= i < |s.entries| ==> RETRY_COUNT !in s.entries[i].values
  }

  /** Without re-reading no two consumers have the same entry. */
  ghost predicate Exclusive(s: State) {
    && (forall id <- s.undelivered :: id !in s.pending)
    && (forall c <- s.consumers :: s.consumers[c] != Idle ==> s.consumers[c].id in s.pending)
    && (forall c <- s.consumers, d <- s.consumers ::
          c != d && s.consumers[c] != Idle && s.consumers[d] != Idle ==> s.consumers[c].id != s.consumers[d].id)
  }

  /** Pending, and past the idempotency gate. */
  ghost predicate Owned(s: State, e: Name, id: nat, n: Naming) {
    && IsLive(s, e, id, n) && id in s.pending
    && forall c <- s.consumers :: !Retires(s.consumers[c], id) && s.consumers[c] != Got(id)
  }

  /** A taken key belongs to a message that is settled or in somebody's hands. */
  ghost predicate Covered(s: State, e: Name, n: Naming) {
    Settled(s, e, n) || exists id: nat :: Owned(s, e, id, n)
  }

  /** The message a key stands for. */
  function NameOfKey(s: State, key: Key, n: Naming): Name {
    match key
    case EventKey(e) => Event(e)
    case EntryKey(id) => NameAt(s, id, n)
  }

  ghost predicate KeyIsCovered(s: State, key: Key, n: Naming) {
    (key.EntryKey? ==> key.id < |s.entries|) && Covered(s, NameOfKey(s, key, n), n)
  }

  lemma KeyNamesMessage(s: State, id: nat, cfg: Config)
    requires id < |s.entries|
    ensures NameOfKey(s, KeyAt(s, id, cfg), Named(cfg)) == NameAt(s, id, Named(cfg))
  {
  }

  ghost predicate Guarded(s: State, n: Naming) {
    Fresh(s) && Exclusive(s) && forall key <- s.keys :: KeyIsCovered(s, key, n)
  }

  lemma DeadLettersOnly(s: State, id: nat, cfg: Config, verdict: Handled)
    requires Fresh(s) && id < |s.entries| && verdict != Ok && OneShot(cfg)
    ensures Copy(s.entries[id].values, cfg, verdict).stream != cfg.stream
  {
  }

  lemma ExclusiveStays(s: State, s': State, a: Action, cfg: Config)
    requires StepBy(s, s', a, cfg) && OneShot(cfg) && Known(s) && Fresh(s) && Exclusive(s)
    ensures Exclusive(s')
  {
    if a.Fail? || a.FailUnsure? {
      DeadLettersOnly(s, At(s, a.c).id, cfg, a.verdict);
    }
    forall id <- s'.undelivered
      ensures id !in s'.pending
    {
      assert id in s.undelivered || id == |s.entries|;
      assert id in s.pending ==> id in s.undelivered + s.pending;
    }
  }

  lemma FreshStays(s: State, s': State, a: Action, cfg: Config)
    requires StepBy(s, s', a, cfg) && OneShot(cfg) && Fresh(s)
    ensures Fresh(s')
  {
    if a.Fail? || a.FailUnsure? {
      DeadLettersOnly(s, At(s, a.c).id, cfg, a.verdict);
    }
  }

  lemma OwnedStays(s: State, s': State, a: Action, cfg: Config, e: Name, id: nat, n: Naming)
    requires StepBy(s, s', a, cfg) && !cfg.reread && Exclusive(s) && Owned(s, e, id, n)
    requires (a.Succeed? || a.Fail?) ==> At(s, a.c).id != id
    ensures Owned(s', e, id, n)
  {
    assert s'.entries[..|s.entries|] == s.entries;
    assert NameAt(s', id, n) == NameAt(s, id, n);
    if a.Ack? {
      assert Retires(s.consumers[a.c], At(s, a.c).id);
    }
    forall c <- s'.consumers
      ensures !Retires(s'.consumers[c], id) && s'.consumers[c] != Got(id)
    {
      assert c in s.consumers ==> !Retires(s.consumers[c], id) && s.consumers[c] != Got(id);
    }
  }

  lemma TakenIsOwned(s: State, s': State, a: Action, cfg: Config, n: Naming)
    requires StepBy(s, s', a, cfg) && Known(s) && Exclusive(s) && (a.Start? || a.AcquireUnsure?)
    ensures Owned(s', NameAt(s, At(s, a.c).id, n), At(s, a.c).id, n)
  {
  }

  lemma FailSettles(s: State, s': State, a: Action, cfg: Config, n: Naming)
    requires StepBy(s, s', a, cfg) && OneShot(cfg) && Fresh(s) && a.Fail?
    ensures Settled(s', NameAt(s, At(s, a.c).id, n), n)
  {
    var id := At(s, a.c).id;
    DeadLettersOnly(s, id, cfg, a.verdict);
    CopyKeepsName(s.entries[id], cfg, a.verdict, n);
    assert NameOf(s'.dead[|s.dead|], n) == NameAt(s, id, n);
  }

  lemma CoveredStays(s: State, s': State, a: Action, cfg: Config, e: Name, n: Naming)
    requires StepBy(s, s', a, cfg) && OneShot(cfg) && Known(s) && Guarded(s, n) && Covered(s, e, n)
    ensures Covered(s', e, n)
  {
    if Settled(s, e, n) {
      SettledStays(s, s', a, cfg, e, n);
    } else {
      var id: nat :| Owned(s, e, id, n);
      if a.Succeed? && At(s, a.c).id == id {
        SucceedSettles(s, s', a, cfg, n);
      } else if a.Fail? && At(s, a.c).id == id {
        FailSettles(s, s', a, cfg, n);
      } else {
        OwnedStays(s, s', a, cfg, e, id, n);
      }
    }
  }

  lemma GuardedStays(s: State, s': State, a: Action, cfg: Config)
    requires StepBy(s, s', a, cfg) && OneShot(cfg) && Known(s) && Guarded(s, Named(cfg))
    ensures Guarded(s', Named(cfg))
  {
    var n := Named(cfg);
    ExclusiveStays(s, s', a, cfg);
    FreshStays(s, s', a, cfg);
    forall key <- s'.keys
      ensures KeyIsCovered(s', key, n)
    {
      assert s'.entries[..|s.entries|] == s.entries;
      if key in s.keys {
        assert KeyIsCovered(s, key, n);
        assert NameOfKey(s', key, n) == NameOfKey(s, key, n);
        CoveredStays(s, s', a, cfg, NameOfKey(s, key, n), n);
      } else {
        TakenIsOwned(s, s', a, cfg, n);
        KeyNamesMessage(s, At(s, a.c).id, cfg);
      }
    }
  }

  /** An entry skipped as a duplicate was not the last hold on its message. */
  lemma SkipKeepsSafe(s: State, s': State, c: nat, cfg: Config)
    requires StepBy(s, s', Skip(c), cfg) && OneShot(cfg) && AllSafe(s, Named(cfg)) && Guarded(s, Named(cfg))
    ensures AllSafe(s', Named(cfg))
  {
    KnownStays(s, s', Skip(c), cfg);
    forall item <- s'.arrived
      ensures Safe(s', NameOf(item, Named(cfg)), Named(cfg))
    {
      SkippedStaysSafe(s, s', c, cfg, NameOf(item, Named(cfg)));
    }
  }

  lemma SkippedStaysSafe(s: State, s': State, c: nat, cfg: Config, e: Name)
    requires StepBy(s, s', Skip(c), cfg) && OneShot(cfg) && Known(s) && Guarded(s, Named(cfg)) && Safe(s, e, Named(cfg))
    ensures Safe(s', e, Named(cfg))
  {
    var n, id0 := Named(cfg), At(s, c).id;
    if Settled(s, e, n) {
      SettledStays(s, s', Skip(c), cfg, e, n);
    } else if e == NameAt(s, id0, n) {
      KeyNamesMessage(s, id0, cfg);
      assert KeyIsCovered(s, KeyAt(s, id0, cfg), n);
      var id: nat :| Owned(s, e, id, n);
      OwnedStays(s, s', Skip(c), cfg, e, id, n);
      assert Kept(s', e, id, n);
    } else {
      var id: nat :| Kept(s, e, id, n);
      KeptStays(s, s', Skip(c), cfg, e, id, n);
    }
  }

  lemma OneShotStepKeeps(s: State, s': State, cfg: Config)
    requires Step(s, s', cfg) && OneShot(cfg) && AllSafe(s, Named(cfg)) && Guarded(s, Named(cfg))
    ensures AllSafe(s', Named(cfg)) && Guarded(s', Named(cfg))
  {
    var a :| StepBy(s, s', a, cfg);
    GuardedStays(s, s', a, cfg);
    if a.Skip? {
      SkipKeepsSafe(s, s', a.c, cfg);
    } else {
      StepKeepsSafe(s, s', a, cfg, Named(cfg));
    }
  }

  lemma {:induction false} OneShotRunKeeps(run: seq<State>, i: nat, cfg: Config)
    requires Run(run, cfg) && i < |run| && OneShot(cfg)
    ensures AllSafe(run[i], Named(cfg)) && Guarded(run[i], Named(cfg))
  {
    if i == 0 {
    } else {
      OneShotRunKeeps(run, i - 1, cfg);
      OneShotStepKeeps(run[i - 1], run[i], cfg);
    }
  }

  // ---- Runs that lose a message -----------------------------------------------------------------------------

  lemma Extend(run: seq<State>, s: State, a: Action, cfg: Config) returns (longer: seq<State>)
    requires Run(run, cfg) && StepBy(run[|run| - 1], s, a, cfg)
    ensures Run(longer, cfg) && longer[|longer| - 1] == s
  {
    longer := run + [s];
    forall i | 0 < i < |longer|
      ensures Step(longer[i - 1], longer[i], cfg)
    {
      if i == |run| {
        assert StepBy(longer[i - 1], longer[i], a, cfg);
      }
    }
  }

  const SAMPLE_EVENT := BaseEvent("e", "k", 1, "s", "", "", "{}", "")
  const SAMPLE: Values := ToValues(SAMPLE_EVENT, "").value
  const FIRST := Item(SAMPLE, 0)

  lemma SampleDecodes(isTime: string -> bool)
    ensures NameOf(Item(SAMPLE, 0), ByEvent(isTime)) == Event("e")
    ensures RETRY_COUNT !in SAMPLE && forall id :: BuildIdempotencyKey(SAMPLE, id, isTime) == EventKey("e")
  {
    FieldsOf(SAMPLE_EVENT, "");
    EventFieldsAreData();
    assert EVENT_VERSION[0] != RETRY_COUNT[0];
  }

  /** One message, whose key its only reader has acquired. */
  const STARTED := State([FIRST], {}, {0}, map[0 := Working(0)], [], {EventKey("e")}, {FIRST}, {},
      multiset{EventKey("e")})

  lemma ReachStarted(cfg: Config) returns (run: seq<State>)
    requires cfg.keyed
    ensures Run(run, cfg) && run[|run| - 1] == STARTED
  {
    var s1 := Append(EMPTY, FIRST).(arrived := {FIRST});
    var s2 := Move(s1, 0, Idle);
    var s3 := Move(s2, 0, Got(0)).(undelivered := {}, pending := {0});
    SampleDecodes(cfg.isTime);
    assert s1.arrived == EMPTY.arrived + {FIRST} && s3.undelivered == s2.undelivered - {0}
        && s3.pending == s2.pending + {0};
    run := Extend([EMPTY], s1, Arrive(SAMPLE), cfg);
    run := Extend(run, s2, Join(0), cfg);
    run := Extend(run, s3, Deliver(0, 0), cfg);
    var key := EventKey("e");
    assert STARTED == Move(s3, 0, Working(0)).(keys := s3.keys + {key}, starts := s3.starts + multiset{key});
    run := Extend(run, STARTED, Start(0), cfg);
  }

  /** Skipping entry `id` as a duplicate and acknowledging it. */
  lemma SkipAndAck(before: seq<State>, id: nat, cfg: Config) returns (run: seq<State>)
    requires Run(before, cfg) && cfg.keyed
    requires var s := before[|before| - 1]; At(s, 0) == Got(id) && KeyAt(s, id, cfg) in s.keys
    ensures Run(run, cfg)
    ensures var s := before[|before| - 1]; run[|run| - 1] == Move(s, 0, Idle).(pending := s.pending - {id})
  {
    var s := before[|before| - 1];
    run := Extend(before, Move(s, 0, Skipped(id)), Skip(0), cfg);
    var t := Move(s, 0, Idle).(pending := s.pending - {id});
    assert t == Move(Move(s, 0, Skipped(id)), 0, Idle).(pending := s.pending - {id});
    run := Extend(run, t, Ack(0), cfg);
  }

  /** A reader crashes after acquiring the key; whoever reads the entry again skips it. */
  lemma RereadLoses(cfg: Config) returns (run: seq<State>)
    requires cfg.keyed && cfg.reread
    ensures Run(run, cfg) && FIRST in run[|run| - 1].arrived
    ensures !Accounted(run[|run| - 1], NameOf(FIRST, Named(cfg)), Named(cfg))
  {
    run := ReachStarted(cfg);
    var s5 := Move(STARTED, 0, Idle);
    var s6 := Move(s5, 0, Got(0)).(undelivered := s5.undelivered - {0}, pending := s5.pending + {0});
    run := Extend(run, s5, Crash(0), cfg);
    run := Extend(run, s6, Deliver(0, 0), cfg);
    SampleDecodes(cfg.isTime);
    run := SkipAndAck(run, 0, cfg);
  }

  /** The copy a transient failure of the sample leaves. */
  function SampleCopy(cfg: Config): Item {
    Item(Copy(SAMPLE, cfg, Transient("")).values, 0)
  }

  /** The copy comes back to the stream, and it still decodes to the same event. */
  lemma SampleComesBack(cfg: Config)
    requires cfg.maxRetry >= 1 || !HasDLQ(cfg)
    ensures Copy(SAMPLE, cfg, Transient("")).stream == cfg.stream
    ensures BuildIdempotencyKey(SampleCopy(cfg).values, 1, cfg.isTime) == EventKey("e")
  {
    SampleDecodes(cfg.isTime);
    CopyKeepsName(FIRST, cfg, Transient(""), Named(cfg));
  }

  /** After the copy is added and the first entry acknowledged. */
  function Requeued(copy: Item): State {
    State([FIRST, copy], {1}, {}, map[0 := Idle], [], {EventKey("e")}, {FIRST}, {}, multiset{EventKey("e")})
  }

  lemma CopyThenAck(before: seq<State>, s: State, copy: Item, cfg: Config) returns (run: seq<State>)
    requires Run(before, cfg) && before[|before| - 1] == s && At(s, 0) == Working(0) && |s.entries| > 0
    requires AddCopy(s, 0, cfg, Transient("")) == Append(s, copy)
    ensures Run(run, cfg) && run[|run| - 1] == Move(Append(s, copy), 0, Idle).(pending := s.pending - {0})
  {
    var t := Append(s, copy);
    run := Extend(before, Move(t, 0, Copied(0)), Fail(0, Transient("")), cfg);
    assert Move(Move(t, 0, Copied(0)), 0, Idle) == Move(t, 0, Idle);
    run := Extend(run, Move(t, 0, Idle).(pending := s.pending - {0}), Ack(0), cfg);
  }

  lemma FailAddsCopy(cfg: Config)
    requires cfg.maxRetry >= 1 || !HasDLQ(cfg)
    ensures AddCopy(STARTED, 0, cfg, Transient("")) == Append(STARTED, SampleCopy(cfg))
  {
    SampleComesBack(cfg);
  }

  lemma AckedIsRequeued(copy: Item)
    ensures Move(Append(STARTED, copy), 0, Idle).(pending := STARTED.pending - {0}) == Requeued(copy)
  {
  }

  lemma ReachRequeued(cfg: Config) returns (run: seq<State>)
    requires cfg.keyed && (cfg.maxRetry >= 1 || !HasDLQ(cfg))
    ensures Run(run, cfg) && run[|run| - 1] == Requeued(SampleCopy(cfg))
  {
    run := ReachStarted(cfg);
    FailAddsCopy(cfg);
    AckedIsRequeued(SampleCopy(cfg));
    run := CopyThenAck(run, STARTED, SampleCopy(cfg), cfg);
  }

  /** The requeued copy is delivered, skipped and acknowledged. */
  lemma CopyIsSkipped(before: seq<State>, copy: Item, cfg: Config) returns (run: seq<State>)
    requires Run(before, cfg) && cfg.keyed && before[|before| - 1] == Requeued(copy)
    requires BuildIdempotencyKey(copy.values, 1, cfg.isTime) == EventKey("e")
    ensures Run(run, cfg)
    ensures var t := run[|run| - 1];
            t.arrived == {FIRST} && t.undelivered == {} && t.pending == {} && t.dead == [] && t.handled == {}
  {
    var s := Requeued(copy);
    var t := Move(s, 0, Got(1)).(undelivered := s.undelivered - {1}, pending := s.pending + {1});
    run := Extend(before, t, Deliver(0, 1), cfg);
    run := SkipAndAck(run, 1, cfg);
  }

  lemma NothingIsLeft(s: State, e: Name, n: Naming)
    requires s.undelivered == {} && s.pending == {} && s.dead == [] && s.handled == {}
    ensures !Accounted(s, e, n)
  {
  }

  /** The copy of a failed message that comes back to the stream is skipped: the first attempt has the key. */
  lemma RequeueLoses(cfg: Config) returns (run: seq<State>)
    requires cfg.keyed && (cfg.maxRetry >= 1 || !HasDLQ(cfg))
    ensures Run(run, cfg) && FIRST in run[|run| - 1].arrived
    ensures !Accounted(run[|run| - 1], NameOf(FIRST, Named(cfg)), Named(cfg))
  {
    run := ReachRequeued(cfg);
    SampleComesBack(cfg);
    run := CopyIsSkipped(run, SampleCopy(cfg), cfg);
    NothingIsLeft(run[|run| - 1], NameOf(FIRST, Named(cfg)), Named(cfg));
  }

  /** The second arrival of an event is skipped while the first is still being worked on. */
  lemma SecondArrivalLost(cfg: Config) returns (run: seq<State>)
    requires cfg.keyed
    ensures Run(run, cfg) && Item(SAMPLE, 1) in run[|run| - 1].arrived
    ensures !Accounted(run[|run| - 1], Arrival(1), ByArrival)
  {
    run := ReachStarted(cfg);
    var second := Item(SAMPLE, 1);
    SampleDecodes(cfg.isTime);
    var s1 := Append(STARTED, second).(arrived := STARTED.arrived + {second});
    run := Extend(run, s1, Arrive(SAMPLE), cfg);
    run := Extend(run, Move(s1, 0, Idle), Crash(0), cfg);
    var s2 := Move(s1, 0, Got(1)).(undelivered := s1.undelivered - {1}, pending := s1.pending + {1});
    run := Extend(run, s2, Deliver(0, 1), cfg);
    run := SkipAndAck(run, 1, cfg);
    OnlyFirstIsLeft(run[|run| - 1]);
  }

  lemma OnlyFirstIsLeft(s: State)
    requires |s.entries| == 2 && s.entries[0].origin == 0 && s.undelivered == {} && s.pending == {0}
    requires s.dead == [] && s.handled == {}
    ensures !Accounted(s, Arrival(1), ByArrival)
  {
  }

  // ---- Main results ---------------------------------------------------------------------------------------------

  ghost predicate NeverLoses(cfg: Config, n: Naming) {
    forall run: seq<State>, i: nat, item: Item ::
      Run(run, cfg) && i < |run| && item in run[i].arrived ==> Accounted(run[i], NameOf(item, n), n)
  }

  lemma UnkeyedLosesNothing(cfg: Config, n: Naming)
    requires !cfg.keyed
    ensures NeverLoses(cfg, n)
  {
    forall run: seq<State>, i: nat, item: Item | Run(run, cfg) && i < |run| && item in run[i].arrived
      ensures Accounted(run[i], NameOf(item, n), n)
    {
      UnkeyedRunKeeps(run, i, cfg, n);
      SafeIsAccounted(run[i], NameOf(item, n), n);
    }
  }

  /** Whatever crashes and lost replies happen, at every step every single arrival, or a copy of it, is undelivered,
      pending, handled or dead-lettered, exactly when no idempotency key is used. */
  lemma NoArrivalLost(cfg: Config)
    ensures NeverLoses(cfg, ByArrival) <==> !cfg.keyed
  {
    if cfg.keyed {
      var run := SecondArrivalLost(cfg);
      var last: nat := |run| - 1;
      assert Run(run, cfg) && Item(SAMPLE, 1) in run[last].arrived;
      assert !Accounted(run[last], NameOf(Item(SAMPLE, 1), ByArrival), ByArrival);
    } else {
      UnkeyedLosesNothing(cfg, ByArrival);
    }
  }

  /** Arrivals of one event counting as one message, every message is so accounted for exactly when no idempotency key
      is used, or nothing ever comes back to the stream, as a retry or as a dead letter, or is read again. */
  lemma NoMessageLost(cfg: Config)
    ensures NeverLoses(cfg, Named(cfg)) <==> !cfg.keyed || (cfg.maxRetry < 1 && !cfg.reread && HasDLQ(cfg))
  {
    if !cfg.keyed {
      UnkeyedLosesNothing(cfg, Named(cfg));
    } else if OneShot(cfg) {
      forall run: seq<State>, i: nat, item: Item | Run(run, cfg) && i < |run| && item in run[i].arrived
        ensures Accounted(run[i], NameOf(item, Named(cfg)), Named(cfg))
      {
        OneShotRunKeeps(run, i, cfg);
        SafeIsAccounted(run[i], NameOf(item, Named(cfg)), Named(cfg));
      }
    } else {
      var run: seq<State>;
      if cfg.reread {
        run := RereadLoses(cfg);
      } else {
        run := RequeueLoses(cfg);
      }
      var last: nat := |run| - 1;
      assert Run(run, cfg) && FIRST in run[last].arrived;
      assert !Accounted(run[last], NameOf(FIRST, Named(cfg)), Named(cfg));
    }
  }

  ghost predicate StartsAreKeyed(s: State, key: Key) {
    s.starts[key] <= if key in s.keys then 1 else 0
  }

  lemma StartNeedsKey(s: State, s': State, cfg: Config, key: Key)
    requires Step(s, s', cfg) && cfg.keyed && StartsAreKeyed(s, key)
    ensures StartsAreKeyed(s', key)
  {
    var a :| StepBy(s, s', a, cfg);
  }

  /** With keys that do not expire the handler starts at most once per key: once per event, however many copies of it
      there are, when the event decodes, and once per entry otherwise. */
  lemma {:induction false} StartsOnce(run: seq<State>, i: nat, key: Key, cfg: Config)
    requires Run(run, cfg) && i < |run| && cfg.keyed
    ensures run[i].starts[key] <= if key in run[i].keys then 1 else 0
  {
    if i == 0 {
    } else {
      StartsOnce(run, i - 1, key, cfg);
      StartNeedsKey(run[i - 1], run[i], cfg, key);
    }
  }
}
