/** Retry metadata and the handling of one message (pkg/eventbus/retry_dlq.go, pkg/eventbus/processing.go,
    pkg/eventbus/types.go). */
module EventBus {
  import opened Common
  import opened Text

  /** A message field in memory. What comes out of Redis is always text. */
  datatype Value = Int(n: int) | Str(s: string)

  type Values = map<string, Value>

  const EVENT_ID := "event_id"
  const RETRY_COUNT := "retry_count"
  const LAST_ERROR := "last_error"
  const DLQ_REASON := "dlq_reason"

  function RetryCount(values: Values): int {
    if RETRY_COUNT !in values then 0
    else
      match values[RETRY_COUNT]
      case Int(n) => n
      case Str(s) => match Atoi(s) case Some(n) => n case None => 0
  }

  function WithRetryMetadata(values: Values, retryCount: int, lastErr: string): Values {
    values[RETRY_COUNT := Int(retryCount)][LAST_ERROR := Str(lastErr)]
  }

  /** XADD writes every field as text and XREADGROUP reads text back. */
  function ThroughRedis(values: Values): Values {
    map k <- values :: match values[k] case Int(n) => Str(Itoa(n)) case Str(s) => Str(s)
  }

  /** What a failed message turns into: a copy in its own stream or one in the dead-letter stream. */
  datatype Hop = Requeue(payload: Values) | DeadLetter(payload: Values)

  function RequeueOrDLQ(values: Values, maxRetry: int, lastErr: string): Hop {
    var next := Wrap64(RetryCount(values) + 1);
    var payload := WithRetryMetadata(values, next, lastErr);
    if next <= maxRetry then Requeue(payload)
    else DeadLetter(payload[DLQ_REASON := Str("retry exhausted (max=" + Itoa(maxRetry) + ")")])
  }

  function MoveToDLQ(values: Values, lastErr: string): Hop {
    DeadLetter(WithRetryMetadata(values, RetryCount(values), lastErr)[DLQ_REASON := Str("permanent_error")])
  }

  /** The counter a message carries is an int64. */
  predicate Counted(values: Values) {
    RETRY_COUNT in values && values[RETRY_COUNT].Int? ==> MIN_INT64 <= values[RETRY_COUNT].n <= MAX_INT64
  }

  predicate IsMetadata(field: string) {
    field == RETRY_COUNT || field == LAST_ERROR || field == DLQ_REASON
  }

  // ---- One hop -----------------------------------------------------------------------------------

  lemma RetryCountInRange(values: Values)
    requires Counted(values)
    ensures MIN_INT64 <= RetryCount(values) <= MAX_INT64
  {
  }

  /** The counter survives the text form, and so does every field that is not retry metadata. */
  lemma MetadataThroughRedis(values: Values, n: int, lastErr: string)
    requires MIN_INT64 <= n <= MAX_INT64
    ensures RetryCount(ThroughRedis(WithRetryMetadata(values, n, lastErr))) == n
    ensures Counted(ThroughRedis(WithRetryMetadata(values, n, lastErr)))
  {
    AtoiOfItoa(n);
    assert RETRY_COUNT != LAST_ERROR;
  }

  /** A requeue brings the message closer to the dead-letter stream exactly when its counter is not already the
      largest int64: there the counter wraps and retrying starts over from the smallest one. */
  lemma RequeueDecreases(values: Values, maxRetry: int, lastErr: string)
    requires Counted(values) && RequeueOrDLQ(values, maxRetry, lastErr).Requeue?
    ensures var next := ThroughRedis(RequeueOrDLQ(values, maxRetry, lastErr).payload);
            (0 <= maxRetry + 1 - RetryCount(next) < maxRetry + 1 - RetryCount(values))
                <==> RetryCount(values) != MAX_INT64
  {
    RetryCountInRange(values);
    MetadataThroughRedis(values, Wrap64(RetryCount(values) + 1), lastErr);
  }

  /** A field that is not retry metadata has the same text before and after. */
  predicate SameField(a: Values, b: Values, field: string) {
    (field in a <==> field in b) && (field in a ==> ThroughRedis(a)[field] == ThroughRedis(b)[field])
  }

  // ---- All hops ------------------------------------------------------------------------------------

  /** Where a message is after its handler failed with the given errors, one per delivery. */
  datatype Fate = Live(values: Values) | Dead(values: Values)

  function Process(values: Values, maxRetry: int, errs: seq<string>): Fate {
    if errs == [] then Live(values)
    else
      match Process(values, maxRetry, errs[..|errs| - 1])
      case Dead(v) => Dead(v)
      case Live(v) =>
        match RequeueOrDLQ(v, maxRetry, errs[|errs| - 1])
        case Requeue(p) => Live(ThroughRedis(p))
        case DeadLetter(p) => Dead(ThroughRedis(p))
  }

  function Max0(n: int): nat {
    if n < 0 then 0 else n
  }

  /** A failed delivery raises the counter by one and requeues while it stays within the limit. */
  lemma HopCounts(values: Values, maxRetry: int, lastErr: string)
    requires Counted(values) && RetryCount(values) < MAX_INT64
    ensures var hop := RequeueOrDLQ(values, maxRetry, lastErr);
            && (hop.Requeue? <==> RetryCount(values) < maxRetry)
            && RetryCount(ThroughRedis(hop.payload)) == RetryCount(values) + 1
            && Counted(ThroughRedis(hop.payload))
  {
    var next := RetryCount(values) + 1;
    RetryCountInRange(values);
    MetadataThroughRedis(values, next, lastErr);
    AtoiOfItoa(next);
    assert DLQ_REASON != RETRY_COUNT by { assert DLQ_REASON[0] != RETRY_COUNT[0]; }
  }

  lemma {:induction false} ProcessCounts(values: Values, maxRetry: int, errs: seq<string>)
    requires RETRY_COUNT !in values && maxRetry < MAX_INT64
    ensures var fate := Process(values, maxRetry, errs);
            && (fate.Live? <==> |errs| <= Max0(maxRetry))
            && RetryCount(fate.values) == (if |errs| <= Max0(maxRetry) then |errs| else Max0(maxRetry) + 1)
            && Counted(fate.values)
  {
    if errs == [] {
    } else {
      var n := |errs| - 1;
      ProcessCounts(values, maxRetry, errs[..n]);
      if n <= Max0(maxRetry) {
        HopCounts(Process(values, maxRetry, errs[..n]).values, maxRetry, errs[n]);
      }
    }
  }

  /** A message without a counter whose handler always fails non-permanently is requeued exactly max(0, maxRetry)
      times and then dead-lettered with the counter max(0, maxRetry) + 1, exactly when maxRetry is below the
      largest int64; at that value it is requeued for ever. */
  lemma RetryBound(values: Values, maxRetry: int)
    requires RETRY_COUNT !in values && MIN_INT64 <= maxRetry <= MAX_INT64
    ensures (forall errs :: var fate := Process(values, maxRetry, errs);
                            && (fate.Live? <==> |errs| <= Max0(maxRetry))
                            && (fate.Dead? ==> RetryCount(fate.values) == Max0(maxRetry) + 1))
            <==> maxRetry < MAX_INT64
  {
    if maxRetry < MAX_INT64 {
      forall errs
        ensures var fate := Process(values, maxRetry, errs);
                && (fate.Live? <==> |errs| <= Max0(maxRetry))
                && (fate.Dead? ==> RetryCount(fate.values) == Max0(maxRetry) + 1)
      {
        ProcessCounts(values, maxRetry, errs);
      }
    } else {
      var errs := seq(MAX_INT64 + 1, i => "");
      NeverDead(values, errs);
    }
  }

  lemma {:induction false} NeverDead(values: Values, errs: seq<string>)
    ensures Process(values, MAX_INT64, errs).Live?
  {
    if errs == [] {
    } else {
      NeverDead(values, errs[..|errs| - 1]);
    }
  }

  /** Every other field survives all hops. */
  lemma {:induction false} FieldsSurvive(values: Values, maxRetry: int, errs: seq<string>, field: string)
    requires !IsMetadata(field)
    ensures SameField(values, Process(values, maxRetry, errs).values, field)
  {
    if errs == [] {
    } else {
      FieldsSurvive(values, maxRetry, errs[..|errs| - 1], field);
    }
  }

  // ---- HandleMessage ------------------------------------------------------------------------------------

  datatype Entry = Entry(stream: string, values: Values)

  datatype Handled = Ok | Transient(err: string) | Permanent(err: string)

  datatype HandleResult = HandleResult(acked: bool, skipped: bool, hop: Option<Hop>)

  datatype Message = Message(id: string, values: Values, stream: string)

  function DLQStream(stream: string): string {
    if TrimSpace(stream) == "" then "dlq:inventory.events" else "dlq:" + stream
  }

  function DLQFor(msg: Message, dlqStream: string): string {
    if dlqStream == "" then DLQStream(msg.stream) else dlqStream
  }

  /** What one call may have done, whatever failed: `acquired` its key, `copied` the message, `acked` it. */
  predicate Allowed(keyed: bool, duplicate: bool, verdict: Handled, acquired: bool, copied: bool, acked: bool) {
    && (acquired ==> keyed && !duplicate)
    && (copied ==> !duplicate && verdict != Ok && (keyed ==> acquired))
    && (acked ==> duplicate || ((keyed ==> acquired) && (verdict == Ok || copied)))
  }

  /** A failed message goes back to its own stream: its failure was transient and its counter is below the limit. The
      largest int64 counts up to the smallest. */
  predicate GoesBack(values: Values, maxRetry: int, verdict: Handled) {
    && verdict.Transient?
    && if RetryCount(values) == MAX_INT64 then MIN_INT64 <= maxRetry else RetryCount(values) < maxRetry
  }

  /** The stream that a failed message is copied to. */
  function CopyStream(msg: Message, maxRetry: int, dlqStream: string, verdict: Handled): string {
    if GoesBack(msg.values, maxRetry, verdict) then msg.stream
    else if dlqStream != "" then dlqStream
    else if TrimSpace(msg.stream) == "" then "dlq:inventory.events"
    else "dlq:" + msg.stream
  }

  /** The counter that the copy carries. */
  function NextCount(values: Values, verdict: Handled): int {
    if verdict.Permanent? then RetryCount(values)
    else if RetryCount(values) == MAX_INT64 then MIN_INT64
    else RetryCount(values) + 1
  }

  /** The reason that a dead letter carries. */
  function Reason(maxRetry: int, verdict: Handled): string {
    if verdict.Permanent? then "permanent_error" else "retry exhausted (max=" + Itoa(maxRetry) + ")"
  }

  /** The fields of the copy: those of the message as text, the counter, the error, and the reason of a dead letter. */
  ghost predicate CopyFields(copy: Values, values: Values, maxRetry: int, verdict: Handled)
    requires verdict != Ok
  {
    var back := GoesBack(values, maxRetry, verdict);
    && (forall f :: f in copy <==>
          f in values || f == RETRY_COUNT || f == LAST_ERROR || (!back && f == DLQ_REASON))
    && (forall f :: f in values && f != RETRY_COUNT && f != LAST_ERROR && (back || f != DLQ_REASON) ==>
          copy[f] == match values[f] case Int(n) => Str(Itoa(n)) case Str(s) => Str(s))
    && copy[RETRY_COUNT] == Str(Itoa(NextCount(values, verdict))) && copy[LAST_ERROR] == Str(verdict.err)
    && (!back ==> copy[DLQ_REASON] == Str(Reason(maxRetry, verdict)))
  }

  ghost predicate IsCopy(e: Entry, msg: Message, maxRetry: int, dlqStream: string, verdict: Handled)
    requires verdict != Ok
  {
    e.stream == CopyStream(msg, maxRetry, dlqStream, verdict) && CopyFields(e.values, msg.values, maxRetry, verdict)
  }

  lemma FieldNames()
    ensures RETRY_COUNT != LAST_ERROR && RETRY_COUNT != DLQ_REASON && LAST_ERROR != DLQ_REASON
  {
    assert RETRY_COUNT[0] == 'r' && LAST_ERROR[0] == 'l' && DLQ_REASON[0] == 'd';
  }

  lemma HopGoesBack(values: Values, maxRetry: int, verdict: Handled)
    requires Counted(values) && verdict != Ok
    ensures HopOf(values, maxRetry, verdict).Requeue? <==> GoesBack(values, maxRetry, verdict)
  {
    RetryCountInRange(values);
  }

  lemma MarkedFields(values: Values, count: int, err: string)
    ensures var t := ThroughRedis(WithRetryMetadata(values, count, err));
            && t.Keys == values.Keys + {RETRY_COUNT, LAST_ERROR}
            && t[RETRY_COUNT] == Str(Itoa(count)) && t[LAST_ERROR] == Str(err)
            && forall f :: f in values && f != RETRY_COUNT && f != LAST_ERROR ==> t[f] == ThroughRedis(values)[f]
  {
    FieldNames();
  }

  lemma DeadFields(values: Values, count: int, err: string, reason: string)
    ensures var t := ThroughRedis(WithRetryMetadata(values, count, err)[DLQ_REASON := Str(reason)]);
            && t.Keys == values.Keys + {RETRY_COUNT, LAST_ERROR, DLQ_REASON}
            && t[RETRY_COUNT] == Str(Itoa(count)) && t[LAST_ERROR] == Str(err) && t[DLQ_REASON] == Str(reason)
            && forall f :: f in values && f != RETRY_COUNT && f != LAST_ERROR && f != DLQ_REASON ==>
                 t[f] == ThroughRedis(values)[f]
  {
    FieldNames();
    MarkedFields(values, count, err);
    var p := WithRetryMetadata(values, count, err);
    assert ThroughRedis(p[DLQ_REASON := Str(reason)]) == ThroughRedis(p)[DLQ_REASON := Str(reason)];
  }

  lemma HopPayload(values: Values, maxRetry: int, verdict: Handled)
    requires Counted(values) && verdict != Ok
    ensures var marked := WithRetryMetadata(values, NextCount(values, verdict), verdict.err);
            HopOf(values, maxRetry, verdict).payload ==
            if GoesBack(values, maxRetry, verdict) then marked
            else marked[DLQ_REASON := Str(Reason(maxRetry, verdict))]
  {
    RetryCountInRange(values);
  }

  lemma BackHopFields(values: Values, maxRetry: int, verdict: Handled)
    requires verdict != Ok && GoesBack(values, maxRetry, verdict)
    ensures var marked := WithRetryMetadata(values, NextCount(values, verdict), verdict.err);
            CopyFields(ThroughRedis(marked), values, maxRetry, verdict)
  {
    MarkedFields(values, NextCount(values, verdict), verdict.err);
  }

  lemma DeadHopFields(values: Values, maxRetry: int, verdict: Handled)
    requires verdict != Ok && !GoesBack(values, maxRetry, verdict)
    ensures var marked := WithRetryMetadata(values, NextCount(values, verdict), verdict.err);
            CopyFields(ThroughRedis(marked[DLQ_REASON := Str(Reason(maxRetry, verdict))]), values, maxRetry, verdict)
  {
    DeadFields(values, NextCount(values, verdict), verdict.err, Reason(maxRetry, verdict));
  }

  lemma HopFields(values: Values, maxRetry: int, verdict: Handled)
    requires Counted(values) && verdict != Ok
    ensures CopyFields(ThroughRedis(HopOf(values, maxRetry, verdict).payload), values, maxRetry, verdict)
  {
    HopPayload(values, maxRetry, verdict);
    if GoesBack(values, maxRetry, verdict) {
      BackHopFields(values, maxRetry, verdict);
    } else {
      DeadHopFields(values, maxRetry, verdict);
    }
  }

  lemma CopyIsCopy(msg: Message, maxRetry: int, dlqStream: string, verdict: Handled)
    requires Counted(msg.values) && verdict != Ok
    ensures IsCopy(CopyOf(msg, maxRetry, DLQFor(msg, dlqStream), verdict), msg, maxRetry, dlqStream, verdict)
  {
    HopGoesBack(msg.values, maxRetry, verdict);
    HopFields(msg.values, maxRetry, verdict);
  }

  /** The Redis side of one consumer group: what was added to streams, which messages are pending, which idempotency
      keys exist, and the fate of the commands to come. */
  class Client {
    var added: seq<Entry>
    var pending: set<string>
    var keys: set<string>
    var script: seq<Outcome>

    constructor (pending: set<string>, script: seq<Outcome>)
      ensures this.pending == pending && this.script == script && added == [] && keys == {}
    {
      this.pending, this.script := pending, script;
      added, keys := [], {};
    }

    /** The next command; after the script every command succeeds. */
    method Command() returns (outcome: Outcome)
      modifies this`script
      ensures outcome == if old(script) == [] then Done else old(script)[0]
      ensures script == if old(script) == [] then [] else old(script)[1..]
    {
      if script == [] {
        return Done;
      }
      outcome := script[0];
      script := script[1..];
    }

    /** Publish refuses an empty stream name or payload without asking Redis. */
    method Publish(stream: string, payload: Values) returns (ok: bool)
      modifies this`script, this`added
      ensures ok ==> added == old(added) + [Entry(stream, ThroughRedis(payload))]
      ensures !ok ==> added == old(added) || added == old(added) + [Entry(stream, ThroughRedis(payload))]
      ensures stream != "" && |payload| > 0 && old(script) == [] ==> ok
      ensures old(script) == [] ==> script == []
    {
      if stream == "" || |payload| == 0 {
        return false;
      }
      var outcome := Command();
      if outcome != Refused {
        added := added + [Entry(stream, ThroughRedis(payload))];
      }
      return outcome == Done;
    }

    method Ack(id: string) returns (ok: bool)
      modifies this`script, this`pending
      ensures pending == old(pending) || pending == old(pending) - {id}
      ensures ok ==> pending == old(pending) - {id}
      ensures old(script) == [] ==> ok && script == []
    {
      var outcome := Command();
      if outcome != Refused {
        pending := pending - {id};
      }
      return outcome == Done;
    }

    /** SETNX. */
    method AcquireIdempotency(key: string) returns (ok: bool, acquired: bool)
      modifies this`script, this`keys
      ensures keys == old(keys) || keys == old(keys) + {key}
      ensures ok ==> keys == old(keys) + {key} && (acquired <==> key !in old(keys))
      ensures old(script) == [] ==> ok && script == []
    {
      var outcome := Command();
      acquired := key !in keys;
      if outcome != Refused {
        keys := keys + {key};
      }
      ok := outcome == Done;
    }

    /** HandleMessage with the handler's verdict given. Whatever command fails, a message leaves the pending list only
        after it was handled, recognised as a duplicate, or copied to its stream or to the dead-letter stream; and
        at most that one copy is made. */
    method HandleMessage(msg: Message, idempotencyKey: string, maxRetry: int, dlqStream: string, verdict: Handled)
      returns (r: Result<HandleResult>)
      requires msg.id in pending
      modifies this`script, this`added, this`pending, this`keys
      ensures pending == old(pending) || pending == old(pending) - {msg.id}
      ensures added == old(added)
              || (verdict != Ok && added == old(added) + [CopyOf(msg, maxRetry, DLQFor(msg, dlqStream), verdict)])
      ensures added == old(added)
              || (Counted(msg.values) ==>
                    && verdict != Ok && |added| == |old(added)| + 1 && added[..|old(added)|] == old(added)
                    && IsCopy(added[|old(added)|], msg, maxRetry, dlqStream, verdict))
      ensures keys == old(keys) || keys == old(keys) + {idempotencyKey}
      ensures var duplicate := idempotencyKey != "" && idempotencyKey in old(keys);
              && Allowed(idempotencyKey != "", duplicate, verdict, keys != old(keys), added != old(added),
                  msg.id !in pending)
              && (r.Success? ==> r.value.acked && msg.id !in pending && (r.value.skipped <==> duplicate))
      ensures idempotencyKey == "" ==> keys == old(keys)
      ensures old(script) == [] && (verdict == Ok || msg.stream != "") ==> r.Success?
    {
      var dlq := DLQFor(msg, dlqStream);
      if idempotencyKey != "" {
        var ok, acquired := AcquireIdempotency(idempotencyKey);
        if !ok {
          return Failure(Fault);
        }
        if !acquired {
          var acked := Ack(msg.id);
          return if acked then Success(HandleResult(true, true, None)) else Failure(Fault);
        }
      }
      if verdict == Ok {
        var acked := Ack(msg.id);
        return if acked then Success(HandleResult(true, false, None)) else Failure(Fault);
      }
      if Counted(msg.values) {
        CopyIsCopy(msg, maxRetry, dlqStream, verdict);
      }
      var hop := HopOf(msg.values, maxRetry, verdict);
      var published := Publish(if hop.Requeue? then msg.stream else dlq, hop.payload);
      if !published {
        return Failure(Fault);
      }
      var acked := Ack(msg.id);
      return if acked then Success(HandleResult(true, false, Some(hop))) else Failure(Fault);
    }
  }

  function HopOf(values: Values, maxRetry: int, verdict: Handled): (hop: Hop)
    requires verdict != Ok
    ensures |hop.payload| > 0
  {
    var hop := match verdict
      case Transient(err) => RequeueOrDLQ(values, maxRetry, err)
      case Permanent(err) => MoveToDLQ(values, err);
    assert LAST_ERROR in hop.payload;
    hop
  }

  /** The copy carries the error, the reason when it is a dead letter, and every other field as it was. */
  lemma HopKeepsFields(values: Values, maxRetry: int, verdict: Handled, field: string)
    requires verdict != Ok
    ensures var hop := HopOf(values, maxRetry, verdict);
            && LAST_ERROR in hop.payload && hop.payload[LAST_ERROR] == Str(verdict.err)
            && (hop.DeadLetter? ==> DLQ_REASON in hop.payload)
            && (!IsMetadata(field) ==> SameField(values, hop.payload, field))
  {
    assert LAST_ERROR[0] != RETRY_COUNT[0] && LAST_ERROR[0] != DLQ_REASON[0];
  }

  /** One failed delivery: a permanent error or a used-up counter dead-letters, and only a transient one counts. */
  lemma HopOutcome(values: Values, maxRetry: int, verdict: Handled)
    requires Counted(values) && RetryCount(values) < MAX_INT64 && verdict != Ok
    ensures var hop := HopOf(values, maxRetry, verdict);
            && (hop.DeadLetter? <==> verdict.Permanent? || RetryCount(values) >= maxRetry)
            && RetryCount(ThroughRedis(hop.payload)) == RetryCount(values) + (if verdict.Transient? then 1 else 0)
  {
    if verdict.Transient? {
      HopCounts(values, maxRetry, verdict.err);
    } else {
      PermanentCounts(values, verdict.err);
    }
  }

  lemma PermanentCounts(values: Values, lastErr: string)
    requires Counted(values)
    ensures RetryCount(ThroughRedis(MoveToDLQ(values, lastErr).payload)) == RetryCount(values)
  {
    RetryCountInRange(values);
    AtoiOfItoa(RetryCount(values));
    assert LAST_ERROR[0] != RETRY_COUNT[0] && RETRY_COUNT[0] != DLQ_REASON[0];
  }

  /** The entry a failed message is copied to. */
  function CopyOf(msg: Message, maxRetry: int, dlq: string, verdict: Handled): Entry
    requires verdict != Ok
  {
    var hop := HopOf(msg.values, maxRetry, verdict);
    Entry(if hop.Requeue? then msg.stream else dlq, ThroughRedis(hop.payload))
  }
}
