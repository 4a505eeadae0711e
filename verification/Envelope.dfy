/** The event envelope (pkg/eventbus/types.go) and its signature (pkg/eventbus/signing.go). Times are their
    RFC 3339 text, the zero time being "". */
module Envelope {
  import opened Common
  import opened Text
  import opened EventBus

  datatype BaseEvent = BaseEvent(
    id: string,
    kind: string,
    version: int,
    stream: string,
    createdAt: string,
    publishedAt: string,
    payload: string,
    signature: string)

  const EVENT_TYPE := "event_type"
  const EVENT_VERSION := "event_version"
  const EVENT_STREAM := "event_stream"
  const EVENT_CREATED_AT := "event_created_at"
  const EVENT_PUBLISHED_AT := "event_published_at"
  const EVENT_PAYLOAD := "event_payload"
  const EVENT_SIGNATURE := "event_signature"

  predicate Complete(e: BaseEvent) {
    e.id != "" && e.kind != "" && e.stream != "" && e.payload != ""
  }

  /** The defaults filled in before encoding. */
  function WithDefaults(e: BaseEvent, now: string): BaseEvent {
    var created := if e.createdAt == "" then now else e.createdAt;
    e.(version := if e.version <= 0 then 1 else e.version,
       createdAt := created,
       publishedAt := if e.publishedAt == "" then created else e.publishedAt)
  }

  function ToValues(e: BaseEvent, now: string): Option<Values> {
    if !Complete(e) then None
    else
      var d := WithDefaults(e, now);
      Some(map[EVENT_ID := Str(d.id), EVENT_TYPE := Str(d.kind), EVENT_VERSION := Int(d.version),
               EVENT_STREAM := Str(d.stream), EVENT_CREATED_AT := Str(d.createdAt),
               EVENT_PUBLISHED_AT := Str(d.publishedAt), EVENT_PAYLOAD := Str(d.payload),
               EVENT_SIGNATURE := Str(d.signature)])
  }

  /** anyToString of a field; a missing one is "". */
  function Field(values: Values, field: string): string {
    if field !in values then "" else
      match values[field] case Int(n) => Itoa(n) case Str(s) => s
  }

  /** The version field is wrapped under its own name and then read as a retry count. */
  function VersionField(values: Values): Values {
    if EVENT_VERSION in values then map[EVENT_VERSION := values[EVENT_VERSION]] else map[]
  }

  /** DecodeEvent; `isTime` says which texts parse. */
  function DecodeEvent(values: Values, isTime: string -> bool): Option<BaseEvent> {
    var version := RetryCount(VersionField(values));
    var created, published := Field(values, EVENT_CREATED_AT), Field(values, EVENT_PUBLISHED_AT);
    if EVENT_PAYLOAD !in values || (created != "" && !isTime(created))
        || (published != "" && !isTime(published)) then None
    else
      Some(BaseEvent(Field(values, EVENT_ID), Field(values, EVENT_TYPE), if version <= 0 then 1 else version,
                     Field(values, EVENT_STREAM), created, published, Field(values, EVENT_PAYLOAD),
                     Field(values, EVENT_SIGNATURE)))
  }

  /** The text that is signed. */
  function Canonical(e: BaseEvent): string {
    e.id + "|" + e.kind + "|" + Itoa(e.version) + "|" + e.stream + "|" + e.createdAt + "|" + e.publishedAt + "|"
        + e.payload
  }

  /** SignEvent; `mac` is HMAC-SHA256 under the secret. */
  function Sign(mac: string -> string, e: BaseEvent): Option<string> {
    if Complete(e) then Some(mac(Canonical(e))) else None
  }

  predicate Verify(mac: string -> string, e: BaseEvent) {
    e.signature != "" && Sign(mac, e) == Some(e.signature)
  }

  ghost predicate IsMac(mac: string -> string) {
    (forall s :: mac(s) != "") && forall a, b :: mac(a) == mac(b) ==> a == b
  }

  // ---- Laws --------------------------------------------------------------------------------------------

  /** No path of DecodeEvent yields a version other than 1. */
  lemma VersionIsLost(values: Values, isTime: string -> bool)
    ensures DecodeEvent(values, isTime).Some? ==> DecodeEvent(values, isTime).value.version == 1
  {
    assert EVENT_VERSION[0] != RETRY_COUNT[0];
    assert RETRY_COUNT !in VersionField(values);
  }

  lemma EventFieldsAreData()
    ensures !IsMetadata(EVENT_ID) && !IsMetadata(EVENT_TYPE) && !IsMetadata(EVENT_STREAM)
    ensures !IsMetadata(EVENT_CREATED_AT) && !IsMetadata(EVENT_PUBLISHED_AT)
    ensures !IsMetadata(EVENT_PAYLOAD) && !IsMetadata(EVENT_SIGNATURE)
  {
    assert RETRY_COUNT[0] != 'e' && LAST_ERROR[0] != 'e' && DLQ_REASON[0] != 'e';
    assert EVENT_ID[0] == 'e' && EVENT_TYPE[0] == 'e' && EVENT_STREAM[0] == 'e' && EVENT_CREATED_AT[0] == 'e'
           && EVENT_PUBLISHED_AT[0] == 'e' && EVENT_PAYLOAD[0] == 'e' && EVENT_SIGNATURE[0] == 'e';
  }

  lemma FieldAfterHops(values: Values, maxRetry: int, errs: seq<string>, field: string)
    requires !IsMetadata(field) && field in values
    ensures field in Process(values, maxRetry, errs).values
    ensures Field(Process(values, maxRetry, errs).values, field) == Field(values, field)
  {
    FieldsSurvive(values, maxRetry, errs, field);
  }

  lemma NamesDiffer()
    ensures EVENT_ID != EVENT_TYPE && EVENT_ID != EVENT_STREAM && EVENT_ID != EVENT_PAYLOAD
        && EVENT_TYPE != EVENT_PAYLOAD
    ensures |EVENT_ID| == 8 && |EVENT_TYPE| == 10 && |EVENT_VERSION| == 13 && |EVENT_STREAM| == 12
    ensures |EVENT_CREATED_AT| == 16 && |EVENT_PUBLISHED_AT| == 18 && |EVENT_SIGNATURE| == 15
    ensures EVENT_PAYLOAD != EVENT_VERSION
  {
    assert EVENT_PAYLOAD[6] != EVENT_VERSION[6];
  }

  lemma FieldsOf(e: BaseEvent, now: string)
    requires Complete(e)
    ensures var v, d := ToValues(e, now).value, WithDefaults(e, now);
            && Field(v, EVENT_ID) == d.id && Field(v, EVENT_TYPE) == d.kind && Field(v, EVENT_STREAM) == d.stream
            && Field(v, EVENT_CREATED_AT) == d.createdAt && Field(v, EVENT_PUBLISHED_AT) == d.publishedAt
            && Field(v, EVENT_PAYLOAD) == d.payload && Field(v, EVENT_SIGNATURE) == d.signature
  {
    NamesDiffer();
  }

  /** An encoded event, after any number of failed deliveries, decodes to itself except for its version. */
  lemma DecodeOfEncode(e: BaseEvent, now: string, isTime: string -> bool, maxRetry: int, errs: seq<string>)
    requires Complete(e)
    requires var d := WithDefaults(e, now); isTime(d.createdAt) && isTime(d.publishedAt)
    ensures DecodeEvent(Process(ToValues(e, now).value, maxRetry, errs).values, isTime)
            == Some(WithDefaults(e, now).(version := 1))
    ensures WithDefaults(e, now).(version := 1) ==
            BaseEvent(e.id, e.kind, 1, e.stream, if e.createdAt == "" then now else e.createdAt,
                      if e.publishedAt != "" then e.publishedAt else if e.createdAt == "" then now else e.createdAt,
                      e.payload, e.signature)
  {
    var v := ToValues(e, now).value;
    var u := Process(v, maxRetry, errs).values;
    EventFieldsAreData();
    FieldsOf(e, now);
    FieldAfterHops(v, maxRetry, errs, EVENT_ID);
    FieldAfterHops(v, maxRetry, errs, EVENT_TYPE);
    FieldAfterHops(v, maxRetry, errs, EVENT_STREAM);
    FieldAfterHops(v, maxRetry, errs, EVENT_CREATED_AT);
    FieldAfterHops(v, maxRetry, errs, EVENT_PUBLISHED_AT);
    FieldAfterHops(v, maxRetry, errs, EVENT_PAYLOAD);
    FieldAfterHops(v, maxRetry, errs, EVENT_SIGNATURE);
    VersionIsLost(u, isTime);
  }

  /** Signed texts that differ in the version only are the same only if the version is. */
  lemma CanonicalTellsVersions(e: BaseEvent, version: int)
    requires MIN_INT64 <= e.version <= MAX_INT64 && MIN_INT64 <= version <= MAX_INT64
    ensures Canonical(e) == Canonical(e.(version := version)) <==> e.version == version
  {
    if Canonical(e) == Canonical(e.(version := version)) {
      var head := e.id + "|" + e.kind + "|";
      var tail := e.stream + "|" + e.createdAt + "|" + e.publishedAt + "|" + e.payload;
      assert Canonical(e) == head + (Itoa(e.version) + "|" + tail);
      assert Canonical(e.(version := version)) == head + (Itoa(version) + "|" + tail);
      assert Canonical(e)[|head|..] == Itoa(e.version) + "|" + tail;
      assert Canonical(e)[|head|..] == Itoa(version) + "|" + tail;
      ItoaHasNoBar(e.version);
      ItoaHasNoBar(version);
      FirstSeparator(Itoa(e.version), tail, Itoa(version), tail, '|');
      ItoaIsInjective(e.version, version);
    }
  }

  /** Changing the payload changes the signed text, and so does changing when the event was published. */
  lemma CanonicalTellsPayload(e: BaseEvent, other: string)
    ensures Canonical(e) == Canonical(e.(payload := other)) <==> e.payload == other
    ensures Canonical(e) == Canonical(e.(publishedAt := other)) <==> e.publishedAt == other
  {
    var head := e.id + "|" + e.kind + "|" + Itoa(e.version) + "|" + e.stream + "|" + e.createdAt + "|";
    SameHead(head + e.publishedAt + "|", e.payload, other);
    SameTail(head + e.publishedAt + "|", head + other + "|", e.payload);
    SameTail(head + e.publishedAt, head + other, "|");
    SameHead(head, e.publishedAt, other);
  }

  lemma SameHead(a: string, x: string, y: string)
    ensures a + x == a + y <==> x == y
  {
    assert (a + x)[|a|..] == x && (a + y)[|a|..] == y;
  }

  lemma SameTail(x: string, y: string, b: string)
    ensures x + b == y + b <==> x == y
  {
    if x + b == y + b {
      assert |x| == |y|;
      assert (x + b)[..|x|] == x && (y + b)[..|y|] == y;
    }
  }

  /** Sign, encode, fail any number of times, decode, verify: the signature of an event with both times set holds at
      the end exactly when its version is 1, the only one the relay uses. */
  lemma SignatureSurvives(e: BaseEvent, mac: string -> string, now: string, isTime: string -> bool,
                          maxRetry: int, errs: seq<string>)
    requires Complete(e) && IsMac(mac) && MIN_INT64 <= e.version <= MAX_INT64
    requires e.createdAt != "" && e.publishedAt != "" && isTime(e.createdAt) && isTime(e.publishedAt)
    ensures var signed := e.(signature := Sign(mac, e).value);
            var arrived := DecodeEvent(Process(ToValues(signed, now).value, maxRetry, errs).values, isTime);
            arrived.Some? && (Verify(mac, arrived.value) <==> e.version == 1)
  {
    var signed := e.(signature := Sign(mac, e).value);
    DecodeOfEncode(signed, now, isTime, maxRetry, errs);
    CanonicalTellsVersions(signed, 1);
    assert Canonical(signed) == Canonical(e);
  }
}
