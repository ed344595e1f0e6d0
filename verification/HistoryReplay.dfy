/** Replay records: native reasoning kept in a client's history as opaque text, and the
    projection of such a history to a Responses provider.  JSON text is a pair of functions that
    are each other's inverse on representable documents; the text of a JSON number or other
    non-string (`str(value)`) is a function parameter. */
module HistoryReplay {
  import opened Common
  import opened Json
  import Base64Url

  type Fields = map<string, Value>

  const PREFIX := "fcc:history:v1:"
  const LEGACY_PREFIX := "fcc:anthropic-reasoning:v1:"
  const MAX_DEPTH := 128

  datatype Origin = Origin(provider: string, protocol: string, endpoint: string, connection: string, model: string)

  datatype ReplayRecord = ReplayRecord(origin: Origin, native: Fields)

  /** Whether a destination may be given the native state of a source. */
  predicate Accepts(destination: Origin, source: Origin) {
    && destination.provider == source.provider && destination.protocol == source.protocol
    && (source.endpoint == "" || destination.endpoint == source.endpoint)
    && (source.connection == "" || destination.connection == source.connection)
  }

  datatype Text = Text(dumps: Value -> Option<Bytes>, loads: Bytes -> Option<Value>)

  ghost predicate Inverse(t: Text) {
    forall v :: t.dumps(v).Some? ==> t.loads(t.dumps(v).value) == Some(v)
  }

  // ----- validation

  /** No container lies deeper than the limit. */
  predicate Within(v: Value, depth: nat)
    decreases v
  {
    && depth <= MAX_DEPTH
    && (v.Arr? ==> forall i :: 0 <= i < |v.items| ==> Within(v.items[i], depth + 1))
    && (v.Obj? ==> forall k :: k in v.fields ==> Within(v.fields[k], depth + 1))
  }

  /** What survives a copy through JSON text: an object of limited depth. */
  function JsonCopy(t: Text, v: Value): Option<Fields> {
    if !v.Obj? || !Within(v, 0) || t.dumps(v).None? then None
    else
      var copy := t.loads(t.dumps(v).value);
      if copy.Some? && copy.value.Obj? then Some(copy.value.fields) else None
  }

  predicate NonEmptyText(v: Value) { v.Str? && v.s != "" }

  /** The native data each protocol requires. */
  predicate ValidNative(protocol: string, native: Fields) {
    && (protocol == "responses" ==> Get(native, "type") == Str("reasoning"))
    && (protocol == "messages" ==>
          || (Get(native, "type") == Str("thinking") && Get(native, "thinking").Str? &&
              NonEmptyText(Get(native, "signature")))
          || (Get(native, "type") == Str("redacted_thinking") && NonEmptyText(Get(native, "data"))))
    && (protocol == "chat" ==> Get(native, "reasoning_details").Arr?)
  }

  predicate ValidRecord(r: ReplayRecord) {
    && r.origin.provider != "" && r.origin.model != ""
    && r.origin.protocol in {"responses", "messages", "chat"} && ValidNative(r.origin.protocol, r.native)
  }

  const ORIGIN_KEYS := {"provider", "protocol", "endpoint", "connection", "model"}

  function ValidateRecord(payload: Fields): Option<ReplayRecord> {
    var origin, native := Get(payload, "origin"), Get(payload, "native");
    if payload.Keys != {"origin", "native"} || !origin.Obj? || origin.fields.Keys != ORIGIN_KEYS
      || !(forall k :: k in origin.fields ==> origin.fields[k].Str?) || !native.Obj?
    then None
    else
      var o := origin.fields;
      var r := ReplayRecord(
        Origin(o["provider"].s, o["protocol"].s, o["endpoint"].s, o["connection"].s, o["model"].s), native.fields);
      if ValidRecord(r) then Some(r) else None
  }

  // ----- the codec

  function OriginFields(o: Origin): Fields {
    map["provider" := Str(o.provider), "protocol" := Str(o.protocol), "endpoint" := Str(o.endpoint),
        "connection" := Str(o.connection), "model" := Str(o.model)]
  }

  function Payload(r: ReplayRecord): Fields {
    map["origin" := Obj(OriginFields(r.origin)), "native" := Obj(r.native)]
  }

  /** None stands for the error that refuses a record or a text. */
  function EncodeReplay(t: Text, r: ReplayRecord): Option<string> {
    var payload := JsonCopy(t, Obj(Payload(r)));
    if payload.None? || ValidateRecord(payload.value).None? || t.dumps(Obj(payload.value)).None? then None
    else Some(PREFIX + Base64Url.Stripped(Base64Url.Encode(t.dumps(Obj(payload.value)).value)))
  }

  predicate IsReplay(v: Value) {
    v.Str? && (StartsWith(v.s, "fcc:history:") || StartsWith(v.s, "fcc:anthropic-reasoning:"))
  }

  function ReadPayload(t: Text, encoded: string): Option<Fields> {
    var raw := Base64Url.Decode(Base64Url.Restored(encoded));
    if raw.None? || t.loads(raw.value).None? then None else JsonCopy(t, t.loads(raw.value).value)
  }

  /** The record written by versions that knew signed Messages reasoning only. */
  function Modernized(payload: Fields): Option<Fields> {
    if payload.Keys != {"protocol", "replay_scope", "source_model", "block"}
      || payload["protocol"] != Str("anthropic_messages")
    then None
    else Some(map[
      "origin" := Obj(map["provider" := payload["replay_scope"], "protocol" := Str("messages"),
                          "endpoint" := Str(""), "connection" := Str(""), "model" := payload["source_model"]]),
      "native" := payload["block"]])
  }

  function DecodeReplay(t: Text, value: string): Option<ReplayRecord> {
    if StartsWith(value, PREFIX) then
      var payload := ReadPayload(t, value[|PREFIX|..]);
      if payload.None? then None else ValidateRecord(payload.value)
    else if StartsWith(value, LEGACY_PREFIX) then
      var payload := ReadPayload(t, value[|LEGACY_PREFIX|..]);
      if payload.None? || Modernized(payload.value).None? then None
      else ValidateRecord(Modernized(payload.value).value)
    else None
  }

  // ----- the codec's promises

  lemma PayloadValidates(r: ReplayRecord)
    ensures ValidateRecord(Payload(r)) == if ValidRecord(r) then Some(r) else None
  {
    assert OriginFields(r.origin).Keys == ORIGIN_KEYS;
    assert Payload(r).Keys == {"origin", "native"};
  }

  lemma ValidatedPayload(payload: Fields)
    requires ValidateRecord(payload).Some?
    ensures ValidRecord(ValidateRecord(payload).value) && Payload(ValidateRecord(payload).value) == payload
  {
    var r := ValidateRecord(payload).value;
    var o := payload["origin"].fields;
    assert OriginFields(r.origin).Keys == o.Keys;
    assert OriginFields(r.origin) == o;
    assert Payload(r) == payload;
  }

  lemma CopyIsSame(t: Text, v: Value)
    requires Inverse(t)
    ensures JsonCopy(t, v) == if v.Obj? && Within(v, 0) && t.dumps(v).Some? then Some(v.fields) else None
  {
  }

  lemma AfterPrefix(prefix: string, rest: string)
    ensures StartsWith(prefix + rest, prefix) && (prefix + rest)[|prefix|..] == rest
  {
  }

  /** Encoding succeeds exactly for valid, representable records of limited depth. */
  lemma EncodesExactly(t: Text, r: ReplayRecord)
    requires Inverse(t)
    ensures EncodeReplay(t, r).Some?
       <==> ValidRecord(r) && Within(Obj(Payload(r)), 0) && t.dumps(Obj(Payload(r))).Some?
  {
    CopyIsSame(t, Obj(Payload(r)));
    PayloadValidates(r);
  }

  /** Every record that can be encoded is decoded again. */
  lemma RoundTrip(t: Text, r: ReplayRecord)
    requires Inverse(t) && EncodeReplay(t, r).Some?
    ensures DecodeReplay(t, EncodeReplay(t, r).value) == Some(r) && IsReplay(Str(EncodeReplay(t, r).value))
  {
    CopyIsSame(t, Obj(Payload(r)));
    PayloadValidates(r);
    var bytes := t.dumps(Obj(Payload(r))).value;
    var encoded := Base64Url.Stripped(Base64Url.Encode(bytes));
    Base64Url.RoundTrip(bytes);
    AfterPrefix(PREFIX, encoded);
    assert EncodeReplay(t, r).value == PREFIX + encoded;
    assert "fcc:history:" <= PREFIX;
  }

  /** Whatever is decoded from the current form is valid, can be encoded again and then decodes to
      the same record. */
  lemma DecodedCanBeEncoded(t: Text, value: string)
    requires Inverse(t) && StartsWith(value, PREFIX) && DecodeReplay(t, value).Some?
    ensures var r := DecodeReplay(t, value).value;
            EncodeReplay(t, r).Some? && DecodeReplay(t, EncodeReplay(t, r).value) == Some(r)
  {
    var r := DecodeReplay(t, value).value;
    var payload := ReadPayload(t, value[|PREFIX|..]).value;
    var raw := Base64Url.Decode(Base64Url.Restored(value[|PREFIX|..])).value;
    CopyIsSame(t, t.loads(raw).value);
    ValidatedPayload(payload);
    EncodesExactly(t, r);
    RoundTrip(t, r);
  }

  /** Only texts marked as replay are ever decoded, and only into valid records. */
  lemma DecodesOnlyValid(t: Text, value: string)
    ensures DecodeReplay(t, value).Some? ==> IsReplay(Str(value)) && ValidRecord(DecodeReplay(t, value).value)
  {
    assert "fcc:history:" <= PREFIX && "fcc:anthropic-reasoning:" <= LEGACY_PREFIX;
  }

  function LegacyPayload(scope: string, model: string, block: Fields): Fields {
    map["protocol" := Str("anthropic_messages"), "replay_scope" := Str(scope),
        "source_model" := Str(model), "block" := Obj(block)]
  }

  function LegacyText(t: Text, payload: Fields): string
    requires t.dumps(Obj(payload)).Some?
  {
    LEGACY_PREFIX + Base64Url.Stripped(Base64Url.Encode(t.dumps(Obj(payload)).value))
  }

  /** A record in the old form decodes to a Messages record that any destination with the same
      provider and protocol accepts. */
  lemma LegacyIsMessages(t: Text, scope: string, model: string, block: Fields)
    requires Inverse(t) && scope != "" && model != "" && ValidNative("messages", block)
    requires Within(Obj(LegacyPayload(scope, model, block)), 0)
    requires t.dumps(Obj(LegacyPayload(scope, model, block))).Some?
    ensures var origin := Origin(scope, "messages", "", "", model);
            && DecodeReplay(t, LegacyText(t, LegacyPayload(scope, model, block))) == Some(ReplayRecord(origin, block))
            && forall d: Origin :: Accepts(d, origin) <==> d.provider == scope && d.protocol == "messages"
  {
    var payload := LegacyPayload(scope, model, block);
    LegacyReadsBack(t, payload);
    ModernizedRecord(scope, model, block);
    PayloadValidates(ReplayRecord(Origin(scope, "messages", "", "", model), block));
  }

  lemma LegacyReadsBack(t: Text, payload: Fields)
    requires Inverse(t) && Within(Obj(payload), 0) && t.dumps(Obj(payload)).Some?
    ensures !StartsWith(LegacyText(t, payload), PREFIX) && StartsWith(LegacyText(t, payload), LEGACY_PREFIX)
    ensures ReadPayload(t, LegacyText(t, payload)[|LEGACY_PREFIX|..]) == Some(payload)
  {
    var bytes := t.dumps(Obj(payload)).value;
    var encoded := Base64Url.Stripped(Base64Url.Encode(bytes));
    Base64Url.RoundTrip(bytes);
    AfterPrefix(LEGACY_PREFIX, encoded);
    NotCurrent(encoded);
    CopyIsSame(t, Obj(payload));
  }

  lemma ModernizedRecord(scope: string, model: string, block: Fields)
    ensures Modernized(LegacyPayload(scope, model, block))
         == Some(Payload(ReplayRecord(Origin(scope, "messages", "", "", model), block)))
  {
    assert LegacyPayload(scope, model, block).Keys == {"protocol", "replay_scope", "source_model", "block"};
  }

  lemma NotCurrent(rest: string)
    ensures !StartsWith(LEGACY_PREFIX + rest, PREFIX)
  {
    assert (LEGACY_PREFIX + rest)[4] == 'a' && PREFIX[4] == 'h';
  }
}
