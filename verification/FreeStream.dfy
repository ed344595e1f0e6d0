/** The incremental check that decides from raw server-sent-event bytes when a free route has
    really produced output, when its stream is complete, and when it carried an error.
    JSON decoding and the classification of an error event are parameters. */
module FreeStream {
  import opened Common
  import opened Failures
  import opened LineFraming
  import Json

  /** What the check calls but does not define: `json.loads` on a line's value (None when it
      raises ValueError or UnicodeError) and the failure reported for an error event. */
  datatype Decoder = Decoder(loads: Bytes -> Option<Json.Value>, classify: (string, Json.Value) -> Failure)

  datatype Flags = Flags(complete: bool, hasOutput: bool)

  /** An execution failure, or the TypeError an event of an unexpected shape provokes. */
  datatype Error = Raised(failure: Failure) | TypeError

  type Result = Feeding<Flags, Error>

  function TooLarge(): Failure {
    Plain(Upstream, 502, "Provider SSE event exceeded the size limit.")
  }

  // ----- what one event means

  function AnyTruthy(fields: map<string, Json.Value>, keys: seq<string>): bool {
    exists i :: 0 <= i < |keys| && Json.Truthy(Json.Get(fields, keys[i]))
  }

  /** `mapping.get(key) or {}` where only a dictionary is looked at. */
  function SubObject(fields: map<string, Json.Value>, key: string): Option<map<string, Json.Value>> {
    var v := Json.Get(fields, key);
    if !Json.Truthy(v) then Some(map[]) else if v.Obj? then Some(v.fields) else None
  }

  predicate EndsWith(s: string, suffix: string) { |suffix| <= |s| && s[|s| - |suffix|..] == suffix }

  predicate ChoiceHasOutput(choice: Json.Value) {
    choice.Obj? &&
    match SubObject(choice.fields, "delta")
    case None => false
    case Some(delta) => AnyTruthy(delta, ["content", "reasoning", "reasoning_content", "tool_calls", "function_call"])
  }

  /** Does the event deliver text, thinking or a tool call?  None when Python raises. */
  function HasOutput(event: map<string, Json.Value>): Option<bool> {
    var named := Json.Get(event, "type");
    var kind := if named.Str? then named.s else "";
    if kind == "content_block_start" then
      match SubObject(event, "content_block")
      case None => Some(false)
      case Some(block) =>
        if AnyTruthy(block, ["text", "thinking"]) then Some(true)
        else if Json.Unhashable(Json.Get(block, "type")) then None
        else Some(Json.IsStr(Json.Get(block, "type"), {"tool_use", "server_tool_use", "redacted_thinking"}))
    else if kind == "content_block_delta" then
      match SubObject(event, "delta")
      case None => Some(false)
      case Some(delta) => Some(AnyTruthy(delta, ["text", "thinking", "partial_json", "signature"]))
    else if StartsWith(kind, "response.") && EndsWith(kind, ".delta") then
      Some(Json.Truthy(Json.Get(event, "delta")))
    else if kind in {"response.output_item.added", "response.output_item.done"} then
      match SubObject(event, "item")
      case None => Some(false)
      case Some(item) =>
        var itemType := Json.Get(item, "type");
        if Json.Unhashable(itemType) then None
        else Some(!(itemType.Null? || Json.IsStr(itemType, {"message", "reasoning"})) ||
            Json.Truthy(Json.Get(item, "content")))
    else
      match Json.Get(event, "choices")
      case Num(n) => if n == 0.0 then Some(false) else None
      case Bool(b) => if b then None else Some(false)
      case Arr(choices) => Some(exists i :: 0 <= i < |choices| && ChoiceHasOutput(choices[i]))
      case _ => Some(false)
  }

  predicate IsSpace(b: Byte) { b == 32 || 9 <= b <= 13 }

  function Strip(b: Bytes): Bytes
    decreases |b|
  {
    if b == [] then []
    else if IsSpace(b[0]) then Strip(b[1..])
    else if IsSpace(b[|b| - 1]) then Strip(b[..|b| - 1])
    else b
  }

  const DATA: Bytes := [100, 97, 116, 97, 58]
  const DONE: Bytes := [91, 68, 79, 78, 69, 93]

  /** The effect of one complete line. */
  function OnLine(d: Decoder, provider: string, flags: Flags, line: Bytes): (r: Step<Flags, Error>)
    ensures (flags.complete ==> r.state.complete) && (flags.hasOutput ==> r.state.hasOutput)
  {
    if !(|line| >= 5 && line[..5] == DATA) then Next(flags)
    else
      var value := Strip(line[5..]);
      if value == DONE then Next(flags.(complete := true))
      else
        match d.loads(value)
        case None => Next(flags)
        case Some(event) => if event.Obj? then OnEvent(d, provider, flags, event) else Next(flags)
  }

  function OnEvent(d: Decoder, provider: string, flags: Flags, event: Json.Value): (r: Step<Flags, Error>)
    requires event.Obj?
    ensures (flags.complete ==> r.state.complete) && (flags.hasOutput ==> r.state.hasOutput)
  {
    var kind := Json.Get(event.fields, "type");
    if Json.Unhashable(kind) then Stop(flags, TypeError)
    else
      var after := flags.(complete := flags.complete
        || Json.IsStr(kind, {"message_stop", "response.completed", "response.incomplete"}));
      if Json.Truthy(Json.Get(event.fields, "error")) || Json.IsStr(kind, {"error", "response.failed"}) then
        Stop(after, Raised(d.classify(provider, event)))
      else if after.hasOutput then Next(after)
      else
        match HasOutput(event.fields)
        case None => Stop(after, TypeError)
        case Some(output) => Next(after.(hasOutput := output))
  }

  function LineHandler(d: Decoder, provider: string): Handler<Flags, Error> {
    (flags, line) => OnLine(d, provider, flags, line)
  }

  /** One call to `feed` on a check holding `buffer` and `flags`. */
  function FeedCheck(d: Decoder, provider: string, flags: Flags, buffer: Bytes, chunk: Bytes): Result {
    Feed(LineHandler(d, provider), Raised(TooLarge()), flags, buffer + chunk)
  }

  class FreeStreamCheck {
    const decoder: Decoder
    const provider: string
    var buffer: Bytes
    var complete: bool
    var hasOutput: bool

    constructor (decoder: Decoder, provider: string)
      ensures this.decoder == decoder && this.provider == provider
      ensures buffer == [] && State() == Flags(false, false)
    {
      this.decoder, this.provider := decoder, provider;
      buffer, complete, hasOutput := [], false, false;
    }

    function State(): Flags
      reads this
    {
      Flags(complete, hasOutput)
    }

    /** Observes one chunk; the result's error is what the source raises. */
    method FeedChunk(chunk: Bytes) returns (error: Option<Error>)
      modifies this
      ensures Feeding(State(), buffer, error) == FeedCheck(decoder, provider, old(State()), old(buffer), chunk)
    {
      ghost var handle := LineHandler(decoder, provider);
      ghost var start, all := State(), buffer + chunk;
      buffer := buffer + chunk;
      var n := Newline(buffer);
      while n < |buffer|
        invariant n == Newline(buffer)
        invariant Drain(handle, State(), buffer) == Drain(handle, start, all)
        decreases |buffer|
      {
        var line := buffer[..n];
        buffer := buffer[n + 1..];
        var step := OnLine(decoder, provider, State(), line);
        assert step == handle(State(), line);
        complete, hasOutput := step.state.complete, step.state.hasOutput;
        if step.Stop? {
          return Some(step.error);
        }
        n := Newline(buffer);
      }
      if |buffer| > LIMIT {
        return Some(Raised(TooLarge()));
      }
      return None;
    }
  }

  /** Both flags only ever go from false to true. */
  lemma {:induction false} FlagsAreMonotone(d: Decoder, provider: string, flags: Flags, buffer: Bytes)
    ensures var r := Drain(LineHandler(d, provider), flags, buffer);
            (flags.complete ==> r.state.complete) && (flags.hasOutput ==> r.state.hasOutput)
    decreases |buffer|
  {
    var n := Newline(buffer);
    if n < |buffer| {
      var step := LineHandler(d, provider)(flags, buffer[..n]);
      assert step == OnLine(d, provider, flags, buffer[..n]);
      if step.Next? {
        FlagsAreMonotone(d, provider, step.state, buffer[n + 1..]);
      }
    }
  }

  function Verdict(d: Decoder, provider: string, flags: Flags, chunks: seq<Bytes>): Result {
    FeedAll(LineHandler(d, provider), Raised(TooLarge()), flags, [], chunks)
  }

  /** The check's verdict on a stream does not depend on how the stream was cut into chunks,
      exactly when no line read before the first failure exceeds the limit. */
  lemma VerdictIndependentOfChunks(d: Decoder, provider: string, flags: Flags, bytes: Bytes)
    ensures ShortLines(LineHandler(d, provider), flags, bytes)
       <==> forall a: seq<Bytes>, b: seq<Bytes> ::
              a != [] && b != [] && Flatten(a) == bytes && Flatten(b) == bytes ==>
              Verdict(d, provider, flags, a) == Verdict(d, provider, flags, b)
  {
    hide TooLarge, ShortLines, FeedAll;
    CutIndependence(LineHandler(d, provider), Raised(TooLarge()), flags, bytes);
  }

  /** The failures the check raises are the classified ones and the size failure. */
  ghost predicate Unflagged(d: Decoder) {
    forall provider, event :: !d.classify(provider, event).recoverySafe
  }

  lemma {:induction false} DrainUnflagged(d: Decoder, provider: string, flags: Flags, buffer: Bytes)
    requires Unflagged(d)
    ensures var r := Drain(LineHandler(d, provider), flags, buffer);
            r.error.Some? && r.error.value.Raised? ==> !r.error.value.failure.recoverySafe
    decreases |buffer|
  {
    var n := Newline(buffer);
    if n < |buffer| {
      var step := LineHandler(d, provider)(flags, buffer[..n]);
      assert step == OnLine(d, provider, flags, buffer[..n]);
      if step.Next? {
        DrainUnflagged(d, provider, step.state, buffer[n + 1..]);
      }
    }
  }
}
