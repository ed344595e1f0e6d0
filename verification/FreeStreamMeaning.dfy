/** What the bytes of a free route's stream mean, line by line and member by member, and that the
    check's verdict on any bytes is exactly this meaning. */
module FreeStreamMeaning {
  import opened Common
  import opened Failures
  import opened LineFraming
  import opened FreeStream
  import Json

  type Fields = map<string, Json.Value>

  // ----- bytes

  function Ascii(s: string): Bytes
    requires forall i :: 0 <= i < |s| ==> s[i] < 128 as char
  {
    seq(|s|, i requires 0 <= i < |s| => s[i] as int)
  }

  ghost predicate IsLine(b: Bytes) { forall i :: 0 <= i < |b| ==> b[i] != 10 }

  /** A stream of complete lines followed by `rest`. */
  function Lines(lines: seq<Bytes>, rest: Bytes): Bytes {
    if lines == [] then rest else lines[0] + [10] + Lines(lines[1..], rest)
  }

  /** All bytes can be written in this way, so a statement about lines is one about all bytes. */
  lemma {:induction false} EveryBytesAreLines(b: Bytes) returns (lines: seq<Bytes>, rest: Bytes)
    ensures b == Lines(lines, rest) && IsLine(rest) && forall i :: 0 <= i < |lines| ==> IsLine(lines[i])
    decreases |b|
  {
    var n := Newline(b);
    if n == |b| {
      lines, rest := [], b;
    } else {
      var others, last := EveryBytesAreLines(b[n + 1..]);
      lines, rest := [b[..n]] + others, last;
      assert lines[1..] == others && b == b[..n] + [10] + b[n + 1..];
    }
  }

  predicate White(b: Byte) { b in {9, 10, 11, 12, 13, 32} }

  /** The text from `left` to `right` is what is left without the white space around it. */
  ghost predicate Trims(text: Bytes, left: nat, right: nat) {
    && left <= right <= |text|
    && (forall i :: 0 <= i < left ==> White(text[i]))
    && (forall i :: right <= i < |text| ==> White(text[i]))
    && (left < right ==> !White(text[left]) && !White(text[right - 1]))
  }

  lemma SpaceIsWhite()
    ensures forall b: Byte :: IsSpace(b) <==> White(b)
  {
  }

  lemma {:induction false} StripTrims(text: Bytes) returns (left: nat, right: nat)
    ensures Trims(text, left, right) && Strip(text) == text[left..right]
    decreases |text|
  {
    hide IsSpace, White;
    SpaceIsWhite();
    if text == [] {
      left, right := 0, 0;
    } else if IsSpace(text[0]) {
      var l, r := StripTrims(text[1..]);
      left, right := l + 1, r + 1;
      assert text[left..right] == text[1..][l..r];
    } else if IsSpace(text[|text| - 1]) {
      left, right := StripTrims(text[..|text| - 1]);
      assert text[left..right] == text[..|text| - 1][left..right];
    } else {
      left, right := 0, |text|;
    }
  }

  lemma TrimIsUnique(text: Bytes, i: nat, j: nat, k: nat, l: nat)
    requires Trims(text, i, j) && Trims(text, k, l)
    ensures text[i..j] == text[k..l]
  {
    if i < j && k < l {
      assert i == k && j == l;
    } else {
      assert i == j && k == l;
    }
  }

  // ----- events

  function Kind(event: Fields): string {
    var named := Json.Get(event, "type");
    if named.Str? then named.s else ""
  }

  predicate Listlike(v: Json.Value) { v.Arr? || v.Obj? }

  /** The type cannot be looked up. */
  predicate Breaks(event: Fields) { Listlike(Json.Get(event, "type")) }

  predicate Fails(event: Fields) {
    !Breaks(event) && (Json.Truthy(Json.Get(event, "error")) || Kind(event) in {"error", "response.failed"})
  }

  predicate Closes(event: Fields) { Kind(event) in {"message_stop", "response.completed", "response.incomplete"} }

  /** The members that hold something delivered. */
  const BLOCK_PARTS := {"text", "thinking"}
  const BLOCK_TYPES := {"tool_use", "server_tool_use", "redacted_thinking"}
  const DELTA_PARTS := {"text", "thinking", "partial_json", "signature"}
  const CHOICE_PARTS := {"content", "reasoning", "reasoning_content", "tool_calls", "function_call"}
  const SILENT_ITEMS := {"message", "reasoning"}

  predicate HasAny(v: Json.Value, parts: set<string>) {
    v.Obj? && exists key :: key in parts && Json.Truthy(Json.Get(v.fields, key))
  }

  predicate IsBlock(kind: string) { kind == "content_block_start" }
  predicate IsDelta(kind: string) { kind == "content_block_delta" }
  predicate IsResponseDelta(kind: string) {
    |kind| >= 9 && kind[..9] == "response." && |kind| >= 6 && kind[|kind| - 6..] == ".delta"
  }
  predicate IsItem(kind: string) { kind in {"response.output_item.added", "response.output_item.done"} }

  /** The event carries delivered text, thinking or a tool call. */
  predicate Delivers(event: Fields) {
    var kind, delta := Kind(event), Json.Get(event, "delta");
    if IsBlock(kind) then
      var block := Json.Get(event, "content_block");
      HasAny(block, BLOCK_PARTS) || (block.Obj? && Json.IsStr(Json.Get(block.fields, "type"), BLOCK_TYPES))
    else if IsDelta(kind) then HasAny(delta, DELTA_PARTS)
    else if IsResponseDelta(kind) then Json.Truthy(delta)
    else if IsItem(kind) then
      var item := Json.Get(event, "item");
      && item.Obj? && !Listlike(Json.Get(item.fields, "type"))
      && ((!Json.Get(item.fields, "type").Null? && !Json.IsStr(Json.Get(item.fields, "type"), SILENT_ITEMS))
          || HasAny(item, {"content"}))
    else
      var choices := Json.Get(event, "choices");
      choices.Arr? && exists i :: 0 <= i < |choices.items| && ChoiceDelivers(choices.items[i])
  }

  predicate ChoiceDelivers(choice: Json.Value) {
    choice.Obj? && HasAny(Json.Get(choice.fields, "delta"), CHOICE_PARTS)
  }

  /** Looking for what it delivers raises a TypeError. */
  predicate Misshapen(event: Fields) {
    var kind := Kind(event);
    if IsBlock(kind) then
      var block := Json.Get(event, "content_block");
      block.Obj? && !HasAny(block, BLOCK_PARTS) && Listlike(Json.Get(block.fields, "type"))
    else if IsItem(kind) then
      var item := Json.Get(event, "item");
      item.Obj? && Listlike(Json.Get(item.fields, "type"))
    else if IsDelta(kind) || IsResponseDelta(kind) then false
    else
      var choices := Json.Get(event, "choices");
      (choices.Num? && choices.n != 0.0) || (choices.Bool? && choices.b)
  }

  // ----- lines

  /** What a line says: nothing, that the stream is done, or an event. */
  datatype Saying = Nothing | Done | Tells(event: Fields)

  ghost predicate Says(d: Decoder, line: Bytes, what: Saying) {
    if !(|line| >= 5 && line[..5] == Ascii("data:")) then what == Nothing
    else exists left: nat, right: nat {:trigger Trims(line[5..], left, right)} ::
      Trims(line[5..], left, right) && SaysValue(d, line[5..][left..right], what)
  }

  predicate SaysValue(d: Decoder, value: Bytes, what: Saying) {
    if value == Ascii("[DONE]") then what == Done
    else match d.loads(value)
      case Some(Obj(fields)) => what == Tells(fields)
      case _ => what == Nothing
  }

  lemma EveryLineSays(d: Decoder, line: Bytes) returns (what: Saying)
    ensures Says(d, line, what)
  {
    what := Nothing;
    if |line| >= 5 && line[..5] == Ascii("data:") {
      var left, right := StripTrims(line[5..]);
      var value := line[5..][left..right];
      if value == Ascii("[DONE]") {
        what := Done;
      } else {
        match d.loads(value) {
          case Some(Obj(fields)) => what := Tells(fields);
          case _ =>
        }
      }
    }
  }

  // ----- one line in the check

  lemma AnyOf(v: Json.Value, keys: seq<string>, parts: set<string>)
    requires v.Obj? && forall key :: key in parts <==> key in keys
    ensures AnyTruthy(v.fields, keys) <==> HasAny(v, parts)
  {
    if HasAny(v, parts) {
      var key :| key in parts && Json.Truthy(Json.Get(v.fields, key));
      var i :| 0 <= i < |keys| && keys[i] == key;
    }
  }

  lemma EmptyHasNone(v: Json.Value, parts: set<string>)
    ensures !Json.Truthy(v) ==> !HasAny(v, parts)
  {
  }

  /** A choice delivers what the check looks for in it. */
  lemma ChoiceAgrees(choice: Json.Value)
    ensures ChoiceHasOutput(choice) <==> ChoiceDelivers(choice)
  {
    if choice.Obj? {
      var delta := Json.Get(choice.fields, "delta");
      EmptyHasNone(delta, CHOICE_PARTS);
      var keys := ["content", "reasoning", "reasoning_content", "tool_calls", "function_call"];
      AnyOf(Json.Obj(map[]), keys, CHOICE_PARTS);
      if delta.Obj? {
        AnyOf(delta, keys, CHOICE_PARTS);
      }
    }
  }

  predicate Agrees(event: Fields) {
    HasOutput(event) == if Misshapen(event) then None else Some(Delivers(event))
  }

  lemma BlockAgrees(event: Fields)
    requires IsBlock(Kind(event))
    ensures Agrees(event)
  {
    var block := Json.Get(event, "content_block");
    AnyOf(Json.Obj(map[]), ["text", "thinking"], BLOCK_PARTS);
    if block.Obj? {
      AnyOf(block, ["text", "thinking"], BLOCK_PARTS);
    }
  }

  lemma DeltaAgrees(event: Fields)
    requires IsDelta(Kind(event))
    ensures Agrees(event)
  {
    var delta := Json.Get(event, "delta");
    var keys := ["text", "thinking", "partial_json", "signature"];
    AnyOf(Json.Obj(map[]), keys, DELTA_PARTS);
    if delta.Obj? {
      AnyOf(delta, keys, DELTA_PARTS);
    }
  }

  lemma ItemIsNoDelta(kind: string)
    requires IsItem(kind)
    ensures !IsBlock(kind) && !IsDelta(kind) && !IsResponseDelta(kind) && !EndsWith(kind, ".delta")
  {
    assert kind[0] == 'r' && kind[|kind| - 1] in {'d', 'e'};
  }

  lemma ItemAgrees(event: Fields)
    requires IsItem(Kind(event))
    ensures Agrees(event)
  {
    hide EndsWith, StartsWith, IsResponseDelta, IsBlock, IsDelta;
    ItemIsNoDelta(Kind(event));
    var item := Json.Get(event, "item");
    if item.Obj? {
      assert HasAny(item, {"content"}) <==> Json.Truthy(Json.Get(item.fields, "content"));
    }
  }

  lemma ChoicesAgree(event: Fields)
    requires !IsBlock(Kind(event)) && !IsDelta(Kind(event)) && !IsItem(Kind(event)) && !IsResponseDelta(Kind(event))
    ensures Agrees(event)
  {
    var choices := Json.Get(event, "choices");
    if choices.Arr? {
      forall i | 0 <= i < |choices.items|
        ensures ChoiceHasOutput(choices.items[i]) <==> ChoiceDelivers(choices.items[i])
      {
        ChoiceAgrees(choices.items[i]);
      }
    }
  }

  lemma EventAgrees(event: Fields)
    ensures Agrees(event)
  {
    var kind := Kind(event);
    if IsBlock(kind) {
      BlockAgrees(event);
    } else if IsDelta(kind) {
      DeltaAgrees(event);
    } else if IsItem(kind) {
      ItemAgrees(event);
    } else if !IsResponseDelta(kind) {
      ChoicesAgree(event);
    }
  }

  // ----- the check reads exactly this

  /** The flags after a line that says `what` and does not stop the check. */
  function After(flags: Flags, what: Saying): Flags {
    match what
    case Nothing => flags
    case Done => Flags(true, flags.hasOutput)
    case Tells(event) => Flags(flags.complete || Closes(event), flags.hasOutput || Delivers(event))
  }

  /** The check stops at such a line; what has no shape is only looked at before the first output. */
  predicate StopsIt(hasOutput: bool, what: Saying) {
    what.Tells? && (Breaks(what.event) || Fails(what.event) || (!hasOutput && Misshapen(what.event)))
  }

  function Stopped(d: Decoder, provider: string, event: Fields): Error {
    if Fails(event) then Raised(d.classify(provider, Json.Obj(event))) else TypeError
  }

  function Effect(d: Decoder, provider: string, flags: Flags, what: Saying): Step<Flags, Error> {
    if StopsIt(flags.hasOutput, what)
    then Stop(Flags(flags.complete || Closes(what.event), flags.hasOutput), Stopped(d, provider, what.event))
    else Next(After(flags, what))
  }

  lemma EventMeans(d: Decoder, provider: string, flags: Flags, event: Fields)
    ensures OnEvent(d, provider, flags, Json.Obj(event)) == Effect(d, provider, flags, Tells(event))
  {
    hide HasOutput, Delivers, Misshapen;
    EventAgrees(event);
  }

  lemma SaysStripped(d: Decoder, line: Bytes, what: Saying)
    requires Says(d, line, what) && |line| >= 5 && line[..5] == Ascii("data:")
    ensures SaysValue(d, Strip(line[5..]), what)
  {
    var left, right := StripTrims(line[5..]);
    var l: nat, r: nat :| Trims(line[5..], l, r) && SaysValue(d, line[5..][l..r], what);
    TrimIsUnique(line[5..], left, right, l, r);
  }

  lemma LineMeans(d: Decoder, provider: string, flags: Flags, line: Bytes, what: Saying)
    requires Says(d, line, what)
    ensures OnLine(d, provider, flags, line) == Effect(d, provider, flags, what)
  {
    hide OnEvent, Breaks, Fails, Misshapen, Closes, Delivers, Stopped, Strip, Trims;
    if |line| >= 5 && line[..5] == Ascii("data:") {
      SaysStripped(d, line, what);
    }
    if what.Tells? {
      EventMeans(d, provider, flags, what.event);
    }
  }

  /** Some line before `n` ends the stream. */
  predicate Closed(says: seq<Saying>, n: nat)
    requires n <= |says|
  {
    exists i :: 0 <= i < n && (says[i].Done? || (says[i].Tells? && Closes(says[i].event)))
  }

  /** Some line before `n` delivers output. */
  predicate Delivered(says: seq<Saying>, n: nat)
    requires n <= |says|
  {
    exists i :: 0 <= i < n && says[i].Tells? && Delivers(says[i].event)
  }

  /** Line `i` stops the check that had seen output already or not. */
  predicate Halts(hasOutput: bool, says: seq<Saying>, i: nat)
    requires i < |says|
  {
    StopsIt(hasOutput || Delivered(says, i), says[i])
  }

  ghost predicate Reads(d: Decoder, lines: seq<Bytes>, says: seq<Saying>, rest: Bytes) {
    && |lines| == |says| && IsLine(rest)
    && forall i :: 0 <= i < |lines| ==> IsLine(lines[i]) && Says(d, lines[i], says[i])
  }

  /** `k` is the first line that stops the check, or |says|. */
  predicate FirstHalt(hasOutput: bool, says: seq<Saying>, k: nat) {
    && k <= |says| && (forall i: nat :: i < k ==> !Halts(hasOutput, says, i))
    && (k < |says| ==> Halts(hasOutput, says, k))
  }

  lemma LinesBegin(lines: seq<Bytes>, rest: Bytes)
    requires IsLine(rest) && forall i :: 0 <= i < |lines| ==> IsLine(lines[i])
    ensures var b := Lines(lines, rest);
            if lines == [] then Newline(b) == |b|
            else var n := |lines[0]|;
                 n < |b| && Newline(b) == n && b[..n] == lines[0] && b[n + 1..] == Lines(lines[1..], rest)
  {
    if lines != [] {
      var b, n := Lines(lines, rest), |lines[0]|;
      assert b == lines[0] + ([10] + Lines(lines[1..], rest));
      assert forall k :: 0 <= k < n ==> b[k] == lines[0][k];
      NewlineAt(b, n);
    }
  }

  /** What is told before `n` when the first line is taken off. */
  lemma Onwards(flags: Flags, says: seq<Saying>, n: nat)
    requires 0 < n <= |says|
    ensures After(flags, says[0]).complete || Closed(says[1..], n - 1) <==> flags.complete || Closed(says, n)
    ensures After(flags, says[0]).hasOutput || Delivered(says[1..], n - 1) <==> flags.hasOutput || Delivered(says, n)
  {
    hide Closes, Delivers;
    forall i | 0 <= i < n - 1 ensures says[1..][i] == says[i + 1] {}
    if Closed(says, n) {
      var i :| 0 <= i < n && (says[i].Done? || (says[i].Tells? && Closes(says[i].event)));
      if i > 0 { assert says[1..][i - 1] == says[i]; }
    }
    if Delivered(says, n) {
      var i :| 0 <= i < n && says[i].Tells? && Delivers(says[i].event);
      if i > 0 { assert says[1..][i - 1] == says[i]; }
    }
  }

  lemma HaltsOnwards(flags: Flags, says: seq<Saying>, i: nat)
    requires 0 < i < |says|
    ensures Halts(flags.hasOutput, says, i) <==> Halts(After(flags, says[0]).hasOutput, says[1..], i - 1)
  {
    hide StopsIt, Delivered;
    Onwards(flags, says, i);
  }

  lemma FirstHaltOnwards(flags: Flags, says: seq<Saying>, k: nat)
    requires FirstHalt(flags.hasOutput, says, k) && 0 < k
    ensures FirstHalt(After(flags, says[0]).hasOutput, says[1..], k - 1)
  {
    hide Halts;
    forall i: nat | i < k - 1 ensures !Halts(After(flags, says[0]).hasOutput, says[1..], i) {
      HaltsOnwards(flags, says, i + 1);
    }
    if k < |says| {
      HaltsOnwards(flags, says, k);
    }
  }

  /** The result the lines and the rest mean. */
  function Meaning(
      d: Decoder, provider: string, flags: Flags, lines: seq<Bytes>, says: seq<Saying>, rest: Bytes, k: nat): Result
    requires |lines| == |says| && FirstHalt(flags.hasOutput, says, k)
  {
    var complete, hasOutput := flags.complete || Closed(says, k), flags.hasOutput || Delivered(says, k);
    if k == |says| then Feeding(Flags(complete, hasOutput), rest, None)
    else
      var event := says[k].event;
      Feeding(Flags(complete || Closes(event), hasOutput), Lines(lines[k + 1..], rest),
              Some(Stopped(d, provider, event)))
  }

  lemma {:induction false} DrainMeans(
      d: Decoder, provider: string, flags: Flags, lines: seq<Bytes>, says: seq<Saying>, rest: Bytes, k: nat)
    requires Reads(d, lines, says, rest) && FirstHalt(flags.hasOutput, says, k)
    ensures Drain(LineHandler(d, provider), flags, Lines(lines, rest))
         == Meaning(d, provider, flags, lines, says, rest, k)
    decreases |lines|
  {
    hide Closes, Delivers, Misshapen, Breaks, Fails, Stopped, Says, OnLine;
    var handle := LineHandler(d, provider);
    LinesBegin(lines, rest);
    if lines != [] {
      LineMeans(d, provider, flags, lines[0], says[0]);
      assert handle(flags, lines[0]) == OnLine(d, provider, flags, lines[0]);
      assert Halts(flags.hasOutput, says, 0) <==> StopsIt(flags.hasOutput, says[0]);
      if k > 0 {
        var next := After(flags, says[0]);
        FirstHaltOnwards(flags, says, k);
        DrainMeans(d, provider, next, lines[1..], says[1..], rest, k - 1);
        Onwards(flags, says, k);
        assert k < |lines| ==> lines[1..][k..] == lines[k + 1..];
      }
    }
  }

  lemma {:induction false} SomeHalt(hasOutput: bool, says: seq<Saying>) returns (k: nat)
    ensures FirstHalt(hasOutput, says, k)
  {
    k := 0;
    while k < |says| && !Halts(hasOutput, says, k)
      invariant k <= |says| && forall i: nat :: i < k ==> !Halts(hasOutput, says, i)
    {
      k := k + 1;
    }
  }

  const TOO_LARGE := Failure(Upstream, 502, "Provider SSE event exceeded the size limit.", None, false, None, false)

  /** One call: the bytes it has are the lines `lines` and an unfinished `rest`. `complete` is set
      exactly by a closing line and `hasOutput` exactly by a delivered member, up to the first line
      that stops the check; an error there is raised as it is classified, and nothing behind it is
      looked at.  Without one the unfinished line is kept, if it is at most 2 MiB long. */
  lemma CallMeans(
      d: Decoder, provider: string, flags: Flags, buffer: Bytes, chunk: Bytes,
      lines: seq<Bytes>, says: seq<Saying>, rest: Bytes, k: nat)
    requires buffer + chunk == Lines(lines, rest) && Reads(d, lines, says, rest) && FirstHalt(flags.hasOutput, says, k)
    ensures var r := FeedCheck(d, provider, flags, buffer, chunk);
            && (r.state.complete <==>
                  flags.complete || Closed(says, k) || (k < |says| && Closes(says[k].event)))
            && (r.state.hasOutput <==> flags.hasOutput || Delivered(says, k))
            && (k < |says| ==>
                  && r.buffer == Lines(lines[k + 1..], rest)
                  && r.error == Some(if Fails(says[k].event) then Raised(d.classify(provider, Json.Obj(says[k].event)))
                                     else TypeError))
            && (k == |says| ==>
                  && r.buffer == rest
                  && r.error == if |rest| > 2097152 then Some(Raised(TOO_LARGE)) else None)
  {
    hide Closes, Delivers, Misshapen, Breaks, Fails, Says, Closed, Delivered, Halts;
    DrainMeans(d, provider, flags, lines, says, rest, k);
  }

  /** Nothing else matters: other members of an event are not looked at. */
  lemma OtherMembersIgnored(event: Fields, key: string, value: Json.Value)
    requires key !in {"type", "error", "content_block", "delta", "item", "choices"}
    ensures var other := event[key := value];
            && (Breaks(other) <==> Breaks(event)) && (Fails(other) <==> Fails(event))
            && (Closes(other) <==> Closes(event)) && (Delivers(other) <==> Delivers(event))
            && (Misshapen(other) <==> Misshapen(event))
  {
    var other := event[key := value];
    assert Kind(other) == Kind(event);
  }

  /** The parts of an event's member that are looked at. */
  function PartsOf(kind: string, member: string): set<string> {
    if IsBlock(kind) && member == "content_block" then BLOCK_PARTS + {"type"}
    else if IsDelta(kind) && member == "delta" then DELTA_PARTS
    else if IsItem(kind) && member == "item" then {"type", "content"}
    else {}
  }

  lemma OtherKeyIgnored(fields: Fields, key: string, value: Json.Value, parts: set<string>)
    requires key !in parts
    ensures HasAny(Json.Obj(fields[key := value]), parts) <==> HasAny(Json.Obj(fields), parts)
  {
    forall part | part in parts ensures Json.Get(fields[key := value], part) == Json.Get(fields, part) {}
  }

  /** Nor are other parts of the member that an event of this kind is read for. */
  lemma OtherPartsIgnored(event: Fields, member: string, key: string, value: Json.Value)
    requires Json.Get(event, member).Obj? && PartsOf(Kind(event), member) != {} && key !in PartsOf(Kind(event), member)
    ensures var other := event[member := Json.Obj(Json.Get(event, member).fields[key := value])];
            && (Breaks(other) <==> Breaks(event)) && (Fails(other) <==> Fails(event))
            && (Closes(other) <==> Closes(event)) && (Delivers(other) <==> Delivers(event))
            && (Misshapen(other) <==> Misshapen(event))
  {
    var fields := Json.Get(event, member).fields;
    var kind, other := Kind(event), event[member := Json.Obj(fields[key := value])];
    assert Kind(other) == kind && Json.Get(other, member) == Json.Obj(fields[key := value]);
    if IsItem(kind) {
      ItemIsNoDelta(kind);
      OtherKeyIgnored(fields, key, value, {"content"});
    } else if IsBlock(kind) {
      OtherKeyIgnored(fields, key, value, BLOCK_PARTS);
    } else {
      OtherKeyIgnored(fields, key, value, DELTA_PARTS);
    }
  }

  /** Nor other members of a choice or of its delta. */
  lemma OtherChoicePartsIgnored(choice: Fields, delta: Fields, key: string, value: Json.Value)
    ensures key != "delta" ==> (ChoiceDelivers(Json.Obj(choice[key := value])) <==> ChoiceDelivers(Json.Obj(choice)))
    ensures key !in CHOICE_PARTS ==>
              (ChoiceDelivers(Json.Obj(choice["delta" := Json.Obj(delta[key := value])]))
               <==> ChoiceDelivers(Json.Obj(choice["delta" := Json.Obj(delta)])))
  {
    if key !in CHOICE_PARTS {
      OtherKeyIgnored(delta, key, value, CHOICE_PARTS);
    }
  }

  lemma {:induction false} LinesAreShort(
      handle: Handler<Flags, Error>, flags: Flags, lines: seq<Bytes>, rest: Bytes)
    requires IsLine(rest) && forall i :: 0 <= i < |lines| ==> IsLine(lines[i]) && |lines[i]| <= 2097152
    ensures ShortLines(handle, flags, Lines(lines, rest))
    decreases |lines|
  {
    LinesBegin(lines, rest);
    if lines != [] {
      LinesAreShort(handle, handle(flags, lines[0]).state, lines[1..], rest);
    }
  }

  /** Chunk after chunk gives what draining everything gives, unless the size failure is raised. */
  lemma {:induction false} FeedAllDrains(
      handle: Handler<Flags, Error>, tooLarge: Error, flags: Flags, buffer: Bytes, chunks: seq<Bytes>)
    requires Newline(buffer) == |buffer|
    ensures var r := FeedAll(handle, tooLarge, flags, buffer, chunks);
            r.error != Some(tooLarge) ==> r == Drain(handle, flags, buffer + Flatten(chunks))
    decreases |chunks|
  {
    if chunks == [] {
      assert buffer + Flatten(chunks) == buffer;
    } else {
      var taken, later := buffer + chunks[0], Flatten(chunks[1..]);
      assert buffer + Flatten(chunks) == taken + later;
      DrainThenMore(handle, flags, taken, later);
      var r := Drain(handle, flags, taken);
      if r.error.None? && |r.buffer| <= LIMIT {
        FeedAllDrains(handle, tooLarge, r.state, r.buffer, chunks[1..]);
      }
    }
  }

  /** The whole stream in chunks: unless the size failure is raised, and whenever no line is longer
      than 2 MiB, its verdict is this meaning. */
  lemma StreamMeans(
      d: Decoder, provider: string, flags: Flags, chunks: seq<Bytes>,
      lines: seq<Bytes>, says: seq<Saying>, rest: Bytes, k: nat)
    requires chunks != [] && Flatten(chunks) == Lines(lines, rest)
    requires Reads(d, lines, says, rest) && FirstHalt(flags.hasOutput, says, k)
    ensures var r := Verdict(d, provider, flags, chunks);
            r.error != Some(Raised(TOO_LARGE))
            || (|rest| <= 2097152 && forall i :: 0 <= i < |lines| ==> |lines[i]| <= 2097152) ==>
              && (r.state.complete <==>
                    flags.complete || Closed(says, k) || (k < |says| && Closes(says[k].event)))
              && (r.state.hasOutput <==> flags.hasOutput || Delivered(says, k))
              && r.buffer == (if k < |says| then Lines(lines[k + 1..], rest) else rest)
              && r.error == if k == |says| then None
                            else Some(if Fails(says[k].event)
                                      then Raised(d.classify(provider, Json.Obj(says[k].event)))
                                      else TypeError)
  {
    hide Closes, Delivers, Misshapen, Breaks, Fails, Says, Closed, Delivered, Halts;
    var handle, tooLarge := LineHandler(d, provider), Raised(TooLarge());
    assert [] + Flatten(chunks) == Lines(lines, rest);
    DrainMeans(d, provider, flags, lines, says, rest, k);
    FeedAllDrains(handle, tooLarge, flags, [], chunks);
    if |rest| <= 2097152 && forall i :: 0 <= i < |lines| ==> |lines[i]| <= 2097152 {
      LinesAreShort(handle, flags, lines, rest);
      CutsAgree(handle, tooLarge, flags, [], chunks);
    }
  }
}
