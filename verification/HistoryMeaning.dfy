/** What a retained history says and to whom it may be said: the readable text of a reasoning item,
    the native state it carries, and what each item becomes for a destination. */
module HistoryMeaning {
  import opened Common
  import opened Json
  import opened HistoryReplay
  import opened HistoryProjection
  import Base64Url

  // ----- who may have a native state

  /** The same provider and protocol, and the same endpoint and connection where the source names one. */
  predicate MayHave(destination: Origin, source: Origin) {
    && source.provider == destination.provider && source.protocol == destination.protocol
    && source.endpoint in {"", destination.endpoint} && source.connection in {"", destination.connection}
  }

  lemma AcceptsExactly(destination: Origin, source: Origin)
    ensures Accepts(destination, source) <==> MayHave(destination, source)
  {
  }

  // ----- readable text

  /** The text a part of a list holds, if it holds one. */
  function PartText(v: Value): seq<string> {
    if v.Obj? && "text" in v.fields && v.fields["text"].Str? then [v.fields["text"].s] else []
  }

  lemma {:induction false} TextsAreParts(parts: seq<Value>, n: nat)
    requires n <= |parts|
    ensures Texts(parts, n) == FlatMap(PartText, parts[..n])
  {
    if n > 0 {
      TextsAreParts(parts, n - 1);
      assert parts[..n] == parts[..n - 1] + [parts[n - 1]];
      FlatMapAppend(PartText, parts[..n - 1], [parts[n - 1]]);
      FlatMapCons(PartText, parts[n - 1], []);
      assert [parts[n - 1]] + [] == [parts[n - 1]];
      assert PartText(parts[n - 1]) + [] == PartText(parts[n - 1]);
    }
  }

  /** Texts one after the other with a separator between every two. */
  function Separated(separator: string, texts: seq<string>): string {
    if texts == [] then "" else texts[0] + FlatMap((t: string) => separator + t, texts[1..])
  }

  lemma {:induction false} JoinSeparates(separator: string, texts: seq<string>)
    ensures Join(separator, texts) == Separated(separator, texts)
  {
    if |texts| == 1 {
      assert texts[0] + "" == texts[0];
    } else if |texts| > 1 {
      JoinSeparates(separator, texts[1..]);
      var add := (t: string) => separator + t;
      assert FlatMap(add, texts[1..]) == separator + texts[1] + FlatMap(add, texts[1..][1..]);
      assert texts[0] + separator + (texts[1] + FlatMap(add, texts[1..][1..]))
          == texts[0] + (separator + texts[1] + FlatMap(add, texts[1..][1..]));
    }
  }

  /** The text of a list of parts, a blank line between every two. */
  function Paragraphs(v: Value): string {
    if v.Arr? then Separated("\n\n", FlatMap(PartText, v.items)) else ""
  }

  lemma SectionIsParagraphs(item: Fields, key: string)
    ensures Section(item, key) == Paragraphs(Get(item, key))
  {
    var parts := Get(item, key);
    if parts.Arr? {
      TextsAreParts(parts.items, |parts.items|);
      assert parts.items[..|parts.items|] == parts.items;
      JoinSeparates("\n\n", Texts(parts.items, |parts.items|));
    }
  }

  /** The text of a typed detail; a summary says its summary, if it has that member. */
  function DetailPart(v: Value): seq<Part> {
    if !v.Obj? then []
    else if Get(v.fields, "type") == Str("reasoning.text") then Typed(Get(v.fields, "text"), false)
    else if Get(v.fields, "type") == Str("reasoning.summary") then
      Typed(if "summary" in v.fields then v.fields["summary"] else Get(v.fields, "text"), true)
    else []
  }

  function Typed(v: Value, summary: bool): seq<Part> {
    if v.Str? && v.s != "" then [Part(v.s, summary)] else []
  }

  /** A detail whose type is a list or an object raises. */
  predicate Untyped(v: Value) { v.Obj? && (Get(v.fields, "type").Arr? || Get(v.fields, "type").Obj?) }

  lemma {:induction false} DetailsAreParts(details: seq<Value>, n: nat)
    requires n <= |details|
    ensures Details(details, n).None? <==> exists i :: 0 <= i < n && Untyped(details[i])
    ensures Details(details, n).Some? ==> Details(details, n).value == FlatMap(DetailPart, details[..n])
  {
    if n > 0 {
      var d := details[n - 1];
      DetailsAreParts(details, n - 1);
      assert details[..n] == details[..n - 1] + [d];
      FlatMapAppend(DetailPart, details[..n - 1], [d]);
      FlatMapCons(DetailPart, d, []);
      assert [d] + [] == [d];
      assert DetailPart(d) + [] == DetailPart(d);
      OneDetail(details, n);
    }
  }

  lemma OneDetail(details: seq<Value>, n: nat)
    requires 0 < n <= |details|
    ensures Details(details, n) ==
            if Details(details, n - 1).None? || Untyped(details[n - 1]) then None
            else Some(Details(details, n - 1).value + DetailPart(details[n - 1]))
  {
    var before := Details(details, n - 1);
    assert before.Some? ==> before.value + [] == before.value;
  }

  /** A string that says no more than the typed parts: one of them, or all of them joined, with or
      without blank lines. */
  predicate Repeats(text: string, typed: seq<Part>) {
    || (exists i :: 0 <= i < |typed| && typed[i].text == text)
    || text == FlatMap((p: Part) => p.text, typed)
    || text == Separated("\n\n", PartTexts(typed))
  }

  function Plain(v: Value, typed: seq<Part>): seq<Part> {
    if v.Str? && v.s != "" && !Repeats(v.s, typed) then [Part(v.s, false)] else []
  }

  /** What a reasoning item says.  Thinking says its text.  Else the content counts, or else the
      summary; and else the plain strings that do not repeat the typed details, before these.  None
      is an error. */
  function Spoken(str: Value -> string, item: Fields): Option<seq<Part>> {
    if Get(item, "type") == Str("thinking") then
      var text := if Truthy(Get(item, "thinking")) then str(Get(item, "thinking")) else "";
      if text == "" then Some([]) else Some([Part(text, false)])
    else if Paragraphs(Get(item, "content")) != "" then Some([Part(Paragraphs(Get(item, "content")), false)])
    else if Paragraphs(Get(item, "summary")) != "" then Some([Part(Paragraphs(Get(item, "summary")), true)])
    else
      var details, first, second :=
        Get(item, "reasoning_details"), Get(item, "reasoning_content"), Get(item, "reasoning");
      if details.Arr? && exists i :: 0 <= i < |details.items| && Untyped(details.items[i]) then None
      else
        var typed := if details.Arr? then FlatMap(DetailPart, details.items) else [];
        Some(Plain(first, typed) + (if first == second then [] else Plain(second, typed)) + typed)
  }

  lemma {:induction false} JoinIsFlat(parts: seq<Part>)
    ensures Join("", PartTexts(parts)) == FlatMap((p: Part) => p.text, parts)
  {
    var texts, text := PartTexts(parts), (p: Part) => p.text;
    if |parts| == 1 {
      assert parts[0].text + "" == parts[0].text;
    } else if |parts| > 1 {
      JoinIsFlat(parts[1..]);
      assert texts[1..] == PartTexts(parts[1..]);
      assert texts[0] + "" + Join("", texts[1..]) == texts[0] + Join("", texts[1..]);
    }
  }

  lemma RepeatsRepresented(text: string, typed: seq<Part>)
    ensures text in Represented(typed) <==> Repeats(text, typed)
  {
    JoinIsFlat(typed);
    JoinSeparates("\n\n", PartTexts(typed));
    if exists i :: 0 <= i < |typed| && typed[i].text == text {
      var i :| 0 <= i < |typed| && typed[i].text == text;
      assert typed[i] in typed;
    }
  }

  lemma PlainIsPlain(item: Fields, key: string, typed: seq<Part>)
    ensures PlainText(item, key, Represented(typed)) == Plain(Get(item, key), typed)
  {
    hide Represented, Repeats;
    if Get(item, key).Str? {
      RepeatsRepresented(Get(item, key).s, typed);
    }
  }

  lemma PlainsAreSpoken(item: Fields, typed: seq<Part>)
    ensures var first, second := Get(item, "reasoning_content"), Get(item, "reasoning");
            PlainTexts(item, typed) == Plain(first, typed) + if first == second then [] else Plain(second, typed)
  {
    hide Represented, Repeats;
    PlainIsPlain(item, "reasoning_content", typed);
    PlainIsPlain(item, "reasoning", typed);
  }

  /** The reader finds exactly this. */
  lemma ReadableIsSpoken(str: Value -> string, item: Fields)
    ensures Readable(str, item) == Spoken(str, item)
  {
    hide Section, Paragraphs, Details, PlainTexts, Plain, Untyped, DetailPart;
    SectionIsParagraphs(item, "content");
    SectionIsParagraphs(item, "summary");
    var details := Get(item, "reasoning_details");
    if details.Arr? {
      DetailsAreParts(details.items, |details.items|);
      assert details.items[..|details.items|] == details.items;
      PlainsAreSpoken(item, FlatMap(DetailPart, details.items));
    } else {
      PlainsAreSpoken(item, []);
    }
  }

  /** The text of a part, told as earlier reasoning by the assistant. */
  function Told(w: Wire, p: Part): Value {
    var text := (if p.summary then "[Earlier reasoning summary]" else "[Earlier reasoning]") + "\n" + p.text;
    match w
    case Responses => Obj(map["role" := Str("assistant"), "content" := Str(text)])
    case Messages => Obj(map["type" := Str("text"), "text" := Str(text)])
  }

  function AllTold(w: Wire, parts: seq<Part>): seq<Value> { FlatMap((p: Part) => [Told(w, p)], parts) }

  lemma {:induction false} ContextsTold(w: Wire, parts: seq<Part>)
    ensures Contexts(w, parts) == AllTold(w, parts)
  {
    if parts != [] {
      ContextsTold(w, parts[1..]);
      assert Contexts(w, parts) == [Context(w, parts[0])] + Contexts(w, parts[1..]);
    }
  }

  // ----- what an item becomes

  predicate Marked(v: Value) {
    v.Str? && ("fcc:history:" <= v.s || "fcc:anthropic-reasoning:" <= v.s)
  }

  /** The replay text an item carries: a Responses item as encrypted content, a Messages block as
      signature or else as data. */
  function CarrierOf(w: Wire, item: Fields): Option<string> {
    match w
    case Responses => if Marked(Get(item, "encrypted_content")) then Some(Get(item, "encrypted_content").s) else None
    case Messages =>
      if Marked(Get(item, "signature")) then Some(Get(item, "signature").s)
      else if Marked(Get(item, "data")) then Some(Get(item, "data").s)
      else None
  }

  /** State of an older history, which is in the same place but is no replay text. */
  predicate OldState(w: Wire, item: Fields) {
    match w
    case Responses => Truthy(Get(item, "encrypted_content"))
    case Messages => Truthy(Get(item, "signature")) || Truthy(Get(item, "data"))
  }

  lemma CarrierFound(t: Text, w: Wire, item: Fields)
    ensures RecordOf(t, item, Carriers(w), 0) ==
            match CarrierOf(w, item)
            case None => NoReplay
            case Some(text) =>
              match DecodeReplay(t, text) case None => Malformed case Some(record) => Replay(record)
    ensures Opaque(w, item) <==> OldState(w, item)
  {
    hide DecodeReplay;
    var keys := Carriers(w);
    match w {
      case Responses =>
        assert keys[0] == "encrypted_content";
        assert RecordOf(t, item, keys, 1) == NoReplay;
      case Messages =>
        assert keys[0] == "signature" && keys[1] == "data";
        assert RecordOf(t, item, keys, 2) == NoReplay;
    }
  }

  /** What a reasoning item becomes.  Without a replay text: state of an older history stays as it is,
      and else the text is told.  With one, which must be readable: a destination that may have it gets
      the native state, and the item's text if the native state says nothing; any other one is told
      the text of the native state, or else of the item. */
  function Becomes(t: Text, str: Value -> string, w: Wire, destination: Origin, item: Fields): Option<seq<Value>> {
    match CarrierOf(w, item)
    case None =>
      if OldState(w, item) then Some([Obj(item)])
      else if Spoken(str, item).None? then None
      else Some(AllTold(w, Spoken(str, item).value))
    case Some(text) =>
      match DecodeReplay(t, text)
      case None => None
      case Some(record) =>
        var own := Spoken(str, record.native);
        if own.None? then None
        else if own.value != [] then
          Some(if MayHave(destination, record.origin) then [Obj(record.native)] else AllTold(w, own.value))
        else if Spoken(str, item).None? then None
        else
          var told := AllTold(w, Spoken(str, item).value);
          Some(if MayHave(destination, record.origin) then [Obj(record.native)] + told else told)
  }

  /** An item that is no reasoning stays as it is; a Messages block whose type cannot be looked up is
      an error. */
  function Piece(t: Text, str: Value -> string, w: Wire, destination: Origin, v: Value): Option<seq<Value>> {
    if !v.Obj? then Some([v])
    else
      var kind := Get(v.fields, "type");
      match w
      case Responses => if kind == Str("reasoning") then Becomes(t, str, w, destination, v.fields) else Some([v])
      case Messages =>
        if kind.Arr? || kind.Obj? then None
        else if kind == Str("thinking") || kind == Str("redacted_thinking")
        then Becomes(t, str, w, destination, v.fields) else Some([v])
  }

  lemma ReasoningBecomes(t: Text, str: Value -> string, w: Wire, destination: Origin, item: Fields)
    ensures ProjectReasoning(str, w, destination, item, RecordOf(t, item, Carriers(w), 0))
         == Becomes(t, str, w, destination, item)
  {
    hide Readable, Spoken, RecordOf, CarrierOf, Opaque, OldState, Accepts, MayHave, DecodeReplay, Contexts, AllTold;
    CarrierFound(t, w, item);
    var found := RecordOf(t, item, Carriers(w), 0);
    ReadableIsSpoken(str, item);
    if found.Replay? {
      ReadableIsSpoken(str, found.record.native);
      AcceptsExactly(destination, found.record.origin);
      assert [Obj(found.record.native)] + [] == [Obj(found.record.native)];
    }
    forall parts ensures Contexts(w, parts) == AllTold(w, parts) {
      ContextsTold(w, parts);
    }
    assert AllTold(w, []) == [] by { NothingTold(w); }
  }

  lemma NothingTold(w: Wire)
    ensures AllTold(w, []) == []
  {
  }

  /** One item of a history becomes exactly this. */
  lemma ItemMeans(t: Text, str: Value -> string, w: Wire, destination: Origin, v: Value)
    ensures ProjectItem(t, str, w, destination, v) == Piece(t, str, w, destination, v)
  {
    hide Becomes, ProjectReasoning, RecordOf;
    if v.Obj? {
      ReasoningBecomes(t, str, w, destination, v.fields);
    }
  }

  function PieceOf(t: Text, str: Value -> string, w: Wire, destination: Origin): Value -> seq<Value> {
    (v: Value) => var p := Piece(t, str, w, destination, v); if p.None? then [] else p.value
  }

  /** A whole history is refused exactly if one of its items is, and else becomes what its items
      become, in order. */
  lemma {:induction false} HistoryMeans(
      t: Text, str: Value -> string, w: Wire, destination: Origin, items: seq<Value>, n: nat)
    requires n <= |items|
    ensures var r := Projected(Projection(t, str, w, destination), items, n);
            && (r.None? <==> exists i :: 0 <= i < n && Piece(t, str, w, destination, items[i]).None?)
            && (r.Some? ==> r.value == FlatMap(PieceOf(t, str, w, destination), items[..n]))
  {
    hide Piece, ProjectItem;
    if n > 0 {
      var last, piece := items[n - 1], PieceOf(t, str, w, destination);
      HistoryMeans(t, str, w, destination, items, n - 1);
      ItemMeans(t, str, w, destination, last);
      assert items[..n] == items[..n - 1] + [last];
      FlatMapAppend(piece, items[..n - 1], [last]);
      FlatMapCons(piece, last, []);
      assert [last] + [] == [last] && piece(last) + [] == piece(last);
    }
  }

  // ----- which texts are replay texts of which records

  /** Some value lies `n` steps deep in the document. */
  ghost predicate Deep(v: Value, n: nat)
    decreases n
  {
    || n == 0
    || (v.Arr? && exists i :: 0 <= i < |v.items| && Deep(v.items[i], n - 1))
    || (v.Obj? && exists k :: k in v.fields && Deep(v.fields[k], n - 1))
  }

  lemma {:induction false} WithinMeans(v: Value, depth: nat)
    requires depth <= 129
    ensures Within(v, depth) <==> !Deep(v, 129 - depth)
    decreases 129 - depth
  {
    if depth < 129 {
      if v.Arr? {
        forall i | 0 <= i < |v.items| ensures Within(v.items[i], depth + 1) <==> !Deep(v.items[i], 128 - depth) {
          WithinMeans(v.items[i], depth + 1);
        }
      }
      if v.Obj? {
        forall k | k in v.fields ensures Within(v.fields[k], depth + 1) <==> !Deep(v.fields[k], 128 - depth) {
          WithinMeans(v.fields[k], depth + 1);
        }
      }
    }
  }

  predicate Filled(v: Value) { v.Str? && v.s != "" }

  /** A record with a provider and a model whose native state has what its protocol needs. */
  predicate Valid(r: ReplayRecord) {
    var kind := Get(r.native, "type");
    && r.origin.provider != "" && r.origin.model != ""
    && match r.origin.protocol
       case "responses" => kind == Str("reasoning")
       case "messages" =>
         || (kind == Str("thinking") && Get(r.native, "thinking").Str? && Filled(Get(r.native, "signature")))
         || (kind == Str("redacted_thinking") && Filled(Get(r.native, "data")))
       case "chat" => Get(r.native, "reasoning_details").Arr?
       case _ => false
  }

  lemma ValidMeans(r: ReplayRecord)
    ensures ValidRecord(r) <==> Valid(r)
  {
  }

  /** The document of a record, in the current form and in the old one. */
  function Document(r: ReplayRecord): Fields {
    map["native" := Obj(r.native),
        "origin" := Obj(map[
          "connection" := Str(r.origin.connection), "endpoint" := Str(r.origin.endpoint),
          "model" := Str(r.origin.model), "protocol" := Str(r.origin.protocol),
          "provider" := Str(r.origin.provider)])]
  }

  function OldDocument(r: ReplayRecord): Fields {
    map["block" := Obj(r.native), "protocol" := Str("anthropic_messages"),
        "replay_scope" := Str(r.origin.provider), "source_model" := Str(r.origin.model)]
  }

  lemma PayloadIsDocument(r: ReplayRecord)
    ensures Payload(r) == Document(r)
  {
    assert Payload(r).Keys == Document(r).Keys;
    assert OriginFields(r.origin) == Document(r)["origin"].fields;
  }

  /** The text holds this document: it is its base64 text, not more than 128 deep, and representable. */
  ghost predicate Holds(t: Text, encoded: string, document: Fields) {
    var raw := Base64Url.Decode(Base64Url.Restored(encoded));
    && raw.Some? && t.loads(raw.value) == Some(Obj(document))
    && !Deep(Obj(document), 129) && t.dumps(Obj(document)).Some?
  }

  lemma ReadsHeld(t: Text, encoded: string, document: Fields)
    requires Inverse(t)
    ensures ReadPayload(t, encoded) == Some(document) <==> Holds(t, encoded, document)
  {
    hide Within, Deep;
    var raw := Base64Url.Decode(Base64Url.Restored(encoded));
    WithinMeans(Obj(document), 0);
    if raw.Some? && t.loads(raw.value).Some? {
      CopyIsSame(t, t.loads(raw.value).value);
    }
  }

  /** Encoding gives the marked base64 text of the record's document, exactly for valid records whose
      document is not more than 128 deep and representable. */
  lemma EncodingMeans(t: Text, r: ReplayRecord)
    requires Inverse(t)
    ensures EncodeReplay(t, r) ==
            if Valid(r) && !Deep(Obj(Document(r)), 129) && t.dumps(Obj(Document(r))).Some?
            then Some("fcc:history:v1:" + Base64Url.Stripped(Base64Url.Encode(t.dumps(Obj(Document(r))).value)))
            else None
  {
    hide Within, Deep, Valid, ValidRecord, Document, Payload, Base64Url.Encode, Base64Url.Stripped;
    PayloadIsDocument(r);
    ValidMeans(r);
    WithinMeans(Obj(Document(r)), 0);
    CopyIsSame(t, Obj(Payload(r)));
    PayloadValidates(r);
  }

  lemma ValidatedMeans(document: Fields, r: ReplayRecord)
    ensures ValidateRecord(document) == Some(r) <==> Valid(r) && document == Document(r)
  {
    hide Valid, ValidRecord, ValidateRecord, Payload, Document;
    PayloadIsDocument(r);
    ValidMeans(r);
    PayloadValidates(r);
    if ValidateRecord(document).Some? {
      ValidatedPayload(document);
      ValidMeans(ValidateRecord(document).value);
    }
  }

  lemma ModernizedIsOld(document: Fields, r: ReplayRecord)
    requires Modernized(document) == Some(Document(r))
    ensures document == OldDocument(r) && r.origin == Origin(r.origin.provider, "messages", "", "", r.origin.model)
  {
    var m, origin := Document(r), Document(r)["origin"].fields;
    assert m["native"] == document["block"] && origin["provider"] == document["replay_scope"];
    assert origin["model"] == document["source_model"] && origin["protocol"] == Str("messages");
    assert origin["endpoint"] == Str("") && origin["connection"] == Str("");
    assert document.Keys == OldDocument(r).Keys;
  }

  lemma OldIsModernized(r: ReplayRecord)
    requires r.origin == Origin(r.origin.provider, "messages", "", "", r.origin.model)
    ensures Modernized(OldDocument(r)) == Some(Document(r))
  {
    assert OldDocument(r).Keys == {"protocol", "replay_scope", "source_model", "block"};
    var m := Modernized(OldDocument(r)).value;
    assert m.Keys == Document(r).Keys;
    assert m["origin"].fields == Document(r)["origin"].fields;
    assert m == Document(r);
  }

  lemma ModernizedMeans(document: Fields, r: ReplayRecord)
    ensures Modernized(document) == Some(Document(r)) <==>
              document == OldDocument(r) && r.origin == Origin(r.origin.provider, "messages", "", "", r.origin.model)
  {
    hide Modernized, Document, OldDocument;
    if Modernized(document) == Some(Document(r)) {
      ModernizedIsOld(document, r);
    }
    if document == OldDocument(r) && r.origin == Origin(r.origin.provider, "messages", "", "", r.origin.model) {
      OldIsModernized(r);
    }
  }

  /** Exactly the texts that decode to a valid record: the marked base64 text of its document, or, for
      a Messages record without endpoint and connection, of its document in the old form. */
  lemma DecodingMeans(t: Text, value: string, r: ReplayRecord)
    requires Inverse(t)
    ensures DecodeReplay(t, value) == Some(r) <==>
              && Valid(r)
              && (|| ("fcc:history:v1:" <= value && Holds(t, value[15..], Document(r)))
                  || ("fcc:anthropic-reasoning:v1:" <= value && Holds(t, value[27..], OldDocument(r))
                      && r.origin == Origin(r.origin.provider, "messages", "", "", r.origin.model)))
  {
    hide Valid, Document, OldDocument, Holds, ReadPayload, Modernized, ValidateRecord;
    assert |PREFIX| == 15 && |LEGACY_PREFIX| == 27;
    if StartsWith(value, PREFIX) {
      assert value[4] == 'h';
      DecodingCurrent(t, value[15..], r);
    } else if StartsWith(value, LEGACY_PREFIX) {
      DecodingOld(t, value[27..], r);
    }
  }

  lemma DecodingCurrent(t: Text, encoded: string, r: ReplayRecord)
    requires Inverse(t)
    ensures ReadPayload(t, encoded).Some? && ValidateRecord(ReadPayload(t, encoded).value) == Some(r) <==>
              Valid(r) && Holds(t, encoded, Document(r))
  {
    hide Valid, Document, Holds, ReadPayload, ValidateRecord;
    ReadsHeld(t, encoded, Document(r));
    if ReadPayload(t, encoded).Some? {
      ValidatedMeans(ReadPayload(t, encoded).value, r);
    }
  }

  lemma DecodingOld(t: Text, encoded: string, r: ReplayRecord)
    requires Inverse(t)
    ensures var payload := ReadPayload(t, encoded);
            && payload.Some? && Modernized(payload.value).Some?
            && ValidateRecord(Modernized(payload.value).value) == Some(r) <==>
              && Valid(r) && Holds(t, encoded, OldDocument(r))
              && r.origin == Origin(r.origin.provider, "messages", "", "", r.origin.model)
  {
    hide Valid, Document, OldDocument, Holds, ReadPayload, Modernized, ValidateRecord;
    var payload := ReadPayload(t, encoded);
    ReadsHeld(t, encoded, OldDocument(r));
    if payload.Some? {
      var modern := Modernized(payload.value);
      ModernizedMeans(payload.value, r);
      if modern.Some? {
        ValidatedMeans(modern.value, r);
        assert modern == Some(Document(r)) <==> modern.value == Document(r);
      }
    }
  }
}
