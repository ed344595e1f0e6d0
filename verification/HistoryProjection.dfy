/** Projection of a retained history to the provider it is sent to next: native reasoning goes
    only to a destination that may have it, everybody else gets its readable text. */
module HistoryProjection {
  import opened Common
  import opened Json
  import opened HistoryReplay

  datatype Part = Part(text: string, summary: bool)

  // ----- readable reasoning

  /** The texts among the first `n` parts. */
  function Texts(parts: seq<Value>, n: nat): seq<string>
    requires n <= |parts|
  {
    if n == 0 then []
    else
      var p := parts[n - 1];
      Texts(parts, n - 1) + if p.Obj? && Get(p.fields, "text").Str? then [Get(p.fields, "text").s] else []
  }

  function Join(separator: string, texts: seq<string>): string {
    if texts == [] then ""
    else if |texts| == 1 then texts[0]
    else texts[0] + separator + Join(separator, texts[1..])
  }

  function Section(item: Fields, key: string): string {
    var parts := Get(item, key);
    if parts.Arr? then Join("\n\n", Texts(parts.items, |parts.items|)) else ""
  }

  /** The readable structured details; None is the error for a type that cannot be looked up in a
      set. */
  function Details(details: seq<Value>, n: nat): Option<seq<Part>>
    requires n <= |details|
  {
    if n == 0 then Some([])
    else
      var before, d := Details(details, n - 1), details[n - 1];
      if before.None? || !d.Obj? then before
      else if Unhashable(Get(d.fields, "type")) then None
      else
        var kind := Get(d.fields, "type");
        var text := if kind == Str("reasoning.summary") && "summary" in d.fields then d.fields["summary"]
                    else Get(d.fields, "text");
        if IsStr(kind, {"reasoning.text", "reasoning.summary"}) && NonEmptyText(text)
        then Some(before.value + [Part(text.s, kind == Str("reasoning.summary"))])
        else before
  }

  function PartTexts(parts: seq<Part>): seq<string> {
    seq(|parts|, i requires 0 <= i < |parts| => parts[i].text)
  }

  /** The texts a plain string may repeat: each part, and all of them joined. */
  function Represented(parts: seq<Part>): set<string> {
    (set p | p in parts :: p.text) + {Join("", PartTexts(parts)), Join("\n\n", PartTexts(parts))}
  }

  function PlainText(item: Fields, key: string, represented: set<string>): seq<Part> {
    var text := Get(item, key);
    if NonEmptyText(text) && text.s !in represented then [Part(text.s, false)] else []
  }

  function PlainTexts(item: Fields, parts: seq<Part>): seq<Part> {
    var first := PlainText(item, "reasoning_content", Represented(parts));
    first + PlainText(item, "reasoning", Represented(parts) + set p | p in first :: p.text)
  }

  function Readable(str: Value -> string, item: Fields): Option<seq<Part>> {
    if Get(item, "type") == Str("thinking") then
      var text := if Truthy(Get(item, "thinking")) then str(Get(item, "thinking")) else "";
      Some(if text == "" then [] else [Part(text, false)])
    else if Section(item, "content") != "" then Some([Part(Section(item, "content"), false)])
    else if Section(item, "summary") != "" then Some([Part(Section(item, "summary"), true)])
    else
      var details := Get(item, "reasoning_details");
      var parts := if details.Arr? then Details(details.items, |details.items|) else Some([]);
      if parts.None? then None else Some(PlainTexts(item, parts.value) + parts.value)
  }

  // ----- one item

  /** The two protocols that carry reasoning as separate items. */
  datatype Wire = Responses | Messages

  predicate IsReasoning(w: Wire, v: Value) {
    v.Obj? &&
      match w
      case Responses => Get(v.fields, "type") == Str("reasoning")
      case Messages => IsStr(Get(v.fields, "type"), {"thinking", "redacted_thinking"})
  }

  function Carriers(w: Wire): seq<string> {
    match w
    case Responses => ["encrypted_content"]
    case Messages => ["signature", "data"]
  }

  datatype Found = NoReplay | Malformed | Replay(record: ReplayRecord)

  /** The record in the first of the keys, from `i` on, that holds a replay text. */
  function RecordOf(t: Text, item: Fields, keys: seq<string>, i: nat): Found
    requires i <= |keys|
    decreases |keys| - i
  {
    if i == |keys| then NoReplay
    else if IsReplay(Get(item, keys[i])) then
      var r := DecodeReplay(t, Get(item, keys[i]).s);
      if r.None? then Malformed else Replay(r.value)
    else RecordOf(t, item, keys, i + 1)
  }

  predicate Opaque(w: Wire, item: Fields) {
    exists i :: 0 <= i < |Carriers(w)| && Truthy(Get(item, Carriers(w)[i]))
  }

  function ContextText(p: Part): string {
    (if p.summary then "[Earlier reasoning summary]" else "[Earlier reasoning]") + "\n" + p.text
  }

  function Context(w: Wire, p: Part): Value {
    match w
    case Responses => Obj(map["role" := Str("assistant"), "content" := Str(ContextText(p))])
    case Messages => Obj(map["type" := Str("text"), "text" := Str(ContextText(p))])
  }

  function Contexts(w: Wire, parts: seq<Part>): seq<Value> {
    seq(|parts|, i requires 0 <= i < |parts| => Context(w, parts[i]))
  }

  /** What a reader gets of an item: the native state's own text, or else the item's. */
  function Effective(str: Value -> string, item: Fields, found: Found): Option<seq<Part>> {
    var native := if found.Replay? then Readable(str, found.record.native) else Some([]);
    if native.None? || native.value != [] then native else Readable(str, item)
  }

  /** What one item becomes; None is an error, which refuses the whole history. */
  function ProjectItem(t: Text, str: Value -> string, w: Wire, destination: Origin, v: Value): Option<seq<Value>> {
    if w.Messages? && v.Obj? && Unhashable(Get(v.fields, "type")) then None
    else if !IsReasoning(w, v) then Some([v])
    else ProjectReasoning(str, w, destination, v.fields, RecordOf(t, v.fields, Carriers(w), 0))
  }

  function ProjectReasoning(str: Value -> string, w: Wire, destination: Origin, item: Fields, found: Found)
    : Option<seq<Value>>
  {
    if found.Malformed? then None
    else if found.NoReplay? && Opaque(w, item) then Some([Obj(item)])
    else
      var parts := Effective(str, item, found);
      if parts.None? then None
      else if found.Replay? && Accepts(destination, found.record.origin) then
        Some([Obj(found.record.native)]
             + if Readable(str, found.record.native) != Some([]) then [] else Contexts(w, parts.value))
      else Some(Contexts(w, parts.value))
  }

  function Projection(t: Text, str: Value -> string, w: Wire, destination: Origin): Value -> Option<seq<Value>> {
    (v: Value) => ProjectItem(t, str, w, destination, v)
  }

  // ----- a whole list of items, over any projection of one item

  type OneItem = Value -> Option<seq<Value>>

  function Projected(one: OneItem, items: seq<Value>, n: nat): Option<seq<Value>>
    requires n <= |items|
  {
    if n == 0 then Some([])
    else
      var before, next := Projected(one, items, n - 1), one(items[n - 1]);
      if before.None? || next.None? then None else Some(before.value + next.value)
  }

  method ProjectItems(one: OneItem, items: seq<Value>) returns (r: Option<seq<Value>>)
    ensures r == Projected(one, items, |items|)
  {
    var projected: seq<Value> := [];
    for n := 0 to |items|
      invariant Projected(one, items, n) == Some(projected)
    {
      var next := one(items[n]);
      if next.None? {
        RefusedStays(one, items, n + 1, |items|);
        return None;
      }
      projected := projected + next.value;
    }
    r := Some(projected);
  }

  lemma {:induction false} RefusedStays(one: OneItem, items: seq<Value>, m: nat, n: nat)
    requires m <= n <= |items| && Projected(one, items, m).None?
    ensures Projected(one, items, n).None?
    decreases n
  {
    if m < n {
      RefusedStays(one, items, m, n - 1);
    }
  }

  /** Where the projection of item `i` starts. */
  function Offset(one: OneItem, items: seq<Value>, i: nat): nat
    requires i <= |items|
  {
    var r := Projected(one, items, i);
    if r.None? then 0 else |r.value|
  }

  /** A successful projection is made of one piece per item, in order: item `i` becomes the piece
      from its offset to the next item's. */
  lemma {:induction false} PieceOfItem(one: OneItem, items: seq<Value>, n: nat, i: nat)
    requires i < n <= |items| && Projected(one, items, n).Some?
    ensures var r, lo, hi := Projected(one, items, n).value, Offset(one, items, i), Offset(one, items, i + 1);
            lo <= hi <= |r| && one(items[i]) == Some(r[lo..hi])
    decreases n
  {
    var r := Projected(one, items, n).value;
    var before := Projected(one, items, n - 1).value;
    var lo, hi := Offset(one, items, i), Offset(one, items, i + 1);
    if i < n - 1 {
      PieceOfItem(one, items, n - 1, i);
      assert before[lo..hi] == r[lo..hi];
    } else {
      assert r[lo..hi] == one(items[i]).value;
    }
  }

  lemma {:induction false} OffsetsGrow(one: OneItem, items: seq<Value>, i: nat, j: nat)
    requires i <= j <= |items| && Projected(one, items, |items|).Some?
    ensures Offset(one, items, i) <= Offset(one, items, j)
    decreases j
  {
    if i < j {
      OffsetsGrow(one, items, i, j - 1);
      PieceOfItem(one, items, |items|, j - 1);
    }
  }

  lemma SinglePiece(one: OneItem, items: seq<Value>, i: nat)
    requires i < |items| && Projected(one, items, |items|).Some? && one(items[i]) == Some([items[i]])
    ensures var r, p := Projected(one, items, |items|).value, Offset(one, items, i);
            p < Offset(one, items, i + 1) <= |r| && r[p] == items[i]
  {
    PieceOfItem(one, items, |items|, i);
    var r := Projected(one, items, |items|).value;
    var lo, hi := Offset(one, items, i), Offset(one, items, i + 1);
    assert r[lo..hi] == [items[i]];
    assert r[lo] == r[lo..hi][0];
  }

  lemma KeptInOrder(one: OneItem, items: seq<Value>, i: nat, j: nat)
    requires i < j < |items| && Projected(one, items, |items|).Some?
    requires one(items[i]) == Some([items[i]]) && one(items[j]) == Some([items[j]])
    ensures var r, p, q := Projected(one, items, |items|).value, Offset(one, items, i), Offset(one, items, j);
            p < q < |r| && r[p] == items[i] && r[q] == items[j]
  {
    SinglePiece(one, items, i);
    SinglePiece(one, items, j);
    OffsetsGrow(one, items, i + 1, j);
  }

  // ----- requests

  /** A Responses request: a single input object counts as a list of one. */
  method PrepareResponses(t: Text, str: Value -> string, destination: Origin, body: Fields) returns (r: Option<Fields>)
    ensures var input := Get(body, "input");
            var items := if input.Arr? then input.items else [input];
            var projected := Projected(Projection(t, str, Responses, destination), items, |items|);
            r == if !input.Obj? && !input.Arr? then Some(body)
                 else if projected.None? then None
                 else Some(body["input" := Arr(projected.value)])
  {
    var input := Get(body, "input");
    if !input.Obj? && !input.Arr? {
      return Some(body);
    }
    var items := if input.Obj? then [input] else input.items;
    var projected := ProjectItems(Projection(t, str, Responses, destination), items);
    if projected.None? {
      return None;
    }
    return Some(body["input" := Arr(projected.value)]);
  }

  // ----- what the projection promises

  /** Every item that is not reasoning arrives unchanged, and these items keep their order. */
  lemma OthersUntouched(t: Text, str: Value -> string, w: Wire, destination: Origin, items: seq<Value>, i: nat)
    requires i < |items| && Projected(Projection(t, str, w, destination), items, |items|).Some?
    requires !IsReasoning(w, items[i])
    ensures var one := Projection(t, str, w, destination);
            var r, p := Projected(one, items, |items|).value, Offset(one, items, i);
            && p < |r| && r[p] == items[i]
            && forall j: nat :: i < j < |items| && !IsReasoning(w, items[j]) ==>
                 p < Offset(one, items, j) < |r| && r[Offset(one, items, j)] == items[j]
  {
    var one := Projection(t, str, w, destination);
    PieceOfItem(one, items, |items|, i);
    SinglePiece(one, items, i);
    forall j: nat | i < j < |items| && !IsReasoning(w, items[j])
      ensures var r, p, q := Projected(one, items, |items|).value, Offset(one, items, i), Offset(one, items, j);
              p < q < |r| && r[q] == items[j]
    {
      PieceOfItem(one, items, |items|, j);
      KeptInOrder(one, items, i, j);
    }
  }

  /** The reasoning `v` comes from `item`: as the native state it carries, whose origin the
      destination accepts, or as the item itself, which holds opaque state but no replay text. */
  predicate Admitted(t: Text, w: Wire, destination: Origin, item: Value, v: Value) {
    item.Obj? &&
    var found := RecordOf(t, item.fields, Carriers(w), 0);
    || (found.Replay? && Accepts(destination, found.record.origin) && v == Obj(found.record.native))
    || (found.NoReplay? && v == item && Opaque(w, item.fields))
  }

  lemma ItemAdmits(t: Text, str: Value -> string, w: Wire, destination: Origin, item: Value, v: Value)
    requires ProjectItem(t, str, w, destination, item).Some?
    requires v in ProjectItem(t, str, w, destination, item).value && IsReasoning(w, v)
    ensures Admitted(t, w, destination, item, v)
  {
    if IsReasoning(w, item) {
      ReasoningInSegment(str, w, destination, item.fields, RecordOf(t, item.fields, Carriers(w), 0), v);
    }
  }

  /** Native state reaches only a destination that accepts its origin: all reasoning in a projected
      history comes, so admitted, from some item of it. */
  lemma {:induction false} NativeOnlyWhenAccepted(
      t: Text, str: Value -> string, w: Wire, destination: Origin, items: seq<Value>, n: nat, v: Value)
    requires n <= |items| && Projected(Projection(t, str, w, destination), items, n).Some?
    requires v in Projected(Projection(t, str, w, destination), items, n).value && IsReasoning(w, v)
    ensures exists i :: 0 <= i < n && Admitted(t, w, destination, items[i], v)
  {
    var one := Projection(t, str, w, destination);
    var before, next := Projected(one, items, n - 1).value, one(items[n - 1]).value;
    if v in before {
      NativeOnlyWhenAccepted(t, str, w, destination, items, n - 1, v);
    } else {
      assert v in next;
      ItemAdmits(t, str, w, destination, items[n - 1], v);
    }
  }

  lemma ContextIsPlain(w: Wire, parts: seq<Part>, v: Value)
    requires v in Contexts(w, parts)
    ensures !IsReasoning(w, v)
  {
  }

  lemma ReasoningInSegment(str: Value -> string, w: Wire, destination: Origin, item: Fields, found: Found, v: Value)
    requires ProjectReasoning(str, w, destination, item, found).Some?
    requires v in ProjectReasoning(str, w, destination, item, found).value && IsReasoning(w, v)
    ensures || (found.Replay? && Accepts(destination, found.record.origin) && v == Obj(found.record.native))
            || (found.NoReplay? && v == Obj(item) && Opaque(w, item))
  {
    var parts := Effective(str, item, found);
    if parts.Some? && v in Contexts(w, parts.value) {
      ContextIsPlain(w, parts.value, v);
    }
  }

  /** The part `p` is somewhere in the projection: as context, or in an element that says it. */
  ghost predicate Tells(str: Value -> string, w: Wire, values: seq<Value>, p: Part) {
    Context(w, p) in values || exists i :: 0 <= i < |values| && Says(str, values[i], p)
  }

  predicate Says(str: Value -> string, v: Value, p: Part) {
    v.Obj? && Readable(str, v.fields).Some? && p in Readable(str, v.fields).value
  }

  /** No readable text is lost: every part a reader would get of a reasoning item of a history is
      told, in the item's place, by the projected history. */
  lemma ReadableTextKept(
      t: Text, str: Value -> string, w: Wire, destination: Origin, items: seq<Value>, i: nat, p: Part)
    requires i < |items| && Projected(Projection(t, str, w, destination), items, |items|).Some?
    requires IsReasoning(w, items[i])
    requires var parts := Effective(str, items[i].fields, RecordOf(t, items[i].fields, Carriers(w), 0));
             parts.Some? && p in parts.value
    ensures var one := Projection(t, str, w, destination);
            var r, lo, hi := Projected(one, items, |items|).value, Offset(one, items, i), Offset(one, items, i + 1);
            lo <= hi <= |r| && Tells(str, w, r[lo..hi], p) && Tells(str, w, r, p)
  {
    var one := Projection(t, str, w, destination);
    PieceOfItem(one, items, |items|, i);
    ItemTextKept(t, str, w, destination, items[i], p);
    var r, lo, hi := Projected(one, items, |items|).value, Offset(one, items, i), Offset(one, items, i + 1);
    assert one(items[i]) == ProjectItem(t, str, w, destination, items[i]);
    TellsMore(str, w, r, lo, hi, p);
  }

  lemma TellsMore(str: Value -> string, w: Wire, values: seq<Value>, lo: nat, hi: nat, p: Part)
    requires lo <= hi <= |values| && Tells(str, w, values[lo..hi], p)
    ensures Tells(str, w, values, p)
  {
    if Context(w, p) !in values[lo..hi] {
      var i :| 0 <= i < hi - lo && Says(str, values[lo..hi][i], p);
      assert values[lo + i] == values[lo..hi][i];
    }
  }

  lemma ItemTextKept(t: Text, str: Value -> string, w: Wire, destination: Origin, item: Value, p: Part)
    requires IsReasoning(w, item) && ProjectItem(t, str, w, destination, item).Some?
    requires var parts := Effective(str, item.fields, RecordOf(t, item.fields, Carriers(w), 0));
             parts.Some? && p in parts.value
    ensures Tells(str, w, ProjectItem(t, str, w, destination, item).value, p)
  {
    var found := RecordOf(t, item.fields, Carriers(w), 0);
    var parts := Effective(str, item.fields, found).value;
    var r := ProjectItem(t, str, w, destination, item).value;
    ContextsTell(w, parts, p);
    if found.NoReplay? && Opaque(w, item.fields) {
      assert Says(str, r[0], p);
    } else if found.Replay? && Accepts(destination, found.record.origin) {
      if Readable(str, found.record.native) != Some([]) {
        assert Says(str, r[0], p);
      } else {
        assert r[1..] == Contexts(w, parts);
        assert Context(w, p) in r[1..];
      }
    } else {
      assert r == Contexts(w, parts);
    }
  }

  lemma ContextsTell(w: Wire, parts: seq<Part>, p: Part)
    requires p in parts
    ensures Context(w, p) in Contexts(w, parts)
  {
    var i :| 0 <= i < |parts| && parts[i] == p;
    assert Contexts(w, parts)[i] == Context(w, p);
  }

  // ----- keeping a Responses item and bringing it back

  /** What a client is given to keep: the item with its own copy as replay text. */
  function Carrying(item: Fields, text: string): Fields { item["encrypted_content" := Str(text)] }

  lemma CarrierIsNotRead(str: Value -> string, item: Fields, text: string)
    ensures Readable(str, Carrying(item, text)) == Readable(str, item)
  {
    var kept := Carrying(item, text);
    assert Get(kept, "type") == Get(item, "type") && Get(kept, "thinking") == Get(item, "thinking");
    assert Section(kept, "content") == Section(item, "content");
    assert Section(kept, "summary") == Section(item, "summary");
    assert Get(kept, "reasoning_details") == Get(item, "reasoning_details");
    assert Get(kept, "reasoning_content") == Get(item, "reasoning_content");
    assert Get(kept, "reasoning") == Get(item, "reasoning");
  }

  /** A reasoning item that was wrapped for the client comes back to an accepting destination
      exactly as the provider sent it, and any other destination gets exactly its readable text. */
  lemma WrappedItemComesBack(t: Text, str: Value -> string, origin: Origin, destination: Origin, item: Fields)
    requires Inverse(t) && Get(item, "type") == Str("reasoning") && Readable(str, item).Some?
    requires EncodeReplay(t, ReplayRecord(origin, item)).Some?
    ensures var kept := Carrying(item, EncodeReplay(t, ReplayRecord(origin, item)).value);
            ProjectItem(t, str, Responses, destination, Obj(kept))
            == Some(if Accepts(destination, origin) then [Obj(item)]
                else Contexts(Responses, Readable(str, item).value))
  {
    var text := EncodeReplay(t, ReplayRecord(origin, item)).value;
    RoundTrip(t, ReplayRecord(origin, item));
    CarrierIsFound(t, item, text);
    FoundComesBack(str, origin, destination, item, text);
  }

  lemma CarrierIsFound(t: Text, item: Fields, text: string)
    requires IsReplay(Str(text))
    ensures RecordOf(t, Carrying(item, text), Carriers(Responses), 0)
         == (match DecodeReplay(t, text) case None => Malformed case Some(record) => Replay(record))
  {
    assert Get(Carrying(item, text), "encrypted_content") == Str(text);
  }

  lemma FoundComesBack(str: Value -> string, origin: Origin, destination: Origin, item: Fields, text: string)
    requires Readable(str, item).Some?
    ensures ProjectReasoning(str, Responses, destination, Carrying(item, text), Replay(ReplayRecord(origin, item)))
         == Some(if Accepts(destination, origin) then [Obj(item)] else Contexts(Responses, Readable(str, item).value))
  {
    CarrierIsNotRead(str, item, text);
    var kept, found := Carrying(item, text), Replay(ReplayRecord(origin, item));
    var parts := Readable(str, item).value;
    assert Effective(str, kept, found) == Some(parts);
    if Accepts(destination, origin) {
      assert [Obj(item)] + (if parts != [] then [] else Contexts(Responses, parts)) == [Obj(item)];
    }
  }

  /** The form in which a client keeps one output item; None when it cannot be encoded. */
  function Kept(t: Text, origin: Origin, v: Value): Option<Value> {
    if !IsReasoning(Responses, v) then Some(v)
    else
      var text := EncodeReplay(t, ReplayRecord(origin, v.fields));
      if text.None? then None else Some(Obj(Carrying(v.fields, text.value)))
  }

  /** A whole output comes back, item for item, when the client replays what it kept to a
      destination that accepts its origin. */
  lemma {:induction false} HistoryComesBack(
      t: Text, str: Value -> string, origin: Origin, destination: Origin, items: seq<Value>, kept: seq<Value>, n: nat)
    requires Inverse(t) && Accepts(destination, origin) && n <= |items| == |kept|
    requires forall i :: 0 <= i < |items| ==> Kept(t, origin, items[i]) == Some(kept[i])
    requires forall i :: 0 <= i < |items| && IsReasoning(Responses, items[i]) ==> Readable(str, items[i].fields).Some?
    ensures Projected(Projection(t, str, Responses, destination), kept, n) == Some(items[..n])
  {
    if n > 0 {
      HistoryComesBack(t, str, origin, destination, items, kept, n - 1);
      var v := items[n - 1];
      if IsReasoning(Responses, v) {
        WrappedItemComesBack(t, str, origin, destination, v.fields);
      }
      assert ProjectItem(t, str, Responses, destination, kept[n - 1]) == Some([v]);
      assert items[..n] == items[..n - 1] + [v];
    }
  }
}
