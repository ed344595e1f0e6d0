/** The tool-name locations of a Chat request: declared tools, earlier tool calls and the tool
    choice.  Encoding replaces the names there and touches nothing else. */
module ChatToolNames {
  import opened Common
  import opened Json
  import opened JsonPaths
  import opened ToolNameCodec

  type Fields = map<string, Value>

  /** A `function` object: its `name`, if that is text. */
  function InFunction(f: string -> string, v: Value): Value {
    if v.Obj? && "name" in v.fields && v.fields["name"].Str?
    then Obj(v.fields["name" := Str(f(v.fields["name"].s))]) else v
  }

  /** A tool, a tool call or a tool choice: what its `function` member holds. */
  function InHolder(f: string -> string, v: Value): Value {
    if v.Obj? && "function" in v.fields
    then Obj(v.fields["function" := InFunction(f, v.fields["function"])]) else v
  }

  function Each(g: Value -> Value, s: seq<Value>): seq<Value> {
    seq(|s|, i requires 0 <= i < |s| => g(s[i]))
  }

  /** One member of an object that holds a list. */
  function InList(g: Value -> Value, fields: Fields, key: string): Fields {
    if key in fields && fields[key].Arr? then fields[key := Arr(Each(g, fields[key].items))] else fields
  }

  function Holders(f: string -> string): Value -> Value { (v: Value) => InHolder(f, v) }

  function InMessage(f: string -> string, v: Value): Value {
    if v.Obj? then Obj(InList(Holders(f), v.fields, "tool_calls")) else v
  }

  function Messages(f: string -> string): Value -> Value { (v: Value) => InMessage(f, v) }

  function InChoice(f: string -> string, body: Fields): Fields {
    if "tool_choice" in body then body["tool_choice" := InHolder(f, body["tool_choice"])] else body
  }

  function InBody(f: string -> string, body: Fields): Fields {
    InChoice(f, InList(Messages(f), InList(Holders(f), body, "tools"), "messages"))
  }

  function EncodeChatToolNames(c: Codec, body: Fields): Fields {
    if c.originalToAlias == map[] then body else InBody((n: string) => Encode(c, n), body)
  }

  // ----- the names at those locations

  predicate FunctionNames(p: string -> bool, v: Value) {
    v.Obj? && "name" in v.fields && v.fields["name"].Str? ==> p(v.fields["name"].s)
  }

  predicate HolderNames(p: string -> bool, v: Value) {
    v.Obj? && "function" in v.fields ==> FunctionNames(p, v.fields["function"])
  }

  predicate ListNames(q: Value -> bool, fields: Fields, key: string) {
    key in fields && fields[key].Arr? ==>
      forall i :: 0 <= i < |fields[key].items| ==> q(fields[key].items[i])
  }

  function OfHolder(p: string -> bool): Value -> bool { (v: Value) => HolderNames(p, v) }

  function OfMessage(p: string -> bool): Value -> bool {
    (v: Value) => v.Obj? ==> ListNames(OfHolder(p), v.fields, "tool_calls")
  }

  /** Every tool name in the body satisfies `p`. */
  predicate BodyNames(p: string -> bool, body: Fields) {
    && ListNames(OfHolder(p), body, "tools") && ListNames(OfMessage(p), body, "messages")
    && ("tool_choice" in body ==> HolderNames(p, body["tool_choice"]))
  }

  // ----- two rewritings in a row

  /** On the names that satisfy `p`, `g` after `f` is `h`. */
  ghost predicate Composes(f: string -> string, g: string -> string, h: string -> string, p: string -> bool) {
    forall x :: p(x) ==> g(f(x)) == h(x)
  }

  ghost predicate ValuesCompose(f: Value -> Value, g: Value -> Value, h: Value -> Value, q: Value -> bool) {
    forall v :: q(v) ==> g(f(v)) == h(v)
  }

  lemma HoldersCompose(f: string -> string, g: string -> string, h: string -> string, p: string -> bool)
    requires Composes(f, g, h, p)
    ensures ValuesCompose(Holders(f), Holders(g), Holders(h), OfHolder(p))
  {
    forall v | OfHolder(p)(v) ensures Holders(g)(Holders(f)(v)) == Holders(h)(v) {
      HolderComposes(f, g, h, p, v);
    }
  }

  lemma FunctionComposes(f: string -> string, g: string -> string, h: string -> string, p: string -> bool, v: Value)
    requires Composes(f, g, h, p) && FunctionNames(p, v)
    ensures InFunction(g, InFunction(f, v)) == InFunction(h, v)
  {
    if v.Obj? && "name" in v.fields && v.fields["name"].Str? {
      var x := v.fields["name"].s;
      assert v.fields["name" := Str(f(x))]["name" := Str(g(f(x)))] == v.fields["name" := Str(h(x))];
    }
  }

  lemma HolderComposes(f: string -> string, g: string -> string, h: string -> string, p: string -> bool, v: Value)
    requires Composes(f, g, h, p) && HolderNames(p, v)
    ensures InHolder(g, InHolder(f, v)) == InHolder(h, v)
  {
    if v.Obj? && "function" in v.fields {
      var w := v.fields["function"];
      FunctionComposes(f, g, h, p, w);
      assert v.fields["function" := InFunction(f, w)]["function" := InFunction(g, InFunction(f, w))]
          == v.fields["function" := InFunction(h, w)];
    }
  }

  lemma ListComposes(
      f: Value -> Value, g: Value -> Value, h: Value -> Value, q: Value -> bool, fields: Fields, key: string)
    requires ValuesCompose(f, g, h, q) && ListNames(q, fields, key)
    ensures InList(g, InList(f, fields, key), key) == InList(h, fields, key)
  {
    if key in fields && fields[key].Arr? {
      var s := fields[key].items;
      assert Each(g, Each(f, s)) == Each(h, s);
      assert fields[key := Arr(Each(f, s))][key := Arr(Each(g, Each(f, s)))] == fields[key := Arr(Each(h, s))];
    }
  }

  lemma MessagesCompose(f: string -> string, g: string -> string, h: string -> string, p: string -> bool)
    requires Composes(f, g, h, p)
    ensures ValuesCompose(Messages(f), Messages(g), Messages(h), OfMessage(p))
  {
    HoldersCompose(f, g, h, p);
    forall v | OfMessage(p)(v) ensures Messages(g)(Messages(f)(v)) == Messages(h)(v) {
      if v.Obj? {
        ListComposes(Holders(f), Holders(g), Holders(h), OfHolder(p), v.fields, "tool_calls");
      }
    }
  }

  /** What a rewriting makes of one member of the body. */
  function InMember(f: string -> string, k: string, v: Value): Value {
    if k == "tools" then (if v.Arr? then Arr(Each(Holders(f), v.items)) else v)
    else if k == "messages" then (if v.Arr? then Arr(Each(Messages(f), v.items)) else v)
    else if k == "tool_choice" then InHolder(f, v)
    else v
  }

  lemma BodyMember(f: string -> string, body: Fields, k: string)
    ensures k in InBody(f, body) <==> k in body
    ensures k in body ==> InBody(f, body)[k] == InMember(f, k, body[k])
  {
  }

  lemma MemberComposes(
      f: string -> string, g: string -> string, h: string -> string, p: string -> bool, body: Fields, k: string)
    requires Composes(f, g, h, p) && BodyNames(p, body) && k in body
    ensures InMember(g, k, InMember(f, k, body[k])) == InMember(h, k, body[k])
  {
    var v := body[k];
    if k == "tools" && v.Arr? {
      HoldersCompose(f, g, h, p);
      assert Each(Holders(g), Each(Holders(f), v.items)) == Each(Holders(h), v.items);
    } else if k == "messages" && v.Arr? {
      MessagesCompose(f, g, h, p);
      assert Each(Messages(g), Each(Messages(f), v.items)) == Each(Messages(h), v.items);
    } else if k == "tool_choice" {
      HolderComposes(f, g, h, p, v);
    }
  }

  lemma BodyMembers(f: string -> string, body: Fields)
    ensures InBody(f, body) == map k | k in body :: InMember(f, k, body[k])
  {
    forall k ensures k in InBody(f, body) <==> k in body { BodyMember(f, body, k); }
    forall k | k in body ensures InBody(f, body)[k] == InMember(f, k, body[k]) { BodyMember(f, body, k); }
  }

  lemma BodyComposes(f: string -> string, g: string -> string, h: string -> string, p: string -> bool, body: Fields)
    requires Composes(f, g, h, p) && BodyNames(p, body)
    ensures InBody(g, InBody(f, body)) == InBody(h, body)
  {
    BodyMembers(f, body);
    BodyMembers(g, InBody(f, body));
    BodyMembers(h, body);
    forall k | k in body ensures InMember(g, k, InMember(f, k, body[k])) == InMember(h, k, body[k]) {
      MemberComposes(f, g, h, p, body, k);
    }
  }

  // ----- what encoding a body promises

  function Id(): string -> string { (x: string) => x }

  function Known(names: set<string>): string -> bool { (x: string) => x in names }

  lemma IdentityRewrites(body: Fields)
    ensures InBody(Id(), body) == body
  {
    forall k ensures k in InBody(Id(), body) <==> k in body { BodyMember(Id(), body, k); }
    forall k | k in body ensures InBody(Id(), body)[k] == body[k] {
      BodyMember(Id(), body, k);
      IdentityMember(k, body[k]);
    }
  }

  lemma IdentityHolder(v: Value)
    ensures InHolder(Id(), v) == v
  {
    if v.Obj? && "function" in v.fields {
      var w := v.fields["function"];
      if w.Obj? && "name" in w.fields && w.fields["name"].Str? {
        assert w.fields["name" := Str(w.fields["name"].s)] == w.fields;
      }
      assert v.fields["function" := w] == v.fields;
    }
  }

  lemma IdentityMessage(v: Value)
    ensures InMessage(Id(), v) == v
  {
    if v.Obj? && "tool_calls" in v.fields && v.fields["tool_calls"].Arr? {
      var s := v.fields["tool_calls"].items;
      forall i | 0 <= i < |s| ensures InHolder(Id(), s[i]) == s[i] { IdentityHolder(s[i]); }
      assert Each(Holders(Id()), s) == s;
      assert v.fields["tool_calls" := Arr(s)] == v.fields;
    }
  }

  lemma IdentityMember(k: string, v: Value)
    ensures InMember(Id(), k, v) == v
  {
    IdentityHolder(v);
    if v.Arr? {
      forall i | 0 <= i < |v.items|
        ensures InHolder(Id(), v.items[i]) == v.items[i] && InMessage(Id(), v.items[i]) == v.items[i]
      {
        IdentityHolder(v.items[i]);
        IdentityMessage(v.items[i]);
      }
      assert Each(Holders(Id()), v.items) == v.items;
      assert Each(Messages(Id()), v.items) == v.items;
    }
  }

  /** The shortcut for a codec without aliases changes nothing but the work done. */
  lemma ShortcutIsExact(c: Codec, body: Fields)
    ensures EncodeChatToolNames(c, body) == InBody((n: string) => Encode(c, n), body)
  {
    if c.originalToAlias == map[] {
      var f := (n: string) => Encode(c, n);
      SameRewriting(f, Id(), body);
      IdentityRewrites(body);
    }
  }

  lemma SameRewriting(f: string -> string, h: string -> string, body: Fields)
    requires forall x :: f(x) == h(x)
    ensures InBody(f, body) == InBody(h, body)
  {
    BodyNamesAll(body);
    BodyComposes(Id(), f, h, (x: string) => true, body);
    IdentityRewrites(body);
  }

  lemma BodyNamesAll(body: Fields)
    ensures BodyNames((x: string) => true, body)
  {
  }

  /** When every tool name in the body belongs to the request the codec was built for, encoding
      can be undone and encoding again changes nothing. */
  lemma BodyComesBack(c: Codec, names: set<string>, body: Fields)
    requires Sound(c, names) && BodyNames(Known(names), body)
    ensures InBody((n: string) => Decode(c, n), EncodeChatToolNames(c, body)) == body
    ensures EncodeChatToolNames(c, EncodeChatToolNames(c, body)) == EncodeChatToolNames(c, body)
  {
    var there, back := (n: string) => Encode(c, n), (n: string) => Decode(c, n);
    forall x | Known(names)(x) ensures back(there(x)) == x && there(there(x)) == there(x) {
      NamesSurvive(c, names, x);
    }
    ShortcutIsExact(c, body);
    ShortcutIsExact(c, EncodeChatToolNames(c, body));
    BodyComposes(there, back, Id(), Known(names), body);
    BodyComposes(there, there, there, Known(names), body);
    IdentityRewrites(body);
  }

  // ----- place by place

  /** As what a place of a body is read. */
  datatype Role = AsBody | AsHolders | AsMessages | AsMessage | AsHolder | AsFunction | AsName | AsData

  function RoleIn(role: Role, step: Into): Role {
    match (role, step)
    case (AsBody, Member(key)) =>
      if key == "tools" then AsHolders
      else if key == "messages" then AsMessages
      else if key == "tool_choice" then AsHolder
      else AsData
    case (AsHolders, Item(_)) => AsHolder
    case (AsMessages, Item(_)) => AsMessage
    case (AsMessage, Member(key)) => if key == "tool_calls" then AsHolders else AsData
    case (AsHolder, Member(key)) => if key == "function" then AsFunction else AsData
    case (AsFunction, Member(key)) => if key == "name" then AsName else AsData
    case _ => AsData
  }

  function RoleAt(role: Role, path: seq<Into>): Role
    decreases |path|
  {
    if path == [] then role else RoleAt(RoleIn(role, path[0]), path[1..])
  }

  function RewriteAs(f: string -> string, role: Role, v: Value): Value {
    match role
    case AsBody => if v.Obj? then Obj(InBody(f, v.fields)) else v
    case AsHolders => if v.Arr? then Arr(Each(Holders(f), v.items)) else v
    case AsMessages => if v.Arr? then Arr(Each(Messages(f), v.items)) else v
    case AsMessage => InMessage(f, v)
    case AsHolder => InHolder(f, v)
    case AsFunction => InFunction(f, v)
    case AsName => if v.Str? then Str(f(v.s)) else v
    case AsData => v
  }

  lemma RewrittenInto(f: string -> string, role: Role, v: Value, step: Into)
    ensures var was, now := At(v, [step]), At(RewriteAs(f, role, v), [step]);
            now == if was.None? then None else Some(RewriteAs(f, RoleIn(role, step), was.value))
  {
    hide InBody;
    assert [step][1..] == [];
    if role == AsBody && v.Obj? && step.Member? {
      BodyMember(f, v.fields, step.key);
    }
  }

  lemma KindKept(f: string -> string, role: Role, v: Value)
    ensures Rewritten(f, role.AsName?, Some(v), Some(RewriteAs(f, role, v)))
  {
    hide InBody;
    if role == AsBody && v.Obj? {
      BodyMembers(f, v.fields);
    }
  }

  lemma {:induction false} PlaceRewritten(f: string -> string, role: Role, v: Value, path: seq<Into>)
    ensures Rewritten(f, RoleAt(role, path).AsName?, At(v, path), At(RewriteAs(f, role, v), path))
    decreases |path|
  {
    hide RoleIn, RewriteAs;
    if path == [] {
      KindKept(f, role, v);
    } else {
      RewrittenInto(f, role, v, path[0]);
      AtStep(v, path);
      AtStep(RewriteAs(f, role, v), path);
      var next := At(v, [path[0]]);
      if next.Some? {
        PlaceRewritten(f, RoleIn(role, path[0]), next.value, path[1..]);
      }
    }
  }

  /** Place by place: the names of declared tools, earlier tool calls and the tool choice are encoded,
      and everything else of the body stays as it is. */
  lemma EveryPlace(c: Codec, body: Fields, path: seq<Into>)
    ensures Rewritten((n: string) => Encode(c, n), RoleAt(AsBody, path).AsName?, At(Obj(body), path),
                      At(Obj(EncodeChatToolNames(c, body)), path))
  {
    ShortcutIsExact(c, body);
    PlaceRewritten((n: string) => Encode(c, n), AsBody, Obj(body), path);
  }
}
