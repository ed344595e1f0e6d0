/** Where patterns are looked for in a tool's parameter schema, for any translation of one pattern. */
module ToolSchema {
  import opened CategorySpans
  import opened Common
  import opened Json
  import opened JsonPaths
  import opened PatternTranslation

  const MAP_KEYS := {"$defs", "definitions", "properties", "patternProperties", "dependentSchemas", "dependencies"}

  const SCHEMA_KEYS := {
    "additionalProperties", "additionalItems", "unevaluatedProperties", "unevaluatedItems", "items", "contains",
    "propertyNames", "if", "then", "else", "not", "contentSchema", "allOf", "anyOf", "oneOf", "prefixItems"}

  function TranslateSchema(f: string -> string, v: Value): Value
    decreases v, 0
  {
    match v
    case Arr(items) => Arr(seq(|items|, i requires 0 <= i < |items| => TranslateSchema(f, items[i])))
    case Obj(fields) => Obj(map k | k in fields :: TranslateMember(f, k, fields[k]))
    case _ => v
  }

  function TranslateMember(f: string -> string, key: string, v: Value): Value
    decreases v, 1
  {
    if key == "pattern" && v.Str? then Str(f(v.s))
    else if key in MAP_KEYS && v.Obj? then Obj(map name | name in v.fields :: TranslateSchema(f, v.fields[name]))
    else if key in SCHEMA_KEYS then TranslateSchema(f, v)
    else v
  }

  ghost predicate Settled(f: string -> string) { forall s :: f(f(s)) == f(s) }

  /** A schema that was translated is left as it is, if that holds of every pattern. */
  lemma {:induction false} SchemaSettled(f: string -> string, v: Value)
    requires Settled(f)
    ensures TranslateSchema(f, TranslateSchema(f, v)) == TranslateSchema(f, v)
    decreases v, 0
  {
    var r := TranslateSchema(f, v);
    match v
    case Arr(items) =>
      forall i | 0 <= i < |items| ensures TranslateSchema(f, r.items[i]) == r.items[i] {
        SchemaSettled(f, items[i]);
      }
      assert TranslateSchema(f, r).items == r.items;
    case Obj(fields) =>
      forall k | k in fields ensures TranslateMember(f, k, r.fields[k]) == r.fields[k] {
        MemberSettled(f, k, fields[k]);
      }
      assert TranslateSchema(f, r).fields == r.fields;
    case _ =>
  }

  lemma {:induction false} MemberSettled(f: string -> string, key: string, v: Value)
    requires Settled(f)
    ensures TranslateMember(f, key, TranslateMember(f, key, v)) == TranslateMember(f, key, v)
    decreases v, 1
  {
    if key in MAP_KEYS && v.Obj? {
      var r := TranslateMember(f, key, v);
      forall name | name in v.fields ensures TranslateSchema(f, r.fields[name]) == r.fields[name] {
        SchemaSettled(f, v.fields[name]);
      }
      assert TranslateMember(f, key, r).fields == r.fields;
    } else if key in SCHEMA_KEYS {
      SchemaSettled(f, v);
    }
  }

  /** The translation of a pattern with the tables of a category function and a compile test. */
  function PatternRewriting(category: nat -> string, compiles: string -> bool): string -> string {
    (p: string) => Translate(TableOf(category), compiles, p)
  }

  /** So a schema that was translated with the real tables is left as it is. */
  lemma TranslationSettles(category: nat -> string, compiles: string -> bool, v: Value)
    requires Inhabited(category)
    ensures var f := PatternRewriting(category, compiles);
            TranslateSchema(f, TranslateSchema(f, v)) == TranslateSchema(f, v)
  {
    var f := PatternRewriting(category, compiles);
    TablesAreInert(category);
    forall s ensures f(f(s)) == f(s) {
      TranslateIdempotent(TableOf(category), compiles, s);
    }
    SchemaSettled(f, v);
  }

  /** A pattern that some schema position of `v` holds. */
  ghost predicate HoldsPattern(v: Value, s: string)
    decreases v, 0
  {
    match v
    case Arr(items) => exists i :: 0 <= i < |items| && HoldsPattern(items[i], s)
    case Obj(fields) => exists k :: k in fields && MemberHolds(k, fields[k], s)
    case _ => false
  }

  ghost predicate MemberHolds(key: string, v: Value, s: string)
    decreases v, 1
  {
    if key == "pattern" && v.Str? then v.s == s
    else if key in MAP_KEYS && v.Obj? then exists name :: name in v.fields && HoldsPattern(v.fields[name], s)
    else if key in SCHEMA_KEYS then HoldsPattern(v, s)
    else false
  }

  /** Only patterns are ever changed: a schema none of whose patterns changes comes back as it was,
      whatever instance data, names and keywords it holds. */
  lemma {:induction false} OnlyPatternsChange(f: string -> string, v: Value)
    requires forall s :: HoldsPattern(v, s) ==> f(s) == s
    ensures TranslateSchema(f, v) == v
    decreases v, 0
  {
    match v
    case Arr(items) =>
      forall i | 0 <= i < |items| ensures TranslateSchema(f, items[i]) == items[i] {
        assert forall s :: HoldsPattern(items[i], s) ==> HoldsPattern(v, s);
        OnlyPatternsChange(f, items[i]);
      }
      assert TranslateSchema(f, v).items == items;
    case Obj(fields) =>
      forall k | k in fields ensures TranslateMember(f, k, fields[k]) == fields[k] {
        assert forall s :: MemberHolds(k, fields[k], s) ==> HoldsPattern(v, s);
        OnlyPatternsInMember(f, k, fields[k]);
      }
      assert TranslateSchema(f, v).fields == fields;
    case _ =>
  }

  lemma {:induction false} OnlyPatternsInMember(f: string -> string, key: string, v: Value)
    requires forall s :: MemberHolds(key, v, s) ==> f(s) == s
    ensures TranslateMember(f, key, v) == v
    decreases v, 1
  {
    if key == "pattern" && v.Str? {
      assert MemberHolds(key, v, v.s);
    } else if key in MAP_KEYS && v.Obj? {
      forall name | name in v.fields ensures TranslateSchema(f, v.fields[name]) == v.fields[name] {
        assert forall s :: HoldsPattern(v.fields[name], s) ==> MemberHolds(key, v, s);
        OnlyPatternsChange(f, v.fields[name]);
      }
      assert TranslateMember(f, key, v).fields == v.fields;
    } else if key in SCHEMA_KEYS {
      OnlyPatternsChange(f, v);
    }
  }

  // ----- place by place

  /** As what a place is read: a schema or a list of them, a dictionary of named schemas, a pattern,
      or data. */
  datatype Role = AsSchema | AsNames | AsPattern | AsData

  predicate HoldsNames(key: string) {
    key in {"$defs", "definitions", "properties", "patternProperties", "dependentSchemas", "dependencies"}
  }

  predicate HoldsSchema(key: string) {
    key in {
      "additionalProperties", "additionalItems", "unevaluatedProperties", "unevaluatedItems", "items", "contains",
      "propertyNames", "if", "then", "else", "not", "contentSchema", "allOf", "anyOf", "oneOf", "prefixItems"}
  }

  function MemberRole(key: string): Role {
    if key == "pattern" then AsPattern
    else if HoldsNames(key) then AsNames
    else if HoldsSchema(key) then AsSchema
    else AsData
  }

  function RoleIn(role: Role, step: Into): Role {
    match (role, step)
    case (AsSchema, Item(_)) => AsSchema
    case (AsSchema, Member(key)) => MemberRole(key)
    case (AsNames, Member(_)) => AsSchema
    case _ => AsData
  }

  function RoleAt(role: Role, path: seq<Into>): Role
    decreases |path|
  {
    if path == [] then role else RoleAt(RoleIn(role, path[0]), path[1..])
  }

  function TranslateAs(f: string -> string, role: Role, v: Value): Value {
    match role
    case AsSchema => TranslateSchema(f, v)
    case AsNames => if v.Obj? then Obj(map name | name in v.fields :: TranslateSchema(f, v.fields[name])) else v
    case AsPattern => if v.Str? then Str(f(v.s)) else v
    case AsData => v
  }

  lemma KeysHold(key: string)
    ensures HoldsNames(key) <==> key in MAP_KEYS
    ensures HoldsSchema(key) <==> key in SCHEMA_KEYS
  {
  }

  lemma NoStrayKey(key: string)
    ensures HoldsNames(key) ==> key != "pattern" && !HoldsSchema(key)
    ensures HoldsSchema(key) ==> key != "pattern"
  {
  }

  lemma MemberTranslated(f: string -> string, key: string, v: Value)
    ensures TranslateMember(f, key, v) == TranslateAs(f, MemberRole(key), v)
  {
    hide HoldsNames, HoldsSchema, TranslateSchema;
    KeysHold(key);
    NoStrayKey(key);
  }

  lemma TranslatedInto(f: string -> string, role: Role, v: Value, step: Into)
    ensures var was, now := At(v, [step]), At(TranslateAs(f, role, v), [step]);
            now == if was.None? then None else Some(TranslateAs(f, RoleIn(role, step), was.value))
  {
    hide MemberRole, TranslateMember;
    assert [step][1..] == [];
    if role == AsSchema && step.Member? && v.Obj? && step.key in v.fields {
      MemberTranslated(f, step.key, v.fields[step.key]);
    }
  }

  lemma {:induction false} PlaceRewritten(f: string -> string, role: Role, v: Value, path: seq<Into>)
    ensures Rewritten(f, RoleAt(role, path).AsPattern?, At(v, path), At(TranslateAs(f, role, v), path))
    decreases |path|
  {
    hide RoleIn;
    if path == [] {
      assert Rewritten(f, role.AsPattern?, Some(v), Some(TranslateAs(f, role, v)));
    } else {
      hide TranslateAs;
      TranslatedInto(f, role, v, path[0]);
      AtStep(v, path);
      AtStep(TranslateAs(f, role, v), path);
      var next := At(v, [path[0]]);
      if next.Some? {
        PlaceRewritten(f, RoleIn(role, path[0]), next.value, path[1..]);
      }
    }
  }

  /** Place by place: every pattern is translated, and everything else stays as it is. */
  lemma EveryPlace(f: string -> string, v: Value, path: seq<Into>)
    ensures Rewritten(f, RoleAt(AsSchema, path).AsPattern?, At(v, path), At(TranslateSchema(f, v), path))
  {
    PlaceRewritten(f, AsSchema, v, path);
  }
}
