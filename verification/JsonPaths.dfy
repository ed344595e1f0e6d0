/** Places in a JSON document, named by the steps that lead to them. */
module JsonPaths {
  import opened Common
  import opened Json

  /** One step into a document. */
  datatype Into = Item(i: nat) | Member(key: string)

  /** What stands at the end of a path. */
  function At(v: Value, path: seq<Into>): Option<Value>
    decreases |path|
  {
    if path == [] then Some(v)
    else
      match path[0]
      case Item(i) => if v.Arr? && i < |v.items| then At(v.items[i], path[1..]) else None
      case Member(key) => if v.Obj? && key in v.fields then At(v.fields[key], path[1..]) else None
  }

  lemma {:induction false} AtStep(v: Value, path: seq<Into>)
    requires path != []
    ensures At(v, path) == match At(v, [path[0]]) case None => None case Some(next) => At(next, path[1..])
  {
  }

  /** What a place holds after a rewriting: where texts are rewritten (`here`) the rewritten text, any
      other text, number or literal itself, and a list or a dictionary one with as many items or with
      the same keys. */
  predicate Rewritten(f: string -> string, here: bool, was: Option<Value>, now: Option<Value>) {
    match was
    case None => now.None?
    case Some(Str(s)) => now == Some(Str(if here then f(s) else s))
    case Some(Arr(items)) => now.Some? && now.value.Arr? && |now.value.items| == |items|
    case Some(Obj(fields)) => now.Some? && now.value.Obj? && now.value.fields.Keys == fields.Keys
    case _ => now == was
  }
}
