/** Values shared by several components: options, bytes, JSON documents and the failure
    record that routing decisions are taken on. */
module Common {

  datatype Option<+T> = None | Some(value: T)

  function Min(a: int, b: int): int { if a < b then a else b }

  function Max(a: int, b: int): int { if a < b then b else a }

  predicate StartsWith(s: string, prefix: string) { prefix <= s }

  /** `part in s`. */
  predicate Contains(s: string, part: string) {
    exists i :: 0 <= i <= |s| && StartsWith(s[i..], part)
  }

  ghost predicate NoDuplicates<T>(s: seq<T>) { forall i, j :: 0 <= i < j < |s| ==> s[i] != s[j] }

  ghost predicate NonDecreasing(s: seq<real>) { forall i, j :: 0 <= i < j < |s| ==> s[i] <= s[j] }

  type Byte = x: int | 0 <= x < 256
  type Bytes = seq<Byte>

  /** The concatenation of a list of chunks, in order. */
  function Flatten<T>(parts: seq<seq<T>>): seq<T> {
    if parts == [] then [] else parts[0] + Flatten(parts[1..])
  }

  lemma Associative<T>(a: seq<T>, b: seq<T>, c: seq<T>)
    ensures (a + b) + c == a + (b + c)
  {
  }

  /** What every element becomes, in order. */
  function FlatMap<A, B>(f: A -> seq<B>, s: seq<A>): seq<B> {
    if s == [] then [] else f(s[0]) + FlatMap(f, s[1..])
  }

  lemma {:induction false} FlatMapAppend<A, B>(f: A -> seq<B>, a: seq<A>, b: seq<A>)
    ensures FlatMap(f, a + b) == FlatMap(f, a) + FlatMap(f, b)
  {
    if a == [] {
      assert a + b == b;
    } else {
      FlatMapAppend(f, a[1..], b);
      assert (a + b)[0] == a[0] && (a + b)[1..] == a[1..] + b;
      Associative(f(a[0]), FlatMap(f, a[1..]), FlatMap(f, b));
    }
  }

  lemma FlatMapCons<A, B>(f: A -> seq<B>, x: A, s: seq<A>)
    ensures FlatMap(f, [x] + s) == f(x) + FlatMap(f, s)
  {
    assert ([x] + s)[1..] == s;
  }

  lemma {:induction false} FlattenAppend<T>(a: seq<seq<T>>, b: seq<seq<T>>)
    ensures Flatten(a + b) == Flatten(a) + Flatten(b)
  {
    if a == [] {
      assert a + b == b;
    } else {
      FlattenAppend(a[1..], b);
      assert (a + b)[0] == a[0] && (a + b)[1..] == a[1..] + b;
      Associative(a[0], Flatten(a[1..]), Flatten(b));
    }
  }

  lemma FlattenSnoc<T>(a: seq<seq<T>>, last: seq<T>)
    ensures Flatten(a + [last]) == Flatten(a) + last
  {
    FlattenAppend(a, [last]);
    assert Flatten([last]) == last + Flatten<T>([]);
  }
}

module Json {
  import opened Common

  /** A decoded JSON document.  Object members are a map: no modelled code depends on the
      order of a decoded object's keys. */
  datatype Value =
    | Null
    | Bool(b: bool)
    | Num(n: real)
    | Str(s: string)
    | Arr(items: seq<Value>)
    | Obj(fields: map<string, Value>)

  /** `mapping.get(key)`: a missing key and an explicit null are both None there. */
  function Get(fields: map<string, Value>, key: string): Value {
    if key in fields then fields[key] else Null
  }

  predicate Truthy(v: Value) {
    match v
    case Null => false
    case Bool(b) => b
    case Num(n) => n != 0.0
    case Str(s) => s != ""
    case Arr(items) => items != []
    case Obj(fields) => fields.Keys != {}
  }

  /** Lists and dictionaries cannot be looked up in a Python set: that raises TypeError. */
  predicate Unhashable(v: Value) { v.Arr? || v.Obj? }

  predicate IsStr(v: Value, options: set<string>) { v.Str? && v.s in options }
}

module Failures {
  import opened Common

  datatype FailureKind = InvalidRequest | ContextWindowExceeded | Authentication | Permission
                       | RateLimit | Overloaded | Timeout | Upstream | Unavailable

  datatype BillingLimit = RequestBudget | KeyLimit | InFlightBudget

  datatype Failure = Failure(
    kind: FailureKind,
    status: int,
    message: string,
    retryAfter: Option<real>,
    accessBlocked: bool,
    billingLimit: Option<BillingLimit>,
    recoverySafe: bool)

  /** An `ExecutionFailure` built with the fields' defaults. */
  function Plain(kind: FailureKind, status: int, message: string): Failure {
    Failure(kind, status, message, None, false, None, false)
  }

  /** The statuses after which a request that produced no output may be tried again. */
  predicate RecoverableStatus(status: int) { status in {402, 429, 502, 503, 504, 529} }
}
