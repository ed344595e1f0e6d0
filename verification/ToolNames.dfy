/** The reversible codec for tool names.  The digest is a function parameter: sixteen hexadecimal
    digits taken from a hash of its argument, about which nothing else is assumed except, where
    stated, that some attempt gives an alias that is not taken yet. */
module ToolNames {
  import opened Sorting

  const MAX_LENGTH := 64
  const DIGEST_LENGTH := 16
  const MAX_READABLE := MAX_LENGTH - DIGEST_LENGTH - 1

  predicate PortableChar(c: char) {
    'A' <= c <= 'Z' || 'a' <= c <= 'z' || '0' <= c <= '9' || c == '_' || c == '-'
  }

  predicate AllPortable(s: string) { forall i :: 0 <= i < |s| ==> PortableChar(s[i]) }

  /** What an OpenAI-compatible provider accepts as a tool name. */
  predicate Portable(s: string) { 1 <= |s| <= MAX_LENGTH && AllPortable(s) }

  // ----- one alias

  /** Every maximal run of other characters becomes one underscore. */
  function Substituted(s: string, n: nat): string
    requires n <= |s|
  {
    if n == 0 then ""
    else if PortableChar(s[n - 1]) then Substituted(s, n - 1) + [s[n - 1]]
    else if n >= 2 && !PortableChar(s[n - 2]) then Substituted(s, n - 1)
    else Substituted(s, n - 1) + "_"
  }

  predicate Edge(c: char) { c == '_' || c == '-' }

  function StripLeft(s: string): string {
    if s != "" && Edge(s[0]) then StripLeft(s[1..]) else s
  }

  function StripRight(s: string): string {
    if s != "" && Edge(s[|s| - 1]) then StripRight(s[..|s| - 1]) else s
  }

  function OrTool(s: string): string { if s == "" then "tool" else s }

  function Trimmed(name: string): string { OrTool(StripRight(StripLeft(Substituted(name, |name|)))) }

  function Cut(s: string): string {
    OrTool(StripRight(if |s| <= MAX_READABLE then s else s[..MAX_READABLE]))
  }

  function Readable(name: string): string { Cut(Trimmed(name)) }

  function Decimal(n: nat): string {
    if n < 10 then ["0123456789"[n]] else Decimal(n / 10) + ["0123456789"[n % 10]]
  }

  /** What is hashed for the given attempt. */
  function DigestInput(name: string, attempt: nat): string {
    if attempt == 0 then name else name + ['\U{0000}'] + Decimal(attempt)
  }

  ghost predicate IsDigest(digest: string -> string) {
    forall s :: |digest(s)| == DIGEST_LENGTH && AllPortable(digest(s))
  }

  function Alias(digest: string -> string, name: string, attempt: nat): string {
    Readable(name) + "_" + digest(DigestInput(name, attempt))
  }

  predicate Free(digest: string -> string, name: string, reserved: set<string>, attempt: nat) {
    Alias(digest, name, attempt) !in reserved
  }

  /** Some attempt is fresh whenever fewer than `bound` names are taken. */
  ghost predicate Roomy(digest: string -> string, bound: nat) {
    forall name: string, reserved: set<string> :: |reserved| < bound ==> HasFree(digest, name, reserved)
  }

  ghost predicate HasFree(digest: string -> string, name: string, reserved: set<string>) {
    exists attempt: nat :: Free(digest, name, reserved, attempt)
  }

  ghost predicate IsFirstFree(digest: string -> string, name: string, reserved: set<string>, attempt: nat) {
    Free(digest, name, reserved, attempt) && forall a: nat :: a < attempt ==> !Free(digest, name, reserved, a)
  }

  lemma {:induction false} FirstFreeExists(digest: string -> string, name: string, reserved: set<string>, n: nat)
    returns (attempt: nat)
    requires Free(digest, name, reserved, n)
    ensures IsFirstFree(digest, name, reserved, attempt)
    decreases n
  {
    if a: nat :| a < n && Free(digest, name, reserved, a) {
      attempt := FirstFreeExists(digest, name, reserved, a);
    } else {
      attempt := n;
    }
  }

  /** The alias of the first free attempt. */
  ghost function AliasFor(digest: string -> string): (string, set<string>) -> string {
    (name: string, reserved: set<string>) =>
      if a: nat :| IsFirstFree(digest, name, reserved, a) then Alias(digest, name, a) else ""
  }

  /** What the codec needs to know about the way aliases are found. */
  ghost predicate Picks(pick: (string, set<string>) -> string, bound: nat) {
    forall name: string, reserved: set<string> :: |reserved| < bound ==>
      pick(name, reserved) !in reserved && Portable(pick(name, reserved))
  }

  lemma {:induction false} SubstitutedIsPortable(s: string, n: nat)
    requires n <= |s|
    ensures AllPortable(Substituted(s, n))
  {
    if n > 0 {
      SubstitutedIsPortable(s, n - 1);
    }
  }

  lemma {:induction false} StripKeepsPortable(s: string)
    requires AllPortable(s)
    ensures AllPortable(StripLeft(s)) && AllPortable(StripRight(s)) && |StripLeft(s)| <= |s| && |StripRight(s)| <= |s|
    decreases |s|
  {
    if s != "" {
      StripKeepsPortable(s[1..]);
      StripKeepsPortable(s[..|s| - 1]);
    }
  }

  lemma TrimmedIsPortable(name: string)
    ensures Trimmed(name) != "" && AllPortable(Trimmed(name))
  {
    SubstitutedIsPortable(name, |name|);
    StripKeepsPortable(Substituted(name, |name|));
    StripKeepsPortable(StripLeft(Substituted(name, |name|)));
  }

  lemma CutIsPortable(s: string)
    requires AllPortable(s)
    ensures 1 <= |Cut(s)| <= MAX_READABLE && AllPortable(Cut(s))
  {
    StripKeepsPortable(if |s| <= MAX_READABLE then s else s[..MAX_READABLE]);
  }

  lemma ReadableIsPortable(name: string)
    ensures 1 <= |Readable(name)| <= MAX_READABLE && AllPortable(Readable(name))
  {
    TrimmedIsPortable(name);
    CutIsPortable(Trimmed(name));
  }

  /** Every alias is a name the provider accepts: at most 47 readable characters, an underscore
      and 16 digits. */
  lemma AliasIsPortable(digest: string -> string, name: string, attempt: nat)
    requires IsDigest(digest)
    ensures Portable(Alias(digest, name, attempt))
  {
    ReadableIsPortable(name);
  }

  lemma AliasForPicks(digest: string -> string, bound: nat)
    requires IsDigest(digest) && Roomy(digest, bound)
    ensures Picks(AliasFor(digest), bound)
  {
    var pick := AliasFor(digest);
    forall name: string, reserved: set<string> | |reserved| < bound
      ensures pick(name, reserved) !in reserved && Portable(pick(name, reserved))
    {
      PickedIsFree(digest, name, reserved);
    }
  }

  lemma PickedIsFree(digest: string -> string, name: string, reserved: set<string>)
    requires IsDigest(digest) && HasFree(digest, name, reserved)
    ensures var r := AliasFor(digest)(name, reserved); r !in reserved && Portable(r)
  {
    var n: nat :| Free(digest, name, reserved, n);
    var first := FirstFreeExists(digest, name, reserved, n);
    var a: nat :| IsFirstFree(digest, name, reserved, a) && AliasFor(digest)(name, reserved) == Alias(digest, name, a);
    AliasIsPortable(digest, name, a);
  }

  lemma SameFirstFree(digest: string -> string, name: string, reserved: set<string>, a: nat, b: nat)
    requires IsFirstFree(digest, name, reserved, a) && IsFirstFree(digest, name, reserved, b)
    ensures a == b
  {
  }

  lemma FirstFreeUnique(digest: string -> string, name: string, reserved: set<string>, attempt: nat)
    requires IsFirstFree(digest, name, reserved, attempt)
    ensures AliasFor(digest)(name, reserved) == Alias(digest, name, attempt)
  {
    var a: nat :| IsFirstFree(digest, name, reserved, a) && AliasFor(digest)(name, reserved) == Alias(digest, name, a);
    SameFirstFree(digest, name, reserved, a, attempt);
  }

  /** `pick` gives the alias of the first free attempt, if there is one. */
  ghost predicate FindsFirst(digest: string -> string, pick: (string, set<string>) -> string) {
    forall name, reserved, attempt: nat :: IsFirstFree(digest, name, reserved, attempt) ==>
      pick(name, reserved) == Alias(digest, name, attempt)
  }

  lemma AliasForFindsFirst(digest: string -> string)
    ensures FindsFirst(digest, AliasFor(digest))
  {
    forall name, reserved, attempt: nat | IsFirstFree(digest, name, reserved, attempt)
      ensures AliasFor(digest)(name, reserved) == Alias(digest, name, attempt)
    {
      FirstFreeUnique(digest, name, reserved, attempt);
    }
  }

  /** The search loop. */
  method UniqueAlias(
      digest: string -> string, name: string, reserved: set<string>, ghost pick: (string, set<string>) -> string)
      returns (alias: string)
    requires HasFree(digest, name, reserved) && FindsFirst(digest, pick)
    ensures alias == pick(name, reserved)
  {
    ghost var last: nat :| Free(digest, name, reserved, last);
    var attempt: nat := 0;
    while true
      invariant attempt <= last
      invariant forall a: nat :: a < attempt ==> !Free(digest, name, reserved, a)
      decreases last - attempt
    {
      alias := Alias(digest, name, attempt);
      if alias !in reserved {
        assert IsFirstFree(digest, name, reserved, attempt);
        return;
      }
      assert !Free(digest, name, reserved, attempt);
      attempt := attempt + 1;
    }
  }

  // ----- the order of the names

  ghost predicate Lists(list: seq<string>, names: set<string>) {
    && Sorted(list, Codes) && (forall x :: x in list <==> x in names)
    && forall i, j :: 0 <= i < j < |list| ==> list[i] != list[j]
  }

  lemma CodesInjective(a: string, b: string)
    requires Codes(a) == Codes(b)
    ensures a == b
  {
    assert |a| == |Codes(a)| == |b|;
    forall i | 0 <= i < |a| ensures a[i] == b[i] {
      assert Codes(a)[i] == Codes(b)[i];
    }
  }

  lemma {:induction false} ListLength(list: seq<string>, names: set<string>)
    requires Lists(list, names)
    ensures |list| == |names|
    decreases |list|
  {
    if list == [] {
      assert forall x :: x !in names;
    } else {
      assert list[0] in list;
      ListTail(list, names);
      ListLength(list[1..], names - {list[0]});
    }
  }

  /** A set of names has one sorted list. */
  lemma {:induction false} ListUnique(a: seq<string>, b: seq<string>, names: set<string>)
    requires Lists(a, names) && Lists(b, names)
    ensures a == b
    decreases |a|
  {
    if a == [] {
      ListLength(a, names);
      ListLength(b, names);
    } else {
      assert a[0] in a;
      SmallestFirst(a, b, names);
      ListTail(a, names);
      ListTail(b, names);
      ListUnique(a[1..], b[1..], names - {a[0]});
      assert a == [a[0]] + a[1..] && b == [b[0]] + b[1..];
    }
  }

  lemma SmallestFirst(a: seq<string>, b: seq<string>, names: set<string>)
    requires Lists(a, names) && Lists(b, names) && a != []
    ensures b != [] && a[0] == b[0]
  {
    assert a[0] in b;
    assert b[0] in a;
    var i :| 0 <= i < |b| && b[i] == a[0];
    var j :| 0 <= j < |a| && a[j] == b[0];
    if i > 0 && j > 0 {
      KeysAntisymmetric(Codes(a[0]), Codes(b[0]));
      CodesInjective(a[0], b[0]);
    }
  }

  lemma ListTail(a: seq<string>, names: set<string>)
    requires Lists(a, names) && a != []
    ensures Lists(a[1..], names - {a[0]})
  {
    forall x ensures x in a[1..] <==> x in names - {a[0]} {
      assert a == [a[0]] + a[1..];
    }
  }

  lemma {:induction false} Enumerated(names: set<string>) returns (list: seq<string>)
    ensures forall x :: x in list <==> x in names
    ensures forall i, j :: 0 <= i < j < |list| ==> list[i] != list[j]
    ensures |list| == |names|
  {
    if names == {} {
      list := [];
    } else {
      var x :| x in names;
      var rest := Enumerated(names - {x});
      list := rest + [x];
    }
  }

  lemma SortedLists(list: seq<string>, names: set<string>)
    requires forall x :: x in list <==> x in names
    requires forall i, j :: 0 <= i < j < |list| ==> list[i] != list[j]
    ensures Lists(Sort(list, Codes), names) && |Sort(list, Codes)| == |list|
  {
    var s := Sort(list, Codes);
    SortSorts(list, Codes);
    assert |multiset(s)| == |multiset(list)|;
    forall x ensures x in s <==> x in names {
      assert x in s <==> x in multiset(s);
      assert x in list <==> x in multiset(list);
    }
    forall i, j | 0 <= i < j < |s| ensures s[i] != s[j] {
      if s[i] == s[j] {
        TwiceInMultiset(s, i, j);
        OnceInMultiset(list, s[i]);
      }
    }
  }

  lemma TwiceInMultiset(s: seq<string>, i: nat, j: nat)
    requires i < j < |s| && s[i] == s[j]
    ensures multiset(s)[s[i]] >= 2
  {
    assert s == s[..i] + [s[i]] + s[i + 1..j] + [s[j]] + s[j + 1..];
  }

  lemma {:induction false} OnceInMultiset(s: seq<string>, x: string)
    requires forall i, j :: 0 <= i < j < |s| ==> s[i] != s[j]
    ensures multiset(s)[x] <= 1
  {
    if s != [] {
      OnceInMultiset(s[1..], x);
      assert s == [s[0]] + s[1..];
      assert s[0] !in s[1..];
    }
  }

  lemma ListExists(names: set<string>)
    ensures exists list :: Lists(list, names) && |list| == |names|
  {
    var list := Enumerated(names);
    SortedLists(list, names);
  }

  /** Python's `sorted(names)`. */
  ghost function Listing(names: set<string>): (list: seq<string>)
    ensures Lists(list, names) && |list| == |names|
  {
    ListExists(names);
    var list: seq<string> :| Lists(list, names) && |list| == |names|;
    list
  }

  ghost predicate Enumerates(list: seq<string>, names: set<string>) {
    (forall x :: x in list <==> x in names) && forall i, j :: 0 <= i < j < |list| ==> list[i] != list[j]
  }

  lemma EnumeratesMore(list: seq<string>, names: set<string>, x: string)
    requires Enumerates(list, names) && x !in names
    ensures Enumerates(list + [x], names + {x})
  {
  }

  method SortNames(names: set<string>) returns (list: seq<string>)
    ensures list == Listing(names)
  {
    var rest := names;
    var found: seq<string> := [];
    while rest != {}
      invariant rest <= names && Enumerates(found, names - rest)
      decreases |rest|
    {
      var x :| x in rest;
      EnumeratesMore(found, names - rest, x);
      rest := rest - {x};
      found := found + [x];
      assert names - rest == names - (rest + {x}) + {x};
    }
    assert names - rest == names;
    list := Sort(found, Codes);
    SortedLists(found, names);
    ListUnique(list, Listing(names), names);
  }
}
