/** The codec built for one request: names a provider would refuse are sent under an alias. */
module ToolNameCodec {
  import opened Common
  import opened ToolNames

  datatype Codec = Codec(
    originalToAlias: map<string, string>,
    aliasToOriginal: map<string, string>,
    unchangedNames: set<string>)

  function Encode(c: Codec, name: string): string {
    if name in c.originalToAlias then c.originalToAlias[name] else name
  }

  function Decode(c: Codec, name: string): string {
    if name in c.aliasToOriginal then c.aliasToOriginal[name] else name
  }

  predicate IsAlias(c: Codec, value: string) { value in c.aliasToOriginal }

  /** The non-empty names of a request. */
  function UniqueNames(names: seq<string>): set<string> { set n | n in names && n != "" }

  function PortableNames(unique: set<string>): set<string> { set n | n in unique && Portable(n) }

  type Pick = (string, set<string>) -> string

  function Taken(portable: set<string>, aliases: seq<string>): set<string> {
    portable + set a | a in aliases
  }

  /** The aliases of the first `n` names of the list, each chosen with the earlier ones taken. */
  function Aliases(pick: Pick, portable: set<string>, list: seq<string>, n: nat): seq<string>
    requires n <= |list|
  {
    if n == 0 then []
    else
      var before := Aliases(pick, portable, list, n - 1);
      before + [pick(list[n - 1], Taken(portable, before))]
  }

  function Pairs(keys: seq<string>, values: seq<string>, n: nat): map<string, string>
    requires n <= |keys| && n <= |values|
  {
    if n == 0 then map[] else Pairs(keys, values, n - 1)[keys[n - 1] := values[n - 1]]
  }

  /** The codec for a set of names: it is a function of the set, whatever order or repetition the
      request gave the names in. */
  ghost function CodecFor(pick: Pick, names: set<string>): Codec {
    var portable := PortableNames(names);
    var list := Listing(names - portable);
    var aliases := Aliases(pick, portable, list, |list|);
    AliasesLength(pick, portable, list, |list|);
    Codec(Pairs(list, aliases, |list|), Pairs(aliases, list, |list|), portable)
  }

  lemma {:induction false} AliasesLength(pick: Pick, portable: set<string>, list: seq<string>, n: nat)
    requires n <= |list|
    ensures |Aliases(pick, portable, list, n)| == n
  {
    if n > 0 {
      AliasesLength(pick, portable, list, n - 1);
    }
  }

  // ----- what makes a codec reversible

  /** Every name that is not portable has an alias that is portable, is no name of the request
      and leads back to it. */
  ghost predicate AliasesLead(there: map<string, string>, back: map<string, string>, names: set<string>) {
    && (forall x :: x in there <==> x in names && !Portable(x))
    && forall x :: x in there ==>
         Portable(there[x]) && there[x] !in names && there[x] in back && back[there[x]] == x
  }

  ghost predicate LeadBack(there: map<string, string>, back: map<string, string>) {
    forall a :: a in back ==> back[a] in there && there[back[a]] == a
  }

  /** Aliases and the names they stand for match one to one; no alias is a name of the request. */
  ghost predicate Sound(c: Codec, names: set<string>) {
    && c.unchangedNames == PortableNames(names)
    && AliasesLead(c.originalToAlias, c.aliasToOriginal, names)
    && LeadBack(c.originalToAlias, c.aliasToOriginal)
  }

  lemma {:induction false} SetOfSeq(s: seq<string>)
    ensures |set a | a in s| <= |s|
  {
    if s != [] {
      SetOfSeq(s[1..]);
      assert (set a | a in s) == {s[0]} + set a | a in s[1..];
    }
  }

  ghost predicate Fresh(aliases: seq<string>, portable: set<string>) {
    NoDuplicates(aliases) && forall a :: a in aliases ==> Portable(a) && a !in portable
  }

  lemma TakenSize(portable: set<string>, aliases: seq<string>)
    ensures |Taken(portable, aliases)| <= |portable| + |aliases|
  {
    SetOfSeq(aliases);
  }

  lemma FreshStep(aliases: seq<string>, portable: set<string>, alias: string)
    requires Fresh(aliases, portable) && alias !in Taken(portable, aliases) && Portable(alias)
    ensures Fresh(aliases + [alias], portable)
  {
  }

  lemma PickIsFree(pick: Pick, bound: nat, name: string, taken: set<string>)
    requires Picks(pick, bound) && |taken| < bound
    ensures pick(name, taken) !in taken && Portable(pick(name, taken))
  {
  }

  lemma {:induction false} AliasesFresh(pick: Pick, portable: set<string>, list: seq<string>, n: nat, bound: nat)
    requires n <= |list| && |portable| + n <= bound && Picks(pick, bound)
    ensures Fresh(Aliases(pick, portable, list, n), portable) && |Aliases(pick, portable, list, n)| == n
  {
    if n > 0 {
      AliasesFresh(pick, portable, list, n - 1, bound);
      var before := Aliases(pick, portable, list, n - 1);
      var taken := Taken(portable, before);
      TakenSize(portable, before);
      PickIsFree(pick, bound, list[n - 1], taken);
      FreshStep(before, portable, pick(list[n - 1], taken));
    }
  }

  lemma {:induction false} PairsAt(keys: seq<string>, values: seq<string>, n: nat, i: nat)
    requires i < n <= |keys| && n <= |values| && NoDuplicates(keys)
    ensures keys[i] in Pairs(keys, values, n) && Pairs(keys, values, n)[keys[i]] == values[i]
  {
    if i < n - 1 {
      PairsAt(keys, values, n - 1, i);
    }
  }

  lemma {:induction false} PairsFrom(keys: seq<string>, values: seq<string>, n: nat, x: string) returns (i: nat)
    requires n <= |keys| && n <= |values| && x in Pairs(keys, values, n)
    ensures i < n && keys[i] == x
  {
    if x == keys[n - 1] {
      i := n - 1;
    } else {
      i := PairsFrom(keys, values, n - 1, x);
    }
  }

  lemma CodecIsSound(pick: Pick, names: set<string>)
    requires Picks(pick, |names|)
    ensures Sound(CodecFor(pick, names), names)
  {
    var portable := PortableNames(names);
    var list := Listing(names - portable);
    var aliases := Aliases(pick, portable, list, |list|);
    assert names == portable + (names - portable);
    AliasesFresh(pick, portable, list, |list|, |names|);
    Leading(list, aliases, names);
    LeadingBack(list, aliases);
  }

  lemma LeadingBack(list: seq<string>, aliases: seq<string>)
    requires |aliases| == |list| && NoDuplicates(list) && NoDuplicates(aliases)
    ensures LeadBack(Pairs(list, aliases, |list|), Pairs(aliases, list, |list|))
  {
    var there, back := Pairs(list, aliases, |list|), Pairs(aliases, list, |list|);
    forall a | a in back ensures back[a] in there && there[back[a]] == a {
      var i := PairsFrom(aliases, list, |list|, a);
      PairsAt(aliases, list, |list|, i);
      PairsAt(list, aliases, |list|, i);
    }
  }

  lemma Leading(list: seq<string>, aliases: seq<string>, names: set<string>)
    requires |aliases| == |list| && Lists(list, names - PortableNames(names)) && Fresh(aliases, PortableNames(names))
    ensures AliasesLead(Pairs(list, aliases, |list|), Pairs(aliases, list, |list|), names)
  {
    var there, back := Pairs(list, aliases, |list|), Pairs(aliases, list, |list|);
    forall x | x in there
      ensures x in names && !Portable(x) && Portable(there[x]) && there[x] !in names
      ensures there[x] in back && back[there[x]] == x
    {
      var i := PairsFrom(list, aliases, |list|, x);
      PairsAt(list, aliases, |list|, i);
      PairsAt(aliases, list, |list|, i);
      assert list[i] in list && aliases[i] in aliases;
    }
    forall x | x in names && !Portable(x) ensures x in there {
      assert x in list;
      var i :| 0 <= i < |list| && list[i] == x;
      PairsAt(list, aliases, |list|, i);
    }
  }

  // ----- what the codec promises

  /** Every name of the request comes back, goes out in a form providers accept, and is not
      encoded twice. */
  lemma NamesSurvive(c: Codec, names: set<string>, name: string)
    requires Sound(c, names) && name in names
    ensures Decode(c, Encode(c, name)) == name
    ensures Portable(Encode(c, name))
    ensures Encode(c, Encode(c, name)) == Encode(c, name)
    ensures IsAlias(c, Encode(c, name)) <==> !Portable(name)
  {
    if Portable(name) {
      PortableIsNoAlias(c, names, name);
    }
  }

  lemma PortableIsNoAlias(c: Codec, names: set<string>, name: string)
    requires Sound(c, names) && name in names
    ensures !IsAlias(c, name)
  {
    assert forall a :: a in c.aliasToOriginal ==> a !in names;
  }

  /** Different names of a request stay different on the wire. */
  lemma EncodeInjective(c: Codec, names: set<string>, x: string, y: string)
    requires Sound(c, names) && x in names && y in names && Encode(c, x) == Encode(c, y)
    ensures x == y
  {
    NamesSurvive(c, names, x);
    NamesSurvive(c, names, y);
  }

  /** Any other text comes back unless it happens to be an alias of this request. */
  lemma ComesBackExactly(c: Codec, names: set<string>, x: string)
    requires Sound(c, names)
    ensures Decode(c, Encode(c, x)) == x <==> x in names || !IsAlias(c, x)
  {
    if x in names {
      NamesSurvive(c, names, x);
    } else if IsAlias(c, x) {
      assert Portable(x) by {
        assert c.originalToAlias[c.aliasToOriginal[x]] == x;
      }
    }
  }

  /** A request with the one name "a b": text that spells its alias comes back as the name. */
  lemma AliasDoesNotComeBack(digest: string -> string)
    requires IsDigest(digest) && Roomy(digest, 1)
    ensures var c := CodecFor(AliasFor(digest), {"a b"});
            var alias := Encode(c, "a b");
            Decode(c, Encode(c, alias)) == "a b" != alias
  {
    var c := CodecFor(AliasFor(digest), {"a b"});
    assert !PortableChar("a b"[1]);
    AliasForPicks(digest, 1);
    CodecIsSound(AliasFor(digest), {"a b"});
    NamesSurvive(c, {"a b"}, "a b");
    ComesBackExactly(c, {"a b"}, Encode(c, "a b"));
  }

  // ----- building it

  method FromNames(digest: string -> string, names: seq<string>) returns (c: Codec)
    requires IsDigest(digest) && Roomy(digest, |UniqueNames(names)|)
    ensures c == CodecFor(AliasFor(digest), set n | n in names && n != "")
    ensures Sound(c, set n | n in names && n != "")
  {
    var unique := UniqueNames(names);
    var portable := PortableNames(unique);
    var list := SortNames(unique - portable);
    assert unique == portable + (unique - portable);
    AliasForPicks(digest, |unique|);
    CodecIsSound(AliasFor(digest), unique);
    ghost var aliases;
    var there, back;
    AliasForFindsFirst(digest);
    there, back, aliases := AssignAliases(digest, portable, list, AliasFor(digest));
    c := Codec(there, back, portable);
  }

  /** The names of the list before `n` have got their aliases. */
  ghost predicate Assigned(
    pick: Pick, portable: set<string>, list: seq<string>, n: nat, aliases: seq<string>,
    reserved: set<string>, there: map<string, string>, back: map<string, string>)
  {
    && n <= |list| && |aliases| == n && aliases == Aliases(pick, portable, list, n)
    && reserved == Taken(portable, aliases)
    && there == Pairs(list, aliases, n) && back == Pairs(aliases, list, n)
  }

  lemma AssignOne(
      pick: Pick, portable: set<string>, list: seq<string>, n: nat, aliases: seq<string>,
      reserved: set<string>, there: map<string, string>, back: map<string, string>, alias: string)
    requires n < |list| && Assigned(pick, portable, list, n, aliases, reserved, there, back)
    requires alias == pick(list[n], reserved)
    ensures Assigned(pick, portable, list, n + 1, aliases + [alias], reserved + {alias},
                     there[list[n] := alias], back[alias := list[n]])
  {
    PairsGrow(list, aliases, alias, n);
    TakenGrows(portable, aliases, alias);
  }

  /** The loop over the sorted names. */
  method AssignAliases(digest: string -> string, portable: set<string>, list: seq<string>, ghost pick: Pick)
      returns (there: map<string, string>, back: map<string, string>, ghost aliases: seq<string>)
    requires Roomy(digest, |portable| + |list|) && FindsFirst(digest, pick)
    ensures aliases == Aliases(pick, portable, list, |list|) && |aliases| == |list|
    ensures there == Pairs(list, aliases, |list|) && back == Pairs(aliases, list, |list|)
  {
    var reserved := portable;
    there, back, aliases := map[], map[], [];
    for i := 0 to |list|
      invariant Assigned(pick, portable, list, i, aliases, reserved, there, back)
    {
      var alias := NextAlias(digest, portable, list, i, reserved, there, back, pick, aliases);
      reserved := reserved + {alias};
      there := there[list[i] := alias];
      back := back[alias := list[i]];
      aliases := aliases + [alias];
    }
  }

  method NextAlias(
      digest: string -> string, portable: set<string>, list: seq<string>, i: nat, reserved: set<string>,
      there: map<string, string>, back: map<string, string>, ghost pick: Pick, ghost aliases: seq<string>)
      returns (alias: string)
    requires i < |list| && Assigned(pick, portable, list, i, aliases, reserved, there, back)
    requires Roomy(digest, |portable| + |list|) && FindsFirst(digest, pick)
    ensures Assigned(pick, portable, list, i + 1, aliases + [alias], reserved + {alias},
                     there[list[i] := alias], back[alias := list[i]])
  {
    TakenSize(portable, aliases);
    RoomFor(digest, |portable| + |list|, list[i], reserved);
    alias := UniqueAlias(digest, list[i], reserved, pick);
    AssignOne(pick, portable, list, i, aliases, reserved, there, back, alias);
  }

  lemma RoomFor(digest: string -> string, bound: nat, name: string, reserved: set<string>)
    requires Roomy(digest, bound) && |reserved| < bound
    ensures HasFree(digest, name, reserved)
  {
  }

  lemma TakenGrows(portable: set<string>, aliases: seq<string>, alias: string)
    ensures Taken(portable, aliases + [alias]) == Taken(portable, aliases) + {alias}
  {
  }

  lemma PairsGrow(list: seq<string>, aliases: seq<string>, alias: string, n: nat)
    requires n < |list| && n == |aliases|
    ensures Pairs(list, aliases + [alias], n + 1) == Pairs(list, aliases, n)[list[n] := alias]
    ensures Pairs(aliases + [alias], list, n + 1) == Pairs(aliases, list, n)[alias := list[n]]
  {
    PairsPrefix(list, aliases, list, aliases + [alias], n);
    PairsPrefix(aliases, list, aliases + [alias], list, n);
  }

  lemma {:induction false} PairsPrefix(k1: seq<string>, v1: seq<string>, k2: seq<string>, v2: seq<string>, n: nat)
    requires n <= |k1| && n <= |v1| && n <= |k2| && n <= |v2|
    requires forall i :: 0 <= i < n ==> k1[i] == k2[i] && v1[i] == v2[i]
    ensures Pairs(k1, v1, n) == Pairs(k2, v2, n)
  {
    if n > 0 {
      PairsPrefix(k1, v1, k2, v2, n - 1);
    }
  }
}
