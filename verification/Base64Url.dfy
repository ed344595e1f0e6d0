/** Base64 with the URL-safe alphabet, section 5 of RFC 4648, as the standard library encodes it
    and strictly decodes it, and the removal and restoration of its padding. */
module Base64Url {
  import opened Common

  // ----- one group: up to three bytes, four characters

  /** The character of a six-bit value. */
  function Digit(v: int): char
    requires 0 <= v < 64
  {
    if v < 26 then ('A' as int + v) as char
    else if v < 52 then ('a' as int + (v - 26)) as char
    else if v < 62 then ('0' as int + (v - 52)) as char
    else if v == 62 then '-'
    else '_'
  }

  /** The value of a character.  The decoder maps '-' and '_' to the standard alphabet first, so
      it also accepts that alphabet's own '+' and '/'. */
  function Value(c: char): int {
    if 'A' <= c <= 'Z' then c as int - 'A' as int
    else if 'a' <= c <= 'z' then c as int - 'a' as int + 26
    else if '0' <= c <= '9' then c as int - '0' as int + 52
    else if c == '-' || c == '+' then 62
    else if c == '_' || c == '/' then 63
    else -1
  }

  type Six = v: int | 0 <= v < 64

  type Sextets = (Six, Six, Six, Six)

  /** Three bytes as four six-bit values, and back. */
  function Split(a: Byte, b: Byte, c: Byte): Sextets {
    (a / 4, a % 4 * 16 + b / 16, b % 16 * 4 + c / 64, c % 64)
  }

  function Joined(v: Sextets): (Byte, Byte, Byte) {
    (v.0 * 4 + v.1 / 16, v.1 % 16 * 16 + v.2 / 4, v.2 % 4 * 64 + v.3)
  }

  /** Six-bit values and their characters (-1 is read for any other character), and how three
      bytes become four such values. */
  datatype Alphabet = Alphabet(
    digit: Six -> char,
    value: char -> int,
    split: (Byte, Byte, Byte) -> Sextets,
    joined: Sextets -> (Byte, Byte, Byte))

  ghost predicate ReadsDigits(al: Alphabet) {
    forall v: Six :: al.value(al.digit(v)) == v && al.digit(v) != '='
  }

  /** Bytes come back, and absent bytes leave nothing in the values that are not written. */
  ghost predicate JoinsBack(al: Alphabet) {
    && (forall a: Byte, b: Byte, c: Byte :: al.joined(al.split(a, b, c)) == (a, b, c))
    && (forall a: Byte, b: Byte :: al.split(a, b, 0).3 == 0)
    && (forall a: Byte :: al.split(a, 0, 0).2 == 0)
  }

  function One(al: Alphabet, a: Byte): string {
    var v := al.split(a, 0, 0);
    [al.digit(v.0), al.digit(v.1), '=', '=']
  }

  function Two(al: Alphabet, a: Byte, b: Byte): string {
    var v := al.split(a, b, 0);
    [al.digit(v.0), al.digit(v.1), al.digit(v.2), '=']
  }

  function Three(al: Alphabet, a: Byte, b: Byte, c: Byte): string {
    var v := al.split(a, b, c);
    [al.digit(v.0), al.digit(v.1), al.digit(v.2), al.digit(v.3)]
  }

  predicate IsSix(v: int) { 0 <= v < 64 }

  function ReadGroup(al: Alphabet, text: string): Option<Bytes> {
    if |text| != 4 then None
    else
      var v0, v1, v2, v3 := al.value(text[0]), al.value(text[1]), al.value(text[2]), al.value(text[3]);
      if !IsSix(v0) || !IsSix(v1) || !IsSix(v2) || !IsSix(v3) then None
      else
        var bytes := al.joined((v0, v1, v2, v3));
        Some([bytes.0, bytes.1, bytes.2])
  }

  /** Only the last group may be padded. */
  function ReadLast(al: Alphabet, text: string): Option<Bytes> {
    if |text| != 4 || text[3] != '=' then ReadGroup(al, text)
    else
      var v0, v1, v2 := al.value(text[0]), al.value(text[1]), al.value(text[2]);
      if !IsSix(v0) || !IsSix(v1) then None
      else if text[2] == '=' then Some([al.joined((v0, v1, 0, 0)).0])
      else if !IsSix(v2) then None
      else
        var bytes := al.joined((v0, v1, v2, 0));
        Some([bytes.0, bytes.1])
  }

  function Url(): Alphabet {
    Alphabet(
      (v: Six) => Digit(v), (c: char) => Value(c),
      (a: Byte, b: Byte, c: Byte) => Split(a, b, c), (v: Sextets) => Joined(v))
  }

  lemma DigitReadsBack(v: Six)
    ensures Value(Digit(v)) == v && Digit(v) != '='
  {
  }

  lemma UrlReadsDigits()
    ensures ReadsDigits(Url())
  {
    forall v: Six ensures Url().value(Url().digit(v)) == v && Url().digit(v) != '=' {
      DigitReadsBack(v);
    }
  }

  lemma FirstJoins(a: Byte, b: Byte)
    ensures a / 4 * 4 + (a % 4 * 16 + b / 16) / 16 == a
  {
  }

  lemma SecondJoins(a: Byte, b: Byte, c: Byte)
    ensures (a % 4 * 16 + b / 16) % 16 * 16 + (b % 16 * 4 + c / 64) / 4 == b
  {
    assert (a % 4 * 16 + b / 16) % 16 == b / 16;
    assert (b % 16 * 4 + c / 64) / 4 == b % 16;
  }

  lemma ThirdJoins(b: Byte, c: Byte)
    ensures (b % 16 * 4 + c / 64) % 4 * 64 + c % 64 == c
  {
    assert (b % 16 * 4 + c / 64) % 4 == c / 64;
  }

  lemma JoinsTo(v: Sextets, a: Byte, b: Byte, c: Byte)
    requires v.0 * 4 + v.1 / 16 == a && v.1 % 16 * 16 + v.2 / 4 == b && v.2 % 4 * 64 + v.3 == c
    ensures Joined(v) == (a, b, c)
  {
  }

  lemma SplitJoins(a: Byte, b: Byte, c: Byte)
    ensures Joined(Split(a, b, c)) == (a, b, c)
  {
    FirstJoins(a, b);
    SecondJoins(a, b, c);
    ThirdJoins(b, c);
    JoinsTo(Split(a, b, c), a, b, c);
  }

  lemma AbsentLeavesNothing(a: Byte, b: Byte)
    ensures Split(a, b, 0).3 == 0 && Split(a, 0, 0).2 == 0
  {
  }

  lemma UrlJoinsBack()
    ensures JoinsBack(Url())
  {
    forall a: Byte, b: Byte, c: Byte ensures Url().joined(Url().split(a, b, c)) == (a, b, c) {
      SplitJoins(a, b, c);
    }
    forall a: Byte, b: Byte ensures Url().split(a, b, 0).3 == 0 && Url().split(a, 0, 0).2 == 0 {
      AbsentLeavesNothing(a, b);
    }
  }

  lemma OneReadsBack(al: Alphabet, a: Byte)
    requires ReadsDigits(al) && JoinsBack(al)
    ensures ReadLast(al, One(al, a)) == Some([a]) && '=' !in One(al, a)[..2] && One(al, a)[2..] == "=="
  {
    var v := al.split(a, 0, 0);
    assert v == (v.0, v.1, 0, 0) && al.joined(v) == (a, 0, 0);
  }

  lemma TwoReadBack(al: Alphabet, a: Byte, b: Byte)
    requires ReadsDigits(al) && JoinsBack(al)
    ensures ReadLast(al, Two(al, a, b)) == Some([a, b]) && '=' !in Two(al, a, b)[..3] && Two(al, a, b)[3..] == "="
  {
    var v := al.split(a, b, 0);
    assert v == (v.0, v.1, v.2, 0) && al.joined(v) == (a, b, 0);
  }

  lemma ThreeReadBack(al: Alphabet, a: Byte, b: Byte, c: Byte)
    requires ReadsDigits(al) && JoinsBack(al)
    ensures var text := Three(al, a, b, c);
            ReadGroup(al, text) == ReadLast(al, text) == Some([a, b, c]) && '=' !in text
  {
    var v := al.split(a, b, c);
    assert v == (v.0, v.1, v.2, v.3) && al.joined(v) == (a, b, c);
  }

  // ----- texts, over any way of writing groups

  datatype Groups = Groups(
    one: Byte -> string,
    two: (Byte, Byte) -> string,
    three: (Byte, Byte, Byte) -> string,
    read: string -> Option<Bytes>,
    readLast: string -> Option<Bytes>)

  function EncodeGroups(g: Groups, bytes: Bytes): string {
    if bytes == [] then ""
    else if |bytes| == 1 then g.one(bytes[0])
    else if |bytes| == 2 then g.two(bytes[0], bytes[1])
    else g.three(bytes[0], bytes[1], bytes[2]) + EncodeGroups(g, bytes[3..])
  }

  /** Strict decoding: whole groups of four, padding only at the end of the last one. */
  function DecodeGroups(g: Groups, text: string): Option<Bytes> {
    if text == "" then Some([])
    else if |text| < 4 then None
    else if |text| == 4 then g.readLast(text)
    else
      var first, rest := g.read(text[..4]), DecodeGroups(g, text[4..]);
      if first.None? || rest.None? then None else Some(first.value + rest.value)
  }

  ghost predicate OnesFaithful(g: Groups) {
    forall a: Byte :: |g.one(a)| == 4 && g.readLast(g.one(a)) == Some([a])
      && '=' !in g.one(a)[..2] && g.one(a)[2..] == "=="
  }

  ghost predicate TwosFaithful(g: Groups) {
    forall a: Byte, b: Byte :: |g.two(a, b)| == 4 && g.readLast(g.two(a, b)) == Some([a, b])
      && '=' !in g.two(a, b)[..3] && g.two(a, b)[3..] == "="
  }

  ghost predicate ThreesFaithful(g: Groups) {
    forall a: Byte, b: Byte, c: Byte :: |g.three(a, b, c)| == 4 && '=' !in g.three(a, b, c)
      && g.read(g.three(a, b, c)) == g.readLast(g.three(a, b, c)) == Some([a, b, c])
  }

  /** What a way of writing groups must do. */
  ghost predicate Faithful(g: Groups) { OnesFaithful(g) && TwosFaithful(g) && ThreesFaithful(g) }

  function GroupsIn(al: Alphabet): Groups {
    Groups(
      (a: Byte) => One(al, a),
      (a: Byte, b: Byte) => Two(al, a, b),
      (a: Byte, b: Byte, c: Byte) => Three(al, a, b, c),
      (text: string) => ReadGroup(al, text),
      (text: string) => ReadLast(al, text))
  }

  function UrlSafe(): Groups { GroupsIn(Url()) }

  function Encode(bytes: Bytes): string { EncodeGroups(UrlSafe(), bytes) }

  function Decode(text: string): Option<Bytes> { DecodeGroups(UrlSafe(), text) }

  lemma OnesAreFaithful(al: Alphabet)
    requires ReadsDigits(al) && JoinsBack(al)
    ensures OnesFaithful(GroupsIn(al))
  {
    forall a: Byte ensures ReadLast(al, One(al, a)) == Some([a]) && '=' !in One(al, a)[..2] && One(al, a)[2..] == "==" {
      OneReadsBack(al, a);
    }
  }

  lemma TwosAreFaithful(al: Alphabet)
    requires ReadsDigits(al) && JoinsBack(al)
    ensures TwosFaithful(GroupsIn(al))
  {
    forall a: Byte, b: Byte
      ensures ReadLast(al, Two(al, a, b)) == Some([a, b]) && '=' !in Two(al, a, b)[..3] && Two(al, a, b)[3..] == "="
    {
      TwoReadBack(al, a, b);
    }
  }

  lemma ThreesAreFaithful(al: Alphabet)
    requires ReadsDigits(al) && JoinsBack(al)
    ensures ThreesFaithful(GroupsIn(al))
  {
    forall a: Byte, b: Byte, c: Byte
      ensures var text := Three(al, a, b, c);
              ReadGroup(al, text) == ReadLast(al, text) == Some([a, b, c]) && '=' !in text
    {
      ThreeReadBack(al, a, b, c);
    }
  }

  lemma UrlSafeIsFaithful()
    ensures Faithful(UrlSafe())
  {
    UrlReadsDigits();
    UrlJoinsBack();
    OnesAreFaithful(Url());
    TwosAreFaithful(Url());
    ThreesAreFaithful(Url());
  }

  lemma {:induction false} GroupsReadBack(g: Groups, bytes: Bytes)
    requires Faithful(g)
    ensures DecodeGroups(g, EncodeGroups(g, bytes)) == Some(bytes)
  {
    if |bytes| == 1 {
      assert [bytes[0]] == bytes;
    } else if |bytes| == 2 {
      assert [bytes[0], bytes[1]] == bytes;
    } else if |bytes| > 2 {
      GroupsReadBack(g, bytes[3..]);
      var three := [bytes[0], bytes[1], bytes[2]];
      FirstGroup(g, g.three(bytes[0], bytes[1], bytes[2]), EncodeGroups(g, bytes[3..]), three, bytes[3..]);
      assert three + bytes[3..] == bytes;
    }
  }

  lemma FirstGroup(g: Groups, group: string, rest: string, a: Bytes, b: Bytes)
    requires |group| == 4 && g.read(group) == g.readLast(group) == Some(a) && DecodeGroups(g, rest) == Some(b)
    ensures DecodeGroups(g, group + rest) == Some(a + b)
  {
    if rest == "" {
      assert group + rest == group;
      assert a + b == a;
    } else {
      assert (group + rest)[..4] == group && (group + rest)[4..] == rest;
    }
  }

  // ----- padding

  /** `rstrip("=")`. */
  function Stripped(text: string): string {
    if text != "" && text[|text| - 1] == '=' then Stripped(text[..|text| - 1]) else text
  }

  /** The padding put back by arithmetic on the length alone. */
  function Restored(text: string): string { text + Pad(-|text| % 4) }

  function Pad(n: nat): string { seq(n, _ => '=') }

  /** A text without '=' and at most two of them after it, in whole groups of four. */
  ghost predicate Padded(text: string, body: string, n: nat) {
    text == body + Pad(n) && '=' !in body && n <= 2 && |text| % 4 == 0
  }

  lemma {:induction false} EncodingIsPadded(g: Groups, bytes: Bytes) returns (body: string, n: nat)
    requires Faithful(g)
    ensures Padded(EncodeGroups(g, bytes), body, n)
  {
    if bytes == [] {
      body, n := "", 0;
    } else if |bytes| == 1 {
      body, n := g.one(bytes[0])[..2], 2;
      assert Pad(2) == "==";
    } else if |bytes| == 2 {
      body, n := g.two(bytes[0], bytes[1])[..3], 1;
      assert Pad(1) == "=";
    } else {
      body, n := EncodingIsPadded(g, bytes[3..]);
      Associative(g.three(bytes[0], bytes[1], bytes[2]), body, Pad(n));
      body := g.three(bytes[0], bytes[1], bytes[2]) + body;
    }
  }

  lemma {:induction false} StripsPadding(body: string, n: nat)
    requires '=' !in body
    ensures Stripped(body + Pad(n)) == body
  {
    if n == 0 {
      assert body + Pad(0) == body;
    } else {
      assert (body + Pad(n))[..|body| + n - 1] == body + Pad(n - 1);
      StripsPadding(body, n - 1);
    }
  }

  lemma PadLength(length: int, n: int)
    requires (length + n) % 4 == 0 && 0 <= n <= 2
    ensures -length % 4 == n
  {
  }

  /** Removing the padding loses nothing: it is restored from the length alone. */
  lemma PaddingComesBack(g: Groups, bytes: Bytes)
    requires Faithful(g)
    ensures Restored(Stripped(EncodeGroups(g, bytes))) == EncodeGroups(g, bytes)
  {
    var body, n := EncodingIsPadded(g, bytes);
    StripsPadding(body, n);
    PadLength(|body|, n);
  }

  /** Whatever was encoded and stripped is decoded after the padding is restored. */
  lemma RoundTrip(bytes: Bytes)
    ensures Decode(Restored(Stripped(Encode(bytes)))) == Some(bytes)
  {
    UrlSafeIsFaithful();
    PaddingComesBack(UrlSafe(), bytes);
    GroupsReadBack(UrlSafe(), bytes);
  }

  // ----- which texts are encodings

  /** A character of the alphabet that is written: '+' and '/' are read but never written. */
  predicate Own(al: Alphabet, c: char) { IsSix(al.value(c)) && al.digit(al.value(c)) == c }

  predicate AllOwn(al: Alphabet, text: string) { forall i :: 0 <= i < |text| ==> Own(al, text[i]) }

  /** Written characters only, a possible length, and the bits that a short last group does not
      use are zero. */
  predicate CanonicalIn(al: Alphabet, text: string) {
    if |text| >= 4 then AllOwn(al, text[..4]) && CanonicalIn(al, text[4..])
    else
      && |text| != 1 && AllOwn(al, text)
      && (|text| == 2 ==> al.joined((al.value(text[0]), al.value(text[1]), 0, 0)).1 == 0)
      && (|text| == 3 ==> al.joined((al.value(text[0]), al.value(text[1]), al.value(text[2]), 0)).2 == 0)
  }

  /** Four values come back from the three bytes they make, and values that are not written make
      zero bytes. */
  ghost predicate SplitsBack(al: Alphabet) {
    && (forall v: Sextets :: var b := al.joined(v); al.split(b.0, b.1, b.2) == v)
    && (forall x: Six, y: Six :: al.joined((x, y, 0, 0)).2 == 0)
  }

  lemma FirstSplits(x: Six, y: Six)
    ensures (x * 4 + y / 16) / 4 == x && (x * 4 + y / 16) % 4 == y / 16
  {
  }

  lemma SecondSplits(y: Six, z: Six)
    ensures (y % 16 * 16 + z / 4) / 16 == y % 16 && (y % 16 * 16 + z / 4) % 16 == z / 4
    ensures y / 16 * 16 + y % 16 == y
  {
  }

  lemma ThirdSplits(z: Six, w: Six)
    ensures (z % 4 * 64 + w) / 64 == z % 4 && (z % 4 * 64 + w) % 64 == w
    ensures z / 4 * 4 + z % 4 == z
  {
  }

  lemma JoinSplits(v: Sextets)
    ensures var b := Joined(v); Split(b.0, b.1, b.2) == v
    ensures Joined((v.0, v.1, 0, 0)).2 == 0
  {
    FirstSplits(v.0, v.1);
    SecondSplits(v.1, v.2);
    ThirdSplits(v.2, v.3);
  }

  lemma UrlSplitsBack()
    ensures SplitsBack(Url())
  {
    forall v: Sextets ensures var b := Url().joined(v); Url().split(b.0, b.1, b.2) == v {
      JoinSplits(v);
    }
  }

  lemma OwnIsNoPad(al: Alphabet, text: string)
    requires ReadsDigits(al) && AllOwn(al, text)
    ensures '=' !in text
  {
    forall i | 0 <= i < |text| ensures text[i] != '=' {
      var v: Six := al.value(text[i]);
      assert al.digit(v) == text[i];
    }
  }

  lemma ShortIsEncoded(al: Alphabet, text: string) returns (bytes: Bytes, n: nat)
    requires ReadsDigits(al) && JoinsBack(al) && SplitsBack(al) && CanonicalIn(al, text) && 0 < |text| < 4
    ensures EncodeGroups(GroupsIn(al), bytes) == text + Pad(n) && '=' !in text
  {
    OwnIsNoPad(al, text);
    var x: Six, y: Six := al.value(text[0]), al.value(text[1]);
    if |text| == 2 {
      var b := al.joined((x, y, 0, 0));
      bytes, n := [b.0], 2;
      assert al.split(b.0, b.1, b.2) == (x, y, 0, 0);
      assert Pad(2) == "==";
    } else {
      var z: Six := al.value(text[2]);
      var b := al.joined((x, y, z, 0));
      bytes, n := [b.0, b.1], 1;
      assert al.split(b.0, b.1, b.2) == (x, y, z, 0);
      assert Pad(1) == "=";
    }
  }

  lemma GroupIsEncoded(al: Alphabet, text: string) returns (a: Byte, b: Byte, c: Byte)
    requires ReadsDigits(al) && SplitsBack(al) && |text| == 4 && AllOwn(al, text)
    ensures Three(al, a, b, c) == text && '=' !in text
  {
    OwnIsNoPad(al, text);
    var x: Six, y: Six, z: Six, w: Six := al.value(text[0]), al.value(text[1]), al.value(text[2]), al.value(text[3]);
    var bytes := al.joined((x, y, z, w));
    a, b, c := bytes.0, bytes.1, bytes.2;
    assert al.split(a, b, c) == (x, y, z, w);
  }

  lemma {:induction false} CanonicalIsEncoded(al: Alphabet, text: string) returns (bytes: Bytes, n: nat)
    requires ReadsDigits(al) && JoinsBack(al) && SplitsBack(al) && CanonicalIn(al, text)
    ensures EncodeGroups(GroupsIn(al), bytes) == text + Pad(n) && '=' !in text
  {
    if text == "" {
      bytes, n := [], 0;
    } else if |text| < 4 {
      bytes, n := ShortIsEncoded(al, text);
    } else {
      var a, b, c := GroupIsEncoded(al, text[..4]);
      var rest;
      rest, n := CanonicalIsEncoded(al, text[4..]);
      bytes := [a, b, c] + rest;
      assert bytes[3..] == rest && text == text[..4] + text[4..];
      Associative(text[..4], text[4..], Pad(n));
    }
  }

  lemma ShortIsCanonical(al: Alphabet, bytes: Bytes) returns (body: string, n: nat)
    requires ReadsDigits(al) && JoinsBack(al) && 0 < |bytes| < 3
    ensures EncodeGroups(GroupsIn(al), bytes) == body + Pad(n) && '=' !in body && CanonicalIn(al, body)
  {
    if |bytes| == 1 {
      var v := al.split(bytes[0], 0, 0);
      body, n := One(al, bytes[0])[..2], 2;
      OneReadsBack(al, bytes[0]);
      assert v == (v.0, v.1, 0, 0) && al.joined(v) == (bytes[0], 0, 0);
      assert Pad(2) == "==";
    } else {
      var v := al.split(bytes[0], bytes[1], 0);
      body, n := Two(al, bytes[0], bytes[1])[..3], 1;
      TwoReadBack(al, bytes[0], bytes[1]);
      assert v == (v.0, v.1, v.2, 0) && al.joined(v) == (bytes[0], bytes[1], 0);
      assert Pad(1) == "=";
    }
  }

  lemma {:induction false} EncodedIsCanonical(al: Alphabet, bytes: Bytes) returns (body: string, n: nat)
    requires ReadsDigits(al) && JoinsBack(al)
    ensures EncodeGroups(GroupsIn(al), bytes) == body + Pad(n) && '=' !in body && CanonicalIn(al, body)
  {
    if bytes == [] {
      body, n := "", 0;
    } else if |bytes| < 3 {
      body, n := ShortIsCanonical(al, bytes);
    } else {
      var group := Three(al, bytes[0], bytes[1], bytes[2]);
      ThreeReadBack(al, bytes[0], bytes[1], bytes[2]);
      var rest;
      rest, n := EncodedIsCanonical(al, bytes[3..]);
      Associative(group, rest, Pad(n));
      body := group + rest;
      assert body[..4] == group && body[4..] == rest;
    }
  }

  /** A character of the URL-safe alphabet. */
  predicate IsUrl(c: char) { Value(c) >= 0 && c != '+' && c != '/' }

  predicate AllUrl(text: string) { forall i :: 0 <= i < |text| ==> IsUrl(text[i]) }

  /** The bits of the last character that no byte uses are zero. */
  predicate NoUnusedBits(last: int, length: nat) {
    && length % 4 != 1
    && (length % 4 == 2 ==> last % 16 == 0)
    && (length % 4 == 3 ==> last % 4 == 0)
  }

  /** What a text must look like to be a stripped encoding: characters of the URL-safe alphabet,
      not one more than a multiple of four of them, and in a last group of two or three
      characters nothing in the bits that its bytes do not use. */
  predicate Canonical(text: string) {
    AllUrl(text) && (text != "" ==> NoUnusedBits(Value(text[|text| - 1]), |text|))
  }

  lemma OwnInUrl(c: char)
    ensures Own(Url(), c) <==> IsUrl(c)
  {
  }

  lemma AllOwnInUrl(text: string)
    ensures AllOwn(Url(), text) <==> AllUrl(text)
  {
    forall i | 0 <= i < |text| ensures Own(Url(), text[i]) <==> IsUrl(text[i]) {
      OwnInUrl(text[i]);
    }
  }

  lemma ShortCanonical(text: string)
    requires |text| < 4
    ensures CanonicalIn(Url(), text) <==> Canonical(text)
  {
    AllOwnInUrl(text);
    if |text| == 2 && AllUrl(text) {
      assert Joined((Value(text[0]), Value(text[1]), 0, 0)).1 == Value(text[1]) % 16 * 16;
    } else if |text| == 3 && AllUrl(text) {
      assert Joined((Value(text[0]), Value(text[1]), Value(text[2]), 0)).2 == Value(text[2]) % 4 * 64;
    }
  }

  lemma FourMore(length: nat)
    requires length >= 4
    ensures (length - 4) % 4 == length % 4
  {
  }

  lemma LongCanonical(text: string)
    requires |text| >= 4
    ensures Canonical(text) <==> AllUrl(text[..4]) && Canonical(text[4..])
  {
    var rest := text[4..];
    FourMore(|text|);
    assert text == text[..4] + rest;
    if rest != "" {
      assert rest[|rest| - 1] == text[|text| - 1];
    }
    if AllUrl(text) {
      assert forall i :: 0 <= i < |rest| ==> rest[i] == text[i + 4];
    }
  }

  lemma {:induction false} CanonicalInUrl(text: string)
    ensures CanonicalIn(Url(), text) <==> Canonical(text)
  {
    if |text| < 4 {
      ShortCanonical(text);
    } else {
      CanonicalInUrl(text[4..]);
      LongCanonical(text);
      AllOwnInUrl(text[..4]);
    }
  }

  /** Decoding ignores unused bits and reads two characters of the other alphabet, so different
      texts can decode to the same bytes.  Exactly the canonical texts come back from decoding
      and encoding again. */
  lemma CanonicalComesBack(text: string)
    ensures var bytes := Decode(Restored(text));
            bytes.Some? && Stripped(Encode(bytes.value)) == text <==> Canonical(text)
  {
    UrlReadsDigits();
    UrlJoinsBack();
    UrlSplitsBack();
    CanonicalInUrl(text);
    if Canonical(text) {
      var bytes, n := CanonicalIsEncoded(Url(), text);
      StripsPadding(text, n);
      RoundTrip(bytes);
    } else if Decode(Restored(text)).Some? {
      var body, n := EncodedIsCanonical(Url(), Decode(Restored(text)).value);
      StripsPadding(body, n);
    }
  }

  /** The two characters of one byte, with `low` in the four bits of the second that it leaves
      unused. */
  function OneByteText(a: Byte, low: nat): string
    requires low < 16
  {
    [Digit(a / 4), Digit(a % 4 * 16 + low)]
  }

  /** The three characters of two bytes, with `low` in the two bits they leave unused. */
  function TwoByteText(a: Byte, b: Byte, low: nat): string
    requires low < 4
  {
    [Digit(a / 4), Digit(a % 4 * 16 + b / 16), Digit(b % 16 * 4 + low)]
  }

  /** Decoding is not one-to-one: whatever the unused bits of a last byte are, it decodes to that
      byte; only zeros are its encoding. */
  lemma UnusedBitsIgnored(a: Byte, low: nat)
    requires low < 16
    ensures Decode(Restored(OneByteText(a, low))) == Some([a])
    ensures Canonical(OneByteText(a, low)) <==> low == 0
  {
    var x: Six, y: Six := a / 4, a % 4 * 16 + low;
    DigitReadsBack(x);
    DigitReadsBack(y);
    OneByteJoins(a, low);
    assert Restored(OneByteText(a, low)) == [Digit(x), Digit(y), '=', '='];
    assert IsUrl(Digit(x)) && IsUrl(Digit(y));
  }

  lemma OneByteJoins(a: Byte, low: nat)
    requires low < 16
    ensures Joined((a / 4, a % 4 * 16 + low, 0, 0)).0 == a && (a % 4 * 16 + low) % 16 == low
  {
    assert (a % 4 * 16 + low) / 16 == a % 4;
  }

  /** The same for the unused bits of the last two bytes. */
  lemma UnusedPairIgnored(a: Byte, b: Byte, low: nat)
    requires low < 4
    ensures Decode(Restored(TwoByteText(a, b, low))) == Some([a, b])
    ensures Canonical(TwoByteText(a, b, low)) <==> low == 0
  {
    var x: Six, y: Six, z: Six := a / 4, a % 4 * 16 + b / 16, b % 16 * 4 + low;
    DigitReadsBack(x);
    DigitReadsBack(y);
    DigitReadsBack(z);
    TwoBytesJoin(a, b, low);
    assert Restored(TwoByteText(a, b, low)) == [Digit(x), Digit(y), Digit(z), '='];
    assert IsUrl(Digit(x)) && IsUrl(Digit(y)) && IsUrl(Digit(z));
  }

  lemma TwoBytesJoin(a: Byte, b: Byte, low: nat)
    requires low < 4
    ensures var r := Joined((a / 4, a % 4 * 16 + b / 16, b % 16 * 4 + low, 0)); r.0 == a && r.1 == b
    ensures (b % 16 * 4 + low) % 4 == low
  {
    FirstJoins(a, b);
    SecondJoins(a, b, low * 64);
    assert low * 64 / 64 == low;
    assert Split(a, b, low * 64).2 == b % 16 * 4 + low;
  }

  // ----- character by character

  /** The code of the character for a six-bit value: A to Z, a to z, 0 to 9, minus and underscore. */
  function CodeOf(v: Six): int {
    if v < 26 then 65 + v else if v < 52 then 97 + (v - 26) else if v < 62 then 48 + (v - 52)
    else if v == 62 then 45 else 95
  }

  lemma DigitCode(v: Six)
    ensures Digit(v) as int == CodeOf(v)
  {
  }

  function ByteAt(bytes: Bytes, i: nat): Byte { if i < |bytes| then bytes[i] else 0 }

  function Number(v: Sextets): nat { 262144 * v.0 + 4096 * v.1 + 64 * v.2 + v.3 }

  lemma SplitIsNumber(a: Byte, b: Byte, c: Byte)
    ensures Number(Split(a, b, c)) == 65536 * a + 256 * b + c
  {
    assert a == 4 * (a / 4) + a % 4 && b == 16 * (b / 16) + b % 16 && c == 64 * (c / 64) + c % 64;
  }

  /** Four characters say the six-bit values `v`, of which those that no byte reaches are padding. */
  predicate SaysGroup(text: string, v: Sextets, bytes: int) {
    && |text| == 4 && bytes > 0
    && text[0] as int == CodeOf(v.0) && text[1] as int == CodeOf(v.1)
    && text[2] as int == (if bytes > 1 then CodeOf(v.2) else 61)
    && text[3] as int == (if bytes > 2 then CodeOf(v.3) else 61)
  }

  lemma GroupSays(a: Byte, b: Byte, c: Byte)
    ensures SaysGroup(Three(Url(), a, b, c), Split(a, b, c), 3)
    ensures SaysGroup(Two(Url(), a, b), Split(a, b, 0), 2)
    ensures SaysGroup(One(Url(), a), Split(a, 0, 0), 1)
    ensures |Three(Url(), a, b, c)| == 4 && |Two(Url(), a, b)| == 4 && |One(Url(), a)| == 4
  {
    hide Split, Digit, CodeOf;
    forall v: Six ensures Digit(v) as int == CodeOf(v) {
      DigitCode(v);
    }
  }

  /** Every encoding, group by group: the `g`-th four characters say the 24 bits of the `g`-th three
      bytes, the first ones highest. */
  lemma {:induction false} EncodedGroup(bytes: Bytes, g: nat) returns (v: Sextets)
    requires 3 * g < |bytes|
    ensures |Encode(bytes)| == (|bytes| + 2) / 3 * 4 && 4 * g + 4 <= |Encode(bytes)|
    ensures SaysGroup(Encode(bytes)[4 * g..4 * g + 4], v, Min(3, |bytes| - 3 * g))
    ensures Number(v) == 65536 * bytes[3 * g] + 256 * ByteAt(bytes, 3 * g + 1) + ByteAt(bytes, 3 * g + 2)
    decreases |bytes|
  {
    hide Split, Number, CodeOf, One, Two, Three, SaysGroup;
    var a, b, c := bytes[0], ByteAt(bytes, 1), ByteAt(bytes, 2);
    GroupSays(a, b, c);
    SplitIsNumber(a, b, c);
    v := Split(a, b, c);
    if |bytes| < 3 {
      assert Encode(bytes)[0..4] == Encode(bytes);
    } else {
      var rest := bytes[3..];
      assert Encode(bytes) == Three(Url(), a, b, c) + Encode(rest);
      if rest == [] {
        assert Encode(bytes)[0..4] == Encode(bytes);
      } else if g == 0 {
        var _ := EncodedGroup(rest, 0);
        assert Encode(bytes)[0..4] == Three(Url(), a, b, c);
      } else {
        v := EncodedGroup(rest, g - 1);
        assert Encode(bytes)[4 * g..4 * g + 4] == Encode(rest)[4 * (g - 1)..4 * (g - 1) + 4];
      }
    }
  }

  /** A character that is read: one of the alphabet, or plus or slash. */
  predicate Read(c: char) {
    'A' <= c <= 'Z' || 'a' <= c <= 'z' || '0' <= c <= '9' || c in {'-', '_', '+', '/'}
  }

  predicate AllRead(text: string) { forall i :: 0 <= i < |text| ==> Read(text[i]) }

  /** Whole groups of four characters that are read, but for one or two padding characters at the end. */
  predicate Decodable(text: string) {
    && |text| % 4 == 0
    && (text != "" ==>
          var n := |text|;
          && AllRead(text[..n - 2])
          && ((Read(text[n - 2]) && (Read(text[n - 1]) || text[n - 1] == '='))
              || (text[n - 2] == '=' && text[n - 1] == '=')))
  }

  lemma GroupRead(text: string)
    requires |text| == 4
    ensures ReadGroup(Url(), text).Some? <==> AllRead(text)
    ensures ReadLast(Url(), text).Some? <==> Decodable(text)
  {
    assert text[..2] == [text[0], text[1]];
  }

  /** Decoding refuses everything else. */
  lemma {:induction false} DecodesExactly(text: string)
    ensures Decode(text).Some? <==> Decodable(text)
  {
    hide Read, ReadGroup, ReadLast;
    if |text| == 4 {
      GroupRead(text);
    } else if |text| > 4 {
      var first, rest := text[..4], text[4..];
      GroupRead(first);
      DecodesExactly(rest);
      FourMore(|text|);
      if |rest| % 4 == 0 {
        assert |rest| >= 4;
        assert text[..|text| - 2] == first + rest[..|rest| - 2];
      }
    }
  }
}
