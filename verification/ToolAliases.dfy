/** What an alias looks like: the readable part that is taken from a name, and what is hashed for
    each attempt. */
module ToolAliases {
  import opened Common
  import opened ToolNames

  /** What the character at `i` contributes: itself, or one underscore at the start of every stretch
      of characters that are not allowed. */
  function Contribution(name: string, i: nat): string
    requires i < |name|
  {
    if PortableChar(name[i]) then [name[i]]
    else if i == 0 || PortableChar(name[i - 1]) then "_"
    else ""
  }

  /** The name with each such stretch replaced. */
  function Collapsed(name: string): string {
    Flatten(seq(|name|, i requires 0 <= i < |name| => Contribution(name, i)))
  }

  lemma {:induction false} SubstitutedCollapses(name: string, n: nat)
    requires n <= |name|
    ensures Substituted(name, n) == Flatten(seq(n, i requires 0 <= i < n => Contribution(name, i)))
  {
    if n > 0 {
      SubstitutedCollapses(name, n - 1);
      var pieces := seq(n - 1, i requires 0 <= i < n - 1 => Contribution(name, i));
      assert seq(n, i requires 0 <= i < n => Contribution(name, i)) == pieces + [Contribution(name, n - 1)];
      FlattenSnoc(pieces, Contribution(name, n - 1));
    }
  }

  predicate Border(c: char) { c in {'_', '-'} }

  lemma {:induction false} LeftStripped(s: string) returns (left: nat)
    ensures left <= |s| && StripLeft(s) == s[left..]
    ensures (forall i :: 0 <= i < left ==> Border(s[i])) && (left < |s| ==> !Border(s[left]))
  {
    left := 0;
    if s != "" && Edge(s[0]) {
      var rest := LeftStripped(s[1..]);
      left := rest + 1;
      assert s[1..][rest..] == s[left..];
    }
  }

  lemma {:induction false} RightStripped(s: string) returns (right: nat)
    ensures right <= |s| && StripRight(s) == s[..right]
    ensures (forall i :: right <= i < |s| ==> Border(s[i])) && (right > 0 ==> !Border(s[right - 1]))
  {
    right := |s|;
    if s != "" && Edge(s[|s| - 1]) {
      right := RightStripped(s[..|s| - 1]);
      assert s[..|s| - 1][..right] == s[..right];
    }
  }

  /** `r` is `s` without the underscores and dashes at its end, or "tool" if nothing else is left. */
  ghost predicate EndsClean(s: string, r: string) {
    exists right: nat {:trigger s[..right]} ::
      && right <= |s| && (forall i :: right <= i < |s| ==> Border(s[i])) && (right > 0 ==> !Border(s[right - 1]))
      && r == if right == 0 then "tool" else s[..right]
  }

  /** `r` is `s` without those at either end, or "tool". */
  ghost predicate Clean(s: string, r: string) {
    exists left: nat {:trigger s[left..]} ::
      && left <= |s| && (forall i :: 0 <= i < left ==> Border(s[i])) && (left < |s| ==> !Border(s[left]))
      && EndsClean(s[left..], r)
  }

  lemma StripsClean(s: string)
    ensures EndsClean(s, OrTool(StripRight(s)))
  {
    var right := RightStripped(s);
    assert s[..0] == "";
  }

  /** The readable part of an alias: the name with stretches of other characters replaced, cleaned at
      both ends, then cut to 47 characters and cleaned at its end again. */
  lemma ReadableMeans(name: string) returns (whole: string)
    ensures Clean(Collapsed(name), whole)
    ensures EndsClean(if |whole| <= 47 then whole else whole[..47], Readable(name))
  {
    SubstitutedCollapses(name, |name|);
    var left := LeftStripped(Collapsed(name));
    StripsClean(Collapsed(name)[left..]);
    whole := Trimmed(name);
    StripsClean(if |whole| <= 47 then whole else whole[..47]);
  }

  /** A name that providers accept: 1 to 64 letters and digits of ASCII, underscores and dashes. */
  predicate Accepted(name: string) {
    && 1 <= |name| && |name| <= 64
    && forall i :: 0 <= i < |name| ==>
         || (97 <= name[i] as int <= 122) || (65 <= name[i] as int <= 90) || (48 <= name[i] as int <= 57)
         || name[i] in {'_', '-'}
  }

  lemma PortableIsAccepted(name: string)
    ensures Portable(name) <==> Accepted(name)
  {
  }

  /** Every alias is accepted. */
  lemma AliasIsAccepted(digest: string -> string, name: string, attempt: nat)
    requires forall s :: |digest(s)| == 16 && AllPortable(digest(s))
    ensures Accepted(Alias(digest, name, attempt))
  {
    AliasIsPortable(digest, name, attempt);
    PortableIsAccepted(Alias(digest, name, attempt));
  }

  // ----- what is hashed

  predicate DigitChar(c: char) { '0' <= c <= '9' }

  function DigitValue(c: char): nat
    requires DigitChar(c)
  {
    c as int - '0' as int
  }

  /** The number that decimal digits say. */
  function NumberOf(digits: string): nat
    requires forall i :: 0 <= i < |digits| ==> DigitChar(digits[i])
  {
    if digits == "" then 0
    else
      assert DigitChar(digits[|digits| - 1]);
      10 * NumberOf(digits[..|digits| - 1]) + DigitValue(digits[|digits| - 1])
  }

  lemma OneDigit(d: nat)
    requires d < 10
    ensures DigitChar("0123456789"[d]) && DigitValue("0123456789"[d]) == d
  {
  }

  lemma {:induction false} NumberSnoc(digits: string, c: char)
    requires DigitChar(c) && forall i :: 0 <= i < |digits| ==> DigitChar(digits[i])
    ensures NumberOf(digits + [c]) == 10 * NumberOf(digits) + DigitValue(c)
  {
    assert (digits + [c])[..|digits|] == digits;
  }

  lemma {:induction false} DecimalReadsBack(n: nat)
    ensures Decimal(n) != "" && forall i :: 0 <= i < |Decimal(n)| ==> DigitChar(Decimal(n)[i])
    ensures NumberOf(Decimal(n)) == n && (Decimal(n)[0] == '0' ==> n == 0)
  {
    hide DigitChar, DigitValue, NumberOf;
    var c := "0123456789"[n % 10];
    OneDigit(n % 10);
    if n >= 10 {
      DecimalReadsBack(n / 10);
      NumberSnoc(Decimal(n / 10), c);
    } else {
      NumberSnoc("", c);
      assert "" + [c] == [c];
      assert NumberOf("") == 0 by { NothingIsZero(); }
      assert c == '0' ==> n == 0;
    }
  }

  lemma NothingIsZero()
    ensures NumberOf("") == 0
  {
  }

  /** An alias is the readable part of the name, an underscore and a digest: of the name itself at
      first, and then of the name, a zero character and the number of the attempt. */
  lemma AliasMeans(digest: string -> string, name: string, attempt: nat) returns (digits: string)
    ensures forall i :: 0 <= i < |digits| ==> DigitChar(digits[i])
    ensures NumberOf(digits) == attempt && digits != "" && (digits[0] == '0' ==> attempt == 0)
    ensures Alias(digest, name, attempt)
         == Readable(name) + "_" + digest(if attempt == 0 then name else name + [0 as char] + digits)
  {
    digits := Decimal(attempt);
    DecimalReadsBack(attempt);
    assert '\U{0000}' == 0 as char;
  }

  /** Two attempts never hash the same text. */
  lemma AttemptsDiffer(name: string, a: nat, b: nat)
    requires a != b
    ensures DigestInput(name, a) != DigestInput(name, b)
  {
    DecimalReadsBack(a);
    DecimalReadsBack(b);
    assert a > 0 ==> DigestInput(name, a)[|name| + 1..] == Decimal(a);
    assert b > 0 ==> DigestInput(name, b)[|name| + 1..] == Decimal(b);
  }
}
