/** Translation of `\p{..}` atoms in the patterns of tool schemas.  Whether the regular-expression
    compiler accepts the translated text is a function parameter. */
module PatternScanner {
  import opened Common
  import opened CategorySpans

  /** What the scanner steps over at once: one character, an escape, or an accepted atom. */
  datatype Token = Plain(c: char) | Esc(e: char) | Atom(category: string)

  function TextOf(t: Token): string {
    match t
    case Plain(c) => [c]
    case Esc(e) => ['\\', e]
    case Atom(category) => "\\p{" + category + "}"
  }

  function TextsOf(ts: seq<Token>): string { FlatMap(TextOf, ts) }

  /** `s.find(c, from)`, or -1. */
  function FindFrom(s: string, c: char, from: nat): (r: int)
    ensures r == -1 || from <= r < |s|
    decreases |s| - from
  {
    if from >= |s| then -1 else if s[from] == c then from else FindFrom(s, c, from + 1)
  }

  /** The pattern goes on with one of `&&`, `--`, `~~`, `||`. */
  predicate SetSyntax(s: string) { |s| >= 2 && s[0] == s[1] && s[0] in {'&', '-', '~', '|'} }

  /** The category of the atom that `s` starts with, if it is one of the four and is not followed
      by a dash. */
  function AtomCategory(s: string): Option<string> {
    var end := FindFrom(s, '}', 3);
    if !StartsWith(s, "\\p{") || end == -1 || s[3..end] !in CATEGORIES || (end + 1 < |s| && s[end + 1] == '-')
    then None else Some(s[3..end])
  }

  function Prepend(t: Token, ts: Option<seq<Token>>): Option<seq<Token>> {
    if ts.None? then None else Some([t] + ts.value)
  }

  /** The rest of a scan; None means that the pattern is left alone.  `dash`: the previous token
      was a dash. */
  function Scan(s: string, inClass: bool, negated: bool, dash: bool): Option<seq<Token>>
    decreases |s|, 1
  {
    if s == "" then if inClass then None else Some([])
    else if s[0] == '\\' then ScanEscape(s, inClass, negated, dash)
    else if s[0] == '[' then
      if !inClass then Prepend(Plain('['), Scan(s[1..], true, |s| > 1 && s[1] == '^', false))
      else if !StartsWith(s, "[\\]]") then None
      else Prepend(Plain('['), Scan(s[1..], inClass, negated, false))
    else if s[0] == ']' then
      if !inClass then None else Prepend(Plain(']'), Scan(s[1..], false, negated, false))
    else if inClass && SetSyntax(s) then None
    else Prepend(Plain(s[0]), Scan(s[1..], inClass, negated, s[0] == '-'))
  }

  function ScanEscape(s: string, inClass: bool, negated: bool, dash: bool): Option<seq<Token>>
    requires s != "" && s[0] == '\\'
    decreases |s|, 0
  {
    if |s| == 1 then None
    else if s[1] == 'p' || s[1] == 'P' then
      var category := AtomCategory(s);
      if category.None? || !inClass || !negated || dash then None
      else Prepend(Atom(category.value), Scan(s[|category.value| + 4..], inClass, negated, false))
    else Prepend(Esc(s[1]), Scan(s[2..], inClass, negated, false))
  }

  // ----- the tables as text

  function HexDigit(v: int): char
    requires 0 <= v < 16
  {
    if v < 10 then ('0' as int + v) as char else ('A' as int + (v - 10)) as char
  }

  function Hex(point: nat): string
    requires point <= 0xFFFF
  {
    [HexDigit(point / 0x1000), HexDigit(point / 0x100 % 16), HexDigit(point / 16 % 16), HexDigit(point % 16)]
  }

  /** A point of the basic plane is written as an escape, any other one as itself. */
  function Codepoint(point: nat): string
    requires point < LIMIT
  {
    if point <= 0xFFFF then "\\u" + Hex(point) else [point as char]
  }

  function SpanText(s: Span): string
    requires s.lo < LIMIT && s.hi < LIMIT
  {
    if s.lo == s.hi then Codepoint(s.lo) else Codepoint(s.lo) + "-" + Codepoint(s.hi)
  }

  function SpansText(spans: seq<Span>): string
    requires forall i :: 0 <= i < |spans| ==> spans[i].lo < LIMIT && spans[i].hi < LIMIT
  {
    if spans == [] then "" else SpanText(spans[0]) + SpansText(spans[1..])
  }

  // ----- the tables as tokens

  function CodeTokens(point: nat): seq<Token>
    requires point < LIMIT
  {
    if point <= 0xFFFF then
      [Esc('u'), Plain(Hex(point)[0]), Plain(Hex(point)[1]), Plain(Hex(point)[2]), Plain(Hex(point)[3])]
    else [Plain(point as char)]
  }

  function SpanTokens(s: Span): seq<Token>
    requires s.lo < LIMIT && s.hi < LIMIT
  {
    if s.lo == s.hi then CodeTokens(s.lo) else CodeTokens(s.lo) + [Plain('-')] + CodeTokens(s.hi)
  }

  function SpansTokens(spans: seq<Span>): seq<Token>
    requires forall i :: 0 <= i < |spans| ==> spans[i].lo < LIMIT && spans[i].hi < LIMIT
  {
    if spans == [] then [] else SpanTokens(spans[0]) + SpansTokens(spans[1..])
  }

  // ----- replacing atoms, over any way of writing a category as tokens

  type Table4 = string -> seq<Token>

  function ExpandOne(table: Table4): Token -> seq<Token> {
    (t: Token) => if t.Atom? then table(t.category) else [t]
  }

  function Expand(table: Table4, ts: seq<Token>): seq<Token> { FlatMap(ExpandOne(table), ts) }

  predicate Harmless(c: char) { c !in {'\\', '[', ']', '^', '&', '~', '|'} }

  predicate Quiet(t: Token) { t == Esc('u') || (t.Plain? && Harmless(t.c)) }

  const DASH := Plain('-')

  /** Tokens that mean nothing special inside a class and do not begin or end with a dash. */
  ghost predicate Inert(ts: seq<Token>) {
    && ts != [] && ts[0] != DASH && InertTail(ts)
  }

  ghost predicate InertTail(ts: seq<Token>) {
    && (forall i :: 0 <= i < |ts| ==> Quiet(ts[i]))
    && (forall i :: 0 <= i < |ts| && ts[i] == DASH ==> i + 1 < |ts| && ts[i + 1] != DASH)
  }

  ghost predicate InertTable(table: Table4) { forall c :: c in CATEGORIES ==> Inert(table(c)) }

  /** The tokens of a scan are the pattern, cut into pieces. */
  lemma {:induction false} ScanKeepsText(s: string, inClass: bool, negated: bool, dash: bool)
    requires Scan(s, inClass, negated, dash).Some?
    ensures TextsOf(Scan(s, inClass, negated, dash).value) == s
    decreases |s|
  {
    if s != "" {
      var ts := Scan(s, inClass, negated, dash).value;
      var rest, i, n, d := NextState(s, inClass, negated, dash);
      ScanKeepsText(rest, i, n, d);
      assert ts[1..] == Scan(rest, i, n, d).value;
    }
  }

  /** One step of an accepted scan: its token, and the rest with the state it is scanned in. */
  lemma NextState(s: string, inClass: bool, negated: bool, dash: bool)
    returns (rest: string, inClass': bool, negated': bool, dash': bool)
    requires s != "" && Scan(s, inClass, negated, dash).Some?
    ensures Scan(rest, inClass', negated', dash').Some? && |rest| < |s|
    ensures Scan(s, inClass, negated, dash).value != []
    ensures Scan(s, inClass, negated, dash).value[1..] == Scan(rest, inClass', negated', dash').value
    ensures s == TextOf(Scan(s, inClass, negated, dash).value[0]) + rest
  {
    inClass', negated', dash' := inClass, negated, false;
    if s[0] == '\\' {
      if s[1] == 'p' || s[1] == 'P' {
        var category := AtomCategory(s).value;
        rest := s[|category| + 4..];
        AtomText(s);
      } else {
        rest := s[2..];
      }
    } else {
      rest := s[1..];
      if s[0] == '[' && !inClass {
        inClass', negated' := true, |s| > 1 && s[1] == '^';
      } else if s[0] == ']' {
        inClass' := false;
      } else if s[0] != '[' {
        dash' := s[0] == '-';
      }
    }
  }

  lemma AtomText(s: string)
    requires AtomCategory(s).Some?
    ensures var c := AtomCategory(s).value; c in CATEGORIES && |c| + 4 <= |s| && s[..|c| + 4] == "\\p{" + c + "}"
  {
    var end := FindFrom(s, '}', 3);
    Found(s, '}', 3);
    assert s[..end + 1] == s[..3] + s[3..end] + [s[end]];
  }

  lemma {:induction false} Found(s: string, c: char, from: nat)
    ensures FindFrom(s, c, from) != -1 ==> s[FindFrom(s, c, from)] == c
    decreases |s| - from
  {
    if from < |s| && s[from] != c {
      Found(s, c, from + 1);
    }
  }

  // ----- scanning a translated pattern

  function Concat(ts: seq<Token>, rest: Option<seq<Token>>): Option<seq<Token>> {
    if rest.None? then None else Some(ts + rest.value)
  }

  lemma InertFirst(ts: seq<Token>, rest: string)
    requires ts != [] && Quiet(ts[0])
    ensures var s := TextsOf(ts) + rest; s != "" && s == TextOf(ts[0]) + (TextsOf(ts[1..]) + rest)
    ensures TextOf(ts[0]) == if ts[0].Esc? then "\\u" else [ts[0].c]
  {
    Associative(TextOf(ts[0]), TextsOf(ts[1..]), rest);
  }

  lemma InertHead(ts: seq<Token>, rest: string)
    requires ts != [] && Quiet(ts[0]) && ts[0] != DASH
    ensures var s := TextsOf(ts) + rest; s != "" && s[0] != '-' && (Harmless(s[0]) || s[0] == '\\')
  {
    InertFirst(ts, rest);
  }

  /** Inside a class the scanner passes over inert tokens and changes nothing but the dash. */
  lemma {:induction false} ScanInert(ts: seq<Token>, rest: string, negated: bool, dash: bool)
    requires InertTail(ts) && (ts == [] ==> !dash)
    ensures Scan(TextsOf(ts) + rest, true, negated, dash) == Concat(ts, Scan(rest, true, negated, false))
    decreases |ts|
  {
    if ts == [] {
      assert TextsOf(ts) + rest == rest;
      NothingBefore(Scan(rest, true, negated, false));
    } else {
      var s := TextsOf(ts) + rest;
      InertFirst(ts, rest);
      ScanInert(ts[1..], rest, negated, ts[0] == DASH);
      if ts[0].Esc? {
        assert s[2..] == TextsOf(ts[1..]) + rest;
      } else {
        assert s[1..] == TextsOf(ts[1..]) + rest;
        if ts[0] == DASH {
          assert ts[1..][0] == ts[1];
          InertHead(ts[1..], rest);
          assert s[1] == s[1..][0] != '-';
        }
        assert !SetSyntax(s);
      }
      assert Scan(s, true, negated, dash) ==
          Prepend(ts[0], Scan(TextsOf(ts[1..]) + rest, true, negated, ts[0] == DASH));
      PrependConcat(ts, Scan(rest, true, negated, false));
    }
  }

  lemma NothingBefore(rest: Option<seq<Token>>)
    ensures Concat([], rest) == rest
  {
    if rest.Some? {
      assert [] + rest.value == rest.value;
    }
  }

  lemma PrependConcat(ts: seq<Token>, rest: Option<seq<Token>>)
    requires ts != []
    ensures Prepend(ts[0], Concat(ts[1..], rest)) == Concat(ts, rest)
  {
    if rest.Some? {
      assert [ts[0]] + (ts[1..] + rest.value) == ts + rest.value;
    }
  }

  /** What the translated pattern looks like where the original goes on with `s`. */
  ghost predicate SameStart(s: string, t: string) {
    && (s == "" <==> t == "")
    && (s != "" ==> t[0] == s[0] || (s[0] == '\\' && t[0] != '-' && Harmless(t[0])))
  }

  lemma ExpandedText(table: Table4, ts: seq<Token>)
    requires ts != []
    ensures Expand(table, ts) == ExpandOne(table)(ts[0]) + Expand(table, ts[1..])
    ensures TextsOf(Expand(table, ts)) == TextsOf(ExpandOne(table)(ts[0])) + TextsOf(Expand(table, ts[1..]))
  {
    FlatMapAppend(TextOf, ExpandOne(table)(ts[0]), Expand(table, ts[1..]));
  }

  lemma OneText(t: Token)
    ensures TextsOf([t]) == TextOf(t)
  {
    FlatMapCons(TextOf, t, []);
    assert [t] + [] == [t] && TextOf(t) + [] == TextOf(t);
  }

  lemma AtomsAreKnown(s: string, inClass: bool, negated: bool, dash: bool)
    requires s != "" && Scan(s, inClass, negated, dash).Some?
    ensures var ts := Scan(s, inClass, negated, dash).value;
            ts != [] && (ts[0].Atom? ==> ts[0].category in CATEGORIES && s[0] == '\\' && inClass && negated && !dash)
  {
    if s[0] == '\\' && AtomCategory(s).Some? {
      AtomText(s);
    }
  }

  lemma Lookahead(table: Table4, s: string, inClass: bool, negated: bool, dash: bool)
    requires InertTable(table) && Scan(s, inClass, negated, dash).Some?
    ensures SameStart(s, TextsOf(Expand(table, Scan(s, inClass, negated, dash).value)))
  {
    if s != "" {
      var ts := Scan(s, inClass, negated, dash).value;
      var rest, i, n, d := NextState(s, inClass, negated, dash);
      AtomsAreKnown(s, inClass, negated, dash);
      ExpandedText(table, ts);
      var tail := TextsOf(Expand(table, ts[1..]));
      if ts[0].Atom? {
        InertHead(table(ts[0].category), tail);
      } else {
        OneText(ts[0]);
      }
    }
  }

  /** An accepted step that is no atom is taken in the same way when what follows is translated. */
  lemma SameStep(
      s: string, inClass: bool, negated: bool, dash: bool, t: string) returns (rest: string, i: bool, n: bool, d: bool)
    requires s != "" && Scan(s, inClass, negated, dash).Some? && Scan(s, inClass, negated, dash).value != []
    requires var token := Scan(s, inClass, negated, dash).value[0];
             && !token.Atom? && |TextOf(token)| <= |s| && SameStart(s[|TextOf(token)|..], t)
             && (inClass && StartsWith(s, "[\\]]") ==> StartsWith(t, "\\]]"))
    ensures Scan(rest, i, n, d).Some? && |rest| < |s| && rest == s[|TextOf(Scan(s, inClass, negated, dash).value[0])|..]
    ensures Scan(s, inClass, negated, dash).value[1..] == Scan(rest, i, n, d).value
    ensures var token := Scan(s, inClass, negated, dash).value[0];
            Scan(TextOf(token) + t, inClass, negated, dash) == Prepend(token, Scan(t, i, n, d))
  {
    var token := Scan(s, inClass, negated, dash).value[0];
    rest, i, n, d := s[|TextOf(token)|..], inClass, negated, false;
    var u := TextOf(token) + t;
    assert u[|TextOf(token)|..] == t;
    if s[0] == '\\' {
      assert token == Esc(s[1]) && u[1] == s[1];
    } else {
      assert token == Plain(s[0]) && u[0] == s[0];
      assert |s| > 1 ==> s[1] == rest[0] && u[1] == t[0];
      if s[0] == '[' && !inClass {
        i, n := true, |s| > 1 && s[1] == '^';
      } else if s[0] == '[' {
        assert StartsWith(u, "[\\]]");
      } else if s[0] == ']' {
        i := false;
      } else {
        d := s[0] == '-';
      }
    }
  }

  /** The one nested bracket that is let through is followed by tokens that stay as they are. */
  lemma NestedBracket(table: Table4, s: string, inClass: bool, negated: bool, dash: bool)
    requires inClass && StartsWith(s, "[\\]]") && Scan(s, inClass, negated, dash).Some?
    ensures StartsWith(TextsOf(Expand(table, Scan(s, inClass, negated, dash).value[1..])), "\\]]")
  {
    var ts := Scan(s, inClass, negated, dash).value;
    var nested := "[\\]]";
    assert s[0] == nested[0] && s[1] == nested[1] && s[2] == nested[2] && s[3] == nested[3];
    var a, b := s[1..], s[1..][2..];
    assert a[0] == '\\' && a[1] == ']' && b[0] == ']';
    assert Scan(a, true, negated, false) == Some(ts[1..]);
    assert Scan(a, true, negated, false) == Prepend(Esc(']'), Scan(b, true, negated, false));
    assert Scan(b, true, negated, false) == Prepend(Plain(']'), Scan(b[1..], false, negated, false));
    ExpandedText(table, ts[1..]);
    ExpandedText(table, ts[1..][1..]);
    OneText(Esc(']'));
    OneText(Plain(']'));
  }

  /** Scanning a translated pattern gives the expanded tokens: it is accepted again, and it has no
      atoms left. */
  lemma {:induction false} ScanExpanded(table: Table4, s: string, inClass: bool, negated: bool, dash: bool)
    requires InertTable(table) && Scan(s, inClass, negated, dash).Some?
    ensures var ts := Scan(s, inClass, negated, dash).value;
            Scan(TextsOf(Expand(table, ts)), inClass, negated, dash) == Some(Expand(table, ts))
    decreases |s|
  {
    var ts := Scan(s, inClass, negated, dash).value;
    if s != "" {
      AtomsAreKnown(s, inClass, negated, dash);
      ExpandedText(table, ts);
      var tail := Expand(table, ts[1..]);
      var rest, i, n, d := NextState(s, inClass, negated, dash);
      if ts[0].Atom? {
        AtomState(s, inClass, negated, dash, rest, i, n, d);
        ScanExpanded(table, rest, true, true, false);
        ScanInert(table(ts[0].category), TextsOf(tail), true, false);
      } else {
        OneText(ts[0]);
        if StartsWith(s, "[\\]]") && inClass {
          NestedBracket(table, s, inClass, negated, dash);
        }
        Lookahead(table, rest, i, n, d);
        assert s[|TextOf(ts[0])|..] == rest;
        var rest', i', n', d' := SameStep(s, inClass, negated, dash, TextsOf(tail));
        ScanExpanded(table, rest', i', n', d');
      }
    }
  }

  lemma AtomState(s: string, inClass: bool, negated: bool, dash: bool, rest: string, i: bool, n: bool, d: bool)
    requires s != "" && Scan(s, inClass, negated, dash).Some? && Scan(s, inClass, negated, dash).value != []
    requires Scan(s, inClass, negated, dash).value[0].Atom?
    requires s == TextOf(Scan(s, inClass, negated, dash).value[0]) + rest
    ensures inClass && negated && |rest| < |s|
    ensures Scan(rest, true, true, false) == Some(Scan(s, inClass, negated, dash).value[1..])
  {
    AtomText(s);
    assert rest == s[|AtomCategory(s).value| + 4..];
  }
}
