/** Which patterns are translated: the rules a pattern's tokens have to meet, stated for each token by
    what stands before and after it, and that the scanner accepts exactly these patterns. */
module PatternAcceptance {
  import opened Common
  import opened CategorySpans
  import opened PatternScanner
  import opened PatternTranslation

  const OPEN := Plain('[')
  const CLOSE := Plain(']')

  ghost predicate NoneClosed(ts: seq<Token>, j: nat, i: nat) {
    forall k :: j < k < i && k < |ts| ==> ts[k] != CLOSE
  }

  /** Position `i` is in a class: some bracket before it is open and none has closed since. */
  ghost predicate Inside(ts: seq<Token>, i: nat) {
    exists j: nat {:trigger NoneClosed(ts, j, i)} :: j < i && j < |ts| && ts[j] == OPEN && NoneClosed(ts, j, i)
  }

  /** It is in a class that begins with a caret. */
  ghost predicate Negated(ts: seq<Token>, i: nat) {
    exists j: nat {:trigger NoneClosed(ts, j, i)} ::
      && j < i && j + 1 < |ts| && ts[j] == OPEN && !Inside(ts, j) && NoneClosed(ts, j, i) && ts[j + 1] == Plain('^')
  }

  ghost predicate Next(ts: seq<Token>, i: nat, t: Token) { i + 1 < |ts| && ts[i + 1] == t }

  /** What is allowed at position `i`.  Outside of classes: anything but a closing bracket.  In a class:
      no set operation; a bracket only right before an escaped and a real closing one; and, in one that
      begins with a caret, the four categories where no dash stands beside them. */
  ghost predicate Allowed(ts: seq<Token>, i: nat)
    requires i < |ts|
  {
    match ts[i]
    case Plain(c) =>
      && c != '\\'
      && (c == ']' ==> Inside(ts, i))
      && (c == '[' && Inside(ts, i) ==> i + 2 < |ts| && ts[i + 1] == Esc(']') && ts[i + 2] == CLOSE)
      && (c in {'&', '-', '~', '|'} && Inside(ts, i) ==> !Next(ts, i, Plain(c)))
    case Esc(e) => e !in {'p', 'P'}
    case Atom(category) =>
      && category in {"Cc", "Cf", "Zl", "Zp"}
      && Inside(ts, i) && Negated(ts, i)
      && (i > 0 ==> ts[i - 1] != Plain('-')) && !Next(ts, i, Plain('-'))
  }

  /** Every token is allowed where it stands, and every class is closed. */
  ghost predicate Acceptable(ts: seq<Token>) {
    (forall i: nat {:trigger Allowed(ts, i)} :: i < |ts| ==> Allowed(ts, i)) && !Inside(ts, |ts|)
  }

  // ----- one position on

  lemma InsideStep(ts: seq<Token>, i: nat)
    requires i < |ts|
    ensures Inside(ts, i + 1) <==> ts[i] == OPEN || (Inside(ts, i) && ts[i] != CLOSE)
  {
    if Inside(ts, i + 1) {
      var j: nat :| j < i + 1 && ts[j] == OPEN && NoneClosed(ts, j, i + 1);
      assert j < i ==> NoneClosed(ts, j, i) && ts[i] != CLOSE;
    }
    if ts[i] == OPEN {
      assert NoneClosed(ts, i, i + 1);
    }
    if Inside(ts, i) && ts[i] != CLOSE {
      var j: nat :| j < i && ts[j] == OPEN && NoneClosed(ts, j, i);
      assert NoneClosed(ts, j, i + 1);
    }
  }

  lemma NegatedStep(ts: seq<Token>, i: nat)
    requires i < |ts|
    ensures Negated(ts, i + 1) <==>
              if ts[i] == OPEN && !Inside(ts, i) then Next(ts, i, Plain('^')) else Negated(ts, i) && ts[i] != CLOSE
  {
    if Negated(ts, i + 1) {
      var j: nat :| j < i + 1 && j + 1 < |ts| && ts[j] == OPEN && !Inside(ts, j) && NoneClosed(ts, j, i + 1)
        && ts[j + 1] == Plain('^');
      assert j < i ==> NoneClosed(ts, j, i) && ts[i] != CLOSE && Inside(ts, i);
    }
    if ts[i] == OPEN && !Inside(ts, i) && Next(ts, i, Plain('^')) {
      assert NoneClosed(ts, i, i + 1);
    }
    if Negated(ts, i) && ts[i] != CLOSE {
      var j: nat :| j < i && j + 1 < |ts| && ts[j] == OPEN && !Inside(ts, j) && NoneClosed(ts, j, i)
        && ts[j + 1] == Plain('^');
      assert NoneClosed(ts, j, i + 1) && Inside(ts, i);
    }
  }

  /** The scanner's state when it reaches position `i`. */
  ghost predicate StateAt(ts: seq<Token>, i: nat, inClass: bool, negated: bool, dash: bool) {
    && i <= |ts| && (inClass <==> Inside(ts, i)) && (inClass ==> (negated <==> Negated(ts, i)))
    && (dash <==> i > 0 && ts[i - 1] == DASH)
  }

  lemma NextState(ts: seq<Token>, i: nat, inClass: bool, negated: bool, dash: bool)
      returns (inClass': bool, negated': bool, dash': bool)
    requires StateAt(ts, i, inClass, negated, dash) && i < |ts|
    ensures StateAt(ts, i + 1, inClass', negated', dash')
    ensures dash' == (ts[i] == DASH)
    ensures inClass' == (ts[i] == OPEN || (inClass && ts[i] != CLOSE))
    ensures negated' == if ts[i] == OPEN && !inClass then Next(ts, i, Plain('^')) else negated
  {
    InsideStep(ts, i);
    NegatedStep(ts, i);
    inClass' := ts[i] == OPEN || (inClass && ts[i] != CLOSE);
    negated' := if ts[i] == OPEN && !inClass then Next(ts, i, Plain('^')) else negated;
    dash' := ts[i] == DASH;
  }

  // ----- the text of a token and of what follows it

  lemma TextFrom(ts: seq<Token>, i: nat)
    requires i <= |ts|
    ensures TextsOf(ts[i..]) == if i == |ts| then "" else TextOf(ts[i]) + TextsOf(ts[i + 1..])
  {
    if i < |ts| {
      assert ts[i..][1..] == ts[i + 1..];
    }
  }

  /** The next character tells the next token, if that is an ordinary character. */
  lemma NextChar(ts: seq<Token>, i: nat, c: char)
    requires i < |ts| && c != '\\' && (i + 1 < |ts| ==> ts[i + 1] != Plain('\\'))
    ensures var rest := TextsOf(ts[i + 1..]); (rest != "" && rest[0] == c) <==> Next(ts, i, Plain(c))
  {
    TextFrom(ts, i + 1);
  }

  lemma FindsEnd(category: string, rest: string)
    requires category in CATEGORIES
    ensures AtomCategory("\\p{" + category + "}" + rest)
         == if rest != "" && rest[0] == '-' then None else Some(category)
  {
    var s := "\\p{" + category + "}" + rest;
    assert |category| == 2 && category[0] != '}' && category[1] != '}';
    assert s[3] == category[0] && s[4] == category[1] && s[5] == '}';
    assert FindFrom(s, '}', 5) == 5 && FindFrom(s, '}', 4) == 5 && FindFrom(s, '}', 3) == 5;
    assert s[3..5] == category;
    assert s[6..] == rest;
  }

  // ----- one step of the scanner

  lemma PlainStep(ts: seq<Token>, i: nat, inClass: bool, negated: bool, dash: bool)
    requires i < |ts| && ts[i].Plain? && ts[i].c !in {'\\', '[', ']'}
    ensures var rest := TextsOf(ts[i + 1..]);
            Scan(TextsOf(ts[i..]), inClass, negated, dash) ==
              if inClass && ts[i].c in {'&', '-', '~', '|'} && rest != "" && rest[0] == ts[i].c then None
              else Prepend(ts[i], Scan(rest, inClass, negated, ts[i] == DASH))
  {
    TextFrom(ts, i);
    assert TextsOf(ts[i..])[1..] == TextsOf(ts[i + 1..]);
  }

  lemma CloseStep(ts: seq<Token>, i: nat, inClass: bool, negated: bool, dash: bool)
    requires i < |ts| && ts[i] == CLOSE
    ensures Scan(TextsOf(ts[i..]), inClass, negated, dash) ==
              if !inClass then None else Prepend(ts[i], Scan(TextsOf(ts[i + 1..]), false, negated, false))
  {
    TextFrom(ts, i);
    assert TextsOf(ts[i..])[1..] == TextsOf(ts[i + 1..]);
  }

  lemma OpenStep(ts: seq<Token>, i: nat, inClass: bool, negated: bool, dash: bool)
    requires i < |ts| && ts[i] == OPEN
    ensures var rest := TextsOf(ts[i + 1..]);
            Scan(TextsOf(ts[i..]), inClass, negated, dash) ==
              if !inClass then Prepend(ts[i], Scan(rest, true, rest != "" && rest[0] == '^', false))
              else if !StartsWith(rest, "\\]]") then None
              else Prepend(ts[i], Scan(rest, inClass, negated, false))
  {
    TextFrom(ts, i);
    var s, rest := TextsOf(ts[i..]), TextsOf(ts[i + 1..]);
    assert s[1..] == rest && |s| == |rest| + 1;
    assert StartsWith(s, "[\\]]") <==> StartsWith(rest, "\\]]") by {
      assert "[\\]]"[1..] == "\\]]";
      if StartsWith(rest, "\\]]") {
        assert s[..4] == "[" + rest[..3];
      }
    }
  }

  lemma EscStep(ts: seq<Token>, i: nat, inClass: bool, negated: bool, dash: bool)
    requires i < |ts| && ts[i].Esc? && ts[i].e !in {'p', 'P'}
    ensures Scan(TextsOf(ts[i..]), inClass, negated, dash)
         == Prepend(ts[i], Scan(TextsOf(ts[i + 1..]), inClass, negated, false))
  {
    TextFrom(ts, i);
    assert TextsOf(ts[i..])[2..] == TextsOf(ts[i + 1..]);
  }

  lemma AtomStep(ts: seq<Token>, i: nat, inClass: bool, negated: bool, dash: bool)
    requires i < |ts| && ts[i].Atom? && ts[i].category in CATEGORIES
    ensures var rest := TextsOf(ts[i + 1..]);
            Scan(TextsOf(ts[i..]), inClass, negated, dash) ==
              if !inClass || !negated || dash || (rest != "" && rest[0] == '-') then None
              else Prepend(ts[i], Scan(rest, inClass, negated, false))
  {
    TextFrom(ts, i);
    var s, rest := TextsOf(ts[i..]), TextsOf(ts[i + 1..]);
    FindsEnd(ts[i].category, rest);
    assert s == "\\p{" + ts[i].category + "}" + rest;
    assert s[0] == '\\' && s[1] == 'p';
    assert s[|ts[i].category| + 4..] == rest;
  }

  lemma NestedText(ts: seq<Token>, i: nat)
    requires i + 2 < |ts| && ts[i + 1] == Esc(']') && ts[i + 2] == CLOSE
    ensures StartsWith(TextsOf(ts[i + 1..]), "\\]]")
  {
    TextFrom(ts, i + 1);
    TextFrom(ts, i + 2);
  }

  /** An allowed token is scanned as this token. */
  lemma AllowedStep(
      ts: seq<Token>, i: nat, inClass: bool, negated: bool, dash: bool, inClass': bool, negated': bool, dash': bool)
    requires StateAt(ts, i, inClass, negated, dash) && i < |ts| && Allowed(ts, i)
    requires i + 1 < |ts| ==> ts[i + 1] != Plain('\\')
    requires dash' == (ts[i] == DASH) && inClass' == (ts[i] == OPEN || (inClass && ts[i] != CLOSE))
    requires negated' == if ts[i] == OPEN && !inClass then Next(ts, i, Plain('^')) else negated
    ensures Scan(TextsOf(ts[i..]), inClass, negated, dash)
         == Prepend(ts[i], Scan(TextsOf(ts[i + 1..]), inClass', negated', dash'))
  {
    hide Scan, Inside, Negated, Next;
    match ts[i] {
      case Plain(c) =>
        if c == '[' {
          NextChar(ts, i, '^');
          OpenStep(ts, i, inClass, negated, dash);
          if inClass {
            NestedText(ts, i);
          }
        } else if c == ']' {
          CloseStep(ts, i, inClass, negated, dash);
        } else {
          NextChar(ts, i, c);
          PlainStep(ts, i, inClass, negated, dash);
        }
      case Esc(e) => EscStep(ts, i, inClass, negated, dash);
      case Atom(category) =>
        NextChar(ts, i, '-');
        AtomStep(ts, i, inClass, negated, dash);
    }
  }

  lemma {:induction false} AcceptedFrom(ts: seq<Token>, i: nat, inClass: bool, negated: bool, dash: bool)
    requires Acceptable(ts) && StateAt(ts, i, inClass, negated, dash)
    ensures Scan(TextsOf(ts[i..]), inClass, negated, dash) == Some(ts[i..])
    decreases |ts| - i
  {
    hide Inside, Negated;
    TextFrom(ts, i);
    if i < |ts| {
      var c, n, d := NextState(ts, i, inClass, negated, dash);
      assert Allowed(ts, i);
      assert i + 1 < |ts| ==> Allowed(ts, i + 1);
      AllowedStep(ts, i, inClass, negated, dash, c, n, d);
      AcceptedFrom(ts, i + 1, c, n, d);
      assert [ts[i]] + ts[i + 1..] == ts[i..];
    }
  }

  // ----- what an accepted scan says of its tokens

  lemma {:induction false} NoBackslash(s: string, inClass: bool, negated: bool, dash: bool)
    requires Scan(s, inClass, negated, dash).Some? && Scan(s, inClass, negated, dash).value != []
    ensures Scan(s, inClass, negated, dash).value[0] != Plain('\\')
  {
  }

  /** The tokens from `i` on are what the scanner finds there. */
  ghost predicate ScannedAt(ts: seq<Token>, i: nat, inClass: bool, negated: bool, dash: bool) {
    StateAt(ts, i, inClass, negated, dash) && Scan(TextsOf(ts[i..]), inClass, negated, dash) == Some(ts[i..])
  }

  lemma NestedTokens(ts: seq<Token>, i: nat, negated: bool)
    requires i < |ts| && StartsWith(TextsOf(ts[i + 1..]), "\\]]")
    requires Scan(TextsOf(ts[i + 1..]), true, negated, false) == Some(ts[i + 1..])
    ensures i + 2 < |ts| && ts[i + 1] == Esc(']') && ts[i + 2] == CLOSE
  {
    var a := TextsOf(ts[i + 1..]);
    var three := "\\]]";
    assert a[0] == three[0] && a[1] == three[1] && a[2] == three[2];
    var b := a[2..];
    assert b[0] == ']';
    assert Scan(a, true, negated, false) == Prepend(Esc(']'), Scan(b, true, negated, false));
    assert Scan(b, true, negated, false) == Prepend(CLOSE, Scan(b[1..], false, negated, false));
    assert ts[i + 1..][0] == Esc(']') && ts[i + 1..][1] == CLOSE;
  }

  lemma SomeOfPrepend(t: Token, rest: Option<seq<Token>>, ts: seq<Token>)
    requires ts != [] && Prepend(t, rest) == Some(ts)
    ensures ts[0] == t && rest == Some(ts[1..])
  {
  }

  lemma NoEscapedP(s: string, inClass: bool, negated: bool, dash: bool)
    requires s != "" && Scan(s, inClass, negated, dash).Some? && Scan(s, inClass, negated, dash).value != []
    ensures var t := Scan(s, inClass, negated, dash).value[0]; t.Esc? ==> t.e !in {'p', 'P'}
  {
  }

  /** What the scanner has accepted at one position is allowed there, and the scan goes on. */
  lemma ScannedStep(ts: seq<Token>, i: nat, inClass: bool, negated: bool, dash: bool)
      returns (inClass': bool, negated': bool, dash': bool)
    requires ScannedAt(ts, i, inClass, negated, dash) && i < |ts|
    ensures Allowed(ts, i) && ScannedAt(ts, i + 1, inClass', negated', dash')
  {
    hide Scan, Inside, Negated, Next;
    var s, rest := TextsOf(ts[i..]), TextsOf(ts[i + 1..]);
    TextFrom(ts, i);
    NoBackslash(s, inClass, negated, dash);
    NoEscapedP(s, inClass, negated, dash);
    AtomsAreKnown(s, inClass, negated, dash);
    inClass', negated', dash' := NextState(ts, i, inClass, negated, dash);
    assert ts[i..][0] == ts[i] && ts[i..][1..] == ts[i + 1..];
    match ts[i] {
      case Plain(c) =>
        if c == '[' {
          OpenStep(ts, i, inClass, negated, dash);
          NoBackslashBehind(ts, i, inClass', if inClass then negated else rest != "" && rest[0] == '^', false);
          NextChar(ts, i, '^');
          if inClass {
            NestedTokens(ts, i, negated);
          }
        } else if c == ']' {
          CloseStep(ts, i, inClass, negated, dash);
        } else {
          PlainStep(ts, i, inClass, negated, dash);
          NoBackslashBehind(ts, i, inClass, negated, ts[i] == DASH);
          NextChar(ts, i, c);
        }
      case Esc(e) => EscStep(ts, i, inClass, negated, dash);
      case Atom(category) =>
        AtomStep(ts, i, inClass, negated, dash);
        NoBackslashBehind(ts, i, inClass, negated, false);
        NextChar(ts, i, '-');
    }
  }

  lemma NoBackslashBehind(ts: seq<Token>, i: nat, inClass: bool, negated: bool, dash: bool)
    requires i < |ts|
    ensures Scan(TextsOf(ts[i + 1..]), inClass, negated, dash) == Some(ts[i + 1..]) && i + 1 < |ts| ==>
              ts[i + 1] != Plain('\\')
  {
    if Scan(TextsOf(ts[i + 1..]), inClass, negated, dash) == Some(ts[i + 1..]) && i + 1 < |ts| {
      NoBackslash(TextsOf(ts[i + 1..]), inClass, negated, dash);
    }
  }

  lemma {:induction false} ScannedIsAllowed(
      ts: seq<Token>, i: nat, inClass: bool, negated: bool, dash: bool)
    requires ScannedAt(ts, i, inClass, negated, dash)
    ensures (forall k: nat {:trigger Allowed(ts, k)} :: i <= k < |ts| ==> Allowed(ts, k)) && !Inside(ts, |ts|)
    decreases |ts| - i
  {
    hide Allowed, Inside;
    TextFrom(ts, i);
    if i < |ts| {
      var c, n, d := ScannedStep(ts, i, inClass, negated, dash);
      ScannedIsAllowed(ts, i + 1, c, n, d);
    }
  }

  lemma StartsOutside(ts: seq<Token>)
    ensures StateAt(ts, 0, false, false, false) && ts[0..] == ts
  {
  }

  /** The scanner accepts exactly the acceptable patterns, and finds their tokens. */
  lemma ScansExactly(p: string, ts: seq<Token>)
    ensures Scan(p, false, false, false) == Some(ts) <==> p == TextsOf(ts) && Acceptable(ts)
  {
    hide Allowed, Inside;
    StartsOutside(ts);
    if Scan(p, false, false, false) == Some(ts) {
      ScanKeepsText(p, false, false, false);
      ScannedIsAllowed(ts, 0, false, false, false);
    }
    if p == TextsOf(ts) && Acceptable(ts) {
      AcceptedFrom(ts, 0, false, false, false);
    }
  }

  /** A pattern is translated exactly if it is the text of acceptable tokens with an atom among them
      and the result compiles: then every atom is replaced by its table. */
  lemma TranslatesExactly(table: Table4, compiles: string -> bool, p: string, ts: seq<Token>)
    ensures p == TextsOf(ts) && Acceptable(ts) && HasAtom(ts) && compiles(TextsOf(Expand(table, ts))) ==>
              Translate(table, compiles, p) == TextsOf(Expand(table, ts))
    ensures Translate(table, compiles, p) != p ==>
              exists us :: p == TextsOf(us) && Acceptable(us) && HasAtom(us) && compiles(TextsOf(Expand(table, us)))
  {
    hide Scan, Acceptable, HasAtom;
    ScansExactly(p, ts);
    ShortcutIsExact(table, compiles, p);
    var scan := Scan(p, false, false, false);
    if scan.Some? {
      ScansExactly(p, scan.value);
    }
    assert Translated(table, compiles, p, scan) != p ==>
        scan.Some? && HasAtom(scan.value) && compiles(TextsOf(Expand(table, scan.value)));
  }
}
