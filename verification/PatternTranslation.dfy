/** The translation built on the scanner: what it returns, and the loops that compute it. */
module PatternTranslation {
  import opened Common
  import opened CategorySpans
  import opened PatternScanner

  predicate HasAtom(ts: seq<Token>) { exists i :: 0 <= i < |ts| && ts[i].Atom? }

  const ATOM_START := "\\p{"

  /** All atoms of a pattern are replaced, or none. */
  function Translate(table: Table4, compiles: string -> bool, p: string): string {
    if !Contains(p, ATOM_START) then p
    else Translated(table, compiles, p, Scan(p, false, false, false))
  }

  function Translated(table: Table4, compiles: string -> bool, p: string, scan: Option<seq<Token>>): string {
    if scan.None? || !HasAtom(scan.value) then p
    else if compiles(TextsOf(Expand(table, scan.value))) then TextsOf(Expand(table, scan.value))
    else p
  }

  // ----- the four tables

  lemma SpansInRange(inside: nat -> bool, n: nat)
    requires n <= LIMIT
    ensures forall i :: 0 <= i < |SpansOf(inside, n)| ==>
        SpansOf(inside, n)[i].lo < LIMIT && SpansOf(inside, n)[i].hi < LIMIT
  {
    SpansAreMaximal(inside, n);
  }

  function CategoryTokens(category: nat -> string, c: string): seq<Token> {
    SpansInRange(In(category, c), LIMIT);
    SpansTokens(SpansOf(In(category, c), LIMIT))
  }

  function TableOf(category: nat -> string): Table4 { (c: string) => CategoryTokens(category, c) }

  /** Every category has a code point, as in any version of the Unicode database. */
  ghost predicate Inhabited(category: nat -> string) {
    forall c :: c in CATEGORIES ==> exists p: nat :: p < LIMIT && category(p) == c
  }

  lemma InertTailAppend(a: seq<Token>, b: seq<Token>)
    requires InertTail(a) && InertTail(b)
    ensures InertTail(a + b)
  {
  }

  lemma HexIsHarmless(point: nat)
    requires point <= 0xFFFF
    ensures forall i :: 0 <= i < 4 ==> Harmless(Hex(point)[i]) && Hex(point)[i] != '-'
  {
  }

  lemma CodeIsInert(point: nat)
    requires point < LIMIT
    ensures Inert(CodeTokens(point))
  {
    if point <= 0xFFFF {
      HexIsHarmless(point);
    }
  }

  lemma SpanIsInert(s: Span)
    requires s.lo < LIMIT && s.hi < LIMIT
    ensures Inert(SpanTokens(s))
  {
    CodeIsInert(s.lo);
    CodeIsInert(s.hi);
    var hi := CodeTokens(s.hi);
    assert ([DASH] + hi)[1] == hi[0];
    InertTailAppend(CodeTokens(s.lo), [DASH] + hi);
    assert CodeTokens(s.lo) + [DASH] + hi == CodeTokens(s.lo) + ([DASH] + hi);
  }

  lemma {:induction false} SpansAreInert(spans: seq<Span>)
    requires spans != [] && forall i :: 0 <= i < |spans| ==> spans[i].lo < LIMIT && spans[i].hi < LIMIT
    ensures Inert(SpansTokens(spans))
  {
    SpanIsInert(spans[0]);
    if |spans| > 1 {
      SpansAreInert(spans[1..]);
    }
    InertTailAppend(SpanTokens(spans[0]), SpansTokens(spans[1..]));
  }

  lemma TablesAreInert(category: nat -> string)
    requires Inhabited(category)
    ensures InertTable(TableOf(category))
  {
    forall c | c in CATEGORIES ensures Inert(CategoryTokens(category, c)) {
      var p: nat :| p < LIMIT && category(p) == c;
      SpansInRange(In(category, c), LIMIT);
      SpansContain(In(category, c), LIMIT, p);
      SpansAreInert(SpansOf(In(category, c), LIMIT));
    }
  }

  lemma CodeText(point: nat)
    requires point < LIMIT
    ensures TextsOf(CodeTokens(point)) == Codepoint(point)
  {
    if point <= 0xFFFF {
      var h := Hex(point);
      FlatMapCons(TextOf, Esc('u'), [Plain(h[0]), Plain(h[1]), Plain(h[2]), Plain(h[3])]);
      FlatMapCons(TextOf, Plain(h[0]), [Plain(h[1]), Plain(h[2]), Plain(h[3])]);
      FlatMapCons(TextOf, Plain(h[1]), [Plain(h[2]), Plain(h[3])]);
      FlatMapCons(TextOf, Plain(h[2]), [Plain(h[3])]);
      OneText(Plain(h[3]));
      assert CodeTokens(point) == [Esc('u')] + [Plain(h[0]), Plain(h[1]), Plain(h[2]), Plain(h[3])];
      assert [Plain(h[0]), Plain(h[1]), Plain(h[2]), Plain(h[3])] ==
          [Plain(h[0])] + [Plain(h[1]), Plain(h[2]), Plain(h[3])];
      assert [Plain(h[1]), Plain(h[2]), Plain(h[3])] == [Plain(h[1])] + [Plain(h[2]), Plain(h[3])];
      assert [Plain(h[2]), Plain(h[3])] == [Plain(h[2])] + [Plain(h[3])];
      assert h == [h[0]] + ([h[1]] + ([h[2]] + [h[3]]));
    } else {
      OneText(Plain(point as char));
    }
  }

  lemma SpanTextOfTokens(s: Span)
    requires s.lo < LIMIT && s.hi < LIMIT
    ensures TextsOf(SpanTokens(s)) == SpanText(s)
  {
    CodeText(s.lo);
    CodeText(s.hi);
    FlatMapAppend(TextOf, CodeTokens(s.lo) + [DASH], CodeTokens(s.hi));
    FlatMapAppend(TextOf, CodeTokens(s.lo), [DASH]);
    OneText(DASH);
  }

  /** The table text, as the source joins it, is the text of the table's tokens. */
  lemma {:induction false} SpansTextOfTokens(spans: seq<Span>)
    requires forall i :: 0 <= i < |spans| ==> spans[i].lo < LIMIT && spans[i].hi < LIMIT
    ensures TextsOf(SpansTokens(spans)) == SpansText(spans)
  {
    if spans != [] {
      SpanTextOfTokens(spans[0]);
      SpansTextOfTokens(spans[1..]);
      FlatMapAppend(TextOf, SpanTokens(spans[0]), SpansTokens(spans[1..]));
    }
  }

  // ----- what a translation promises

  ghost predicate Known(ts: seq<Token>) {
    forall i :: 0 <= i < |ts| && ts[i].Atom? ==> ts[i].category in CATEGORIES
  }

  /** No atom stands next to a dash, which could make it the end of a range. */
  ghost predicate Standalone(ts: seq<Token>) {
    && (forall i :: 0 <= i < |ts| - 1 && ts[i + 1].Atom? ==> ts[i] != DASH)
    && (forall i :: 0 <= i < |ts| - 1 && ts[i].Atom? ==> ts[i + 1] != DASH)
  }

  lemma {:induction false} ScanIsKnown(s: string, inClass: bool, negated: bool, dash: bool)
    requires Scan(s, inClass, negated, dash).Some?
    ensures Known(Scan(s, inClass, negated, dash).value)
    decreases |s|
  {
    if s != "" {
      var ts := Scan(s, inClass, negated, dash).value;
      var rest, i, n, d := NextState(s, inClass, negated, dash);
      AtomsAreKnown(s, inClass, negated, dash);
      ScanIsKnown(rest, i, n, d);
      assert ts == [ts[0]] + ts[1..];
    }
  }

  /** The dash before an atom and the dash after it are refused by two different checks. */
  lemma {:induction false} ScanIsStandalone(s: string, inClass: bool, negated: bool, dash: bool)
    requires Scan(s, inClass, negated, dash).Some?
    ensures var ts := Scan(s, inClass, negated, dash).value;
            Standalone(ts) && (dash && ts != [] ==> !ts[0].Atom?)
    decreases |s|
  {
    if s != "" {
      var ts := Scan(s, inClass, negated, dash).value;
      var rest, i, n, d := NextState(s, inClass, negated, dash);
      AtomsAreKnown(s, inClass, negated, dash);
      ScanIsStandalone(rest, i, n, d);
      assert ts == [ts[0]] + ts[1..];
      if |ts| > 1 {
        DashState(s, inClass, negated, dash, rest);
      }
    }
  }

  lemma DashState(s: string, inClass: bool, negated: bool, dash: bool, rest: string)
    requires s != "" && Scan(s, inClass, negated, dash).Some? && |Scan(s, inClass, negated, dash).value| > 1
    requires s == TextOf(Scan(s, inClass, negated, dash).value[0]) + rest
    ensures var ts := Scan(s, inClass, negated, dash).value;
            && (ts[0] == DASH ==> !ts[1].Atom?) && (ts[0].Atom? ==> ts[1] != DASH)
  {
    var ts := Scan(s, inClass, negated, dash).value;
    if ts[0] == DASH {
      AfterDash(s, inClass, negated, dash, rest);
    } else if ts[0].Atom? {
      AfterAtom(s, inClass, negated, dash, rest);
    }
  }

  lemma AfterDash(s: string, inClass: bool, negated: bool, dash: bool, rest: string)
    requires s != "" && Scan(s, inClass, negated, dash).Some? && |Scan(s, inClass, negated, dash).value| > 1
    requires s == TextOf(Scan(s, inClass, negated, dash).value[0]) + rest
    requires Scan(s, inClass, negated, dash).value[0] == DASH
    ensures !Scan(s, inClass, negated, dash).value[1].Atom?
  {
    var ts := Scan(s, inClass, negated, dash).value;
    assert rest == s[1..];
    assert Scan(rest, inClass, negated, true) == Some(ts[1..]);
    assert rest != "";
    AtomsAreKnown(rest, inClass, negated, true);
  }

  lemma AfterAtom(s: string, inClass: bool, negated: bool, dash: bool, rest: string)
    requires s != "" && Scan(s, inClass, negated, dash).Some? && |Scan(s, inClass, negated, dash).value| > 1
    requires s == TextOf(Scan(s, inClass, negated, dash).value[0]) + rest
    requires Scan(s, inClass, negated, dash).value[0].Atom?
    ensures Scan(s, inClass, negated, dash).value[1] != DASH
  {
    var ts := Scan(s, inClass, negated, dash).value;
    AtomText(s);
    var c := AtomCategory(s).value;
    assert rest == s[|c| + 4..];
    assert Scan(rest, true, true, false) == Some(ts[1..]);
    assert rest != "" && rest[0] == s[|c| + 4] != '-';
    NoDashFirstToken(rest, true, true, false);
  }

  lemma NoDashFirstToken(s: string, inClass: bool, negated: bool, dash: bool)
    requires s != "" && s[0] != '-' && Scan(s, inClass, negated, dash).Some?
    ensures Scan(s, inClass, negated, dash).value != [] && Scan(s, inClass, negated, dash).value[0] != DASH
  {
  }

  /** Translation is all or nothing: the result is the pattern, or the pattern with every atom,
      and only the atoms, replaced by its table. */
  lemma OnlyAtomsChange(table: Table4, compiles: string -> bool, p: string)
    ensures var scan := Scan(p, false, false, false);
            || Translate(table, compiles, p) == p
            || (scan.Some? && TextsOf(scan.value) == p && HasAtom(scan.value)
                && Known(scan.value) && Standalone(scan.value)
                && Translate(table, compiles, p) == TextsOf(Expand(table, scan.value)))
  {
    if Scan(p, false, false, false).Some? {
      ScanKeepsText(p, false, false, false);
      ScanIsKnown(p, false, false, false);
      ScanIsStandalone(p, false, false, false);
    }
  }

  lemma {:induction false} ExpandedHasNoAtom(table: Table4, ts: seq<Token>)
    requires InertTable(table) && Known(ts)
    ensures !HasAtom(Expand(table, ts))
  {
    if ts != [] {
      ExpandedText(table, ts);
      assert forall i :: 0 <= i < |ts[1..]| ==> ts[1..][i] == ts[i + 1];
      ExpandedHasNoAtom(table, ts[1..]);
      assert !HasAtom(ExpandOne(table)(ts[0]));
    }
  }

  /** A translated pattern is left as it is. */
  lemma TranslateIdempotent(table: Table4, compiles: string -> bool, p: string)
    requires InertTable(table)
    ensures Translate(table, compiles, Translate(table, compiles, p)) == Translate(table, compiles, p)
  {
    var scan := Scan(p, false, false, false);
    if Translate(table, compiles, p) != p {
      ScanIsKnown(p, false, false, false);
      ScanExpanded(table, p, false, false, false);
      ExpandedHasNoAtom(table, scan.value);
    }
  }

  lemma AtomIsContained(ts: seq<Token>, i: nat)
    requires i < |ts| && ts[i].Atom?
    ensures Contains(TextsOf(ts), ATOM_START)
  {
    var before := TextsOf(ts[..i]);
    assert ts == ts[..i] + ([ts[i]] + ts[i + 1..]);
    FlatMapAppend(TextOf, ts[..i], [ts[i]] + ts[i + 1..]);
    FlatMapCons(TextOf, ts[i], ts[i + 1..]);
    assert TextsOf(ts)[|before|..] == TextOf(ts[i]) + TextsOf(ts[i + 1..]);
    assert ATOM_START <= TextOf(ts[i]);
  }

  /** Looking for the text of an atom first changes no result. */
  lemma ShortcutIsExact(table: Table4, compiles: string -> bool, p: string)
    ensures Translate(table, compiles, p) == Translated(table, compiles, p, Scan(p, false, false, false))
  {
    var scan := Scan(p, false, false, false);
    if scan.Some? && HasAtom(scan.value) {
      var i :| 0 <= i < |scan.value| && scan.value[i].Atom?;
      AtomIsContained(scan.value, i);
      ScanKeepsText(p, false, false, false);
    }
  }

  // ----- the loops

  datatype Replacement = Replacement(start: nat, end: nat, category: string)

  function EndOf(replacements: seq<Replacement>, n: nat): nat
    requires n <= |replacements|
  {
    if n == 0 then 0 else replacements[n - 1].end
  }

  ghost predicate InOrder(replacements: seq<Replacement>, index: nat) {
    && (forall r :: r in replacements ==> r.start <= r.end <= index && r.category in CATEGORIES)
    && (forall j, k :: 0 <= j < k < |replacements| ==> replacements[j].end <= replacements[k].start)
  }

  /** The pattern up to the end of the `n`-th replacement, with the replacements made. */
  function Spliced(p: string, ranges: map<string, string>, replacements: seq<Replacement>, n: nat): string
    requires n <= |replacements| && InOrder(replacements, |p|) && ranges.Keys == CATEGORIES
  {
    if n == 0 then ""
    else
      Spliced(p, ranges, replacements, n - 1) + p[EndOf(replacements, n - 1)..replacements[n - 1].start]
      + ranges[replacements[n - 1].category]
  }

  /** The tokens read so far, expanded, are the pattern read so far with the replacements made. */
  ghost predicate ReadSoFar(
    table: Table4, p: string, ranges: map<string, string>, replacements: seq<Replacement>, index: nat,
    tokens: seq<Token>)
  {
    && index <= |p| && ranges.Keys == CATEGORIES && InOrder(replacements, index)
    && (HasAtom(tokens) <==> replacements != [])
    && TextsOf(Expand(table, tokens))
       == Spliced(p, ranges, replacements, |replacements|) + p[EndOf(replacements, |replacements|)..index]
  }

  ghost predicate TextTable(table: Table4, ranges: map<string, string>) {
    ranges.Keys == CATEGORIES && forall c :: c in CATEGORIES ==> ranges[c] == TextsOf(table(c))
  }

  lemma ExpandedSnoc(table: Table4, tokens: seq<Token>, t: Token)
    ensures TextsOf(Expand(table, tokens + [t])) == TextsOf(Expand(table, tokens)) + TextsOf(ExpandOne(table)(t))
  {
    FlatMapAppend(ExpandOne(table), tokens, [t]);
    FlatMapCons(ExpandOne(table), t, []);
    assert [t] + [] == [t] && ExpandOne(table)(t) + [] == ExpandOne(table)(t);
    FlatMapAppend(TextOf, Expand(table, tokens), ExpandOne(table)(t));
  }

  lemma HasAtomSnoc(tokens: seq<Token>, t: Token)
    ensures HasAtom(tokens + [t]) <==> HasAtom(tokens) || t.Atom?
  {
    var longer := tokens + [t];
    if HasAtom(tokens) {
      var i :| 0 <= i < |tokens| && tokens[i].Atom?;
      assert longer[i].Atom?;
    }
    if t.Atom? {
      assert longer[|tokens|].Atom?;
    }
  }

  /** Text that is copied from the pattern prolongs the copied stretch. */
  lemma CopiedOn(p: string, before: string, end: nat, index: nat, text: string)
    requires end <= index && index + |text| <= |p| && p[index..index + |text|] == text
    ensures before + p[end..index] + text == before + p[end..index + |text|]
  {
    assert p[end..index + |text|] == p[end..index] + text;
    Associative(before, p[end..index], text);
  }

  lemma EndIsBefore(replacements: seq<Replacement>, index: nat)
    requires InOrder(replacements, index)
    ensures EndOf(replacements, |replacements|) <= index
  {
  }

  lemma ReadPlain(
      table: Table4, p: string, ranges: map<string, string>, replacements: seq<Replacement>, index: nat,
      tokens: seq<Token>, t: Token)
    requires ReadSoFar(table, p, ranges, replacements, index, tokens) && !t.Atom?
    requires index + |TextOf(t)| <= |p| && p[index..index + |TextOf(t)|] == TextOf(t)
    ensures ReadSoFar(table, p, ranges, replacements, index + |TextOf(t)|, tokens + [t])
  {
    hide HasAtom, Expand, TextsOf, Spliced;
    HasAtomSnoc(tokens, t);
    ExpandedSnoc(table, tokens, t);
    OneText(t);
    var end := EndOf(replacements, |replacements|);
    EndIsBefore(replacements, index);
    CopiedOn(p, Spliced(p, ranges, replacements, |replacements|), end, index, TextOf(t));
  }

  lemma {:induction false} SplicedPrefix(
      p: string, ranges: map<string, string>, replacements: seq<Replacement>, r: Replacement, n: nat)
    requires n <= |replacements| && InOrder(replacements, |p|) && InOrder(replacements + [r], |p|)
    requires ranges.Keys == CATEGORIES
    ensures Spliced(p, ranges, replacements + [r], n) == Spliced(p, ranges, replacements, n)
  {
    if n > 0 {
      SplicedPrefix(p, ranges, replacements, r, n - 1);
    }
  }

  lemma InOrderSnoc(replacements: seq<Replacement>, index: nat, r: Replacement)
    requires InOrder(replacements, index) && index == r.start <= r.end && r.category in CATEGORIES
    ensures InOrder(replacements + [r], r.end) &&
        EndOf(replacements + [r], |replacements|) == EndOf(replacements, |replacements|)
  {
    assert forall k :: 0 <= k < |replacements| ==> replacements[k] in replacements;
  }

  lemma SplicedSnoc(p: string, ranges: map<string, string>, replacements: seq<Replacement>, r: Replacement)
    requires InOrder(replacements, r.start) && r.start <= r.end <= |p| && r.category in CATEGORIES
    requires ranges.Keys == CATEGORIES && InOrder(replacements + [r], |p|) && InOrder(replacements, |p|)
    requires EndOf(replacements + [r], |replacements|) == EndOf(replacements, |replacements|)
    ensures Spliced(p, ranges, replacements + [r], |replacements| + 1)
         == Spliced(p, ranges, replacements, |replacements|) + p[EndOf(replacements, |replacements|)..r.start] +
             ranges[r.category]
  {
    SplicedPrefix(p, ranges, replacements, r, |replacements|);
    assert (replacements + [r])[|replacements|] == r;
  }

  lemma ReadAtom(
      table: Table4, p: string, ranges: map<string, string>, replacements: seq<Replacement>, index: nat,
      tokens: seq<Token>, category: string, next: nat)
    requires ReadSoFar(table, p, ranges, replacements, index, tokens) && TextTable(table, ranges)
    requires category in CATEGORIES && index <= next <= |p|
    ensures ReadSoFar(table, p, ranges, replacements + [Replacement(index, next, category)], next, tokens +
        [Atom(category)])
  {
    var r := Replacement(index, next, category);
    HasAtomSnoc(tokens, Atom(category));
    ExpandedSnoc(table, tokens, Atom(category));
    InOrderSnoc(replacements, index, r);
    SplicedSnoc(p, ranges, replacements, r);
    assert p[next..next] == "";
  }

  /** One token of the scan, as a step of the loop sees it. */
  ghost predicate ScannedSoFar(p: string, tokens: seq<Token>, index: nat, inClass: bool, negated: bool, dash: bool) {
    index <= |p| && Scan(p, false, false, false) == Concat(tokens, Scan(p[index..], inClass, negated, dash))
  }

  lemma ScannedOne(
      p: string, tokens: seq<Token>, index: nat, inClass: bool, negated: bool, dash: bool,
      t: Token, next: nat, inClass': bool, negated': bool, dash': bool)
    requires ScannedSoFar(p, tokens, index, inClass, negated, dash) && index <= next <= |p|
    requires Scan(p[index..], inClass, negated, dash) == Prepend(t, Scan(p[next..], inClass', negated', dash'))
    ensures ScannedSoFar(p, tokens + [t], next, inClass', negated', dash')
  {
    var rest := Scan(p[next..], inClass', negated', dash');
    if rest.Some? {
      assert tokens + ([t] + rest.value) == (tokens + [t]) + rest.value;
    }
  }

  /** What the scanner does with one token of the pattern. */
  datatype Move = Refuse | Move(t: Token, next: nat, inClass: bool, negated: bool, dash: bool)

  method Step(p: string, index: nat, inClass: bool, negated: bool, dash: bool) returns (m: Move)
    requires index < |p|
    ensures m.Refuse? ==> Scan(p[index..], inClass, negated, dash).None?
    ensures m.Move? ==> index < m.next <= |p| && p[index..m.next] == TextOf(m.t)
    ensures m.Move? && m.t.Atom? ==> m.t.category in CATEGORIES
    ensures m.Move? ==>
      Scan(p[index..], inClass, negated, dash) == Prepend(m.t, Scan(p[m.next..], m.inClass, m.negated, m.dash))
  {
    ghost var s := p[index..];
    var c := p[index];
    if c == '\\' {
      if index + 1 == |p| {
        return Refuse;
      }
      if p[index + 1] == 'p' || p[index + 1] == 'P' {
        var category := AtomCategory(p[index..]);
        if category.None? || !inClass || !negated || dash {
          return Refuse;
        }
        AtomText(s);
        var next := index + |category.value| + 4;
        assert s[|category.value| + 4..] == p[next..] && s[..|category.value| + 4] == p[index..next];
        return Move(Atom(category.value), next, inClass, negated, false);
      }
      assert s[2..] == p[index + 2..] && p[index..index + 2] == TextOf(Esc(p[index + 1]));
      return Move(Esc(p[index + 1]), index + 2, inClass, negated, false);
    }
    assert s[1..] == p[index + 1..] && p[index..index + 1] == TextOf(Plain(c));
    if c == '[' {
      if !inClass {
        return Move(Plain(c), index + 1, true, index + 1 < |p| && p[index + 1] == '^', false);
      }
      if !StartsWith(p[index..], "[\\]]") {
        return Refuse;
      }
    } else if c == ']' {
      if !inClass {
        return Refuse;
      }
      return Move(Plain(c), index + 1, false, negated, false);
    } else if inClass && SetSyntax(p[index..]) {
      return Refuse;
    }
    return Move(Plain(c), index + 1, inClass, negated, c == '-');
  }

  function Recorded(found: seq<Replacement>, index: nat, m: Move): seq<Replacement>
    requires m.Move?
  {
    if m.t.Atom? then found + [Replacement(index, m.next, m.t.category)] else found
  }

  /** What the loop knows: the tokens read so far, and the replacements recorded for them. */
  ghost predicate Progress(
    table: Table4, p: string, ranges: map<string, string>, found: seq<Replacement>, index: nat, tokens: seq<Token>,
    inClass: bool, negated: bool, dash: bool)
  {
    ScannedSoFar(p, tokens, index, inClass, negated, dash) && ReadSoFar(table, p, ranges, found, index, tokens)
  }

  lemma MoveKeeps(
      table: Table4, p: string, ranges: map<string, string>, found: seq<Replacement>, index: nat, tokens: seq<Token>,
      inClass: bool, negated: bool, dash: bool, m: Move)
    requires Progress(table, p, ranges, found, index, tokens, inClass, negated, dash) && TextTable(table, ranges)
    requires m.Move? && index < m.next <= |p| && p[index..m.next] == TextOf(m.t)
    requires m.t.Atom? ==> m.t.category in CATEGORIES
    requires Scan(p[index..], inClass, negated, dash) == Prepend(m.t, Scan(p[m.next..], m.inClass, m.negated, m.dash))
    ensures Progress(
              table, p, ranges, Recorded(found, index, m), m.next, tokens + [m.t], m.inClass, m.negated, m.dash)
  {
    ScannedOne(p, tokens, index, inClass, negated, dash, m.t, m.next, m.inClass, m.negated, m.dash);
    if m.t.Atom? {
      ReadAtom(table, p, ranges, found, index, tokens, m.t.category, m.next);
    } else {
      ReadPlain(table, p, ranges, found, index, tokens, m.t);
    }
  }

  lemma RefuseEnds(
      table: Table4, p: string, ranges: map<string, string>, found: seq<Replacement>, index: nat, tokens: seq<Token>,
      inClass: bool, negated: bool, dash: bool)
    requires Progress(table, p, ranges, found, index, tokens, inClass, negated, dash)
    requires Scan(p[index..], inClass, negated, dash).None?
    ensures Scan(p, false, false, false).None?
  {
  }

  lemma EndOfScan(
      table: Table4, p: string, ranges: map<string, string>, found: seq<Replacement>, tokens: seq<Token>,
      inClass: bool, negated: bool, dash: bool)
    requires Progress(table, p, ranges, found, |p|, tokens, inClass, negated, dash)
    ensures Scan(p, false, false, false) == if inClass then None else Some(tokens)
    ensures (HasAtom(tokens) <==> found != []) && SplicesTo(p, ranges, found, TextsOf(Expand(table, tokens)))
  {
    assert p[|p|..] == "" && tokens + [] == tokens;
    assert p[EndOf(found, |found|)..|p|] == p[EndOf(found, |found|)..];
  }

  ghost predicate SplicesTo(p: string, ranges: map<string, string>, found: seq<Replacement>, r: string) {
    && InOrder(found, |p|) && ranges.Keys == CATEGORIES && EndOf(found, |found|) <= |p|
    && r == Spliced(p, ranges, found, |found|) + p[EndOf(found, |found|)..]
  }

  /** The scanning loop; None stands for leaving the pattern alone. */
  method ScanPattern(p: string, ranges: map<string, string>, ghost table: Table4)
      returns (replacements: Option<seq<Replacement>>)
    requires TextTable(table, ranges)
    ensures var scan := Scan(p, false, false, false);
            && (replacements.None? <==> scan.None? || !HasAtom(scan.value))
            && (replacements.Some? ==> SplicesTo(p, ranges, replacements.value, TextsOf(Expand(table, scan.value))))
  {
    var found: seq<Replacement> := [];
    var inClass, negated, dash := false, false, false;
    var index: nat := 0;
    ghost var tokens: seq<Token> := [];
    StartOfScan(table, p, ranges);
    while index < |p|
      invariant index <= |p|
      invariant Progress(table, p, ranges, found, index, tokens, inClass, negated, dash)
      decreases |p| - index
    {
      var m := Step(p, index, inClass, negated, dash);
      if m.Refuse? {
        RefuseEnds(table, p, ranges, found, index, tokens, inClass, negated, dash);
        return None;
      }
      MoveKeeps(table, p, ranges, found, index, tokens, inClass, negated, dash, m);
      found, tokens := Recorded(found, index, m), tokens + [m.t];
      index, inClass, negated, dash := m.next, m.inClass, m.negated, m.dash;
    }
    EndOfScan(table, p, ranges, found, tokens, inClass, negated, dash);
    if inClass || found == [] {
      return None;
    }
    replacements := Some(found);
  }

  lemma StartOfScan(table: Table4, p: string, ranges: map<string, string>)
    requires ranges.Keys == CATEGORIES
    ensures Progress(table, p, ranges, [], 0, [], false, false, false)
  {
    assert p[0..] == p;
    NothingBefore(Scan(p, false, false, false));
  }

  method TranslatePattern(p: string, ranges: map<string, string>, compiles: string -> bool, ghost table: Table4)
      returns (r: string)
    requires TextTable(table, ranges)
    ensures r == Translate(table, compiles, p)
  {
    if !Contains(p, ATOM_START) {
      return p;
    }
    var replacements := ScanPattern(p, ranges, table);
    if replacements.None? {
      return p;
    }
    var translated := JoinParts(p, ranges, replacements.value);
    if !compiles(translated) {
      return p;
    }
    return translated;
  }

  method JoinParts(p: string, ranges: map<string, string>, found: seq<Replacement>) returns (r: string)
    requires InOrder(found, |p|) && ranges.Keys == CATEGORIES
    ensures SplicesTo(p, ranges, found, r)
  {
    r := "";
    var offset := 0;
    for k := 0 to |found|
      invariant offset == EndOf(found, k) <= |p| && r == Spliced(p, ranges, found, k)
    {
      assert found[k] in found;
      assert EndOf(found, k) <= found[k].start;
      r := r + p[offset..found[k].start] + ranges[found[k].category];
      offset := found[k].end;
    }
    r := r + p[offset..];
  }
}
