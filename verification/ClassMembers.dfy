/** What a character class matches, token by token: single code points, ranges, categories and
    escapes.  How a dialect of regular expressions reads an escape, from the ASCII characters
    behind it, is a function parameter.  A translated class has the members of the original. */
module ClassMembers {
  import opened Common
  import opened CategorySpans
  import opened PatternScanner
  import opened PatternTranslation

  /** What an escape stands for, and how many of the characters behind it belong to it. */
  datatype Escaped = AsPoint(point: nat, length: nat) | AsSet(has: nat -> bool, length: nat)

  /** The category of a code point; how an escape is read, given its character and the run of
      ASCII characters that follows; and whether the escapes of two surrogates are joined into
      the code point they stand for. */
  datatype Meaning = Meaning(category: nat -> string, escape: (char, string) -> Escaped, joins: bool)

  datatype Element = Point(point: nat) | Set(has: nat -> bool) | Category(name: string)

  function HexValue(c: char): int {
    if '0' <= c <= '9' then c as int - '0' as int
    else if 'A' <= c <= 'F' then c as int - 'A' as int + 10
    else if 'a' <= c <= 'f' then c as int - 'a' as int + 10
    else -1
  }

  predicate StartsWithCode(run: string) {
    |run| >= 4 && HexValue(run[0]) >= 0 && HexValue(run[1]) >= 0 && HexValue(run[2]) >= 0 && HexValue(run[3]) >= 0
  }

  function CodeAt(run: string): nat
    requires StartsWithCode(run)
  {
    ((HexValue(run[0]) * 16 + HexValue(run[1])) * 16 + HexValue(run[2])) * 16 + HexValue(run[3])
  }

  /** All that is assumed of a dialect: `\u` and four hexadecimal digits are a code point. */
  ghost predicate ReadsCodes(m: Meaning) {
    forall run: string :: StartsWithCode(run) ==> m.escape('u', run) == AsPoint(CodeAt(run), 4)
  }

  predicate Ascii(t: Token) { t.Plain? && t.c as int < 128 }

  /** The ASCII characters that a list of tokens starts with. */
  function Run(ts: seq<Token>): (run: string)
    ensures |run| <= |ts|
  {
    if ts != [] && Ascii(ts[0]) then [ts[0].c] + Run(ts[1..]) else ""
  }

  // ----- surrogates

  predicate High(p: nat) { 0xD800 <= p < 0xDC00 }

  predicate Low(p: nat) { 0xDC00 <= p < 0xE000 }

  /** The four-digit code that the tokens start with. */
  function CodeLead(ts: seq<Token>): (r: Option<nat>)
    ensures r.Some? ==> |ts| >= 5
  {
    if ts != [] && ts[0] == Esc('u') && StartsWithCode(Run(ts[1..])) then Some(CodeAt(Run(ts[1..]))) else None
  }

  predicate LowLead(ts: seq<Token>) { CodeLead(ts).Some? && Low(CodeLead(ts).value) }

  /** The tokens start with the escapes of a high and a low surrogate, which the dialect joins. */
  predicate Pair(m: Meaning, ts: seq<Token>) {
    m.joins && CodeLead(ts).Some? && High(CodeLead(ts).value) && LowLead(ts[5..])
  }

  function PairPoint(high: nat, low: nat): nat
    requires High(high) && Low(low)
  {
    0x10000 + (high - 0xD800) * 0x400 + (low - 0xDC00)
  }

  // ----- elements and members

  /** How many tokens the first element of a class takes. */
  function Length(m: Meaning, ts: seq<Token>): (n: nat)
    requires ts != []
    ensures 1 <= n <= |ts|
  {
    if !ts[0].Esc? then 1
    else if Pair(m, ts) then 10
    else
      var run := Run(ts[1..]);
      1 + Min(m.escape(ts[0].e, run).length, |run|)
  }

  function ElementOf(m: Meaning, ts: seq<Token>): Element
    requires ts != []
  {
    match ts[0]
    case Plain(c) => Point(c as int)
    case Atom(category) => Category(category)
    case Esc(c) =>
      if Pair(m, ts) then Point(PairPoint(CodeLead(ts).value, CodeLead(ts[5..]).value))
      else
        match m.escape(c, Run(ts[1..]))
        case AsPoint(p, _) => Point(p)
        case AsSet(has, _) => Set(has)
  }

  predicate In1(m: Meaning, e: Element, x: nat) {
    match e
    case Point(p) => x == p
    case Set(has) => has(x)
    case Category(c) => m.category(x) == c
  }

  /** A dash between two elements makes a range of two points; between anything else it is a dash. */
  predicate In2(m: Meaning, a: Element, b: Element, x: nat) {
    if a.Point? && b.Point? then a.point <= x <= b.point
    else In1(m, a, x) || x == '-' as int || In1(m, b, x)
  }

  predicate RangeFollows(rest: seq<Token>) { |rest| >= 2 && rest[0] == DASH }

  /** The members of a class body. */
  predicate Members(m: Meaning, ts: seq<Token>, x: nat)
    decreases |ts|
  {
    if ts == [] then false
    else
      var rest := ts[Length(m, ts)..];
      if RangeFollows(rest)
      then In2(m, ElementOf(m, ts), ElementOf(m, rest[1..]), x) || Members(m, rest[1..][Length(m, rest[1..])..], x)
      else In1(m, ElementOf(m, ts), x) || Members(m, rest, x)
  }

  // ----- code points as tokens

  lemma HexDigitValue(v: int)
    requires 0 <= v < 16
    ensures HexValue(HexDigit(v)) == v && HexDigit(v) as int < 128
  {
  }

  lemma Recomposed(p: nat)
    requires p <= 0xFFFF
    ensures ((p / 0x1000 * 16 + p / 0x100 % 16) * 16 + p / 16 % 16) * 16 + p % 16 == p
    ensures 0 <= p / 0x1000 < 16
  {
  }

  /** The digits of a code point read back as that code point, whatever follows them. */
  lemma HexReadsBack(p: nat, rest: string)
    requires p <= 0xFFFF
    ensures StartsWithCode(Hex(p) + rest) && CodeAt(Hex(p) + rest) == p
    ensures forall i :: 0 <= i < 4 ==> Hex(p)[i] as int < 128
  {
    Recomposed(p);
    HexDigitValue(p / 0x1000);
    HexDigitValue(p / 0x100 % 16);
    HexDigitValue(p / 16 % 16);
    HexDigitValue(p % 16);
    assert Hex(p) + rest ==
        [HexDigit(p / 0x1000), HexDigit(p / 0x100 % 16), HexDigit(p / 16 % 16), HexDigit(p % 16)] + rest;
  }

  lemma RunOfFour(h: string, tail: seq<Token>)
    requires |h| == 4 && forall i :: 0 <= i < 4 ==> h[i] as int < 128
    ensures Run([Plain(h[0]), Plain(h[1]), Plain(h[2]), Plain(h[3])] + tail) == h + Run(tail)
  {
    var t0 := [Plain(h[0]), Plain(h[1]), Plain(h[2]), Plain(h[3])] + tail;
    var t1, t2, t3 := t0[1..], t0[1..][1..], t0[1..][1..][1..];
    assert t3[1..] == tail;
    assert Run(t3) == [h[3]] + Run(tail);
    assert Run(t2) == [h[2]] + Run(t3);
    assert Run(t1) == [h[1]] + Run(t2);
    assert Run(t0) == [h[0]] + Run(t1);
  }

  lemma CodeLeads(p: nat, tail: seq<Token>)
    requires p < LIMIT
    ensures CodeLead(CodeTokens(p) + tail) == if p <= 0xFFFF then Some(p) else None
    ensures p <= 0xFFFF ==> Run((CodeTokens(p) + tail)[1..]) == Hex(p) + Run(tail)
  {
    var ts := CodeTokens(p) + tail;
    if p <= 0xFFFF {
      var h := Hex(p);
      HexReadsBack(p, Run(tail));
      RunOfFour(h, tail);
      assert ts[1..] == [Plain(h[0]), Plain(h[1]), Plain(h[2]), Plain(h[3])] + tail;
    }
  }

  lemma CodeIsElement(m: Meaning, p: nat, tail: seq<Token>)
    requires p < LIMIT && ReadsCodes(m) && (m.joins ==> !High(p))
    ensures var ts := CodeTokens(p) + tail;
            Length(m, ts) == |CodeTokens(p)| && ElementOf(m, ts) == Point(p) && ts[Length(m, ts)..] == tail
  {
    CodeLeads(p, tail);
    if p <= 0xFFFF {
      HexReadsBack(p, Run(tail));
    }
  }

  // ----- the tables as classes

  ghost predicate NoDashFirst(ts: seq<Token>) { ts != [] ==> ts[0] != DASH }

  lemma CodeStarts(p: nat)
    requires p < LIMIT
    ensures CodeTokens(p)[0] != DASH && Opening(CodeTokens(p)[0])
  {
  }

  lemma SpanMembers(m: Meaning, s: Span, tail: seq<Token>, x: nat)
    requires s.lo <= s.hi < LIMIT && NoDashFirst(tail) && ReadsCodes(m) && (m.joins ==> !High(s.lo) && !High(s.hi))
    ensures Members(m, SpanTokens(s) + tail, x) <==> s.lo <= x <= s.hi || Members(m, tail, x)
  {
    if s.lo == s.hi {
      CodeIsElement(m, s.lo, tail);
    } else {
      var rest := [DASH] + (CodeTokens(s.hi) + tail);
      assert SpanTokens(s) + tail == CodeTokens(s.lo) + rest;
      CodeIsElement(m, s.lo, rest);
      CodeIsElement(m, s.hi, tail);
      assert rest[1..] == CodeTokens(s.hi) + tail && RangeFollows(rest);
    }
  }

  ghost predicate InRange(spans: seq<Span>) {
    forall i :: 0 <= i < |spans| ==> spans[i].lo <= spans[i].hi < LIMIT
  }

  /** No span begins or ends at a surrogate. */
  ghost predicate Apart(spans: seq<Span>) {
    forall i :: 0 <= i < |spans| ==>
      !High(spans[i].lo) && !High(spans[i].hi) && !Low(spans[i].lo)
  }

  lemma SpansJoin(spans: seq<Span>, tail: seq<Token>)
    requires InRange(spans) && spans != []
    ensures InRange(spans[1..])
    ensures SpansTokens(spans) + tail == SpanTokens(spans[0]) + (SpansTokens(spans[1..]) + tail)
  {
    Associative(SpanTokens(spans[0]), SpansTokens(spans[1..]), tail);
  }

  lemma SpansStart(spans: seq<Span>, tail: seq<Token>)
    requires InRange(spans) && NoDashFirst(tail)
    ensures NoDashFirst(SpansTokens(spans) + tail)
  {
    if spans == [] {
      assert SpansTokens(spans) + tail == tail;
    } else {
      CodeStarts(spans[0].lo);
    }
  }

  lemma {:induction false} SpansMembers(m: Meaning, spans: seq<Span>, tail: seq<Token>, x: nat)
    requires InRange(spans) && NoDashFirst(tail) && ReadsCodes(m) && (m.joins ==> Apart(spans))
    ensures Members(m, SpansTokens(spans) + tail, x) <==> InSpans(spans, x) || Members(m, tail, x)
    decreases |spans|
  {
    if spans == [] {
      assert SpansTokens(spans) + tail == tail;
    } else {
      SpansJoin(spans, tail);
      SpansMembers(m, spans[1..], tail, x);
      SpansStart(spans[1..], tail);
      SpanMembers(m, spans[0], SpansTokens(spans[1..]) + tail, x);
      InFirstOrRest(spans, x);
    }
  }

  lemma InFirstOrRest(spans: seq<Span>, x: nat)
    requires spans != []
    ensures InSpans(spans, x) <==> spans[0].lo <= x <= spans[0].hi || InSpans(spans[1..], x)
  {
    if InSpans(spans, x) {
      var i :| 0 <= i < |spans| && spans[i].lo <= x <= spans[i].hi;
      assert i > 0 ==> spans[1..][i - 1] == spans[i];
    }
    if InSpans(spans[1..], x) {
      var i :| 0 <= i < |spans[1..]| && spans[1..][i].lo <= x <= spans[1..][i].hi;
      assert spans[i + 1] == spans[1..][i];
    }
  }

  /** A table's tokens begin with an escape or a code point outside the basic plane. */
  predicate Opening(t: Token) { t == Esc('u') || (t.Plain? && t.c as int > 0xFFFF) }

  /** What the proof below needs from a table: it spells its category. */
  ghost predicate Spells(m: Meaning, table: Table4, x: nat) {
    forall c, tail :: c in CATEGORIES && NoDashFirst(tail) ==>
      (Members(m, table(c) + tail, x) <==> m.category(x) == c || Members(m, tail, x))
  }

  ghost predicate Opens(table: Table4) {
    forall c :: c in CATEGORIES ==> table(c) != [] && Opening(table(c)[0])
  }

  /** And with no low surrogate. */
  ghost predicate NoLowOpens(table: Table4) {
    forall c, tail :: c in CATEGORIES ==> !LowLead(table(c) + tail)
  }

  /** Surrogates are in none of the four categories, as in any version of the Unicode database. */
  ghost predicate SurrogatesApart(category: nat -> string) {
    forall p: nat :: High(p) || Low(p) ==> category(p) !in CATEGORIES
  }

  lemma SpansApart(category: nat -> string, c: string)
    requires SurrogatesApart(category) && c in CATEGORIES
    ensures Apart(SpansOf(In(category, c), LIMIT))
  {
    var spans := SpansOf(In(category, c), LIMIT);
    SpansAreMaximal(In(category, c), LIMIT);
    forall i | 0 <= i < |spans| ensures !High(spans[i].lo) && !High(spans[i].hi) && !Low(spans[i].lo) {
      SpansContain(In(category, c), LIMIT, spans[i].lo);
      SpansContain(In(category, c), LIMIT, spans[i].hi);
      assert InSpans(spans, spans[i].lo) && InSpans(spans, spans[i].hi);
      assert category(spans[i].lo) == c && category(spans[i].hi) == c;
    }
  }

  lemma TablesOpenApart(category: nat -> string)
    requires Inhabited(category) && SurrogatesApart(category)
    ensures NoLowOpens(TableOf(category))
  {
    forall c, tail | c in CATEGORIES ensures !LowLead(CategoryTokens(category, c) + tail) {
      var spans := SpansOf(In(category, c), LIMIT);
      var p: nat :| p < LIMIT && category(p) == c;
      SpansInRange(In(category, c), LIMIT);
      SpansContain(In(category, c), LIMIT, p);
      SpansApart(category, c);
      SpansAreMaximal(In(category, c), LIMIT);
      LeadOfSpans(spans, tail);
    }
  }

  lemma LeadOfSpans(spans: seq<Span>, tail: seq<Token>)
    requires spans != [] && InRange(spans) && Apart(spans)
    ensures !LowLead(SpansTokens(spans) + tail)
  {
    SpansJoin(spans, tail);
    LeadOfSpan(spans[0], SpansTokens(spans[1..]) + tail);
  }

  lemma LeadOfSpan(s: Span, more: seq<Token>)
    requires s.lo <= s.hi < LIMIT && !Low(s.lo)
    ensures !LowLead(SpanTokens(s) + more)
  {
    if s.lo == s.hi {
      CodeLeads(s.lo, more);
    } else {
      var rest := [DASH] + (CodeTokens(s.hi) + more);
      assert SpanTokens(s) + more == CodeTokens(s.lo) + rest;
      CodeLeads(s.lo, rest);
    }
  }

  lemma TableSpells(m: Meaning, x: nat)
    requires x < LIMIT && ReadsCodes(m) && (m.joins ==> SurrogatesApart(m.category))
    ensures Spells(m, TableOf(m.category), x)
  {
    forall c, tail | c in CATEGORIES && NoDashFirst(tail)
      ensures Members(m, TableOf(m.category)(c) + tail, x) <==> m.category(x) == c || Members(m, tail, x)
    {
      var spans := SpansOf(In(m.category, c), LIMIT);
      SpansAreMaximal(In(m.category, c), LIMIT);
      SpansContain(In(m.category, c), LIMIT, x);
      if m.joins {
        SpansApart(m.category, c);
      }
      SpansMembers(m, spans, tail, x);
    }
  }

  lemma TableOpens(category: nat -> string)
    requires Inhabited(category)
    ensures Opens(TableOf(category))
  {
    forall c | c in CATEGORIES ensures CategoryTokens(category, c) != [] && Opening(CategoryTokens(category, c)[0]) {
      var p: nat :| p < LIMIT && category(p) == c;
      SpansInRange(In(category, c), LIMIT);
      SpansContain(In(category, c), LIMIT, p);
      CodeStarts(SpansOf(In(category, c), LIMIT)[0].lo);
    }
  }

  // ----- a class and its translation

  lemma ExpandedParts(table: Table4, ts: seq<Token>)
    requires ts != []
    ensures Expand(table, ts) == (if ts[0].Atom? then table(ts[0].category) else [ts[0]]) + Expand(table, ts[1..])
    ensures !ts[0].Atom? ==> Expand(table, ts)[0] == ts[0] && Expand(table, ts)[1..] == Expand(table, ts[1..])
  {
    ExpandedText(table, ts);
    assert ([ts[0]] + Expand(table, ts[1..]))[1..] == Expand(table, ts[1..]);
  }

  lemma ExpandedHead(table: Table4, ts: seq<Token>)
    requires Opens(table) && Known(ts)
    ensures Expand(table, ts) == [] <==> ts == []
    ensures ts != [] ==> Expand(table, ts)[0] == ts[0] || (ts[0].Atom? && Opening(Expand(table, ts)[0]))
  {
    if ts != [] {
      ExpandedParts(table, ts);
    }
  }

  /** The ASCII characters at the start are the same after the translation. */
  lemma {:induction false} RunExpands(table: Table4, ts: seq<Token>)
    requires Opens(table) && Known(ts)
    ensures Run(Expand(table, ts)) == Run(ts)
  {
    ExpandedHead(table, ts);
    if ts != [] && Ascii(ts[0]) {
      ExpandedParts(table, ts);
      KnownTail(ts, 1);
      RunExpands(table, ts[1..]);
    }
  }

  /** Within that run the translation changes nothing. */
  lemma {:induction false} RunKept(table: Table4, ts: seq<Token>, k: nat)
    requires k <= |Run(ts)|
    ensures k <= |Expand(table, ts)| && Expand(table, ts)[k..] == Expand(table, ts[k..])
    decreases k
  {
    if k == 0 {
      assert ts[0..] == ts && Expand(table, ts)[0..] == Expand(table, ts);
    } else {
      ExpandedParts(table, ts);
      RunKept(table, ts[1..], k - 1);
      assert ts[1..][k - 1..] == ts[k..];
      assert Expand(table, ts)[1..][k - 1..] == Expand(table, ts)[k..];
    }
  }

  lemma KnownTail(ts: seq<Token>, n: nat)
    requires n <= |ts|
    ensures Known(ts) ==> Known(ts[n..])
    ensures Standalone(ts) ==> Standalone(ts[n..])
  {
  }

  /** Whether the tokens start with a low surrogate is the same after the translation. */
  lemma LowLeadExpands(table: Table4, ts: seq<Token>)
    requires Opens(table) && NoLowOpens(table) && Known(ts)
    ensures LowLead(Expand(table, ts)) <==> LowLead(ts)
    ensures LowLead(ts) ==> CodeLead(Expand(table, ts)) == CodeLead(ts)
  {
    ExpandedHead(table, ts);
    if ts != [] {
      ExpandedParts(table, ts);
      if !ts[0].Atom? {
        KnownTail(ts, 1);
        RunExpands(table, ts[1..]);
      }
    }
  }

  /** A code at the start is the same after the translation, and so is what follows it. */
  lemma CodeLeadExpands(table: Table4, ts: seq<Token>)
    requires Opens(table) && Known(ts) && ts != [] && !ts[0].Atom?
    ensures CodeLead(Expand(table, ts)) == CodeLead(ts)
    ensures CodeLead(ts).Some? ==> Expand(table, ts)[5..] == Expand(table, ts[5..])
  {
    ExpandedParts(table, ts);
    KnownTail(ts, 1);
    RunExpands(table, ts[1..]);
    if CodeLead(ts).Some? {
      RunKept(table, ts[1..], 4);
      assert ts[1..][4..] == ts[5..] && Expand(table, ts)[1..][4..] == Expand(table, ts)[5..];
    }
  }

  lemma PairExpands(m: Meaning, table: Table4, ts: seq<Token>)
    requires Opens(table) && (m.joins ==> NoLowOpens(table)) && Known(ts) && ts != [] && !ts[0].Atom?
    ensures var r := Expand(table, ts);
            && (Pair(m, r) <==> Pair(m, ts)) && CodeLead(r) == CodeLead(ts)
            && (Pair(m, ts) ==> CodeLead(r[5..]) == CodeLead(ts[5..]) && r[10..] == Expand(table, ts[10..]))
  {
    CodeLeadExpands(table, ts);
    if m.joins && CodeLead(ts).Some? {
      var rest := ts[5..];
      KnownTail(ts, 5);
      LowLeadExpands(table, rest);
      if LowLead(rest) {
        CodeLeadExpands(table, rest);
        assert rest[5..] == ts[10..] && Expand(table, ts)[5..][5..] == Expand(table, ts)[10..];
      }
    }
  }

  /** An element that is no category is the same element after the translation. */
  lemma ElementExpands(m: Meaning, table: Table4, ts: seq<Token>)
    requires Opens(table) && (m.joins ==> NoLowOpens(table)) && Known(ts) && ts != [] && !ts[0].Atom?
    ensures var r := Expand(table, ts);
            r != [] && Length(m, r) == Length(m, ts) && ElementOf(m, r) == ElementOf(m, ts)
            && r[Length(m, r)..] == Expand(table, ts[Length(m, ts)..])
  {
    ExpandedParts(table, ts);
    KnownTail(ts, 1);
    RunExpands(table, ts[1..]);
    PairExpands(m, table, ts);
    if !Pair(m, ts) {
      var r, k := Expand(table, ts), Length(m, ts) - 1;
      RunKept(table, ts[1..], k);
      assert ts[1..][k..] == ts[k + 1..] && r[1..][k..] == r[k + 1..];
    }
  }

  /** A range follows in the translation exactly where it follows in the original, and what is on
      the other side of the dash is no category. */
  lemma RangeExpands(table: Table4, rest: seq<Token>)
    requires Opens(table) && Known(rest) && Standalone(rest)
    ensures RangeFollows(Expand(table, rest)) <==> RangeFollows(rest)
    ensures RangeFollows(rest) ==> !rest[1].Atom? && Expand(table, rest)[1..] == Expand(table, rest[1..])
  {
    ExpandedHead(table, rest);
    if rest != [] && rest[0] == DASH {
      ExpandedParts(table, rest);
      KnownTail(rest, 1);
      ExpandedHead(table, rest[1..]);
    }
  }

  lemma {:induction false} MembersExpand(m: Meaning, table: Table4, ts: seq<Token>, x: nat)
    requires Opens(table) && (m.joins ==> NoLowOpens(table)) && Spells(m, table, x) && Known(ts) && Standalone(ts)
    ensures Members(m, Expand(table, ts), x) <==> Members(m, ts, x)
    decreases |ts|
  {
    if ts != [] {
      var n := Length(m, ts);
      var rest := ts[n..];
      KnownTail(ts, n);
      if ts[0].Atom? {
        MembersExpand(m, table, rest, x);
        ExpandedParts(table, ts);
        ExpandedHead(table, rest);
        assert NoDashFirst(Expand(table, rest));
        assert !RangeFollows(rest);
      } else {
        ElementExpands(m, table, ts);
        RangeExpands(table, rest);
        if RangeFollows(rest) {
          KnownTail(rest, 1);
          ElementExpands(m, table, rest[1..]);
          KnownTail(rest[1..], Length(m, rest[1..]));
          MembersExpand(m, table, rest[1..][Length(m, rest[1..])..], x);
        } else {
          MembersExpand(m, table, rest, x);
        }
      }
    }
  }

  /** Replacing the atoms of a pattern by their tables leaves the members of every class as they
      were: any stretch `i..j` of the pattern's tokens, read as a class body in any dialect that
      reads four-digit codes, joined to surrogate pairs or not, matches the same code points
      before and after. */
  lemma ClassUnchanged(m: Meaning, p: string, i: nat, j: nat, x: nat)
    requires Inhabited(m.category) && ReadsCodes(m) && x < LIMIT
    requires m.joins ==> SurrogatesApart(m.category)
    requires Scan(p, false, false, false).Some? && i <= j <= |Scan(p, false, false, false).value|
    ensures var body := Scan(p, false, false, false).value[i..j];
            Members(m, Expand(TableOf(m.category), body), x) <==> Members(m, body, x)
  {
    var ts := Scan(p, false, false, false).value;
    ScanIsKnown(p, false, false, false);
    ScanIsStandalone(p, false, false, false);
    TableOpens(m.category);
    if m.joins {
      TablesOpenApart(m.category);
    }
    TableSpells(m, x);
    assert Standalone(ts[i..j]) && Known(ts[i..j]);
    MembersExpand(m, TableOf(m.category), ts[i..j], x);
  }

  lemma ExpandInPieces(table: Table4, ts: seq<Token>, i: nat, j: nat)
    requires i <= j <= |ts|
    ensures Expand(table, ts) == Expand(table, ts[..i]) + Expand(table, ts[i..j]) + Expand(table, ts[j..])
  {
    assert ts == ts[..i] + ts[i..j] + ts[j..];
    FlatMapAppend(ExpandOne(table), ts[..i] + ts[i..j], ts[j..]);
    FlatMapAppend(ExpandOne(table), ts[..i], ts[i..j]);
  }

  /** The translated pattern is scanned into the translated pieces, so a class body of the original
      is a class body of the translation. */
  lemma TranslationInPieces(category: nat -> string, p: string, i: nat, j: nat)
    requires Inhabited(category)
    requires Scan(p, false, false, false).Some? && i <= j <= |Scan(p, false, false, false).value|
    ensures var ts, table := Scan(p, false, false, false).value, TableOf(category);
            Scan(TextsOf(Expand(table, ts)), false, false, false)
            == Some(Expand(table, ts[..i]) + Expand(table, ts[i..j]) + Expand(table, ts[j..]))
  {
    var ts, table := Scan(p, false, false, false).value, TableOf(category);
    ExpandInPieces(table, ts, i, j);
    TablesAreInert(category);
    ScanExpanded(table, p, false, false, false);
  }
}
