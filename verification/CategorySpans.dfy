/** The run-length tables of code points per Unicode category.  The category of a code point is a
    function parameter. */
module CategorySpans {

  const CATEGORIES := {"Cc", "Cf", "Zl", "Zp"}
  const LIMIT := 0x110000

  datatype Span = Span(lo: nat, hi: nat)

  /** One step of the loop: a point that follows the last span extends it. */
  function Extended(spans: seq<Span>, point: nat): seq<Span> {
    if spans != [] && spans[|spans| - 1].hi + 1 == point
    then spans[|spans| - 1 := Span(spans[|spans| - 1].lo, point)]
    else spans + [Span(point, point)]
  }

  /** The spans of the points below `n` that are in the category. */
  function SpansOf(inside: nat -> bool, n: nat): seq<Span> {
    if n == 0 then []
    else if inside(n - 1) then Extended(SpansOf(inside, n - 1), n - 1)
    else SpansOf(inside, n - 1)
  }

  predicate InSpans(spans: seq<Span>, point: nat) {
    exists i :: 0 <= i < |spans| && spans[i].lo <= point <= spans[i].hi
  }

  /** Sorted spans with a gap between any two neighbours: they are disjoint and none can be
      extended. */
  ghost predicate Maximal(spans: seq<Span>, n: nat) {
    && (forall i :: 0 <= i < |spans| ==> spans[i].lo <= spans[i].hi < n)
    && (forall i, j :: 0 <= i < j < |spans| ==> spans[i].hi + 1 < spans[j].lo)
  }

  lemma ExtendedIsMaximal(spans: seq<Span>, n: nat)
    requires Maximal(spans, n)
    ensures Maximal(Extended(spans, n), n + 1)
  {
  }

  lemma ExtendedPoint(spans: seq<Span>, n: nat, p: nat)
    requires Maximal(spans, n)
    ensures InSpans(Extended(spans, n), p) <==> InSpans(spans, p) || p == n
  {
    var r := Extended(spans, n);
    if InSpans(spans, p) {
      var i :| 0 <= i < |spans| && spans[i].lo <= p <= spans[i].hi;
      assert r[i].lo <= p <= r[i].hi;
    }
    if p == n {
      assert r[|r| - 1].lo <= p <= r[|r| - 1].hi;
    }
    if InSpans(r, p) && p != n {
      var i :| 0 <= i < |r| && r[i].lo <= p <= r[i].hi;
      assert i < |spans| && spans[i].lo <= p <= spans[i].hi;
    }
  }

  lemma {:induction false} SpansAreMaximal(inside: nat -> bool, n: nat)
    ensures Maximal(SpansOf(inside, n), n)
  {
    if n > 0 {
      SpansAreMaximal(inside, n - 1);
      ExtendedIsMaximal(SpansOf(inside, n - 1), n - 1);
    }
  }

  /** The spans contain exactly the points of the category. */
  lemma {:induction false} SpansContain(inside: nat -> bool, n: nat, p: nat)
    ensures InSpans(SpansOf(inside, n), p) <==> p < n && inside(p)
  {
    if n > 0 {
      SpansContain(inside, n - 1, p);
      SpansAreMaximal(inside, n - 1);
      ExtendedPoint(SpansOf(inside, n - 1), n - 1, p);
    }
  }

  /** Maximal spans are determined by the points they contain. */
  lemma {:induction false} MaximalUnique(a: seq<Span>, b: seq<Span>, n: nat)
    requires Maximal(a, n) && Maximal(b, n) && forall p: nat :: InSpans(a, p) <==> InSpans(b, p)
    ensures a == b
    decreases |a|
  {
    if a == [] {
      assert b == [] || InSpans(b, b[0].lo);
    } else {
      InOwn(a, |a| - 1);
      LastSame(a, b, n);
      FrontsSame(a, b, n);
      MaximalUnique(Front(a), Front(b), n);
      assert a == Front(a) + [a[|a| - 1]] && b == Front(b) + [b[|b| - 1]];
    }
  }

  function Front(s: seq<Span>): seq<Span>
    requires s != []
  {
    s[..|s| - 1]
  }

  lemma FrontsSame(a: seq<Span>, b: seq<Span>, n: nat)
    requires Maximal(a, n) && Maximal(b, n) && forall p: nat :: InSpans(a, p) <==> InSpans(b, p)
    requires a != [] && b != [] && a[|a| - 1] == b[|b| - 1]
    ensures forall p: nat :: InSpans(Front(a), p) <==> InSpans(Front(b), p)
  {
    forall p: nat ensures InSpans(Front(a), p) <==> InSpans(Front(b), p) {
      WithoutLast(a, n, p);
      WithoutLast(b, n, p);
    }
  }

  lemma InOwn(s: seq<Span>, i: nat)
    requires i < |s| && s[i].lo <= s[i].hi
    ensures InSpans(s, s[i].lo) && InSpans(s, s[i].hi)
  {
  }

  lemma WithoutLast(s: seq<Span>, n: nat, p: nat)
    requires Maximal(s, n) && s != []
    ensures InSpans(Front(s), p) <==> InSpans(s, p) && p < s[|s| - 1].lo
  {
    var last := s[|s| - 1];
    if InSpans(s, p) && p < last.lo {
      var i :| 0 <= i < |s| && s[i].lo <= p <= s[i].hi;
      assert s[..|s| - 1][i] == s[i];
    }
    if InSpans(s[..|s| - 1], p) {
      var i :| 0 <= i < |s| - 1 && s[..|s| - 1][i].lo <= p <= s[..|s| - 1][i].hi;
      assert s[i].lo <= p <= s[i].hi;
    }
  }

  ghost predicate Full(s: seq<Span>, lo: nat, hi: nat) { forall q: nat :: lo <= q <= hi ==> InSpans(s, q) }

  /** The last span starts at the least point from which on there is no gap. */
  lemma LowIsLeast(s: seq<Span>, n: nat, p: nat)
    requires Maximal(s, n) && s != [] && p <= s[|s| - 1].hi
    ensures Full(s, p, s[|s| - 1].hi) <==> p >= s[|s| - 1].lo
  {
    var last := s[|s| - 1];
    if p < last.lo {
      assert forall i :: 0 <= i < |s| - 1 ==> s[i].hi + 1 < last.lo;
      assert !InSpans(s, last.lo - 1);
    } else {
      forall q: nat | p <= q <= last.hi ensures InSpans(s, q) {
        assert s[|s| - 1].lo <= q <= s[|s| - 1].hi;
      }
    }
  }

  lemma HighIsGreatest(s: seq<Span>, n: nat, p: nat)
    requires Maximal(s, n) && s != [] && InSpans(s, p)
    ensures p <= s[|s| - 1].hi
  {
    var i :| 0 <= i < |s| && s[i].lo <= p <= s[i].hi;
  }

  lemma LastSame(a: seq<Span>, b: seq<Span>, n: nat)
    requires Maximal(a, n) && Maximal(b, n) && a != [] && b != [] && forall p: nat :: InSpans(a, p) <==> InSpans(b, p)
    ensures a[|a| - 1] == b[|b| - 1]
  {
    var x, y := a[|a| - 1], b[|b| - 1];
    InOwn(a, |a| - 1);
    InOwn(b, |b| - 1);
    HighIsGreatest(a, n, y.hi);
    HighIsGreatest(b, n, x.hi);
    LowIsLeast(a, n, x.lo);
    LowIsLeast(b, n, x.lo);
    LowIsLeast(a, n, y.lo);
    LowIsLeast(b, n, y.lo);
    assert Full(a, x.lo, x.hi) == Full(b, x.lo, x.hi) && Full(a, y.lo, x.hi) == Full(b, y.lo, x.hi);
  }

  function In(category: nat -> string, name: string): nat -> bool { (p: nat) => category(p) == name }

  /** The one pass over all code points that builds the four tables. */
  method CategoryRanges(category: nat -> string, limit: nat) returns (ranges: map<string, seq<Span>>)
    ensures ranges.Keys == CATEGORIES
    ensures forall c :: c in CATEGORIES ==> ranges[c] == SpansOf(In(category, c), limit)
  {
    ranges := map c | c in CATEGORIES :: [];
    for point := 0 to limit
      invariant ranges.Keys == CATEGORIES
      invariant forall c :: c in CATEGORIES ==> ranges[c] == SpansOf(In(category, c), point)
    {
      var name := category(point);
      if name in ranges {
        var spans := ranges[name];
        if spans != [] && spans[|spans| - 1].hi == point - 1 {
          spans := spans[|spans| - 1 := Span(spans[|spans| - 1].lo, point)];
        } else {
          spans := spans + [Span(point, point)];
        }
        ranges := ranges[name := spans];
      }
    }
  }
}
