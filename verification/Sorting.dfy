/** Stable sorting by a key that is compared like a Python tuple, filtering, and taking turns
    among several lists (`zip_longest`). */
module Sorting {
  import opened Common

  /** A tuple or string key: integers compared position by position, a proper prefix first. */
  type Key = seq<int>

  /** The code points of a string: Python compares strings by them. */
  function Codes(s: string): Key { seq(|s|, i requires 0 <= i < |s| => s[i] as int) }

  predicate LexLeq(a: Key, b: Key) {
    a == [] || (b != [] && (a[0] < b[0] || (a[0] == b[0] && LexLeq(a[1..], b[1..]))))
  }

  lemma {:induction false} LexTotal(a: Key, b: Key)
    ensures LexLeq(a, b) || LexLeq(b, a)
  {
    if a != [] && b != [] && a[0] == b[0] {
      LexTotal(a[1..], b[1..]);
    }
  }

  lemma {:induction false} LexTransitive(a: Key, b: Key, c: Key)
    requires LexLeq(a, b) && LexLeq(b, c)
    ensures LexLeq(a, c)
  {
    if a != [] && a[0] == b[0] && b[0] == c[0] {
      LexTransitive(a[1..], b[1..], c[1..]);
    }
  }

  lemma {:induction false} KeysAntisymmetric(a: Key, b: Key)
    requires LexLeq(a, b) && LexLeq(b, a)
    ensures a == b
  {
    if a != [] {
      KeysAntisymmetric(a[1..], b[1..]);
      assert a == [a[0]] + a[1..] && b == [b[0]] + b[1..];
    }
  }

  ghost predicate Sorted<T>(s: seq<T>, key: T -> Key) {
    forall i, j :: 0 <= i < j < |s| ==> LexLeq(key(s[i]), key(s[j]))
  }

  function Insert<T>(x: T, s: seq<T>, key: T -> Key): seq<T> {
    if s == [] || LexLeq(key(x), key(s[0])) then [x] + s else [s[0]] + Insert(x, s[1..], key)
  }

  /** Python's `sorted(s, key=key)`. */
  function Sort<T>(s: seq<T>, key: T -> Key): seq<T> {
    if s == [] then [] else Insert(s[0], Sort(s[1..], key), key)
  }

  lemma {:induction false} InsertSorts<T>(x: T, s: seq<T>, key: T -> Key)
    requires Sorted(s, key)
    ensures Sorted(Insert(x, s, key), key)
    ensures multiset(Insert(x, s, key)) == multiset{x} + multiset(s)
  {
    if s == [] {
    } else if LexLeq(key(x), key(s[0])) {
      forall i | 0 <= i < |s| ensures LexLeq(key(x), key(s[i])) {
        if i > 0 { LexTransitive(key(x), key(s[0]), key(s[i])); }
      }
    } else {
      InsertSorts(x, s[1..], key);
      LexTotal(key(x), key(s[0]));
      var t := Insert(x, s[1..], key);
      assert s == [s[0]] + s[1..];
      forall i | 0 <= i < |t| ensures LexLeq(key(s[0]), key(t[i])) {
        assert t[i] in multiset(t);
        assert t[i] == x || t[i] in s[1..];
      }
    }
  }

  lemma {:induction false} SortSorts<T>(s: seq<T>, key: T -> Key)
    ensures Sorted(Sort(s, key), key)
    ensures multiset(Sort(s, key)) == multiset(s)
  {
    if s != [] {
      SortSorts(s[1..], key);
      InsertSorts(s[0], Sort(s[1..], key), key);
      assert s == [s[0]] + s[1..];
    }
  }

  // ----- filtering

  function Filter<T>(s: seq<T>, keep: T -> bool): seq<T> {
    if s == [] then [] else (if keep(s[0]) then [s[0]] else []) + Filter(s[1..], keep)
  }

  lemma {:induction false} FilterCounts<T>(s: seq<T>, keep: T -> bool, x: T)
    ensures multiset(Filter(s, keep))[x] == if keep(x) then multiset(s)[x] else 0
  {
    if s != [] {
      FilterCounts(s[1..], keep, x);
      assert s == [s[0]] + s[1..];
    }
  }

  /** The elements that have the key `k`. */
  function HasKey<T>(key: T -> Key, k: Key): T -> bool { (y: T) => key(y) == k }

  lemma {:induction false} InsertIsStable<T>(x: T, s: seq<T>, key: T -> Key, k: Key)
    ensures Filter(Insert(x, s, key), HasKey(key, k))
         == (if key(x) == k then [x] else []) + Filter(s, HasKey(key, k))
  {
    if s == [] || LexLeq(key(x), key(s[0])) {
      assert ([x] + s)[1..] == s;
    } else {
      InsertIsStable(x, s[1..], key, k);
      var t := Insert(x, s[1..], key);
      assert ([s[0]] + t)[1..] == t;
      LexReflexive(key(x));
    }
  }

  lemma {:induction false} LexReflexive(a: Key)
    ensures LexLeq(a, a)
  {
    if a != [] {
      LexReflexive(a[1..]);
    }
  }

  /** Elements with equal keys keep their order. */
  lemma {:induction false} SortIsStable<T>(s: seq<T>, key: T -> Key, k: Key)
    ensures Filter(Sort(s, key), HasKey(key, k)) == Filter(s, HasKey(key, k))
  {
    if s != [] {
      SortIsStable(s[1..], key, k);
      InsertIsStable(s[0], Sort(s[1..], key), key, k);
    }
  }

  // ----- taking turns

  function FirstOf<T>(g: seq<T>): seq<T> { if g == [] then [] else [g[0]] }

  function RestOf<T>(g: seq<T>): seq<T> { if g == [] then [] else g[1..] }

  function Heads<T>(groups: seq<seq<T>>, n: nat): seq<T>
    requires n <= |groups|
  {
    if n == 0 then [] else Heads(groups, n - 1) + FirstOf(groups[n - 1])
  }

  function Tails<T>(groups: seq<seq<T>>): seq<seq<T>> {
    seq(|groups|, i requires 0 <= i < |groups| => RestOf(groups[i]))
  }

  function Size<T>(groups: seq<seq<T>>, n: nat): nat
    requires n <= |groups|
  {
    if n == 0 then 0 else Size(groups, n - 1) + |groups[n - 1]|
  }

  lemma {:induction false} HeadsTakeFromSize<T>(groups: seq<seq<T>>, n: nat)
    requires n <= |groups|
    ensures Size(Tails(groups), n) + |Heads(groups, n)| == Size(groups, n)
  {
    if n > 0 {
      HeadsTakeFromSize(groups, n - 1);
    }
  }

  /** `[m for row in zip_longest(*groups) for m in row if m is not None]`. */
  function Interleave<T>(groups: seq<seq<T>>): seq<T>
    decreases Size(groups, |groups|)
  {
    var row := Heads(groups, |groups|);
    if row == [] then []
    else
      HeadsTakeFromSize(groups, |groups|);
      row + Interleave(Tails(groups))
  }

  ghost function CountIn<T>(groups: seq<seq<T>>, n: nat, x: T): nat
    requires n <= |groups|
  {
    if n == 0 then 0 else CountIn(groups, n - 1, x) + multiset(groups[n - 1])[x]
  }

  lemma CountsAdd<T>(a: seq<T>, b: seq<T>, x: T)
    ensures multiset(a + b)[x] == multiset(a)[x] + multiset(b)[x]
  {
  }

  /** A way of counting that adds up over concatenation. */
  ghost predicate Additive<T(!new)>(count: seq<T> -> int) { forall a, b :: count(a + b) == count(a) + count(b) }

  ghost function Times<T>(x: T): seq<T> -> int { (s: seq<T>) => multiset(s)[x] }

  lemma TimesAdd<T(!new)>(x: T)
    ensures Additive(Times(x))
  {
    forall a: seq<T>, b: seq<T> ensures Times(x)(a + b) == Times(x)(a) + Times(x)(b) {
      CountsAdd(a, b, x);
    }
  }

  ghost function SumOf<T>(count: seq<T> -> int, groups: seq<seq<T>>, n: nat): int
    requires n <= |groups|
  {
    if n == 0 then 0 else SumOf(count, groups, n - 1) + count(groups[n - 1])
  }

  lemma {:induction false} SumOfTimes<T>(groups: seq<seq<T>>, n: nat, x: T)
    requires n <= |groups|
    ensures SumOf(Times(x), groups, n) == CountIn(groups, n, x)
  {
    if n > 0 {
      SumOfTimes(groups, n - 1, x);
    }
  }

  lemma FirstAndRest<T>(g: seq<T>)
    ensures FirstOf(g) + RestOf(g) == g
  {
  }

  lemma {:induction false} HeadsAddUp<T(!new)>(count: seq<T> -> int, groups: seq<seq<T>>, tails: seq<seq<T>>, n: nat)
    requires Additive(count) && count([]) == 0 && n <= |groups| == |tails|
    requires forall i :: 0 <= i < |groups| ==> tails[i] == RestOf(groups[i])
    ensures count(Heads(groups, n)) + SumOf(count, tails, n) == SumOf(count, groups, n)
  {
    if n > 0 {
      HeadsAddUp(count, groups, tails, n - 1);
      FirstAndRest(groups[n - 1]);
      assert count(FirstOf(groups[n - 1]) + RestOf(groups[n - 1])) == count(groups[n - 1]);
    }
  }

  lemma HeadCounts<T(!new)>(groups: seq<seq<T>>, x: T)
    ensures multiset(Heads(groups, |groups|))[x] + CountIn(Tails(groups), |groups|, x) == CountIn(groups, |groups|, x)
  {
    TimesAdd(x);
    HeadsAddUp(Times(x), groups, Tails(groups), |groups|);
    SumOfTimes(groups, |groups|, x);
    SumOfTimes(Tails(groups), |groups|, x);
  }

  lemma {:induction false} NoHeads<T>(groups: seq<seq<T>>, n: nat, x: T)
    requires n <= |groups| && Heads(groups, n) == []
    ensures CountIn(groups, n, x) == 0
  {
    if n > 0 {
      NoHeads(groups, n - 1, x);
    }
  }

  /** Taking turns loses and duplicates nothing. */
  lemma {:induction false} InterleaveCounts<T(!new)>(groups: seq<seq<T>>, x: T)
    ensures multiset(Interleave(groups))[x] == CountIn(groups, |groups|, x)
    decreases Size(groups, |groups|)
  {
    if Heads(groups, |groups|) == [] {
      NoHeads(groups, |groups|, x);
    } else {
      HeadsTakeFromSize(groups, |groups|);
      HeadCounts(groups, x);
      InterleaveCounts(Tails(groups), x);
    }
  }

  // ----- dropping empty lists

  /** The nonempty lists among the first `n`. */
  function NonEmpty<T>(lists: seq<seq<T>>, n: nat): (r: seq<seq<T>>)
    requires n <= |lists|
    ensures |r| <= n && forall i :: 0 <= i < |r| ==> r[i] != []
  {
    if n == 0 then [] else NonEmpty(lists, n - 1) + if lists[n - 1] == [] then [] else [lists[n - 1]]
  }

  method DropEmpty<T(==)>(lists: seq<seq<T>>) returns (r: seq<seq<T>>)
    ensures r == NonEmpty(lists, |lists|)
  {
    r := [];
    for n := 0 to |lists|
      invariant r == NonEmpty(lists, n)
    {
      if lists[n] != [] {
        r := r + [lists[n]];
      }
    }
  }

  /** Dropping empty lists keeps what the others hold. */
  lemma {:induction false} NonEmptyCounts<T>(lists: seq<seq<T>>, n: nat, x: T)
    requires n <= |lists|
    ensures CountIn(NonEmpty(lists, n), |NonEmpty(lists, n)|, x) == CountIn(lists, n, x)
  {
    if n > 0 {
      NonEmptyCounts(lists, n - 1, x);
      if lists[n - 1] != [] {
        CountSnoc(NonEmpty(lists, n - 1), lists[n - 1], x);
      } else {
        assert NonEmpty(lists, n - 1) + [] == NonEmpty(lists, n - 1);
      }
    }
  }

  lemma {:induction false} CountPrefix<T>(a: seq<seq<T>>, b: seq<seq<T>>, n: nat, x: T)
    requires n <= |a| && n <= |b| && forall i :: 0 <= i < n ==> a[i] == b[i]
    ensures CountIn(a, n, x) == CountIn(b, n, x)
  {
    if n > 0 {
      CountPrefix(a, b, n - 1, x);
    }
  }

  lemma CountSnoc<T>(lists: seq<seq<T>>, last: seq<T>, x: T)
    ensures CountIn(lists + [last], |lists| + 1, x) == CountIn(lists, |lists|, x) + multiset(last)[x]
  {
    CountPrefix(lists + [last], lists, |lists|, x);
  }

  lemma {:induction false} FlattenCounts<T>(lists: seq<seq<T>>, x: T)
    ensures multiset(Flatten(lists))[x] == CountIn(lists, |lists|, x)
    decreases |lists|
  {
    if lists != [] {
      var front, last := lists[..|lists| - 1], lists[|lists| - 1];
      FlattenCounts(front, x);
      FlattenSnoc(front, last);
      CountSnoc(front, last, x);
      assert lists == front + [last];
    }
  }
}
