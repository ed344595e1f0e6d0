/** The order of a selection, in the settings' own terms: where every model stands among those of its
    provider, how the providers take turns, and what comes before what in the selected list. */
module SelectionOrder {
  import opened Common
  import opened FallbackOrder
  import opened Sorting
  import opened FreePool
  import opened SelectionSafety
  import Cooldowns

  // ----- what comes before what in a list

  ghost predicate Before<T>(s: seq<T>, x: T, y: T) {
    exists p: nat, q: nat {:trigger s[p], s[q]} :: p < q < |s| && s[p] == x && s[q] == y
  }

  lemma OnlyOneWay<T>(s: seq<T>, x: T, y: T)
    requires NoDuplicates(s) && Before(s, x, y)
    ensures x != y && !Before(s, y, x)
  {
    var p: nat, q: nat :| p < q < |s| && s[p] == x && s[q] == y;
  }

  lemma BeforeInTail<T>(head: T, tail: seq<T>, x: T, y: T)
    ensures Before([head] + tail, x, y) <==> (x == head && y in tail) || Before(tail, x, y)
  {
    var s := [head] + tail;
    if Before(s, x, y) {
      var p: nat, q: nat :| p < q < |s| && s[p] == x && s[q] == y;
      assert tail[q - 1] == y;
      if p > 0 { assert tail[p - 1] == x; }
    }
    if x == head && y in tail {
      var q :| 0 <= q < |tail| && tail[q] == y;
      assert s[0] == x && s[q + 1] == y;
    }
    if Before(tail, x, y) {
      var p: nat, q: nat :| p < q < |tail| && tail[p] == x && tail[q] == y;
      assert s[p + 1] == x && s[q + 1] == y;
    }
  }

  /** Filtering keeps what comes before what. */
  lemma {:induction false} FilterBefore<T>(s: seq<T>, keep: T -> bool, x: T, y: T)
    ensures keep(x) && keep(y) ==> (Before(Filter(s, keep), x, y) <==> Before(s, x, y))
  {
    hide Before;
    if s == [] {
      NothingBefore(s, x, y);
    } else {
      FilterBefore(s[1..], keep, x, y);
      FilterHas(s[1..], keep, y);
      assert s == [s[0]] + s[1..];
      BeforeInTail(s[0], s[1..], x, y);
      BeforeInTail(s[0], Filter(s[1..], keep), x, y);
      assert [] + Filter(s[1..], keep) == Filter(s[1..], keep);
    }
  }

  lemma NothingBefore<T>(s: seq<T>, x: T, y: T)
    requires s == []
    ensures !Before(s, x, y)
  {
  }

  lemma FilterHas<T>(s: seq<T>, keep: T -> bool, x: T)
    ensures x in Filter(s, keep) <==> x in s && keep(x)
  {
    FilterCounts(s, keep, x);
    assert x in Filter(s, keep) <==> multiset(Filter(s, keep))[x] > 0;
    assert x in s <==> multiset(s)[x] > 0;
  }

  // ----- taking turns

  /** Where the `a`-th element of list `i` comes when the lists take turns. */
  function Place<T>(groups: seq<seq<T>>, i: nat, a: nat): nat
    requires i < |groups| && a < |groups[i]|
    decreases a
  {
    if a == 0 then |Heads(groups, i)| else |Heads(groups, |groups|)| + Place(Tails(groups), i, a - 1)
  }

  lemma {:induction false} HeadsAt<T>(groups: seq<seq<T>>, i: nat, n: nat)
    requires i < n <= |groups|
    ensures Heads(groups, i) <= Heads(groups, n)
    ensures groups[i] != [] ==> |Heads(groups, i)| < |Heads(groups, n)|
    ensures groups[i] != [] ==> Heads(groups, n)[|Heads(groups, i)|] == groups[i][0]
  {
    if i < n - 1 {
      HeadsAt(groups, i, n - 1);
    }
  }

  lemma {:induction false} PlaceHolds<T>(groups: seq<seq<T>>, i: nat, a: nat)
    requires i < |groups| && a < |groups[i]|
    ensures Place(groups, i, a) < |Interleave(groups)|
    ensures Interleave(groups)[Place(groups, i, a)] == groups[i][a]
    decreases a
  {
    HeadsAt(groups, i, |groups|);
    HeadsTakeFromSize(groups, |groups|);
    if a > 0 {
      PlaceHolds(Tails(groups), i, a - 1);
    }
  }

  /** The first ones of all lists in the order of the lists, then the second ones, and so on. */
  lemma {:induction false} PlacesOrdered<T>(groups: seq<seq<T>>, i: nat, a: nat, j: nat, b: nat)
    requires i < |groups| && a < |groups[i]| && j < |groups| && b < |groups[j]|
    requires a < b || (a == b && i < j)
    ensures Place(groups, i, a) < Place(groups, j, b)
    decreases a
  {
    HeadsAt(groups, i, |groups|);
    if a == 0 {
      if b == 0 {
        HeadsAt(groups, i, j);
      }
    } else {
      PlacesOrdered(Tails(groups), i, a - 1, j, b - 1);
    }
  }

  lemma TurnsBefore<T>(groups: seq<seq<T>>, i: nat, a: nat, j: nat, b: nat)
    requires i < |groups| && a < |groups[i]| && j < |groups| && b < |groups[j]|
    requires a < b || (a == b && i < j)
    ensures Before(Interleave(groups), groups[i][a], groups[j][b])
  {
    PlaceHolds(groups, i, a);
    PlaceHolds(groups, j, b);
    PlacesOrdered(groups, i, a, j, b);
  }

  /** Which place a nonempty list has when the empty ones are dropped. */
  lemma {:induction false} KeptAt<T>(lists: seq<seq<T>>, i: nat, n: nat) returns (k: nat)
    requires i < n <= |lists| && lists[i] != []
    ensures k == |NonEmpty(lists, i)| < |NonEmpty(lists, n)| && NonEmpty(lists, n)[k] == lists[i]
  {
    if i < n - 1 {
      k := KeptAt(lists, i, n - 1);
    } else {
      k := |NonEmpty(lists, i)|;
    }
  }

  lemma {:induction false} MoreKept<T>(lists: seq<seq<T>>, i: nat, n: nat)
    requires i <= n <= |lists|
    ensures |NonEmpty(lists, i)| <= |NonEmpty(lists, n)|
    decreases n
  {
    if i < n {
      MoreKept(lists, i, n - 1);
    }
  }

  lemma NonEmptyTurnsBefore<T>(lists: seq<seq<T>>, i: nat, a: nat, j: nat, b: nat)
    requires i < |lists| && a < |lists[i]| && j < |lists| && b < |lists[j]|
    requires a < b || (a == b && i < j)
    ensures Before(Interleave(NonEmpty(lists, |lists|)), lists[i][a], lists[j][b])
  {
    var k := KeptAt(lists, i, |lists|);
    var l := KeptAt(lists, j, |lists|);
    if i < j {
      var _ := KeptAt(lists, i, j);
    }
    TurnsBefore(NonEmpty(lists, |lists|), k, a, l, b);
  }

  // ----- what is better than what

  /** A text before another as Python compares them. */
  ghost predicate TextBefore(a: string, b: string) {
    exists k: nat {:trigger a[..k]} ::
      k <= |a| && k < |b| && a[..k] == b[..k] && (k == |a| || a[k] < b[k])
  }

  /** Where two keys differ first. */
  lemma {:induction false} FirstDifference(a: Key, b: Key) returns (k: nat)
    requires LexLeq(a, b) && a != b
    ensures k <= |a| && k < |b| && a[..k] == b[..k] && (k == |a| || a[k] < b[k])
    decreases |a|
  {
    if a == [] || a[0] < b[0] {
      k := 0;
    } else {
      assert a == [a[0]] + a[1..] && b == [b[0]] + b[1..];
      var rest := FirstDifference(a[1..], b[1..]);
      k := rest + 1;
      assert a[..k] == [a[0]] + a[1..][..rest] && b[..k] == [b[0]] + b[1..][..rest];
    }
  }

  lemma CodesBefore(a: string, b: string)
    requires LexLeq(Codes(a), Codes(b)) && a != b
    ensures TextBefore(a, b)
  {
    assert Codes(a) != Codes(b) by {
      if |a| == |b| {
        var i :| 0 <= i < |a| && a[i] != b[i];
        assert Codes(a)[i] != Codes(b)[i];
      }
    }
    var k := FirstDifference(Codes(a), Codes(b));
    forall i | 0 <= i < k ensures a[i] == b[i] {
      assert Codes(a)[..k][i] == Codes(b)[..k][i];
    }
    assert a[..k] == b[..k];
  }

  lemma LexCons(i: int, a: Key, j: int, b: Key)
    ensures LexLeq([i] + a, [j] + b) <==> i < j || (i == j && LexLeq(a, b))
  {
    assert ([i] + a)[1..] == a && ([j] + b)[1..] == b;
  }

  predicate Large(m: FreeModel) { m.context.Some? && m.context.value >= 512001 }

  function Family(view: Snapshot, m: FreeModel): nat { if m.Billing() == "free" then view.familyRank(m) else 0 }

  /** Better health counts first, then a large context, then the preferred family of a free model. */
  predicate HigherTier(view: Snapshot, x: FreeModel, y: FreeModel) {
    if view.health(x) != view.health(y) then view.health(x) < view.health(y)
    else if Large(x) != Large(y) then Large(x)
    else Family(view, x) < Family(view, y)
  }

  predicate SameTier(view: Snapshot, x: FreeModel, y: FreeModel) {
    view.health(x) == view.health(y) && (Large(x) <==> Large(y)) && Family(view, x) == Family(view, y)
  }

  predicate LastUsed(view: Snapshot, m: FreeModel) { view.lastSuccess == Some(m.provider + "/" + m.modelId) }

  function Tokens(m: FreeModel): nat { if m.context.Some? then m.context.value else 0 }

  /** The order of a provider's models: within a tier the last one that succeeded, then models made
      for coding, then the larger context, then the id. */
  ghost predicate Better(view: Snapshot, x: FreeModel, y: FreeModel) {
    || HigherTier(view, x, y)
    || (SameTier(view, x, y) &&
         if LastUsed(view, x) != LastUsed(view, y) then LastUsed(view, x)
         else if view.coder(x) != view.coder(y) then view.coder(x)
         else if Tokens(x) != Tokens(y) then Tokens(x) > Tokens(y)
         else TextBefore(x.modelId, y.modelId))
  }

  lemma TierMeans(view: Snapshot, x: FreeModel, y: FreeModel)
    ensures LexLeq(Tier(view, x), Tier(view, y)) <==> HigherTier(view, x, y) || SameTier(view, x, y)
    ensures Tier(view, x) == Tier(view, y) <==> SameTier(view, x, y)
    ensures HigherTier(view, x, y) || SameTier(view, x, y) || HigherTier(view, y, x)
    ensures HigherTier(view, x, y) ==> !SameTier(view, x, y) && !HigherTier(view, y, x)
  {
    var a, b := Tier(view, x), Tier(view, y);
    assert a == [a[0]] + ([a[1]] + ([a[2]] + [])) && b == [b[0]] + ([b[1]] + ([b[2]] + []));
    LexCons(a[0], [a[1]] + ([a[2]] + []), b[0], [b[1]] + ([b[2]] + []));
    LexCons(a[1], [a[2]] + [], b[1], [b[2]] + []);
    LexCons(a[2], [], b[2], []);
  }

  lemma LexAppend(a: Key, b: Key, c: Key, d: Key)
    requires |a| == |c|
    ensures LexLeq(a + b, c + d) ==> LexLeq(a, c) && (a == c ==> LexLeq(b, d))
  {
    if a == [] {
      assert a + b == b && c + d == d;
    } else {
      assert (a + b)[1..] == a[1..] + b && (c + d)[1..] == c[1..] + d;
      LexAppend(a[1..], b, c[1..], d);
    }
  }

  /** What a provider's models are ordered by between their tier and their id. */
  function Preference(view: Snapshot, m: FreeModel): Key {
    [if view.lastSuccess == Some(m.Ref()) then 0 else 1, if view.coder(m) then 0 else 1, 0 - Context(m) as int]
  }

  lemma KeyMeans(view: Snapshot, x: FreeModel, y: FreeModel)
    requires LexLeq(ProviderKey(view, x), ProviderKey(view, y)) && x.modelId != y.modelId
    ensures Better(view, x, y)
  {
    hide TextBefore, HigherTier, SameTier, Tier, Codes;
    TierMeans(view, x, y);
    var a, b := Preference(view, x), Preference(view, y);
    Associative(Tier(view, x), a, Codes(x.modelId));
    Associative(Tier(view, y), b, Codes(y.modelId));
    assert |Tier(view, x)| == |Tier(view, y)| by { TierLength(view, x); TierLength(view, y); }
    LexAppend(Tier(view, x), a + Codes(x.modelId), Tier(view, y), b + Codes(y.modelId));
    if SameTier(view, x, y) {
      LexAppend(a, Codes(x.modelId), b, Codes(y.modelId));
      assert a == [a[0]] + ([a[1]] + ([a[2]] + [])) && b == [b[0]] + ([b[1]] + ([b[2]] + []));
      LexCons(a[0], [a[1]] + ([a[2]] + []), b[0], [b[1]] + ([b[2]] + []));
      LexCons(a[1], [a[2]] + [], b[1], [b[2]] + []);
      LexCons(a[2], [], b[2], []);
      if a == b {
        CodesBefore(x.modelId, y.modelId);
      }
    }
  }

  lemma TierLength(view: Snapshot, x: FreeModel)
    ensures |Tier(view, x)| == 3
  {
  }

  // ----- a provider's models

  lemma EligibleFacts(settings: Settings, request: Request, view: Snapshot)
    requires Configured(settings, view)
    ensures var eligible := EligibleModels(settings, request, view);
            && NoDuplicates(eligible)
            && (forall x :: x in eligible <==> x in view.catalog && Eligible(settings, request, view, x))
  {
    hide Eligible, Configured, EligibleModels;
    var eligible := EligibleModels(settings, request, view);
    forall x
      ensures multiset(eligible)[x] == if x in view.catalog && Eligible(settings, request, view, x) then 1 else 0
    {
      EligibleCounts(settings, request, view, x);
    }
    CountsGiveNoDuplicates(eligible);
    forall x ensures x in eligible <==> multiset(eligible)[x] > 0 {}
  }

  lemma DistinctIds(settings: Settings, view: Snapshot, x: FreeModel, y: FreeModel)
    requires Configured(settings, view) && x in view.catalog && y in view.catalog && x != y
    requires x.provider == y.provider
    ensures x.modelId != y.modelId
  {
    var i :| 0 <= i < |view.catalog| && view.catalog[i] == x;
    var j :| 0 <= j < |view.catalog| && view.catalog[j] == y;
    assert view.catalog[i].Ref() != view.catalog[j].Ref();
  }

  /** A provider's list of a category holds exactly its eligible models of that category, each once,
      the better before the worse. */
  lemma ProviderListMeans(settings: Settings, request: Request, view: Snapshot, billing: string, provider: string)
    requires Configured(settings, view)
    ensures var list := ProviderModels(view, EligibleModels(settings, request, view), billing, provider);
            && NoDuplicates(list)
            && (forall x :: x in list <==>
                  && x in view.catalog && Eligible(settings, request, view, x)
                  && x.provider == provider && x.Billing() == billing)
            && (forall a, b :: 0 <= a < b < |list| ==> Better(view, list[a], list[b]))
  {
    hide Eligible, EligibleModels, ProviderKey, Better;
    var eligible := EligibleModels(settings, request, view);
    var list := ProviderModels(view, eligible, billing, provider);
    EligibleFacts(settings, request, view);
    forall x
      ensures multiset(list)[x] == if x in eligible && x.provider == provider && x.Billing() == billing then 1 else 0
    {
      ProviderModelsCount(view, eligible, billing, provider, x);
      NoDuplicatesCount(eligible, x);
    }
    CountsGiveNoDuplicates(list);
    forall x ensures x in list <==> multiset(list)[x] > 0 {}
    SortSorts(Filter(eligible, (m: FreeModel) => m.provider == provider && m.Billing() == billing),
              (m: FreeModel) => ProviderKey(view, m));
    forall a, b | 0 <= a < b < |list| ensures Better(view, list[a], list[b]) {
      assert list[a] in list && list[b] in list;
      DistinctIds(settings, view, list[a], list[b]);
      KeyMeans(view, list[a], list[b]);
    }
  }

  // ----- a category

  lemma SortedBefore(s: seq<FreeModel>, view: Snapshot, x: FreeModel, y: FreeModel)
    requires Sorted(s, TierOf(view)) && x in s && y in s && HigherTier(view, x, y)
    ensures Before(s, x, y)
  {
    hide Tier, HigherTier, SameTier, LexLeq;
    TierMeans(view, x, y);
    TierMeans(view, y, x);
    var p :| 0 <= p < |s| && s[p] == x;
    var q :| 0 <= q < |s| && s[q] == y;
  }

  /** Sorting by tiers puts the higher tier first and keeps the turns of the lists within a tier. */
  lemma SortedTurnsBefore(lists: seq<seq<FreeModel>>, view: Snapshot, i: nat, a: nat, j: nat, b: nat)
    requires i < |lists| && a < |lists[i]| && j < |lists| && b < |lists[j]|
    requires HigherTier(view, lists[i][a], lists[j][b])
          || (SameTier(view, lists[i][a], lists[j][b]) && (a < b || (a == b && i < j)))
    ensures Before(Sort(Interleave(NonEmpty(lists, |lists|)), TierOf(view)), lists[i][a], lists[j][b])
  {
    hide Before, HigherTier, SameTier, Tier, Interleave, Sort;
    var x, y, turns := lists[i][a], lists[j][b], Interleave(NonEmpty(lists, |lists|));
    SortSorts(turns, TierOf(view));
    if HigherTier(view, x, y) {
      InTurns(lists, i, a);
      InTurns(lists, j, b);
      assert x in multiset(Sort(turns, TierOf(view))) && y in multiset(Sort(turns, TierOf(view)));
      SortedBefore(Sort(turns, TierOf(view)), view, x, y);
    } else {
      TierMeans(view, x, y);
      NonEmptyTurnsBefore(lists, i, a, j, b);
      var tier := HasKey(TierOf(view), Tier(view, x));
      FilterBefore(turns, tier, x, y);
      SortIsStable(turns, TierOf(view), Tier(view, x));
      FilterBefore(Sort(turns, TierOf(view)), tier, x, y);
    }
  }

  lemma InTurns(lists: seq<seq<FreeModel>>, i: nat, a: nat)
    requires i < |lists| && a < |lists[i]|
    ensures lists[i][a] in multiset(Interleave(NonEmpty(lists, |lists|)))
  {
    var k := KeptAt(lists, i, |lists|);
    PlaceHolds(NonEmpty(lists, |lists|), k, a);
  }

  lemma CategoryOnce(settings: Settings, request: Request, view: Snapshot, billing: string)
    requires Configured(settings, view)
    ensures NoDuplicates(Category(view, EligibleModels(settings, request, view), billing, ProviderOrder(settings)))
  {
    hide Category, Eligible, EligibleModels, ProviderOrder;
    var eligible, order := EligibleModels(settings, request, view), ProviderOrder(settings);
    var category := Category(view, eligible, billing, order);
    EligibleFacts(settings, request, view);
    forall x ensures multiset(category)[x] <= 1 {
      CategoryCount(view, eligible, billing, order, x);
      NoDuplicatesCount(eligible, x);
      if x in eligible {
        ProviderOrderComplete(settings, x.provider);
      } else {
        assert multiset(eligible)[x] == 0;
      }
    }
    CountsGiveNoDuplicates(category);
  }

  /** In a category the `a`-th model of the `i`-th provider in the user's order comes before the
      `b`-th of the `j`-th exactly if it is in a higher tier, or in the same tier and either its
      provider has had fewer turns by then or it is the same turn and the provider comes first. */
  lemma CategoryMeans(
      settings: Settings, request: Request, view: Snapshot, billing: string, i: nat, a: nat, j: nat, b: nat)
    requires Configured(settings, view) && i < |ProviderOrder(settings)| && j < |ProviderOrder(settings)|
    requires a < |ProviderModels(view, EligibleModels(settings, request, view), billing, ProviderOrder(settings)[i])|
    requires b < |ProviderModels(view, EligibleModels(settings, request, view), billing, ProviderOrder(settings)[j])|
    ensures var eligible, order := EligibleModels(settings, request, view), ProviderOrder(settings);
            var x := ProviderModels(view, eligible, billing, order[i])[a];
            var y := ProviderModels(view, eligible, billing, order[j])[b];
            Before(Category(view, eligible, billing, order), x, y) <==>
              || HigherTier(view, x, y)
              || (SameTier(view, x, y) && (a < b || (a == b && i < j)))
  {
    hide Before, HigherTier, SameTier, ProviderModels, EligibleModels, ProviderOrder, Interleave, Sort;
    var eligible, order := EligibleModels(settings, request, view), ProviderOrder(settings);
    var lists := ProviderLists(view, eligible, billing, order);
    var category, x, y := Category(view, eligible, billing, order), lists[i][a], lists[j][b];
    CategoryOnce(settings, request, view, billing);
    TierMeans(view, x, y);
    TierMeans(view, y, x);
    if HigherTier(view, x, y) || (SameTier(view, x, y) && (a < b || (a == b && i < j))) {
      SortedTurnsBefore(lists, view, i, a, j, b);
    } else {
      if i != j || a != b {
        SortedTurnsBefore(lists, view, j, b, i, a);
      }
      if Before(category, x, y) {
        OnlyOneWay(category, x, y);
      }
    }
  }

  // ----- the user's order of providers

  lemma BeforeInBoth<T>(a: seq<T>, b: seq<T>, x: T, y: T)
    ensures Before(a + b, x, y) <==> Before(a, x, y) || Before(b, x, y) || (x in a && y in b)
  {
    var s := a + b;
    if Before(s, x, y) {
      var p: nat, q: nat :| p < q < |s| && s[p] == x && s[q] == y;
      if p >= |a| {
        assert b[p - |a|] == x && b[q - |a|] == y;
      } else if q >= |a| {
        assert a[p] == x && b[q - |a|] == y;
      } else {
        assert a[p] == x && a[q] == y;
      }
    }
    if Before(a, x, y) {
      var p: nat, q: nat :| p < q < |a| && a[p] == x && a[q] == y;
      assert s[p] == x && s[q] == y;
    }
    if Before(b, x, y) {
      var p: nat, q: nat :| p < q < |b| && b[p] == x && b[q] == y;
      assert s[|a| + p] == x && s[|a| + q] == y;
    }
    if x in a && y in b {
      var p: nat :| p < |a| && a[p] == x;
      var q: nat :| q < |b| && b[q] == y;
      assert s[p] == x && s[|a| + q] == y;
    }
  }

  /** The providers the user has put in order come first, in that order; all others follow in the
      order in which they are known. */
  lemma ProviderOrderMeans(settings: Settings, p: string, q: string)
    ensures var chosen, known := settings.providerPriority, settings.routingProviders;
            Before(ProviderOrder(settings), p, q) <==>
              || Before(chosen, p, q)
              || (p in chosen && q !in chosen && q in known)
              || (p !in chosen && q !in chosen && Before(known, p, q))
  {
    hide Before;
    var chosen, known := settings.providerPriority, settings.routingProviders;
    var others := (r: string) => r !in chosen;
    BeforeInBoth(chosen, Filter(known, others), p, q);
    FilterBefore(known, others, p, q);
    FilterHas(known, others, q);
    FilterHas(known, others, p);
    OnlyMembersBefore(Filter(known, others), p, q);
  }

  lemma OnlyMembersBefore<T>(s: seq<T>, x: T, y: T)
    ensures Before(s, x, y) ==> x in s && y in s
  {
  }

  // ----- the whole selection

  function PlaceIn(s: seq<FreeModel>, x: FreeModel): nat {
    if s == [] || s[0] == x then 0 else 1 + PlaceIn(s[1..], x)
  }

  lemma {:induction false} PlaceOf(s: seq<FreeModel>, k: nat)
    requires NoDuplicates(s) && k < |s|
    ensures PlaceIn(s, s[k]) == k
  {
    if k > 0 {
      PlaceOf(s[1..], k - 1);
    }
  }

  /** Every model has its place in its category's list. */
  function PlaceInCategory(category: string -> seq<FreeModel>): FreeModel -> Key {
    (m: FreeModel) => [PlaceIn(category(m.Billing()), m)]
  }

  lemma PlacesSort(category: string -> seq<FreeModel>, b: string)
    requires NoDuplicates(category(b)) && forall x :: x in category(b) ==> x.Billing() == b
    ensures Sorted(category(b), PlaceInCategory(category))
  {
    var s := category(b);
    forall i: nat, j: nat | i < j < |s|
      ensures LexLeq(PlaceInCategory(category)(s[i]), PlaceInCategory(category)(s[j]))
    {
      PlaceOf(s, i);
      PlaceOf(s, j);
      assert s[i] in s && s[j] in s;
    }
  }

  lemma PlacedCategories(settings: Settings, request: Request, view: Snapshot)
    requires Configured(settings, view)
    ensures var category := CategoryOf(view, EligibleModels(settings, request, view), ProviderOrder(settings));
            && OwnAndSorted(category, PlaceInCategory(category))
            && forall b :: NoDuplicates(category(b))
  {
    hide Category, EligibleModels, ProviderOrder, Sorted, NoDuplicates, Configured;
    var eligible, order := EligibleModels(settings, request, view), ProviderOrder(settings);
    var category := CategoryOf(view, eligible, order);
    CategoriesOwnAndSorted(view, eligible, order);
    forall b ensures NoDuplicates(category(b)) && Sorted(category(b), PlaceInCategory(category)) {
      CategoryOnce(settings, request, view, b);
      PlacesSort(category, b);
    }
  }

  lemma PlacedBefore(s: seq<FreeModel>, x: FreeModel, y: FreeModel)
    requires NoDuplicates(s) && x in s && y in s && x != y && PlaceIn(s, x) <= PlaceIn(s, y)
    ensures Before(s, x, y)
  {
    var p: nat :| p < |s| && s[p] == x;
    var q: nat :| q < |s| && s[q] == y;
    PlaceOf(s, p);
    PlaceOf(s, q);
  }

  lemma InOwnCategory(settings: Settings, request: Request, view: Snapshot, x: FreeModel)
    requires Configured(settings, view) && x in view.catalog && Eligible(settings, request, view, x)
    ensures x in Category(view, EligibleModels(settings, request, view), x.Billing(), ProviderOrder(settings))
  {
    hide Category, Eligible, EligibleModels, ProviderOrder, FreeModel.Billing;
    var eligible, order := EligibleModels(settings, request, view), ProviderOrder(settings);
    EligibleFacts(settings, request, view);
    NoDuplicatesCount(eligible, x);
    ProviderOrderComplete(settings, x.provider);
    CategoryCount(view, eligible, x.Billing(), order, x);
    assert multiset(Category(view, eligible, x.Billing(), order))[x] > 0;
  }

  lemma {:induction false} IndexFinds(s: seq<string>, i: nat, x: string)
    requires i <= |s|
    ensures i <= IndexOf(s, i, x) <= |s| && (IndexOf(s, i, x) < |s| ==> s[IndexOf(s, i, x)] == x)
    ensures x in s[i..] ==> IndexOf(s, i, x) < |s|
    decreases |s| - i
  {
    if i < |s| && s[i] != x {
      IndexFinds(s, i + 1, x);
      assert s[i..] == [s[i]] + s[i + 1..];
    }
  }

  lemma EarlierCategory(priority: seq<string>, a: string, b: string)
    requires a in priority && b in priority
    ensures IndexOf(priority, 0, a) < IndexOf(priority, 0, b) ==> Before(priority, a, b)
    ensures IndexOf(priority, 0, a) == IndexOf(priority, 0, b) ==> a == b
  {
    assert priority[0..] == priority;
    IndexFinds(priority, 0, a);
    IndexFinds(priority, 0, b);
  }

  lemma RankedBefore(settings: Settings, category: string -> seq<FreeModel>, x: FreeModel, y: FreeModel)
    requires x.Billing() in settings.priority && y.Billing() in settings.priority && x != y
    requires x in category(x.Billing()) && y in category(y.Billing()) && NoDuplicates(category(x.Billing()))
    requires var level := Level(settings, PlaceInCategory(category)); LexLeq(level(x), level(y))
    ensures Before(settings.priority, x.Billing(), y.Billing())
         || (x.Billing() == y.Billing() && Before(category(x.Billing()), x, y))
  {
    hide Before, FreeModel.Billing;
    var a, b := PlaceIn(category(x.Billing()), x), PlaceIn(category(y.Billing()), y);
    EarlierCategory(settings.priority, x.Billing(), y.Billing());
    LexCons(IndexOf(settings.priority, 0, x.Billing()), [a], IndexOf(settings.priority, 0, y.Billing()), [b]);
    assert [a as int] == [a as int] + [] && [b as int] == [b as int] + [];
    LexCons(a, [], b, []);
    if x.Billing() == y.Billing() && a <= b {
      PlacedBefore(category(x.Billing()), x, y);
    }
  }

  /** The selection without the manual choice that comes first. */
  function Automatic(settings: Settings, request: Request, view: Snapshot): seq<FreeModel> {
    var r := Ordered(settings, request, view);
    if ManualEligible(settings, request, view) && r != [] then r[1..] else r
  }

  lemma AutomaticIsEligible(settings: Settings, request: Request, view: Snapshot)
    requires Configured(settings, view)
    ensures var r := Automatic(settings, request, view);
            NoDuplicates(r) && forall x :: x in r ==> x in view.catalog && Eligible(settings, request, view, x)
  {
    hide Eligible, Configured, ManualEligible, Ordered;
    SelectionIsEligible(settings, request, view);
  }

  /** Apart from the manual choice, of two selected models the earlier one is of an earlier category
      in the user's order, or comes before the other one in the list of their category. */
  lemma SelectionKeepsTurns(settings: Settings, request: Request, view: Snapshot, p: nat, q: nat)
    requires Configured(settings, view)
    ensures var r := Automatic(settings, request, view);
            p < q < |r| ==>
              || Before(settings.priority, r[p].Billing(), r[q].Billing())
              || (r[p].Billing() == r[q].Billing()
                  && Before(Category(view, EligibleModels(settings, request, view), r[p].Billing(),
                                     ProviderOrder(settings)), r[p], r[q]))
  {
    hide Eligible, EligibleModels, ProviderOrder, Category, Before, Ordered, ManualEligible, LexLeq, FreeModel.Billing;
    var r := Automatic(settings, request, view);
    var category := CategoryOf(view, EligibleModels(settings, request, view), ProviderOrder(settings));
    if p < q < |r| {
      var x, y := r[p], r[q];
      PlacedCategories(settings, request, view);
      SelectionIsRanked(settings, request, view, PlaceInCategory(category));
      AutomaticIsEligible(settings, request, view);
      assert x in r && y in r;
      InOwnCategory(settings, request, view, x);
      InOwnCategory(settings, request, view, y);
      LabelListed(settings, view, x);
      LabelListed(settings, view, y);
      RankedBefore(settings, category, x, y);
    }
  }

  lemma LabelListed(settings: Settings, view: Snapshot, x: FreeModel)
    requires Configured(settings, view)
    ensures x.Billing() in settings.priority
  {
    assert x.Billing() in LABELS;
  }

  // ----- which models are used, and what a refusal says

  /** The model suits the request, whatever its size, and the settings allow it. */
  predicate Suits(settings: Settings, request: Request, m: FreeModel) {
    && m.provider !in settings.disabled
    && (m.Billing() == "subscription" ==> settings.allowSubscription && !request.chat)
    && (m.Billing() == "paid_api" ==> settings.allowPaid)
    && (request.tools ==> m.tools) && (request.vision ==> m.vision)
    && m.context.Some? && m.context.value >= 256000
  }

  /** It can take the request now: it is large enough, no cooldown keeps it from being used, and its
      provider has failed fewer than three times for this request. */
  predicate Usable(settings: Settings, request: Request, view: Snapshot, m: FreeModel) {
    && Suits(settings, request, m) && m.context.value >= request.context
    && Cooldowns.Cooldown(view.table, view.scopeOf(m.provider), m, view.now).None?
    && (view.budget.Some? && m.provider in view.budget.value ==> view.budget.value[m.provider] < 3)
  }

  lemma UsableIsEligible(settings: Settings, request: Request, view: Snapshot, m: FreeModel)
    ensures Usable(settings, request, view, m) <==> Eligible(settings, request, view, m)
  {
  }

  /** Every selected model can take the request, and every category with a model that can is among
      the selected ones and is not refused as too large. */
  lemma SelectedMeans(settings: Settings, request: Request, view: Snapshot)
    requires Configured(settings, view)
    ensures var r := Ordered(settings, request, view);
            && (forall m :: m in r ==> m in view.catalog && Usable(settings, request, view, m))
            && (forall m :: m in view.catalog && Usable(settings, request, view, m) ==>
                  !TooLarge(settings, request, view) && exists x :: x in r && x.Billing() == m.Billing())
  {
    hide Usable, Eligible, Ordered, TooLarge, Configured, FreeModel.Billing;
    forall m ensures Usable(settings, request, view, m) <==> Eligible(settings, request, view, m) {
      UsableIsEligible(settings, request, view, m);
    }
    SelectionIsEligible(settings, request, view);
    NoCategoryStarves(settings, request, view);
    SucceedsExactly(settings, request, view);
  }

  /** A request is refused as too large exactly if some models suit it and none is large enough. */
  lemma TooLargeMeans(settings: Settings, request: Request, view: Snapshot)
    ensures TooLarge(settings, request, view) <==>
              && (exists m :: m in view.catalog && Suits(settings, request, m))
              && (forall m :: m in view.catalog && Suits(settings, request, m) ==> m.context.value < request.context)
  {
    hide Suits;
    var c := view.catalog;
    forall m
      ensures Suits(settings, request, m) <==> Compatible(settings, request, m)
      ensures Suits(settings, request, m) ==> m.context.Some?
    {
      SuitsIsCompatible(settings, request, m);
    }
    if exists m :: m in c && Suits(settings, request, m) {
      var m :| m in c && Suits(settings, request, m);
      var i: nat :| i < |c| && c[i] == m;
      assert Compatible(settings, request, c[i]);
    }
    if TooLarge(settings, request, view) {
      forall m | m in c && Suits(settings, request, m) ensures m.context.value < request.context {
        var i: nat :| i < |c| && c[i] == m;
        assert Compatible(settings, request, c[i]);
      }
    }
  }

  lemma SuitsIsCompatible(settings: Settings, request: Request, m: FreeModel)
    ensures Suits(settings, request, m) <==> Compatible(settings, request, m)
    ensures Suits(settings, request, m) ==> m.context.Some?
  {
  }

  /** An empty selection is reported as a rate limit exactly if some model of an enabled provider is
      cooling down, and all that are do so for a rate limit or a spent daily quota. */
  lemma RateLimitMeans(settings: Settings, view: Snapshot)
    ensures RateLimitedOnly(settings, view) <==>
              && (exists m :: m in view.catalog && m.provider !in settings.disabled && CooldownOf(view, m).Some?)
              && (forall m :: m in view.catalog && m.provider !in settings.disabled && CooldownOf(view, m).Some? ==>
                    CooldownOf(view, m).value.reason in {Cooldowns.RateLimited, Cooldowns.DailyQuotaExhausted})
  {
    hide CooldownOf;
    var c := view.catalog;
    if exists m :: m in c && m.provider !in settings.disabled && CooldownOf(view, m).Some? {
      var m :| m in c && m.provider !in settings.disabled && CooldownOf(view, m).Some?;
      var i: nat :| i < |c| && c[i] == m;
      assert c[i].provider !in settings.disabled && CooldownOf(view, c[i]).Some?;
    }
  }

  // ----- the manual choice

  /** The settings name this model, or all models of its provider and billing. */
  predicate Named(settings: Settings, m: FreeModel) {
    && settings.selectedProvider.Some? && settings.selectedProvider.value == m.provider
    && settings.selectedBilling == m.Billing()
    && (settings.selectedModel.Some? ==> settings.selectedModel.value == m.modelId)
  }

  lemma {:induction false} BeforeInFlat<T>(lists: seq<seq<T>>, i: nat, x: T, y: T)
    requires i < |lists| && Before(lists[i], x, y)
    ensures Before(Flatten(lists), x, y)
  {
    hide Before;
    BeforeInBoth(lists[0], Flatten(lists[1..]), x, y);
    if i > 0 {
      BeforeInFlat(lists[1..], i - 1, x, y);
    }
  }

  lemma EitherBefore<T>(s: seq<T>, x: T, y: T)
    requires x in s && y in s && x != y
    ensures Before(s, x, y) || Before(s, y, x)
  {
    var p: nat :| p < |s| && s[p] == x;
    var q: nat :| q < |s| && s[q] == y;
  }

  lemma CategoryKept(settings: Settings, request: Request, view: Snapshot, m: FreeModel) returns (k: nat)
    requires Configured(settings, view) && m in view.catalog && Eligible(settings, request, view, m)
    ensures var eligible := EligibleModels(settings, request, view);
            && k < |Categories(settings, view, eligible)|
            && Categories(settings, view, eligible)[k]
               == Category(view, eligible, m.Billing(), ProviderOrder(settings))
  {
    hide Eligible, EligibleModels, ProviderOrder, Category, FreeModel.Billing;
    var eligible := EligibleModels(settings, request, view);
    var category := CategoryOf(view, eligible, ProviderOrder(settings));
    InOwnCategory(settings, request, view, m);
    LabelListed(settings, view, m);
    var i: nat :| i < |settings.priority| && settings.priority[i] == m.Billing();
    var lists := CategoryLists(category, settings.priority);
    assert lists[i] == category(m.Billing());
    k := KeptAt(lists, i, |lists|);
  }

  lemma FlatOnce(settings: Settings, request: Request, view: Snapshot)
    requires Configured(settings, view)
    ensures var all := Flatten(Categories(settings, view, EligibleModels(settings, request, view)));
            && NoDuplicates(all)
            && forall x :: x in all <==> x in view.catalog && Eligible(settings, request, view, x)
  {
    hide Eligible, EligibleModels, Categories, Configured;
    var categories := Categories(settings, view, EligibleModels(settings, request, view));
    var all := Flatten(categories);
    forall x ensures multiset(all)[x] == if x in view.catalog && Eligible(settings, request, view, x) then 1 else 0 {
      CategoriesCount(settings, request, view, x);
      FlattenCounts(categories, x);
    }
    CountsGiveNoDuplicates(all);
    forall x ensures x in all <==> multiset(all)[x] > 0 {}
  }

  lemma FirstKept<T>(s: seq<T>, keep: T -> bool, x: T)
    requires x in s && keep(x)
    ensures var all := Filter(s, keep);
            all != [] && keep(all[0]) && all[0] in s && (x != all[0] ==> Before(s, all[0], x))
  {
    var all := Filter(s, keep);
    FilterHas(s, keep, x);
    FilterHas(s, keep, all[0]);
    FilterBefore(s, keep, all[0], x);
  }

  /** When a model that the settings name can take the request, one of them comes first: the one that
      comes before all others in the list of their category. */
  lemma ManualChoiceMeans(settings: Settings, request: Request, view: Snapshot, m: FreeModel)
    requires Configured(settings, view) && m in view.catalog && Usable(settings, request, view, m) && Named(settings, m)
    ensures var r := Ordered(settings, request, view);
            && r != [] && Named(settings, r[0]) && r[0].Billing() == m.Billing()
            && (m != r[0] ==>
                  Before(Category(view, EligibleModels(settings, request, view), m.Billing(), ProviderOrder(settings)),
                         r[0], m))
  {
    hide Usable, Eligible, EligibleModels, ProviderOrder, Category, Before, Ordered, FreeModel.Billing;
    hide Configured, Categories;
    var categories := Categories(settings, view, EligibleModels(settings, request, view));
    UsableIsEligible(settings, request, view, m);
    FlatOnce(settings, request, view);
    var named := (x: FreeModel) => MatchesSelection(settings, x);
    FirstKept(Flatten(categories), named, m);
    var x := Filter(Flatten(categories), named)[0];
    FirstIsMatching(settings, request, view, m);
    if m != x {
      var k := CategoryKept(settings, request, view, m);
      InOwnCategory(settings, request, view, m);
      InOwnCategory(settings, request, view, x);
      EitherBefore(categories[k], x, m);
      OnlyOneWay(Flatten(categories), x, m);
      if Before(categories[k], m, x) {
        BeforeInFlat(categories, k, m, x);
      }
    }
  }

  lemma FirstIsMatching(settings: Settings, request: Request, view: Snapshot, m: FreeModel)
    requires Configured(settings, view)
    requires m in view.catalog && Eligible(settings, request, view, m) && MatchesSelection(settings, m)
    ensures var r := Ordered(settings, request, view);
            var categories := Categories(settings, view, EligibleModels(settings, request, view));
            r != [] && Matching(settings, categories) == [r[0]]
  {
    hide Eligible, EligibleModels, Categories, Matching, Configured, FreeModel.Billing;
    var categories := Categories(settings, view, EligibleModels(settings, request, view));
    var lists := ArrangedCategories(settings, request, view);
    CategoriesCount(settings, request, view, m);
    MatchingChoice(settings, categories);
    assert settings.selectedProvider.Some? && lists[0] == Matching(settings, categories);
    FirstSlot(lists);
  }
}
