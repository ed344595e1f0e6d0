/** What every selection guarantees: which models it holds, that none is repeated, that no
    billing category is starved, and in which order they come. */
module SelectionSafety {
  import opened Common
  import opened FallbackOrder
  import opened Sorting
  import opened FreePool

  // ----- counting models

  function Occurs<T(==)>(s: seq<T>, n: nat, x: T): nat
    requires n <= |s|
  {
    if n == 0 then 0 else Occurs(s, n - 1, x) + if s[n - 1] == x then 1 else 0
  }

  lemma {:induction false} OccursCounts<T>(s: seq<T>, n: nat, x: T)
    requires n <= |s|
    ensures Occurs(s, n, x) == multiset(s[..n])[x]
  {
    if n > 0 {
      OccursCounts(s, n - 1, x);
      assert s[..n] == s[..n - 1] + [s[n - 1]];
    }
  }

  lemma {:induction false} OccursPositive<T>(s: seq<T>, n: nat, x: T)
    requires n <= |s|
    ensures Occurs(s, n, x) > 0 <==> exists i :: 0 <= i < n && s[i] == x
  {
    if n > 0 {
      OccursPositive(s, n - 1, x);
    }
  }

  lemma {:induction false} OccursOnce<T>(s: seq<T>, n: nat, x: T)
    requires n <= |s| && NoDuplicates(s)
    ensures Occurs(s, n, x) <= 1
  {
    if n > 0 {
      OccursOnce(s, n - 1, x);
      OccursPositive(s, n - 1, x);
    }
  }

  lemma {:induction false} TwiceOccurs<T>(s: seq<T>, n: nat, i: nat, j: nat)
    requires i < j < n <= |s| && s[i] == s[j]
    ensures Occurs(s, n, s[i]) >= 2
  {
    if n - 1 > j {
      TwiceOccurs(s, n - 1, i, j);
    } else {
      OccursPositive(s, n - 1, s[i]);
    }
  }

  /** A list repeats nothing exactly when everything occurs at most once in it. */
  lemma CountsGiveNoDuplicates<T>(s: seq<T>)
    requires forall x :: multiset(s)[x] <= 1
    ensures NoDuplicates(s)
  {
    assert s[..|s|] == s;
    forall i: nat, j: nat | i < j < |s| ensures s[i] != s[j] {
      if s[i] == s[j] {
        TwiceOccurs(s, |s|, i, j);
        OccursCounts(s, |s|, s[i]);
      }
    }
  }

  lemma NoDuplicatesCount<T>(s: seq<T>, x: T)
    requires NoDuplicates(s)
    ensures multiset(s)[x] <= 1 && (x in s ==> multiset(s)[x] == 1)
  {
    assert s[..|s|] == s;
    OccursOnce(s, |s|, x);
    OccursCounts(s, |s|, x);
  }

  /** How often the eligible models of one category contain `x`. */
  ghost function EligibleCount(eligible: seq<FreeModel>, billing: string, x: FreeModel): nat {
    if x.Billing() == billing then multiset(eligible)[x] else 0
  }

  lemma ProviderModelsCount(view: Snapshot, eligible: seq<FreeModel>, billing: string, provider: string, x: FreeModel)
    ensures multiset(ProviderModels(view, eligible, billing, provider))[x]
         == if x.provider == provider then EligibleCount(eligible, billing, x) else 0
  {
    var mine := (m: FreeModel) => m.provider == provider && m.Billing() == billing;
    SortSorts(Filter(eligible, mine), (m: FreeModel) => ProviderKey(view, m));
    FilterCounts(eligible, mine, x);
  }

  /** Lists that hold `x` exactly `c` times when their tag is `t`, and otherwise not at all. */
  lemma {:induction false} CountByTag<T>(lists: seq<seq<T>>, tags: seq<string>, n: nat, x: T, t: string, c: nat)
    requires |lists| == |tags| && n <= |tags|
    requires forall i :: 0 <= i < n ==> multiset(lists[i])[x] == if tags[i] == t then c else 0
    ensures CountIn(lists, n, x) == Occurs(tags, n, t) * c
  {
    if n > 0 {
      CountByTag(lists, tags, n - 1, x, t, c);
      Distribute(Occurs(tags, n - 1, t), c);
    }
  }

  lemma Distribute(k: int, c: int)
    ensures (k + 1) * c == k * c + c
  {
  }

  lemma ProviderListsCount(view: Snapshot, eligible: seq<FreeModel>, billing: string, order: seq<string>, x: FreeModel)
    ensures CountIn(ProviderLists(view, eligible, billing, order), |order|, x)
         == Occurs(order, |order|, x.provider) * EligibleCount(eligible, billing, x)
  {
    var lists := ProviderLists(view, eligible, billing, order);
    forall i | 0 <= i < |order|
      ensures multiset(lists[i])[x] == if order[i] == x.provider then EligibleCount(eligible, billing, x) else 0
    {
      ProviderModelsCount(view, eligible, billing, order[i], x);
    }
    CountByTag(lists, order, |order|, x, x.provider, EligibleCount(eligible, billing, x));
  }

  /** How often an eligible model appears when every listed provider contributes its models. */
  ghost function Copies(eligible: seq<FreeModel>, order: seq<string>, x: FreeModel): nat {
    Occurs(order, |order|, x.provider) * multiset(eligible)[x]
  }

  /** Grouping by provider, taking turns and sorting keep exactly the category's models. */
  lemma CategoryCount(view: Snapshot, eligible: seq<FreeModel>, billing: string, order: seq<string>, x: FreeModel)
    ensures multiset(Category(view, eligible, billing, order))[x]
         == Occurs(order, |order|, x.provider) * EligibleCount(eligible, billing, x)
  {
    var lists := ProviderLists(view, eligible, billing, order);
    var groups := NonEmpty(lists, |order|);
    ProviderListsCount(view, eligible, billing, order, x);
    NonEmptyCounts(lists, |order|, x);
    InterleaveCounts(groups, x);
    SortSorts(Interleave(groups), TierOf(view));
  }

  lemma OwnCopies(eligible: seq<FreeModel>, order: seq<string>, b: string, x: FreeModel)
    ensures Occurs(order, |order|, x.provider) * EligibleCount(eligible, b, x)
         == if b == x.Billing() then Copies(eligible, order, x) else 0
  {
  }

  /** Every category holds `x` exactly `c` times when it is its own, and otherwise not at all. */
  ghost predicate HoldsOwn(category: string -> seq<FreeModel>, x: FreeModel, c: nat) {
    forall b :: multiset(category(b))[x] == if b == x.Billing() then c else 0
  }

  lemma CategoriesHoldOwn(view: Snapshot, eligible: seq<FreeModel>, order: seq<string>, x: FreeModel, c: nat)
    requires c == Copies(eligible, order, x)
    ensures HoldsOwn(CategoryOf(view, eligible, order), x, c)
  {
    var category := CategoryOf(view, eligible, order);
    forall b ensures multiset(category(b))[x] == if b == x.Billing() then c else 0 {
      CategoryOfCount(view, eligible, order, b, x, c);
    }
  }

  lemma CategoryOfCount(view: Snapshot, eligible: seq<FreeModel>, order: seq<string>, b: string, x: FreeModel, c: nat)
    requires c == Copies(eligible, order, x)
    ensures multiset(CategoryOf(view, eligible, order)(b))[x] == if b == x.Billing() then c else 0
  {
    CategoryCount(view, eligible, b, order, x);
    OwnCopies(eligible, order, b, x);
  }

  lemma CategoryListsCount(category: string -> seq<FreeModel>, priority: seq<string>, x: FreeModel, c: nat)
    requires HoldsOwn(category, x, c)
    ensures var categories := NonEmpty(CategoryLists(category, priority), |priority|);
            CountIn(categories, |categories|, x) == Occurs(priority, |priority|, x.Billing()) * c
  {
    CountByTag(CategoryLists(category, priority), priority, |priority|, x, x.Billing(), c);
    NonEmptyCounts(CategoryLists(category, priority), |priority|, x);
  }

  // ----- the settings

  lemma ProviderOrderComplete(settings: Settings, p: string)
    requires NoDuplicates(settings.providerPriority) && NoDuplicates(settings.routingProviders)
    requires p in settings.routingProviders
    ensures Occurs(ProviderOrder(settings), |ProviderOrder(settings)|, p) == 1
  {
    var first := settings.providerPriority;
    var rest := Filter(settings.routingProviders, (q: string) => q !in first);
    var order := ProviderOrder(settings);
    FilterCounts(settings.routingProviders, (q: string) => q !in first, p);
    NoDuplicatesCount(first, p);
    NoDuplicatesCount(settings.routingProviders, p);
    assert multiset(order)[p] == multiset(first)[p] + multiset(rest)[p];
    OccursCounts(order, |order|, p);
    assert order[..|order|] == order;
  }

  lemma PriorityComplete(priority: seq<string>, b: string)
    requires |priority| == 3 && (forall c :: c in LABELS <==> c in priority) && b in LABELS
    ensures Occurs(priority, 3, b) == 1
  {
    assert "free" in priority && "subscription" in priority && "paid_api" in priority;
    assert "free" != "subscription" && "free" != "paid_api" && "subscription" != "paid_api" by {
      assert |"free"| == 4 && |"subscription"| == 12 && |"paid_api"| == 8;
    }
    OccursPositive(priority, 3, "free");
    OccursPositive(priority, 3, "subscription");
    OccursPositive(priority, 3, "paid_api");
    assert Occurs(priority, 3, "free") + Occurs(priority, 3, "subscription") + Occurs(priority, 3, "paid_api") <= 3 by {
      OccursDisjoint(priority, 3, "free", "subscription", "paid_api");
    }
  }

  lemma {:induction false} OccursDisjoint<T>(s: seq<T>, n: nat, a: T, b: T, c: T)
    requires n <= |s| && a != b && b != c && a != c
    ensures Occurs(s, n, a) + Occurs(s, n, b) + Occurs(s, n, c) <= n
  {
    if n > 0 {
      OccursDisjoint(s, n - 1, a, b, c);
    }
  }

  /** The categories together hold every eligible model of the catalog exactly once. */
  lemma CategoriesCount(settings: Settings, request: Request, view: Snapshot, x: FreeModel)
    requires Configured(settings, view)
    ensures var categories := Categories(settings, view, EligibleModels(settings, request, view));
            CountIn(categories, |categories|, x)
            == if x in view.catalog && Eligible(settings, request, view, x) then 1 else 0
  {
    var eligible := EligibleModels(settings, request, view);
    var order := ProviderOrder(settings);
    CategoriesHoldOwn(view, eligible, order, x, Copies(eligible, order, x));
    CategoryListsCount(CategoryOf(view, eligible, order), settings.priority, x, Copies(eligible, order, x));
    OneCopy(settings, request, view, x);
  }

  lemma OneCopy(settings: Settings, request: Request, view: Snapshot, x: FreeModel)
    requires Configured(settings, view)
    ensures Occurs(settings.priority, |settings.priority|, x.Billing())
            * Copies(EligibleModels(settings, request, view), ProviderOrder(settings), x)
            == if x in view.catalog && Eligible(settings, request, view, x) then 1 else 0
  {
    EligibleCounts(settings, request, view, x);
    if x in view.catalog {
      ProviderOrderComplete(settings, x.provider);
      PriorityComplete(settings.priority, x.Billing());
    }
  }

  lemma EligibleCounts(settings: Settings, request: Request, view: Snapshot, x: FreeModel)
    requires Configured(settings, view)
    ensures multiset(EligibleModels(settings, request, view))[x]
         == if x in view.catalog && Eligible(settings, request, view, x) then 1 else 0
  {
    FilterCounts(view.catalog, (m: FreeModel) => Eligible(settings, request, view, m), x);
    assert NoDuplicates(view.catalog);
    NoDuplicatesCount(view.catalog, x);
  }

  // ----- the manual choice

  lemma {:induction false} InSomeList<T>(lists: seq<seq<T>>, n: nat, x: T)
    requires n <= |lists|
    ensures CountIn(lists, n, x) > 0 <==> exists i :: 0 <= i < n && x in lists[i]
  {
    if n > 0 {
      InSomeList(lists, n - 1, x);
    }
  }

  lemma {:induction false} CountPointwise<T>(a: seq<seq<T>>, b: seq<seq<T>>, n: nat, x: T, keep: bool)
    requires n <= |a| && n <= |b|
    requires forall i :: 0 <= i < n ==> multiset(a[i])[x] == if keep then multiset(b[i])[x] else 0
    ensures CountIn(a, n, x) == if keep then CountIn(b, n, x) else 0
  {
    if n > 0 {
      CountPointwise(a, b, n - 1, x, keep);
    }
  }

  lemma RemainingCounts(categories: seq<seq<FreeModel>>, selected: seq<FreeModel>, x: FreeModel)
    ensures CountIn(Remaining(categories, selected), |categories|, x)
         == if x in selected then 0 else CountIn(categories, |categories|, x)
  {
    var remaining := Remaining(categories, selected);
    forall i | 0 <= i < |categories|
      ensures multiset(remaining[i])[x] == if x !in selected then multiset(categories[i])[x] else 0
    {
      FilterCounts(categories[i], (m: FreeModel) => m !in selected, x);
    }
    CountPointwise(remaining, categories, |categories|, x, x !in selected);
  }

  lemma MatchingChoice(settings: Settings, categories: seq<seq<FreeModel>>)
    ensures var selected := Matching(settings, categories);
            && (forall x :: x in selected ==> MatchesSelection(settings, x) && CountIn(categories, |categories|, x) > 0)
            && (forall x :: MatchesSelection(settings, x) && CountIn(categories, |categories|, x) > 0 ==>
                   |selected| == 1)
            && |selected| <= 1
  {
    var matches := (m: FreeModel) => MatchesSelection(settings, m);
    var all := Filter(Flatten(categories), matches);
    forall x ensures multiset(all)[x] == if matches(x) then CountIn(categories, |categories|, x) else 0 {
      FilterCounts(Flatten(categories), matches, x);
      FlattenCounts(categories, x);
    }
    if all != [] {
      assert multiset(all)[all[0]] > 0;
    }
  }

  /** Moving the manual choice to the front loses and repeats nothing. */
  lemma ArrangedCounts(settings: Settings, categories: seq<seq<FreeModel>>, x: FreeModel)
    requires forall y :: CountIn(categories, |categories|, y) <= 1
    ensures CountIn(Arranged(settings, categories), |Arranged(settings, categories)|, x) ==
        CountIn(categories, |categories|, x)
  {
    if settings.selectedProvider.Some? {
      MatchingChoice(settings, categories);
      MovedToFrontCounts(categories, Matching(settings, categories), x);
    }
  }

  lemma MovedToFrontCounts(categories: seq<seq<FreeModel>>, selected: seq<FreeModel>, x: FreeModel)
    requires |selected| <= 1 && CountIn(categories, |categories|, x) <= 1
    requires x in selected ==> CountIn(categories, |categories|, x) > 0
    ensures var arranged :=
        (if selected == [] then [] else [selected]) + NonEmpty(Remaining(categories, selected), |categories|);
            CountIn(arranged, |arranged|, x) == CountIn(categories, |categories|, x)
  {
    var rest := NonEmpty(Remaining(categories, selected), |categories|);
    var count := CountIn(rest, |rest|, x);
    assert count == if x in selected then 0 else CountIn(categories, |categories|, x) by {
      RemainingCounts(categories, selected, x);
      NonEmptyCounts(Remaining(categories, selected), |categories|, x);
    }
    if selected == [] {
      assert [] + rest == rest;
    } else {
      CountFront(selected, rest, x);
      assert selected == [selected[0]];
      assert multiset(selected)[x] == if x in selected then 1 else 0;
    }
  }

  lemma {:induction false} CountFront<T>(first: seq<T>, rest: seq<seq<T>>, x: T)
    ensures CountIn([first] + rest, |rest| + 1, x) == multiset(first)[x] + CountIn(rest, |rest|, x)
    decreases |rest|
  {
    var all := [first] + rest;
    if rest == [] {
      assert CountIn(all, 0, x) == 0;
    } else {
      var front, last := rest[..|rest| - 1], rest[|rest| - 1];
      CountFront(first, front, x);
      CountSnoc([first] + front, last, x);
      CountSnoc(front, last, x);
      assert all == [first] + front + [last] && rest == front + [last];
    }
  }

  // ----- the slots

  lemma {:induction false} PickCounts<T>(s: seq<T>, idx: seq<nat>, x: T)
    requires Increasing(idx, |s|)
    ensures multiset(Pick(s, idx))[x] <= multiset(s)[x]
    decreases |idx|
  {
    if idx != [] {
      var front, k := idx[..|idx| - 1], idx[|idx| - 1];
      PickCounts(s[..k], front, x);
      PickFront(s, idx);
      assert s == s[..k] + ([s[k]] + s[k + 1..]);
    }
  }

  lemma PickFront<T>(s: seq<T>, idx: seq<nat>)
    requires Increasing(idx, |s|) && idx != []
    ensures var front, k := idx[..|idx| - 1], idx[|idx| - 1];
            Increasing(front, k) && Pick(s, idx) == Pick(s[..k], front) + [s[k]]
  {
  }

  type Choice = (seq<FreeModel>, int) -> seq<FreeModel>

  /** A choice only takes what it is offered. */
  ghost predicate Honest(choose: Choice) {
    forall c, b, x :: multiset(choose(c, b))[x] <= multiset(c)[x]
  }

  lemma ReserveIsHonest()
    ensures Honest(Reserve())
  {
    forall c, b, x ensures multiset(Reserve()(c, b))[x] <= multiset(c)[x] {
      ReservationCovers(c, b, PROVIDER_OF);
      PickCounts(c, Reserved(c, b, PROVIDER_OF), x);
    }
  }

  /** The slots of the last of the first `n` categories. */
  function Segment(choose: Choice, categories: seq<seq<FreeModel>>, n: nat): seq<FreeModel>
    requires 0 < n <= |categories|
  {
    choose(categories[n - 1], BudgetAfter(Slots(choose, categories, n - 1), |categories| - n))
  }

  ghost predicate AllNonEmpty(categories: seq<seq<FreeModel>>) {
    |categories| <= SLOTS && forall i :: 0 <= i < |categories| ==> categories[i] != []
  }

  lemma SegmentFacts(choose: Choice, categories: seq<seq<FreeModel>>, n: nat)
    requires Choosing(choose) && Honest(choose) && AllNonEmpty(categories) && 0 < n <= |categories|
    ensures var segment := Segment(choose, categories, n);
            && Slots(choose, categories, n) == Slots(choose, categories, n - 1) + segment
            && segment != []
            && forall x :: x in segment ==> x in categories[n - 1]
  {
    SlotsWithinLimit(choose, categories, n - 1);
    var budget := BudgetAfter(Slots(choose, categories, n - 1), |categories| - n);
    ChosenLength(choose, categories[n - 1], budget);
    ChosenMembers(choose, categories[n - 1], budget);
  }

  lemma ChosenMembers(choose: Choice, category: seq<FreeModel>, budget: int)
    requires Honest(choose)
    ensures forall x :: x in choose(category, budget) ==> x in category
  {
    var chosen := choose(category, budget);
    forall x | x in chosen ensures x in category {
      assert multiset(chosen)[x] > 0;
    }
  }

  lemma {:induction false} SlotsCount(choose: Choice, categories: seq<seq<FreeModel>>, n: nat, x: FreeModel)
    requires Honest(choose) && n <= |categories|
    ensures multiset(Slots(choose, categories, n))[x] <= CountIn(categories, n, x)
  {
    if n > 0 {
      SlotsCount(choose, categories, n - 1, x);
    }
  }

  /** Every category is represented among the slots. */
  lemma {:induction false} SlotsReach(
      choose: Choice, categories: seq<seq<FreeModel>>, i: nat, n: nat) returns (x: FreeModel)
    requires Choosing(choose) && Honest(choose) && AllNonEmpty(categories) && i < n <= |categories|
    ensures x in Slots(choose, categories, n) && x in categories[i]
  {
    SegmentFacts(choose, categories, n);
    if i == n - 1 {
      x := Segment(choose, categories, n)[0];
      assert x in Segment(choose, categories, n);
    } else {
      x := SlotsReach(choose, categories, i, n - 1);
    }
  }

  lemma {:induction false} SlotsPrefix(choose: Choice, categories: seq<seq<FreeModel>>, k: nat, n: nat)
    requires k <= n <= |categories|
    ensures Slots(choose, categories, k) <= Slots(choose, categories, n)
    decreases n
  {
    if k < n {
      SlotsPrefix(choose, categories, k, n - 1);
    }
  }

  lemma {:induction false} PickProviders<T>(s: seq<T>, idx: seq<nat>, provider: T -> string, n: nat)
    requires n <= |idx| && forall i :: 0 <= i < |idx| ==> idx[i] < |s|
    ensures Providers(Pick(s, idx), provider, n) == Chosen(s, idx, provider, n)
  {
    if n > 0 {
      PickProviders(s, idx, provider, n - 1);
    }
  }

  function ProviderCount(models: seq<FreeModel>): nat { |Providers(models, PROVIDER_OF, |models|)| }

  /** What a choice takes comes from as many providers as that number of candidates can. */
  ghost predicate Covering(choose: Choice) {
    forall c, b :: ProviderCount(choose(c, b)) == Min(|choose(c, b)|, ProviderCount(c))
  }

  lemma ReserveCovers()
    ensures Covering(Reserve())
  {
    forall c, b ensures ProviderCount(Reserve()(c, b)) == Min(|Reserve()(c, b)|, ProviderCount(c)) {
      var idx := Reserved(c, b, PROVIDER_OF);
      ReservationCovers(c, b, PROVIDER_OF);
      PickProviders(c, idx, PROVIDER_OF, |idx|);
      ChosenGrow(c, idx, PROVIDER_OF, 0, |idx|);
    }
  }

  /** What the `i`-th of several lists contributes to the slots: candidates for every slot but the
      ones already given out and one for each list still to come, from as many different
      providers as that number of candidates can come from. */
  ghost predicate Contributes(choose: Choice, lists: seq<seq<FreeModel>>, i: nat, all: seq<FreeModel>) {
    && i < |lists|
    && var before, mine := Slots(choose, lists, i), Segment(choose, lists, i + 1);
       && before + mine <= all
       && |mine| == Min(12 - |before| - (|lists| - i - 1), |lists[i]|) > 0
       && ProviderCount(mine) == Min(|mine|, ProviderCount(lists[i]))
  }

  lemma SegmentCovers(choose: Choice, lists: seq<seq<FreeModel>>, i: nat)
    requires Choosing(choose) && Covering(choose) && AllNonEmpty(lists) && i < |lists|
    ensures Contributes(choose, lists, i, Slots(choose, lists, |lists|))
  {
    SlotsWithinLimit(choose, lists, i);
    SlotsPrefix(choose, lists, i + 1, |lists|);
    ChosenLength(choose, lists[i], BudgetAfter(Slots(choose, lists, i), |lists| - i - 1));
  }

  /** Every list of a selection, the manual choice and then the categories in the user's order,
      contributes as many candidates and providers as its slots allow. */
  lemma EveryListContributes(settings: Settings, request: Request, view: Snapshot, i: nat)
    requires Configured(settings, view)
    ensures var lists := Arranged(settings, Categories(settings, view, EligibleModels(settings, request, view)));
            i < |lists| ==> Contributes(Reserve(), lists, i, Ordered(settings, request, view))
  {
    var categories := Categories(settings, view, EligibleModels(settings, request, view));
    ArrangedAtMost(settings, categories);
    ReserveChooses();
    ReserveCovers();
    if i < |Arranged(settings, categories)| {
      SegmentCovers(Reserve(), Arranged(settings, categories), i);
    }
  }

  // ----- the order of the selection

  /** The first position from `i` on that holds `x`, |s| when there is none. */
  function IndexOf(s: seq<string>, i: nat, x: string): nat
    requires i <= |s|
    decreases |s| - i
  {
    if i == |s| || s[i] == x then i else IndexOf(s, i + 1, x)
  }

  /** Rank of a model in the whole selection: its category's place in the user's order, then what
      counts within a category. */
  function Level(settings: Settings, tier: FreeModel -> Key): FreeModel -> Key {
    (m: FreeModel) => [IndexOf(settings.priority, 0, m.Billing())] + tier(m)
  }

  /** Every list is sorted and nothing in a later list ranks below anything in an earlier one,
      from list `first` on. */
  ghost predicate Chained(lists: seq<seq<FreeModel>>, first: nat, level: FreeModel -> Key) {
    && (forall i :: first <= i < |lists| ==> Sorted(lists[i], level))
    && (forall i, j :: first <= i < j < |lists| ==> Below(lists[i], lists[j], level))
  }

  ghost predicate Below(a: seq<FreeModel>, b: seq<FreeModel>, level: FreeModel -> Key) {
    forall x, y :: x in a && y in b ==> LexLeq(level(x), level(y))
  }

  lemma {:induction false} FilterKeeps<T>(s: seq<T>, keep: T -> bool, key: T -> Key)
    requires Sorted(s, key)
    ensures Sorted(Filter(s, keep), key) && forall x :: x in Filter(s, keep) ==> x in s
  {
    if s != [] {
      FilterKeeps(s[1..], keep, key);
      assert s == [s[0]] + s[1..];
      var rest := Filter(s[1..], keep);
      forall i | 0 <= i < |rest| ensures LexLeq(key(s[0]), key(rest[i])) {
        assert rest[i] in s[1..];
        var k :| 0 <= k < |s[1..]| && s[1..][k] == rest[i];
        assert s[k + 1] == rest[i];
      }
    }
  }

  lemma {:induction false} NonEmptyChained(lists: seq<seq<FreeModel>>, n: nat, level: FreeModel -> Key)
    requires n <= |lists| && Chained(lists[..n], 0, level)
    ensures Chained(NonEmpty(lists, n), 0, level)
    ensures forall i :: 0 <= i < |NonEmpty(lists, n)| ==> exists k :: 0 <= k < n && NonEmpty(lists, n)[i] == lists[k]
  {
    if n > 0 {
      forall i | 0 <= i < n - 1 ensures lists[..n - 1][i] == lists[..n][i] {}
      NonEmptyChained(lists, n - 1, level);
      var before := NonEmpty(lists, n - 1);
      forall i | 0 <= i < |before| ensures Below(before[i], lists[n - 1], level) {
        var k :| 0 <= k < n - 1 && before[i] == lists[k];
        assert lists[..n][k] == lists[k] && lists[..n][n - 1] == lists[n - 1];
      }
      assert lists[..n][n - 1] == lists[n - 1];
    }
  }

  lemma RemainingChained(lists: seq<seq<FreeModel>>, selected: seq<FreeModel>, level: FreeModel -> Key)
    requires Chained(lists, 0, level)
    ensures Chained(Remaining(lists, selected), 0, level)
  {
    var others := (m: FreeModel) => m !in selected;
    var remaining := Remaining(lists, selected);
    forall i | 0 <= i < |lists| ensures Sorted(remaining[i], level) && forall x :: x in remaining[i] ==> x in lists[i] {
      FilterKeeps(lists[i], others, level);
      assert remaining[i] == Filter(lists[i], others);
    }
  }

  /** `tail` is sorted and comes from the lists `first` to `n - 1`. */
  ghost predicate InOrderFrom(
    lists: seq<seq<FreeModel>>, first: nat, n: nat, level: FreeModel -> Key, tail: seq<FreeModel>)
  {
    && n <= |lists| && Sorted(tail, level)
    && forall x :: x in tail ==> exists i :: first <= i < n && x in lists[i]
  }

  type TailProperty = (nat, seq<FreeModel>) -> bool

  ghost function OrderedFrom(lists: seq<seq<FreeModel>>, first: nat, level: FreeModel -> Key): TailProperty {
    (n: nat, tail: seq<FreeModel>) => InOrderFrom(lists, first, n, level, tail)
  }

  /** `ok` goes on holding when the slots of list `m` are added. */
  ghost predicate Extends(choose: Choice, lists: seq<seq<FreeModel>>, ok: TailProperty, m: nat) {
    m < |lists| &&
    forall tail :: ok(m, tail) ==> ok(m + 1, tail + Segment(choose, lists, m + 1))
  }

  /** The slots after the first `first` lists, piece by piece. */
  lemma {:induction false} SlotsBuilt(
      choose: Choice, lists: seq<seq<FreeModel>>, first: nat, n: nat, ok: TailProperty) returns (tail: seq<FreeModel>)
    requires first <= n <= |lists| && ok(first, [])
    requires forall m: nat :: first <= m < n ==> Extends(choose, lists, ok, m)
    ensures Slots(choose, lists, n) == Slots(choose, lists, first) + tail && ok(n, tail)
    decreases n
  {
    if first == n {
      tail := [];
    } else {
      var before := SlotsBuilt(choose, lists, first, n - 1, ok);
      assert Extends(choose, lists, ok, n - 1);
      tail := before + Segment(choose, lists, n);
      Associative(Slots(choose, lists, first), before, Segment(choose, lists, n));
    }
  }

  /** They come in order of rank. */
  lemma SlotsChained(choose: Choice, lists: seq<seq<FreeModel>>, first: nat, level: FreeModel -> Key)
      returns (tail: seq<FreeModel>)
    requires Choosing(choose) && Honest(choose) && KeepsOrder(choose, level) && AllNonEmpty(lists)
    requires first <= |lists| && Chained(lists, first, level)
    ensures Slots(choose, lists, |lists|) == Slots(choose, lists, first) + tail
    ensures InOrderFrom(lists, first, |lists|, level, tail)
  {
    var ok := OrderedFrom(lists, first, level);
    forall m: nat | first <= m < |lists| ensures Extends(choose, lists, ok, m) {
      SegmentExtends(choose, lists, first, m, level);
    }
    tail := SlotsBuilt(choose, lists, first, |lists|, ok);
  }

  lemma SegmentExtends(choose: Choice, lists: seq<seq<FreeModel>>, first: nat, m: nat, level: FreeModel -> Key)
    requires Choosing(choose) && Honest(choose) && KeepsOrder(choose, level) && AllNonEmpty(lists)
    requires first <= m < |lists| && Chained(lists, first, level)
    ensures Extends(choose, lists, OrderedFrom(lists, first, level), m)
  {
    var segment := Segment(choose, lists, m + 1);
    SegmentFacts(choose, lists, m + 1);
    SegmentSorted(choose, lists, m + 1, level, first);
    forall tail | InOrderFrom(lists, first, m, level, tail)
      ensures InOrderFrom(lists, first, m + 1, level, tail + segment)
    {
      TailGrows(lists, first, m + 1, tail, segment, level);
    }
  }

  lemma TailGrows(
      lists: seq<seq<FreeModel>>, first: nat, n: nat, before: seq<FreeModel>, segment: seq<FreeModel>,
      level: FreeModel -> Key)
    requires first < n <= |lists| && Chained(lists, first, level)
    requires InOrderFrom(lists, first, n - 1, level, before)
    requires Sorted(segment, level) && forall x :: x in segment ==> x in lists[n - 1]
    ensures InOrderFrom(lists, first, n, level, before + segment)
  {
    forall x, y | x in before && y in segment ensures LexLeq(level(x), level(y)) {
      var i :| first <= i < n - 1 && x in lists[i];
      assert Below(lists[i], lists[n - 1], level);
    }
    SortedJoin(before, segment, level);
  }

  lemma SegmentSorted(choose: Choice, lists: seq<seq<FreeModel>>, n: nat, level: FreeModel -> Key, first: nat)
    requires KeepsOrder(choose, level) && first < n <= |lists| && Chained(lists, first, level)
    ensures Sorted(Segment(choose, lists, n), level)
  {
    assert Sorted(lists[n - 1], level);
  }

  lemma SortedJoin(a: seq<FreeModel>, b: seq<FreeModel>, level: FreeModel -> Key)
    requires Sorted(a, level) && Sorted(b, level) && Below(a, b, level)
    ensures Sorted(a + b, level)
  {
  }

  ghost predicate KeepsOrder(choose: Choice, level: FreeModel -> Key) {
    forall c, b :: Sorted(c, level) ==> Sorted(choose(c, b), level)
  }

  lemma ReserveKeepsOrder(level: FreeModel -> Key)
    ensures KeepsOrder(Reserve(), level)
  {
    forall c, b | Sorted(c, level) ensures Sorted(Reserve()(c, b), level) {
      ReservationCovers(c, b, PROVIDER_OF);
      var idx := Reserved(c, b, PROVIDER_OF);
      assert forall i, j :: 0 <= i < j < |idx| ==> idx[i] < idx[j];
    }
  }

  /** A category's list holds only that category's models, in order of rank. */
  ghost predicate OwnAndSorted(category: string -> seq<FreeModel>, tier: FreeModel -> Key) {
    forall b :: Sorted(category(b), tier) && forall x :: x in category(b) ==> x.Billing() == b
  }

  lemma CategoriesOwnAndSorted(view: Snapshot, eligible: seq<FreeModel>, order: seq<string>)
    ensures OwnAndSorted(CategoryOf(view, eligible, order), TierOf(view))
  {
    var category := CategoryOf(view, eligible, order);
    forall b ensures Sorted(category(b), TierOf(view)) && forall x :: x in category(b) ==> x.Billing() == b {
      CategorySorted(view, eligible, order, b);
      forall x | x in category(b) ensures x.Billing() == b {
        assert multiset(category(b))[x] > 0;
        CategoryOfCount(view, eligible, order, b, x, Copies(eligible, order, x));
      }
    }
  }

  lemma CategorySorted(view: Snapshot, eligible: seq<FreeModel>, order: seq<string>, b: string)
    ensures Sorted(CategoryOf(view, eligible, order)(b), TierOf(view))
  {
    SortSorts(Interleave(NonEmpty(ProviderLists(view, eligible, b, order), |order|)), TierOf(view));
  }

  lemma {:induction false} IndexOfDistinct(s: seq<string>, i: nat, k: nat)
    requires i <= k < |s| && forall j :: i <= j < k ==> s[j] != s[k]
    ensures IndexOf(s, i, s[k]) == k
    decreases k - i
  {
    if i < k {
      IndexOfDistinct(s, i + 1, k);
    }
  }

  lemma PriorityDistinct(priority: seq<string>)
    requires |priority| == 3 && (forall c :: c in LABELS <==> c in priority)
    ensures forall i, j :: 0 <= i < j < 3 ==> priority[i] != priority[j]
  {
    forall i: nat, j: nat | i < j < 3 ensures priority[i] != priority[j] {
      assert priority[i] in LABELS;
      PriorityComplete(priority, priority[i]);
      if priority[i] == priority[j] {
        TwiceOccurs(priority, 3, i, j);
      }
    }
  }

  lemma CategoryListsChained(category: string -> seq<FreeModel>, settings: Settings, tier: FreeModel -> Key)
    requires OwnAndSorted(category, tier)
    requires |settings.priority| == 3 && (forall c :: c in LABELS <==> c in settings.priority)
    ensures Chained(CategoryLists(category, settings.priority), 0, Level(settings, tier))
  {
    var lists, level := CategoryLists(category, settings.priority), Level(settings, tier);
    PriorityDistinct(settings.priority);
    forall i: nat, x | i < 3 && x in lists[i] ensures level(x) == [i as int] + tier(x) {
      assert lists[i] == category(settings.priority[i]);
      IndexOfDistinct(settings.priority, 0, i);
    }
    forall i | 0 <= i < 3 ensures Sorted(lists[i], level) {
      assert lists[i] == category(settings.priority[i]);
      forall p, q | 0 <= p < q < |lists[i]| ensures LexLeq(level(lists[i][p]), level(lists[i][q])) {
        SameHead(i, tier(lists[i][p]), tier(lists[i][q]));
      }
    }
    forall i, j | 0 <= i < j < 3 ensures Below(lists[i], lists[j], level) {
    }
  }

  lemma SameHead(i: int, a: Key, b: Key)
    ensures LexLeq([i] + a, [i] + b) <==> LexLeq(a, b)
  {
    assert ([i] + a)[1..] == a && ([i] + b)[1..] == b;
  }

  // ----- what every selection guarantees

  lemma ArrangedCategories(settings: Settings, request: Request, view: Snapshot) returns (lists: seq<seq<FreeModel>>)
    requires Configured(settings, view)
    ensures lists == Arranged(settings, Categories(settings, view, EligibleModels(settings, request, view)))
    ensures AllNonEmpty(lists) && Ordered(settings, request, view) == Slots(Reserve(), lists, |lists|)
    ensures forall x :: CountIn(lists, |lists|, x)
                     == if x in view.catalog && Eligible(settings, request, view, x) then 1 else 0
  {
    var categories := Categories(settings, view, EligibleModels(settings, request, view));
    lists := Arranged(settings, categories);
    ArrangedAtMost(settings, categories);
    forall x ensures CountIn(categories, |categories|, x)
                  == if x in view.catalog && Eligible(settings, request, view, x) then 1 else 0
    {
      CategoriesCount(settings, request, view, x);
    }
    forall x ensures CountIn(lists, |lists|, x) == CountIn(categories, |categories|, x) {
      ArrangedCounts(settings, categories, x);
    }
  }

  /** A selection holds at most 12 models, all of them eligible models of the catalog, none
      twice. */
  lemma SelectionIsEligible(settings: Settings, request: Request, view: Snapshot)
    requires Configured(settings, view)
    ensures var r := Ordered(settings, request, view);
            && |r| <= 12 && NoDuplicates(r)
            && forall x :: x in r ==> x in view.catalog && Eligible(settings, request, view, x)
  {
    var lists := ArrangedCategories(settings, request, view);
    var r := Ordered(settings, request, view);
    SlotsFit(settings, request, view);
    ReserveIsHonest();
    forall x ensures multiset(r)[x] <= if x in view.catalog && Eligible(settings, request, view, x) then 1 else 0 {
      SlotsCount(Reserve(), lists, |lists|, x);
    }
    CountsGiveNoDuplicates(r);
    forall x | x in r ensures x in view.catalog && Eligible(settings, request, view, x) {
      assert multiset(r)[x] > 0;
    }
  }

  lemma ListsHaveOneCategory(
      settings: Settings, category: string -> seq<FreeModel>, tier: FreeModel -> Key, i: nat, x: FreeModel,
      y: FreeModel)
    requires OwnAndSorted(category, tier)
    ensures var lists := Arranged(settings, NonEmpty(CategoryLists(category, settings.priority), |settings.priority|));
            i < |lists| && x in lists[i] && y in lists[i] ==> x.Billing() == y.Billing()
  {
    var all := CategoryLists(category, settings.priority);
    var categories := NonEmpty(all, |all|);
    OneCategoryKept(all, |all|);
    if settings.selectedProvider.Some? {
      var selected := Matching(settings, categories);
      RemainingOneCategory(categories, selected);
      OneCategoryKept(Remaining(categories, selected), |categories|);
    }
  }

  predicate OneCategory(s: seq<FreeModel>) { forall x, y :: x in s && y in s ==> x.Billing() == y.Billing() }

  lemma {:induction false} OneCategoryKept(lists: seq<seq<FreeModel>>, n: nat)
    requires n <= |lists| && forall i :: 0 <= i < n ==> OneCategory(lists[i])
    ensures forall i :: 0 <= i < |NonEmpty(lists, n)| ==> OneCategory(NonEmpty(lists, n)[i])
  {
    if n > 0 {
      OneCategoryKept(lists, n - 1);
    }
  }

  lemma RemainingOneCategory(lists: seq<seq<FreeModel>>, selected: seq<FreeModel>)
    requires forall i :: 0 <= i < |lists| ==> OneCategory(lists[i])
    ensures forall i :: 0 <= i < |lists| ==> OneCategory(Remaining(lists, selected)[i])
  {
    var others := (m: FreeModel) => m !in selected;
    forall i | 0 <= i < |lists| ensures OneCategory(Remaining(lists, selected)[i]) {
      FilterMembers(lists[i], others);
    }
  }

  lemma FilterMembers<T>(s: seq<T>, keep: T -> bool)
    ensures forall x :: x in Filter(s, keep) ==> x in s
  {
    forall x | x in Filter(s, keep) ensures x in s {
      assert multiset(Filter(s, keep))[x] > 0;
      FilterCounts(s, keep, x);
      assert multiset(s)[x] > 0;
    }
  }

  /** No billing category is starved: whenever some model of it is eligible, one of its models
      is selected.  Hence the selection is empty exactly when nothing is eligible. */
  lemma NoCategoryStarves(settings: Settings, request: Request, view: Snapshot)
    requires Configured(settings, view)
    ensures var r := Ordered(settings, request, view);
            && (forall m :: m in view.catalog && Eligible(settings, request, view, m)
                  ==> exists x :: x in r && x.Billing() == m.Billing())
            && (r == [] <==> forall m :: m in view.catalog ==> !Eligible(settings, request, view, m))
  {
    var r := Ordered(settings, request, view);
    forall m | m in view.catalog && Eligible(settings, request, view, m)
      ensures exists x :: x in r && x.Billing() == m.Billing()
    {
      var x := CategorySlot(settings, request, view, m);
    }
    SelectionIsEligible(settings, request, view);
    if r != [] {
      assert r[0] in r;
    }
  }

  lemma CategorySlot(settings: Settings, request: Request, view: Snapshot, m: FreeModel) returns (x: FreeModel)
    requires Configured(settings, view) && m in view.catalog && Eligible(settings, request, view, m)
    ensures x in Ordered(settings, request, view) && x.Billing() == m.Billing()
  {
    var lists := ArrangedCategories(settings, request, view);
    InSomeList(lists, |lists|, m);
    var i: nat :| i < |lists| && m in lists[i];
    ReserveChooses();
    ReserveIsHonest();
    x := SlotsReach(Reserve(), lists, i, |lists|);
    var eligible, order := EligibleModels(settings, request, view), ProviderOrder(settings);
    CategoriesOwnAndSorted(view, eligible, order);
    ListsHaveOneCategory(settings, CategoryOf(view, eligible, order), TierOf(view), i, x, m);
  }

  lemma FirstSlot(lists: seq<seq<FreeModel>>)
    requires AllNonEmpty(lists) && lists != []
    ensures var r := Slots(Reserve(), lists, |lists|);
            r != [] && r[0] in lists[0]
  {
    ReserveChooses();
    ReserveIsHonest();
    SegmentFacts(Reserve(), lists, 1);
    SlotsPrefix(Reserve(), lists, 1, |lists|);
    var first := Slots(Reserve(), lists, 1);
    assert first[0] in Segment(Reserve(), lists, 1);
  }

  /** An eligible manual choice comes first. */
  lemma ManualChoiceFirst(settings: Settings, request: Request, view: Snapshot, m: FreeModel)
    requires Configured(settings, view)
    requires m in view.catalog && Eligible(settings, request, view, m) && MatchesSelection(settings, m)
    ensures var r := Ordered(settings, request, view);
            r != [] && MatchesSelection(settings, r[0])
  {
    var categories := Categories(settings, view, EligibleModels(settings, request, view));
    var lists := ArrangedCategories(settings, request, view);
    CategoriesCount(settings, request, view, m);
    MatchingChoice(settings, categories);
    var selected := Matching(settings, categories);
    assert lists[0] == selected;
    FirstSlot(lists);
  }

  lemma CategoriesChained(settings: Settings, request: Request, view: Snapshot, tier: FreeModel -> Key)
    requires Configured(settings, view)
    requires OwnAndSorted(CategoryOf(view, EligibleModels(settings, request, view), ProviderOrder(settings)), tier)
    ensures Chained(Categories(settings, view, EligibleModels(settings, request, view)), 0, Level(settings, tier))
  {
    var eligible := EligibleModels(settings, request, view);
    ChainedCategories(CategoryOf(view, eligible, ProviderOrder(settings)), settings, tier);
  }

  lemma ChainedCategories(category: string -> seq<FreeModel>, settings: Settings, tier: FreeModel -> Key)
    requires OwnAndSorted(category, tier)
    requires |settings.priority| == 3 && (forall c :: c in LABELS <==> c in settings.priority)
    ensures Chained(NonEmpty(CategoryLists(category, settings.priority), 3), 0, Level(settings, tier))
  {
    var all := CategoryLists(category, settings.priority);
    CategoryListsChained(category, settings, tier);
    assert all[..3] == all;
    NonEmptyChained(all, 3, Level(settings, tier));
  }

  lemma ArrangedChained(settings: Settings, categories: seq<seq<FreeModel>>, level: FreeModel -> Key)
    requires Chained(categories, 0, level)
    ensures var manual := settings.selectedProvider.Some? && Matching(settings, categories) != [];
            Chained(Arranged(settings, categories), if manual then 1 else 0, level)
  {
    if settings.selectedProvider.Some? {
      var selected := Matching(settings, categories);
      var remaining := Remaining(categories, selected);
      RemainingChained(categories, selected, level);
      assert remaining[..|categories|] == remaining;
      NonEmptyChained(remaining, |categories|, level);
      assert [] + NonEmpty(remaining, |categories|) == NonEmpty(remaining, |categories|);
    }
  }

  lemma OrderOfSlots(choose: Choice, lists: seq<seq<FreeModel>>, manual: bool, level: FreeModel -> Key)
    requires Choosing(choose) && Honest(choose) && KeepsOrder(choose, level) && AllNonEmpty(lists)
    requires Chained(lists, if manual then 1 else 0, level) && (manual ==> |lists| > 0 && |lists[0]| == 1)
    ensures var r := Slots(choose, lists, |lists|);
            (manual ==> r != []) && Sorted(if manual then r[1..] else r, level)
  {
    var first := if manual then 1 else 0;
    var tail := SlotsChained(choose, lists, first, level);
    var head := Slots(choose, lists, first);
    if manual {
      ChosenLength(choose, lists[0], BudgetAfter([], |lists| - 1));
      assert |head| == 1;
    }
    assert (head + tail)[|head|..] == tail;
    assert (head + tail)[0..] == head + tail;
  }

  /** Apart from the manual choice, a selection is ordered by category, and within a category by
      whatever the category's list is ordered by. */
  lemma SelectionIsRanked(settings: Settings, request: Request, view: Snapshot, tier: FreeModel -> Key)
    requires Configured(settings, view)
    requires OwnAndSorted(CategoryOf(view, EligibleModels(settings, request, view), ProviderOrder(settings)), tier)
    ensures var r := Ordered(settings, request, view);
            var manual := ManualEligible(settings, request, view);
            (manual ==> r != []) && Sorted(if manual then r[1..] else r, Level(settings, tier))
  {
    var categories := Categories(settings, view, EligibleModels(settings, request, view));
    var lists := ArrangedCategories(settings, request, view);
    ReserveChooses();
    ReserveIsHonest();
    ReserveKeepsOrder(Level(settings, tier));
    CategoriesChained(settings, request, view, tier);
    ArrangedChained(settings, categories, Level(settings, tier));
    ManualMatches(settings, request, view);
    OrderOfSlots(Reserve(), lists, ManualEligible(settings, request, view), Level(settings, tier));
  }

  /** That is: by category, then health, then context tier, then family preference. */
  lemma SelectionIsOrdered(settings: Settings, request: Request, view: Snapshot)
    requires Configured(settings, view)
    ensures var r := Ordered(settings, request, view);
            var manual := ManualEligible(settings, request, view);
            (manual ==> r != []) && Sorted(if manual then r[1..] else r, Level(settings, TierOf(view)))
  {
    CategoriesOwnAndSorted(view, EligibleModels(settings, request, view), ProviderOrder(settings));
    SelectionIsRanked(settings, request, view, TierOf(view));
  }

  predicate ManualEligible(settings: Settings, request: Request, view: Snapshot) {
    exists i :: 0 <= i < |view.catalog|
      && Eligible(settings, request, view, view.catalog[i]) && MatchesSelection(settings, view.catalog[i])
  }

  lemma ManualMatches(settings: Settings, request: Request, view: Snapshot)
    requires Configured(settings, view)
    ensures var categories := Categories(settings, view, EligibleModels(settings, request, view));
            var selected := Matching(settings, categories);
            && |selected| <= 1
            && (ManualEligible(settings, request, view) <==> settings.selectedProvider.Some? && selected != [])
  {
    var categories := Categories(settings, view, EligibleModels(settings, request, view));
    var selected := Matching(settings, categories);
    MatchingChoice(settings, categories);
    forall m ensures CountIn(categories, |categories|, m) > 0 <==>
        m in view.catalog && Eligible(settings, request, view, m)
    {
      CategoriesCount(settings, request, view, m);
    }
    if selected != [] {
      assert selected[0] in selected;
    }
    if ManualEligible(settings, request, view) {
      var i :| 0 <= i < |view.catalog|
        && Eligible(settings, request, view, view.catalog[i]) && MatchesSelection(settings, view.catalog[i]);
      assert CountIn(categories, |categories|, view.catalog[i]) > 0;
    }
  }

  /** A selection succeeds exactly when some model is eligible; in particular the context-size
      refusal never hides an eligible model. */
  lemma SucceedsExactly(settings: Settings, request: Request, view: Snapshot)
    requires Configured(settings, view)
    ensures !TooLarge(settings, request, view) && Ordered(settings, request, view) != []
       <==> exists m :: m in view.catalog && Eligible(settings, request, view, m)
  {
    NoCategoryStarves(settings, request, view);
  }

  function Turns(view: Snapshot, eligible: seq<FreeModel>, billing: string, order: seq<string>): seq<FreeModel> {
    Interleave(NonEmpty(ProviderLists(view, eligible, billing, order), |order|))
  }

  /** Among models of equal rank a category keeps the order in which its providers take turns. */
  lemma TurnsKeptWithinTier(
      view: Snapshot, eligible: seq<FreeModel>, billing: string, order: seq<string>, tier: Key)
    ensures Filter(Category(view, eligible, billing, order), HasKey(TierOf(view), tier))
         == Filter(Turns(view, eligible, billing, order), HasKey(TierOf(view), tier))
  {
    SortIsStable(Turns(view, eligible, billing, order), TierOf(view), tier);
  }
}
