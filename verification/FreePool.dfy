/** Selection of the routes one request may use.  Catalog, health, cooldowns and failure budget
    are read once, as one snapshot; the model families' ranking and the "coder" name hint are
    functions of the model. */
module FreePool {
  import opened Common
  import opened FallbackOrder
  import opened Sorting
  import Cooldowns
  import RouteBudget

  type FreeModel = Cooldowns.FreeModel

  const MIN_CONTEXT_TOKENS := 256000
  const PREFERRED_CONTEXT_TOKENS := 512001
  const SLOTS := 12

  datatype Settings = Settings(
    disabled: set<string>,
    allowSubscription: bool,
    allowPaid: bool,
    priority: seq<string>,            // billing categories, first to last
    providerPriority: seq<string>,    // the user's order
    routingProviders: seq<string>,    // all known routing providers
    selectedProvider: Option<string>,
    selectedModel: Option<string>,
    selectedBilling: string)

  datatype Request = Request(context: nat, tools: bool, vision: bool, chat: bool)

  datatype Snapshot = Snapshot(
    catalog: seq<FreeModel>,
    table: Cooldowns.Table,
    scopeOf: string -> string,
    now: real,
    budget: Option<RouteBudget.FailureCounts>,
    lastSuccess: Option<string>,
    health: FreeModel -> nat,
    familyRank: FreeModel -> nat,
    coder: FreeModel -> bool)

  const LABELS := {"free", "subscription", "paid_api"}

  /** What validation of the settings and of the catalog guarantees. */
  ghost predicate Configured(settings: Settings, view: Snapshot) {
    && |settings.priority| == 3 && (forall b :: b in LABELS <==> b in settings.priority)
    && NoDuplicates(settings.providerPriority) && NoDuplicates(settings.routingProviders)
    && (forall m :: m in view.catalog ==> m.provider in settings.routingProviders)
    && (forall i, j :: 0 <= i < j < |view.catalog| ==> view.catalog[i].Ref() != view.catalog[j].Ref())
  }

  function CooldownOf(view: Snapshot, m: FreeModel): Option<Cooldowns.Entry> {
    Cooldowns.Cooldown(view.table, view.scopeOf(m.provider), m, view.now)
  }

  // ----- which models may be used

  predicate Compatible(settings: Settings, request: Request, m: FreeModel) {
    && m.provider !in settings.disabled
    && (m.Billing() != "subscription" || settings.allowSubscription)
    && (m.Billing() != "paid_api" || settings.allowPaid)
    && (!request.chat || m.Billing() != "subscription")
    && (!request.tools || m.tools)
    && (!request.vision || m.vision)
    && m.context.Some? && m.context.value >= MIN_CONTEXT_TOKENS
  }

  predicate Eligible(settings: Settings, request: Request, view: Snapshot, m: FreeModel) {
    && Compatible(settings, request, m)
    && m.context.value >= request.context
    && CooldownOf(view, m).None?
    && (view.budget.None? || RouteBudget.Allowed(view.budget.value, m.provider))
  }

  function EligibleModels(settings: Settings, request: Request, view: Snapshot): seq<FreeModel> {
    Filter(view.catalog, (m: FreeModel) => Eligible(settings, request, view, m))
  }

  predicate MatchesSelection(settings: Settings, m: FreeModel) {
    && settings.selectedProvider == Some(m.provider)
    && m.Billing() == settings.selectedBilling
    && (settings.selectedModel.None? || settings.selectedModel.value == m.modelId)
  }

  // ----- the order inside a category

  function Context(m: FreeModel): nat { if m.context.Some? then m.context.value else 0 }

  /** Health, context tier and, for free models, the preferred family. */
  function Tier(view: Snapshot, m: FreeModel): Key {
    [view.health(m),
     if Context(m) < PREFERRED_CONTEXT_TOKENS then 1 else 0,
     if m.Billing() == "free" then view.familyRank(m) else 0]
  }

  /** The order among the models of one provider. */
  function ProviderKey(view: Snapshot, m: FreeModel): Key {
    Tier(view, m) + [
      if view.lastSuccess == Some(m.Ref()) then 0 else 1,
      if view.coder(m) then 0 else 1,
      0 - Context(m) as int] + Codes(m.modelId)
  }

  function ProviderOrder(settings: Settings): seq<string> {
    settings.providerPriority + Filter(settings.routingProviders, (p: string) => p !in settings.providerPriority)
  }

  function ProviderModels(view: Snapshot, eligible: seq<FreeModel>, billing: string, provider: string): seq<FreeModel> {
    Sort(Filter(eligible, (m: FreeModel) => m.provider == provider && m.Billing() == billing),
         (m: FreeModel) => ProviderKey(view, m))
  }

  /** One sorted list for every provider, in the user's order of providers. */
  function ProviderLists(
    view: Snapshot, eligible: seq<FreeModel>, billing: string, order: seq<string>): seq<seq<FreeModel>>
  {
    seq(|order|, i requires 0 <= i < |order| => ProviderModels(view, eligible, billing, order[i]))
  }

  function TierOf(view: Snapshot): FreeModel -> Key { (m: FreeModel) => Tier(view, m) }

  /** Providers take turns; the stable sort then puts better tiers first. */
  function Category(view: Snapshot, eligible: seq<FreeModel>, billing: string, order: seq<string>): seq<FreeModel> {
    Sort(Interleave(NonEmpty(ProviderLists(view, eligible, billing, order), |order|)), TierOf(view))
  }

  function CategoryOf(view: Snapshot, eligible: seq<FreeModel>, order: seq<string>): string -> seq<FreeModel> {
    (billing: string) => Category(view, eligible, billing, order)
  }

  /** The list of every category, in the user's order of categories. */
  function CategoryLists(category: string -> seq<FreeModel>, priority: seq<string>): seq<seq<FreeModel>> {
    seq(|priority|, i requires 0 <= i < |priority| => category(priority[i]))
  }

  function Categories(settings: Settings, view: Snapshot, eligible: seq<FreeModel>): seq<seq<FreeModel>> {
    NonEmpty(CategoryLists(CategoryOf(view, eligible, ProviderOrder(settings)), settings.priority), |settings.priority|)
  }

  // ----- the manual choice and the slots

  function Matching(settings: Settings, categories: seq<seq<FreeModel>>): seq<FreeModel> {
    var all := Filter(Flatten(categories), (m: FreeModel) => MatchesSelection(settings, m));
    if all == [] then [] else [all[0]]
  }

  function Remaining(categories: seq<seq<FreeModel>>, selected: seq<FreeModel>): seq<seq<FreeModel>> {
    seq(|categories|, i requires 0 <= i < |categories| => Filter(categories[i], (m: FreeModel) => m !in selected))
  }

  function Arranged(settings: Settings, categories: seq<seq<FreeModel>>): seq<seq<FreeModel>> {
    if settings.selectedProvider.None? then categories
    else
      var selected := Matching(settings, categories);
      (if selected == [] then [] else [selected]) + NonEmpty(Remaining(categories, selected), |categories|)
  }

  const PROVIDER_OF: FreeModel -> string := (m: FreeModel) => m.provider

  /** The candidates a category gets out of a budget of slots. */
  function Reserve(): (seq<FreeModel>, int) -> seq<FreeModel> {
    (category: seq<FreeModel>, budget: int) => Pick(category, Reserved(category, budget, PROVIDER_OF))
  }

  /** What is left for a category when one slot is kept for each of the `later` categories. */
  function BudgetAfter(before: seq<FreeModel>, later: nat): int { SLOTS - |before| - later }

  /** The slots given to the first `n` categories: one is kept for every category still to come. */
  function Slots(
    choose: (seq<FreeModel>, int) -> seq<FreeModel>, categories: seq<seq<FreeModel>>, n: nat): seq<FreeModel>
    requires n <= |categories|
  {
    if n == 0 then []
    else
      var before := Slots(choose, categories, n - 1);
      before + choose(categories[n - 1], BudgetAfter(before, |categories| - n))
  }

  function Ordered(settings: Settings, request: Request, view: Snapshot): seq<FreeModel> {
    var categories := Arranged(settings, Categories(settings, view, EligibleModels(settings, request, view)));
    Slots(Reserve(), categories, |categories|)
  }

  // ----- the result

  datatype Selection = Selected(models: seq<FreeModel>) | ContextExceeded | NoneAvailable(rateLimitedOnly: bool)

  predicate TooLarge(settings: Settings, request: Request, view: Snapshot) {
    && (exists i :: 0 <= i < |view.catalog| && Compatible(settings, request, view.catalog[i]))
    && forall i :: 0 <= i < |view.catalog| && Compatible(settings, request, view.catalog[i])
         ==> view.catalog[i].context.value < request.context
  }

  predicate RateLimitEntry(e: Cooldowns.Entry) { e.reason.RateLimited? || e.reason.DailyQuotaExhausted? }

  predicate RateLimitedOnly(settings: Settings, view: Snapshot) {
    && (exists i :: 0 <= i < |view.catalog| && view.catalog[i].provider !in settings.disabled
                    && CooldownOf(view, view.catalog[i]).Some?)
    && forall i :: 0 <= i < |view.catalog| && view.catalog[i].provider !in settings.disabled ==>
         CooldownOf(view, view.catalog[i]).Some? ==> RateLimitEntry(CooldownOf(view, view.catalog[i]).value)
  }

  method Select(settings: Settings, request: Request, view: Snapshot) returns (r: Selection)
    requires Configured(settings, view)
    ensures r == if TooLarge(settings, request, view) then ContextExceeded
                 else var ordered := Ordered(settings, request, view);
                   if ordered == [] then NoneAvailable(RateLimitedOnly(settings, view)) else Selected(ordered)
  {
    if TooLarge(settings, request, view) {
      return ContextExceeded;
    }
    var eligible := EligibleModels(settings, request, view);
    var order := ProviderOrder(settings);
    var categories := BuildCategories(view, eligible, settings.priority, order, CategoryOf(view, eligible, order));
    var ordered := FillSlots(Arranged(settings, categories));
    SlotsFit(settings, request, view);
    if ordered == [] {
      return NoneAvailable(RateLimitedOnly(settings, view));
    }
    assert ordered[..Min(SLOTS, |ordered|)] == ordered;
    return Selected(ordered[..Min(SLOTS, |ordered|)]);
  }

  /** `category` gives the list of every category. */
  ghost predicate IsCategory(
    category: string -> seq<FreeModel>, view: Snapshot, eligible: seq<FreeModel>, order: seq<string>)
  {
    forall b {:trigger Category(view, eligible, b, order)} :: category(b) == Category(view, eligible, b, order)
  }

  method BuildCategories(
      view: Snapshot, eligible: seq<FreeModel>, priority: seq<string>, order: seq<string>,
      ghost category: string -> seq<FreeModel>)
      returns (categories: seq<seq<FreeModel>>)
    requires IsCategory(category, view, eligible, order)
    ensures categories == NonEmpty(CategoryLists(category, priority), |priority|)
  {
    var lists: seq<seq<FreeModel>> := [];
    for b := 0 to |priority|
      invariant |lists| == b && forall i :: 0 <= i < b ==> lists[i] == category(priority[i])
    {
      var list := BuildNamed(view, eligible, priority[b], order, category);
      lists := lists + [list];
    }
    assert lists == CategoryLists(category, priority);
    categories := DropEmpty(lists);
  }

  /** One category, known to the loop only through `category`. */
  method BuildNamed(
      view: Snapshot, eligible: seq<FreeModel>, billing: string, order: seq<string>,
      ghost category: string -> seq<FreeModel>)
      returns (list: seq<FreeModel>)
    requires IsCategory(category, view, eligible, order)
    ensures list == category(billing)
  {
    list := BuildCategory(view, eligible, billing, order);
  }

  method FillSlots(categories: seq<seq<FreeModel>>) returns (ordered: seq<FreeModel>)
    ensures ordered == Slots(Reserve(), categories, |categories|)
  {
    ordered := [];
    ghost var choose := Reserve();
    for index := 0 to |categories|
      invariant ordered == Slots(choose, categories, index)
    {
      var budget := BudgetAfter(ordered, |categories| - index - 1);
      var chosen := ReserveProviderCandidates(categories[index], budget, PROVIDER_OF);
      assert chosen == choose(categories[index], budget);
      ordered := ordered + chosen;
    }
  }

  method BuildCategory(view: Snapshot, eligible: seq<FreeModel>, billing: string, order: seq<string>)
      returns (category: seq<FreeModel>)
    ensures category == Category(view, eligible, billing, order)
  {
    var lists: seq<seq<FreeModel>> := [];
    for p := 0 to |order|
      invariant |lists| == p && forall i :: 0 <= i < p ==> lists[i] == ProviderModels(view, eligible, billing, order[i])
    {
      lists := lists + [ProviderModels(view, eligible, billing, order[p])];
    }
    assert lists == ProviderLists(view, eligible, billing, order);
    var groups := DropEmpty(lists);
    category := Sort(Interleave(groups), TierOf(view));
  }

  // ----- nothing is cut off

  lemma ArrangedAtMost(settings: Settings, categories: seq<seq<FreeModel>>)
    requires forall i :: 0 <= i < |categories| ==> categories[i] != []
    ensures var c := Arranged(settings, categories);
            |c| <= |categories| + 1 && forall i :: 0 <= i < |c| ==> c[i] != []
  {
  }

  /** A choice takes as many candidates as fit, each at most as often as offered. */
  ghost predicate Choosing(choose: (seq<FreeModel>, int) -> seq<FreeModel>) {
    forall c, b :: |choose(c, b)| == Min(Max(b, 0), |c|)
  }

  lemma ReserveChooses()
    ensures Choosing(Reserve())
  {
    forall c, b ensures |Reserve()(c, b)| == Min(Max(b, 0), |c|) {
      ReservationCovers(c, b, PROVIDER_OF);
    }
  }

  lemma ChosenLength(choose: (seq<FreeModel>, int) -> seq<FreeModel>, category: seq<FreeModel>, budget: int)
    requires Choosing(choose)
    ensures |choose(category, budget)| == Min(Max(budget, 0), |category|)
  {
  }

  /** Every category gets a slot and no more slots are given out than there are. */
  lemma {:induction false} SlotsWithinLimit(
      choose: (seq<FreeModel>, int) -> seq<FreeModel>, categories: seq<seq<FreeModel>>, n: nat)
    requires Choosing(choose)
    requires n <= |categories| <= SLOTS && forall i :: 0 <= i < |categories| ==> categories[i] != []
    ensures n <= |Slots(choose, categories, n)| <= SLOTS - (|categories| - n)
  {
    if n > 0 {
      SlotsWithinLimit(choose, categories, n - 1);
      ChosenLength(choose, categories[n - 1], BudgetAfter(Slots(choose, categories, n - 1), |categories| - n));
    }
  }

  lemma SlotsFit(settings: Settings, request: Request, view: Snapshot)
    requires |settings.priority| == 3
    ensures |Ordered(settings, request, view)| <= SLOTS
  {
    var categories := Categories(settings, view, EligibleModels(settings, request, view));
    ArrangedAtMost(settings, categories);
    ReserveChooses();
    SlotsWithinLimit(Reserve(), Arranged(settings, categories), |Arranged(settings, categories)|);
  }
}
