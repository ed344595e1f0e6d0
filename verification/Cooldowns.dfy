/** The shared cooldown table: which key a failure is stored under, for how long, and which
    routes look that key up.  Times are seconds as reals; the clock is an argument. */
module Cooldowns {
  import opened Common
  import opened Failures

  datatype FreeModel = FreeModel(
    provider: string, modelId: string, context: Option<nat>, tools: bool, vision: bool, priceBasis: string)
  {
    function Ref(): string { provider + "/" + modelId }

    function Billing(): string {
      if priceBasis in {"subscription", "paid_api"} then priceBasis else "free"
    }
  }

  datatype Reason =
    | RateLimited | TemporaryFailure | ApiAccessNotInPlan | RequestBudgetExceeded | InFlight
    | KeySpendingLimit | BalanceExhausted | AuthenticationOrAccess | ModelOrRequestIncompatible
    | TemporaryModelFailure | DailyQuotaExhausted

  datatype Entry = Entry(until: real, reason: Reason, provider: string)

  type Table = map<string, Entry>

  const MAX_SECONDS := 172800.0

  /** `provider_id + ":" + credential_fingerprint(identity)`. */
  function Scope(provider: string, fingerprint: string): string { provider + ":" + fingerprint }

  // ----- reading the table

  function Live(table: Table, key: string, model: FreeModel, now: real): Option<Entry> {
    if key in table && table[key].until > now &&
        !(model.Billing() != "free" && table[key].reason == DailyQuotaExhausted)
    then Some(table[key]) else None
  }

  function LookupKeys(scope: string, model: FreeModel): seq<string> {
    var paid := scope + ":" + model.Billing();
    [scope, scope + ":" + model.modelId, paid, paid + ":" + model.modelId]
  }

  function FirstLive(table: Table, keys: seq<string>, k: nat, model: FreeModel, now: real): Option<Entry>
    requires k <= |keys|
    decreases |keys| - k
  {
    if k == |keys| then None
    else if Live(table, keys[k], model, now).Some? then Live(table, keys[k], model, now)
    else FirstLive(table, keys, k + 1, model, now)
  }

  function Cooldown(table: Table, scope: string, model: FreeModel, now: real): Option<Entry> {
    FirstLive(table, LookupKeys(scope, model), 0, model, now)
  }

  lemma {:induction false} FirstLiveFound(table: Table, keys: seq<string>, k: nat, model: FreeModel, now: real)
    requires k <= |keys|
    ensures FirstLive(table, keys, k, model, now).Some?
       <==> exists i :: k <= i < |keys| && Live(table, keys[i], model, now).Some?
    ensures var r := FirstLive(table, keys, k, model, now);
            r.Some? ==> exists i :: k <= i < |keys| && Live(table, keys[i], model, now) == r
    decreases |keys| - k
  {
    if k < |keys| {
      FirstLiveFound(table, keys, k + 1, model, now);
    }
  }

  /** A free-quota entry for the day never blocks a route that is not free. */
  lemma DailyQuotaNeverBlocksPaid(table: Table, scope: string, model: FreeModel, now: real)
    ensures var r := Cooldown(table, scope, model, now);
            r.Some? ==> r.value.until > now && (model.Billing() == "free" || r.value.reason != DailyQuotaExhausted)
  {
    FirstLiveFound(table, LookupKeys(scope, model), 0, model, now);
  }

  // ----- what a failure stores

  const DAILY_TEXT := "daily free-model request quota exhausted"

  function Longer(a: real, b: real): real { if a < b then b else a }

  function Shorter(a: real, b: real): real { if a < b then a else b }

  datatype Penalty = Penalty(perModel: bool, seconds: real, reason: Reason)

  predicate PerModelBudget(billing: string, failure: Failure) {
    failure.status == 402 && failure.billingLimit == Some(RequestBudget) && billing == "paid_api"
  }

  /** The branch taken on status, access block and billing limit. */
  function StatusPenalty(billing: string, failure: Failure): Penalty {
    var status := failure.status;
    if status == 403 && failure.accessBlocked then Penalty(false, 3600.0, ApiAccessNotInPlan)
    else if PerModelBudget(billing, failure) then Penalty(true, 60.0, RequestBudgetExceeded)
    else if status == 402 && failure.billingLimit == Some(InFlightBudget) then
      Penalty(false, match failure.retryAfter case Some(s) => if s != 0.0 then s else 45.0 case None => 45.0, InFlight)
    else if status == 402 && failure.billingLimit == Some(KeyLimit) then Penalty(false, 3600.0, KeySpendingLimit)
    else if status in {401, 402} then
      Penalty(false, 3600.0, if status == 402 then BalanceExhausted else AuthenticationOrAccess)
    else if status in {400, 403, 404, 413} then Penalty(true, 300.0, ModelOrRequestIncompatible)
    else if status >= 500 then Penalty(true, 45.0, TemporaryModelFailure)
    else Penalty(false, if status == 429 then 60.0 else 45.0, if status == 429 then RateLimited else TemporaryFailure)
  }

  /** The stored penalty: a daily-quota message overrides time and reason, a retry hint extends.
      `resetAt` is the reset time read from the message, when it states one. */
  function FailurePenalty(billing: string, failure: Failure, resetAt: Option<real>, now: real): Penalty {
    var base := StatusPenalty(billing, failure);
    var daily :=
      if Contains(failure.message, DAILY_TEXT) then
        base.(seconds := match resetAt case Some(at) => Shorter(MAX_SECONDS, Longer(1.0, at - now)) case None => 300.0,
              reason := DailyQuotaExhausted)
      else base;
    match failure.retryAfter
    case Some(hint) => daily.(seconds := Longer(daily.seconds, Shorter(MAX_SECONDS, hint)))
    case None => daily
  }

  function FailureKey(scope: string, model: FreeModel, perModel: bool): string {
    var wide := if model.Billing() != "free" then scope + ":" + model.Billing() else scope;
    if perModel then wide + ":" + model.modelId else wide
  }

  /** What the source reads from a Retry-After header: no header, text that is neither a number nor
      a date, an infinite or undefined number, or a number of seconds, maybe negative. */
  datatype RetryHeader = Missing | Unreadable | NotFinite | Seconds(s: real)

  function RetrySeconds(header: RetryHeader): (r: Option<real>)
    ensures r.Some? <==> header.Seconds?
    ensures r.Some? ==> 0.0 <= r.value <= 172800.0
    ensures r.Some? && header.s < 0.0 ==> r.value == 0.0
    ensures r.Some? && 0.0 <= header.s <= 172800.0 ==> r.value == header.s
    ensures r.Some? && header.s > 172800.0 ==> r.value == 172800.0
  {
    if header.Seconds? then Some(Shorter(MAX_SECONDS, Longer(0.0, header.s))) else None
  }

  /** Entries that are still in force at `now`. */
  function Pruned(table: Table, now: real): Table {
    map k | k in table && table[k].until > now :: table[k]
  }

  function AfterFailure(
    table: Table, scope: string, model: FreeModel, failure: Failure, resetAt: Option<real>, now: real): Table
  {
    var penalty := FailurePenalty(model.Billing(), failure, resetAt, now);
    var entry := Entry(now + penalty.seconds, penalty.reason, model.provider);
    Pruned(table[FailureKey(scope, model, penalty.perModel) := entry], now)
  }

  /** The entries of the saved table that are taken over at a start. */
  function Loaded(file: Table, now: real): Table {
    map k | k in file && now < file[k].until <= now + MAX_SECONDS :: file[k]
  }

  /** What a catalog refresh stores under the provider's plain scope when the account has no free
      requests left today: a daily-quota entry, whose deadline is not moved forward. */
  function QuotaEntry(table: Table, scope: string, provider: string, now: real): Entry {
    var soon, spent := now + 300.0, scope in table && table[scope].reason == DailyQuotaExhausted;
    Entry(if spent then Longer(soon, table[scope].until) else soon, DailyQuotaExhausted, provider)
  }

  class CooldownTable {
    var cooldowns: Table

    constructor (file: Table, now: real)
      ensures cooldowns == Loaded(file, now)
      ensures forall k :: k in cooldowns <==> k in file && now < file[k].until <= now + 172800.0
      ensures forall k :: k in cooldowns ==> cooldowns[k] == file[k]
    {
      cooldowns := map k | k in file && now < file[k].until <= now + MAX_SECONDS :: file[k];
    }

    /** The entry that currently blocks a route, if any. */
    method Find(scope: string, model: FreeModel, now: real) returns (entry: Option<Entry>)
      ensures entry == Cooldown(cooldowns, scope, model, now)
    {
      var paidScope := scope + ":" + model.Billing();
      var keys := [scope, scope + ":" + model.modelId, paidScope, paidScope + ":" + model.modelId];
      for k := 0 to |keys|
        invariant FirstLive(cooldowns, keys, 0, model, now) == FirstLive(cooldowns, keys, k, model, now)
      {
        if keys[k] in cooldowns && cooldowns[keys[k]].until > now {
          if model.Billing() != "free" && cooldowns[keys[k]].reason == DailyQuotaExhausted {
            continue;
          }
          return Some(cooldowns[keys[k]]);
        }
      }
      entry := None;
    }

    method RecordFailure(scope: string, model: FreeModel, failure: Failure, resetAt: Option<real>, now: real)
      modifies this
      ensures cooldowns == AfterFailure(old(cooldowns), scope, model, failure, resetAt, now)
    {
      var penalty := FailurePenalty(model.Billing(), failure, resetAt, now);
      var key := if model.Billing() != "free" then scope + ":" + model.Billing() else scope;
      if penalty.perModel {
        key := key + ":" + model.modelId;
      }
      cooldowns := cooldowns[key := Entry(now + penalty.seconds, penalty.reason, model.provider)];
      cooldowns := map k | k in cooldowns && cooldowns[k].until > now :: cooldowns[k];
    }

    /** A balance check of a refresh found the paid credit used up. */
    method NoteBalance(scope: string, provider: string, now: real)
      modifies this
      ensures var entry := Entry(now + 300.0, BalanceExhausted, provider);
              cooldowns == TableWith(old(cooldowns), Noted(scope + ":paid_api", entry, now))
    {
      cooldowns := cooldowns[scope + ":paid_api" := Entry(now + 300.0, BalanceExhausted, provider)];
      cooldowns := map k | k in cooldowns && cooldowns[k].until > now :: cooldowns[k];
    }

    /** A quota check of a refresh found no free request left today. */
    method NoteQuota(scope: string, provider: string, now: real)
      modifies this
      ensures cooldowns ==
          TableWith(old(cooldowns), Noted(scope, QuotaEntry(old(cooldowns), scope, provider, now), now))
      ensures scope in cooldowns && cooldowns[scope].until >= now + 300.0
      ensures cooldowns[scope].reason == DailyQuotaExhausted && cooldowns[scope].provider == provider
      ensures cooldowns[scope].until != now + 300.0 ==>
                && scope in old(cooldowns) && old(cooldowns)[scope].reason == DailyQuotaExhausted
                && cooldowns[scope].until == old(cooldowns)[scope].until
      ensures scope in old(cooldowns) && old(cooldowns)[scope].reason == DailyQuotaExhausted ==>
                cooldowns[scope].until >= old(cooldowns)[scope].until
    {
      var until := now + 300.0;
      if scope in cooldowns && cooldowns[scope].reason == DailyQuotaExhausted && cooldowns[scope].until > until {
        until := cooldowns[scope].until;
      }
      cooldowns := cooldowns[scope := Entry(until, DailyQuotaExhausted, provider)];
      cooldowns := map k | k in cooldowns && cooldowns[k].until > now :: cooldowns[k];
    }

    /** An authoritative check found the provider usable again. */
    method Clear(key: string, now: real)
      modifies this
      ensures cooldowns == Pruned(old(cooldowns) - {key}, now)
    {
      cooldowns := cooldowns - {key};
      cooldowns := map k | k in cooldowns && cooldowns[k].until > now :: cooldowns[k];
    }
  }

  // ----- deadlines

  /** A failure carries what was read from its response's header, and then its deadline lies
      ahead of its recording and within 172800 seconds of it. */
  lemma DeadlineBound(billing: string, failure: Failure, header: RetryHeader, resetAt: Option<real>, now: real)
    requires failure.retryAfter == RetrySeconds(header)
    ensures 0.0 < FailurePenalty(billing, failure, resetAt, now).seconds <= MAX_SECONDS
  {
    DeadlineExactly(billing, failure, resetAt, now);
  }

  /** The one hint that the table itself stores as it is. */
  predicate LongHint(failure: Failure) {
    && failure.status == 402 && failure.billingLimit == Some(InFlightBudget)
    && !Contains(failure.message, DAILY_TEXT)
    && failure.retryAfter.Some? && failure.retryAfter.value > MAX_SECONDS
  }

  /** For failures with any hint whatever, that one is what the bound depends on. */
  lemma DeadlineExactly(billing: string, failure: Failure, resetAt: Option<real>, now: real)
    ensures FailurePenalty(billing, failure, resetAt, now).seconds <= MAX_SECONDS <==> !LongHint(failure)
  {
    var base := StatusPenalty(billing, failure);
    if failure.status == 402 && failure.billingLimit == Some(InFlightBudget) {
      assert base.reason == InFlight;
    } else {
      assert base.seconds <= 3600.0;
    }
  }

  // ----- which keys coincide

  predicate NoColon(s: string) { ':' !in s }

  lemma SplitAtColon(a: string, b: string, c: string, d: string)
    requires NoColon(a) && NoColon(c) && a + ":" + b == c + ":" + d
    ensures a == c && b == d
  {
    var left, right := a + ":" + b, c + ":" + d;
    assert left[|a|] == ':' && right[|c|] == ':';
    assert forall i :: 0 <= i < |a| ==> left[i] == a[i];
    assert forall i :: 0 <= i < |c| ==> right[i] == c[i];
    assert |a| == |c|;
    assert left[..|a|] == a && right[..|a|] == c;
    assert left[|a| + 1..] == b && right[|a| + 1..] == d;
  }

  lemma SameScope(scope: string, x: string, y: string)
    ensures scope + ":" + x == scope + ":" + y <==> x == y
    ensures scope + ":" + x != scope
  {
    assert (scope + ":" + x)[|scope| + 1..] == x;
    assert (scope + ":" + y)[|scope| + 1..] == y;
    assert |scope + ":" + x| > |scope|;
  }

  /** What is appended to the scope in a stored key; None for the scope itself. */
  function FailureTail(model: FreeModel, perModel: bool): Option<string> {
    if model.Billing() == "free" then (if perModel then Some(model.modelId) else None)
    else Some(if perModel then model.Billing() + ":" + model.modelId else model.Billing())
  }

  function LookupTails(model: FreeModel): set<string> {
    {model.modelId, model.Billing(), model.Billing() + ":" + model.modelId}
  }

  lemma KeyMeetsLookup(scope: string, failed: FreeModel, perModel: bool, other: FreeModel)
    ensures FailureKey(scope, failed, perModel) in LookupKeys(scope, other)
       <==> (match FailureTail(failed, perModel) case None => true case Some(tail) => tail in LookupTails(other))
  {
    var keys := LookupKeys(scope, other);
    assert keys[0] == scope && keys[1] == scope + ":" + other.modelId && keys[2] == scope + ":" + other.Billing();
    assert keys[3] == scope + ":" + (other.Billing() + ":" + other.modelId);
    match FailureTail(failed, perModel) {
      case None => assert FailureKey(scope, failed, perModel) == keys[0];
      case Some(tail) =>
        assert FailureKey(scope, failed, perModel) == scope + ":" + tail;
        SameScope(scope, tail, other.modelId);
        SameScope(scope, tail, other.Billing());
        SameScope(scope, tail, other.Billing() + ":" + other.modelId);
    }
  }

  /** The model id is, or starts with, a billing label: then it can be mistaken for a key of
      another scope. */
  predicate LooksLikeLabel(modelId: string) {
    exists name :: name in {"free", "subscription", "paid_api"} &&
      (modelId == name || (|modelId| > |name| && modelId[..|name| + 1] == name + ":"))
  }

  lemma LabelTails(a: FreeModel, b: FreeModel)
    ensures a.Billing() in {"free", "subscription", "paid_api"}
    ensures a.Billing() + ":" + a.modelId == b.Billing() + ":" + b.modelId
       <==> a.Billing() == b.Billing() && a.modelId == b.modelId
    ensures a.Billing() + ":" + a.modelId != b.Billing()
    ensures a.modelId == b.Billing() ==> LooksLikeLabel(a.modelId)
    ensures a.modelId == b.Billing() + ":" + b.modelId ==> LooksLikeLabel(a.modelId)
  {
    assert NoColon(a.Billing()) && NoColon(b.Billing());
    if a.Billing() + ":" + a.modelId == b.Billing() + ":" + b.modelId {
      SplitAtColon(a.Billing(), a.modelId, b.Billing(), b.modelId);
    }
    assert (a.Billing() + ":" + a.modelId)[|a.Billing()|] == ':';
    if a.modelId == b.Billing() + ":" + b.modelId {
      assert a.modelId[..|b.Billing()| + 1] == b.Billing() + ":";
    }
  }

  /** Exactly which other routes of a provider a model-scoped failure cools down: routes with
      the same model id (of the same category when the failed one is not free), and routes
      whose id or category happens to spell the stored key's tail. */
  lemma ModelScopedFailure(scope: string, failed: FreeModel, other: FreeModel)
    ensures FailureKey(scope, failed, true) in LookupKeys(scope, other)
       <==> if failed.Billing() == "free" then
              || failed.modelId == other.modelId
              || failed.modelId == other.Billing()
              || failed.modelId == other.Billing() + ":" + other.modelId
            else
              || (failed.Billing() == other.Billing() && failed.modelId == other.modelId)
              || other.modelId == failed.Billing() + ":" + failed.modelId
    ensures !LooksLikeLabel(failed.modelId) && !LooksLikeLabel(other.modelId) && failed.modelId != other.modelId
       ==> FailureKey(scope, failed, true) !in LookupKeys(scope, other)
  {
    KeyMeetsLookup(scope, failed, true, other);
    LabelTails(failed, other);
    LabelTails(other, failed);
  }

  /** Exactly when a failure of a paid or subscription route cools a free route: when the free
      route's model id spells a billing label. */
  lemma PaidFailureAndFreeRoute(scope: string, failed: FreeModel, perModel: bool, other: FreeModel)
    requires failed.Billing() != "free" && other.Billing() == "free"
    ensures FailureKey(scope, failed, perModel) in LookupKeys(scope, other)
       <==> other.modelId == (if perModel then failed.Billing() + ":" + failed.modelId else failed.Billing())
    ensures !LooksLikeLabel(other.modelId) ==> FailureKey(scope, failed, perModel) !in LookupKeys(scope, other)
  {
    KeyMeetsLookup(scope, failed, perModel, other);
    LabelTails(failed, other);
    LabelTails(other, failed);
  }

  /** A route of one provider whose model id spells the label of free routes: when it fails for a
      reason of its own, a sibling with another id is cooled down with it. */
  lemma SiblingCooled(scope: string, failure: Failure, now: real)
    requires failure == Plain(Upstream, 502, "")
    ensures var failed := FreeModel("p", "free", None, true, true, "free_quota");
            var sibling := FreeModel("p", "other", None, true, true, "free_quota");
            Cooldown(AfterFailure(map[], scope, failed, failure, None, now), scope, sibling, now).Some?
  {
    var failed := FreeModel("p", "free", None, true, true, "free_quota");
    var sibling := FreeModel("p", "other", None, true, true, "free_quota");
    assert sibling.Billing() == "free";
    ModelScopedFailure(scope, failed, sibling);
    StoredAtKey(scope, failed, failure, now, sibling);
  }

  /** A free route whose model id spells the label of paid routes is cooled down when one of those
      has no balance left. */
  lemma FreeRouteCooled(scope: string, failure: Failure, now: real)
    requires failure == Plain(Upstream, 402, "")
    ensures var failed := FreeModel("p", "other", None, true, true, "paid_api");
            var free := FreeModel("p", "paid_api", None, true, true, "free_quota");
            Cooldown(AfterFailure(map[], scope, failed, failure, None, now), scope, free, now).Some?
  {
    var failed := FreeModel("p", "other", None, true, true, "paid_api");
    var free := FreeModel("p", "paid_api", None, true, true, "free_quota");
    PaidFailureAndFreeRoute(scope, failed, false, free);
    StoredAtKey(scope, failed, failure, now, free);
  }

  lemma StoredAtKey(scope: string, failed: FreeModel, failure: Failure, now: real, other: FreeModel)
    requires failure.message == "" && failure.retryAfter.None? && failure.billingLimit.None?
    requires FailureKey(scope, failed, StatusPenalty(failed.Billing(), failure).perModel) in LookupKeys(scope, other)
    ensures Cooldown(AfterFailure(map[], scope, failed, failure, None, now), scope, other, now).Some?
  {
    var penalty := StatusPenalty(failed.Billing(), failure);
    var key := FailureKey(scope, failed, penalty.perModel);
    var table := AfterFailure(map[], scope, failed, failure, None, now);
    assert !Contains("", DAILY_TEXT);
    assert FailurePenalty(failed.Billing(), failure, None, now) == penalty;
    assert key in table && table[key] == Entry(now + penalty.seconds, penalty.reason, failed.provider);
    var k :| 0 <= k < 4 && LookupKeys(scope, other)[k] == key;
    assert Live(table, LookupKeys(scope, other)[k], other, now).Some?;
    FirstLiveFound(table, LookupKeys(scope, other), 0, other, now);
  }

  lemma ScopedKeys(provider: string, fingerprint: string, model: FreeModel, perModel: bool)
    ensures exists tail :: FailureKey(Scope(provider, fingerprint), model, perModel) == provider + ":" + tail
    ensures forall k :: k in LookupKeys(Scope(provider, fingerprint), model) ==>
        exists tail :: k == provider + ":" + tail
  {
    var scope := Scope(provider, fingerprint);
    var b, m := model.Billing(), model.modelId;
    assert scope == provider + ":" + fingerprint;
    assert scope + ":" + m == provider + ":" + (fingerprint + ":" + m);
    assert scope + ":" + b == provider + ":" + (fingerprint + ":" + b);
    assert scope + ":" + b + ":" + m == provider + ":" + (fingerprint + ":" + b + ":" + m);
  }

  /** No failure is stored under a key that a route of another provider looks up. */
  lemma ProvidersAreSeparate(
      p: string, f: string, failed: FreeModel, perModel: bool, q: string, g: string, other: FreeModel)
    requires NoColon(p) && NoColon(q) && p != q
    ensures FailureKey(Scope(p, f), failed, perModel) !in LookupKeys(Scope(q, g), other)
  {
    ScopedKeys(p, f, failed, perModel);
    ScopedKeys(q, g, other, perModel);
    var key := FailureKey(Scope(p, f), failed, perModel);
    if key in LookupKeys(Scope(q, g), other) {
      var s :| key == p + ":" + s;
      var t :| key == q + ":" + t;
      SplitAtColon(p, s, q, t);
    }
  }

  // ----- whole histories

  /** What can happen to the table: a recorded failure, an entry that a catalog refresh stores, or
      an entry cleared by a provider check. */
  datatype Event =
    | Failed(scope: string, model: FreeModel, failure: Failure, resetAt: Option<real>, at: real)
    | Noted(key: string, entry: Entry, at: real)
    | Cleared(key: string, at: real)

  function PenaltyOf(e: Event): Penalty
    requires e.Failed?
  {
    FailurePenalty(e.model.Billing(), e.failure, e.resetAt, e.at)
  }

  /** The key an event writes or removes. */
  function Touched(e: Event): string {
    match e
    case Failed(scope, model, _, _, _) => FailureKey(scope, model, PenaltyOf(e).perModel)
    case Noted(key, _, _) => key
    case Cleared(key, _) => key
  }

  function Stored(e: Event): Option<Entry> {
    match e
    case Failed(_, model, _, _, at) => Some(Entry(at + PenaltyOf(e).seconds, PenaltyOf(e).reason, model.provider))
    case Noted(_, entry, _) => Some(entry)
    case Cleared(_, _) => None
  }

  /** The table after one event; every event saves it, which drops the expired entries. */
  function TableWith(table: Table, e: Event): Table {
    match e
    case Failed(scope, model, failure, resetAt, at) => AfterFailure(table, scope, model, failure, resetAt, at)
    case Noted(key, entry, at) => Pruned(table[key := entry], at)
    case Cleared(key, at) => Pruned(table - {key}, at)
  }

  /** The table after the first `n` events, when `start` was loaded. */
  function TableAfter(start: Table, events: seq<Event>, n: nat): Table
    requires n <= |events|
  {
    if n == 0 then start else TableWith(TableAfter(start, events, n - 1), events[n - 1])
  }

  function Lookup(table: Table, key: string): Option<Entry> { if key in table then Some(table[key]) else None }

  /** The reference: the last event that touched a key decides. */
  function LastStored(start: Table, events: seq<Event>, n: nat, key: string): Option<Entry>
    requires n <= |events|
  {
    if n == 0 then Lookup(start, key)
    else if Touched(events[n - 1]) == key then Stored(events[n - 1])
    else LastStored(start, events, n - 1, key)
  }

  /** The first `n` events happened in order, none after `now`. */
  ghost predicate Past(events: seq<Event>, n: nat, now: real) {
    && n <= |events|
    && (forall i, j :: 0 <= i < j < n ==> events[i].at <= events[j].at)
    && (forall i :: 0 <= i < n ==> events[i].at <= now)
  }

  function InForce(entry: Option<Entry>, now: real): Option<Entry> {
    if entry.Some? && entry.value.until > now then entry else None
  }

  /** A save with one key's entry replaced or removed. */
  function Saved(table: Table, key: string, entry: Option<Entry>, at: real): Table {
    Pruned(match entry case Some(e) => table[key := e] case None => table - {key}, at)
  }

  lemma TableWithSaved(table: Table, e: Event)
    ensures TableWith(table, e) == Saved(table, Touched(e), Stored(e), e.at)
  {
  }

  lemma SavedReads(table: Table, key: string, entry: Option<Entry>, at: real, other: string, now: real)
    requires at <= now
    ensures InForce(Lookup(Saved(table, key, entry, at), other), now)
         == InForce(if other == key then entry else Lookup(table, other), now)
  {
  }

  /** Although the table forgets expired entries at every save, at any later moment every key
      reads exactly as the last event that touched it says. */
  lemma {:induction false} TableIsHistory(start: Table, events: seq<Event>, n: nat, key: string, now: real)
    requires Past(events, n, now)
    ensures InForce(Lookup(TableAfter(start, events, n), key), now) == InForce(LastStored(start, events, n, key), now)
  {
    if n > 0 {
      var e, before := events[n - 1], TableAfter(start, events, n - 1);
      TableIsHistory(start, events, n - 1, key, now);
      TableWithSaved(before, e);
      SavedReads(before, Touched(e), Stored(e), e.at, key, now);
    }
  }

  /** Nothing after event `i` has touched its key. */
  ghost predicate Latest(events: seq<Event>, i: nat, n: nat) {
    i < n <= |events| && forall j :: i < j < n ==> Touched(events[j]) != Touched(events[i])
  }

  ghost predicate Untouched(events: seq<Event>, n: nat, key: string) {
    n <= |events| && forall j :: 0 <= j < n ==> Touched(events[j]) != key
  }

  lemma {:induction false} LastStoredSince(start: Table, events: seq<Event>, i: nat, n: nat)
    requires Latest(events, i, n)
    ensures LastStored(start, events, n, Touched(events[i])) == Stored(events[i])
  {
    if i < n - 1 {
      LastStoredSince(start, events, i, n - 1);
    }
  }

  /** An entry that blocks this route while it is in force. */
  predicate Blocks(entry: Option<Entry>, model: FreeModel, now: real) {
    InForce(entry, now).Some? && (model.Billing() == "free" || entry.value.reason != DailyQuotaExhausted)
  }

  /** After any history, a route is blocked exactly when one of the four keys it looks up was last
      touched by the storing of an entry that is in force and applies to it. */
  lemma BlockedExactly(start: Table, events: seq<Event>, n: nat, scope: string, model: FreeModel, now: real)
    requires Past(events, n, now)
    ensures Cooldown(TableAfter(start, events, n), scope, model, now).Some?
       <==> exists k :: 0 <= k < 4 && Blocks(LastStored(start, events, n, LookupKeys(scope, model)[k]), model, now)
  {
    var table, keys := TableAfter(start, events, n), LookupKeys(scope, model);
    forall k | 0 <= k < 4
      ensures Live(table, keys[k], model, now).Some? <==> Blocks(LastStored(start, events, n, keys[k]), model, now)
    {
      TableIsHistory(start, events, n, keys[k], now);
      assert InForce(Lookup(table, keys[k]), now).Some? ==> Lookup(table, keys[k]).Some?;
    }
    FirstLiveFound(table, keys, 0, model, now);
  }

  lemma StoredKeyIsLookedUp(scope: string, model: FreeModel, perModel: bool)
    ensures FailureKey(scope, model, perModel) in LookupKeys(scope, model)
  {
    var keys := LookupKeys(scope, model);
    if model.Billing() == "free" {
      assert FailureKey(scope, model, perModel) == keys[if perModel then 1 else 0];
    } else {
      assert FailureKey(scope, model, perModel) == keys[if perModel then 3 else 2];
    }
  }

  /** After any history, an entry that was neither cleared nor overwritten blocks every route that
      looks its key up until its deadline; the one exception is the free daily quota, which does
      not block routes that are not free. */
  lemma EntryStaysInForce(start: Table, events: seq<Event>, i: nat, n: nat, scope: string, model: FreeModel, now: real)
    requires Latest(events, i, n) && Past(events, n, now) && Touched(events[i]) in LookupKeys(scope, model)
    requires Blocks(Stored(events[i]), model, now)
    ensures Cooldown(TableAfter(start, events, n), scope, model, now).Some?
  {
    LastStoredSince(start, events, i, n);
    BlockedExactly(start, events, n, scope, model, now);
    var k :| 0 <= k < 4 && LookupKeys(scope, model)[k] == Touched(events[i]);
  }

  /** After any history, a route whose failure was recorded and whose entry was neither cleared
      nor overwritten is blocked until the stored deadline; the one exception is a route that is
      not free and failed with the free daily-quota message. */
  lemma FailedRouteStaysBlocked(start: Table, events: seq<Event>, i: nat, n: nat, now: real)
    requires Latest(events, i, n) && Past(events, n, now) && events[i].Failed?
    requires now < events[i].at + PenaltyOf(events[i]).seconds
    ensures events[i].model.Billing() == "free" || PenaltyOf(events[i]).reason != DailyQuotaExhausted
        ==> Cooldown(TableAfter(start, events, n), events[i].scope, events[i].model, now).Some?
  {
    var e := events[i];
    StoredKeyIsLookedUp(e.scope, e.model, PenaltyOf(e).perModel);
    if e.model.Billing() == "free" || PenaltyOf(e).reason != DailyQuotaExhausted {
      EntryStaysInForce(start, events, i, n, e.scope, e.model, now);
    }
  }

  /** After any history, what blocks a route is an entry under one of the keys it looks up, still
      in force: one that a failure or a refresh stored and nothing has touched since, or one that
      was loaded at the start and that nothing has touched. */
  lemma BlockedOnlyByAnEntry(start: Table, events: seq<Event>, n: nat, scope: string, model: FreeModel, now: real)
    requires Past(events, n, now) && Cooldown(TableAfter(start, events, n), scope, model, now).Some?
    ensures var entry, keys := Cooldown(TableAfter(start, events, n), scope, model, now), LookupKeys(scope, model);
            && entry.value.until > now
            && (|| (exists i: nat :: Latest(events, i, n) && Touched(events[i]) in keys && Stored(events[i]) == entry)
                || (exists k :: 0 <= k < 4 && Untouched(events, n, keys[k]) && Lookup(start, keys[k]) == entry))
  {
    var table, keys := TableAfter(start, events, n), LookupKeys(scope, model);
    FirstLiveFound(table, keys, 0, model, now);
    var k :| 0 <= k < |keys| && Live(table, keys[k], model, now) == Cooldown(table, scope, model, now);
    TableIsHistory(start, events, n, keys[k], now);
    assert InForce(Lookup(table, keys[k]), now) == Live(table, keys[k], model, now);
    LastTouching(start, events, n, keys[k]);
  }

  lemma {:induction false} LastTouching(start: Table, events: seq<Event>, n: nat, key: string)
    requires n <= |events|
    ensures var stored := LastStored(start, events, n, key);
            || (exists i: nat :: Latest(events, i, n) && Touched(events[i]) == key && Stored(events[i]) == stored)
            || (Untouched(events, n, key) && stored == Lookup(start, key))
  {
    if n > 0 {
      if Touched(events[n - 1]) == key {
        assert Latest(events, n - 1, n);
      } else {
        LastTouching(start, events, n - 1, key);
        if i: nat :| Latest(events, i, n - 1) && Touched(events[i]) == key {
          assert Latest(events, i, n);
        }
      }
    }
  }

  // ----- every deadline of a history

  ghost predicate Bounded(table: Table, now: real) {
    forall k :: k in table ==> table[k].until <= now + MAX_SECONDS
  }

  /** What the source can do to a table: record a failure with a hint it has read from a header,
      store what a refresh stores, or clear. */
  ghost predicate Possible(table: Table, e: Event) {
    match e
    case Failed(_, _, failure, _, _) => exists header :: failure.retryAfter == RetrySeconds(header)
    case Noted(key, entry, at) =>
      || entry.until == at + 300.0
      || entry == QuotaEntry(table, key, entry.provider, at)
    case Cleared(_, _) => true
  }

  lemma StoredWithin(table: Table, e: Event)
    requires Bounded(table, e.at) && Possible(table, e)
    ensures Stored(e).Some? ==> Stored(e).value.until <= e.at + MAX_SECONDS
  {
    if e.Failed? {
      var header :| e.failure.retryAfter == RetrySeconds(header);
      DeadlineBound(e.model.Billing(), e.failure, header, e.resetAt, e.at);
    }
  }

  lemma SavedBounded(table: Table, key: string, entry: Option<Entry>, at: real, now: real)
    requires Bounded(table, at) && at <= now && (entry.Some? ==> entry.value.until <= at + MAX_SECONDS)
    ensures Bounded(Saved(table, key, entry, at), now)
  {
  }

  /** In every history of a loaded table, no entry at any time lies more than 172800 seconds
      ahead. */
  lemma {:induction false} DeadlinesBounded(file: Table, loaded: real, events: seq<Event>, n: nat, now: real)
    requires Past(events, n, now) && loaded <= now && forall i :: 0 <= i < n ==> loaded <= events[i].at
    requires forall i: nat :: i < n ==> Possible(TableAfter(Loaded(file, loaded), events, i), events[i])
    ensures Bounded(TableAfter(Loaded(file, loaded), events, n), now)
  {
    if n > 0 {
      var e, before := events[n - 1], TableAfter(Loaded(file, loaded), events, n - 1);
      DeadlinesBounded(file, loaded, events, n - 1, e.at);
      StoredWithin(before, e);
      TableWithSaved(before, e);
      SavedBounded(before, Touched(e), Stored(e), e.at, now);
    }
  }
}
