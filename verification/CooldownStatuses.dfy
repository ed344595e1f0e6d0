/** What each kind of failure does to the routes of its provider: which of them it keeps from being
    used, for how many seconds, and which it leaves as they were. */
module CooldownStatuses {
  import opened Common
  import opened Failures
  import opened Cooldowns

  /** The failure is about the one model only, not about the provider's other models. */
  predicate AboutOneModel(billing: string, failure: Failure) {
    || failure.status in {400, 404, 413}
    || failure.status >= 500
    || (failure.status == 403 && !failure.accessBlocked)
    || (failure.status == 402 && failure.billingLimit == Some(RequestBudget) && billing == "paid_api")
  }

  const QUOTA_MESSAGE := "daily free-model request quota exhausted"

  predicate QuotaSpent(failure: Failure) { Contains(failure.message, QUOTA_MESSAGE) }

  /** The seconds its status stands for. */
  function StatusSeconds(billing: string, failure: Failure): real {
    match failure.status
    case 400 => 300.0
    case 401 => 3600.0
    case 402 =>
      (match failure.billingLimit
       case Some(RequestBudget) => if billing == "paid_api" then 60.0 else 3600.0
       case Some(InFlightBudget) =>
         if failure.retryAfter.None? || failure.retryAfter.value == 0.0 then 45.0 else failure.retryAfter.value
       case Some(KeyLimit) => 3600.0
       case None => 3600.0)
    case 403 => if failure.accessBlocked then 3600.0 else 300.0
    case 404 => 300.0
    case 413 => 300.0
    case 429 => 60.0
    case _ => 45.0
  }

  /** For a spent daily quota the time to its reset, or 300 seconds; between one second and two days. */
  function QuotaSeconds(resetAt: Option<real>, now: real): real {
    if resetAt.None? then 300.0
    else if resetAt.value - now < 1.0 then 1.0
    else if resetAt.value - now > 172800.0 then 172800.0
    else resetAt.value - now
  }

  /** How long the failure is remembered: a longer hint counts instead, up to two days. */
  function Lasts(billing: string, failure: Failure, resetAt: Option<real>, now: real): real {
    var base := if QuotaSpent(failure) then QuotaSeconds(resetAt, now) else StatusSeconds(billing, failure);
    if failure.retryAfter.None? then base
    else
      var hint := if failure.retryAfter.value > 172800.0 then 172800.0 else failure.retryAfter.value;
      if hint > base then hint else base
  }

  lemma PenaltySeconds(billing: string, failure: Failure, resetAt: Option<real>, now: real)
    ensures var penalty := FailurePenalty(billing, failure, resetAt, now);
            && (penalty.perModel <==> AboutOneModel(billing, failure))
            && penalty.seconds == Lasts(billing, failure, resetAt, now)
            && (penalty.reason == DailyQuotaExhausted <==> QuotaSpent(failure))
  {
    hide Contains;
  }

  /** The failed route's failure is one of `other` too. */
  predicate Concerns(failed: FreeModel, failure: Failure, other: FreeModel) {
    && (failed.Billing() == "free" || failed.Billing() == other.Billing())
    && (AboutOneModel(failed.Billing(), failure) ==> failed.modelId == other.modelId)
  }

  lemma ConcernsLooksUp(scope: string, failed: FreeModel, failure: Failure, other: FreeModel)
    ensures var key := FailureKey(scope, failed, AboutOneModel(failed.Billing(), failure));
            && (Concerns(failed, failure, other) ==> key in LookupKeys(scope, other))
            && (!LooksLikeLabel(failed.modelId) && !LooksLikeLabel(other.modelId) ==>
                  (key in LookupKeys(scope, other) <==> Concerns(failed, failure, other)))
  {
    hide AboutOneModel, FailureKey, LookupKeys, LooksLikeLabel;
    KeyMeetsLookup(scope, failed, AboutOneModel(failed.Billing(), failure), other);
    LabelTails(failed, other);
    LabelTails(other, failed);
  }

  /** What is looked up under one key after the failure was stored under another or the same. */
  lemma LiveAfter(
      table: Table, scope: string, failed: FreeModel, failure: Failure, resetAt: Option<real>, now: real,
      key: string, other: FreeModel, later: real)
    requires now <= later
    ensures var stored := FailureKey(scope, failed, AboutOneModel(failed.Billing(), failure));
            var live := Live(AfterFailure(table, scope, failed, failure, resetAt, now), key, other, later);
            && (key != stored ==> live == Live(table, key, other, later))
            && (key == stored ==>
                  && (live.Some? <==> later < now + Lasts(failed.Billing(), failure, resetAt, now)
                                      && (other.Billing() == "free" || !QuotaSpent(failure)))
                  && (live.Some? ==> live.value.until == now + Lasts(failed.Billing(), failure, resetAt, now)
                                     && live.value.provider == failed.provider))
  {
    hide AboutOneModel, QuotaSpent, Lasts, FailurePenalty, FailureKey;
    PenaltySeconds(failed.Billing(), failure, resetAt, now);
  }

  lemma {:induction false} FirstLiveSame(a: Table, b: Table, keys: seq<string>, k: nat, model: FreeModel, now: real)
    requires k <= |keys| && forall i :: k <= i < |keys| ==> Live(a, keys[i], model, now) == Live(b, keys[i], model, now)
    ensures FirstLive(a, keys, k, model, now) == FirstLive(b, keys, k, model, now)
    decreases |keys| - k
  {
    if k < |keys| {
      FirstLiveSame(a, b, keys, k + 1, model, now);
    }
  }

  /** A recorded failure keeps every route that it concerns from being used until it has lasted its
      time, except that a spent free daily quota does not keep one that is not free.  Where nothing
      else does, it is exactly until then. */
  lemma FailureBlocks(
      table: Table, scope: string, failed: FreeModel, failure: Failure, resetAt: Option<real>, now: real,
      other: FreeModel, later: real)
    requires now <= later && Concerns(failed, failure, other)
    ensures var found := Cooldown(AfterFailure(table, scope, failed, failure, resetAt, now), scope, other, later);
            var until := now + Lasts(failed.Billing(), failure, resetAt, now);
            var applies := other.Billing() == "free" || !QuotaSpent(failure);
            && (later < until && applies ==> found.Some?)
            && (Cooldown(table, scope, other, later).None? ==>
                  && (found.Some? <==> later < until && applies)
                  && (found.Some? ==> found.value.until == until))
  {
    hide Concerns, AboutOneModel, QuotaSpent, Lasts, AfterFailure, FailureKey, LookupKeys, FreeModel.Billing, Live;
    var after, keys := AfterFailure(table, scope, failed, failure, resetAt, now), LookupKeys(scope, other);
    ConcernsLooksUp(scope, failed, failure, other);
    forall i | 0 <= i < |keys|
      ensures keys[i] == FailureKey(scope, failed, AboutOneModel(failed.Billing(), failure)) ==>
                (Live(after, keys[i], other, later).Some? <==>
                   later < now + Lasts(failed.Billing(), failure, resetAt, now)
                   && (other.Billing() == "free" || !QuotaSpent(failure)))
      ensures keys[i] == FailureKey(scope, failed, AboutOneModel(failed.Billing(), failure)) &&
                Live(after, keys[i], other, later).Some? ==>
                Live(after, keys[i], other, later).value.until == now + Lasts(failed.Billing(), failure, resetAt, now)
      ensures keys[i] != FailureKey(scope, failed, AboutOneModel(failed.Billing(), failure)) ==>
                Live(after, keys[i], other, later) == Live(table, keys[i], other, later)
    {
      LiveAfter(table, scope, failed, failure, resetAt, now, keys[i], other, later);
    }
    FirstLiveFound(after, keys, 0, other, later);
    FirstLiveFound(table, keys, 0, other, later);
  }

  /** Every other route is looked up as before.  A route is another one when its model has another id
      or, for a failure of all models, it is billed differently than one that is not free; ids that
      spell a billing label are told apart in `ModelScopedFailure` and `PaidFailureAndFreeRoute`. */
  lemma OthersAsBefore(
      table: Table, scope: string, failed: FreeModel, failure: Failure, resetAt: Option<real>, now: real,
      other: FreeModel, later: real)
    requires now <= later && !Concerns(failed, failure, other)
    requires !LooksLikeLabel(failed.modelId) && !LooksLikeLabel(other.modelId)
    ensures Cooldown(AfterFailure(table, scope, failed, failure, resetAt, now), scope, other, later)
         == Cooldown(table, scope, other, later)
  {
    hide Concerns, AboutOneModel, QuotaSpent, Lasts, AfterFailure, FailureKey, LookupKeys, LooksLikeLabel, Live;
    var after, keys := AfterFailure(table, scope, failed, failure, resetAt, now), LookupKeys(scope, other);
    ConcernsLooksUp(scope, failed, failure, other);
    forall i | 0 <= i < |keys| ensures Live(after, keys[i], other, later) == Live(table, keys[i], other, later) {
      LiveAfter(table, scope, failed, failure, resetAt, now, keys[i], other, later);
    }
    FirstLiveSame(after, table, keys, 0, other, later);
  }

  /** No failure at one provider changes anything for a route of another one. */
  lemma OtherProvidersAsBefore(
      table: Table, p: string, f: string, failed: FreeModel, failure: Failure, resetAt: Option<real>, now: real,
      q: string, g: string, other: FreeModel, later: real)
    requires now <= later && NoColon(p) && NoColon(q) && p != q
    ensures Cooldown(AfterFailure(table, Scope(p, f), failed, failure, resetAt, now), Scope(q, g), other, later)
         == Cooldown(table, Scope(q, g), other, later)
  {
    hide AboutOneModel, QuotaSpent, Lasts, AfterFailure, FailureKey, LookupKeys, Live, Scope;
    var after := AfterFailure(table, Scope(p, f), failed, failure, resetAt, now);
    var keys := LookupKeys(Scope(q, g), other);
    ProvidersAreSeparate(p, f, failed, AboutOneModel(failed.Billing(), failure), q, g, other);
    forall i | 0 <= i < |keys| ensures Live(after, keys[i], other, later) == Live(table, keys[i], other, later) {
      LiveAfter(table, Scope(p, f), failed, failure, resetAt, now, keys[i], other, later);
    }
    FirstLiveSame(after, table, keys, 0, other, later);
  }

  /** What is reported for a blocked route: the entry for all the provider's routes before the one
      for its model, and the one for its billing category before the one for its model there. */
  lemma WidestEntryReported(table: Table, scope: string, model: FreeModel, now: real)
    ensures var all, one := Live(table, scope, model, now), Live(table, scope + ":" + model.modelId, model, now);
            var billed := scope + ":" + model.Billing();
            Cooldown(table, scope, model, now) ==
              if all.Some? then all
              else if one.Some? then one
              else if Live(table, billed, model, now).Some? then Live(table, billed, model, now)
              else Live(table, billed + ":" + model.modelId, model, now)
  {
    hide Live, FreeModel.Billing;
    var keys := LookupKeys(scope, model);
    assert FirstLive(table, keys, 4, model, now) == None;
    assert FirstLive(table, keys, 3, model, now) == Live(table, keys[3], model, now);
    assert FirstLive(table, keys, 2, model, now)
        == if Live(table, keys[2], model, now).Some? then Live(table, keys[2], model, now)
           else FirstLive(table, keys, 3, model, now);
    assert FirstLive(table, keys, 1, model, now)
        == if Live(table, keys[1], model, now).Some? then Live(table, keys[1], model, now)
           else FirstLive(table, keys, 2, model, now);
  }
}
