/** How often each provider has failed during one request, and the limit on it.  The counts of
    several providers are added up for the bound on a request's retries. */
module RouteBudget {

  const PROVIDER_FAILURE_LIMIT := 3

  type FailureCounts = map<string, nat>

  function Count(failures: FailureCounts, provider: string): nat {
    if provider in failures then failures[provider] else 0
  }

  predicate Allowed(failures: FailureCounts, provider: string) {
    Count(failures, provider) < PROVIDER_FAILURE_LIMIT
  }

  function Recorded(failures: FailureCounts, provider: string): FailureCounts {
    failures[provider := Count(failures, provider) + 1]
  }

  class RouteAttemptBudget {
    var failures: FailureCounts

    constructor ()
      ensures failures == map[]
    {
      failures := map[];
    }

    predicate Allows(provider: string)
      reads this
    {
      Allowed(failures, provider)
    }

    method RecordFailure(provider: string)
      modifies this
      ensures failures == Recorded(old(failures), provider)
    {
      failures := failures[provider := Count(failures, provider) + 1];
    }
  }

  /** The failures of a set of providers taken together. */
  ghost function Total(failures: FailureCounts, providers: set<string>): nat
    decreases |providers|
  {
    if providers == {} then 0
    else
      var p :| p in providers;
      Count(failures, p) + Total(failures, providers - {p})
  }

  lemma {:induction false} TotalSplit(failures: FailureCounts, providers: set<string>, p: string)
    requires p in providers
    ensures Total(failures, providers) == Count(failures, p) + Total(failures, providers - {p})
    decreases |providers|
  {
    var q :| q in providers && Total(failures, providers) == Count(failures, q) + Total(failures, providers - {q});
    if q != p {
      TotalSplit(failures, providers - {q}, p);
      TotalSplit(failures, providers - {p}, q);
      assert providers - {q} - {p} == providers - {p} - {q};
    }
  }

  lemma {:induction false} TotalAgrees(a: FailureCounts, b: FailureCounts, providers: set<string>)
    requires forall p :: p in providers ==> Count(a, p) == Count(b, p)
    ensures Total(a, providers) == Total(b, providers)
    decreases |providers|
  {
    if providers != {} {
      var p :| p in providers;
      TotalSplit(a, providers, p);
      TotalSplit(b, providers, p);
      TotalAgrees(a, b, providers - {p});
    }
  }

  /** Recording one failure adds exactly one to the total. */
  lemma TotalAfterFailure(failures: FailureCounts, providers: set<string>, p: string)
    requires p in providers
    ensures Total(Recorded(failures, p), providers) == Total(failures, providers) + 1
  {
    TotalSplit(failures, providers, p);
    TotalSplit(Recorded(failures, p), providers, p);
    TotalAgrees(failures, Recorded(failures, p), providers - {p});
  }

  lemma TotalOfOne(failures: FailureCounts, p: string)
    ensures Total(failures, {p}) == Count(failures, p)
  {
    TotalSplit(failures, {p}, p);
  }

  ghost predicate WithinLimit(failures: FailureCounts) {
    forall p :: Count(failures, p) <= PROVIDER_FAILURE_LIMIT
  }

  lemma RecordedCounts(failures: FailureCounts, p: string)
    ensures forall q :: Count(Recorded(failures, p), q) == Count(failures, q) + if q == p then 1 else 0
    ensures WithinLimit(failures) && Allowed(failures, p) ==> WithinLimit(Recorded(failures, p))
  {
  }

  /** While every provider is within its limit, the total of P providers is at most 3 * P. */
  lemma {:induction false} TotalBound(failures: FailureCounts, providers: set<string>)
    requires WithinLimit(failures)
    ensures Total(failures, providers) <= PROVIDER_FAILURE_LIMIT * |providers|
    decreases |providers|
  {
    if providers != {} {
      var p :| p in providers;
      TotalSplit(failures, providers, p);
      TotalBound(failures, providers - {p});
    }
  }

  /** Providers without a recorded failure add nothing to the total. */
  lemma {:induction false} TotalOfMore(failures: FailureCounts, some: set<string>, all: set<string>)
    requires some <= all && failures.Keys <= some
    ensures Total(failures, all) == Total(failures, some)
    decreases |all - some|
  {
    if some != all {
      var p :| p in all && p !in some;
      TotalSplit(failures, all, p);
      assert all - {p} - some == (all - some) - {p};
      TotalOfMore(failures, some, all - {p});
    }
  }

  /** `sum(failures.values())`. */
  method Sum(failures: FailureCounts) returns (n: nat)
    ensures n == Total(failures, failures.Keys)
  {
    n := 0;
    var left := failures.Keys;
    while left != {}
      invariant left <= failures.Keys
      invariant n + Total(failures, left) == Total(failures, failures.Keys)
      decreases |left|
    {
      var p :| p in left;
      TotalSplit(failures, left, p);
      n := n + failures[p];
      left := left - {p};
    }
  }
}
