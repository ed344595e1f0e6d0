/** The two list operations that keep provider diversity inside one request: moving another
    provider ahead after a failure, and reserving slots for distinct providers.  Both are
    generic in the candidate type, as the source's duck-typed lists are: `provider` and
    `billing` are the two attributes they read. */
module FallbackOrder {
  import opened Common

  // ----- moving a different provider ahead

  /** The first position from `k` on that still has the billing category of position
      `failed + 1` and another provider than the failed one; |s| when the run has none. */
  function FirstOther<T, B(==)>(s: seq<T>, failed: nat, k: nat, provider: T -> string, billing: T -> B): (r: nat)
    requires failed + 1 < |s| && failed < k <= |s|
    ensures k <= r <= |s|
    decreases |s| - k
  {
    if k == |s| || billing(s[k]) != billing(s[failed + 1]) then |s|
    else if provider(s[k]) != provider(s[failed]) then k
    else FirstOther(s, failed, k + 1, provider, billing)
  }

  /** The list after `insert(to, pop(from))`. */
  function Moved<T>(s: seq<T>, from: nat, to: nat): (r: seq<T>)
    requires to <= from < |s|
  {
    s[..to] + [s[from]] + s[to..from] + s[from + 1..]
  }

  function Preferred<T, B(==)>(s: seq<T>, failed: nat, provider: T -> string, billing: T -> B): seq<T> {
    if failed + 1 >= |s| then s
    else
      var k := FirstOther(s, failed, failed + 1, provider, billing);
      if k == |s| then s else Moved(s, k, failed + 1)
  }

  /** `insert(to, pop(from))`: the elements from `to` on make room. */
  method MoveForward<T>(candidates: array<T>, from: nat, to: nat)
    requires to <= from < candidates.Length
    modifies candidates
    ensures candidates[..] == Moved(old(candidates[..]), from, to)
  {
    var moved := candidates[from];
    forall k | to < k <= from {
      candidates[k] := candidates[k - 1];
    }
    candidates[to] := moved;
  }

  method PreferNextProvider<T, B(==)>(candidates: array<T>, failed: nat, provider: T -> string, billing: T -> B)
    modifies candidates
    ensures candidates[..] == Preferred(old(candidates[..]), failed, provider, billing)
  {
    if failed + 1 >= candidates.Length {
      return;
    }
    ghost var s := candidates[..];
    var category := billing(candidates[failed + 1]);
    var failedProvider := provider(candidates[failed]);
    for index := failed + 1 to candidates.Length
      invariant candidates[..] == s
      invariant FirstOther(s, failed, failed + 1, provider, billing) == FirstOther(s, failed, index, provider, billing)
    {
      if billing(candidates[index]) != category {
        break;
      }
      if provider(candidates[index]) != failedProvider {
        MoveForward(candidates, index, failed + 1);
        return;
      }
    }
  }

  /** `k` continues the run of one billing category that starts right after the failed candidate. */
  ghost predicate InNextRun<T, B>(s: seq<T>, failed: nat, k: nat, billing: T -> B) {
    failed < k < |s| && forall j :: failed < j <= k ==> billing(s[j]) == billing(s[failed + 1])
  }

  lemma {:induction false} FirstOtherIsFirst<T, B>(
      s: seq<T>, failed: nat, k: nat, provider: T -> string, billing: T -> B)
    requires failed + 1 < |s| && failed < k <= |s|
    requires forall j :: failed < j < k ==>
        billing(s[j]) == billing(s[failed + 1]) && provider(s[j]) == provider(s[failed])
    ensures var r := FirstOther(s, failed, k, provider, billing);
            if r < |s| then
              && InNextRun(s, failed, r, billing) && provider(s[r]) != provider(s[failed])
              && forall j :: failed < j < r ==> provider(s[j]) == provider(s[failed])
            else
              forall j: nat :: InNextRun(s, failed, j, billing) ==> provider(s[j]) == provider(s[failed])
    decreases |s| - k
  {
    if k < |s| && billing(s[k]) == billing(s[failed + 1]) && provider(s[k]) == provider(s[failed]) {
      FirstOtherIsFirst(s, failed, k + 1, provider, billing);
    }
  }

  /** After a failure the next candidate has a different provider exactly when the next
      category's run contains one; otherwise nothing moves. */
  lemma {:induction false} NextProviderDiffers<T, B>(s: seq<T>, failed: nat, provider: T -> string, billing: T -> B)
    requires failed + 1 < |s|
    ensures var r := Preferred(s, failed, provider, billing);
            && |r| == |s|
            && (provider(r[failed + 1]) != provider(s[failed])
                <==> exists k: nat :: InNextRun(s, failed, k, billing) && provider(s[k]) != provider(s[failed]))
            && (provider(r[failed + 1]) == provider(s[failed]) ==> r == s)
  {
    FirstOtherIsFirst(s, failed, failed + 1, provider, billing);
    var r := Preferred(s, failed, provider, billing);
    if r == s {
      if provider(s[failed + 1]) != provider(s[failed]) {
        assert InNextRun(s, failed, failed + 1, billing);
      }
    }
  }

  /** `k` is the first candidate of another provider in the next category's run. */
  ghost predicate NextOther<T, B>(s: seq<T>, failed: nat, k: nat, provider: T -> string, billing: T -> B) {
    && InNextRun(s, failed, k, billing) && provider(s[k]) != provider(s[failed])
    && forall j :: failed < j < k ==> provider(s[j]) == provider(s[failed])
  }

  lemma NextOtherIsFound<T, B>(s: seq<T>, failed: nat, k: nat, provider: T -> string, billing: T -> B)
    requires failed + 1 < |s| && NextOther(s, failed, k, provider, billing)
    ensures FirstOther(s, failed, failed + 1, provider, billing) == k
  {
    FirstOtherIsFirst(s, failed, failed + 1, provider, billing);
  }

  /** Exactly what moves: that candidate comes right after the failed one, those it passes each move
      up by one, and every other one stays where it is. */
  lemma NextOtherMoves<T, B>(s: seq<T>, failed: nat, k: nat, provider: T -> string, billing: T -> B)
    requires failed + 1 < |s| && NextOther(s, failed, k, provider, billing)
    ensures var r := Preferred(s, failed, provider, billing);
            && |r| == |s| && r[failed + 1] == s[k]
            && (forall j :: failed + 1 < j <= k ==> r[j] == s[j - 1])
            && (forall j :: 0 <= j < |s| && !(failed < j <= k) ==> r[j] == s[j])
  {
    hide FirstOther, NextOther;
    NextOtherIsFound(s, failed, k, provider, billing);
    assert k < |s| && failed < k by { NextOtherInside(s, failed, k, provider, billing); }
  }

  lemma NextOtherInside<T, B>(s: seq<T>, failed: nat, k: nat, provider: T -> string, billing: T -> B)
    requires NextOther(s, failed, k, provider, billing)
    ensures failed < k < |s|
  {
  }

  /** The candidate after `j` has another provider, unless its category's run has none. */
  ghost predicate Diverse<T, B>(s: seq<T>, j: nat, provider: T -> string, billing: T -> B)
    requires j + 1 < |s|
  {
    || provider(s[j + 1]) != provider(s[j])
    || forall k: nat {:trigger InNextRun(s, j, k, billing)} ::
         InNextRun(s, j, k, billing) ==> provider(s[k]) == provider(s[j])
  }

  /** A failure at `j` makes the list diverse there. */
  lemma PreferredIsDiverse<T, B>(s: seq<T>, j: nat, provider: T -> string, billing: T -> B)
    requires j + 1 < |s|
    ensures var r := Preferred(s, j, provider, billing);
            |r| == |s| && Diverse(r, j, provider, billing)
  {
    NextProviderDiffers(s, j, provider, billing);
    PreferenceKeepsCategories(s, j, provider, billing);
  }

  lemma MovedStaysInRun<T, B>(s: seq<T>, from: nat, to: nat, j: nat, k: nat, billing: T -> B)
    requires j < to <= from < |s| && j < k < |s|
    requires forall q :: to <= q <= from ==> billing(s[q]) == billing(s[to])
    requires InNextRun(Moved(s, from, to), j, k, billing)
    ensures exists was: nat :: InNextRun(s, j, was, billing) && Moved(s, from, to)[k] == s[was]
  {
    var r := Moved(s, from, to);
    var was := if k < to || k > from then k else if k == to then from else k - 1;
    assert r[k] == s[was];
    forall q | j < q <= was ensures billing(s[q]) == billing(s[j + 1]) {
      SameBilling(s, from, to, q, billing);
      SameBilling(s, from, to, j + 1, billing);
      if q <= k {
        assert billing(r[q]) == billing(r[j + 1]);
      } else {
        SameBilling(s, from, to, k, billing);
        assert billing(r[k]) == billing(r[j + 1]);
      }
    }
    assert InNextRun(s, j, was, billing);
  }

  lemma SameBilling<T, B>(s: seq<T>, from: nat, to: nat, q: nat, billing: T -> B)
    requires to <= from < |s| && q < |s|
    requires forall q :: to <= q <= from ==> billing(s[q]) == billing(s[to])
    ensures billing(Moved(s, from, to)[q]) == billing(s[q])
  {
    var r := Moved(s, from, to);
    if q < to || q > from {
      assert r[q] == s[q];
    } else if q == to {
      assert r[q] == s[from];
    } else {
      assert r[q] == s[q - 1];
    }
  }

  /** Later failures leave it diverse there. */
  lemma DiversityStays<T, B>(s: seq<T>, j: nat, i: nat, provider: T -> string, billing: T -> B)
    requires j < i && j + 1 < |s| && Diverse(s, j, provider, billing)
    ensures var r := Preferred(s, i, provider, billing);
            |r| == |s| && Diverse(r, j, provider, billing)
  {
    if i + 1 < |s| {
      var from := PreferredMoves(s, i, provider, billing);
      MaybeMovedIsDiverse(s, Preferred(s, i, provider, billing), from, i, j, provider, billing);
    }
  }

  lemma MaybeMovedIsDiverse<T, B>(
      s: seq<T>, r: seq<T>, from: nat, i: nat, j: nat, provider: T -> string, billing: T -> B)
    requires j < i && i + 1 < |s| && Diverse(s, j, provider, billing)
    requires r == s || (i < from < |s| && r == Moved(s, from, i + 1) && InNextRun(s, i, from, billing))
    ensures |r| == |s| && Diverse(r, j, provider, billing)
  {
    if r != s {
      MovedIsDiverse(s, from, i, i + 1, j, provider, billing);
    }
  }

  lemma PreferredMoves<T, B>(s: seq<T>, i: nat, provider: T -> string, billing: T -> B) returns (from: nat)
    requires i + 1 < |s|
    ensures var r := Preferred(s, i, provider, billing);
            r == s || (i < from < |s| && r == Moved(s, from, i + 1) && InNextRun(s, i, from, billing))
  {
    FirstOtherIsFirst(s, i, i + 1, provider, billing);
    from := FirstOther(s, i, i + 1, provider, billing);
  }

  lemma MovedIsDiverse<T, B>(s: seq<T>, from: nat, i: nat, to: nat, j: nat, provider: T -> string, billing: T -> B)
    requires j < i < to == i + 1 <= from < |s| && Diverse(s, j, provider, billing)
    requires InNextRun(s, i, from, billing)
    ensures Diverse(Moved(s, from, to), j, provider, billing)
  {
    var r := Moved(s, from, to);
    assert r[j] == s[j] && r[j + 1] == s[j + 1];
    if provider(s[j + 1]) == provider(s[j]) {
      forall k: nat | InNextRun(r, j, k, billing) ensures provider(r[k]) == provider(r[j]) {
        MovedStaysInRun(s, from, to, j, k, billing);
      }
    }
  }

  /** Only candidates after the failed one move, none is added, dropped or duplicated, and the
      billing category at every position stays what it was. */
  lemma {:induction false} PreferenceKeepsCategories<T, B>(
      s: seq<T>, failed: nat, provider: T -> string, billing: T -> B)
    ensures var r := Preferred(s, failed, provider, billing);
            && |r| == |s| && multiset(r) == multiset(s)
            && (forall j :: 0 <= j <= failed && j < |s| ==> r[j] == s[j])
            && (forall j :: 0 <= j < |s| ==> billing(r[j]) == billing(s[j]))
  {
    if failed + 1 < |s| {
      FirstOtherIsFirst(s, failed, failed + 1, provider, billing);
      var k := FirstOther(s, failed, failed + 1, provider, billing);
      if k < |s| {
        MovedPermutes(s, k, failed + 1);
        var r := Moved(s, k, failed + 1);
        assert billing(r[failed + 1]) == billing(s[failed + 1]);
        forall j | failed + 1 < j <= k ensures billing(r[j]) == billing(s[j]) {
          assert r[j] == s[j - 1];
        }
      }
    }
  }

  lemma MovedPermutes<T>(s: seq<T>, from: nat, to: nat)
    requires to <= from < |s|
    ensures multiset(Moved(s, from, to)) == multiset(s)
  {
    assert s == s[..to] + s[to..from] + [s[from]] + s[from + 1..];
  }

  // ----- reserving room for different providers

  ghost predicate Increasing(idx: seq<nat>, n: nat) {
    && (forall i :: 0 <= i < |idx| ==> idx[i] < n)
    && (forall i, j :: 0 <= i < j < |idx| ==> idx[i] < idx[j])
  }

  function Pick<T>(s: seq<T>, idx: seq<nat>): (r: seq<T>)
    requires forall i :: 0 <= i < |idx| ==> idx[i] < |s|
    ensures |r| == |idx|
  {
    seq(|idx|, i requires 0 <= i < |idx| => s[idx[i]])
  }

  /** The providers of the first `n` candidates. */
  function Providers<T>(s: seq<T>, provider: T -> string, n: nat): set<string>
    requires n <= |s|
  {
    if n == 0 then {} else Providers(s, provider, n - 1) + {provider(s[n - 1])}
  }

  /** The providers at the first `n` chosen positions. */
  function Chosen<T>(s: seq<T>, idx: seq<nat>, provider: T -> string, n: nat): set<string>
    requires n <= |idx| && forall i :: 0 <= i < n ==> idx[i] < |s|
  {
    if n == 0 then {} else Chosen(s, idx, provider, n - 1) + {provider(s[idx[n - 1]])}
  }

  /** A choice of positions with the size and the number of distinct providers the source
      promises: as many candidates as fit, from as many providers as fit. */
  ghost predicate Reservation<T>(category: seq<T>, budget: int, provider: T -> string, idx: seq<nat>) {
    && Increasing(idx, |category|)
    && |idx| == Min(Max(budget, 0), |category|)
    && |Chosen(category, idx, provider, |idx|)|
       == Min(Max(budget, 0), |Providers(category, provider, |category|)|)
  }

  /** Lexicographic order on equally long position lists. */
  predicate LexLe(a: seq<nat>, b: seq<nat>)
    requires |a| == |b|
  {
    |a| == 0 || a[0] < b[0] || (a[0] == b[0] && LexLe(a[1..], b[1..]))
  }

  /** The slots used and the providers seen when the source's loop reaches candidate `k`. */
  function Used<T>(category: seq<T>, budget: int, provider: T -> string, k: nat): (n: nat)
    requires k <= |category|
    ensures n <= k
    decreases k, 0
  {
    if k == 0 then 0
    else Used(category, budget, provider, k - 1) + if Takes(category, budget, provider, k - 1) then 1 else 0
  }

  function Seen<T>(category: seq<T>, budget: int, provider: T -> string, k: nat): set<string>
    requires k <= |category|
    decreases k, 0
  {
    if k == 0 then {}
    else if Takes(category, budget, provider, k - 1) then
      Seen(category, budget, provider, k - 1) + {provider(category[k - 1])}
    else Seen(category, budget, provider, k - 1)
  }

  /** Candidate `k` gets a slot, unless the budget is spent, or its provider is already chosen
      and every remaining slot is owed to a provider not seen yet. */
  predicate Takes<T>(category: seq<T>, budget: int, provider: T -> string, k: nat)
    requires k < |category|
    decreases k, 1
  {
    var used := Used(category, budget, provider, k);
    var seen := Seen(category, budget, provider, k);
    && used < budget
    && !(provider(category[k]) in seen && budget - used <= |Providers(category, provider, |category|) - seen|)
  }

  /** The positions chosen among the first `k` candidates. */
  function Positions<T>(category: seq<T>, budget: int, provider: T -> string, k: nat): (idx: seq<nat>)
    requires k <= |category|
    ensures |idx| == Used(category, budget, provider, k) && forall i :: 0 <= i < |idx| ==> idx[i] < k
  {
    if k == 0 then []
    else if Takes(category, budget, provider, k - 1) then Positions(category, budget, provider, k - 1) + [k - 1]
    else Positions(category, budget, provider, k - 1)
  }

  function Reserved<T>(category: seq<T>, budget: int, provider: T -> string): (idx: seq<nat>)
    ensures forall i :: 0 <= i < |idx| ==> idx[i] < |category|
  {
    Positions(category, budget, provider, |category|)
  }

  /** One pass over the category: a candidate is passed over when its slot is owed to a provider
      that has none yet. */
  method ReserveProviderCandidates<T>(category: seq<T>, budget: int, provider: T -> string) returns (selected: seq<T>)
    ensures selected == Pick(category, Reserved(category, budget, provider))
  {
    selected := [];
    var seen: set<string> := {};
    var providers := Providers(category, provider, |category|);
    for k := 0 to |category|
      invariant selected == Pick(category, Positions(category, budget, provider, k))
      invariant seen == Seen(category, budget, provider, k)
    {
      var model := category[k];
      if |selected| >= budget {
        NothingAfterBudget(category, budget, provider, k, |category|);
        return;
      }
      if provider(model) in seen && budget - |selected| <= |providers - seen| {
        continue;
      }
      selected := selected + [model];
      seen := seen + {provider(model)};
    }
  }

  lemma {:induction false} NothingAfterBudget<T>(category: seq<T>, budget: int, provider: T -> string, k: nat, n: nat)
    requires k <= n <= |category| && Used(category, budget, provider, k) >= budget
    ensures Positions(category, budget, provider, n) == Positions(category, budget, provider, k)
    decreases n
  {
    if k < n {
      NothingAfterBudget(category, budget, provider, k, n - 1);
      assert Used(category, budget, provider, n - 1) >= budget;
    }
  }

  lemma SubsetSize<A>(a: set<A>, b: set<A>)
    requires a <= b
    ensures |a| <= |b| && |b - a| == |b| - |a|
  {
    assert b == a + (b - a);
  }

  lemma UnionSize<A>(a: set<A>, b: set<A>)
    ensures |a + b| <= |a| + |b|
  {
    assert a + b == a + (b - a);
    SubsetSize(b - a, b);
  }

  lemma {:induction false} ProviderOccurs<T>(s: seq<T>, provider: T -> string, n: nat, p: string)
    requires n <= |s|
    ensures p in Providers(s, provider, n) <==> exists i :: 0 <= i < n && provider(s[i]) == p
  {
    if n > 0 {
      ProviderOccurs(s, provider, n - 1, p);
    }
  }

  lemma {:induction false} ChosenAgree<T>(s: seq<T>, a: seq<nat>, b: seq<nat>, provider: T -> string, n: nat)
    requires n <= |a| && n <= |b| && forall i :: 0 <= i < n ==> a[i] == b[i] < |s|
    ensures Chosen(s, a, provider, n) == Chosen(s, b, provider, n)
  {
    if n > 0 {
      ChosenAgree(s, a, b, provider, n - 1);
    }
  }

  lemma ChosenSnoc<T>(s: seq<T>, idx: seq<nat>, provider: T -> string, k: nat)
    requires k < |s| && forall i :: 0 <= i < |idx| ==> idx[i] < |s|
    ensures Chosen(s, idx + [k], provider, |idx| + 1) == Chosen(s, idx, provider, |idx|) + {provider(s[k])}
  {
    ChosenAgree(s, idx + [k], idx, provider, |idx|);
  }

  /** Slots from `k` on add at most one provider each. */
  lemma {:induction false} ChosenGrow<T>(s: seq<T>, idx: seq<nat>, provider: T -> string, k: nat, n: nat)
    requires k <= n <= |idx| && forall i :: 0 <= i < n ==> idx[i] < |s|
    ensures |Chosen(s, idx, provider, n)| <= |Chosen(s, idx, provider, k)| + (n - k)
    decreases n
  {
    if k < n {
      ChosenGrow(s, idx, provider, k, n - 1);
      UnionSize(Chosen(s, idx, provider, n - 1), {provider(s[idx[n - 1]])});
    }
  }

  lemma {:induction false} ChosenAreProviders<T>(s: seq<T>, idx: seq<nat>, provider: T -> string, n: nat)
    requires n <= |idx| && forall i :: 0 <= i < n ==> idx[i] < |s|
    ensures Chosen(s, idx, provider, n) <= Providers(s, provider, |s|)
  {
    if n > 0 {
      ChosenAreProviders(s, idx, provider, n - 1);
      ProviderOccurs(s, provider, |s|, provider(s[idx[n - 1]]));
    }
  }

  lemma OwedAfter(all: set<string>, seen: set<string>, p: string)
    requires p in all
    ensures |seen + {p}| == |seen| + if p in seen then 0 else 1
    ensures |all - (seen + {p})| == |all - seen| - if p in seen then 0 else 1
  {
    if p in seen {
      assert seen + {p} == seen;
    } else {
      assert all - (seen + {p}) == (all - seen) - {p};
    }
  }

  /** While slots are left no provider has been lost. */
  lemma {:induction false} NoProviderLost<T>(category: seq<T>, budget: int, provider: T -> string, k: nat)
    requires k <= |category|
    ensures var seen := Seen(category, budget, provider, k);
            && Used(category, budget, provider, k) <= Max(budget, 0)
            && seen <= Providers(category, provider, |category|)
            && (Used(category, budget, provider, k) < budget ==> seen == Providers(category, provider, k))
  {
    if k > 0 {
      NoProviderLost(category, budget, provider, k - 1);
      var p := provider(category[k - 1]);
      ProviderOccurs(category, provider, |category|, p);
    }
  }

  /** Either every slot so far went to a new provider, or the slots left are enough for all
      providers still unseen; and once a candidate is skipped every slot is owed. */
  lemma {:induction false} SlotsAndProviders<T>(category: seq<T>, budget: int, provider: T -> string, k: nat)
    requires k <= |category|
    ensures var used := Used(category, budget, provider, k);
            var seen := Seen(category, budget, provider, k);
            var owed := |Providers(category, provider, |category|) - seen|;
            && (used == k || budget - used <= owed)
            && (used == |seen| || budget - used >= owed)
  {
    if k > 0 {
      SlotsAndProviders(category, budget, provider, k - 1);
      var p := provider(category[k - 1]);
      ProviderOccurs(category, provider, |category|, p);
      OwedAfter(Providers(category, provider, |category|), Seen(category, budget, provider, k - 1), p);
    }
  }

  /** Earlier positions are a prefix of later ones, and what is added later lies later. */
  lemma {:induction false} PositionsExtend<T>(category: seq<T>, budget: int, provider: T -> string, k: nat, n: nat)
    requires k <= n <= |category|
    ensures var a := Positions(category, budget, provider, k);
            var b := Positions(category, budget, provider, n);
            && |a| <= |b|
            && (forall i :: 0 <= i < |a| ==> b[i] == a[i])
            && (forall i :: |a| <= i < |b| ==> k <= b[i])
    decreases n
  {
    if k < n {
      PositionsExtend(category, budget, provider, k, n - 1);
    }
  }

  lemma {:induction false} PositionsIncrease<T>(category: seq<T>, budget: int, provider: T -> string, k: nat)
    requires k <= |category|
    ensures Increasing(Positions(category, budget, provider, k), k)
  {
    if k > 0 {
      PositionsIncrease(category, budget, provider, k - 1);
    }
  }

  lemma {:induction false} SeenIsChosen<T>(category: seq<T>, budget: int, provider: T -> string, k: nat)
    requires k <= |category|
    ensures var idx := Positions(category, budget, provider, k);
            Seen(category, budget, provider, k) == Chosen(category, idx, provider, |idx|)
  {
    hide Takes;
    if k > 0 {
      SeenIsChosen(category, budget, provider, k - 1);
      var front := Positions(category, budget, provider, k - 1);
      if Takes(category, budget, provider, k - 1) {
        ChosenSnoc(category, front, provider, k - 1);
      }
    }
  }

  /** The reservation has the promised size and covers the promised number of providers. */
  lemma ReservationCovers<T>(category: seq<T>, budget: int, provider: T -> string)
    ensures Reservation(category, budget, provider, Reserved(category, budget, provider))
  {
    var n := |category|;
    var idx := Reserved(category, budget, provider);
    NoProviderLost(category, budget, provider, n);
    SlotsAndProviders(category, budget, provider, n);
    SubsetSize(Seen(category, budget, provider, n), Providers(category, provider, n));
    SeenIsChosen(category, budget, provider, n);
    ChosenGrow(category, idx, provider, 0, |idx|);
    PositionsIncrease(category, budget, provider, n);
  }

  lemma UsedBefore<T>(category: seq<T>, budget: int, provider: T -> string, c: nat, j: nat)
    requires var idx := Reserved(category, budget, provider);
             c < |idx| && j < idx[c] && (c > 0 ==> idx[c - 1] < j)
    ensures Used(category, budget, provider, j) == c && !Takes(category, budget, provider, j)
  {
    PositionsExtend(category, budget, provider, j, |category|);
    PositionsExtend(category, budget, provider, j + 1, |category|);
  }

  /** A position lying below choice `c` and above choice `c - 1` was reached with exactly the
      first `c` choices made, and refused. */
  lemma SkippedBecause<T>(category: seq<T>, budget: int, provider: T -> string, c: nat, j: nat)
    requires var idx := Reserved(category, budget, provider);
             c < |idx| && j < idx[c] && (c > 0 ==> idx[c - 1] < j)
    ensures Used(category, budget, provider, j) == c && !Takes(category, budget, provider, j)
    ensures Seen(category, budget, provider, j) == Chosen(category, Reserved(category, budget, provider), provider, c)
  {
    UsedBefore(category, budget, provider, c, j);
    SeenIsChosen(category, budget, provider, j);
    PositionsExtend(category, budget, provider, j, |category|);
    var front := Positions(category, budget, provider, j);
    ChosenAgree(category, Reserved(category, budget, provider), front, provider, c);
  }

  /** No choice that first departs from the greedy one at an earlier position can still reach
      the promised number of providers: it wastes a slot on a provider it already has. */
  lemma EarlierChoiceLosesAProvider<T>(
      category: seq<T>, budget: int, provider: T -> string, other: seq<nat>, k: nat)
    requires Reservation(category, budget, provider, other)
    requires var idx := Reserved(category, budget, provider);
             |other| == |idx| && k < |idx| && forall i :: 0 <= i < k ==> other[i] == idx[i]
    ensures Reserved(category, budget, provider)[k] <= other[k]
  {
    var idx := Reserved(category, budget, provider);
    if other[k] < idx[k] {
      SkippedBecause(category, budget, provider, k, other[k]);
      NoProviderLost(category, budget, provider, |category|);
      NoProviderLost(category, budget, provider, other[k]);
      ChosenAgree(category, idx, other, provider, k);
      var seen := Seen(category, budget, provider, other[k]);
      assert seen + {provider(category[other[k]])} == seen;
      WastedSlot(category, budget, provider, other, k, seen);
      assert false;
    }
  }

  lemma WastedSlot<T>(category: seq<T>, budget: int, provider: T -> string, other: seq<nat>, k: nat, seen: set<string>)
    requires k < |other| <= budget && Increasing(other, |category|)
    requires seen == Chosen(category, other, provider, k) == Chosen(category, other, provider, k + 1)
    requires budget - k <= |Providers(category, provider, |category|) - seen|
    ensures !Reservation(category, budget, provider, other)
  {
    ChosenGrow(category, other, provider, k + 1, |other|);
    ChosenGrow(category, other, provider, 0, k);
    ChosenAreProviders(category, other, provider, k);
    SubsetSize(seen, Providers(category, provider, |category|));
  }

  lemma {:induction false} ReservationIsEarliestFrom<T>(
      category: seq<T>, budget: int, provider: T -> string, other: seq<nat>, k: nat)
    requires Reservation(category, budget, provider, other)
    requires var idx := Reserved(category, budget, provider);
             |other| == |idx| && k <= |idx| && forall i :: 0 <= i < k ==> other[i] == idx[i]
    ensures LexLe(Reserved(category, budget, provider)[k..], other[k..])
    decreases |other| - k
  {
    var idx := Reserved(category, budget, provider);
    if k < |idx| {
      EarlierChoiceLosesAProvider(category, budget, provider, other, k);
      if other[k] == idx[k] {
        ReservationIsEarliestFrom(category, budget, provider, other, k + 1);
        assert idx[k..][1..] == idx[k + 1..] && other[k..][1..] == other[k + 1..];
      }
    }
  }

  /** Of all selections with the promised size and provider coverage, the reservation takes
      the lexicographically earliest positions, and it is the only one that does. */
  lemma ReservationIsEarliest<T>(category: seq<T>, budget: int, provider: T -> string, other: seq<nat>)
    requires Reservation(category, budget, provider, other)
    ensures var idx := Reserved(category, budget, provider);
            && |idx| == |other| && LexLe(idx, other)
            && (LexLe(other, idx) ==> other == idx)
  {
    var idx := Reserved(category, budget, provider);
    ReservationCovers(category, budget, provider);
    ReservationIsEarliestFrom(category, budget, provider, other, 0);
    assert idx[0..] == idx && other[0..] == other;
    if LexLe(other, idx) {
      LexAntisymmetric(other, idx);
    }
  }

  lemma {:induction false} LexAntisymmetric(a: seq<nat>, b: seq<nat>)
    requires |a| == |b| && LexLe(a, b) && LexLe(b, a)
    ensures a == b
  {
    if a != [] {
      LexAntisymmetric(a[1..], b[1..]);
      assert a == [a[0]] + a[1..] && b == [b[0]] + b[1..];
    }
  }
}
