/** The executor and the cooldown table together: a run's own failures keep it from opening the
    routes that they cool down. */
module RoutingSafety {
  import opened Common
  import opened Failures
  import opened Execution
  import opened ExecutionSafety
  import opened RouteBudget
  import Cooldowns

  /** The table during an execution.  `history` is all that happens to it after `start` was
      loaded, by this execution and by others; the turn at position `j` looks after `seen(j)` of
      these events, at time `clock(j)`; and the failure recorded by call `k` of the execution is
      event `recorded(k)`. */
  datatype World = World(
    scopeOf: string -> string,
    modelOf: Target -> Cooldowns.FreeModel,
    start: Cooldowns.Table,
    history: seq<Cooldowns.Event>,
    seen: nat -> nat,
    clock: nat -> real,
    recorded: nat -> nat)

  function ScopeOf(w: World, t: Target): string { w.scopeOf(t.provider) }

  /** What position `j`'s turn learns about cooldowns is what the table says at its time. */
  ghost predicate TurnLooks(w: World, turn: Turn, j: nat, t: Target) {
    && Cooldowns.Past(w.history, w.seen(j), w.clock(j))
    && (turn.cooling <==>
          Cooldowns.Cooldown(Cooldowns.TableAfter(w.start, w.history, w.seen(j)), ScopeOf(w, t), w.modelOf(t),
              w.clock(j)).Some?)
  }

  /** Call `k`, a failure that affects availability, is an event of the history. */
  ghost predicate IsRecorded(w: World, log: seq<Call>, k: nat) {
    && k < |log| && log[k].Failing? && w.recorded(k) < |w.history|
    && var e := w.history[w.recorded(k)];
       e.Failed? && e.scope == ScopeOf(w, log[k].target) && e.model == w.modelOf(log[k].target) &&
           e.failure == log[k].failure
  }

  /** An opened candidate was not cooling down at its turn. */
  lemma OpenedIsNotCooling(
      route: Route, turns: nat -> Turn, candidates: seq<Target>, st: Progress, patience: nat, m: nat)
    requires var log := Execute(route, turns, candidates, st, patience).st.log;
             |st.log| <= m < |log| && log[m].Attempt? && IsFree(route, log[m].target)
    ensures !turns(Execute(route, turns, candidates, st, patience).st.log[m].index).cooling
  {
    var e := Execute(route, turns, candidates, st, patience);
    var j := e.st.log[m].index;
    EachCandidateOnce(route, turns, candidates, st, patience);
    NothingForgotten(route, turns, candidates, st, patience, j);
    var m': nat :| Considered(route, turns, st, e, j, m');
    OneOpening(e.st.log, |st.log|, j, m, m');
  }

  lemma OneOpening(log: seq<Call>, from: nat, j: nat, m: nat, m': nat)
    requires from <= m < |log| && log[m].Attempt? && log[m].index == j && TurnComesAt(log, from, j, m')
    requires forall k, n :: from <= k < n < |log| && log[k].Attempt? && log[n].Attempt? ==> log[k].index < log[n].index
    ensures m == m'
  {
  }

  /** Once an execution has recorded a failure, it opens no later candidate that looks up the
      failure's key before the failure's deadline, unless the entry is cleared or overwritten in
      the meantime; only the free daily quota does not stop routes that are not free. */
  lemma NoOpeningDuringCooldown(
      route: Route, turns: nat -> Turn, candidates: seq<Target>, st: Progress, patience: nat, w: World, k: nat, m: nat)
    requires var log := Execute(route, turns, candidates, st, patience).st.log;
             && |st.log| <= k < m < |log| && IsRecorded(w, log, k)
             && log[m].Attempt? && IsFree(route, log[m].target)
             && TurnLooks(w, turns(log[m].index), log[m].index, log[m].target)
             && Cooldowns.Latest(w.history, w.recorded(k), w.seen(log[m].index))
             && Cooldowns.Touched(w.history[w.recorded(k)])
                in Cooldowns.LookupKeys(ScopeOf(w, log[m].target), w.modelOf(log[m].target))
    ensures var log := Execute(route, turns, candidates, st, patience).st.log;
            var failed := w.history[w.recorded(k)];
            var penalty := Cooldowns.PenaltyOf(failed);
            || w.clock(log[m].index) >= failed.at + penalty.seconds
            || (w.modelOf(log[m].target).Billing() != "free" && penalty.reason == Cooldowns.DailyQuotaExhausted)
  {
    var log := Execute(route, turns, candidates, st, patience).st.log;
    var j, u, i := log[m].index, log[m].target, w.recorded(k);
    OpenedIsNotCooling(route, turns, candidates, st, patience, m);
    if Cooldowns.Blocks(Cooldowns.Stored(w.history[i]), w.modelOf(u), w.clock(j)) {
      Cooldowns.EntryStaysInForce(w.start, w.history, i, w.seen(j), ScopeOf(w, u), w.modelOf(u), w.clock(j));
    }
  }

  /** A failure of a free route that is not about its model only is looked up by every route of
      its provider, so none of them is opened before the deadline. */
  lemma ProviderWideKey(w: World, t: Target, failed: Cooldowns.Event, u: Target)
    requires failed.Failed? && failed.scope == ScopeOf(w, t) && t.provider == u.provider
    requires failed.model.Billing() == "free" && !Cooldowns.PenaltyOf(failed).perModel
    ensures Cooldowns.Touched(failed) in Cooldowns.LookupKeys(ScopeOf(w, u), w.modelOf(u))
  {
    assert Cooldowns.Touched(failed) == Cooldowns.LookupKeys(ScopeOf(w, u), w.modelOf(u))[0];
  }
}
