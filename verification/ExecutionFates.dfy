/** What becomes of every candidate that an execution opens, read from what the world did in its
    turn: what is recorded of it, whether the next candidate is tried, and how the execution
    ends. */
module ExecutionFates {
  import opened Common
  import opened Failures
  import opened FreeStream
  import opened LineFraming
  import opened RouteBudget
  import opened Execution
  import opened ExecutionSafety

  /** A candidate fails, which counts against its provider or not; or the execution ends with it. */
  datatype Fate = Fails(failure: Failure, affects: bool) | Ends(outcome: Outcome)

  // ----- the fate of one turn

  /** A failure that is raised, rather than reported, inside the executor: automatic mode treats
      it as the candidate's. */
  function RaisedFate(route: Route, failure: Failure): Fate {
    if route.pooled then Fails(failure, true) else Ends(Escaping(EscapedFailure(failure)))
  }

  /** An application error, in automatic mode, is a failure of the candidate; it counts against the
      provider unless it says that the request itself is invalid. */
  function RefusalFate(route: Route, error: AppError): Fate {
    if route.pooled then Fails(Plain(error.kind, error.status, error.message), error.kind != InvalidRequest)
    else Ends(Escaping(EscapedRefusal(error)))
  }

  /** Automatic routing has selected this route: its stream is checked and its outcome recorded. */
  predicate Watched(route: Route, target: Target) { route.pooled && target.ref in route.billing }

  /** A chunk of a free route that the check refuses, or that takes the unshown text over 2 MiB;
      any other chunk only stops a consumer that has enough. */
  function ChunkFate(route: Route, target: Target, events: seq<Event>, n: nat): Fate
    requires n < |events|
  {
    if !Watched(route, target) then Ends(Closed)
    else
      match VerdictOn(route, target, events, n + 1).error
      case Some(Raised(failure)) => Fails(failure, true)
      case Some(TypeError) => Ends(Escaping(Broke))
      case None =>
        if !Shown(route, target, events, n) && |Text(events, n + 1)| > 0x200000
        then Fails(Plain(Upstream, 502, "Provider sent too much stream metadata before output."), true)
        else Ends(Closed)
  }

  /** A stream that is read up to event `n`; to its end when there is no such event. */
  function StreamFate(route: Route, target: Target, events: seq<Event>, n: nat): Fate
    requires n <= |events|
  {
    if n == |events| then
      if Watched(route, target) && !VerdictOn(route, target, events, n).state.complete
      then Fails(Plain(Upstream, 502, "Provider ended without a complete response."), true)
      else Ends(Returned)
    else
      match events[n]
      case Chunk(_) => ChunkFate(route, target, events, n)
      case ReadFailed(failure) => Fails(failure, true)
      case ReadRefused(error) => RefusalFate(route, error)
      case Stalled => RaisedFate(route, Plain(Timeout, 504, "Provider execution made no progress."))
      case ReadBroken => Ends(Escaping(Broke))
  }

  /** Closing the stream of a candidate that failed or came to its end may itself time out. */
  function ClosedFate(stalls: bool, fate: Fate): Fate {
    if stalls && (fate.Fails? || fate.outcome.Returned?)
    then Ends(Escaping(EscapedFailure(Plain(Timeout, 504, "Provider execution made no progress."))))
    else fate
  }

  function TurnFate(route: Route, turn: Turn, target: Target, patience: nat): Fate {
    match turn.opening
    case OpenFailed(failure) => Fails(failure, true)
    case OpenRefused(error) => RefusalFate(route, error)
    case OpenBroken => Ends(Escaping(Broke))
    case Opened(events) =>
      ClosedFate(turn.closeStalls, StreamFate(route, target, events, TurnStop(route, turn, target, patience)))
  }

  /** The same said of how the reading ends. */
  predicate Matches(ending: Ending, fate: Fate) {
    match ending
    case Completed => fate == Ends(Returned)
    case Failed(failure, local) => fate == Fails(failure, !local)
    case Escaped(escape) => fate == Ends(Escaping(escape))
    case Abandoned => fate == Ends(Closed)
  }

  /** What the reading has come to; a route that is not free passes on every nonempty chunk. */
  ghost predicate ReadsOn(route: Route, target: Target, events: seq<Event>, n: nat, r: Reading) {
    && Accounted(route, target, events, n, r)
    && if IsFree(route, target) then Checked(route, target, events, n, r)
       else r.yielded == Chunks(events, n) && (r.committed <==> r.yielded != [])
  }

  predicate FateOf(route: Route, target: Target, events: seq<Event>, n: nat, last: Reading, ending: Ending) {
    && n <= |events| && Matches(ending, StreamFate(route, target, events, n))
    && (!IsFree(route, target) && !ending.Abandoned? ==> (last.committed <==> Chunks(events, n) != []))
  }

  ghost predicate StepReadsOn(route: Route, target: Target, events: seq<Event>, n: nat, step: ReadStep) {
    match step
    case Continue(next) => ReadsOn(route, target, events, n + 1, next)
    case Finish(last, ending) => FateOf(route, target, events, n, last, ending)
  }

  lemma CheckedFate(
      route: Route, target: Target, events: seq<Event>, n: nat, r: Reading, data: Bytes, fed: FreeStream.Result)
    requires n < |events| && events[n] == Chunk(data) && IsFree(route, target)
    requires ReadsOn(route, target, events, n, r) && VerdictOn(route, target, events, n + 1) == fed
    ensures var step := OnChecked(route, r, data, fed);
            step.Finish? ==> Matches(step.ending, ChunkFate(route, target, events, n))
  {
    assert VerdictOn(route, target, events, n + 1).error == fed.error;
    assert Text(events, n + 1) == Text(events, n) + data;
    if !r.committed {
      assert Flatten(r.yielded) + r.pending == r.pending;
    }
  }

  lemma ChunkFates(route: Route, target: Target, events: seq<Event>, n: nat, r: Reading, data: Bytes)
    requires n < |events| && events[n] == Chunk(data) && ReadsOn(route, target, events, n, r)
    ensures var step := OnChunk(route, target, r, data);
            && (step.Finish? ==> Matches(step.ending, ChunkFate(route, target, events, n)))
            && (step.Finish? && !IsFree(route, target) ==> step.ending.Abandoned?)
            && (step.Continue? && !IsFree(route, target) ==>
                  step.reading.yielded == Chunks(events, n + 1)
                  && (step.reading.committed <==> step.reading.yielded != []))
  {
    if IsFree(route, target) && data != [] {
      VerdictSnoc(route, target, events, n, r, data);
      CheckedFate(route, target, events, n, r, data,
                  FeedCheck(route.decoder, target.provider, r.flags, r.buffer, data));
    }
  }

  lemma EventFates(route: Route, target: Target, events: seq<Event>, n: nat, r: Reading)
    requires n < |events| && ReadsOn(route, target, events, n, r)
    ensures StepReadsOn(route, target, events, n, OnRead(route, target, r, events[n]))
  {
    EventAccounted(route, target, events, n, r);
    if IsFree(route, target) {
      EventChecked(route, target, events, n, r);
    }
    match events[n] {
      case Chunk(data) => ChunkFates(route, target, events, n, r, data);
      case _ =>
    }
  }

  ghost function ReadingOn(route: Route, target: Target, events: seq<Event>): Holds {
    (n: nat, r: Reading) => ReadsOn(route, target, events, n, r)
  }

  ghost function FateAt(route: Route, target: Target, events: seq<Event>): Ends {
    (n: nat, r: Reading, ending: Ending) => FateOf(route, target, events, n, r, ending)
  }

  lemma StepFateHolds(route: Route, target: Target, events: seq<Event>, n: nat, step: ReadStep)
    requires StepReadsOn(route, target, events, n, step)
    ensures StepHolds(step, n, ReadingOn(route, target, events), FateAt(route, target, events))
  {
  }

  /** Reading a stream ends as the event where it stops, or its end, says. */
  lemma ReadFate(route: Route, target: Target, events: seq<Event>, r: Reading)
    requires ReadsOn(route, target, events, 0, r)
    ensures var (last, ending) := Read(route, target, events, 0, r);
            var n := ReadStop(route, target, events, r);
            && FateOf(route, target, events, n, last, ending)
            && (ending.Completed? && IsFree(route, target) ==>
                  last.flags.hasOutput == VerdictOn(route, target, events, n).state.hasOutput)
  {
    var on, done := Reader(route, target), Ender(route, target);
    var inv, ok := ReadingOn(route, target, events), FateAt(route, target, events);
    forall n: nat, r: Reading | n < |events| && inv(n, r) ensures StepHolds(on(r, events[n]), n, inv, ok) {
      EventFates(route, target, events, n, r);
      StepFateHolds(route, target, events, n, on(r, events[n]));
    }
    ReadInvariant(on, done, events, 0, r, inv, ok);
    var (last, ending) := ReadLoop(on, done, events, 0, r);
    if StopAt(on, events, 0, r) == |events| {
      assert ending == OnEnd(route, target, last) && ReadsOn(route, target, events, |events|, last);
    }
  }

  lemma StartReadsOn(route: Route, target: Target, events: seq<Event>, patience: nat)
    ensures ReadsOn(route, target, events, 0, NewReading(patience))
  {
    assert Flatten<Byte>([]) + [] == Text(events, 0);
    assert Chunks(events, 0) == [];
  }

  lemma CompletedAtEnd(route: Route, target: Target, events: seq<Event>, n: nat)
    requires n <= |events| && StreamFate(route, target, events, n) == Ends(Returned)
    ensures n == |events|
  {
  }

  lemma OutcomeFate(route: Route, turn: Turn, target: Target, patience: nat)
    ensures var (r, ending) := Outcomes(route, turn, target, patience);
            && Matches(ending, TurnFate(route, turn, target, patience))
            && (!IsFree(route, target) && !ending.Abandoned? ==>
                  (r.committed <==> Chunks(EventsOf(turn), TurnStop(route, turn, target, patience)) != []))
            && (ending.Completed? && IsFree(route, target) ==>
                  var events := EventsOf(turn);
                  r.flags.hasOutput == VerdictOn(route, target, events, |events|).state.hasOutput)
  {
    match turn.opening {
      case Opened(events) =>
        StartReadsOn(route, target, events, patience);
        ReadFate(route, target, events, NewReading(patience));
        var n := ReadStop(route, target, events, NewReading(patience));
        if StreamFate(route, target, events, n) == Ends(Returned) {
          CompletedAtEnd(route, target, events, n);
        }
      case _ =>
    }
  }

  // ----- what follows from it

  /** All that the rest of the execution depends on in a turn: the fate, whether text of the
      candidate was passed on, whether the route is free, and the output a success reports. */
  datatype Told = Told(fate: Fate, passedOn: bool, free: bool, hasOutput: bool)

  function TellTurn(route: Route, turn: Turn, target: Target, patience: nat): Told {
    var events, n := EventsOf(turn), TurnStop(route, turn, target, patience);
    var free := Watched(route, target);
    Told(
      TurnFate(route, turn, target, patience),
      if free then Shown(route, target, events, n) else Chunks(events, n) != [],
      free,
      free && VerdictOn(route, target, events, |events|).state.hasOutput)
  }

  type Teller = (nat, Target) -> Told

  function TellerOf(route: Route, turns: nat -> Turn, patience: nat): Teller {
    (i: nat, t: Target) => TellTurn(route, turns(i), t, patience)
  }

  /** The calls after the opening: a free route's failure, or its success, and nothing else. */
  function Records(told: Told, target: Target): seq<Call> {
    if !told.free then []
    else
      match told.fate
      case Fails(failure, affects) => [Failing(target, failure, affects)]
      case Ends(outcome) => if outcome.Returned? then [Success(target, told.hasOutput)] else []
  }

  ghost predicate TurnFollows(told: Told, index: nat, target: Target, before: Progress, end: TurnEnd) {
    !end.Skip? ==>
      && end.st.log == before.log + [Attempt(index, target)] + Records(told, target)
      && match told.fate
         case Ends(outcome) => end.Halt? && end.outcome == outcome
         case Fails(failure, _) =>
           if told.passedOn then end.Halt? && end.outcome == Interrupted(failure)
           else end.GoOn? && end.failure == failure
  }

  lemma TurnFollowsFate(route: Route, turn: Turn, index: nat, target: Target, st: Progress, patience: nat)
    ensures TurnFollows(TellTurn(route, turn, target, patience), index, target, st,
                        TakeTurn(route, turn, index, target, st, patience))
  {
    OutcomeFate(route, turn, target, patience);
    OutcomeRead(route, turn, target, patience);
    var log := st.log + [Attempt(index, target)];
    assert log + [] == log;
  }

  // ----- whole runs

  /** Call `k` opens a candidate: what follows it in the log, and where the run goes from there. */
  ghost predicate CallTold(told: Told, log: seq<Call>, k: nat, e: RunEnd)
    requires k < |log| && log[k].Attempt?
  {
    && k + 1 + |Records(told, log[k].target)| <= |log|
    && (forall m :: k < m <= k + |Records(told, log[k].target)| ==> log[m] == Records(told, log[k].target)[m - k - 1])
    && (var m := k + 1 + |Records(told, log[k].target)|; m < |log| ==> log[m].Attempt?)
    && match told.fate
       case Ends(outcome) => e.at == log[k].index && e.outcome == outcome
       case Fails(failure, _) =>
         if told.passedOn then e.at == log[k].index && e.outcome == Interrupted(failure) else log[k].index < e.at
  }

  /** Every opening after the first `from` calls has been told so. */
  ghost predicate RunTold(tell: Teller, from: nat, e: RunEnd) {
    && from <= |e.st.log| && (from < |e.st.log| ==> e.st.log[from].Attempt?)
    && forall k :: from <= k < |e.st.log| && e.st.log[k].Attempt? ==>
         CallTold(tell(e.st.log[k].index, e.st.log[k].target), e.st.log, k, e)
  }

  lemma FirstTold(told: Told, index: nat, target: Target, before: Progress, end: TurnEnd, e: RunEnd)
    requires TurnFollows(told, index, target, before, end) && !end.Skip?
    requires end.st.log <= e.st.log && (|end.st.log| < |e.st.log| ==> e.st.log[|end.st.log|].Attempt?)
    requires if end.Halt? then e.at == index && e.outcome == end.outcome else index < e.at
    ensures e.st.log[|before.log|] == Attempt(index, target) && CallTold(told, e.st.log, |before.log|, e)
  {
    var n, records := |before.log|, Records(told, target);
    assert end.st.log[n] == Attempt(index, target);
    assert forall m :: n < m <= n + |records| ==> end.st.log[m] == records[m - n - 1];
  }

  lemma ToldFrom(tell: Teller, index: nat, target: Target, before: Progress, end: TurnEnd, e: RunEnd)
    requires TurnFollows(tell(index, target), index, target, before, end) && !end.Skip?
    requires end.st.log <= e.st.log && RunTold(tell, |end.st.log|, e)
    requires if end.Halt? then e.at == index && e.outcome == end.outcome else index < e.at
    ensures RunTold(tell, |before.log|, e)
  {
    var n := |before.log|;
    FirstTold(tell(index, target), index, target, before, end, e);
    assert forall k :: n < k < |end.st.log| ==> e.st.log[k] == Records(tell(index, target), target)[k - n - 1];
    assert forall k :: n < k < |end.st.log| ==> !e.st.log[k].Attempt?;
  }

  lemma {:induction false} RunIsTold(
      loop: Loop, tell: Teller, candidates: seq<Target>, index: nat, st: Progress, last: Option<Failure>)
    requires loop.Lawful() && index <= |candidates|
    requires forall i: nat, t, s :: TurnFollows(tell(i, t), i, t, s, loop.take(i, t, s))
    ensures var e := Run(loop, candidates, index, st, last); st.log <= e.st.log && RunTold(tell, |st.log|, e)
    decreases |candidates| - index
  {
    RunBounds(loop, candidates, index, st, last);
    if index < |candidates| {
      var end := loop.take(index, candidates[index], st);
      assert TurnFollows(tell(index, candidates[index]), index, candidates[index], st, end);
      match end {
        case Skip => RunIsTold(loop, tell, candidates, index + 1, st, last);
        case Halt(_, _) => ToldFrom(tell, index, candidates[index], st, end, Run(loop, candidates, index, st, last));
        case GoOn(after, failure) =>
          var next := loop.next(candidates, index);
          RunBounds(loop, next, index + 1, after, Some(failure));
          RunIsTold(loop, tell, next, index + 1, after, Some(failure));
          ToldFrom(tell, index, candidates[index], st, end, Run(loop, candidates, index, st, last));
      }
    }
  }

  /** What the world did in the turn of every candidate that was opened decides what is recorded of
      it, directly behind its opening, and how the execution goes on: a free route's failure is
      recorded with what it was and whether it counts against the provider; a candidate that
      failed before it passed anything on is followed by the next; every other one ends the
      execution, in the way its fate says. */
  lemma EveryCandidateTold(route: Route, turns: nat -> Turn, candidates: seq<Target>, st: Progress, patience: nat)
    ensures var e := Execute(route, turns, candidates, st, patience);
            st.log <= e.st.log && RunTold(TellerOf(route, turns, patience), |st.log|, e)
  {
    var loop, tell := LoopOf(route, turns, patience), TellerOf(route, turns, patience);
    forall i: nat, t, s ensures TurnFollows(tell(i, t), i, t, s, loop.take(i, t, s)) {
      TurnFollowsFate(route, turns(i), i, t, s, patience);
    }
    RunIsTold(loop, tell, candidates, 0, st, None);
  }

  // ----- when all candidates are used up

  /** What is raised after a last failure: in automatic mode the failure itself, marked for recovery
      if nothing was put out and its status allows it; or that nothing is left. */
  function Raised(pooled: bool, silent: bool, last: Option<Failure>): Outcome {
    match last
    case Some(f) =>
      Exhausted(if pooled then f.(recoverySafe := silent && f.status in {402, 429, 502, 503, 504, 529}) else f)
    case None =>
      if pooled then
        Exhausted(
          Plain(Unavailable, 503, "Every eligible fallback failed or is cooling down.").(recoverySafe := silent))
      else Returned
  }

  /** Call `k` is the last opening in the log. */
  predicate LastOpening(log: seq<Call>, k: nat) {
    k < |log| && log[k].Attempt? && forall m :: k < m < |log| ==> !log[m].Attempt?
  }

  predicate NoOpening(log: seq<Call>, from: nat) {
    forall k :: from <= k < |log| ==> !log[k].Attempt?
  }

  ghost predicate UsedUp(tell: Teller, pooled: bool, from: nat, last: Option<Failure>, e: RunEnd) {
    var log, silent := e.st.log, !e.st.outputStarted;
    && (NoOpening(log, from) ==> e.outcome == Raised(pooled, silent, last))
    && (forall k :: from <= k && LastOpening(log, k) ==>
          var fate := tell(log[k].index, log[k].target).fate;
          fate.Fails? && e.outcome == Raised(pooled, silent, Some(fate.failure)))
  }

  lemma AllUsedRaises(pooled: bool, st: Progress, last: Option<Failure>)
    ensures AllUsed(pooled, st, last) == Raised(pooled, !st.outputStarted, last)
  {
  }

  lemma UsedUpFrom(
      tell: Teller, pooled: bool, index: nat, target: Target, before: Progress, end: TurnEnd, last: Option<Failure>,
      e: RunEnd)
    requires TurnFollows(tell(index, target), index, target, before, end) && end.GoOn? && end.st.log <= e.st.log
    ensures UsedUp(tell, pooled, |end.st.log|, Some(end.failure), e) ==> UsedUp(tell, pooled, |before.log|, last, e)
  {
    if UsedUp(tell, pooled, |end.st.log|, Some(end.failure), e) {
      UsedUpSince(tell, pooled, index, target, before, end, last, e);
    }
  }

  lemma UsedUpSince(
      tell: Teller, pooled: bool, index: nat, target: Target, before: Progress, end: TurnEnd, last: Option<Failure>,
      e: RunEnd)
    requires TurnFollows(tell(index, target), index, target, before, end) && end.GoOn? && end.st.log <= e.st.log
    requires UsedUp(tell, pooled, |end.st.log|, Some(end.failure), e)
    ensures UsedUp(tell, pooled, |before.log|, last, e)
  {
    var log, n := e.st.log, |before.log|;
    var records := Records(tell(index, target), target);
    assert log[n] == end.st.log[n] == Attempt(index, target);
    assert forall m :: n < m < |end.st.log| ==> log[m] == records[m - n - 1];
    forall k | n <= k && LastOpening(log, k)
      ensures var fate := tell(log[k].index, log[k].target).fate;
              fate.Fails? && e.outcome == Raised(pooled, !e.st.outputStarted, Some(fate.failure))
    {
      if k < |end.st.log| {
        assert k == n;
        assert NoOpening(log, |end.st.log|);
      }
    }
  }

  lemma {:induction false} RunUsedUp(
      loop: Loop, tell: Teller, candidates: seq<Target>, index: nat, st: Progress, last: Option<Failure>)
    requires loop.Lawful() && index <= |candidates|
    requires forall i: nat, t, s :: TurnFollows(tell(i, t), i, t, s, loop.take(i, t, s))
    ensures var e := Run(loop, candidates, index, st, last);
            st.log <= e.st.log && (e.at == |candidates| ==> UsedUp(tell, loop.pooled, |st.log|, last, e))
    decreases |candidates| - index
  {
    if index == |candidates| {
      AllUsedRaises(loop.pooled, st, last);
    } else {
      var end := loop.take(index, candidates[index], st);
      assert TurnFollows(tell(index, candidates[index]), index, candidates[index], st, end);
      match end {
        case Skip => RunUsedUp(loop, tell, candidates, index + 1, st, last);
        case Halt(_, _) =>
        case GoOn(after, failure) =>
          var next := loop.next(candidates, index);
          RunUsedUp(loop, tell, next, index + 1, after, Some(failure));
          var e := Run(loop, candidates, index, st, last);
          if e.at == |candidates| {
            UsedUpFrom(tell, loop.pooled, index, candidates[index], st, end, last, e);
          }
      }
    }
  }

  /** When all candidates are used up, what is raised is the failure of the one opened last, apart
      from its mark; that nothing is left is said exactly when none was opened. */
  lemma ExhaustedByLast(route: Route, turns: nat -> Turn, candidates: seq<Target>, st: Progress, patience: nat)
    ensures var e := Execute(route, turns, candidates, st, patience);
            e.at == |candidates| ==>
              e.st.outputStarted == st.outputStarted
              && UsedUp(TellerOf(route, turns, patience), route.pooled, |st.log|, None, e)
  {
    var loop, tell := LoopOf(route, turns, patience), TellerOf(route, turns, patience);
    forall i: nat, t, s ensures TurnFollows(tell(i, t), i, t, s, loop.take(i, t, s)) {
      TurnFollowsFate(route, turns(i), i, t, s, patience);
    }
    RunUsedUp(loop, tell, candidates, 0, st, None);
    OneSource(route, turns, candidates, st, patience);
  }

  // ----- the failure counts

  lemma {:induction false} RunTallies(
      route: Route, loop: Loop, p: string, candidates: seq<Target>, index: nat, st: Progress, last: Option<Failure>)
    requires loop.Lawful() && index <= |candidates|
    requires forall i: nat, t, s :: TurnCharges(route, t, s, loop.take(i, t, s))
    ensures var e := Run(loop, candidates, index, st, last);
            Tallies(route, {p}, st, e.st) && (!route.budgeted ==> e.st.failures == st.failures)
    decreases |candidates| - index
  {
    if index < |candidates| {
      var end := loop.take(index, candidates[index], st);
      assert TurnCharges(route, candidates[index], st, end);
      match end {
        case Skip => RunTallies(route, loop, p, candidates, index + 1, st, last);
        case Halt(_, _) => TurnTallies(route, {p}, candidates[index], st, end);
        case GoOn(after, failure) =>
          TurnTallies(route, {p}, candidates[index], st, end);
          RunTallies(route, loop, p, loop.next(candidates, index), index + 1, after, Some(failure));
          TalliesTwice(route, {p}, st, after, Run(loop, candidates, index, st, last).st);
      }
    }
  }

  /** Under a budget every provider's count grows by exactly the recorded failures that count
      against it; without one no count changes. */
  lemma CountsAreRecords(
      route: Route, turns: nat -> Turn, candidates: seq<Target>, st: Progress, patience: nat, p: string)
    ensures var e := Execute(route, turns, candidates, st, patience);
            && st.log <= e.st.log
            && (route.budgeted ==>
                  Count(e.st.failures, p)
                  == Count(st.failures, p) + Charged(e.st.log, |e.st.log|, {p}) - Charged(e.st.log, |st.log|, {p}))
            && (!route.budgeted ==> e.st.failures == st.failures)
  {
    var loop := LoopOf(route, turns, patience);
    ExecutionTurns(route, turns, patience);
    TurnsKeep(route, turns, loop);
    RunTallies(route, loop, p, candidates, 0, st, None);
    TotalOfOne(st.failures, p);
    TotalOfOne(Execute(route, turns, candidates, st, patience).st.failures, p);
  }
}
