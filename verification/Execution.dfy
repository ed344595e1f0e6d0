/** The commit-point state machine that tries one candidate after another until one of them
    has produced output.  What the world does is an input: for every turn, whether the route is
    cooling down, what opening it gives, and the finite list of events its stream produces.
    `patience` is how many chunks the consumer asks for after the first before closing. */
module Execution {
  import opened Common
  import opened Failures
  import opened FallbackOrder
  import opened FreeStream
  import opened LineFraming
  import opened RouteBudget

  datatype Target = Target(provider: string, ref: string)

  datatype AppError = AppError(kind: FailureKind, status: int, message: string)

  /** One event of an upstream stream; the end of the list is the end of the stream.
      Stalled: the progress deadline passes first.  ReadBroken: any other exception. */
  datatype Event =
    | Chunk(data: Bytes)
    | ReadFailed(failure: Failure)
    | ReadRefused(error: AppError)
    | Stalled
    | ReadBroken

  datatype Opening =
    | Opened(events: seq<Event>)
    | OpenFailed(failure: Failure)
    | OpenRefused(error: AppError)
    | OpenBroken

  datatype Turn = Turn(cooling: bool, opening: Opening, closeStalls: bool)

  /** `pooled`: automatic routing is configured, with the billing category of every selected
      route; `budgeted`: a per-request failure budget is active. */
  datatype Route = Route(pooled: bool, billing: map<string, string>, budgeted: bool, decoder: Decoder)

  datatype Escape = Broke | EscapedFailure(failure: Failure) | EscapedRefusal(error: AppError)

  /** How one candidate ends. */
  datatype Ending = Completed | Failed(failure: Failure, local: bool) | Escaped(escape: Escape) | Abandoned

  datatype Call =
    | Attempt(index: nat, target: Target)
    | Success(target: Target, hasOutput: bool)
    | Failing(target: Target, failure: Failure, affectsAvailability: bool)

  /** How a whole execution ends: normally; every candidate used up; a candidate failing after
      its first output; another exception; or the consumer closing the stream. */
  datatype Outcome =
    | Returned
    | Exhausted(failure: Failure)
    | Interrupted(failure: Failure)
    | Escaping(escape: Escape)
    | Closed

  function ProgressTimeout(): Failure { Plain(Timeout, 504, "Provider execution made no progress.") }

  function Incomplete(): Failure { Plain(Upstream, 502, "Provider ended without a complete response.") }

  function TooMuchMetadata(): Failure {
    Plain(Upstream, 502, "Provider sent too much stream metadata before output.")
  }

  function NothingLeft(): Failure {
    Plain(Unavailable, 503, "Every eligible fallback failed or is cooling down.")
  }

  /** An application error becomes a candidate failure in automatic mode only. */
  function Refused(route: Route, error: AppError): Ending {
    if route.pooled then Failed(Plain(error.kind, error.status, error.message), error.kind.InvalidRequest?)
    else Escaped(EscapedRefusal(error))
  }

  /** A failure raised inside the reading loop is caught in automatic mode only. */
  function Thrown(route: Route, failure: Failure): Ending {
    if route.pooled then Failed(failure, false) else Escaped(EscapedFailure(failure))
  }

  predicate IsFree(route: Route, target: Target) { route.pooled && target.ref in route.billing }

  function BillingOf(route: Route): Target -> string {
    (t: Target) => if t.ref in route.billing then route.billing[t.ref] else ""
  }

  const PROVIDER_OF: Target -> string := (t: Target) => t.provider

  // ----- reading one candidate's stream

  datatype Reading = Reading(
    flags: Flags, buffer: Bytes, committed: bool, pending: Bytes, yielded: seq<Bytes>, patience: nat)

  datatype ReadStep = Continue(reading: Reading) | Finish(reading: Reading, ending: Ending)

  function NewReading(patience: nat): Reading { Reading(Flags(false, false), [], false, [], [], patience) }

  function Emit(r: Reading, chunk: Bytes): ReadStep {
    var out := r.(committed := true, pending := [], yielded := r.yielded + [chunk]);
    if r.patience == 0 then Finish(out, Abandoned) else Continue(out.(patience := r.patience - 1))
  }

  /** What a free route does with a nonempty chunk once the stream check has seen it: nothing is
      passed on before the check has found output or completion. */
  function OnChecked(route: Route, r: Reading, data: Bytes, fed: FreeStream.Result): ReadStep {
    var checked := r.(flags := fed.state, buffer := fed.buffer);
    match fed.error
    case Some(TypeError) => Finish(checked, Escaped(Broke))
    case Some(Raised(failure)) => Finish(checked, Thrown(route, failure))
    case None =>
      if r.committed then Emit(checked, data)
      else if |r.pending + data| > LIMIT then Finish(checked, Thrown(route, TooMuchMetadata()))
      else if !(fed.state.hasOutput || fed.state.complete) then Continue(checked.(pending := r.pending + data))
      else Emit(checked, r.pending + data)
  }

  function OnChunk(route: Route, target: Target, r: Reading, data: Bytes): ReadStep {
    if data == [] then Continue(r)
    else if !IsFree(route, target) then Emit(r, data)
    else OnChecked(route, r, data, FeedCheck(route.decoder, target.provider, r.flags, r.buffer, data))
  }

  function OnRead(route: Route, target: Target, r: Reading, event: Event): ReadStep {
    match event
    case Chunk(data) => OnChunk(route, target, r, data)
    case ReadFailed(failure) => Finish(r, Failed(failure, false))
    case ReadRefused(error) => Finish(r, Refused(route, error))
    case Stalled => Finish(r, Thrown(route, ProgressTimeout()))
    case ReadBroken => Finish(r, Escaped(Broke))
  }

  function OnEnd(route: Route, target: Target, r: Reading): Ending {
    if IsFree(route, target) && (!r.committed || !r.flags.complete) then Failed(Incomplete(), false) else Completed
  }

  /** Reading event after event, for any way `on` of taking an event and any meaning `done` of
      the end of the stream. */
  function ReadLoop(
    on: (Reading, Event) -> ReadStep, done: Reading -> Ending, events: seq<Event>, k: nat, r: Reading): (Reading,
    Ending)
    requires k <= |events|
    decreases |events| - k
  {
    if k == |events| then (r, done(r))
    else
      match on(r, events[k])
      case Continue(next) => ReadLoop(on, done, events, k + 1, next)
      case Finish(last, ending) => (last, ending)
  }

  function Reader(route: Route, target: Target): (Reading, Event) -> ReadStep {
    (r: Reading, event: Event) => OnRead(route, target, r, event)
  }

  function Ender(route: Route, target: Target): Reading -> Ending { (r: Reading) => OnEnd(route, target, r) }

  /** `on` is the executor's way of taking an event. */
  ghost predicate IsReader(on: (Reading, Event) -> ReadStep, route: Route, target: Target) {
    forall r: Reading, event: Event {:trigger OnRead(route, target, r, event)} ::
      on(r, event) == OnRead(route, target, r, event)
  }

  /** `done` is the executor's meaning of the end of a stream. */
  ghost predicate IsEnder(done: Reading -> Ending, route: Route, target: Target) {
    forall r: Reading {:trigger OnEnd(route, target, r)} :: done(r) == OnEnd(route, target, r)
  }

  function Read(route: Route, target: Target, events: seq<Event>, k: nat, r: Reading): (Reading, Ending)
    requires k <= |events|
  {
    ReadLoop(Reader(route, target), Ender(route, target), events, k, r)
  }

  // ----- one turn and the whole loop

  datatype Progress = Progress(failures: FailureCounts, outputStarted: bool, output: seq<Bytes>, log: seq<Call>)

  datatype TurnEnd = Skip | Halt(outcome: Outcome, st: Progress) | GoOn(st: Progress, failure: Failure)

  function Outcomes(route: Route, turn: Turn, target: Target, patience: nat): (Reading, Ending) {
    match turn.opening
    case OpenFailed(failure) => (NewReading(patience), Failed(failure, false))
    case OpenRefused(error) => (NewReading(patience), Refused(route, error))
    case OpenBroken => (NewReading(patience), Escaped(Broke))
    case Opened(events) =>
      var (r, ending) := Read(route, target, events, 0, NewReading(patience));
      // closing the stream has a deadline of its own unless an exception is already on its way
      if turn.closeStalls && (ending.Completed? || ending.Failed?)
      then (r, Escaped(EscapedFailure(ProgressTimeout()))) else (r, ending)
  }

  /** The bookkeeping after a candidate was read up to `ending`; `read` is the progress then. */
  function Concluded(
    route: Route, target: Target, read: Progress, committed: bool, hasOutput: bool, ending: Ending): TurnEnd
  {
    var free := IsFree(route, target);
    match ending
    case Escaped(escape) => Halt(Escaping(escape), read)
    case Abandoned => Halt(Closed, read)
    case Completed => Halt(Returned, if free then read.(log := read.log + [Success(target, hasOutput)]) else read)
    case Failed(failure, local) =>
      var noted := if !free then read
                   else read.(log := read.log + [Failing(target, failure, !local)],
                              failures := if route.budgeted && !local then Recorded(read.failures, target.provider)
                                          else read.failures);
      if committed then Halt(Interrupted(failure), noted) else GoOn(noted, failure)
  }

  function TakeTurn(route: Route, turn: Turn, index: nat, target: Target, st: Progress, patience: nat): TurnEnd {
    if route.budgeted && !Allowed(st.failures, target.provider) then Skip
    else if IsFree(route, target) && turn.cooling then Skip
    else
      var (r, ending) := Outcomes(route, turn, target, patience);
      var read := st.(log := st.log + [Attempt(index, target)],
                      output := st.output + r.yielded,
                      outputStarted := st.outputStarted || r.committed);
      Concluded(route, target, read, r.committed, r.flags.hasOutput, ending)
  }

  /** `at` is the position whose turn ended the execution, |candidates| when all were used. */
  datatype RunEnd = RunEnd(outcome: Outcome, at: nat, candidates: seq<Target>, st: Progress)

  function AllUsed(pooled: bool, st: Progress, last: Option<Failure>): Outcome {
    if pooled then
      match last
      case Some(failure) =>
        Exhausted(failure.(recoverySafe := !st.outputStarted && RecoverableStatus(failure.status)))
      case None => Exhausted(NothingLeft().(recoverySafe := !st.outputStarted))
    else
      match last
      case Some(failure) => Exhausted(failure)
      case None => Returned
  }

  /** `b` rearranges `a` after its first `n` elements and keeps every position's category. */
  ghost predicate Rearranged(billing: Target -> string, a: seq<Target>, b: seq<Target>, n: nat) {
    && |a| == |b| && multiset(a) == multiset(b)
    && (forall j :: 0 <= j < n && j < |a| ==> b[j] == a[j])
    && (forall j :: 0 <= j < |a| ==> billing(b[j]) == billing(a[j]))
  }

  /** What a loop over candidates is made of: what the turn at a position does to the progress
      so far, and how a failure at a position rearranges the list. */
  datatype Loop = Loop(
    pooled: bool,
    billing: Target -> string,
    take: (nat, Target, Progress) -> TurnEnd,
    next: (seq<Target>, nat) -> seq<Target>)
  {
    ghost predicate Lawful() {
      forall c: seq<Target>, i: nat :: |next(c, i)| == |c|
    }

    ghost predicate Rearranges() {
      forall c: seq<Target>, i: nat :: Rearranged(billing, c, next(c, i), i + 1)
    }
  }

  function LoopOf(route: Route, turns: nat -> Turn, patience: nat): (loop: Loop)
    ensures loop.Lawful()
  {
    Loop(
      route.pooled,
      BillingOf(route),
      (index: nat, target: Target, st: Progress) => TakeTurn(route, turns(index), index, target, st, patience),
      (c: seq<Target>, index: nat) => AfterFailure(route, c, index))
  }

  lemma LoopRearranges(route: Route, turns: nat -> Turn, patience: nat)
    ensures LoopOf(route, turns, patience).Rearranges()
  {
    var loop := LoopOf(route, turns, patience);
    forall c: seq<Target>, i: nat ensures Rearranged(loop.billing, c, loop.next(c, i), i + 1) {
      AfterFailureRearranges(route, c, i);
    }
  }

  function AfterFailure(route: Route, candidates: seq<Target>, index: nat): (r: seq<Target>)
    ensures |r| == |candidates|
  {
    if route.pooled then Preferred(candidates, index, PROVIDER_OF, BillingOf(route)) else candidates
  }

  lemma AfterFailureRearranges(route: Route, candidates: seq<Target>, index: nat)
    ensures Rearranged(BillingOf(route), candidates, AfterFailure(route, candidates, index), index + 1)
  {
    PreferenceKeepsCategories(candidates, index, PROVIDER_OF, BillingOf(route));
  }

  function Run(loop: Loop, candidates: seq<Target>, index: nat, st: Progress, last: Option<Failure>): RunEnd
    requires loop.Lawful() && index <= |candidates|
    decreases |candidates| - index
  {
    if index == |candidates| then RunEnd(AllUsed(loop.pooled, st, last), index, candidates, st)
    else
      match loop.take(index, candidates[index], st)
      case Skip => Run(loop, candidates, index + 1, st, last)
      case Halt(outcome, st') => RunEnd(outcome, index, candidates, st')
      case GoOn(st', failure) => Run(loop, loop.next(candidates, index), index + 1, st', Some(failure))
  }

  /** One execution over a list of candidates. */
  function Execute(route: Route, turns: nat -> Turn, candidates: seq<Target>, st: Progress, patience: nat): RunEnd {
    Run(LoopOf(route, turns, patience), candidates, 0, st, None)
  }

  type Take = (nat, Target, Progress) -> TurnEnd

  type Next = (seq<Target>, nat) -> seq<Target>

  /** `take` is the executor's turn. */
  ghost predicate IsTake(take: Take, route: Route, turns: nat -> Turn, patience: nat) {
    forall i: nat, t: Target, st: Progress {:trigger TakeTurn(route, turns(i), i, t, st, patience)} ::
      take(i, t, st) == TakeTurn(route, turns(i), i, t, st, patience)
  }

  /** `next` is the executor's rearrangement after a failure. */
  ghost predicate IsNext(next: Next, route: Route) {
    forall c: seq<Target>, i: nat {:trigger AfterFailure(route, c, i)} :: next(c, i) == AfterFailure(route, c, i)
  }

  // ----- the executor

  class ProviderExecutor {
    const route: Route
    const budget: RouteAttemptBudget
    var outputStarted: bool
    // what the consumer has received, and the calls made on the pool and the providers
    var output: seq<Bytes>
    var log: seq<Call>

    constructor (route: Route, budget: RouteAttemptBudget)
      ensures this.route == route && this.budget == budget
      ensures View() == Progress(budget.failures, false, [], [])
    {
      this.route, this.budget := route, budget;
      outputStarted, output, log := false, [], [];
    }

    function View(): Progress
      reads this, budget
    {
      Progress(budget.failures, outputStarted, output, log)
    }

    /** Handles one chunk: a free route's chunks are checked, and held back until the check has
        found output or completion; everything else goes straight to the consumer. */
    method HandleChunk(target: Target, check: FreeStreamCheck, committed: bool, initialChunks: Bytes, left: nat,
                       ghost yielded: seq<Bytes>, data: Bytes)
        returns (stopped: Option<Ending>, committed': bool, initialChunks': Bytes, left': nat,
            ghost yielded': seq<Bytes>)
      requires check.decoder == route.decoder && check.provider == target.provider
      requires committed || !IsFree(route, target) ==> initialChunks == []
      modifies this`output, this`outputStarted, check
      ensures var step := OnChunk(route, target,
                old(Reading(check.State(), check.buffer, committed, initialChunks, yielded, left)), data);
              && step.reading == Reading(check.State(), check.buffer, committed', initialChunks', yielded', left')
              && stopped == (if step.Finish? then Some(step.ending) else None)
      ensures yielded <= yielded' && output == old(output) + yielded'[|yielded|..]
      ensures committed' == (committed || yielded' != yielded)
      ensures outputStarted == (old(outputStarted) || yielded' != yielded)
      ensures committed' || !IsFree(route, target) ==> initialChunks' == []
    {
      stopped, committed', initialChunks', left', yielded' := None, committed, initialChunks, left, yielded;
      if data == [] {
        return;
      }
      var chunk := data;
      if IsFree(route, target) {
        var error := check.FeedChunk(chunk);
        if error.Some? {
          stopped := Some(if error.value.TypeError? then Escaped(Broke) else Thrown(route, error.value.failure));
          return;
        }
        if !committed {
          if |initialChunks + chunk| > LIMIT {
            stopped := Some(Thrown(route, TooMuchMetadata()));
            return;
          }
          initialChunks' := initialChunks + chunk;
          if !(check.hasOutput || check.complete) {
            return;
          }
          chunk := initialChunks';
          initialChunks' := [];
        }
      }
      committed' := true;
      outputStarted := true;
      output := output + [chunk];
      yielded' := yielded + [chunk];
      if left == 0 {
        stopped := Some(Abandoned);
      } else {
        left' := left - 1;
      }
    }

    /** Handles one event, for a loop that knows events only through `on`. */
    method HandleEvent(target: Target, check: FreeStreamCheck, committed: bool, initialChunks: Bytes, left: nat,
                       ghost yielded: seq<Bytes>, event: Event, ghost on: (Reading, Event) -> ReadStep)
        returns (stopped: Option<Ending>, committed': bool, initialChunks': Bytes, left': nat,
                 ghost yielded': seq<Bytes>)
      requires IsReader(on, route, target)
      requires check.decoder == route.decoder && check.provider == target.provider
      requires committed || !IsFree(route, target) ==> initialChunks == []
      modifies this`output, this`outputStarted, check
      ensures var step := on(old(Reading(check.State(), check.buffer, committed, initialChunks, yielded, left)), event);
              && step.reading == Reading(check.State(), check.buffer, committed', initialChunks', yielded', left')
              && stopped == (if step.Finish? then Some(step.ending) else None)
      ensures yielded <= yielded' && output == old(output) + yielded'[|yielded|..]
      ensures committed' == (committed || yielded' != yielded)
      ensures outputStarted == (old(outputStarted) || yielded' != yielded)
      ensures committed' || !IsFree(route, target) ==> initialChunks' == []
    {
      ghost var before := Reading(check.State(), check.buffer, committed, initialChunks, yielded, left);
      stopped, committed', initialChunks', left', yielded' := None, committed, initialChunks, left, yielded;
      match event {
        case Chunk(data) =>
          stopped, committed', initialChunks', left', yielded' :=
            HandleChunk(target, check, committed, initialChunks, left, yielded, data);
        case ReadFailed(failure) => stopped := Some(Failed(failure, false));
        case ReadRefused(error) => stopped := Some(Refused(route, error));
        case Stalled => stopped := Some(Thrown(route, ProgressTimeout()));
        case ReadBroken => stopped := Some(Escaped(Broke));
      }
      assert on(before, event) == OnRead(route, target, before, event);
    }

    /** The loop over the events, with the check of a new stream. */
    method ReadEvents(target: Target, check: FreeStreamCheck, events: seq<Event>, patience: nat,
                      ghost on: (Reading, Event) -> ReadStep, ghost done: Reading -> Ending)
        returns (committed: bool, hasOutput: bool, ending: Ending)
      requires IsReader(on, route, target) && IsEnder(done, route, target)
      requires check.decoder == route.decoder && check.provider == target.provider
      requires check.State() == Flags(false, false) && check.buffer == []
      modifies this`output, this`outputStarted, check
      ensures var (r, e) := ReadLoop(on, done, events, 0, NewReading(patience));
              && ending == e && committed == r.committed && hasOutput == r.flags.hasOutput
              && output == old(output) + r.yielded
              && outputStarted == (old(outputStarted) || r.committed)
    {
      committed := false;
      var initialChunks: Bytes, left := [], patience;
      ghost var yielded: seq<Bytes> := [];
      ghost var result := ReadLoop(on, done, events, 0, NewReading(patience));
      var k := 0;
      while k < |events|
        invariant k <= |events|
        invariant committed || !IsFree(route, target) ==> initialChunks == []
        invariant committed <==> yielded != []
        invariant output == old(output) + yielded && outputStarted == (old(outputStarted) || committed)
        invariant result == ReadLoop(on, done, events, k,
                                     Reading(check.State(), check.buffer, committed, initialChunks, yielded, left))
      {
        var stopped;
        ghost var before := yielded;
        stopped, committed, initialChunks, left, yielded :=
          HandleEvent(target, check, committed, initialChunks, left, yielded, events[k], on);
        assert yielded == before + yielded[|before|..];
        if stopped.Some? {
          return committed, check.hasOutput, stopped.value;
        }
        k := k + 1;
      }
      ghost var last := Reading(check.State(), check.buffer, committed, initialChunks, yielded, left);
      hasOutput := check.hasOutput;
      var cut := IsFree(route, target) && (!committed || !check.complete);
      ending := if cut then Failed(Incomplete(), false) else Completed;
      assert done(last) == OnEnd(route, target, last);
    }

    /** Consumes one opened stream, yielding to the consumer as it goes. */
    method ReadStream(target: Target, events: seq<Event>, patience: nat)
        returns (committed: bool, hasOutput: bool, ending: Ending)
      modifies this`output, this`outputStarted
      ensures var (r, e) := Read(route, target, events, 0, NewReading(patience));
              && ending == e && committed == r.committed && hasOutput == r.flags.hasOutput
              && output == old(output) + r.yielded
              && outputStarted == (old(outputStarted) || r.committed)
    {
      var check := new FreeStreamCheck(route.decoder, target.provider);
      committed, hasOutput, ending :=
        ReadEvents(target, check, events, patience, Reader(route, target), Ender(route, target));
    }

    /** Opens and consumes one candidate, then does the pool's bookkeeping for it. */
    method Attempt(turn: Turn, index: nat, target: Target, patience: nat) returns (end: TurnEnd)
      modifies this`output, this`outputStarted, this`log, budget
      ensures end == TakeTurn(route, turn, index, target, old(View()), patience)
      ensures View() == if end.Skip? then old(View()) else end.st
    {
      var free := IsFree(route, target);
      if route.budgeted && !budget.Allows(target.provider) {
        return Skip;
      }
      if free && turn.cooling {
        return Skip;
      }
      log := log + [Call.Attempt(index, target)];
      var committed, hasOutput := false, false;
      var ending: Ending;
      match turn.opening {
        case OpenFailed(failure) => ending := Failed(failure, false);
        case OpenRefused(error) => ending := Refused(route, error);
        case OpenBroken => ending := Escaped(Broke);
        case Opened(events) =>
          committed, hasOutput, ending := ReadStream(target, events, patience);
          if turn.closeStalls && (ending.Completed? || ending.Failed?) {
            ending := Escaped(EscapedFailure(ProgressTimeout()));
          }
      }
      end := Conclude(target, committed, hasOutput, ending);
    }

    /** Records a free route's success or failure and decides whether the next candidate follows. */
    method Conclude(target: Target, committed: bool, hasOutput: bool, ending: Ending) returns (end: TurnEnd)
      modifies this`log, budget
      ensures end == Concluded(route, target, old(View()), committed, hasOutput, ending)
      ensures !end.Skip? && View() == end.st
    {
      var free := IsFree(route, target);
      match ending {
        case Escaped(escape) => end := Halt(Escaping(escape), View());
        case Abandoned => end := Halt(Closed, View());
        case Completed =>
          if free {
            log := log + [Success(target, hasOutput)];
          }
          end := Halt(Returned, View());
        case Failed(failure, local) =>
          if free {
            log := log + [Failing(target, failure, !local)];
            if route.budgeted && !local {
              budget.RecordFailure(target.provider);
            }
          }
          end := if committed then Halt(Interrupted(failure), View()) else GoOn(View(), failure);
      }
    }

    /** One turn, for a loop that knows turns only through `take`. */
    method Try(turns: nat -> Turn, index: nat, target: Target, patience: nat, ghost take: Take) returns (end: TurnEnd)
      requires IsTake(take, route, turns, patience)
      modifies this`output, this`outputStarted, this`log, budget
      ensures end == take(index, target, old(View()))
      ensures View() == if end.Skip? then old(View()) else end.st
    {
      end := Attempt(turns(index), index, target, patience);
    }

    /** What a failure does to the candidates still ahead, known only through `next`. */
    method Rearrange(candidates: array<Target>, index: nat, ghost next: Next)
      requires IsNext(next, route)
      modifies candidates
      ensures candidates[..] == next(old(candidates[..]), index)
    {
      ghost var before := candidates[..];
      if route.pooled {
        PreferNextProvider(candidates, index, PROVIDER_OF, BillingOf(route));
      }
      assert candidates[..] == AfterFailure(route, before, index);
    }

    /** Tries the candidates in order, rearranging those still ahead after every failure. */
    method TryInOrder(candidates: array<Target>, turns: nat -> Turn, patience: nat, ghost loop: Loop)
        returns (outcome: Outcome, ghost run: RunEnd)
      requires loop.Lawful() && loop.pooled == route.pooled
      requires IsTake(loop.take, route, turns, patience) && IsNext(loop.next, route)
      modifies this`output, this`outputStarted, this`log, budget, candidates
      ensures run == Run(loop, old(candidates[..]), 0, old(View()), None)
      ensures outcome == run.outcome && View() == run.st
    {
      var last: Option<Failure> := None;
      run := Run(loop, candidates[..], 0, View(), None);
      var index := 0;
      while index < candidates.Length
        invariant index <= candidates.Length
        invariant run == Run(loop, candidates[..], index, View(), last)
      {
        var end := Try(turns, index, candidates[index], patience, loop.take);
        match end {
          case Skip =>
          case Halt(o, _) => return o, run;
          case GoOn(_, failure) =>
            last := Some(failure);
            Rearrange(candidates, index, loop.next);
        }
        index := index + 1;
      }
      outcome := AllUsed(route.pooled, View(), last);
    }

    method Listed(targets: seq<Target>) returns (candidates: array<Target>)
      ensures fresh(candidates) && candidates[..] == targets
    {
      candidates := new Target[|targets|](i requires 0 <= i < |targets| => targets[i]);
      assert candidates[..] == targets;
    }

    /** One execution over the primary target and its fallbacks. */
    method StreamCandidates(primary: Target, fallbacks: seq<Target>, turns: nat -> Turn, patience: nat)
        returns (outcome: Outcome, ghost run: RunEnd)
      modifies this`output, this`outputStarted, this`log, budget
      ensures run == Execute(route, turns, [primary] + fallbacks, old(View()), patience)
      ensures outcome == run.outcome && View() == run.st
    {
      var candidates := Listed([primary] + fallbacks);
      outcome, run := TryInOrder(candidates, turns, patience, LoopOf(route, turns, patience));
    }
  }
}
