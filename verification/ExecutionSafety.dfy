/** What every run of the executor guarantees, for every list of candidates and every
    behaviour of the providers, the cooldown table and the consumer. */
module ExecutionSafety {
  import opened Common
  import opened Failures
  import opened FallbackOrder
  import opened FreeStream
  import opened LineFraming
  import opened RouteBudget
  import opened Execution

  // ----- invariants of the reading loop

  type Holds = (nat, Reading) -> bool

  type Ends = (nat, Reading, Ending) -> bool

  /** The event at which the reading loop stops; |events| when it reaches the end of the stream. */
  function StopAt(on: (Reading, Event) -> ReadStep, events: seq<Event>, k: nat, r: Reading): (n: nat)
    requires k <= |events|
    ensures k <= n <= |events|
    decreases |events| - k
  {
    if k == |events| then k
    else match on(r, events[k]) case Continue(next) => StopAt(on, events, k + 1, next) case Finish(_, _) => k
  }

  /** `on` takes a reading that satisfies `inv` to one that satisfies it again, or stops as `ok`
      says. */
  ghost predicate Inductive(on: (Reading, Event) -> ReadStep, events: seq<Event>, inv: Holds, ok: Ends) {
    forall n: nat, r: Reading :: n < |events| && inv(n, r) ==> StepHolds(on(r, events[n]), n, inv, ok)
  }

  predicate StepHolds(step: ReadStep, n: nat, inv: Holds, ok: Ends) {
    match step
    case Continue(r) => inv(n + 1, r)
    case Finish(r, ending) => ok(n, r, ending)
  }

  /** A reading loop stops at an event as `ok` says, or reaches the end of the stream with `inv`
      intact. */
  lemma {:induction false} ReadInvariant(
      on: (Reading, Event) -> ReadStep, done: Reading -> Ending, events: seq<Event>, k: nat, r: Reading, inv: Holds,
      ok: Ends)
    requires k <= |events| && Inductive(on, events, inv, ok) && inv(k, r)
    ensures var (last, ending) := ReadLoop(on, done, events, k, r);
            var n := StopAt(on, events, k, r);
            if n < |events| then ok(n, last, ending) else inv(n, last) && ending == done(last)
    decreases |events| - k
  {
    if k < |events| {
      var step := on(r, events[k]);
      assert StepHolds(step, k, inv, ok);
      if step.Continue? {
        ReadInvariant(on, done, events, k + 1, step.reading, inv, ok);
      }
    }
  }

  // ----- one candidate's stream

  /** The text of the first `n` events of a stream. */
  function Text(events: seq<Event>, n: nat): Bytes
    requires n <= |events|
  {
    if n == 0 then []
    else Text(events, n - 1) + match events[n - 1] case Chunk(data) => data case _ => []
  }

  /** How many events a candidate had sent when its reading stopped at event `n`: the consumer
      closes after taking that event in, everything else stops the reading before. */
  function Sent(n: nat, ending: Ending): nat { if ending.Abandoned? then n + 1 else n }

  /** What has been received is what was yielded followed by what is held back, and nothing is
      held back once the candidate is committed. */
  ghost predicate Accounted(route: Route, target: Target, events: seq<Event>, n: nat, r: Reading) {
    && n <= |events|
    && Flatten(r.yielded) + r.pending == Text(events, n)
    && (r.committed || !IsFree(route, target) ==> r.pending == [])
    && (!r.committed ==> r.yielded == [])
    && (forall j :: 0 <= j < n ==> events[j].Chunk?)
  }

  lemma EmitAccounted(route: Route, target: Target, events: seq<Event>, n: nat, r: Reading, chunk: Bytes)
    requires n < |events| && forall j :: 0 <= j <= n ==> events[j].Chunk?
    requires Flatten(r.yielded) + chunk == Text(events, n + 1)
    ensures Accounted(route, target, events, n + 1, Emit(r, chunk).reading)
  {
    FlattenSnoc(r.yielded, chunk);
    assert Flatten(r.yielded + [chunk]) + [] == Flatten(r.yielded + [chunk]);
  }

  /** `step` took event `n` in, or stopped before taking it in. */
  ghost predicate StepAccounted(route: Route, target: Target, events: seq<Event>, n: nat, step: ReadStep) {
    match step
    case Continue(next) => Accounted(route, target, events, n + 1, next)
    case Finish(last, ending) => Accounted(route, target, events, Sent(n, ending), last)
  }

  lemma CheckedAccounted(
      route: Route, target: Target, events: seq<Event>, n: nat, r: Reading, data: Bytes, fed: FreeStream.Result)
    requires n < |events| && events[n] == Chunk(data) && Accounted(route, target, events, n, r) && IsFree(route, target)
    ensures StepAccounted(route, target, events, n, OnChecked(route, r, data, fed))
  {
    var checked := r.(flags := fed.state, buffer := fed.buffer);
    assert Text(events, n + 1) == Text(events, n) + data;
    Associative(Flatten(r.yielded), r.pending, data);
    assert r.committed ==> r.pending + data == data;
    if fed.error.None? {
      if r.committed || fed.state.hasOutput || fed.state.complete {
        EmitAccounted(route, target, events, n, checked, r.pending + data);
      }
    }
  }

  lemma ChunkAccounted(route: Route, target: Target, events: seq<Event>, n: nat, r: Reading, data: Bytes)
    requires n < |events| && events[n] == Chunk(data) && Accounted(route, target, events, n, r)
    ensures StepAccounted(route, target, events, n, OnChunk(route, target, r, data))
  {
    assert Text(events, n + 1) == Text(events, n) + data;
    if data == [] {
      assert Text(events, n) + data == Text(events, n);
    } else if IsFree(route, target) {
      CheckedAccounted(route, target, events, n, r, data,
                       FeedCheck(route.decoder, target.provider, r.flags, r.buffer, data));
    } else {
      assert Flatten(r.yielded) + r.pending == Flatten(r.yielded);
      EmitAccounted(route, target, events, n, r, data);
    }
  }

  /** An event never completes a candidate, the consumer closes only after it has received
      something, and only a free route stops at a chunk for another reason. */
  predicate StopsFor(route: Route, target: Target, event: Event, last: Reading, ending: Ending) {
    && !ending.Completed? && (ending.Abandoned? ==> last.committed)
    && (event.Chunk? && !ending.Abandoned? ==> IsFree(route, target))
  }

  lemma EventAccounted(route: Route, target: Target, events: seq<Event>, n: nat, r: Reading)
    requires n < |events| && Accounted(route, target, events, n, r)
    ensures var step := OnRead(route, target, r, events[n]);
            && StepAccounted(route, target, events, n, step)
            && (step.Continue? ==> events[n].Chunk?)
            && (step.Finish? ==> StopsFor(route, target, events[n], step.reading, step.ending))
  {
    match events[n] {
      case Chunk(data) => ChunkAccounted(route, target, events, n, r, data);
      case _ =>
    }
  }

  ghost predicate AccountedEnd(
    route: Route, target: Target, events: seq<Event>, n: nat, last: Reading, ending: Ending)
  {
    n < |events| && StopsFor(route, target, events[n], last, ending) &&
        Accounted(route, target, events, Sent(n, ending), last)
  }

  ghost function AccountedAt(route: Route, target: Target, events: seq<Event>): Holds {
    (n: nat, r: Reading) => Accounted(route, target, events, n, r)
  }

  ghost function AccountedStop(route: Route, target: Target, events: seq<Event>): Ends {
    (n: nat, r: Reading, ending: Ending) => AccountedEnd(route, target, events, n, r, ending)
  }

  lemma StepAccountedHolds(route: Route, target: Target, events: seq<Event>, n: nat, step: ReadStep)
    requires n < |events| && StepAccounted(route, target, events, n, step)
    requires step.Finish? ==> StopsFor(route, target, events[n], step.reading, step.ending)
    ensures StepHolds(step, n, AccountedAt(route, target, events), AccountedStop(route, target, events))
  {
  }

  lemma AccountingIsInductive(route: Route, target: Target, events: seq<Event>)
    ensures Inductive(Reader(route, target), events,
                      AccountedAt(route, target, events), AccountedStop(route, target, events))
  {
    var on, inv, ok := Reader(route, target), AccountedAt(route, target, events), AccountedStop(route, target, events);
    forall n: nat, r: Reading | n < |events| && inv(n, r) ensures StepHolds(on(r, events[n]), n, inv, ok) {
      EventAccounted(route, target, events, n, r);
      StepAccountedHolds(route, target, events, n, on(r, events[n]));
    }
  }

  /** Where the reading of one candidate's stream stops. */
  function ReadStop(route: Route, target: Target, events: seq<Event>, r: Reading): (n: nat)
    ensures n <= |events|
  {
    StopAt(Reader(route, target), events, 0, r)
  }

  /** Reading a stream accounts for every event up to the one where it stops, and only a stream
      without any failure event completes. */
  lemma ReadAccounted(route: Route, target: Target, events: seq<Event>, r: Reading)
    requires Accounted(route, target, events, 0, r)
    ensures var (last, ending) := Read(route, target, events, 0, r);
            var n := ReadStop(route, target, events, r);
            && Accounted(route, target, events, Sent(n, ending), last)
            && (ending.Completed? ==>
                   n == |events| && (IsFree(route, target) ==> last.committed && last.flags.complete))
            && (ending.Abandoned? ==> last.committed)
            && (n < |events| ==> StopsFor(route, target, events[n], last, ending))
  {
    AccountingIsInductive(route, target, events);
    ReadInvariant(Reader(route, target), Ender(route, target), events, 0, r,
                  AccountedAt(route, target, events), AccountedStop(route, target, events));
    var (last, ending) := Read(route, target, events, 0, r);
    assert ReadStop(route, target, events, r) == |events| ==> ending == OnEnd(route, target, last);
  }

  /** The nonempty chunks among the first `n` events. */
  function Chunks(events: seq<Event>, n: nat): seq<Bytes>
    requires n <= |events|
  {
    if n == 0 then []
    else match events[n - 1]
         case Chunk(data) => if data == [] then Chunks(events, n - 1) else Chunks(events, n - 1) + [data]
         case _ => Chunks(events, n - 1)
  }

  /** What the stream check makes of the first `n` events. */
  function VerdictOn(route: Route, target: Target, events: seq<Event>, n: nat): FreeStream.Result
    requires n <= |events|
  {
    Verdict(route.decoder, target.provider, Flags(false, false), Chunks(events, n))
  }

  /** The first `n` events show the check output or completion. */
  predicate Shown(route: Route, target: Target, events: seq<Event>, n: nat) {
    n <= |events| && var flags := VerdictOn(route, target, events, n).state; flags.hasOutput || flags.complete
  }

  /** The check holds exactly what feeding it those events gives, without any error so far; and
      the candidate is committed exactly when they have shown output or completion. */
  ghost predicate Checked(route: Route, target: Target, events: seq<Event>, n: nat, r: Reading) {
    && n <= |events|
    && VerdictOn(route, target, events, n) == Feeding(r.flags, r.buffer, None)
    && (r.committed <==> r.flags.hasOutput || r.flags.complete)
  }

  /** How the reading may stop at event `n`: committed exactly when the events sent by then have
      shown output or completion, and at a chunk only for what the check found in it, for too
      much unshown text, or because the consumer closes. */
  ghost predicate CheckedEnd(route: Route, target: Target, events: seq<Event>, n: nat, last: Reading, ending: Ending) {
    && n < |events| && !ending.Completed?
    && VerdictOn(route, target, events, n).error.None?
    && (last.committed <==> Shown(route, target, events, Sent(n, ending)))
    && (events[n].Chunk? && !ending.Abandoned? ==>
          || VerdictOn(route, target, events, n + 1).error.Some?
          || (!last.committed && |last.pending + events[n].data| > LIMIT))
  }

  ghost predicate StepChecked(route: Route, target: Target, events: seq<Event>, n: nat, step: ReadStep) {
    match step
    case Continue(r) => Checked(route, target, events, n + 1, r)
    case Finish(r, ending) => CheckedEnd(route, target, events, n, r, ending)
  }

  lemma VerdictSnoc(route: Route, target: Target, events: seq<Event>, n: nat, r: Reading, data: Bytes)
    requires n < |events| && events[n] == Chunk(data) && data != [] && Checked(route, target, events, n, r)
    ensures VerdictOn(route, target, events, n + 1) ==
        FeedCheck(route.decoder, target.provider, r.flags, r.buffer, data)
  {
    FeedAllSnoc(LineHandler(route.decoder, target.provider), Raised(TooLarge()), Flags(false, false), [],
        Chunks(events, n), data);
  }

  lemma ChunkChecked(route: Route, target: Target, events: seq<Event>, n: nat, r: Reading, data: Bytes)
    requires n < |events| && events[n] == Chunk(data) && IsFree(route, target) && Checked(route, target, events, n, r)
    ensures StepChecked(route, target, events, n, OnChunk(route, target, r, data))
  {
    if data != [] {
      VerdictSnoc(route, target, events, n, r, data);
      FlagsAreMonotone(route.decoder, target.provider, r.flags, r.buffer + data);
    }
  }

  ghost function CheckedAt(route: Route, target: Target, events: seq<Event>): Holds {
    (n: nat, r: Reading) => Checked(route, target, events, n, r)
  }

  ghost function CheckedStop(route: Route, target: Target, events: seq<Event>): Ends {
    (n: nat, r: Reading, ending: Ending) => CheckedEnd(route, target, events, n, r, ending)
  }

  lemma StepCheckedHolds(route: Route, target: Target, events: seq<Event>, n: nat, step: ReadStep)
    requires StepChecked(route, target, events, n, step)
    ensures StepHolds(step, n, CheckedAt(route, target, events), CheckedStop(route, target, events))
  {
  }

  lemma EventChecked(route: Route, target: Target, events: seq<Event>, n: nat, r: Reading)
    requires IsFree(route, target) && n < |events| && Checked(route, target, events, n, r)
    ensures StepChecked(route, target, events, n, OnRead(route, target, r, events[n]))
  {
    match events[n] {
      case Chunk(data) => ChunkChecked(route, target, events, n, r, data);
      case _ =>
    }
  }

  lemma CheckingIsInductive(route: Route, target: Target, events: seq<Event>)
    requires IsFree(route, target)
    ensures Inductive(Reader(route, target), events,
                      CheckedAt(route, target, events), CheckedStop(route, target, events))
  {
    var on, inv, ok := Reader(route, target), CheckedAt(route, target, events), CheckedStop(route, target, events);
    forall n: nat, r: Reading | n < |events| && inv(n, r) ensures StepHolds(on(r, events[n]), n, inv, ok) {
      EventChecked(route, target, events, n, r);
      StepCheckedHolds(route, target, events, n, on(r, events[n]));
    }
  }

  /** A free route passes text on exactly when what it has sent shows output or completion; its
      stream ends normally only if the check saw every chunk of it without an error. */
  lemma ReadChecked(route: Route, target: Target, events: seq<Event>, r: Reading)
    requires IsFree(route, target) && Checked(route, target, events, 0, r)
    ensures var (last, ending) := Read(route, target, events, 0, r);
            var n := ReadStop(route, target, events, r);
            && VerdictOn(route, target, events, n).error.None?
            && (last.committed <==> Shown(route, target, events, Sent(n, ending)))
            && (n < |events| ==> CheckedEnd(route, target, events, n, last, ending))
            && (ending.Completed? ==>
                   Checked(route, target, events, |events|, last) && last.committed && last.flags.complete)
  {
    var on, done := Reader(route, target), Ender(route, target);
    CheckingIsInductive(route, target, events);
    ReadInvariant(on, done, events, 0, r, CheckedAt(route, target, events), CheckedStop(route, target, events));
    var (last, ending) := ReadLoop(on, done, events, 0, r);
    CheckedAtEnd(route, target, events, StopAt(on, events, 0, r), last, ending);
  }

  lemma CheckedAtEnd(route: Route, target: Target, events: seq<Event>, n: nat, last: Reading, ending: Ending)
    requires IsFree(route, target) && n <= |events|
    requires if n < |events| then CheckedStop(route, target, events)(n, last, ending)
             else CheckedAt(route, target, events)(n, last) && ending == OnEnd(route, target, last)
    ensures VerdictOn(route, target, events, n).error.None?
    ensures last.committed <==> Shown(route, target, events, Sent(n, ending))
    ensures n < |events| ==> CheckedEnd(route, target, events, n, last, ending)
    ensures ending.Completed? ==>
        Checked(route, target, events, |events|, last) && last.committed && last.flags.complete
  {
  }

  // ----- one turn

  function EventsOf(turn: Turn): seq<Event> {
    match turn.opening case Opened(events) => events case _ => []
  }

  /** The event at which this turn stops reading; 0 when its stream does not open. */
  function TurnStop(route: Route, turn: Turn, target: Target, patience: nat): (n: nat)
    ensures n <= |EventsOf(turn)|
  {
    ReadStop(route, target, EventsOf(turn), NewReading(patience))
  }

  /** None of the first `n` events' text is passed on: there is none, or the route is free and
      the check has seen neither output nor completion. */
  predicate Withheld(route: Route, target: Target, events: seq<Event>, n: nat)
    requires n <= |events|
  {
    Text(events, n) == [] || (IsFree(route, target) && !Shown(route, target, events, n))
  }

  /** `text` is what the turn's candidate had sent when its reading stopped, all of it; or
      nothing, if that is withheld.  The consumer, which takes `patience` chunks after the first,
      closes only after it has received one more. */
  ghost predicate Delivers(
    route: Route, turn: Turn, target: Target, patience: nat, outcome: Outcome, text: seq<Bytes>)
  {
    var events := EventsOf(turn);
    var n := TurnStop(route, turn, target, patience) + if outcome.Closed? then 1 else 0;
    && n <= |events|
    && (if text == [] then Withheld(route, target, events, n) else Flatten(text) == Text(events, n))
    && (IsFree(route, target) ==> (text != [] <==> Shown(route, target, events, n)))
    && (outcome.Returned? ==> n == |events| && Flatten(text) == Text(events, n))
    && (outcome.Closed? || outcome.Interrupted? ==> text != [])
    && (if outcome.Closed? then |text| == patience + 1 else |text| <= patience)
  }

  type Delivery = (nat, Target, Outcome, seq<Bytes>) -> bool

  ghost function DeliveryOf(route: Route, turns: nat -> Turn, patience: nat): Delivery {
    (i: nat, t: Target, outcome: Outcome, text: seq<Bytes>) => Delivers(route, turns(i), t, patience, outcome, text)
  }

  /** Between two moments of an execution that a turn ended, the consumer received what `delivery`
      says of that turn, and nothing else. */
  predicate Says(delivery: Delivery, i: nat, target: Target, before: Progress, outcome: Outcome, after: Progress) {
    && before.output <= after.output
    && after.outputStarted == (before.outputStarted || after.output != before.output)
    && delivery(i, target, outcome, after.output[|before.output|..])
  }

  predicate Silent(before: Progress, after: Progress) {
    after.output == before.output && after.outputStarted == before.outputStarted
  }

  predicate TurnSays(delivery: Delivery, i: nat, target: Target, before: Progress, end: TurnEnd) {
    match end
    case Skip => true
    case GoOn(after, _) => Silent(before, after)
    case Halt(outcome, after) => Says(delivery, i, target, before, outcome, after)
  }

  /** A reading is committed exactly when it has yielded, and each yield costs one of the chunks
      the consumer asks for. */
  predicate Yields(patience: nat, r: Reading) {
    (r.committed <==> r.yielded != []) && |r.yielded| + r.patience == patience
  }

  predicate YieldsEnd(patience: nat, r: Reading, ending: Ending) {
    && (r.committed <==> r.yielded != [])
    && (if ending.Abandoned? then |r.yielded| == patience + 1 else |r.yielded| <= patience)
  }

  lemma EventYields(route: Route, target: Target, r: Reading, event: Event, patience: nat)
    requires Yields(patience, r)
    ensures match OnRead(route, target, r, event)
            case Continue(next) => Yields(patience, next)
            case Finish(last, ending) => YieldsEnd(patience, last, ending)
  {
  }

  ghost function YieldsAt(patience: nat): Holds { (n: nat, r: Reading) => Yields(patience, r) }

  ghost function YieldsStop(patience: nat): Ends {
    (n: nat, r: Reading, ending: Ending) => YieldsEnd(patience, r, ending)
  }

  lemma ReadYields(route: Route, target: Target, events: seq<Event>, r: Reading, patience: nat)
    requires Yields(patience, r)
    ensures var (last, ending) := Read(route, target, events, 0, r);
            YieldsEnd(patience, last, ending)
  {
    var on, done := Reader(route, target), Ender(route, target);
    forall n: nat, r: Reading | n < |events| && YieldsAt(patience)(n, r)
      ensures StepHolds(on(r, events[n]), n, YieldsAt(patience), YieldsStop(patience))
    {
      EventYields(route, target, r, events[n], patience);
    }
    ReadInvariant(on, done, events, 0, r, YieldsAt(patience), YieldsStop(patience));
    var (last, ending) := Read(route, target, events, 0, r);
    assert ReadStop(route, target, events, r) == |events| ==> ending == OnEnd(route, target, last);
  }

  /** What a turn that was not skipped has read, and where. */
  ghost predicate TurnRead(route: Route, turn: Turn, target: Target, patience: nat, r: Reading, ending: Ending) {
    var events := EventsOf(turn);
    var n := Sent(TurnStop(route, turn, target, patience), ending);
    && Accounted(route, target, events, n, r)
    && YieldsEnd(patience, r, ending)
    && (IsFree(route, target) ==> (r.committed <==> Shown(route, target, events, n)))
    && (ending.Completed? ==> n == |events| && (IsFree(route, target) ==> r.committed))
    && (ending.Abandoned? ==> r.committed)
  }

  lemma OutcomeRead(route: Route, turn: Turn, target: Target, patience: nat)
    ensures var (r, ending) := Outcomes(route, turn, target, patience);
            TurnRead(route, turn, target, patience, r, ending)
  {
    var events, start := EventsOf(turn), NewReading(patience);
    assert Flatten<Byte>([]) + [] == Text(events, 0);
    assert Chunks(events, 0) == [];
    assert VerdictOn(route, target, events, 0) == Feeding(start.flags, start.buffer, None);
    match turn.opening {
      case Opened(_) =>
        ReadAccounted(route, target, events, start);
        ReadYields(route, target, events, start, patience);
        if IsFree(route, target) {
          ReadChecked(route, target, events, start);
        }
      case _ =>
    }
  }

  /** What the reading of a turn amounts to for the consumer. */
  lemma ReadDelivers(
      route: Route, turn: Turn, target: Target, patience: nat, r: Reading, ending: Ending, outcome: Outcome)
    requires TurnRead(route, turn, target, patience, r, ending)
    requires outcome.Closed? <==> ending.Abandoned?
    requires outcome.Returned? ==> ending.Completed?
    requires outcome.Interrupted? ==> r.committed
    ensures Delivers(route, turn, target, patience, outcome, r.yielded)
  {
    assert Flatten(r.yielded) + [] == Flatten(r.yielded);
    assert r.yielded == [] ==> Flatten(r.yielded) + r.pending == r.pending;
  }

  /** A turn's output is the text its stream sent, in order and without loss or repetition, and a
      turn the loop continues after has delivered nothing. */
  lemma TurnDelivers(route: Route, turns: nat -> Turn, index: nat, target: Target, st: Progress, patience: nat)
    ensures TurnSays(DeliveryOf(route, turns, patience), index, target, st,
                     TakeTurn(route, turns(index), index, target, st, patience))
  {
    var turn := turns(index);
    var (r, ending) := Outcomes(route, turn, target, patience);
    OutcomeRead(route, turn, target, patience);
    match TakeTurn(route, turn, index, target, st, patience) {
      case Skip =>
      case GoOn(after, _) => assert st.output + [] == st.output;
      case Halt(outcome, after) =>
        assert after.output == st.output + r.yielded;
        assert after.output[|st.output|..] == r.yielded;
        ReadDelivers(route, turn, target, patience, r, ending, outcome);
    }
  }

  /** A candidate is given up for the next one only while all it has sent is withheld. */
  lemma OnlyUnseenIsDropped(route: Route, turn: Turn, index: nat, target: Target, st: Progress, patience: nat)
    requires TakeTurn(route, turn, index, target, st, patience).GoOn?
    ensures Withheld(route, target, EventsOf(turn), TurnStop(route, turn, target, patience))
  {
    OutcomeRead(route, turn, target, patience);
  }

  /** Where a turn stops reading: every event before is a chunk that the check of a free route
      accepts, and a chunk stops the reading only because the consumer closes after it, because
      the check of a free route refuses it, or because the withheld text exceeds the limit. */
  lemma StopIsEarliest(route: Route, turn: Turn, target: Target, patience: nat)
    requires turn.opening.Opened?
    ensures var events, n := EventsOf(turn), TurnStop(route, turn, target, patience);
            && (forall j :: 0 <= j < n ==> events[j].Chunk?)
            && (IsFree(route, target) ==> VerdictOn(route, target, events, n).error.None?)
            && (n < |events| && events[n].Chunk? ==>
                  || Outcomes(route, turn, target, patience).1.Abandoned?
                  || (IsFree(route, target) && VerdictOn(route, target, events, n + 1).error.Some?)
                  || (IsFree(route, target) && !Shown(route, target, events, n) && |Text(events, n + 1)| > LIMIT))
  {
    var events, n, start := EventsOf(turn), TurnStop(route, turn, target, patience), NewReading(patience);
    assert Flatten<Byte>([]) + [] == Text(events, 0);
    assert VerdictOn(route, target, events, 0) == Feeding(start.flags, start.buffer, None);
    ReadAccounted(route, target, events, start);
    var (last, ending) := Read(route, target, events, 0, start);
    if IsFree(route, target) {
      ReadChecked(route, target, events, start);
      if n < |events| && events[n].Chunk? && !ending.Abandoned? && !last.committed {
        assert last.yielded == [] && Flatten(last.yielded) + last.pending == last.pending;
        assert Text(events, n + 1) == last.pending + events[n].data;
      }
    }
  }

  // ----- whole runs: the output

  lemma {:induction false} RunBounds(
      loop: Loop, candidates: seq<Target>, index: nat, st: Progress, last: Option<Failure>)
    requires loop.Lawful() && index <= |candidates|
    ensures var e := Run(loop, candidates, index, st, last);
            && index <= e.at <= |candidates| == |e.candidates|
            && (e.at == |candidates| ==> e.outcome.Exhausted? || (e.outcome.Returned? && !loop.pooled))
    decreases |candidates| - index
  {
    if index < |candidates| {
      match loop.take(index, candidates[index], st) {
        case Skip => RunBounds(loop, candidates, index + 1, st, last);
        case Halt(_, _) =>
        case GoOn(after, failure) =>
          RunBounds(loop, loop.next(candidates, index), index + 1, after, Some(failure));
      }
    }
  }

  ghost predicate RunSays(delivery: Delivery, before: Progress, e: RunEnd)
    requires e.at <= |e.candidates|
  {
    if e.at < |e.candidates| then Says(delivery, e.at, e.candidates[e.at], before, e.outcome, e.st)
    else Silent(before, e.st)
  }

  lemma {:induction false} RunDelivers(
      loop: Loop, delivery: Delivery, candidates: seq<Target>, index: nat, st: Progress, last: Option<Failure>)
    requires loop.Lawful() && index <= |candidates|
    requires forall i: nat, t, s :: TurnSays(delivery, i, t, s, loop.take(i, t, s))
    ensures var e := Run(loop, candidates, index, st, last);
            e.at <= |e.candidates| && RunSays(delivery, st, e)
    decreases |candidates| - index
  {
    RunBounds(loop, candidates, index, st, last);
    if index < |candidates| {
      assert TurnSays(delivery, index, candidates[index], st, loop.take(index, candidates[index], st));
      match loop.take(index, candidates[index], st) {
        case Skip => RunDelivers(loop, delivery, candidates, index + 1, st, last);
        case Halt(_, _) =>
        case GoOn(after, failure) =>
          RunDelivers(loop, delivery, loop.next(candidates, index), index + 1, after, Some(failure));
      }
    }
  }

  /** Everything one execution yields comes from the candidate at the position where it ended,
      and is exactly the text that candidate had sent when its turn stopped reading; candidates
      tried before contributed nothing, and a normal end delivers that candidate's whole stream. */
  lemma OneSource(route: Route, turns: nat -> Turn, candidates: seq<Target>, st: Progress, patience: nat)
    ensures var e := Execute(route, turns, candidates, st, patience);
            e.at <= |e.candidates| == |candidates| && RunSays(DeliveryOf(route, turns, patience), st, e)
  {
    var loop, delivery := LoopOf(route, turns, patience), DeliveryOf(route, turns, patience);
    forall i: nat, t, s ensures TurnSays(delivery, i, t, s, loop.take(i, t, s)) {
      TurnDelivers(route, turns, i, t, s, patience);
    }
    RunBounds(loop, candidates, 0, st, None);
    RunDelivers(loop, delivery, candidates, 0, st, None);
  }

  // ----- whole runs: the candidates

  type Relation = (seq<Target>, seq<Target>, nat) -> bool

  /** What a relation needs so that rearrangements can follow one another. */
  ghost predicate Preorder(rel: Relation) {
    && (forall a, n :: rel(a, a, n))
    && (forall a, b, n, m :: rel(a, b, n) && m <= n ==> rel(a, b, m))
    && (forall a, b, c, n :: rel(a, b, n) && rel(b, c, n) ==> rel(a, c, n))
  }

  ghost predicate Preserves(loop: Loop, rel: Relation) {
    forall c: seq<Target>, i: nat :: rel(c, loop.next(c, i), i + 1)
  }

  lemma {:induction false} CandidatesRelated(
      loop: Loop, rel: Relation, candidates: seq<Target>, index: nat, st: Progress, last: Option<Failure>)
    requires loop.Lawful() && Preorder(rel) && Preserves(loop, rel) && index <= |candidates|
    ensures rel(candidates, Run(loop, candidates, index, st, last).candidates, index)
    ensures index < |candidates| ==> rel(candidates, Run(loop, candidates, index, st, last).candidates, index + 1)
    decreases |candidates| - index
  {
    if index < |candidates| {
      match loop.take(index, candidates[index], st) {
        case Skip => CandidatesRelated(loop, rel, candidates, index + 1, st, last);
        case Halt(_, _) =>
        case GoOn(after, failure) =>
          CandidatesRelated(loop, rel, loop.next(candidates, index), index + 1, after, Some(failure));
      }
    }
  }

  ghost function RearrangedBy(billing: Target -> string): Relation {
    (a: seq<Target>, b: seq<Target>, n: nat) => Rearranged(billing, a, b, n)
  }

  lemma RearrangedTwice(billing: Target -> string, a: seq<Target>, b: seq<Target>, c: seq<Target>, n: nat)
    requires Rearranged(billing, a, b, n) && Rearranged(billing, b, c, n)
    ensures Rearranged(billing, a, c, n)
  {
  }

  lemma RearrangedIsPreorder(billing: Target -> string)
    ensures Preorder(RearrangedBy(billing))
  {
    var rel := RearrangedBy(billing);
    forall a, b, c, n | rel(a, b, n) && rel(b, c, n) ensures rel(a, c, n) {
      RearrangedTwice(billing, a, b, c, n);
    }
  }

  /** The list is only rearranged ahead of the current position, loses and gains nothing, and
      keeps the billing category of every position. */
  lemma CandidatesKept(loop: Loop, candidates: seq<Target>, index: nat, st: Progress, last: Option<Failure>)
    requires loop.Lawful() && loop.Rearranges() && index <= |candidates|
    ensures Rearranged(loop.billing, candidates, Run(loop, candidates, index, st, last).candidates, index)
    ensures index < |candidates| ==>
      Rearranged(loop.billing, candidates, Run(loop, candidates, index, st, last).candidates, index + 1)
  {
    RearrangedIsPreorder(loop.billing);
    CandidatesRelated(loop, RearrangedBy(loop.billing), candidates, index, st, last);
  }

  // ----- whole runs: the calls made

  /** The calls added after the first `from`: every candidate is opened at most once and at its
      own position, in order of position; what is recorded of a candidate directly follows its
      opening; and a success, made only if `succeeded`, is the last call and is about the last
      position. */
  ghost predicate NewCalls(log: seq<Call>, from: nat, candidates: seq<Target>, lo: nat, hi: nat, succeeded: bool) {
    && from <= |log| && hi <= |candidates|
    && (from < |log| ==> log[from].Attempt?)
    && (forall k, m :: from <= k < m < |log| && m == k + 1 && !log[m].Attempt? ==>
          log[k].Attempt? && log[k].target == log[m].target)
    && (forall k :: from <= k < |log| && log[k].Attempt? ==>
          lo <= log[k].index < hi && log[k].target == candidates[log[k].index])
    && (forall k, m :: from <= k < m < |log| && log[k].Attempt? && log[m].Attempt? ==> log[k].index < log[m].index)
    && (forall k :: from <= k < |log| && log[k].Success? ==> succeeded && k == |log| - 1)
    && (succeeded ==>
          && from + 2 <= |log| && lo < hi && log[|log| - 1].Success?
          && log[|log| - 2] == Attempt(hi - 1, candidates[hi - 1]))
  }

  ghost predicate TurnCalls(route: Route, index: nat, target: Target, before: Progress, end: TurnEnd) {
    end.Skip? ||
    var log := end.st.log;
    var n := |before.log|;
    var succeeded := end.Halt? && end.outcome.Returned? && IsFree(route, target);
    && n < |log| <= n + 2 && before.log <= log && log[n] == Attempt(index, target)
    && (succeeded ==> n + 1 < |log|)
    && (n + 1 < |log| ==>
          !log[n + 1].Attempt? && log[n + 1].target == target && (log[n + 1].Success? <==> succeeded))
  }

  lemma TurnMakesCalls(route: Route, turn: Turn, index: nat, target: Target, st: Progress, patience: nat)
    ensures TurnCalls(route, index, target, st, TakeTurn(route, turn, index, target, st, patience))
  {
  }

  /** A run's success is recorded exactly when a free candidate's stream ended normally. */
  predicate Succeeded(route: Route, e: RunEnd)
    requires e.at <= |e.candidates|
  {
    e.at < |e.candidates| && e.outcome.Returned? && IsFree(route, e.candidates[e.at])
  }

  lemma CallsJoin(a: seq<Call>, from: nat, mid: nat, candidates: seq<Target>, lo: nat, hi: nat, succeeded: bool)
    requires lo < hi <= |candidates| && from < mid <= |a| && mid <= from + 2
    requires a[from] == Attempt(lo, candidates[lo])
    requires forall k :: from < k < mid ==> a[k].Failing? && a[k].target == candidates[lo]
    requires NewCalls(a, mid, candidates, lo + 1, hi, succeeded)
    ensures NewCalls(a, from, candidates, lo, hi, succeeded)
  {
  }

  lemma LastTurnCalls(route: Route, index: nat, target: Target, before: Progress, end: TurnEnd, candidates: seq<Target>)
    requires TurnCalls(route, index, target, before, end) && !end.Skip?
    requires index < |candidates| && candidates[index] == target
    ensures var succeeded := end.Halt? && end.outcome.Returned? && IsFree(route, target);
            && before.log <= end.st.log
            && NewCalls(end.st.log, |before.log|, candidates, index, index + 1, succeeded)
            && end.st.log[|before.log|] == Attempt(index, target)
            && |end.st.log| <= |before.log| + 2
            && (end.GoOn? ==> forall k :: |before.log| < k < |end.st.log| ==>
                  end.st.log[k].Failing? && end.st.log[k].target == target)
  {
  }

  /** `e` ends a run that started with log `before` at position `index`. */
  ghost predicate RunMade(route: Route, before: seq<Call>, index: nat, e: RunEnd) {
    && e.at <= |e.candidates| && before <= e.st.log
    && NewCalls(e.st.log, |before|, e.candidates, index, Min(e.at + 1, |e.candidates|), Succeeded(route, e))
  }

  lemma RunMadeAfter(route: Route, index: nat, target: Target, before: Progress, end: TurnEnd, e: RunEnd)
    requires TurnCalls(route, index, target, before, end) && end.GoOn?
    requires index < |e.candidates| && e.candidates[index] == target && index < e.at
    requires RunMade(route, end.st.log, index + 1, e)
    ensures RunMade(route, before.log, index, e)
  {
    LastTurnCalls(route, index, target, before, end, e.candidates);
    CallsJoin(e.st.log, |before.log|, |end.st.log|, e.candidates, index, Min(e.at + 1, |e.candidates|),
        Succeeded(route, e));
  }

  lemma RunMadeLast(route: Route, index: nat, before: Progress, end: TurnEnd, candidates: seq<Target>)
    requires index < |candidates| && TurnCalls(route, index, candidates[index], before, end) && end.Halt?
    ensures RunMade(route, before.log, index, RunEnd(end.outcome, index, candidates, end.st))
  {
    LastTurnCalls(route, index, candidates[index], before, end, candidates);
  }

  lemma RunMadeSkip(route: Route, before: seq<Call>, index: nat, e: RunEnd)
    requires RunMade(route, before, index + 1, e)
    ensures RunMade(route, before, index, e)
  {
  }

  lemma {:induction false} RunCalls(
      route: Route, loop: Loop, candidates: seq<Target>, index: nat, st: Progress, last: Option<Failure>)
    requires loop.Lawful() && loop.Rearranges() && index <= |candidates|
    requires forall i: nat, t, s :: TurnCalls(route, i, t, s, loop.take(i, t, s))
    ensures RunMade(route, st.log, index, Run(loop, candidates, index, st, last))
    decreases |candidates| - index
  {
    RunBounds(loop, candidates, index, st, last);
    if index < |candidates| {
      var end := loop.take(index, candidates[index], st);
      assert TurnCalls(route, index, candidates[index], st, end);
      CandidatesKept(loop, candidates, index, st, last);
      match end {
        case Skip =>
          RunCalls(route, loop, candidates, index + 1, st, last);
          RunMadeSkip(route, st.log, index, Run(loop, candidates, index + 1, st, last));
        case Halt(_, _) => RunMadeLast(route, index, st, end, candidates);
        case GoOn(after, failure) =>
          RunBounds(loop, loop.next(candidates, index), index + 1, after, Some(failure));
          RunCalls(route, loop, loop.next(candidates, index), index + 1, after, Some(failure));
          RunMadeAfter(route, index, candidates[index], st, end, Run(loop, candidates, index, st, last));
      }
    }
  }

  // ----- whole runs: the failure budget

  ghost predicate Grown(a: FailureCounts, b: FailureCounts) {
    forall p :: Count(a, p) <= Count(b, p)
  }

  /** A recorded failure that counts against its provider. */
  predicate Charge(call: Call) { call.Failing? && call.affectsAvailability }

  /** How many of the first `n` calls are failures charged to one of the providers. */
  function Charged(log: seq<Call>, n: nat, providers: set<string>): nat
    requires n <= |log|
  {
    if n == 0 then 0
    else Charged(log, n - 1, providers) + if Charge(log[n - 1]) && log[n - 1].target.provider in providers then 1 else 0
  }

  lemma {:induction false} ChargedPrefix(a: seq<Call>, b: seq<Call>, n: nat, providers: set<string>)
    requires n <= |a| && a <= b
    ensures Charged(a, n, providers) == Charged(b, n, providers)
  {
    if n > 0 {
      ChargedPrefix(a, b, n - 1, providers);
    }
  }

  /** A turn charges its own provider at most once, only while that provider is below its
      limit, and exactly when it records a failure that affects availability. */
  ghost predicate TurnCharges(route: Route, target: Target, before: Progress, end: TurnEnd) {
    end.Skip? ||
    var after, n := end.st, |before.log|;
    && before.log <= after.log && n < |after.log| <= n + 2 && !Charge(after.log[n])
    && if !route.budgeted || |after.log| == n + 1 || !Charge(after.log[n + 1]) then after.failures == before.failures
       else
         && after.log[n + 1].target == target && Allowed(before.failures, target.provider)
         && after.failures == Recorded(before.failures, target.provider)
  }

  lemma TurnChargesOnce(route: Route, turn: Turn, index: nat, target: Target, st: Progress, patience: nat)
    ensures TurnCharges(route, target, st, TakeTurn(route, turn, index, target, st, patience))
  {
  }

  /** Between two moments of an execution: the failures of the given providers grow by exactly
      the failures charged to them. */
  ghost predicate Tallies(route: Route, providers: set<string>, before: Progress, after: Progress) {
    && before.log <= after.log
    && (route.budgeted ==>
          Total(after.failures, providers) + Charged(after.log, |before.log|, providers)
          == Total(before.failures, providers) + Charged(after.log, |after.log|, providers))
  }

  lemma TurnTallies(route: Route, providers: set<string>, target: Target, before: Progress, end: TurnEnd)
    requires TurnCharges(route, target, before, end) && !end.Skip?
    ensures Tallies(route, providers, before, end.st)
  {
    var after, n := end.st, |before.log|;
    assert Charged(after.log, n + 1, providers) == Charged(after.log, n, providers);
    if after.failures != before.failures {
      if target.provider in providers {
        TotalAfterFailure(before.failures, providers, target.provider);
      } else {
        TotalAgrees(before.failures, after.failures, providers);
      }
    }
  }

  lemma TalliesTwice(route: Route, providers: set<string>, a: Progress, b: Progress, c: Progress)
    requires Tallies(route, providers, a, b) && Tallies(route, providers, b, c)
    ensures Tallies(route, providers, a, c)
  {
    ChargedPrefix(b.log, c.log, |a.log|, providers);
    ChargedPrefix(b.log, c.log, |b.log|, providers);
  }

  /** Between two moments of an execution over `providers`: no provider's failures exceed the
      limit, none is forgotten, and the total grows by exactly the failures charged. */
  ghost predicate Charges(route: Route, providers: set<string>, before: Progress, after: Progress) {
    && (WithinLimit(before.failures) ==> WithinLimit(after.failures))
    && Grown(before.failures, after.failures)
    && after.failures.Keys <= before.failures.Keys + providers
    && Tallies(route, providers, before, after)
  }

  lemma TurnChargesTotal(route: Route, providers: set<string>, target: Target, before: Progress, end: TurnEnd)
    requires TurnCharges(route, target, before, end) && !end.Skip? && target.provider in providers
    ensures Charges(route, providers, before, end.st)
  {
    TurnTallies(route, providers, target, before, end);
    if end.st.failures != before.failures {
      RecordedCounts(before.failures, target.provider);
    }
  }

  lemma ChargesTwice(route: Route, providers: set<string>, a: Progress, b: Progress, c: Progress)
    requires Charges(route, providers, a, b) && Charges(route, providers, b, c)
    ensures Charges(route, providers, a, c)
  {
    TalliesTwice(route, providers, a, b, c);
  }

  ghost predicate Covers(providers: set<string>, candidates: seq<Target>) {
    forall j :: 0 <= j < |candidates| ==> candidates[j].provider in providers
  }

  lemma RearrangedCovers(providers: set<string>, billing: Target -> string, a: seq<Target>, b: seq<Target>, n: nat)
    requires Rearranged(billing, a, b, n) && Covers(providers, a)
    ensures Covers(providers, b)
  {
    forall j | 0 <= j < |b| ensures b[j].provider in providers {
      assert b[j] in multiset(b) && b[j] in multiset(a);
    }
  }

  lemma {:induction false} RunCharges(
      route: Route, loop: Loop, providers: set<string>, candidates: seq<Target>, index: nat, st: Progress,
      last: Option<Failure>)
    requires loop.Lawful() && loop.Rearranges() && index <= |candidates|
    requires forall i: nat, t, s :: TurnCharges(route, t, s, loop.take(i, t, s))
    requires Covers(providers, candidates)
    ensures Charges(route, providers, st, Run(loop, candidates, index, st, last).st)
    decreases |candidates| - index
  {
    if index < |candidates| {
      var target := candidates[index];
      var end := loop.take(index, target, st);
      assert TurnCharges(route, target, st, end);
      if end.Skip? {
        RunCharges(route, loop, providers, candidates, index + 1, st, last);
      } else {
        TurnChargesTotal(route, providers, target, st, end);
        if end.GoOn? {
          var next := loop.next(candidates, index);
          RearrangedCovers(providers, loop.billing, candidates, next, index + 1);
          RunCharges(route, loop, providers, next, index + 1, end.st, Some(end.failure));
          ChargesTwice(route, providers, st, end.st, Run(loop, candidates, index, st, last).st);
        }
      }
    }
  }

  // ----- whole runs: no candidate forgotten

  /** Position `j`'s turn comes when `m` calls have been made: of those since `from`, every
      opening before is of an earlier position, and none after is. */
  ghost predicate TurnComesAt(log: seq<Call>, from: nat, j: nat, m: nat) {
    && from <= m <= |log|
    && (m < |log| ==> log[m].Attempt?)
    && (forall k :: from <= k < m && log[k].Attempt? ==> log[k].index < j)
    && (forall k :: m <= k < |log| && log[k].Attempt? ==> j <= log[k].index)
  }

  /** The failures that count against a provider when `m` calls have been made. */
  function FailuresBy(before: Progress, log: seq<Call>, provider: string, m: nat): int
    requires |before.log| <= m <= |log|
  {
    Count(before.failures, provider) + Charged(log, m, {provider}) - Charged(log, |before.log|, {provider})
  }

  /** The candidate at position `j` is opened when its turn comes, unless its provider has reached
      the failure limit by then or its free route is cooling down. */
  ghost predicate Considered(route: Route, turns: nat -> Turn, before: Progress, e: RunEnd, j: nat, m: nat) {
    && j < |e.candidates|
    && TurnComesAt(e.st.log, |before.log|, j, m)
    && var target := e.candidates[j];
       var spent := route.budgeted && FailuresBy(before, e.st.log, target.provider, m) >= PROVIDER_FAILURE_LIMIT;
       (m < |e.st.log| && e.st.log[m] == Attempt(j, target)) <==> !spent && !(IsFree(route, target) && turns(j).cooling)
  }

  ghost predicate TurnConsiders(route: Route, turn: Turn, target: Target, before: Progress, end: TurnEnd) {
    var spent := route.budgeted && !Allowed(before.failures, target.provider);
    end.Skip? <==> spent || (IsFree(route, target) && turn.cooling)
  }

  lemma TurnIsConsidered(route: Route, turn: Turn, index: nat, target: Target, st: Progress, patience: nat)
    ensures TurnConsiders(route, turn, target, st, TakeTurn(route, turn, index, target, st, patience))
  {
  }

  /** What a turn may do, taken together. */
  ghost predicate TurnKept(route: Route, turns: nat -> Turn, i: nat, t: Target, s: Progress, end: TurnEnd) {
    && TurnCharges(route, t, s, end)
    && TurnCalls(route, i, t, s, end)
    && TurnConsiders(route, turns(i), t, s, end)
  }

  ghost predicate TurnsKept(route: Route, turns: nat -> Turn, loop: Loop) {
    forall i: nat, t, s {:trigger TurnKept(route, turns, i, t, s, loop.take(i, t, s))} ::
      TurnKept(route, turns, i, t, s, loop.take(i, t, s))
  }

  lemma TurnsKeep(route: Route, turns: nat -> Turn, loop: Loop)
    requires TurnsKept(route, turns, loop)
    ensures forall i: nat, t, s :: TurnCharges(route, t, s, loop.take(i, t, s))
    ensures forall i: nat, t, s :: TurnCalls(route, i, t, s, loop.take(i, t, s))
  {
    forall i: nat, t, s
      ensures TurnCharges(route, t, s, loop.take(i, t, s)) && TurnCalls(route, i, t, s, loop.take(i, t, s))
    {
      assert TurnKept(route, turns, i, t, s, loop.take(i, t, s));
    }
  }

  /** A skipped position: what follows opens later positions only. */
  lemma SkippedConsidered(route: Route, turns: nat -> Turn, index: nat, before: Progress, e: RunEnd)
    requires index < |e.candidates| && RunMade(route, before.log, index + 1, e)
    requires TurnConsiders(route, turns(index), e.candidates[index], before, Skip)
    ensures Considered(route, turns, before, e, index, |before.log|)
  {
  }

  /** A position that is not skipped is opened at once. */
  lemma OpenedConsidered(route: Route, turns: nat -> Turn, index: nat, before: Progress, end: TurnEnd, e: RunEnd)
    requires index < |e.candidates| && RunMade(route, before.log, index, e)
    requires TurnKept(route, turns, index, e.candidates[index], before, end) && !end.Skip? && end.st.log <= e.st.log
    ensures Considered(route, turns, before, e, index, |before.log|)
  {
    assert e.st.log[|before.log|] == Attempt(index, e.candidates[index]);
  }

  /** What holds of a later position from the end of a turn on holds from its beginning on. */
  lemma ConsideredLater(
      route: Route, turns: nat -> Turn, index: nat, target: Target, before: Progress, end: TurnEnd, e: RunEnd, j: nat,
      m: nat)
    requires TurnKept(route, turns, index, target, before, end) && end.GoOn? && end.st.log <= e.st.log
    requires index < j && Considered(route, turns, end.st, e, j, m)
    ensures Considered(route, turns, before, e, j, m)
  {
    var after, p := end.st, {e.candidates[j].provider};
    assert TurnComesAt(e.st.log, |before.log|, j, m);
    TurnTallies(route, p, target, before, end);
    ChargedPrefix(after.log, e.st.log, |after.log|, p);
    ChargedPrefix(after.log, e.st.log, |before.log|, p);
    TotalOfOne(before.failures, e.candidates[j].provider);
    TotalOfOne(after.failures, e.candidates[j].provider);
  }

  lemma FirstConsidered(
      route: Route, loop: Loop, turns: nat -> Turn, candidates: seq<Target>, index: nat, st: Progress,
      last: Option<Failure>)
    requires loop.Lawful() && loop.Rearranges() && index < |candidates| && TurnsKept(route, turns, loop)
    ensures Considered(route, turns, st, Run(loop, candidates, index, st, last), index, |st.log|)
  {
    var end := loop.take(index, candidates[index], st);
    var e := Run(loop, candidates, index, st, last);
    assert TurnKept(route, turns, index, candidates[index], st, end);
    TurnsKeep(route, turns, loop);
    CandidatesKept(loop, candidates, index, st, last);
    assert e.candidates[index] == candidates[index];
    RunCalls(route, loop, candidates, index, st, last);
    match end {
      case Skip =>
        RunCalls(route, loop, candidates, index + 1, st, last);
        SkippedConsidered(route, turns, index, st, e);
      case Halt(_, _) => OpenedConsidered(route, turns, index, st, end, e);
      case GoOn(after, failure) =>
        RunCalls(route, loop, loop.next(candidates, index), index + 1, after, Some(failure));
        OpenedConsidered(route, turns, index, st, end, e);
    }
  }

  lemma RunConsidersLater(
      route: Route, loop: Loop, turns: nat -> Turn, candidates: seq<Target>, next: seq<Target>, index: nat,
      st: Progress,
      end: TurnEnd, j: nat, m: nat)
    requires loop.Lawful() && loop.Rearranges() && index < |candidates| == |next| && TurnsKept(route, turns, loop)
    requires end == loop.take(index, candidates[index], st) && end.GoOn?
    requires index < j && Considered(route, turns, end.st, Run(loop, next, index + 1, end.st, Some(end.failure)), j, m)
    ensures Considered(route, turns, st, Run(loop, next, index + 1, end.st, Some(end.failure)), j, m)
  {
    TurnsKeep(route, turns, loop);
    RunCalls(route, loop, next, index + 1, end.st, Some(end.failure));
    assert TurnKept(route, turns, index, candidates[index], st, end);
    ConsideredLater(route, turns, index, candidates[index], st, end,
        Run(loop, next, index + 1, end.st, Some(end.failure)), j, m);
  }

  lemma {:induction false} RunConsiders(
      route: Route, loop: Loop, turns: nat -> Turn,
      candidates: seq<Target>, index: nat, st: Progress, last: Option<Failure>, j: nat) returns (m: nat)
    requires loop.Lawful() && loop.Rearranges() && index <= |candidates| && TurnsKept(route, turns, loop)
    requires index <= j < |candidates| && j <= Run(loop, candidates, index, st, last).at
    ensures Considered(route, turns, st, Run(loop, candidates, index, st, last), j, m)
    decreases |candidates| - index
  {
    if j == index {
      FirstConsidered(route, loop, turns, candidates, index, st, last);
      m := |st.log|;
    } else {
      var end := loop.take(index, candidates[index], st);
      match end {
        case Skip => m := RunConsiders(route, loop, turns, candidates, index + 1, st, last, j);
        case Halt(_, _) => assert false;
        case GoOn(after, failure) =>
          var next := loop.next(candidates, index);
          m := RunConsiders(route, loop, turns, next, index + 1, after, Some(failure), j);
          RunConsidersLater(route, loop, turns, candidates, next, index, st, end, j, m);
      }
    }
  }

  // ----- whole runs: another provider next

  type Spot = (seq<Target>, nat) -> bool

  /** Positions where a failure was are `diverse`, and failures further on leave them so. */
  ghost predicate Diversifies(loop: Loop, diverse: Spot) {
    && (forall c: seq<Target>, i: nat :: i + 1 < |c| ==> diverse(loop.next(c, i), i))
    && (forall c: seq<Target>, i: nat, j: nat ::
          j < i && j + 1 < |c| && diverse(c, j) ==> diverse(loop.next(c, i), j))
  }

  lemma {:induction false} DiversityKept(
      loop: Loop, diverse: Spot, candidates: seq<Target>, index: nat, st: Progress, last: Option<Failure>, j: nat)
    requires loop.Lawful() && Diversifies(loop, diverse) && index <= |candidates|
    requires j < index && j + 1 < |candidates| && diverse(candidates, j)
    ensures diverse(Run(loop, candidates, index, st, last).candidates, j)
    decreases |candidates| - index
  {
    if index < |candidates| {
      match loop.take(index, candidates[index], st) {
        case Skip => DiversityKept(loop, diverse, candidates, index + 1, st, last, j);
        case Halt(_, _) =>
        case GoOn(after, failure) =>
          DiversityKept(loop, diverse, loop.next(candidates, index), index + 1, after, Some(failure), j);
      }
    }
  }

  lemma {:induction false} RunDiversifies(
      loop: Loop, diverse: Spot, candidates: seq<Target>, index: nat, st: Progress, last: Option<Failure>, j: nat)
    requires loop.Lawful() && Diversifies(loop, diverse) && index <= |candidates|
    requires index <= j && j + 1 < |candidates| && j < Run(loop, candidates, index, st, last).at
    ensures var e := Run(loop, candidates, index, st, last);
            diverse(e.candidates, j) || SkippedAt(loop, candidates, index, st, last, j)
    decreases |candidates| - index
  {
    RunBounds(loop, candidates, index, st, last);
    match loop.take(index, candidates[index], st) {
      case Skip =>
        if j > index { RunDiversifies(loop, diverse, candidates, index + 1, st, last, j); }
      case Halt(_, _) =>
      case GoOn(after, failure) =>
        var next := loop.next(candidates, index);
        if j > index {
          RunDiversifies(loop, diverse, next, index + 1, after, Some(failure), j);
        } else {
          DiversityKept(loop, diverse, next, index + 1, after, Some(failure), index);
        }
    }
  }

  ghost function DiverseAt(billing: Target -> string): Spot {
    (c: seq<Target>, j: nat) => j + 1 < |c| && Diverse(c, j, PROVIDER_OF, billing)
  }

  lemma ExecutionDiversifies(route: Route, turns: nat -> Turn, patience: nat)
    requires route.pooled
    ensures Diversifies(LoopOf(route, turns, patience), DiverseAt(BillingOf(route)))
  {
    var next, billing := LoopOf(route, turns, patience).next, BillingOf(route);
    forall c: seq<Target>, i: nat | i + 1 < |c| ensures DiverseAt(billing)(next(c, i), i) {
      PreferredIsDiverse(c, i, PROVIDER_OF, billing);
    }
    forall c: seq<Target>, i: nat, j: nat | j < i && j + 1 < |c| && DiverseAt(billing)(c, j)
      ensures DiverseAt(billing)(next(c, i), j)
    {
      DiversityStays(c, j, i, PROVIDER_OF, billing);
    }
  }

  /** The turn at position `j` of the run was skipped. */
  predicate SkippedAt(loop: Loop, candidates: seq<Target>, index: nat, st: Progress, last: Option<Failure>, j: nat)
    requires loop.Lawful() && index <= |candidates|
    decreases |candidates| - index
  {
    index < |candidates| && index <= j &&
    match loop.take(index, candidates[index], st)
    case Skip => j == index || SkippedAt(loop, candidates, index + 1, st, last, j)
    case Halt(_, _) => false
    case GoOn(after, failure) => SkippedAt(loop, loop.next(candidates, index), index + 1, after, Some(failure), j)
  }

  /** A position that was skipped was not attempted. */
  lemma {:induction false} SkippedNotAttempted(
      route: Route, loop: Loop, candidates: seq<Target>, index: nat, st: Progress, last: Option<Failure>, j: nat,
      k: nat)
    requires loop.Lawful() && loop.Rearranges() && index <= |candidates|
    requires forall i: nat, t, s :: TurnCalls(route, i, t, s, loop.take(i, t, s))
    requires SkippedAt(loop, candidates, index, st, last, j)
    requires |st.log| <= k < |Run(loop, candidates, index, st, last).st.log|
    ensures var call := Run(loop, candidates, index, st, last).st.log[k];
            call.Attempt? ==> call.index != j
    decreases |candidates| - index
  {
    var end := loop.take(index, candidates[index], st);
    assert TurnCalls(route, index, candidates[index], st, end);
    if end.Skip? {
      RunCalls(route, loop, candidates, index + 1, st, last);
      if j > index {
        SkippedNotAttempted(route, loop, candidates, index + 1, st, last, j, k);
      }
    } else {
      var next := loop.next(candidates, index);
      RunCalls(route, loop, next, index + 1, end.st, Some(end.failure));
      LastTurnCalls(route, index, candidates[index], st, end, candidates);
      if k >= |end.st.log| {
        SkippedNotAttempted(route, loop, next, index + 1, end.st, Some(end.failure), j, k);
      }
    }
  }

  // ----- which failures say that a request may be tried again

  function RaisedFailure(outcome: Outcome): Option<Failure> {
    match outcome
    case Exhausted(failure) => Some(failure)
    case Interrupted(failure) => Some(failure)
    case Escaping(EscapedFailure(failure)) => Some(failure)
    case _ => None
  }

  predicate EventUnflagged(event: Event) { event.ReadFailed? ==> !event.failure.recoverySafe }

  /** Providers and error classification do not set the recovery flag themselves. */
  ghost predicate WorldUnflagged(route: Route, turns: nat -> Turn) {
    && Unflagged(route.decoder)
    && forall i: nat :: TurnUnflagged(turns(i))
  }

  predicate TurnUnflagged(turn: Turn) {
    match turn.opening
    case OpenFailed(failure) => !failure.recoverySafe
    case Opened(events) => forall k :: 0 <= k < |events| ==> EventUnflagged(events[k])
    case _ => true
  }

  predicate EndingUnflagged(ending: Ending) {
    match ending
    case Failed(failure, _) => !failure.recoverySafe
    case Escaped(EscapedFailure(failure)) => !failure.recoverySafe
    case _ => true
  }

  lemma CheckedUnflagged(route: Route, target: Target, r: Reading, data: Bytes)
    requires Unflagged(route.decoder)
    ensures var step := OnChunk(route, target, r, data);
            step.Finish? ==> EndingUnflagged(step.ending)
  {
    DrainUnflagged(route.decoder, target.provider, r.flags, r.buffer + data);
  }

  lemma ReadUnflagged(route: Route, target: Target, events: seq<Event>, r: Reading)
    requires Unflagged(route.decoder)
    requires forall j :: 0 <= j < |events| ==> EventUnflagged(events[j])
    ensures EndingUnflagged(Read(route, target, events, 0, r).1)
  {
    var inv, ok := (n: nat, r: Reading) => true, (n: nat, r: Reading, ending: Ending) => EndingUnflagged(ending);
    forall n: nat, r: Reading | n < |events| ensures StepHolds(Reader(route, target)(r, events[n]), n, inv, ok) {
      if events[n].Chunk? {
        CheckedUnflagged(route, target, r, events[n].data);
      }
      assert EventUnflagged(events[n]);
    }
    ReadInvariant(Reader(route, target), Ender(route, target), events, 0, r, inv, ok);
  }

  ghost predicate HaltUnflagged(end: TurnEnd) {
    end.Halt? ==>
      !end.outcome.Exhausted? && match RaisedFailure(end.outcome) case Some(f) => !f.recoverySafe case None => true
  }

  lemma TurnHaltsUnflagged(route: Route, turn: Turn, index: nat, target: Target, st: Progress, patience: nat)
    requires Unflagged(route.decoder) && TurnUnflagged(turn)
    ensures HaltUnflagged(TakeTurn(route, turn, index, target, st, patience))
  {
    match turn.opening {
      case Opened(events) => ReadUnflagged(route, target, events, NewReading(patience));
      case _ =>
    }
  }

  lemma {:induction false} RunFlags(
      loop: Loop, candidates: seq<Target>, index: nat, st: Progress, last: Option<Failure>)
    requires loop.Lawful() && index <= |candidates|
    requires forall i: nat, t, s :: HaltUnflagged(loop.take(i, t, s))
    ensures var e := Run(loop, candidates, index, st, last);
            match RaisedFailure(e.outcome)
            case None => true
            case Some(f) =>
              if e.outcome.Exhausted? then
                e.at == |candidates| &&
                    (loop.pooled ==> (f.recoverySafe <==> !e.st.outputStarted && RecoverableStatus(f.status)))
              else !f.recoverySafe
    decreases |candidates| - index
  {
    if index < |candidates| {
      var end := loop.take(index, candidates[index], st);
      assert HaltUnflagged(end);
      match end {
        case Skip => RunFlags(loop, candidates, index + 1, st, last);
        case Halt(_, _) =>
        case GoOn(after, failure) => RunFlags(loop, loop.next(candidates, index), index + 1, after, Some(failure));
      }
    }
  }

  // ----- the executor's promises, for one whole execution

  /** A failure marked safe for recovery is raised only when every candidate was used up, by an
      execution that delivered nothing; at that point it is marked exactly when no output was
      ever started and its status is recoverable. */
  lemma SafeFailureMeansSilence(route: Route, turns: nat -> Turn, candidates: seq<Target>, st: Progress, patience: nat)
    requires route.pooled && WorldUnflagged(route, turns)
    ensures var e := Execute(route, turns, candidates, st, patience);
            match RaisedFailure(e.outcome)
            case None => true
            case Some(f) =>
              && (f.recoverySafe ==> e.outcome.Exhausted? && e.st.output == st.output && !st.outputStarted)
              && (e.outcome.Exhausted? ==>
                    (f.recoverySafe <==> !st.outputStarted && f.status in {402, 429, 502, 503, 504, 529}))
  {
    var loop := LoopOf(route, turns, patience);
    forall i: nat, t, s ensures HaltUnflagged(loop.take(i, t, s)) {
      TurnHaltsUnflagged(route, turns(i), i, t, s, patience);
    }
    RunFlags(loop, candidates, 0, st, None);
    OneSource(route, turns, candidates, st, patience);
  }

  lemma ExecutionTurns(route: Route, turns: nat -> Turn, patience: nat)
    ensures TurnsKept(route, turns, LoopOf(route, turns, patience))
  {
    var loop := LoopOf(route, turns, patience);
    forall i: nat, t, s ensures TurnKept(route, turns, i, t, s, loop.take(i, t, s)) {
      TurnChargesOnce(route, turns(i), i, t, s, patience);
      TurnMakesCalls(route, turns(i), i, t, s, patience);
      TurnIsConsidered(route, turns(i), i, t, s, patience);
    }
  }

  /** However the list is rearranged while being walked: the final order is a permutation of the
      given one with the same billing category at every position; every candidate is opened at
      most once, in order of its final position; and at most one success is recorded, as the
      last call, exactly when a free route's stream ended normally. */
  lemma EachCandidateOnce(route: Route, turns: nat -> Turn, candidates: seq<Target>, st: Progress, patience: nat)
    ensures var e := Execute(route, turns, candidates, st, patience);
            && Rearranged(BillingOf(route), candidates, e.candidates, 0)
            && e.at <= |candidates| && st.log <= e.st.log
            && NewCalls(e.st.log, |st.log|, e.candidates, 0, Min(e.at + 1, |candidates|), Succeeded(route, e))
  {
    var loop := LoopOf(route, turns, patience);
    LoopRearranges(route, turns, patience);
    ExecutionTurns(route, turns, patience);
    TurnsKeep(route, turns, loop);
    CandidatesKept(loop, candidates, 0, st, None);
    RunCalls(route, loop, candidates, 0, st, None);
    RunBounds(loop, candidates, 0, st, None);
  }

  /** A recorded success means that the winning free route's stream was read to its end, that
      the stream check accepted all of it, and that it was complete. */
  lemma SuccessMeansComplete(route: Route, turns: nat -> Turn, candidates: seq<Target>, st: Progress, patience: nat)
    ensures var e := Execute(route, turns, candidates, st, patience);
            && e.at <= |e.candidates|
            && (Succeeded(route, e) ==>
                  var events := EventsOf(turns(e.at));
                  var verdict := Verdict(route.decoder, e.candidates[e.at].provider, Flags(false, false),
                      Chunks(events, |events|));
                  turns(e.at).opening.Opened? && verdict.error.None? && verdict.state.complete)
  {
    var loop := LoopOf(route, turns, patience);
    RunBounds(loop, candidates, 0, st, None);
    forall i: nat, t, s ensures TurnCompletes(route, turns(i), t, loop.take(i, t, s)) {
      TurnCompletesChecked(route, turns(i), i, t, s, patience);
    }
    RunCompletes(route, loop, turns, candidates, 0, st, None);
  }

  ghost predicate TurnCompletes(route: Route, turn: Turn, target: Target, end: TurnEnd) {
    end.Halt? && end.outcome.Returned? && IsFree(route, target) ==>
      var events := EventsOf(turn);
      var verdict := Verdict(route.decoder, target.provider, Flags(false, false), Chunks(events, |events|));
      turn.opening.Opened? && verdict.error.None? && verdict.state.complete
  }

  lemma TurnCompletesChecked(route: Route, turn: Turn, index: nat, target: Target, st: Progress, patience: nat)
    ensures TurnCompletes(route, turn, target, TakeTurn(route, turn, index, target, st, patience))
  {
    if turn.opening.Opened? && IsFree(route, target) {
      ReadChecked(route, target, turn.opening.events, NewReading(patience));
    }
  }

  lemma {:induction false} RunCompletes(
      route: Route, loop: Loop, turns: nat -> Turn, candidates: seq<Target>, index: nat, st: Progress,
      last: Option<Failure>)
    requires loop.Lawful() && index <= |candidates|
    requires forall i: nat, t, s :: TurnCompletes(route, turns(i), t, loop.take(i, t, s))
    ensures var e := Run(loop, candidates, index, st, last);
            e.at < |e.candidates| ==>
              TurnCompletes(route, turns(e.at), e.candidates[e.at], Halt(e.outcome, e.st))
    decreases |candidates| - index
  {
    if index < |candidates| {
      var end := loop.take(index, candidates[index], st);
      assert TurnCompletes(route, turns(index), candidates[index], end);
      match end {
        case Skip => RunCompletes(route, loop, turns, candidates, index + 1, st, last);
        case Halt(_, _) =>
        case GoOn(after, failure) =>
          RunCompletes(route, loop, turns, loop.next(candidates, index), index + 1, after, Some(failure));
      }
    }
  }

  /** Every position up to the one where the execution ended, hence every position when the
      candidates were exhausted, was opened when its turn came, except exactly those whose
      provider had reached the failure limit by then or whose route was cooling down. */
  lemma NothingForgotten(route: Route, turns: nat -> Turn, candidates: seq<Target>, st: Progress, patience: nat, j: nat)
    ensures var e := Execute(route, turns, candidates, st, patience);
            && |e.candidates| == |candidates|
            && (route.pooled && e.at == |candidates| ==> e.outcome.Exhausted?)
            && (j <= e.at && j < |candidates| ==> exists m: nat :: Considered(route, turns, st, e, j, m))
  {
    var loop := LoopOf(route, turns, patience);
    var e := Execute(route, turns, candidates, st, patience);
    LoopRearranges(route, turns, patience);
    ExecutionTurns(route, turns, patience);
    RunBounds(loop, candidates, 0, st, None);
    if j <= e.at && j < |candidates| {
      var m := RunConsiders(route, loop, turns, candidates, 0, st, None, j);
    }
  }

  /** After an attempt that failed before output, the next position has a different provider
      whenever its billing category's run still offers one. */
  lemma AnotherProviderNext(
      route: Route, turns: nat -> Turn, candidates: seq<Target>, st: Progress, patience: nat, k: nat)
    requires route.pooled
    requires var e := Execute(route, turns, candidates, st, patience);
             && |st.log| <= k < |e.st.log| && e.st.log[k].Attempt?
             && e.st.log[k].index < e.at && e.st.log[k].index + 1 < |candidates|
    ensures var e := Execute(route, turns, candidates, st, patience);
            && |e.candidates| == |candidates|
            && Diverse(e.candidates, e.st.log[k].index, PROVIDER_OF, BillingOf(route))
  {
    var loop := LoopOf(route, turns, patience);
    var j := Execute(route, turns, candidates, st, patience).st.log[k].index;
    LoopRearranges(route, turns, patience);
    ExecutionTurns(route, turns, patience);
    TurnsKeep(route, turns, loop);
    CandidatesKept(loop, candidates, 0, st, None);
    ExecutionDiversifies(route, turns, patience);
    RunDiversifies(loop, DiverseAt(BillingOf(route)), candidates, 0, st, None, j);
    if SkippedAt(loop, candidates, 0, st, None, j) {
      SkippedNotAttempted(route, loop, candidates, 0, st, None, j, k);
    }
  }

  /** No execution takes a provider above its failure limit, and the total failure count of any
      set of providers containing the candidates' grows by exactly the failures charged. */
  lemma FailuresBounded(
      route: Route, turns: nat -> Turn, providers: set<string>, candidates: seq<Target>, st: Progress, patience: nat)
    requires Covers(providers, candidates)
    ensures Charges(route, providers, st, Execute(route, turns, candidates, st, patience).st)
  {
    var loop := LoopOf(route, turns, patience);
    LoopRearranges(route, turns, patience);
    ExecutionTurns(route, turns, patience);
    TurnsKeep(route, turns, loop);
    RunCharges(route, loop, providers, candidates, 0, st, None);
  }
}
