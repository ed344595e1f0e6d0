/** The supervisor of one server: callers that schedule, restart and stop it, and the thread that
    runs it, generation by generation.  A step is what one of them does under the lock, or one
    operation of the run thread between two uses of the lock; steps interleave freely. */
module ServerSupervisor {
  import opened Common

  /** Where the run thread is.  `captured` is the restart generation it took before it loaded its
      settings; `clean` says whether the server returned normally. */
  datatype Thread =
    | Idle
    | LoopHead
    | Capturing
    | Loading(captured: nat)
    | Reserving(captured: nat)
    | Building(captured: nat)
    | Serving(captured: nat)
    | Unpublishing(captured: nat, clean: bool)
    | Checking(captured: nat)
    | Finishing

  datatype State = State(
    stop: bool,
    scheduled: bool,
    running: bool,
    exiting: Option<bool>,    // `should_exit` of the published server, if there is one
    generation: nat,
    thread: Thread,
    loads: seq<nat>,          // the generation captured before each load of the settings
    runs: nat)

  datatype Step = Schedule | Begin | Restart | Stop | Advance(ok: bool, closed: bool)

  const INITIAL := State(false, false, false, None, 0, Idle, [], 0)

  predicate Captures(t: Thread) {
    t.Loading? || t.Reserving? || t.Building? || t.Serving? || t.Unpublishing? || t.Checking?
  }

  predicate Published(t: Thread) { t.Serving? || t.Unpublishing? }

  // ----- the steps

  function Scheduled(s: State): State {
    if s.stop || s.scheduled || s.running then s else s.(scheduled := true)
  }

  /** The start of `run`: refused with an error while another run is active. */
  function Begun(s: State): State {
    if s.running || s.stop then s.(scheduled := false)
    else s.(scheduled := false, running := true, thread := LoopHead, runs := s.runs + 1)
  }

  predicate Accepts(s: State) { !s.stop && (s.scheduled || s.running) }

  function Exiting(exiting: Option<bool>): Option<bool> { if exiting.Some? then Some(true) else None }

  function Restarted(s: State): State {
    if !Accepts(s) then s
    else if s.scheduled then s.(generation := s.generation + 1)
    else s.(generation := s.generation + 1, exiting := Exiting(s.exiting))
  }

  function Stopped(s: State): State { s.(stop := true, scheduled := false, exiting := Exiting(s.exiting)) }

  /** The run thread's next operation.  `ok` is false when that operation raises; `closed` is
      what the runtime reports at the exit check. */
  function Advanced(s: State, ok: bool, closed: bool): State {
    match s.thread
    case Idle => s
    case LoopHead => s.(thread := if s.stop then Finishing else Capturing)
    case Capturing => s.(thread := Loading(s.generation))
    case Loading(c) => if ok then s.(thread := Reserving(c), loads := s.loads + [c]) else s.(thread := Finishing)
    case Reserving(c) => s.(thread := if ok && !s.stop then Building(c) else Finishing)
    case Building(c) =>
      if ok then s.(thread := Serving(c), exiting := Some(s.stop || s.generation != c))
      else s.(thread := Finishing)
    case Serving(c) => s.(thread := Unpublishing(c, ok))
    case Unpublishing(c, clean) => s.(thread := if clean then Checking(c) else Finishing, exiting := None)
    case Checking(c) => s.(thread := if s.generation != c && !s.stop && closed then LoopHead else Finishing)
    case Finishing => s.(thread := Idle, running := false, exiting := None)
  }

  function Next(s: State, step: Step): State {
    match step
    case Schedule => Scheduled(s)
    case Begin => Begun(s)
    case Restart => Restarted(s)
    case Stop => Stopped(s)
    case Advance(ok, closed) => Advanced(s, ok, closed)
  }

  /** The first `n` steps one after another, for any way of taking a step. */
  function Fold(next: (State, Step) -> State, s: State, steps: seq<Step>, n: nat): State
    requires n <= |steps|
  {
    if n == 0 then s else next(Fold(next, s, steps, n - 1), steps[n - 1])
  }

  function Taking(): (State, Step) -> State { (s: State, step: Step) => Next(s, step) }

  function Run(s: State, steps: seq<Step>, n: nat): State
    requires n <= |steps|
  {
    Fold(Taking(), s, steps, n)
  }

  lemma {:induction false} FoldPrefix(
      next: (State, Step) -> State, s: State, a: seq<Step>, b: seq<Step>, n: nat)
    requires n <= |a|
    ensures Fold(next, s, a + b, n) == Fold(next, s, a, n)
  {
    if n > 0 {
      FoldPrefix(next, s, a, b, n - 1);
    }
  }

  lemma {:induction false} FoldAppend(
      next: (State, Step) -> State, s: State, a: seq<Step>, b: seq<Step>, n: nat)
    requires n <= |b|
    ensures Fold(next, s, a + b, |a| + n) == Fold(next, Fold(next, s, a, |a|), b, n)
  {
    if n == 0 {
      FoldPrefix(next, s, a, b, |a|);
    } else {
      FoldAppend(next, s, a, b, n - 1);
      assert (a + b)[|a| + n - 1] == b[n - 1];
    }
  }

  lemma FoldBetween(
      next: (State, Step) -> State, s: State, before: seq<Step>, step: Step, after: seq<Step>)
    ensures var steps := before + ([step] + after);
            Fold(next, s, steps, |steps|) == Fold(next, next(Fold(next, s, before, |before|), step), after, |after|)
  {
    var waiting := Fold(next, s, before, |before|);
    FoldAppend(next, s, before, [step] + after, 1 + |after|);
    FoldAppend(next, waiting, [step], after, |after|);
    assert Fold(next, waiting, [step], 0) == waiting;
    assert Fold(next, waiting, [step], 1) == next(waiting, step);
  }

  lemma {:induction false} FoldKeeps(
      next: (State, Step) -> State, inv: State -> bool, s: State, steps: seq<Step>, n: nat)
    requires n <= |steps| && inv(s) && forall r: State, step: Step :: inv(r) ==> inv(next(r, step))
    ensures inv(Fold(next, s, steps, n))
  {
    if n > 0 {
      FoldKeeps(next, inv, s, steps, n - 1);
    }
  }

  // ----- what every step keeps

  /** A published server has been told to exit exactly if it is stale or a stop was requested. */
  predicate ToldToExit(s: State) {
    s.exiting.Some? && Captures(s.thread) ==> (s.exiting.value <==> s.stop || s.thread.captured != s.generation)
  }

  predicate Coherent(s: State) {
    && (s.running <==> !s.thread.Idle?)
    && (s.scheduled ==> !s.running && !s.stop)
    && (s.exiting.Some? <==> Published(s.thread))
    && (Captures(s.thread) ==> s.thread.captured <= s.generation)
    && (forall i :: 0 <= i < |s.loads| ==> s.loads[i] <= s.generation)
  }

  /** Every load of the settings is paid for: the first of a run by the run, each later one by an
      accepted restart. */
  predicate Earned(s: State) {
    match s.thread
    case LoopHead | Capturing => |s.loads| + 1 <= s.runs + s.generation
    case Loading(c) => |s.loads| + 1 <= s.runs + c
    case Reserving(c) => |s.loads| <= s.runs + c
    case Building(c) => |s.loads| <= s.runs + c
    case Serving(c) => |s.loads| <= s.runs + c
    case Unpublishing(c, _) => |s.loads| <= s.runs + c
    case Checking(c) => |s.loads| <= s.runs + c
    case _ => |s.loads| <= s.runs + s.generation
  }

  predicate Good(s: State) { Coherent(s) && ToldToExit(s) && Earned(s) }

  lemma StepKeeps(s: State, step: Step)
    requires Good(s)
    ensures Good(Next(s, step)) && Next(s, step).generation >= s.generation
  {
  }

  /** In every interleaving of callers and run thread: a server that is still published has been told
      to exit exactly if it is stale or stopped, and the settings are loaded at most once for every
      run and every accepted restart. */
  lemma {:induction false} AlwaysGood(s: State, steps: seq<Step>, n: nat)
    requires n <= |steps| && Good(s)
    ensures Good(Run(s, steps, n)) && Run(s, steps, n).generation >= s.generation
    ensures |Run(s, steps, n).loads| <= Run(s, steps, n).runs + Run(s, steps, n).generation
  {
    if n > 0 {
      AlwaysGood(s, steps, n - 1);
      StepKeeps(Run(s, steps, n - 1), steps[n - 1]);
    }
  }

  // ----- the observable status

  datatype Status = STARTING | RUNNING | STOPPING | STOPPED

  function StatusOf(s: State, started: bool): Status {
    if s.scheduled then STARTING
    else if !s.running then STOPPED
    else if s.exiting.None? then STARTING
    else if s.exiting.value then STOPPING
    else if started then RUNNING
    else STARTING
  }

  /** What the status tells: no run is scheduled or active; or a server is published and to exit, as
      it is stale or stopped; or it is up, built from the current generation and not stopped; and
      STARTING in all other cases. */
  lemma StatusMeans(steps: seq<Step>, started: bool)
    ensures var s := Run(INITIAL, steps, |steps|);
            var status, up := StatusOf(s, started), s.thread.Serving? || s.thread.Unpublishing?;
            && (status == STOPPED <==> !s.scheduled && s.thread == Idle)
            && (status == STOPPING <==> up && (s.stop || s.thread.captured != s.generation))
            && (status == RUNNING <==> up && !s.stop && s.thread.captured == s.generation && started)
  {
    AlwaysGood(INITIAL, steps, |steps|);
  }

  // ----- stopping

  /** Operations left to the run thread once a stop was requested. */
  function StopRank(t: Thread): nat {
    match t
    case Idle => 0
    case Finishing => 1
    case LoopHead => 2
    case Checking(_) => 2
    case Unpublishing(_, _) => 3
    case Serving(_) => 4
    case Building(_) => 5
    case Reserving(_) => 6
    case Loading(_) => 7
    case Capturing => 8
  }

  function Advances(steps: seq<Step>, n: nat): nat
    requires n <= |steps|
  {
    if n == 0 then 0 else Advances(steps, n - 1) + if steps[n - 1].Advance? then 1 else 0
  }

  lemma StopStep(s: State, step: Step)
    requires Good(s) && s.stop
    ensures var r := Next(s, step);
            && r.stop && r.runs == s.runs
            && StopRank(r.thread) <= Max(0, StopRank(s.thread) - if step.Advance? then 1 else 0)
  {
  }

  lemma {:induction false} StopCountsDown(s: State, steps: seq<Step>, n: nat)
    requires n <= |steps| && Good(s) && s.stop
    ensures var r := Run(s, steps, n);
            r.stop && r.runs == s.runs && StopRank(r.thread) <= Max(0, StopRank(s.thread) - Advances(steps, n))
  {
    if n > 0 {
      StopCountsDown(s, steps, n - 1);
      AlwaysGood(s, steps, n - 1);
      StopStep(Run(s, steps, n - 1), steps[n - 1]);
    }
  }

  /** A stop request is final: whatever else happens, the run thread is idle after at most eight
      of its own operations, and no run begins again. */
  lemma StopIsFinal(s: State, steps: seq<Step>, n: nat)
    requires n <= |steps| && Good(s) && s.stop
    ensures var r := Run(s, steps, n);
            r.stop && r.runs == s.runs && StopRank(r.thread) <= Max(0, StopRank(s.thread) - Advances(steps, n))
    ensures Advances(steps, n) >= 8 ==> !Run(s, steps, n).running
  {
    AlwaysGood(s, steps, n);
    StopCountsDown(s, steps, n);
  }

  /** A stop in time keeps a server from being built. */
  predicate StoppedEarly(s: State) { s.stop && !s.thread.Building? && !Published(s.thread) }

  lemma {:induction false} NoServerAfterStop(s: State, steps: seq<Step>, n: nat)
    requires n <= |steps| && Good(s) && StoppedEarly(s)
    ensures StoppedEarly(Run(s, steps, n)) && Run(s, steps, n).exiting.None?
  {
    AlwaysGood(s, steps, n);
    if n > 0 {
      NoServerAfterStop(s, steps, n - 1);
    }
  }

  // ----- restarting

  /** The settings have been loaded after generation `g` was captured. */
  predicate Reloaded(s: State, g: nat) { exists i :: 0 <= i < |s.loads| && s.loads[i] >= g }

  predicate LoadedBefore(s: State, g: nat) { forall i :: 0 <= i < |s.loads| ==> s.loads[i] < g }

  /** Operations left to the run thread until it has loaded the settings for generation `g`. */
  function ReloadRank(t: Thread, g: nat): nat {
    match t
    case Loading(c) => if c >= g then 1 else 9
    case Capturing => 2
    case LoopHead => 3
    case Checking(_) => 4
    case Unpublishing(_, _) => 5
    case Serving(_) => 6
    case Building(_) => 7
    case Reserving(_) => 8
    case _ => 0
  }

  /** The thread has not passed its exit check, and its server has not failed. */
  predicate InTime(t: Thread) { !t.Idle? && !t.Finishing? && (t.Unpublishing? ==> t.clean) }

  /** With `left` operations to go, what keeps the thread from that load: an exception from
      loading, reserving, building or serving; a runtime that is not closed at the exit check; or
      a stop before the thread has passed the head of its loop for the last time. */
  predicate Hinders(step: Step, left: int) {
    match step
    case Advance(ok, closed) => (!ok && left in {1, 6, 7, 8, 9}) || (!closed && left == 4)
    case Stop => left >= 3
    case _ => false
  }

  /** None of the first `n` steps hinders a thread that has `rank` operations to go. */
  predicate Unhindered(rank: nat, steps: seq<Step>, n: nat)
    requires n <= |steps|
  {
    forall i :: 0 <= i < n ==> !Hinders(steps[i], rank - Advances(steps, i))
  }

  /** A thread at `t` gets through to the load within these steps. */
  predicate GetsThrough(t: Thread, g: nat, steps: seq<Step>) {
    InTime(t) && Advances(steps, |steps|) >= ReloadRank(t, g) && Unhindered(ReloadRank(t, g), steps, |steps|)
  }

  /** The run thread is `left` operations away from loading the settings for generation `g`. */
  predicate OnTrack(s: State, g: nat, left: nat) {
    && left > 0 && ReloadRank(s.thread, g) == left && InTime(s.thread)
    && s.generation >= g && LoadedBefore(s, g)
    && (Captures(s.thread) && left > 1 ==> s.thread.captured < g)
    && (left >= 3 ==> !s.stop)
  }

  /** No later operation of this run can load the settings for generation `g`. */
  predicate Missed(s: State, g: nat) {
    && LoadedBefore(s, g)
    && (Captures(s.thread) ==> s.thread.captured < g)
    && (!InTime(s.thread) || (s.stop && !s.thread.Capturing?))
  }

  lemma TrackStep(s: State, step: Step, g: nat, left: nat)
    requires Good(s) && OnTrack(s, g, left)
    ensures var r := Next(s, step);
            if Hinders(step, left) then Missed(r, g)
            else if !step.Advance? then OnTrack(r, g, left)
            else if left > 1 then OnTrack(r, g, left - 1)
            else Reloaded(r, g)
  {
    if left == 1 && step.Advance? && step.ok {
      assert Next(s, step).loads[|s.loads|] >= g;
    }
  }

  lemma MissedStep(s: State, step: Step, g: nat)
    requires Good(s) && Missed(s, g) && Next(s, step).runs == s.runs
    ensures Missed(Next(s, step), g)
  {
  }

  lemma ReloadedStays(s: State, step: Step, g: nat)
    requires Reloaded(s, g)
    ensures Reloaded(Next(s, step), g)
  {
    var i :| 0 <= i < |s.loads| && s.loads[i] >= g;
    assert Next(s, step).loads[i] == s.loads[i];
  }

  /** From a state with `runs` runs on: this run has missed generation `g` unless another began. */
  ghost function MissedBy(runs: nat, g: nat): State -> bool {
    (r: State) => Good(r) && r.runs >= runs && (r.runs == runs ==> Missed(r, g))
  }

  lemma MissedStays(s: State, steps: seq<Step>, n: nat, g: nat)
    requires n <= |steps| && Good(s) && Missed(s, g)
    ensures Run(s, steps, n).runs >= s.runs && (Run(s, steps, n).runs == s.runs ==> Missed(Run(s, steps, n), g))
  {
    var inv := MissedBy(s.runs, g);
    forall r: State, step: Step | inv(r) ensures inv(Next(r, step)) {
      StepKeeps(r, step);
      if Next(r, step).runs == s.runs {
        MissedStep(r, step, g);
      }
    }
    FoldKeeps(Taking(), inv, s, steps, n);
  }

  /** Where a thread is that was to load the settings for `g` after `left` operations, if nothing
      has hindered it so far (`clear`), or else as long as no run but the first `runs` has begun. */
  predicate Followed(s: State, g: nat, left: int, clear: bool, runs: nat) {
    if !clear then s.runs == runs ==> Missed(s, g)
    else if left > 0 then OnTrack(s, g, left)
    else Reloaded(s, g)
  }

  lemma FollowStep(s: State, step: Step, g: nat, left: int, clear: bool, runs: nat)
    requires Good(s) && s.runs >= runs
    ensures Followed(s, g, left, clear, runs)
        ==> Followed(Next(s, step), g, left - (if step.Advance? then 1 else 0), clear && !Hinders(step, left), runs)
  {
    if Followed(s, g, left, clear, runs) {
      if clear && left > 0 {
        TrackStep(s, step, g, left);
      } else if clear {
        ReloadedStays(s, step, g);
      } else if Next(s, step).runs == runs {
        MissedStep(s, step, g);
      }
    }
  }

  /** The same as `Unhindered`, step by step. */
  predicate Clear(rank: nat, steps: seq<Step>, n: nat)
    requires n <= |steps|
  {
    n == 0 || (Clear(rank, steps, n - 1) && !Hinders(steps[n - 1], rank - Advances(steps, n - 1)))
  }

  lemma {:induction false} ClearIsUnhindered(rank: nat, steps: seq<Step>, n: nat)
    requires n <= |steps|
    ensures Clear(rank, steps, n) <==> Unhindered(rank, steps, n)
  {
    if n > 0 {
      ClearIsUnhindered(rank, steps, n - 1);
    }
  }

  /** Steps of any kind, after a moment when the thread is `rank` operations away from the load:
      while nothing hinders it, it counts down to the load; once something has, this run does not
      get there any more. */
  lemma {:induction false} Follow(s: State, steps: seq<Step>, n: nat, g: nat, rank: nat)
    requires n <= |steps| && Good(s) && OnTrack(s, g, rank)
    ensures Followed(Run(s, steps, n), g, rank - Advances(steps, n), Clear(rank, steps, n), s.runs)
  {
    if n > 0 {
      var before, step, left := Run(s, steps, n - 1), steps[n - 1], rank - Advances(steps, n - 1);
      Follow(s, steps, n - 1, g, rank);
      GoodSoFar(s, steps, n - 1);
      FollowStep(before, step, g, left, Clear(rank, steps, n - 1), s.runs);
    }
  }

  ghost function GoodWith(runs: nat): State -> bool { (r: State) => Good(r) && r.runs >= runs }

  lemma GoodSoFar(s: State, steps: seq<Step>, n: nat)
    requires n <= |steps| && Good(s)
    ensures Good(Run(s, steps, n)) && Run(s, steps, n).runs >= s.runs
  {
    var inv := GoodWith(s.runs);
    forall r: State, step: Step | inv(r) ensures inv(Next(r, step)) {
      StepKeeps(r, step);
    }
    FoldKeeps(Taking(), inv, s, steps, n);
  }

  /** A restart accepted while a run is active, and any steps after it, of callers and of the run
      thread, succeeding or not.  The settings are loaded for its generation, nine operations of
      the thread later at most, if the thread gets through to that load; and only then, as long
      as no other run has begun. */
  lemma RestartTakesEffect(s: State, steps: seq<Step>)
    requires Good(s) && s.running && !s.stop
    ensures Accepts(s) && ReloadRank(s.thread, s.generation + 1) <= 9
    ensures var r, g := Run(Restarted(s), steps, |steps|), s.generation + 1;
            && (GetsThrough(s.thread, g, steps) ==> Reloaded(r, g))
            && (r.runs == s.runs && Reloaded(r, g) ==> GetsThrough(s.thread, g, steps))
  {
    var start, g := Restarted(s), s.generation + 1;
    StepKeeps(s, Restart);
    if InTime(s.thread) {
      Follow(start, steps, |steps|, g, ReloadRank(s.thread, g));
      ClearIsUnhindered(ReloadRank(s.thread, g), steps, |steps|);
    } else {
      MissedStays(start, steps, |steps|, g);
    }
  }

  lemma {:induction false} StopStays(s: State, steps: seq<Step>, i: nat, n: nat)
    requires i < n <= |steps| && steps[i].Stop?
    ensures Run(s, steps, n).stop
    decreases n
  {
    if i < n - 1 {
      StopStays(s, steps, i, n - 1);
    }
  }

  /** The promise of an accepted restart in every interleaving: if no operation of the run thread
      raises and the runtime is closed whenever the thread asks, nine operations of the thread
      after a restart that came before the exit check the supervisor has been stopped or the
      settings have been loaded for it.  A thread that has not captured a generation yet does not
      even need the runtime to close. */
  lemma RestartOrStop(s: State, steps: seq<Step>)
    requires Good(s) && s.running && !s.stop && InTime(s.thread)
    requires forall i :: 0 <= i < |steps| && steps[i].Advance? ==>
               steps[i].ok && (steps[i].closed || s.thread.LoopHead? || s.thread.Capturing?)
    requires Advances(steps, |steps|) >= 9
    ensures var r := Run(Restarted(s), steps, |steps|); r.stop || Reloaded(r, s.generation + 1)
  {
    if i: nat :| i < |steps| && steps[i].Stop? {
      StopStays(Restarted(s), steps, i, |steps|);
    } else {
      RestartTakesEffect(s, steps);
    }
  }

  // a restart before the run

  lemma BeginInBetween(s: State, before: seq<Step>, after: seq<Step>)
    ensures var steps := before + ([Begin] + after);
            Run(s, steps, |steps|) == Run(Begun(Run(s, before, |before|)), after, |after|)
  {
    FoldBetween(Taking(), s, before, Begin, after);
  }

  predicate NoStop(steps: seq<Step>) { forall i :: 0 <= i < |steps| ==> !steps[i].Stop? }

  /** Before the scheduled run begins: generation `g` is requested, and nothing is loaded. */
  predicate AwaitsRun(s: State, g: nat) {
    Good(s) && !s.running && s.generation >= g && LoadedBefore(s, g) && (s.stop || s.scheduled)
  }

  lemma {:induction false} StillAwaitsRun(s: State, steps: seq<Step>, n: nat, g: nat)
    requires n <= |steps| && AwaitsRun(s, g) && !s.stop && forall i :: 0 <= i < n ==> !steps[i].Begin?
    ensures var r := Run(s, steps, n);
            AwaitsRun(r, g) && r.runs == s.runs && (r.stop <==> exists i :: 0 <= i < n && steps[i].Stop?)
  {
    if n > 0 {
      StillAwaitsRun(s, steps, n - 1, g);
      StepKeeps(Run(s, steps, n - 1), steps[n - 1]);
    }
  }

  /** A restart accepted while a run is only scheduled, any steps before that run begins, and any
      steps after.  The settings are loaded for its generation if the supervisor is not stopped
      before the run begins and the thread gets through from the head of its loop; and only then,
      as long as at most that one run has begun. */
  lemma RestartBeforeRun(s: State, before: seq<Step>, after: seq<Step>)
    requires Good(s) && s.scheduled && forall i :: 0 <= i < |before| ==> !before[i].Begin?
    ensures Accepts(s)
    ensures var steps, g := before + ([Begin] + after), s.generation + 1;
            var r := Run(Restarted(s), steps, |steps|);
            && (NoStop(before) && GetsThrough(LoopHead, g, after) ==> Reloaded(r, g))
            && (r.runs <= s.runs + 1 && Reloaded(r, g) ==> NoStop(before) && GetsThrough(LoopHead, g, after))
  {
    var start, g := Restarted(s), s.generation + 1;
    var waiting := Run(start, before, |before|);
    StepKeeps(s, Restart);
    StillAwaitsRun(start, before, |before|, g);
    BeginInBetween(start, before, after);
    if NoStop(before) {
      WaitingRunBegins(waiting, after, g);
    } else {
      StoppedRunBegins(waiting, after, g);
    }
  }

  lemma WaitingRunBegins(s: State, after: seq<Step>, g: nat)
    requires AwaitsRun(s, g) && !s.stop
    ensures var r := Run(Begun(s), after, |after|);
            && (GetsThrough(LoopHead, g, after) ==> Reloaded(r, g))
            && (r.runs <= s.runs + 1 && Reloaded(r, g) ==> GetsThrough(LoopHead, g, after))
  {
    StepKeeps(s, Begin);
    Follow(Begun(s), after, |after|, g, 3);
    ClearIsUnhindered(3, after, |after|);
    GoodSoFar(Begun(s), after, |after|);
  }

  lemma StoppedRunBegins(s: State, after: seq<Step>, g: nat)
    requires AwaitsRun(s, g) && s.stop
    ensures !Reloaded(Run(Begun(s), after, |after|), g)
  {
    StepKeeps(s, Begin);
    StopCountsDown(Begun(s), after, |after|);
    MissedStays(Begun(s), after, |after|, g);
  }

  // restarts that are accepted and lost

  function Smoothly(n: nat): seq<Step> { seq(n, _ => Advance(true, true)) }

  /** After a restart-free beginning with one step fewer, one more operation that succeeds. */
  lemma OneMore(n: nat, thread: Thread, exiting: Option<bool>, loads: seq<nat>)
    requires Run(INITIAL, [Begin] + Smoothly(n), n + 1) == State(false, false, true, exiting, 0, thread, loads, 1)
    ensures Run(INITIAL, [Begin] + Smoothly(n + 1), n + 2)
         == Advanced(State(false, false, true, exiting, 0, thread, loads, 1), true, true)
  {
    var steps := [Begin] + Smoothly(n);
    assert [Begin] + Smoothly(n + 1) == steps + [Advance(true, true)];
    FoldAppend(Taking(), INITIAL, steps, [Advance(true, true)], 1);
    assert Fold(Taking(), Run(INITIAL, steps, n + 1), [Advance(true, true)], 0) == Run(INITIAL, steps, n + 1);
  }

  lemma FirstServing()
    ensures Run(INITIAL, [Begin] + Smoothly(5), 6) == State(false, false, true, Some(false), 0, Serving(0), [0], 1)
  {
    assert ([Begin] + Smoothly(0))[0] == Begin;
    assert Run(INITIAL, [Begin] + Smoothly(0), 0) == INITIAL;
    OneMore(0, LoopHead, None, []);
    OneMore(1, Capturing, None, []);
    OneMore(2, Loading(0), None, []);
    OneMore(3, Reserving(0), None, [0]);
    OneMore(4, Building(0), None, [0]);
  }

  lemma FirstFinishing()
    ensures Run(INITIAL, [Begin] + Smoothly(8), 9) == State(false, false, true, None, 0, Finishing, [0], 1)
  {
    FirstServing();
    OneMore(5, Serving(0), Some(false), [0]);
    OneMore(6, Unpublishing(0, true), Some(false), [0]);
    OneMore(7, Checking(0), None, [0]);
  }

  /** The first run of a supervisor reaches a state in which it accepts a restart that no
      operation of that run will load the settings for. */
  lemma LostAfterExitCheck(after: seq<Step>)
    ensures var s := Run(INITIAL, [Begin] + Smoothly(8), 9);
            && Accepts(s) && s.thread.Finishing?
            && (Run(Restarted(s), after, |after|).runs == 1 ==> !Reloaded(Run(Restarted(s), after, |after|), 1))
  {
    FirstFinishing();
    var s := Run(INITIAL, [Begin] + Smoothly(8), 9);
    assert Good(s);
    RestartTakesEffect(s, after);
  }

  /** And one in which it accepts a restart that a stop then keeps from being carried out, although
      the server returns and the runtime closes. */
  lemma LostToStop(n: nat)
    ensures var s := Run(INITIAL, [Begin] + Smoothly(5), 6);
            var r := Run(Restarted(s), [Stop] + Smoothly(n), n + 1);
            Accepts(s) && s.thread == Serving(0) && !Reloaded(r, 1)
  {
    FirstServing();
    var s := Run(INITIAL, [Begin] + Smoothly(5), 6);
    var steps := [Stop] + Smoothly(n);
    assert Good(s);
    RestartTakesEffect(s, steps);
    assert steps[0] == Stop && Advances(steps, 0) == 0;
    assert Hinders(steps[0], ReloadRank(s.thread, 1) - Advances(steps, 0));
    NoRunBegins(Restarted(s), steps, |steps|);
  }

  lemma {:induction false} NoRunBegins(s: State, steps: seq<Step>, n: nat)
    requires n <= |steps| && forall i :: 0 <= i < n ==> !steps[i].Begin?
    ensures Run(s, steps, n).runs == s.runs
  {
    if n > 0 {
      NoRunBegins(s, steps, n - 1);
    }
  }

  // ----- the objects

  class RuntimeServer {
    var shouldExit: bool

    constructor ()
      ensures !shouldExit
    {
      shouldExit := false;
    }
  }

  class Supervisor {
    var server: RuntimeServer?
    var runScheduled: bool
    var running: bool
    var stopEvent: bool
    var restartGeneration: nat
    var thread: Thread                  // the run thread's own control state
    ghost var loads: seq<nat>
    ghost var runs: nat

    ghost function View(): State
      reads this, server
    {
      State(stopEvent, runScheduled, running,
            if server == null then None else Some(server.shouldExit),
            restartGeneration, thread, loads, runs)
    }

    ghost predicate Valid()
      reads this, server
    {
      Good(View())
    }

    constructor ()
      ensures Valid() && View() == INITIAL
    {
      server, runScheduled, running, stopEvent, restartGeneration := null, false, false, false, 0;
      thread, loads, runs := Idle, [], 0;
    }

    method ScheduleRun() returns (reserved: bool)
      requires Valid()
      modifies this
      ensures Valid() && View() == Scheduled(old(View())) && server == old(server)
      ensures reserved <==> !old(stopEvent) && !old(runScheduled) && !old(running)
      ensures runScheduled <==> old(runScheduled) || reserved
    {
      if stopEvent || runScheduled || running {
        return false;
      }
      runScheduled := true;
      return true;
    }

    /** The start of `run`; `refused` stands for the error raised while another run is active. */
    method BeginRun() returns (refused: bool)
      requires Valid()
      modifies this
      ensures Valid() && View() == Begun(old(View())) && server == old(server)
      ensures refused <==> old(running)
      ensures !runScheduled && (running <==> old(running) || !stopEvent)
      ensures running && !old(running) ==> thread == LoopHead && runs == old(runs) + 1
    {
      runScheduled := false;
      if running {
        return true;
      }
      if stopEvent {
        return false;
      }
      running := true;
      thread, runs := LoopHead, runs + 1;
      return false;
    }

    method RequestRestart() returns (accepted: bool)
      requires Valid()
      modifies this, server
      ensures Valid() && View() == Restarted(old(View())) && server == old(server)
      ensures accepted <==> !stopEvent && (old(runScheduled) || old(running))
      ensures restartGeneration == old(restartGeneration) + if accepted then 1 else 0
      ensures accepted && server != null ==> server.shouldExit
    {
      if stopEvent {
        return false;
      }
      if runScheduled {
        restartGeneration := restartGeneration + 1;
        return true;
      }
      if !running {
        return false;
      }
      restartGeneration := restartGeneration + 1;
      if server != null {
        server.shouldExit := true;
      }
      return true;
    }

    method RequestStop()
      requires Valid()
      modifies this, server
      ensures Valid() && View() == Stopped(old(View())) && server == old(server)
      ensures stopEvent && !runScheduled && (server != null ==> server.shouldExit)
    {
      stopEvent := true;
      runScheduled := false;
      if server != null {
        server.shouldExit := true;
      }
    }

    /** The loop guard and the capture of the generation: two separate uses of the lock. */
    method LoopStep()
      requires Valid() && (thread.LoopHead? || thread.Capturing?)
      modifies this`thread
      ensures Valid() && View() == Advanced(old(View()), true, true)
      ensures old(thread).LoopHead? ==> thread == if stopEvent then Finishing else Capturing
      ensures old(thread).Capturing? ==> thread == Loading(restartGeneration)
    {
      if thread.LoopHead? {
        thread := if stopEvent then Finishing else Capturing;
      } else {
        thread := Loading(restartGeneration);
      }
    }

    method LoadSettings(ok: bool)
      requires Valid() && thread.Loading?
      modifies this`thread, this`loads
      ensures Valid() && View() == Advanced(old(View()), ok, true)
      ensures ok ==> loads == old(loads) + [old(thread).captured] && thread == Reserving(old(thread).captured)
      ensures !ok ==> loads == old(loads) && thread == Finishing
    {
      if ok {
        loads, thread := loads + [thread.captured], Reserving(thread.captured);
      } else {
        thread := Finishing;
      }
    }

    method ReserveSockets(ok: bool)
      requires Valid() && thread.Reserving?
      modifies this`thread
      ensures Valid() && View() == Advanced(old(View()), ok, true)
      ensures thread == if !ok || stopEvent then Finishing else Building(old(thread).captured)
    {
      if !ok || stopEvent {
        thread := Finishing;
      } else {
        thread := Building(thread.captured);
      }
    }

    /** Builds the server and publishes it; one that is stale already is told to exit. */
    method PublishServer(ok: bool)
      requires Valid() && thread.Building?
      modifies this
      ensures Valid() && View() == Advanced(old(View()), ok, true)
      ensures !ok ==> thread == Finishing && server == null
      ensures ok ==> thread == Serving(old(thread).captured) && server != null && fresh(server)
      ensures ok ==> (server.shouldExit <==> stopEvent || restartGeneration != thread.captured)
    {
      if !ok {
        thread := Finishing;
        return;
      }
      server := new RuntimeServer();
      if stopEvent || restartGeneration != thread.captured {
        server.shouldExit := true;
      }
      thread := Serving(thread.captured);
    }

    /** The server returned or raised; callers may still come before it is taken back. */
    method ServerReturned(ok: bool)
      requires Valid() && thread.Serving?
      modifies this`thread
      ensures Valid() && View() == Advanced(old(View()), ok, true)
      ensures thread == Unpublishing(old(thread).captured, ok)
    {
      thread := Unpublishing(thread.captured, ok);
    }

    method Unpublish()
      requires Valid() && thread.Unpublishing?
      modifies this`thread, this`server
      ensures Valid() && View() == Advanced(old(View()), true, true) && server == null
      ensures thread == if old(thread).clean then Checking(old(thread).captured) else Finishing
    {
      server := null;
      thread := if thread.clean then Checking(thread.captured) else Finishing;
    }

    method ExitCheck(closed: bool) returns (again: bool)
      requires Valid() && thread.Checking?
      modifies this`thread
      ensures Valid() && View() == Advanced(old(View()), true, closed)
      ensures again <==> restartGeneration != old(thread).captured && !stopEvent && closed
      ensures thread == if again then LoopHead else Finishing
    {
      again := restartGeneration != thread.captured && !stopEvent && closed;
      thread := if again then LoopHead else Finishing;
    }

    method EndRun()
      requires Valid() && thread.Finishing?
      modifies this
      ensures Valid() && View() == Advanced(old(View()), true, true) && server == null && !running && thread == Idle
    {
      server, running, thread := null, false, Idle;
    }
  }
}
