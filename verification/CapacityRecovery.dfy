/** The rounds of one request: how often it is tried again while automatic routing has given it
    no output, and where the output comes from that it gets in the end. */
module CapacityRecovery {
  import opened Common
  import opened Failures
  import opened RouteBudget
  import opened Execution
  import opened ExecutionSafety

  // ----- rounds of one request

  /** What one call to `create` meets: selection raises, an execution over the selected
      candidates runs, or the request is answered without automatic routing. */
  datatype Creation =
    | SelectFails(failure: Failure)
    | Executes(
        route: Route, turns: nat -> Turn, primary: Target, fallbacks: seq<Target>, patience: nat, stream: bool)
    | Answers(status: int)

  /** A response: its recovery mark, status, and the text its execution had produced. */
  datatype Response = Response(marked: bool, status: int, produced: seq<Bytes>)

  predicate Safe(r: Response) { r.marked && RecoverableStatus(r.status) }

  /** The answer of one attempt, and which creation gave it. */
  datatype Answer = Answer(at: nat, response: Response)

  predicate Earlier(answers: seq<Answer>, next: nat) {
    forall i :: 0 <= i < |answers| ==> answers[i].at < next
  }

  function Create(c: Creation, failures: FailureCounts): (Response, FailureCounts) {
    match c
    case SelectFails(failure) => (Response(failure.recoverySafe, failure.status, []), failures)
    case Answers(status) => (Response(false, status, []), failures)
    case Executes(route, turns, primary, fallbacks, patience, stream) =>
      var e := Execute(route, turns, [primary] + fallbacks, Progress(failures, false, [], []), patience);
      (ResponseTo(stream, e.outcome, e.st.output), e.st.failures)
  }

  /** A raised failure becomes an error response carrying its mark and status, unless the response
      is streamed and had begun; otherwise the text is the response. */
  function ResponseTo(stream: bool, outcome: Outcome, produced: seq<Bytes>): Response {
    match RaisedFailure(outcome)
    case Some(failure) =>
      Response(failure.recoverySafe, if stream && produced != [] then 200 else failure.status, produced)
    case None => Response(false, 200, produced)
  }

  /** What a creation gives: a refused selection its failure's mark and status; an execution what it put
      out, with the mark and the status of the failure it raised, if it raised one, though a streamed
      response that has begun keeps its status; and nothing else carries a mark. */
  lemma CreateMeans(c: Creation, failures: FailureCounts)
    ensures var (response, after) := Create(c, failures);
            match c
            case SelectFails(f) => response == Response(f.recoverySafe, f.status, []) && after == failures
            case Answers(status) => response == Response(false, status, []) && after == failures
            case Executes(route, turns, primary, fallbacks, patience, stream) =>
              var e := Execute(route, turns, [primary] + fallbacks, Progress(failures, false, [], []), patience);
              && after == e.st.failures && response.produced == e.st.output
              && match e.outcome
                 case Exhausted(f) => Carries(response, f, stream)
                 case Interrupted(f) => Carries(response, f, stream)
                 case Escaping(EscapedFailure(f)) => Carries(response, f, stream)
                 case _ => !response.marked && response.status == 200
  {
    hide Execute;
  }

  /** The response stands for this failure. */
  predicate Carries(response: Response, f: Failure, stream: bool) {
    && (response.marked <==> f.recoverySafe)
    && response.status == if stream && response.produced != [] then 200 else f.status
  }

  /** One pass through the retry loop: what `create` meets, whether automatic routing is on when
      the loop looks, and whether a route can still be selected. */
  datatype Round = Round(creation: Creation, automatic: bool, selectable: bool)

  /** What the waiting loop meets at one pass: whether automatic routing is on and the deadline
      has passed when it looks, and whether after the pause routing is still on and the attempt
      ends before the deadline; one that does not is cancelled. */
  datatype Wake = Wake(automatic: bool, late: bool, stillAutomatic: bool, inTime: bool)

  /** The loop goes on from this wake: routing is on, the deadline has not passed, and an attempt
      that is made ends in time. */
  predicate LeadsOn(w: Wake) { w.automatic && !w.late && (w.stillAutomatic ==> w.inTime) }

  /** The attempts made at the first `n` wakes. */
  function Attempts(wakes: nat -> Wake, n: nat): nat {
    if n == 0 then 0 else Attempts(wakes, n - 1) + if wakes(n - 1).stillAutomatic then 1 else 0
  }

  /** Every wake before `n` led on. */
  ghost predicate AllLedOn(wakes: nat -> Wake, n: nat) {
    forall i: nat {:trigger wakes(i)} :: i < n ==> LeadsOn(wakes(i))
  }

  lemma OneMoreWake(wakes: nat -> Wake, n: nat)
    ensures AllLedOn(wakes, n) && LeadsOn(wakes(n)) ==> AllLedOn(wakes, n + 1)
  {
  }

  /** One answer for the first attempt and each of `more` others after the first `from` answers; all
      but the last are safe. */
  predicate AllSafe(answers: seq<Answer>, from: nat, more: nat) {
    |answers| == from + 1 + more && forall i :: from <= i < |answers| - 1 ==> Safe(answers[i].response)
  }

  lemma MoreSafe(answers: seq<Answer>, from: nat, more: nat, answer: Answer)
    requires AllSafe(answers, from, more) && Safe(answers[|answers| - 1].response)
    ensures AllSafe(answers + [answer], from, more + 1)
  {
  }

  /** Why the waiting ends: a response is not safe, or automatic routing is off; or, for the timeout,
      a safe response at a wake that does not lead on, or after the last. */
  predicate Ended(response: Option<Response>, answer: Response, w: Wake, last: bool) {
    match response
    case Some(r) => r == answer && (Safe(r) ==> !w.automatic)
    case None => Safe(answer) && w.automatic && (last || !LeadsOn(w))
  }

  lemma EndsHere(current: Response, w: Wake, over: bool, last: bool)
    requires over ==> Safe(current) && w.automatic && (last || !LeadsOn(w))
    requires over || !Safe(current) || !w.automatic
    ensures Ended(if over then None else Some(current), current, w, last)
  {
  }

  /** The automatic routes of one request all share its budget and come from `providers`. */
  ghost predicate Routed(providers: set<string>, c: Creation) {
    c.Executes? ==>
      && c.route.pooled && c.route.budgeted
      && WorldUnflagged(c.route, c.turns)
      && Covers(providers, [c.primary] + c.fallbacks)
  }

  ghost predicate Within(providers: set<string>, failures: FailureCounts) {
    WithinLimit(failures) && failures.Keys <= providers
  }

  /** A creation that is marked for a retry produced nothing, and no creation exceeds the limits. */
  lemma CreateKeeps(providers: set<string>, c: Creation, failures: FailureCounts)
    requires Routed(providers, c) && Within(providers, failures)
    ensures var (response, after) := Create(c, failures);
            && Within(providers, after)
            && Total(failures, providers) <= Total(after, providers)
            && (response.marked ==> response.produced == [])
  {
    match c {
      case Executes(route, turns, primary, fallbacks, patience, stream) =>
        var st := Progress(failures, false, [], []);
        var candidates := [primary] + fallbacks;
        FailuresBounded(route, turns, providers, candidates, st, patience);
        SafeFailureMeansSilence(route, turns, candidates, st, patience);
      case _ =>
    }
  }

  type World = nat -> Round

  /** After creation `i` the request is tried again at once: its response is safe, automatic routing
      is on, a route can be selected, and the creation used up some of the failure budget. */
  predicate Again(world: World, created: seq<Response>, totals: seq<nat>, i: nat)
    requires i < |created| && i + 1 < |totals|
  {
    && created[i].marked && created[i].status in {402, 429, 502, 503, 504, 529}
    && world(i).automatic && world(i).selectable && totals[i + 1] > totals[i]
  }

  /** So it is after each of the creations from `first` on, but not after the last. */
  ghost predicate AllAgain(world: World, created: seq<Response>, totals: seq<nat>, first: nat) {
    && |totals| == |created| + 1
    && forall i: nat {:trigger Again(world, created, totals, i)} ::
         first <= i < |created| - 1 ==> Again(world, created, totals, i)
  }

  lemma OneMoreAgain(
      world: World, created: seq<Response>, totals: seq<nat>, first: nat, response: Response, total: nat)
    requires AllAgain(world, created, totals, first) && first < |created|
    requires Again(world, created, totals, |created| - 1)
    ensures AllAgain(world, created + [response], totals + [total], first)
  {
    var longer, more := created + [response], totals + [total];
    forall i: nat | first <= i < |created| ensures Again(world, longer, more, i) {
      assert Again(world, created, totals, i);
      assert longer[i] == created[i] && more[i] == totals[i] && more[i + 1] == totals[i + 1];
    }
  }

  /** From creation `first` on, a creation is some attempt's answer exactly if it is not tried again
      at once. */
  ghost predicate Told(world: World, created: seq<Response>, totals: seq<nat>, answers: seq<Answer>, first: nat) {
    && |totals| == |created| + 1
    && forall i: nat {:trigger Again(world, created, totals, i)} ::
         first <= i < |created| ==> (Again(world, created, totals, i) <==> Answer(i, created[i]) !in answers)
  }

  lemma OneMoreTold(
      world: World, created: seq<Response>, totals: seq<nat>, answers: seq<Answer>, first: nat,
      longer: seq<Response>, more: seq<nat>)
    requires Told(world, created, totals, answers, first) && Earlier(answers, |created|)
    requires created < longer && totals < more && AllAgain(world, longer, more, |created|)
    requires !Again(world, longer, more, |longer| - 1)
    ensures Told(world, longer, more, answers + [Answer(|longer| - 1, longer[|longer| - 1])], first)
  {
    var answer := Answer(|longer| - 1, longer[|longer| - 1]);
    forall i: nat | first <= i < |longer|
      ensures Again(world, longer, more, i) <==> Answer(i, longer[i]) !in answers + [answer]
    {
      if i < |created| {
        assert Again(world, created, totals, i) <==> Answer(i, created[i]) !in answers;
        assert longer[i] == created[i] && more[i] == totals[i] && more[i + 1] == totals[i + 1];
      } else if i < |longer| - 1 {
        assert Again(world, longer, more, i);
      }
    }
  }

  /** Something that holds of the creations and the sums so far. */
  type History = (seq<Response>, seq<nat>) -> bool

  /** It goes on holding when one more of each is added. */
  ghost predicate Appends(since: History) {
    forall c: seq<Response>, t: seq<nat>, r: Response, n: nat {:trigger since(c + [r], t + [n])} ::
      since(c, t) ==> since(c + [r], t + [n])
  }

  /** Nothing of what was there before is changed. */
  ghost function After(created: seq<Response>, totals: seq<nat>): (since: History)
    ensures Appends(since) && since(created, totals)
  {
    (c: seq<Response>, t: seq<nat>) => created <= c && totals <= t
  }

  ghost function Also(since: History, created: seq<Response>, totals: seq<nat>): (both: History)
    requires Appends(since) && since(created, totals)
    ensures Appends(both) && both(created, totals)
    ensures forall c: seq<Response>, t: seq<nat> {:trigger both(c, t)} ::
              both(c, t) ==> since(c, t) && created <= c && totals <= t
  {
    (c: seq<Response>, t: seq<nat>) => since(c, t) && created <= c && totals <= t
  }

  /** The state one request's rounds share: its failure budget, the retries made inside all its
      attempts so far, and everything its executions produced. */
  class RecoverableRequest {
    const world: nat -> Round
    ghost const providers: set<string>
    const budget: RouteAttemptBudget
    var next: nat
    var retries: nat
    var produced: seq<Bytes>
    ghost var created: seq<Response>  // what every creation so far gave
    ghost var totals: seq<nat>        // the failures in the budget before each of them, and now
    ghost var answers: seq<Answer>    // what every attempt so far gave

    ghost predicate Valid()
      reads this, budget
    {
      && (forall i {:trigger Routed(providers, world(i).creation)} :: Routed(providers, world(i).creation))
      && Within(providers, budget.failures)
      && retries <= Total(budget.failures, providers)
      && |created| == next && Earlier(answers, next)
      && |totals| == next + 1 && totals[next] == Total(budget.failures, providers)
    }

    constructor (world: nat -> Round, ghost providers: set<string>)
      requires forall i {:trigger Routed(providers, world(i).creation)} :: Routed(providers, world(i).creation)
      ensures Valid() && fresh(budget) && retries == 0 && produced == [] && created == [] && answers == []
      ensures this.world == world && this.providers == providers
    {
      this.world, this.providers := world, providers;
      budget := new RouteAttemptBudget();
      next, retries, produced, created, totals, answers := 0, 0, [], [], [0], [];
      new;
      TotalOfMore(map[], {}, providers);
    }

    /** `response` is what the last creation gave. */
    ghost predicate CreatedLast(response: Response)
      reads this
    {
      created != [] && response == created[|created| - 1]
    }

    method CreateOnce() returns (response: Response)
      requires Valid()
      modifies this`next, this`produced, this`created, this`totals, budget
      ensures Valid() && next == old(next) + 1 && created == old(created) + [response]
      ensures totals == old(totals) + [Total(budget.failures, providers)]
      ensures (response, budget.failures) == Create(world(old(next)).creation, old(budget.failures))
      ensures produced == old(produced) + response.produced
      ensures Total(old(budget.failures), providers) <= Total(budget.failures, providers)
      ensures response.marked ==> response.produced == []
    {
      hide Execute;
      ghost var before := budget.failures;
      assert Routed(providers, world(next).creation);
      CreateKeeps(providers, world(next).creation, before);
      match world(next).creation {
        case SelectFails(failure) => response := Response(failure.recoverySafe, failure.status, []);
        case Answers(status) => response := Response(false, status, []);
        case Executes(route, turns, primary, fallbacks, patience, stream) =>
          var executor := new ProviderExecutor(route, budget);
          var outcome, _ := executor.StreamCandidates(primary, fallbacks, turns, patience);
          response := ResponseTo(stream, outcome, executor.output);
      }
      produced := produced + response.produced;
      next, created := next + 1, created + [response];
      totals := totals + [Total(budget.failures, providers)];
    }

    /** One creation, for the loop that only needs to know what it keeps. */
    method CreateNext() returns (response: Response)
      requires Valid()
      modifies this`next, this`produced, this`created, this`totals, budget
      ensures Valid() && created == old(created) + [response]
      ensures totals == old(totals) + [Total(budget.failures, providers)]
      ensures produced == old(produced) + response.produced
      ensures Total(old(budget.failures), providers) <= Total(budget.failures, providers)
      ensures Safe(response) ==> response.produced == []
    {
      response := CreateOnce();
    }

    /** One more creation after those since `first`; `attempted` is what was in the budget before. */
    method CreateMore(ghost first: nat, ghost since: History) returns (response: Response, attempted: nat)
      requires Valid() && first <= |created| && Appends(since) && since(created, totals)
      requires AllAgain(world, created, totals, first)
      requires first < |created| ==> Again(world, created, totals, |created| - 1)
      modifies this`next, this`produced, this`created, this`totals, budget
      ensures Valid() && |created| == |old(created)| + 1 && CreatedLast(response)
      ensures since(created, totals) && attempted == old(totals[next]) == totals[next - 1] <= totals[next]
      ensures AllAgain(world, created, totals, first)
      ensures produced == old(produced) + response.produced
      ensures Safe(response) ==> produced == old(produced)
    {
      ghost var before, sums := created, totals;
      attempted := FailureSum();
      response := CreateNext();
      assert since(before + [response], sums + [Total(budget.failures, providers)]);
      if first < |before| {
        OneMoreAgain(world, before, sums, first, response, Total(budget.failures, providers));
      }
    }

    /** The head of the retry loop. */
    method LooksAgain(response: Response, attempted: nat) returns (more: bool)
      requires Valid() && CreatedLast(response) && attempted == totals[next - 1]
      ensures more <==> Again(world, created, totals, |created| - 1)
      ensures totals[next] <= PROVIDER_FAILURE_LIMIT * |providers| && (more ==> totals[next] > attempted)
    {
      var sum := FailureSum();
      var round := world(next - 1);
      more := Safe(response) && round.automatic && sum > attempted && round.selectable;
    }

    /** One retry, and whether another one follows. */
    method Retry(ghost first: nat, ghost since: History) returns (response: Response, attempted: nat, more: bool)
      requires Valid() && first < |created| && retries < totals[next] && Appends(since) && since(created, totals)
      requires AllAgain(world, created, totals, first) && Again(world, created, totals, |created| - 1)
      modifies this`next, this`retries, this`produced, this`created, this`totals, budget
      ensures Valid() && |created| == |old(created)| + 1 && CreatedLast(response) && since(created, totals)
      ensures attempted == old(totals[next]) == totals[next - 1] <= totals[next] <= PROVIDER_FAILURE_LIMIT * |providers|
      ensures AllAgain(world, created, totals, first)
      ensures (more <==> Again(world, created, totals, |created| - 1)) && (more ==> totals[next] > attempted)
      ensures retries == old(retries) + 1 && produced == old(produced) + response.produced
      ensures Safe(response) ==> produced == old(produced)
    {
      response, attempted := CreateMore(first, since);
      retries := retries + 1;
      more := LooksAgain(response, attempted);
    }

    /** Creates a response and retries while the failure is safe, automatic routing is on and
        the last creation used up some of the failure budget. */
    method Attempt() returns (response: Response)
      requires Valid()
      modifies this`next, this`retries, this`produced, this`created, this`totals, this`answers, budget
      ensures Valid()
      ensures produced == old(produced) + response.produced
      ensures Safe(response) ==> produced == old(produced)
      ensures old(created) < created && CreatedLast(response) && old(totals) < totals
      ensures AllAgain(world, created, totals, |old(created)|)
      ensures !Again(world, created, totals, |created| - 1)
      ensures retries - old(retries) == |created| - |old(created)| - 1
      ensures answers == old(answers) + [Answer(|created| - 1, response)]
      ensures var used := Total(budget.failures, providers) - Total(old(budget.failures), providers);
              0 <= retries - old(retries) <= used
      ensures retries <= PROVIDER_FAILURE_LIMIT * |providers|
    {
      ghost var before, sums := created, totals;
      response := AttemptSince(After(before, sums));
      answers := answers + [Answer(|created| - 1, response)];
      assert created[..|before|] == before && totals[..|sums|] == sums;
    }

    /** The retry loop.  It ends because the budget is finite: its measure is what is left of 3
        failures for every provider. */
    method AttemptSince(ghost since: History) returns (response: Response)
      requires Valid() && Appends(since) && since(created, totals)
      modifies this`next, this`retries, this`produced, this`created, this`totals, budget
      ensures Valid() && since(created, totals)
      ensures produced == old(produced) + response.produced
      ensures Safe(response) ==> produced == old(produced)
      ensures |old(created)| < |created| && CreatedLast(response)
      ensures AllAgain(world, created, totals, |old(created)|)
      ensures !Again(world, created, totals, |created| - 1)
      ensures retries - old(retries) == |created| - |old(created)| - 1
      ensures 0 <= retries - old(retries) && old(totals[next]) + (retries - old(retries)) <= totals[next]
      ensures retries <= totals[next] <= PROVIDER_FAILURE_LIMIT * |providers|
    {
      hide Within, Routed;
      ghost var start, firstRetries, text, first := totals[next], retries, produced, |created|;
      ghost var limit := PROVIDER_FAILURE_LIMIT * |providers|;
      var attempted;
      response, attempted := CreateMore(first, since);
      var more := LooksAgain(response, attempted);
      while more
        invariant Valid() && CreatedLast(response) && first < |created| && firstRetries <= start
        invariant since(created, totals)
        invariant AllAgain(world, created, totals, first)
        invariant (more <==> Again(world, created, totals, |created| - 1)) && (more ==> totals[next] > attempted)
        invariant attempted == totals[next - 1] && retries - firstRetries == |created| - first - 1
        invariant start <= attempted <= totals[next] <= limit
        invariant 0 <= retries - firstRetries <= attempted - start
        invariant produced == text + response.produced && (Safe(response) ==> produced == text)
        decreases more, limit - attempted
      {
        response, attempted, more := Retry(first, since);
      }
    }

    /** One attempt with its answer, for the loop that only needs to know what it gives. */
    method AttemptKeeping(ghost first: nat, ghost since: History) returns (response: Response)
      requires Valid() && first <= |created| && Appends(since) && since(created, totals)
      requires Told(world, created, totals, answers, first)
      modifies this`next, this`retries, this`produced, this`created, this`totals, this`answers, budget
      ensures Valid() && since(created, totals) && |old(created)| < |created| && CreatedLast(response)
      ensures Told(world, created, totals, answers, first)
      ensures produced == old(produced) + response.produced
      ensures Safe(response) ==> produced == old(produced)
      ensures answers == old(answers) + [Answer(|created| - 1, response)]
      ensures retries <= PROVIDER_FAILURE_LIMIT * |providers|
    {
      ghost var before, sums := created, totals;
      response := AttemptSince(Also(since, before, sums));
      OneMoreTold(world, before, sums, answers, first, created, totals);
      answers := answers + [Answer(|created| - 1, response)];
    }

    /** The whole request: attempt after attempt while the response says that it is safe and
        automatic routing is on, until the deadline, which at most `passes` pauses reach.  None is
        the timeout.  Whatever the client receives comes from one creation, the last.  `k` is the
        last wake that is looked at: every wake before led on, every answer before was safe, and every
        creation was tried again at once or answered its attempt. */
    method Serve(wakes: nat -> Wake, passes: nat) returns (response: Option<Response>, ghost k: nat)
      requires Valid()
      modifies this`next, this`retries, this`produced, this`created, this`totals, this`answers, budget
      ensures Valid() && old(created) < created
      ensures response.None? ==> produced == old(produced)
      ensures response.Some? ==> produced == old(produced) + response.value.produced && CreatedLast(response.value)
      ensures retries <= PROVIDER_FAILURE_LIMIT * |providers|
      ensures AllLedOn(wakes, k)
      ensures AllSafe(answers, |old(answers)|, Attempts(wakes, k))
      ensures Told(world, created, totals, answers, |old(created)|)
      ensures Ended(response, answers[|answers| - 1].response, wakes(k), k == passes)
    {
      ghost var before, sums := created, totals;
      response, k := ServeKeeping(wakes, passes, |before|, After(before, sums));
      assert created[..|before|] == before;
    }

    /** Where a request stands that has produced nothing but what the response holds. */
    ghost predicate Standing(response: Response, first: nat, since: History, text: seq<Bytes>, from: nat, more: nat)
      reads this, budget
    {
      && Valid() && since(created, totals) && CreatedLast(response)
      && first <= |created| && Told(world, created, totals, answers, first)
      && produced == text + response.produced && (Safe(response) ==> produced == text)
      && retries <= PROVIDER_FAILURE_LIMIT * |providers|
      && AllSafe(answers, from, more) && response == answers[|answers| - 1].response
    }

    /** One pass of the waiting loop with a safe response; it leads on, or the time is over. */
    method Pass(
        w: Wake, response: Response, ghost first: nat, ghost since: History, ghost text: seq<Bytes>, ghost from: nat,
        ghost more: nat)
        returns (next: Option<Response>)
      requires Standing(response, first, since, text, from, more) && Safe(response) && w.automatic && Appends(since)
      modifies this`next, this`retries, this`produced, this`created, this`totals, this`answers, budget
      ensures |old(created)| <= |created| && (next.None? <==> !LeadsOn(w))
      ensures next.None? ==> Standing(response, first, since, text, from, more)
      ensures next.Some? ==> Standing(next.value, first, since, text, from, if w.stillAutomatic then more + 1 else more)
    {
      hide Told;
      if w.late {
        return None;
      }
      if !w.stillAutomatic {
        return Some(response);
      }
      if !w.inTime {
        return None;
      }
      ghost var before := answers;
      var current := AttemptKeeping(first, since);
      MoreSafe(before, from, more, Answer(|created| - 1, current));
      next := Some(current);
    }

    /** The waiting loop. */
    method ServeKeeping(wakes: nat -> Wake, passes: nat, ghost first: nat, ghost since: History)
        returns (response: Option<Response>, ghost k: nat)
      requires Valid() && first <= |created| && Told(world, created, totals, answers, first)
      requires Appends(since) && since(created, totals)
      modifies this`next, this`retries, this`produced, this`created, this`totals, this`answers, budget
      ensures Valid() && since(created, totals) && |old(created)| < |created|
      ensures response.None? ==> produced == old(produced)
      ensures response.Some? ==> produced == old(produced) + response.value.produced && CreatedLast(response.value)
      ensures retries <= PROVIDER_FAILURE_LIMIT * |providers|
      ensures AllLedOn(wakes, k)
      ensures AllSafe(answers, |old(answers)|, Attempts(wakes, k))
      ensures Told(world, created, totals, answers, first)
      ensures Ended(response, answers[|answers| - 1].response, wakes(k), k == passes)
    {
      hide Valid, Told;
      ghost var text, from := produced, |answers|;
      var current := AttemptKeeping(first, since);
      var n, over := 0, false;
      while Safe(current) && wakes(n).automatic && !over
        invariant Standing(current, first, since, text, from, Attempts(wakes, n))
        invariant |old(created)| < |created| && n <= passes
        invariant AllLedOn(wakes, n)
        invariant over ==> Safe(current) && wakes(n).automatic && (n == passes || !LeadsOn(wakes(n)))
        decreases !over, passes - n
      {
        if n == passes {
          over := true;
        } else {
          var next := Pass(wakes(n), current, first, since, text, from, Attempts(wakes, n));
          if next.None? {
            over := true;
          } else {
            OneMoreWake(wakes, n);
            current, n := next.value, n + 1;
          }
        }
      }
      response, k := if over then None else Some(current), n;
      EndsHere(current, wakes(n), over, n == passes);
    }

    /** `sum(budget.failures.values())`. */
    method FailureSum() returns (sum: nat)
      requires Valid()
      ensures sum == Total(budget.failures, providers) <= PROVIDER_FAILURE_LIMIT * |providers|
    {
      TotalBound(budget.failures, providers);
      TotalOfMore(budget.failures, budget.failures.Keys, providers);
      sum := Sum(budget.failures);
    }
  }
}
