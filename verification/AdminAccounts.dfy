/** The single Admin account: logins with a failure throttle, sessions that expire, and password
    changes.  Every operation holds the account's lock, so operations are atomic; the stored
    record may be rewritten by another process at any time.  Hashing, key derivation and the
    text form of bytes are function parameters; tokens, salts and revisions are inputs. */
module AdminAccounts {
  import opened Common
  import opened Sorting

  const USERNAME := "admin"
  const SESSION_SECONDS := 28800.0
  const MAX_SESSIONS := 128
  const THROTTLE_SECONDS := 60.0
  const MAX_FAILURES := 5

  datatype Record = Record(salt: string, digest: string, revision: string, temporary: bool)

  datatype Session = Session(key: string, revision: string, expires: real)

  /** A login that succeeded: the token handed out, under which revision and when. */
  datatype Issue = Issue(token: string, revision: string, at: real)

  datatype Crypto = Crypto(
    hash: string -> string,
    encode: Bytes -> string,
    decode: string -> Option<Bytes>,
    derive: (string, Bytes) -> Bytes)

  /** `stored` is None when the record cannot be read or has an unsupported form.  `issued` holds
      the logins since the last password written here whose token was not logged out; `recorded`
      the login failures since the last time they were cleared; `clock` the latest monotonic
      time. */
  datatype State = State(
    stored: Option<Record>,
    sessions: seq<Session>,
    failures: seq<real>,
    issued: seq<Issue>,
    recorded: seq<real>,
    clock: real)

  // ----- passwords

  function Letters(s: string): set<char> { set c | c in s }

  predicate ValidPassword(password: string) {
    14 <= |password| <= 1024 && |Letters(password)| >= 8
  }

  datatype Match = Same | Different | Undecodable

  function PasswordMatches(k: Crypto, password: string, record: Record): Match {
    if |password| > 1024 then Different
    else if k.decode(record.salt).None? || k.decode(record.digest).None? then Undecodable
    else if k.derive(password, k.decode(record.salt).value) == k.decode(record.digest).value then Same
    else Different
  }

  function NewRecord(k: Crypto, password: string, salt: Bytes, revision: string): Record {
    Record(k.encode(salt), k.encode(k.derive(password, salt)), revision, false)
  }

  // ----- sessions

  function Keeping(key: string): Session -> bool { (e: Session) => e.key != key }

  function Unexpired(wall: real): Session -> bool { (e: Session) => e.expires > wall }

  function Without(sessions: seq<Session>, key: string): seq<Session> { Filter(sessions, Keeping(key)) }

  predicate Has(sessions: seq<Session>, key: string) {
    exists i :: 0 <= i < |sessions| && sessions[i].key == key
  }

  function Find(sessions: seq<Session>, key: string): Option<Session> {
    if sessions == [] then None
    else if sessions[0].key == key then Some(sessions[0])
    else Find(sessions[1..], key)
  }

  /** Assignment to a dictionary entry: an existing key keeps its place. */
  function Put(sessions: seq<Session>, e: Session): seq<Session> {
    if sessions == [] then [e]
    else if sessions[0].key == e.key then [e] + sessions[1..]
    else [sessions[0]] + Put(sessions[1..], e)
  }

  function Evicted(sessions: seq<Session>): seq<Session> {
    if |sessions| >= MAX_SESSIONS then sessions[1..] else sessions
  }

  function Admitted(sessions: seq<Session>, e: Session, wall: real): seq<Session> {
    Put(Evicted(Filter(sessions, Unexpired(wall))), e)
  }

  // ----- the operations

  function Pruned(failures: seq<real>, cutoff: real): seq<real> {
    if failures != [] && failures[0] < cutoff then Pruned(failures[1..], cutoff) else failures
  }

  datatype LoginResult = LoggedIn(token: string, temporary: bool) | Rejected | Throttled | Broken

  /** How a login ends; `recent` is the number of failures of the last minute. */
  function LoginOutcome(
    k: Crypto, stored: Option<Record>, recent: nat, username: string, password: string, token: string): LoginResult
  {
    if recent >= MAX_FAILURES then Throttled
    else if stored.None? || PasswordMatches(k, password, stored.value).Undecodable? then Broken
    else if username != USERNAME || PasswordMatches(k, password, stored.value).Different? then Rejected
    else LoggedIn(token, stored.value.temporary)
  }

  /** The checks of a login, in the order in which they are made. */
  method Judge(k: Crypto, stored: Option<Record>, recent: nat, username: string, password: string, token: string)
      returns (r: LoginResult)
    ensures r == LoginOutcome(k, stored, recent, username, password, token)
  {
    if recent >= MAX_FAILURES {
      return Throttled;
    }
    if stored.None? {
      return Broken;
    }
    var valid := PasswordMatches(k, password, stored.value);
    if valid.Undecodable? {
      return Broken;
    }
    if username != USERNAME || valid.Different? {
      return Rejected;
    }
    return LoggedIn(token, stored.value.temporary);
  }

  function Rejecting(s: State, now: real): State {
    s.(failures := s.failures + [now], recorded := s.recorded + [now])
  }

  function Issuing(k: Crypto, s: State, token: string, wall: real, later: real): State
    requires s.stored.Some?
  {
    var revision := s.stored.value.revision;
    s.(failures := [], recorded := [],
       sessions := Admitted(s.sessions, Session(k.hash(token), revision, later + SESSION_SECONDS), wall),
       issued := s.issued + [Issue(token, revision, later)])
  }

  function PrunedState(s: State, now: real): State {
    s.(failures := Pruned(s.failures, now - THROTTLE_SECONDS), clock := now)
  }

  /** `now` is read from the monotonic clock, `wall` and `later` from the wall clock. */
  function Login(
    k: Crypto, s: State, username: string, password: string, token: string, now: real, wall: real, later: real)
    : (r: (State, LoginResult))
  {
    var p := PrunedState(s, now);
    var outcome := LoginOutcome(k, s.stored, |p.failures|, username, password, token);
    match outcome
    case LoggedIn(_, _) => (Issuing(k, p, token, wall, later), outcome)
    case Rejected => (Rejecting(p, now), outcome)
    case _ => (p, outcome)
  }

  datatype CheckResult = Accepted(record: Record) | NoSession | Unreadable

  /** The lookup of a session: one that is out of date is forgotten. */
  function Check(k: Crypto, s: State, token: string, wall: real): (State, CheckResult) {
    var entry := Find(s.sessions, k.hash(token));
    if entry.None? then (s, NoSession)
    else if s.stored.None? then (s, Unreadable)
    else if entry.value.revision != s.stored.value.revision || entry.value.expires <= wall
    then (s.(sessions := Without(s.sessions, k.hash(token))), NoSession)
    else (s, Accepted(s.stored.value))
  }

  function OtherToken(token: string): Issue -> bool { (i: Issue) => i.token != token }

  function Logout(k: Crypto, s: State, token: string): State {
    s.(sessions := Without(s.sessions, k.hash(token)), issued := Filter(s.issued, OtherToken(token)))
  }

  function Written(s: State, record: Record): State {
    s.(stored := Some(record), sessions := [], issued := [], failures := [], recorded := [])
  }

  datatype WriteResult = Changed | Refused | Invalid | Failed

  /** A reset needs no login; an unacceptable password changes nothing. */
  function Reset(k: Crypto, s: State, password: string, salt: Bytes, revision: string): (State, WriteResult) {
    if ValidPassword(password) then (Written(s, NewRecord(k, password, salt, revision)), Changed) else (s, Invalid)
  }

  function Change(
    k: Crypto, s: State, token: string, current: string, password: string, wall: real, salt: Bytes, revision: string)
    : (State, WriteResult)
  {
    var (t, found) := Check(k, s, token, wall);
    if found.Unreadable? then (t, Failed)
    else if found.NoSession? then (t, Refused)
    else
      match PasswordMatches(k, current, found.record)
      case Undecodable => (t, Failed)
      case Different => (t, Refused)
      case Same => Reset(k, t, password, salt, revision)
  }

  // ----- what every operation keeps

  ghost predicate Backed(k: Crypto, sessions: seq<Session>, issued: seq<Issue>) {
    forall e :: e in sessions ==> Comes(k, e, issued)
  }

  /** The session was opened by one of the logins in `issued`. */
  ghost predicate Comes(k: Crypto, e: Session, issued: seq<Issue>) {
    exists i :: 0 <= i < |issued| && k.hash(issued[i].token) == e.key
             && issued[i].revision == e.revision && issued[i].at + 28800.0 == e.expires
  }

  ghost predicate DistinctKeys(sessions: seq<Session>) {
    forall i, j :: 0 <= i < j < |sessions| ==> sessions[i].key != sessions[j].key
  }

  /** Any six consecutive recorded failures span more than a minute. */
  ghost predicate Spread(recorded: seq<real>) {
    forall i, j :: 0 <= i < j < |recorded| && j == i + 5 ==> recorded[j] - recorded[i] > 60.0
  }

  /** The failures kept are the recorded ones without some at the front that are too old. */
  ghost predicate Recent(recorded: seq<real>, failures: seq<real>, cutoff: real) {
    exists n: nat :: KeptFrom(recorded, failures, cutoff, n)
  }

  ghost predicate KeptFrom(recorded: seq<real>, failures: seq<real>, cutoff: real, n: nat) {
    && n <= |recorded| && failures == recorded[n..]
    && forall i :: 0 <= i < n ==> recorded[i] < cutoff
  }

  ghost predicate Throttling(recorded: seq<real>, failures: seq<real>, clock: real) {
    && NonDecreasing(recorded) && (forall i :: 0 <= i < |recorded| ==> recorded[i] <= clock)
    && Spread(recorded) && Recent(recorded, failures, clock - THROTTLE_SECONDS)
  }

  ghost predicate Good(k: Crypto, s: State) {
    && |s.sessions| <= 128 && DistinctKeys(s.sessions) && Backed(k, s.sessions, s.issued)
    && Throttling(s.recorded, s.failures, s.clock)
  }

  // the sessions

  lemma {:induction false} FindFacts(sessions: seq<Session>, key: string)
    ensures Find(sessions, key).Some? <==> Has(sessions, key)
    ensures Find(sessions, key).Some? ==> Find(sessions, key).value in sessions && Find(sessions, key).value.key == key
  {
    if sessions != [] {
      FindFacts(sessions[1..], key);
      if sessions[0].key != key && Has(sessions, key) {
        var i :| 0 <= i < |sessions| && sessions[i].key == key;
        assert sessions[1..][i - 1].key == key;
      }
    }
  }

  lemma {:induction false} FilterFacts(sessions: seq<Session>, keep: Session -> bool)
    requires DistinctKeys(sessions)
    ensures DistinctKeys(Filter(sessions, keep)) && |Filter(sessions, keep)| <= |sessions|
    ensures forall e :: e in Filter(sessions, keep) <==> e in sessions && keep(e)
  {
    if sessions != [] {
      FilterFacts(sessions[1..], keep);
      var rest := Filter(sessions[1..], keep);
      forall i | 0 <= i < |rest| ensures rest[i].key != sessions[0].key {
        assert rest[i] in rest;
      }
    }
  }

  lemma {:induction false} PutFacts(sessions: seq<Session>, e: Session)
    requires DistinctKeys(sessions)
    ensures DistinctKeys(Put(sessions, e)) && |Put(sessions, e)| <= |sessions| + 1
    ensures forall d :: d in Put(sessions, e) <==> d == e || (d in sessions && d.key != e.key)
  {
    if sessions != [] && sessions[0].key != e.key {
      PutFacts(sessions[1..], e);
      var rest := Put(sessions[1..], e);
      forall i | 0 <= i < |rest| ensures rest[i].key != sessions[0].key {
        assert rest[i] in rest;
      }
    }
  }

  lemma ComesStill(k: Crypto, e: Session, issued: seq<Issue>, i: Issue)
    requires Comes(k, e, issued)
    ensures Comes(k, e, issued + [i])
  {
    var n :| 0 <= n < |issued| && k.hash(issued[n].token) == e.key
          && issued[n].revision == e.revision && issued[n].at + SESSION_SECONDS == e.expires;
    assert (issued + [i])[n] == issued[n];
  }

  lemma AdmittedKeeps(k: Crypto, sessions: seq<Session>, issued: seq<Issue>, wall: real, i: Issue)
    requires |sessions| <= MAX_SESSIONS && DistinctKeys(sessions) && Backed(k, sessions, issued)
    ensures var r := Admitted(sessions, Session(k.hash(i.token), i.revision, i.at + SESSION_SECONDS), wall);
            |r| <= MAX_SESSIONS && DistinctKeys(r) && Backed(k, r, issued + [i])
  {
    var live := Filter(sessions, Unexpired(wall));
    FilterFacts(sessions, Unexpired(wall));
    var e := Session(k.hash(i.token), i.revision, i.at + SESSION_SECONDS);
    PutFacts(Evicted(live), e);
    assert (issued + [i])[|issued|] == i;
    forall d | d in Put(Evicted(live), e) ensures Comes(k, d, issued + [i]) {
      if d != e {
        ComesStill(k, d, issued, i);
      }
    }
  }

  lemma WithoutKeeps(k: Crypto, sessions: seq<Session>, issued: seq<Issue>, key: string)
    requires |sessions| <= MAX_SESSIONS && DistinctKeys(sessions) && Backed(k, sessions, issued)
    ensures var r := Without(sessions, key); |r| <= MAX_SESSIONS && DistinctKeys(r) && Backed(k, r, issued)
  {
    FilterFacts(sessions, Keeping(key));
  }

  lemma OtherTokensStay(k: Crypto, e: Session, issued: seq<Issue>, token: string)
    requires Comes(k, e, issued) && e.key != k.hash(token)
    ensures Comes(k, e, Filter(issued, OtherToken(token)))
  {
    var n :| 0 <= n < |issued| && k.hash(issued[n].token) == e.key
          && issued[n].revision == e.revision && issued[n].at + SESSION_SECONDS == e.expires;
    FilterCounts(issued, OtherToken(token), issued[n]);
    assert issued[n] in multiset(issued);
    assert issued[n] in multiset(Filter(issued, OtherToken(token)));
  }

  // the throttle

  lemma {:induction false} PruneKept(recorded: seq<real>, failures: seq<real>, n: nat, cutoff: real) returns (m: nat)
    requires KeptFrom(recorded, failures, cutoff, n)
    ensures KeptFrom(recorded, Pruned(failures, cutoff), cutoff, m)
    ensures Pruned(failures, cutoff) == [] || Pruned(failures, cutoff)[0] >= cutoff
    decreases |failures|
  {
    m := n;
    if failures != [] && failures[0] < cutoff {
      assert recorded[n + 1..] == failures[1..];
      m := PruneKept(recorded, failures[1..], n + 1, cutoff);
    }
  }

  lemma PruneKeeps(recorded: seq<real>, failures: seq<real>, clock: real, now: real, cutoff: real)
    requires Throttling(recorded, failures, clock) && clock <= now && cutoff == now - THROTTLE_SECONDS
    ensures Throttling(recorded, Pruned(failures, cutoff), now)
    ensures Pruned(failures, cutoff) == [] || Pruned(failures, cutoff)[0] >= cutoff
  {
    var n: nat :| KeptFrom(recorded, failures, clock - THROTTLE_SECONDS, n);
    assert KeptFrom(recorded, failures, cutoff, n);
    var m := PruneKept(recorded, failures, n, cutoff);
  }

  lemma ClearedKeeps(clock: real)
    ensures Throttling([], [], clock)
  {
    assert KeptFrom([], [], clock - THROTTLE_SECONDS, 0);
  }

  lemma RecordKeeps(recorded: seq<real>, failures: seq<real>, now: real)
    requires Throttling(recorded, failures, now) && |failures| < MAX_FAILURES
    ensures Throttling(recorded + [now], failures + [now], now)
  {
    var longer := recorded + [now];
    var n: nat :| KeptFrom(recorded, failures, now - THROTTLE_SECONDS, n);
    forall i, j | 0 <= i < j < |longer| && j == i + MAX_FAILURES ensures longer[j] - longer[i] > THROTTLE_SECONDS {
      if j < |recorded| {
        assert longer[j] == recorded[j];
      } else {
        assert i < n && longer[i] == recorded[i];
      }
    }
    assert longer[n..] == failures + [now];
    assert KeptFrom(longer, failures + [now], now - THROTTLE_SECONDS, n);
  }

  /** A login is throttled exactly when the fifth-last failure recorded since the last clear is
      at most a minute old. */
  lemma ThrottledExactly(
      k: Crypto, s: State, username: string, password: string, token: string, now: real, wall: real, later: real)
    requires Good(k, s) && s.clock <= now
    ensures Login(k, s, username, password, token, now, wall, later).1.Throttled?
       <==> |s.recorded| >= 5 && s.recorded[|s.recorded| - 5] >= now - 60.0
  {
    var cutoff := now - THROTTLE_SECONDS;
    PruneKeeps(s.recorded, s.failures, s.clock, now, cutoff);
    var recent := Pruned(s.failures, cutoff);
    var n: nat :| KeptFrom(s.recorded, recent, cutoff, n);
    assert |s.recorded| == n + |recent|;
    if |recent| >= 5 {
      assert recent[0] == s.recorded[n] >= cutoff;
    } else if |s.recorded| >= 5 {
      assert s.recorded[|s.recorded| - 5] < cutoff;
    }
  }

  // ----- every operation, every run

  datatype Event =
    | LogIn(username: string, password: string, token: string, now: real, wall: real, later: real)
    | Lookup(token: string, wall: real)
    | LogOut(token: string)
    | ChangePassword(token: string, current: string, password: string, wall: real, salt: Bytes, revision: string)
    | ResetPassword(password: string, salt: Bytes, revision: string)
    | Rewrite(stored: Option<Record>)      // by another process

  function After(k: Crypto, s: State, e: Event): State {
    match e
    case LogIn(username, password, token, now, wall, later) =>
        Login(k, s, username, password, token, now, wall, later).0
    case Lookup(token, wall) => Check(k, s, token, wall).0
    case LogOut(token) => Logout(k, s, token)
    case ChangePassword(token, current, password, wall, salt, revision) =>
      Change(k, s, token, current, password, wall, salt, revision).0
    case ResetPassword(password, salt, revision) => Reset(k, s, password, salt, revision).0
    case Rewrite(stored) => s.(stored := stored)
  }

  /** The monotonic clock does not go back. */
  predicate OnTime(s: State, e: Event) { e.LogIn? ==> s.clock <= e.now }

  lemma LoginKeeps(
      k: Crypto, s: State, username: string, password: string, token: string, now: real, wall: real, later: real)
    requires Good(k, s) && s.clock <= now
    ensures Good(k, Login(k, s, username, password, token, now, wall, later).0)
  {
    var p := PrunedState(s, now);
    PruneKeeps(s.recorded, s.failures, s.clock, now, now - THROTTLE_SECONDS);
    var outcome := LoginOutcome(k, s.stored, |p.failures|, username, password, token);
    if outcome.LoggedIn? {
      ClearedKeeps(now);
      AdmittedKeeps(k, s.sessions, s.issued, wall, Issue(token, s.stored.value.revision, later));
    } else if outcome.Rejected? {
      RecordKeeps(p.recorded, p.failures, now);
    }
  }

  lemma LogoutKeeps(k: Crypto, s: State, token: string)
    requires Good(k, s)
    ensures Good(k, Logout(k, s, token))
  {
    WithoutKeeps(k, s.sessions, s.issued, k.hash(token));
    FilterFacts(s.sessions, Keeping(k.hash(token)));
    var r := Logout(k, s, token);
    forall e | e in r.sessions ensures Comes(k, e, r.issued) {
      OtherTokensStay(k, e, s.issued, token);
    }
  }

  lemma StepKeeps(k: Crypto, s: State, e: Event)
    requires Good(k, s) && OnTime(s, e)
    ensures Good(k, After(k, s, e)) && After(k, s, e).clock >= s.clock
  {
    match e
    case LogIn(username, password, token, now, wall, later) =>
      LoginKeeps(k, s, username, password, token, now, wall, later);
    case Lookup(token, wall) => WithoutKeeps(k, s.sessions, s.issued, k.hash(token));
    case LogOut(token) => LogoutKeeps(k, s, token);
    case ChangePassword(token, current, password, wall, salt, revision) =>
      WithoutKeeps(k, s.sessions, s.issued, k.hash(token));
      ClearedKeeps(s.clock);
    case ResetPassword(password, salt, revision) => ClearedKeeps(s.clock);
    case _ =>
  }

  function Run(k: Crypto, s: State, events: seq<Event>, n: nat): State
    requires n <= |events|
  {
    if n == 0 then s else After(k, Run(k, s, events, n - 1), events[n - 1])
  }

  ghost predicate AllOnTime(k: Crypto, s: State, events: seq<Event>) {
    forall i :: 0 <= i < |events| ==> OnTime(Run(k, s, events, i), events[i])
  }

  /** Every run, whatever other processes write to the record meanwhile, keeps at most 128
      sessions, each opened by a login that is still good, and spreads the failures it records. */
  lemma {:induction false} RunIsGood(k: Crypto, s: State, events: seq<Event>, n: nat)
    requires n <= |events| && Good(k, s) && AllOnTime(k, s, events)
    ensures Good(k, Run(k, s, events, n))
  {
    if n > 0 {
      RunIsGood(k, s, events, n - 1);
      StepKeeps(k, Run(k, s, events, n - 1), events[n - 1]);
    }
  }

  ghost predicate Injective(hash: string -> string) { forall x, y :: hash(x) == hash(y) ==> x == y }

  /** A good login: of this token, under this revision, less than eight hours ago. */
  ghost predicate Standing(issued: seq<Issue>, token: string, revision: string, wall: real) {
    exists i :: 0 <= i < |issued| && issued[i].token == token && issued[i].revision == revision
             && wall - issued[i].at < 28800.0
  }

  /** A session is accepted only for a token that was handed out under the revision now stored,
      less than eight hours ago, after the last password written here, and not logged out. */
  lemma AcceptsOnlyIssued(k: Crypto, s: State, token: string, wall: real)
    requires Good(k, s) && Injective(k.hash) && Check(k, s, token, wall).1.Accepted?
    ensures s.stored == Some(Check(k, s, token, wall).1.record)
    ensures Standing(s.issued, token, s.stored.value.revision, wall)
  {
    FindFacts(s.sessions, k.hash(token));
    var e := Find(s.sessions, k.hash(token)).value;
    assert Comes(k, e, s.issued);
  }

  /** The other direction, for the next lookup: a login is accepted until it is eight hours old,
      as long as the record keeps its revision. */
  lemma LoginIsAccepted(
      k: Crypto, s: State, username: string, password: string, token: string, now: real, wall: real, later: real,
      stored: Option<Record>, at: real)
    requires Good(k, s) && s.clock <= now
    requires var r := Login(k, s, username, password, token, now, wall, later);
             r.1.LoggedIn? && stored.Some? && stored.value.revision == s.stored.value.revision
    ensures var r := Login(k, s, username, password, token, now, wall, later);
            Check(k, r.0.(stored := stored), token, at).1.Accepted? <==> at - later < 28800.0
  {
    var r := Login(k, s, username, password, token, now, wall, later).0;
    var e := Session(k.hash(token), s.stored.value.revision, later + SESSION_SECONDS);
    FilterFacts(s.sessions, Unexpired(wall));
    var kept := Evicted(Filter(s.sessions, Unexpired(wall)));
    PutFacts(kept, e);
    assert e in r.sessions;
    var i :| 0 <= i < |r.sessions| && r.sessions[i] == e;
    FindFacts(r.sessions, k.hash(token));
    assert Has(r.sessions, k.hash(token));
    assert Find(r.sessions, k.hash(token)).value == e;
  }

  /** The session is among those kept, and at most `m` were opened after it. */
  ghost predicate Placed(sessions: seq<Session>, e: Session, m: int) {
    exists i :: 0 <= i < |sessions| && sessions[i] == e && |sessions| - i <= m + 1
  }

  lemma {:induction false} FilterShrinks(sessions: seq<Session>, keep: Session -> bool)
    ensures |Filter(sessions, keep)| <= |sessions|
  {
    if sessions != [] {
      FilterShrinks(sessions[1..], keep);
    }
  }

  lemma {:induction false} FilterPlaces(sessions: seq<Session>, keep: Session -> bool, e: Session, m: int)
    requires Placed(sessions, e, m) && keep(e)
    ensures Placed(Filter(sessions, keep), e, m)
  {
    var i :| 0 <= i < |sessions| && sessions[i] == e && |sessions| - i <= m + 1;
    if i == 0 {
      FilterShrinks(sessions[1..], keep);
      assert Filter(sessions, keep)[0] == e;
    } else {
      assert sessions[1..][i - 1] == e;
      FilterPlaces(sessions[1..], keep, e, m);
      var rest := Filter(sessions[1..], keep);
      var j :| 0 <= j < |rest| && rest[j] == e && |rest| - j <= m + 1;
      if keep(sessions[0]) {
        assert Filter(sessions, keep)[j + 1] == e;
      } else {
        assert Filter(sessions, keep) == rest;
      }
    }
  }

  lemma {:induction false} PutPlaces(sessions: seq<Session>, d: Session, e: Session, m: int)
    requires Placed(sessions, e, m) && d.key != e.key
    ensures Placed(Put(sessions, d), e, m + 1)
  {
    var i :| 0 <= i < |sessions| && sessions[i] == e && |sessions| - i <= m + 1;
    if i == 0 {
      PutGrows(sessions[1..], d);
      assert Put(sessions, d)[0] == e;
    } else {
      assert sessions[1..][i - 1] == e;
      if sessions[0].key == d.key {
        assert Put(sessions, d)[i] == e;
      } else {
        PutPlaces(sessions[1..], d, e, m);
        var rest := Put(sessions[1..], d);
        var j :| 0 <= j < |rest| && rest[j] == e && |rest| - j <= m + 2;
        assert Put(sessions, d)[j + 1] == e;
      }
    }
  }

  lemma {:induction false} PutGrows(sessions: seq<Session>, d: Session)
    ensures |Put(sessions, d)| <= |sessions| + 1
  {
    if sessions != [] && sessions[0].key != d.key {
      PutGrows(sessions[1..], d);
    }
  }

  lemma {:induction false} PutLast(sessions: seq<Session>, e: Session)
    requires !Has(sessions, e.key)
    ensures Put(sessions, e) == sessions + [e]
  {
    if sessions != [] {
      assert sessions[0].key != e.key;
      forall i | 0 <= i < |sessions| - 1 ensures sessions[1..][i].key != e.key {
        assert sessions[i + 1].key != e.key;
      }
      PutLast(sessions[1..], e);
    }
  }

  /** The oldest session makes room for a new one: never one after which fewer than 127 others
      were opened. */
  lemma AdmittedPlaces(sessions: seq<Session>, d: Session, wall: real, e: Session, m: int)
    requires Placed(sessions, e, m) && d.key != e.key && wall < e.expires && m < MAX_SESSIONS - 1
    ensures Placed(Admitted(sessions, d, wall), e, m + 1)
  {
    var live := Filter(sessions, Unexpired(wall));
    FilterPlaces(sessions, Unexpired(wall), e, m);
    var i :| 0 <= i < |live| && live[i] == e && |live| - i <= m + 1;
    if |live| >= MAX_SESSIONS {
      assert live[1..][i - 1] == e;
    }
    PutPlaces(Evicted(live), d, e, m);
  }

  /** What leaves the session of `token`, opened under `revision` and good until `until`, alone:
      anything but a logout or another issue of the token, a change of the password here, and
      a check of the token that finds it out of date. */
  predicate Spares(k: Crypto, s: State, e: Event, token: string, revision: string, until: real) {
    match e
    case LogIn(_, _, t, _, wall, _) => t != token && wall < until
    case Lookup(t, wall) => t == token ==> Current(s.stored, revision, wall, until)
    case LogOut(t) => t != token
    case ChangePassword(t, current, password, wall, salt, revision') =>
      && (t == token ==> Current(s.stored, revision, wall, until))
      && !Change(k, s, t, current, password, wall, salt, revision').1.Changed?
    case ResetPassword(password, _, _) => !ValidPassword(password)
    case Rewrite(_) => true
  }

  predicate Current(stored: Option<Record>, revision: string, wall: real, until: real) {
    stored.Some? ==> stored.value.revision == revision && wall < until
  }

  predicate Opens(k: Crypto, s: State, e: Event) {
    e.LogIn? && Login(k, s, e.username, e.password, e.token, e.now, e.wall, e.later).1.LoggedIn?
  }

  /** The states of a run, before each of its events and at its end. */
  function Trace(k: Crypto, s: State, events: seq<Event>): nat -> State {
    (i: nat) => if i <= |events| then Run(k, s, events, i) else s
  }

  /** Which events of a run open a session. */
  function Openings(k: Crypto, s: State, events: seq<Event>): nat -> bool {
    (i: nat) => i < |events| && Opens(k, Run(k, s, events, i), events[i])
  }

  function Tally(counts: nat -> bool, n: nat): nat {
    if n == 0 then 0 else Tally(counts, n - 1) + if counts(n - 1) then 1 else 0
  }

  lemma CheckPlaces(k: Crypto, s: State, t: string, wall: real, token: string, e: Session, m: int)
    requires Injective(k.hash) && e.key == k.hash(token) && Good(k, s) && Placed(s.sessions, e, m)
    requires t == token ==> Current(s.stored, e.revision, wall, e.expires)
    ensures Placed(Check(k, s, t, wall).0.sessions, e, m)
  {
    if t == token {
      FoundOnly(s.sessions, e);
    } else {
      FilterPlaces(s.sessions, Keeping(k.hash(t)), e, m);
    }
  }

  /** With distinct keys a session is what its key finds. */
  lemma FoundOnly(sessions: seq<Session>, e: Session)
    requires DistinctKeys(sessions) && e in sessions
    ensures Find(sessions, e.key) == Some(e)
  {
    var i :| 0 <= i < |sessions| && sessions[i] == e;
    FindFacts(sessions, e.key);
    assert Has(sessions, e.key);
    var j :| 0 <= j < |sessions| && sessions[j] == Find(sessions, e.key).value;
    assert i == j;
  }

  lemma StepPlaces(k: Crypto, s: State, event: Event, token: string, e: Session, m: int)
    requires Injective(k.hash) && e.key == k.hash(token) && Good(k, s) && Placed(s.sessions, e, m)
    requires Spares(k, s, event, token, e.revision, e.expires) && (Opens(k, s, event) ==> m < MAX_SESSIONS - 1)
    ensures Placed(After(k, s, event).sessions, e, if Opens(k, s, event) then m + 1 else m)
  {
    match event
    case LogIn(username, password, t, now, wall, later) =>
      if Opens(k, s, event) {
        AdmittedPlaces(s.sessions, Session(k.hash(t), s.stored.value.revision, later + SESSION_SECONDS), wall, e, m);
      }
    case Lookup(t, wall) => CheckPlaces(k, s, t, wall, token, e, m);
    case LogOut(t) => FilterPlaces(s.sessions, Keeping(k.hash(t)), e, m);
    case ChangePassword(t, current, password, wall, salt, revision) => CheckPlaces(k, s, t, wall, token, e, m);
    case _ =>
  }

  ghost predicate StepKeepsPlace(states: nat -> State, opens: nat -> bool, e: Session, i: nat) {
    forall m: int :: Placed(states(i).sessions, e, m) && (opens(i) ==> m < MAX_SESSIONS - 1)
      ==> Placed(states(i + 1).sessions, e, if opens(i) then m + 1 else m)
  }

  lemma {:induction false} RunPlaces(states: nat -> State, opens: nat -> bool, e: Session, n: nat)
    requires Placed(states(0).sessions, e, 0) && Tally(opens, n) < MAX_SESSIONS
    requires forall i: nat :: i < n ==> StepKeepsPlace(states, opens, e, i)
    ensures Placed(states(n).sessions, e, Tally(opens, n))
  {
    if n > 0 {
      RunPlaces(states, opens, e, n - 1);
      assert StepKeepsPlace(states, opens, e, n - 1);
    }
  }

  lemma RunStepPlaces(k: Crypto, s: State, events: seq<Event>, i: nat, token: string, e: Session)
    requires i < |events| && Good(k, s) && AllOnTime(k, s, events) && Injective(k.hash) && e.key == k.hash(token)
    requires Spares(k, Run(k, s, events, i), events[i], token, e.revision, e.expires)
    ensures StepKeepsPlace(Trace(k, s, events), Openings(k, s, events), e, i)
  {
    RunIsGood(k, s, events, i);
    var before, event := Run(k, s, events, i), events[i];
    assert Run(k, s, events, i + 1) == After(k, before, event);
    forall m: int | Placed(before.sessions, e, m) && (Opens(k, before, event) ==> m < MAX_SESSIONS - 1)
      ensures Placed(After(k, before, event).sessions, e, if Opens(k, before, event) then m + 1 else m)
    {
      StepPlaces(k, before, event, token, e, m);
    }
  }

  /** A run from `s` that leaves the session of `token` alone and opens at most 127 others. */
  ghost predicate Gentle(k: Crypto, s: State, events: seq<Event>, token: string, revision: string, until: real) {
    && AllOnTime(k, s, events) && Tally(Openings(k, s, events), |events|) < 128
    && forall i :: 0 <= i < |events| ==> Spares(k, Run(k, s, events, i), events[i], token, revision, until)
  }

  lemma SessionStays(k: Crypto, s: State, events: seq<Event>, token: string, e: Session)
    requires Good(k, s) && Injective(k.hash) && e.key == k.hash(token) && Placed(s.sessions, e, 0)
    requires Gentle(k, s, events, token, e.revision, e.expires)
    ensures Good(k, Run(k, s, events, |events|)) && e in Run(k, s, events, |events|).sessions
  {
    var states, opens := Trace(k, s, events), Openings(k, s, events);
    forall i: nat | i < |events| ensures StepKeepsPlace(states, opens, e, i) {
      RunStepPlaces(k, s, events, i, token, e);
    }
    RunPlaces(states, opens, e, |events|);
    RunIsGood(k, s, events, |events|);
  }

  /** After any run that leaves it alone, a login with a fresh token is still accepted exactly
      until it is eight hours old, if the record then stored has the revision it was issued
      under. */
  lemma LoginLasts(
      k: Crypto, s: State, username: string, password: string, token: string, now: real, wall: real, later: real,
      events: seq<Event>, at: real)
    requires Good(k, s) && s.clock <= now && Injective(k.hash) && !Has(s.sessions, k.hash(token))
    requires var (start, r) := Login(k, s, username, password, token, now, wall, later);
             && r.LoggedIn?
             && Gentle(k, start, events, token, s.stored.value.revision, later + 28800.0)
             && var stored := Run(k, start, events, |events|).stored;
                stored.Some? && stored.value.revision == s.stored.value.revision
    ensures var start := Login(k, s, username, password, token, now, wall, later).0;
            Check(k, Run(k, start, events, |events|), token, at).1.Accepted? <==> at - later < 28800.0
  {
    var start := Login(k, s, username, password, token, now, wall, later).0;
    var e := Session(k.hash(token), s.stored.value.revision, later + SESSION_SECONDS);
    FreshIsLast(s.sessions, e, wall);
    LoginKeeps(k, s, username, password, token, now, wall, later);
    SessionStays(k, start, events, token, e);
    AcceptedWhileCurrent(k, Run(k, start, events, |events|), token, e, at);
  }

  lemma AcceptedWhileCurrent(k: Crypto, s: State, token: string, e: Session, at: real)
    requires Good(k, s) && e in s.sessions && e.key == k.hash(token)
    requires s.stored.Some? && s.stored.value.revision == e.revision
    ensures Check(k, s, token, at).1.Accepted? <==> at < e.expires
  {
    FoundOnly(s.sessions, e);
  }

  lemma FreshIsLast(sessions: seq<Session>, e: Session, wall: real)
    requires !Has(sessions, e.key) && DistinctKeys(sessions)
    ensures Placed(Admitted(sessions, e, wall), e, 0)
  {
    var live := Filter(sessions, Unexpired(wall));
    FilterFacts(sessions, Unexpired(wall));
    var rest := Evicted(live);
    forall i | 0 <= i < |rest| ensures rest[i].key != e.key {
      assert rest[i] in live;
    }
    PutLast(rest, e);
    assert (rest + [e])[|rest|] == e;
  }

  /** After a logout the token is not accepted again unless it is handed out again. */
  lemma LogoutEnds(k: Crypto, s: State, token: string, wall: real)
    requires Good(k, s)
    ensures Check(k, Logout(k, s, token), token, wall).1.NoSession?
  {
    FilterFacts(s.sessions, Keeping(k.hash(token)));
    FindFacts(Without(s.sessions, k.hash(token)), k.hash(token));
  }

  ghost predicate ReadsBack(k: Crypto) { forall b :: k.decode(k.encode(b)) == Some(b) }

  /** After a reset no earlier session is accepted, logins are not throttled, and the new password
      is the one that logs in. */
  lemma ResetTakesOver(
      k: Crypto, s: State, password: string, salt: Bytes, revision: string,
      attempt: string, token: string, now: real, wall: real, later: real)
    requires ReadsBack(k) && ValidPassword(password) && |attempt| <= 1024
    ensures var r := Reset(k, s, password, salt, revision).0;
            && (forall t, w :: Check(k, r, t, w).1.NoSession?)
            && (Login(k, r, USERNAME, attempt, token, now, wall, later).1.LoggedIn? <==>
                  k.derive(attempt, salt) == k.derive(password, salt))
  {
  }

  /** A password change needs a standing session and the current password, and then does what a
      reset does; otherwise the record and the throttle stay as they are. */
  lemma ChangeNeedsLogin(
      k: Crypto, s: State, token: string, current: string, password: string, wall: real, salt: Bytes, revision: string)
    requires Good(k, s) && Injective(k.hash)
    ensures var r := Change(k, s, token, current, password, wall, salt, revision);
            if r.1.Changed? then
              && s.stored.Some? && Standing(s.issued, token, s.stored.value.revision, wall)
              && PasswordMatches(k, current, s.stored.value).Same? && ValidPassword(password)
              && r.0 == Reset(k, s, password, salt, revision).0
            else
              r.0.stored == s.stored && r.0.failures == s.failures && r.0.issued == s.issued
  {
    if Check(k, s, token, wall).1.Accepted? {
      AcceptsOnlyIssued(k, s, token, wall);
    }
  }

  // ----- the object

  class Accounts {
    const k: Crypto
    var stored: Option<Record>       // the file, which other processes may write too
    var sessions: seq<Session>
    var failures: seq<real>
    ghost var issued: seq<Issue>
    ghost var recorded: seq<real>
    ghost var clock: real

    ghost function View(): State
      reads this
    {
      State(stored, sessions, failures, issued, recorded, clock)
    }

    ghost predicate Valid()
      reads this
    {
      Good(k, View())
    }

    constructor (k: Crypto, stored: Option<Record>, start: real)
      ensures Valid() && this.k == k && View() == State(stored, [], [], [], [], start)
    {
      this.k, this.stored, sessions, failures := k, stored, [], [];
      issued, recorded, clock := [], [], start;
      new;
      ClearedKeeps(start);
    }

    method LogIn(username: string, password: string, token: string, now: real, wall: real, later: real)
        returns (r: LoginResult)
      requires Valid() && clock <= now
      modifies this
      ensures Valid()
      ensures (View(), r) == Login(k, old(View()), username, password, token, now, wall, later)
    {
      LoginKeeps(k, View(), username, password, token, now, wall, later);
      r := TryLogIn(username, password, token, now, wall, later);
    }

    method TryLogIn(username: string, password: string, token: string, now: real, wall: real, later: real)
        returns (r: LoginResult)
      modifies this
      ensures (View(), r) == Login(k, old(View()), username, password, token, now, wall, later)
    {
      ghost var before := View();
      PopOld(now - THROTTLE_SECONDS);
      clock := now;
      assert View() == PrunedState(before, now);
      r := Judge(k, stored, |failures|, username, password, token);
      if r.Rejected? {
        failures, recorded := failures + [now], recorded + [now];
      } else if r.LoggedIn? {
        Admit(token, wall, later);
      }
    }

    method Admit(token: string, wall: real, later: real)
      requires stored.Some?
      modifies this
      ensures View() == Issuing(k, old(View()), token, wall, later)
    {
      failures, recorded := [], [];
      sessions := Filter(sessions, Unexpired(wall));
      if |sessions| >= MAX_SESSIONS {
        sessions := sessions[1..];
      }
      sessions := Put(sessions, Session(k.hash(token), stored.value.revision, later + SESSION_SECONDS));
      issued := issued + [Issue(token, stored.value.revision, later)];
    }

    method PopOld(cutoff: real)
      modifies this`failures
      ensures failures == Pruned(old(failures), cutoff)
    {
      while failures != [] && failures[0] < cutoff
        invariant Pruned(failures, cutoff) == Pruned(old(failures), cutoff)
        decreases |failures|
      {
        failures := failures[1..];
      }
    }

    method Lookup(token: string, wall: real) returns (r: CheckResult)
      requires Valid()
      modifies this
      ensures Valid() && (View(), r) == Check(k, old(View()), token, wall)
    {
      WithoutKeeps(k, sessions, issued, k.hash(token));
      var entry := Find(sessions, k.hash(token));
      if entry.None? {
        return NoSession;
      }
      if stored.None? {
        return Unreadable;
      }
      if entry.value.revision != stored.value.revision || entry.value.expires <= wall {
        sessions := Without(sessions, k.hash(token));
        return NoSession;
      }
      return Accepted(stored.value);
    }

    method LogOut(token: string)
      requires Valid()
      modifies this
      ensures Valid() && View() == Logout(k, old(View()), token)
    {
      LogoutKeeps(k, View(), token);
      sessions := Without(sessions, k.hash(token));
      issued := Filter(issued, OtherToken(token));
    }

    method WritePassword(password: string, salt: Bytes, revision: string) returns (ok: bool)
      requires Valid()
      modifies this
      ensures Valid() && ok == ValidPassword(password) && recorded == old(recorded) && failures == old(failures)
      ensures clock == old(clock)
      ensures ok ==> stored == Some(NewRecord(k, password, salt, revision)) && sessions == [] && issued == []
      ensures !ok ==> View() == old(View())
    {
      if !ValidPassword(password) {
        return false;
      }
      stored := Some(NewRecord(k, password, salt, revision));
      sessions, issued := [], [];
      return true;
    }

    method ResetPassword(password: string, salt: Bytes, revision: string) returns (r: WriteResult)
      requires Valid()
      modifies this
      ensures Valid() && (View(), r) == Reset(k, old(View()), password, salt, revision)
    {
      var ok := WritePassword(password, salt, revision);
      if !ok {
        return Invalid;
      }
      failures, recorded := [], [];
      ClearedKeeps(clock);
      return Changed;
    }

    method ChangePassword(token: string, current: string, password: string, wall: real, salt: Bytes, revision: string)
        returns (r: WriteResult)
      requires Valid()
      modifies this
      ensures Valid() && (View(), r) == Change(k, old(View()), token, current, password, wall, salt, revision)
    {
      var found := Lookup(token, wall);
      if found.Unreadable? {
        return Failed;
      }
      if found.NoSession? {
        return Refused;
      }
      var matches := PasswordMatches(k, current, found.record);
      if matches.Undecodable? {
        return Failed;
      }
      if matches.Different? {
        return Refused;
      }
      r := ResetPassword(password, salt, revision);
    }
  }
}
