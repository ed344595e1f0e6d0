/** What the account's operations answer, in terms of what was given, what is stored and what was
    recorded: which logins and password changes succeed, and what every operation leaves behind. */
module AdminLogins {
  import opened Common
  import opened AdminAccounts

  /** The password derives the stored digest with the stored salt, both of which can be decoded. */
  predicate Right(k: Crypto, password: string, record: Record) {
    && |password| <= 1024
    && k.decode(record.salt).Some? && k.decode(record.digest).Some?
    && k.derive(password, k.decode(record.salt).value) == k.decode(record.digest).value
  }

  /** The stored record cannot be used to check the password. */
  predicate Unusable(k: Crypto, password: string, stored: Option<Record>) {
    stored.None? ||
    (|password| <= 1024 && (k.decode(stored.value.salt).None? || k.decode(stored.value.digest).None?))
  }

  /** Five failures have been recorded in the last minute, both its ends included. */
  predicate TooMany(recorded: seq<real>, now: real) {
    |recorded| >= 5 && recorded[|recorded| - 5] >= now - 60.0
  }

  /** Exactly which logins succeed, and how each other one fails. */
  lemma LoginMeans(
      k: Crypto, s: State, username: string, password: string, token: string, now: real, wall: real, later: real)
    requires Good(k, s) && s.clock <= now
    ensures Login(k, s, username, password, token, now, wall, later).1 ==
            if TooMany(s.recorded, now) then Throttled
            else if Unusable(k, password, s.stored) then Broken
            else if username == "admin" && Right(k, password, s.stored.value) then
              LoggedIn(token, s.stored.value.temporary)
            else Rejected
  {
    hide Good, Admitted, Pruned;
    ThrottledExactly(k, s, username, password, token, now, wall, later);
  }

  /** What a login leaves: a failure is recorded exactly if it is rejected, a success forgets all
      failures and opens a session, and anything else changes neither; the record always stays. */
  lemma LoginLeaves(
      k: Crypto, s: State, username: string, password: string, token: string, now: real, wall: real, later: real)
    ensures var (r, answer) := Login(k, s, username, password, token, now, wall, later);
            && r.stored == s.stored && r.clock == now
            && r.recorded == (if answer.Rejected? then s.recorded + [now]
                              else if answer.LoggedIn? then []
                              else s.recorded)
            && (answer.LoggedIn? ==>
                  s.stored.Some? && r.issued == s.issued + [Issue(token, s.stored.value.revision, later)])
            && (!answer.LoggedIn? ==> r.sessions == s.sessions && r.issued == s.issued)
  {
    hide Admitted, Pruned, PasswordMatches;
  }

  /** A password is acceptable with 14 to 1024 characters, at least eight of them different. */
  predicate Acceptable(password: string) {
    14 <= |password| && |password| <= 1024 && |(set c | c in password)| >= 8
  }

  /** What a reset leaves. */
  lemma ResetMeans(k: Crypto, s: State, password: string, salt: Bytes, revision: string)
    ensures var (r, answer) := Reset(k, s, password, salt, revision);
            if Acceptable(password) then
              && answer == Changed
              && r == State(Some(Record(k.encode(salt), k.encode(k.derive(password, salt)), revision, false)),
                            [], [], [], [], s.clock)
            else answer == Invalid && r == s
  {
  }

  predicate Stands(s: State, e: Session, wall: real)
    requires s.stored.Some?
  {
    e.revision == s.stored.value.revision && wall < e.expires
  }

  /** A token that is good now: its session was opened under the stored revision and has not expired. */
  ghost predicate SignedIn(k: Crypto, s: State, token: string, wall: real) {
    && s.stored.Some?
    && exists e :: e in s.sessions && e.key == k.hash(token) && Stands(s, e, wall)
  }

  lemma CheckMeans(k: Crypto, s: State, token: string, wall: real)
    requires Good(k, s)
    ensures Check(k, s, token, wall).1.Accepted? <==> SignedIn(k, s, token, wall)
    ensures Check(k, s, token, wall).1.Unreadable? <==>
              s.stored.None? && exists e :: e in s.sessions && e.key == k.hash(token)
    ensures Check(k, s, token, wall).1.Accepted? ==>
              s.stored.Some? && Check(k, s, token, wall) == (s, Accepted(s.stored.value))
    ensures var r := Check(k, s, token, wall).0;
            && r == s.(sessions := r.sessions)
            && forall e :: e in r.sessions <==>
                 e in s.sessions && (e.key != k.hash(token) || s.stored.None? || Stands(s, e, wall))
  {
    hide Throttling, Backed;
    var key := k.hash(token);
    FindFacts(s.sessions, key);
    FilterFacts(s.sessions, Keeping(key));
    forall e | e in s.sessions && e.key == key ensures Find(s.sessions, key) == Some(e) {
      FoundOnly(s.sessions, e);
    }
    if exists e :: e in s.sessions && e.key == key {
      var e :| e in s.sessions && e.key == key;
      assert Find(s.sessions, key) == Some(e);
    }
  }

  /** Exactly which password changes succeed: with a good token, the current password and an acceptable
      new one.  Then all is as after a reset. */
  lemma ChangeMeans(
      k: Crypto, s: State, token: string, current: string, password: string, wall: real, salt: Bytes, revision: string)
    requires Good(k, s)
    ensures var (r, answer) := Change(k, s, token, current, password, wall, salt, revision);
            && (answer.Changed? <==>
                  SignedIn(k, s, token, wall) && Right(k, current, s.stored.value) && Acceptable(password))
            && (answer.Changed? ==> r == Reset(k, s, password, salt, revision).0)
            && (!answer.Changed? ==> r == Check(k, s, token, wall).0)
            && (answer.Invalid? <==>
                  SignedIn(k, s, token, wall) && Right(k, current, s.stored.value) && !Acceptable(password))
            && (answer.Failed? <==>
                  || Check(k, s, token, wall).1.Unreadable?
                  || (SignedIn(k, s, token, wall) && Unusable(k, current, s.stored)))
  {
    hide Good, Check, SignedIn, Reset;
    CheckMeans(k, s, token, wall);
    ResetMeans(k, s, password, salt, revision);
  }
}
