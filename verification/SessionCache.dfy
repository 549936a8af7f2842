/**
 The session revocation check of the JWT service with its in-process negative cache
 (infra/auth/jwt_service.go:255-299, 335-339), run by any number of concurrent requests against a
 database in which revocation is permanent.
 */
module SessionCache {
  import opened Prelude

  type SessionId = string
  type CheckId = nat

  /** Nanoseconds. */
  type Time = int

  const SESSION_ACTIVE_CACHE_TTL: Time := 30_000_000_000

  /** Where a check stands: each clause is what it has read so far. */
  datatype Check =
    | Started(sid: SessionId)
    | PassedBlacklist(sid: SessionId)
    | ReadClock(sid: SessionId, now: Time)
    | FoundStale(sid: SessionId, now: Time)
    | Missed(sid: SessionId, now: Time)
    | FoundActive(sid: SessionId, now: Time)
    | Accepted(sid: SessionId, now: Time)
    | Rejected(sid: SessionId)
    | Failed(sid: SessionId)

  datatype State = State(
    revokedAt: map<SessionId, Time>,    // the database: revoked sessions, and since when
    cache: map<SessionId, Time>,        // the negative cache: session to expiry
    checks: map<CheckId, Check>,
    clock: Time)

  datatype Label =
    | Begin(c: CheckId, sid: SessionId)
    | AskBlacklist(c: CheckId, answer: Option<bool>)   // the blacklist may fail, forget or fail open
    | LookAtClock(c: CheckId)
    | LoadCache(c: CheckId)
    | DeleteStale(c: CheckId)
    | AskDatabase(c: CheckId, ok: bool)
    | StoreActive(c: CheckId)
    | RevokeSession(sid: SessionId)                    // drops the cache entry on this pod
    | RevokeInDatabase(sid: SessionId)
    | Tick(elapsed: nat)

  function Init(t0: Time): State {
    State(map[], map[], map[], t0)
  }

  predicate Enabled(s: State, l: Label) {
    match l
    case Begin(c, sid) => c !in s.checks
    case AskBlacklist(c, answer) => c in s.checks && s.checks[c].Started?
    case LookAtClock(c) => c in s.checks && s.checks[c].PassedBlacklist?
    case LoadCache(c) => c in s.checks && s.checks[c].ReadClock?
    case DeleteStale(c) => c in s.checks && s.checks[c].FoundStale?
    case AskDatabase(c, ok) => c in s.checks && s.checks[c].Missed?
    case StoreActive(c) => c in s.checks && s.checks[c].FoundActive?
    case RevokeSession(sid) => true
    case RevokeInDatabase(sid) => sid !in s.revokedAt
    case Tick(elapsed) => true
  }

  /** One step. `checker` tells whether a database checker is attached to the service. */
  function Apply(checker: bool, s: State, l: Label): State
    requires Enabled(s, l)
  {
    match l
    case Begin(c, sid) => s.(checks := s.checks[c := Started(sid)])
    case AskBlacklist(c, answer) =>
      var sid := s.checks[c].sid;
      s.(checks := s.checks[c := if answer.None? then Failed(sid)
                                 else if answer.value then Rejected(sid)
                                 else if checker then PassedBlacklist(sid)
                                 else Accepted(sid, s.clock)])
    case LookAtClock(c) => s.(checks := s.checks[c := ReadClock(s.checks[c].sid, s.clock)])
    case LoadCache(c) =>
      var sid, now := s.checks[c].sid, s.checks[c].now;
      s.(checks := s.checks[c := if sid !in s.cache then Missed(sid, now)
                                 else if now < s.cache[sid] then Accepted(sid, now)
                                 else FoundStale(sid, now)])
    case DeleteStale(c) =>
      var sid, now := s.checks[c].sid, s.checks[c].now;
      s.(cache := s.cache - {sid}, checks := s.checks[c := Missed(sid, now)])
    case AskDatabase(c, ok) =>
      var sid, now := s.checks[c].sid, s.checks[c].now;
      s.(checks := s.checks[c := if !ok then Failed(sid)
                                 else if sid in s.revokedAt then Rejected(sid)
                                 else FoundActive(sid, now)])
    case StoreActive(c) =>
      var sid, now := s.checks[c].sid, s.checks[c].now;
      s.(cache := s.cache[sid := now + SESSION_ACTIVE_CACHE_TTL], checks := s.checks[c := Accepted(sid, now)])
    case RevokeSession(sid) => s.(cache := s.cache - {sid})
    case RevokeInDatabase(sid) => s.(revokedAt := s.revokedAt[sid := s.clock])
    case Tick(elapsed) => s.(clock := s.clock + elapsed)
  }

  predicate Runs(checker: bool, s: State, ls: seq<Label>)
    decreases |ls|
  {
    ls == [] || (Enabled(s, ls[0]) && Runs(checker, Apply(checker, s, ls[0]), ls[1..]))
  }

  function After(checker: bool, s: State, ls: seq<Label>): State
    requires Runs(checker, s, ls)
    decreases |ls|
  {
    if ls == [] then s else After(checker, Apply(checker, s, ls[0]), ls[1..])
  }

  ghost predicate Reachable(checker: bool, s: State) {
    exists t0, ls :: Runs(checker, Init(t0), ls) && After(checker, Init(t0), ls) == s
  }

  // ---------------------------------------------------------------- bounded staleness

  /** The database had no revocation of `sid` up to the clock reading `t`. */
  predicate ActiveUntil(s: State, sid: SessionId, t: Time) {
    sid in s.revokedAt ==> t <= s.revokedAt[sid]
  }

  /**
   Every acceptance is recent news: the session was unrevoked at some instant whose clock reading is
   later than the reading of the accepting check, less the 30 seconds a cache entry lives.
   */
  ghost predicate FreshAcceptance(s: State) {
    forall c :: c in s.checks && s.checks[c].Accepted? ==>
      exists t :: s.checks[c].now - 30_000_000_000 < t <= s.clock && ActiveUntil(s, s.checks[c].sid, t)
  }

  predicate CheckSound(s: State, k: Check) {
    match k
    case ReadClock(sid, now) => now <= s.clock
    case FoundStale(sid, now) => now <= s.clock
    case Missed(sid, now) => now <= s.clock
    case FoundActive(sid, now) => now <= s.clock && ActiveUntil(s, sid, now)
    case Accepted(sid, now) => now <= s.clock && ActiveUntil(s, sid, now - SESSION_ACTIVE_CACHE_TTL + 1)
    case _ => true
  }

  ghost predicate Inv(s: State) {
    && (forall sid :: sid in s.cache ==>
          && s.cache[sid] - SESSION_ACTIVE_CACHE_TTL <= s.clock
          && ActiveUntil(s, sid, s.cache[sid] - SESSION_ACTIVE_CACHE_TTL))
    && (forall c :: c in s.checks ==> CheckSound(s, s.checks[c]))
  }

  lemma StepKeepsInv(s: State, l: Label)
    requires Inv(s) && Enabled(s, l)
    ensures Inv(Apply(true, s, l))
  {
    var s' := Apply(true, s, l);
    forall c | c in s'.checks ensures CheckSound(s', s'.checks[c]) {
      if c in s.checks { assert CheckSound(s, s.checks[c]); }
    }
    forall sid | sid in s'.cache
      ensures s'.cache[sid] - SESSION_ACTIVE_CACHE_TTL <= s'.clock
      ensures ActiveUntil(s', sid, s'.cache[sid] - SESSION_ACTIVE_CACHE_TTL)
    {
      if l.StoreActive? { assert CheckSound(s, s.checks[l.c]); }
    }
  }

  lemma {:induction false} RunKeepsInv(s: State, ls: seq<Label>)
    requires Inv(s) && Runs(true, s, ls)
    ensures Inv(After(true, s, ls))
    decreases |ls|
  {
    if ls != [] {
      StepKeepsInv(s, ls[0]);
      RunKeepsInv(Apply(true, s, ls[0]), ls[1..]);
    }
  }

  lemma StalenessBounded(s: State)
    requires Reachable(true, s)
    ensures FreshAcceptance(s)
  {
    var t0, ls :| Runs(true, Init(t0), ls) && After(true, Init(t0), ls) == s;
    RunKeepsInv(Init(t0), ls);
    forall c | c in s.checks && s.checks[c].Accepted?
      ensures exists t :: s.checks[c].now - SESSION_ACTIVE_CACHE_TTL < t <= s.clock
                          && ActiveUntil(s, s.checks[c].sid, t)
    {
      assert CheckSound(s, s.checks[c]);
      assert ActiveUntil(s, s.checks[c].sid, s.checks[c].now - SESSION_ACTIVE_CACHE_TTL + 1);
    }
  }

  // ---------------------------------------------------------------- the bound is exact, and needs the checker

  lemma StepThen(checker: bool, s: State, l: Label, rest: seq<Label>)
    requires Enabled(s, l) && Runs(checker, Apply(checker, s, l), rest)
    ensures Runs(checker, s, [l] + rest)
    ensures After(checker, s, [l] + rest) == After(checker, Apply(checker, s, l), rest)
  {
    assert ([l] + rest)[1..] == rest;
  }

  lemma {:induction false} RunsConcat(checker: bool, s: State, a: seq<Label>, b: seq<Label>)
    requires Runs(checker, s, a) && Runs(checker, After(checker, s, a), b)
    ensures Runs(checker, s, a + b) && After(checker, s, a + b) == After(checker, After(checker, s, a), b)
    decreases |a|
  {
    if a == [] {
      assert a + b == b;
    } else {
      RunsConcat(checker, Apply(checker, s, a[0]), a[1..], b);
      assert a + b == [a[0]] + (a[1..] + b);
      StepThen(checker, s, a[0], a[1..] + b);
    }
  }

  function AskLabels(s: State, c: CheckId, sid: SessionId, ok: bool): seq<Label> {
    [AskDatabase(c, ok)] + if !ok || sid in s.revokedAt then [] else [StoreActive(c)]
  }

  predicate Hit(s: State, sid: SessionId) {
    sid in s.cache && s.clock < s.cache[sid]
  }

  function CacheLabels(s: State, c: CheckId, sid: SessionId, ok: bool): seq<Label> {
    [LoadCache(c)]
    + if Hit(s, sid) then []
      else if sid in s.cache then [DeleteStale(c)] + AskLabels(s, c, sid, ok)
      else AskLabels(s, c, sid, ok)
  }

  /** A check that nobody interrupts; `answer` is the blacklist's, and `ok` tells whether the database answers. */
  function CheckLabels(checker: bool, s: State, c: CheckId, sid: SessionId, answer: Option<bool>, ok: bool): seq<Label> {
    [Begin(c, sid)] + ([AskBlacklist(c, answer)]
    + if answer == Some(false) && checker then [LookAtClock(c)] + CacheLabels(s, c, sid, ok) else [])
  }

  /** Past the blacklist a check accepts on a hit or an unrevoked session, and leaves a fresh entry for the latter. */
  function PastBlacklist(s: State, c: CheckId, sid: SessionId, ok: bool): State {
    if Hit(s, sid) then s.(checks := s.checks[c := Accepted(sid, s.clock)])
    else if !ok then s.(checks := s.checks[c := Failed(sid)], cache := s.cache - {sid})
    else if sid in s.revokedAt then s.(checks := s.checks[c := Rejected(sid)], cache := s.cache - {sid})
    else s.(checks := s.checks[c := Accepted(sid, s.clock)], cache := s.cache[sid := s.clock + SESSION_ACTIVE_CACHE_TTL])
  }

  function Checked(checker: bool, s: State, c: CheckId, sid: SessionId, answer: Option<bool>, ok: bool): State {
    if answer.None? then s.(checks := s.checks[c := Failed(sid)])
    else if answer.value then s.(checks := s.checks[c := Rejected(sid)])
    else if !checker then s.(checks := s.checks[c := Accepted(sid, s.clock)])
    else PastBlacklist(s, c, sid, ok)
  }

  lemma AskRun(s: State, c: CheckId, sid: SessionId, now: Time, ok: bool)
    requires c in s.checks && s.checks[c] == Missed(sid, now)
    ensures Runs(true, s, AskLabels(s, c, sid, ok))
    ensures After(true, s, AskLabels(s, c, sid, ok)) ==
            if !ok then s.(checks := s.checks[c := Failed(sid)])
            else if sid in s.revokedAt then s.(checks := s.checks[c := Rejected(sid)])
            else s.(checks := s.checks[c := Accepted(sid, now)], cache := s.cache[sid := now + SESSION_ACTIVE_CACHE_TTL])
  {
    var s1 := Apply(true, s, AskDatabase(c, ok));
    if !ok || sid in s.revokedAt {
      StepThen(true, s, AskDatabase(c, ok), []);
    } else {
      StepThen(true, s1, StoreActive(c), []);
      StepThen(true, s, AskDatabase(c, ok), [StoreActive(c)]);
      assert Apply(true, s1, StoreActive(c)).checks == s.checks[c := Accepted(sid, now)];
    }
  }

  lemma HitRun(s: State, c: CheckId, sid: SessionId, ok: bool)
    requires c in s.checks && s.checks[c] == ReadClock(sid, s.clock) && Hit(s, sid)
    ensures Runs(true, s, CacheLabels(s, c, sid, ok)) && After(true, s, CacheLabels(s, c, sid, ok)) == PastBlacklist(s, c, sid, ok)
  {
    StepThen(true, s, LoadCache(c), []);
  }

  lemma MissRun(s: State, c: CheckId, sid: SessionId, ok: bool)
    requires c in s.checks && s.checks[c] == ReadClock(sid, s.clock) && sid !in s.cache
    ensures Runs(true, s, CacheLabels(s, c, sid, ok)) && After(true, s, CacheLabels(s, c, sid, ok)) == PastBlacklist(s, c, sid, ok)
  {
    var s1 := Apply(true, s, LoadCache(c));
    AskRun(s1, c, sid, s.clock, ok);
    StepThen(true, s, LoadCache(c), AskLabels(s, c, sid, ok));
    assert s.cache - {sid} == s.cache;
    Overwrite(s.checks, c, s1.checks[c], PastBlacklist(s, c, sid, ok).checks[c]);
  }

  lemma StaleRun(s: State, c: CheckId, sid: SessionId, ok: bool)
    requires c in s.checks && s.checks[c] == ReadClock(sid, s.clock) && sid in s.cache && !Hit(s, sid)
    ensures Runs(true, s, CacheLabels(s, c, sid, ok)) && After(true, s, CacheLabels(s, c, sid, ok)) == PastBlacklist(s, c, sid, ok)
  {
    var s1 := Apply(true, s, LoadCache(c));
    var s2 := Apply(true, s1, DeleteStale(c));
    AskRun(s2, c, sid, s.clock, ok);
    StepThen(true, s1, DeleteStale(c), AskLabels(s, c, sid, ok));
    StepThen(true, s, LoadCache(c), [DeleteStale(c)] + AskLabels(s, c, sid, ok));
    assert (s.cache - {sid})[sid := s.clock + SESSION_ACTIVE_CACHE_TTL] == s.cache[sid := s.clock + SESSION_ACTIVE_CACHE_TTL];
    Overwrite(s.checks, c, s1.checks[c], s2.checks[c]);
    Overwrite(s.checks, c, s2.checks[c], PastBlacklist(s, c, sid, ok).checks[c]);
  }

  lemma Overwrite(checks: map<CheckId, Check>, c: CheckId, k: Check, k': Check)
    ensures checks[c := k][c := k'] == checks[c := k']
  {
  }

  lemma CacheRun(s: State, c: CheckId, sid: SessionId, ok: bool)
    requires c in s.checks && s.checks[c] == ReadClock(sid, s.clock)
    ensures Runs(true, s, CacheLabels(s, c, sid, ok)) && After(true, s, CacheLabels(s, c, sid, ok)) == PastBlacklist(s, c, sid, ok)
  {
    if Hit(s, sid) {
      HitRun(s, c, sid, ok);
    } else if sid !in s.cache {
      MissRun(s, c, sid, ok);
    } else {
      StaleRun(s, c, sid, ok);
    }
  }

  /** The state in which a fresh check has read the clock. */
  function Looking(s: State, c: CheckId, sid: SessionId): State {
    s.(checks := s.checks[c := ReadClock(sid, s.clock)])
  }

  lemma LookRun(s: State, c: CheckId, sid: SessionId, tail: seq<Label>)
    requires c !in s.checks && Runs(true, Looking(s, c, sid), tail)
    ensures var ls := [Begin(c, sid)] + ([AskBlacklist(c, Some(false))] + ([LookAtClock(c)] + tail));
            Runs(true, s, ls) && After(true, s, ls) == After(true, Looking(s, c, sid), tail)
  {
    var s1 := Apply(true, s, Begin(c, sid));
    var s2 := Apply(true, s1, AskBlacklist(c, Some(false)));
    Overwrite(s.checks, c, Started(sid), PassedBlacklist(sid));
    Overwrite(s.checks, c, PassedBlacklist(sid), ReadClock(sid, s.clock));
    StepThen(true, s2, LookAtClock(c), tail);
    StepThen(true, s1, AskBlacklist(c, Some(false)), [LookAtClock(c)] + tail);
    StepThen(true, s, Begin(c, sid), [AskBlacklist(c, Some(false))] + ([LookAtClock(c)] + tail));
  }

  lemma ShortRun(checker: bool, s: State, c: CheckId, sid: SessionId, answer: Option<bool>)
    requires c !in s.checks && !(answer == Some(false) && checker)
    ensures var ls := [Begin(c, sid)] + ([AskBlacklist(c, answer)] + []);
            Runs(checker, s, ls) && After(checker, s, ls) == Checked(checker, s, c, sid, answer, true)
  {
    var s1 := Apply(checker, s, Begin(c, sid));
    StepThen(checker, s1, AskBlacklist(c, answer), []);
    StepThen(checker, s, Begin(c, sid), [AskBlacklist(c, answer)] + []);
    Overwrite(s.checks, c, Started(sid), Checked(checker, s, c, sid, answer, true).checks[c]);
  }

  /** The verdict of an uninterrupted check for every answer, and the cache it leaves. */
  lemma UninterruptedCheck(checker: bool, s: State, c: CheckId, sid: SessionId, answer: Option<bool>, ok: bool)
    requires c !in s.checks
    ensures Runs(checker, s, CheckLabels(checker, s, c, sid, answer, ok))
    ensures After(checker, s, CheckLabels(checker, s, c, sid, answer, ok)) == Checked(checker, s, c, sid, answer, ok)
  {
    if answer == Some(false) && checker {
      CacheRun(Looking(s, c, sid), c, sid, ok);
      LookRun(s, c, sid, CacheLabels(s, c, sid, ok));
      Overwrite(s.checks, c, ReadClock(sid, s.clock), PastBlacklist(s, c, sid, ok).checks[c]);
    } else {
      ShortRun(checker, s, c, sid, answer);
    }
  }

  /** Calls made one after the other: each leads from a reachable state to another one, and accepts recent news only. */
  lemma CallIsFresh(s: State, c: CheckId, sid: SessionId, answer: Option<bool>, ok: bool)
    requires Reachable(true, s) && c !in s.checks
    ensures Reachable(true, Checked(true, s, c, sid, answer, ok))
    ensures Checked(true, s, c, sid, answer, ok).checks[c].Accepted? && sid in s.revokedAt ==>
              s.clock - s.revokedAt[sid] < 30_000_000_000
  {
    var t0, ls :| Runs(true, Init(t0), ls) && After(true, Init(t0), ls) == s;
    UninterruptedCheck(true, s, c, sid, answer, ok);
    RunsConcat(true, Init(t0), ls, CheckLabels(true, s, c, sid, answer, ok));
    var s' := Checked(true, s, c, sid, answer, ok);
    assert Reachable(true, s');
    StalenessBounded(s');
  }

  /** A session revoked in the database and on this pod is rejected at once, unless a check was under way. */
  lemma RevocationIsImmediate(s: State, c: CheckId, sid: SessionId)
    requires c !in s.checks && sid in s.revokedAt
    ensures var s1 := Apply(true, s, RevokeSession(sid));
            Checked(true, s1, c, sid, Some(false), true).checks[c] == Rejected(sid)
  {
  }

  /** The database revokes the session and time passes. */
  lemma RevokeRun(s: State, sid: SessionId, elapsed: nat, tail: seq<Label>)
    requires sid !in s.revokedAt
    requires Runs(true, s.(revokedAt := s.revokedAt[sid := s.clock], clock := s.clock + elapsed), tail)
    ensures var s' := s.(revokedAt := s.revokedAt[sid := s.clock], clock := s.clock + elapsed);
            var ls := [RevokeInDatabase(sid)] + ([Tick(elapsed)] + tail);
            Runs(true, s, ls) && After(true, s, ls) == After(true, s', tail)
  {
    StepThen(true, Apply(true, s, RevokeInDatabase(sid)), Tick(elapsed), tail);
    StepThen(true, s, RevokeInDatabase(sid), [Tick(elapsed)] + tail);
  }

  /** A session revoked just after a check is still accepted one nanosecond before the entry expires. */
  lemma BoundIsTight(sid: SessionId)
    ensures exists s :: Reachable(true, s) && 1 in s.checks && sid in s.revokedAt
                        && s.checks[1] == Accepted(sid, s.revokedAt[sid] + 29_999_999_999)
  {
    var s0 := Init(0);
    UninterruptedCheck(true, s0, 0, sid, Some(false), true);
    var first := CheckLabels(true, s0, 0, sid, Some(false), true);
    var s1, elapsed := Checked(true, s0, 0, sid, Some(false), true), SESSION_ACTIVE_CACHE_TTL - 1;
    var s2 := s1.(revokedAt := s1.revokedAt[sid := s1.clock], clock := s1.clock + elapsed);
    UninterruptedCheck(true, s2, 1, sid, Some(false), true);
    var second := CheckLabels(true, s2, 1, sid, Some(false), true);
    RevokeRun(s1, sid, elapsed, second);
    var rest := [RevokeInDatabase(sid)] + ([Tick(elapsed)] + second);
    RunsConcat(true, s0, first, rest);
    assert Reachable(true, After(true, s0, first + rest));
  }

  /** Without a database checker a revocation the blacklist misses is never noticed, however old it is. */
  lemma UnboundedWithoutChecker(sid: SessionId, age: nat)
    ensures exists s :: Reachable(false, s) && 0 in s.checks && sid in s.revokedAt
                        && s.checks[0] == Accepted(sid, s.revokedAt[sid] + age)
  {
    var s0 := Init(0);
    var r, t, b, a := RevokeInDatabase(sid), Tick(age), Begin(0, sid), AskBlacklist(0, Some(false));
    var s1 := Apply(false, s0, r);
    var s2 := Apply(false, s1, t);
    var s3 := Apply(false, s2, b);
    var s4 := Apply(false, s3, a);
    StepThen(false, s3, a, []);
    StepThen(false, s2, b, [a]);
    StepThen(false, s1, t, [b] + [a]);
    StepThen(false, s0, r, [t] + ([b] + [a]));
    assert Reachable(false, s4);
    assert s4.checks[0] == Accepted(sid, age) && s4.revokedAt[sid] == 0;
  }

  /** Acceptances stay fresh in every run exactly when a checker is attached. */
  lemma FreshIffChecker(checker: bool)
    ensures (forall s :: Reachable(checker, s) ==> FreshAcceptance(s)) <==> checker
  {
    if checker {
      forall s | Reachable(checker, s) ensures FreshAcceptance(s) {
        StalenessBounded(s);
      }
    } else {
      UnboundedWithoutChecker("", SESSION_ACTIVE_CACHE_TTL);
      var s :| Reachable(false, s) && 0 in s.checks && "" in s.revokedAt
               && s.checks[0] == Accepted("", s.revokedAt[""] + SESSION_ACTIVE_CACHE_TTL);
      assert !FreshAcceptance(s);
    }
  }

  // ---------------------------------------------------------------- the service

  datatype Verdict = Accept | RevokedError | CheckError

  function VerdictOf(k: Check): Verdict {
    match k
    case Accepted(_, _) => Accept
    case Rejected(_) => RevokedError
    case _ => CheckError
  }

  /** A pod with the given cache and clock and no check under way. */
  function Alone(cache: map<SessionId, Time>, now: Time, sid: SessionId, revoked: bool): State {
    State(if revoked then map[sid := now] else map[], cache, map[], now)
  }

  /** What the machine's check makes of these inputs, spelled out. */
  lemma AloneCheck(checker: bool, cache: map<SessionId, Time>, now: Time, sid: SessionId,
                   blacklisted: Option<bool>, revoked: Option<bool>)
    ensures var s := Alone(cache, now, sid, revoked == Some(true));
            var ls := CheckLabels(checker, s, 0, sid, blacklisted, revoked.Some?);
            var asks := blacklisted == Some(false) && checker && !(sid in cache && now < cache[sid]);
            && Runs(checker, s, ls) && 0 in After(checker, s, ls).checks
            && VerdictOf(After(checker, s, ls).checks[0])
               == (if blacklisted.None? then CheckError else if blacklisted.value then RevokedError
                   else if !asks then Accept
                   else if revoked.None? then CheckError else if revoked.value then RevokedError else Accept)
            && After(checker, s, ls).cache
               == (if !asks then cache
                   else if revoked == Some(false) then cache[sid := now + 30_000_000_000] else cache - {sid})
  {
    UninterruptedCheck(checker, Alone(cache, now, sid, revoked == Some(true)), 0, sid, blacklisted, revoked.Some?);
  }

  class JwtService {
    var activeCache: map<SessionId, Time>
    var blacklist: map<SessionId, Time>       // session entries written to the blacklist, with their expiry
    const checker: bool

    constructor (checker: bool)
      ensures activeCache == map[] && blacklist == map[] && this.checker == checker
    {
      activeCache, blacklist := map[], map[];
      this.checker := checker;
    }

    /**
     The check as one call: `blacklisted` and `revoked` are the answers of the blacklist and the
     database, `None` an error; `now` is the clock reading. Verdict and cache are those of the machine's
     uninterrupted check. A revocation found in the database is written to the blacklist if the token has an
     expiry; whether that write works changes nothing else.
     */
    method CheckSessionRevocation(sid: SessionId, blacklisted: Option<bool>, now: Time, revoked: Option<bool>,
                                  expiresAt: Option<Time>, backfillOk: bool)
      returns (v: Verdict)
      modifies this
      ensures var s := Alone(old(activeCache), now, sid, revoked == Some(true));
              var ls := CheckLabels(checker, s, 0, sid, blacklisted, revoked.Some?);
              && Runs(checker, s, ls) && 0 in After(checker, s, ls).checks
              && v == VerdictOf(After(checker, s, ls).checks[0]) && activeCache == After(checker, s, ls).cache
      ensures blacklist == if v == RevokedError && blacklisted == Some(false) && expiresAt.Some? && backfillOk
                           then old(blacklist)[sid := expiresAt.value] else old(blacklist)
    {
      AloneCheck(checker, activeCache, now, sid, blacklisted, revoked);
      if blacklisted.None? { return CheckError; }
      if blacklisted.value { return RevokedError; }
      if !checker { return Accept; }
      if sid in activeCache {
        if now < activeCache[sid] { return Accept; }
        activeCache := activeCache - {sid};
      }
      if revoked.None? { return CheckError; }
      if !revoked.value {
        activeCache := activeCache[sid := now + SESSION_ACTIVE_CACHE_TTL];
        return Accept;
      }
      if expiresAt.Some? && backfillOk {
        blacklist := blacklist[sid := expiresAt.value];
      }
      return RevokedError;
    }

    /** The cached answer goes in any case; the error of the blacklist write is the caller's. */
    method RevokeSession(sid: SessionId, expiresAt: Time, writeOk: bool) returns (ok: bool)
      modifies this
      ensures ok == writeOk
      ensures activeCache == old(activeCache) - {sid}
      ensures blacklist == if writeOk then old(blacklist)[sid := expiresAt] else old(blacklist)
    {
      activeCache := activeCache - {sid};
      if writeOk {
        blacklist := blacklist[sid := expiresAt];
      }
      return writeOk;
    }
  }
}
