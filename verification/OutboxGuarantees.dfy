/** What the relay guarantees over every run, whatever its workers, the broker and the clock do. */
module OutboxGuarantees {
  import opened Prelude
  import opened OutboxTable
  import opened OutboxMessages
  import opened OutboxProtocol

  ghost predicate Reachable(d: Deployment, s: State) {
    exists t0, ls :: Runs(d, Init(t0), ls) && After(d, Init(t0), ls) == s
  }

  lemma {:induction false} RunsConcat(d: Deployment, s: State, a: seq<Label>, b: seq<Label>)
    ensures Runs(d, s, a + b) <==> Runs(d, s, a) && Runs(d, After(d, s, a), b)
    ensures Runs(d, s, a + b) ==> After(d, s, a + b) == After(d, After(d, s, a), b)
    decreases |a|
  {
    if a == [] {
      assert a + b == b;
    } else {
      assert (a + b)[1..] == a[1..] + b;
      if Enabled(d, s, a[0]) {
        RunsConcat(d, Apply(d, s, a[0]), a[1..], b);
      }
    }
  }

  lemma ReachableInv(d: Deployment, s: State)
    requires Reachable(d, s)
    ensures Inv(d, s)
  {
    var t0, ls :| Runs(d, Init(t0), ls) && After(d, Init(t0), ls) == s;
    RunKeepsInv(d, Init(t0), ls);
  }

  // ---------------------------------------------------------------- no event is lost

  /** Every committed event still waits in the table, or reached the broker, or is dead-lettered. */
  ghost predicate NoLoss(s: State) {
    forall id :: id in s.committed ==>
      (id in s.rows && s.rows[id].publishedAt.None?) || Acked(s, id) || id in s.dlq
  }

  lemma {:induction false} NothingDiscarded(d: Deployment, s: State, ls: seq<Label>)
    requires Inv(d, s) && Runs(d, s, ls) && s.discarded == {}
    requires forall w :: !CanDiscard(d, w)
    ensures After(d, s, ls).discarded == {}
    decreases |ls|
  {
    if ls != [] {
      StepKeepsInv(d, s, ls[0]);
      if ls[0].Exhaust? {
        assert !CanDiscard(d, ls[0].w) && SessionFaithful(d, s, ls[0].w);
      }
      NothingDiscarded(d, Apply(d, s, ls[0]), ls[1..]);
    }
  }

  lemma NoEventLost(d: Deployment, s: State)
    requires Reachable(d, s)
    requires forall w :: !CanDiscard(d, w)
    ensures NoLoss(s)
  {
    ReachableInv(d, s);
    var t0, ls :| Runs(d, Init(t0), ls) && After(d, Init(t0), ls) == s;
    NothingDiscarded(d, Init(t0), ls);
  }

  /** A clean-up only removes events that reached the broker or the dead letter queue. */
  lemma CleanupDeletesOnlyDelivered(d: Deployment, s: State, cutoff: Time, victims: set<Id>, id: Id)
    requires Reachable(d, s) && Enabled(d, s, Cleanup(cutoff, victims))
    requires forall w :: !CanDiscard(d, w)
    requires id in s.rows && id !in Apply(d, s, Cleanup(cutoff, victims)).rows
    ensures Acked(s, id) || id in s.dlq
  {
    ReachableInv(d, s);
    var t0, ls :| Runs(d, Init(t0), ls) && After(d, Init(t0), ls) == s;
    NothingDiscarded(d, Init(t0), ls);
  }

  // ---------------------------------------------------------------- without a dead letter queue

  const LOST: Id := "lost"
  const SOME_BODY: Body := Body("Order", "1", "order.created", "{}", Metadata("", "", "", ""), 0)

  /** One row, waiting, never acknowledged, after `k` failed polls of the only active worker. */
  ghost predicate Waiting(s: State, k: nat) {
    && s.rows.Keys == {LOST} && s.committed.Keys == {LOST}
    && s.rows[LOST].publishedAt.None? && s.rows[LOST].claimedAt.None?
    && s.rows[LOST].retryCount == k
    && s.acked == {} && s.dlq == map[] && s.sessions == map[]
    && forall t :: t in s.used ==> t < k
  }

  lemma OnlyRowSelected(d: Deployment, w: WorkerId, s: State, k: nat)
    requires Waiting(s, k) && d(w).batchSize > 0
    ensures Enabled(d, s, Claim(w, k, {}, [LOST]))
  {
    assert Pickable(s.rows, s.now, {}, LOST);
    assert forall id :: Pickable(s.rows, s.now, {}, id) ==> id in [LOST];
  }

  lemma StepThen(d: Deployment, s: State, l: Label, rest: seq<Label>)
    requires Enabled(d, s, l) && Runs(d, Apply(d, s, l), rest)
    ensures Runs(d, s, [l] + rest) && After(d, s, [l] + rest) == After(d, Apply(d, s, l), rest)
  {
    assert ([l] + rest)[1..] == rest;
  }

  ghost function ClaimedAndFailed(d: Deployment, w: WorkerId, s: State, k: nat): State
    requires Waiting(s, k) && CanDiscard(d, w) && k < d(w).maxRetries
  {
    OnlyRowSelected(d, w, s, k);
    Apply(d, Apply(d, s, Claim(w, k, {}, [LOST])), Publish(w, Some("down")))
  }

  lemma FailedPublish(d: Deployment, w: WorkerId, s: State, k: nat)
    requires Waiting(s, k) && CanDiscard(d, w) && k < d(w).maxRetries
    ensures var s2 := ClaimedAndFailed(d, w, s, k);
            && s2.rows.Keys == {LOST} == s2.committed.Keys
            && s2.rows[LOST].publishedAt.None? && s2.rows[LOST].retryCount == k
            && s2.acked == {} && s2.dlq == map[]
            && (forall t :: t in s2.used ==> t < k + 1)
            && s2.sessions.Keys == {w} && AtEnd(s2, w, false)
            && s2.sessions[w].published == [] && s2.sessions[w].failed == [ReleaseEntry(LOST, "down")]
  {
    OnlyRowSelected(d, w, s, k);
  }

  /** A poll whose only publish fails. */
  lemma FailedPoll(d: Deployment, w: WorkerId, s: State, k: nat) returns (ls: seq<Label>)
    requires Waiting(s, k) && CanDiscard(d, w) && k < d(w).maxRetries
    ensures Runs(d, s, ls) && Waiting(After(d, s, ls), k + 1)
  {
    OnlyRowSelected(d, w, s, k);
    FailedPublish(d, w, s, k);
    var s2 := ClaimedAndFailed(d, w, s, k);
    var s3 := Apply(d, s2, Mark(w, true));
    assert s3.rows == s2.rows;
    var s4 := Apply(d, s3, Release(w, true));
    assert s4.rows[LOST] == ReleasedRow(s3.rows[LOST], "down");
    assert s4.rows.Keys == {LOST} && s4.sessions == map[];
    assert Waiting(s4, k + 1);
    StepThen(d, s3, Release(w, true), []);
    StepThen(d, s2, Mark(w, true), [Release(w, true)]);
    var c := Claim(w, k, {}, [LOST]);
    var tail := [Mark(w, true)] + [Release(w, true)];
    StepThen(d, Apply(d, s, c), Publish(w, Some("down")), tail);
    StepThen(d, s, c, [Publish(w, Some("down"))] + tail);
    ls := [c] + ([Publish(w, Some("down"))] + tail);
  }

  lemma {:induction false} FailUntilExhausted(d: Deployment, w: WorkerId, s: State, k: nat)
    returns (ls: seq<Label>, n: nat)
    requires Waiting(s, k) && CanDiscard(d, w)
    ensures Runs(d, s, ls) && Waiting(After(d, s, ls), n) && n >= d(w).maxRetries
    decreases d(w).maxRetries - k
  {
    if k >= d(w).maxRetries {
      ls, n := [], k;
    } else {
      var first := FailedPoll(d, w, s, k);
      var rest;
      rest, n := FailUntilExhausted(d, w, After(d, s, first), k + 1);
      RunsConcat(d, s, first, rest);
      ls := first + rest;
    }
  }

  /** The next poll marks the exhausted row published although nobody received it. */
  lemma ExhaustedPollLoses(d: Deployment, w: WorkerId, s: State, k: nat) returns (ls: seq<Label>)
    requires Waiting(s, k) && CanDiscard(d, w) && k >= d(w).maxRetries
    ensures Runs(d, s, ls) && !NoLoss(After(d, s, ls))
  {
    OnlyRowSelected(d, w, s, k);
    var c := Claim(w, k, {}, [LOST]);
    var s1 := Apply(d, s, c);
    var x := Exhaust(w, None, false);
    var s2 := Apply(d, s1, x);
    var m := Mark(w, true);
    var s3 := Apply(d, s2, m);
    assert s2.sessions[w].published == [LOST];
    assert s3.rows[LOST].publishedAt.Some?;
    assert LOST in s3.committed && !Acked(s3, LOST) && LOST !in s3.dlq;
    StepThen(d, s2, m, []);
    StepThen(d, s1, x, [m]);
    StepThen(d, s, c, [x] + [m]);
    ls := [c] + ([x] + [m]);
  }

  lemma LossPossible(d: Deployment, w: WorkerId)
    requires CanDiscard(d, w)
    ensures exists s :: Reachable(d, s) && !NoLoss(s)
  {
    var i := Insert(map[LOST := SOME_BODY]);
    var s0 := Apply(d, Init(0), i);
    assert Waiting(s0, 0);
    var fails, n := FailUntilExhausted(d, w, s0, 0);
    var last := ExhaustedPollLoses(d, w, After(d, s0, fails), n);
    RunsConcat(d, s0, fails, last);
    StepThen(d, Init(0), i, fails + last);
    var s := After(d, Init(0), [i] + (fails + last));
    assert Reachable(d, s) && !NoLoss(s);
  }

  /** No run loses an event exactly when every worker that claims rows has a dead letter queue. */
  lemma NoLossIffDeadLetterQueue(d: Deployment)
    ensures (forall s :: Reachable(d, s) ==> NoLoss(s)) <==> (forall w :: !CanDiscard(d, w))
  {
    if forall w :: !CanDiscard(d, w) {
      forall s | Reachable(d, s) ensures NoLoss(s) {
        NoEventLost(d, s);
      }
    } else {
      var w :| CanDiscard(d, w);
      LossPossible(d, w);
    }
  }

  // ---------------------------------------------------------------- every redelivery is the same message

  lemma RedeliveryIsIdentical(d: Deployment, s: State, i: nat, j: nat)
    requires Reachable(d, s) && i < |s.attempts| && j < |s.attempts|
    requires s.attempts[i].id == s.attempts[j].id
    ensures Message(s.attempts[i].id, s.attempts[i].body) == Message(s.attempts[j].id, s.attempts[j].body)
    ensures s.attempts[i].id in s.committed
    ensures var m := Message(s.attempts[i].id, s.attempts[i].body);
            && m.id == s.attempts[i].id && m.data == s.committed[m.id].payload
            && m.subject == s.committed[m.id].eventType && m.name == s.committed[m.id].eventType
  {
    ReachableInv(d, s);
  }

  /** A dead letter keeps the event's own id, payload, type and creation time. */
  lemma DeadLettersCarryTheEvent(d: Deployment, s: State, id: Id)
    requires Reachable(d, s) && id in s.dlq
    ensures id in s.committed
    ensures var x := DeadLetter(s.dlq[id]);
            x.id == id && x.data == s.committed[id].payload && x.subject == s.committed[id].eventType
            && x.originalAt == s.committed[id].createdAt
  {
    ReachableInv(d, s);
  }

  /** What is in the dead letter queue had used up the retries of a worker that dead-letters. */
  ghost predicate LettersExhausted(d: Deployment, s: State) {
    forall id :: id in s.dlq ==> exists w :: d(w).dlq && s.dlq[id].retryCount >= d(w).maxRetries
  }

  lemma StepKeepsLetters(d: Deployment, s: State, l: Label)
    requires LettersExhausted(d, s) && Enabled(d, s, l)
    ensures LettersExhausted(d, Apply(d, s, l))
  {
    if l.Exhaust? && d(l.w).dlq {
      assert Current(s, l.w).retryCount >= d(l.w).maxRetries;
    }
  }

  lemma {:induction false} RunKeepsLetters(d: Deployment, s: State, ls: seq<Label>)
    requires LettersExhausted(d, s) && Runs(d, s, ls)
    ensures LettersExhausted(d, After(d, s, ls))
    decreases |ls|
  {
    if ls != [] {
      StepKeepsLetters(d, s, ls[0]);
      RunKeepsLetters(d, Apply(d, s, ls[0]), ls[1..]);
    }
  }

  /** An event is dead-lettered only after some worker's retries for it were used up, and the letter says how many there were. */
  lemma DeadLettersAreExhausted(d: Deployment, s: State, id: Id)
    requires Reachable(d, s) && id in s.dlq
    ensures exists w :: d(w).dlq && DeadLetter(s.dlq[id]).attempts >= d(w).maxRetries
  {
    var t0, ls :| Runs(d, Init(t0), ls) && After(d, Init(t0), ls) == s;
    RunKeepsLetters(d, Init(t0), ls);
    var w :| d(w).dlq && s.dlq[id].retryCount >= d(w).maxRetries;
    DeadLetterTells(s.dlq[id]);
  }

  // ---------------------------------------------------------------- leases

  /** A row whose claim is more than five minutes old, or that is not claimed, is taken by the next claim that has room. */
  lemma OrphanIsReclaimed(d: Deployment, s: State, c: Label, id: Id)
    requires c.Claim? && Enabled(d, s, c) && id !in c.locked && |c.ids| < d(c.w).batchSize
    requires id in s.rows && s.rows[id].publishedAt == None
    requires s.rows[id].claimedAt == None || s.now - s.rows[id].claimedAt.value > 300_000_000_000
    ensures var s' := Apply(d, s, c);
            && id in s'.rows && s'.rows[id].claimedAt == Some(s.now) && s'.rows[id].token == Some(c.token)
            && c.w in s'.sessions && s'.sessions[c.w].token == c.token && id in EntryIds(s'.sessions[c.w].entries)
  {
    SelectionExactly(s.rows, s.now, c.locked, d(c.w).batchSize, c.ids, id);
    var i :| 0 <= i < |c.ids| && c.ids[i] == id;
    assert EntryIds(Apply(d, s, c).sessions[c.w].entries)[i] == id;
  }

  /**
   A crash of a worker changes no row and nothing that was sent; five minutes after its claims, a worker that
   then starts anew, the same or another, gets its unpublished rows again.
   */
  lemma CrashedWorkIsReclaimed(d: Deployment, s: State, w: WorkerId, elapsed: nat, c: Label, id: Id)
    requires w in s.sessions && id in s.rows && s.rows[id].publishedAt == None
    requires s.rows[id].claimedAt.Some? && s.rows[id].claimedAt.value <= s.now && elapsed > 300_000_000_000
    requires c.Claim? && c.token !in s.used && (c.w == w || c.w !in s.sessions)
    requires IsSelection(s.rows, s.now + elapsed, c.locked, d(c.w).batchSize, c.ids)
    requires id !in c.locked && |c.ids| < d(c.w).batchSize
    ensures var ls := [Crash(w), Tick(elapsed), c];
            && Runs(d, s, ls)
            && var s' := After(d, s, ls);
            && s'.attempts == s.attempts && s'.acked == s.acked && s'.dlq == s.dlq && s'.committed == s.committed
            && c.w in s'.sessions && id in EntryIds(s'.sessions[c.w].entries)
            && id in s'.rows && s'.rows[id].token == Some(c.token)
  {
    var s1 := Apply(d, s, Crash(w));
    var s2 := Apply(d, s1, Tick(elapsed));
    OrphanIsReclaimed(d, s2, c, id);
    StepThen(d, s2, c, []);
    StepThen(d, s1, Tick(elapsed), [c] + []);
    StepThen(d, s, Crash(w), [Tick(elapsed)] + ([c] + []));
    assert [Crash(w), Tick(elapsed), c] == [Crash(w)] + ([Tick(elapsed)] + ([c] + []));
  }

  /** A clean-up leaves alone what is not published, or was published at or after its cutoff. */
  lemma CleanupSpares(d: Deployment, s: State, cutoff: Time, victims: set<Id>, id: Id)
    requires Enabled(d, s, Cleanup(cutoff, victims)) && id in s.rows
    requires s.rows[id].publishedAt == None || s.rows[id].publishedAt.value >= cutoff
    ensures id in Apply(d, s, Cleanup(cutoff, victims)).rows
    ensures |s.rows.Keys - Apply(d, s, Cleanup(cutoff, victims)).rows.Keys| <= 10_000
  {
    assert !Stale(s.rows[id], cutoff);
    assert s.rows.Keys - Apply(d, s, Cleanup(cutoff, victims)).rows.Keys == victims;
  }

  predicate ReleasesRow(s: State, l: Label, id: Id) {
    l.Release? && l.ok && l.w in s.sessions && id in ReleaseIds(s.sessions[l.w].failed)
  }

  /** No step of the run clears the claim on `id`. */
  ghost predicate Unreleased(d: Deployment, s: State, ls: seq<Label>, id: Id)
    requires Runs(d, s, ls)
    decreases |ls|
  {
    ls == [] || (!ReleasesRow(s, ls[0], id) && Unreleased(d, Apply(d, s, ls[0]), ls[1..], id))
  }

  ghost predicate ClaimedSince(s: State, id: Id, t: Time) {
    && id in s.committed && t <= s.now
    && (id in s.rows ==> s.rows[id].claimedAt.Some? && t <= s.rows[id].claimedAt.value)
  }

  lemma StepKeepsClaim(d: Deployment, s: State, l: Label, id: Id, t: Time)
    requires Enabled(d, s, l) && !ReleasesRow(s, l, id) && ClaimedSince(s, id, t)
    ensures ClaimedSince(Apply(d, s, l), id, t)
  {
    if l.Release? && l.ok {
      ErrorForMember(s.sessions[l.w].failed, id);
    }
  }

  lemma {:induction false} RunKeepsClaim(d: Deployment, s: State, ls: seq<Label>, id: Id, t: Time)
    requires Runs(d, s, ls) && Unreleased(d, s, ls, id) && ClaimedSince(s, id, t)
    ensures ClaimedSince(After(d, s, ls), id, t)
    decreases |ls|
  {
    if ls != [] {
      StepKeepsClaim(d, s, ls[0], id, t);
      RunKeepsClaim(d, Apply(d, s, ls[0]), ls[1..], id, t);
    }
  }

  /** Two claims of one row with no release of it in between are more than the lease apart. */
  lemma LeaseSpacing(d: Deployment, s: State, first: Label, between: seq<Label>, second: Label, id: Id)
    requires Reachable(d, s) && Enabled(d, s, first)
    requires first.Claim? && second.Claim? && id in first.ids && id in second.ids
    requires Runs(d, Apply(d, s, first), between)
    requires Unreleased(d, Apply(d, s, first), between, id)
    requires Enabled(d, After(d, Apply(d, s, first), between), second)
    ensures After(d, Apply(d, s, first), between).now > s.now + LEASE_TIMEOUT
  {
    ReachableInv(d, s);
    var i :| 0 <= i < |first.ids| && first.ids[i] == id;
    assert Pickable(s.rows, s.now, first.locked, first.ids[i]);
    var s1 := Apply(d, s, first);
    assert ClaimedSince(s1, id, s.now);
    RunKeepsClaim(d, s1, between, id, s.now);
    var s2 := After(d, s1, between);
    var j :| 0 <= j < |second.ids| && second.ids[j] == id;
    assert Pickable(s2.rows, s2.now, second.locked, second.ids[j]);
  }

  /** The row no longer carries `token`, a token drawn earlier. */
  predicate LeaseLost(s: State, id: Id, token: Token) {
    && id in s.committed && token in s.used
    && (id in s.rows ==> s.rows[id].token != Some(token))
  }

  lemma {:induction false} LeaseStaysLost(d: Deployment, s: State, ls: seq<Label>, id: Id, token: Token)
    requires Runs(d, s, ls) && LeaseLost(s, id, token)
    ensures LeaseLost(After(d, s, ls), id, token)
    decreases |ls|
  {
    if ls != [] {
      assert LeaseLost(Apply(d, s, ls[0]), id, token);
      LeaseStaysLost(d, Apply(d, s, ls[0]), ls[1..], id, token);
    }
  }

  /**
   A worker whose row was claimed again, by anyone, cannot touch that row with its late mark: no mark
   under the first claim's token changes the row, however far apart the steps are.
   */
  lemma StaleMarkIsHarmless(d: Deployment, s: State, first: Label, between: seq<Label>, second: Label,
                            after: seq<Label>, mark: Label, id: Id)
    requires Reachable(d, s) && Enabled(d, s, first) && first.Claim? && second.Claim? && mark.Mark?
    requires id in first.ids && id in second.ids
    requires Runs(d, Apply(d, s, first), between)
    requires Enabled(d, After(d, Apply(d, s, first), between), second)
    requires Runs(d, Apply(d, After(d, Apply(d, s, first), between), second), after)
    requires var late := After(d, Apply(d, After(d, Apply(d, s, first), between), second), after);
             Enabled(d, late, mark) && late.sessions[mark.w].token == first.token
    ensures var late := After(d, Apply(d, After(d, Apply(d, s, first), between), second), after);
            id in late.rows ==> Apply(d, late, mark).rows[id] == late.rows[id]
  {
    var s2 := After(d, Apply(d, s, first), between);
    RunUses(d, Apply(d, s, first), between, first.token);
    var j :| 0 <= j < |second.ids| && second.ids[j] == id;
    assert Pickable(s2.rows, s2.now, second.locked, second.ids[j]);
    ReachableInv(d, s);
    StepKeepsInv(d, s, first);
    RunKeepsInv(d, Apply(d, s, first), between);
    var s3 := Apply(d, s2, second);
    assert LeaseLost(s3, id, first.token);
    LeaseStaysLost(d, s3, after, id, first.token);
  }

  lemma {:induction false} RunUses(d: Deployment, s: State, ls: seq<Label>, token: Token)
    requires Runs(d, s, ls) && token in s.used
    ensures token in After(d, s, ls).used
    decreases |ls|
  {
    if ls != [] {
      StepGrows(d, s, ls[0]);
      RunUses(d, Apply(d, s, ls[0]), ls[1..], token);
    }
  }

  /** At most one worker holds the token a row carries. */
  lemma OneLeaseHolder(d: Deployment, s: State, id: Id, v: WorkerId, w: WorkerId)
    requires Reachable(d, s) && id in s.rows && v in s.sessions && w in s.sessions
    requires s.rows[id].token == Some(s.sessions[v].token) && s.rows[id].token == Some(s.sessions[w].token)
    ensures v == w
  {
    ReachableInv(d, s);
  }

  // ---------------------------------------------------------------- a release looks at no token

  /** The release takes away the lease on `id` that another worker holds. */
  ghost predicate TakesLease(d: Deployment, s: State, l: Label, v: WorkerId, id: Id) {
    && l.Release? && Enabled(d, s, l) && v in s.sessions && v != l.w
    && id in s.rows && s.rows[id].token == Some(s.sessions[v].token)
    && Apply(d, s, l).rows[id].token.None?
  }

  /** A worker whose entries can end up among the failed ones: it claims rows, and publishes or dead-letters them. */
  predicate CanFail(d: Deployment, w: WorkerId) {
    d(w).batchSize > 0 && (d(w).maxRetries > 0 || d(w).dlq)
  }

  ghost predicate FailuresExplained(d: Deployment, s: State) {
    forall w :: w in s.sessions && s.sessions[w].failed != [] ==> CanFail(d, w)
  }

  lemma {:induction false} RunExplainsFailures(d: Deployment, s: State, ls: seq<Label>)
    requires Inv(d, s) && FailuresExplained(d, s) && Runs(d, s, ls)
    ensures FailuresExplained(d, After(d, s, ls))
    decreases |ls|
  {
    if ls != [] {
      StepKeepsInv(d, s, ls[0]);
      StepExplainsFailures(d, s, ls[0]);
      RunExplainsFailures(d, Apply(d, s, ls[0]), ls[1..]);
    }
  }

  lemma StepExplainsFailures(d: Deployment, s: State, l: Label)
    requires SessionsFaithful(d, s) && FailuresExplained(d, s) && Enabled(d, s, l)
    ensures FailuresExplained(d, Apply(d, s, l))
  {
    if l.Publish? || l.Exhaust? {
      assert SessionFaithful(d, s, l.w);
    }
  }

  lemma ReachStep(d: Deployment, s: State, l: Label)
    requires Reachable(d, s) && Enabled(d, s, l)
    ensures Reachable(d, Apply(d, s, l))
  {
    var t0, ls :| Runs(d, Init(t0), ls) && After(d, Init(t0), ls) == s;
    StepThen(d, s, l, []);
    assert [l] + [] == [l];
    RunsConcat(d, Init(t0), ls, [l]);
  }

  /** A worker that holds the claim of the only row as a failed entry, its marks done. */
  ghost predicate HoldsFailed(s: State, w: WorkerId) {
    && s.rows.Keys == {LOST} && s.rows[LOST].publishedAt.None? && s.rows[LOST].claimedAt == Some(s.now)
    && s.sessions.Keys == {w} && AtEnd(s, w, true) && s.sessions[w].failed == [ReleaseEntry(LOST, "down")]
    && s.used == {0}
  }

  lemma FailureReachable(d: Deployment, w: WorkerId) returns (s: State)
    requires CanFail(d, w)
    ensures Reachable(d, s) && HoldsFailed(s, w)
  {
    assert Runs(d, Init(0), []) && After(d, Init(0), []) == Init(0);
    var i := Insert(map[LOST := SOME_BODY]);
    ReachStep(d, Init(0), i);
    var s0 := Apply(d, Init(0), i);
    assert Waiting(s0, 0);
    OnlyRowSelected(d, w, s0, 0);
    ReachStep(d, s0, Claim(w, 0, {}, [LOST]));
    var s1 := Apply(d, s0, Claim(w, 0, {}, [LOST]));
    s := FailureMarked(d, w, s1);
  }

  /** The only worker holds the claim of the only row and has not handled it yet. */
  ghost predicate HoldsClaim(s: State, w: WorkerId) {
    && s.rows.Keys == {LOST} && s.rows[LOST].publishedAt.None? && s.rows[LOST].claimedAt == Some(s.now)
    && s.sessions.Keys == {w} && s.used == {0}
    && var se := s.sessions[w];
       && |se.entries| == 1 && se.entries[0].id == LOST && se.entries[0].retryCount == 0
       && se.next == 0 && se.published == [] && se.failed == [] && !se.marked
  }

  lemma FailureHappens(d: Deployment, w: WorkerId, s1: State) returns (s: State)
    requires CanFail(d, w) && Reachable(d, s1) && HoldsClaim(s1, w)
    ensures Reachable(d, s) && s.rows == s1.rows && s.now == s1.now && s.used == s1.used && s.sessions.Keys == {w}
    ensures AtEnd(s, w, false) && s.sessions[w].published == [] && s.sessions[w].failed == [ReleaseEntry(LOST, "down")]
  {
    var f := if d(w).maxRetries > 0 then Publish(w, Some("down")) else Exhaust(w, Some("down"), false);
    ReachStep(d, s1, f);
    s := Apply(d, s1, f);
  }

  lemma FailureMarked(d: Deployment, w: WorkerId, s1: State) returns (s: State)
    requires CanFail(d, w) && Reachable(d, s1) && HoldsClaim(s1, w)
    ensures Reachable(d, s) && HoldsFailed(s, w)
  {
    var s2 := FailureHappens(d, w, s1);
    ReachStep(d, s2, Mark(w, true));
    s := Apply(d, s2, Mark(w, true));
    assert s.rows == s2.rows;
  }

  /** The lease runs out, another worker claims the row, and then the late release clears that worker's lease. */
  lemma LateReleaseTakesLease(d: Deployment, w: WorkerId, v: WorkerId) returns (s: State)
    requires CanFail(d, w) && d(v).batchSize > 0 && v != w
    ensures Reachable(d, s) && TakesLease(d, s, Release(w, true), v, LOST)
  {
    var s0 := FailureReachable(d, w);
    ReachStep(d, s0, Tick(LEASE_TIMEOUT + 1));
    var s1 := Apply(d, s0, Tick(LEASE_TIMEOUT + 1));
    assert Pickable(s1.rows, s1.now, {}, LOST);
    assert forall id :: Pickable(s1.rows, s1.now, {}, id) ==> id in [LOST];
    var c := Claim(v, 1, {}, [LOST]);
    ReachStep(d, s1, c);
    s := Apply(d, s1, c);
    assert s.sessions[w] == s1.sessions[w] && s.rows[LOST].token == Some(1);
    ErrorForMember(s.sessions[w].failed, LOST);
    assert ReleaseIds(s.sessions[w].failed)[0] == LOST;
  }

  /**
   In some run a release takes away another worker's lease, exactly when two workers claim rows and one of
   them can fail to deliver.
   */
  lemma LeaseCanBeTakenIff(d: Deployment)
    ensures (exists s, l, v, id :: Reachable(d, s) && TakesLease(d, s, l, v, id)) <==>
            (exists w, v :: w != v && CanFail(d, w) && d(v).batchSize > 0)
  {
    if s, l, v, id :| Reachable(d, s) && TakesLease(d, s, l, v, id) {
      ReachableInv(d, s);
      var t0, ls :| Runs(d, Init(t0), ls) && After(d, Init(t0), ls) == s;
      RunExplainsFailures(d, Init(t0), ls);
      assert SessionFaithful(d, s, v);
      assert s.sessions[l.w].failed != [];
      assert l.w != v && CanFail(d, l.w) && d(v).batchSize > 0;
    }
    if w, v :| w != v && CanFail(d, w) && d(v).batchSize > 0 {
      var s := LateReleaseTakesLease(d, w, v);
    }
  }
}
