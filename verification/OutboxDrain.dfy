/**
 One worker alone, with a store and a dead letter queue that answer, drains the outbox against any
 broker, even one that refuses everything (infra/events/outbox/worker.go:224-298).
 */
module OutboxDrain {
  import opened Prelude
  import opened OutboxTable
  import opened OutboxProtocol
  import opened OutboxWorker
  import opened Sums

  /** What a waiting row can still cost in polls. */
  function Weight(row: Row, maxRetries: int): nat {
    if row.publishedAt.Some? then 0
    else if row.retryCount < maxRetries then maxRetries + 1 - row.retryCount
    else 1
  }

  ghost function Weights(t: Table, maxRetries: int): map<Id, nat> {
    map id | id in t :: Weight(t[id], maxRetries)
  }

  ghost function Measure(t: Table, maxRetries: int): nat {
    Sum(Weights(t, maxRetries))
  }

  /** One poll: its time, its token, what it claimed and how the outside answered. */
  datatype Round = Round(now: Time, token: Token, entries: seq<Entry>, answers: Answers)

  function Next(t: Table, st: Settings, r: Round): Table {
    PollRows(t, r.now, r.token, r.entries, st, r.answers)
  }

  /** When the poll is over. */
  function EndOf(r: Round): Time {
    r.now + r.answers.elapsed
  }

  /** A poll of `t` by a worker that no other transaction hinders and whose store and queue answer. */
  ghost predicate Undisturbed(t: Table, st: Settings, r: Round) {
    && IsSelection(t, r.now, {}, st.batchSize, EntryIds(r.entries))
    && IsSnapshot(t, r.entries, r.token)
    && r.answers.claimOk && r.answers.markOk && r.answers.releaseOk
    && forall id :: r.answers.dlq(id).None?
  }

  ghost predicate Polls(t: Table, st: Settings, since: Time, rounds: seq<Round>)
    decreases |rounds|
  {
    rounds == [] || (
      && since <= rounds[0].now && Undisturbed(t, st, rounds[0])
      && Polls(Next(t, st, rounds[0]), st, EndOf(rounds[0]), rounds[1..]))
  }

  ghost function AfterPolls(t: Table, st: Settings, rounds: seq<Round>): Table
    decreases |rounds|
  {
    if rounds == [] then t else AfterPolls(Next(t, st, rounds[0]), st, rounds[1..])
  }

  /** A row through claim, mark and release, when it is in exactly one of the two lists. */
  lemma SettledRow(t: Table, ids: seq<Id>, token: Token, now: Time, end: Time,
                   published: seq<Id>, failed: seq<ReleaseEntry>, id: Id, o: Option<string>)
    requires id in t && id in ids && (id in published <==> o.None?) && ErrorFor(failed, id) == o
    ensures var t' := Released(MarkedPublished(Claimed(t, ids, token, now), published, token, end), failed);
            id in t' && t'[id] ==
              if o.None? then t[id].(claimedAt := Some(now), token := Some(token), publishedAt := Some(end))
              else ReleasedRow(t[id], o.value)
  {
    var claimed := Claimed(t, ids, token, now)[id];
    assert claimed == t[id].(claimedAt := Some(now), token := Some(token));
  }

  lemma ClaimedEntry(t: Table, st: Settings, r: Round, i: nat)
    requires Undisturbed(t, st, r) && i < |r.entries|
    ensures var e := r.entries[i];
            && e.id in t && t[e.id].publishedAt.None? && e.retryCount == t[e.id].retryCount
            && e.id in EntryIds(r.entries) && Distinct(EntryIds(r.entries))
  {
    assert EntryIds(r.entries)[i] == r.entries[i].id;
    assert Pickable(t, r.now, {}, EntryIds(r.entries)[i]);
  }

  lemma RowAfter(t: Table, st: Settings, r: Round, i: nat)
    requires i < |r.entries| && r.entries[i].id in t && r.answers.markOk && r.answers.releaseOk
    requires r.entries[i].id in EntryIds(r.entries) && Distinct(EntryIds(r.entries))
    ensures var e := r.entries[i];
            var o := Outcome(st, r.answers, e);
            e.id in Next(t, st, r) && Next(t, st, r)[e.id] ==
              if o.None? then t[e.id].(claimedAt := Some(r.now), token := Some(r.token), publishedAt := Some(EndOf(r)))
              else ReleasedRow(t[e.id], o.value)
  {
    var f, e := DeliverAll(st, r.answers, Effects([], [], [], {}, map[], {}), r.entries), r.entries[i];
    DeliverAllAt(st, r.answers, Effects([], [], [], {}, map[], {}), r.entries, i);
    SettledRow(t, EntryIds(r.entries), r.token, r.now, EndOf(r), f.published, f.failed, e.id, Outcome(st, r.answers, e));
  }

  /** The row of a claimed entry after the poll. */
  lemma PolledRow(t: Table, st: Settings, r: Round, i: nat)
    requires Undisturbed(t, st, r) && i < |r.entries|
    ensures var e := r.entries[i];
            var o := Outcome(st, r.answers, e);
            && e.id in t && e.id in Next(t, st, r) && t[e.id].publishedAt.None?
            && e.retryCount == t[e.id].retryCount
            && Next(t, st, r)[e.id] ==
               if o.None? then t[e.id].(claimedAt := Some(r.now), token := Some(r.token), publishedAt := Some(EndOf(r)))
               else ReleasedRow(t[e.id], o.value)
  {
    ClaimedEntry(t, st, r, i);
    RowAfter(t, st, r, i);
  }

  lemma UnpolledRow(t: Table, st: Settings, r: Round, id: Id)
    requires Undisturbed(t, st, r) && id in t && id !in EntryIds(r.entries)
    ensures id in Next(t, st, r) && Next(t, st, r)[id] == t[id]
  {
    var f := Effects([], [], [], {}, map[], {});
    DeliverAllElsewhere(st, r.answers, f, r.entries, id);
    ErrorForMember(DeliverAll(st, r.answers, f, r.entries).failed, id);
  }

  lemma SameRows(t: Table, st: Settings, r: Round)
    requires Undisturbed(t, st, r)
    ensures Next(t, st, r).Keys == t.Keys
  {
  }

  lemma {:induction false} DistinctCount<T>(xs: seq<T>)
    requires Distinct(xs)
    ensures |set x | x in xs| == |xs|
  {
    if xs != [] {
      var front, last := xs[..|xs| - 1], xs[|xs| - 1];
      DistinctCount(front);
      assert xs == front + [last];
      assert (set x | x in xs) == (set x | x in front) + {last};
    }
  }

  /** The weight of every claimed row falls, and no weight rises. */
  lemma WeightFalls(t: Table, st: Settings, r: Round, id: Id)
    requires Undisturbed(t, st, r) && id in t
    ensures id in Next(t, st, r)
    ensures Weight(Next(t, st, r)[id], st.maxRetries) + (if id in EntryIds(r.entries) then 1 else 0)
            <= Weight(t[id], st.maxRetries)
  {
    if id in EntryIds(r.entries) {
      var i :| 0 <= i < |r.entries| && EntryIds(r.entries)[i] == id;
      PolledRow(t, st, r, i);
    } else {
      UnpolledRow(t, st, r, id);
    }
  }

  /** Each poll lowers the measure by at least the number of rows it claimed. */
  lemma PollLowersMeasure(t: Table, st: Settings, r: Round)
    requires Undisturbed(t, st, r)
    ensures Measure(Next(t, st, r), st.maxRetries) + |r.entries| <= Measure(t, st.maxRetries)
  {
    SameRows(t, st, r);
    var ids := EntryIds(r.entries);
    var drops := set id | id in ids;
    DistinctCount(ids);
    forall id | id in drops ensures id in t {
      var i :| 0 <= i < |ids| && ids[i] == id;
      assert Pickable(t, r.now, {}, ids[i]);
    }
    var m, m' := Weights(t, st.maxRetries), Weights(Next(t, st, r), st.maxRetries);
    forall id | id in m ensures m'[id] + (if id in drops then 1 else 0) <= m[id] {
      WeightFalls(t, st, r, id);
    }
    SumDrops(m, m', drops);
  }

  /** Whatever claims were standing, their leases have run out. */
  predicate AllFree(t: Table, now: Time) {
    forall id :: id in t && t[id].publishedAt.None? ==>
      t[id].claimedAt == None || now - t[id].claimedAt.value > 300_000_000_000
  }

  predicate Empty(t: Table) {
    forall id :: id in t ==> t[id].publishedAt.Some?
  }

  lemma PollKeepsFree(t: Table, st: Settings, r: Round, since: Time)
    requires Undisturbed(t, st, r) && AllFree(t, since) && since <= r.now
    ensures AllFree(Next(t, st, r), EndOf(r))
  {
    SameRows(t, st, r);
    forall id | id in t && Next(t, st, r)[id].publishedAt.None?
      ensures var c := Next(t, st, r)[id].claimedAt; c == None || EndOf(r) - c.value > 300_000_000_000
    {
      if id in EntryIds(r.entries) {
        var i :| 0 <= i < |r.entries| && EntryIds(r.entries)[i] == id;
        PolledRow(t, st, r, i);
      } else {
        UnpolledRow(t, st, r, id);
      }
    }
  }

  lemma PollFindsWork(t: Table, st: Settings, r: Round, since: Time)
    requires Undisturbed(t, st, r) && AllFree(t, since) && since <= r.now
    requires st.batchSize > 0 && !Empty(t)
    ensures r.entries != []
  {
    var id :| id in t && t[id].publishedAt.None?;
    assert Pickable(t, r.now, {}, id);
    assert |EntryIds(r.entries)| == |r.entries|;
  }

  /** The outbox is empty after at most as many polls as the measure says. */
  lemma {:induction false} Drains(t: Table, st: Settings, since: Time, rounds: seq<Round>)
    requires Polls(t, st, since, rounds) && AllFree(t, since) && st.batchSize > 0
    requires |rounds| >= Measure(t, st.maxRetries)
    ensures Empty(AfterPolls(t, st, rounds))
    decreases |rounds|
  {
    if Measure(t, st.maxRetries) == 0 {
      forall id | id in t ensures t[id].publishedAt.Some? {
        SumZero(Weights(t, st.maxRetries), id);
      }
      StaysEmpty(t, st, since, rounds);
    } else {
      var r := rounds[0];
      PollLowersMeasure(t, st, r);
      PollKeepsFree(t, st, r, since);
      if Empty(t) {
        StaysEmpty(t, st, since, rounds);
      } else {
        PollFindsWork(t, st, r, since);
        Drains(Next(t, st, r), st, EndOf(r), rounds[1..]);
      }
    }
  }

  lemma {:induction false} StaysEmpty(t: Table, st: Settings, since: Time, rounds: seq<Round>)
    requires Polls(t, st, since, rounds) && Empty(t)
    ensures Empty(AfterPolls(t, st, rounds))
    decreases |rounds|
  {
    if rounds != [] {
      var r := rounds[0];
      SameRows(t, st, r);
      var ids := EntryIds(r.entries);
      assert forall i :: 0 <= i < |ids| ==> Pickable(t, r.now, {}, ids[i]);
      forall id | id in t ensures Next(t, st, r)[id].publishedAt.Some? {
        UnpolledRow(t, st, r, id);
      }
      StaysEmpty(Next(t, st, r), st, EndOf(r), rounds[1..]);
    }
  }

  /** How often a poll hands `id` to the broker. */
  ghost function Sends(st: Settings, entries: seq<Entry>, id: Id): nat {
    if entries == [] then 0
    else Sends(st, entries[..|entries| - 1], id)
         + if entries[|entries| - 1].id == id && !Exhausted(st, entries[|entries| - 1]) then 1 else 0
  }

  ghost function TotalSends(st: Settings, rounds: seq<Round>, id: Id): nat {
    if rounds == [] then 0 else Sends(st, rounds[0].entries, id) + TotalSends(st, rounds[1..], id)
  }

  /** `Sends` counts the broker log of the poll. */
  lemma {:induction false} SendsCountsAttempts(st: Settings, a: Answers, f: Effects, entries: seq<Entry>, id: Id)
    requires f.attempts == []
    ensures Sends(st, entries, id) == |Filtered(DeliverAll(st, a, f, entries).attempts, id)|
  {
    if entries != [] {
      var n := |entries| - 1;
      SendsCountsAttempts(st, a, f, entries[..n], id);
      var h := DeliverAll(st, a, f, entries[..n]);
      assert (h.attempts + [Event(entries[n].id, entries[n].body)])[..|h.attempts|] == h.attempts;
    }
  }

  ghost function Filtered(events: seq<Event>, id: Id): seq<Event> {
    if events == [] then []
    else
      var n := |events| - 1;
      Filtered(events[..n], id) + if events[n].id == id then [events[n]] else []
  }

  lemma {:induction false} SendsElsewhere(st: Settings, entries: seq<Entry>, id: Id)
    requires id !in EntryIds(entries)
    ensures Sends(st, entries, id) == 0
  {
    if entries != [] {
      var n := |entries| - 1;
      assert EntryIds(entries)[n] == entries[n].id;
      assert forall i :: 0 <= i < n ==> EntryIds(entries[..n])[i] == EntryIds(entries)[i];
      SendsElsewhere(st, entries[..n], id);
    }
  }

  lemma {:induction false} SendsAt(st: Settings, entries: seq<Entry>, i: nat)
    requires i < |entries| && Distinct(EntryIds(entries))
    ensures Sends(st, entries, entries[i].id) == if Exhausted(st, entries[i]) then 0 else 1
  {
    var n := |entries| - 1;
    FrontDistinct(entries);
    if i == n {
      SendsElsewhere(st, entries[..n], entries[n].id);
    } else {
      SendsAt(st, entries[..n], i);
      assert EntryIds(entries)[i] != EntryIds(entries)[n];
    }
  }

  /** The publish calls a row can still see. */
  function Budget(row: Row, maxRetries: int): nat {
    if row.publishedAt.None? && row.retryCount < maxRetries then maxRetries - row.retryCount else 0
  }

  /** What one poll does to a row's budget of publish calls. */
  lemma RoundSpends(t: Table, st: Settings, r: Round, id: Id)
    requires Undisturbed(t, st, r) && id in t
    ensures id in Next(t, st, r)
    ensures Budget(Next(t, st, r)[id], st.maxRetries) + Sends(st, r.entries, id) <= Budget(t[id], st.maxRetries)
    ensures r.answers.publish(id).Some? && t[id].publishedAt.None? ==>
              if Next(t, st, r)[id].publishedAt.Some? then Budget(t[id], st.maxRetries) == 0
              else Budget(Next(t, st, r)[id], st.maxRetries) + Sends(st, r.entries, id) == Budget(t[id], st.maxRetries)
  {
    if id in EntryIds(r.entries) {
      var i :| 0 <= i < |r.entries| && EntryIds(r.entries)[i] == id;
      PolledRow(t, st, r, i);
      SendsAt(st, r.entries, i);
    } else {
      UnpolledRow(t, st, r, id);
      SendsElsewhere(st, r.entries, id);
    }
  }

  /** Over any number of polls, a row is handed to the broker at most as often as its retries allow. */
  lemma {:induction false} AttemptsBounded(t: Table, st: Settings, since: Time, rounds: seq<Round>, id: Id)
    requires Polls(t, st, since, rounds) && id in t
    ensures TotalSends(st, rounds, id) <= Budget(t[id], st.maxRetries)
    decreases |rounds|
  {
    if rounds != [] {
      RoundSpends(t, st, rounds[0], id);
      AttemptsBounded(Next(t, st, rounds[0]), st, EndOf(rounds[0]), rounds[1..], id);
    }
  }

  /** A row that the broker refuses every time is offered to it exactly as often as its retries allow before it is settled. */
  lemma {:induction false} AttemptsExact(t: Table, st: Settings, since: Time, rounds: seq<Round>, id: Id)
    requires Polls(t, st, since, rounds) && id in t && t[id].publishedAt.None?
    requires id in AfterPolls(t, st, rounds) && AfterPolls(t, st, rounds)[id].publishedAt.Some?
    requires forall i :: 0 <= i < |rounds| ==> rounds[i].answers.publish(id).Some?
    ensures TotalSends(st, rounds, id) ==
            if t[id].retryCount < st.maxRetries then st.maxRetries - t[id].retryCount else 0
    decreases |rounds|
  {
    var t' := Next(t, st, rounds[0]);
    RoundSpends(t, st, rounds[0], id);
    if t'[id].publishedAt.Some? {
      AttemptsBounded(t, st, since, rounds, id);
    } else {
      AttemptsExact(t', st, EndOf(rounds[0]), rounds[1..], id);
    }
  }
}
