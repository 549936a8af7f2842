/**
 One poll of the relay worker (infra/events/outbox/worker.go:224-397), written as the worker runs it,
 and shown to be a run of the step machine in `OutboxProtocol`.
 */
module OutboxWorker {
  import opened Prelude
  import opened OutboxTable
  import opened OutboxProtocol

  /**
   How the outside answers during one poll: whether the claim went through, the error of a publish or a
   dead-letter insert (`None` is success), whether a failing insert was stored all the same, how much time
   passed from the claim to the mark, and whether the two updates went through.
   */
  datatype Answers = Answers(claimOk: bool, publish: Id -> Option<string>, dlq: Id -> Option<string>,
                             stored: Id -> bool, elapsed: nat, markOk: bool, releaseOk: bool)

  /** What the entries handled so far have led to. */
  datatype Effects = Effects(published: seq<Id>, failed: seq<ReleaseEntry>, attempts: seq<Event>,
                             acked: set<Event>, dlq: map<Id, Entry>, discarded: set<Id>)

  predicate Exhausted(st: Settings, e: Entry) {
    e.retryCount >= st.maxRetries
  }

  function Outcome(st: Settings, a: Answers, e: Entry): Option<string> {
    if !Exhausted(st, e) then a.publish(e.id) else if st.dlq then a.dlq(e.id) else None
  }

  predicate Stores(st: Settings, a: Answers, e: Entry) {
    Exhausted(st, e) && st.dlq && (a.dlq(e.id).None? || a.stored(e.id))
  }

  function Deliver(st: Settings, a: Answers, f: Effects, e: Entry): Effects {
    var o := Outcome(st, a, e);
    Effects(
      if o.None? then f.published + [e.id] else f.published,
      if o.None? then f.failed else f.failed + [ReleaseEntry(e.id, o.value)],
      if Exhausted(st, e) then f.attempts else f.attempts + [Event(e.id, e.body)],
      if !Exhausted(st, e) && o.None? then f.acked + {Event(e.id, e.body)} else f.acked,
      if Stores(st, a, e) && e.id !in f.dlq then f.dlq[e.id := e] else f.dlq,
      if Exhausted(st, e) && !st.dlq then f.discarded + {e.id} else f.discarded)
  }

  function DeliverAll(st: Settings, a: Answers, f: Effects, entries: seq<Entry>): Effects {
    if entries == [] then f
    else Deliver(st, a, DeliverAll(st, a, f, entries[..|entries| - 1]), entries[|entries| - 1])
  }

  /** The table after a poll that claimed `entries` at `now` under `token`. */
  function PollRows(t: Table, now: Time, token: Token, entries: seq<Entry>, st: Settings, a: Answers): Table {
    var f := DeliverAll(st, a, Effects([], [], [], {}, map[], {}), entries);
    var claimed := Claimed(t, EntryIds(entries), token, now);
    var marked := if a.markOk then MarkedPublished(claimed, f.published, token, now + a.elapsed) else claimed;
    if a.releaseOk then Released(marked, f.failed) else marked
  }

  /** The lists of a poll do not depend on what was sent or dead-lettered before it. */
  lemma {:induction false} DeliverAllLists(st: Settings, a: Answers, f: Effects, g: Effects, entries: seq<Entry>)
    requires f.published == g.published && f.failed == g.failed
    ensures DeliverAll(st, a, f, entries).published == DeliverAll(st, a, g, entries).published
    ensures DeliverAll(st, a, f, entries).failed == DeliverAll(st, a, g, entries).failed
  {
    if entries != [] {
      DeliverAllLists(st, a, f, g, entries[..|entries| - 1]);
    }
  }

  lemma {:induction false} DeliverAllElsewhere(st: Settings, a: Answers, f: Effects, entries: seq<Entry>, id: Id)
    requires f.published == [] && f.failed == []
    requires id !in EntryIds(entries)
    ensures id !in DeliverAll(st, a, f, entries).published
    ensures id !in ReleaseIds(DeliverAll(st, a, f, entries).failed)
  {
    if entries != [] {
      var n := |entries| - 1;
      assert EntryIds(entries)[n] == entries[n].id;
      assert forall i :: 0 <= i < n ==> EntryIds(entries[..n])[i] == EntryIds(entries)[i];
      DeliverAllElsewhere(st, a, f, entries[..n], id);
      var h, g := DeliverAll(st, a, f, entries[..n]), DeliverAll(st, a, f, entries);
      assert g.failed == h.failed || ReleaseIds(g.failed) == ReleaseIds(h.failed) + [entries[n].id];
    }
  }

  lemma FrontDistinct(entries: seq<Entry>)
    requires entries != [] && Distinct(EntryIds(entries))
    ensures var n := |entries| - 1;
            Distinct(EntryIds(entries[..n])) && entries[n].id !in EntryIds(entries[..n])
  {
    var n := |entries| - 1;
    assert forall i :: 0 <= i < n ==> EntryIds(entries[..n])[i] == EntryIds(entries)[i];
    assert EntryIds(entries)[n] == entries[n].id;
  }

  /** Each entry lands in exactly one of the two lists, as its outcome says, with its own error. */
  lemma {:induction false} DeliverAllAt(st: Settings, a: Answers, f: Effects, entries: seq<Entry>, i: nat)
    requires f.published == [] && f.failed == []
    requires i < |entries| && Distinct(EntryIds(entries))
    ensures var g := DeliverAll(st, a, f, entries);
            && (entries[i].id in g.published <==> Outcome(st, a, entries[i]).None?)
            && ErrorFor(g.failed, entries[i].id) == Outcome(st, a, entries[i])
  {
    var n := |entries| - 1;
    var e, h := entries[n], DeliverAll(st, a, f, entries[..n]);
    FrontDistinct(entries);
    DeliverAllElsewhere(st, a, f, entries[..n], e.id);
    ErrorForMember(h.failed, e.id);
    if Outcome(st, a, e).Some? {
      ErrorForSnoc(h.failed, ReleaseEntry(e.id, Outcome(st, a, e).value), entries[i].id);
    }
    if i < n {
      DeliverAllAt(st, a, f, entries[..n], i);
      assert EntryIds(entries)[i] != EntryIds(entries)[n];
    }
  }

  lemma {:induction false} FailedDistinct(st: Settings, a: Answers, f: Effects, entries: seq<Entry>)
    requires f.published == [] && f.failed == [] && Distinct(EntryIds(entries))
    ensures Distinct(ReleaseIds(DeliverAll(st, a, f, entries).failed))
  {
    if entries != [] {
      var n := |entries| - 1;
      FrontDistinct(entries);
      FailedDistinct(st, a, f, entries[..n]);
      DeliverAllElsewhere(st, a, f, entries[..n], entries[n].id);
      var h, g := DeliverAll(st, a, f, entries[..n]), DeliverAll(st, a, f, entries);
      assert g.failed == h.failed || ReleaseIds(g.failed) == ReleaseIds(h.failed) + [entries[n].id];
    }
  }

  /** `f` on top of what broker, and the discarded entries, held before. */
  function OnTop(f: Effects, attempts: seq<Event>, acked: set<Event>, discarded: set<Id>): Effects {
    f.(attempts := attempts + f.attempts, acked := acked + f.acked, discarded := discarded + f.discarded)
  }

  /** What was sent before a poll only stands before what the poll sends. */
  lemma {:induction false} DeliverOnTop(st: Settings, a: Answers, f: Effects, entries: seq<Entry>,
                                        attempts: seq<Event>, acked: set<Event>, discarded: set<Id>)
    ensures DeliverAll(st, a, OnTop(f, attempts, acked, discarded), entries)
            == OnTop(DeliverAll(st, a, f, entries), attempts, acked, discarded)
  {
    if entries != [] {
      var front, e := entries[..|entries| - 1], entries[|entries| - 1];
      DeliverOnTop(st, a, f, front, attempts, acked, discarded);
      var g, m := DeliverAll(st, a, f, front), Event(e.id, e.body);
      assert attempts + (g.attempts + [m]) == (attempts + g.attempts) + [m];
      assert acked + (g.acked + {m}) == (acked + g.acked) + {m};
      assert discarded + (g.discarded + {e.id}) == (discarded + g.discarded) + {e.id};
    }
  }

  /** The dead letter queue; a letter is kept as the entry it is made from. */
  class DeadLetters {
    var letters: map<Id, Entry>

    /** `ON CONFLICT (id) DO NOTHING`: the first letter under an id stays. */
    method Insert(e: Entry)
      modifies this
      ensures letters == if e.id in old(letters) then old(letters) else old(letters)[e.id := e]
    {
      if e.id !in letters {
        letters := letters[e.id := e];
      }
    }
  }

  class Broker {
    var attempts: seq<Event>
    var acked: set<Event>

    method Publish(m: Event, err: Option<string>)
      modifies this
      ensures attempts == old(attempts) + [m]
      ensures acked == if err.None? then old(acked) + {m} else old(acked)
    {
      attempts := attempts + [m];
      if err.None? {
        acked := acked + {m};
      }
    }
  }

  class Worker {
    const store: Store
    const dlqStore: DeadLetters
    const bus: Broker
    const settings: Settings

    constructor (store: Store, dlqStore: DeadLetters, bus: Broker, settings: Settings)
      ensures this.store == store && this.dlqStore == dlqStore && this.bus == bus && this.settings == settings
    {
      this.store, this.dlqStore, this.bus, this.settings := store, dlqStore, bus, settings;
    }

    /** Broker and dead letter queue show the effects `f` of a poll that found the broker as given. */
    ghost predicate Shows(f: Effects, attempts0: seq<Event>, acked0: set<Event>)
      reads bus, dlqStore
    {
      bus.attempts == attempts0 + f.attempts && bus.acked == acked0 + f.acked && dlqStore.letters == f.dlq
    }

    /** Dead-letters an exhausted entry, or lets it pass when there is no dead letter queue. */
    method HandleExhaustedEntry(e: Entry, a: Answers) returns (err: Option<string>)
      requires Exhausted(settings, e)
      modifies dlqStore
      ensures err == Outcome(settings, a, e) == if settings.dlq then a.dlq(e.id) else None
      ensures Stores(settings, a, e) <==> settings.dlq && (a.dlq(e.id).None? || a.stored(e.id))
      ensures dlqStore.letters == if Stores(settings, a, e) && e.id !in old(dlqStore.letters)
                                  then old(dlqStore.letters)[e.id := e] else old(dlqStore.letters)
    {
      err := None;
      if settings.dlq {
        err := a.dlq(e.id);
        if err.None? || a.stored(e.id) {
          dlqStore.Insert(e);
        }
      }
    }

    method DeliverBatch(entries: seq<Entry>, a: Answers) returns (publishedIds: seq<Id>, failed: seq<ReleaseEntry>)
      modifies dlqStore, bus
      ensures var f := DeliverAll(settings, a, Effects([], [], [], {}, old(dlqStore.letters), {}), entries);
              publishedIds == f.published && failed == f.failed && Shows(f, old(bus.attempts), old(bus.acked))
    {
      publishedIds, failed := [], [];
      ghost var f0 := Effects([], [], [], {}, dlqStore.letters, {});
      var k := 0;
      while k < |entries|
        invariant 0 <= k <= |entries|
        invariant publishedIds == DeliverAll(settings, a, f0, entries[..k]).published
        invariant failed == DeliverAll(settings, a, f0, entries[..k]).failed
        invariant Shows(DeliverAll(settings, a, f0, entries[..k]), old(bus.attempts), old(bus.acked))
      {
        var e := entries[k];
        assert entries[..k + 1][..k] == entries[..k];
        var err;
        if e.retryCount >= settings.maxRetries {
          err := HandleExhaustedEntry(e, a);
        } else {
          err := a.publish(e.id);
          bus.Publish(Event(e.id, e.body), err);
        }
        if err.Some? {
          failed := failed + [ReleaseEntry(e.id, err.value)];
        } else {
          publishedIds := publishedIds + [e.id];
        }
        k := k + 1;
      }
      assert entries[..k] == entries;
    }

    /** One poll. A failed claim rolls back and ends it. */
    method Poll(token: Token, now: Time, locked: set<Id>, a: Answers) returns (entries: seq<Entry>)
      modifies store, dlqStore, bus
      ensures if a.claimOk then IsSelection(old(store.rows), now, locked, settings.batchSize, EntryIds(entries))
              else entries == []
      ensures IsSnapshot(old(store.rows), entries, token)
      ensures store.rows == PollRows(old(store.rows), now, token, entries, settings, a)
      ensures Shows(DeliverAll(settings, a, Effects([], [], [], {}, old(dlqStore.letters), {}), entries),
                    old(bus.attempts), old(bus.acked))
    {
      if !a.claimOk {
        EmptyPoll(store.rows, now, token, settings, a);
        return [];
      }
      entries := store.ClaimBatch(settings.batchSize, token, now, locked);
      ghost var f0 := Effects([], [], [], {}, dlqStore.letters, {});
      ghost var g0 := Effects([], [], [], {}, map[], {});
      var publishedIds, failed := DeliverBatch(entries, a);
      DeliverAllLists(settings, a, f0, g0, entries);
      FailedDistinct(settings, a, g0, entries);
      Settle(publishedIds, failed, token, now + a.elapsed, a);
    }

    /** The two updates at the end of a poll; an empty list needs none. */
    method Settle(publishedIds: seq<Id>, failed: seq<ReleaseEntry>, token: Token, now: Time, a: Answers)
      requires Distinct(ReleaseIds(failed))
      modifies store
      ensures var marked := if a.markOk then MarkedPublished(old(store.rows), publishedIds, token, now) else old(store.rows);
              store.rows == if a.releaseOk then Released(marked, failed) else marked
    {
      if |publishedIds| > 0 && a.markOk {
        store.MarkPublished(publishedIds, token, now);
      }
      if |failed| > 0 && a.releaseOk {
        store.ReleaseClaims(failed);
      }
    }
  }

  lemma EmptyPoll(t: Table, now: Time, token: Token, st: Settings, a: Answers)
    ensures Claimed(t, EntryIds([]), token, now) == t
    ensures PollRows(t, now, token, [], st, a) == t
  {
    assert EntryIds([]) == [];
    assert Claimed(t, [], token, now) == t;
    assert MarkedPublished(t, [], token, now + a.elapsed) == t;
    assert Released(t, []) == t;
  }
}
