/** A whole poll, as `OutboxWorker.Worker.Poll` carries it out, is a run of the step machine. */
module OutboxRefinement {
  import opened OutboxTable
  import opened OutboxProtocol
  import opened OutboxWorker
  import opened OutboxGuarantees

  /** The step that handles one entry. */
  function DeliverLabel(w: WorkerId, st: Settings, a: Answers, e: Entry): Label {
    if Exhausted(st, e) then Exhaust(w, Outcome(st, a, e), Stores(st, a, e))
    else Publish(w, Outcome(st, a, e))
  }

  function DeliverLabels(w: WorkerId, st: Settings, a: Answers, entries: seq<Entry>): seq<Label> {
    seq(|entries|, i requires 0 <= i < |entries| => DeliverLabel(w, st, a, entries[i]))
  }

  function PollLabels(w: WorkerId, st: Settings, token: Token, locked: set<Id>, a: Answers, entries: seq<Entry>)
    : seq<Label>
  {
    if !a.claimOk then []
    else
      [Claim(w, token, locked, EntryIds(entries))]
      + if entries == [] then [] else DeliverLabels(w, st, a, entries) + FinishLabels(w, a)
  }

  function FinishLabels(w: WorkerId, a: Answers): seq<Label> {
    [Tick(a.elapsed)] + ([Mark(w, a.markOk)] + ([Release(w, a.releaseOk)] + []))
  }

  /** `s` after the worker has handled the first `k` entries of its session. */
  ghost function Handled(d: Deployment, s: State, w: WorkerId, a: Answers, k: nat): State
    requires w in s.sessions && k <= |s.sessions[w].entries|
  {
    var se := s.sessions[w];
    var f := DeliverAll(d(w), a, Effects([], [], s.attempts, s.acked, s.dlq, s.discarded), se.entries[..k]);
    s.(attempts := f.attempts, acked := f.acked, dlq := f.dlq, discarded := f.discarded,
       sessions := s.sessions[w := se.(next := k, published := f.published, failed := f.failed)])
  }

  lemma HandledStep(d: Deployment, s: State, w: WorkerId, a: Answers, k: nat)
    requires w in s.sessions && k < |s.sessions[w].entries|
    ensures var l := DeliverLabel(w, d(w), a, s.sessions[w].entries[k]);
            && Enabled(d, Handled(d, s, w, a, k), l)
            && Apply(d, Handled(d, s, w, a, k), l) == Handled(d, s, w, a, k + 1)
  {
    var entries := s.sessions[w].entries;
    assert entries[..k + 1][..k] == entries[..k];
    var h := Handled(d, s, w, a, k);
    assert Current(h, w) == entries[k];
    var f0 := Effects([], [], s.attempts, s.acked, s.dlq, s.discarded);
    assert DeliverAll(d(w), a, f0, entries[..k + 1]) == Deliver(d(w), a, DeliverAll(d(w), a, f0, entries[..k]), entries[k]);
  }

  lemma {:induction false} DeliverRun(d: Deployment, s: State, w: WorkerId, a: Answers, k: nat)
    requires w in s.sessions && k <= |s.sessions[w].entries|
    ensures var ls := DeliverLabels(w, d(w), a, s.sessions[w].entries)[k..];
            && Runs(d, Handled(d, s, w, a, k), ls)
            && After(d, Handled(d, s, w, a, k), ls) == Handled(d, s, w, a, |s.sessions[w].entries|)
    decreases |s.sessions[w].entries| - k
  {
    if k < |s.sessions[w].entries| {
      HandledStep(d, s, w, a, k);
      DeliverRun(d, s, w, a, k + 1);
      var all := DeliverLabels(w, d(w), a, s.sessions[w].entries);
      assert all[k..] == [all[k]] + all[k + 1..];
      StepThen(d, Handled(d, s, w, a, k), all[k], all[k + 1..]);
    }
  }

  ghost function Finished(d: Deployment, s: State, w: WorkerId, a: Answers): State
    requires w in s.sessions
  {
    var se := s.sessions[w];
    var f := DeliverAll(d(w), a, Effects([], [], s.attempts, s.acked, s.dlq, s.discarded), se.entries);
    var marked := if a.markOk then MarkedPublished(s.rows, f.published, se.token, s.now + a.elapsed) else s.rows;
    s.(rows := if a.releaseOk then Released(marked, f.failed) else marked,
       attempts := f.attempts, acked := f.acked, dlq := f.dlq, discarded := f.discarded,
       sessions := s.sessions - {w}, now := s.now + a.elapsed)
  }

  /** Time passes, and the two updates end the poll. */
  lemma FinishRun(d: Deployment, s: State, w: WorkerId, a: Answers)
    requires w in s.sessions && !s.sessions[w].marked
    ensures var h := Handled(d, s, w, a, |s.sessions[w].entries|);
            Runs(d, h, FinishLabels(w, a)) && After(d, h, FinishLabels(w, a)) == Finished(d, s, w, a)
  {
    assert s.sessions[w].entries[..|s.sessions[w].entries|] == s.sessions[w].entries;
    var h := Handled(d, s, w, a, |s.sessions[w].entries|);
    var t, m, r := Tick(a.elapsed), Mark(w, a.markOk), Release(w, a.releaseOk);
    var h1 := Apply(d, h, t);
    var h2 := Apply(d, h1, m);
    var h3 := Apply(d, h2, r);
    StepThen(d, h2, r, []);
    StepThen(d, h1, m, [r] + []);
    StepThen(d, h, t, [m] + ([r] + []));
    assert h3.sessions == s.sessions - {w};
  }

  lemma NothingHandled(d: Deployment, s: State, w: WorkerId, a: Answers)
    requires w in s.sessions
    requires s.sessions[w] == Session(s.sessions[w].token, s.sessions[w].entries, 0, [], [], false)
    ensures Handled(d, s, w, a, 0) == s
  {
    assert s.sessions[w].entries[..0] == [];
    assert s.sessions[w := s.sessions[w]] == s.sessions;
  }

  lemma ClaimStep(d: Deployment, s: State, w: WorkerId, token: Token, locked: set<Id>, entries: seq<Entry>)
    requires w !in s.sessions && token !in s.used
    requires IsSelection(s.rows, s.now, locked, d(w).batchSize, EntryIds(entries))
    requires IsSnapshot(s.rows, entries, token)
    ensures var c := Claim(w, token, locked, EntryIds(entries));
            var s1 := s.(rows := Claimed(s.rows, EntryIds(entries), token, s.now), used := s.used + {token});
            && Enabled(d, s, c)
            && Apply(d, s, c) == if entries == [] then s1
                                 else s1.(sessions := s.sessions[w := Session(token, entries, 0, [], [], false)])
  {
    var ids := EntryIds(entries);
    assert forall i :: 0 <= i < |ids| ==> Pickable(s.rows, s.now, locked, ids[i]);
    assert Entries(s.rows, ids, token) == entries;
  }

  lemma SessionRun(d: Deployment, s: State, w: WorkerId, a: Answers)
    requires w in s.sessions
    requires s.sessions[w] == Session(s.sessions[w].token, s.sessions[w].entries, 0, [], [], false)
    ensures var ls := DeliverLabels(w, d(w), a, s.sessions[w].entries) + FinishLabels(w, a);
            Runs(d, s, ls) && After(d, s, ls) == Finished(d, s, w, a)
  {
    NothingHandled(d, s, w, a);
    DeliverRun(d, s, w, a, 0);
    var ds := DeliverLabels(w, d(w), a, s.sessions[w].entries);
    assert ds[0..] == ds;
    FinishRun(d, s, w, a);
    RunsConcat(d, s, ds, FinishLabels(w, a));
  }

  /**
   The state a poll of `w` leads to, in the terms of `Worker.Poll`: the table by `PollRows`, and the effects of
   the entries on top of what broker and discarded entries held before.
   */
  ghost function Polled(d: Deployment, s: State, w: WorkerId, token: Token, a: Answers, entries: seq<Entry>): State {
    var f := DeliverAll(d(w), a, Effects([], [], [], {}, s.dlq, {}), entries);
    s.(rows := PollRows(s.rows, s.now, token, entries, d(w), a),
       used := if a.claimOk then s.used + {token} else s.used,
       attempts := s.attempts + f.attempts, acked := s.acked + f.acked, dlq := f.dlq,
       discarded := s.discarded + f.discarded,
       now := if entries == [] then s.now else s.now + a.elapsed)
  }

  lemma DeliverFrom(st: Settings, a: Answers, s: State, entries: seq<Entry>)
    ensures var f := DeliverAll(st, a, Effects([], [], [], {}, s.dlq, {}), entries);
            var g := DeliverAll(st, a, Effects([], [], s.attempts, s.acked, s.dlq, s.discarded), entries);
            var h := DeliverAll(st, a, Effects([], [], [], {}, map[], {}), entries);
            && g == OnTop(f, s.attempts, s.acked, s.discarded)
            && g.published == h.published && g.failed == h.failed
  {
    var f0 := Effects([], [], [], {}, s.dlq, {});
    assert OnTop(f0, s.attempts, s.acked, s.discarded) == Effects([], [], s.attempts, s.acked, s.dlq, s.discarded);
    DeliverOnTop(st, a, f0, entries, s.attempts, s.acked, s.discarded);
    DeliverAllLists(st, a, Effects([], [], [], {}, map[], {}), f0, entries);
  }

  lemma FinishedIsPolled(d: Deployment, s: State, s1: State, w: WorkerId, token: Token, a: Answers, entries: seq<Entry>)
    requires w !in s.sessions && a.claimOk && entries != []
    requires s1 == s.(rows := Claimed(s.rows, EntryIds(entries), token, s.now), used := s.used + {token},
                      sessions := s.sessions[w := Session(token, entries, 0, [], [], false)])
    ensures Finished(d, s1, w, a) == Polled(d, s, w, token, a, entries)
  {
    DeliverFrom(d(w), a, s, entries);
    FinishedRows(s, s1, token, a, entries, d(w));
    assert s1.sessions - {w} == s.sessions;
  }

  lemma FinishedRows(s: State, s1: State, token: Token, a: Answers, entries: seq<Entry>, st: Settings)
    requires s1.rows == Claimed(s.rows, EntryIds(entries), token, s.now)
    ensures var h := DeliverAll(st, a, Effects([], [], [], {}, map[], {}), entries);
            var marked := if a.markOk then MarkedPublished(s1.rows, h.published, token, s.now + a.elapsed) else s1.rows;
            PollRows(s.rows, s.now, token, entries, st, a) == if a.releaseOk then Released(marked, h.failed) else marked
  {
  }

  /**
   From any state in which the worker is idle and the token fresh, the steps of a poll can be taken one
   after the other, and they leave table, broker and dead letter queue as `Poll` does.
   */
  lemma PollIsRun(d: Deployment, s: State, w: WorkerId, token: Token, locked: set<Id>, a: Answers, entries: seq<Entry>)
    requires w !in s.sessions && token !in s.used
    requires if a.claimOk then IsSelection(s.rows, s.now, locked, d(w).batchSize, EntryIds(entries)) else entries == []
    requires IsSnapshot(s.rows, entries, token)
    ensures Runs(d, s, PollLabels(w, d(w), token, locked, a, entries))
    ensures After(d, s, PollLabels(w, d(w), token, locked, a, entries)) == Polled(d, s, w, token, a, entries)
  {
    EmptyPoll(s.rows, s.now, token, d(w), a);
    if a.claimOk {
      ClaimStep(d, s, w, token, locked, entries);
      var c := Claim(w, token, locked, EntryIds(entries));
      var s1 := Apply(d, s, c);
      if entries == [] {
        StepThen(d, s, c, []);
      } else {
        SessionRun(d, s1, w, a);
        FinishedIsPolled(d, s, s1, w, token, a, entries);
        StepThen(d, s, c, DeliverLabels(w, d(w), a, entries) + FinishLabels(w, a));
      }
    }
  }
}
