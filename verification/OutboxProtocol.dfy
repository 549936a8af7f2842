/**
 The messages the relay sends (infra/events/outbox/worker.go:399-413,
 infra/events/stream_publisher.go:29-74) and the entries it dead-letters.
 */
module OutboxMessages {
  import opened OutboxTable

  datatype HeaderValue = Text(text: string) | At(time: Time) | Number(n: int)

  datatype RawMessage = RawMessage(id: Id, name: string, subject: string, data: string,
                                   headers: map<string, HeaderValue>)

  datatype DlqEntry = DlqEntry(id: Id, subject: string, data: string, headers: map<string, HeaderValue>,
                               error: string, attempts: nat, originalAt: Time)

  function Field(key: string, value: string): map<string, HeaderValue> {
    if value == "" then map[] else map[key := Text(value)]
  }

  /** Only the non-empty fields are written. */
  function MetadataMap(m: Metadata): map<string, HeaderValue> {
    Field("trace_id", m.traceId) + Field("correlation_id", m.correlationId)
    + Field("causation_id", m.causationId) + Field("source", m.source)
  }

  /** The message for a row: its payload bytes go out unchanged, metadata headers are laid over the rest. */
  function Message(id: Id, b: Body): RawMessage {
    RawMessage(id, b.eventType, b.eventType, b.payload, OwnHeaders(id, b) + MetadataMap(b.metadata))
  }

  function OwnHeaders(id: Id, b: Body): map<string, HeaderValue> {
    map["event_id" := Text(id), "event_type" := Text(b.eventType),
        "aggregate_id" := Text(b.aggregateId), "aggregate_type" := Text(b.aggregateType),
        "occurred_at" := At(b.createdAt), "version" := Number(1)]
  }

  function DeadLetter(e: Entry): DlqEntry {
    DlqEntry(e.id, e.body.eventType, e.body.payload, LetterHeaders(e) + MetadataMap(e.body.metadata),
             e.lastError, e.retryCount, e.body.createdAt)
  }

  function LetterHeaders(e: Entry): map<string, HeaderValue> {
    map["aggregate_type" := Text(e.body.aggregateType), "aggregate_id" := Text(e.body.aggregateId),
        "event_type" := Text(e.body.eventType)]
  }

  lemma MetadataKeys(m: Metadata, k: string)
    requires k in MetadataMap(m)
    ensures k in ["trace_id", "correlation_id", "causation_id", "source"]
  {
  }

  /** A header name that begins with a letter no metadata name begins with keeps its value. */
  lemma HeaderSurvives(m: Metadata, headers: map<string, HeaderValue>, k: string)
    requires k in headers && k != "" && k[0] !in ['t', 'c', 's']
    ensures (headers + MetadataMap(m))[k] == headers[k]
  {
    if k in MetadataMap(m) {
      MetadataKeys(m, k);
      assert false;
    }
  }

  /** Metadata never hides the headers that consumers deduplicate and route on. */
  lemma IdentityHeadersSurvive(id: Id, b: Body)
    ensures Message(id, b).headers["event_id"] == Text(id)
    ensures Message(id, b).headers["event_type"] == Text(b.eventType)
    ensures Message(id, b).headers["occurred_at"] == At(b.createdAt)
  {
    var own := OwnHeaders(id, b);
    HeaderSurvives(b.metadata, own, "event_id");
    HeaderSurvives(b.metadata, own, "event_type");
    HeaderSurvives(b.metadata, own, "occurred_at");
    assert |"event_id"| != |"event_type"| && |"event_type"| != |"aggregate_id"|;
  }

  lemma AggregateHeadersSurvive(id: Id, b: Body)
    ensures Message(id, b).headers["aggregate_id"] == Text(b.aggregateId)
    ensures Message(id, b).headers["aggregate_type"] == Text(b.aggregateType)
    ensures Message(id, b).headers["version"] == Number(1)
  {
    var own := OwnHeaders(id, b);
    HeaderSurvives(b.metadata, own, "aggregate_id");
    HeaderSurvives(b.metadata, own, "aggregate_type");
    HeaderSurvives(b.metadata, own, "version");
  }

  /** A metadata field is sent under its own name when it is not empty, and not at all when it is. */
  predicate Shows(headers: map<string, HeaderValue>, key: string, value: string) {
    if value == "" then key !in headers else key in headers && headers[key] == Text(value)
  }

  lemma MetadataShown(m: Metadata)
    ensures Shows(MetadataMap(m), "trace_id", m.traceId) && Shows(MetadataMap(m), "correlation_id", m.correlationId)
    ensures Shows(MetadataMap(m), "causation_id", m.causationId) && Shows(MetadataMap(m), "source", m.source)
  {
    assert |"trace_id"| == 8 && |"correlation_id"| == 14 && |"causation_id"| == 12 && |"source"| == 6;
  }

  lemma ShownOver(headers: map<string, HeaderValue>, extra: map<string, HeaderValue>, key: string, value: string)
    requires key !in headers && Shows(extra, key, value)
    ensures Shows(headers + extra, key, value)
  {
  }

  /** The metadata of a row travels with the message and with the dead letter made from it. */
  lemma MetadataTravels(id: Id, e: Entry)
    ensures var m, h := e.body.metadata, Message(id, e.body).headers;
            && Shows(h, "trace_id", m.traceId) && Shows(h, "correlation_id", m.correlationId)
            && Shows(h, "causation_id", m.causationId) && Shows(h, "source", m.source)
    ensures var m, h := e.body.metadata, DeadLetter(e).headers;
            && Shows(h, "trace_id", m.traceId) && Shows(h, "correlation_id", m.correlationId)
            && Shows(h, "causation_id", m.causationId) && Shows(h, "source", m.source)
  {
    MetadataShown(e.body.metadata);
    TravelsOver(OwnHeaders(id, e.body), e.body.metadata);
    TravelsOver(LetterHeaders(e), e.body.metadata);
  }

  lemma TravelsOver(headers: map<string, HeaderValue>, m: Metadata)
    requires forall k :: k in headers ==> k != "" && k[0] !in ['t', 'c', 's']
    ensures var h := headers + MetadataMap(m);
            && Shows(h, "trace_id", m.traceId) && Shows(h, "correlation_id", m.correlationId)
            && Shows(h, "causation_id", m.causationId) && Shows(h, "source", m.source)
  {
    MetadataShown(m);
    assert "trace_id"[0] == 't' && "correlation_id"[0] == 'c' && "causation_id"[0] == 'c' && "source"[0] == 's';
    ShownOver(headers, MetadataMap(m), "trace_id", m.traceId);
    ShownOver(headers, MetadataMap(m), "correlation_id", m.correlationId);
    ShownOver(headers, MetadataMap(m), "causation_id", m.causationId);
    ShownOver(headers, MetadataMap(m), "source", m.source);
  }

  /** A dead letter tells which aggregate and type it is about, why it failed last and how often it was tried. */
  lemma DeadLetterTells(e: Entry)
    ensures DeadLetter(e).headers["aggregate_type"] == Text(e.body.aggregateType)
    ensures DeadLetter(e).headers["aggregate_id"] == Text(e.body.aggregateId)
    ensures DeadLetter(e).headers["event_type"] == Text(e.body.eventType)
    ensures DeadLetter(e).error == e.lastError && DeadLetter(e).attempts == e.retryCount
  {
    HeaderSurvives(e.body.metadata, LetterHeaders(e), "aggregate_type");
    HeaderSurvives(e.body.metadata, LetterHeaders(e), "aggregate_id");
    HeaderSurvives(e.body.metadata, LetterHeaders(e), "event_type");
    assert |"aggregate_type"| == 14 && |"aggregate_id"| == 12 && |"event_type"| == 10;
  }
}

/**
 The outbox relay as a step machine: producers commit rows, any number of workers claim, publish,
 dead-letter, mark and release them, rows are cleaned up, workers crash, time passes. Every SQL
 statement or transaction, every publish and every dead-letter insert is one step, in any order.
 */
module OutboxProtocol {
  import opened Prelude
  import opened OutboxTable

  type WorkerId = nat

  datatype Settings = Settings(batchSize: nat, maxRetries: int, dlq: bool)

  type Deployment = WorkerId -> Settings

  /** What a publish call hands to the broker adapter, which renders it as a message. */
  datatype Event = Event(id: Id, body: Body)

  /** A worker between its claim and the end of its poll. */
  datatype Session = Session(token: Token, entries: seq<Entry>, next: nat,
                             published: seq<Id>, failed: seq<ReleaseEntry>, marked: bool)

  datatype State = State(
    rows: Table,
    dlq: map<Id, Entry>,         // the entry each dead letter was made from
    acked: set<Event>,           // events whose publish the broker acknowledged
    attempts: seq<Event>,        // the event of every publish call, in order
    discarded: set<Id>,          // exhausted entries passed on with no dead letter queue
    committed: map<Id, Body>,    // everything producers ever committed
    used: set<Token>,            // tokens drawn so far
    sessions: map<WorkerId, Session>,
    now: Time)

  datatype Label =
    | Insert(batch: map<Id, Body>)
    | Claim(w: WorkerId, token: Token, locked: set<Id>, ids: seq<Id>)
    | Publish(w: WorkerId, err: Option<string>)
    | Exhaust(w: WorkerId, err: Option<string>, stored: bool)
    | Mark(w: WorkerId, ok: bool)
    | Release(w: WorkerId, ok: bool)
    | Cleanup(cutoff: Time, victims: set<Id>)
    | Crash(w: WorkerId)
    | Tick(elapsed: nat)

  function Init(t0: Time): State {
    State(map[], map[], {}, [], {}, map[], {}, map[], t0)
  }

  predicate AtEntry(s: State, w: WorkerId) {
    w in s.sessions && s.sessions[w].next < |s.sessions[w].entries|
  }

  predicate AtEnd(s: State, w: WorkerId, marked: bool) {
    w in s.sessions && s.sessions[w].next == |s.sessions[w].entries| && s.sessions[w].marked == marked
  }

  function Current(s: State, w: WorkerId): Entry
    requires AtEntry(s, w)
  {
    s.sessions[w].entries[s.sessions[w].next]
  }

  /** When a step can be taken. Event ids and lease tokens are fresh; nothing else is assumed. */
  ghost predicate Enabled(d: Deployment, s: State, l: Label) {
    match l
    case Insert(batch) => batch.Keys !! s.committed.Keys
    case Claim(w, token, locked, ids) =>
      w !in s.sessions && token !in s.used && IsSelection(s.rows, s.now, locked, d(w).batchSize, ids)
    case Publish(w, err) => AtEntry(s, w) && Current(s, w).retryCount < d(w).maxRetries
    case Exhaust(w, err, stored) =>
      && AtEntry(s, w) && Current(s, w).retryCount >= d(w).maxRetries
      && (if d(w).dlq then err.None? ==> stored else err.None? && !stored)
    case Mark(w, ok) => AtEnd(s, w, false)
    case Release(w, ok) => AtEnd(s, w, true)
    case Cleanup(cutoff, victims) =>
      && |victims| <= CLEANUP_BATCH_LIMIT
      && forall id :: id in victims ==> id in s.rows && Stale(s.rows[id], cutoff)
    case Crash(w) => w in s.sessions
    case Tick(elapsed) => true
  }

  /** The entry is done: its id joins the published or the failed ones. */
  function Settle(se: Session, err: Option<string>): Session
    requires se.next < |se.entries|
  {
    var id := se.entries[se.next].id;
    if err.None? then se.(next := se.next + 1, published := se.published + [id])
    else se.(next := se.next + 1, failed := se.failed + [ReleaseEntry(id, err.value)])
  }

  ghost function Apply(d: Deployment, s: State, l: Label): State
    requires Enabled(d, s, l)
  {
    match l
    case Insert(batch) =>
      s.(rows := s.rows + (map id | id in batch :: NewRow(batch[id])), committed := s.committed + batch)
    case Claim(w, token, locked, ids) =>
      var s' := s.(rows := Claimed(s.rows, ids, token, s.now), used := s.used + {token});
      if ids == [] then s'
      else s'.(sessions := s.sessions[w := Session(token, Entries(s.rows, ids, token), 0, [], [], false)])
    case Publish(w, err) =>
      var m := Event(Current(s, w).id, Current(s, w).body);
      s.(attempts := s.attempts + [m],
         acked := if err.None? then s.acked + {m} else s.acked,
         sessions := s.sessions[w := Settle(s.sessions[w], err)])
    case Exhaust(w, err, stored) =>
      var e := Current(s, w);
      s.(dlq := if stored && e.id !in s.dlq then s.dlq[e.id := e] else s.dlq,
         discarded := if d(w).dlq then s.discarded else s.discarded + {e.id},
         sessions := s.sessions[w := Settle(s.sessions[w], err)])
    case Mark(w, ok) =>
      var se := s.sessions[w];
      s.(rows := if ok then MarkedPublished(s.rows, se.published, se.token, s.now) else s.rows,
         sessions := s.sessions[w := se.(marked := true)])
    case Release(w, ok) =>
      s.(rows := if ok then Released(s.rows, s.sessions[w].failed) else s.rows,
         sessions := s.sessions - {w})
    case Cleanup(cutoff, victims) => s.(rows := s.rows - victims)
    case Crash(w) => s.(sessions := s.sessions - {w})
    case Tick(elapsed) => s.(now := s.now + elapsed)
  }

  ghost function Entries(t: Table, ids: seq<Id>, token: Token): seq<Entry>
    requires forall i :: 0 <= i < |ids| ==> ids[i] in t
  {
    seq(|ids|, i requires 0 <= i < |ids| => Snapshot(t, ids[i], token))
  }

  /** `ls` can be taken step by step from `s`. */
  ghost predicate Runs(d: Deployment, s: State, ls: seq<Label>)
    decreases |ls|
  {
    ls == [] || (Enabled(d, s, ls[0]) && Runs(d, Apply(d, s, ls[0]), ls[1..]))
  }

  ghost function After(d: Deployment, s: State, ls: seq<Label>): State
    requires Runs(d, s, ls)
    decreases |ls|
  {
    if ls == [] then s else After(d, Apply(d, s, ls[0]), ls[1..])
  }

  // ---------------------------------------------------------------- invariant

  predicate Acked(s: State, id: Id) {
    id in s.committed && Event(id, s.committed[id]) in s.acked
  }

  predicate Settled(s: State, id: Id) {
    Acked(s, id) || id in s.dlq || id in s.discarded
  }

  ghost predicate RowsFaithful(s: State) {
    && (forall id :: id in s.rows ==> id in s.committed && s.rows[id].body == s.committed[id])
    && (forall id :: id in s.rows && s.rows[id].token.Some? ==> s.rows[id].token.value in s.used)
    && (forall id :: id in s.rows && s.rows[id].publishedAt.Some? ==> Settled(s, id))
    && (forall id :: id in s.committed ==> id in s.rows || Settled(s, id))
  }

  ghost predicate SessionFaithful(d: Deployment, s: State, w: WorkerId)
    requires w in s.sessions
  {
    var se := s.sessions[w];
    && se.token in s.used
    && 0 < |se.entries| <= d(w).batchSize && se.next <= |se.entries|
    && (forall i :: 0 <= i < |se.entries| ==>
          se.entries[i].id in s.committed && se.entries[i].body == s.committed[se.entries[i].id])
    && (forall i :: 0 <= i < |se.published| ==> Settled(s, se.published[i]))
  }

  ghost predicate SessionsFaithful(d: Deployment, s: State) {
    && (forall w :: w in s.sessions ==> SessionFaithful(d, s, w))
    && (forall v, w :: v in s.sessions && w in s.sessions && v != w ==> s.sessions[v].token != s.sessions[w].token)
  }

  /** Nothing is ever sent or dead-lettered that was not committed under that id, content included. */
  ghost predicate OutputsFaithful(s: State) {
    && (forall m :: m in s.acked ==> m in s.attempts)
    && (forall i :: 0 <= i < |s.attempts| ==>
          s.attempts[i].id in s.committed && s.attempts[i].body == s.committed[s.attempts[i].id])
    && (forall id :: id in s.dlq ==>
          id in s.committed && s.dlq[id].id == id && s.dlq[id].body == s.committed[id])
  }

  ghost predicate Inv(d: Deployment, s: State) {
    RowsFaithful(s) && SessionsFaithful(d, s) && OutputsFaithful(s)
  }

  /** A worker that can throw an exhausted entry away: it claims rows and has no dead letter queue. */
  predicate CanDiscard(d: Deployment, w: WorkerId) {
    !d(w).dlq && d(w).batchSize > 0
  }

  ghost predicate Grows(s: State, s': State) {
    && s.used <= s'.used
    && (forall id :: id in s.committed ==> id in s'.committed && s'.committed[id] == s.committed[id])
    && (forall id :: Settled(s, id) ==> Settled(s', id))
  }

  lemma StepGrows(d: Deployment, s: State, l: Label)
    requires Enabled(d, s, l)
    ensures Grows(s, Apply(d, s, l))
  {
  }

  /** Only a mark sets `published_at`, and only on ids its session has settled. */
  lemma MarkKeepsRows(d: Deployment, s: State, w: WorkerId, ok: bool)
    requires Inv(d, s) && Enabled(d, s, Mark(w, ok))
    ensures RowsFaithful(Apply(d, s, Mark(w, ok)))
  {
    var s' := Apply(d, s, Mark(w, ok));
    assert s'.committed == s.committed && s'.rows.Keys == s.rows.Keys && s'.used == s.used;
    forall id ensures Settled(s', id) == Settled(s, id) {
    }
    forall id | id in s'.rows && s'.rows[id].publishedAt.Some?
      ensures Settled(s', id)
    {
      assert SessionFaithful(d, s, w);
      var se := s.sessions[w];
      if id in se.published {
        var i :| 0 <= i < |se.published| && se.published[i] == id;
      }
    }
  }

  lemma InsertKeepsRows(d: Deployment, s: State, l: Label)
    requires l.Insert? && Inv(d, s) && Enabled(d, s, l)
    ensures RowsFaithful(Apply(d, s, l))
  {
    StepGrows(d, s, l);
  }

  /** A step that only touches claims, retries and errors of rows. */
  lemma RowsCarry(s: State, s': State)
    requires RowsFaithful(s) && Grows(s, s') && s'.committed == s.committed && s'.rows.Keys == s.rows.Keys
    requires forall id :: id in s.rows ==>
               s'.rows[id].body == s.rows[id].body && s'.rows[id].publishedAt == s.rows[id].publishedAt
    requires forall id :: id in s.rows && s'.rows[id].token.Some? ==> s'.rows[id].token.value in s'.used
    ensures RowsFaithful(s')
  {
  }

  lemma ReleaseKeepsRows(d: Deployment, s: State, l: Label)
    requires l.Release? && RowsFaithful(s) && Enabled(d, s, l)
    ensures RowsFaithful(Apply(d, s, l))
  {
    StepGrows(d, s, l);
    RowsCarry(s, Apply(d, s, l));
  }

  lemma CleanupKeepsRows(d: Deployment, s: State, l: Label)
    requires l.Cleanup? && RowsFaithful(s) && Enabled(d, s, l)
    ensures RowsFaithful(Apply(d, s, l))
  {
    StepGrows(d, s, l);
  }

  lemma ClaimKeepsRows(d: Deployment, s: State, l: Label)
    requires l.Claim? && RowsFaithful(s) && Enabled(d, s, l)
    ensures RowsFaithful(Apply(d, s, l))
  {
    StepGrows(d, s, l);
    RowsCarry(s, Apply(d, s, l));
  }

  lemma StepKeepsRows(d: Deployment, s: State, l: Label)
    requires Inv(d, s) && Enabled(d, s, l)
    ensures RowsFaithful(Apply(d, s, l))
  {
    StepGrows(d, s, l);
    match l
    case Insert(_) => InsertKeepsRows(d, s, l);
    case Claim(_, _, _, _) => ClaimKeepsRows(d, s, l);
    case Mark(w, ok) => MarkKeepsRows(d, s, w, ok);
    case Release(_, _) => ReleaseKeepsRows(d, s, l);
    case Cleanup(_, _) => CleanupKeepsRows(d, s, l);
    case _ =>
  }

  lemma SessionCarries(d: Deployment, s: State, s': State, w: WorkerId)
    requires w in s.sessions && SessionFaithful(d, s, w)
    requires Grows(s, s') && w in s'.sessions && s'.sessions[w] == s.sessions[w]
    ensures SessionFaithful(d, s', w)
  {
  }

  lemma ClaimOpensSession(d: Deployment, s: State, l: Label)
    requires l.Claim? && Inv(d, s) && Enabled(d, s, l) && l.ids != []
    ensures SessionFaithful(d, Apply(d, s, l), l.w)
  {
    assert forall i :: 0 <= i < |l.ids| ==> Pickable(s.rows, s.now, l.locked, l.ids[i]);
  }

  lemma SettleKeepsSession(d: Deployment, s: State, l: Label)
    requires l.Publish? || l.Exhaust?
    requires Inv(d, s) && Enabled(d, s, l)
    ensures SessionFaithful(d, Apply(d, s, l), l.w)
  {
    StepGrows(d, s, l);
    assert SessionFaithful(d, s, l.w);
    var s' := Apply(d, s, l);
    var e := Current(s, l.w);
    assert l.err.None? ==> Settled(s', e.id);
  }

  lemma MarkKeepsSession(d: Deployment, s: State, w: WorkerId, ok: bool)
    requires Enabled(d, s, Mark(w, ok)) && SessionFaithful(d, s, w)
    ensures SessionFaithful(d, Apply(d, s, Mark(w, ok)), w)
  {
    StepGrows(d, s, Mark(w, ok));
  }

  /** The session of a worker that did not move, or the one the step is about. */
  lemma SameSession(d: Deployment, s: State, l: Label, w: WorkerId)
    requires Enabled(d, s, l) && w in Apply(d, s, l).sessions
    requires !(l.Claim? || l.Publish? || l.Exhaust? || l.Mark?) || w != l.w || (l.Claim? && l.ids == [])
    ensures w in s.sessions && Apply(d, s, l).sessions[w] == s.sessions[w]
  {
  }

  lemma StepKeepsSession(d: Deployment, s: State, l: Label, w: WorkerId)
    requires Inv(d, s) && Enabled(d, s, l) && w in Apply(d, s, l).sessions
    ensures SessionFaithful(d, Apply(d, s, l), w)
  {
    if !(l.Claim? || l.Publish? || l.Exhaust? || l.Mark?) || w != l.w || (l.Claim? && l.ids == []) {
      StepGrows(d, s, l);
      SameSession(d, s, l, w);
      SessionCarries(d, s, Apply(d, s, l), w);
    } else if l.Claim? {
      ClaimOpensSession(d, s, l);
    } else if l.Mark? {
      MarkKeepsSession(d, s, l.w, l.ok);
    } else {
      SettleKeepsSession(d, s, l);
    }
  }

  lemma StepKeepsTokensApart(d: Deployment, s: State, l: Label, v: WorkerId, w: WorkerId)
    requires SessionsFaithful(d, s) && Enabled(d, s, l)
    requires v in Apply(d, s, l).sessions && w in Apply(d, s, l).sessions && v != w
    ensures Apply(d, s, l).sessions[v].token != Apply(d, s, l).sessions[w].token
  {
    assert v in s.sessions ==> SessionFaithful(d, s, v);
    assert w in s.sessions ==> SessionFaithful(d, s, w);
  }

  lemma StepKeepsOutputs(d: Deployment, s: State, l: Label)
    requires Inv(d, s) && Enabled(d, s, l)
    ensures OutputsFaithful(Apply(d, s, l))
  {
  }

  lemma StepKeepsInv(d: Deployment, s: State, l: Label)
    requires Inv(d, s) && Enabled(d, s, l)
    ensures Inv(d, Apply(d, s, l))
  {
    StepKeepsRows(d, s, l);
    StepKeepsOutputs(d, s, l);
    var s' := Apply(d, s, l);
    forall w | w in s'.sessions ensures SessionFaithful(d, s', w) {
      StepKeepsSession(d, s, l, w);
    }
    forall v, w | v in s'.sessions && w in s'.sessions && v != w
      ensures s'.sessions[v].token != s'.sessions[w].token
    {
      StepKeepsTokensApart(d, s, l, v, w);
    }
  }

  lemma {:induction false} RunKeepsInv(d: Deployment, s: State, ls: seq<Label>)
    requires Inv(d, s) && Runs(d, s, ls)
    ensures Inv(d, After(d, s, ls))
    decreases |ls|
  {
    if ls != [] {
      StepKeepsInv(d, s, ls[0]);
      RunKeepsInv(d, Apply(d, s, ls[0]), ls[1..]);
    }
  }
}
