/**
 The outbox transport of the messenger as its worker drives it: the table statements
 (messenger/transport/outbox/postgres_store.go), the transport over them
 (messenger/transport/outbox/transport.go) and one processed message (messenger/worker/worker.go:126-154).
 */
module OutboxTransport {
  import opened Prelude
  import opened OutboxTable
  import opened Envelopes

  const SECOND: Time := 1_000_000_000

  datatype Settings = Settings(batchSize: nat, maxRetries: int, claimTimeout: Time)

  /** Decoding a payload: an arbitrary deterministic function, `None` on failure. */
  type Decoder = string -> Option<Envelope>

  /** The timeout is cut to whole seconds before it reaches the database. */
  function TimeoutSeconds(st: Settings): Time
    requires st.claimTimeout > 0
  {
    st.claimTimeout / SECOND * SECOND
  }

  predicate Claimable(st: Settings, row: Row, now: Time) {
    && row.publishedAt.None? && row.retryCount < st.maxRetries
    && (st.claimTimeout <= 0 || row.claimedAt.None? || row.claimedAt.value < now - TimeoutSeconds(st))
  }

  /** Only the claiming query passes over the rows that other transactions hold. */
  function Candidates(st: Settings, t: Table, now: Time, locked: set<Id>): set<Id> {
    set id | id in t && (st.claimTimeout <= 0 || id !in locked) && Claimable(st, t[id], now)
  }

  /** With claiming switched off, rows are only read. */
  function Taken(st: Settings, t: Table, ids: seq<Id>, now: Time): Table {
    if st.claimTimeout <= 0 then t
    else map id | id in t :: if id in ids then t[id].(claimedAt := Some(now)) else t[id]
  }

  function Published(t: Table, id: Id, now: Time): Table {
    if id in t then t[id := t[id].(publishedAt := Some(now), claimedAt := None)] else t
  }

  function Retried(t: Table, id: Id, lastError: string): Table {
    if id in t
    then t[id := t[id].(retryCount := t[id].retryCount + 1, lastError := lastError, claimedAt := None)]
    else t
  }

  /** The row an envelope is acknowledged against. */
  function EntryId(env: Envelope): Option<Id> {
    var s := env.Last(NAME_OUTBOX_ID);
    if s.Some? && s.value.OutboxId? then Some(s.value.entryId) else None
  }

  /** The envelope a worker gets for a row. */
  function Fetched(env: Envelope, id: Id): Envelope {
    env.WithStamp(OutboxId(id))
  }

  /**
   Whatever stamps the decoded payload already carries, outbox ids of earlier trips included, the envelope
   leads back to the row it was fetched from, also after the worker has stamped it as received.
   */
  lemma LeadsBack(env: Envelope, id: Id, transport: string, at: Time)
    ensures EntryId(Fetched(env, id)) == Some(id)
    ensures EntryId(Fetched(env, id).WithStamp(Received(transport, at))) == Some(id)
  {
    NamesDiffer();
    LastAfterStamp(env, OutboxId(id), NAME_OUTBOX_ID);
    LastAfterStamp(Fetched(env, id), Received(transport, at), NAME_OUTBOX_ID);
  }

  /** The envelopes of the rows that decode, and the rows that do not. */
  function Decodable(decode: Decoder, t: Table, ids: seq<Id>): seq<Envelope> {
    if ids == [] then []
    else
      var id := ids[|ids| - 1];
      Decodable(decode, t, ids[..|ids| - 1])
      + if id in t && decode(t[id].body.payload).Some? then [Fetched(decode(t[id].body.payload).value, id)] else []
  }

  /** The rows that do not decode gain a retry, as far as that update goes through. */
  function Undecodable(decode: Decoder, t: Table, ids: seq<Id>, retryOk: Id -> bool): Table {
    if ids == [] then t
    else
      var id := ids[|ids| - 1];
      var t' := Undecodable(decode, t, ids[..|ids| - 1], retryOk);
      if id in t && decode(t[id].body.payload).None? && retryOk(id) then Retried(t', id, "decode") else t'
  }

  lemma {:induction false} UndecodableKeepsBodies(decode: Decoder, t: Table, ids: seq<Id>, retryOk: Id -> bool)
    ensures Undecodable(decode, t, ids, retryOk).Keys == t.Keys
    ensures forall id :: id in t ==> Undecodable(decode, t, ids, retryOk)[id].body == t[id].body
  {
    if ids != [] { UndecodableKeepsBodies(decode, t, ids[..|ids| - 1], retryOk); }
  }

  /** How many of the rows decode. */
  function DecodeCount(decode: Decoder, t: Table, ids: seq<Id>): nat {
    if ids == [] then 0
    else
      var id := ids[|ids| - 1];
      DecodeCount(decode, t, ids[..|ids| - 1]) + if id in t && decode(t[id].body.payload).Some? then 1 else 0
  }

  lemma {:induction false} DecodableLength(decode: Decoder, t: Table, ids: seq<Id>)
    ensures |Decodable(decode, t, ids)| == DecodeCount(decode, t, ids)
  {
    if ids != [] { DecodableLength(decode, t, ids[..|ids| - 1]); }
  }

  /** The row at `k`, if it decodes, comes right after those before it that do, with its own message and id. */
  lemma {:induction false} DecodableAt(decode: Decoder, t: Table, ids: seq<Id>, k: nat)
    requires k < |ids| && ids[k] in t && decode(t[ids[k]].body.payload).Some?
    ensures |Decodable(decode, t, ids)| == DecodeCount(decode, t, ids)
    ensures var n := DecodeCount(decode, t, ids[..k]);
            && n < |Decodable(decode, t, ids)|
            && Decodable(decode, t, ids)[n] == decode(t[ids[k]].body.payload).value.WithStamp(OutboxId(ids[k]))
    decreases |ids|
  {
    var last := |ids| - 1;
    DecodableLength(decode, t, ids);
    DecodableLength(decode, t, ids[..last]);
    if k < last {
      DecodableAt(decode, t, ids[..last], k);
      assert ids[..last][..k] == ids[..k];
    }
  }

  /** A row gains a retry exactly when it is listed, does not decode and the update goes through; the others are as they were. */
  lemma {:induction false} UndecodableAt(decode: Decoder, t: Table, ids: seq<Id>, retryOk: Id -> bool, id: Id)
    requires Distinct(ids) && id in t
    ensures id in Undecodable(decode, t, ids, retryOk)
    ensures Undecodable(decode, t, ids, retryOk)[id] ==
            if id in ids && decode(t[id].body.payload).None? && retryOk(id)
            then t[id].(retryCount := t[id].retryCount + 1, lastError := "decode", claimedAt := None) else t[id]
  {
    if ids != [] {
      var front, last := ids[..|ids| - 1], ids[|ids| - 1];
      UndecodableAt(decode, t, front, retryOk, id);
      UndecodableKeepsBodies(decode, t, front, retryOk);
      assert ids == front + [last] && last !in front;
    }
  }

  /**
   Which rows a query takes: only unlocked, unpublished ones under the retry limit that are unclaimed or were
   claimed longer ago than the timeout in whole seconds, or whatever their claim if claiming is off; and such a row
   is passed over only by a full batch of rows none of which is younger.
   */
  lemma QueryExactly(st: Settings, t: Table, now: Time, locked: set<Id>, ids: seq<Id>, id: Id)
    requires IsOldest(t, Candidates(st, t, now, locked), st.batchSize, ids)
    ensures id in ids ==>
              && id in t && t[id].publishedAt == None && t[id].retryCount < st.maxRetries
              && (st.claimTimeout <= 0
                  || (id !in locked && (t[id].claimedAt == None
                      || now - t[id].claimedAt.value > st.claimTimeout / 1_000_000_000 * 1_000_000_000)))
    ensures && id in t && t[id].publishedAt == None && t[id].retryCount < st.maxRetries
            && (st.claimTimeout <= 0
                || (id !in locked && (t[id].claimedAt == None
                    || now - t[id].claimedAt.value > st.claimTimeout / 1_000_000_000 * 1_000_000_000)))
            && id !in ids
            ==> |ids| == st.batchSize && forall i :: 0 <= i < |ids| ==> t[ids[i]].body.createdAt <= t[id].body.createdAt
  {
    if id in ids {
      var i :| 0 <= i < |ids| && ids[i] == id;
      assert ids[i] in Candidates(st, t, now, locked);
    } else if id in Candidates(st, t, now, locked) {
      assert id in Candidates(st, t, now, locked);
    }
  }

  /** `ids` is `selected` in some order. */
  ghost predicate Reordered(ids: seq<Id>, selected: seq<Id>) {
    Distinct(ids) && forall id :: id in ids <==> id in selected
  }

  /** `RETURNING` gives the rows back in no particular order. */
  method AnyOrder(selected: seq<Id>) returns (ids: seq<Id>)
    ensures Reordered(ids, selected)
  {
    ids := [];
    var left := set id | id in selected;
    while left != {}
      invariant Distinct(ids) && forall id :: id in selected <==> id in ids || id in left
      invariant forall id :: id in left ==> id !in ids
      decreases |left|
    {
      var id :| id in left;
      ids := ids + [id];
      left := left - {id};
    }
  }

  class PostgresStore {
    var rows: Table
    const settings: Settings

    constructor (settings: Settings)
      ensures rows == map[] && this.settings == settings
    {
      rows := map[];
      this.settings := settings;
    }

    /** `selected` are the rows chosen; with claiming on they come back in any order. */
    method GetUnpublished(now: Time, locked: set<Id>) returns (ids: seq<Id>, ghost selected: seq<Id>)
      modifies this
      ensures IsOldest(old(rows), Candidates(settings, old(rows), now, locked), settings.batchSize, selected)
      ensures Reordered(ids, selected) && (settings.claimTimeout <= 0 ==> ids == selected)
      ensures rows == Taken(settings, old(rows), ids, now)
      ensures rows.Keys == old(rows).Keys
      ensures forall id :: id in rows ==>
                var r := old(rows)[id];
                rows[id] == if settings.claimTimeout > 0 && id in ids
                            then Row(r.body, Some(now), r.token, r.publishedAt, r.retryCount, r.lastError) else r
    {
      var from := set id | id in rows && (settings.claimTimeout <= 0 || id !in locked) && Claimable(settings, rows[id], now);
      ids := SelectOldest(rows, from, settings.batchSize);
      selected := ids;
      if settings.claimTimeout > 0 {
        ids := AnyOrder(ids);
        assert forall k :: 0 <= k < |ids| ==> ids[k] in selected;
        for k := 0 to |ids|
          invariant rows == map id | id in old(rows) ::
                              if id in ids[..k] then old(rows)[id].(claimedAt := Some(now)) else old(rows)[id]
        {
          assert ids[..k + 1] == ids[..k] + [ids[k]];
          assert ids[k] in from;
          rows := rows[ids[k] := rows[ids[k]].(claimedAt := Some(now))];
        }
        assert ids[..|ids|] == ids;
      }
    }

    method MarkPublished(id: Id, now: Time)
      modifies this
      ensures rows == Published(old(rows), id, now)
      ensures id in old(rows) ==>
                var r := old(rows)[id];
                rows == old(rows)[id := Row(r.body, None, r.token, Some(now), r.retryCount, r.lastError)]
      ensures id !in old(rows) ==> rows == old(rows)
    {
      if id in rows {
        rows := rows[id := rows[id].(publishedAt := Some(now), claimedAt := None)];
      }
    }

    method IncrementRetry(id: Id, lastError: string)
      modifies this
      ensures rows == Retried(old(rows), id, lastError)
      ensures id in old(rows) ==>
                var r := old(rows)[id];
                rows == old(rows)[id := Row(r.body, None, r.token, r.publishedAt, r.retryCount + 1, lastError)]
      ensures id !in old(rows) ==> rows == old(rows)
    {
      if id in rows {
        var row := rows[id];
        rows := rows[id := row.(retryCount := row.retryCount + 1, lastError := lastError, claimedAt := None)];
      }
    }
  }

  class Transport {
    const store: PostgresStore
    const decode: Decoder

    constructor (store: PostgresStore, decode: Decoder)
      ensures this.store == store && this.decode == decode
    {
      this.store, this.decode := store, decode;
    }

    /** `retryOk` tells which retry updates of undecodable rows go through; a failing query changes nothing. */
    method Get(now: Time, locked: set<Id>, queryOk: bool, retryOk: Id -> bool)
      returns (ok: bool, envs: seq<Envelope>, ghost ids: seq<Id>, ghost selected: seq<Id>)
      modifies store
      ensures ok == queryOk
      ensures !ok ==> envs == [] && store.rows == old(store.rows)
      ensures ok ==>
                && IsOldest(old(store.rows), Candidates(store.settings, old(store.rows), now, locked),
                            store.settings.batchSize, selected)
                && Reordered(ids, selected)
                && var t := Taken(store.settings, old(store.rows), ids, now);
                   envs == Decodable(decode, t, ids) && store.rows == Undecodable(decode, t, ids, retryOk)
    {
      ok, envs, ids, selected := queryOk, [], [], [];
      if !queryOk {
        return;
      }
      var entries;
      entries, selected := store.GetUnpublished(now, locked);
      ids := entries;
      forall k | 0 <= k < |entries| ensures entries[k] in store.rows {
        assert entries[k] in selected;
        assert entries[k] in Candidates(store.settings, old(store.rows), now, locked);
      }
      envs := DecodeEntries(entries, retryOk);
    }

    /** Decodes the claimed rows one by one. */
    method DecodeEntries(entries: seq<Id>, retryOk: Id -> bool) returns (envs: seq<Envelope>)
      requires forall k :: 0 <= k < |entries| ==> entries[k] in store.rows
      modifies store
      ensures envs == Decodable(decode, old(store.rows), entries)
      ensures store.rows == Undecodable(decode, old(store.rows), entries, retryOk)
    {
      ghost var t := store.rows;
      envs := [];
      for k := 0 to |entries|
        invariant envs == Decodable(decode, t, entries[..k])
        invariant store.rows == Undecodable(decode, t, entries[..k], retryOk)
      {
        assert entries[..k + 1][..k] == entries[..k];
        UndecodableKeepsBodies(decode, t, entries[..k], retryOk);
        var env := decode(store.rows[entries[k]].body.payload);
        if env.Some? {
          envs := envs + [env.value.WithStamp(OutboxId(entries[k]))];
        } else if retryOk(entries[k]) {
          store.IncrementRetry(entries[k], "decode");
        }
      }
      assert entries[..|entries|] == entries;
    }

    method Ack(env: Envelope, now: Time) returns (ok: bool)
      modifies store
      ensures ok <==> EntryId(env).Some?
      ensures store.rows == if ok then Published(old(store.rows), EntryId(env).value, now) else old(store.rows)
    {
      var id := EntryId(env);
      ok := id.Some?;
      if ok { store.MarkPublished(id.value, now); }
    }

    method Reject(env: Envelope, reason: string) returns (ok: bool)
      modifies store
      ensures ok <==> EntryId(env).Some?
      ensures store.rows == if ok then Retried(old(store.rows), EntryId(env).value, reason) else old(store.rows)
    {
      var id := EntryId(env);
      ok := id.Some?;
      if ok { store.IncrementRetry(id.value, reason); }
    }

    /**
     One message through the worker: dispatched once, then acknowledged or rejected once, against the row
     that the envelope named before the worker stamped it. Without such a row the table is left alone.
     */
    method ProcessMessage(env: Envelope, now: Time, dispatchErr: Option<string>) returns (dispatched: Envelope)
      modifies store
      ensures dispatched == env.WithStamp(Received("outbox", now))
      ensures EntryId(env).None? ==> store.rows == old(store.rows)
      ensures EntryId(env).Some? ==>
                store.rows == if dispatchErr.None? then Published(old(store.rows), EntryId(env).value, now)
                              else Retried(old(store.rows), EntryId(env).value, dispatchErr.value)
    {
      dispatched := env.WithStamp(Received("outbox", now));
      NamesDiffer();
      LastAfterStamp(env, Received("outbox", now), NAME_OUTBOX_ID);
      if dispatchErr.Some? {
        var rejected := Reject(dispatched, dispatchErr.value);
      } else {
        var acked := Ack(dispatched, now);
      }
    }
  }
}

/** Any number of messenger workers on one outbox table, step by step. */
module MessengerRelay {
  import opened Prelude
  import opened OutboxTable
  import opened Envelopes
  import opened OutboxTransport

  type WorkerId = nat

  /** An envelope in a worker's hands, with the row it came from. */
  datatype Item = Item(env: Envelope, from: Id)

  datatype Job =
    | Decoding(ids: seq<Id>, items: seq<Item>)
    | Processing(items: seq<Item>)
    | Acking(item: Item, rest: seq<Item>)
    | Rejecting(item: Item, reason: string, rest: seq<Item>)

  datatype State = State(
    rows: Table,
    dispatched: set<(Id, string)>,    // rows whose message a bus dispatched with success
    jobs: map<WorkerId, Job>,
    now: Time)

  datatype Label =
    | Insert(id: Id, body: Body)
    | Get(w: WorkerId, locked: set<Id>, selected: seq<Id>, returned: seq<Id>)
    | Decode(w: WorkerId, ok: bool)
    | Dispatch(w: WorkerId, err: Option<string>)
    | Ack(w: WorkerId, ok: bool)
    | Reject(w: WorkerId, ok: bool)
    | Crash(w: WorkerId)
    | Tick(elapsed: nat)

  function Init(t0: Time): State {
    State(map[], {}, map[], t0)
  }

  /** The rows come back in any order. */
  ghost predicate Enabled(st: Settings, s: State, l: Label) {
    match l
    case Insert(id, body) => id !in s.rows
    case Get(w, locked, selected, returned) =>
      && w !in s.jobs
      && IsOldest(s.rows, Candidates(st, s.rows, s.now, locked), st.batchSize, selected)
      && Distinct(returned) && forall id :: id in returned <==> id in selected
    case Decode(w, ok) => w in s.jobs && s.jobs[w].Decoding?
    case Dispatch(w, err) => w in s.jobs && s.jobs[w].Processing? && s.jobs[w].items != []
    case Ack(w, ok) => w in s.jobs && s.jobs[w].Acking?
    case Reject(w, ok) => w in s.jobs && s.jobs[w].Rejecting?
    case Crash(w) => w in s.jobs
    case Tick(elapsed) => true
  }

  function Resume(jobs: map<WorkerId, Job>, w: WorkerId, items: seq<Item>): map<WorkerId, Job> {
    if items == [] then jobs - {w} else jobs[w := Processing(items)]
  }

  ghost function Apply(st: Settings, decode: Decoder, s: State, l: Label): State
    requires Enabled(st, s, l)
  {
    match l
    case Insert(id, body) => s.(rows := s.rows[id := NewRow(body)])
    case Get(w, locked, selected, returned) =>
      s.(rows := Taken(st, s.rows, selected, s.now), jobs := s.jobs[w := Decoding(returned, [])])
    case Decode(w, ok) =>
      var j := s.jobs[w];
      if j.ids == [] then s.(jobs := Resume(s.jobs, w, j.items))
      else
        var id := j.ids[0];
        if id !in s.rows then s.(jobs := s.jobs[w := Decoding(j.ids[1..], j.items)])
        else
          var env := decode(s.rows[id].body.payload);
          if env.None?
          then s.(rows := if ok then Retried(s.rows, id, "decode") else s.rows,
                  jobs := s.jobs[w := Decoding(j.ids[1..], j.items)])
          else s.(jobs := s.jobs[w := Decoding(j.ids[1..], j.items + [Item(Fetched(env.value, id), id)])])
    case Dispatch(w, err) =>
      var item, rest := s.jobs[w].items[0], s.jobs[w].items[1..];
      var stamped := item.(env := item.env.WithStamp(Received("outbox", s.now)));
      if err.None?
      then s.(dispatched := s.dispatched + {(item.from, item.env.message)}, jobs := s.jobs[w := Acking(stamped, rest)])
      else s.(jobs := s.jobs[w := Rejecting(stamped, err.value, rest)])
    case Ack(w, ok) =>
      var id := EntryId(s.jobs[w].item.env);
      s.(rows := if ok && id.Some? then Published(s.rows, id.value, s.now) else s.rows,
         jobs := Resume(s.jobs, w, s.jobs[w].rest))
    case Reject(w, ok) =>
      var id := EntryId(s.jobs[w].item.env);
      s.(rows := if ok && id.Some? then Retried(s.rows, id.value, s.jobs[w].reason) else s.rows,
         jobs := Resume(s.jobs, w, s.jobs[w].rest))
    case Crash(w) => s.(jobs := s.jobs - {w})
    case Tick(elapsed) => s.(now := s.now + elapsed)
  }

  ghost predicate Runs(st: Settings, decode: Decoder, s: State, ls: seq<Label>)
    decreases |ls|
  {
    ls == [] || (Enabled(st, s, ls[0]) && Runs(st, decode, Apply(st, decode, s, ls[0]), ls[1..]))
  }

  ghost function After(st: Settings, decode: Decoder, s: State, ls: seq<Label>): State
    requires Runs(st, decode, s, ls)
    decreases |ls|
  {
    if ls == [] then s else After(st, decode, Apply(st, decode, s, ls[0]), ls[1..])
  }

  ghost predicate Reachable(st: Settings, decode: Decoder, s: State) {
    exists t0, ls :: Runs(st, decode, Init(t0), ls) && After(st, decode, Init(t0), ls) == s
  }

  // ---------------------------------------------------------------- invariant

  function MessageOf(decode: Decoder, row: Row): Option<string> {
    var env := decode(row.body.payload);
    if env.Some? then Some(env.value.message) else None
  }

  /** The item's stamps lead back to its row, and it carries that row's message. */
  ghost predicate Genuine(decode: Decoder, t: Table, item: Item) {
    && item.from in t && EntryId(item.env) == Some(item.from)
    && MessageOf(decode, t[item.from]) == Some(item.env.message)
  }

  ghost predicate AllGenuine(decode: Decoder, t: Table, items: seq<Item>) {
    forall i :: 0 <= i < |items| ==> Genuine(decode, t, items[i])
  }

  ghost predicate JobSound(decode: Decoder, s: State, j: Job) {
    match j
    case Decoding(ids, items) => AllGenuine(decode, s.rows, items)
    case Processing(items) => AllGenuine(decode, s.rows, items)
    case Acking(item, rest) =>
      && Genuine(decode, s.rows, item) && AllGenuine(decode, s.rows, rest)
      && (item.from, item.env.message) in s.dispatched
    case Rejecting(item, reason, rest) => Genuine(decode, s.rows, item) && AllGenuine(decode, s.rows, rest)
  }

  /** A published row is one whose own message was dispatched with success. */
  predicate Earned(decode: Decoder, s: State, id: Id)
    requires id in s.rows
  {
    s.rows[id].publishedAt.Some? ==>
      MessageOf(decode, s.rows[id]).Some? && (id, MessageOf(decode, s.rows[id]).value) in s.dispatched
  }

  ghost predicate Inv(decode: Decoder, s: State) {
    && (forall w :: w in s.jobs ==> JobSound(decode, s, s.jobs[w]))
    && (forall id :: id in s.rows ==> Earned(decode, s, id))
  }

  /** Rows are never deleted, keep what was inserted, never lose a retry and stay published. */
  ghost predicate Persists(t: Table, t': Table) {
    forall id :: id in t ==>
      && id in t' && t'[id].body == t[id].body && t[id].retryCount <= t'[id].retryCount
      && (t[id].publishedAt.Some? ==> t'[id].publishedAt.Some?)
  }

  lemma StepPersists(st: Settings, decode: Decoder, s: State, l: Label)
    requires Enabled(st, s, l)
    ensures Persists(s.rows, Apply(st, decode, s, l).rows)
    ensures s.dispatched <= Apply(st, decode, s, l).dispatched
  {
  }

  lemma GenuinePersists(decode: Decoder, t: Table, t': Table, items: seq<Item>)
    requires Persists(t, t') && AllGenuine(decode, t, items)
    ensures AllGenuine(decode, t', items)
  {
    forall i | 0 <= i < |items| ensures Genuine(decode, t', items[i]) {
      assert Genuine(decode, t, items[i]);
    }
  }

  lemma JobPersists(decode: Decoder, s: State, s': State, j: Job)
    requires Persists(s.rows, s'.rows) && s.dispatched <= s'.dispatched && JobSound(decode, s, j)
    ensures JobSound(decode, s', j)
  {
    match j
    case Decoding(_, items) => GenuinePersists(decode, s.rows, s'.rows, items);
    case Processing(items) => GenuinePersists(decode, s.rows, s'.rows, items);
    case Acking(item, rest) => GenuinePersists(decode, s.rows, s'.rows, rest);
    case Rejecting(item, _, rest) => GenuinePersists(decode, s.rows, s'.rows, rest);
  }

  /** The worker that moves keeps hold of genuine items only. */
  lemma OwnJobSound(st: Settings, decode: Decoder, s: State, l: Label, w: WorkerId)
    requires Inv(decode, s) && Enabled(st, s, l)
    requires l.Get? || l.Decode? || l.Dispatch? || l.Ack? || l.Reject?
    requires w == l.w && w in Apply(st, decode, s, l).jobs
    ensures JobSound(decode, Apply(st, decode, s, l), Apply(st, decode, s, l).jobs[w])
  {
    StepPersists(st, decode, s, l);
    var s' := Apply(st, decode, s, l);
    if !l.Get? {
      assert JobSound(decode, s, s.jobs[w]);
      JobPersists(decode, s, s', s.jobs[w]);
    }
    match l
    case Decode(_, _) =>
      if s.jobs[w].ids != [] {
        var id := s.jobs[w].ids[0];
        if id in s.rows && decode(s.rows[id].body.payload).Some? {
          LeadsBack(decode(s.rows[id].body.payload).value, id, "outbox", s.now);
        }
      }
    case Dispatch(_, _) =>
      var item := s.jobs[w].items[0];
      assert Genuine(decode, s.rows, item);
      NamesDiffer();
      LastAfterStamp(item.env, Received("outbox", s.now), NAME_OUTBOX_ID);
    case _ =>
  }

  lemma RowStaysEarned(st: Settings, decode: Decoder, s: State, l: Label, id: Id)
    requires Enabled(st, s, l) && id in Apply(st, decode, s, l).rows
    requires id in s.rows ==> Earned(decode, s, id)
    requires l.Ack? ==> JobSound(decode, s, s.jobs[l.w])
    ensures Earned(decode, Apply(st, decode, s, l), id)
  {
    StepPersists(st, decode, s, l);
  }

  lemma StepKeepsInv(st: Settings, decode: Decoder, s: State, l: Label)
    requires Inv(decode, s) && Enabled(st, s, l)
    ensures Inv(decode, Apply(st, decode, s, l))
  {
    StepPersists(st, decode, s, l);
    var s' := Apply(st, decode, s, l);
    forall w | w in s'.jobs ensures JobSound(decode, s', s'.jobs[w]) {
      if w in s.jobs && s'.jobs[w] == s.jobs[w] {
        assert JobSound(decode, s, s.jobs[w]);
        JobPersists(decode, s, s', s.jobs[w]);
      } else {
        OwnJobSound(st, decode, s, l, w);
      }
    }
    forall id | id in s'.rows ensures Earned(decode, s', id) {
      RowStaysEarned(st, decode, s, l, id);
    }
  }

  lemma {:induction false} RunKeepsInv(st: Settings, decode: Decoder, s: State, ls: seq<Label>)
    requires Inv(decode, s) && Runs(st, decode, s, ls)
    ensures Inv(decode, After(st, decode, s, ls)) && Persists(s.rows, After(st, decode, s, ls).rows)
    decreases |ls|
  {
    if ls != [] {
      StepKeepsInv(st, decode, s, ls[0]);
      StepPersists(st, decode, s, ls[0]);
      RunKeepsInv(st, decode, Apply(st, decode, s, ls[0]), ls[1..]);
    }
  }

  lemma ReachableInv(st: Settings, decode: Decoder, s: State)
    requires Reachable(st, decode, s)
    ensures Inv(decode, s)
  {
    var t0, ls :| Runs(st, decode, Init(t0), ls) && After(st, decode, Init(t0), ls) == s;
    RunKeepsInv(st, decode, Init(t0), ls);
  }

  // ---------------------------------------------------------------- guarantees

  /** `published_at` is only ever set after a dispatch of the row's own message returned nil. */
  lemma PublishedOnlyAfterDispatch(st: Settings, decode: Decoder, s: State, id: Id)
    requires Reachable(st, decode, s) && id in s.rows && s.rows[id].publishedAt.Some?
    ensures MessageOf(decode, s.rows[id]).Some?
    ensures (id, MessageOf(decode, s.rows[id]).value) in s.dispatched
  {
    ReachableInv(st, decode, s);
    assert Earned(decode, s, id);
  }

  /** No run deletes a row or changes what was inserted. */
  lemma RowsAreNeverDeleted(st: Settings, decode: Decoder, s: State, ls: seq<Label>, id: Id)
    requires Reachable(st, decode, s) && Runs(st, decode, s, ls) && id in s.rows
    ensures id in After(st, decode, s, ls).rows
    ensures After(st, decode, s, ls).rows[id].body == s.rows[id].body
  {
    ReachableInv(st, decode, s);
    RunKeepsInv(st, decode, s, ls);
  }

  /** Once a row has reached the retry limit no worker is ever given it again. */
  lemma ExhaustedIsNeverReturned(st: Settings, decode: Decoder, s: State, ls: seq<Label>, l: Label, id: Id)
    requires Reachable(st, decode, s) && id in s.rows && s.rows[id].retryCount >= st.maxRetries
    requires Runs(st, decode, s, ls) && l.Get? && Enabled(st, After(st, decode, s, ls), l)
    ensures id !in l.returned
  {
    ReachableInv(st, decode, s);
    RunKeepsInv(st, decode, s, ls);
    var t := After(st, decode, s, ls);
    assert forall i :: 0 <= i < |l.selected| ==> l.selected[i] in Candidates(st, t.rows, t.now, l.locked);
  }

  /** An acknowledgement or a rejection touches the row its envelope came from and no other. */
  lemma SettlesOwnRow(st: Settings, decode: Decoder, s: State, l: Label, id: Id)
    requires Reachable(st, decode, s) && Enabled(st, s, l) && (l.Ack? || l.Reject?) && id in s.rows
    ensures var from := s.jobs[l.w].item.from;
            var row := Apply(st, decode, s, l).rows[id];
            && from in s.rows
            && (id != from || !l.ok ==> row == s.rows[id])
            && (id == from && l.ok && l.Ack? ==> row.publishedAt == Some(s.now) && row.claimedAt == None
                                                 && row.retryCount == s.rows[id].retryCount)
            && (id == from && l.ok && l.Reject? ==> row.retryCount == s.rows[id].retryCount + 1 && row.claimedAt == None
                                                    && row.publishedAt == s.rows[id].publishedAt)
  {
    ReachableInv(st, decode, s);
    assert JobSound(decode, s, s.jobs[l.w]);
  }

  /** Once a row is published no worker is ever given it again. */
  lemma PublishedIsNeverReturned(st: Settings, decode: Decoder, s: State, ls: seq<Label>, l: Label, id: Id)
    requires Reachable(st, decode, s) && id in s.rows && s.rows[id].publishedAt.Some?
    requires Runs(st, decode, s, ls) && l.Get? && Enabled(st, After(st, decode, s, ls), l)
    ensures id !in l.returned
  {
    ReachableInv(st, decode, s);
    RunKeepsInv(st, decode, s, ls);
    var t := After(st, decode, s, ls);
    QueryExactly(st, t.rows, t.now, l.locked, l.selected, id);
  }

  /** A free, unpublished row under the retry limit is given to the next worker that asks and has room. */
  lemma WaitingIsReturned(st: Settings, decode: Decoder, s: State, l: Label, id: Id)
    requires l.Get? && Enabled(st, s, l) && |l.selected| < st.batchSize
    requires id in s.rows && s.rows[id].publishedAt == None && s.rows[id].retryCount < st.maxRetries
    requires st.claimTimeout <= 0
             || (id !in l.locked && (s.rows[id].claimedAt == None
                 || s.now - s.rows[id].claimedAt.value > st.claimTimeout / 1_000_000_000 * 1_000_000_000))
    ensures id in l.returned
    ensures st.claimTimeout > 0 ==> Apply(st, decode, s, l).rows[id].claimedAt == Some(s.now)
  {
    QueryExactly(st, s.rows, s.now, l.locked, l.selected, id);
  }

  /** The step acknowledges, rejects or retries the row. */
  predicate Settles(decode: Decoder, s: State, l: Label, id: Id) {
    || ((l.Ack? || l.Reject?) && l.ok && l.w in s.jobs && (s.jobs[l.w].Acking? || s.jobs[l.w].Rejecting?)
        && EntryId(s.jobs[l.w].item.env) == Some(id))
    || (l.Decode? && l.ok && l.w in s.jobs && s.jobs[l.w].Decoding? && s.jobs[l.w].ids != [] && s.jobs[l.w].ids[0] == id)
  }

  ghost predicate Unsettled(st: Settings, decode: Decoder, s: State, ls: seq<Label>, id: Id)
    requires Runs(st, decode, s, ls)
    decreases |ls|
  {
    ls == [] || (!Settles(decode, s, ls[0], id) && Unsettled(st, decode, Apply(st, decode, s, ls[0]), ls[1..], id))
  }

  predicate ClaimedSince(s: State, id: Id, t: Time) {
    id in s.rows && t <= s.now && s.rows[id].claimedAt.Some? && t <= s.rows[id].claimedAt.value
  }

  lemma StepKeepsClaim(st: Settings, decode: Decoder, s: State, l: Label, id: Id, t: Time)
    requires Enabled(st, s, l) && ClaimedSince(s, id, t) && !Settles(decode, s, l, id)
    ensures ClaimedSince(Apply(st, decode, s, l), id, t)
  {
  }

  lemma {:induction false} RunKeepsClaim(st: Settings, decode: Decoder, s: State, ls: seq<Label>, id: Id, t: Time)
    requires Runs(st, decode, s, ls) && Unsettled(st, decode, s, ls, id) && ClaimedSince(s, id, t)
    ensures ClaimedSince(After(st, decode, s, ls), id, t)
    decreases |ls|
  {
    if ls != [] {
      StepKeepsClaim(st, decode, s, ls[0], id, t);
      RunKeepsClaim(st, decode, Apply(st, decode, s, ls[0]), ls[1..], id, t);
    }
  }

  /**
   Two workers are given one row, with no acknowledgement, rejection or retry of it in between, only further apart
   than the claim timeout in whole seconds.
   */
  lemma ClaimSpacing(st: Settings, decode: Decoder, s: State, first: Label, between: seq<Label>, second: Label, id: Id)
    requires st.claimTimeout > 0 && Enabled(st, s, first) && first.Get? && second.Get?
    requires id in first.returned && id in second.returned
    requires Runs(st, decode, Apply(st, decode, s, first), between)
    requires Unsettled(st, decode, Apply(st, decode, s, first), between, id)
    requires Enabled(st, After(st, decode, Apply(st, decode, s, first), between), second)
    ensures After(st, decode, Apply(st, decode, s, first), between).now
            > s.now + st.claimTimeout / 1_000_000_000 * 1_000_000_000
  {
    var s1 := Apply(st, decode, s, first);
    QueryExactly(st, s.rows, s.now, first.locked, first.selected, id);
    assert ClaimedSince(s1, id, s.now);
    RunKeepsClaim(st, decode, s1, between, id, s.now);
    var s2 := After(st, decode, s1, between);
    QueryExactly(st, s2.rows, s2.now, second.locked, second.selected, id);
  }
}

/** What one worker does when nothing interrupts it: the calls of the transport are runs of the machine. */
module MessengerCalls {
  import opened Prelude
  import opened OutboxTable
  import opened Envelopes
  import opened OutboxTransport
  import opened MessengerRelay

  lemma {:induction false} RunsConcat(st: Settings, decode: Decoder, s: State, a: seq<Label>, b: seq<Label>)
    requires Runs(st, decode, s, a) && Runs(st, decode, After(st, decode, s, a), b)
    ensures Runs(st, decode, s, a + b) && After(st, decode, s, a + b) == After(st, decode, After(st, decode, s, a), b)
    decreases |a|
  {
    if a == [] {
      assert a + b == b;
    } else {
      RunsConcat(st, decode, Apply(st, decode, s, a[0]), a[1..], b);
      assert (a + b)[1..] == a[1..] + b;
    }
  }

  lemma OneStep(st: Settings, decode: Decoder, s: State, l: Label)
    requires Enabled(st, s, l)
    ensures Runs(st, decode, s, [l]) && After(st, decode, s, [l]) == Apply(st, decode, s, l)
  {
    assert [l][1..] == [];
  }

  // ---------------------------------------------------------------- one message

  function MessageLabels(w: WorkerId, err: Option<string>): seq<Label> {
    [Dispatch(w, err)] + [if err.None? then Ack(w, true) else Reject(w, true)]
  }

  /** The row after its message was dispatched with this outcome. */
  function SettledRow(row: Row, err: Option<string>, now: Time): Row {
    if err.None? then Row(row.body, None, row.token, Some(now), row.retryCount, row.lastError)
    else Row(row.body, None, row.token, row.publishedAt, row.retryCount + 1, err.value)
  }

  /** A message is dispatched, its row settled as the outcome says, and the rest of the batch is up next. */
  lemma MessageIsRun(st: Settings, decode: Decoder, s: State, w: WorkerId, err: Option<string>)
    requires w in s.jobs && s.jobs[w].Processing? && s.jobs[w].items != []
    requires var item := s.jobs[w].items[0]; EntryId(item.env) == Some(item.from) && item.from in s.rows
    ensures var ls, item, rest := MessageLabels(w, err), s.jobs[w].items[0], s.jobs[w].items[1..];
            && Runs(st, decode, s, ls)
            && var s' := After(st, decode, s, ls);
            && s'.rows == s.rows[item.from := SettledRow(s.rows[item.from], err, s.now)]
            && s'.jobs == (if rest == [] then s.jobs - {w} else s.jobs[w := Processing(rest)])
            && s'.dispatched == (if err.None? then s.dispatched + {(item.from, item.env.message)} else s.dispatched)
            && s'.now == s.now
  {
    var item := s.jobs[w].items[0];
    NamesDiffer();
    LastAfterStamp(item.env, Received("outbox", s.now), NAME_OUTBOX_ID);
    var first, second := Dispatch(w, err), if err.None? then Ack(w, true) else Reject(w, true);
    var s1 := Apply(st, decode, s, first);
    OneStep(st, decode, s, first);
    OneStep(st, decode, s1, second);
    RunsConcat(st, decode, s, [first], [second]);
  }

  // ---------------------------------------------------------------- a batch

  function BatchLabels(w: WorkerId, items: seq<Item>, outcome: Id -> Option<string>): seq<Label> {
    if items == [] then [] else MessageLabels(w, outcome(items[0].from)) + BatchLabels(w, items[1..], outcome)
  }

  predicate From(items: seq<Item>, id: Id) {
    exists i :: 0 <= i < |items| && items[i].from == id
  }

  ghost predicate LeadBack(s: State, items: seq<Item>) {
    && (forall i :: 0 <= i < |items| ==> EntryId(items[i].env) == Some(items[i].from) && items[i].from in s.rows)
    && (forall i, j :: 0 <= i < j < |items| ==> items[i].from != items[j].from)
  }

  /** Exactly the rows of the items are settled, each by its own outcome. */
  ghost predicate AllSettled(t: Table, t': Table, items: seq<Item>, outcome: Id -> Option<string>, now: Time) {
    && t'.Keys == t.Keys
    && forall id :: id in t ==> t'[id] == if From(items, id) then SettledRow(t[id], outcome(id), now) else t[id]
  }

  /** Every message of a batch is dispatched and every row it came from settled, each by its own outcome. */
  lemma {:induction false} BatchIsRun(st: Settings, decode: Decoder, s: State, w: WorkerId, items: seq<Item>,
                                      outcome: Id -> Option<string>)
    requires if items == [] then w !in s.jobs else w in s.jobs && s.jobs[w] == Processing(items)
    requires LeadBack(s, items)
    ensures var ls := BatchLabels(w, items, outcome);
            && Runs(st, decode, s, ls)
            && var s' := After(st, decode, s, ls);
            s'.jobs == s.jobs - {w} && AllSettled(s.rows, s'.rows, items, outcome, s.now)
    decreases |items|
  {
    if items != [] {
      var err, rest := outcome(items[0].from), items[1..];
      MessageIsRun(st, decode, s, w, err);
      var s1 := After(st, decode, s, MessageLabels(w, err));
      RestLeadsBack(s, s1, items);
      BatchIsRun(st, decode, s1, w, rest, outcome);
      RunsConcat(st, decode, s, MessageLabels(w, err), BatchLabels(w, rest, outcome));
      FirstThenRest(s.rows, s1.rows, After(st, decode, s1, BatchLabels(w, rest, outcome)).rows, items, outcome, s.now);
    }
  }

  lemma RestLeadsBack(s: State, s1: State, items: seq<Item>)
    requires items != [] && LeadBack(s, items) && s1.rows.Keys == s.rows.Keys
    ensures LeadBack(s1, items[1..])
  {
    assert forall i :: 0 <= i < |items[1..]| ==> items[1..][i] == items[i + 1];
  }

  lemma FirstThenRest(t: Table, t1: Table, t2: Table, items: seq<Item>, outcome: Id -> Option<string>, now: Time)
    requires items != [] && items[0].from in t && (forall i :: 0 < i < |items| ==> items[i].from != items[0].from)
    requires t1 == t[items[0].from := SettledRow(t[items[0].from], outcome(items[0].from), now)]
    requires AllSettled(t1, t2, items[1..], outcome, now)
    ensures AllSettled(t, t2, items, outcome, now)
  {
    assert !From(items[1..], items[0].from) by {
      assert forall i :: 0 <= i < |items[1..]| ==> items[1..][i] == items[i + 1];
    }
    forall id | id in t
      ensures t2[id] == if From(items, id) then SettledRow(t[id], outcome(id), now) else t[id]
    {
      FromFirst(items, id);
    }
  }

  lemma FromFirst(items: seq<Item>, id: Id)
    requires items != []
    ensures From(items, id) <==> id == items[0].from || From(items[1..], id)
  {
    if i :| 0 <= i < |items| && items[i].from == id {
      assert i == 0 || items[1..][i - 1].from == id;
    }
  }

  // ---------------------------------------------------------------- a Get

  function DecodeLabels(w: WorkerId, ids: seq<Id>, retryOk: Id -> bool): seq<Label> {
    if ids == [] then [] else DecodeLabels(w, ids[..|ids| - 1], retryOk) + [Decode(w, retryOk(ids[|ids| - 1]))]
  }

  /** The envelopes of the rows that decode, each with its row. */
  function ItemsOf(decode: Decoder, t: Table, ids: seq<Id>): seq<Item> {
    if ids == [] then []
    else
      var id := ids[|ids| - 1];
      ItemsOf(decode, t, ids[..|ids| - 1])
      + if id in t && decode(t[id].body.payload).Some? then [Item(Fetched(decode(t[id].body.payload).value, id), id)] else []
  }

  function Envs(items: seq<Item>): seq<Envelope> {
    seq(|items|, i requires 0 <= i < |items| => items[i].env)
  }

  lemma {:induction false} ItemsAreDecodable(decode: Decoder, t: Table, ids: seq<Id>)
    ensures Envs(ItemsOf(decode, t, ids)) == Decodable(decode, t, ids)
  {
    if ids != [] { ItemsAreDecodable(decode, t, ids[..|ids| - 1]); }
  }

  lemma {:induction false} DecodesRun(st: Settings, decode: Decoder, s: State, w: WorkerId, ids: seq<Id>, k: nat,
                                      retryOk: Id -> bool)
    requires w in s.jobs && s.jobs[w] == Decoding(ids, []) && k <= |ids|
    requires forall i :: 0 <= i < |ids| ==> ids[i] in s.rows
    ensures var ls := DecodeLabels(w, ids[..k], retryOk);
            && Runs(st, decode, s, ls)
            && After(st, decode, s, ls) ==
               s.(rows := Undecodable(decode, s.rows, ids[..k], retryOk),
                  jobs := s.jobs[w := Decoding(ids[k..], ItemsOf(decode, s.rows, ids[..k]))])
    decreases k
  {
    if k == 0 {
      assert ids[..k] == [] && ids[k..] == ids;
      assert s.jobs[w := Decoding(ids, [])] == s.jobs;
    } else {
      var front := ids[..k - 1];
      DecodesRun(st, decode, s, w, ids, k - 1, retryOk);
      assert ids[..k][..k - 1] == front && ids[k - 1..][1..] == ids[k..];
      UndecodableKeepsBodies(decode, s.rows, front, retryOk);
      var s1 := After(st, decode, s, DecodeLabels(w, front, retryOk));
      var l := Decode(w, retryOk(ids[k - 1]));
      OneStep(st, decode, s1, l);
      RunsConcat(st, decode, s, DecodeLabels(w, front, retryOk), [l]);
      DecodeStep(decode, st, s, s1, w, ids, k, retryOk);
    }
  }

  lemma DecodeStep(decode: Decoder, st: Settings, s: State, s1: State, w: WorkerId, ids: seq<Id>, k: nat, retryOk: Id -> bool)
    requires 0 < k <= |ids| && ids[k - 1] in s.rows
    requires s1 == s.(rows := Undecodable(decode, s.rows, ids[..k - 1], retryOk),
                      jobs := s.jobs[w := Decoding(ids[k - 1..], ItemsOf(decode, s.rows, ids[..k - 1]))])
    requires ids[k - 1] in s1.rows && s1.rows[ids[k - 1]].body == s.rows[ids[k - 1]].body
    ensures Enabled(st, s1, Decode(w, retryOk(ids[k - 1])))
    ensures Apply(st, decode, s1, Decode(w, retryOk(ids[k - 1]))) ==
            s.(rows := Undecodable(decode, s.rows, ids[..k], retryOk),
               jobs := s.jobs[w := Decoding(ids[k..], ItemsOf(decode, s.rows, ids[..k]))])
  {
    var id := ids[k - 1];
    OneMore(decode, s.rows, ids, k, retryOk);
    assert ids[k - 1..][1..] == ids[k..] && ids[k - 1..][0] == id;
    var s2 := Apply(st, decode, s1, Decode(w, retryOk(id)));
    assert s1.jobs[w].ids[0] == id;
    assert s2.jobs[w] == Decoding(ids[k..], ItemsOf(decode, s.rows, ids[..k]));
    assert s2.jobs == s.jobs[w := s2.jobs[w]];
  }

  lemma OneMore(decode: Decoder, t: Table, ids: seq<Id>, k: nat, retryOk: Id -> bool)
    requires 0 < k <= |ids| && ids[k - 1] in t
    ensures var id, front := ids[k - 1], ids[..k - 1];
            var env := decode(t[id].body.payload);
            && ItemsOf(decode, t, ids[..k]) ==
               ItemsOf(decode, t, front) + (if env.Some? then [Item(Fetched(env.value, id), id)] else [])
            && Undecodable(decode, t, ids[..k], retryOk) ==
               if env.None? && retryOk(id) then Retried(Undecodable(decode, t, front, retryOk), id, "decode")
               else Undecodable(decode, t, front, retryOk)
  {
    assert ids[..k] != [] && ids[..k][|ids[..k]| - 1] == ids[k - 1] && ids[..k][..|ids[..k]| - 1] == ids[..k - 1];
  }

  /**
   A Get that nothing interrupts leaves the worker with the envelopes that the call returns, in its order,
   and the table as the call leaves it.
   */
  lemma GetIsRun(st: Settings, decode: Decoder, s: State, w: WorkerId, locked: set<Id>, selected: seq<Id>,
                 returned: seq<Id>, retryOk: Id -> bool)
    requires Enabled(st, s, Get(w, locked, selected, returned))
    ensures var ls := [Get(w, locked, selected, returned)] + DecodeLabels(w, returned, retryOk) + [Decode(w, true)];
            var t := Taken(st, s.rows, returned, s.now);
            && Runs(st, decode, s, ls)
            && var s' := After(st, decode, s, ls);
            && s'.rows == Undecodable(decode, t, returned, retryOk)
            && (Decodable(decode, t, returned) == [] ==> s'.jobs == s.jobs)
            && (Decodable(decode, t, returned) != [] ==>
                  && w in s'.jobs && s'.jobs[w].Processing? && Envs(s'.jobs[w].items) == Decodable(decode, t, returned)
                  && s'.jobs - {w} == s.jobs)
  {
    var get := Get(w, locked, selected, returned);
    var t := Taken(st, s.rows, returned, s.now);
    var s1 := Apply(st, decode, s, get);
    assert s1.rows == t && s1.jobs == s.jobs[w := Decoding(returned, [])];
    forall i | 0 <= i < |returned| ensures returned[i] in s.rows {
      QueryExactly(st, s.rows, s.now, locked, selected, returned[i]);
    }
    OneStep(st, decode, s, get);
    AllDecoded(st, decode, s1, w, returned, retryOk);
    RunsConcat(st, decode, s, [get], DecodeLabels(w, returned, retryOk) + [Decode(w, true)]);
    assert [get] + DecodeLabels(w, returned, retryOk) + [Decode(w, true)]
        == [get] + (DecodeLabels(w, returned, retryOk) + [Decode(w, true)]);
  }

  lemma AllDecoded(st: Settings, decode: Decoder, s: State, w: WorkerId, ids: seq<Id>, retryOk: Id -> bool)
    requires w in s.jobs && s.jobs[w] == Decoding(ids, [])
    requires forall i :: 0 <= i < |ids| ==> ids[i] in s.rows
    ensures var ls := DecodeLabels(w, ids, retryOk) + [Decode(w, true)];
            && Runs(st, decode, s, ls)
            && var s' := After(st, decode, s, ls);
            && s'.rows == Undecodable(decode, s.rows, ids, retryOk)
            && (Decodable(decode, s.rows, ids) == [] ==> s'.jobs == s.jobs - {w})
            && (Decodable(decode, s.rows, ids) != [] ==>
                  && w in s'.jobs && s'.jobs[w].Processing? && Envs(s'.jobs[w].items) == Decodable(decode, s.rows, ids)
                  && s'.jobs - {w} == s.jobs - {w})
  {
    var ls, last := DecodeLabels(w, ids, retryOk), Decode(w, true);
    assert ids[..|ids|] == ids && ids[|ids|..] == [];
    DecodesRun(st, decode, s, w, ids, |ids|, retryOk);
    var s1 := After(st, decode, s, ls);
    OneStep(st, decode, s1, last);
    RunsConcat(st, decode, s, ls, [last]);
    ItemsAreDecodable(decode, s.rows, ids);
  }
}
