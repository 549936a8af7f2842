/**
 The `outbox_events` table and the statements the relay runs on it
 (infra/events/outbox/store.go). Each statement is a function on the table; the
 class `Store` carries them out in place, one row at a time.
 */
module OutboxTable {
  import opened Prelude

  type Id = string

  /** A lease token. The source draws 128 random bits; only freshness matters. */
  type Token = nat

  /** Instants and durations in nanoseconds. */
  type Time = int

  const LEASE_TIMEOUT: Time := 300_000_000_000
  const CLEANUP_BATCH_LIMIT: nat := 10_000

  datatype Metadata = Metadata(traceId: string, correlationId: string, causationId: string, source: string)

  /** The columns written at insertion and never updated. */
  datatype Body = Body(aggregateType: string, aggregateId: string, eventType: string,
                       payload: string, metadata: Metadata, createdAt: Time)

  datatype Row = Row(body: Body, claimedAt: Option<Time>, token: Option<Token>,
                     publishedAt: Option<Time>, retryCount: nat, lastError: string)

  type Table = map<Id, Row>

  /** What a worker reads when it claims a row. */
  datatype Entry = Entry(id: Id, body: Body, token: Token, retryCount: nat, lastError: string)

  datatype ReleaseEntry = ReleaseEntry(id: Id, lastError: string)

  function NewRow(body: Body): Row {
    Row(body, None, None, None, 0, "")
  }

  /** Unpublished, and unclaimed or claimed longer ago than the lease. */
  predicate Eligible(row: Row, now: Time) {
    row.publishedAt.None? && (row.claimedAt.None? || row.claimedAt.value < now - LEASE_TIMEOUT)
  }

  predicate Pickable(t: Table, now: Time, locked: set<Id>, id: Id) {
    id in t && id !in locked && Eligible(t[id], now)
  }

  /**
   What `SELECT .. ORDER BY created_at LIMIT n FOR UPDATE SKIP LOCKED` may return while other
   transactions hold the rows in `locked`: the oldest pickable rows, oldest first.
   */
  ghost predicate IsSelection(t: Table, now: Time, locked: set<Id>, limit: nat, ids: seq<Id>) {
    && Distinct(ids)
    && |ids| <= limit
    && (forall i :: 0 <= i < |ids| ==> Pickable(t, now, locked, ids[i]))
    && (forall i, j :: 0 <= i < j < |ids| ==> t[ids[i]].body.createdAt <= t[ids[j]].body.createdAt)
    && (forall id, i :: Pickable(t, now, locked, id) && id !in ids && 0 <= i < |ids| ==>
          t[ids[i]].body.createdAt <= t[id].body.createdAt)
    && (|ids| < limit ==> forall id :: Pickable(t, now, locked, id) ==> id in ids)
  }

  function Claimed(t: Table, ids: seq<Id>, token: Token, now: Time): Table {
    map id | id in t :: if id in ids then t[id].(claimedAt := Some(now), token := Some(token)) else t[id]
  }

  function MarkedPublished(t: Table, ids: seq<Id>, token: Token, now: Time): Table {
    map id | id in t ::
      if id in ids && t[id].token == Some(token) then t[id].(publishedAt := Some(now)) else t[id]
  }

  function ReleasedRow(row: Row, lastError: string): Row {
    row.(claimedAt := None, token := None, retryCount := row.retryCount + 1, lastError := lastError)
  }

  function ReleaseIds(entries: seq<ReleaseEntry>): seq<Id> {
    seq(|entries|, i requires 0 <= i < |entries| => entries[i].id)
  }

  /** The error recorded for `id`, when it is one of the released rows. */
  function ErrorFor(entries: seq<ReleaseEntry>, id: Id): Option<string> {
    if entries == [] then None
    else if entries[0].id == id then Some(entries[0].lastError)
    else ErrorFor(entries[1..], id)
  }

  /** Neither the lease token nor `published_at` is looked at. */
  function Released(t: Table, entries: seq<ReleaseEntry>): Table {
    map id | id in t ::
      var e := ErrorFor(entries, id);
      if e.Some? then ReleasedRow(t[id], e.value) else t[id]
  }

  predicate Stale(row: Row, cutoff: Time) {
    row.publishedAt.Some? && row.publishedAt.value < cutoff
  }

  function Snapshot(t: Table, id: Id, token: Token): Entry
    requires id in t
  {
    Entry(id, t[id].body, token, t[id].retryCount, t[id].lastError)
  }

  function EntryIds(entries: seq<Entry>): seq<Id> {
    seq(|entries|, i requires 0 <= i < |entries| => entries[i].id)
  }

  ghost predicate IsSnapshot(t: Table, entries: seq<Entry>, token: Token) {
    forall i :: 0 <= i < |entries| ==> entries[i].id in t && entries[i] == Snapshot(t, entries[i].id, token)
  }

  lemma {:induction false} ErrorForMember(entries: seq<ReleaseEntry>, id: Id)
    ensures ErrorFor(entries, id).Some? <==> id in ReleaseIds(entries)
  {
    if entries != [] {
      ErrorForMember(entries[1..], id);
      assert ReleaseIds(entries) == [entries[0].id] + ReleaseIds(entries[1..]);
    }
  }

  lemma {:induction false} ErrorForAt(entries: seq<ReleaseEntry>, k: nat)
    requires k < |entries| && Distinct(ReleaseIds(entries))
    ensures ErrorFor(entries, entries[k].id) == Some(entries[k].lastError)
  {
    if k > 0 {
      assert ReleaseIds(entries)[0] != ReleaseIds(entries)[k];
      forall i, j | 0 <= i < j < |entries| - 1
        ensures ReleaseIds(entries[1..])[i] != ReleaseIds(entries[1..])[j]
      {
        assert ReleaseIds(entries)[i + 1] != ReleaseIds(entries)[j + 1];
      }
      ErrorForAt(entries[1..], k - 1);
    }
  }

  lemma {:induction false} ErrorForSnoc(entries: seq<ReleaseEntry>, e: ReleaseEntry, id: Id)
    requires e.id !in ReleaseIds(entries)
    ensures ErrorFor(entries + [e], id) == if id == e.id then Some(e.lastError) else ErrorFor(entries, id)
  {
    if entries != [] {
      assert ReleaseIds(entries) == [entries[0].id] + ReleaseIds(entries[1..]);
      assert (entries + [e])[1..] == entries[1..] + [e];
      ErrorForSnoc(entries[1..], e, id);
    }
  }

  /** A non-empty finite set of rows has an oldest one. */
  lemma {:induction false} OldestExists(t: Table, ids: set<Id>)
    requires ids != {} && ids <= t.Keys
    ensures exists id :: id in ids && forall o :: o in ids ==> t[id].body.createdAt <= t[o].body.createdAt
    decreases |ids|
  {
    var x :| x in ids;
    var rest := ids - {x};
    if rest == {} {
      assert forall o :: o in ids ==> o == x || o in rest;
    } else {
      OldestExists(t, rest);
      var y :| y in rest && forall o :: o in rest ==> t[y].body.createdAt <= t[o].body.createdAt;
      var m := if t[x].body.createdAt <= t[y].body.createdAt then x else y;
      assert forall o :: o in ids ==> o == x || o in rest;
      assert m in ids && forall o :: o in ids ==> t[m].body.createdAt <= t[o].body.createdAt;
    }
  }

  /** `ids` are the oldest of the rows in `from`, oldest first, as many as the limit allows. */
  ghost predicate IsOldest(t: Table, from: set<Id>, limit: nat, ids: seq<Id>) {
    && from <= t.Keys && Distinct(ids) && |ids| <= limit
    && (forall i :: 0 <= i < |ids| ==> ids[i] in from)
    && (forall i, j :: 0 <= i < j < |ids| ==> t[ids[i]].body.createdAt <= t[ids[j]].body.createdAt)
    && (forall id, i :: id in from && id !in ids && 0 <= i < |ids| ==>
          t[ids[i]].body.createdAt <= t[id].body.createdAt)
    && (|ids| < limit ==> forall id :: id in from ==> id in ids)
  }

  /** `ids` are distinct rows of `from`, oldest first, and `left` are the others, none of them older. */
  ghost predicate Picked(t: Table, from: set<Id>, left: set<Id>, ids: seq<Id>)
    requires from <= t.Keys
  {
    && left <= from && Distinct(ids)
    && (forall id :: id in left <==> id in from && id !in ids)
    && (forall i :: 0 <= i < |ids| ==> ids[i] in from)
    && (forall i, j :: 0 <= i < j < |ids| ==> t[ids[i]].body.createdAt <= t[ids[j]].body.createdAt)
    && (forall id, i :: id in left && 0 <= i < |ids| ==> t[ids[i]].body.createdAt <= t[id].body.createdAt)
  }

  lemma PickOldest(t: Table, from: set<Id>, left: set<Id>, ids: seq<Id>, id: Id)
    requires from <= t.Keys && Picked(t, from, left, ids) && id in left
    requires forall o :: o in left ==> t[id].body.createdAt <= t[o].body.createdAt
    ensures Picked(t, from, left - {id}, ids + [id])
  {
  }

  /**
   Which rows a claim takes: only unlocked, unpublished ones that are unclaimed or were claimed more than five
   minutes ago; and such a row is passed over only by a full batch of rows none of which is younger.
   */
  lemma SelectionExactly(t: Table, now: Time, locked: set<Id>, limit: nat, ids: seq<Id>, id: Id)
    requires IsSelection(t, now, locked, limit, ids)
    ensures id in ids ==>
              && id in t && id !in locked && t[id].publishedAt == None
              && (t[id].claimedAt == None || now - t[id].claimedAt.value > 300_000_000_000)
    ensures && id in t && id !in locked && t[id].publishedAt == None
            && (t[id].claimedAt == None || now - t[id].claimedAt.value > 300_000_000_000)
            && id !in ids
            ==> |ids| == limit && forall i :: 0 <= i < |ids| ==> t[ids[i]].body.createdAt <= t[id].body.createdAt
  {
    if id in ids {
      var i :| 0 <= i < |ids| && ids[i] == id;
      assert Pickable(t, now, locked, ids[i]);
    } else if id in t {
      assert Pickable(t, now, locked, id) <==> id !in locked && Eligible(t[id], now);
    }
  }

  /** Repeatedly takes the oldest row left, as an ordered, limited select does. */
  method SelectOldest(t: Table, from: set<Id>, limit: nat) returns (ids: seq<Id>)
    requires from <= t.Keys
    ensures IsOldest(t, from, limit, ids)
  {
    ids := [];
    var left := from;
    while |ids| < limit && left != {}
      invariant |ids| <= limit && left <= from && Picked(t, from, left, ids)
      decreases |left|
    {
      OldestExists(t, left);
      var id :| id in left && forall o :: o in left ==> t[id].body.createdAt <= t[o].body.createdAt;
      PickOldest(t, from, left, ids, id);
      ids := ids + [id];
      left := left - {id};
    }
  }

  method SelectForUpdate(t: Table, now: Time, locked: set<Id>, limit: nat) returns (ids: seq<Id>)
    ensures IsSelection(t, now, locked, limit, ids)
  {
    var from := set id | id in t && Pickable(t, now, locked, id);
    ids := SelectOldest(t, from, limit);
  }

  method ReadEntries(t: Table, ids: seq<Id>, token: Token) returns (entries: seq<Entry>)
    requires forall i :: 0 <= i < |ids| ==> ids[i] in t
    ensures EntryIds(entries) == ids && IsSnapshot(t, entries, token)
  {
    entries := [];
    for k := 0 to |ids|
      invariant |entries| == k && IsSnapshot(t, entries, token)
      invariant forall i :: 0 <= i < k ==> entries[i].id == ids[i]
    {
      var row := t[ids[k]];
      entries := entries + [Entry(ids[k], row.body, token, row.retryCount, row.lastError)];
    }
  }

  predicate Lists(entries: seq<ReleaseEntry>, n: nat, id: Id) {
    exists i :: 0 <= i < n && i < |entries| && entries[i].id == id
  }

  predicate GivenFor(entries: seq<ReleaseEntry>, id: Id, error: string) {
    exists j :: 0 <= j < |entries| && entries[j].id == id && entries[j].lastError == error
  }

  /** The rows of the first `n` entries are released, each with an error that is given for it. */
  ghost predicate ReleasedOnce(t: Table, t': Table, entries: seq<ReleaseEntry>, n: nat) {
    && t'.Keys == t.Keys
    && forall id :: id in t ==>
         if Lists(entries, n, id)
         then GivenFor(entries, id, t'[id].lastError) && t'[id] == ReleasedRow(t[id], t'[id].lastError)
         else t'[id] == t[id]
  }

  /** When no row is listed twice, each gets the error of its own entry. */
  lemma OwnErrors(t: Table, t': Table, entries: seq<ReleaseEntry>)
    requires ReleasedOnce(t, t', entries, |entries|) && Distinct(ReleaseIds(entries))
    ensures t' == Released(t, entries)
  {
    forall id | id in t ensures t'[id] == Released(t, entries)[id] {
      ErrorForMember(entries, id);
      if Lists(entries, |entries|, id) {
        var j :| 0 <= j < |entries| && entries[j].id == id && entries[j].lastError == t'[id].lastError;
        ErrorForAt(entries, j);
      } else {
        assert forall i :: 0 <= i < |entries| ==> ReleaseIds(entries)[i] != id;
      }
    }
  }

  /** What a select with a limit and no order returns: any of the ids, all of them if the limit allows. */
  method TakeSome(ids: set<Id>, limit: nat) returns (some: set<Id>)
    ensures some <= ids && |some| <= limit && (|some| < limit ==> some == ids)
  {
    some := {};
    var left := ids;
    while |some| < limit && left != {}
      invariant |some| <= limit && some + left == ids && some !! left
      decreases |left|
    {
      var id :| id in left;
      some := some + {id};
      left := left - {id};
    }
  }

  class Store {
    var rows: Table

    constructor ()
      ensures rows == map[]
    {
      rows := map[];
    }

    /** The primary key refuses an id that is already present. */
    method Insert(id: Id, body: Body) returns (ok: bool)
      modifies this
      ensures ok <==> id !in old(rows)
      ensures rows == if ok then old(rows)[id := Row(body, None, None, None, 0, "")] else old(rows)
    {
      ok := id !in rows;
      if ok {
        rows := rows[id := Row(body, None, None, None, 0, "")];
      }
    }

    method ClaimBatch(batchSize: nat, token: Token, now: Time, locked: set<Id>) returns (entries: seq<Entry>)
      modifies this
      ensures IsSelection(old(rows), now, locked, batchSize, EntryIds(entries))
      ensures IsSnapshot(old(rows), entries, token)
      ensures forall e :: e in entries ==>
                && e.id in old(rows) && e.token == token && e.body == old(rows)[e.id].body
                && e.retryCount == old(rows)[e.id].retryCount && e.lastError == old(rows)[e.id].lastError
      ensures rows == Claimed(old(rows), EntryIds(entries), token, now)
    {
      var ids := SelectForUpdate(rows, now, locked, batchSize);
      assert forall i :: 0 <= i < |ids| ==> Pickable(rows, now, locked, ids[i]);
      entries := ReadEntries(rows, ids, token);
      ClaimEntries(ids, token, now);
    }

    method ClaimEntries(ids: seq<Id>, token: Token, now: Time)
      modifies this
      ensures rows == Claimed(old(rows), ids, token, now)
      ensures rows.Keys == old(rows).Keys
      ensures forall id :: id in rows ==>
                var r := old(rows)[id];
                rows[id] == if id in ids then Row(r.body, Some(now), Some(token), r.publishedAt, r.retryCount, r.lastError)
                            else r
    {
      var k := 0;
      while k < |ids|
        invariant 0 <= k <= |ids|
        invariant rows == Claimed(old(rows), ids[..k], token, now)
      {
        assert ids[..k + 1] == ids[..k] + [ids[k]];
        if ids[k] in rows {
          rows := rows[ids[k] := rows[ids[k]].(claimedAt := Some(now), token := Some(token))];
        }
        k := k + 1;
      }
      assert ids[..k] == ids;
    }

    method MarkPublished(ids: seq<Id>, token: Token, now: Time)
      modifies this
      ensures rows == MarkedPublished(old(rows), ids, token, now)
      ensures rows.Keys == old(rows).Keys
      ensures forall id :: id in rows ==>
                var r := old(rows)[id];
                rows[id] == if id in ids && r.token == Some(token)
                            then Row(r.body, r.claimedAt, r.token, Some(now), r.retryCount, r.lastError) else r
    {
      var k := 0;
      while k < |ids|
        invariant 0 <= k <= |ids|
        invariant rows == MarkedPublished(old(rows), ids[..k], token, now)
      {
        assert ids[..k + 1] == ids[..k] + [ids[k]];
        if ids[k] in rows && rows[ids[k]].token == Some(token) {
          rows := rows[ids[k] := rows[ids[k]].(publishedAt := Some(now))];
        }
        k := k + 1;
      }
      assert ids[..k] == ids;
    }

    /**
     Every listed row is released once, with an error given for it. If a row is listed more than once the
     join of the statement may take any of its errors.
     */
    method ReleaseClaims(entries: seq<ReleaseEntry>)
      modifies this
      ensures ReleasedOnce(old(rows), rows, entries, |entries|)
      ensures Distinct(ReleaseIds(entries)) ==> rows == Released(old(rows), entries)
      ensures rows.Keys == old(rows).Keys
      ensures forall id :: id in rows ==>
                var r := old(rows)[id];
                rows[id] == if Lists(entries, |entries|, id)
                            then Row(r.body, None, None, r.publishedAt, r.retryCount + 1, rows[id].lastError) else r
    {
      var k := 0;
      while k < |entries|
        invariant 0 <= k <= |entries|
        invariant ReleasedOnce(old(rows), rows, entries, k)
      {
        var id := entries[k].id;
        if id in rows && !Lists(entries, k, id) {
          var j :| 0 <= j < |entries| && entries[j].id == id;
          rows := rows[id := rows[id].(claimedAt := None, token := None,
                                       retryCount := rows[id].retryCount + 1, lastError := entries[j].lastError)];
          assert GivenFor(entries, id, entries[j].lastError);
        }
        k := k + 1;
      }
      if Distinct(ReleaseIds(entries)) {
        OwnErrors(old(rows), rows, entries);
      }
    }

    /** Deletes rows published before `cutoff`: all of them, or as many as the limit lets through. */
    method Cleanup(cutoff: Time) returns (n: nat)
      modifies this
      ensures rows.Keys <= old(rows).Keys && (forall id :: id in rows ==> rows[id] == old(rows)[id])
      ensures forall id :: id in old(rows) && (old(rows)[id].publishedAt == None || old(rows)[id].publishedAt.value >= cutoff) ==>
                id in rows
      ensures n == |old(rows).Keys - rows.Keys| <= 10_000
      ensures n < 10_000 ==> forall id :: id in rows ==> rows[id].publishedAt == None || rows[id].publishedAt.value >= cutoff
    {
      var stale := set id | id in rows && Stale(rows[id], cutoff);
      var gone := TakeSome(stale, CLEANUP_BATCH_LIMIT);
      rows := rows - gone;
      n := |gone|;
      assert old(rows).Keys - rows.Keys == gone;
    }
  }
}
