/**
 Aggregates, the unit of work and the transaction around it (aggregate/base.go:80-104,
 uow/unit_of_work.go:73-114, infra/db/tx.go:70-116).
 */
module UnitOfWork {
  import opened Prelude

  datatype Event = Event(id: string, eventType: string, payload: string)

  /** An outbox row as the unit of work writes it: the event and the service it came from. */
  datatype Row = Row(event: Event, source: string)

  /** How a call ends. Everything but `Committed` is an error or a panic for the caller. */
  datatype Outcome = Committed | BeginFailed | FnFailed | FnPanicked | InsertFailed(aggregate: nat) | CommitFailed

  function RowsOf(events: seq<Event>, source: string): seq<Row> {
    seq(|events|, i requires 0 <= i < |events| => Row(events[i], source))
  }

  /** What draining `aggs` in order collects; draining empties, so one that occurs again has nothing left. */
  function Drained<A(==)>(pending: map<A, seq<Event>>, aggs: seq<A>): seq<Event>
    decreases |aggs|
  {
    if aggs == [] then [] else Of(pending, aggs[0]) + Drained(pending[aggs[0] := []], aggs[1..])
  }

  function Of<A>(pending: map<A, seq<Event>>, agg: A): seq<Event> {
    if agg in pending then pending[agg] else []
  }

  /** The aggregates a call with this outcome has drained. */
  function Reached<A>(aggs: seq<A>, outcome: Outcome): seq<A> {
    match outcome
    case Committed => aggs
    case CommitFailed => aggs
    case InsertFailed(k) => if k < |aggs| then aggs[..k + 1] else aggs
    case _ => []
  }

  function Emptied<A(==)>(pending: map<A, seq<Event>>, aggs: seq<A>): map<A, seq<Event>>
    decreases |aggs|
  {
    if aggs == [] then pending else Emptied(pending[aggs[0] := []], aggs[1..])
  }

  predicate HasId(rows: seq<Row>, id: string) {
    exists i :: 0 <= i < |rows| && rows[i].event.id == id
  }

  /** Whether the events can be inserted one after the other: none is refused and none repeats an id. */
  predicate Fits(rows: seq<Row>, events: seq<Event>, source: string, refuses: Event -> bool)
    decreases |events|
  {
    events == [] ||
    (!refuses(events[0]) && !HasId(rows, events[0].id) && Fits(rows + [Row(events[0], source)], events[1..], source, refuses))
  }

  lemma {:induction false} FitsConcat(rows: seq<Row>, a: seq<Event>, b: seq<Event>, source: string, refuses: Event -> bool)
    ensures Fits(rows, a + b, source, refuses) <==>
            Fits(rows, a, source, refuses) && Fits(rows + RowsOf(a, source), b, source, refuses)
    decreases |a|
  {
    if a == [] {
      assert a + b == b && rows + RowsOf(a, source) == rows;
    } else {
      var rows' := rows + [Row(a[0], source)];
      FitsConcat(rows', a[1..], b, source, refuses);
      assert (a + b)[1..] == a[1..] + b;
      assert rows' + RowsOf(a[1..], source) == rows + RowsOf(a, source);
    }
  }

  /** What the caller's function does to the domain inside the transaction. */
  datatype FnResult<D> = Saved(domain: D) | Error | Panic

  /** The inserts that fail for reasons of their own, and whether begin and commit go through. */
  datatype Weather = Weather(beginOk: bool, commitOk: bool, refuses: Event -> bool)

  /** The result of draining aggregates into the outbox: the first one refused, the rows, what is left pending. */
  datatype Publication<A> = Publication(refused: Option<nat>, rows: seq<Row>, pending: map<A, seq<Event>>)

  function Shifted<A>(p: Publication<A>, n: nat): Publication<A> {
    if p.refused.None? then p else p.(refused := Some(p.refused.value + n))
  }

  function Publish<A(==)>(rows: seq<Row>, pending: map<A, seq<Event>>, aggs: seq<A>, source: string, refuses: Event -> bool)
    : Publication<A>
    decreases |aggs|
  {
    if aggs == [] then Publication(None, rows, pending)
    else
      var events, rest := Of(pending, aggs[0]), pending[aggs[0] := []];
      if !Fits(rows, events, source, refuses) then Publication(Some(0), rows, rest)
      else Shifted(Publish(rows + RowsOf(events, source), rest, aggs[1..], source, refuses), 1)
  }

  lemma {:induction false} PublishKeepsKeys<A>(rows: seq<Row>, pending: map<A, seq<Event>>, aggs: seq<A>,
                                               source: string, refuses: Event -> bool)
    requires forall i :: 0 <= i < |aggs| ==> aggs[i] in pending
    ensures Publish(rows, pending, aggs, source, refuses).pending.Keys == pending.Keys
    decreases |aggs|
  {
    if aggs != [] {
      var events, rest := Of(pending, aggs[0]), pending[aggs[0] := []];
      assert rest.Keys == pending.Keys;
      PublishKeepsKeys(rows + RowsOf(events, source), rest, aggs[1..], source, refuses);
    }
  }

  /** All events are inserted, in order, exactly when they fit. */
  lemma {:induction false} PublishFits<A>(rows: seq<Row>, pending: map<A, seq<Event>>, aggs: seq<A>,
                                          source: string, refuses: Event -> bool)
    ensures var p := Publish(rows, pending, aggs, source, refuses);
            && (p.refused.None? <==> Fits(rows, Drained(pending, aggs), source, refuses))
            && (p.refused.None? ==> p.rows == rows + RowsOf(Drained(pending, aggs), source))
    decreases |aggs|
  {
    if aggs == [] {
      assert rows + RowsOf([], source) == rows;
    } else {
      var events, rest, tail := Of(pending, aggs[0]), pending[aggs[0] := []], aggs[1..];
      FitsConcat(rows, events, Drained(rest, tail), source, refuses);
      RowsConcat(rows, events, Drained(rest, tail), source);
      PublishFits(rows + RowsOf(events, source), rest, tail, source, refuses);
    }
  }

  function DrainedPart<A>(aggs: seq<A>, refused: Option<nat>): seq<A> {
    if refused.Some? && refused.value < |aggs| then aggs[..refused.value + 1] else aggs
  }

  /** The aggregates up to the refused one are drained, the others keep what they have. */
  lemma {:induction false} PublishEmpties<A>(rows: seq<Row>, pending: map<A, seq<Event>>, aggs: seq<A>,
                                             source: string, refuses: Event -> bool)
    ensures var p := Publish(rows, pending, aggs, source, refuses);
            && (p.refused.Some? ==> p.refused.value < |aggs|)
            && p.pending == Emptied(pending, DrainedPart(aggs, p.refused))
    decreases |aggs|
  {
    if aggs != [] {
      var events, rest, tail := Of(pending, aggs[0]), pending[aggs[0] := []], aggs[1..];
      if Fits(rows, events, source, refuses) {
        var p := Publish(rows + RowsOf(events, source), rest, tail, source, refuses);
        PublishEmpties(rows + RowsOf(events, source), rest, tail, source, refuses);
        EmptiedStep(pending, aggs, p.refused);
      } else {
        assert aggs[..1] == [aggs[0]] && [aggs[0]][1..] == [];
        assert Emptied(rest, []) == rest;
      }
    }
  }

  lemma EmptiedStep<A>(pending: map<A, seq<Event>>, aggs: seq<A>, refused: Option<nat>)
    requires aggs != [] && (refused.Some? ==> refused.value < |aggs| - 1)
    ensures var refused' := if refused.Some? then Some(refused.value + 1) else None;
            Emptied(pending, DrainedPart(aggs, refused')) == Emptied(pending[aggs[0] := []], DrainedPart(aggs[1..], refused))
  {
    if refused.Some? {
      assert aggs[..refused.value + 2][1..] == aggs[1..][..refused.value + 1];
    }
  }

  lemma RowsConcat(rows: seq<Row>, a: seq<Event>, b: seq<Event>, source: string)
    ensures (rows + RowsOf(a, source)) + RowsOf(b, source) == rows + RowsOf(a + b, source)
  {
  }

  /** What a call sees and leaves: the committed state and the pending events of aggregates. */
  datatype View<A, D> = View(domain: D, outbox: seq<Row>, pending: map<A, seq<Event>>)

  function OutcomeOf<A(==), D>(v: View<A, D>, aggs: seq<A>, source: string, fn: D -> FnResult<D>, w: Weather): Outcome {
    if !w.beginOk then BeginFailed
    else
      match fn(v.domain)
      case Error => FnFailed
      case Panic => FnPanicked
      case Saved(_) =>
        var p := Publish(v.outbox, v.pending, aggs, source, w.refuses);
        if p.refused.Some? then InsertFailed(p.refused.value) else if w.commitOk then Committed else CommitFailed
  }

  function Executed<A(==), D>(v: View<A, D>, aggs: seq<A>, source: string, fn: D -> FnResult<D>, w: Weather): View<A, D> {
    if !w.beginOk || !fn(v.domain).Saved? then v
    else
      var p := Publish(v.outbox, v.pending, aggs, source, w.refuses);
      if OutcomeOf(v, aggs, source, fn, w).Committed? then View(fn(v.domain).domain, p.rows, p.pending)
      else v.(pending := p.pending)
  }

  /** Everything goes through. */
  predicate GoesThrough<A(==), D>(v: View<A, D>, aggs: seq<A>, source: string, fn: D -> FnResult<D>, w: Weather) {
    w.beginOk && fn(v.domain).Saved? && Fits(v.outbox, Drained(v.pending, aggs), source, w.refuses) && w.commitOk
  }

  /**
   Atomicity: a call that goes through commits the domain write and exactly the pending events, in order; any
   other leaves domain and outbox as they were. The aggregates it reached are empty, the others untouched.
   */
  lemma Atomic<A, D>(v: View<A, D>, aggs: seq<A>, source: string, fn: D -> FnResult<D>, w: Weather)
    ensures var o, v' := OutcomeOf(v, aggs, source, fn, w), Executed(v, aggs, source, fn, w);
            && (o.Committed? <==> GoesThrough(v, aggs, source, fn, w))
            && (o.Committed? ==> fn(v.domain) == Saved(v'.domain)
                                 && v'.outbox == v.outbox + RowsOf(Drained(v.pending, aggs), source))
            && (!o.Committed? ==> v'.domain == v.domain && v'.outbox == v.outbox)
            && v'.pending == Emptied(v.pending, Reached(aggs, o))
  {
    PublishFits(v.outbox, v.pending, aggs, source, w.refuses);
    PublishEmpties(v.outbox, v.pending, aggs, source, w.refuses);
    ReachedPart(v, aggs, source, fn, w);
  }

  /** Which error a call ends with: the first thing that goes wrong, and at which aggregate. */
  lemma OutcomeExactly<A, D>(v: View<A, D>, aggs: seq<A>, source: string, fn: D -> FnResult<D>, w: Weather)
    ensures var o, r := OutcomeOf(v, aggs, source, fn, w), fn(v.domain);
            var fits := Fits(v.outbox, Drained(v.pending, aggs), source, w.refuses);
            && (o == BeginFailed <==> !w.beginOk)
            && (o == FnFailed <==> w.beginOk && r.Error?)
            && (o == FnPanicked <==> w.beginOk && r.Panic?)
            && (o.InsertFailed? <==> w.beginOk && r.Saved? && !fits)
            && (o == CommitFailed <==> w.beginOk && r.Saved? && fits && !w.commitOk)
            && (o.InsertFailed? ==>
                  && o.aggregate < |aggs|
                  && Fits(v.outbox, Drained(v.pending, aggs[..o.aggregate]), source, w.refuses)
                  && !Fits(v.outbox, Drained(v.pending, aggs[..o.aggregate + 1]), source, w.refuses))
  {
    PublishFits(v.outbox, v.pending, aggs, source, w.refuses);
    RefusedExactly(v.outbox, v.pending, aggs, source, w.refuses);
  }

  /** The refused aggregate is the first whose events do not fit after those before it. */
  lemma {:induction false} RefusedExactly<A>(rows: seq<Row>, pending: map<A, seq<Event>>, aggs: seq<A>,
                                             source: string, refuses: Event -> bool)
    ensures var p := Publish(rows, pending, aggs, source, refuses);
            p.refused.Some? ==>
              && p.refused.value < |aggs|
              && Fits(rows, Drained(pending, aggs[..p.refused.value]), source, refuses)
              && !Fits(rows, Drained(pending, aggs[..p.refused.value + 1]), source, refuses)
    decreases |aggs|
  {
    if aggs != [] {
      var events, rest, tail := Of(pending, aggs[0]), pending[aggs[0] := []], aggs[1..];
      if Fits(rows, events, source, refuses) {
        RefusedExactly(rows + RowsOf(events, source), rest, tail, source, refuses);
        var p := Publish(rows + RowsOf(events, source), rest, tail, source, refuses);
        if p.refused.Some? {
          FitsOneMore(rows, pending, aggs, p.refused.value, source, refuses);
          FitsOneMore(rows, pending, aggs, p.refused.value + 1, source, refuses);
        }
      } else {
        assert aggs[..1] == [aggs[0]] && [aggs[0]][1..] == [];
        assert Drained(pending, [aggs[0]]) == events + [] == events;
      }
    }
  }

  /** Whether the first aggregates' events fit, with the first one's taken first. */
  lemma FitsOneMore<A>(rows: seq<Row>, pending: map<A, seq<Event>>, aggs: seq<A>, k: nat, source: string, refuses: Event -> bool)
    requires k < |aggs| && Fits(rows, Of(pending, aggs[0]), source, refuses)
    ensures Fits(rows, Drained(pending, aggs[..k + 1]), source, refuses) <==>
            Fits(rows + RowsOf(Of(pending, aggs[0]), source), Drained(pending[aggs[0] := []], aggs[1..][..k]), source, refuses)
  {
    assert aggs[..k + 1][1..] == aggs[1..][..k];
    FitsConcat(rows, Of(pending, aggs[0]), Drained(pending[aggs[0] := []], aggs[1..][..k]), source, refuses);
  }

  ghost predicate DistinctIds(rows: seq<Row>) {
    forall i, j :: 0 <= i < j < |rows| ==> rows[i].event.id != rows[j].event.id
  }

  /** Events fit exactly when none is refused and no id occurs twice among them and the rows already there. */
  lemma {:induction false} FitsIff(rows: seq<Row>, events: seq<Event>, source: string, refuses: Event -> bool)
    requires DistinctIds(rows)
    ensures Fits(rows, events, source, refuses) <==>
            DistinctIds(rows + RowsOf(events, source)) && forall i :: 0 <= i < |events| ==> !refuses(events[i])
    decreases |events|
  {
    if events == [] {
      assert rows + RowsOf(events, source) == rows;
    } else {
      var row := Row(events[0], source);
      assert (rows + [row]) + RowsOf(events[1..], source) == rows + RowsOf(events, source);
      IdIsNew(rows, row);
      if DistinctIds(rows + [row]) {
        FitsIff(rows + [row], events[1..], source, refuses);
        assert (forall i :: 0 <= i < |events| ==> !refuses(events[i])) <==>
               !refuses(events[0]) && forall i :: 0 <= i < |events[1..]| ==> !refuses(events[1..][i]) by {
          assert events == [events[0]] + events[1..];
        }
      } else {
        PrefixDistinct(rows + [row], RowsOf(events[1..], source));
      }
    }
  }

  lemma IdIsNew(rows: seq<Row>, row: Row)
    requires DistinctIds(rows)
    ensures DistinctIds(rows + [row]) <==> !HasId(rows, row.event.id)
  {
    if i :| 0 <= i < |rows| && rows[i].event.id == row.event.id {
      assert (rows + [row])[i].event.id == (rows + [row])[|rows|].event.id;
    }
  }

  lemma PrefixDistinct(a: seq<Row>, b: seq<Row>)
    ensures DistinctIds(a + b) ==> DistinctIds(a)
  {
    assert forall i :: 0 <= i < |a| ==> (a + b)[i] == a[i];
  }

  lemma ReachedPart<A, D>(v: View<A, D>, aggs: seq<A>, source: string, fn: D -> FnResult<D>, w: Weather)
    ensures Reached(aggs, OutcomeOf(v, aggs, source, fn, w)) ==
            if !w.beginOk || !fn(v.domain).Saved? then []
            else DrainedPart(aggs, Publish(v.outbox, v.pending, aggs, source, w.refuses).refused)
  {
  }

  ghost function Pending(aggs: seq<Aggregate>): map<Aggregate, seq<Event>>
    reads aggs
  {
    map a | a in aggs :: a.events
  }

  ghost predicate Shows(aggs: seq<Aggregate>, pending: map<Aggregate, seq<Event>>)
    reads aggs
  {
    forall i :: 0 <= i < |aggs| ==> aggs[i] in pending && pending[aggs[i]] == aggs[i].events
  }

  lemma ShownIsPending(aggs: seq<Aggregate>, pending: map<Aggregate, seq<Event>>)
    requires Shows(aggs, pending) && pending.Keys == (set a | a in aggs)
    ensures Pending(aggs) == pending
  {
  }

  class Aggregate {
    var events: seq<Event>

    constructor ()
      ensures events == []
    {
      events := [];
    }

    method AddEvent(e: Event)
      modifies this
      ensures events == old(events) + [e]
    {
      events := events + [e];
    }

    /** Hands out a copy of the pending events and forgets them. */
    method ClearEvents() returns (pending: seq<Event>)
      modifies this
      ensures pending == old(events) && events == []
    {
      pending := events;
      events := [];
    }
  }

  /** The committed state: what the domain tables and the outbox hold. */
  class Database<D> {
    var domain: D
    var outbox: seq<Row>

    constructor (domain: D)
      ensures this.domain == domain && outbox == []
    {
      this.domain, outbox := domain, [];
    }
  }

  class Uow<D> {
    const db: Database<D>
    const source: string

    constructor (db: Database<D>, source: string)
      ensures this.db == db && this.source == source
    {
      this.db, this.source := db, source;
    }

    /** Drains one aggregate into the transaction's view of the outbox; stops at the first refusal. */
    method PublishEvents(agg: Aggregate, rows: seq<Row>, weather: Weather) returns (ok: bool, rows': seq<Row>)
      modifies agg
      ensures agg.events == []
      ensures ok <==> Fits(rows, old(agg.events), source, weather.refuses)
      ensures ok ==> rows' == rows + RowsOf(old(agg.events), source)
    {
      var events := agg.ClearEvents();
      rows' := rows;
      var k := 0;
      while k < |events|
        invariant 0 <= k <= |events| && rows' == rows + RowsOf(events[..k], source)
        invariant Fits(rows, events, source, weather.refuses) <==> Fits(rows', events[k..], source, weather.refuses)
      {
        if weather.refuses(events[k]) || HasId(rows', events[k].id) {
          return false, rows';
        }
        assert RowsOf(events[..k + 1], source) == RowsOf(events[..k], source) + [Row(events[k], source)];
        assert events[k..][1..] == events[k + 1..];
        rows' := rows' + [Row(events[k], source)];
        k := k + 1;
      }
      assert events[..k] == events;
      ok := true;
    }

    /** Drains the aggregates in order. Those drained before a refusal stay drained. */
    method PublishAll(aggs: seq<Aggregate>, rows: seq<Row>, weather: Weather)
      returns (refused: Option<nat>, rows': seq<Row>)
      modifies aggs
      ensures var p := Publish(rows, old(Pending(aggs)), aggs, source, weather.refuses);
              refused == p.refused && Shows(aggs, p.pending) && (refused.None? ==> rows' == p.rows)
    {
      ghost var pending: map<Aggregate, seq<Event>> := Pending(aggs);
      ghost var whole := Publish<Aggregate>(rows, pending, aggs, source, weather.refuses);
      rows' := rows;
      var k := 0;
      assert aggs[k..] == aggs;
      while k < |aggs|
        invariant 0 <= k <= |aggs|
        invariant Shows(aggs, pending)
        invariant whole == Shifted<Aggregate>(Publish<Aggregate>(rows', pending, aggs[k..], source, weather.refuses), k)
      {
        PublishNext(whole, rows', pending, aggs, k, source, weather.refuses);
        assert Of(pending, aggs[k]) == aggs[k].events;
        var ok;
        ok, rows' := PublishEvents(aggs[k], rows', weather);
        pending := pending[aggs[k] := []];
        if !ok {
          return Some(k), rows';
        }
        k := k + 1;
      }
      refused := None;
    }

    ghost function Look(aggs: seq<Aggregate>): View<Aggregate, D>
      reads db, aggs
    {
      View(db.domain, db.outbox, Pending(aggs))
    }

    /** One transaction: the domain write, then the events of all aggregates in order, then the commit. */
    method ExecuteMulti(aggs: seq<Aggregate>, fn: D -> FnResult<D>, weather: Weather) returns (outcome: Outcome)
      modifies db, aggs
      ensures outcome == OutcomeOf(old(Look(aggs)), aggs, source, fn, weather)
      ensures Look(aggs) == Executed(old(Look(aggs)), aggs, source, fn, weather)
      ensures outcome.Committed? <==> GoesThrough(old(Look(aggs)), aggs, source, fn, weather)
      ensures outcome.Committed? ==>
                && fn(old(db.domain)) == Saved(db.domain)
                && db.outbox == old(db.outbox) + RowsOf(old(Drained(Pending(aggs), aggs)), source)
      ensures !outcome.Committed? ==> db.domain == old(db.domain) && db.outbox == old(db.outbox)
      ensures Pending(aggs) == Emptied(old(Pending(aggs)), Reached(aggs, outcome))
    {
      Atomic(Look(aggs), aggs, source, fn, weather);
      if !weather.beginOk { return BeginFailed; }
      var saved := fn(db.domain);
      if saved.Error? { return FnFailed; }
      if saved.Panic? { return FnPanicked; }
      ghost var p := Publish<Aggregate>(db.outbox, Pending(aggs), aggs, source, weather.refuses);
      PublishKeepsKeys(db.outbox, Pending(aggs), aggs, source, weather.refuses);
      var refused, rows := PublishAll(aggs, db.outbox, weather);
      ShownIsPending(aggs, p.pending);
      if refused.Some? { return InsertFailed(refused.value); }
      if !weather.commitOk { return CommitFailed; }
      db.domain := saved.domain;
      db.outbox := rows;
      return Committed;
    }

    method Execute(agg: Aggregate, fn: D -> FnResult<D>, weather: Weather) returns (outcome: Outcome)
      modifies db, agg
      ensures outcome == OutcomeOf(old(Look([agg])), [agg], source, fn, weather)
      ensures Look([agg]) == Executed(old(Look([agg])), [agg], source, fn, weather)
      ensures outcome.Committed? ==>
                && fn(old(db.domain)) == Saved(db.domain)
                && db.outbox == old(db.outbox) + RowsOf(old(agg.events), source)
      ensures !outcome.Committed? ==> db.domain == old(db.domain) && db.outbox == old(db.outbox)
      ensures agg.events == if Reached([agg], outcome) == [] then old(agg.events) else []
    {
      if !weather.beginOk { return BeginFailed; }
      var saved := fn(db.domain);
      if saved.Error? { return FnFailed; }
      if saved.Panic? { return FnPanicked; }
      PublishOne(db.outbox, Pending([agg]), agg, source, weather.refuses);
      assert Pending([agg])[agg := []] == map[agg := []];
      var ok, rows := PublishEvents(agg, db.outbox, weather);
      assert Pending([agg]) == map[agg := []];
      if !ok { return InsertFailed(0); }
      if !weather.commitOk { return CommitFailed; }
      db.domain := saved.domain;
      db.outbox := rows;
      return Committed;
    }
  }

  lemma PublishNext<A>(whole: Publication<A>, rows: seq<Row>, pending: map<A, seq<Event>>, aggs: seq<A>, k: nat,
                       source: string, refuses: Event -> bool)
    requires k < |aggs| && whole == Shifted(Publish(rows, pending, aggs[k..], source, refuses), k)
    ensures var events, rest := Of(pending, aggs[k]), pending[aggs[k] := []];
            whole == if !Fits(rows, events, source, refuses) then Publication(Some(k), whole.rows, rest)
                     else Shifted(Publish(rows + RowsOf(events, source), rest, aggs[k + 1..], source, refuses), k + 1)
  {
    assert aggs[k..][1..] == aggs[k + 1..];
  }

  lemma PublishOne<A>(rows: seq<Row>, pending: map<A, seq<Event>>, agg: A, source: string, refuses: Event -> bool)
    ensures Publish(rows, pending, [agg], source, refuses) ==
            if Fits(rows, Of(pending, agg), source, refuses)
            then Publication(None, rows + RowsOf(Of(pending, agg), source), pending[agg := []])
            else Publication(Some(0), rows, pending[agg := []])
  {
    assert [agg][1..] == [];
  }

  /** The pending events of `aggs`, aggregate after aggregate. */
  function Flat<A(==)>(pending: map<A, seq<Event>>, aggs: seq<A>): seq<Event> {
    if aggs == [] then [] else Of(pending, aggs[0]) + Flat(pending, aggs[1..])
  }

  function Without<A(==)>(s: seq<A>, x: A): (r: seq<A>)
    ensures Members(r) == Members(s) - {x}
    ensures Distinct(s) ==> Distinct(r)
  {
    if s == [] then []
    else
      assert Members(s) == {s[0]} + Members(s[1..]) by { assert s == [s[0]] + s[1..]; }
      var rest := Without(s[1..], x);
      if s[0] == x then rest
      else
        assert Distinct(s) ==> s[0] !in Members(s[1..]);
        assert Members([s[0]] + rest) == {s[0]} + Members(rest);
        [s[0]] + rest
  }

  /** The first occurrences in `s`, in order. */
  function Firsts<A(==)>(s: seq<A>): (r: seq<A>)
    ensures Distinct(r) && Members(r) == Members(s)
  {
    if s == [] then []
    else
      assert Members(s) == {s[0]} + Members(s[1..]) by { assert s == [s[0]] + s[1..]; }
      var rest := Without(Firsts(s[1..]), s[0]);
      assert s[0] !in Members(rest) && Members([s[0]] + rest) == {s[0]} + Members(rest);
      [s[0]] + rest
  }

  function Members<A(==)>(s: seq<A>): set<A> {
    set x | x in s
  }

  lemma {:induction false} FlatWithout<A>(pending: map<A, seq<Event>>, x: A, aggs: seq<A>)
    ensures Flat(pending[x := []], aggs) == Flat(pending, Without(aggs, x))
  {
    if aggs != [] {
      FlatWithout(pending, x, aggs[1..]);
      assert ([aggs[0]] + Without(aggs[1..], x))[1..] == Without(aggs[1..], x);
    }
  }

  /** Draining collects the events of each aggregate once, in the order in which the aggregates first occur. */
  lemma {:induction false} DrainedOnceEach<A>(pending: map<A, seq<Event>>, aggs: seq<A>)
    ensures Drained(pending, aggs) == Flat(pending, Firsts(aggs))
    decreases |aggs|
  {
    if aggs != [] {
      DrainedOnceEach(pending[aggs[0] := []], aggs[1..]);
      FlatWithout(pending, aggs[0], Firsts(aggs[1..]));
      assert Firsts(aggs)[1..] == Without(Firsts(aggs[1..]), aggs[0]);
    }
  }
}

/** Sequences of calls on any number of aggregates: where every event that was ever added ends up. */
module UnitOfWorkRuns {
  import opened UnitOfWork
  import opened Sums

  type AggregateId = nat

  /** The database and the aggregates, and as history what was ever added to each aggregate. */
  datatype State<D> = State(view: View<AggregateId, D>, added: map<AggregateId, seq<Event>>)

  datatype Op<!D> =
    | Add(agg: AggregateId, event: Event)
    | Execute(aggs: seq<AggregateId>, fn: D -> FnResult<D>, weather: Weather)

  function Step<D>(source: string, s: State<D>, op: Op<D>): State<D> {
    match op
    case Add(a, e) =>
      State(s.view.(pending := s.view.pending[a := Of(s.view.pending, a) + [e]]), s.added[a := Of(s.added, a) + [e]])
    case Execute(aggs, fn, w) => s.(view := Executed(s.view, aggs, source, fn, w))
  }

  function Run<D>(source: string, d: D, ops: seq<Op<D>>): State<D> {
    if ops == [] then State(View(d, [], map[]), map[])
    else Step(source, Run(source, d, ops[..|ops| - 1]), ops[|ops| - 1])
  }

  // ---------------------------------------------------------------- order

  /** What the call drains from aggregate `a`. */
  function TakenBy<D>(source: string, v: View<AggregateId, D>, op: Op<D>, a: AggregateId): seq<Event> {
    if op.Execute? && a in Reached(op.aggs, OutcomeOf(v, op.aggs, source, op.fn, op.weather)) then Of(v.pending, a) else []
  }

  function TakenFrom<D>(source: string, d: D, ops: seq<Op<D>>, a: AggregateId): seq<Event> {
    if ops == [] then []
    else
      var front := ops[..|ops| - 1];
      TakenFrom(source, d, front, a) + TakenBy(source, Run(source, d, front).view, ops[|ops| - 1], a)
  }

  function CommittedBy<D>(source: string, v: View<AggregateId, D>, op: Op<D>): seq<Event> {
    if op.Execute? && GoesThrough(v, op.aggs, source, op.fn, op.weather) then Drained(v.pending, op.aggs) else []
  }

  function CommittedEvents<D>(source: string, d: D, ops: seq<Op<D>>): seq<Event> {
    if ops == [] then []
    else
      var front := ops[..|ops| - 1];
      CommittedEvents(source, d, front) + CommittedBy(source, Run(source, d, front).view, ops[|ops| - 1])
  }

  lemma {:induction false} EmptiedAt(pending: map<AggregateId, seq<Event>>, aggs: seq<AggregateId>, a: AggregateId)
    ensures Of(Emptied(pending, aggs), a) == if a in aggs then [] else Of(pending, a)
    decreases |aggs|
  {
    if aggs != [] {
      EmptiedAt(pending[aggs[0] := []], aggs[1..], a);
    }
  }

  lemma StepOrder<D>(source: string, s: State<D>, op: Op<D>, a: AggregateId, taken: seq<Event>)
    requires Of(s.added, a) == taken + Of(s.view.pending, a)
    ensures var s' := Step(source, s, op);
            Of(s'.added, a) == (taken + TakenBy(source, s.view, op, a)) + Of(s'.view.pending, a)
  {
    if op.Execute? {
      Atomic(s.view, op.aggs, source, op.fn, op.weather);
      EmptiedAt(s.view.pending, Reached(op.aggs, OutcomeOf(s.view, op.aggs, source, op.fn, op.weather)), a);
    }
  }

  lemma StepOutbox<D>(source: string, s: State<D>, op: Op<D>, committed: seq<Event>)
    requires s.view.outbox == RowsOf(committed, source)
    ensures Step(source, s, op).view.outbox == RowsOf(committed + CommittedBy(source, s.view, op), source)
  {
    if op.Execute? {
      Atomic(s.view, op.aggs, source, op.fn, op.weather);
    }
  }

  /**
   Each aggregate's events leave it in the order in which they were added, and the outbox lists what the
   calls that went through drained, call after call, every row with the source of this unit of work.
   */
  lemma {:induction false} OrderKept<D>(source: string, d: D, ops: seq<Op<D>>, a: AggregateId)
    ensures var s := Run(source, d, ops);
            && Of(s.added, a) == TakenFrom(source, d, ops, a) + Of(s.view.pending, a)
            && s.view.outbox == RowsOf(CommittedEvents(source, d, ops), source)
            && EventsIn(s.view.outbox) == CommittedEvents(source, d, ops)
            && forall i :: 0 <= i < |s.view.outbox| ==> s.view.outbox[i].source == source
  {
    if ops != [] {
      var front := ops[..|ops| - 1];
      OrderKept(source, d, front, a);
      StepOrder(source, Run(source, d, front), ops[|ops| - 1], a, TakenFrom(source, d, front, a));
      StepOutbox(source, Run(source, d, front), ops[|ops| - 1], CommittedEvents(source, d, front));
    }
  }

  /** No run puts an event id into the outbox twice. */
  lemma {:induction false} IdsStayDistinct<D>(source: string, d: D, ops: seq<Op<D>>)
    ensures DistinctIds(Run(source, d, ops).view.outbox)
  {
    if ops != [] {
      var front, op := ops[..|ops| - 1], ops[|ops| - 1];
      IdsStayDistinct(source, d, front);
      if op.Execute? {
        var v := Run(source, d, front).view;
        Atomic(v, op.aggs, source, op.fn, op.weather);
        FitsIff(v.outbox, Drained(v.pending, op.aggs), source, op.weather.refuses);
      }
    }
  }

  // ---------------------------------------------------------------- loss

  function EventsIn(rows: seq<Row>): seq<Event> {
    seq(|rows|, i requires 0 <= i < |rows| => rows[i].event)
  }

  function Counts(m: map<AggregateId, seq<Event>>, e: Event): map<AggregateId, nat> {
    map a | a in m :: multiset(m[a])[e]
  }

  /** How often `e` occurs in all the lists. */
  ghost function CountIn(m: map<AggregateId, seq<Event>>, e: Event): nat {
    Sum(Counts(m, e))
  }

  /** How often `e` is still to be found: in the outbox, or pending. */
  ghost function Content<D>(v: View<AggregateId, D>, e: Event): nat {
    multiset(EventsIn(v.outbox))[e] + CountIn(v.pending, e)
  }

  /** A call that drains its aggregates and then fails, at an insert or at the commit. */
  predicate InVain<D>(source: string, v: View<AggregateId, D>, op: Op<D>) {
    && op.Execute? && op.weather.beginOk && op.fn(v.domain).Saved?
    && !(Fits(v.outbox, Drained(v.pending, op.aggs), source, op.weather.refuses) && op.weather.commitOk)
  }

  /** The events of the aggregates up to the one refused, or of all of them when it is the commit that fails. */
  function LostBy<D>(source: string, v: View<AggregateId, D>, op: Op<D>): seq<Event> {
    if !InVain(source, v, op) then []
    else
      Drained(v.pending, DrainedPart(op.aggs, Publish(v.outbox, v.pending, op.aggs, source, op.weather.refuses).refused))
  }

  lemma CountUpdate(m: map<AggregateId, seq<Event>>, a: AggregateId, xs: seq<Event>, e: Event)
    ensures CountIn(m[a := xs], e) + multiset(Of(m, a))[e] == CountIn(m, e) + multiset(xs)[e]
  {
    var c, c' := Counts(m, e), Counts(m[a := xs], e);
    SumRemove(c', a);
    assert c' - {a} == c - {a};
    if a in m {
      SumRemove(c, a);
    } else {
      assert c - {a} == c;
    }
  }

  /** Draining moves events, and loses none by itself. */
  lemma {:induction false} DrainCounts(pending: map<AggregateId, seq<Event>>, aggs: seq<AggregateId>, e: Event)
    ensures CountIn(Emptied(pending, aggs), e) + multiset(Drained(pending, aggs))[e] == CountIn(pending, e)
    decreases |aggs|
  {
    if aggs != [] {
      CountUpdate(pending, aggs[0], [], e);
      DrainCounts(pending[aggs[0] := []], aggs[1..], e);
    }
  }

  lemma OutboxCounts(rows: seq<Row>, events: seq<Event>, source: string, e: Event)
    ensures multiset(EventsIn(rows + RowsOf(events, source)))[e] == multiset(EventsIn(rows))[e] + multiset(events)[e]
  {
    assert EventsIn(rows + RowsOf(events, source)) == EventsIn(rows) + events;
  }

  /** What a call drains is committed, lost, or nothing at all. */
  lemma DrainedIsCommittedOrLost<D>(source: string, v: View<AggregateId, D>, op: Op<D>)
    requires op.Execute?
    ensures var o := OutcomeOf(v, op.aggs, source, op.fn, op.weather);
            Drained(v.pending, Reached(op.aggs, o)) == if o.Committed? then Drained(v.pending, op.aggs) else LostBy(source, v, op)
    ensures OutcomeOf(v, op.aggs, source, op.fn, op.weather).Committed? ==> LostBy(source, v, op) == []
  {
    PublishFits(v.outbox, v.pending, op.aggs, source, op.weather.refuses);
    ReachedPart(v, op.aggs, source, op.fn, op.weather);
  }

  /** After a call every event is found as often as before, less the times it was among the lost ones. */
  lemma CallAccounts<D>(source: string, v: View<AggregateId, D>, op: Op<D>, e: Event)
    requires op.Execute?
    ensures Content(Executed(v, op.aggs, source, op.fn, op.weather), e) + multiset(LostBy(source, v, op))[e] == Content(v, e)
  {
    var o := OutcomeOf(v, op.aggs, source, op.fn, op.weather);
    Atomic(v, op.aggs, source, op.fn, op.weather);
    DrainedIsCommittedOrLost(source, v, op);
    DrainCounts(v.pending, Reached(op.aggs, o), e);
    OutboxCounts(v.outbox, Drained(v.pending, op.aggs), source, e);
  }

  /** The call neither loses nor duplicates an event. */
  ghost predicate KeepsEvents<D>(v: View<AggregateId, D>, v': View<AggregateId, D>) {
    forall e :: Content(v', e) == Content(v, e)
  }

  /**
   A call keeps all events exactly when it fails before it drains, or goes through, or finds nothing pending in
   the aggregates it drains.
   */
  lemma KeepsEventsIff<D>(source: string, v: View<AggregateId, D>, op: Op<D>)
    requires op.Execute?
    ensures KeepsEvents(v, Executed(v, op.aggs, source, op.fn, op.weather)) <==>
            || !op.weather.beginOk || !op.fn(v.domain).Saved?
            || (Fits(v.outbox, Drained(v.pending, op.aggs), source, op.weather.refuses) && op.weather.commitOk)
            || LostBy(source, v, op) == []
  {
    var v', lost := Executed(v, op.aggs, source, op.fn, op.weather), LostBy(source, v, op);
    if lost == [] {
      forall e ensures Content(v', e) == Content(v, e) {
        CallAccounts(source, v, op, e);
      }
    } else {
      CallAccounts(source, v, op, lost[0]);
      assert lost[0] in multiset(lost);
    }
  }

  /** What each call of the sequence loses. */
  function Losses<D>(source: string, d: D, ops: seq<Op<D>>): (r: seq<seq<Event>>)
    ensures |r| == |ops|
  {
    if ops == [] then []
    else
      var front := ops[..|ops| - 1];
      Losses(source, d, front) + [LostBy(source, Run(source, d, front).view, ops[|ops| - 1])]
  }

  lemma {:induction false} LossesAt<D>(source: string, d: D, ops: seq<Op<D>>, n: nat)
    requires n < |ops|
    ensures Losses(source, d, ops)[n] == LostBy(source, Run(source, d, ops[..n]).view, ops[n])
  {
    var last := |ops| - 1;
    if n < last {
      LossesAt(source, d, ops[..last], n);
      assert ops[..last][..n] == ops[..n];
    }
  }

  function Concat(xs: seq<seq<Event>>): seq<Event> {
    if xs == [] then [] else Concat(xs[..|xs| - 1]) + xs[|xs| - 1]
  }

  lemma {:induction false} InConcat(xs: seq<seq<Event>>, e: Event)
    ensures e in Concat(xs) <==> exists n :: 0 <= n < |xs| && e in xs[n]
  {
    if xs != [] {
      var front := xs[..|xs| - 1];
      InConcat(front, e);
      if n :| 0 <= n < |front| && e in front[n] {
        assert e in xs[n];
      }
      if n :| 0 <= n < |xs| && e in xs[n] {
        assert n < |front| ==> e in front[n];
      }
    }
  }

  /** Over any sequence of calls: every event added is in the outbox, or pending, or was lost by a call, as often as it was added. */
  lemma {:induction false} RunAccounts<D>(source: string, d: D, ops: seq<Op<D>>, e: Event)
    ensures var s := Run(source, d, ops);
            CountIn(s.added, e) == Content(s.view, e) + multiset(Concat(Losses(source, d, ops)))[e]
  {
    if ops != [] {
      var front, op := ops[..|ops| - 1], ops[|ops| - 1];
      var s := Run(source, d, front);
      RunAccounts(source, d, front, e);
      assert Losses(source, d, ops)[..|ops| - 1] == Losses(source, d, front);
      if op.Execute? {
        CallAccounts(source, s.view, op, e);
      } else {
        CountUpdate(s.view.pending, op.agg, Of(s.view.pending, op.agg) + [op.event], e);
        CountUpdate(s.added, op.agg, Of(s.added, op.agg) + [op.event], e);
      }
    }
  }

  /** Added more often than it is still to be found. */
  ghost predicate Missing<D>(s: State<D>, e: Event) {
    CountIn(s.added, e) > Content(s.view, e)
  }

  /** The call at position `n` loses `e`. */
  predicate LosesAt<D>(source: string, d: D, ops: seq<Op<D>>, n: nat, e: Event) {
    n < |ops| && e in LostBy(source, Run(source, d, ops[..n]).view, ops[n])
  }

  /** An event goes missing exactly when some call drains it and then fails at an insert or at the commit. */
  lemma MissingIff<D>(source: string, d: D, ops: seq<Op<D>>, e: Event)
    ensures Missing(Run(source, d, ops), e) <==> exists n: nat :: LosesAt(source, d, ops, n, e)
  {
    var losses := Losses(source, d, ops);
    RunAccounts(source, d, ops, e);
    InConcat(losses, e);
    forall n: nat | n < |ops| ensures LosesAt(source, d, ops, n, e) <==> e in losses[n] {
      LossesAt(source, d, ops, n);
    }
  }

  lemma RunSnoc<D>(source: string, d: D, ops: seq<Op<D>>, op: Op<D>)
    ensures Run(source, d, ops + [op]) == Step(source, Run(source, d, ops), op)
  {
    assert (ops + [op])[..|ops|] == ops;
  }

  /** A failed commit, then a successful retry of the same call: the domain write is there, the event is not. */
  lemma RetryAfterFailedCommitLosesEvent<D>(source: string, d: D, e: Event, fn: D -> FnResult<D>)
    requires fn(d).Saved?
    ensures var failed, retried := Execute([0], fn, Weather(true, false, _ => false)), Execute([0], fn, Weather(true, true, _ => false));
            var s := Run(source, d, [] + [Add(0, e)] + [failed] + [retried]);
            && s.view.domain == fn(d).domain && s.view.outbox == [] && Of(s.view.pending, 0) == []
            && Of(s.added, 0) == [e] && Missing(s, e)
  {
    var none: Event -> bool := _ => false;
    var add, failed, retried := Add(0, e), Execute([0], fn, Weather(true, false, none)), Execute([0], fn, Weather(true, true, none));
    RunSnoc(source, d, [], add);
    RunSnoc(source, d, [] + [add], failed);
    RunSnoc(source, d, [] + [add] + [failed], retried);
    var s1 := Run(source, d, [] + [add]);
    PublishOne(s1.view.outbox, s1.view.pending, 0, source, none);
    var s2 := Run(source, d, [] + [add] + [failed]);
    PublishOne(s2.view.outbox, s2.view.pending, 0, source, none);
    var ops := [] + [add] + [failed] + [retried];
    assert ops[..1] == [] + [add] && ops[1] == failed;
    assert Drained(s1.view.pending, [0]) == [e];
    assert LosesAt(source, d, ops, 1, e);
    MissingIff(source, d, ops, e);
  }
}
