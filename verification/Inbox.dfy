/** The inbox table and its two users as single calls (infra/events/inbox). */
module InboxStore {
  import opened Prelude

  type Id = string
  type Time = int

  datatype Row = Row(eventType: string, processedAt: Time)

  class Store {
    var rows: map<Id, Row>

    constructor ()
      ensures rows == map[]
    {
      rows := map[];
    }

    method IsProcessed(id: Id) returns (found: bool)
      ensures found <==> id in rows
    {
      found := id in rows;
    }

    /** Inserts unless the id is there; tells whether it inserted. */
    method MarkProcessed(id: Id, eventType: string, now: Time) returns (inserted: bool)
      modifies this
      ensures inserted <==> id !in old(rows)
      ensures rows == if inserted then old(rows)[id := Row(eventType, now)] else old(rows)
    {
      inserted := id !in rows;
      if inserted {
        rows := rows[id := Row(eventType, now)];
      }
    }

    method Cleanup(cutoff: Time) returns (n: nat)
      modifies this
      ensures rows == map id | id in old(rows) && old(rows)[id].processedAt >= cutoff :: old(rows)[id]
      ensures n == |old(rows).Keys - rows.Keys|
    {
      var stale := set id | id in rows && rows[id].processedAt < cutoff;
      n := |stale|;
      assert rows.Keys - (rows - stale).Keys == stale;
      rows := rows - stale;
    }
  }

  /**
   One delivery through the middleware: handler first, marker after it succeeded. The answers of the
   table and of the handler come from outside.
   */
  method WrapOnce(store: Store, id: Id, eventTypeHeader: string, subject: string, now: Time,
                  checkFails: bool, handlerErr: Option<string>, markFails: bool)
    returns (err: Option<string>, ran: bool)
    modifies store
    ensures ran <==> !checkFails && id !in old(store.rows)
    ensures err.None? <==> !checkFails && (id in old(store.rows) || handlerErr.None?)
    ensures ran && handlerErr.Some? ==> err == handlerErr
    ensures store.rows == if ran && handlerErr.None? && !markFails
                          then old(store.rows)[id := Row(if eventTypeHeader == "" then subject else eventTypeHeader, now)]
                          else old(store.rows)
  {
    var eventType := if eventTypeHeader == "" then subject else eventTypeHeader;
    ran := false;
    if checkFails { return Some("dedup check"), false; }
    var done := store.IsProcessed(id);
    if done { return None, false; }
    ran := true;
    if handlerErr.Some? { return handlerErr, true; }
    if !markFails {
      var inserted := store.MarkProcessed(id, eventType, now);
    }
    return None, true;
  }

  /** One delivery through the processor: marker first, handler only for the one that inserted it. */
  method ProcessOnce(store: Store, id: Id, eventType: string, now: Time, insertFails: bool, handlerErr: Option<string>)
    returns (err: Option<string>, ran: bool)
    modifies store
    ensures ran <==> !insertFails && id !in old(store.rows)
    ensures err.None? <==> !insertFails && (ran ==> handlerErr.None?)
    ensures store.rows == if ran then old(store.rows)[id := Row(eventType, now)] else old(store.rows)
  {
    if insertFails { return Some("record event"), false; }
    var inserted := store.MarkProcessed(id, eventType, now);
    if !inserted { return None, false; }
    return handlerErr, true;
  }
}

/**
 Concurrent deliveries through the middleware (infra/events/inbox/middleware.go:71-113). The middleware
 is the only writer of the markers.
 */
module InboxMiddleware {
  type Id = string
  type DeliveryId = nat

  datatype Delivery =
    | Arrived(id: Id)
    | Handling(id: Id)
    | Handled(id: Id)
    | ReturnedNil(id: Id)
    | ReturnedErr(id: Id)

  datatype State = State(
    markers: set<Id>,
    succeeded: set<Id>,                 // ids for which a handler has returned nil
    deliveries: map<DeliveryId, Delivery>)

  datatype Label =
    | Deliver(d: DeliveryId, id: Id)
    | CheckMarker(d: DeliveryId, ok: bool)
    | RunHandler(d: DeliveryId, ok: bool)
    | WriteMarker(d: DeliveryId, ok: bool)
    | Cleanup(ids: set<Id>)
    | Crash(d: DeliveryId)

  const INIT := State({}, {}, map[])

  predicate Enabled(s: State, l: Label) {
    match l
    case Deliver(d, id) => d !in s.deliveries
    case CheckMarker(d, ok) => d in s.deliveries && s.deliveries[d].Arrived?
    case RunHandler(d, ok) => d in s.deliveries && s.deliveries[d].Handling?
    case WriteMarker(d, ok) => d in s.deliveries && s.deliveries[d].Handled?
    case Cleanup(ids) => true
    case Crash(d) => d in s.deliveries
  }

  function Apply(s: State, l: Label): State
    requires Enabled(s, l)
  {
    match l
    case Deliver(d, id) => s.(deliveries := s.deliveries[d := Arrived(id)])
    case CheckMarker(d, ok) =>
      var id := s.deliveries[d].id;
      s.(deliveries := s.deliveries[d := if !ok then ReturnedErr(id)
                                         else if id in s.markers then ReturnedNil(id)
                                         else Handling(id)])
    case RunHandler(d, ok) =>
      var id := s.deliveries[d].id;
      if ok then s.(succeeded := s.succeeded + {id}, deliveries := s.deliveries[d := Handled(id)])
      else s.(deliveries := s.deliveries[d := ReturnedErr(id)])
    case WriteMarker(d, ok) =>
      var id := s.deliveries[d].id;
      s.(markers := if ok then s.markers + {id} else s.markers,
         deliveries := s.deliveries[d := ReturnedNil(id)])
    case Cleanup(ids) => s.(markers := s.markers - ids)
    case Crash(d) => s.(deliveries := s.deliveries - {d})
  }

  predicate Runs(s: State, ls: seq<Label>)
    decreases |ls|
  {
    ls == [] || (Enabled(s, ls[0]) && Runs(Apply(s, ls[0]), ls[1..]))
  }

  function After(s: State, ls: seq<Label>): State
    requires Runs(s, ls)
    decreases |ls|
  {
    if ls == [] then s else After(Apply(s, ls[0]), ls[1..])
  }

  ghost predicate Reachable(s: State) {
    exists ls :: Runs(INIT, ls) && After(INIT, ls) == s
  }

  /** A marker, and a nil return, always stand for a handler success at or before it. */
  predicate MarkersEarned(s: State) {
    && s.markers <= s.succeeded
    && forall d :: d in s.deliveries && (s.deliveries[d].Handled? || s.deliveries[d].ReturnedNil?) ==>
         s.deliveries[d].id in s.succeeded
  }

  lemma {:induction false} RunKeepsEarned(s: State, ls: seq<Label>)
    requires MarkersEarned(s) && Runs(s, ls)
    ensures MarkersEarned(After(s, ls))
    decreases |ls|
  {
    if ls != [] {
      assert MarkersEarned(Apply(s, ls[0]));
      RunKeepsEarned(Apply(s, ls[0]), ls[1..]);
    }
  }

  lemma NilMeansHandled(s: State)
    requires Reachable(s)
    ensures MarkersEarned(s)
  {
    var ls :| Runs(INIT, ls) && After(INIT, ls) == s;
    RunKeepsEarned(INIT, ls);
  }

  /** No step of the run deletes the marker of `id`. */
  predicate Untouched(ls: seq<Label>, id: Id) {
    forall i :: 0 <= i < |ls| ==> !(ls[i].Cleanup? && id in ls[i].ids)
  }

  /** The delivery has not begun, or is one of `id` that never reaches the handler. */
  predicate Skipped(s: State, d: DeliveryId, id: Id) {
    d in s.deliveries && s.deliveries[d].id == id ==> !s.deliveries[d].Handling? && !s.deliveries[d].Handled?
  }

  /**
   Once the marker stands, a delivery of that id that starts later does not run the handler, in whatever
   interleaving, until a clean-up of the id.
   */
  lemma {:induction false} MarkedIsSkipped(s: State, ls: seq<Label>, d: DeliveryId, id: Id)
    requires id in s.markers && Skipped(s, d, id)
    requires Runs(s, ls) && Untouched(ls, id)
    ensures id in After(s, ls).markers && Skipped(After(s, ls), d, id)
    decreases |ls|
  {
    if ls != [] {
      var l := ls[0];
      assert !(l.Cleanup? && id in l.ids);
      assert forall i :: 0 <= i < |ls[1..]| ==> ls[1..][i] == ls[i + 1];
      MarkedIsSkipped(Apply(s, l), ls[1..], d, id);
    }
  }

  /** Two overlapping deliveries of one id both run the handler: delivery is at least once. */
  lemma OverlapRunsTwice(id: Id)
    ensures exists s :: Reachable(s) && 0 in s.deliveries && 1 in s.deliveries
                        && s.deliveries[0] == Handling(id) && s.deliveries[1] == Handling(id)
  {
    var a, b, c, e := Deliver(0, id), Deliver(1, id), CheckMarker(0, true), CheckMarker(1, true);
    var s1 := Apply(INIT, a);
    var s2 := Apply(s1, b);
    var s3 := Apply(s2, c);
    var s4 := Apply(s3, e);
    StepThen(s3, e, []);
    StepThen(s2, c, [e]);
    StepThen(s1, b, [c] + [e]);
    StepThen(INIT, a, [b] + ([c] + [e]));
    assert Reachable(s4);
  }

  lemma StepThen(s: State, l: Label, rest: seq<Label>)
    requires Enabled(s, l) && Runs(Apply(s, l), rest)
    ensures Runs(s, [l] + rest) && After(s, [l] + rest) == After(Apply(s, l), rest)
  {
    assert ([l] + rest)[1..] == rest;
  }

  /** The steps of a delivery that nobody interrupts. */
  function DeliveryLabels(s: State, d: DeliveryId, id: Id, checkOk: bool, handlerOk: bool, markOk: bool): seq<Label> {
    [Deliver(d, id)] + ([CheckMarker(d, checkOk)]
    + if !checkOk || id in s.markers then []
      else [RunHandler(d, handlerOk)] + if !handlerOk then [] else [WriteMarker(d, markOk)] + [])
  }

  /** It runs the handler for an unmarked id, leaves a marker if that and the write succeed, and returns nil or an error. */
  lemma UninterruptedDelivery(s: State, d: DeliveryId, id: Id, checkOk: bool, handlerOk: bool, markOk: bool)
    requires d !in s.deliveries
    ensures var ls, ran := DeliveryLabels(s, d, id, checkOk, handlerOk, markOk), checkOk && id !in s.markers;
            && Runs(s, ls)
            && After(s, ls).markers == (if ran && handlerOk && markOk then s.markers + {id} else s.markers)
            && After(s, ls).succeeded == (if ran && handlerOk then s.succeeded + {id} else s.succeeded)
            && After(s, ls).deliveries ==
               s.deliveries[d := if checkOk && (id in s.markers || handlerOk) then ReturnedNil(id) else ReturnedErr(id)]
  {
    var s1 := Apply(s, Deliver(d, id));
    var s2 := Apply(s1, CheckMarker(d, checkOk));
    var rest: seq<Label> := [];
    if checkOk && id !in s.markers {
      var s3 := Apply(s2, RunHandler(d, handlerOk));
      var last: seq<Label> := [];
      if handlerOk {
        StepThen(s3, WriteMarker(d, markOk), []);
        last := [WriteMarker(d, markOk)] + [];
      }
      StepThen(s2, RunHandler(d, handlerOk), last);
      rest := [RunHandler(d, handlerOk)] + last;
    }
    StepThen(s1, CheckMarker(d, checkOk), rest);
    StepThen(s, Deliver(d, id), [CheckMarker(d, checkOk)] + rest);
  }

  /** After a delivery that succeeded and was marked, no later one of the id runs the handler before a clean-up of it. */
  lemma SecondDeliveryIsSkipped(s: State, d: DeliveryId, d': DeliveryId, id: Id, ls: seq<Label>)
    requires d !in s.deliveries && d' !in s.deliveries && d != d' && id !in s.markers
    requires var first := DeliveryLabels(s, d, id, true, true, true);
             Runs(s, first) && Runs(After(s, first), ls) && Untouched(ls, id)
    ensures var s1 := After(s, DeliveryLabels(s, d, id, true, true, true));
            id in After(s1, ls).markers && Skipped(After(s1, ls), d', id)
  {
    UninterruptedDelivery(s, d, id, true, true, true);
    MarkedIsSkipped(After(s, DeliveryLabels(s, d, id, true, true, true)), ls, d', id);
  }
}

/** Concurrent deliveries through the insert-first processor (infra/events/inbox/processor.go:43-73). */
module InboxProcessor {
  type Id = string
  type DeliveryId = nat

  datatype Delivery = Arrived(id: Id) | Won(id: Id) | Running(id: Id) | Ended(id: Id)

  datatype State = State(markers: set<Id>, deliveries: map<DeliveryId, Delivery>)

  datatype Label =
    | Deliver(d: DeliveryId, id: Id)
    | Insert(d: DeliveryId, ok: bool)
    | Start(d: DeliveryId)
    | Finish(d: DeliveryId, ok: bool)
    | Cleanup(ids: set<Id>)
    | Crash(d: DeliveryId)

  const INIT := State({}, map[])

  predicate Enabled(s: State, l: Label) {
    match l
    case Deliver(d, id) => d !in s.deliveries
    case Insert(d, ok) => d in s.deliveries && s.deliveries[d].Arrived?
    case Start(d) => d in s.deliveries && s.deliveries[d].Won?
    case Finish(d, ok) => d in s.deliveries && s.deliveries[d].Running?
    case Cleanup(ids) => true
    case Crash(d) => d in s.deliveries
  }

  function Apply(s: State, l: Label): State
    requires Enabled(s, l)
  {
    match l
    case Deliver(d, id) => s.(deliveries := s.deliveries[d := Arrived(id)])
    case Insert(d, ok) =>
      var id := s.deliveries[d].id;
      if !ok || id in s.markers then s.(deliveries := s.deliveries[d := Ended(id)])
      else s.(markers := s.markers + {id}, deliveries := s.deliveries[d := Won(id)])
    case Start(d) => s.(deliveries := s.deliveries[d := Running(s.deliveries[d].id)])
    case Finish(d, ok) => s.(deliveries := s.deliveries[d := Ended(s.deliveries[d].id)])
    case Cleanup(ids) => s.(markers := s.markers - ids)
    case Crash(d) => s.(deliveries := s.deliveries - {d})
  }

  predicate Runs(s: State, ls: seq<Label>)
    decreases |ls|
  {
    ls == [] || (Enabled(s, ls[0]) && Runs(Apply(s, ls[0]), ls[1..]))
  }

  function After(s: State, ls: seq<Label>): State
    requires Runs(s, ls)
    decreases |ls|
  {
    if ls == [] then s else After(Apply(s, ls[0]), ls[1..])
  }

  predicate Starts(s: State, l: Label, id: Id) {
    l.Start? && l.d in s.deliveries && s.deliveries[l.d].id == id
  }

  /** How often the handler is started for `id` along a run. */
  function StartCount(s: State, ls: seq<Label>, id: Id): nat
    requires Runs(s, ls)
    decreases |ls|
  {
    if ls == [] then 0
    else (if Starts(s, ls[0], id) then 1 else 0) + StartCount(Apply(s, ls[0]), ls[1..], id)
  }

  predicate Cleans(l: Label, id: Id) {
    l.Cleanup? && id in l.ids
  }

  /** No step of the run deletes the marker of `id`. */
  predicate Untouched(ls: seq<Label>, id: Id) {
    forall i :: 0 <= i < |ls| ==> !Cleans(ls[i], id)
  }

  /** Deliveries that inserted the marker and have not yet started the handler. */
  function Winners(s: State, id: Id): set<DeliveryId> {
    set d | d in s.deliveries && s.deliveries[d] == Won(id)
  }

  /** The starts that can still happen before the marker is cleaned up. */
  function Budget(s: State, id: Id): nat {
    |Winners(s, id)| + if id in s.markers then 0 else 1
  }

  /** Only the delivery that moves can become or cease to be a pending winner. */
  lemma OtherWinners(s: State, l: Label, id: Id)
    requires Enabled(s, l)
    ensures var w, w' := Winners(s, id), Winners(Apply(s, l), id);
            if l.Cleanup? then w' == w else w' - {l.d} == w - {l.d}
  {
  }

  lemma MovingWinner(s: State, l: Label, id: Id)
    requires Enabled(s, l) && !l.Cleanup?
    ensures l.d in Winners(s, id) <==> l.d in s.deliveries && s.deliveries[l.d] == Won(id)
    ensures l.d in Winners(Apply(s, l), id) ==> (l.d in Winners(s, id) && !l.Start?) || (l.Insert? && id !in s.markers)
    ensures Starts(s, l, id) ==> l.d in Winners(s, id) && l.d !in Winners(Apply(s, l), id)
  {
  }

  lemma SizeChange(w: set<DeliveryId>, w': set<DeliveryId>, d: DeliveryId)
    requires w' - {d} == w - {d}
    ensures |w'| + (if d in w then 1 else 0) == |w| + (if d in w' then 1 else 0)
  {
    assert d in w ==> w == (w - {d}) + {d};
    assert d !in w ==> w == w - {d};
    assert d in w' ==> w' == (w' - {d}) + {d};
    assert d !in w' ==> w' == w' - {d};
  }

  lemma StepSpendsBudget(s: State, l: Label, id: Id)
    requires Enabled(s, l) && !Cleans(l, id)
    ensures Budget(Apply(s, l), id) + (if Starts(s, l, id) then 1 else 0) <= Budget(s, id)
  {
    OtherWinners(s, l, id);
    if !l.Cleanup? {
      MovingWinner(s, l, id);
      SizeChange(Winners(s, id), Winners(Apply(s, l), id), l.d);
    }
  }

  /** Between two clean-ups the handler starts at most once for each delivery that had already won, and once more. */
  lemma {:induction false} StartsBounded(s: State, ls: seq<Label>, id: Id)
    requires Runs(s, ls) && Untouched(ls, id)
    ensures StartCount(s, ls, id) <= Budget(s, id)
    decreases |ls|
  {
    if ls != [] {
      assert !Cleans(ls[0], id);
      StepSpendsBudget(s, ls[0], id);
      assert forall i :: 0 <= i < |ls[1..]| ==> ls[1..][i] == ls[i + 1];
      StartsBounded(Apply(s, ls[0]), ls[1..], id);
    }
  }

  lemma StepThen(s: State, l: Label, rest: seq<Label>, id: Id)
    requires Enabled(s, l) && Runs(Apply(s, l), rest) && !Cleans(l, id) && Untouched(rest, id)
    ensures Runs(s, [l] + rest) && Untouched([l] + rest, id)
    ensures StartCount(s, [l] + rest, id) == (if Starts(s, l, id) then 1 else 0) + StartCount(Apply(s, l), rest, id)
  {
    assert ([l] + rest)[1..] == rest;
  }

  lemma {:induction false} FreshDelivery(m: map<DeliveryId, Delivery>) returns (d: DeliveryId)
    ensures d !in m
    ensures forall k :: k in m ==> k < d
    decreases |m|
  {
    if m == map[] {
      d := 0;
    } else {
      var k :| k in m;
      var e := FreshDelivery(m - {k});
      d := if k < e then e else k + 1;
      forall j | j in m ensures j < d {
        if j != k { assert j in m - {k}; }
      }
    }
  }

  /** Every pending winner starts, then a fresh delivery wins and starts: the bound is reached. */
  lemma {:induction false} BudgetReached(s: State, id: Id) returns (ls: seq<Label>)
    ensures Runs(s, ls) && Untouched(ls, id) && StartCount(s, ls, id) == Budget(s, id)
    decreases |Winners(s, id)|
  {
    var w := Winners(s, id);
    if d :| d in w {
      var s' := Apply(s, Start(d));
      assert Winners(s', id) == w - {d};
      var rest := BudgetReached(s', id);
      StepThen(s, Start(d), rest, id);
      ls := [Start(d)] + rest;
    } else {
      assert w == {};
      if id in s.markers {
        ls := [];
      } else {
        ls := FirstDelivery(s, id);
      }
    }
  }

  lemma FirstDelivery(s: State, id: Id) returns (ls: seq<Label>)
    requires id !in s.markers
    ensures Runs(s, ls) && Untouched(ls, id) && StartCount(s, ls, id) == 1
  {
    var d := FreshDelivery(s.deliveries);
    var s1 := Apply(s, Deliver(d, id));
    var s2 := Apply(s1, Insert(d, true));
    assert s2.deliveries[d] == Won(id);
    StepThen(s2, Start(d), [], id);
    StepThen(s1, Insert(d, true), [Start(d)], id);
    StepThen(s, Deliver(d, id), [Insert(d, true)] + [Start(d)], id);
    ls := [Deliver(d, id)] + ([Insert(d, true)] + [Start(d)]);
  }

  /** From `s` on, no run starts the handler twice before the next clean-up of `id`. */
  ghost predicate AtMostOnce(s: State, id: Id) {
    forall ls :: Runs(s, ls) && Untouched(ls, id) ==> StartCount(s, ls, id) <= 1
  }

  /**
   At most one start between two clean-ups, exactly when the first of them found no delivery that had won
   the marker and not yet started its handler.
   */
  lemma OnceIffNoPendingWinner(s: State, id: Id)
    requires id !in s.markers
    ensures AtMostOnce(s, id) <==> Winners(s, id) == {}
  {
    if Winners(s, id) == {} {
      forall ls | Runs(s, ls) && Untouched(ls, id) ensures StartCount(s, ls, id) <= 1 {
        StartsBounded(s, ls, id);
      }
    } else {
      var ls := BudgetReached(s, id);
      assert Budget(s, id) >= 2;
    }
  }

  ghost predicate Reachable(s: State) {
    exists ls :: Runs(INIT, ls) && After(INIT, ls) == s
  }

  /** Such a state is reachable: the marker is cleaned up while its winner is held up before the handler. */
  lemma PendingWinnerReachable(id: Id)
    ensures exists s :: Reachable(s) && id !in s.markers && Winners(s, id) != {}
  {
    var a, b, c := Deliver(0, id), Insert(0, true), Cleanup({id});
    var s1 := Apply(INIT, a);
    var s2 := Apply(s1, b);
    var s3 := Apply(s2, c);
    var ls := [a, b, c];
    assert ls[1..] == [b, c] && ls[1..][1..] == [c] && ls[1..][1..][1..] == [];
    assert Runs(s3, []) && Runs(s2, [c]) && Runs(s1, [b, c]) && Runs(INIT, ls);
    assert After(s2, [c]) == s3 && After(s1, [b, c]) == s3 && After(INIT, ls) == s3;
    assert 0 in Winners(s3, id);
  }

  /** Over a whole run: one start, and one more for every clean-up of the id. */
  lemma {:induction false} StartsPerCleanup(s: State, ls: seq<Label>, id: Id)
    requires Runs(s, ls)
    ensures StartCount(s, ls, id) <= Budget(s, id) + CleanupCount(ls, id)
    decreases |ls|
  {
    if ls != [] {
      if Cleans(ls[0], id) {
        assert Winners(Apply(s, ls[0]), id) == Winners(s, id);
      } else {
        StepSpendsBudget(s, ls[0], id);
      }
      StartsPerCleanup(Apply(s, ls[0]), ls[1..], id);
    }
  }

  function CleanupCount(ls: seq<Label>, id: Id): nat {
    if ls == [] then 0 else (if Cleans(ls[0], id) then 1 else 0) + CleanupCount(ls[1..], id)
  }
}
