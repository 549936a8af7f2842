/**
 The priority-ordered shutdown group (infra/concurrency/shutdown.go:51-116): registration, the stable
 sort, the batches of equal priority and the errors it joins.
 */
module Shutdown {
  import opened Prelude

  type Error = string

  datatype Entry = Entry(priority: int, name: string)

  /** The position order of a stable sort: by priority, then by registration. */
  predicate Before(es: seq<Entry>, a: nat, b: nat)
    requires a < |es| && b < |es|
  {
    es[a].priority < es[b].priority || (es[a].priority == es[b].priority && a < b)
  }

  /** `order` lists the registrations of `es`, each of them, in priority-then-registration order. */
  ghost predicate StableOrder(es: seq<Entry>, order: seq<nat>) {
    && |order| == |es|
    && (forall p :: 0 <= p < |order| ==> order[p] < |es|)
    && (forall p, q :: 0 <= p < q < |order| ==> Before(es, order[p], order[q]))
    && forall a: nat :: a < |es| ==> a in order
  }

  /** There is only one such order, so the result does not depend on the sorting algorithm. */
  lemma {:induction false} StableOrderUnique(es: seq<Entry>, x: seq<nat>, y: seq<nat>, n: nat)
    requires StableOrder(es, x) && StableOrder(es, y) && n <= |es|
    ensures x[..n] == y[..n]
  {
    if n > 0 {
      var p := n - 1;
      StableOrderUnique(es, x, y, p);
      assert forall q :: 0 <= q < p ==> x[q] == x[..p][q] == y[..p][q] == y[q];
      assert x[p] in y && y[p] in x;
      var q :| 0 <= q < |y| && y[q] == x[p];
      var r :| 0 <= r < |x| && x[r] == y[p];
      assert q >= p && r >= p;
      assert q == p;
      assert x[..n] == x[..p] + [x[p]] && y[..n] == y[..p] + [y[p]];
    }
  }

  /** The non-nil errors, in order. */
  function ErrorsOf(results: seq<Option<Error>>): seq<Error> {
    if results == [] then []
    else
      ErrorsOf(results[..|results| - 1]) +
      match results[|results| - 1] { case None => [] case Some(e) => [e] }
  }

  lemma {:induction false} ErrorsConcat(a: seq<Option<Error>>, b: seq<Option<Error>>)
    ensures ErrorsOf(a + b) == ErrorsOf(a) + ErrorsOf(b)
  {
    if b == [] {
      assert a + b == a;
    } else {
      ErrorsConcat(a, b[..|b| - 1]);
      assert (a + b)[..|a + b| - 1] == a + b[..|b| - 1];
    }
  }

  /** How many of the results are errors. */
  function ErrorCount(results: seq<Option<Error>>): nat {
    if results == [] then 0
    else ErrorCount(results[..|results| - 1]) + if results[|results| - 1].Some? then 1 else 0
  }

  /** The joined errors are all the errors returned, each in the place its predecessors leave it. */
  lemma {:induction false} ErrorsExactly(results: seq<Option<Error>>, k: nat)
    requires k < |results|
    ensures |ErrorsOf(results)| == ErrorCount(results)
    ensures results[k].Some? ==>
              var n := ErrorCount(results[..k]); n < |ErrorsOf(results)| && ErrorsOf(results)[n] == results[k].value
    decreases |results|
  {
    var last := |results| - 1;
    if last > 0 {
      ErrorsExactly(results[..last], if k < last then k else 0);
    } else {
      assert results[..0] == [];
    }
    if k < last {
      assert results[..last][..k] == results[..k];
    }
  }

  /** What the closers returned, listed in the given order. */
  function InOrder(results: nat -> Option<Error>, order: seq<nat>): seq<Option<Error>> {
    seq(|order|, p requires 0 <= p < |order| => results(order[p]))
  }

  /** Stable sort of the registrations by priority. */
  method StableSort(es: seq<Entry>) returns (order: seq<nat>)
    ensures StableOrder(es, order)
    ensures Distinct(order) && forall a: nat :: a in order <==> a < |es|
    ensures forall p, q :: 0 <= p < q < |order| ==>
              && es[order[p]].priority <= es[order[q]].priority
              && (es[order[p]].priority == es[order[q]].priority ==> order[p] < order[q])
  {
    order := [];
    var k := 0;
    while k < |es|
      invariant 0 <= k <= |es| == |es[..k]| + |es[k..]|
      invariant StableOrder(es[..k], order)
    {
      var p := k;
      while p > 0 && es[order[p - 1]].priority > es[k].priority
        invariant 0 <= p <= k
        invariant forall q :: p <= q < k ==> es[order[q]].priority > es[k].priority
      {
        p := p - 1;
      }
      InsertKeepsOrder(es, order, k, p);
      order := Insert(order, p, k);
      k := k + 1;
    }
    assert es[..k] == es;
  }

  function Insert(order: seq<nat>, p: nat, k: nat): seq<nat>
    requires p <= |order|
  {
    order[..p] + [k] + order[p..]
  }

  lemma InsertKeepsOrder(es: seq<Entry>, order: seq<nat>, k: nat, p: nat)
    requires k < |es| && StableOrder(es[..k], order) && p <= k
    requires forall q :: p <= q < k ==> es[order[q]].priority > es[k].priority
    requires p > 0 ==> es[order[p - 1]].priority <= es[k].priority
    ensures StableOrder(es[..k + 1], Insert(order, p, k))
  {
    var order' := Insert(order, p, k);
    forall a: nat | a < k + 1 ensures a in order' {
      if a == k {
        assert order'[p] == k;
      } else {
        assert a in order;
        var q :| 0 <= q < |order| && order[q] == a;
        assert order'[if q < p then q else q + 1] == a;
      }
    }
    forall q, r | 0 <= q < r < |order'| ensures Before(es[..k + 1], order'[q], order'[r]) {
      InsertKeepsPair(es, order, k, p, q, r);
    }
  }

  lemma InsertKeepsPair(es: seq<Entry>, order: seq<nat>, k: nat, p: nat, q: nat, r: nat)
    requires k < |es| && StableOrder(es[..k], order) && p <= k
    requires forall q :: p <= q < k ==> es[order[q]].priority > es[k].priority
    requires p > 0 ==> es[order[p - 1]].priority <= es[k].priority
    requires q < r <= k
    ensures var order' := Insert(order, p, k); Before(es[..k + 1], order'[q], order'[r])
  {
    if r == p {
      assert q < p - 1 ==> Before(es[..k], order[q], order[p - 1]);
    } else if q != p {
      assert Before(es[..k], order[if q < p then q else q - 1], order[if r < p then r else r - 1]);
    }
  }

  class ShutdownGroup {
    var entries: seq<Entry>

    constructor ()
      ensures entries == []
    {
      entries := [];
    }

    method Add(priority: int, name: string)
      modifies this
      ensures entries == old(entries) + [Entry(priority, name)]
    {
      entries := entries + [Entry(priority, name)];
    }

    /**
     Closes everything registered so far; `results` is what each closer returns. Within a batch the
     closers return in any order. `closed` is the order in which they did.
     */
    method Shutdown(results: nat -> Option<Error>) returns (errs: seq<Error>, closed: seq<nat>)
      ensures exists order :: StableOrder(entries, order) && errs == ErrorsOf(InOrder(results, order))
      ensures Distinct(closed) && forall a: nat :: a in closed <==> a < |entries|
      ensures Ascending(entries, closed)
    {
      var order := StableSort(entries);
      errs, closed := [], [];
      var i := 0;
      while i < |order|
        invariant 0 <= i <= |order|
        invariant errs == ErrorsOf(InOrder(results, order)[..i])
        invariant Covers(closed, order[..i]) && Ascending(entries, closed)
        decreases |order| - i
      {
        var j := BatchEnd(entries, order, i);
        var batchErrs, ran := RunBatch(order[i..j], results);
        errs := errs + ErrorsOf(batchErrs);
        BatchCollected(results, order, i, j);
        CoversMore(entries, order, i, j, closed, ran);
        closed := closed + ran;
        i := j;
      }
      assert order[..i] == order && InOrder(results, order)[..i] == InOrder(results, order);
      CoversAll(entries, order, closed);
    }

    /** The end of the run of entries that share the priority at `i`. */
    method BatchEnd(es: seq<Entry>, order: seq<nat>, i: nat) returns (j: nat)
      requires StableOrder(es, order) && i < |order|
      ensures i < j <= |order|
      ensures forall p :: i <= p < j ==> es[order[p]].priority == es[order[i]].priority
      ensures forall p :: j <= p < |order| ==> es[order[p]].priority > es[order[i]].priority
    {
      j := i;
      while j < |order| && es[order[j]].priority == es[order[i]].priority
        invariant i <= j <= |order|
        invariant forall p :: i <= p < j ==> es[order[p]].priority == es[order[i]].priority
      {
        j := j + 1;
      }
      if j < |order| {
        assert Before(es, order[i], order[j]);
        assert forall p :: j < p < |order| ==> Before(es, order[j], order[p]);
      }
    }

    /** One goroutine per entry of the batch, each writing its own cell, in any order; then the join. */
    method RunBatch(batch: seq<nat>, results: nat -> Option<Error>) returns (batchErrs: seq<Option<Error>>, ran: seq<nat>)
      requires Distinct(batch)
      ensures batchErrs == InOrder(results, batch)
      ensures Covers(ran, batch)
    {
      var cells: array<Option<Error>> := new Option<Error>[|batch|](_ => None);
      var waiting: set<nat> := {};
      for p := 0 to |batch|
        invariant forall q: nat :: q in waiting <==> q < p
      {
        waiting := waiting + {p};
      }
      ran := [];
      while waiting != {}
        invariant forall p: nat :: p in waiting ==> p < |batch|
        invariant forall p: nat :: p < |batch| && p !in waiting ==> cells[p] == results(batch[p])
        invariant Distinct(ran) && forall p: nat :: p < |batch| ==> (batch[p] in ran <==> p !in waiting)
        invariant forall k :: 0 <= k < |ran| ==> ran[k] in batch
        decreases |waiting|
      {
        var p: nat :| p in waiting;
        cells[p] := results(batch[p]);
        assert batch[p] !in ran;
        ran := ran + [batch[p]];
        waiting := waiting - {p};
      }
      batchErrs := cells[..];
      assert batchErrs == InOrder(results, batch);
    }
  }

  /** `closed` has the same elements as `xs`, each once. */
  ghost predicate Covers(closed: seq<nat>, xs: seq<nat>) {
    Distinct(closed) && forall a: nat :: a in closed <==> a in xs
  }

  ghost predicate Ascending(es: seq<Entry>, closed: seq<nat>) {
    && (forall k :: 0 <= k < |closed| ==> closed[k] < |es|)
    && forall k, l :: 0 <= k < l < |closed| ==> es[closed[k]].priority <= es[closed[l]].priority
  }

  lemma BatchCollected(results: nat -> Option<Error>, order: seq<nat>, i: nat, j: nat)
    requires i <= j <= |order|
    ensures ErrorsOf(InOrder(results, order)[..j]) ==
            ErrorsOf(InOrder(results, order)[..i]) + ErrorsOf(InOrder(results, order[i..j]))
  {
    var all := InOrder(results, order);
    ErrorsConcat(all[..i], all[i..j]);
    assert all[..j] == all[..i] + all[i..j] && all[i..j] == InOrder(results, order[i..j]);
  }

  lemma CoversMore(es: seq<Entry>, order: seq<nat>, i: nat, j: nat, closed: seq<nat>, ran: seq<nat>)
    requires StableOrder(es, order) && i < j <= |order|
    requires forall p :: i <= p < j ==> es[order[p]].priority == es[order[i]].priority
    requires Covers(closed, order[..i]) && Ascending(es, closed) && Covers(ran, order[i..j])
    ensures Covers(closed + ran, order[..j]) && Ascending(es, closed + ran)
  {
    assert order[..j] == order[..i] + order[i..j];
    forall k | 0 <= k < |closed| ensures closed[k] !in ran && es[closed[k]].priority <= es[order[i]].priority {
      assert closed[k] in order[..i];
      var p :| 0 <= p < i && order[p] == closed[k];
      assert Before(es, order[p], order[i]);
    }
    forall k | 0 <= k < |ran| ensures ran[k] < |es| && es[ran[k]].priority == es[order[i]].priority {
      assert ran[k] in order[i..j];
      var q :| i <= q < j && order[q] == ran[k];
    }
  }

  lemma CoversAll(es: seq<Entry>, order: seq<nat>, closed: seq<nat>)
    requires StableOrder(es, order) && Covers(closed, order)
    ensures forall a: nat :: a in closed <==> a < |es|
  {
  }
}

/**
 Every interleaving of a shutdown: the loop that spawns the goroutines of a batch, the goroutines, and
 the wait at the end of the batch. Closers are named by their position in the stable order.
 */
module ShutdownBarrier {
  import opened Prelude
  import opened Shutdown

  datatype Status = Idle | Running | Returned(result: Option<Error>)

  datatype State = State(
    i: nat,                 // the current batch is i..j
    j: nat,
    spawned: nat,           // goroutines exist for the positions below this one
    status: seq<Status>,
    errs: seq<Error>)

  datatype Label = Spawn | Start(p: nat) | Return(p: nat, result: Option<Error>) | Join

  /** The end of the run of equal priorities at `i`. */
  function BatchEnd(prios: seq<int>, i: nat): (j: nat)
    requires i <= |prios|
    ensures i <= j <= |prios| && (i < |prios| ==> i < j)
    ensures forall p :: i <= p < j ==> prios[p] == prios[i]
    ensures j < |prios| ==> prios[j] != prios[i]
    decreases |prios| - i
  {
    if i == |prios| then i
    else if i + 1 < |prios| && prios[i + 1] == prios[i] then BatchEnd(prios, i + 1)
    else i + 1
  }

  ghost predicate Sorted(prios: seq<int>) {
    forall p, q :: 0 <= p < q < |prios| ==> prios[p] <= prios[q]
  }

  function Init(prios: seq<int>): State {
    State(0, BatchEnd(prios, 0), 0, seq(|prios|, _ => Idle), [])
  }

  predicate Is(s: State, p: nat, st: Status) {
    p < |s.status| && s.status[p] == st
  }

  predicate AllReturned(s: State) {
    s.j <= |s.status| && forall p :: s.i <= p < s.j ==> s.status[p].Returned?
  }

  predicate Enabled(prios: seq<int>, s: State, l: Label) {
    match l
    case Spawn => s.spawned < s.j
    case Start(p) => s.i <= p < s.spawned && Is(s, p, Idle)
    case Return(p, _) => Is(s, p, Running)
    case Join => s.i < s.j == s.spawned && s.j <= |prios| && AllReturned(s)
  }

  function ResultsOf(status: seq<Status>): seq<Option<Error>> {
    seq(|status|, p requires 0 <= p < |status| => if status[p].Returned? then status[p].result else None)
  }

  function Apply(prios: seq<int>, s: State, l: Label): State
    requires Enabled(prios, s, l)
  {
    match l
    case Spawn => s.(spawned := s.spawned + 1)
    case Start(p) => s.(status := s.status[p := Running])
    case Return(p, r) => s.(status := s.status[p := Returned(r)])
    case Join =>
      s.(errs := s.errs + ErrorsOf(ResultsOf(s.status[s.i..s.j])), i := s.j, j := BatchEnd(prios, s.j))
  }

  predicate Runs(prios: seq<int>, ls: seq<Label>)
    decreases |ls|, 0
  {
    ls == [] ||
    (Runs(prios, ls[..|ls| - 1]) && Enabled(prios, After(prios, ls[..|ls| - 1]), ls[|ls| - 1]))
  }

  function After(prios: seq<int>, ls: seq<Label>): State
    requires Runs(prios, ls)
    decreases |ls|, 1
  {
    if ls == [] then Init(prios) else Apply(prios, After(prios, ls[..|ls| - 1]), ls[|ls| - 1])
  }

  ghost predicate Inv(prios: seq<int>, s: State) {
    && |s.status| == |prios|
    && s.i <= s.spawned <= s.j <= |prios|
    && s.j == BatchEnd(prios, s.i)
    && (forall p :: 0 <= p < s.i ==> s.status[p].Returned?)
    && (forall p :: s.spawned <= p < |prios| ==> s.status[p].Idle?)
    && s.errs == ErrorsOf(ResultsOf(s.status[..s.i]))
  }

  lemma JoinKeepsInv(prios: seq<int>, s: State)
    requires Inv(prios, s) && Enabled(prios, s, Join)
    ensures Inv(prios, Apply(prios, s, Join))
  {
    var a, b := s.status[..s.i], s.status[s.i..s.j];
    assert s.status[..s.j] == a + b;
    assert ResultsOf(a + b) == ResultsOf(a) + ResultsOf(b);
    ErrorsConcat(ResultsOf(a), ResultsOf(b));
  }

  lemma StepKeepsInv(prios: seq<int>, s: State, l: Label)
    requires Inv(prios, s) && Enabled(prios, s, l)
    ensures Inv(prios, Apply(prios, s, l))
  {
    if l.Join? {
      JoinKeepsInv(prios, s);
    } else {
      assert Apply(prios, s, l).status[..s.i] == s.status[..s.i];
    }
  }

  lemma {:induction false} RunKeepsInv(prios: seq<int>, ls: seq<Label>)
    requires Runs(prios, ls)
    ensures Inv(prios, After(prios, ls))
  {
    if ls == [] {
      assert Init(prios).status[..0] == [];
    } else {
      RunKeepsInv(prios, ls[..|ls| - 1]);
      StepKeepsInv(prios, After(prios, ls[..|ls| - 1]), ls[|ls| - 1]);
    }
  }

  function Starts(ls: seq<Label>, p: nat): nat {
    if ls == [] then 0 else Starts(ls[..|ls| - 1], p) + if ls[|ls| - 1] == Start(p) then 1 else 0
  }

  function Returns(ls: seq<Label>, p: nat): nat {
    if ls == [] then 0
    else Returns(ls[..|ls| - 1], p) + if ls[|ls| - 1].Return? && ls[|ls| - 1].p == p then 1 else 0
  }

  /** A closer's status counts its calls and its returns; what it returned was returned by a step of the run. */
  lemma {:induction false} StatusCounts(prios: seq<int>, ls: seq<Label>, p: nat)
    requires Runs(prios, ls) && p < |prios|
    ensures var s := After(prios, ls);
            && p < |s.status|
            && Starts(ls, p) == (if s.status[p].Idle? then 0 else 1)
            && Returns(ls, p) == (if s.status[p].Returned? then 1 else 0)
            && (s.status[p].Returned? ==> Return(p, s.status[p].result) in ls)
  {
    RunKeepsInv(prios, ls);
    if ls != [] {
      var front := ls[..|ls| - 1];
      StatusCounts(prios, front, p);
      assert ls == front + [ls[|ls| - 1]];
    }
  }

  /** In every run, when a closer is started all closers of lower priority have returned. */
  lemma Barrier(prios: seq<int>, ls: seq<Label>, k: nat, p: nat, q: nat)
    requires Sorted(prios) && Runs(prios, ls) && k < |ls| && ls[k] == Start(p)
    requires p < |prios| && q < |prios| && prios[q] < prios[p]
    ensures exists m, r :: 0 <= m < k && ls[m] == Return(q, r)
  {
    RunsPrefix(prios, ls, k + 1);
    assert ls[..k + 1][..k] == ls[..k];
    var s := After(prios, ls[..k]);
    RunKeepsInv(prios, ls[..k]);
    assert prios[p] == prios[s.i] && q < s.i;
    StatusCounts(prios, ls[..k], q);
    var m :| 0 <= m < k && ls[..k][m] == Return(q, s.status[q].result);
    assert ls[m] == Return(q, s.status[q].result);
  }

  lemma {:induction false} RunsPrefix(prios: seq<int>, ls: seq<Label>, k: nat)
    requires Runs(prios, ls) && k <= |ls|
    ensures Runs(prios, ls[..k])
    decreases |ls|
  {
    if k == |ls| {
      assert ls[..k] == ls;
    } else {
      RunsPrefix(prios, ls[..|ls| - 1], k);
      assert ls[..|ls| - 1][..k] == ls[..k];
    }
  }

  /** No closer is ever called twice, whatever fails. */
  lemma AtMostOnce(prios: seq<int>, ls: seq<Label>, p: nat)
    requires Runs(prios, ls) && p < |prios|
    ensures Returns(ls, p) <= Starts(ls, p) <= 1
  {
    StatusCounts(prios, ls, p);
  }

  /** `results` is what the closers returned in the run. */
  ghost predicate ReturnedIn(ls: seq<Label>, results: seq<Option<Error>>) {
    forall p :: 0 <= p < |results| ==> Return(p, results[p]) in ls
  }

  /**
   When the shutdown is over every closer was called once and returned once, and the joined errors are
   those the closers returned, in the stable order.
   */
  lemma CompleteRun(prios: seq<int>, ls: seq<Label>)
    requires Runs(prios, ls) && After(prios, ls).i == |prios|
    ensures forall p: nat :: p < |prios| ==> Starts(ls, p) == 1 && Returns(ls, p) == 1
    ensures exists results ::
              |results| == |prios| && ReturnedIn(ls, results) && After(prios, ls).errs == ErrorsOf(results)
  {
    var s := After(prios, ls);
    RunKeepsInv(prios, ls);
    forall p: nat | p < |prios|
      ensures Starts(ls, p) == 1 && Returns(ls, p) == 1 && Return(p, ResultsOf(s.status)[p]) in ls
    {
      StatusCounts(prios, ls, p);
    }
    assert s.status[..s.i] == s.status;
    assert ReturnedIn(ls, ResultsOf(s.status));
  }

  // Progress.

  /** Until everything is closed some step is possible: neither a failure nor the barrier can block a shutdown. */
  lemma NeverStuck(prios: seq<int>, ls: seq<Label>)
    requires Runs(prios, ls) && After(prios, ls).i < |prios|
    ensures exists l :: Enabled(prios, After(prios, ls), l)
  {
    var s := After(prios, ls);
    RunKeepsInv(prios, ls);
    if s.spawned < s.j {
      assert Enabled(prios, s, Spawn);
    } else if AllReturned(s) {
      assert Enabled(prios, s, Join);
    } else {
      var p :| s.i <= p < s.j && !s.status[p].Returned?;
      if s.status[p].Idle? {
        assert Enabled(prios, s, Start(p));
      } else {
        assert Enabled(prios, s, Return(p, None));
      }
    }
  }

  function Weight(status: seq<Status>): nat {
    if status == [] then 0
    else
      Weight(status[..|status| - 1]) +
      match status[|status| - 1] { case Idle => 2 case Running => 1 case Returned(_) => 0 }
  }

  lemma {:induction false} WeightUpdate(status: seq<Status>, p: nat, st: Status)
    requires p < |status|
    ensures Weight(status[p := st]) == Weight(status) - Weight([status[p]]) + Weight([st])
  {
    var n := |status| - 1;
    if p == n {
      assert status[p := st][..n] == status[..n];
    } else {
      WeightUpdate(status[..n], p, st);
      assert status[p := st][..n] == status[..n][p := st];
    }
  }

  function Left(prios: seq<int>, s: State): int {
    (|prios| - s.spawned) + Weight(s.status) + (|prios| - s.i)
  }

  lemma StepLowersLeft(prios: seq<int>, s: State, l: Label)
    requires Inv(prios, s) && Enabled(prios, s, l)
    ensures 0 <= Left(prios, Apply(prios, s, l)) < Left(prios, s)
  {
    StepKeepsInv(prios, s, l);
    match l
    case Start(p) => WeightUpdate(s.status, p, Running);
    case Return(p, r) => WeightUpdate(s.status, p, Returned(r));
    case _ =>
  }

  lemma {:induction false} IdleWeight(n: nat)
    ensures Weight(seq(n, _ => Idle)) == 2 * n
  {
    if n > 0 {
      IdleWeight(n - 1);
      var all := seq(n, _ => Idle);
      assert all[..n - 1] == seq(n - 1, _ => Idle);
    }
  }

  /** Every run has at most four steps per closer; with `NeverStuck`, every run that goes on as long as it can ends complete. */
  lemma {:induction false} RunsAreShort(prios: seq<int>, ls: seq<Label>)
    requires Runs(prios, ls)
    ensures |ls| + Left(prios, After(prios, ls)) <= 4 * |prios|
    ensures |ls| <= 4 * |prios|
  {
    if ls == [] {
      IdleWeight(|prios|);
    } else {
      var front := ls[..|ls| - 1];
      RunsAreShort(prios, front);
      RunKeepsInv(prios, front);
      StepLowersLeft(prios, After(prios, front), ls[|ls| - 1]);
    }
  }

  /** The priorities in the stable order are sorted, so the results above apply to what `Shutdown` runs. */
  lemma StableOrderIsSorted(es: seq<Entry>, order: seq<nat>)
    requires StableOrder(es, order)
    ensures Sorted(seq(|order|, p requires 0 <= p < |order| => es[order[p]].priority))
  {
    forall p, q | 0 <= p < q < |order| ensures es[order[p]].priority <= es[order[q]].priority {
      assert Before(es, order[p], order[q]);
    }
  }
}
