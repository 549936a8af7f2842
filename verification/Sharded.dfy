/**
 Data-parallel processing over shards (infra/concurrency/sharded.go:15-112): how the items are cut, what
 any order of the goroutines computes, and which error the second form returns.
 */
module Sharding {
  import opened Prelude

  function Clamp(workers: int, n: nat): (w: nat)
    requires n > 0
    ensures w == if workers > n then n else if workers < 1 then 1 else workers
  {
    var low := if workers < n then workers else n;
    if low < 1 then 1 else low
  }

  function Flatten<T>(shards: seq<seq<T>>): seq<T> {
    if shards == [] then [] else Flatten(shards[..|shards| - 1]) + shards[|shards| - 1]
  }

  function Map<T, R>(fn: seq<T> -> R, shards: seq<seq<T>>): seq<R> {
    seq(|shards|, i requires 0 <= i < |shards| => fn(shards[i]))
  }

  /** The shards are the items cut at w - 1 places into non-empty runs as even as can be, longer ones first. */
  ghost predicate EvenCut<T>(items: seq<T>, w: nat, shards: seq<seq<T>>) {
    && |shards| == w
    && Flatten(shards) == items
    && (forall i :: 0 <= i < |shards| ==> shards[i] != [])
    && forall i, j :: 0 <= i < j < |shards| ==> |shards[j]| <= |shards[i]| <= |shards[j]| + 1
  }

  function Offset(base: nat, remainder: nat, i: nat): nat {
    i * base + if i < remainder then i else remainder
  }

  lemma OffsetNext(base: nat, remainder: nat, i: nat)
    ensures Offset(base, remainder, i + 1) == Offset(base, remainder, i) + base + if i < remainder then 1 else 0
  {
    assert (i + 1) * base == i * base + base;
  }

  lemma {:induction false} MulGrows(q: nat, i: nat, w: nat)
    requires i <= w
    ensures i * q <= w * q
    decreases w - i
  {
    if i < w {
      MulGrows(q, i + 1, w);
      assert (i + 1) * q == i * q + q;
    }
  }

  lemma OffsetInside(n: nat, w: nat, i: nat)
    requires 0 < w && i <= w
    ensures Offset(n / w, n % w, i) <= n
    ensures i == w ==> Offset(n / w, n % w, i) == n
  {
    var q, r := n / w, n % w;
    assert n == w * q + r;
    MulGrows(q, i, w);
  }

  lemma BaseIsPositive(n: nat, w: nat)
    requires 0 < w <= n
    ensures n / w >= 1
  {
    assert n == w * (n / w) + n % w;
  }

  lemma FlattenSnoc<T>(shards: seq<seq<T>>, shard: seq<T>)
    ensures Flatten(shards + [shard]) == Flatten(shards) + shard
  {
    assert (shards + [shard])[..|shards|] == shards;
  }

  /** The loop that walks the running offset. */
  method Split<T>(items: seq<T>, workers: int) returns (shards: seq<seq<T>>)
    ensures items == [] ==> shards == []
    ensures items != [] ==> EvenCut(items, Clamp(workers, |items|), shards)
  {
    shards := [];
    var n := |items|;
    if n == 0 {
      return;
    }
    var w := Clamp(workers, n);
    var base, remainder := n / w, n % w;
    BaseIsPositive(n, w);
    var offset, i := 0, 0;
    while i < w
      invariant 0 <= i <= w && |shards| == i
      invariant offset == Offset(base, remainder, i) <= n
      invariant Flatten(shards) == items[..offset]
      invariant forall k :: 0 <= k < i ==> |shards[k]| == base + if k < remainder then 1 else 0
    {
      var size := base;
      if i < remainder {
        size := size + 1;
      }
      OffsetNext(base, remainder, i);
      OffsetInside(n, w, i + 1);
      var shard := items[offset..offset + size];
      FlattenSnoc(shards, shard);
      assert items[..offset + size] == items[..offset] + shard;
      shards := shards + [shard];
      offset := offset + size;
      i := i + 1;
    }
    OffsetInside(n, w, w);
    assert items[..offset] == items;
  }

  /** Each shard is the stretch of the items that begins where the shards before it end. */
  lemma {:induction false} ShardAt<T>(shards: seq<seq<T>>, k: nat)
    requires k < |shards|
    ensures var from := |Flatten(shards[..k])|;
            from + |shards[k]| <= |Flatten(shards)| && Flatten(shards)[from..from + |shards[k]|] == shards[k]
    decreases |shards|
  {
    var last := |shards| - 1;
    if k == last {
      var before := Flatten(shards[..last]);
      assert (before + shards[last])[|before|..|before| + |shards[last]|] == shards[last];
    } else {
      ShardAt(shards[..last], k);
      assert shards[..last][..k] == shards[..k];
      var front, from := Flatten(shards[..last]), |Flatten(shards[..k])|;
      assert (front + shards[last])[from..from + |shards[k]|] == front[from..from + |shards[k]|];
    }
  }

  lemma {:induction false} FlattenLength<T>(a: seq<seq<T>>, b: seq<seq<T>>)
    requires |a| == |b| && forall i :: 0 <= i < |a| ==> |a[i]| <= |b[i]|
    ensures |Flatten(a)| <= |Flatten(b)|
    ensures (exists i :: 0 <= i < |a| && |a[i]| < |b[i]|) ==> |Flatten(a)| < |Flatten(b)|
  {
    if a != [] {
      FlattenLength(a[..|a| - 1], b[..|b| - 1]);
      if i :| 0 <= i < |a| && |a[i]| < |b[i]| {
        assert i < |a| - 1 ==> |a[..|a| - 1][i]| < |b[..|b| - 1][i]|;
      }
    }
  }

  /** Two even cuts of the same items into as many parts have parts of the same lengths. */
  lemma EvenCutLengths<T>(items: seq<T>, w: nat, a: seq<seq<T>>, b: seq<seq<T>>, k: nat)
    requires EvenCut(items, w, a) && EvenCut(items, w, b) && k < w
    ensures |a[k]| == |b[k]|
  {
    if |a[k]| < |b[k]| {
      LongerNowhere(items, w, a, b, k);
    } else if |b[k]| < |a[k]| {
      LongerNowhere(items, w, b, a, k);
    }
  }

  lemma LongerNowhere<T>(items: seq<T>, w: nat, a: seq<seq<T>>, b: seq<seq<T>>, k: nat)
    requires EvenCut(items, w, a) && EvenCut(items, w, b) && k < w
    ensures |a[k]| >= |b[k]|
  {
    if |a[k]| < |b[k]| {
      forall i | 0 <= i < w ensures |a[i]| <= |b[i]| {
        if i < k {
          assert |a[i]| <= |a[k]| + 1 && |b[k]| <= |b[i]|;
        } else if i > k {
          assert |a[i]| <= |a[k]| && |b[k]| <= |b[i]| + 1;
        }
      }
      FlattenLength(a, b);
      assert false;
    }
  }

  lemma {:induction false} SameLengthsSameCut<T>(a: seq<seq<T>>, b: seq<seq<T>>)
    requires |a| == |b| && Flatten(a) == Flatten(b)
    requires forall i :: 0 <= i < |a| ==> |a[i]| == |b[i]|
    ensures a == b
  {
    if a != [] {
      var n := |a| - 1;
      var fa, fb := Flatten(a[..n]), Flatten(b[..n]);
      FlattenLength(a[..n], b[..n]);
      FlattenLength(b[..n], a[..n]);
      assert fa == (fa + a[n])[..|fa|] == (fb + b[n])[..|fb|] == fb;
      assert a[n] == (fa + a[n])[|fa|..] == (fb + b[n])[|fb|..] == b[n];
      SameLengthsSameCut(a[..n], b[..n]);
      assert a == a[..n] + [a[n]] && b == b[..n] + [b[n]];
    }
  }

  /** The requirements on the shards leave only one way to cut. */
  lemma EvenCutUnique<T>(items: seq<T>, w: nat, a: seq<seq<T>>, b: seq<seq<T>>)
    requires EvenCut(items, w, a) && EvenCut(items, w, b)
    ensures a == b
  {
    forall i | 0 <= i < w ensures |a[i]| == |b[i]| {
      EvenCutLengths(items, w, a, b, i);
    }
    SameLengthsSameCut(a, b);
  }

  /** Goroutines write their own cells in any order; the result lists fn of the shards in shard order. */
  method ProcessSharded<T, R>(items: seq<T>, workers: int, fn: seq<T> -> R) returns (results: seq<R>)
    ensures items == [] ==> results == []
    ensures items != [] ==>
              exists shards ::
                && EvenCut(items, Clamp(workers, |items|), shards) && results == Map(fn, shards)
                && |results| == |shards| && forall i :: 0 <= i < |shards| ==> results[i] == fn(shards[i])
  {
    var shards := Split(items, workers);
    var cells: array<Option<R>> := new Option<R>[|shards|](_ => None);
    var running: set<nat> := {};
    for i := 0 to |shards|
      invariant forall k: nat :: k in running <==> k < i
    {
      running := running + {i};
    }
    while running != {}
      invariant forall k: nat :: k in running ==> k < |shards|
      invariant forall k: nat :: k < |shards| && k !in running ==> cells[k] == Some(fn(shards[k]))
      decreases |running|
    {
      var i: nat :| i in running;
      cells[i] := Some(fn(shards[i]));
      running := running - {i};
    }
    results := seq(|shards|, i requires 0 <= i < |shards| && cells[i].Some? reads cells => cells[i].value);
    assert results == Map(fn, shards);
  }

  /** Left fold of a non-empty list. */
  function Merge<R>(op: (R, R) -> R, rs: seq<R>): R
    requires rs != []
  {
    if |rs| == 1 then rs[0] else op(Merge(op, rs[..|rs| - 1]), rs[|rs| - 1])
  }

  ghost predicate Homomorphic<T(!new), R>(fn: seq<T> -> R, op: (R, R) -> R) {
    forall a, b :: a != [] && b != [] ==> fn(a + b) == op(fn(a), fn(b))
  }

  /** Merging the shard results of a homomorphic function gives the function's value on all items. */
  lemma {:induction false} MergeIsWhole<T(!new), R>(fn: seq<T> -> R, op: (R, R) -> R, shards: seq<seq<T>>)
    requires Homomorphic(fn, op) && shards != [] && forall i :: 0 <= i < |shards| ==> shards[i] != []
    ensures Flatten(shards) != [] && Merge(op, Map(fn, shards)) == fn(Flatten(shards))
  {
    var n := |shards| - 1;
    if n == 0 {
      assert Flatten(shards[..0]) == [] && Flatten(shards) == shards[0];
    } else {
      MergeIsWhole(fn, op, shards[..n]);
      assert Map(fn, shards)[..n] == Map(fn, shards[..n]);
    }
  }

  /** So the worker count never changes the merged result. */
  lemma WorkerCountIrrelevant<T(!new), R>(fn: seq<T> -> R, op: (R, R) -> R, items: seq<T>, w: nat, shards: seq<seq<T>>)
    requires Homomorphic(fn, op) && items != [] && EvenCut(items, w, shards)
    ensures shards != [] && Merge(op, Map(fn, shards)) == fn(items)
  {
    MergeIsWhole(fn, op, shards);
  }
}

/**
 The form with errors: goroutines that fail cancel the shared context, after which the others may return
 anything. Shards are named by index; `own[i]` is what shard i returns when nothing cancels it.
 */
module ShardErrors {
  import opened Prelude

  type Error = string

  datatype State<R> = State(
    spawned: nat,
    cells: seq<Option<Result<R, Error>>>,
    cancelled: bool,
    byCaller: bool)         // the caller's own context was cancelled

  datatype Label<R> = Spawn | Finish(i: nat, result: Result<R, Error>) | Cancel(i: nat) | CallerCancels

  function Init<R>(own: seq<Result<R, Error>>): State<R> {
    State(0, seq(|own|, _ => None), false, false)
  }

  predicate Failed<R>(s: State<R>, i: nat) {
    i < |s.cells| && s.cells[i].Some? && s.cells[i].value.Err?
  }

  ghost predicate Enabled<R>(own: seq<Result<R, Error>>, s: State<R>, l: Label<R>) {
    match l
    case Spawn => s.spawned < |own|
    case Finish(i, r) =>
      i < s.spawned && i < |own| && i < |s.cells| && s.cells[i].None? && (s.cancelled || r == own[i])
    case Cancel(i) => Failed(s, i)
    case CallerCancels => true
  }

  function Apply<R>(s: State<R>, l: Label<R>): State<R> {
    match l
    case Spawn => s.(spawned := s.spawned + 1)
    case Finish(i, r) => if i < |s.cells| then s.(cells := s.cells[i := Some(r)]) else s
    case Cancel(_) => s.(cancelled := true)
    case CallerCancels => s.(cancelled := true, byCaller := true)
  }

  ghost predicate Runs<R>(own: seq<Result<R, Error>>, ls: seq<Label<R>>) {
    ls == [] || (Runs(own, ls[..|ls| - 1]) && Enabled(own, After(own, ls[..|ls| - 1]), ls[|ls| - 1]))
  }

  function After<R>(own: seq<Result<R, Error>>, ls: seq<Label<R>>): State<R> {
    if ls == [] then Init(own) else Apply(After(own, ls[..|ls| - 1]), ls[|ls| - 1])
  }

  /** The wait is over when every goroutine has written its cell. */
  predicate Complete<R>(s: State<R>) {
    forall i :: 0 <= i < |s.cells| ==> s.cells[i].Some?
  }

  /**
   What is returned after the wait: merge of all values in shard order, or the zero value with the error of
   the lowest failed shard. Without items there are no cells, and merge is not called.
   */
  method Collect<R>(cells: seq<Option<Result<R, Error>>>, merge: seq<R> -> R, zero: R) returns (value: R, err: Option<Error>)
    requires forall i :: 0 <= i < |cells| ==> cells[i].Some?
    ensures cells == [] ==> value == zero && err == None
    ensures cells != [] && err == None ==>
              exists values ::
                && |values| == |cells| && value == merge(values)
                && forall i :: 0 <= i < |cells| ==> cells[i].value == Ok(values[i])
    ensures err.Some? ==>
              value == zero && exists k: nat :: LowestError(cells, k) && cells[k].value == Err(err.value)
  {
    if cells == [] {
      return zero, None;
    }
    var merged: seq<R> := [];
    var i := 0;
    while i < |cells|
      invariant 0 <= i <= |cells| && |merged| == i
      invariant forall k :: 0 <= k < i ==> cells[k].value == Ok(merged[k])
    {
      match cells[i].value {
        case Err(e) =>
          assert LowestError(cells, i);
          return zero, Some(e);
        case Ok(v) =>
          merged := merged + [v];
      }
      i := i + 1;
    }
    value, err := merge(merged), None;
  }

  predicate LowestError<R>(cells: seq<Option<Result<R, Error>>>, k: nat) {
    && k < |cells| && cells[k].Some? && cells[k].value.Err?
    && forall i :: 0 <= i < k ==> cells[i].Some? && cells[i].value.Ok?
  }

  predicate NoneFailed<R>(s: State<R>) {
    forall i :: 0 <= i < |s.cells| ==> !Failed(s, i)
  }

  ghost predicate Inv<R>(own: seq<Result<R, Error>>, s: State<R>) {
    && |s.cells| == |own| && s.spawned <= |own|
    && (NoneFailed(s) && !s.byCaller ==> !s.cancelled) && (s.byCaller ==> s.cancelled)
    && (!s.cancelled ==> forall i :: 0 <= i < |own| && s.cells[i].Some? ==> s.cells[i].value == own[i])
  }

  lemma StepKeepsInv<R>(own: seq<Result<R, Error>>, s: State<R>, l: Label<R>)
    requires Inv(own, s) && Enabled(own, s, l)
    ensures Inv(own, Apply(s, l))
    ensures !NoneFailed(s) ==> !NoneFailed(Apply(s, l))
  {
    var s' := Apply(s, l);
    if i :| 0 <= i < |s.cells| && Failed(s, i) {
      assert Failed(s', i);
    }
  }

  lemma {:induction false} RunKeepsInv<R>(own: seq<Result<R, Error>>, ls: seq<Label<R>>)
    requires Runs(own, ls)
    ensures Inv(own, After(own, ls))
  {
    if ls != [] {
      RunKeepsInv(own, ls[..|ls| - 1]);
      StepKeepsInv(own, After(own, ls[..|ls| - 1]), ls[|ls| - 1]);
    }
  }

  predicate AllOwnOk<R>(own: seq<Result<R, Error>>) {
    forall i :: 0 <= i < |own| ==> own[i].Ok?
  }

  /** If no shard fails by itself and the caller does not cancel, then every complete run gives the shards' own values, in shard order. */
  lemma SuccessIsDeterministic<R>(own: seq<Result<R, Error>>, ls: seq<Label<R>>)
    requires Runs(own, ls) && Complete(After(own, ls)) && AllOwnOk(own) && !After(own, ls).byCaller
    ensures |After(own, ls).cells| == |own|
    ensures forall i :: 0 <= i < |own| ==> After(own, ls).cells[i] == Some(own[i])
  {
    OkNeverCancels(own, ls);
    RunKeepsInv(own, ls);
  }

  lemma {:induction false} OkNeverCancels<R>(own: seq<Result<R, Error>>, ls: seq<Label<R>>)
    requires Runs(own, ls) && AllOwnOk(own) && !After(own, ls).byCaller
    ensures !After(own, ls).cancelled
  {
    if ls != [] {
      OkNeverCancels(own, ls[..|ls| - 1]);
      RunKeepsInv(own, ls[..|ls| - 1]);
    }
  }

  /** If some shard fails by itself and the caller does not cancel, then every complete run returns an error. */
  lemma FailureSurfaces<R>(own: seq<Result<R, Error>>, ls: seq<Label<R>>)
    requires Runs(own, ls) && Complete(After(own, ls)) && !AllOwnOk(own) && !After(own, ls).byCaller
    ensures exists k: nat :: LowestError(After(own, ls).cells, k)
  {
    var s := After(own, ls);
    RunKeepsInv(own, ls);
    var j :| 0 <= j < |own| && own[j].Err?;
    if NoneFailed(s) {
      assert Failed(s, j);
      assert false;
    }
    var f: nat :| f < |s.cells| && Failed(s, f);
    LowestExists(s.cells, f);
  }

  lemma {:induction false} LowestExists<R>(cells: seq<Option<Result<R, Error>>>, f: nat)
    requires f < |cells| && cells[f].Some? && cells[f].value.Err?
    requires forall i :: 0 <= i < |cells| ==> cells[i].Some?
    ensures exists k: nat :: LowestError(cells, k)
  {
    if i :| 0 <= i < f && cells[i].value.Err? {
      LowestExists(cells, i);
    } else {
      assert LowestError(cells, f);
    }
  }

  // Which error: the documentation says the first encountered, the scan takes the lowest index.

  /** The first step of the run that recorded an error. */
  ghost predicate FirstError<R>(ls: seq<Label<R>>, m: nat, e: Error) {
    && m < |ls| && ls[m].Finish? && ls[m].result == Err(e)
    && forall k :: 0 <= k < m ==> !(ls[k].Finish? && ls[k].result.Err?)
  }

  /** In every complete run that fails, the error returned is the one that occurred first. */
  ghost predicate ReturnsFirst<R(!new)>(own: seq<Result<R, Error>>, callerMayCancel: bool) {
    forall ls: seq<Label<R>>, m: nat, e: Error, k: nat ::
      && Runs(own, ls) && Complete(After(own, ls)) && (After(own, ls).byCaller ==> callerMayCancel)
      && FirstError(ls, m, e) && LowestError(After(own, ls).cells, k)
      ==> After(own, ls).cells[k].value == Err(e)
  }

  ghost predicate OnlyFirstFails<R>(own: seq<Result<R, Error>>) {
    forall i :: 1 <= i < |own| ==> own[i].Ok?
  }

  /** Until some cell holds an error nothing is cancelled, and an error in a cell was put there by a step. */
  lemma {:induction false} ErrorsComeFromSteps<R>(own: seq<Result<R, Error>>, ls: seq<Label<R>>, i: nat)
    requires Runs(own, ls) && Failed(After(own, ls), i)
    ensures exists k :: 0 <= k < |ls| && ls[k] == Finish(i, After(own, ls).cells[i].value)
  {
    if ls != [] {
      var front, l := ls[..|ls| - 1], ls[|ls| - 1];
      if l == Finish(i, After(own, ls).cells[i].value) {
        assert ls[|ls| - 1] == l;
      } else {
        RunKeepsInv(own, front);
        ErrorsComeFromSteps(own, front, i);
        var k :| 0 <= k < |front| && front[k] == Finish(i, After(own, ls).cells[i].value);
        assert ls[k] == front[k];
      }
    }
  }

  lemma {:induction false} RunsPrefix<R>(own: seq<Result<R, Error>>, ls: seq<Label<R>>, k: nat)
    requires Runs(own, ls) && k <= |ls|
    ensures Runs(own, ls[..k])
    decreases |ls|
  {
    if k == |ls| {
      assert ls[..k] == ls;
    } else {
      RunsPrefix(own, ls[..|ls| - 1], k);
      assert ls[..|ls| - 1][..k] == ls[..k];
    }
  }

  /** A cell once written keeps its value. */
  lemma {:induction false} CellsStay<R>(own: seq<Result<R, Error>>, ls: seq<Label<R>>, k: nat, i: nat)
    requires Runs(own, ls) && k <= |ls| && i < |own|
    ensures |After(own, ls[..k]).cells| == |After(own, ls).cells| == |own|
    ensures After(own, ls[..k]).cells[i].Some? ==> After(own, ls).cells[i] == After(own, ls[..k]).cells[i]
    decreases |ls|
  {
    RunKeepsInv(own, ls);
    RunsPrefix(own, ls, k);
    RunKeepsInv(own, ls[..k]);
    if k == |ls| {
      assert ls[..k] == ls;
    } else {
      CellsStay(own, ls[..|ls| - 1], k, i);
      assert ls[..|ls| - 1][..k] == ls[..k];
    }
  }

  /** The first error of a run stays in its shard's cell; if the caller did not cancel it is the shard's own. */
  lemma FirstErrorStays<R>(own: seq<Result<R, Error>>, ls: seq<Label<R>>, m: nat, e: Error)
    requires Runs(own, ls) && FirstError(ls, m, e)
    ensures ls[m].i < |own| && |After(own, ls).cells| == |own| && After(own, ls).cells[ls[m].i] == Some(Err(e))
    ensures !After(own, ls).byCaller ==> own[ls[m].i] == Err(e)
  {
    var s, i := After(own, ls[..m]), ls[m].i;
    RunsPrefix(own, ls, m + 1);
    assert ls[..m + 1][..m] == ls[..m];
    RunKeepsInv(own, ls[..m]);
    if j :| 0 <= j < |s.cells| && Failed(s, j) {
      ErrorsComeFromSteps(own, ls[..m], j);
      assert false;
    }
    assert NoneFailed(s);
    CellsStay(own, ls, m + 1, i);
    CallerStays(own, ls, m);
  }

  lemma {:induction false} CallerStays<R>(own: seq<Result<R, Error>>, ls: seq<Label<R>>, k: nat)
    requires Runs(own, ls) && k <= |ls|
    ensures After(own, ls[..k]).byCaller ==> After(own, ls).byCaller
    decreases |ls|
  {
    if k == |ls| {
      assert ls[..k] == ls;
    } else {
      CallerStays(own, ls[..|ls| - 1], k);
      assert ls[..|ls| - 1][..k] == ls[..k];
    }
  }

  /**
   The documented error is returned in all runs exactly when no shard but the first can fail by itself; if the
   caller may cancel too, exactly when there is but one shard.
   */
  lemma ReturnsFirstIff<R(!new)>(own: seq<Result<R, Error>>, callerMayCancel: bool)
    ensures ReturnsFirst(own, callerMayCancel) <==> if callerMayCancel then |own| <= 1 else OnlyFirstFails(own)
  {
    if if callerMayCancel then |own| <= 1 else OnlyFirstFails(own) {
      forall ls: seq<Label<R>>, m: nat, e: Error, k: nat |
        && Runs(own, ls) && Complete(After(own, ls)) && (After(own, ls).byCaller ==> callerMayCancel)
        && FirstError(ls, m, e) && LowestError(After(own, ls).cells, k)
        ensures After(own, ls).cells[k].value == Err(e)
      {
        FirstErrorStays(own, ls, m, e);
        assert ls[m].i == 0 && k == 0;
      }
    } else if callerMayCancel {
      CancelledErrorReturned(own);
    } else {
      var j :| 1 <= j < |own| && own[j].Err?;
      LaterErrorReturned(own, j);
    }
  }

  // The run that returns another error: all goroutines are spawned, shard j fails first and cancels, and
  // the others then return an error of their own.

  ghost predicate Reaches<R>(own: seq<Result<R, Error>>, ls: seq<Label<R>>, s: State<R>) {
    Runs(own, ls) && After(own, ls) == s
  }

  lemma OneMore<R>(own: seq<Result<R, Error>>, ls: seq<Label<R>>, s: State<R>, l: Label<R>)
    requires Reaches(own, ls, s) && Enabled(own, s, l)
    ensures Reaches(own, ls + [l], Apply(s, l))
  {
    assert (ls + [l])[..|ls|] == ls;
  }

  lemma {:induction false} SpawnAll<R>(own: seq<Result<R, Error>>, n: nat) returns (ls: seq<Label<R>>)
    requires n <= |own|
    ensures Reaches(own, ls, Init(own).(spawned := n))
    ensures forall k :: 0 <= k < |ls| ==> ls[k].Spawn?
  {
    ls := [];
    if n > 0 {
      ls := SpawnAll(own, n - 1);
      OneMore(own, ls, Init(own).(spawned := n - 1), Spawn);
      ls := ls + [Spawn];
    }
  }

  /** After the cancellation the shards below n, except j, return `other`. */
  lemma {:induction false} RestFails<R>(own: seq<Result<R, Error>>, s: State<R>, pre: seq<Label<R>>, j: nat, n: nat, other: Error)
    returns (ls: seq<Label<R>>, s': State<R>)
    requires Reaches(own, pre, s) && s.cancelled && s.spawned == |own| == |s.cells| && n <= |own|
    requires forall i :: 0 <= i < |own| && i != j ==> s.cells[i].None?
    ensures Reaches(own, ls, s') && pre <= ls
    ensures s'.cancelled && s'.byCaller == s.byCaller && s'.spawned == |own| == |s'.cells|
    ensures forall i :: 0 <= i < |own| ==> s'.cells[i] == if i < n && i != j then Some(Err(other)) else s.cells[i]
  {
    ls, s' := pre, s;
    if n > 0 {
      ls, s' := RestFails(own, s, pre, j, n - 1, other);
      if n - 1 != j {
        OneMore(own, ls, s', Finish(n - 1, Err(other)));
        ls, s' := ls + [Finish(n - 1, Err(other))], Apply(s', Finish(n - 1, Err(other)));
      }
    }
  }

  lemma LaterErrorReturned<R(!new)>(own: seq<Result<R, Error>>, j: nat)
    requires 1 <= j < |own| && own[j].Err?
    ensures !ReturnsFirst(own, false)
  {
    var n, e := |own|, own[j].error;
    var spawn := SpawnAll(own, n);
    var s0 := Init(own).(spawned := n);
    OneMore(own, spawn, s0, Finish(j, own[j]));
    var s1 := Apply(s0, Finish(j, own[j]));
    var pre := spawn + [Finish(j, own[j])];
    OneMore(own, pre, s1, Cancel(j));
    var s2 := Apply(s1, Cancel(j));
    var ls, s := RestFails(own, s2, pre + [Cancel(j)], j, n, e + "!");
    assert Complete(s);
    assert LowestError(s.cells, 0) && s.cells[0].value == Err(e + "!");
    var m := |spawn|;
    assert forall k :: 0 <= k < |pre| ==> (pre + [Cancel(j)])[k] == pre[k] && ls[k] == pre[k];
    assert FirstError(ls, m, e);
    assert |e + "!"| != |e|;
  }

  /** The caller cancels, shard 1 fails first, and the others fail after it with another error. */
  lemma CancelledErrorReturned<R(!new)>(own: seq<Result<R, Error>>)
    requires |own| >= 2
    ensures !ReturnsFirst(own, true)
  {
    var n := |own|;
    var spawn := SpawnAll(own, n);
    var s0 := Init(own).(spawned := n);
    OneMore(own, spawn, s0, CallerCancels);
    var s1, called := Apply(s0, CallerCancels), spawn + [CallerCancels];
    var first := Finish(1, Err(""));
    OneMore(own, called, s1, first);
    var s2, pre := Apply(s1, first), called + [first];
    var ls, s := RestFails(own, s2, pre, 1, n, "!");
    assert Complete(s);
    assert LowestError(s.cells, 0) && s.cells[0].value == Err("!");
    assert forall k :: 0 <= k < |pre| ==> ls[k] == pre[k];
    assert FirstError(ls, |called|, "");
    assert |"!"| != |""|;
  }
}
