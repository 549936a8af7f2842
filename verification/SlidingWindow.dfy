/** The sliding window log limiter (infra/ratelimit/sliding_window.go). */
module SlidingWindow {
  type Key = string
  type Time = int

  datatype Config = Config(rate: int, window: Time)
  datatype Call = Call(key: Key, at: Time)

  type Log = map<Key, seq<Time>>

  function Of(log: Log, key: Key): seq<Time> {
    if key in log then log[key] else []
  }

  /** What is left of a log once its old head is dropped. */
  function Prune(ts: seq<Time>, cutoff: Time): seq<Time> {
    if ts == [] || ts[0] > cutoff then ts else Prune(ts[1..], cutoff)
  }

  predicate Admits(cfg: Config, log: Log, c: Call) {
    |Prune(Of(log, c.key), c.at - cfg.window)| < cfg.rate
  }

  function Record(cfg: Config, log: Log, c: Call): Log {
    var pruned := Prune(Of(log, c.key), c.at - cfg.window);
    log[c.key := if Admits(cfg, log, c) then pruned + [c.at] else pruned]
  }

  function LogAfter(cfg: Config, h: seq<Call>): Log {
    if h == [] then map[] else Record(cfg, LogAfter(cfg, h[..|h| - 1]), h[|h| - 1])
  }

  function Decisions(cfg: Config, h: seq<Call>): seq<bool> {
    if h == [] then []
    else Decisions(cfg, h[..|h| - 1]) + [Admits(cfg, LogAfter(cfg, h[..|h| - 1]), h[|h| - 1])]
  }

  ghost predicate Monotone(h: seq<Call>) {
    forall i, j :: 0 <= i < j < |h| ==> h[i].at <= h[j].at
  }

  class Limiter {
    var timestamps: Log
    const cfg: Config

    constructor (rate: int, window: Time)
      ensures timestamps == map[] && cfg == Config(rate, window)
    {
      timestamps, cfg := map[], Config(rate, window);
    }

    method Allow(key: Key, now: Time) returns (ok: bool)
      modifies this
      ensures ok == Admits(cfg, old(timestamps), Call(key, now))
      ensures timestamps == Record(cfg, old(timestamps), Call(key, now))
    {
      var cutoff := now - cfg.window;
      var existing := if key in timestamps then timestamps[key] else [];
      var pruned := PruneTimestamps(existing, cutoff);
      if |pruned| >= cfg.rate {
        timestamps := timestamps[key := pruned];
        return false;
      }
      timestamps := timestamps[key := pruned + [now]];
      return true;
    }
  }

  method PruneTimestamps(ts: seq<Time>, cutoff: Time) returns (r: seq<Time>)
    ensures r == Prune(ts, cutoff)
  {
    var i := 0;
    while i < |ts| && ts[i] <= cutoff
      invariant 0 <= i <= |ts|
      invariant Prune(ts, cutoff) == Prune(ts[i..], cutoff)
    {
      assert ts[i..][1..] == ts[i + 1..];
      i := i + 1;
    }
    r := ts[i..];
  }

  // ---------------------------------------------------------------- a limiter that forgets nothing

  /** How many instants lie after `cutoff`. */
  function CountAfter(ts: seq<Time>, cutoff: Time): nat {
    if ts == [] then 0 else CountAfter(ts[..|ts| - 1], cutoff) + if ts[|ts| - 1] > cutoff then 1 else 0
  }

  predicate FullAdmits(cfg: Config, full: Log, c: Call) {
    CountAfter(Of(full, c.key), c.at - cfg.window) < cfg.rate
  }

  /** Keeps every accepted call forever. */
  function FullAfter(cfg: Config, h: seq<Call>): Log {
    if h == [] then map[]
    else
      FullRecord(cfg, FullAfter(cfg, h[..|h| - 1]), h[|h| - 1])
  }

  function FullDecisions(cfg: Config, h: seq<Call>): seq<bool> {
    if h == [] then []
    else FullDecisions(cfg, h[..|h| - 1]) + [FullAdmits(cfg, FullAfter(cfg, h[..|h| - 1]), h[|h| - 1])]
  }

  ghost predicate Sorted(ts: seq<Time>) {
    forall i, j :: 0 <= i < j < |ts| ==> ts[i] <= ts[j]
  }

  lemma {:induction false} CountAfterAll(ts: seq<Time>, cutoff: Time)
    requires forall i :: 0 <= i < |ts| ==> ts[i] > cutoff
    ensures CountAfter(ts, cutoff) == |ts|
  {
    if ts != [] { CountAfterAll(ts[..|ts| - 1], cutoff); }
  }

  lemma {:induction false} CountAfterTail(ts: seq<Time>, cutoff: Time)
    requires ts != [] && ts[0] <= cutoff
    ensures CountAfter(ts, cutoff) == CountAfter(ts[1..], cutoff)
  {
    if |ts| > 1 {
      var n := |ts| - 1;
      CountAfterTail(ts[..n], cutoff);
      assert ts[..n][1..] == ts[1..][..n - 1];
    }
  }

  /** On a sorted log, dropping the old head leaves exactly the recent instants. */
  lemma {:induction false} PruneCounts(ts: seq<Time>, cutoff: Time)
    requires Sorted(ts)
    ensures |Prune(ts, cutoff)| == CountAfter(ts, cutoff)
  {
    if ts != [] && ts[0] <= cutoff {
      CountAfterTail(ts, cutoff);
      PruneCounts(ts[1..], cutoff);
    } else {
      CountAfterAll(ts, cutoff);
    }
  }

  lemma {:induction false} PruneTwice(ts: seq<Time>, c: Time, c': Time)
    requires c <= c'
    ensures Prune(Prune(ts, c), c') == Prune(ts, c')
  {
    if ts != [] && ts[0] <= c { PruneTwice(ts[1..], c, c'); }
  }

  lemma {:induction false} PruneSnoc(ts: seq<Time>, t: Time, c: Time)
    ensures Prune(ts + [t], c) == if Prune(ts, c) == [] then Prune([t], c) else Prune(ts, c) + [t]
  {
    if ts == [] {
      assert ts + [t] == [t];
    } else {
      assert (ts + [t])[1..] == ts[1..] + [t];
      if ts[0] <= c { PruneSnoc(ts[1..], t, c); }
    }
  }

  /** The two logs of a key agree on what any cutoff not before `from` would leave. */
  ghost predicate SameFrom(ts: seq<Time>, full: seq<Time>, from: Time) {
    forall c :: c >= from ==> Prune(ts, c) == Prune(full, c)
  }

  function FullRecord(cfg: Config, full: Log, c: Call): Log {
    if FullAdmits(cfg, full, c) then full[c.key := Of(full, c.key) + [c.at]] else full
  }

  /** Pruning one log at `from`, and appending to both, keeps them alike from then on. */
  lemma SameAfterPrune(ts: seq<Time>, full: seq<Time>, from: Time, at: Time)
    requires Prune(ts, from) == Prune(full, from)
    ensures SameFrom(Prune(ts, from), full, from)
    ensures SameFrom(Prune(ts, from) + [at], full + [at], from)
  {
    forall x | x >= from
      ensures Prune(Prune(ts, from), x) == Prune(full, x)
      ensures Prune(Prune(ts, from) + [at], x) == Prune(full + [at], x)
    {
      PruneTwice(full, from, x);
      PruneSnoc(full, at, x);
      PruneSnoc(Prune(ts, from), at, x);
    }
  }

  lemma StepAgrees(cfg: Config, log: Log, full: Log, c: Call)
    requires Sorted(Of(full, c.key))
    requires SameFrom(Of(log, c.key), Of(full, c.key), c.at - cfg.window)
    ensures Admits(cfg, log, c) <==> FullAdmits(cfg, full, c)
    ensures SameFrom(Of(Record(cfg, log, c), c.key), Of(FullRecord(cfg, full, c), c.key), c.at - cfg.window)
  {
    PruneCounts(Of(full, c.key), c.at - cfg.window);
    SameAfterPrune(Of(log, c.key), Of(full, c.key), c.at - cfg.window, c.at);
  }

  ghost predicate SortedUntil(ts: seq<Time>, now: Time) {
    Sorted(ts) && (ts != [] ==> ts[|ts| - 1] <= now)
  }

  lemma FullStaysSorted(cfg: Config, full: Log, c: Call, key: Key, before: Time)
    requires SortedUntil(Of(full, key), before) && before <= c.at
    ensures SortedUntil(Of(FullRecord(cfg, full, c), key), c.at)
  {
  }

  /** Accepted calls are kept in order and lie in the past. */
  lemma {:induction false} FullSorted(cfg: Config, h: seq<Call>, key: Key, now: Time)
    requires Monotone(h) && (h != [] ==> h[|h| - 1].at <= now)
    ensures SortedUntil(Of(FullAfter(cfg, h), key), now)
  {
    if h != [] {
      var front, c := h[..|h| - 1], h[|h| - 1];
      FullSorted(cfg, front, key, c.at);
      FullStaysSorted(cfg, FullAfter(cfg, front), c, key, c.at);
    }
  }

  lemma {:induction false} LogsAgree(cfg: Config, h: seq<Call>, key: Key, now: Time)
    requires Monotone(h) && (h != [] ==> h[|h| - 1].at <= now)
    ensures SameFrom(Of(LogAfter(cfg, h), key), Of(FullAfter(cfg, h), key), now - cfg.window)
  {
    if h != [] {
      var front, c := h[..|h| - 1], h[|h| - 1];
      LogsAgree(cfg, front, key, c.at);
      if key == c.key {
        FullSorted(cfg, front, key, c.at);
        StepAgrees(cfg, LogAfter(cfg, front), FullAfter(cfg, front), c);
      }
    }
  }

  lemma SameDecision(cfg: Config, front: seq<Call>, c: Call)
    requires Monotone(front) && (front != [] ==> front[|front| - 1].at <= c.at)
    ensures Admits(cfg, LogAfter(cfg, front), c) <==> FullAdmits(cfg, FullAfter(cfg, front), c)
  {
    LogsAgree(cfg, front, c.key, c.at);
    FullSorted(cfg, front, c.key, c.at);
    StepAgrees(cfg, LogAfter(cfg, front), FullAfter(cfg, front), c);
  }

  /** The pruned log decides every call as the limiter that forgets nothing does. */
  lemma {:induction false} DecidesLikeFullHistory(cfg: Config, h: seq<Call>)
    requires Monotone(h)
    ensures Decisions(cfg, h) == FullDecisions(cfg, h)
  {
    if h != [] {
      DecidesLikeFullHistory(cfg, h[..|h| - 1]);
      SameDecision(cfg, h[..|h| - 1], h[|h| - 1]);
    }
  }

  // ---------------------------------------------------------------- the bound

  /** The accepted calls of `key` in the half-open interval (after, until]. */
  function Accepted(h: seq<Call>, ds: seq<bool>, key: Key, after: Time, until: Time): nat
    requires |ds| == |h|
  {
    if h == [] then 0
    else
      var n := |h| - 1;
      Accepted(h[..n], ds[..n], key, after, until)
      + if ds[n] && h[n].key == key && after < h[n].at <= until then 1 else 0
  }

  lemma {:induction false} DecisionsLength(cfg: Config, h: seq<Call>)
    ensures |Decisions(cfg, h)| == |h|
  {
    if h != [] { DecisionsLength(cfg, h[..|h| - 1]); }
  }

  lemma DecisionsFront(cfg: Config, h: seq<Call>)
    requires h != []
    ensures |Decisions(cfg, h)| == |h|
    ensures Decisions(cfg, h)[..|h| - 1] == Decisions(cfg, h[..|h| - 1])
    ensures Decisions(cfg, h)[|h| - 1] == Admits(cfg, LogAfter(cfg, h[..|h| - 1]), h[|h| - 1])
  {
    DecisionsLength(cfg, h);
    DecisionsLength(cfg, h[..|h| - 1]);
  }

  lemma CountAfterSnoc(ts: seq<Time>, t: Time, cutoff: Time)
    ensures CountAfter(ts + [t], cutoff) == CountAfter(ts, cutoff) + if t > cutoff then 1 else 0
  {
    assert (ts + [t])[..|ts|] == ts;
  }

  /** What one more call adds to both counts. */
  lemma CountsStep(cfg: Config, h: seq<Call>, key: Key, after: Time, until: Time)
    requires Monotone(h) && h != [] && h[|h| - 1].at <= until
    ensures |Decisions(cfg, h)| == |h| && |Decisions(cfg, h[..|h| - 1])| == |h| - 1
    ensures var n := |h| - 1;
            var one := if Decisions(cfg, h)[n] && h[n].key == key && after < h[n].at then 1 else 0;
            && Accepted(h, Decisions(cfg, h), key, after, until)
               == Accepted(h[..n], Decisions(cfg, h[..n]), key, after, until) + one
            && CountAfter(Of(FullAfter(cfg, h), key), after) == CountAfter(Of(FullAfter(cfg, h[..n]), key), after) + one
  {
    var n := |h| - 1;
    DecisionsLength(cfg, h[..n]);
    DecisionsFront(cfg, h);
    SameDecision(cfg, h[..n], h[n]);
    CountAfterSnoc(Of(FullAfter(cfg, h[..n]), key), h[n].at, after);
  }

  /** Counting accepted calls is counting in the full log. */
  lemma {:induction false} AcceptedIsCounted(cfg: Config, h: seq<Call>, key: Key, after: Time, until: Time)
    requires Monotone(h) && (h != [] ==> h[|h| - 1].at <= until)
    ensures |Decisions(cfg, h)| == |h|
    ensures Accepted(h, Decisions(cfg, h), key, after, until) == CountAfter(Of(FullAfter(cfg, h), key), after)
  {
    if h != [] {
      assert |h| > 1 ==> h[..|h| - 1][|h| - 2].at <= h[|h| - 1].at;
      AcceptedIsCounted(cfg, h[..|h| - 1], key, after, until);
      CountsStep(cfg, h, key, after, until);
    }
  }

  lemma {:induction false} CountAfterMonotone(ts: seq<Time>, c: Time, c': Time)
    requires c <= c'
    ensures CountAfter(ts, c') <= CountAfter(ts, c)
  {
    if ts != [] { CountAfterMonotone(ts[..|ts| - 1], c, c'); }
  }

  /** A call is denied only when at least `rate` calls were accepted in the window before it. */
  lemma NoRoom(cfg: Config, front: seq<Call>, c: Call)
    requires Monotone(front) && (front != [] ==> front[|front| - 1].at <= c.at)
    requires !Admits(cfg, LogAfter(cfg, front), c)
    ensures |Decisions(cfg, front)| == |front|
    ensures Accepted(front, Decisions(cfg, front), c.key, c.at - cfg.window, c.at) >= cfg.rate
  {
    SameDecision(cfg, front, c);
    FullIn(cfg, FullAfter(cfg, front), c);
    AcceptedIsCounted(cfg, front, c.key, c.at - cfg.window, c.at);
  }

  lemma FullIn(cfg: Config, full: Log, c: Call)
    requires !FullAdmits(cfg, full, c)
    ensures CountAfter(Of(full, c.key), c.at - cfg.window) >= cfg.rate
  {
  }

  /** Every key has at most `rate` accepted calls in every interval (t, t + window]. */
  lemma {:induction false} AtMostRate(cfg: Config, h: seq<Call>, key: Key, t: Time)
    requires Monotone(h)
    ensures |Decisions(cfg, h)| == |h|
    ensures Accepted(h, Decisions(cfg, h), key, t, t + cfg.window) <= if cfg.rate < 0 then 0 else cfg.rate
  {
    DecisionsLength(cfg, h);
    if h != [] {
      var n := |h| - 1;
      AtMostRate(cfg, h[..n], key, t);
      DecisionsFront(cfg, h);
      if Decisions(cfg, h)[n] && h[n].key == key && t < h[n].at <= t + cfg.window {
        RoomForOne(cfg, h[..n], h[n], t, t + cfg.window);
      }
    }
  }

  /** A call accepted inside the interval found fewer than `rate` accepted ones before it. */
  lemma RoomForOne(cfg: Config, front: seq<Call>, c: Call, t: Time, until: Time)
    requires Monotone(front) && (front != [] ==> front[|front| - 1].at <= c.at)
    requires c.at <= t + cfg.window && c.at <= until && Admits(cfg, LogAfter(cfg, front), c)
    ensures |Decisions(cfg, front)| == |front|
    ensures Accepted(front, Decisions(cfg, front), c.key, t, until) < cfg.rate
  {
    SameDecision(cfg, front, c);
    RoomInFull(cfg, FullAfter(cfg, front), c, t);
    AcceptedIsCounted(cfg, front, c.key, t, until);
  }

  lemma RoomInFull(cfg: Config, full: Log, c: Call, t: Time)
    requires FullAdmits(cfg, full, c) && c.at <= t + cfg.window
    ensures CountAfter(Of(full, c.key), t) < cfg.rate
  {
    CountAfterMonotone(Of(full, c.key), c.at - cfg.window, t);
  }

  // ---------------------------------------------------------------- keys do not disturb each other

  function Only(h: seq<Call>, key: Key): seq<Call> {
    if h == [] then []
    else Only(h[..|h| - 1], key) + if h[|h| - 1].key == key then [h[|h| - 1]] else []
  }

  /** The decisions on the calls of one key. */
  function OnlyDecisions(h: seq<Call>, ds: seq<bool>, key: Key): seq<bool>
    requires |ds| == |h|
  {
    if h == [] then []
    else
      var n := |h| - 1;
      OnlyDecisions(h[..n], ds[..n], key) + if h[n].key == key then [ds[n]] else []
  }

  lemma OnlyLast(h: seq<Call>, key: Key)
    requires h != []
    ensures var n := |h| - 1;
            Only(h, key) == if h[n].key == key then Only(h[..n], key) + [h[n]] else Only(h[..n], key)
  {
  }

  lemma AfterSnoc(cfg: Config, h: seq<Call>, c: Call)
    ensures LogAfter(cfg, h + [c]) == Record(cfg, LogAfter(cfg, h), c)
    ensures Decisions(cfg, h + [c]) == Decisions(cfg, h) + [Admits(cfg, LogAfter(cfg, h), c)]
  {
    assert (h + [c])[..|h|] == h;
  }

  /** A call records the same on two logs that agree on its key, and decides alike. */
  lemma RecordOwn(cfg: Config, log: Log, log': Log, c: Call)
    requires Of(log, c.key) == Of(log', c.key)
    ensures Of(Record(cfg, log, c), c.key) == Of(Record(cfg, log', c), c.key)
    ensures Admits(cfg, log, c) == Admits(cfg, log', c)
  {
  }

  lemma RecordOther(cfg: Config, log: Log, c: Call, key: Key)
    requires c.key != key
    ensures Of(Record(cfg, log, c), key) == Of(log, key)
  {
  }

  /** The log of a key only depends on its own calls. */
  lemma {:induction false} LogIndependent(cfg: Config, h: seq<Call>, key: Key)
    ensures Of(LogAfter(cfg, h), key) == Of(LogAfter(cfg, Only(h, key)), key)
  {
    if h != [] {
      var front, c := h[..|h| - 1], h[|h| - 1];
      LogIndependent(cfg, front, key);
      OnlyLast(h, key);
      if c.key == key {
        AfterSnoc(cfg, Only(front, key), c);
        RecordOwn(cfg, LogAfter(cfg, front), LogAfter(cfg, Only(front, key)), c);
      } else {
        RecordOther(cfg, LogAfter(cfg, front), c, key);
      }
    }
  }

  lemma OnlyDecisionsLast(cfg: Config, h: seq<Call>, key: Key)
    requires h != []
    ensures var front, c := h[..|h| - 1], h[|h| - 1];
            && |Decisions(cfg, h)| == |h| && |Decisions(cfg, front)| == |front|
            && OnlyDecisions(h, Decisions(cfg, h), key)
               == OnlyDecisions(front, Decisions(cfg, front), key)
                  + if c.key == key then [Admits(cfg, LogAfter(cfg, front), c)] else []
  {
    DecisionsLength(cfg, h[..|h| - 1]);
    DecisionsFront(cfg, h);
  }

  /** A key is served as if it were alone. */
  lemma {:induction false} KeysIndependent(cfg: Config, h: seq<Call>, key: Key)
    ensures |Decisions(cfg, h)| == |h|
    ensures OnlyDecisions(h, Decisions(cfg, h), key) == Decisions(cfg, Only(h, key))
  {
    if h != [] {
      var front, c := h[..|h| - 1], h[|h| - 1];
      KeysIndependent(cfg, front, key);
      OnlyDecisionsLast(cfg, h, key);
      OnlyLast(h, key);
      if c.key == key {
        LogIndependent(cfg, front, key);
        AfterSnoc(cfg, Only(front, key), c);
        RecordOwn(cfg, LogAfter(cfg, front), LogAfter(cfg, Only(front, key)), c);
      }
    }
  }
}
