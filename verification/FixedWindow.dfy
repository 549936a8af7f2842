/** The fixed window counter limiter (infra/ratelimit/fixed_window.go). */
module FixedWindow {
  type Key = string
  type Time = int

  datatype Config = Config(rate: int, window: Time)
  datatype Call = Call(key: Key, at: Time)

  /** A key's counter and the start of its current window. */
  datatype Entry = Entry(count: int, windowStart: Time)

  type Entries = map<Key, Entry>

  /** A call opens a window when the key is new or its window has ended. */
  predicate Opens(cfg: Config, es: Entries, c: Call) {
    c.key !in es || c.at > es[c.key].windowStart + cfg.window
  }

  predicate Admits(cfg: Config, es: Entries, c: Call) {
    Opens(cfg, es, c) || es[c.key].count < cfg.rate
  }

  function Record(cfg: Config, es: Entries, c: Call): Entries {
    if Opens(cfg, es, c) then es[c.key := Entry(1, c.at)]
    else if es[c.key].count < cfg.rate then es[c.key := es[c.key].(count := es[c.key].count + 1)]
    else es
  }

  function After(cfg: Config, h: seq<Call>): Entries {
    if h == [] then map[] else Record(cfg, After(cfg, h[..|h| - 1]), h[|h| - 1])
  }

  ghost predicate Monotone(h: seq<Call>) {
    forall i, j :: 0 <= i < j < |h| ==> h[i].at <= h[j].at
  }

  class Limiter {
    var entries: Entries
    const cfg: Config

    constructor (rate: int, window: Time)
      ensures entries == map[] && cfg == Config(rate, window)
    {
      entries, cfg := map[], Config(rate, window);
    }

    method Allow(key: Key, now: Time) returns (ok: bool)
      modifies this
      ensures ok == Admits(cfg, old(entries), Call(key, now))
      ensures entries == Record(cfg, old(entries), Call(key, now))
    {
      if key !in entries {
        entries := entries[key := Entry(1, now)];
        return true;
      }
      var entry := entries[key];
      if now > entry.windowStart + cfg.window {
        entries := entries[key := Entry(1, now)];
        return true;
      }
      if entry.count >= cfg.rate {
        return false;
      }
      entries := entries[key := Entry(entry.count + 1, entry.windowStart)];
      return true;
    }
  }

  // ---------------------------------------------------------------- accepted calls and their windows

  /** An accepted call: when it came, the start of its window and its place in it, from 1. */
  datatype Grant = Grant(at: Time, start: Time, rank: int)

  /** The accepted calls of a key. */
  function Grants(cfg: Config, h: seq<Call>, key: Key): seq<Grant> {
    if h == [] then []
    else
      var front, c := h[..|h| - 1], h[|h| - 1];
      var gs := Grants(cfg, front, key);
      if c.key != key || !Admits(cfg, After(cfg, front), c) then gs
      else
        var e := Record(cfg, After(cfg, front), c)[key];
        gs + [Grant(c.at, e.windowStart, e.count)]
  }

  /** Even a rate below one lets the call through that opens a window. */
  function Quota(cfg: Config): int {
    if cfg.rate < 1 then 1 else cfg.rate
  }

  /** How one accepted call follows another: further in the same window, or opening a later one. */
  predicate Follows(cfg: Config, g: Grant, g': Grant) {
    && g.at <= g'.at
    && (if g'.rank == 1 then g'.start == g'.at && g'.at > g.start + cfg.window
        else g'.start == g.start && g'.rank == g.rank + 1 && g'.at <= g.start + cfg.window)
  }

  ghost predicate Chained(cfg: Config, gs: seq<Grant>) {
    && (forall i :: 0 <= i < |gs| ==> gs[i].start <= gs[i].at && 1 <= gs[i].rank <= Quota(cfg))
    && (forall i :: 0 <= i < |gs| && gs[i].rank == 1 ==> gs[i].start == gs[i].at)
    && (forall i, j :: 0 <= i < j < |gs| && j == i + 1 ==> Follows(cfg, gs[i], gs[j]))
    && (gs != [] ==> gs[0].rank == 1)
  }

  /** The key's counter describes its last accepted call. */
  ghost predicate Current(es: Entries, key: Key, gs: seq<Grant>) {
    if gs == [] then key !in es
    else key in es && es[key] == Entry(gs[|gs| - 1].rank, gs[|gs| - 1].start)
  }

  lemma ChainGrows(cfg: Config, gs: seq<Grant>, g: Grant)
    requires Chained(cfg, gs) && g.start <= g.at && 1 <= g.rank <= Quota(cfg)
    requires g.rank == 1 ==> g.start == g.at
    requires if gs == [] then g.rank == 1 else Follows(cfg, gs[|gs| - 1], g)
    ensures Chained(cfg, gs + [g])
  {
  }

  lemma {:induction false} GrantsChained(cfg: Config, h: seq<Call>, key: Key)
    requires Monotone(h)
    ensures Chained(cfg, Grants(cfg, h, key)) && Current(After(cfg, h), key, Grants(cfg, h, key))
    ensures var gs := Grants(cfg, h, key);
            gs != [] ==> h != [] && gs[|gs| - 1].at <= h[|h| - 1].at
  {
    if h != [] {
      var front, c := h[..|h| - 1], h[|h| - 1];
      var gs := Grants(cfg, front, key);
      GrantsChained(cfg, front, key);
      assert gs != [] ==> gs[|gs| - 1].at <= c.at by { assert front != [] ==> front[|front| - 1] == h[|h| - 2]; }
      if c.key == key && Admits(cfg, After(cfg, front), c) {
        var e := Record(cfg, After(cfg, front), c)[key];
        ChainGrows(cfg, gs, Grant(c.at, e.windowStart, e.count));
      }
    }
  }

  lemma LastGrant(cfg: Config, h: seq<Call>, key: Key)
    requires Monotone(h)
    ensures Current(After(cfg, h), key, Grants(cfg, h, key))
  {
    GrantsChained(cfg, h, key);
  }

  /**
   The decision over any history: a call is denied exactly when the key's last accepted call lies in a window that
   has not ended and was at least the `rate`-th of it.
   */
  lemma {:induction false} DeniedIff(cfg: Config, h: seq<Call>, c: Call)
    requires Monotone(h)
    ensures var gs := Grants(cfg, h, c.key);
            !Admits(cfg, After(cfg, h), c) <==>
            gs != [] && c.at <= gs[|gs| - 1].start + cfg.window && gs[|gs| - 1].rank >= cfg.rate
  {
    LastGrant(cfg, h, c.key);
  }

  // ---------------------------------------------------------------- the bounds

  lemma {:induction false} GrantsSorted(cfg: Config, gs: seq<Grant>, i: nat, j: nat)
    requires Chained(cfg, gs) && i <= j < |gs|
    ensures gs[i].at <= gs[j].at
    decreases j - i
  {
    if i < j {
      GrantsSorted(cfg, gs, i, j - 1);
      assert Follows(cfg, gs[j - 1], gs[j]);
    }
  }

  /** A window that has `rank` calls behind it closes within the rest of its quota. */
  lemma {:induction false} NextOpening(cfg: Config, gs: seq<Grant>, i: nat) returns (o: nat)
    requires Chained(cfg, gs) && i < |gs| && i + Quota(cfg) - gs[i].rank + 1 < |gs|
    ensures i < o <= i + Quota(cfg) - gs[i].rank + 1
    ensures gs[o].rank == 1 && gs[o].start == gs[o].at > gs[i].start + cfg.window
    decreases Quota(cfg) - gs[i].rank
  {
    assert Follows(cfg, gs[i], gs[i + 1]);
    if gs[i + 1].rank == 1 {
      o := i + 1;
    } else {
      o := NextOpening(cfg, gs, i + 1);
    }
  }

  /** No window holds more than its quota: calls a quota apart lie in different windows. */
  lemma QuotaPerWindow(cfg: Config, h: seq<Call>, key: Key, i: nat)
    requires Monotone(h) && cfg.window >= 0 && i + Quota(cfg) < |Grants(cfg, h, key)|
    ensures var gs := Grants(cfg, h, key);
            gs[i + Quota(cfg)].start > gs[i].start + cfg.window
  {
    GrantsChained(cfg, h, key);
    var gs := Grants(cfg, h, key);
    var o := NextOpening(cfg, gs, i);
    StartsSorted(cfg, gs, o, i + Quota(cfg));
  }

  lemma {:induction false} StartsSorted(cfg: Config, gs: seq<Grant>, i: nat, j: nat)
    requires Chained(cfg, gs) && i <= j < |gs| && cfg.window >= 0
    ensures gs[i].start <= gs[j].start
    decreases j - i
  {
    if i < j {
      StartsSorted(cfg, gs, i, j - 1);
      assert Follows(cfg, gs[j - 1], gs[j]);
    }
  }

  /**
   Any two quotas of consecutive accepted calls span more than a window. If the first of them does not
   open its own window, two further windows open before the last of them.
   */
  lemma TwoQuotasSpanMore(cfg: Config, gs: seq<Grant>, i: nat)
    requires Chained(cfg, gs) && i + 2 * Quota(cfg) - 1 < |gs|
    ensures gs[i + 2 * Quota(cfg) - 1].at > gs[i].at + cfg.window
  {
    var last := i + 2 * Quota(cfg) - 1;
    var o := NextOpening(cfg, gs, i);
    if gs[i].rank == 1 {
      GrantsSorted(cfg, gs, o, last);
    } else {
      var o' := NextOpening(cfg, gs, o);
      GrantsSorted(cfg, gs, i, o);
      GrantsSorted(cfg, gs, o', last);
    }
  }

  /** The accepted calls of a key within the closed interval [a, a + window]. */
  ghost function Within(cfg: Config, gs: seq<Grant>, a: Time): set<int> {
    set i | 0 <= i < |gs| && a <= gs[i].at <= a + cfg.window
  }

  lemma {:induction false} RangeCount(s: set<int>, lo: int, n: nat)
    requires forall i :: i in s ==> lo <= i < lo + n
    ensures |s| <= n
    decreases n
  {
    if n == 0 {
      assert forall i :: i !in s;
      assert s == {};
    } else {
      RangeCount(s - {lo + n - 1}, lo, n - 1);
    }
  }

  lemma {:induction false} Smallest(s: set<int>, i: int) returns (m: int)
    requires i in s && forall j :: j in s ==> 0 <= j
    ensures m in s && forall j :: j in s ==> m <= j
    decreases i
  {
    if j :| j in s && j < i {
      m := Smallest(s, j);
    } else {
      m := i;
    }
  }

  /** At most twice the rate, less one, in any closed interval one window long. */
  lemma AtMostTwiceLessOne(cfg: Config, h: seq<Call>, key: Key, a: Time)
    requires Monotone(h)
    ensures |Within(cfg, Grants(cfg, h, key), a)| <= 2 * Quota(cfg) - 1
  {
    GrantsChained(cfg, h, key);
    var gs := Grants(cfg, h, key);
    var s := Within(cfg, gs, a);
    if i :| i in s {
      var lo := Smallest(s, i);
      forall i | i in s ensures lo <= i < lo + (2 * Quota(cfg) - 1) {
        if i >= lo + 2 * Quota(cfg) - 1 {
          TwoQuotasSpanMore(cfg, gs, lo);
          GrantsSorted(cfg, gs, lo + 2 * Quota(cfg) - 1, i);
        }
      }
      RangeCount(s, lo, 2 * Quota(cfg) - 1);
    } else {
      assert s == {};
    }
  }

  // ---------------------------------------------------------------- the bound is reached

  function Repeated(c: Call, n: nat): seq<Call> {
    seq(n, _ => c)
  }

  /** The next `n` accepted calls at one instant of a window with `count` behind it. */
  function Filling(at: Time, start: Time, count: int, n: nat): seq<Grant> {
    seq(n, i requires 0 <= i < n => Grant(at, start, count + 1 + i))
  }

  /** After `h` the key has these accepted calls and this counter. */
  predicate Gives(cfg: Config, h: seq<Call>, key: Key, gs: seq<Grant>, e: Entry) {
    Grants(cfg, h, key) == gs && key in After(cfg, h) && After(cfg, h)[key] == e
  }

  lemma StaysInWindow(cfg: Config, h: seq<Call>, c: Call, gs: seq<Grant>, e: Entry)
    requires Gives(cfg, h, c.key, gs, e) && c.at <= e.windowStart + cfg.window && e.count < cfg.rate
    ensures Gives(cfg, h + [c], c.key, gs + [Grant(c.at, e.windowStart, e.count + 1)], e.(count := e.count + 1))
  {
    assert (h + [c])[..|h|] == h;
  }

  lemma OpensWindow(cfg: Config, h: seq<Call>, c: Call, gs: seq<Grant>)
    requires Opens(cfg, After(cfg, h), c) && Grants(cfg, h, c.key) == gs
    ensures Gives(cfg, h + [c], c.key, gs + [Grant(c.at, c.at, 1)], Entry(1, c.at))
  {
    assert (h + [c])[..|h|] == h;
  }

  lemma OneMore(h: seq<Call>, c: Call, gs: seq<Grant>, start: Time, count: int, n: nat)
    requires n > 0
    ensures h + Repeated(c, n) == h + Repeated(c, n - 1) + [c]
    ensures gs + Filling(c.at, start, count, n) == gs + Filling(c.at, start, count, n - 1) + [Grant(c.at, start, count + n)]
  {
  }

  lemma {:induction false} FillsWindow(cfg: Config, h: seq<Call>, c: Call, n: nat, gs: seq<Grant>, e: Entry)
    requires Gives(cfg, h, c.key, gs, e) && c.at <= e.windowStart + cfg.window && e.count + n <= cfg.rate
    ensures Gives(cfg, h + Repeated(c, n), c.key, gs + Filling(c.at, e.windowStart, e.count, n), e.(count := e.count + n))
  {
    if n == 0 {
      assert h + Repeated(c, n) == h && gs + Filling(c.at, e.windowStart, e.count, n) == gs;
    } else {
      FillsWindow(cfg, h, c, n - 1, gs, e);
      OneMore(h, c, gs, e.windowStart, e.count, n);
      StaysInWindow(cfg, h + Repeated(c, n - 1), c, gs + Filling(c.at, e.windowStart, e.count, n - 1),
                    e.(count := e.count + n - 1));
    }
  }

  /** A call that opens a window, and the rest of the quota at one later instant of it. */
  function WithWindow(cfg: Config, h: seq<Call>, c: Call, d: Call): seq<Call>
    requires cfg.rate >= 1
  {
    h + [c] + Repeated(d, cfg.rate - 1)
  }

  function WithGrants(cfg: Config, gs: seq<Grant>, c: Call, d: Call): seq<Grant>
    requires cfg.rate >= 1
  {
    gs + [Grant(c.at, c.at, 1)] + Filling(d.at, c.at, 1, cfg.rate - 1)
  }

  lemma UsesUpWindow(cfg: Config, h: seq<Call>, c: Call, d: Call, gs: seq<Grant>)
    requires cfg.rate >= 1 && Opens(cfg, After(cfg, h), c) && Grants(cfg, h, c.key) == gs
    requires d.key == c.key && d.at <= c.at + cfg.window
    ensures Gives(cfg, WithWindow(cfg, h, c, d), c.key, WithGrants(cfg, gs, c, d), Entry(cfg.rate, c.at))
  {
    OpensWindow(cfg, h, c, gs);
    FillsWindow(cfg, h + [c], d, cfg.rate - 1, gs + [Grant(c.at, c.at, 1)], Entry(1, c.at));
  }

  /** One call, the rest of the quota as the window ends, and a whole quota right after it. */
  function Burst(cfg: Config, key: Key): seq<Call>
    requires cfg.rate >= 1
  {
    var first, late, after := Call(key, 0), Call(key, cfg.window), Call(key, cfg.window + 1);
    WithWindow(cfg, WithWindow(cfg, [], first, late), after, after)
  }

  function BurstGrants(cfg: Config, key: Key): seq<Grant>
    requires cfg.rate >= 1
  {
    var first, late, after := Call(key, 0), Call(key, cfg.window), Call(key, cfg.window + 1);
    WithGrants(cfg, WithGrants(cfg, [], first, late), after, after)
  }

  lemma BurstIsGranted(cfg: Config, key: Key)
    requires cfg.rate >= 1 && cfg.window >= 1
    ensures Grants(cfg, Burst(cfg, key), key) == BurstGrants(cfg, key)
  {
    var first, late, after := Call(key, 0), Call(key, cfg.window), Call(key, cfg.window + 1);
    UsesUpWindow(cfg, [], first, late, []);
    UsesUpWindow(cfg, WithWindow(cfg, [], first, late), after, after, WithGrants(cfg, [], first, late));
  }

  lemma BurstTimes(cfg: Config, key: Key)
    requires cfg.rate >= 1
    ensures |BurstGrants(cfg, key)| == 2 * cfg.rate
    ensures forall i :: 0 <= i < 2 * cfg.rate ==>
              BurstGrants(cfg, key)[i].at == if i == 0 then 0 else if i < cfg.rate then cfg.window else cfg.window + 1
  {
  }

  lemma {:induction false} WholeRange(s: set<int>, lo: int, n: nat)
    requires forall i :: i in s <==> lo <= i < lo + n
    ensures |s| == n
    decreases n
  {
    if n == 0 {
      assert forall i :: i !in s;
      assert s == {};
    } else {
      WholeRange(s - {lo + n - 1}, lo, n - 1);
    }
  }

  lemma BurstMonotone(cfg: Config, key: Key)
    requires cfg.rate >= 1 && cfg.window >= 1
    ensures Monotone(Burst(cfg, key))
  {
    var h := Burst(cfg, key);
    assert forall i :: 0 <= i < |h| ==>
             h[i].at == if i == 0 then 0 else if i < cfg.rate then cfg.window else cfg.window + 1;
  }

  /** For every rate and window there is a history that meets the bound exactly. */
  lemma BoundIsTight(cfg: Config, key: Key)
    requires cfg.rate >= 1 && cfg.window >= 1
    ensures Monotone(Burst(cfg, key))
    ensures |Within(cfg, Grants(cfg, Burst(cfg, key), key), 1)| == 2 * cfg.rate - 1
  {
    BurstMonotone(cfg, key);
    BurstIsGranted(cfg, key);
    BurstTimes(cfg, key);
    WholeRange(Within(cfg, BurstGrants(cfg, key), 1), 1, 2 * cfg.rate - 1);
  }
}
