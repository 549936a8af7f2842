/**
 The in-process cache in front of a remote one (infra/cache/local.go), with calls one at a time: when can
 it be told from that cache, if nobody else writes to it?
 */
module LocalCache {
  type Key = string
  type Value = string
  type Time = int

  /** The lifetime of a local entry, in nanoseconds. */
  type Ttl = t: int | t > 0 witness 1

  /** A cached value and the instant it expires. */
  datatype Slot = Slot(value: Value, expires: Time)

  datatype Cache = Cache(inner: map<Key, Value>, l1: map<Key, Slot>, clock: Time)

  /** What becomes of a remote write. A write that timed out may have taken effect all the same. */
  datatype Fate = Succeeds | Refused | AppliedButFailed

  /** Calls, and what happens between them. A Get with `fails` finds the remote cache out of order if it asks. */
  datatype Op =
    | Get(key: Key, fails: bool)
    | Set(key: Key, value: Value, fate: Fate)
    | Delete(keys: seq<Key>, fate: Fate)
    | Invalidate(keys: seq<Key>)
    | Evict(key: Key)
    | Tick(elapsed: nat)
    | OutsideWrite(key: Key, value: Value)
    | OutsideRemove(key: Key)               // an outside delete, or the remote entry's own expiry

  datatype Response = Found(value: Value) | CacheMiss | Done | BackendError

  predicate Live(c: Cache, key: Key) {
    key in c.l1 && c.clock <= c.l1[key].expires
  }

  function Without<V>(m: map<Key, V>, keys: seq<Key>): map<Key, V> {
    map k | k in m && k !in keys :: m[k]
  }

  function Answer(fate: Fate): Response {
    if fate.Succeeds? then Done else BackendError
  }

  /** The remote cache alone. */
  function InnerStep(inner: map<Key, Value>, op: Op): (map<Key, Value>, Response) {
    match op
    case Get(key, fails) => (inner, if fails then BackendError else if key in inner then Found(inner[key]) else CacheMiss)
    case Set(key, value, fate) => (if fate.Refused? then inner else inner[key := value], Answer(fate))
    case Delete(keys, fate) => (if fate.Refused? then inner else Without(inner, keys), Answer(fate))
    case OutsideWrite(key, value) => (inner[key := value], Done)
    case OutsideRemove(key) => (inner - {key}, Done)
    case _ => (inner, Done)
  }

  /** The remote cache behind the local one. */
  function Step(ttl: Ttl, c: Cache, op: Op): (Cache, Response) {
    match op
    case Get(key, fails) =>
      if Live(c, key) then (c, Found(c.l1[key].value))
      else if fails then (c, BackendError)
      else if key !in c.inner then (c, CacheMiss)
      else (c.(l1 := c.l1[key := Slot(c.inner[key], c.clock + ttl)]), Found(c.inner[key]))
    case Set(key, value, fate) =>
      var inner := InnerStep(c.inner, op).0;
      (Cache(inner, if fate.Succeeds? then c.l1[key := Slot(value, c.clock + ttl)] else c.l1, c.clock), Answer(fate))
    case Delete(keys, fate) => (Cache(InnerStep(c.inner, op).0, Without(c.l1, keys), c.clock), Answer(fate))
    case Invalidate(keys) => (c.(l1 := Without(c.l1, keys)), Done)
    case Evict(key) => (c.(l1 := c.l1 - {key}), Done)
    case Tick(elapsed) => (c.(clock := c.clock + elapsed), Done)
    case OutsideWrite(_, _) => (c.(inner := InnerStep(c.inner, op).0), Done)
    case OutsideRemove(_) => (c.(inner := InnerStep(c.inner, op).0), Done)
  }

  function Responses(ttl: Ttl, c: Cache, ops: seq<Op>): seq<Response>
    decreases |ops|
  {
    if ops == [] then []
    else [Step(ttl, c, ops[0]).1] + Responses(ttl, Step(ttl, c, ops[0]).0, ops[1..])
  }

  function InnerResponses(inner: map<Key, Value>, ops: seq<Op>): seq<Response>
    decreases |ops|
  {
    if ops == [] then []
    else [InnerStep(inner, ops[0]).1] + InnerResponses(InnerStep(inner, ops[0]).0, ops[1..])
  }

  /** Whatever a Get would find locally is what the remote cache holds. */
  ghost predicate Coherent(c: Cache) {
    forall k :: Live(c, k) ==> k in c.inner && c.inner[k] == c.l1[k].value
  }

  /**
   A failed Set that took effect, or a change from outside, under a key that the local cache still answers with
   another value.
   */
  predicate LeavesOldValue(c: Cache, op: Op) {
    || (op.Set? && op.fate.AppliedButFailed? && Live(c, op.key) && c.l1[op.key].value != op.value)
    || (op.OutsideWrite? && Live(c, op.key) && c.l1[op.key].value != op.value)
    || (op.OutsideRemove? && Live(c, op.key))
  }

  /** A Get that is answered locally although the remote cache is out of order. */
  predicate HidesOutage(c: Cache, op: Op) {
    op.Get? && op.fails && Live(c, op.key)
  }

  /** The local cache stays coherent exactly through the calls that do not leave an old value behind. */
  lemma StepCoherentIff(ttl: Ttl, c: Cache, op: Op)
    requires Coherent(c)
    ensures Coherent(Step(ttl, c, op).0) <==> !LeavesOldValue(c, op)
    ensures Step(ttl, c, op).0.inner == InnerStep(c.inner, op).0
    ensures Step(ttl, c, op).1 == InnerStep(c.inner, op).1 <==> !HidesOutage(c, op)
  {
    if LeavesOldValue(c, op) {
      assert Live(Step(ttl, c, op).0, op.key);
    }
  }

  /** No step of the sequence leaves an old value behind. */
  predicate NoOldValue(ttl: Ttl, c: Cache, ops: seq<Op>)
    decreases |ops|
  {
    ops == [] || (!LeavesOldValue(c, ops[0]) && NoOldValue(ttl, Step(ttl, c, ops[0]).0, ops[1..]))
  }

  predicate NoHiddenOutage(ttl: Ttl, c: Cache, ops: seq<Op>)
    decreases |ops|
  {
    ops == [] || (!HidesOutage(c, ops[0]) && NoHiddenOutage(ttl, Step(ttl, c, ops[0]).0, ops[1..]))
  }

  /**
   As long as no failed Set and no outside change leaves an old value behind, the answers to a sequence of calls, evictions and
   expiries are those of the remote cache alone exactly when no outage is hidden by a local answer.
   */
  lemma {:induction false} ObservationallyEqualIff(ttl: Ttl, c: Cache, ops: seq<Op>)
    requires Coherent(c) && NoOldValue(ttl, c, ops)
    ensures Responses(ttl, c, ops) == InnerResponses(c.inner, ops) <==> NoHiddenOutage(ttl, c, ops)
    decreases |ops|
  {
    if ops != [] {
      var c' := Step(ttl, c, ops[0]).0;
      StepCoherentIff(ttl, c, ops[0]);
      ObservationallyEqualIff(ttl, c', ops[1..]);
      HeadAndTail(Responses(ttl, c, ops), InnerResponses(c.inner, ops));
      assert Responses(ttl, c, ops)[1..] == Responses(ttl, c', ops[1..]);
      assert InnerResponses(c.inner, ops)[1..] == InnerResponses(c'.inner, ops[1..]);
    }
  }

  lemma HeadAndTail(a: seq<Response>, b: seq<Response>)
    requires a != [] && b != []
    ensures a == b <==> a[0] == b[0] && a[1..] == b[1..]
  {
    if a[0] == b[0] && a[1..] == b[1..] {
      assert a == [a[0]] + a[1..] && b == [b[0]] + b[1..];
    }
  }

  /** Calls whose remote part succeeds or is refused outright, and nothing from outside. */
  predicate Dependable(ops: seq<Op>) {
    forall i :: 0 <= i < |ops| ==>
      && !(ops[i].Get? && ops[i].fails) && !(ops[i].Set? && ops[i].fate.AppliedButFailed?)
      && !ops[i].OutsideWrite? && !ops[i].OutsideRemove?
  }

  lemma {:induction false} DependableIsHarmless(ttl: Ttl, c: Cache, ops: seq<Op>)
    requires Dependable(ops)
    ensures NoOldValue(ttl, c, ops) && NoHiddenOutage(ttl, c, ops)
    decreases |ops|
  {
    if ops != [] {
      DependableIsHarmless(ttl, Step(ttl, c, ops[0]).0, ops[1..]);
    }
  }

  /** From here on the local cache cannot be told from the remote one by calls that do not fail half-way. */
  ghost predicate Indistinguishable(ttl: Ttl, c: Cache) {
    forall ops :: Dependable(ops) ==> Responses(ttl, c, ops) == InnerResponses(c.inner, ops)
  }

  lemma IndistinguishableIff(ttl: Ttl, c: Cache)
    ensures Indistinguishable(ttl, c) <==> Coherent(c)
  {
    if Coherent(c) {
      forall ops | Dependable(ops) ensures Responses(ttl, c, ops) == InnerResponses(c.inner, ops) {
        DependableIsHarmless(ttl, c, ops);
        ObservationallyEqualIff(ttl, c, ops);
      }
    } else {
      var k :| Live(c, k) && !(k in c.inner && c.inner[k] == c.l1[k].value);
      var ops := [Get(k, false)];
      assert Dependable(ops);
      assert Responses(ttl, c, ops)[0] == Found(c.l1[k].value);
      assert InnerResponses(c.inner, ops)[0] != Found(c.l1[k].value);
    }
  }

  /** One failed Set that took effect makes the two distinguishable exactly when the key had another live local value. */
  lemma FailedSetShowsIff(ttl: Ttl, c: Cache, key: Key, value: Value)
    requires Coherent(c)
    ensures var c' := Step(ttl, c, Set(key, value, AppliedButFailed)).0;
            Indistinguishable(ttl, c') <==> !(Live(c, key) && c.l1[key].value != value)
  {
    StepCoherentIff(ttl, c, Set(key, value, AppliedButFailed));
    IndistinguishableIff(ttl, Step(ttl, c, Set(key, value, AppliedButFailed)).0);
  }

  // ---------------------------------------------------------------- the lifetime of an entry

  /** The cache before operation `n`. */
  function StateAt(ttl: Ttl, c: Cache, ops: seq<Op>, n: nat): Cache
    requires n <= |ops|
  {
    if n == 0 then c else Step(ttl, StateAt(ttl, c, ops, n - 1), ops[n - 1]).0
  }

  predicate Holds(s: Cache, key: Key, value: Value, from: Time) {
    key in s.inner && s.inner[key] == value && from <= s.clock
  }

  /** Before one of the operations up to `n` the remote cache held the value, at `from` or later. */
  ghost predicate EverHeld(ttl: Ttl, c: Cache, ops: seq<Op>, n: nat, key: Key, value: Value, from: Time)
    requires n <= |ops|
  {
    exists j: nat :: j <= n && Holds(StateAt(ttl, c, ops, j), key, value, from)
  }

  /** Every local entry was the remote value at some instant no more than its lifetime before it expires. */
  ghost predicate Recent(ttl: Ttl, c: Cache, ops: seq<Op>, n: nat)
    requires n <= |ops|
  {
    var s := StateAt(ttl, c, ops, n);
    forall k :: k in s.l1 ==> EverHeld(ttl, c, ops, n, k, s.l1[k].value, s.l1[k].expires - ttl)
  }

  /** An entry is as it was, or holds what the remote cache holds now, for a lifetime from now. */
  lemma EntryAfterStep(ttl: Ttl, s: Cache, op: Op, k: Key)
    requires k in Step(ttl, s, op).0.l1
    ensures var s' := Step(ttl, s, op).0;
            (k in s.l1 && s'.l1[k] == s.l1[k]) || Holds(s', k, s'.l1[k].value, s'.l1[k].expires - ttl)
  {
  }

  lemma RecentStep(ttl: Ttl, c: Cache, ops: seq<Op>, n: nat)
    requires n < |ops| && Recent(ttl, c, ops, n)
    ensures Recent(ttl, c, ops, n + 1)
  {
    var s, s' := StateAt(ttl, c, ops, n), StateAt(ttl, c, ops, n + 1);
    assert s' == Step(ttl, s, ops[n]).0;
    forall k | k in s'.l1 ensures EverHeld(ttl, c, ops, n + 1, k, s'.l1[k].value, s'.l1[k].expires - ttl) {
      EntryAfterStep(ttl, s, ops[n], k);
      if k in s.l1 && s'.l1[k] == s.l1[k] {
        HeldLonger(ttl, c, ops, n, k, s.l1[k].value, s.l1[k].expires - ttl, s.l1[k].expires - ttl);
      }
    }
  }

  lemma HeldLonger(ttl: Ttl, c: Cache, ops: seq<Op>, n: nat, key: Key, value: Value, from: Time, earlier: Time)
    requires n < |ops| && EverHeld(ttl, c, ops, n, key, value, from) && earlier <= from
    ensures EverHeld(ttl, c, ops, n + 1, key, value, earlier)
  {
    var j: nat :| j <= n && Holds(StateAt(ttl, c, ops, j), key, value, from);
    assert Holds(StateAt(ttl, c, ops, j), key, value, earlier);
  }

  lemma {:induction false} AlwaysRecent(ttl: Ttl, c: Cache, ops: seq<Op>, n: nat)
    requires n <= |ops| && c.l1 == map[]
    ensures Recent(ttl, c, ops, n)
  {
    if n > 0 {
      AlwaysRecent(ttl, c, ops, n - 1);
      RecentStep(ttl, c, ops, n - 1);
    }
  }

  lemma {:induction false} ClockForward(ttl: Ttl, c: Cache, ops: seq<Op>, j: nat, n: nat)
    requires j <= n <= |ops|
    ensures StateAt(ttl, c, ops, j).clock <= StateAt(ttl, c, ops, n).clock
  {
    if j < n { ClockForward(ttl, c, ops, j, n - 1); }
  }

  lemma FoundIsLiveOrHeld(ttl: Ttl, s: Cache, op: Op)
    requires op.Get? && Step(ttl, s, op).1.Found?
    ensures var value := Step(ttl, s, op).1.value;
            (Live(s, op.key) && s.l1[op.key].value == value) || Holds(s, op.key, value, s.clock)
  {
  }

  /**
   Whatever the calls, the failures and the changes from outside: a value returned at `t` was held by the remote
   cache at some instant between `t - ttl` and `t`.
   */
  lemma StaleAtMostTtl(ttl: Ttl, c: Cache, ops: seq<Op>, n: nat)
    requires c.l1 == map[] && n < |ops| && ops[n].Get? && Step(ttl, StateAt(ttl, c, ops, n), ops[n]).1.Found?
    ensures var s := StateAt(ttl, c, ops, n);
            exists j: nat ::
              j <= n && Holds(StateAt(ttl, c, ops, j), ops[n].key, Step(ttl, s, ops[n]).1.value, s.clock - ttl)
              && StateAt(ttl, c, ops, j).clock <= s.clock
  {
    var j := FoundWasHeld(ttl, c, ops, n);
    ClockForward(ttl, c, ops, j, n);
  }

  lemma FoundWasHeld(ttl: Ttl, c: Cache, ops: seq<Op>, n: nat) returns (j: nat)
    requires c.l1 == map[] && n < |ops| && ops[n].Get? && Step(ttl, StateAt(ttl, c, ops, n), ops[n]).1.Found?
    ensures var s := StateAt(ttl, c, ops, n);
            j <= n && Holds(StateAt(ttl, c, ops, j), ops[n].key, Step(ttl, s, ops[n]).1.value, s.clock - ttl)
  {
    var s, key := StateAt(ttl, c, ops, n), ops[n].key;
    var value := Step(ttl, s, ops[n]).1.value;
    FoundIsLiveOrHeld(ttl, s, ops[n]);
    if Live(s, key) && s.l1[key].value == value {
      AlwaysRecent(ttl, c, ops, n);
      assert EverHeld(ttl, c, ops, n, key, value, s.l1[key].expires - ttl);
      var i: nat :| i <= n && Holds(StateAt(ttl, c, ops, i), key, value, s.l1[key].expires - ttl);
      j := i;
    } else {
      j := n;
    }
  }

  /** An entry just written answers for its lifetime and not longer: after that the remote cache is asked. */
  lemma ServedLocallyIff(ttl: Ttl, c: Cache, key: Key, value: Value, elapsed: nat)
    ensures var c1 := Step(ttl, c, Set(key, value, Succeeds)).0;
            var c2 := Step(ttl, c1, Tick(elapsed)).0;
            Step(ttl, c2, Get(key, true)).1 == if elapsed <= ttl then Found(value) else BackendError
  {
  }

  /** The same for an entry that a Get has brought in; being read again does not prolong its life. */
  lemma ReadDoesNotProlong(ttl: Ttl, c: Cache, key: Key, first: nat, second: nat)
    requires key in c.inner && !Live(c, key) && first <= ttl
    ensures var c1 := Step(ttl, c, Get(key, false)).0;
            var c2 := Step(ttl, Step(ttl, c1, Tick(first)).0, Get(key, false)).0;
            var c3 := Step(ttl, c2, Tick(second)).0;
            Step(ttl, c3, Get(key, true)).1 == if first + second <= ttl then Found(c.inner[key]) else BackendError
  {
  }

  class Client {
    var data: map<Key, Value>
  }

  class Local {
    const inner: Client
    var store: map<Key, Slot>
    const defaultTTL: Ttl

    constructor (inner: Client, defaultTTL: Ttl)
      ensures this.inner == inner && store == map[] && this.defaultTTL == defaultTTL
    {
      this.inner, store, this.defaultTTL := inner, map[], defaultTTL;
    }

    ghost function Model(now: Time): Cache
      reads this, inner
    {
      Cache(inner.data, store, now)
    }

    method DoGet(key: Key, fails: bool, now: Time) returns (r: Response)
      modifies this
      ensures (Model(now), r) == Step(defaultTTL, old(Model(now)), Get(key, fails))
    {
      if key in store && now <= store[key].expires {
        return Found(store[key].value);
      }
      if fails {
        return BackendError;
      }
      if key !in inner.data {
        return CacheMiss;
      }
      var data := inner.data[key];
      store := store[key := Slot(data, now + defaultTTL)];
      return Found(data);
    }

    method DoSet(key: Key, value: Value, fate: Fate, now: Time) returns (r: Response)
      modifies this, inner
      ensures (Model(now), r) == Step(defaultTTL, old(Model(now)), Set(key, value, fate))
    {
      if !fate.Refused? {
        inner.data := inner.data[key := value];
      }
      if !fate.Succeeds? {
        return BackendError;
      }
      store := store[key := Slot(value, now + defaultTTL)];
      return Done;
    }

    method DoInvalidate(keys: seq<Key>)
      modifies this
      ensures store == Without(old(store), keys)
      ensures forall k :: k in store <==> k in old(store) && k !in keys
      ensures forall k :: k in store ==> store[k] == old(store)[k]
    {
      for i := 0 to |keys|
        invariant store == Without(old(store), keys[..i])
      {
        assert keys[..i + 1] == keys[..i] + [keys[i]];
        store := store - {keys[i]};
      }
      assert keys[..|keys|] == keys;
    }

    method DoDelete(keys: seq<Key>, fate: Fate, now: Time) returns (r: Response)
      modifies this, inner
      ensures (Model(now), r) == Step(defaultTTL, old(Model(now)), Delete(keys, fate))
      ensures forall k :: k in store <==> k in old(store) && k !in keys
      ensures forall k :: k in inner.data <==> k in old(inner.data) && (k !in keys || fate.Refused?)
    {
      DoInvalidate(keys);
      if !fate.Refused? {
        inner.data := Without(inner.data, keys);
      }
      return Answer(fate);
    }
  }
}

/**
 The same cache under concurrent calls, outside writes and expiries: how stale can an answer be? The
 remote read and the insertion into the local cache are separate steps.
 */
module LocalCacheStaleness {
  import opened LocalCache

  type CallId = nat

  /** A cached value, when it expires, and when the remote cache was asked for it. */
  datatype Kept = Kept(value: Value, expires: Time, readAt: Time)

  datatype Call =
    | Looking(key: Key)
    | Fetching(key: Key)
    | Filling(key: Key, value: Value, readAt: Time)
    | Returned(key: Key, value: Value, at: Time)
    | Ended

  datatype State = State(
    inner: map<Key, Value>,
    until: map<(Key, Value), Time>,   // when the remote cache last ceased to hold the value
    l1: map<Key, Kept>,
    calls: map<CallId, Call>,
    clock: Time)

  datatype Label =
    | BeginGet(c: CallId, key: Key)
    | Lookup(c: CallId)
    | Fetch(c: CallId, ok: bool)
    | SetInner(c: CallId, key: Key, value: Value)     // first half of Set
    | Fill(c: CallId)                                 // second half of Get and of Set
    | Drop(key: Key)                                  // eviction, Invalidate, first half of Delete
    | Remove(key: Key)                                // expiry, outside delete, second half of Delete
    | OutsideWrite(key: Key, value: Value)            // or a Set that took effect and failed
    | Advance(elapsed: nat)

  function Init(t0: Time): State {
    State(map[], map[], map[], map[], t0)
  }

  /** `maxLag` bounds the time between the remote step of a call and its insertion. */
  predicate Enabled(maxLag: nat, s: State, l: Label) {
    match l
    case BeginGet(c, key) => c !in s.calls
    case Lookup(c) => c in s.calls && s.calls[c].Looking?
    case Fetch(c, ok) => c in s.calls && s.calls[c].Fetching?
    case SetInner(c, key, value) => c !in s.calls
    case Fill(c) => c in s.calls && s.calls[c].Filling? && s.clock - s.calls[c].readAt <= maxLag
    case _ => true
  }

  function Ceases(s: State, key: Key): map<(Key, Value), Time> {
    if key in s.inner then s.until[(key, s.inner[key]) := s.clock] else s.until
  }

  function Write(s: State, key: Key, value: Value): State {
    s.(inner := s.inner[key := value], until := Ceases(s, key))
  }

  function Apply(maxLag: nat, ttl: Ttl, s: State, l: Label): State
    requires Enabled(maxLag, s, l)
  {
    match l
    case BeginGet(c, key) => s.(calls := s.calls[c := Looking(key)])
    case Lookup(c) =>
      var key := s.calls[c].key;
      s.(calls := s.calls[c := if key in s.l1 && s.clock <= s.l1[key].expires
                               then Returned(key, s.l1[key].value, s.clock) else Fetching(key)])
    case Fetch(c, ok) =>
      var key := s.calls[c].key;
      s.(calls := s.calls[c := if ok && key in s.inner then Filling(key, s.inner[key], s.clock) else Ended])
    case SetInner(c, key, value) =>
      var s' := Write(s, key, value);
      s'.(calls := s.calls[c := Filling(key, value, s.clock)])
    case Fill(c) =>
      var k := s.calls[c];
      s.(l1 := s.l1[k.key := Kept(k.value, s.clock + ttl, k.readAt)],
         calls := s.calls[c := Returned(k.key, k.value, s.clock)])
    case Drop(key) => s.(l1 := s.l1 - {key})
    case Remove(key) => s.(inner := s.inner - {key}, until := Ceases(s, key))
    case OutsideWrite(key, value) => Write(s, key, value)
    case Advance(elapsed) => s.(clock := s.clock + elapsed)
  }

  predicate Runs(maxLag: nat, ttl: Ttl, s: State, ls: seq<Label>)
    decreases |ls|
  {
    ls == [] || (Enabled(maxLag, s, ls[0]) && Runs(maxLag, ttl, Apply(maxLag, ttl, s, ls[0]), ls[1..]))
  }

  function After(maxLag: nat, ttl: Ttl, s: State, ls: seq<Label>): State
    requires Runs(maxLag, ttl, s, ls)
    decreases |ls|
  {
    if ls == [] then s else After(maxLag, ttl, Apply(maxLag, ttl, s, ls[0]), ls[1..])
  }

  ghost predicate Reachable(maxLag: nat, ttl: Ttl, s: State) {
    exists t0, ls :: Runs(maxLag, ttl, Init(t0), ls) && After(maxLag, ttl, Init(t0), ls) == s
  }

  /** The remote cache held the value at `from` or later. */
  predicate HeldSince(s: State, key: Key, value: Value, from: Time) {
    || (key in s.inner && s.inner[key] == value && from <= s.clock)
    || ((key, value) in s.until && from <= s.until[(key, value)])
  }

  /** Every answer was held by the remote cache at most `bound` before it was given. */
  ghost predicate StaleAtMost(s: State, bound: nat) {
    forall c :: c in s.calls && s.calls[c].Returned? ==>
      HeldSince(s, s.calls[c].key, s.calls[c].value, s.calls[c].at - bound)
  }

  predicate CallSound(maxLag: nat, ttl: Ttl, s: State, k: Call) {
    match k
    case Filling(key, value, readAt) => readAt <= s.clock && HeldSince(s, key, value, readAt)
    case Returned(key, value, at) => at <= s.clock && HeldSince(s, key, value, at - ttl - maxLag)
    case _ => true
  }

  ghost predicate Inv(maxLag: nat, ttl: Ttl, s: State) {
    && (forall k :: k in s.l1 ==>
          HeldSince(s, k, s.l1[k].value, s.l1[k].readAt) && s.l1[k].expires <= s.l1[k].readAt + maxLag + ttl)
    && (forall c :: c in s.calls ==> CallSound(maxLag, ttl, s, s.calls[c]))
    && (forall kv :: kv in s.until ==> s.until[kv] <= s.clock)
  }

  lemma StepKeepsHeld(maxLag: nat, ttl: Ttl, s: State, l: Label, key: Key, value: Value, from: Time)
    requires Inv(maxLag, ttl, s) && Enabled(maxLag, s, l) && HeldSince(s, key, value, from)
    ensures HeldSince(Apply(maxLag, ttl, s, l), key, value, from)
  {
  }

  lemma StepKeepsInv(maxLag: nat, ttl: Ttl, s: State, l: Label)
    requires Inv(maxLag, ttl, s) && Enabled(maxLag, s, l)
    ensures Inv(maxLag, ttl, Apply(maxLag, ttl, s, l))
  {
    var s' := Apply(maxLag, ttl, s, l);
    forall key, value, from | HeldSince(s, key, value, from) ensures HeldSince(s', key, value, from) {
      StepKeepsHeld(maxLag, ttl, s, l, key, value, from);
    }
    forall c | c in s'.calls ensures CallSound(maxLag, ttl, s', s'.calls[c]) {
      if c in s.calls { assert CallSound(maxLag, ttl, s, s.calls[c]); }
    }
    forall k | k in s'.l1
      ensures HeldSince(s', k, s'.l1[k].value, s'.l1[k].readAt) && s'.l1[k].expires <= s'.l1[k].readAt + maxLag + ttl
    {
      if l.Fill? { assert CallSound(maxLag, ttl, s, s.calls[l.c]); }
    }
  }

  lemma {:induction false} RunKeepsInv(maxLag: nat, ttl: Ttl, s: State, ls: seq<Label>)
    requires Inv(maxLag, ttl, s) && Runs(maxLag, ttl, s, ls)
    ensures Inv(maxLag, ttl, After(maxLag, ttl, s, ls))
    decreases |ls|
  {
    if ls != [] {
      StepKeepsInv(maxLag, ttl, s, ls[0]);
      RunKeepsInv(maxLag, ttl, Apply(maxLag, ttl, s, ls[0]), ls[1..]);
    }
  }

  /** Answers are stale by at most the lifetime of an entry plus the lag of the call that cached it. */
  lemma StalenessBounded(maxLag: nat, ttl: Ttl, s: State)
    requires Reachable(maxLag, ttl, s)
    ensures StaleAtMost(s, ttl + maxLag)
  {
    var t0, ls :| Runs(maxLag, ttl, Init(t0), ls) && After(maxLag, ttl, Init(t0), ls) == s;
    RunKeepsInv(maxLag, ttl, Init(t0), ls);
    forall c | c in s.calls && s.calls[c].Returned?
      ensures HeldSince(s, s.calls[c].key, s.calls[c].value, s.calls[c].at - (ttl + maxLag))
    {
      assert CallSound(maxLag, ttl, s, s.calls[c]);
    }
  }

  lemma {:induction false} RunsSnoc(maxLag: nat, ttl: Ttl, s: State, ls: seq<Label>, l: Label)
    requires Runs(maxLag, ttl, s, ls) && Enabled(maxLag, After(maxLag, ttl, s, ls), l)
    ensures Runs(maxLag, ttl, s, ls + [l])
    ensures After(maxLag, ttl, s, ls + [l]) == Apply(maxLag, ttl, After(maxLag, ttl, s, ls), l)
    decreases |ls|
  {
    if ls == [] {
      assert [l][1..] == [] && ls + [l] == [l];
    } else {
      RunsSnoc(maxLag, ttl, Apply(maxLag, ttl, s, ls[0]), ls[1..], l);
      assert (ls + [l])[1..] == ls[1..] + [l];
    }
  }

  lemma ReachInit(maxLag: nat, ttl: Ttl)
    ensures Reachable(maxLag, ttl, Init(0))
  {
    assert Runs(maxLag, ttl, Init(0), []) && After(maxLag, ttl, Init(0), []) == Init(0);
  }

  lemma ReachStep(maxLag: nat, ttl: Ttl, s: State, l: Label)
    requires Reachable(maxLag, ttl, s) && Enabled(maxLag, s, l)
    ensures Reachable(maxLag, ttl, Apply(maxLag, ttl, s, l))
  {
    var t0, ls :| Runs(maxLag, ttl, Init(t0), ls) && After(maxLag, ttl, Init(t0), ls) == s;
    RunsSnoc(maxLag, ttl, Init(t0), ls, l);
  }

  lemma ReachFill(maxLag: nat, ttl: Ttl, s: State, c: CallId)
    requires Reachable(maxLag, ttl, s) && Enabled(maxLag, s, Fill(c))
    ensures Reachable(maxLag, ttl, Apply(maxLag, ttl, s, Fill(c)))
  {
    ReachStep(maxLag, ttl, s, Fill(c));
  }

  /** A Get that finds the key in the local cache. */
  lemma ReachHit(maxLag: nat, ttl: Ttl, s: State, c: CallId, key: Key)
    requires Reachable(maxLag, ttl, s) && c !in s.calls && key in s.l1 && s.clock <= s.l1[key].expires
    ensures Reachable(maxLag, ttl, s.(calls := s.calls[c := Returned(key, s.l1[key].value, s.clock)]))
  {
    ReachStep(maxLag, ttl, s, BeginGet(c, key));
    var s1 := Apply(maxLag, ttl, s, BeginGet(c, key));
    ReachStep(maxLag, ttl, s1, Lookup(c));
    assert Apply(maxLag, ttl, s1, Lookup(c)) == s.(calls := s.calls[c := Returned(key, s.l1[key].value, s.clock)]);
  }

  /** A value gone from the remote cache right after it was read, inserted late and returned at the last moment. */
  lemma LagIsVisible(maxLag: nat, ttl: Ttl)
    ensures exists s :: Reachable(maxLag, ttl, s) && 1 in s.calls && s.calls[1].Returned?
                        && !HeldSince(s, s.calls[1].key, s.calls[1].value, s.calls[1].at - (ttl + maxLag) + 1)
  {
    ReachInit(maxLag, ttl);
    ReachStep(maxLag, ttl, Init(0), SetInner(0, "k", "v"));
    var s1 := State(map["k" := "v"], map[], map[], map[0 := Filling("k", "v", 0)], 0);
    assert Apply(maxLag, ttl, Init(0), SetInner(0, "k", "v")) == s1;
    ReachStep(maxLag, ttl, s1, Remove("k"));
    var s2 := State(map[], map[("k", "v") := 0], map[], map[0 := Filling("k", "v", 0)], 0);
    assert Apply(maxLag, ttl, s1, Remove("k")) == s2;
    LagEnds(maxLag, ttl, s2);
  }

  lemma LagEnds(maxLag: nat, ttl: Ttl, s: State)
    requires Reachable(maxLag, ttl, s) && s.clock == 0 && 0 in s.calls && s.calls[0] == Filling("k", "v", 0)
    requires 1 !in s.calls && "k" !in s.inner && ("k", "v") in s.until && s.until[("k", "v")] == 0
    ensures exists s :: Reachable(maxLag, ttl, s) && 1 in s.calls && s.calls[1].Returned?
                        && !HeldSince(s, s.calls[1].key, s.calls[1].value, s.calls[1].at - (ttl + maxLag) + 1)
  {
    ReachStep(maxLag, ttl, s, Advance(maxLag));
    var s3 := Apply(maxLag, ttl, s, Advance(maxLag));
    ReachFill(maxLag, ttl, s3, 0);
    var s4 := Apply(maxLag, ttl, s3, Fill(0));
    ReachStep(maxLag, ttl, s4, Advance(ttl));
    var s5 := Apply(maxLag, ttl, s4, Advance(ttl));
    ReachHit(maxLag, ttl, s5, 1, "k");
    var s6 := s5.(calls := s5.calls[1 := Returned("k", "v", maxLag + ttl)]);
    assert Reachable(maxLag, ttl, s6) && !HeldSince(s6, "k", "v", 1);
  }

  /** Worst-case staleness is the lifetime of an entry exactly when calls insert what they read without lag. */
  lemma StaleAtMostTtlIffNoLag(maxLag: nat, ttl: Ttl)
    ensures (forall s :: Reachable(maxLag, ttl, s) ==> StaleAtMost(s, ttl)) <==> maxLag == 0
  {
    if maxLag == 0 {
      forall s | Reachable(maxLag, ttl, s) ensures StaleAtMost(s, ttl) {
        StalenessBounded(maxLag, ttl, s);
      }
    } else {
      LagIsVisible(maxLag, ttl);
      var s :| Reachable(maxLag, ttl, s) && 1 in s.calls && s.calls[1].Returned?
               && !HeldSince(s, s.calls[1].key, s.calls[1].value, s.calls[1].at - (ttl + maxLag) + 1);
      assert !StaleAtMost(s, ttl);
    }
  }
}

/**
 The same question under concurrent calls, with nobody else writing: every remote and every local action is
 a step. Expiry and eviction are one step here: the local entry goes.
 */
module LocalCacheOverlap {
  import opened Prelude
  import opened LocalCache

  type CallId = nat

  /**
   How the cache is used: how many calls may be under way at a time, and whether a Set may take effect and
   fail on a key for which the local cache has another value.
   */
  datatype Use = Use(calls: nat, halfWaySets: bool)

  datatype Stage = AtLocal | AtRemote | AtFill(value: Value)

  /** A call under way. A Get has the answers that the remote cache could have given since it began. */
  datatype Call =
    | Getting(key: Key, stage: Stage, seen: set<Option<Value>>)
    | Setting(key: Key, value: Value)     // written remotely, not yet locally
    | Deleting(key: Key)                  // dropped locally, not yet remotely

  /** `allHeld`: every answer so far was the remote cache's at some instant of its call. */
  datatype State = State(inner: map<Key, Value>, l1: map<Key, Value>, calls: map<CallId, Call>, allHeld: bool)

  datatype Label =
    | BeginGet(c: CallId, key: Key)
    | LookLocal(c: CallId)
    | AskRemote(c: CallId, ok: bool)
    | FillGet(c: CallId)
    | SetRemote(c: CallId, key: Key, value: Value, fate: Fate)
    | FillSet(c: CallId)
    | DropLocal(c: CallId, key: Key)
    | DeleteRemote(c: CallId, fate: Fate)
    | Forget(key: Key)

  const INIT := State(map[], map[], map[], true)

  function Held(m: map<Key, Value>, key: Key): Option<Value> {
    if key in m then Some(m[key]) else None
  }

  predicate At(s: State, c: CallId, stage: Stage) {
    c in s.calls && s.calls[c].Getting? && s.calls[c].stage == stage
  }

  predicate Enabled(u: Use, s: State, l: Label) {
    match l
    case BeginGet(c, _) => c !in s.calls && |s.calls| < u.calls
    case LookLocal(c) => At(s, c, AtLocal)
    case AskRemote(c, _) => At(s, c, AtRemote)
    case FillGet(c) => c in s.calls && s.calls[c].Getting? && s.calls[c].stage.AtFill?
    case SetRemote(c, key, value, fate) =>
      && c !in s.calls && |s.calls| < u.calls
      && (fate.AppliedButFailed? && key in s.l1 && s.l1[key] != value ==> u.halfWaySets)
    case FillSet(c) => c in s.calls && s.calls[c].Setting?
    case DropLocal(c, _) => c !in s.calls && |s.calls| < u.calls
    case DeleteRemote(c, _) => c in s.calls && s.calls[c].Deleting?
    case Forget(_) => true
  }

  /** The remote cache now holds `v` under `key`, and the Gets under way could be told so. */
  function Changed(s: State, inner: map<Key, Value>, key: Key): State {
    s.(inner := inner,
       calls := map c | c in s.calls ::
         var k := s.calls[c];
         if k.Getting? && k.key == key then k.(seen := k.seen + {Held(inner, key)}) else k)
  }

  function Answer(s: State, c: CallId, r: Option<Value>): State
    requires c in s.calls && s.calls[c].Getting?
  {
    s.(calls := s.calls - {c}, allHeld := s.allHeld && r in s.calls[c].seen)
  }

  function Apply(u: Use, s: State, l: Label): State
    requires Enabled(u, s, l)
  {
    match l
    case BeginGet(c, key) => s.(calls := s.calls[c := Getting(key, AtLocal, {Held(s.inner, key)})])
    case LookLocal(c) =>
      var k := s.calls[c];
      if k.key in s.l1 then Answer(s, c, Some(s.l1[k.key])) else s.(calls := s.calls[c := k.(stage := AtRemote)])
    case AskRemote(c, ok) =>
      var k := s.calls[c];
      if !ok then s.(calls := s.calls - {c})
      else if k.key !in s.inner then Answer(s, c, None)
      else s.(calls := s.calls[c := k.(stage := AtFill(s.inner[k.key]))])
    case FillGet(c) =>
      var k := s.calls[c];
      Answer(s, c, Some(k.stage.value)).(l1 := s.l1[k.key := k.stage.value])
    case SetRemote(c, key, value, fate) =>
      var s' := if fate.Refused? then s else Changed(s, s.inner[key := value], key);
      if fate.Succeeds? then s'.(calls := s'.calls[c := Setting(key, value)]) else s'
    case FillSet(c) => s.(calls := s.calls - {c}, l1 := s.l1[s.calls[c].key := s.calls[c].value])
    case DropLocal(c, key) => s.(calls := s.calls[c := Deleting(key)], l1 := s.l1 - {key})
    case DeleteRemote(c, fate) =>
      var s' := if fate.Refused? then s else Changed(s, s.inner - {s.calls[c].key}, s.calls[c].key);
      s'.(calls := s'.calls - {c})
    case Forget(key) => s.(l1 := s.l1 - {key})
  }

  predicate Runs(u: Use, s: State, ls: seq<Label>)
    decreases |ls|
  {
    ls == [] || (Enabled(u, s, ls[0]) && Runs(u, Apply(u, s, ls[0]), ls[1..]))
  }

  function After(u: Use, s: State, ls: seq<Label>): State
    requires Runs(u, s, ls)
    decreases |ls|
  {
    if ls == [] then s else After(u, Apply(u, s, ls[0]), ls[1..])
  }

  ghost predicate Reachable(u: Use, s: State) {
    exists ls :: Runs(u, INIT, ls) && After(u, INIT, ls) == s
  }

  // ---------------------------------------------------------------- one call at a time

  /** Local entries agree with the remote cache, the excepted key aside. */
  predicate CoherentBut(s: State, except: Option<Key>) {
    forall k :: k in s.l1 && Some(k) != except ==> k in s.inner && s.inner[k] == s.l1[k]
  }

  predicate CallSound(s: State, k: Call) {
    match k
    case Getting(key, stage, seen) =>
      CoherentBut(s, None) && Held(s.inner, key) in seen && (stage.AtFill? ==> Held(s.inner, key) == Some(stage.value))
    case Setting(key, value) => CoherentBut(s, Some(key)) && Held(s.inner, key) == Some(value)
    case Deleting(key) => CoherentBut(s, None) && key !in s.l1
  }

  ghost predicate Inv(s: State) {
    && s.allHeld
    && (forall c, d :: c in s.calls && d in s.calls ==> c == d)
    && (s.calls == map[] ==> CoherentBut(s, None))
    && (forall c :: c in s.calls ==> CallSound(s, s.calls[c]))
  }

  lemma Idle(s: State)
    requires s.allHeld && s.calls.Keys == {} && CoherentBut(s, None)
    ensures Inv(s)
  {
  }

  lemma Busy(s: State, c: CallId)
    requires s.allHeld && s.calls.Keys == {c} && CallSound(s, s.calls[c])
    ensures Inv(s)
  {
  }

  lemma BeginKeepsInv(u: Use, s: State, l: Label)
    requires Inv(s) && Enabled(u, s, l) && s.calls == map[] && (l.BeginGet? || l.DropLocal?)
    ensures Inv(Apply(u, s, l))
  {
    var s' := Apply(u, s, l);
    assert s'.calls.Keys == {l.c};
    Busy(s', l.c);
  }

  lemma SetKeepsInv(u: Use, s: State, l: Label)
    requires Inv(s) && Enabled(u, s, l) && s.calls == map[] && l.SetRemote? && !u.halfWaySets
    ensures Inv(Apply(u, s, l))
  {
    var s' := Apply(u, s, l);
    if l.fate.Succeeds? {
      assert s'.calls.Keys == {l.c};
      Busy(s', l.c);
    } else {
      assert s'.calls.Keys == {};
      Idle(s');
    }
  }

  /** The one call under way goes on or ends. */
  lemma MoveKeepsInv(u: Use, s: State, l: Label)
    requires s.allHeld && Enabled(u, s, l) && (l.LookLocal? || l.AskRemote? || l.FillGet? || l.FillSet? || l.DeleteRemote?)
    requires s.calls.Keys == {l.c} && CallSound(s, s.calls[l.c])
    ensures Inv(Apply(u, s, l))
  {
    var s' := Apply(u, s, l);
    if l.c in s'.calls {
      assert s'.calls.Keys == {l.c};
      Busy(s', l.c);
    } else {
      assert s'.calls.Keys == {};
      Idle(s');
    }
  }

  lemma StepKeepsInv(u: Use, s: State, l: Label)
    requires Inv(s) && Enabled(u, s, l) && u.calls <= 1 && !u.halfWaySets
    ensures Inv(Apply(u, s, l))
  {
    if l.BeginGet? || l.DropLocal? {
      assert s.calls == map[];
      BeginKeepsInv(u, s, l);
    } else if l.SetRemote? {
      assert s.calls == map[];
      SetKeepsInv(u, s, l);
    } else if !l.Forget? {
      assert s.calls.Keys == {l.c};
      MoveKeepsInv(u, s, l);
    }
  }

  lemma {:induction false} RunKeepsInv(u: Use, s: State, ls: seq<Label>)
    requires Inv(s) && Runs(u, s, ls) && u.calls <= 1 && !u.halfWaySets
    ensures Inv(After(u, s, ls))
    decreases |ls|
  {
    if ls != [] {
      StepKeepsInv(u, s, ls[0]);
      RunKeepsInv(u, Apply(u, s, ls[0]), ls[1..]);
    }
  }

  // ---------------------------------------------------------------- two calls at a time

  lemma {:induction false} RunsSnoc(u: Use, s: State, ls: seq<Label>, l: Label)
    requires Runs(u, s, ls) && Enabled(u, After(u, s, ls), l)
    ensures Runs(u, s, ls + [l]) && After(u, s, ls + [l]) == Apply(u, After(u, s, ls), l)
    decreases |ls|
  {
    if ls == [] {
      assert ls + [l] == [l] && [l][1..] == [];
    } else {
      RunsSnoc(u, Apply(u, s, ls[0]), ls[1..], l);
      assert (ls + [l])[1..] == ls[1..] + [l];
    }
  }

  lemma ReachStep(u: Use, s: State, l: Label)
    requires Reachable(u, s) && Enabled(u, s, l)
    ensures Reachable(u, Apply(u, s, l))
  {
    var ls :| Runs(u, INIT, ls) && After(u, INIT, ls) == s;
    RunsSnoc(u, INIT, ls, l);
    assert Runs(u, INIT, ls + [l]) && After(u, INIT, ls + [l]) == Apply(u, s, l);
  }

  lemma OldValueWritten(u: Use, key: Key) returns (s: State)
    requires u.calls >= 1
    ensures Reachable(u, s) && s.inner == map[key := "old"] && s.l1 == map[key := "old"] && s.calls == map[]
  {
    assert Runs(u, INIT, []) && After(u, INIT, []) == INIT;
    ReachStep(u, INIT, SetRemote(0, key, "old", Succeeds));
    var s1 := Apply(u, INIT, SetRemote(0, key, "old", Succeeds));
    assert s1.calls.Keys == {0} && s1.calls[0] == Setting(key, "old");
    ReachStep(u, s1, FillSet(0));
    s := Apply(u, s1, FillSet(0));
    assert s.calls.Keys == {};
  }

  ghost predicate Inserting(s: State, c: CallId, key: Key, value: Value) {
    c in s.calls && s.calls[c].Getting? && s.calls[c].key == key && s.calls[c].stage == AtFill(value)
  }

  /** A Get that is about to insert what it read. */
  lemma OldValueRead(u: Use, s0: State, key: Key) returns (s: State)
    requires u.calls >= 2 && Reachable(u, s0) && key in s0.inner && key !in s0.l1 && s0.calls == map[]
    ensures Reachable(u, s) && s.calls.Keys == {1} && Inserting(s, 1, key, s0.inner[key])
  {
    ReachStep(u, s0, BeginGet(1, key));
    var s1 := Apply(u, s0, BeginGet(1, key));
    ReachStep(u, s1, LookLocal(1));
    var s2 := Apply(u, s1, LookLocal(1));
    ReachStep(u, s2, AskRemote(1, true));
    s := Apply(u, s2, AskRemote(1, true));
  }

  /** A whole Set passes it. */
  lemma NewValueWritten(u: Use, s0: State, key: Key, value: Value) returns (s: State)
    requires u.calls >= 2 && Reachable(u, s0) && s0.calls.Keys == {1} && Inserting(s0, 1, key, value)
    ensures Reachable(u, s) && s.calls.Keys == {1} && Inserting(s, 1, key, value) && Held(s.inner, key) == Some("new")
  {
    assert s0.calls == map[1 := s0.calls[1]];
    ReachStep(u, s0, SetRemote(2, key, "new", Succeeds));
    var s1 := Apply(u, s0, SetRemote(2, key, "new", Succeeds));
    assert s1.calls.Keys == {1, 2} && s1.calls[2] == Setting(key, "new");
    ReachStep(u, s1, FillSet(2));
    s := Apply(u, s1, FillSet(2));
    assert s.calls.Keys == {1} && s.calls[1] == s1.calls[1];
  }

  /** The old value is inserted after the new one. */
  lemma OldValueInserted(u: Use, s0: State, key: Key, value: Value) returns (s: State)
    requires Reachable(u, s0) && s0.calls.Keys == {1} && Inserting(s0, 1, key, value)
    ensures Reachable(u, s) && s.inner == s0.inner && Held(s.l1, key) == Some(value) && s.calls == map[]
  {
    ReachStep(u, s0, FillGet(1));
    s := Apply(u, s0, FillGet(1));
    assert s.calls.Keys == {};
  }

  /** A Get that runs alone then returns a value that was gone before it began. */
  lemma OldValueReturned(u: Use, s0: State, key: Key) returns (s: State)
    requires u.calls >= 1 && Reachable(u, s0) && s0.calls == map[]
    requires Held(s0.inner, key) == Some("new") && Held(s0.l1, key) == Some("old")
    ensures Reachable(u, s) && !s.allHeld
  {
    ReachStep(u, s0, BeginGet(3, key));
    var s1 := Apply(u, s0, BeginGet(3, key));
    assert s1.calls[3] == Getting(key, AtLocal, {Some("new")});
    ReachStep(u, s1, LookLocal(3));
    s := Apply(u, s1, LookLocal(3));
    assert "old" != "new";
  }

  lemma OverlapBreaksEquality(u: Use, key: Key) returns (s: State)
    requires u.calls >= 2
    ensures Reachable(u, s) && !s.allHeld
  {
    var written := OldValueWritten(u, key);
    ReachStep(u, written, Forget(key));
    var read := OldValueRead(u, Apply(u, written, Forget(key)), key);
    var passed := NewValueWritten(u, read, key, "old");
    var inserted := OldValueInserted(u, passed, key, "old");
    s := OldValueReturned(u, inserted, key);
  }

  /** One call at a time is not enough: a Set that took effect and failed leaves the old value to later Gets. */
  lemma HalfWaySetBreaksEquality(u: Use, key: Key) returns (s: State)
    requires u.calls >= 1 && u.halfWaySets
    ensures Reachable(u, s) && !s.allHeld
  {
    var written := OldValueWritten(u, key);
    var write := SetRemote(2, key, "new", AppliedButFailed);
    ReachStep(u, written, write);
    var s1 := Apply(u, written, write);
    assert s1.calls.Keys == {};
    s := OldValueReturned(u, s1, key);
  }

  /**
   Every answer is one the remote cache would have given during the call, in all runs, exactly when calls do
   not overlap and no failed Set takes effect on a key with another local value.
   */
  lemma EqualIff(u: Use)
    ensures (forall s :: Reachable(u, s) ==> s.allHeld) <==> u.calls == 0 || (u.calls == 1 && !u.halfWaySets)
  {
    if u.calls == 0 {
      forall s | Reachable(u, s) ensures s.allHeld {
        var ls :| Runs(u, INIT, ls) && After(u, INIT, ls) == s;
        NothingHappens(u, INIT, ls);
      }
    } else if u.calls == 1 && !u.halfWaySets {
      forall s | Reachable(u, s) ensures s.allHeld {
        var ls :| Runs(u, INIT, ls) && After(u, INIT, ls) == s;
        RunKeepsInv(u, INIT, ls);
      }
    } else if u.calls >= 2 {
      var s := OverlapBreaksEquality(u, "k");
    } else {
      var s := HalfWaySetBreaksEquality(u, "k");
    }
  }

  lemma {:induction false} NothingHappens(u: Use, s: State, ls: seq<Label>)
    requires Runs(u, s, ls) && u.calls == 0 && s.calls == map[] && s.allHeld
    ensures After(u, s, ls).allHeld
    decreases |ls|
  {
    if ls != [] {
      NothingHappens(u, Apply(u, s, ls[0]), ls[1..]);
    }
  }

  // ---------------------------------------------------------------- what a Get could be told

  /** The call is a Get of the key at every moment of the run. */
  predicate Lasts(u: Use, s: State, ls: seq<Label>, c: CallId, key: Key)
    requires Runs(u, s, ls)
    decreases |ls|
  {
    && c in s.calls && s.calls[c].Getting? && s.calls[c].key == key
    && (ls == [] || Lasts(u, Apply(u, s, ls[0]), ls[1..], c, key))
  }

  /** What the remote cache holds under the key at some moment of the run. */
  function HeldDuring(u: Use, s: State, ls: seq<Label>, key: Key): set<Option<Value>>
    requires Runs(u, s, ls)
    decreases |ls|
  {
    {Held(s.inner, key)} + if ls == [] then {} else HeldDuring(u, Apply(u, s, ls[0]), ls[1..], key)
  }

  /** The answers that count as right for a Get are exactly the values held remotely while it was under way. */
  lemma {:induction false} SeenExactly(u: Use, s: State, ls: seq<Label>, c: CallId, key: Key)
    requires Runs(u, s, ls) && Lasts(u, s, ls, c, key) && Held(s.inner, key) in s.calls[c].seen
    ensures c in After(u, s, ls).calls && After(u, s, ls).calls[c].Getting?
    ensures After(u, s, ls).calls[c].seen == s.calls[c].seen + HeldDuring(u, s, ls, key)
    decreases |ls|
  {
    if ls != [] {
      SeenAfterStep(u, s, ls[0], c, key);
      SeenExactly(u, Apply(u, s, ls[0]), ls[1..], c, key);
    }
  }

  lemma SeenAfterStep(u: Use, s: State, l: Label, c: CallId, key: Key)
    requires Enabled(u, s, l) && c in s.calls && s.calls[c].Getting? && s.calls[c].key == key
    requires Held(s.inner, key) in s.calls[c].seen
    requires var s' := Apply(u, s, l); c in s'.calls && s'.calls[c].Getting? && s'.calls[c].key == key
    ensures Apply(u, s, l).calls[c].seen == s.calls[c].seen + {Held(Apply(u, s, l).inner, key)}
  {
  }
}
