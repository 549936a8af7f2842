/** The channel-based transport (messenger/transport/memory/transport.go), one call at a time. */
module MemoryTransport {
  import opened Prelude
  import opened Envelopes

  /** The key of an envelope in the pending map: its memory id, or its type and time when it has none. */
  datatype Key = ById(id: nat) | ByMessage(message: string, createdAt: Time)

  function PendingKey(env: Envelope): Key {
    var s := env.Last(NAME_MEMORY_ID);
    if s.Some? && s.value.MemoryId? then ById(s.value.memoryId) else ByMessage(env.message, env.createdAt)
  }

  /** A fresh stamp decides the key, whatever ids the envelope carried before; the worker's stamp does not. */
  lemma StampedKey(env: Envelope, id: nat, transport: string, at: Time)
    ensures PendingKey(env.WithStamp(MemoryId(id))) == ById(id)
    ensures PendingKey(env.WithStamp(Received(transport, at))) == PendingKey(env)
  {
    NamesDiffer();
    LastAfterStamp(env, MemoryId(id), NAME_MEMORY_ID);
    LastAfterStamp(env, Received(transport, at), NAME_MEMORY_ID);
  }

  datatype SendResult = Sent | Refused | Waits(stamped: Envelope)

  class Transport {
    var ch: seq<Envelope>
    var pending: map<Key, Envelope>
    var closed: bool
    var sequence: nat
    const capacity: nat

    constructor (capacity: nat)
      ensures ch == [] && pending == map[] && !closed && sequence == 0 && this.capacity == capacity
    {
      ch, pending, closed, sequence := [], map[], false, 0;
      this.capacity := capacity;
    }

    /** A full channel makes the call wait, with the envelope stamped and not yet in the channel. */
    method Send(env: Envelope) returns (r: SendResult)
      modifies this
      ensures pending == old(pending) && closed == old(closed)
      ensures r.Refused? <==> old(closed)
      ensures r.Sent? <==> !old(closed) && |old(ch)| < capacity
      ensures r.Refused? ==> ch == old(ch) && sequence == old(sequence)
      ensures !r.Refused? ==> sequence == old(sequence) + 1 && PendingKey(env.WithStamp(MemoryId(sequence))) == ById(sequence)
      ensures r.Sent? ==> ch == old(ch) + [env.WithStamp(MemoryId(sequence))]
      ensures r.Waits? ==> ch == old(ch) && r.stamped == env.WithStamp(MemoryId(sequence))
    {
      if closed { return Refused; }
      sequence := sequence + 1;
      var stamped := env.WithStamp(MemoryId(sequence));
      StampedKey(env, sequence, "", 0);
      if |ch| >= capacity { return Waits(stamped); }
      ch := ch + [stamped];
      return Sent;
    }

    method Get() returns (envs: seq<Envelope>)
      modifies this
      ensures closed == old(closed) && sequence == old(sequence)
      ensures old(ch) == [] ==> envs == [] && ch == old(ch) && pending == old(pending)
      ensures old(ch) != [] ==> envs == [old(ch)[0]] && ch == old(ch)[1..]
                                && pending == old(pending)[PendingKey(old(ch)[0]) := old(ch)[0]]
    {
      if |ch| == 0 { return []; }
      var env := ch[0];
      ch := ch[1..];
      pending := pending[PendingKey(env) := env];
      return [env];
    }

    method Ack(env: Envelope)
      modifies this
      ensures pending == old(pending) - {PendingKey(env)}
      ensures ch == old(ch) && closed == old(closed) && sequence == old(sequence)
    {
      pending := pending - {PendingKey(env)};
    }

    /** Puts the envelope back, or reports that it is dropped. */
    method Reject(env: Envelope) returns (ok: bool)
      modifies this
      ensures pending == old(pending) - {PendingKey(env)} && closed == old(closed) && sequence == old(sequence)
      ensures ok <==> !old(closed) && |old(ch)| < capacity
      ensures ch == if ok then old(ch) + [env] else old(ch)
    {
      pending := pending - {PendingKey(env)};
      if closed { return false; }
      if |ch| >= capacity { return false; }
      ch := ch + [env];
      return true;
    }

    method Close()
      modifies this
      ensures closed && ch == old(ch) && pending == old(pending) && sequence == old(sequence)
    {
      closed := true;
    }
  }
}

/**
 Senders and workers on one memory transport in any interleaving: every atomic action of Send, Get, Ack,
 Reject and Close is a step of its own.
 */
module MemoryConservation {
  import opened Prelude
  import opened Envelopes
  import opened MemoryTransport

  type RoutineId = nat

  /** An envelope and the memory id under which the transport files it. */
  datatype Item = Item(id: nat, env: Envelope)

  datatype Stage =
    | Sending       // stamped, waiting for room in the channel
    | Holding       // out of the channel, not yet pending
    | Working       // pending, being dispatched
    | Acking
    | Rejecting
    | Requeueing    // no longer pending, channel state not looked at yet
    | Pushing       // found the transport open

  datatype Routine = Routine(stage: Stage, item: Item)

  /** Where a sent id is. A goroutine that has it is named. */
  datatype Place =
    | Buffered
    | Held(t: RoutineId)
    | Pending(t: RoutineId)
    | InReject(t: RoutineId)
    | Acked
    | Dropped       // reported to the caller of Reject
    | Panicked      // the rejecting goroutine ran into the closed channel

  datatype State = State(
    ch: seq<Item>,
    pending: map<nat, Envelope>,
    closed: bool,                      // the flag
    channelClosed: bool,               // the channel itself, closed after the flag is set
    sequence: nat,
    routines: map<RoutineId, Routine>,
    sent: map<nat, Envelope>,          // history: the envelope handed to Send under each id
    place: map<nat, Place>,            // history: every id that entered the channel, and where it is
    taken: nat,                        // history: envelopes taken out of the channel
    settled: nat)                      // history: acknowledgements and rejections

  datatype Label =
    | SendStamp(t: RoutineId, env: Envelope)
    | SendPush(t: RoutineId)
    | GetTake(t: RoutineId)
    | GetStore(t: RoutineId)
    | Dispatch(t: RoutineId, ok: bool, at: Time)
    | AckDelete(t: RoutineId)
    | RejectDelete(t: RoutineId)
    | RejectLook(t: RoutineId)
    | RejectPush(t: RoutineId)
    | SwapFlag
    | CloseChannel

  const INIT := State([], map[], false, false, 0, map[], map[], map[], 0, 0)

  predicate At(s: State, t: RoutineId, stage: Stage) {
    t in s.routines && s.routines[t].stage == stage
  }

  predicate Enabled(capacity: nat, s: State, l: Label) {
    match l
    case SendStamp(t, env) => t !in s.routines && !s.closed
    case SendPush(t) => At(s, t, Sending) && (s.channelClosed || |s.ch| < capacity)
    case GetTake(t) => t !in s.routines && s.ch != []
    case GetStore(t) => At(s, t, Holding)
    case Dispatch(t, ok, at) => At(s, t, Working)
    case AckDelete(t) => At(s, t, Acking)
    case RejectDelete(t) => At(s, t, Rejecting)
    case RejectLook(t) => At(s, t, Requeueing)
    case RejectPush(t) => At(s, t, Pushing)
    case SwapFlag => true
    case CloseChannel => s.closed && !s.channelClosed
  }

  /** The goroutine goes on, or is over. */
  function Move(s: State, t: RoutineId, stage: Stage, at: Place): State
    requires t in s.routines
  {
    s.(routines := s.routines[t := s.routines[t].(stage := stage)], place := s.place[s.routines[t].item.id := at])
  }

  function End(s: State, t: RoutineId, at: Place): State
    requires t in s.routines
  {
    s.(routines := s.routines - {t}, place := s.place[s.routines[t].item.id := at])
  }

  function Apply(capacity: nat, s: State, l: Label): State
    requires Enabled(capacity, s, l)
  {
    match l
    case SendStamp(t, env) =>
      var id := s.sequence + 1;
      s.(sequence := id, routines := s.routines[t := Routine(Sending, Item(id, env.WithStamp(MemoryId(id))))],
         sent := s.sent[id := env])
    case SendPush(t) =>
      if s.channelClosed then s.(routines := s.routines - {t})       // a send on a closed channel panics
      else End(s, t, Buffered).(ch := s.ch + [s.routines[t].item])
    case GetTake(t) =>
      s.(ch := s.ch[1..], routines := s.routines[t := Routine(Holding, s.ch[0])], place := s.place[s.ch[0].id := Held(t)],
         taken := s.taken + 1)
    case GetStore(t) =>
      var item := s.routines[t].item;
      Move(s, t, Working, Pending(t)).(pending := s.pending[item.id := item.env])
    case Dispatch(t, ok, at) =>
      var item := s.routines[t].item;
      s.(routines := s.routines[t := Routine(if ok then Acking else Rejecting,
                                    Item(item.id, item.env.WithStamp(Received("memory", at))))])
    case AckDelete(t) =>
      End(s, t, Acked).(pending := s.pending - {s.routines[t].item.id}, settled := s.settled + 1)
    case RejectDelete(t) =>
      Move(s, t, Requeueing, InReject(t)).(pending := s.pending - {s.routines[t].item.id}, settled := s.settled + 1)
    case RejectLook(t) => if s.closed then End(s, t, Dropped) else Move(s, t, Pushing, InReject(t))
    case RejectPush(t) =>
      if s.channelClosed then End(s, t, Panicked)
      else if |s.ch| < capacity then End(s, t, Buffered).(ch := s.ch + [s.routines[t].item])
      else End(s, t, Dropped)
    case SwapFlag => s.(closed := true)
    case CloseChannel => s.(channelClosed := true)
  }

  predicate Runs(capacity: nat, s: State, ls: seq<Label>)
    decreases |ls|
  {
    ls == [] || (Enabled(capacity, s, ls[0]) && Runs(capacity, Apply(capacity, s, ls[0]), ls[1..]))
  }

  function After(capacity: nat, s: State, ls: seq<Label>): State
    requires Runs(capacity, s, ls)
    decreases |ls|
  {
    if ls == [] then s else After(capacity, Apply(capacity, s, ls[0]), ls[1..])
  }

  ghost predicate Reachable(capacity: nat, s: State) {
    exists ls :: Runs(capacity, INIT, ls) && After(capacity, INIT, ls) == s
  }

  // ---------------------------------------------------------------- invariant

  /** Where the id of a goroutine's envelope must be. */
  function PlaceOf(t: RoutineId, stage: Stage): Option<Place> {
    match stage
    case Sending => None
    case Holding => Some(Held(t))
    case Working => Some(Pending(t))
    case Acking => Some(Pending(t))
    case Rejecting => Some(Pending(t))
    case Requeueing => Some(InReject(t))
    case Pushing => Some(InReject(t))
  }

  /** A goroutine has what the history says it has; an envelope still being sent has no place yet. */
  predicate RoutineSound(s: State, t: RoutineId)
    requires t in s.routines
  {
    var id, p := s.routines[t].item.id, PlaceOf(t, s.routines[t].stage);
    id <= s.sequence && if p.None? then id !in s.place else id in s.place && s.place[id] == p.value
  }

  ghost predicate RoutinesSound(s: State) {
    && (forall t :: t in s.routines ==> RoutineSound(s, t))
    && (forall t, u :: At(s, t, Sending) && At(s, u, Sending) && t != u ==> s.routines[t].item.id != s.routines[u].item.id)
  }

  /** Every id the history places with a goroutine is there. */
  predicate PlaceSound(s: State, id: nat)
    requires id in s.place
  {
    && id <= s.sequence
    && (s.place[id].Held? || s.place[id].Pending? || s.place[id].InReject? ==>
          var t := s.place[id].t;
          t in s.routines && s.routines[t].item.id == id && PlaceOf(t, s.routines[t].stage) == Some(s.place[id]))
  }

  ghost predicate PlacesSound(s: State) {
    forall id :: id in s.place ==> PlaceSound(s, id)
  }

  predicate InChannel(s: State, id: nat) {
    exists i :: 0 <= i < |s.ch| && s.ch[i].id == id
  }

  ghost predicate ChannelSound(s: State) {
    && (forall i :: 0 <= i < |s.ch| ==> s.ch[i].id in s.place && s.place[s.ch[i].id] == Buffered)
    && (forall i, j :: 0 <= i < j < |s.ch| ==> s.ch[i].id != s.ch[j].id)
    && (forall id :: id in s.place && s.place[id] == Buffered ==> InChannel(s, id))
  }

  ghost predicate PendingSound(s: State) {
    forall id :: id in s.pending <==> id in s.place && s.place[id].Pending?
  }

  ghost predicate Inv(s: State) {
    RoutinesSound(s) && PlacesSound(s) && ChannelSound(s) && PendingSound(s)
  }

  predicate IsClosing(l: Label) {
    l.SwapFlag? || l.CloseChannel?
  }

  /** The goroutine that moves. */
  function Mover(l: Label): Option<RoutineId> {
    if IsClosing(l) then None else Some(l.t)
  }

  /** The id that changes its place, if any. */
  function MovedId(s: State, l: Label): Option<nat> {
    if IsClosing(l) || l.SendStamp? then None
    else if l.GetTake? then if s.ch == [] then None else Some(s.ch[0].id)
    else if l.t in s.routines then Some(s.routines[l.t].item.id) else None
  }

  lemma StepFrame(capacity: nat, s: State, l: Label)
    requires Enabled(capacity, s, l)
    ensures var s' := Apply(capacity, s, l);
            && (forall u :: Some(u) != Mover(l) ==> (u in s'.routines <==> u in s.routines))
            && (forall u :: Some(u) != Mover(l) && u in s.routines ==> s'.routines[u] == s.routines[u])
            && (forall id :: Some(id) != MovedId(s, l) ==> (id in s'.place <==> id in s.place))
            && (forall id :: Some(id) != MovedId(s, l) && id in s.place ==> s'.place[id] == s.place[id])
            && s.sequence <= s'.sequence
  {
  }

  /** No other goroutine has the id that moves. */
  lemma OthersApart(s: State, l: Label, u: RoutineId)
    requires RoutinesSound(s) && ChannelSound(s) && u in s.routines && Some(u) != Mover(l)
    ensures Some(s.routines[u].item.id) != MovedId(s, l)
  {
    assert RoutineSound(s, u);
    if !IsClosing(l) && !l.SendStamp? && !l.GetTake? && l.t in s.routines {
      assert RoutineSound(s, l.t);
      assert At(s, u, s.routines[u].stage) && At(s, l.t, s.routines[l.t].stage);
    }
  }

  lemma MoverStaysSound(capacity: nat, s: State, l: Label)
    requires Enabled(capacity, s, l) && !IsClosing(l) && l.t in Apply(capacity, s, l).routines
    requires l.t in s.routines ==> RoutineSound(s, l.t)
    requires l.GetTake? ==> s.ch[0].id in s.place && PlaceSound(s, s.ch[0].id)
    requires s.sequence + 1 !in s.place
    ensures RoutineSound(Apply(capacity, s, l), l.t)
  {
  }

  lemma StepKeepsRoutines(capacity: nat, s: State, l: Label)
    requires Inv(s) && Enabled(capacity, s, l)
    ensures RoutinesSound(Apply(capacity, s, l))
  {
    var s' := Apply(capacity, s, l);
    forall t | t in s'.routines ensures RoutineSound(s', t) {
      if Some(t) == Mover(l) {
        assert forall id :: id in s.place ==> PlaceSound(s, id);
        MoverStaysSound(capacity, s, l);
      } else {
        StepFrame(capacity, s, l);
        OthersApart(s, l, t);
        assert RoutineSound(s, t);
      }
    }
    forall t, u | At(s', t, Sending) && At(s', u, Sending) && t != u
      ensures s'.routines[t].item.id != s'.routines[u].item.id
    {
      SendersApart(capacity, s, l, t, u);
    }
  }

  lemma SendersApart(capacity: nat, s: State, l: Label, t: RoutineId, u: RoutineId)
    requires RoutinesSound(s) && Enabled(capacity, s, l) && t != u
    requires At(Apply(capacity, s, l), t, Sending) && At(Apply(capacity, s, l), u, Sending)
    ensures Apply(capacity, s, l).routines[t].item.id != Apply(capacity, s, l).routines[u].item.id
  {
    assert t in s.routines ==> RoutineSound(s, t);
    assert u in s.routines ==> RoutineSound(s, u);
  }

  lemma StepKeepsPlaces(capacity: nat, s: State, l: Label)
    requires Inv(s) && Enabled(capacity, s, l)
    ensures PlacesSound(Apply(capacity, s, l))
  {
    var s' := Apply(capacity, s, l);
    forall id | id in s'.place ensures PlaceSound(s', id) {
      if Some(id) == MovedId(s, l) {
        MovedStaysSound(capacity, s, l);
      } else {
        StepFrame(capacity, s, l);
        OtherPlaceStaysSound(capacity, s, l, id);
      }
    }
  }

  lemma MovedStaysSound(capacity: nat, s: State, l: Label)
    requires Enabled(capacity, s, l) && MovedId(s, l).Some? && MovedId(s, l).value in Apply(capacity, s, l).place
    requires l.t in s.routines ==> RoutineSound(s, l.t)
    requires MovedId(s, l).value in s.place ==> PlaceSound(s, MovedId(s, l).value)
    requires l.GetTake? ==> s.ch[0].id in s.place
    ensures PlaceSound(Apply(capacity, s, l), MovedId(s, l).value)
  {
  }

  lemma OtherPlaceStaysSound(capacity: nat, s: State, l: Label, id: nat)
    requires Inv(s) && Enabled(capacity, s, l) && id in s.place && Some(id) != MovedId(s, l)
    ensures id in Apply(capacity, s, l).place && PlaceSound(Apply(capacity, s, l), id)
  {
    StepFrame(capacity, s, l);
    assert PlaceSound(s, id);
  }

  /** Taking the head out and putting an id in at the end keep the channel and the history in step. */
  lemma StepKeepsChannel(capacity: nat, s: State, l: Label)
    requires Inv(s) && Enabled(capacity, s, l)
    ensures ChannelSound(Apply(capacity, s, l))
  {
    if l.GetTake? {
      TakeKeepsChannel(capacity, s, l.t);
    } else {
      if !l.SendStamp? && !IsClosing(l) { assert RoutineSound(s, l.t); }
      var s' := Apply(capacity, s, l);
      if s'.ch == s.ch {
        SameChannel(capacity, s, l);
      } else {
        PushKeepsChannel(s, s', s.routines[l.t].item);
      }
    }
  }

  lemma TakeKeepsChannel(capacity: nat, s: State, t: RoutineId)
    requires ChannelSound(s) && Enabled(capacity, s, GetTake(t))
    ensures ChannelSound(Apply(capacity, s, GetTake(t)))
  {
    var s' := Apply(capacity, s, GetTake(t));
    assert forall i :: 0 <= i < |s'.ch| ==> s'.ch[i] == s.ch[i + 1];
    forall id | id in s'.place && s'.place[id] == Buffered ensures InChannel(s', id) {
      assert InChannel(s, id);
      var i :| 0 <= i < |s.ch| && s.ch[i].id == id;
      assert s'.ch[i - 1].id == id;
    }
  }

  lemma SameChannel(capacity: nat, s: State, l: Label)
    requires ChannelSound(s) && Enabled(capacity, s, l) && !l.GetTake? && Apply(capacity, s, l).ch == s.ch
    requires !l.SendStamp? && !IsClosing(l) ==> RoutineSound(s, l.t)
    ensures ChannelSound(Apply(capacity, s, l))
  {
    var s' := Apply(capacity, s, l);
    forall id | id in s'.place && s'.place[id] == Buffered ensures InChannel(s', id) {
      assert InChannel(s, id);
    }
  }

  lemma PushKeepsChannel(s: State, s': State, item: Item)
    requires ChannelSound(s) && s'.ch == s.ch + [item] && s'.place == s.place[item.id := Buffered]
    requires item.id in s.place ==> s.place[item.id] != Buffered
    ensures ChannelSound(s')
  {
    forall id | id in s'.place && s'.place[id] == Buffered ensures InChannel(s', id) {
      if id == item.id {
        assert s'.ch[|s.ch|].id == id;
      } else {
        assert InChannel(s, id);
        var i :| 0 <= i < |s.ch| && s.ch[i].id == id;
        assert s'.ch[i].id == id;
      }
    }
  }

  lemma StepKeepsPending(capacity: nat, s: State, l: Label)
    requires Inv(s) && Enabled(capacity, s, l)
    ensures PendingSound(Apply(capacity, s, l))
  {
    MovePending(capacity, s, l);
  }

  lemma MovePending(capacity: nat, s: State, l: Label)
    requires PendingSound(s) && Enabled(capacity, s, l)
    requires l.GetTake? ==> s.ch[0].id in s.place && s.place[s.ch[0].id] == Buffered
    requires !l.SendStamp? && !l.GetTake? && !IsClosing(l) ==> RoutineSound(s, l.t)
    ensures PendingSound(Apply(capacity, s, l))
  {
  }

  // ---------------------------------------------------------------- the envelopes carry their ids

  predicate Keyed(item: Item) {
    PendingKey(item.env) == ById(item.id)
  }

  ghost predicate AllKeyed(s: State) {
    && (forall t :: t in s.routines ==> Keyed(s.routines[t].item))
    && (forall i :: 0 <= i < |s.ch| ==> Keyed(s.ch[i]))
    && (forall id :: id in s.pending ==> PendingKey(s.pending[id]) == ById(id))
  }

  lemma StepKeepsKeyed(capacity: nat, s: State, l: Label)
    requires AllKeyed(s) && Enabled(capacity, s, l)
    ensures AllKeyed(Apply(capacity, s, l))
  {
    match l
    case SendStamp(t, env) => StampKeyed(capacity, s, t, env);
    case Dispatch(t, ok, at) => DispatchKeyed(capacity, s, t, ok, at);
    case _ => QuietKeyed(capacity, s, l);
  }

  lemma StampKeyed(capacity: nat, s: State, t: RoutineId, env: Envelope)
    requires AllKeyed(s) && Enabled(capacity, s, SendStamp(t, env))
    ensures AllKeyed(Apply(capacity, s, SendStamp(t, env)))
  {
    StampedKey(env, s.sequence + 1, "memory", 0);
  }

  lemma DispatchKeyed(capacity: nat, s: State, t: RoutineId, ok: bool, at: Time)
    requires AllKeyed(s) && Enabled(capacity, s, Dispatch(t, ok, at))
    ensures AllKeyed(Apply(capacity, s, Dispatch(t, ok, at)))
  {
    StampedKey(s.routines[t].item.env, 0, "memory", at);
  }

  /** The other steps only move envelopes about. */
  lemma QuietKeyed(capacity: nat, s: State, l: Label)
    requires AllKeyed(s) && Enabled(capacity, s, l) && !l.SendStamp? && !l.Dispatch?
    ensures AllKeyed(Apply(capacity, s, l))
  {
  }

  // ---------------------------------------------------------------- and what was sent under them

  /** The envelope is the one handed to Send under this id, with stamps added at the end only. */
  predicate Carries(s: State, id: nat, env: Envelope) {
    && id <= s.sequence && id in s.sent
    && env.message == s.sent[id].message && env.createdAt == s.sent[id].createdAt
    && s.sent[id].stamps + [MemoryId(id)] <= env.stamps
  }

  ghost predicate AllCarry(s: State) {
    && (forall t :: t in s.routines ==> Carries(s, s.routines[t].item.id, s.routines[t].item.env))
    && (forall i :: 0 <= i < |s.ch| ==> Carries(s, s.ch[i].id, s.ch[i].env))
    && (forall id :: id in s.pending ==> Carries(s, id, s.pending[id]))
  }

  lemma StepKeepsCarry(capacity: nat, s: State, l: Label)
    requires AllCarry(s) && Enabled(capacity, s, l)
    ensures AllCarry(Apply(capacity, s, l))
  {
    match l
    case SendStamp(t, env) => StampCarries(capacity, s, t, env);
    case Dispatch(t, ok, at) => DispatchCarries(capacity, s, t, ok, at);
    case _ => QuietCarries(capacity, s, l);
  }

  lemma StampCarries(capacity: nat, s: State, t: RoutineId, env: Envelope)
    requires AllCarry(s) && Enabled(capacity, s, SendStamp(t, env))
    ensures AllCarry(Apply(capacity, s, SendStamp(t, env)))
  {
  }

  lemma DispatchCarries(capacity: nat, s: State, t: RoutineId, ok: bool, at: Time)
    requires AllCarry(s) && Enabled(capacity, s, Dispatch(t, ok, at))
    ensures AllCarry(Apply(capacity, s, Dispatch(t, ok, at)))
  {
    var s' := Apply(capacity, s, Dispatch(t, ok, at));
    SameSent(s, s');
  }

  /** The other steps only move envelopes about. */
  lemma QuietCarries(capacity: nat, s: State, l: Label)
    requires AllCarry(s) && Enabled(capacity, s, l) && !l.SendStamp? && !l.Dispatch?
    ensures AllCarry(Apply(capacity, s, l))
  {
    var s' := Apply(capacity, s, l);
    SameSent(s, s');
    forall t | t in s'.routines ensures Carries(s, s'.routines[t].item.id, s'.routines[t].item.env) {
      RoutineFrom(capacity, s, l, t);
    }
    forall i | 0 <= i < |s'.ch| ensures Carries(s, s'.ch[i].id, s'.ch[i].env) {
      BufferedFrom(capacity, s, l, i);
    }
    forall id | id in s'.pending ensures Carries(s, id, s'.pending[id]) {
      PendingFrom(capacity, s, l, id);
    }
  }

  lemma RoutineFrom(capacity: nat, s: State, l: Label, t: RoutineId)
    requires Enabled(capacity, s, l) && !l.SendStamp? && !l.Dispatch? && t in Apply(capacity, s, l).routines
    ensures var item := Apply(capacity, s, l).routines[t].item;
            (t in s.routines && item == s.routines[t].item) || (s.ch != [] && item == s.ch[0])
  {
  }

  lemma BufferedFrom(capacity: nat, s: State, l: Label, i: nat)
    requires Enabled(capacity, s, l) && i < |Apply(capacity, s, l).ch|
    ensures var item := Apply(capacity, s, l).ch[i];
            || (i < |s.ch| && item == s.ch[i])
            || (i + 1 < |s.ch| && item == s.ch[i + 1])
            || (!IsClosing(l) && l.t in s.routines && item == s.routines[l.t].item)
  {
  }

  lemma PendingFrom(capacity: nat, s: State, l: Label, id: nat)
    requires Enabled(capacity, s, l) && id in Apply(capacity, s, l).pending
    ensures var env := Apply(capacity, s, l).pending[id];
            || (id in s.pending && env == s.pending[id])
            || (!IsClosing(l) && l.t in s.routines && s.routines[l.t].item == Item(id, env))
  {
  }

  lemma SameSent(s: State, s': State)
    requires s'.sent == s.sent && s'.sequence == s.sequence
    ensures forall id, env :: Carries(s', id, env) <==> Carries(s, id, env)
  {
  }

  lemma {:induction false} RunKeepsCarry(capacity: nat, s: State, ls: seq<Label>)
    requires AllCarry(s) && Runs(capacity, s, ls)
    ensures AllCarry(After(capacity, s, ls))
    decreases |ls|
  {
    if ls != [] {
      StepKeepsCarry(capacity, s, ls[0]);
      RunKeepsCarry(capacity, Apply(capacity, s, ls[0]), ls[1..]);
    }
  }

  /**
   In every run, whatever is in the channel, in the pending map or in a goroutine's hands is the envelope
   that was sent under its id: its message, its time, and its stamps in front of those added since.
   */
  lemma EnvelopesAreTheOnesSent(capacity: nat, s: State)
    requires Reachable(capacity, s)
    ensures AllCarry(s)
  {
    var ls :| Runs(capacity, INIT, ls) && After(capacity, INIT, ls) == s;
    RunKeepsCarry(capacity, INIT, ls);
  }

  // ---------------------------------------------------------------- first in, first out

  /** What a step puts into the channel. */
  function Puts(capacity: nat, s: State, l: Label): seq<Item>
    requires Enabled(capacity, s, l)
  {
    if (l.SendPush? || (l.RejectPush? && |s.ch| < capacity)) && !s.channelClosed then [s.routines[l.t].item] else []
  }

  /** What a step hands to a goroutine. */
  function Takes(capacity: nat, s: State, l: Label): seq<Item>
    requires Enabled(capacity, s, l)
  {
    if l.GetTake? then [Apply(capacity, s, l).routines[l.t].item] else []
  }

  function PutBy(capacity: nat, s: State, ls: seq<Label>): seq<Item>
    requires Runs(capacity, s, ls)
    decreases |ls|
  {
    if ls == [] then [] else Puts(capacity, s, ls[0]) + PutBy(capacity, Apply(capacity, s, ls[0]), ls[1..])
  }

  function TakenBy(capacity: nat, s: State, ls: seq<Label>): seq<Item>
    requires Runs(capacity, s, ls)
    decreases |ls|
  {
    if ls == [] then [] else Takes(capacity, s, ls[0]) + TakenBy(capacity, Apply(capacity, s, ls[0]), ls[1..])
  }

  /** Every run takes out what was put in, in the same order, and the channel holds the rest. */
  lemma {:induction false} FirstInFirstOut(capacity: nat, s: State, ls: seq<Label>)
    requires Runs(capacity, s, ls)
    ensures s.ch + PutBy(capacity, s, ls) == TakenBy(capacity, s, ls) + After(capacity, s, ls).ch
    decreases |ls|
  {
    if ls != [] {
      var s' := Apply(capacity, s, ls[0]);
      FirstInFirstOut(capacity, s', ls[1..]);
      StepInOrder(capacity, s, ls[0]);
      Regroup(s.ch, Puts(capacity, s, ls[0]), PutBy(capacity, s', ls[1..]), Takes(capacity, s, ls[0]), s'.ch,
              TakenBy(capacity, s', ls[1..]), After(capacity, s', ls[1..]).ch);
    }
  }

  lemma StepInOrder(capacity: nat, s: State, l: Label)
    requires Enabled(capacity, s, l)
    ensures s.ch + Puts(capacity, s, l) == Takes(capacity, s, l) + Apply(capacity, s, l).ch
  {
  }

  /** The channel never holds more than it has room for. */
  lemma {:induction false} NeverOverfull(capacity: nat, s: State, ls: seq<Label>)
    requires Runs(capacity, s, ls) && |s.ch| <= capacity
    ensures |After(capacity, s, ls).ch| <= capacity
    decreases |ls|
  {
    if ls != [] {
      StepInOrder(capacity, s, ls[0]);
      NeverOverfull(capacity, Apply(capacity, s, ls[0]), ls[1..]);
    }
  }

  lemma Regroup<T>(a: seq<T>, p: seq<T>, ps: seq<T>, t: seq<T>, b: seq<T>, ts: seq<T>, c: seq<T>)
    requires a + p == t + b && b + ps == ts + c
    ensures a + (p + ps) == (t + ts) + c
  {
    assert a + (p + ps) == (a + p) + ps == t + (b + ps);
    assert (t + ts) + c == t + (ts + c);
  }

  // ---------------------------------------------------------------- a rejection on its own

  function RejectLabels(s: State, t: RoutineId): seq<Label> {
    if s.closed then [RejectDelete(t), RejectLook(t)] else [RejectDelete(t), RejectLook(t), RejectPush(t)]
  }

  /**
   A rejection that nothing interrupts does what one call of Reject does: the envelope is back at the end
   of the channel when the transport is open and has room, and is reported as dropped otherwise.
   */
  lemma UninterruptedReject(capacity: nat, s: State, t: RoutineId)
    requires At(s, t, Rejecting) && (s.channelClosed ==> s.closed)
    ensures var ls, item, back := RejectLabels(s, t), s.routines[t].item, !s.closed && |s.ch| < capacity;
            && Runs(capacity, s, ls)
            && var s' := After(capacity, s, ls);
            && s'.ch == (if back then s.ch + [item] else s.ch)
            && s'.pending == s.pending - {item.id}
            && s'.place == s.place[item.id := if back then Buffered else Dropped]
            && s'.routines == s.routines - {t} && s'.closed == s.closed
  {
    var s1 := Apply(capacity, s, RejectDelete(t));
    var s2 := Apply(capacity, s1, RejectLook(t));
    if s.closed {
      StepThen(capacity, s1, RejectLook(t), []);
      StepThen(capacity, s, RejectDelete(t), [RejectLook(t)] + []);
      assert RejectLabels(s, t) == [RejectDelete(t)] + ([RejectLook(t)] + []);
    } else {
      StepThen(capacity, s2, RejectPush(t), []);
      StepThen(capacity, s1, RejectLook(t), [RejectPush(t)] + []);
      StepThen(capacity, s, RejectDelete(t), [RejectLook(t)] + ([RejectPush(t)] + []));
      assert RejectLabels(s, t) == [RejectDelete(t)] + ([RejectLook(t)] + ([RejectPush(t)] + []));
    }
  }

  /** A Get that nothing interrupts: the head of the channel is in the goroutine's hands and pending. */
  lemma UninterruptedGet(capacity: nat, s: State, t: RoutineId)
    requires t !in s.routines && s.ch != []
    ensures var ls, item := [GetTake(t)] + ([GetStore(t)] + []), s.ch[0];
            && Runs(capacity, s, ls)
            && var s' := After(capacity, s, ls);
            && s'.ch == s.ch[1..] && s'.pending == s.pending[item.id := item.env]
            && s'.routines == s.routines[t := Routine(Working, item)] && s'.place == s.place[item.id := Pending(t)]
  {
    var s1 := Apply(capacity, s, GetTake(t));
    StepThen(capacity, s1, GetStore(t), []);
    StepThen(capacity, s, GetTake(t), [GetStore(t)] + []);
  }

  /** A handler that succeeds: the message is acknowledged and no longer pending. */
  lemma UninterruptedAck(capacity: nat, s: State, t: RoutineId, at: Time)
    requires At(s, t, Working)
    ensures var ls, id := [Dispatch(t, true, at)] + ([AckDelete(t)] + []), s.routines[t].item.id;
            && Runs(capacity, s, ls)
            && var s' := After(capacity, s, ls);
            && s'.ch == s.ch && s'.pending == s.pending - {id}
            && s'.routines == s.routines - {t} && s'.place == s.place[id := Acked]
  {
    var s1 := Apply(capacity, s, Dispatch(t, true, at));
    StepThen(capacity, s1, AckDelete(t), []);
    StepThen(capacity, s, Dispatch(t, true, at), [AckDelete(t)] + []);
  }

  lemma {:induction false} RunKeepsInv(capacity: nat, s: State, ls: seq<Label>)
    requires Inv(s) && AllKeyed(s) && Balanced(s) && Runs(capacity, s, ls)
    ensures Inv(After(capacity, s, ls)) && AllKeyed(After(capacity, s, ls)) && Balanced(After(capacity, s, ls))
    decreases |ls|
  {
    if ls != [] {
      StepKeepsRoutines(capacity, s, ls[0]);
      StepKeepsPlaces(capacity, s, ls[0]);
      StepKeepsChannel(capacity, s, ls[0]);
      StepKeepsPending(capacity, s, ls[0]);
      StepKeepsKeyed(capacity, s, ls[0]);
      StepKeepsBalance(capacity, s, ls[0]);
      RunKeepsInv(capacity, Apply(capacity, s, ls[0]), ls[1..]);
    }
  }

  // ---------------------------------------------------------------- every envelope is settled once

  /** Goroutines that took an envelope and have neither acknowledged nor rejected it yet. */
  function Unsettled(s: State): set<RoutineId> {
    set t | t in s.routines && s.routines[t].stage in {Holding, Working, Acking, Rejecting}
  }

  predicate Balanced(s: State) {
    s.taken == s.settled + |Unsettled(s)|
  }

  lemma StepKeepsBalance(capacity: nat, s: State, l: Label)
    requires Balanced(s) && Enabled(capacity, s, l)
    ensures Balanced(Apply(capacity, s, l))
  {
    OthersUnsettled(capacity, s, l);
    if !IsClosing(l) {
      MoverUnsettled(capacity, s, l);
      SizeChange(Unsettled(s), Unsettled(Apply(capacity, s, l)), l.t);
    }
  }

  lemma SizeChange(u: set<RoutineId>, u': set<RoutineId>, t: RoutineId)
    requires u' - {t} == u - {t}
    ensures |u'| + (if t in u then 1 else 0) == |u| + (if t in u' then 1 else 0)
  {
    CardinalityAt(u, t);
    CardinalityAt(u', t);
  }

  lemma OthersUnsettled(capacity: nat, s: State, l: Label)
    requires Enabled(capacity, s, l)
    ensures var u, u' := Unsettled(s), Unsettled(Apply(capacity, s, l));
            if IsClosing(l) then u' == u else u' - {l.t} == u - {l.t}
  {
    StepFrame(capacity, s, l);
  }

  lemma MoverUnsettled(capacity: nat, s: State, l: Label)
    requires Enabled(capacity, s, l) && !IsClosing(l)
    ensures var s' := Apply(capacity, s, l);
            && (l.t in Unsettled(s) <==> l.GetStore? || l.Dispatch? || l.AckDelete? || l.RejectDelete?)
            && (l.t in Unsettled(s') <==> l.GetTake? || l.GetStore? || l.Dispatch?)
            && s'.taken == s.taken + (if l.GetTake? then 1 else 0)
            && s'.settled == s.settled + (if l.AckDelete? || l.RejectDelete? then 1 else 0)
  {
  }

  lemma CardinalityAt(u: set<RoutineId>, t: RoutineId)
    ensures |u| == |u - {t}| + if t in u then 1 else 0
  {
    if t in u {
      assert u == (u - {t}) + {t};
    } else {
      assert u == u - {t};
    }
  }

  // ---------------------------------------------------------------- conservation

  ghost function BufferedIds(s: State): set<nat> {
    set i | 0 <= i < |s.ch| :: s.ch[i].id
  }

  ghost function AckedIds(s: State): set<nat> {
    set id | id in s.place && s.place[id].Acked?
  }

  ghost function DroppedIds(s: State): set<nat> {
    set id | id in s.place && s.place[id].Dropped?
  }

  ghost function PanickedIds(s: State): set<nat> {
    set id | id in s.place && s.place[id].Panicked?
  }

  /** Ids that a call is moving between two of its atomic actions. */
  ghost function MovingIds(s: State): set<nat> {
    set id | id in s.place && (s.place[id].Held? || s.place[id].InReject?)
  }

  /**
   In every run the ids sent are exactly the buffered, the pending, the acknowledged and the reported ones,
   besides those a call is moving or a panic took; no id is in two of them, and none is buffered twice.
   Every envelope taken out is acknowledged or rejected once, or still in the hands of its goroutine.
   */
  lemma Conservation(capacity: nat, s: State)
    requires Reachable(capacity, s)
    ensures s.place.Keys
            == BufferedIds(s) + s.pending.Keys + AckedIds(s) + DroppedIds(s) + MovingIds(s) + PanickedIds(s)
    ensures BufferedIds(s) !! s.pending.Keys !! AckedIds(s) !! DroppedIds(s) !! MovingIds(s) !! PanickedIds(s)
    ensures forall i, j :: 0 <= i < j < |s.ch| ==> s.ch[i].id != s.ch[j].id
    ensures AllKeyed(s) && Balanced(s) && |s.ch| <= capacity
  {
    var ls :| Runs(capacity, INIT, ls) && After(capacity, INIT, ls) == s;
    NeverOverfull(capacity, INIT, ls);
    ReachableInv(capacity, s);
    Partition(s);
  }

  lemma ReachableInv(capacity: nat, s: State)
    requires Reachable(capacity, s)
    ensures Inv(s) && AllKeyed(s) && Balanced(s)
  {
    var ls :| Runs(capacity, INIT, ls) && After(capacity, INIT, ls) == s;
    RunKeepsInv(capacity, INIT, ls);
  }

  lemma Partition(s: State)
    requires ChannelSound(s) && PendingSound(s)
    ensures s.place.Keys
            == BufferedIds(s) + s.pending.Keys + AckedIds(s) + DroppedIds(s) + MovingIds(s) + PanickedIds(s)
    ensures BufferedIds(s) !! s.pending.Keys !! AckedIds(s) !! DroppedIds(s) !! MovingIds(s) !! PanickedIds(s)
  {
    BufferedExactly(s);
  }

  lemma BufferedExactly(s: State)
    requires ChannelSound(s)
    ensures forall id :: id in BufferedIds(s) <==> id in s.place && s.place[id] == Buffered
  {
    forall id | id in s.place && s.place[id] == Buffered ensures id in BufferedIds(s) {
      assert InChannel(s, id);
    }
  }

  /** With no call under way and no panic, the four places are all there is. */
  lemma ConservationAtRest(capacity: nat, s: State)
    requires Reachable(capacity, s) && s.routines == map[] && PanickedIds(s) == {}
    ensures s.place.Keys == BufferedIds(s) + s.pending.Keys + AckedIds(s) + DroppedIds(s)
    ensures s.taken == s.settled
  {
    ReachableInv(capacity, s);
    Partition(s);
    NothingMoves(s);
    assert Unsettled(s) == {};
  }

  lemma NothingMoves(s: State)
    requires PlacesSound(s) && s.routines == map[]
    ensures MovingIds(s) == {}
  {
    assert forall id :: id in s.place ==> PlaceSound(s, id);
  }

  // ---------------------------------------------------------------- when a panic takes an envelope

  ghost predicate SomePushing(s: State) {
    exists t :: At(s, t, Pushing)
  }

  /** Once the flag is set with no push under way, no rejection gets to its push any more. */
  ghost predicate Quiet(s: State) {
    && PanickedIds(s) == {} && (s.channelClosed ==> s.closed)
    && (s.closed ==> !SomePushing(s))
  }

  /** The flag is only set while no rejection stands between its look and its push. */
  ghost predicate QuietClose(capacity: nat, s: State, ls: seq<Label>)
    requires Runs(capacity, s, ls)
    decreases |ls|
  {
    ls == [] || (
      && (ls[0].SwapFlag? ==> !SomePushing(s))
      && QuietClose(capacity, Apply(capacity, s, ls[0]), ls[1..]))
  }

  lemma {:induction false} QuietCloseNeverPanics(capacity: nat, s: State, ls: seq<Label>)
    requires Runs(capacity, s, ls) && QuietClose(capacity, s, ls) && Quiet(s)
    ensures PanickedIds(After(capacity, s, ls)) == {}
    decreases |ls|
  {
    if ls != [] {
      QuietStep(capacity, s, ls[0]);
      QuietCloseNeverPanics(capacity, Apply(capacity, s, ls[0]), ls[1..]);
    }
  }

  lemma QuietStep(capacity: nat, s: State, l: Label)
    requires Enabled(capacity, s, l) && Quiet(s) && (l.SwapFlag? ==> !SomePushing(s))
    ensures Quiet(Apply(capacity, s, l))
  {
    StepFrame(capacity, s, l);
    var s' := Apply(capacity, s, l);
    assert forall id :: id in s.place ==> !s.place[id].Panicked? by {
      assert forall id :: id in PanickedIds(s) <==> id in s.place && s.place[id].Panicked?;
    }
    if l.RejectPush? { assert At(s, l.t, Pushing); }
    forall t: RoutineId | s'.closed && At(s', t, Pushing) ensures false {
      if Some(t) != Mover(l) { assert At(s, t, Pushing); }
    }
  }

  /** Once the flag is set with no push under way, nothing panics any more. */
  lemma {:induction false} ClosedStaysQuiet(capacity: nat, s: State, ls: seq<Label>)
    requires Runs(capacity, s, ls) && Quiet(s) && s.closed
    ensures PanickedIds(After(capacity, s, ls)) == {}
    decreases |ls|
  {
    if ls != [] {
      QuietStep(capacity, s, ls[0]);
      ClosedStaysQuiet(capacity, Apply(capacity, s, ls[0]), ls[1..]);
    }
  }

  lemma StepThen(capacity: nat, s: State, l: Label, rest: seq<Label>)
    requires Enabled(capacity, s, l) && Runs(capacity, Apply(capacity, s, l), rest)
    ensures Runs(capacity, s, [l] + rest) && After(capacity, s, [l] + rest) == After(capacity, Apply(capacity, s, l), rest)
  {
    assert ([l] + rest)[1..] == rest;
  }

  /** Setting the flag in that moment can lose the envelope: when the channel is closed too, the push panics. */
  lemma LoudClosePanics(capacity: nat, s: State, t: RoutineId) returns (ls: seq<Label>)
    requires At(s, t, Pushing)
    ensures Runs(capacity, Apply(capacity, s, SwapFlag), ls)
    ensures s.routines[t].item.id in PanickedIds(After(capacity, Apply(capacity, s, SwapFlag), ls))
  {
    var s1 := Apply(capacity, s, SwapFlag);
    if s1.channelClosed {
      StepThen(capacity, s1, RejectPush(t), []);
      ls := [RejectPush(t)] + [];
    } else {
      var s2 := Apply(capacity, s1, CloseChannel);
      StepThen(capacity, s2, RejectPush(t), []);
      StepThen(capacity, s1, CloseChannel, [RejectPush(t)] + []);
      ls := [CloseChannel] + ([RejectPush(t)] + []);
    }
  }

  ghost predicate SafeFrom(capacity: nat, s: State) {
    forall ls :: Runs(capacity, s, ls) ==> PanickedIds(After(capacity, s, ls)) == {}
  }

  /** Closing is safe for every envelope, whatever follows, exactly when no rejection is at its push. */
  lemma CloseIsSafeIffQuiet(capacity: nat, s: State)
    requires PanickedIds(s) == {}
    ensures SafeFrom(capacity, Apply(capacity, s, SwapFlag)) <==> !SomePushing(s)
  {
    var s1 := Apply(capacity, s, SwapFlag);
    if t :| At(s, t, Pushing) {
      var ls := LoudClosePanics(capacity, s, t);
      assert PanickedIds(After(capacity, s1, ls)) != {};
    } else {
      assert PanickedIds(s1) == PanickedIds(s);
      assert forall t :: At(s1, t, Pushing) ==> At(s, t, Pushing);
      forall ls | Runs(capacity, s1, ls) ensures PanickedIds(After(capacity, s1, ls)) == {} {
        ClosedStaysQuiet(capacity, s1, ls);
      }
    }
  }

  // ---------------------------------------------------------------- such a moment comes

  lemma {:induction false} RunsSnoc(capacity: nat, s: State, ls: seq<Label>, l: Label)
    requires Runs(capacity, s, ls) && Enabled(capacity, After(capacity, s, ls), l)
    ensures Runs(capacity, s, ls + [l]) && After(capacity, s, ls + [l]) == Apply(capacity, After(capacity, s, ls), l)
    decreases |ls|
  {
    if ls == [] {
      StepThen(capacity, s, l, []);
      assert ls + [l] == [l] + [];
    } else {
      RunsSnoc(capacity, Apply(capacity, s, ls[0]), ls[1..], l);
      StepThen(capacity, s, ls[0], ls[1..] + [l]);
      assert ls + [l] == [ls[0]] + (ls[1..] + [l]);
    }
  }

  lemma ReachStep(capacity: nat, s: State, l: Label)
    requires Reachable(capacity, s) && Enabled(capacity, s, l)
    ensures Reachable(capacity, Apply(capacity, s, l))
  {
    var ls :| Runs(capacity, INIT, ls) && After(capacity, INIT, ls) == s;
    RunsSnoc(capacity, INIT, ls, l);
  }

  /** A message is sent and taken; its handler fails. */
  lemma RejectingReachable(capacity: nat, env: Envelope) returns (s: State)
    requires capacity >= 1
    ensures Reachable(capacity, s) && !s.closed && !s.channelClosed && At(s, 1, Rejecting)
  {
    assert Runs(capacity, INIT, []) && After(capacity, INIT, []) == INIT;
    ReachStep(capacity, INIT, SendStamp(0, env));
    var s1 := Apply(capacity, INIT, SendStamp(0, env));
    ReachStep(capacity, s1, SendPush(0));
    var s2 := Apply(capacity, s1, SendPush(0));
    ReachStep(capacity, s2, GetTake(1));
    var s3 := Apply(capacity, s2, GetTake(1));
    ReachStep(capacity, s3, GetStore(1));
    var s4 := Apply(capacity, s3, GetStore(1));
    ReachStep(capacity, s4, Dispatch(1, false, 0));
    s := Apply(capacity, s4, Dispatch(1, false, 0));
  }

  /** The rejection has found the transport open and is about to push. */
  lemma PushingReachable(capacity: nat, env: Envelope) returns (s: State)
    requires capacity >= 1
    ensures Reachable(capacity, s) && At(s, 1, Pushing)
  {
    var s0 := RejectingReachable(capacity, env);
    ReachStep(capacity, s0, RejectDelete(1));
    var s1 := Apply(capacity, s0, RejectDelete(1));
    ReachStep(capacity, s1, RejectLook(1));
    s := Apply(capacity, s1, RejectLook(1));
  }

  lemma {:induction false} ReachRun(capacity: nat, s: State, ls: seq<Label>)
    requires Reachable(capacity, s) && Runs(capacity, s, ls)
    ensures Reachable(capacity, After(capacity, s, ls))
    decreases |ls|
  {
    if ls != [] {
      ReachStep(capacity, s, ls[0]);
      ReachRun(capacity, Apply(capacity, s, ls[0]), ls[1..]);
    }
  }

  /** With room for at least one message, some run loses a rejected message to a panic. */
  lemma PanicReachable(capacity: nat)
    requires capacity >= 1
    ensures exists s :: Reachable(capacity, s) && PanickedIds(s) != {}
  {
    var s := PushingReachable(capacity, Envelope("", [], 0));
    ReachStep(capacity, s, SwapFlag);
    var s1 := Apply(capacity, s, SwapFlag);
    var ls := LoudClosePanics(capacity, s, 1);
    ReachRun(capacity, s1, ls);
    assert PanickedIds(After(capacity, s1, ls)) != {};
  }

  /** A sender that saw the transport open still gets its message in after the flag is set, until the channel closes. */
  lemma LateSendGetsIn(capacity: nat, env: Envelope) returns (s: State)
    requires capacity >= 1
    ensures Reachable(capacity, s) && s.closed && s.place.Keys == {}
    ensures Enabled(capacity, s, SendPush(0)) && Apply(capacity, s, SendPush(0)).place == map[1 := Buffered]
  {
    assert Runs(capacity, INIT, []) && After(capacity, INIT, []) == INIT;
    ReachStep(capacity, INIT, SendStamp(0, env));
    var s1 := Apply(capacity, INIT, SendStamp(0, env));
    ReachStep(capacity, s1, SwapFlag);
    s := Apply(capacity, s1, SwapFlag);
  }
}
