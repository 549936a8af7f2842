/** Message envelopes and their stamps (messenger/envelope.go, messenger/stamp, messenger/serde/json.go:87-187). */
module Envelopes {
  import opened Prelude

  type Time = int

  const NAME_RECEIVED := "messenger.received"
  const NAME_OUTBOX_ID := "messenger.outbox_id"
  const NAME_FORCE_SYNC := "messenger.force_sync"
  const NAME_MEMORY_ID := "memory.internal_id"

  /** The kinds of stamp a decoder knows, by name. */
  const KNOWN_NAMES: set<string> := {
    "messenger.bus_name", "messenger.result", "messenger.sent", NAME_RECEIVED, "messenger.transport_name",
    "messenger.redelivery", "messenger.delay", "messenger.error", "messenger.trace", NAME_FORCE_SYNC,
    "messenger.force_transport", "messenger.consumed", "messenger.aggregate", NAME_OUTBOX_ID}

  /**
   A stamp. The ones that matter for correlation are spelled out; `Other` is any other stamp, with its
   name and fields.
   */
  datatype Stamp =
    | Received(transport: string, receivedAt: Time)
    | OutboxId(entryId: string)
    | ForceSync
    | MemoryId(memoryId: nat)
    | Other(name: string, fields: string)

  function NameOf(s: Stamp): string {
    match s
    case Received(_, _) => NAME_RECEIVED
    case OutboxId(_) => NAME_OUTBOX_ID
    case ForceSync => NAME_FORCE_SYNC
    case MemoryId(_) => NAME_MEMORY_ID
    case Other(name, _) => name
  }

  datatype Envelope = Envelope(message: string, stamps: seq<Stamp>, createdAt: Time) {
    function WithStamp(s: Stamp): Envelope {
      this.(stamps := stamps + [s])
    }

    /** The last stamp with the given name, scanning from the end. */
    function Last(name: string): Option<Stamp> {
      LastIn(stamps, name)
    }
  }

  function LastIn(stamps: seq<Stamp>, name: string): Option<Stamp> {
    if stamps == [] then None
    else if NameOf(stamps[|stamps| - 1]) == name then Some(stamps[|stamps| - 1])
    else LastIn(stamps[..|stamps| - 1], name)
  }

  /** What `Last` finds: the stamp of that name with the greatest position, if there is one. */
  lemma {:induction false} LastIsGreatest(stamps: seq<Stamp>, name: string) returns (i: int)
    ensures -1 <= i < |stamps|
    ensures forall j :: i < j < |stamps| ==> NameOf(stamps[j]) != name
    ensures i == -1 ==> LastIn(stamps, name) == None
    ensures i >= 0 ==> NameOf(stamps[i]) == name && LastIn(stamps, name) == Some(stamps[i])
  {
    i := |stamps| - 1;
    if stamps != [] && NameOf(stamps[i]) != name {
      i := LastIsGreatest(stamps[..|stamps| - 1], name);
    }
  }

  lemma LastAfterStamp(e: Envelope, s: Stamp, name: string)
    ensures e.WithStamp(s).Last(name) == if NameOf(s) == name then Some(s) else e.Last(name)
  {
    assert (e.stamps + [s])[..|e.stamps|] == e.stamps;
  }

  lemma NamesDiffer()
    ensures NAME_RECEIVED != NAME_OUTBOX_ID && NAME_RECEIVED != NAME_MEMORY_ID && NAME_OUTBOX_ID != NAME_MEMORY_ID
    ensures NAME_FORCE_SYNC != NAME_RECEIVED && NAME_FORCE_SYNC != NAME_OUTBOX_ID
    ensures NAME_MEMORY_ID !in KNOWN_NAMES
  {
    assert NAME_RECEIVED[3] == 's' && NAME_OUTBOX_ID[3] == 's' && NAME_MEMORY_ID[3] == 'o';
    assert |NAME_OUTBOX_ID| == 19 && |NAME_RECEIVED| == 18 && |NAME_FORCE_SYNC| == 20;
    assert forall n :: n in KNOWN_NAMES ==> |n| > 3 && n[3] == 's';
  }

  // ---------------------------------------------------------------- stamps on the wire

  /** The JSON library: the text of a stamp, unless it does not marshal, and a text read as a stamp of a named kind. */
  datatype Codec = Codec(marshal: Stamp -> Option<string>, unmarshal: (string, string) -> Option<Stamp>)

  datatype WireStamp = WireStamp(name: string, value: string)

  predicate Marshals(c: Codec, stamps: seq<Stamp>) {
    forall i :: 0 <= i < |stamps| ==> c.marshal(stamps[i]).Some?
  }

  function Encoded(c: Codec, stamps: seq<Stamp>): seq<WireStamp>
    requires Marshals(c, stamps)
  {
    seq(|stamps|, i requires 0 <= i < |stamps| => WireStamp(NameOf(stamps[i]), c.marshal(stamps[i]).value))
  }

  /** Fails when some stamp does not marshal. */
  method EncodeStamps(c: Codec, stamps: seq<Stamp>) returns (r: Option<seq<WireStamp>>)
    ensures r.Some? <==> Marshals(c, stamps)
    ensures r.Some? ==> r.value == Encoded(c, stamps)
  {
    var ws: seq<WireStamp> := [];
    for i := 0 to |stamps|
      invariant Marshals(c, stamps[..i]) && ws == Encoded(c, stamps[..i])
    {
      var text := c.marshal(stamps[i]);
      if text.None? {
        return None;
      }
      ws := ws + [WireStamp(NameOf(stamps[i]), text.value)];
    }
    assert stamps[..|stamps|] == stamps;
    r := Some(ws);
  }

  /** Unknown names and values that do not parse give nothing; a force-sync stamp has nothing to parse. */
  function DecodeStamp(c: Codec, w: WireStamp): Option<Stamp> {
    if w.name !in KNOWN_NAMES then None
    else if w.name == NAME_FORCE_SYNC then Some(ForceSync)
    else c.unmarshal(w.name, w.value)
  }

  function Decoded(c: Codec, ws: seq<WireStamp>): seq<Stamp> {
    if ws == [] then []
    else
      var d := DecodeStamp(c, ws[|ws| - 1]);
      Decoded(c, ws[..|ws| - 1]) + if d.Some? then [d.value] else []
  }

  method DecodeStamps(c: Codec, ws: seq<WireStamp>) returns (stamps: seq<Stamp>)
    ensures stamps == Decoded(c, ws)
  {
    stamps := [];
    for i := 0 to |ws|
      invariant stamps == Decoded(c, ws[..i])
    {
      assert ws[..i + 1][..i] == ws[..i];
      var d := DecodeStamp(c, ws[i]);
      if d.Some? {
        stamps := stamps + [d.value];
      }
    }
    assert ws[..|ws|] == ws;
  }

  /** The stamps of the kinds a decoder knows, in their order. */
  function Known(stamps: seq<Stamp>): seq<Stamp> {
    if stamps == [] then []
    else
      var s := stamps[|stamps| - 1];
      Known(stamps[..|stamps| - 1]) + if NameOf(s) in KNOWN_NAMES then [s] else []
  }

  /** The stamp is read back as it was written. */
  predicate ComesBack(c: Codec, s: Stamp) {
    c.marshal(s).Some? && DecodeStamp(c, WireStamp(NameOf(s), c.marshal(s).value)) == Some(s)
  }

  predicate KnownComeBack(c: Codec, stamps: seq<Stamp>) {
    forall i :: 0 <= i < |stamps| && NameOf(stamps[i]) in KNOWN_NAMES ==> ComesBack(c, stamps[i])
  }

  lemma {:induction false} DecodedIsShorter(c: Codec, stamps: seq<Stamp>)
    requires Marshals(c, stamps)
    ensures |Decoded(c, Encoded(c, stamps))| <= |Known(stamps)|
  {
    if stamps != [] {
      DecodedIsShorter(c, stamps[..|stamps| - 1]);
      DecodedLast(c, stamps);
    }
  }

  lemma DecodedLast(c: Codec, stamps: seq<Stamp>)
    requires Marshals(c, stamps) && stamps != []
    ensures var front, s := stamps[..|stamps| - 1], stamps[|stamps| - 1];
            var d := DecodeStamp(c, WireStamp(NameOf(s), c.marshal(s).value));
            Decoded(c, Encoded(c, stamps)) == Decoded(c, Encoded(c, front)) + if d.Some? then [d.value] else []
  {
    assert Encoded(c, stamps)[..|stamps| - 1] == Encoded(c, stamps[..|stamps| - 1]);
  }

  lemma KnownComeBackLast(c: Codec, stamps: seq<Stamp>)
    requires stamps != []
    ensures var front, s := stamps[..|stamps| - 1], stamps[|stamps| - 1];
            KnownComeBack(c, stamps) <==> KnownComeBack(c, front) && (NameOf(s) in KNOWN_NAMES ==> ComesBack(c, s))
  {
    var front := stamps[..|stamps| - 1];
    assert forall i :: 0 <= i < |front| ==> front[i] == stamps[i];
  }

  /**
   Encoding then decoding keeps exactly the stamps of known kinds, in order, if and only if each of those is
   read back by itself as it was written.
   */
  lemma {:induction false} StampsRoundTripIff(c: Codec, stamps: seq<Stamp>)
    requires Marshals(c, stamps)
    ensures Decoded(c, Encoded(c, stamps)) == Known(stamps) <==> KnownComeBack(c, stamps)
  {
    if stamps != [] {
      var front, s := stamps[..|stamps| - 1], stamps[|stamps| - 1];
      StampsRoundTripIff(c, front);
      DecodedIsShorter(c, front);
      DecodedLast(c, stamps);
      KnownComeBackLast(c, stamps);
      if NameOf(s) in KNOWN_NAMES {
        SameSnoc(Decoded(c, Encoded(c, front)), DecodeStamp(c, WireStamp(NameOf(s), c.marshal(s).value)), Known(front), s);
      } else {
        assert Decoded(c, Encoded(c, stamps)) == Decoded(c, Encoded(c, front)) && Known(stamps) == Known(front);
      }
    }
  }

  /** Two lists that each may grow by one, the first of them never the longer. */
  lemma SameSnoc(a: seq<Stamp>, d: Option<Stamp>, b: seq<Stamp>, s: Stamp)
    requires |a| <= |b|
    ensures a + (if d.Some? then [d.value] else []) == b + [s] <==> a == b && d == Some(s)
  {
    if a + (if d.Some? then [d.value] else []) == b + [s] {
      assert d.Some? && |a| == |b|;
      assert a == (a + [d.value])[..|a|] && b == (b + [s])[..|b|];
      assert d.value == (a + [d.value])[|a|] && s == (b + [s])[|b|];
    }
  }

  /** An old outbox id travels along: it is there again after decoding, whatever becomes of the other stamps. */
  lemma {:induction false} OldOutboxIdSurvives(c: Codec, stamps: seq<Stamp>, id: string)
    requires Marshals(c, stamps) && OutboxId(id) in stamps && ComesBack(c, OutboxId(id))
    ensures OutboxId(id) in Decoded(c, Encoded(c, stamps))
  {
    var n := |stamps| - 1;
    assert Encoded(c, stamps)[..n] == Encoded(c, stamps[..n]);
    if stamps[n] != OutboxId(id) {
      assert stamps == stamps[..n] + [stamps[n]];
      OldOutboxIdSurvives(c, stamps[..n], id);
    }
  }

  /** A force-sync stamp survives every codec that writes it, and a stamp of a kind no decoder knows survives none. */
  lemma {:induction false} ForceSyncSurvives(c: Codec, stamps: seq<Stamp>)
    requires Marshals(c, stamps)
    ensures ForceSync in stamps ==> ForceSync in Decoded(c, Encoded(c, stamps))
    ensures (forall i :: 0 <= i < |stamps| ==> NameOf(stamps[i]) !in KNOWN_NAMES) ==> Decoded(c, Encoded(c, stamps)) == []
  {
    if stamps != [] {
      var n := |stamps| - 1;
      assert stamps == stamps[..n] + [stamps[n]];
      ForceSyncSurvives(c, stamps[..n]);
      DecodedLast(c, stamps);
    }
  }
}
