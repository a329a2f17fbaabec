/** The framing round trip: a message that is split, padded, encoded and delivered in any order,
    with repeats and with other traffic in between, comes out exactly once its last fragment does.
*/
module Framing {
  import opened SymbolicCrypto
  import opened Packet
  import opened Fragment

  /** One packet arriving at the destination; `victim` is the entry evicted if room is needed. */
  datatype Arrival = Arrival(packet: Packet, now: real, victim: Bytes)

  function Buffer(cfg: Config, start: Pending, arrivals: seq<Arrival>): Pending {
    if arrivals == [] then start
    else
      var a := arrivals[|arrivals| - 1];
      Add(cfg, Buffer(cfg, start, arrivals[..|arrivals| - 1]), a.packet, a.now, a.victim).1
  }

  function ResultAt(cfg: Config, start: Pending, arrivals: seq<Arrival>, k: nat): Result
    requires k < |arrivals|
  {
    Add(cfg, Buffer(cfg, start, arrivals[..k]), arrivals[k].packet, arrivals[k].now, arrivals[k].victim).0
  }

  /** Which fragments of the message have arrived. */
  function Seen(msgId: Bytes, arrivals: seq<Arrival>): set<nat> {
    if arrivals == [] then {}
    else
      var p := arrivals[|arrivals| - 1].packet;
      Seen(msgId, arrivals[..|arrivals| - 1]) + (if p.msgId == msgId then {p.fragIndex} else {})
  }

  /** `q` is `p`, after any number of hops: a relay changes nothing but the TTL. */
  predicate SameButTtl(q: Packet, p: Packet) {
    q == p.(ttl := q.ttl)
  }

  /** What a relay forwards of a copy is again a copy, one hop older. */
  lemma RelayedIsSameButTtl(p: Packet, received: Packet)
    requires Valid(p) && SameButTtl(received, p) && received.ttl <= MAX_TTL && DecrementTtl(received).Some?
    ensures var q := DecrementTtl(received).value; Valid(q) && SameButTtl(q, p) && q.ttl < received.ttl
  {}

  /** Every arrival under this message's identifier is one of its packets, at whatever TTL. */
  predicate OnlyGenuine(packets: seq<Packet>, msgId: Bytes, arrivals: seq<Arrival>) {
    forall k :: 0 <= k < |arrivals| && arrivals[k].packet.msgId == msgId ==> IsOneOf(packets, arrivals[k].packet)
  }

  predicate IsOneOf(packets: seq<Packet>, q: Packet) {
    q.fragIndex < |packets| && SameButTtl(q, packets[q.fragIndex])
  }

  /** The fragments seen once `a` arrived too. */
  function SeenAfter(msgId: Bytes, s: set<nat>, a: Arrival): set<nat> {
    if a.packet.msgId == msgId then s + {a.packet.fragIndex} else s
  }

  /** No arrival comes too late for the message, and none evicts it. */
  predicate Undisturbed(cfg: Config, start: Pending, msgId: Bytes, arrivals: seq<Arrival>) {
    forall k :: 0 <= k < |arrivals| ==> Spares(cfg, Buffer(cfg, start, arrivals[..k]), msgId, arrivals[k])
  }

  predicate Spares(cfg: Config, pending: Pending, msgId: Bytes, a: Arrival) {
    var live := Expire(pending, cfg.timeout, a.now);
    msgId in pending ==>
      && msgId in live
      && (a.packet.msgId != msgId && a.packet.fragCount != 1 && a.packet.msgId !in live && |live| >= cfg.maxPending
          ==> a.victim != msgId)
  }

  function Stored(parts: seq<Bytes>, s: set<nat>): map<nat, Bytes> {
    map i | i in s && i < |parts| :: parts[i]
  }

  ghost predicate HeldBy(part: Partial, ptype: PacketType, parts: seq<Bytes>, s: set<nat>) {
    && part.fragCount == |parts| && part.ptype == ptype && part.fragments == Stored(parts, s)
    && part.totalBytes == SumLengths(part.fragments, |parts|)
  }

  /** What the buffer holds of the message when exactly the fragments in `s` have arrived. */
  ghost predicate Holds(pending: Pending, msgId: Bytes, ptype: PacketType, parts: seq<Bytes>, s: set<nat>) {
    if s == {} then msgId !in pending else msgId in pending && HeldBy(pending[msgId], ptype, parts, s)
  }

  lemma {:induction false} SumOfStored(parts: seq<Bytes>, s: set<nat>, n: nat)
    requires n <= |parts|
    ensures SumLengths(Stored(parts, s), n) <= |Join(parts[..n])|
  {
    if n > 0 {
      SumOfStored(parts, s, n - 1);
      assert parts[..n][..n - 1] == parts[..n - 1];
    }
  }

  lemma {:induction false} AssembleIsJoin(parts: seq<Bytes>, fragments: map<nat, Bytes>, n: nat)
    requires n <= |parts| && forall i :: 0 <= i < n ==> i in fragments && fragments[i] == parts[i]
    ensures Assemble(fragments, n) == Join(parts[..n])
  {
    if n > 0 {
      AssembleIsJoin(parts, fragments, n - 1);
      assert parts[..n][..n - 1] == parts[..n - 1];
    }
  }

  /** Another message's packet leaves this one alone unless it evicts it. */
  lemma OtherArrival(cfg: Config, pending: Pending, msgId: Bytes, a: Arrival)
    requires a.packet.msgId != msgId && Spares(cfg, pending, msgId, a)
    ensures var pending' := Add(cfg, pending, a.packet, a.now, a.victim).1;
      && (msgId in pending' <==> msgId in pending)
      && (msgId in pending ==> pending'[msgId] == pending[msgId])
  {
    hide Assemble, HasAll;
  }

  lemma StoredGrows(parts: seq<Bytes>, s: set<nat>, i: nat)
    requires i < |parts|
    ensures Stored(parts, s)[i := parts[i]] == Stored(parts, s + {i})
  {}

  lemma StoredSize(parts: seq<Bytes>, s: set<nat>)
    requires s <= Indices(|parts|)
    ensures |Stored(parts, s)| == |s|
  {
    assert Stored(parts, s).Keys == s;
  }

  lemma FullWhenCounted(parts: seq<Bytes>, s: set<nat>)
    requires s <= Indices(|parts|)
    ensures |Stored(parts, s)| == |parts| <==> s == Indices(|parts|)
  {
    StoredSize(parts, s);
    if |s| == |parts| { SubsetOfEqualSize(s, Indices(|parts|)); }
  }

  /** A new slot holds nothing yet; an old one holds what came before. */
  lemma SlotHolds(cfg: Config, pending: Pending, ptype: PacketType, parts: seq<Bytes>, s: set<nat>, a: Arrival)
    requires Holds(pending, a.packet.msgId, ptype, parts, s) && Spares(cfg, pending, a.packet.msgId, a)
    requires a.packet.fragCount == |parts| && a.packet.ptype == ptype
    ensures var slots := WithSlot(cfg, Expire(pending, cfg.timeout, a.now), a.packet, a.now, a.victim);
      a.packet.msgId in slots && HeldBy(slots[a.packet.msgId], ptype, parts, s)
  {
    if s == {} {
      SumOfNone(|parts|);
      assert Stored(parts, {}) == map[];
    }
  }

  /** A slot with one more fragment: what it holds, whether it is full, and that the cap is not reached. */
  lemma FilledHolds(cfg: Config, part: Partial, ptype: PacketType, parts: seq<Bytes>, s: set<nat>, p: Packet)
    requires |Join(parts)| <= cfg.maxBytes && s <= Indices(|parts|) && p.fragIndex !in s
    requires HeldBy(part, ptype, parts, s)
    requires p.fragIndex < |parts| && p.payload == parts[p.fragIndex]
    ensures p.fragIndex !in part.fragments && part.totalBytes + |p.payload| <= cfg.maxBytes
    ensures HeldBy(Filled(part, p), ptype, parts, s + {p.fragIndex})
    ensures |Filled(part, p).fragments| == |parts| <==> s + {p.fragIndex} == Indices(|parts|)
    ensures s + {p.fragIndex} == Indices(|parts|) ==>
      HasAll(Filled(part, p).fragments, |parts|) && Assemble(Filled(part, p).fragments, |parts|) == Join(parts)
  {
    hide SumLengths, Join, Assemble;
    var i := p.fragIndex;
    StoredGrows(parts, s, i);
    SumAfterInsert(part.fragments, i, parts[i], |parts|);
    SumOfStored(parts, s + {i}, |parts|);
    assert parts[..|parts|] == parts;
    FullWhenCounted(parts, s + {i});
    if s + {i} == Indices(|parts|) {
      AssembleIsJoin(parts, Filled(part, p).fragments, |parts|);
    }
  }

  lemma HeldShape(part: Partial, ptype: PacketType, parts: seq<Bytes>, s: set<nat>)
    requires HeldBy(part, ptype, parts, s)
    ensures part.fragCount == |parts| && part.ptype == ptype
  {}

  /** A fragment not held yet, going into its slot. */
  lemma NewFragment(cfg: Config, slots: Pending, ptype: PacketType, parts: seq<Bytes>, s: set<nat>, p: Packet)
    requires |Join(parts)| <= cfg.maxBytes && s <= Indices(|parts|) && p.fragIndex !in s
    requires p.msgId in slots && HeldBy(slots[p.msgId], ptype, parts, s)
    requires p.fragIndex < |parts| == p.fragCount && p.payload == parts[p.fragIndex] && p.ptype == ptype
    ensures var (result, pending') := Insert(cfg, slots, p);
      var s' := s + {p.fragIndex};
      if s' == Indices(|parts|) then result == Complete(Join(parts))
      else result == Waiting && Holds(pending', p.msgId, ptype, parts, s')
  {
    hide SumLengths, Join, Assemble, HeldBy, HasAll, Indices;
    HeldShape(slots[p.msgId], ptype, parts, s);
    FilledHolds(cfg, slots[p.msgId], ptype, parts, s, p);
  }

  /** This message's packet: the payload once every fragment is there, and not before. */
  lemma OwnArrival(cfg: Config, pending: Pending, ptype: PacketType, parts: seq<Bytes>, s: set<nat>, a: Arrival)
    requires |parts| >= 2 && |Join(parts)| <= cfg.maxBytes
    requires s < Indices(|parts|) && Holds(pending, a.packet.msgId, ptype, parts, s)
    requires Spares(cfg, pending, a.packet.msgId, a)
    requires a.packet.fragIndex < |parts| == a.packet.fragCount
    requires a.packet.payload == parts[a.packet.fragIndex] && a.packet.ptype == ptype
    ensures var (result, pending') := Add(cfg, pending, a.packet, a.now, a.victim);
      var s' := s + {a.packet.fragIndex};
      if s' == Indices(|parts|) then result == Complete(Join(parts))
      else result == Waiting && Holds(pending', a.packet.msgId, ptype, parts, s')
  {
    hide SumLengths, Join, Assemble, HasAll;
    var p, i := a.packet, a.packet.fragIndex;
    var slots := WithSlot(cfg, Expire(pending, cfg.timeout, a.now), p, a.now, a.victim);
    SlotHolds(cfg, pending, ptype, parts, s, a);
    hide WithSlot, Expire;
    if i in s {
      assert s + {i} == s;
    } else {
      hide Insert;
      NewFragment(cfg, slots, ptype, parts, s, p);
    }
  }

  lemma SeenGrows(msgId: Bytes, arrivals: seq<Arrival>, k: nat)
    requires k < |arrivals|
    ensures Seen(msgId, arrivals[..k + 1])
         == SeenAfter(msgId, Seen(msgId, arrivals[..k]), arrivals[k])
  {
    assert arrivals[..k + 1][..k] == arrivals[..k];
  }

  lemma BufferGrows(cfg: Config, start: Pending, arrivals: seq<Arrival>, k: nat)
    requires k < |arrivals|
    ensures Buffer(cfg, start, arrivals[..k + 1])
         == Add(cfg, Buffer(cfg, start, arrivals[..k]), arrivals[k].packet, arrivals[k].now, arrivals[k].victim).1
  {
    assert arrivals[..k + 1][..k] == arrivals[..k];
  }

  /** One arrival, while the message is incomplete and stays so. */
  lemma ArrivalHolds(cfg: Config, pending: Pending, ptype: PacketType, parts: seq<Bytes>, msgId: Bytes,
                     packets: seq<Packet>, s: set<nat>, a: Arrival)
    requires |parts| >= 2 && |Join(parts)| <= cfg.maxBytes && IsSplit(packets, ptype, parts, msgId)
    requires a.packet.msgId == msgId ==> IsOneOf(packets, a.packet)
    requires s < Indices(|parts|) && Holds(pending, msgId, ptype, parts, s) && Spares(cfg, pending, msgId, a)
    requires SeenAfter(msgId, s, a) != Indices(|parts|)
    ensures SeenAfter(msgId, s, a) < Indices(|parts|)
    ensures Holds(Add(cfg, pending, a.packet, a.now, a.victim).1, msgId, ptype, parts, SeenAfter(msgId, s, a))
  {
    hide Add, Join, SumLengths, HeldBy, Spares;
    if a.packet.msgId == msgId {
      OwnArrival(cfg, pending, ptype, parts, s, a);
    } else {
      OtherArrival(cfg, pending, msgId, a);
    }
  }

  /** Until the last missing fragment arrives, the buffer holds exactly what was seen. */
  lemma {:induction false} BufferHolds(cfg: Config, start: Pending, ptype: PacketType, parts: seq<Bytes>, msgId: Bytes,
                                       packets: seq<Packet>, arrivals: seq<Arrival>, k: nat)
    requires |parts| >= 2 && |Join(parts)| <= cfg.maxBytes && msgId !in start && k <= |arrivals|
    requires IsSplit(packets, ptype, parts, msgId)
    requires OnlyGenuine(packets, msgId, arrivals) && Undisturbed(cfg, start, msgId, arrivals)
    requires Seen(msgId, arrivals[..k]) != Indices(|parts|)
    ensures Seen(msgId, arrivals[..k]) < Indices(|parts|)
    ensures Holds(Buffer(cfg, start, arrivals[..k]), msgId, ptype, parts, Seen(msgId, arrivals[..k]))
  {
    hide Add, Buffer, Seen, Join, SumLengths, HeldBy, Spares, IsSplit, OnlyGenuine, Undisturbed, IsOneOf;
    if k == 0 {
      NothingYet(cfg, start, msgId, arrivals);
    } else {
      var a, s := arrivals[k - 1], Seen(msgId, arrivals[..k - 1]);
      SeenGrows(msgId, arrivals, k - 1);
      BufferGrows(cfg, start, arrivals, k - 1);
      ArrivalIsFit(cfg, start, msgId, packets, arrivals, k - 1);
      SeenStays(ptype, parts, msgId, packets, s, a);
      BufferHolds(cfg, start, ptype, parts, msgId, packets, arrivals, k - 1);
      ArrivalHolds(cfg, Buffer(cfg, start, arrivals[..k - 1]), ptype, parts, msgId, packets, s, a);
    }
  }

  lemma NothingYet(cfg: Config, start: Pending, msgId: Bytes, arrivals: seq<Arrival>)
    ensures Seen(msgId, arrivals[..0]) == {} && Buffer(cfg, start, arrivals[..0]) == start
    ensures forall n: nat :: n >= 1 ==> {} < Indices(n)
  {
    forall n: nat | n >= 1 ensures {} < Indices(n) {
      assert 0 in Indices(n);
    }
  }

  /** What holds of all arrivals, at one of them. */
  lemma ArrivalIsFit(cfg: Config, start: Pending, msgId: Bytes, packets: seq<Packet>, arrivals: seq<Arrival>, k: nat)
    requires OnlyGenuine(packets, msgId, arrivals) && Undisturbed(cfg, start, msgId, arrivals) && k < |arrivals|
    ensures arrivals[k].packet.msgId == msgId ==> IsOneOf(packets, arrivals[k].packet)
    ensures Spares(cfg, Buffer(cfg, start, arrivals[..k]), msgId, arrivals[k])
  {
    hide Buffer, Spares;
  }

  /** Seeing a fragment never undoes completeness. */
  lemma SeenStays(ptype: PacketType, parts: seq<Bytes>, msgId: Bytes, packets: seq<Packet>, s: set<nat>, a: Arrival)
    requires IsSplit(packets, ptype, parts, msgId) && (a.packet.msgId == msgId ==> IsOneOf(packets, a.packet))
    requires SeenAfter(msgId, s, a) != Indices(|parts|)
    ensures s != Indices(|parts|)
  {}

  /** `packets` are the packets of `parts`, in order. */
  predicate IsSplit(packets: seq<Packet>, ptype: PacketType, parts: seq<Bytes>, msgId: Bytes) {
    && |packets| == |parts|
    && forall i :: 0 <= i < |packets| ==>
         && packets[i].ptype == ptype && packets[i].payload == parts[i] && packets[i].msgId == msgId
         && packets[i].fragIndex == i && packets[i].fragCount == |parts|
  }

  /** Any order, any repeats, any other traffic: nothing until the last missing fragment, then the payload. */
  lemma ReassemblyIsExact(cfg: Config, start: Pending, ptype: PacketType, payload: Bytes, msgId: Bytes, capacity: int,
                          dstTag: Bytes, ttl: nat, packets: seq<Packet>, arrivals: seq<Arrival>, k: nat)
    requires Splittable(payload, msgId, capacity, dstTag, ttl) && |payload| <= cfg.maxBytes
    requires Some(packets) == Split(ptype, payload, msgId, capacity, dstTag, ttl)
    requires msgId !in start && k < |arrivals| && arrivals[k].packet.msgId == msgId
    requires OnlyGenuine(packets, msgId, arrivals) && Undisturbed(cfg, start, msgId, arrivals)
    requires |packets| >= 2 ==> Seen(msgId, arrivals[..k]) != Indices(|packets|)
    ensures ResultAt(cfg, start, arrivals, k)
         == if |packets| == 1 || Seen(msgId, arrivals[..k + 1]) == Indices(|packets|) then Complete(payload)
            else Waiting
  {
    hide Seen, Buffer, SumLengths, Join;
    var parts := Chunks(payload, capacity);
    ChunksRejoin(payload, capacity);
    var i := arrivals[k].packet.fragIndex;
    assert IsSplit(packets, ptype, parts, msgId);
    if |packets| >= 2 {
      BufferHolds(cfg, start, ptype, parts, msgId, packets, arrivals, k);
      SeenGrows(msgId, arrivals, k);
      OwnArrival(cfg, Buffer(cfg, start, arrivals[..k]), ptype, parts, Seen(msgId, arrivals[..k]), arrivals[k]);
    } else {
      SinglePart(payload, capacity);
    }
  }

  lemma SinglePart(payload: Bytes, capacity: nat)
    requires capacity > 0 && |Chunks(payload, capacity)| == 1
    ensures Chunks(payload, capacity)[0] == payload
  {}

  // -- from bytes to bytes --------------------------------------------------------------------

  /** A packet as it goes on air: encoded, then padded as the policy says. */
  function Wire(p: Packet, mtu: nat, policy: PaddingPolicy): Option<Bytes>
    requires Valid(p)
  {
    match PaddedSize(|Encode(p, 0).value|, mtu, policy)
    case None => None
    case Some(target) => Encode(p, target)
  }

  /** Every packet that fits the link goes out, fits the link padded, and decodes to itself. */
  lemma WireRoundTrip(p: Packet, mtu: nat, policy: PaddingPolicy)
    requires Valid(p)
    ensures Wire(p, mtu, policy).Some? <==> HEADER_LEN + |p.payload| <= mtu
    ensures Wire(p, mtu, policy).Some? ==>
      && |Wire(p, mtu, policy).value| <= mtu
      && (policy.Strict? ==> |Wire(p, mtu, policy).value| == mtu)
      && Decode(Wire(p, mtu, policy).value) == Some(p)
  {
    PaddingFits(HEADER_LEN + |p.payload|, mtu, policy);
    if HEADER_LEN + |p.payload| <= mtu {
      RoundTrip(p, PaddedSize(HEADER_LEN + |p.payload|, mtu, policy).value);
    }
  }

  datatype Reception = Reception(frame: Bytes, now: real, victim: Bytes)

  /** The packets in a stream of received frames; anything that does not decode is ignored. */
  function Packets(receptions: seq<Reception>): seq<Arrival> {
    if receptions == [] then []
    else
      var r := receptions[|receptions| - 1];
      Packets(receptions[..|receptions| - 1])
      + (match Decode(r.frame) case None => [] case Some(p) => [Arrival(p, r.now, r.victim)])
  }

  /** `frame` is a copy of `p` on air: some hops old, encoded and padded for the link of whoever sent it. */
  predicate IsCopy(frame: Bytes, p: Packet, ttl: nat, mtu: nat, policy: PaddingPolicy)
    requires Valid(p)
  {
    ttl <= MAX_TTL && Some(frame) == Wire(p.(ttl := ttl), mtu, policy)
  }

  /** Every received frame that claims this message is a copy of one of its packets, sent by its origin
      or by any relay, under any padding. */
  ghost predicate OnlyOurFrames(packets: seq<Packet>, msgId: Bytes, receptions: seq<Reception>)
    requires forall i :: 0 <= i < |packets| ==> Valid(packets[i])
  {
    forall r :: r in receptions && Decode(r.frame).Some? && Decode(r.frame).value.msgId == msgId ==>
      exists i, ttl, mtu, policy :: 0 <= i < |packets| && IsCopy(r.frame, packets[i], ttl, mtu, policy)
  }

  lemma {:induction false} OurFramesAreGenuine(packets: seq<Packet>, msgId: Bytes, receptions: seq<Reception>)
    requires forall i :: 0 <= i < |packets| ==> Valid(packets[i]) && packets[i].fragIndex == i
    requires OnlyOurFrames(packets, msgId, receptions)
    ensures OnlyGenuine(packets, msgId, Packets(receptions))
  {
    if receptions != [] {
      var before, r := receptions[..|receptions| - 1], receptions[|receptions| - 1];
      assert r in receptions && forall x :: x in before ==> x in receptions;
      OurFramesAreGenuine(packets, msgId, before);
      if Decode(r.frame).Some? && Decode(r.frame).value.msgId == msgId {
        var i: nat, ttl, mtu, policy :| i < |packets| && IsCopy(r.frame, packets[i], ttl, mtu, policy);
        WireRoundTrip(packets[i].(ttl := ttl), mtu, policy);
      }
    }
  }

  /** The byte cap never interferes: the most a link of at most 255 bytes can split stays below it. */
  lemma CapNeverTriggers(ptype: PacketType, payload: Bytes, msgId: Bytes, mtu: nat, dstTag: Bytes, ttl: nat)
    requires 24 <= mtu <= 255 && Splittable(payload, msgId, mtu - HEADER_LEN, dstTag, ttl)
    ensures |payload| <= 255 * 232 <= DEFAULT.maxBytes
    ensures Split(ptype, payload, msgId, mtu - HEADER_LEN, dstTag, ttl).Some?
    ensures forall p :: p in Split(ptype, payload, msgId, mtu - HEADER_LEN, dstTag, ttl).value ==>
      Valid(p) && HEADER_LEN + |p.payload| <= mtu
  {
    hide Split, Valid;
    assert 255 * (mtu - HEADER_LEN) <= 255 * 232;
  }

  /** The whole pipeline. Split any message of up to 255 packets for a link: every packet goes out under
      any padding policy. Let copies of the frames arrive in any order, repeated, straight from the
      origin or over any number of relays, and among arbitrary other frames. Each arrival before
      completion yields nothing; the one that completes the set yields the payload. */
  lemma PipelineRoundTrip(start: Pending, ptype: PacketType, payload: Bytes, msgId: Bytes, mtu: nat,
                          dstTag: Bytes, ttl: nat, receptions: seq<Reception>, k: nat)
    requires 24 <= mtu <= 255 && Splittable(payload, msgId, mtu - HEADER_LEN, dstTag, ttl)
    requires var packets := Split(ptype, payload, msgId, mtu - HEADER_LEN, dstTag, ttl).value;
      var arrivals := Packets(receptions);
      && OnlyOurFrames(packets, msgId, receptions)
      && msgId !in start && Undisturbed(DEFAULT, start, msgId, arrivals)
      && k < |arrivals| && arrivals[k].packet.msgId == msgId
      && (|packets| >= 2 ==> Seen(msgId, arrivals[..k]) != Indices(|packets|))
    ensures var packets := Split(ptype, payload, msgId, mtu - HEADER_LEN, dstTag, ttl).value;
      var arrivals := Packets(receptions);
      && (forall i, policy :: 0 <= i < |packets| ==> Wire(packets[i], mtu, policy).Some?)
      && ResultAt(DEFAULT, start, arrivals, k)
         == if |packets| == 1 || Seen(msgId, arrivals[..k + 1]) == Indices(|packets|) then Complete(payload)
            else Waiting
  {
    hide Packets, Seen, Add, Wire, Split, Undisturbed, OnlyOurFrames, OnlyGenuine, ResultAt, Indices, Valid;
    var packets := Split(ptype, payload, msgId, mtu - HEADER_LEN, dstTag, ttl).value;
    CapNeverTriggers(ptype, payload, msgId, mtu, dstTag, ttl);
    forall i, policy | 0 <= i < |packets| ensures Wire(packets[i], mtu, policy).Some? {
      assert packets[i] in packets;
      WireRoundTrip(packets[i], mtu, policy);
    }
    OurFramesAreGenuine(packets, msgId, receptions);
    ReassemblyIsExact(DEFAULT, start, ptype, payload, msgId, mtu - HEADER_LEN, dstTag, ttl, packets,
                      Packets(receptions), k);
  }
}
