/** When the reassembly buffer leaves a message alone, in terms of what arrives and when: entries are
    traced back to the arrival that made them, and the oldest entry of a full buffer is then another's.
*/
module FramingBounds {
  import opened SymbolicCrypto
  import opened Packet
  import opened Fragment
  import opened Framing

  /** The clock never goes back, and a full buffer evicts an oldest entry, as the code does. */
  ghost predicate Regular(cfg: Config, start: Pending, arrivals: seq<Arrival>) {
    && (forall i, j :: 0 <= i <= j < |arrivals| ==> arrivals[i].now <= arrivals[j].now)
    && forall k :: 0 <= k < |arrivals| ==> EvictsAt(cfg, Buffer(cfg, start, arrivals[..k]), arrivals[k])
  }

  predicate EvictsAt(cfg: Config, pending: Pending, a: Arrival) {
    Evicts(cfg, pending, a.packet, a.now, a.victim)
  }

  /** Arrival `o` is the message's first, and later than everything before it. */
  predicate Begins(start: Pending, msgId: Bytes, arrivals: seq<Arrival>, o: nat) {
    && o < |arrivals| && arrivals[o].packet.msgId == msgId && msgId !in start
    && (forall j :: 0 <= j < o ==> arrivals[j].packet.msgId != msgId && arrivals[j].now < arrivals[o].now)
    && forall id :: id in start ==> start[id].firstSeen < arrivals[o].now
  }

  /** The other messages of several fragments that arrive from `o` on. */
  function Others(msgId: Bytes, arrivals: seq<Arrival>, o: nat): set<Bytes> {
    set j | o <= j < |arrivals| && arrivals[j].packet.fragCount != 1 && arrivals[j].packet.msgId != msgId
      :: arrivals[j].packet.msgId
  }

  /** The message's arrivals, and all traffic with them, span at most `timeout`, and fewer others than
      the buffer has slots. */
  predicate Calm(cfg: Config, msgId: Bytes, arrivals: seq<Arrival>, o: nat)
    requires o < |arrivals|
  {
    && (forall k :: o <= k < |arrivals| ==> arrivals[k].now - arrivals[o].now <= cfg.timeout)
    && |Others(msgId, arrivals, o)| < cfg.maxPending
  }

  /** Arrival `j` opened the entry of `id` first seen at `at`. */
  predicate Opened(arrivals: seq<Arrival>, j: nat, id: Bytes, at: real) {
    j < |arrivals| && arrivals[j].packet.msgId == id && arrivals[j].packet.fragCount != 1 && arrivals[j].now == at
  }

  /** One packet adds no entry but its own, first seen now, and redates none. */
  lemma AddDates(cfg: Config, pending: Pending, a: Arrival, id: Bytes)
    requires id in Add(cfg, pending, a.packet, a.now, a.victim).1
    ensures var at := Add(cfg, pending, a.packet, a.now, a.victim).1[id].firstSeen;
      || (id in pending && pending[id].firstSeen == at)
      || (a.packet.msgId == id && a.packet.fragCount != 1 && a.now == at)
  {
    hide Assembled;
  }

  /** Every entry was there at the start or opened by an arrival. */
  lemma {:induction false} EntryOrigin(cfg: Config, start: Pending, arrivals: seq<Arrival>, k: nat, id: Bytes)
    requires k <= |arrivals| && id in Buffer(cfg, start, arrivals[..k])
    ensures var at := Buffer(cfg, start, arrivals[..k])[id].firstSeen;
      || (id in start && start[id].firstSeen == at)
      || exists j :: 0 <= j < k && Opened(arrivals, j, id, at)
  {
    hide Add;
    if k == 0 {
      assert arrivals[..0] == [];
    } else {
      var before, a := Buffer(cfg, start, arrivals[..k - 1]), arrivals[k - 1];
      BufferGrows(cfg, start, arrivals, k - 1);
      AddDates(cfg, before, a, id);
      var at := Buffer(cfg, start, arrivals[..k])[id].firstSeen;
      if !Opened(arrivals, k - 1, id, at) { EntryOrigin(cfg, start, arrivals, k - 1, id); }
    }
  }

  /** The message's own entry is no older than its first arrival. */
  lemma OwnDate(cfg: Config, start: Pending, msgId: Bytes, arrivals: seq<Arrival>, o: nat, k: nat)
    requires Regular(cfg, start, arrivals) && Begins(start, msgId, arrivals, o) && k < |arrivals|
    requires msgId in Buffer(cfg, start, arrivals[..k])
    ensures o < k && Buffer(cfg, start, arrivals[..k])[msgId].firstSeen >= arrivals[o].now
  {
    hide Buffer, EvictsAt;
    EntryOrigin(cfg, start, arrivals, k, msgId);
  }

  /** Whatever is no older than that is the message or one of the others. */
  lemma YoungIsOther(cfg: Config, start: Pending, msgId: Bytes, arrivals: seq<Arrival>, o: nat, k: nat, id: Bytes)
    requires Begins(start, msgId, arrivals, o) && k < |arrivals| && id in Buffer(cfg, start, arrivals[..k])
    requires Buffer(cfg, start, arrivals[..k])[id].firstSeen >= arrivals[o].now
    ensures id in Others(msgId, arrivals, o) + {msgId}
  {
    hide Buffer;
    EntryOrigin(cfg, start, arrivals, k, id);
    if id !in start || start[id].firstSeen < arrivals[o].now {
      var at := Buffer(cfg, start, arrivals[..k])[id].firstSeen;
      var j :| 0 <= j < k && Opened(arrivals, j, id, at);
      assert o <= j;
    }
  }

  lemma ExpireKeeps(pending: Pending, timeout: real, now: real, id: Bytes)
    ensures id in Expire(pending, timeout, now) <==> id in pending && now - pending[id].firstSeen <= timeout
    ensures id in Expire(pending, timeout, now) ==> Expire(pending, timeout, now)[id] == pending[id]
  {}

  /** A full buffer that needs room holds an entry older than the message. */
  lemma SomeoneIsOlder(cfg: Config, start: Pending, msgId: Bytes, arrivals: seq<Arrival>, o: nat, k: nat)
    requires Regular(cfg, start, arrivals) && Begins(start, msgId, arrivals, o) && Calm(cfg, msgId, arrivals, o)
    requires k < |arrivals| && msgId in Buffer(cfg, start, arrivals[..k]) && arrivals[k].packet.fragCount != 1
    requires var live := Expire(Buffer(cfg, start, arrivals[..k]), cfg.timeout, arrivals[k].now);
      arrivals[k].packet.msgId != msgId && arrivals[k].packet.msgId !in live && |live| >= cfg.maxPending
    ensures var live := Expire(Buffer(cfg, start, arrivals[..k]), cfg.timeout, arrivals[k].now);
      exists id :: id in live && live[id].firstSeen < arrivals[o].now
  {
    hide Buffer, Expire, EvictsAt, Begins;
    var pending, a := Buffer(cfg, start, arrivals[..k]), arrivals[k];
    var live := Expire(pending, cfg.timeout, a.now);
    OwnDate(cfg, start, msgId, arrivals, o, k);
    if forall id :: id in live ==> live[id].firstSeen >= arrivals[o].now {
      forall id | id in live ensures id in Others(msgId, arrivals, o) + {msgId} {
        ExpireKeeps(pending, cfg.timeout, a.now, id);
        YoungIsOther(cfg, start, msgId, arrivals, o, k, id);
      }
      assert a.packet.msgId in Others(msgId, arrivals, o);
      SubsetSizes(live.Keys + {a.packet.msgId}, Others(msgId, arrivals, o) + {msgId});
    }
  }

  lemma SubsetSizes<T>(a: set<T>, b: set<T>)
    requires a <= b
    ensures |a| <= |b|
  {
    assert b == a + (b - a);
  }

  /** Calm traffic leaves the message alone. */
  lemma CalmIsUndisturbed(cfg: Config, start: Pending, msgId: Bytes, arrivals: seq<Arrival>, o: nat)
    requires Regular(cfg, start, arrivals) && Begins(start, msgId, arrivals, o) && Calm(cfg, msgId, arrivals, o)
    ensures Undisturbed(cfg, start, msgId, arrivals)
  {
    hide Buffer, Expire, Begins;
    forall k | 0 <= k < |arrivals| ensures Spares(cfg, Buffer(cfg, start, arrivals[..k]), msgId, arrivals[k]) {
      var pending, a := Buffer(cfg, start, arrivals[..k]), arrivals[k];
      var live := Expire(pending, cfg.timeout, a.now);
      if msgId in pending {
        OwnDate(cfg, start, msgId, arrivals, o, k);
        ExpireKeeps(pending, cfg.timeout, a.now, msgId);
        if a.packet.msgId != msgId && a.packet.fragCount != 1 && a.packet.msgId !in live && |live| >= cfg.maxPending {
          SomeoneIsOlder(cfg, start, msgId, arrivals, o, k);
          assert EvictsAt(cfg, pending, a);
        }
      }
    }
  }

  /** The pipeline under conditions on the traffic alone. */
  lemma CalmPipeline(start: Pending, ptype: PacketType, payload: Bytes, msgId: Bytes, mtu: nat, dstTag: Bytes,
                     ttl: nat, receptions: seq<Reception>, o: nat, k: nat)
    requires 24 <= mtu <= 255 && Splittable(payload, msgId, mtu - HEADER_LEN, dstTag, ttl)
    requires var packets := Split(ptype, payload, msgId, mtu - HEADER_LEN, dstTag, ttl).value;
      var arrivals := Packets(receptions);
      && OnlyOurFrames(packets, msgId, receptions)
      && Regular(DEFAULT, start, arrivals) && Begins(start, msgId, arrivals, o) && Calm(DEFAULT, msgId, arrivals, o)
      && k < |arrivals| && arrivals[k].packet.msgId == msgId
      && (|packets| >= 2 ==> Seen(msgId, arrivals[..k]) != Indices(|packets|))
    ensures var packets := Split(ptype, payload, msgId, mtu - HEADER_LEN, dstTag, ttl).value;
      var arrivals := Packets(receptions);
      ResultAt(DEFAULT, start, arrivals, k)
      == if |packets| == 1 || Seen(msgId, arrivals[..k + 1]) == Indices(|packets|) then Complete(payload) else Waiting
  {
    hide Packets, Seen, Wire, Split, Undisturbed, OnlyOurFrames, Regular, Calm, ResultAt, Indices, Valid;
    CalmIsUndisturbed(DEFAULT, start, msgId, Packets(receptions), o);
    PipelineRoundTrip(start, ptype, payload, msgId, mtu, dstTag, ttl, receptions, k);
  }
}
