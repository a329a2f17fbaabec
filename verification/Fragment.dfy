/** Splitting a message into packets, and the bounded reassembly buffer with its invariant. */
module Fragment {
  import opened SymbolicCrypto
  import opened Packet

  // -- splitting ----------------------------------------------------------------------

  function Chunks(payload: Bytes, capacity: nat): (r: seq<Bytes>)
    requires capacity > 0
    ensures |r| >= 1
    decreases |payload|
  {
    if |payload| <= capacity then [payload] else [payload[..capacity]] + Chunks(payload[capacity..], capacity)
  }

  function PacketAt(chunks: seq<Bytes>, ptype: PacketType, msgId: Bytes, dstTag: Bytes, ttl: nat, i: nat): Packet
    requires i < |chunks|
  {
    Packet(ptype, chunks[i], msgId, dstTag, ttl, i, |chunks|)
  }

  lemma ChunksWithin(payload: Bytes, capacity: nat)
    requires capacity > 0
    ensures forall i :: 0 <= i < |Chunks(payload, capacity)| ==> |Chunks(payload, capacity)[i]| <= capacity
  {
    hide Chunks;
    ChunksFit(payload, capacity);
    var chunks := Chunks(payload, capacity);
    forall i | 0 <= i < |chunks| ensures |chunks[i]| <= capacity {
      assert chunks[i] in chunks;
    }
  }

  /** Exactly the messages that can go out: at most 255 packets, each within its two-byte length field. */
  predicate Splittable(payload: Bytes, msgId: Bytes, capacity: int, dstTag: Bytes, ttl: nat) {
    && capacity > 0 && |payload| <= 255 * capacity && (|payload| <= 0xFFFF || capacity <= 0xFFFF)
    && |msgId| == 8 && |dstTag| == 8 && ttl <= 16
  }

  /** `k` packets of this capacity are enough for the payload, and one fewer are not. */
  predicate Suffices(payload: Bytes, capacity: int, k: nat) {
    k >= 1 && |payload| <= k * capacity && (k > 1 ==> (k - 1) * capacity < |payload|)
  }

  lemma {:induction false} ChunkCount(payload: Bytes, capacity: nat)
    requires capacity > 0
    ensures Suffices(payload, capacity, |Chunks(payload, capacity)|)
    decreases |payload|
  {
    if |payload| > capacity {
      var rest := Chunks(payload[capacity..], capacity);
      ChunkCount(payload[capacity..], capacity);
      assert (1 + |rest|) * capacity == capacity + |rest| * capacity;
      assert |rest| * capacity == capacity + (|rest| - 1) * capacity;
    }
  }

  lemma LeastCount(payload: Bytes, capacity: nat, k: nat, j: nat)
    requires capacity > 0 && j >= 1 && Suffices(payload, capacity, k)
    ensures |payload| <= j * capacity <==> k <= j
  {
    if j < k { TimesGrows(j, k - 1, capacity); } else { TimesGrows(k, j, capacity); }
  }

  lemma TimesGrows(j: nat, k: nat, c: nat)
    requires j <= k
    ensures j * c <= k * c
  {
    assert k * c == j * c + (k - j) * c;
  }

  lemma ChunkSizes(payload: Bytes, capacity: nat)
    requires capacity > 0
    ensures (forall i :: 0 <= i < |Chunks(payload, capacity)| ==> |Chunks(payload, capacity)[i]| <= 0xFFFF)
       <==> |payload| <= 0xFFFF || capacity <= 0xFFFF
  {
    var chunks := Chunks(payload, capacity);
    ChunksFit(payload, capacity);
    assert |chunks[0]| == if |payload| <= capacity then |payload| else capacity;
    forall i | 0 <= i < |chunks| && (|payload| <= 0xFFFF || capacity <= 0xFFFF) ensures |chunks[i]| <= 0xFFFF {
      assert chunks[i] in chunks;
    }
  }

  lemma ValidAt(chunks: seq<Bytes>, ptype: PacketType, msgId: Bytes, dstTag: Bytes, ttl: nat, i: nat)
    requires i < |chunks| <= MAX_FRAGMENTS
    ensures Valid(PacketAt(chunks, ptype, msgId, dstTag, ttl, i))
       <==> |msgId| == 8 && |dstTag| == 8 && ttl <= 16 && |chunks[i]| <= 0xFFFF
  {}

  lemma SplitsExactly(ptype: PacketType, payload: Bytes, msgId: Bytes, capacity: nat, dstTag: Bytes, ttl: nat)
    requires capacity > 0
    ensures var chunks := Chunks(payload, capacity);
      && Suffices(payload, capacity, |chunks|)
      && ((|chunks| <= MAX_FRAGMENTS
           && forall i :: 0 <= i < |chunks| ==> Valid(PacketAt(chunks, ptype, msgId, dstTag, ttl, i)))
          <==> Splittable(payload, msgId, capacity, dstTag, ttl))
  {
    hide Chunks, Valid, PacketAt, Suffices;
    var chunks := Chunks(payload, capacity);
    ChunkCount(payload, capacity);
    LeastCount(payload, capacity, |chunks|, 255);
    ChunkSizes(payload, capacity);
    if |chunks| <= MAX_FRAGMENTS {
      forall i | 0 <= i < |chunks|
        ensures Valid(PacketAt(chunks, ptype, msgId, dstTag, ttl, i))
           <==> |msgId| == 8 && |dstTag| == 8 && ttl <= 16 && |chunks[i]| <= 0xFFFF
      {
        ValidAt(chunks, ptype, msgId, dstTag, ttl, i);
      }
      assert Valid(PacketAt(chunks, ptype, msgId, dstTag, ttl, 0)) ==> |msgId| == 8 && |dstTag| == 8 && ttl <= 16;
    }
  }

  /** The packets of a message, or `None` where the code raises. */
  function Split(ptype: PacketType, payload: Bytes, msgId: Bytes, capacity: int, dstTag: Bytes, ttl: nat)
    : (r: Option<seq<Packet>>)
    ensures r.Some? <==> Splittable(payload, msgId, capacity, dstTag, ttl)
    ensures r.Some? ==> Suffices(payload, capacity, |r.value|)
    ensures r.Some? ==> forall i :: 0 <= i < |r.value| ==>
      var p := r.value[i];
      && Valid(p) && p.ptype == ptype && p.msgId == msgId && p.dstTag == dstTag && p.ttl == ttl
      && p.fragIndex == i && p.fragCount == |r.value| && |p.payload| <= capacity
  {
    if capacity <= 0 then None
    else
      var chunks := Chunks(payload, capacity);
      var packets := seq(|chunks|, i requires 0 <= i < |chunks| => PacketAt(chunks, ptype, msgId, dstTag, ttl, i));
      SplitsExactly(ptype, payload, msgId, capacity, dstTag, ttl);
      ChunksWithin(payload, capacity);
      assert forall i :: 0 <= i < |chunks| ==> PacketAt(chunks, ptype, msgId, dstTag, ttl, i) == packets[i];
      if |chunks| > MAX_FRAGMENTS || exists i :: 0 <= i < |packets| && !Valid(packets[i]) then None
      else Some(packets)
  }

  function Join(parts: seq<Bytes>): Bytes {
    if parts == [] then [] else Join(parts[..|parts| - 1]) + parts[|parts| - 1]
  }

  lemma {:induction false} JoinCons(first: Bytes, rest: seq<Bytes>)
    ensures Join([first] + rest) == first + Join(rest)
  {
    var all := [first] + rest;
    if rest == [] {
      assert all[..0] == [] && [] + first == first == first + [];
    } else {
      assert all[..|all| - 1] == [first] + rest[..|rest| - 1];
      JoinCons(first, rest[..|rest| - 1]);
    }
  }

  /** Chunks rejoin to the payload. */
  lemma {:induction false} ChunksRejoin(payload: Bytes, capacity: nat)
    requires capacity > 0
    ensures Join(Chunks(payload, capacity)) == payload
    decreases |payload|
  {
    hide Join;
    if |payload| <= capacity {
      JoinCons(payload, []);
      assert Join([]) == [] by { JoinNothing(); }
      assert [payload] + [] == [payload];
    } else {
      ChunksRejoin(payload[capacity..], capacity);
      JoinCons(payload[..capacity], Chunks(payload[capacity..], capacity));
      assert payload == payload[..capacity] + payload[capacity..];
    }
  }

  lemma JoinNothing()
    ensures Join([]) == []
  {}

  lemma {:induction false} ChunksFit(payload: Bytes, capacity: nat)
    requires capacity > 0
    ensures forall c :: c in Chunks(payload, capacity) ==> |c| <= capacity
    ensures |payload| <= |Chunks(payload, capacity)| * capacity
    decreases |payload|
  {
    if |payload| > capacity {
      var rest := Chunks(payload[capacity..], capacity);
      ChunksFit(payload[capacity..], capacity);
      assert (1 + |rest|) * capacity == capacity + |rest| * capacity;
    }
  }

  // -- the reassembly buffer --------------------------------------------------------------

  datatype Config = Config(maxPending: nat, maxBytes: nat, timeout: real)

  const DEFAULT := Config(64, 64 * 1024, 300.0)

  datatype Partial = Partial(fragCount: nat, ptype: PacketType, fragments: map<nat, Bytes>,
                             totalBytes: nat, firstSeen: real)

  datatype Result = Waiting | Complete(payload: Bytes) | Inconsistent | TooLarge

  type Pending = map<Bytes, Partial>

  function Expire(pending: Pending, timeout: real, now: real): Pending {
    map id | id in pending && now - pending[id].firstSeen <= timeout :: pending[id]
  }

  predicate IsOldest(pending: Pending, id: Bytes) {
    id in pending && forall other :: other in pending ==> pending[id].firstSeen <= pending[other].firstSeen
  }

  /** Room for one more message: the victim goes when the buffer is full. */
  function MakeRoom(cfg: Config, pending: Pending, victim: Bytes): Pending {
    if |pending| >= cfg.maxPending then pending - {victim} else pending
  }

  /** The buffer with a slot for `p`'s message. */
  function WithSlot(cfg: Config, pending: Pending, p: Packet, now: real, victim: Bytes): Pending {
    if p.msgId in pending then pending
    else MakeRoom(cfg, pending, victim)[p.msgId := Partial(p.fragCount, p.ptype, map[], 0, now)]
  }

  /** Whether `victim` is what the code would evict for `p`: any oldest entry, if it evicts at all. */
  predicate Evicts(cfg: Config, pending: Pending, p: Packet, now: real, victim: Bytes) {
    var live := Expire(pending, cfg.timeout, now);
    p.fragCount != 1 && p.msgId !in live && |live| >= cfg.maxPending ==> IsOldest(live, victim)
  }

  function Assemble(fragments: map<nat, Bytes>, n: nat): Bytes
    requires forall i :: 0 <= i < n ==> i in fragments
  {
    if n == 0 then [] else Assemble(fragments, n - 1) + fragments[n - 1]
  }

  predicate HasAll(fragments: map<nat, Bytes>, n: nat) {
    forall i :: 0 <= i < n ==> i in fragments
  }

  function Filled(part: Partial, p: Packet): Partial {
    part.(fragments := part.fragments[p.fragIndex := p.payload], totalBytes := part.totalBytes + |p.payload|)
  }

  /** A partial message joined in index order. A missing index would raise; `AddKeepsInv` shows that none is. */
  function Assembled(part: Partial): Bytes {
    if HasAll(part.fragments, part.fragCount) then Assemble(part.fragments, part.fragCount) else []
  }

  /** One fragment into its slot: the result and the buffer after it. */
  function Insert(cfg: Config, pending: Pending, p: Packet): (Result, Pending)
    requires p.msgId in pending
  {
    var part := pending[p.msgId];
    if part.fragCount != p.fragCount || part.ptype != p.ptype then (Inconsistent, pending - {p.msgId})
    else if p.fragIndex in part.fragments then (Waiting, pending)
    else if part.totalBytes + |p.payload| > cfg.maxBytes then (TooLarge, pending - {p.msgId})
    else
      var part' := Filled(part, p);
      if |part'.fragments| == part'.fragCount then (Complete(Assembled(part')), pending - {p.msgId})
      else (Waiting, pending[p.msgId := part'])
  }

  function Add(cfg: Config, pending: Pending, p: Packet, now: real, victim: Bytes): (Result, Pending) {
    var live := Expire(pending, cfg.timeout, now);
    if p.fragCount == 1 then (Complete(p.payload), live)
    else Insert(cfg, WithSlot(cfg, live, p, now, victim), p)
  }

  /** What a fragment of a message that is already begun, and not timed out, does to it: one that disagrees
      about the message or takes it over its cap discards the whole message, one that is already there
      changes nothing, any other is added. Other messages lose nothing but what has timed out. */
  lemma FragmentOfBegun(cfg: Config, pending: Pending, p: Packet, now: real, victim: Bytes, id: Bytes)
    requires p.fragCount != 1 && p.msgId in pending && now - pending[p.msgId].firstSeen <= cfg.timeout
    ensures var (result, pending') := Add(cfg, pending, p, now, victim);
      var part := pending[p.msgId];
      if part.fragCount != p.fragCount || part.ptype != p.ptype then result == Inconsistent && p.msgId !in pending'
      else if p.fragIndex in part.fragments then
        result == Waiting && p.msgId in pending' && pending'[p.msgId] == part
      else if part.totalBytes + |p.payload| > cfg.maxBytes then result == TooLarge && p.msgId !in pending'
      else if |part.fragments| + 1 == part.fragCount then result.Complete? && p.msgId !in pending'
      else
        && result == Waiting && p.msgId in pending'
        && pending'[p.msgId].fragments == part.fragments[p.fragIndex := p.payload]
        && pending'[p.msgId].firstSeen == part.firstSeen
    ensures var pending' := Add(cfg, pending, p, now, victim).1;
      id != p.msgId ==>
        (id in pending' <==> id in pending && now - pending[id].firstSeen <= cfg.timeout)
        && (id in pending' ==> pending'[id] == pending[id])
  {
    hide Assembled;
    assert p.fragIndex !in pending[p.msgId].fragments ==>
      pending[p.msgId].fragments[p.fragIndex := p.payload].Keys == pending[p.msgId].fragments.Keys + {p.fragIndex};
  }

  /** A fragment of a message that is not there, or has timed out, begins it anew; a full buffer gives up
      the victim for it and nothing else. */
  lemma FragmentOfNew(cfg: Config, pending: Pending, p: Packet, now: real, victim: Bytes, id: Bytes)
    requires p.fragCount >= 2 && cfg.timeout >= 0.0
    requires p.msgId in pending ==> now - pending[p.msgId].firstSeen > cfg.timeout
    ensures var (result, pending') := Add(cfg, pending, p, now, victim);
      if |p.payload| > cfg.maxBytes then result == TooLarge && p.msgId !in pending'
      else
        && result == Waiting && p.msgId in pending'
        && pending'[p.msgId] == Partial(p.fragCount, p.ptype, map[p.fragIndex := p.payload], |p.payload|, now)
    ensures var (live, pending') := (Expire(pending, cfg.timeout, now), Add(cfg, pending, p, now, victim).1);
      id != p.msgId ==>
        (id in pending' <==>
           id in pending && now - pending[id].firstSeen <= cfg.timeout && !(id == victim && |live| >= cfg.maxPending))
        && (id in pending' ==> pending'[id] == pending[id])
  {
    hide Assembled;
    assert map[][p.fragIndex := p.payload] == map[p.fragIndex := p.payload];
    assert |map[p.fragIndex := p.payload]| == 1;
  }

  // -- the buffer's invariant ------------------------------------------------------------------

  function SumLengths(fragments: map<nat, Bytes>, n: nat): nat {
    if n == 0 then 0 else SumLengths(fragments, n - 1) + (if n - 1 in fragments then |fragments[n - 1]| else 0)
  }

  ghost predicate PartialInv(cfg: Config, part: Partial, now: real) {
    && part.totalBytes == SumLengths(part.fragments, part.fragCount) <= cfg.maxBytes
    && (forall i :: i in part.fragments ==> i < part.fragCount)
    && |part.fragments| < part.fragCount
    && now - part.firstSeen <= cfg.timeout
  }

  ghost predicate BufferInv(cfg: Config, pending: Pending, now: real) {
    && |pending| <= cfg.maxPending
    && forall id :: id in pending ==> PartialInv(cfg, pending[id], now)
  }

  lemma {:induction false} SumAfterInsert(fragments: map<nat, Bytes>, i: nat, payload: Bytes, n: nat)
    requires i !in fragments
    ensures SumLengths(fragments[i := payload], n) == SumLengths(fragments, n) + (if i < n then |payload| else 0)
  {
    if n > 0 { SumAfterInsert(fragments, i, payload, n - 1); }
  }

  lemma {:induction false} SumOfNone(n: nat)
    ensures SumLengths(map[], n) == 0
  {
    if n > 0 { SumOfNone(n - 1); }
  }

  function Indices(n: nat): (r: set<nat>)
    ensures |r| == n && forall i: nat :: i in r <==> i < n
  {
    if n == 0 then {}
    else
      var below := Indices(n - 1);
      assert n - 1 !in below;
      below + {n - 1}
  }

  lemma SubsetOfEqualSize<T>(a: set<T>, b: set<T>)
    requires a <= b && |a| == |b|
    ensures a == b
  {
    assert |b - a| == |b| - |a|;
  }

  /** Pigeonhole: as many fragments as the message has, all with indices below the count, are all of them. */
  lemma CompleteMeansAll(fragments: map<nat, Bytes>, n: nat)
    requires (forall i :: i in fragments ==> i < n) && |fragments| == n
    ensures HasAll(fragments, n)
  {
    assert fragments.Keys <= Indices(n);
    SubsetOfEqualSize(fragments.Keys, Indices(n));
  }

  lemma ExpireShrinks(pending: Pending, timeout: real, now: real)
    ensures |Expire(pending, timeout, now)| <= |pending|
  {
    var kept := Expire(pending, timeout, now);
    assert kept.Keys <= pending.Keys;
    assert |pending.Keys - kept.Keys| == |pending.Keys| - |kept.Keys|;
  }

  lemma SlotInv(cfg: Config, pending: Pending, p: Packet, now: real, victim: Bytes)
    requires cfg.maxPending >= 1 && cfg.timeout >= 0.0 && p.fragCount >= 2 && BufferInv(cfg, pending, now)
    requires p.msgId !in pending && |pending| >= cfg.maxPending ==> victim in pending
    ensures BufferInv(cfg, WithSlot(cfg, pending, p, now, victim), now)
  {
    hide SumLengths;
    SumOfNone(p.fragCount);
    var room := MakeRoom(cfg, pending, victim);
    if p.msgId !in pending {
      assert |pending| >= cfg.maxPending ==> room.Keys == pending.Keys - {victim};
      assert room[p.msgId := Partial(p.fragCount, p.ptype, map[], 0, now)].Keys == room.Keys + {p.msgId};
    }
  }

  lemma FilledInv(cfg: Config, part: Partial, p: Packet, now: real)
    requires PartialInv(cfg, part, now) && part.fragCount == p.fragCount && p.fragIndex < p.fragCount
    requires p.fragIndex !in part.fragments && part.totalBytes + |p.payload| <= cfg.maxBytes
    ensures var part' := Filled(part, p);
      if |part'.fragments| == part.fragCount then HasAll(part'.fragments, part.fragCount)
      else PartialInv(cfg, part', now)
  {
    var fragments' := part.fragments[p.fragIndex := p.payload];
    SumAfterInsert(part.fragments, p.fragIndex, p.payload, part.fragCount);
    assert fragments'.Keys == part.fragments.Keys + {p.fragIndex};
    if |fragments'| == part.fragCount { CompleteMeansAll(fragments', part.fragCount); }
  }

  lemma InsertInv(cfg: Config, pending: Pending, p: Packet, now: real)
    requires BufferInv(cfg, pending, now) && p.msgId in pending && p.fragIndex < p.fragCount
    ensures BufferInv(cfg, Insert(cfg, pending, p).1, now)
    ensures Insert(cfg, pending, p).0.Complete? ==>
      HasAll(Filled(pending[p.msgId], p).fragments, pending[p.msgId].fragCount)
  {
    hide Assemble, SumLengths, HasAll;
    var part := pending[p.msgId];
    assert (pending - {p.msgId}).Keys == pending.Keys - {p.msgId};
    var fits := part.totalBytes + |p.payload| <= cfg.maxBytes;
    if part.fragCount == p.fragCount && p.fragIndex !in part.fragments && fits {
      FilledInv(cfg, part, p, now);
      assert pending[p.msgId := Filled(part, p)].Keys == pending.Keys;
    }
  }

  /** Whatever valid packets arrive, the buffer keeps its bounds on count, bytes and age, never
      holds a complete message, and assembling always finds every index. */
  lemma AddKeepsInv(cfg: Config, pending: Pending, before: real, p: Packet, now: real, victim: Bytes)
    requires cfg.maxPending >= 1 && cfg.timeout >= 0.0 && Valid(p)
    requires BufferInv(cfg, pending, before) && Evicts(cfg, pending, p, now, victim)
    ensures BufferInv(cfg, Add(cfg, pending, p, now, victim).1, now)
    ensures var live := Expire(pending, cfg.timeout, now);
      p.fragCount >= 2 && Add(cfg, pending, p, now, victim).0.Complete? ==>
        var part := WithSlot(cfg, live, p, now, victim)[p.msgId];
        HasAll(Filled(part, p).fragments, part.fragCount)
  {
    var live := Expire(pending, cfg.timeout, now);
    ExpireShrinks(pending, cfg.timeout, now);
    assert BufferInv(cfg, live, now);
    if p.fragCount >= 2 {
      SlotInv(cfg, live, p, now, victim);
      InsertInv(cfg, WithSlot(cfg, live, p, now, victim), p, now);
    }
  }
}
