/** The on-air frame: big-endian fields, the 23-byte header, padding, and exact decoding. */
module Packet {
  import opened SymbolicCrypto

  const VERSION: nat := 1
  const HEADER_LEN: nat := 23
  const MAX_TTL: nat := 16
  const MAX_FRAGMENTS: nat := 255

  // -- big-endian integers ---------------------------------------------------------

  function BigEndian(n: nat, width: nat): (r: Bytes)
    ensures |r| == width
  {
    if width == 0 then [] else BigEndian(n / 256, width - 1) + [(n % 256) as byte]
  }

  function FromBigEndian(b: Bytes): nat {
    if b == [] then 0 else FromBigEndian(b[..|b| - 1]) * 256 + b[|b| - 1] as nat
  }

  function Power256(width: nat): nat {
    if width == 0 then 1 else 256 * Power256(width - 1)
  }

  lemma {:induction false} BigEndianRoundTrip(n: nat, width: nat)
    requires n < Power256(width)
    ensures FromBigEndian(BigEndian(n, width)) == n
    decreases width
  {
    if width > 0 {
      BigEndianRoundTrip(n / 256, width - 1);
      var r := BigEndian(n, width);
      assert r[..|r| - 1] == BigEndian(n / 256, width - 1);
    }
  }

  lemma {:induction false} FromBigEndianRoundTrip(b: Bytes)
    ensures BigEndian(FromBigEndian(b), |b|) == b && FromBigEndian(b) < Power256(|b|)
  {
    if b != [] {
      var front := b[..|b| - 1];
      FromBigEndianRoundTrip(front);
      assert b == front + [b[|b| - 1]];
      assert FromBigEndian(b) / 256 == FromBigEndian(front);
    }
  }

  // -- packets ------------------------------------------------------------------------

  datatype PacketType = HandshakeInit | HandshakeResp | HandshakeFin | Data | Beacon | Cover | Ack

  function Code(t: PacketType): byte {
    match t
    case HandshakeInit => 0x01
    case HandshakeResp => 0x02
    case HandshakeFin => 0x03
    case Data => 0x10
    case Beacon => 0x20
    case Cover => 0x30
    case Ack => 0x40
  }

  function TypeOf(code: byte): Option<PacketType> {
    if code == 0x01 then Some(HandshakeInit)
    else if code == 0x02 then Some(HandshakeResp)
    else if code == 0x03 then Some(HandshakeFin)
    else if code == 0x10 then Some(Data)
    else if code == 0x20 then Some(Beacon)
    else if code == 0x30 then Some(Cover)
    else if code == 0x40 then Some(Ack)
    else None
  }

  datatype Packet = Packet(ptype: PacketType, payload: Bytes, msgId: Bytes, dstTag: Bytes,
                           ttl: nat, fragIndex: nat, fragCount: nat)

  predicate Valid(p: Packet) {
    && |p.msgId| == 8 && |p.dstTag| == 8
    && p.ttl <= MAX_TTL
    && 1 <= p.fragCount <= MAX_FRAGMENTS && p.fragIndex < p.fragCount
    && |p.payload| <= 0xFFFF
  }

  function Header(p: Packet): (h: Bytes)
    requires Valid(p)
    ensures |h| == HEADER_LEN
  {
    [VERSION as byte, Code(p.ptype), p.ttl as byte, p.fragIndex as byte, p.fragCount as byte]
    + p.msgId + p.dstTag + BigEndian(|p.payload|, 2)
  }

  function Zeros(n: nat): Bytes {
    seq(n, i => 0)
  }

  /** `padTo` of zero means no padding; a frame longer than `padTo` is refused. */
  function Encode(p: Packet, padTo: nat): Option<Bytes>
    requires Valid(p)
  {
    var frame := Header(p) + p.payload;
    if padTo == 0 then Some(frame)
    else if |frame| > padTo then None
    else Some(frame + Zeros(padTo - |frame|))
  }

  function Decode(raw: Bytes): Option<Packet> {
    if |raw| < HEADER_LEN then None
    else
      var length := FromBigEndian(raw[21..23]);
      if raw[0] as nat != VERSION then None
      else if HEADER_LEN + length > |raw| then None
      else
        match TypeOf(raw[1])
        case None => None
        case Some(ptype) =>
          var p := Packet(ptype, raw[HEADER_LEN..HEADER_LEN + length], raw[5..13], raw[13..21],
                          raw[2] as nat, raw[3] as nat, raw[4] as nat);
          if Valid(p) then Some(p) else None
  }

  lemma PayloadLengthRoundTrip(n: nat)
    requires n <= 0xFFFF
    ensures FromBigEndian(BigEndian(n, 2)) == n
  {
    assert Power256(2) == 256 * Power256(1) && Power256(1) == 256 * Power256(0);
    BigEndianRoundTrip(n, 2);
  }

  lemma HeaderFields(p: Packet, rest: Bytes)
    requires Valid(p)
    ensures var raw := Header(p) + rest;
      && raw[0] as nat == VERSION && raw[1] == Code(p.ptype) && raw[2] as nat == p.ttl
      && raw[3] as nat == p.fragIndex && raw[4] as nat == p.fragCount
      && raw[5..13] == p.msgId && raw[13..21] == p.dstTag && raw[21..23] == BigEndian(|p.payload|, 2)
      && raw[HEADER_LEN..] == rest
  {}

  /** The frame byte by byte: version, type, TTL, fragment index and count, identifier, tag, two length
      bytes with the high one first, payload, and zeros up to the padded size. */
  lemma FrameLayout(p: Packet, padTo: nat)
    requires Valid(p)
    ensures Encode(p, padTo).Some? <==> padTo == 0 || 23 + |p.payload| <= padTo
    ensures Encode(p, padTo).Some? ==>
      var e := Encode(p, padTo).value;
      && |e| == (if padTo == 0 then 23 + |p.payload| else padTo)
      && e[0] == 1 && e[1] == Code(p.ptype) && e[2] as nat == p.ttl
      && e[3] as nat == p.fragIndex && e[4] as nat == p.fragCount
      && e[5..13] == p.msgId && e[13..21] == p.dstTag
      && e[21] as nat * 256 + e[22] as nat == |p.payload|
      && e[23..23 + |p.payload|] == p.payload
      && forall i :: 23 + |p.payload| <= i < |e| ==> e[i] == 0
  {
    var tail := if padTo > 23 + |p.payload| then Zeros(padTo - 23 - |p.payload|) else [];
    HeaderFields(p, p.payload + tail);
    LengthBytes(|p.payload|);
    if Encode(p, padTo).Some? {
      var e := Encode(p, padTo).value;
      assert e == Header(p) + (p.payload + tail);
      assert e[21..23][0] == e[21] && e[21..23][1] == e[22];
    }
  }

  lemma LengthBytes(n: nat)
    requires n <= 0xFFFF
    ensures BigEndian(n, 2)[0] as nat * 256 + BigEndian(n, 2)[1] as nat == n
  {
    assert BigEndian(n, 2) == BigEndian(n / 256, 1) + [(n % 256) as byte];
    assert BigEndian(n / 256, 1) == BigEndian(n / 256 / 256, 0) + [(n / 256 % 256) as byte];
  }

  /** Whatever follows the declared payload is stripped exactly. */
  lemma DecodeOfFrame(p: Packet, tail: Bytes)
    requires Valid(p)
    ensures Decode(Header(p) + p.payload + tail) == Some(p)
  {
    var raw := Header(p) + p.payload + tail;
    assert raw == Header(p) + (p.payload + tail);
    HeaderFields(p, p.payload + tail);
    PayloadLengthRoundTrip(|p.payload|);
    assert raw[HEADER_LEN..HEADER_LEN + |p.payload|] == raw[HEADER_LEN..][..|p.payload|];
    assert (p.payload + tail)[..|p.payload|] == p.payload;
  }

  /** Every padding of a valid packet decodes back to it. */
  lemma RoundTrip(p: Packet, padTo: nat)
    requires Valid(p) && Encode(p, padTo).Some?
    ensures Decode(Encode(p, padTo).value) == Some(p)
  {
    DecodeOfFrame(p, []);
    var frame := Header(p) + p.payload;
    assert frame + [] == frame;
    if padTo != 0 { DecodeOfFrame(p, Zeros(padTo - |frame|)); }
  }

  /** Decoding accepts nothing but frames of valid packets: header, payload, then anything. */
  lemma DecodeIsExact(raw: Bytes, p: Packet)
    ensures Decode(raw) == Some(p)
       <==> Valid(p) && |raw| >= HEADER_LEN + |p.payload| && raw[..HEADER_LEN + |p.payload|] == Header(p) + p.payload
  {
    if Decode(raw) == Some(p) {
      FromBigEndianRoundTrip(raw[21..23]);
      assert raw[..HEADER_LEN] == Header(p) by {
        assert raw[..HEADER_LEN] == raw[..5] + raw[5..13] + raw[13..21] + raw[21..23];
        assert raw[..5] == [raw[0], raw[1], raw[2], raw[3], raw[4]];
        assert Code(p.ptype) == raw[1];
      }
      assert raw[..HEADER_LEN + |p.payload|] == raw[..HEADER_LEN] + raw[HEADER_LEN..HEADER_LEN + |p.payload|];
    }
    if Valid(p) && |raw| >= HEADER_LEN + |p.payload| && raw[..HEADER_LEN + |p.payload|] == Header(p) + p.payload {
      assert raw == Header(p) + p.payload + raw[HEADER_LEN + |p.payload|..];
      DecodeOfFrame(p, raw[HEADER_LEN + |p.payload|..]);
    }
  }

  /** A relayed copy differs in its hop count alone; a frame on its last hop is not relayed. */
  function DecrementTtl(p: Packet): Option<Packet> {
    if p.ttl <= 1 then None else Some(p.(ttl := p.ttl - 1))
  }

  // -- length padding -------------------------------------------------------------------

  datatype PaddingPolicy = Strict | Bucket | Unpadded

  const BUCKETS: seq<nat> := [32, 64, 96, 128, 192, 256, 384, 512, 768, 1024]

  function Min(a: nat, b: nat): nat {
    if a < b then a else b
  }

  /** The first bucket from `from` on that holds the frame, capped at the link size. */
  function BucketFor(frameLen: nat, mtu: nat, from: nat): nat
    requires from <= |BUCKETS|
    decreases |BUCKETS| - from
  {
    if from == |BUCKETS| then mtu
    else if BUCKETS[from] >= frameLen then Min(BUCKETS[from], mtu)
    else BucketFor(frameLen, mtu, from + 1)
  }

  function PaddedSize(frameLen: nat, mtu: nat, policy: PaddingPolicy): Option<nat> {
    if frameLen > mtu then None
    else
      match policy
      case Unpadded => Some(frameLen)
      case Strict => Some(mtu)
      case Bucket => Some(BucketFor(frameLen, mtu, 0))
  }

  lemma {:induction false} BucketFits(frameLen: nat, mtu: nat, from: nat)
    requires frameLen <= mtu && from <= |BUCKETS|
    ensures frameLen <= BucketFor(frameLen, mtu, from) <= mtu
    decreases |BUCKETS| - from
  {
    if from < |BUCKETS| { BucketFits(frameLen, mtu, from + 1); }
  }

  /** A padded frame is never cut and never exceeds the link, and is padded just as far as its policy says:
      not at all, to the link size, or to the least rung that holds it. */
  lemma PaddingFits(frameLen: nat, mtu: nat, policy: PaddingPolicy)
    ensures PaddedSize(frameLen, mtu, policy).Some? <==> frameLen <= mtu
    ensures frameLen <= mtu ==> frameLen <= PaddedSize(frameLen, mtu, policy).value <= mtu
    ensures frameLen <= mtu ==>
      var size := PaddedSize(frameLen, mtu, policy).value;
      match policy
      case Unpadded => size == frameLen
      case Strict => size == mtu
      case Bucket =>
        && (size == mtu || size in BUCKETS)
        && forall k :: 0 <= k < |BUCKETS| && BUCKETS[k] >= frameLen ==> size <= BUCKETS[k]
  {
    if frameLen <= mtu {
      BucketFits(frameLen, mtu, 0);
      BucketIsLeast(frameLen, mtu, 0);
    }
  }

  /** The bucket is the least rung that holds the frame, or the link size when that is smaller. */
  lemma {:induction false} BucketIsLeast(frameLen: nat, mtu: nat, from: nat)
    requires frameLen <= mtu && from <= |BUCKETS|
    ensures var r := BucketFor(frameLen, mtu, from);
      && (r == mtu || (r in BUCKETS && frameLen <= r < mtu))
      && forall k :: from <= k < |BUCKETS| && BUCKETS[k] >= frameLen ==> r <= BUCKETS[k]
    decreases |BUCKETS| - from
  {
    if from < |BUCKETS| {
      assert forall k :: from <= k < |BUCKETS| ==> BUCKETS[from] <= BUCKETS[k];
      BucketIsLeast(frameLen, mtu, from + 1);
    }
  }

  /** What bucket padding hides, exactly: two frames go out at the same size if and only if no rung
      below the link size lies between their lengths. */
  lemma BucketsHideLengths(a: nat, b: nat, mtu: nat)
    requires a <= mtu && b <= mtu
    ensures PaddedSize(a, mtu, Bucket) == PaddedSize(b, mtu, Bucket)
       <==> forall k :: 0 <= k < |BUCKETS| && BUCKETS[k] < mtu ==> (a <= BUCKETS[k] <==> b <= BUCKETS[k])
  {
    BucketIsLeast(a, mtu, 0);
    BucketIsLeast(b, mtu, 0);
    var x, y := BucketFor(a, mtu, 0), BucketFor(b, mtu, 0);
    if x < y {
      var k :| 0 <= k < |BUCKETS| && BUCKETS[k] == x;
      assert a <= BUCKETS[k] && !(b <= BUCKETS[k]);
    } else if y < x {
      var k :| 0 <= k < |BUCKETS| && BUCKETS[k] == y;
      assert b <= BUCKETS[k] && !(a <= BUCKETS[k]);
    }
  }
}
