/** The two byte layouts that carry protocol values: the ratchet header that is bound into every
    message's associated data, and the identity payload of handshake messages 2 and 3.
*/
module Codecs {
  import opened SymbolicCrypto
  import P = Packet
  import R = Ratchet

  const KEY_LEN: nat := 32
  const SIGNATURE_LEN: nat := 64
  const COUNTER_LEN: nat := 4
  const RATCHET_HEADER_LEN: nat := 40
  const NICKNAME_LIMIT: nat := 64

  // -- the ratchet header ------------------------------------------------------------------

  datatype Header = Header(pub: Bytes, pn: nat, n: nat)

  predicate HeaderFits(h: Header) {
    |h.pub| == KEY_LEN && h.pn < P.Power256(COUNTER_LEN) && h.n < P.Power256(COUNTER_LEN)
  }

  /** `None` is a counter that does not fit its four bytes. */
  function EncodeHeader(h: Header): Option<Bytes> {
    if h.pn >= P.Power256(COUNTER_LEN) || h.n >= P.Power256(COUNTER_LEN) then None
    else Some(h.pub + P.BigEndian(h.pn, COUNTER_LEN) + P.BigEndian(h.n, COUNTER_LEN))
  }

  function DecodeHeader(raw: Bytes): Option<Header> {
    if |raw| != RATCHET_HEADER_LEN then None
    else Some(Header(raw[..32], P.FromBigEndian(raw[32..36]), P.FromBigEndian(raw[36..])))
  }

  /** The counters a ratchet may put in a header are exactly those that can be written. */
  lemma EncodableMeansWritable(pub: Public, h: Header)
    ensures R.Encodable(R.Header(pub, h.pn, h.n)) <==> EncodeHeader(h).Some?
  {
    assert P.Power256(COUNTER_LEN) == 256 * (256 * (256 * (256 * P.Power256(0))));
  }

  /** Decoding undoes encoding, and every 40-byte string is the encoding of what it decodes to. */
  lemma HeaderRoundTrip(h: Header, raw: Bytes)
    ensures HeaderFits(h) ==> EncodeHeader(h).Some? && DecodeHeader(EncodeHeader(h).value) == Some(h)
    ensures DecodeHeader(raw).Some? <==> |raw| == 40
    ensures DecodeHeader(raw).Some? ==>
      HeaderFits(DecodeHeader(raw).value) && EncodeHeader(DecodeHeader(raw).value) == Some(raw)
  {
    if HeaderFits(h) {
      var e := EncodeHeader(h).value;
      P.BigEndianRoundTrip(h.pn, COUNTER_LEN);
      P.BigEndianRoundTrip(h.n, COUNTER_LEN);
      assert e[..32] == h.pub;
      assert e[32..36] == P.BigEndian(h.pn, COUNTER_LEN) && e[36..] == P.BigEndian(h.n, COUNTER_LEN);
    }
    if |raw| == RATCHET_HEADER_LEN {
      P.FromBigEndianRoundTrip(raw[32..36]);
      P.FromBigEndianRoundTrip(raw[36..]);
      assert raw == raw[..32] + raw[32..36] + raw[36..];
    }
  }

  /** The header byte by byte: the ratchet key, then `pn`, then `n`. */
  lemma HeaderLayout(h: Header)
    requires HeaderFits(h)
    ensures EncodeHeader(h).Some?
    ensures var e := EncodeHeader(h).value;
      |e| == 40 && e[..32] == h.pub && P.FromBigEndian(e[32..36]) == h.pn && P.FromBigEndian(e[36..40]) == h.n
  {
    HeaderRoundTrip(h, []);
    var e := EncodeHeader(h).value;
    assert e[36..40] == e[36..];
  }

  /** The header is bound without a separator: equal associated data mean equal caller data and equal headers. */
  lemma AssociatedDataBinds(ad: Bytes, h: Header, ad': Bytes, h': Header)
    requires HeaderFits(h) && HeaderFits(h')
    requires ad + EncodeHeader(h).value == ad' + EncodeHeader(h').value
    ensures ad == ad' && h == h'
  {
    var e, e' := EncodeHeader(h).value, EncodeHeader(h').value;
    assert ad == (ad + e)[..|ad|] && ad' == (ad' + e')[..|ad|];
    assert e == (ad + e)[|ad|..] && e' == (ad' + e')[|ad|..];
    HeaderRoundTrip(h, e);
    HeaderRoundTrip(h', e');
  }

  // -- the identity payload ------------------------------------------------------------------

  datatype Fields = Fields(signer: Bytes, signature: Bytes, ratchet: Option<Bytes>, nickname: Bytes)

  predicate FieldsFit(f: Fields) {
    && |f.signer| == KEY_LEN && |f.signature| == SIGNATURE_LEN
    && (f.ratchet.Some? ==> |f.ratchet.value| == KEY_LEN)
  }

  function Clip(b: Bytes, limit: nat): Bytes {
    if |b| <= limit then b else b[..limit]
  }

  function EncodeFields(f: Fields): Bytes {
    var nickname := Clip(f.nickname, NICKNAME_LIMIT);
    f.signer + f.signature + (if f.ratchet.Some? then f.ratchet.value else []) + [|nickname| as byte] + nickname
  }

  /** Bytes before the nickname, its length byte included. */
  function Need(expectRatchet: bool): nat {
    KEY_LEN + SIGNATURE_LEN + (if expectRatchet then KEY_LEN else 0) + 1
  }

  function DecodeFields(payload: Bytes, expectRatchet: bool): Option<Fields> {
    var need := Need(expectRatchet);
    if |payload| < need then None
    else Some(Fields(payload[..32], payload[32..96],
                     if expectRatchet then Some(payload[96..128]) else None,
                     Clip(payload[need..], payload[need - 1] as nat)))
  }

  /** The walk over the payload with a moving offset. */
  method ReadFields(payload: Bytes, expectRatchet: bool) returns (r: Option<Fields>)
    ensures r == DecodeFields(payload, expectRatchet)
    ensures r.Some? <==> |payload| >= if expectRatchet then 129 else 97
  {
    if |payload| < Need(expectRatchet) {
      return None;
    }
    var offset := 0;
    var signer := payload[offset..offset + KEY_LEN];
    offset := offset + KEY_LEN;
    var signature := payload[offset..offset + SIGNATURE_LEN];
    offset := offset + SIGNATURE_LEN;
    var ratchet := None;
    if expectRatchet {
      ratchet := Some(payload[offset..offset + KEY_LEN]);
      offset := offset + KEY_LEN;
    }
    var length := payload[offset] as nat;
    offset := offset + 1;
    var end := if offset + length <= |payload| then offset + length else |payload|;
    assert payload[offset..end] == Clip(payload[offset..], length);
    r := Some(Fields(signer, signature, ratchet, payload[offset..end]));
  }

  /** A written payload reads back as written, with the nickname cut to 64 bytes. */
  lemma PayloadRoundTrip(f: Fields)
    requires FieldsFit(f)
    ensures DecodeFields(EncodeFields(f), f.ratchet.Some?) == Some(f.(nickname := Clip(f.nickname, NICKNAME_LIMIT)))
  {
    var nickname := Clip(f.nickname, NICKNAME_LIMIT);
    var e, need := EncodeFields(f), Need(f.ratchet.Some?);
    assert e[..32] == f.signer && e[32..96] == f.signature;
    if f.ratchet.Some? { assert e[96..128] == f.ratchet.value; }
    assert e[need - 1] == |nickname| as byte && e[need..] == nickname;
  }

  /** The payload byte by byte: signing key, signature, the ratchet key if there is one, and the nickname
      behind its length. */
  lemma PayloadLayout(f: Fields)
    requires FieldsFit(f)
    ensures var (e, at) := (EncodeFields(f), if f.ratchet.Some? then 128 else 96);
      && |e| == at + 1 + e[at] as nat && e[at] as nat == (if |f.nickname| <= 64 then |f.nickname| else 64)
      && e[..32] == f.signer && e[32..96] == f.signature
      && (f.ratchet.Some? ==> e[96..128] == f.ratchet.value)
      && e[at + 1..] == f.nickname[..e[at]]
  {
    PayloadRoundTrip(f);
  }

  /** Exactly the payloads that end with their nickname, of at most 64 bytes, are re-encoded unchanged:
      the reader ignores trailing bytes and takes a short nickname as it finds it. */
  lemma ReencodesExactly(payload: Bytes, expectRatchet: bool)
    requires DecodeFields(payload, expectRatchet).Some?
    ensures EncodeFields(DecodeFields(payload, expectRatchet).value) == payload
       <==> |payload| == Need(expectRatchet) + payload[Need(expectRatchet) - 1] as nat
            && payload[Need(expectRatchet) - 1] as nat <= NICKNAME_LIMIT
  {
    var need := Need(expectRatchet);
    var f := DecodeFields(payload, expectRatchet).value;
    var e := EncodeFields(f);
    var length := payload[need - 1] as nat;
    var body := f.signer + f.signature + (if f.ratchet.Some? then f.ratchet.value else []);
    assert body == payload[..need - 1];
    assert e == body + [|Clip(f.nickname, NICKNAME_LIMIT)| as byte] + Clip(f.nickname, NICKNAME_LIMIT);
    assert payload == body + [payload[need - 1]] + payload[need..];
    if |payload| == need + length && length <= NICKNAME_LIMIT {
      assert f.nickname == payload[need..];
    }
    if e == payload {
      assert e[need - 1] == payload[need - 1];
      assert e[need..] == payload[need..];
    }
  }
}
