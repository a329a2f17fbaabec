/** SLIP framing (RFC 1055): the encoder, the byte-at-a-time decoder, and why the decoder
    recovers every frame whatever state it starts in and however the stream is cut up.
*/
module Slip {
  import opened SymbolicCrypto

  const END: byte := 0xC0
  const ESC: byte := 0xDB
  const ESC_END: byte := 0xDC
  const ESC_ESC: byte := 0xDD

  datatype Decoder = Decoder(buf: Bytes, escaped: bool)

  const CLEAN := Decoder([], false)

  function Escape(b: byte): Bytes {
    if b == END then [ESC, ESC_END] else if b == ESC then [ESC, ESC_ESC] else [b]
  }

  function EscapeAll(payload: Bytes): Bytes {
    if payload == [] then [] else Escape(payload[0]) + EscapeAll(payload[1..])
  }

  function Encode(payload: Bytes): Bytes {
    [END] + EscapeAll(payload) + [END]
  }

  function Next(d: Decoder, b: byte): Decoder {
    if d.escaped then
      if b == ESC_END then Decoder(d.buf + [END], false)
      else if b == ESC_ESC then Decoder(d.buf + [ESC], false)
      else CLEAN
    else if b == ESC then Decoder(d.buf, true)
    else if b == END then CLEAN
    else Decoder(d.buf + [b], false)
  }

  /** The frame a byte completes, if any. */
  function Completed(d: Decoder, b: byte): seq<Bytes> {
    if !d.escaped && b == END && d.buf != [] then [d.buf] else []
  }

  function After(d: Decoder, data: Bytes): Decoder
    decreases data
  {
    if data == [] then d else After(Next(d, data[0]), data[1..])
  }

  function Frames(d: Decoder, data: Bytes): seq<Bytes>
    decreases data
  {
    if data == [] then [] else Completed(d, data[0]) + Frames(Next(d, data[0]), data[1..])
  }

  function AfterChunks(d: Decoder, chunks: seq<Bytes>): Decoder
    decreases chunks
  {
    if chunks == [] then d else AfterChunks(After(d, chunks[0]), chunks[1..])
  }

  function FramesOfChunks(d: Decoder, chunks: seq<Bytes>): seq<Bytes>
    decreases chunks
  {
    if chunks == [] then [] else Frames(d, chunks[0]) + FramesOfChunks(After(d, chunks[0]), chunks[1..])
  }

  function Concat(parts: seq<Bytes>): Bytes {
    if parts == [] then [] else parts[0] + Concat(parts[1..])
  }

  function EncodeAll(payloads: seq<Bytes>): Bytes {
    if payloads == [] then [] else Encode(payloads[0]) + EncodeAll(payloads[1..])
  }

  function NonEmpty(payloads: seq<Bytes>): seq<Bytes> {
    if payloads == [] then []
    else (if payloads[0] == [] then [] else [payloads[0]]) + NonEmpty(payloads[1..])
  }

  /** The decoder keeps no hidden state: feeding a whole is feeding its parts. */
  lemma {:induction false} FeedSplits(d: Decoder, a: Bytes, b: Bytes)
    ensures After(d, a + b) == After(After(d, a), b)
    ensures Frames(d, a + b) == Frames(d, a) + Frames(After(d, a), b)
    decreases a
  {
    if a == [] {
      assert a + b == b;
    } else {
      assert (a + b)[1..] == a[1..] + b;
      FeedSplits(Next(d, a[0]), a[1..], b);
    }
  }

  lemma {:induction false} ChunksDoNotMatter(d: Decoder, chunks: seq<Bytes>)
    ensures AfterChunks(d, chunks) == After(d, Concat(chunks))
    ensures FramesOfChunks(d, chunks) == Frames(d, Concat(chunks))
    decreases chunks
  {
    if chunks != [] {
      FeedSplits(d, chunks[0], Concat(chunks[1..]));
      ChunksDoNotMatter(After(d, chunks[0]), chunks[1..]);
    }
  }

  lemma FeedNothing(d: Decoder)
    ensures After(d, []) == d && Frames(d, []) == []
  {}

  lemma FeedOne(d: Decoder, b: byte)
    ensures After(d, [b]) == Next(d, b) && Frames(d, [b]) == Completed(d, b)
  {
    assert [b][1..] == [];
  }

  lemma EscapedByte(buf: Bytes, b: byte)
    ensures After(Decoder(buf, false), Escape(b)) == Decoder(buf + [b], false)
    ensures Frames(Decoder(buf, false), Escape(b)) == []
  {
    FeedOne(Decoder(buf, false), b);
    if b == END || b == ESC {
      var second := Escape(b)[1];
      FeedSplits(Decoder(buf, false), [ESC], [second]);
      FeedOne(Decoder(buf, false), ESC);
      FeedOne(Decoder(buf, true), second);
      assert Escape(b) == [ESC] + [second];
    }
  }

  lemma EscapeUnfolds(payload: Bytes)
    requires payload != []
    ensures EscapeAll(payload) == Escape(payload[0]) + EscapeAll(payload[1..])
  {}

  lemma EscapedHead(buf: Bytes, payload: Bytes)
    requires payload != []
    ensures After(Decoder(buf, false), EscapeAll(payload))
         == After(Decoder(buf + [payload[0]], false), EscapeAll(payload[1..]))
    ensures Frames(Decoder(buf, false), EscapeAll(payload))
         == Frames(Decoder(buf + [payload[0]], false), EscapeAll(payload[1..]))
  {
    hide After, Frames, Escape, EscapeAll;
    EscapeUnfolds(payload);
    EscapedByte(buf, payload[0]);
    FeedSplits(Decoder(buf, false), Escape(payload[0]), EscapeAll(payload[1..]));
  }

  /** The escaped body of a frame accumulates to the payload and completes nothing on the way. */
  lemma {:induction false} EscapedBody(buf: Bytes, payload: Bytes)
    ensures After(Decoder(buf, false), EscapeAll(payload)) == Decoder(buf + payload, false)
    ensures Frames(Decoder(buf, false), EscapeAll(payload)) == []
    decreases payload
  {
    hide After, Frames;
    if payload == [] {
      FeedNothing(Decoder(buf, false));
      assert buf + payload == buf;
    } else {
      EscapedHead(buf, payload);
      EscapedBody(buf + [payload[0]], payload[1..]);
      assert buf + [payload[0]] + payload[1..] == buf + payload;
    }
  }

  /** What is left of a broken frame when the next one starts. */
  function Stale(d: Decoder): seq<Bytes> {
    if d.escaped || d.buf == [] then [] else [d.buf]
  }

  /** From any state at all, an encoded payload comes out last and leaves the decoder clean. */
  lemma SelfSynchronising(d: Decoder, payload: Bytes)
    ensures After(d, Encode(payload)) == CLEAN
    ensures Frames(d, Encode(payload)) == Stale(d) + (if payload == [] then [] else [payload])
  {
    var body := EscapeAll(payload);
    FeedSplits(d, [END], body + [END]);
    FeedOne(d, END);
    FeedSplits(CLEAN, body, [END]);
    EscapedBody([], payload);
    assert [] + payload == payload;
    FeedOne(Decoder(payload, false), END);
    assert Encode(payload) == [END] + (body + [END]);
  }

  lemma StaleOfClean()
    ensures Stale(CLEAN) == []
  {}

  lemma StreamUnfolds(payloads: seq<Bytes>)
    requires payloads != []
    ensures EncodeAll(payloads) == Encode(payloads[0]) + EncodeAll(payloads[1..])
    ensures NonEmpty(payloads) == (if payloads[0] == [] then [] else [payloads[0]]) + NonEmpty(payloads[1..])
    ensures |payloads| == 1 ==> EncodeAll(payloads[1..]) == [] && NonEmpty(payloads[1..]) == []
  {
    hide Encode;
  }

  lemma {:induction false} StreamOfFrames(d: Decoder, payloads: seq<Bytes>)
    requires payloads != []
    ensures After(d, EncodeAll(payloads)) == CLEAN
    ensures Frames(d, EncodeAll(payloads)) == Stale(d) + NonEmpty(payloads)
    decreases payloads
  {
    hide After, Frames, Encode, Stale, EncodeAll, NonEmpty;
    StreamUnfolds(payloads);
    SelfSynchronising(d, payloads[0]);
    FeedSplits(d, Encode(payloads[0]), EncodeAll(payloads[1..]));
    if |payloads| > 1 {
      StreamOfFrames(CLEAN, payloads[1..]);
      StaleOfClean();
    } else {
      FeedNothing(CLEAN);
    }
  }

  /** However a stream of encodings is cut into reads, exactly the nonempty payloads come out, in
      order, after whatever was stale. */
  lemma AnyChunking(d: Decoder, payloads: seq<Bytes>, chunks: seq<Bytes>)
    requires payloads != [] && Concat(chunks) == EncodeAll(payloads)
    ensures AfterChunks(d, chunks) == CLEAN
    ensures FramesOfChunks(d, chunks) == Stale(d) + NonEmpty(payloads)
  {
    ChunksDoNotMatter(d, chunks);
    StreamOfFrames(d, payloads);
  }

  lemma {:induction false} EscapedHasNoEnd(payload: Bytes)
    ensures forall i :: 0 <= i < |EscapeAll(payload)| ==> EscapeAll(payload)[i] != 0xC0
    ensures |payload| <= |EscapeAll(payload)| <= 2 * |payload|
  {
    if payload != [] { EscapedHasNoEnd(payload[1..]); }
  }

  /** On the line a frame starts and ends with the END byte and has none inside. */
  lemma EndsOnlyAtEnds(payload: Bytes)
    ensures var e := Encode(payload);
      && |payload| + 2 <= |e| <= 2 * |payload| + 2 && e[0] == e[|e| - 1] == 0xC0
      && forall i :: 0 < i < |e| - 1 ==> e[i] != 0xC0
  {
    hide EscapeAll;
    EscapedHasNoEnd(payload);
    assert forall i :: 0 < i < |Encode(payload)| - 1 ==> Encode(payload)[i] == EscapeAll(payload)[i - 1];
  }

  /** The encoding determines the payload. */
  lemma EncodeInjective(p: Bytes, q: Bytes)
    requires Encode(p) == Encode(q)
    ensures p == q
  {
    SelfSynchronising(CLEAN, p);
    SelfSynchronising(CLEAN, q);
    hide Encode, Frames;
    assert p != [] ==> Frames(CLEAN, Encode(p)) == [p];
    assert q != [] ==> Frames(CLEAN, Encode(q)) == [q];
    assert p != [] && q != [] ==> [p][0] == [q][0];
  }

  lemma FeedHead(d: Decoder, done: seq<Bytes>, data: Bytes, i: nat)
    requires i < |data|
    ensures After(d, data[i..]) == After(Next(d, data[i]), data[i + 1..])
    ensures done + Frames(d, data[i..]) == done + Completed(d, data[i]) + Frames(Next(d, data[i]), data[i + 1..])
  {
    hide Next, Completed;
    assert data[i..][1..] == data[i + 1..];
  }

  lemma FeedBounds(d: Decoder, done: seq<Bytes>, data: Bytes)
    ensures data[0..] == data && done + Frames(d, data[|data|..]) == done && After(d, data[|data|..]) == d
  {}

  lemma EscapeHead(out: Bytes, payload: Bytes, i: nat)
    requires i < |payload|
    ensures out + EscapeAll(payload[i..]) == out + Escape(payload[i]) + EscapeAll(payload[i + 1..])
  {
    hide Escape;
    assert payload[i..][1..] == payload[i + 1..];
  }

  lemma EscapeBounds(out: Bytes, payload: Bytes)
    ensures payload[0..] == payload && out + EscapeAll(payload[|payload|..]) == out
  {}

  /** The decoder object. */
  class SlipCodec {
    var buf: Bytes
    var escaped: bool

    function State(): Decoder
      reads this
    {
      Decoder(buf, escaped)
    }

    constructor ()
      ensures State() == CLEAN
    {
      buf, escaped := [], false;
    }

    static method EncodeFrame(payload: Bytes) returns (out: Bytes)
      ensures out == Encode(payload)
    {
      hide EscapeAll;
      out := [END];
      EscapeBounds(out, payload);
      for i := 0 to |payload|
        invariant out + EscapeAll(payload[i..]) == [END] + EscapeAll(payload)
      {
        EscapeHead(out, payload, i);
        var b := payload[i];
        if b == END {
          out := out + [ESC, ESC_END];
        } else if b == ESC {
          out := out + [ESC, ESC_ESC];
        } else {
          out := out + [b];
        }
      }
      EscapeBounds(out, payload);
      out := out + [END];
    }

    method Receive(data: Bytes) returns (frames: seq<Bytes>)
      modifies this
      ensures State() == After(old(State()), data)
      ensures frames == Frames(old(State()), data)
    {
      hide After, Frames;
      frames := [];
      FeedBounds(State(), frames, data);
      for i := 0 to |data|
        invariant After(State(), data[i..]) == After(old(State()), data)
        invariant frames + Frames(State(), data[i..]) == Frames(old(State()), data)
      {
        ghost var d, done := State(), frames;
        FeedHead(d, done, data, i);
        var b := data[i];
        if escaped {
          if b == ESC_END {
            buf := buf + [END];
          } else if b == ESC_ESC {
            buf := buf + [ESC];
          } else {
            buf := [];
          }
          escaped := false;
        } else if b == ESC {
          escaped := true;
        } else if b == END {
          if buf != [] {
            frames := frames + [buf];
            buf := [];
          }
        } else {
          buf := buf + [b];
        }
        assert State() == Next(d, b) && frames == done + Completed(d, b);
      }
      FeedBounds(State(), frames, data);
    }
  }
}
