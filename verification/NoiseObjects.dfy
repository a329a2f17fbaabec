/** The mutable handshake objects: every message method updates its fields in place, and is proved
    against the functions on state values.
*/
module NoiseObjects {
  import opened SymbolicCrypto
  import N = Noise

  /** A key with its nonce counter. */
  class CipherState {
    var k: Option<Term>
    var n: nat

    constructor (key: Option<Term>)
      ensures k == key && n == 0
    {
      k, n := key, 0;
    }

    /** `None` is an exhausted nonce. */
    method EncryptWithAd(ad: Transcript, plain: Plain) returns (r: Option<Box>)
      modifies this
      ensures k == old(k)
      ensures k.None? ==> r == Some(Clear(plain)) && n == old(n)
      ensures k.Some? && old(n) <= N.MAX_NONCE ==> r == Some(Sealed(k.value, old(n), ad, plain)) && n == old(n) + 1
      ensures k.Some? && old(n) > N.MAX_NONCE ==> r == None && n == old(n)
    {
      if k.None? {
        return Some(Clear(plain));
      }
      if n > N.MAX_NONCE {
        return None;
      }
      r := Some(Sealed(k.value, n, ad, plain));
      n := n + 1;
    }

    /** A refused box leaves the counter alone. */
    method DecryptWithAd(ad: Transcript, box: Box) returns (r: Option<Plain>)
      modifies this
      ensures k == old(k)
      ensures r.None? ==> n == old(n)
      ensures k.None? ==> r == (if box.Clear? then Some(box.plain) else None) && n == old(n)
      ensures k.Some? ==>
        r == (if old(n) <= N.MAX_NONCE && box.Sealed? && box == Sealed(k.value, old(n), ad, box.plain)
              then Some(box.plain) else None)
      ensures k.Some? && r.Some? ==> n == old(n) + 1
    {
      if k.None? {
        return if box.Clear? then Some(box.plain) else None;
      }
      if n > N.MAX_NONCE || !box.Sealed? || box.key != k.value || box.nonce != n || box.ad != ad {
        return None;
      }
      r := Some(box.plain);
      n := n + 1;
    }
  }

  /** Chaining key and transcript hash. Mixing in a key replaces the cipher object. */
  class SymmetricState {
    var ck: Term
    var h: Transcript
    var cipher: CipherState

    function Value(): N.Symmetric
      reads this, cipher
    {
      N.Symmetric(ck, h, cipher.k, cipher.n)
    }

    constructor ()
      ensures fresh(cipher) && Value() == N.Symmetric(N.NAME, ProtocolName, None, 0)
    {
      ck, h := N.NAME, ProtocolName;
      cipher := new CipherState(None);
    }

    constructor Of(v: N.Symmetric)
      ensures fresh(cipher) && Value() == v
    {
      ck, h := v.ck, v.h;
      cipher := new CipherState(v.k);
      new;
      cipher.n := v.n;
    }

    method MixKey(ikm: Term)
      modifies this
      ensures fresh(cipher) && Value() == N.MixKey(old(Value()), ikm)
    {
      var key := MixedKey(ck, ikm);
      ck := MixedChain(ck, ikm);
      cipher := new CipherState(Some(key));
    }

    method MixHash(data: Data)
      modifies this
      ensures cipher == old(cipher) && Value() == N.MixHash(old(Value()), data)
    {
      h := Mixed(h, data);
    }

    method EncryptAndHash(plain: Plain) returns (r: Option<Box>)
      modifies this, cipher
      ensures cipher == old(cipher)
      ensures r == N.EncryptAndHash(old(Value()), plain).0
      ensures Value() == N.EncryptAndHash(old(Value()), plain).1
    {
      r := cipher.EncryptWithAd(h, plain);
      if r.Some? {
        MixHash(BoxData(r.value));
      }
    }

    method DecryptAndHash(box: Box) returns (r: Option<Plain>)
      modifies this, cipher
      ensures cipher == old(cipher)
      ensures r == N.DecryptAndHash(old(Value()), box).0
      ensures Value() == N.DecryptAndHash(old(Value()), box).1
    {
      r := cipher.DecryptWithAd(h, box);
      if r.Some? {
        MixHash(BoxData(box));
      }
    }

    /** A low-order point yields no shared secret, and then nothing is mixed. */
    method MixDh(own: KeyPair, peer: Public) returns (ok: bool)
      modifies this
      ensures ok <==> N.MixDh(old(Value()), own, peer).Some?
      ensures ok ==> fresh(cipher) && Some(Value()) == N.MixDh(old(Value()), own, peer)
      ensures !ok ==> cipher == old(cipher) && Value() == old(Value())
    {
      var dh := DhTerm(own, peer);
      if dh.None? {
        return false;
      }
      MixKey(dh.value);
      ok := true;
    }
  }

  /** One side of a handshake. After a refusal partway through a message the object is left as the
      steps before the refusal made it; its message index has not moved. */
  class HandshakeState {
    const initiator: bool
    const s: KeyPair
    const symmetric: SymmetricState
    var e: Option<KeyPair>
    var re: Option<Public>
    var rs: Option<Public>
    var index: nat
    var split: Option<N.Transport>

    function Value(): N.Handshake
      reads this, symmetric, symmetric.cipher
    {
      N.Handshake(initiator, s, symmetric.Value(), e, re, rs, index, split)
    }

    ghost function Parts(): set<object>
      reads symmetric
    {
      {symmetric, symmetric.cipher}
    }

    constructor (initiator: bool, s: KeyPair, prologue: nat)
      ensures fresh(Parts()) && Value() == N.Start(initiator, s, prologue)
    {
      this.initiator, this.s := initiator, s;
      symmetric := new SymmetricState();
      e, re, rs, index, split := None, None, None, 0, None;
      new;
      symmetric.MixHash(Prologue(prologue));
    }

    constructor Of(v: N.Handshake)
      ensures fresh(Parts()) && Value() == v
    {
      initiator, s := v.initiator, v.s;
      symmetric := new SymmetricState.Of(v.sym);
      e, re, rs, index, split := v.e, v.re, v.rs, v.index, v.split;
    }

    method WriteMessage1(draw: KeyPair) returns (r: Option<Public>)
      modifies this, Parts()
      ensures fresh(Parts() - old(Parts()))
      ensures (r, Value()) == N.Write1(old(Value()), draw)
    {
      if !initiator || index != 0 {
        return None;
      }
      e := Some(draw);
      symmetric.MixHash(KeyData(PublicOf(draw)));
      index := 1;
      r := Some(PublicOf(draw));
    }

    method ReadMessage1(message: Option<Public>) returns (ok: bool)
      modifies this, Parts()
      ensures fresh(Parts() - old(Parts()))
      ensures ok <==> N.Read1(old(Value()), message).Some?
      ensures ok ==> Some(Value()) == N.Read1(old(Value()), message)
      ensures !ok ==> Value() == old(Value())
    {
      if initiator || index != 0 || message.None? {
        return false;
      }
      re := message;
      symmetric.MixHash(KeyData(message.value));
      index := 1;
      ok := true;
    }

    method WriteMessage2(draw: KeyPair, builder: Transcript -> Payload) returns (r: Option<N.Message2>)
      requires index == 1 && !initiator ==> re.Some?
      modifies this, Parts()
      ensures fresh(Parts() - old(Parts()))
      ensures r.Some? <==> N.Write2(old(Value()), draw, builder).Some?
      ensures r.Some? ==> Some((r.value, Value())) == N.Write2(old(Value()), draw, builder)
      ensures r.None? ==> index == old(index) && split == old(split)
    {
      hide N.MixHash, N.MixDh, N.EncryptAndHash, N.DecryptAndHash, N.Split, N.PayloadOf;
      if initiator || index != 1 {
        return None;
      }
      e := Some(draw);
      symmetric.MixHash(KeyData(PublicOf(draw)));
      var ok := symmetric.MixDh(draw, re.value);
      if !ok { return None; }
      var encS := symmetric.EncryptAndHash(KeyPlain(PublicOf(s)));
      if encS.None? { return None; }
      ok := symmetric.MixDh(s, re.value);
      if !ok { return None; }
      var payload := builder(symmetric.h);
      var encPayload := symmetric.EncryptAndHash(PayloadPlain(payload));
      if encPayload.None? { return None; }
      index := 2;
      r := Some(N.Message2(PublicOf(draw), encS.value, encPayload.value));
    }

    method ReadMessage2(message: Option<N.Message2>) returns (r: Option<N.Proof>)
      requires index == 1 && initiator ==> e.Some?
      modifies this, Parts()
      ensures fresh(Parts() - old(Parts()))
      ensures r.Some? <==> N.Read2(old(Value()), message).Some?
      ensures r.Some? ==> Some((r.value, Value())) == N.Read2(old(Value()), message)
      ensures r.None? ==> index == old(index) && split == old(split)
    {
      hide N.MixHash, N.MixDh, N.EncryptAndHash, N.DecryptAndHash, N.Split, N.PayloadOf;
      if !initiator || index != 1 || message.None? {
        return None;
      }
      re := Some(message.value.e);
      symmetric.MixHash(KeyData(message.value.e));
      var ok := symmetric.MixDh(e.value, message.value.e);
      if !ok { return None; }
      var remote := symmetric.DecryptAndHash(message.value.encS);
      if remote.None? || !remote.value.KeyPlain? { return None; }
      rs := Some(remote.value.key);
      ok := symmetric.MixDh(e.value, remote.value.key);
      if !ok { return None; }
      var signedHash := symmetric.h;
      var payload := symmetric.DecryptAndHash(message.value.encPayload);
      if payload.None? { return None; }
      index := 2;
      r := Some(N.Proof(remote.value.key, signedHash, N.PayloadOf(payload.value)));
    }

    method WriteMessage3(builder: Transcript -> Payload) returns (r: Option<N.Message3>)
      requires index == 2 && initiator ==> re.Some?
      modifies this, Parts()
      ensures fresh(Parts() - old(Parts()))
      ensures r.Some? <==> N.Write3(old(Value()), builder).Some?
      ensures r.Some? ==> Some((r.value, Value())) == N.Write3(old(Value()), builder)
      ensures r.None? ==> index == old(index) && split == old(split)
    {
      hide N.MixHash, N.MixDh, N.EncryptAndHash, N.DecryptAndHash, N.Split, N.PayloadOf;
      if !initiator || index != 2 {
        return None;
      }
      var encS := symmetric.EncryptAndHash(KeyPlain(PublicOf(s)));
      if encS.None? { return None; }
      var ok := symmetric.MixDh(s, re.value);
      if !ok { return None; }
      var payload := builder(symmetric.h);
      var encPayload := symmetric.EncryptAndHash(PayloadPlain(payload));
      if encPayload.None? { return None; }
      split := Some(N.Split(symmetric.Value()));
      index := 3;
      r := Some(N.Message3(encS.value, encPayload.value));
    }

    method ReadMessage3(message: Option<N.Message3>) returns (r: Option<N.Proof>)
      requires index == 2 && !initiator ==> e.Some?
      modifies this, Parts()
      ensures fresh(Parts() - old(Parts()))
      ensures r.Some? <==> N.Read3(old(Value()), message).Some?
      ensures r.Some? ==> Some((r.value, Value())) == N.Read3(old(Value()), message)
      ensures r.None? ==> index == old(index) && split == old(split)
    {
      hide N.MixHash, N.MixDh, N.EncryptAndHash, N.DecryptAndHash, N.Split, N.PayloadOf;
      if initiator || index != 2 || message.None? {
        return None;
      }
      var remote := symmetric.DecryptAndHash(message.value.encS);
      if remote.None? || !remote.value.KeyPlain? { return None; }
      rs := Some(remote.value.key);
      var ok := symmetric.MixDh(e.value, remote.value.key);
      if !ok { return None; }
      var signedHash := symmetric.h;
      var payload := symmetric.DecryptAndHash(message.value.encPayload);
      if payload.None? { return None; }
      split := Some(N.Split(symmetric.Value()));
      index := 3;
      r := Some(N.Proof(remote.value.key, signedHash, N.PayloadOf(payload.value)));
    }

    /** Send and receive keys as this side sees them; `None` while the handshake is not complete. */
    method TransportKeys() returns (r: Option<(Term, Term)>)
      ensures r == N.TransportKeys(Value())
      ensures r.None? <==> split.None?
    {
      if split.None? {
        return None;
      }
      var t := split.value;
      r := Some(if initiator then (t.forward, t.backward) else (t.backward, t.forward));
    }
  }
}
