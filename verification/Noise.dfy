/** The Noise XX handshake (Noise Protocol Framework, revision 34, sections 5.1 to 5.3 and 7.5)
    as functions on state values: each message write and read, and what the two sides share.
*/
module Noise {
  import opened SymbolicCrypto

  const MAX_NONCE: nat := 0xFFFF_FFFF_FFFF_FFFF

  // The two public constants that enter the key schedule: the protocol name and the empty string.
  const NAME := Constant(0)
  const EMPTY := Constant(1)

  datatype Symmetric = Symmetric(ck: Term, h: Transcript, k: Option<Term>, n: nat)

  datatype Message2 = Message2(e: Public, encS: Box, encPayload: Box)

  datatype Message3 = Message3(encS: Box, encPayload: Box)

  /** What a successful read hands to the caller. */
  datatype Proof = Proof(remote: Public, signedHash: Transcript, payload: Payload)

  /** The pair of transport keys, initiator to responder first. */
  datatype Transport = Transport(forward: Term, backward: Term)

  datatype Handshake = Handshake(
    initiator: bool,
    s: KeyPair,
    sym: Symmetric,
    e: Option<KeyPair>,
    re: Option<Public>,
    rs: Option<Public>,
    index: nat,
    split: Option<Transport>)

  // -- sections 5.1 and 5.2 ---------------------------------------------------------

  function MixKey(s: Symmetric, ikm: Term): Symmetric {
    Symmetric(MixedChain(s.ck, ikm), s.h, Some(MixedKey(s.ck, ikm)), 0)
  }

  function MixHash(s: Symmetric, data: Data): Symmetric {
    s.(h := Mixed(s.h, data))
  }

  function EncryptAndHash(s: Symmetric, plain: Plain): (Option<Box>, Symmetric) {
    match s.k
    case None => (Some(Clear(plain)), MixHash(s, BoxData(Clear(plain))))
    case Some(k) =>
      if s.n > MAX_NONCE then (None, s)
      else
        var box := Sealed(k, s.n, s.h, plain);
        (Some(box), MixHash(s.(n := s.n + 1), BoxData(box)))
  }

  /** A box opens under the same key, nonce and hash; a refusal leaves the nonce where it was. */
  function DecryptAndHash(s: Symmetric, box: Box): (Option<Plain>, Symmetric) {
    match s.k
    case None => if box.Clear? then (Some(box.plain), MixHash(s, BoxData(box))) else (None, s)
    case Some(k) =>
      if s.n <= MAX_NONCE && box.Sealed? && box.key == k && box.nonce == s.n && box.ad == s.h
      then (Some(box.plain), MixHash(s.(n := s.n + 1), BoxData(box)))
      else (None, s)
  }

  function Split(s: Symmetric): Transport {
    Transport(MixedChain(s.ck, EMPTY), MixedKey(s.ck, EMPTY))
  }

  // -- section 5.3 --------------------------------------------------------------------

  function Start(initiator: bool, s: KeyPair, prologue: nat): Handshake {
    var sym := MixHash(Symmetric(NAME, ProtocolName, None, 0), Prologue(prologue));
    Handshake(initiator, s, sym, None, None, None, 0, None)
  }

  function MixDh(s: Symmetric, own: KeyPair, peer: Public): Option<Symmetric> {
    match DhTerm(own, peer)
    case None => None
    case Some(dh) => Some(MixKey(s, dh))
  }

  function Write1(hs: Handshake, draw: KeyPair): (Option<Public>, Handshake) {
    if !hs.initiator || hs.index != 0 then (None, hs)
    else (Some(PublicOf(draw)),
          hs.(e := Some(draw), sym := MixHash(hs.sym, KeyData(PublicOf(draw))), index := 1))
  }

  /** `message` is `None` when it has the wrong length. */
  function Read1(hs: Handshake, message: Option<Public>): Option<Handshake> {
    if hs.initiator || hs.index != 0 || message.None? then None
    else Some(hs.(re := message, sym := MixHash(hs.sym, KeyData(message.value)), index := 1))
  }

  /** The responder's state when its payload builder is called, and the static-key box before it. */
  function BeforePayload2(hs: Handshake, draw: KeyPair): Option<(Symmetric, Box)> {
    if hs.initiator || hs.index != 1 || hs.re.None? then None
    else
      match MixDh(MixHash(hs.sym, KeyData(PublicOf(draw))), draw, hs.re.value)
      case None => None
      case Some(afterEe) =>
        var (encS, afterS) := EncryptAndHash(afterEe, KeyPlain(PublicOf(hs.s)));
        if encS.None? then None
        else
          match MixDh(afterS, hs.s, hs.re.value)
          case None => None
          case Some(afterEs) => Some((afterEs, encS.value))
  }

  function Write2(hs: Handshake, draw: KeyPair, builder: Transcript -> Payload): (r: Option<(Message2, Handshake)>)
    ensures r.Some? ==> !hs.initiator && hs.index == 1
    ensures r.Some? ==> !r.value.1.initiator && r.value.1.index == 2 && r.value.1.e == Some(draw)
  {
    match BeforePayload2(hs, draw)
    case None => None
    case Some((sym, encS)) =>
      var (encPayload, sym') := EncryptAndHash(sym, PayloadPlain(builder(sym.h)));
      if encPayload.None? then None
      else Some((Message2(PublicOf(draw), encS, encPayload.value), hs.(e := Some(draw), sym := sym', index := 2)))
  }

  /** Bytes that are no identity payload are too short to be one. */
  function PayloadOf(plain: Plain): Payload {
    if plain.PayloadPlain? then plain.payload else Truncated(0)
  }

  /** The initiator's state when it has the responder's static key but not yet the payload. */
  function BeforeProof2(hs: Handshake, message: Message2): Option<(Symmetric, Public)> {
    if hs.e.None? then None
    else
      match MixDh(MixHash(hs.sym, KeyData(message.e)), hs.e.value, message.e)
      case None => None
      case Some(afterEe) =>
        var (remote, afterS) := DecryptAndHash(afterEe, message.encS);
        if remote.None? || !remote.value.KeyPlain? then None
        else
          match MixDh(afterS, hs.e.value, remote.value.key)
          case None => None
          case Some(afterEs) => Some((afterEs, remote.value.key))
  }

  function Read2(hs: Handshake, message: Option<Message2>): (r: Option<(Proof, Handshake)>)
    ensures r.Some? ==> message.Some? && hs.initiator && hs.index == 1
    ensures r.Some? ==> r.value.1.initiator && r.value.1.index == 2 && r.value.1.re.Some?
  {
    if !hs.initiator || hs.index != 1 || message.None? then None
    else
      match BeforeProof2(hs, message.value)
      case None => None
      case Some((sym, remote)) =>
        var (payload, sym') := DecryptAndHash(sym, message.value.encPayload);
        if payload.None? then None
        else Some((Proof(remote, sym.h, PayloadOf(payload.value)),
                   hs.(re := Some(message.value.e), rs := Some(remote), sym := sym', index := 2)))
  }

  function BeforePayload3(hs: Handshake): Option<(Symmetric, Box)> {
    if !hs.initiator || hs.index != 2 || hs.re.None? then None
    else
      var (encS, afterS) := EncryptAndHash(hs.sym, KeyPlain(PublicOf(hs.s)));
      if encS.None? then None
      else
        match MixDh(afterS, hs.s, hs.re.value)
        case None => None
        case Some(afterSe) => Some((afterSe, encS.value))
  }

  function Write3(hs: Handshake, builder: Transcript -> Payload): (r: Option<(Message3, Handshake)>)
    ensures r.Some? ==> hs.initiator && hs.index == 2 && r.value.1.initiator && r.value.1.index == 3
  {
    match BeforePayload3(hs)
    case None => None
    case Some((sym, encS)) =>
      var (encPayload, sym') := EncryptAndHash(sym, PayloadPlain(builder(sym.h)));
      if encPayload.None? then None
      else Some((Message3(encS, encPayload.value), hs.(sym := sym', split := Some(Split(sym')), index := 3)))
  }

  function BeforeProof3(hs: Handshake, message: Message3): Option<(Symmetric, Public)> {
    var (remote, afterS) := DecryptAndHash(hs.sym, message.encS);
    if hs.e.None? || remote.None? || !remote.value.KeyPlain? then None
    else
      match MixDh(afterS, hs.e.value, remote.value.key)
      case None => None
      case Some(afterSe) => Some((afterSe, remote.value.key))
  }

  function Read3(hs: Handshake, message: Option<Message3>): (r: Option<(Proof, Handshake)>)
    ensures r.Some? ==> message.Some? && !hs.initiator && hs.index == 2 && !r.value.1.initiator && r.value.1.index == 3
  {
    if hs.initiator || hs.index != 2 || message.None? then None
    else
      match BeforeProof3(hs, message.value)
      case None => None
      case Some((sym, remote)) =>
        var (payload, sym') := DecryptAndHash(sym, message.value.encPayload);
        if payload.None? then None
        else Some((Proof(remote, sym.h, PayloadOf(payload.value)),
                   hs.(rs := Some(remote), sym := sym', split := Some(Split(sym')), index := 3)))
  }

  /** `(send, receive)` as seen by this side. */
  function TransportKeys(hs: Handshake): Option<(Term, Term)> {
    match hs.split
    case None => None
    case Some(t) => Some(if hs.initiator then (t.forward, t.backward) else (t.backward, t.forward))
  }

  // -- matching transcripts -------------------------------------------------------------

  /** The two sides after message 1 was delivered unchanged. */
  ghost predicate InSync1(i: Handshake, r: Handshake) {
    && i.initiator && !r.initiator && i.index == r.index == 1
    && i.sym == r.sym && i.sym.k.None?
    && i.e.Some? && r.re == Some(PublicOf(i.e.value))
  }

  ghost predicate InSync2(i: Handshake, r: Handshake) {
    && i.initiator && !r.initiator && i.index == r.index == 2
    && i.sym == r.sym && i.sym.k.Some? && i.sym.n == 1
    && i.e.Some? && r.e.Some? && i.re == Some(PublicOf(r.e.value)) && r.re == Some(PublicOf(i.e.value))
    && i.rs == Some(PublicOf(r.s))
  }

  ghost predicate InSync3(i: Handshake, r: Handshake) {
    && i.initiator && !r.initiator && i.index == r.index == 3
    && i.sym == r.sym && i.rs == Some(PublicOf(r.s)) && r.rs == Some(PublicOf(i.s))
    && i.split.Some? && i.split == r.split
  }

  lemma SwapDh(a: KeyPair, b: KeyPair)
    ensures DhTerm(a, PublicOf(b)) == DhTerm(b, PublicOf(a))
  {
    assert {a, b} == {b, a};
  }

  lemma Message1Agrees(si: KeyPair, sr: KeyPair, prologue: nat, ei: KeyPair)
    ensures var (m, i) := Write1(Start(true, si, prologue), ei);
      var r := Read1(Start(false, sr, prologue), m);
      r.Some? && InSync1(i, r.value)
  {}

  /** Message 2 delivered unchanged: equal states, the payload as built, over the hash it was built from. */
  lemma Message2Agrees(i: Handshake, r: Handshake, er: KeyPair, builder: Transcript -> Payload)
    requires InSync1(i, r)
    ensures Write2(r, er, builder).Some?
    ensures var (m, r') := Write2(r, er, builder).value;
      && Read2(i, Some(m)).Some?
      && var (proof, i') := Read2(i, Some(m)).value;
      && InSync2(i', r')
      && proof.remote == PublicOf(r.s)
      && proof.signedHash == BeforePayload2(r, er).value.0.h
      && proof.payload == builder(proof.signedHash)
  {
    SwapDh(i.e.value, er);
    SwapDh(i.e.value, r.s);
  }

  /** Message 3 delivered unchanged: equal states, and transport keys that mirror each other. */
  lemma Message3Agrees(i: Handshake, r: Handshake, builder: Transcript -> Payload)
    requires InSync2(i, r)
    ensures Write3(i, builder).Some?
    ensures var (m, i') := Write3(i, builder).value;
      && Read3(r, Some(m)).Some?
      && var (proof, r') := Read3(r, Some(m)).value;
      && InSync3(i', r')
      && proof.remote == PublicOf(i.s)
      && proof.signedHash == BeforePayload3(i).value.0.h
      && proof.payload == builder(proof.signedHash)
      && TransportKeys(i').Some? && TransportKeys(r').Some?
      && TransportKeys(i').value.0 == TransportKeys(r').value.1
      && TransportKeys(i').value.1 == TransportKeys(r').value.0
  {
    SwapDh(i.s, r.e.value);
  }

  // -- equal hashes force equal handshakes -----------------------------------------------

  /** An initiator that has sent message 1, and a responder that has read some message 1. */
  ghost predicate Sent1(i: Handshake, prologue: nat) {
    && i.initiator && i.index == 1 && i.e.Some?
    && i.sym == MixHash(Start(true, i.s, prologue).sym, KeyData(PublicOf(i.e.value)))
  }

  ghost predicate Got1(r: Handshake, prologue: nat) {
    && !r.initiator && r.index == 1 && r.re.Some?
    && r.sym == MixHash(Start(false, r.s, prologue).sym, KeyData(r.re.value))
  }

  /** Whatever message 2 the initiator read: if the hash it checks a signature over is the hash a
      responder signed, both ran the same handshake. The responder talks to this initiator's
      ephemeral, the static key is the responder's, and the key schedules are equal. */
  lemma EqualHashMeansSameHandshake2(i: Handshake, pi: nat, message: Message2, r: Handshake, pr: nat, er: KeyPair)
    requires Sent1(i, pi) && Got1(r, pr)
    requires BeforeProof2(i, message).Some? && BeforePayload2(r, er).Some?
    requires BeforeProof2(i, message).value.0.h == BeforePayload2(r, er).value.0.h
    ensures pi == pr && r.re == Some(PublicOf(i.e.value)) && message.e == PublicOf(er)
    ensures message.encS == BeforePayload2(r, er).value.1
    ensures BeforeProof2(i, message).value.1 == PublicOf(r.s)
    ensures BeforeProof2(i, message).value.0 == BeforePayload2(r, er).value.0
  {
    SwapDh(i.e.value, er);
    SwapDh(i.e.value, r.s);
  }

  /** The same for message 3: equal signed hashes mean both sides stood in equal states. */
  lemma EqualHashMeansSameHandshake3(i: Handshake, r: Handshake, message: Message3)
    requires i.initiator && i.index == 2 && i.re.Some? && i.sym.k.Some? && r.e.Some? && r.sym.k.Some?
    requires BeforePayload3(i).Some? && BeforeProof3(r, message).Some?
    requires BeforePayload3(i).value.0.h == BeforeProof3(r, message).value.0.h
    ensures i.sym.h == r.sym.h && message.encS == BeforePayload3(i).value.1
    ensures i.sym.k == r.sym.k && i.sym.n == r.sym.n
    ensures BeforeProof3(r, message).value.1 == PublicOf(i.s)
  {}

  /** How the running hash ends when message 2's proof is signed, and when message 3's is. */
  predicate EndsAsHash2(h: Transcript) {
    h.Mixed? && h.data.BoxData? && h.prev.Mixed? && h.prev.data.KeyData?
  }

  predicate EndsAsHash3(h: Transcript) {
    h.Mixed? && h.data.BoxData? && h.prev.Mixed? && h.prev.data.BoxData?
  }

  lemma HashTellsRole2(hs: Handshake, draw: KeyPair, message: Message2)
    ensures BeforePayload2(hs, draw).Some? ==> EndsAsHash2(BeforePayload2(hs, draw).value.0.h)
    ensures BeforeProof2(hs, message).Some? ==> EndsAsHash2(BeforeProof2(hs, message).value.0.h)
  {}

  /** The hash signed for one message is never signed for the other, so no proof serves both roles. */
  lemma HashTellsRole3(hs: Handshake, draw: KeyPair, builder: Transcript -> Payload, m2: Option<Message2>, m3: Message3)
    ensures Write2(hs, draw, builder).Some? && BeforeProof3(Write2(hs, draw, builder).value.1, m3).Some? ==>
      EndsAsHash3(BeforeProof3(Write2(hs, draw, builder).value.1, m3).value.0.h)
    ensures Read2(hs, m2).Some? && BeforePayload3(Read2(hs, m2).value.1).Some? ==>
      EndsAsHash3(BeforePayload3(Read2(hs, m2).value.1).value.0.h)
  {
    hide BeforePayload2, BeforeProof2;
  }

  /** Equal hashes at message 3 reach back to message 1: it is one handshake, message 2 arrived as it
      was sent, and the two sides stand in equal states. */
  lemma EqualHashMeansOneHandshake(i1: Handshake, pi: nat, m2: Message2, r1: Handshake, pr: nat, er: KeyPair,
                                   builder: Transcript -> Payload, m3: Message3)
    requires Sent1(i1, pi) && Got1(r1, pr) && Read2(i1, Some(m2)).Some? && Write2(r1, er, builder).Some?
    requires var i2 := Read2(i1, Some(m2)).value.1;
      var r2 := Write2(r1, er, builder).value.1;
      && BeforePayload3(i2).Some? && BeforeProof3(r2, m3).Some?
      && BeforePayload3(i2).value.0.h == BeforeProof3(r2, m3).value.0.h
    ensures var (proof, i2) := Read2(i1, Some(m2)).value;
      var (sent2, r2) := Write2(r1, er, builder).value;
      && m2 == sent2 && InSync2(i2, r2)
      && proof.payload == builder(proof.signedHash)
      && BeforePayload3(i2).value.0 == BeforeProof3(r2, m3).value.0
      && BeforePayload3(i2).value.1 == m3.encS
      && BeforeProof3(r2, m3).value.1 == PublicOf(i2.s)
  {
    var (proof, i2) := Read2(i1, Some(m2)).value;
    var (sent2, r2) := Write2(r1, er, builder).value;
    EqualHashMeansSameHandshake3(i2, r2, m3);
    EqualHashMeansSameHandshake2(i1, pi, m2, r1, pr, er);
    SwapDh(i2.s, r2.e.value);
  }

  /** What a successful read says about the box the proof came in. */
  lemma ProofBox2(hs: Handshake, message: Message2)
    requires Read2(hs, Some(message)).Some?
    ensures BeforeProof2(hs, message).Some?
    ensures var (sym, remote) := BeforeProof2(hs, message).value;
      var proof := Read2(hs, Some(message)).value.0;
      var box := message.encPayload;
      && box.Sealed? && sym.k == Some(box.key) && box.ad == sym.h && proof.payload == PayloadOf(box.plain)
      && proof.remote == remote && proof.signedHash == sym.h
  {}

  lemma ProofBox3(hs: Handshake, message: Message3)
    requires Read3(hs, Some(message)).Some?
    ensures BeforeProof3(hs, message).Some?
    ensures var (sym, remote) := BeforeProof3(hs, message).value;
      var proof := Read3(hs, Some(message)).value.0;
      var box := message.encPayload;
      && box.Sealed? && sym.k == Some(box.key) && box.ad == sym.h && proof.payload == PayloadOf(box.plain)
      && proof.remote == remote && proof.signedHash == sym.h
  {}

  /** Equal states before the proof and the same box leave equal states after it. */
  lemma SameProofSameState(i: Handshake, builder: Transcript -> Payload, r: Handshake, m3: Message3)
    requires Write3(i, builder).Some? && Read3(r, Some(m3)).Some?
    requires BeforePayload3(i).value.0 == BeforeProof3(r, m3).value.0
    requires Write3(i, builder).value.0.encPayload == m3.encPayload
    ensures Write3(i, builder).value.1.sym == Read3(r, Some(m3)).value.1.sym
    ensures Write3(i, builder).value.1.sym.ck == BeforePayload3(i).value.0.ck
  {
    hide BeforePayload3, BeforeProof3;
  }

  // -- secrecy ------------------------------------------------------------------------------

  /** A secret derived from the Diffie-Hellman output of this pair of key pairs. */
  predicate RestsOn(t: Term, a: KeyPair, b: KeyPair) {
    match t
    case MixedChain(ck, ikm) => ikm == Dh({a, b}) || RestsOn(ck, a, b)
    case MixedKey(ck, ikm) => ikm == Dh({a, b}) || RestsOn(ck, a, b)
    case SessionPart(ck, _, _) => RestsOn(ck, a, b)
    case _ => false
  }

  /** The attacker was handed nothing that a handshake computes on the way. */
  ghost predicate HoldsNoHandshakeTerm(att: Attacker) {
    forall t :: t in att.terms ==> !t.Dh? && !t.MixedChain? && !t.MixedKey? && !t.SessionPart?
  }

  /** What rests on two honest pairs is out of reach of anyone who has neither private half, whatever
      other key pairs and ratchet secrets they hold. */
  lemma {:induction false} RestingIsSecret(att: Attacker, t: Term, a: KeyPair, b: KeyPair)
    requires RestsOn(t, a, b) && HoldsNoHandshakeTerm(att)
    requires !KnowsPrivate(att, a) && !KnowsPrivate(att, b)
    ensures !Derivable(att, t)
  {
    assert !Derivable(att, Dh({a, b}));
    match t
    case MixedChain(ck, ikm) => if ikm != Dh({a, b}) { RestingIsSecret(att, ck, a, b); }
    case MixedKey(ck, ikm) => if ikm != Dh({a, b}) { RestingIsSecret(att, ck, a, b); }
    case SessionPart(ck, _, _) => RestingIsSecret(att, ck, a, b);
  }

  /** Every key from message 2 on rests on the two ephemerals. */
  lemma HandshakeRestsOn(i1: Handshake, m2: Message2, er: KeyPair)
    requires i1.e.Some? && m2.e == PublicOf(er) && BeforeProof2(i1, m2).Some?
    ensures var sym := BeforeProof2(i1, m2).value.0;
      && RestsOn(sym.ck, i1.e.value, er)
      && sym.k.Some? && RestsOn(sym.k.value, i1.e.value, er)
  {
    assert RestsOn(MixedChain(NAME, Dh({i1.e.value, er})), i1.e.value, er);
  }

  /** And message 3 only mixes more into the chaining key. */
  lemma LaterRestsOn(i1: Handshake, m2: Message2, er: KeyPair)
    requires Read2(i1, Some(m2)).Some? && BeforePayload3(Read2(i1, Some(m2)).value.1).Some?
    requires i1.e.Some? && RestsOn(BeforeProof2(i1, m2).value.0.ck, i1.e.value, er)
    ensures var sym := BeforePayload3(Read2(i1, Some(m2)).value.1).value.0;
      && RestsOn(sym.ck, i1.e.value, er)
      && sym.k.Some? && RestsOn(sym.k.value, i1.e.value, er)
  {
    hide BeforeProof2;
  }

  /** A proof read under a static key came in a box whose key rests on that key's own private half and the
      reader's ephemeral: whoever has neither could not have sealed it. */
  lemma Proof2RestsOnStatic(i1: Handshake, m2: Message2, att: Attacker)
    requires Read2(i1, Some(m2)).Some? && i1.e.Some?
    ensures m2.encPayload.Sealed? && Read2(i1, Some(m2)).value.0.remote.PublicOf?
    ensures var (own, theirs) := (i1.e.value, Read2(i1, Some(m2)).value.0.remote.pair);
      && RestsOn(m2.encPayload.key, own, theirs) && RestsOn(Read2(i1, Some(m2)).value.1.sym.ck, own, theirs)
      && (HoldsNoHandshakeTerm(att) && !KnowsPrivate(att, own) && !KnowsPrivate(att, theirs) ==>
            !Derivable(att, m2.encPayload.key))
  {
    hide Derivable, HoldsNoHandshakeTerm, KnowsPrivate;
    ProofBox2(i1, m2);
    var theirs := Read2(i1, Some(m2)).value.0.remote.pair;
    if HoldsNoHandshakeTerm(att) && !KnowsPrivate(att, i1.e.value) && !KnowsPrivate(att, theirs) {
      RestingIsSecret(att, m2.encPayload.key, i1.e.value, theirs);
    }
  }

  /** The same for message 3, with the responder's ephemeral and the initiator's static key. */
  lemma Proof3RestsOnStatic(r2: Handshake, m3: Message3, att: Attacker)
    requires Read3(r2, Some(m3)).Some?
    ensures r2.e.Some? && m3.encPayload.Sealed? && Read3(r2, Some(m3)).value.0.remote.PublicOf?
    ensures var (own, theirs) := (r2.e.value, Read3(r2, Some(m3)).value.0.remote.pair);
      && RestsOn(m3.encPayload.key, own, theirs) && RestsOn(Read3(r2, Some(m3)).value.1.sym.ck, own, theirs)
      && (HoldsNoHandshakeTerm(att) && !KnowsPrivate(att, own) && !KnowsPrivate(att, theirs) ==>
            !Derivable(att, m3.encPayload.key))
  {
    hide Derivable, HoldsNoHandshakeTerm, KnowsPrivate;
    ProofBox3(r2, m3);
    var theirs := Read3(r2, Some(m3)).value.0.remote.pair;
    if HoldsNoHandshakeTerm(att) && !KnowsPrivate(att, r2.e.value) && !KnowsPrivate(att, theirs) {
      RestingIsSecret(att, m3.encPayload.key, r2.e.value, theirs);
    }
  }

  /** Once message 3 is read, the chaining key rests on all three exchanges: the two ephemerals, the
      initiator's ephemeral with the responder's static key, and the responder's with the initiator's. */
  lemma FinalKeyRestsOnAll(r1: Handshake, er: KeyPair, builder: Transcript -> Payload, m3: Message3, ei: KeyPair)
    requires Write2(r1, er, builder).Some? && r1.re == Some(PublicOf(ei))
    requires Read3(Write2(r1, er, builder).value.1, Some(m3)).Some?
    ensures var (proof, r3) := Read3(Write2(r1, er, builder).value.1, Some(m3)).value;
      && RestsOn(r3.sym.ck, ei, er) && RestsOn(r3.sym.ck, ei, r1.s)
      && proof.remote.PublicOf? && RestsOn(r3.sym.ck, er, proof.remote.pair)
  {
    assert {er, ei} == {ei, er} && {r1.s, ei} == {ei, r1.s};
    var ck2 := Write2(r1, er, builder).value.1.sym.ck;
    assert ck2 == MixedChain(MixedChain(r1.sym.ck, Dh({ei, er})), Dh({ei, r1.s}));
    assert RestsOn(MixedChain(r1.sym.ck, Dh({ei, er})), ei, er);
    assert RestsOn(ck2, ei, er) && RestsOn(ck2, ei, r1.s);
  }

  /** With both ephemerals honest no key from message 2 on can be computed from outside. */
  lemma HandshakeKeysAreSecret(i1: Handshake, m2: Message2, er: KeyPair)
    requires i1.e.Some? && i1.e.value.Honest? && er.Honest? && m2.e == PublicOf(er)
    requires BeforeProof2(i1, m2).Some?
    ensures var sym := BeforeProof2(i1, m2).value.0;
      !Derivable(OUTSIDER, sym.ck) && sym.k.Some? && !Derivable(OUTSIDER, sym.k.value)
  {
    hide BeforeProof2, RestsOn;
    HandshakeRestsOn(i1, m2, er);
    var sym := BeforeProof2(i1, m2).value.0;
    RestingIsSecret(OUTSIDER, sym.ck, i1.e.value, er);
    RestingIsSecret(OUTSIDER, sym.k.value, i1.e.value, er);
  }

  /** Once message 2 was read, message 3 can be written: the same ephemeral already gave a secret. */
  lemma Message3IsWritable(hs: Handshake, message: Option<Message2>, builder: Transcript -> Payload)
    requires Read2(hs, message).Some?
    ensures Write3(Read2(hs, message).value.1, builder).Some?
  {
    assert DhTerm(hs.e.value, message.value.e).Some?;
  }

  /** A responder can answer whatever message 1 carries a usable key. */
  lemma Message2IsWritable(s: KeyPair, prologue: nat, m1: Option<Public>, draw: KeyPair, builder: Transcript -> Payload)
    ensures var hs := Read1(Start(false, s, prologue), m1);
      && (hs.None? <==> m1.None?)
      && (m1.Some? ==> (Write2(hs.value, draw, builder).Some? <==> m1.value.PublicOf?))
  {}

  /** A finished handshake never has one transport key for both directions; the first output of the split
      is the initiator's to send with. */
  lemma DirectionsDiffer(i: Handshake, builder: Transcript -> Payload, r: Handshake, m3: Message3)
    ensures Write3(i, builder).Some? ==>
      var (hs, keys) := (Write3(i, builder).value.1, TransportKeys(Write3(i, builder).value.1));
      keys.Some? && keys.value.0 != keys.value.1 && keys.value.0 == MixedChain(hs.sym.ck, EMPTY)
    ensures Read3(r, Some(m3)).Some? ==>
      var (hs, keys) := (Read3(r, Some(m3)).value.1, TransportKeys(Read3(r, Some(m3)).value.1));
      keys.Some? && keys.value.0 != keys.value.1 && keys.value.1 == MixedChain(hs.sym.ck, EMPTY)
  {
    hide BeforePayload3, BeforeProof3;
  }

  /** A keyed state opens exactly the box that an equal state would seal now, and neither seals nor opens
      once its nonces are used up. */
  lemma OpensExactly(s: Symmetric, box: Box, plain: Plain)
    requires s.k.Some?
    ensures DecryptAndHash(s, box).0 == Some(plain)
       <==> s.n <= 0xFFFF_FFFF_FFFF_FFFF && box == Sealed(s.k.value, s.n, s.h, plain)
    ensures EncryptAndHash(s, plain).0
         == if s.n <= 0xFFFF_FFFF_FFFF_FFFF then Some(Sealed(s.k.value, s.n, s.h, plain)) else None
    ensures DecryptAndHash(s, box).0 == Some(plain) ==> DecryptAndHash(s, box).1 == EncryptAndHash(s, plain).1
    ensures DecryptAndHash(s, box).0.None? ==> DecryptAndHash(s, box).1 == s
  {}

  // -- nonces -------------------------------------------------------------------------------

  /** Everything sealed in one handshake, in order. */
  function BoxesOf(m2: Message2, m3: Message3): seq<Box> {
    [m2.encS, m2.encPayload, m3.encS, m3.encPayload]
  }

  /** No key and nonce ever seal twice in a handshake, whatever message 2 an attacker made of the
      responder's: the boxes the two honest sides seal are pairwise different in key or nonce. */
  lemma NoNonceReuse(i: Handshake, pi: nat, r: Handshake, pr: nat, er: KeyPair, m2: Message2,
                     b2: Transcript -> Payload, b3: Transcript -> Payload)
    requires Sent1(i, pi) && Got1(r, pr) && Write2(r, er, b2).Some? && Read2(i, Some(m2)).Some?
    ensures Write3(Read2(i, Some(m2)).value.1, b3).Some?
    ensures var boxes := BoxesOf(Write2(r, er, b2).value.0, Write3(Read2(i, Some(m2)).value.1, b3).value.0);
      && (forall j :: 0 <= j < 4 ==> boxes[j].Sealed?)
      && forall j, k :: 0 <= j < k < 4 ==> (boxes[j].key, boxes[j].nonce) != (boxes[k].key, boxes[k].nonce)
  {
    Message3IsWritable(i, Some(m2), b3);
    var sent2 := Write2(r, er, b2).value.0;
    var m3 := Write3(Read2(i, Some(m2)).value.1, b3).value.0;
    assert sent2.encS.key.ck < sent2.encPayload.key.ck && m3.encS.key.ck < m3.encPayload.key.ck;
    assert sent2.encS.key.ck == NAME && m3.encS.nonce == 1;
  }
}
