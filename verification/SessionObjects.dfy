/** The trust store and the session manager as mutable objects. A pinned peer is one shared object:
    whoever was handed it sees later changes to it.
*/
module SessionObjects {
  import opened SymbolicCrypto
  import N = Noise
  import NoiseObjects
  import R = Ratchet
  import RO = RatchetObjects
  import S = Session

  class PeerIdentity {
    const signer: Signer
    var remote: Public
    var nickname: string
    var verified: bool
    const firstSeen: real

    function Value(): S.Peer
      reads this
    {
      S.Peer(remote, nickname, verified, firstSeen)
    }

    constructor (signer: Signer, remote: Public, nickname: string, firstSeen: real)
      ensures this.signer == signer && Value() == S.Peer(remote, nickname, false, firstSeen)
    {
      this.signer, this.remote, this.nickname, verified, this.firstSeen := signer, remote, nickname, false, firstSeen;
    }
  }

  class TrustStore {
    var peers: map<Signer, PeerIdentity>

    ghost function Peers(): set<object>
      reads this
    {
      set signer | signer in peers :: peers[signer]
    }

    /** Each peer object is filed under its own signing key, so no two entries share one. */
    ghost predicate Valid()
      reads this
    {
      forall signer :: signer in peers ==> peers[signer].signer == signer
    }

    ghost function Value(): S.Trust
      reads this, Peers()
    {
      map signer | signer in peers :: peers[signer].Value()
    }

    constructor ()
      ensures Valid() && peers == map[] && Value() == map[]
    {
      peers := map[];
    }

    /** The object handed out is the pinned one itself. */
    method Observe(signer: Signer, remote: Public, nickname: string, now: real) returns (r: PeerIdentity?)
      requires Valid()
      modifies this, Peers()
      ensures Valid() && fresh(Peers() - old(Peers()))
      ensures (if r == null then None else Some(Value())) == S.Observe(old(Value()), signer, remote, nickname, now)
      ensures r == null ==> Value() == old(Value())
      ensures r != null ==> signer in peers && r == peers[signer] && (signer in old(peers) ==> r == old(peers[signer]))
    {
      if signer !in peers {
        var peer := new PeerIdentity(signer, remote, nickname, now);
        peers := peers[signer := peer];
        assert Value() == old(Value())[signer := S.Peer(remote, nickname, false, now)];
        return peer;
      }
      var existing := peers[signer];
      if existing.remote != remote {
        return null;
      }
      if nickname != "" && nickname != existing.nickname {
        existing.nickname := nickname;
      }
      ghost var before := old(Value());
      assert Value() == if nickname != "" then before[signer := before[signer].(nickname := nickname)] else before;
      r := existing;
    }

    /** Marks the shared object: every session that holds it is now with a verified peer. */
    method MarkVerified(signer: Signer) returns (ok: bool)
      requires Valid()
      modifies Peers()
      ensures Valid() && ok == (signer in peers)
      ensures ok ==> S.MarkVerified(old(Value()), signer) == Some(Value())
      ensures !ok ==> Value() == old(Value())
    {
      if signer !in peers {
        return false;
      }
      peers[signer].verified := true;
      assert Value() == old(Value())[signer := old(Value())[signer].(verified := true)];
      ok := true;
    }

    method Repin(signer: Signer, remote: Public) returns (ok: bool)
      requires Valid()
      modifies Peers()
      ensures Valid() && ok == (signer in peers)
      ensures ok ==> S.Repin(old(Value()), signer, remote) == Some(Value())
      ensures !ok ==> Value() == old(Value())
    {
      if signer !in peers {
        return false;
      }
      peers[signer].remote := remote;
      peers[signer].verified := false;
      assert Value() == old(Value())[signer := old(Value())[signer].(remote := remote, verified := false)];
      ok := true;
    }

    method Forget(signer: Signer)
      requires Valid()
      modifies this
      ensures Valid() && Value() == old(Value()) - {signer}
    {
      peers := peers - {signer};
    }
  }

  /** An established session. Its peer is the trust store's own object. */
  class Session {
    const peer: PeerIdentity
    const ratchet: RO.DoubleRatchet
    const sendTag: Term
    const recvTag: Term
    const initiator: bool
    var messagesSent: nat
    var messagesReceived: nat

    ghost function Value(): S.Channel
      reads ratchet, ratchet.skipped
    {
      S.Channel(ratchet.Value(), sendTag, recvTag, initiator)
    }

    constructor (peer: PeerIdentity, ratchet: RO.DoubleRatchet, sendTag: Term, recvTag: Term, initiator: bool)
      ensures this.peer == peer && this.ratchet == ratchet && messagesSent == messagesReceived == 0
      ensures this.sendTag == sendTag && this.recvTag == recvTag && this.initiator == initiator
    {
      this.peer, this.ratchet, this.sendTag, this.recvTag, this.initiator := peer, ratchet, sendTag, recvTag, initiator;
      messagesSent, messagesReceived := 0, 0;
    }

    method Encrypt(plaintext: Bytes) returns (frame: Option<R.Frame>)
      modifies this, ratchet
      ensures (frame, ratchet.Value()) == R.Encrypt(old(ratchet.Value()), plaintext, [])
      ensures messagesSent == old(messagesSent) + (if frame.Some? then 1 else 0)
      ensures messagesReceived == old(messagesReceived)
    {
      frame := ratchet.Encrypt(plaintext, []);
      if frame.Some? {
        messagesSent := messagesSent + 1;
      }
    }

    /** A refused frame leaves the whole session as it was. */
    method Decrypt(header: R.Header, cipher: R.Cipher, draw: KeyPair) returns (plaintext: Option<Bytes>)
      modifies this, ratchet, ratchet.skipped
      ensures (plaintext, ratchet.Value()) == R.Decrypt(old(ratchet.Value()), header, cipher, [], draw)
      ensures plaintext.None? ==> unchanged(this) && Value() == old(Value())
      ensures messagesReceived == old(messagesReceived) + (if plaintext.Some? then 1 else 0)
      ensures messagesSent == old(messagesSent)
    {
      ghost var work;
      plaintext, work := ratchet.Decrypt(header, cipher, [], draw);
      if plaintext.Some? {
        messagesReceived := messagesReceived + 1;
      }
    }
  }

  // -- one message of a pending handshake, run on the handshake object ----------------------------

  method RunStart(s: KeyPair, draw: KeyPair) returns (message: Public, hs: N.Handshake)
    ensures (Some(message), hs) == N.Write1(N.Start(true, s, S.PROLOGUE), draw)
  {
    var o := new NoiseObjects.HandshakeState(true, s, S.PROLOGUE);
    var m := o.WriteMessage1(draw);
    message, hs := m.value, o.Value();
  }

  method RunInit(s: KeyPair, body: Option<Public>, draw: KeyPair, builder: Transcript -> Payload)
    returns (r: Option<(N.Message2, N.Handshake)>)
    ensures var read := N.Read1(N.Start(false, s, S.PROLOGUE), body);
      r == if read.None? then None else N.Write2(read.value, draw, builder)
  {
    hide N.Write2;
    var o := new NoiseObjects.HandshakeState(false, s, S.PROLOGUE);
    var ok := o.ReadMessage1(body);
    if !ok {
      return None;
    }
    var message := o.WriteMessage2(draw, builder);
    r := if message.None? then None else Some((message.value, o.Value()));
  }

  method RunRead2(hs: N.Handshake, body: Option<N.Message2>) returns (r: Option<(N.Proof, N.Handshake)>)
    requires hs.index == 1 && hs.initiator ==> hs.e.Some?
    ensures r == N.Read2(hs, body)
  {
    hide N.Read2;
    var o := new NoiseObjects.HandshakeState.Of(hs);
    var proof := o.ReadMessage2(body);
    r := if proof.None? then None else Some((proof.value, o.Value()));
  }

  method RunWrite3(hs: N.Handshake, builder: Transcript -> Payload) returns (r: Option<(N.Message3, N.Handshake)>)
    requires hs.index == 2 && hs.initiator ==> hs.re.Some?
    ensures r == N.Write3(hs, builder)
  {
    hide N.Write3;
    var o := new NoiseObjects.HandshakeState.Of(hs);
    var message := o.WriteMessage3(builder);
    r := if message.None? then None else Some((message.value, o.Value()));
  }

  method RunRead3(hs: N.Handshake, body: Option<N.Message3>) returns (r: Option<(N.Proof, N.Handshake)>)
    requires hs.index == 2 && !hs.initiator ==> hs.e.Some?
    ensures r == N.Read3(hs, body)
  {
    hide N.Read3;
    var o := new NoiseObjects.HandshakeState.Of(hs);
    var proof := o.ReadMessage3(body);
    r := if proof.None? then None else Some((proof.value, o.Value()));
  }

  /** Sessions are objects here, so `Core` leaves them out, and each method says which session object
      it filed: the entry that the function on state values adds. No other session is touched. */
  class SessionManager {
    const identity: S.Identity
    const trust: TrustStore
    var sessions: map<Signer, Session>
    var pending: map<Bytes, S.Pending>

    ghost function Core(): S.Manager
      reads this, trust, trust.Peers()
    {
      S.Manager(identity, trust.Value(), map[], pending)
    }

    /** Every session is filed under its peer's signing key. */
    ghost predicate Valid()
      reads this, trust
    {
      && trust.Valid()
      && (forall signer :: signer in sessions ==> sessions[signer].peer.signer == signer)
      && (forall id :: id in pending ==> Ready(pending[id].hs))
    }

    static predicate Ready(hs: N.Handshake) {
      && (hs.initiator && hs.index == 1 ==> hs.e.Some?)
      && (!hs.initiator && hs.index == 2 ==> hs.e.Some?)
    }

    /** `after` is what the functions arrive at: these entries, and the one session they file, if any. */
    twostate predicate Files(after: S.Manager, new session: Session?)
      reads this, session, if session == null then {} else {session.ratchet, session.ratchet.skipped}
    {
      && pending == after.pending
      && (session == null ==> sessions == old(sessions) && after.sessions == map[])
      && (session != null ==>
            && sessions == old(sessions)[session.peer.signer := session]
            && after.sessions == map[session.peer.signer := session.Value()])
    }

    /** The whole new state; a session's peer is the pinned object itself. */
    twostate predicate Reaches(after: S.Manager, new session: Session?)
      reads this, trust, trust.Peers(), session
      reads if session == null then {} else {session.ratchet, session.ratchet.skipped}
    {
      && Files(after, session) && trust.Value() == after.trust
      && (session != null ==> session.peer.signer in trust.peers && trust.peers[session.peer.signer] == session.peer)
    }

    constructor (identity: S.Identity, trust: TrustStore)
      requires trust.Valid()
      ensures Valid() && this.trust == trust && sessions == map[]
      ensures Core() == S.Manager(identity, trust.Value(), map[], map[])
    {
      this.identity, this.trust := identity, trust;
      sessions, pending := map[], map[];
    }

    method ExpirePending(now: real)
      requires Valid()
      modifies this`pending
      ensures Valid() && pending == S.Expire(old(pending), now) && trust.Value() == old(trust.Value())
      ensures forall id :: id in pending <==> id in old(pending) && now - old(pending)[id].startedAt <= 120.0
    {
      var stale := set id | id in pending && now - pending[id].startedAt > S.HANDSHAKE_TIMEOUT;
      while stale != {}
        invariant stale <= pending.Keys
        invariant S.Expire(pending, now) == S.Expire(old(pending), now)
        invariant forall id :: id in stale <==> id in pending && now - pending[id].startedAt > S.HANDSHAKE_TIMEOUT
        invariant forall id :: id in pending ==> id in old(pending) && pending[id] == old(pending)[id]
        decreases |stale|
      {
        var id :| id in stale;
        pending := pending - {id};
        stale := stale - {id};
      }
      assert pending == S.Expire(pending, now);
    }

    method StartHandshake(hsId: Bytes, draw: KeyPair, now: real) returns (message: Public)
      requires Valid()
      modifies this`pending
      ensures Valid()
      ensures message == S.StartHandshake(old(Core()), hsId, draw, now).0
      ensures Files(S.StartHandshake(old(Core()), hsId, draw, now).1, null)
    {
      hide S.Expire;
      ExpirePending(now);
      var hs;
      message, hs := RunStart(identity.s, draw);
      pending := pending[hsId := S.Pending(hs, now, None)];
    }

    method HandleInit(hsId: Bytes, body: Option<Public>, draw: KeyPair, ratchet: KeyPair, now: real)
      returns (r: Option<N.Message2>)
      requires Valid()
      modifies this`pending
      ensures Valid()
      ensures r == S.HandleInit(old(Core()), hsId, body, draw, ratchet, now).0
      ensures Files(S.HandleInit(old(Core()), hsId, body, draw, ratchet, now).1, null)
    {
      hide S.Expire, N.Read1, N.Write2, N.Start, S.Prove;
      ExpirePending(now);
      if |pending| >= S.MAX_PENDING_HANDSHAKES || hsId in pending {
        return None;
      }
      var answer := RunInit(identity.s, body, draw, S.Prove(identity, Some(PublicOf(ratchet))));
      if answer.None? {
        return None;
      }
      pending := pending[hsId := S.Pending(answer.value.1, now, Some(ratchet))];
      r := Some(answer.value.0);
    }

    method Finalise(peer: PeerIdentity, ratchet: RO.DoubleRatchet, sendTag: Term, recvTag: Term, initiator: bool)
      returns (session: Session)
      requires Valid()
      modifies this`sessions
      ensures Valid() && session.peer == peer && sessions == old(sessions)[peer.signer := session]
      ensures session.ratchet == ratchet && session.Value() == S.Channel(ratchet.Value(), sendTag, recvTag, initiator)
    {
      session := new Session(peer, ratchet, sendTag, recvTag, initiator);
      sessions := sessions[peer.signer := session];
    }

    /** Proof check and pinning happen before message 3 is written. */
    method HandleResponse(hsId: Bytes, body: Option<N.Message2>, draw: KeyPair, now: real)
      returns (r: S.Result<N.Message3>, session: Session?)
      requires Valid()
      modifies this, trust, trust.Peers()
      ensures Valid() && (session != null <==> r.Done?)
      ensures r == S.HandleResponse(old(Core()), hsId, body, draw, now).0
      ensures Reaches(S.HandleResponse(old(Core()), hsId, body, draw, now).1, session)
    {
      hide N.Read2, S.Conclude, S.Observe, S.Verifies, TrustStore.Value, TrustStore.Valid;
      session := null;
      if hsId !in pending || !pending[hsId].hs.initiator {
        return S.Ignored, null;
      }
      var p := pending[hsId];
      var read := RunRead2(p.hs, body);
      if read.None? {
        pending := pending - {hsId};
        return S.Rejected, null;
      }
      var (proof, hs) := read.value;
      pending := pending[hsId := p.(hs := hs)];
      var payload := proof.payload;
      if !payload.Identity? || payload.ratchet.None? {
        return S.Rejected, null;
      }
      if !S.Verifies(proof) {
        pending := pending - {hsId};
        return S.Rejected, null;
      }
      var peer := trust.Observe(payload.signer, proof.remote, payload.nickname, now);
      if peer == null {
        return S.Rejected, null;
      }
      r, session := Conclude(hsId, hs, proof, peer, draw);
    }

    method Conclude(hsId: Bytes, hs: N.Handshake, proof: N.Proof, peer: PeerIdentity, draw: KeyPair)
      returns (r: S.Result<N.Message3>, session: Session?)
      requires Valid() && hsId in pending && hs.initiator && hs.index == 2 && hs.re.Some?
      requires proof.payload.Identity? && proof.payload.ratchet.Some? && peer.signer == proof.payload.signer
      requires peer.signer in trust.peers && trust.peers[peer.signer] == peer
      modifies this`pending, this`sessions
      ensures Valid() && (session != null <==> r.Done?)
      ensures r == S.Conclude(old(Core()), hsId, hs, proof, draw).0
      ensures Files(S.Conclude(old(Core()), hsId, hs, proof, draw).1, session)
      ensures (session != null ==> session.peer == peer)
    {
      hide N.Write3, S.RootKeyOf, S.ForwardTag, S.BackwardTag, S.Prove, S.InitiatorChannel, R.InitSender,
           RO.DoubleRatchet.Value, TrustStore.Valid;
      session := null;
      var written := RunWrite3(hs, S.Prove(identity, None));
      if written.None? {
        return S.Rejected, null;
      }
      var (fin, done) := written.value;
      S.InitiatorChannelOf(done, proof.payload.ratchet.value, draw);
      var ratchet := RO.DoubleRatchet.InitSender(S.RootKeyOf(done), proof.payload.ratchet.value, draw);
      if ratchet == null {
        pending := pending[hsId := pending[hsId].(hs := done)];
        return S.Rejected, null;
      }
      session := Finalise(peer, ratchet, S.ForwardTag(done), S.BackwardTag(done), true);
      pending := pending - {hsId};
      r := S.Done(fin);
    }

    method HandleFin(hsId: Bytes, body: Option<N.Message3>, now: real) returns (r: S.Result<()>, session: Session?)
      requires Valid()
      modifies this, trust, trust.Peers()
      ensures Valid() && (session != null <==> r.Done?)
      ensures r == S.HandleFin(old(Core()), hsId, body, now).0
      ensures Reaches(S.HandleFin(old(Core()), hsId, body, now).1, session)
    {
      hide N.Read3, S.Complete, S.Observe, S.Verifies, TrustStore.Value, TrustStore.Valid;
      session := null;
      if hsId !in pending || pending[hsId].hs.initiator {
        return S.Ignored, null;
      }
      var p := pending[hsId];
      var read := RunRead3(p.hs, body);
      if read.None? {
        pending := pending - {hsId};
        return S.Rejected, null;
      }
      var (proof, done) := read.value;
      pending := pending[hsId := p.(hs := done)];
      var payload := proof.payload;
      if !payload.Identity? {
        return S.Rejected, null;
      }
      if !S.Verifies(proof) {
        pending := pending - {hsId};
        return S.Rejected, null;
      }
      var peer := trust.Observe(payload.signer, proof.remote, payload.nickname, now);
      if peer == null {
        return S.Rejected, null;
      }
      r, session := Complete(hsId, done, proof, peer);
    }

    method Complete(hsId: Bytes, hs: N.Handshake, proof: N.Proof, peer: PeerIdentity)
      returns (r: S.Result<()>, session: Session?)
      requires Valid() && hsId in pending
      requires proof.payload.Identity? && peer.signer == proof.payload.signer
      requires peer.signer in trust.peers && trust.peers[peer.signer] == peer
      modifies this`pending, this`sessions
      ensures Valid() && (session != null <==> r.Done?)
      ensures r == S.Complete(old(Core()), hsId, hs, proof).0
      ensures Files(S.Complete(old(Core()), hsId, hs, proof).1, session) && (session != null ==> session.peer == peer)
    {
      hide S.RootKeyOf, S.ForwardTag, S.BackwardTag, RO.DoubleRatchet.Value, TrustStore.Valid;
      session := null;
      var key := pending[hsId].ratchetPrivate;
      if key.None? {
        return S.Rejected, null;
      }
      var ratchet := RO.DoubleRatchet.InitReceiver(S.RootKeyOf(hs), key.value);
      session := Finalise(peer, ratchet, S.BackwardTag(hs), S.ForwardTag(hs), false);
      pending := pending - {hsId};
      r := S.Done(());
    }

    method Drop(signer: Signer)
      requires Valid()
      modifies this`sessions
      ensures Valid() && sessions == old(sessions) - {signer} && Core() == old(Core())
    {
      sessions := sessions - {signer};
    }
  }
}
