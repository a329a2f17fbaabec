/** Any number of honest managers and an active attacker who owns the network: it delivers whatever
    it likes, except boxes sealed under keys it cannot compute and signatures it has not seen.
*/
module SessionWorld {
  import opened SymbolicCrypto
  import opened Noise
  import opened Session
  import H = RatchetHistory
  import P = RatchetParty
  import W = RatchetWorld
  import Secrecy = RatchetSecrecy

  /** A proof that left an honest manager: a message 2 it answered with, or a message 3. */
  datatype Entry =
    | Answered(who: nat, identity: Identity, got: Handshake, er: KeyPair, ratchet: KeyPair)
    | Finished(who: nat, identity: Identity, sent: Handshake, message: Message2, draw: KeyPair)

  datatype World = World(managers: seq<Manager>, log: seq<Entry>, used: set<KeyPair>)

  datatype Move = Move(who: nat, step: Step)

  // -- what a log entry sent --------------------------------------------------------------

  function Answer(e: Entry): Option<(Message2, Handshake)>
    requires e.Answered?
  {
    Write2(e.got, e.er, Prove(e.identity, Some(PublicOf(e.ratchet))))
  }

  function Heard(e: Entry): Option<(Proof, Handshake)>
    requires e.Finished?
  {
    Read2(e.sent, Some(e.message))
  }

  function Finish(e: Entry): Option<(Message3, Handshake)>
    requires e.Finished?
  {
    if Heard(e).None? then None else Write3(Heard(e).value.1, Prove(e.identity, None))
  }

  /** The session the initiator filed when it sent message 3. */
  function FiledBy(e: Entry): Option<Channel>
    requires e.Finished?
  {
    if Finish(e).None? || !Heard(e).value.0.payload.Identity? || Heard(e).value.0.payload.ratchet.None? then None
    else InitiatorChannel(Finish(e).value.1, Heard(e).value.0.payload.ratchet.value, e.draw)
  }

  ghost predicate EntryOk(e: Entry) {
    match e
    case Answered(_, identity, got, er, ratchet) =>
      Got1(got, PROLOGUE) && got.s == identity.s && er.Honest? && ratchet.Honest? && Answer(e).Some?
    case Finished(_, identity, sent, message, draw) =>
      && Sent1(sent, PROLOGUE) && sent.s == identity.s && sent.e.value.Honest? && draw.Honest?
      && Heard(e).Some? && Verifies(Heard(e).value.0) && FiledBy(e).Some?
  }

  function SignedHash(e: Entry): Option<Transcript> {
    match e
    case Answered(_, _, got, er, _) =>
      if BeforePayload2(got, er).None? then None else Some(BeforePayload2(got, er).value.0.h)
    case Finished(_, _, _, _, _) =>
      if Heard(e).None? || BeforePayload3(Heard(e).value.1).None? then None
      else Some(BeforePayload3(Heard(e).value.1).value.0.h)
  }

  function BoxesFrom(e: Entry): set<Box> {
    match e
    case Answered(_, _, _, _, _) =>
      if Answer(e).None? then {} else {Answer(e).value.0.encS, Answer(e).value.0.encPayload}
    case Finished(_, _, _, _, _) =>
      if Finish(e).None? then {} else {Finish(e).value.0.encS, Finish(e).value.0.encPayload}
  }

  // -- the network ----------------------------------------------------------------------------

  ghost predicate HonestSigner(w: World, signer: Signer) {
    exists q :: 0 <= q < |w.managers| && w.managers[q].identity.signer == signer
  }

  /** The signature inside a box, if it is one that some signer really made. */
  function SignatureIn(box: Box): Option<(Signer, Transcript)> {
    if (box.Sealed? || box.Clear?) && box.plain.PayloadPlain?
       && box.plain.payload.Identity? && box.plain.payload.signature.Signed?
    then Some((box.plain.payload.signature.signer, box.plain.payload.signature.message))
    else None
  }

  ghost predicate Deliverable(w: World, box: Box) {
    && (box.Sealed? && !Derivable(OUTSIDER, box.key) ==> exists e :: e in w.log && box in BoxesFrom(e))
    && (SignatureIn(box).Some? && HonestSigner(w, SignatureIn(box).value.0) ==>
          exists e :: e in w.log && e.identity.signer == SignatureIn(box).value.0
                      && SignedHash(e) == Some(SignatureIn(box).value.1))
  }

  function Delivered(step: Step): set<Box> {
    match step
    case OnResponse(_, Some(message), _, _) => {message.encS, message.encPayload}
    case OnFin(_, Some(message), _) => {message.encS, message.encPayload}
    case _ => {}
  }

  function Draws(step: Step): seq<KeyPair> {
    match step
    case Begin(_, draw, _) => [draw]
    case OnInit(_, _, draw, ratchetDraw, _) => [draw, ratchetDraw]
    case OnResponse(_, _, draw, _) => [draw]
    case _ => []
  }

  ghost predicate Enabled(w: World, move: Move) {
    && move.who < |w.managers|
    && (forall d :: d in Draws(move.step) ==> d.Honest? && d !in w.used)
    && forall box :: box in Delivered(move.step) ==> Deliverable(w, box)
  }

  function Signs(who: nat, m: Manager, step: Step): Option<Entry> {
    match step
    case OnInit(hsId, first, draw, ratchetDraw, now) =>
      if HandleInit(m, hsId, first, draw, ratchetDraw, now).0.None? then None
      else Some(Answered(who, m.identity, Read1(Start(false, m.identity.s, PROLOGUE), first).value, draw, ratchetDraw))
    case OnResponse(hsId, second, draw, now) =>
      if !HandleResponse(m, hsId, second, draw, now).0.Done? then None
      else Some(Finished(who, m.identity, m.pending[hsId].hs, second.value, draw))
    case _ => None
  }

  function Act(w: World, move: Move): World
    requires move.who < |w.managers|
  {
    var m := w.managers[move.who];
    var signed := Signs(move.who, m, move.step);
    World(w.managers[move.who := Next(m, move.step)],
          if signed.None? then w.log else w.log + [signed.value],
          w.used + set d | d in Draws(move.step))
  }

  ghost predicate IsRunOf(worlds: seq<World>, moves: seq<Move>) {
    && |worlds| == |moves| + 1
    && worlds[0].log == []
    && (forall m :: m in worlds[0].managers ==> m.sessions == map[] && m.pending == map[])
    && forall k :: 0 <= k < |moves| ==> Enabled(worlds[k], moves[k]) && worlds[k + 1] == Act(worlds[k], moves[k])
  }

  // -- what every reachable world keeps ---------------------------------------------------------

  /** Answering as `e` left the pending entry `p`. */
  predicate Left(m: Manager, p: Pending, e: Entry) {
    && e.Answered? && e.identity == m.identity && Answer(e).Some?
    && p.hs == Answer(e).value.1 && p.ratchetPrivate == Some(e.ratchet)
  }

  /** This manager sent message 1 of its own handshake, with an honest ephemeral. */
  ghost predicate Begun(m: Manager, hs: Handshake) {
    Sent1(hs, PROLOGUE) && hs.s == m.identity.s && hs.e.value.Honest?
  }

  /** An unfinished entry is an honest handshake of this manager; a responder's is on the log. */
  ghost predicate PendingOk(w: World, m: Manager, p: Pending) {
    if p.hs.initiator then
      p.hs.index >= 1 && (p.hs.index == 1 ==> Begun(m, p.hs) && p.hs.e.value in w.used)
    else
      p.hs.index >= 2 && (p.hs.index == 2 ==> exists e :: e in w.log && Left(m, p, e))
  }

  ghost predicate LogOk(w: World, e: Entry) {
    && EntryOk(e) && e.who < |w.managers| && e.identity == w.managers[e.who].identity
    && (if e.Answered? then e.ratchet in w.used && e.er in w.used else e.draw in w.used && e.draw != e.sent.e.value)
  }

  /** The initiator's ratchet key pair is neither of the responder's two draws. */
  predicate DrawsApart(answered: Entry, finished: Entry)
    requires answered.Answered? && finished.Finished?
  {
    answered.ratchet != finished.draw && answered.er != finished.draw
  }

  ghost predicate WorldInv(w: World) {
    && (forall e :: e in w.log ==> LogOk(w, e))
    && (forall a, b :: a in w.log && b in w.log && a.Answered? && b.Finished? ==> DrawsApart(a, b))
    && forall q, id :: 0 <= q < |w.managers| && id in w.managers[q].pending ==>
         PendingOk(w, w.managers[q], w.managers[q].pending[id])
  }

  lemma IdentityIsFixed(m: Manager, step: Step)
    ensures Next(m, step).identity == m.identity
  {
    hide Read2, Read3, Write1, Read1, Write2, Write3, Expire, Observe, Verifies;
  }

  lemma BeginEntry(m: Manager, step: Step, id: Bytes)
    requires step.Begin? && step.draw.Honest? && id in Next(m, step).pending
    ensures var p := Next(m, step).pending[id];
      || (id in m.pending && p == m.pending[id])
      || (p.hs.initiator && p.hs.index == 1 && Begun(m, p.hs) && p.hs.e == Some(step.draw))
  {}

  /** What is logged when an init is answered is what its pending entry holds. */
  lemma InitEntry(who: nat, m: Manager, step: Step, id: Bytes)
    requires step.OnInit? && step.draw.Honest? && step.ratchetDraw.Honest?
    ensures Signs(who, m, step).Some? ==> EntryOk(Signs(who, m, step).value)
    ensures id in Next(m, step).pending && !(id in m.pending && Next(m, step).pending[id] == m.pending[id]) ==>
      && Signs(who, m, step).Some?
      && Left(m, Next(m, step).pending[id], Signs(who, m, step).value)
      && !Next(m, step).pending[id].hs.initiator && Next(m, step).pending[id].hs.index == 2
  {
    hide BeforePayload2, EncryptAndHash;
  }

  /** What is logged when a response is answered is a checked proof, and the session it filed. */
  lemma ResponseEntry(who: nat, m: Manager, step: Step)
    requires step.OnResponse? && step.draw.Honest? && Signs(who, m, step).Some?
    requires step.hsId in m.pending && Begun(m, m.pending[step.hsId].hs)
    ensures var e := Signs(who, m, step).value;
      && EntryOk(e)
      && Heard(e).value.0.payload.signer in Next(m, step).sessions
      && Next(m, step).sessions[Heard(e).value.0.payload.signer] == FiledBy(e).value
  {
    hide Read2, Write3, Observe, InitiatorChannel;
    var second := step.second;
    assert second == Some(second.value);
  }

  lemma LoggedIsOk(w: World, move: Move)
    requires WorldInv(w) && Enabled(w, move) && Signs(move.who, w.managers[move.who], move.step).Some?
    ensures var e := Signs(move.who, w.managers[move.who], move.step).value;
      && EntryOk(e) && e.who == move.who && e.identity == w.managers[move.who].identity
      && (if e.Answered? then e.ratchet in Draws(move.step) && e.er in Draws(move.step)
          else e.draw in Draws(move.step) && e.sent.e.value in w.used)
  {
    var m := w.managers[move.who];
    match move.step
    case OnInit(hsId, _, draw, ratchetDraw, _) =>
      assert draw in Draws(move.step) && ratchetDraw in Draws(move.step);
      InitEntry(move.who, m, move.step, hsId);
    case OnResponse(hsId, _, draw, _) =>
      assert draw in Draws(move.step);
      assert PendingOk(w, m, m.pending[hsId]) && m.pending[hsId].hs.index == 1;
      ResponseEntry(move.who, m, move.step);
    case _ =>
  }

  lemma EntriesStayOk(w: World, move: Move, id: Bytes)
    requires WorldInv(w) && Enabled(w, move)
    requires id in Next(w.managers[move.who], move.step).pending
    ensures PendingOk(Act(w, move), w.managers[move.who], Next(w.managers[move.who], move.step).pending[id])
  {
    var m := w.managers[move.who];
    var p := Next(m, move.step).pending[id];
    hide Next, Signs, Answer, Sent1;
    if id in m.pending { assert PendingOk(w, m, m.pending[id]); }
    match move.step
    case Begin(_, draw, _) =>
      assert draw in Draws(move.step);
      BeginEntry(m, move.step, id);
    case OnInit(_, _, draw, ratchetDraw, _) =>
      assert draw in Draws(move.step) && ratchetDraw in Draws(move.step);
      InitEntry(move.who, m, move.step, id);
    case _ => StepRoles(m, move.step, id);
  }

  lemma PendingFrame(w: World, w': World, m: Manager, m': Manager, p: Pending)
    requires PendingOk(w, m, p) && m'.identity == m.identity
    requires w.used <= w'.used && forall e :: e in w.log ==> e in w'.log
    ensures PendingOk(w', m', p)
  {
    hide Sent1, Answer;
  }

  lemma ActKeepsInv(w: World, move: Move)
    requires WorldInv(w) && Enabled(w, move)
    ensures WorldInv(Act(w, move))
  {
    hide Next, Signs, EntryOk, PendingOk;
    var m, w' := w.managers[move.who], Act(w, move);
    IdentityIsFixed(m, move.step);
    if Signs(move.who, m, move.step).Some? { LoggedIsOk(w, move); }
    forall q, id | 0 <= q < |w'.managers| && id in w'.managers[q].pending
      ensures PendingOk(w', w'.managers[q], w'.managers[q].pending[id])
    {
      if q == move.who {
        EntriesStayOk(w, move, id);
        PendingFrame(w', w', m, w'.managers[q], w'.managers[q].pending[id]);
      } else {
        PendingFrame(w, w', w.managers[q], w'.managers[q], w'.managers[q].pending[id]);
      }
    }
  }

  lemma {:induction false} RunKeepsWorldInv(worlds: seq<World>, moves: seq<Move>, k: nat)
    requires IsRunOf(worlds, moves) && k <= |moves|
    ensures WorldInv(worlds[k])
  {
    if k > 0 {
      RunKeepsWorldInv(worlds, moves, k - 1);
      hide Act, Enabled, WorldInv;
      ActKeepsInv(worlds[k - 1], moves[k - 1]);
    }
  }

  /** Every log entry is there because of an earlier step. */
  lemma {:induction false} LogIsHistory(worlds: seq<World>, moves: seq<Move>, k: nat, e: Entry) returns (j: nat)
    requires IsRunOf(worlds, moves) && k <= |moves| && e in worlds[k].log
    ensures j < k && moves[j].who < |worlds[j].managers|
    ensures Signs(moves[j].who, worlds[j].managers[moves[j].who], moves[j].step) == Some(e)
  {
    hide Signs, Next;
    var move := moves[k - 1];
    if Signs(move.who, worlds[k - 1].managers[move.who], move.step) == Some(e) {
      j := k - 1;
    } else {
      j := LogIsHistory(worlds, moves, k - 1, e);
    }
  }

  // -- both ends of one handshake ------------------------------------------------------------------

  /** The two sessions of one handshake: mirrored tag keys, and ratchets as the two-party protocol starts. */
  ghost predicate Paired(a: Channel, b: Channel) {
    && a.initiator && !b.initiator
    && a.sendTag == b.recvTag && a.recvTag == b.sendTag
    && exists w :: StartsAs(w, a, b)
  }

  /** The two-party protocol starts in these two ratchets, from a root that nothing a ratchet makes tells. */
  ghost predicate StartsAs(w: W.World, a: Channel, b: Channel) {
    W.Starts(w) && w.ini.st == a.ratchet && w.res.st == b.ratchet && Secrecy.RootIsApart(w.h)
  }

  lemma FinishingPairs(hs: Handshake, ei: KeyPair, er: KeyPair, ratchet: KeyPair, draw: KeyPair, other: Handshake)
    requires ratchet.Honest? && draw.Honest? && ei.Honest? && er.Honest?
    requires draw != ratchet && draw != ei && draw != er
    requires RestsOn(hs.sym.ck, ei, er) && other.sym == hs.sym
    ensures InitiatorChannel(hs, PublicOf(ratchet), draw).Some?
    ensures Paired(InitiatorChannel(hs, PublicOf(ratchet), draw).value, ResponderChannel(other, ratchet))
  {
    var a := InitiatorChannel(hs, PublicOf(ratchet), draw).value;
    var b := ResponderChannel(other, ratchet);
    var h := H.History(RootKeyOf(hs), [ratchet, draw], [[], []]);
    var w := W.World(h, P.Party(a.ratchet, 1, [], {}), P.Party(b.ratchet, 0, [], {}));
    HandshakeRootIsApart(h, ei, er);
    RestingIsSecret(OUTSIDER, h.shared, ei, er);
    assert StartsAs(w, a, b);
  }

  lemma HandshakeRootIsApart(h: H.History, ei: KeyPair, er: KeyPair)
    requires |h.keys| >= 2 && RestsOn(h.shared, ei, er) && ei.Honest? && er.Honest? && h.keys[1] != ei
    requires h.keys[1] != er
    ensures Secrecy.RootIsApart(h)
  {
    forall terms: set<Term> | forall t :: t in terms ==> Secrecy.RatchetMade(t)
      ensures !Derivable(Attacker(terms, {h.keys[1]}), h.shared)
    {
      RestingIsSecret(Attacker(terms, {h.keys[1]}), h.shared, ei, er);
    }
  }

  /** The box in `e` that carries a proof is sealed over the hash `e` signed; its other box carries none. */
  lemma AnswerBoxes(e: Entry, box: Box)
    requires EntryOk(e) && e.Answered? && box in BoxesFrom(e) && box.Sealed? && box.plain.PayloadPlain?
    ensures box == Answer(e).value.0.encPayload && SignedHash(e) == Some(box.ad) && EndsAsHash2(box.ad)
  {
    hide Got1, MixDh;
    HashTellsRole2(e.got, e.er, Message2(PublicOf(e.er), box, box));
  }

  lemma FinishBoxes(e: Entry, box: Box)
    requires EntryOk(e) && e.Finished? && box in BoxesFrom(e) && box.Sealed? && box.plain.PayloadPlain?
    ensures box == Finish(e).value.0.encPayload && SignedHash(e) == Some(box.ad) && EndsAsHash3(box.ad)
  {
    HashTellsRole3(e.sent, e.draw, Prove(e.identity, None), Some(e.message), Message3(box, box));
    hide Sent1, MixDh, Read2, Verifies;
  }

  /** A box under a key no outsider can compute that carries a proof was logged, over that very hash. */
  lemma SecretBoxIsLogged(w: World, box: Box) returns (e: Entry)
    requires WorldInv(w) && Deliverable(w, box)
    requires box.Sealed? && !Derivable(OUTSIDER, box.key) && box.plain.PayloadPlain?
    ensures e in w.log && EntryOk(e) && SignedHash(e) == Some(box.ad)
    ensures e.Answered? ==> box == Answer(e).value.0.encPayload && EndsAsHash2(box.ad)
    ensures e.Finished? ==> box == Finish(e).value.0.encPayload && EndsAsHash3(box.ad)
  {
    hide EntryOk, BoxesFrom, SignedHash, EndsAsHash2, EndsAsHash3, PendingOk;
    e :| e in w.log && box in BoxesFrom(e);
    assert LogOk(w, e);
    if e.Answered? { AnswerBoxes(e, box); } else { FinishBoxes(e, box); }
  }

  /** A logged message 3 and a logged message 2 whose handshakes reach the same hash are one handshake. */
  lemma MeetAt3(a: Entry, b: Entry, m3: Message3)
    requires EntryOk(a) && a.Finished? && EntryOk(b) && b.Answered?
    requires BeforeProof3(Answer(b).value.1, m3).Some?
    requires SignedHash(a) == Some(BeforeProof3(Answer(b).value.1, m3).value.0.h)
    ensures a.message == Answer(b).value.0
    ensures Heard(a).value.0.remote == PublicOf(b.identity.s)
    ensures Heard(a).value.0.payload == Prove(b.identity, Some(PublicOf(b.ratchet)))(Heard(a).value.0.signedHash)
    ensures var sym := BeforeProof3(Answer(b).value.1, m3).value.0;
      && BeforePayload3(Heard(a).value.1).value.0 == sym
      && RestsOn(sym.ck, a.sent.e.value, b.er) && sym.k.Some? && !Derivable(OUTSIDER, sym.k.value)
    ensures BeforeProof3(Answer(b).value.1, m3).value.1 == PublicOf(a.identity.s)
  {
    EqualHashMeansOneHandshake(a.sent, PROLOGUE, a.message, b.got, PROLOGUE, b.er,
                               Prove(b.identity, Some(PublicOf(b.ratchet))), m3);
    ProofBox2(a.sent, a.message);
    HandshakeRestsOn(a.sent, a.message, b.er);
    LaterRestsOn(a.sent, a.message, b.er);
    RestingIsSecret(OUTSIDER, BeforeProof3(Answer(b).value.1, m3).value.0.k.value, a.sent.e.value, b.er);
  }

  /** Message 3 proves itself: a checked signature by an honest signer was logged with a message 3. */
  lemma SignerFinished(w: World, b: Entry, m3: Message3) returns (e: Entry)
    requires WorldInv(w) && EntryOk(b) && b.Answered? && Deliverable(w, m3.encPayload)
    requires Read3(Answer(b).value.1, Some(m3)).Some?
    requires var proof := Read3(Answer(b).value.1, Some(m3)).value.0;
      Verifies(proof) && HonestSigner(w, proof.payload.signer)
    ensures e in w.log && EntryOk(e) && e.Finished?
    ensures SignedHash(e) == Some(Read3(Answer(b).value.1, Some(m3)).value.0.signedHash)
  {
    var r2 := Answer(b).value.1;
    var proof, box := Read3(r2, Some(m3)).value.0, m3.encPayload;
    ProofBox3(r2, m3);
    HashTellsRole3(b.got, b.er, Prove(b.identity, Some(PublicOf(b.ratchet))), None, m3);
    hide Answer, Read3, BeforeProof3, PendingOk, HonestSigner, BoxesFrom;
    assert SignatureIn(box) == Some((proof.payload.signer, proof.signedHash));
    e :| e in w.log && e.identity.signer == proof.payload.signer && SignedHash(e) == Some(proof.signedHash);
    assert LogOk(w, e);
    if e.Answered? { HashTellsRole2(e.got, e.er, Message2(PublicOf(e.er), box, box)); }
  }

  /** One handshake seen from both ends: message 2 arrived as answered, each side holds the other's proof
      and static key, and the responder's final state `hs` is the initiator's. */
  ghost predicate OneHandshake(a: Entry, b: Entry, proof: Proof, hs: Handshake) {
    && EntryOk(a) && a.Finished? && EntryOk(b) && b.Answered?
    && a.message == Answer(b).value.0 && proof.payload.Identity?
    && a.identity.signer == proof.payload.signer && proof.remote == PublicOf(a.identity.s)
    && Heard(a).value.0.remote == PublicOf(b.identity.s)
    && Heard(a).value.0.payload == Prove(b.identity, Some(PublicOf(b.ratchet)))(Heard(a).value.0.signedHash)
    && Finish(a).value.1.sym == hs.sym && RestsOn(hs.sym.ck, a.sent.e.value, b.er)
  }

  /** A responder that reads a checked proof under an honest signer's name shares one handshake with a
      manager of that name, which finished it believing it talked to this responder. */
  lemma AnswerMeetsFinish(w: World, b: Entry, m3: Message3) returns (a: Entry)
    requires WorldInv(w) && EntryOk(b) && b.Answered? && Deliverable(w, m3.encPayload)
    requires Read3(Answer(b).value.1, Some(m3)).Some?
    requires var proof := Read3(Answer(b).value.1, Some(m3)).value.0;
      Verifies(proof) && HonestSigner(w, proof.payload.signer)
    ensures a in w.log
    ensures var (proof, hs) := Read3(Answer(b).value.1, Some(m3)).value; OneHandshake(a, b, proof, hs)
  {
    var r2 := Answer(b).value.1;
    ProofBox3(r2, m3);
    HashTellsRole3(b.got, b.er, Prove(b.identity, Some(PublicOf(b.ratchet))), None, m3);
    var e := SignerFinished(w, b, m3);
    MeetAt3(e, b, m3);
    a := SecretBoxIsLogged(w, m3.encPayload);
    MeetAt3(a, b, m3);
    SameProofSameState(Heard(a).value.1, Prove(a.identity, None), r2, m3);
    hide WorldInv, Deliverable, Read3, BeforeProof3, BeforePayload3, Derivable, Answer, Read2, Got1, Sent1;
  }

  lemma FinFiles(m: Manager, step: Step)
    requires step.OnFin? && HandleFin(m, step.hsId, step.third, step.now).0.Done?
    ensures ProofOf(m, step).Some? && Verifies(ProofOf(m, step).value.0) && step.third.Some?
    ensures var (proof, hs) := ProofOf(m, step).value;
      && m.pending[step.hsId].ratchetPrivate.Some?
      && m.pending[step.hsId].hs.index == 2 && !m.pending[step.hsId].hs.initiator
      && proof.payload.signer in Next(m, step).sessions
      && Next(m, step).sessions[proof.payload.signer] == ResponderChannel(hs, m.pending[step.hsId].ratchetPrivate.value)
  {
    hide BeforeProof3, DecryptAndHash, Observe, ResponderChannel;
  }

  lemma FinishFiled(w: World, move: Move, e: Entry)
    requires WorldInv(w) && Enabled(w, move) && e.Finished?
    requires Signs(move.who, w.managers[move.who], move.step) == Some(e)
    ensures var a := Act(w, move).managers[move.who];
      && a.identity == e.identity && EntryOk(e)
      && Heard(e).value.0.payload.signer in a.sessions
      && a.sessions[Heard(e).value.0.payload.signer] == FiledBy(e).value
  {
    var m := w.managers[move.who];
    LoggedIsOk(w, move);
    assert PendingOk(w, m, m.pending[move.step.hsId]);
    assert move.step.draw in Draws(move.step);
    ResponseEntry(move.who, m, move.step);
    IdentityIsFixed(m, move.step);
  }

  /** The responder's finishing step, seen in one world. */
  ghost predicate Completes(w: World, move: Move) {
    && move.who < |w.managers| && move.step.OnFin?
    && var m := w.managers[move.who];
    && HandleFin(m, move.step.hsId, move.step.third, move.step.now).0.Done?
    && ProofOf(m, move.step).Some? && ProofOf(m, move.step).value.0.payload.Identity?
    && HonestSigner(w, ProofOf(m, move.step).value.0.payload.signer)
  }

  /** The ephemeral of the handshake a responder completes. */
  function EphemeralOf(w: World, move: Move): Option<KeyPair>
    requires move.who < |w.managers| && move.step.OnFin?
  {
    var pending := w.managers[move.who].pending;
    if move.step.hsId in pending then pending[move.step.hsId].hs.e else None
  }

  lemma OneHandshakePairs(a: Entry, b: Entry, proof: Proof, hs: Handshake)
    requires OneHandshake(a, b, proof, hs) && DrawsApart(b, a) && a.draw != a.sent.e.value
    ensures Heard(a).value.0.payload.signer == b.identity.signer
    ensures Paired(FiledBy(a).value, ResponderChannel(hs, b.ratchet))
  {
    hide Read2, Write2, Write3, Got1, Paired, Verifies, RestsOn;
    FinishingPairs(Finish(a).value.1, a.sent.e.value, b.er, b.ratchet, a.draw, hs);
  }

  lemma FinPairs(w: World, move: Move) returns (a: Entry)
    requires WorldInv(w) && Enabled(w, move) && Completes(w, move)
    ensures var m := w.managers[move.who];
      var signer := ProofOf(m, move.step).value.0.payload.signer;
      && a in w.log && a.Finished? && EntryOk(a)
      && a.identity.signer == signer && Heard(a).value.0.payload.signer == m.identity.signer
      && EphemeralOf(w, move).Some? && a.message.e == PublicOf(EphemeralOf(w, move).value)
      && signer in Next(m, move.step).sessions
      && Paired(FiledBy(a).value, Next(m, move.step).sessions[signer])
  {
    hide WorldInv, PendingOk, Next, HandleFin, Deliverable, HonestSigner, Paired, Verifies, Read2, Read3, Write2;
    hide FiledBy, EntryOk;
    var m, step := w.managers[move.who], move.step;
    FinFiles(m, step);
    var (proof, hs) := ProofOf(m, step).value;
    var b := AnswerBehind(w, move);
    assert step.third.value.encPayload in Delivered(step);
    a := AnswerMeetsFinish(w, b, step.third.value);
    LoggedDraws(w, b, a);
    OneHandshakePairs(a, b, proof, hs);
  }

  /** The logged message 2 whose answer this final message completes. */
  lemma AnswerBehind(w: World, move: Move) returns (b: Entry)
    requires WorldInv(w) && move.who < |w.managers| && move.step.OnFin?
    requires move.step.hsId in w.managers[move.who].pending
    requires var p := w.managers[move.who].pending[move.step.hsId]; !p.hs.initiator && p.hs.index == 2
    ensures b in w.log && EntryOk(b) && Left(w.managers[move.who], w.managers[move.who].pending[move.step.hsId], b)
    ensures EphemeralOf(w, move) == Some(b.er) && Answer(b).value.0.e == PublicOf(b.er)
  {
    hide EntryOk, BeforePayload2;
    var m := w.managers[move.who];
    var p := m.pending[move.step.hsId];
    assert PendingOk(w, m, p);
    b :| b in w.log && Left(m, p, b);
    assert LogOk(w, b);
  }

  lemma LoggedDraws(w: World, b: Entry, a: Entry)
    requires WorldInv(w) && b in w.log && a in w.log && b.Answered? && a.Finished?
    ensures DrawsApart(b, a) && EntryOk(a) && a.draw != a.sent.e.value
  {
    hide EntryOk, PendingOk, DrawsApart;
    assert LogOk(w, a);
  }

  /** Step `j` completed, as initiator, the handshake that step `k` completes as responder: it read the
      message 2 made with that very ephemeral, each side is filed under the other's name, and the two
      sessions pair up. */
  ghost predicate Agree(worlds: seq<World>, moves: seq<Move>, j: nat, k: nat)
    requires |worlds| == |moves| + 1 && k < |moves| && Completes(worlds[k], moves[k])
  {
    && j < k && moves[j].who < |worlds[j + 1].managers| && moves[k].who < |worlds[k + 1].managers|
    && moves[j].step.OnResponse? && moves[j].step.second.Some?
    && EphemeralOf(worlds[k], moves[k]).Some?
    && moves[j].step.second.value.e == PublicOf(EphemeralOf(worlds[k], moves[k]).value)
    && var a, b := worlds[j + 1].managers[moves[j].who], worlds[k + 1].managers[moves[k].who];
    && a.identity.signer == ProofOf(worlds[k].managers[moves[k].who], moves[k].step).value.0.payload.signer
    && b.identity.signer in a.sessions && a.identity.signer in b.sessions
    && Paired(a.sessions[b.identity.signer], b.sessions[a.identity.signer])
  }

  lemma SignsWhatItRead(who: nat, m: Manager, step: Step, e: Entry)
    requires Signs(who, m, step) == Some(e) && e.Finished?
    ensures step.OnResponse? && step.second == Some(e.message)
    ensures Heard(e).Some? && Files(m, step, Heard(e).value.0.payload.signer)
  {
    hide BeforeProof2, Write3, Observe, Verifies, InitiatorChannel;
  }

  /** Whenever a responder completes a handshake under an honest manager's name, that manager completed
      the same handshake earlier, filed its session under the responder's name, and the two sessions
      pair up: mirrored tag keys, and ratchets that start the two-party protocol. */
  lemma BothEndsFinish(worlds: seq<World>, moves: seq<Move>, k: nat) returns (j: nat)
    requires IsRunOf(worlds, moves) && k < |moves| && Completes(worlds[k], moves[k])
    ensures Agree(worlds, moves, j, k)
    ensures moves[j].who < |worlds[j].managers|
    ensures Files(worlds[j].managers[moves[j].who], moves[j].step, worlds[k].managers[moves[k].who].identity.signer)
  {
    hide WorldInv, Enabled, Next, Signs, HandleFin, EntryOk, Heard, FiledBy, Paired, HonestSigner, ProofOf;
    RunKeepsWorldInv(worlds, moves, k);
    IdentityIsFixed(worlds[k].managers[moves[k].who], moves[k].step);
    var e := FinPairs(worlds[k], moves[k]);
    j := LogIsHistory(worlds, moves, k, e);
    SignsWhatItRead(moves[j].who, worlds[j].managers[moves[j].who], moves[j].step, e);
    RunKeepsWorldInv(worlds, moves, j);
    FinishFiled(worlds[j], moves[j], e);
  }

  // -- one completion each ----------------------------------------------------------------------------

  /** This handshake waits for the message that completes its side: 2 at an initiator, 3 at a responder. */
  predicate Awaits(hs: Handshake) {
    hs.index == if hs.initiator then 1 else 2
  }

  /** Entry `id` of manager `q` waits for the message that completes it. */
  predicate Waiting(w: World, q: nat, id: Bytes) {
    q < |w.managers| && id in w.managers[q].pending && Awaits(w.managers[q].pending[id].hs)
  }

  function WaitsWith(w: World, q: nat, id: Bytes): Option<KeyPair>
    requires Waiting(w, q, id)
  {
    w.managers[q].pending[id].hs.e
  }

  /** No two waiting entries share an ephemeral. */
  ghost predicate OnePerEphemeral(w: World) {
    forall q, id, q', id' ::
      Waiting(w, q, id) && Waiting(w, q', id') && WaitsWith(w, q, id) == WaitsWith(w, q', id') ==> q == q' && id == id'
  }

  /** This ephemeral was drawn and no entry waits with it any more. */
  ghost predicate Spent(w: World, e: KeyPair) {
    e in w.used && forall q, id :: Waiting(w, q, id) ==> WaitsWith(w, q, id) != Some(e)
  }

  lemma WaitsWithUsed(w: World, q: nat, id: Bytes)
    requires WorldInv(w) && Waiting(w, q, id)
    ensures WaitsWith(w, q, id).Some? && WaitsWith(w, q, id).value in w.used
  {
    hide EntryOk, BeforePayload2;
    var m := w.managers[q];
    assert PendingOk(w, m, m.pending[id]);
    if !m.pending[id].hs.initiator {
      var e :| e in w.log && Left(m, m.pending[id], e);
      assert LogOk(w, e);
    }
  }

  /** Starting a handshake and answering an init are the only ways to start waiting, and both do so
      with their own draw. */
  lemma WaitingIsOldOrDrawn(m: Manager, step: Step, id: Bytes)
    requires id in Next(m, step).pending && Awaits(Next(m, step).pending[id].hs)
    requires id in m.pending ==> m.pending[id].hs.index >= if m.pending[id].hs.initiator then 1 else 2
    ensures var p := Next(m, step).pending[id];
      || (id in m.pending && p == m.pending[id])
      || ((step.Begin? || step.OnInit?) && id == step.hsId && p.hs.e == Some(step.draw))
  {
    hide Next, Signs;
    StepRoles(m, step, id);
    if step.Begin? { BeginDraws(m, step, id); }
    if step.OnInit? { InitDraws(m, step, id); }
  }

  lemma BeginDraws(m: Manager, step: Step, id: Bytes)
    requires step.Begin? && id in Next(m, step).pending
    ensures var p := Next(m, step).pending[id];
      || (id in m.pending && p == m.pending[id])
      || (id == step.hsId && p.hs.e == Some(step.draw))
  {}

  lemma InitDraws(m: Manager, step: Step, id: Bytes)
    requires step.OnInit? && id in Next(m, step).pending
    ensures var p := Next(m, step).pending[id];
      || (id in m.pending && p == m.pending[id])
      || (id == step.hsId && p.hs.e == Some(step.draw))
  {
    hide BeforePayload2, EncryptAndHash;
  }

  lemma MoveWaits(w: World, move: Move, q: nat, id: Bytes)
    requires WorldInv(w) && Enabled(w, move) && Waiting(Act(w, move), q, id)
    ensures var e := WaitsWith(Act(w, move), q, id);
      || (Waiting(w, q, id) && WaitsWith(w, q, id) == e)
      || (q == move.who && (move.step.Begin? || move.step.OnInit?) && id == move.step.hsId
          && e == Some(move.step.draw) && e.value !in w.used)
  {
    hide Next, Signs, EntryOk, Left;
    if q == move.who {
      var m := w.managers[q];
      if id in m.pending { assert PendingOk(w, m, m.pending[id]); }
      WaitingIsOldOrDrawn(m, move.step, id);
      if move.step.Begin? || move.step.OnInit? { assert move.step.draw in Draws(move.step); }
    }
  }

  lemma ActKeepsOnePerEphemeral(w: World, move: Move)
    requires WorldInv(w) && OnePerEphemeral(w) && Enabled(w, move)
    ensures OnePerEphemeral(Act(w, move))
  {
    hide WorldInv, Deliverable, Next, Signs, Waiting, WaitsWith;
    var w' := Act(w, move);
    forall q, id, q', id' | Waiting(w', q, id) && Waiting(w', q', id') && WaitsWith(w', q, id) == WaitsWith(w', q', id')
      ensures q == q' && id == id'
    {
      MoveWaits(w, move, q, id);
      MoveWaits(w, move, q', id');
      if Waiting(w, q, id) { WaitsWithUsed(w, q, id); }
      if Waiting(w, q', id') { WaitsWithUsed(w, q', id'); }
    }
  }

  lemma {:induction false} RunKeepsOnePerEphemeral(worlds: seq<World>, moves: seq<Move>, k: nat)
    requires IsRunOf(worlds, moves) && k <= |moves|
    ensures OnePerEphemeral(worlds[k])
  {
    hide Act, Enabled, OnePerEphemeral, WorldInv;
    if k == 0 {
      NobodyWaitsAtFirst(worlds, moves);
    } else {
      RunKeepsOnePerEphemeral(worlds, moves, k - 1);
      RunKeepsWorldInv(worlds, moves, k - 1);
      ActKeepsOnePerEphemeral(worlds[k - 1], moves[k - 1]);
    }
  }

  lemma NobodyWaitsAtFirst(worlds: seq<World>, moves: seq<Move>)
    requires IsRunOf(worlds, moves)
    ensures OnePerEphemeral(worlds[0])
  {
    hide Act, Enabled;
  }

  lemma ActKeepsSpent(w: World, move: Move, e: KeyPair)
    requires WorldInv(w) && Enabled(w, move) && Spent(w, e)
    ensures Spent(Act(w, move), e)
  {
    hide WorldInv, Deliverable, Waiting, WaitsWith, Next, Signs;
    var w' := Act(w, move);
    forall q, id | Waiting(w', q, id) ensures WaitsWith(w', q, id) != Some(e) {
      MoveWaits(w, move, q, id);
    }
  }

  lemma {:induction false} SpentStays(worlds: seq<World>, moves: seq<Move>, j: nat, k: nat, e: KeyPair)
    requires IsRunOf(worlds, moves) && j <= k <= |moves| && Spent(worlds[j], e)
    ensures Spent(worlds[k], e)
    decreases k
  {
    hide Act, Enabled, Spent, WorldInv;
    if j < k {
      SpentStays(worlds, moves, j, k - 1, e);
      RunKeepsWorldInv(worlds, moves, k - 1);
      ActKeepsSpent(worlds[k - 1], moves[k - 1], e);
    }
  }

  lemma FinRemoves(m: Manager, step: Step)
    requires step.OnFin? && HandleFin(m, step.hsId, step.third, step.now).0.Done?
    ensures step.hsId in m.pending && !m.pending[step.hsId].hs.initiator && m.pending[step.hsId].hs.index == 2
    ensures step.hsId !in Next(m, step).pending
  {
    hide BeforeProof3, DecryptAndHash, Observe, ResponderChannel, Verifies;
  }

  /** Completing spends the ephemeral. */
  lemma CompletingSpends(w: World, move: Move)
    requires WorldInv(w) && OnePerEphemeral(w) && Enabled(w, move) && Completes(w, move)
    ensures Waiting(w, move.who, move.step.hsId) && EphemeralOf(w, move) == WaitsWith(w, move.who, move.step.hsId)
    ensures EphemeralOf(w, move).Some? && Spent(Act(w, move), EphemeralOf(w, move).value)
  {
    hide WorldInv, Enabled, Next, Signs, HandleFin, ProofOf, HonestSigner;
    FinRemoves(w.managers[move.who], move.step);
    WaitsWithUsed(w, move.who, move.step.hsId);
    var w' := Act(w, move);
    forall q, id | Waiting(w', q, id) ensures WaitsWith(w', q, id) != EphemeralOf(w, move) {
      MoveWaits(w, move, q, id);
    }
  }

  /** Agreement is one to one: two completions of responders never rest on the same completion of an
      initiator, however messages are replayed. */
  lemma AgreementIsInjective(worlds: seq<World>, moves: seq<Move>, j: nat, k: nat, k': nat)
    requires IsRunOf(worlds, moves) && k < |moves| && k' < |moves|
    requires Completes(worlds[k], moves[k]) && Completes(worlds[k'], moves[k'])
    requires Agree(worlds, moves, j, k) && Agree(worlds, moves, j, k')
    ensures k == k'
  {
    hide HandleFin, ProofOf, HonestSigner, Paired, Act, Enabled;
    if k < k' { LaterCompletionDiffers(worlds, moves, k, k'); }
    if k' < k { LaterCompletionDiffers(worlds, moves, k', k); }
  }

  lemma LaterCompletionDiffers(worlds: seq<World>, moves: seq<Move>, k: nat, k': nat)
    requires IsRunOf(worlds, moves) && k < k' < |moves|
    requires Completes(worlds[k], moves[k]) && Completes(worlds[k'], moves[k'])
    ensures EphemeralOf(worlds[k], moves[k]) != EphemeralOf(worlds[k'], moves[k'])
  {
    hide WorldInv, Enabled, Act, HandleFin, ProofOf, HonestSigner, OnePerEphemeral;
    RunKeepsWorldInv(worlds, moves, k);
    RunKeepsOnePerEphemeral(worlds, moves, k);
    CompletingSpends(worlds[k], moves[k]);
    SpentStays(worlds, moves, k + 1, k', EphemeralOf(worlds[k], moves[k]).value);
    RunKeepsWorldInv(worlds, moves, k');
    RunKeepsOnePerEphemeral(worlds, moves, k');
    CompletingSpends(worlds[k'], moves[k']);
  }

  // -- the initiator's view -------------------------------------------------------------------------

  lemma SignerAnswered(w: World, sent: Handshake, m2: Message2) returns (e: Entry)
    requires WorldInv(w) && Deliverable(w, m2.encPayload) && Read2(sent, Some(m2)).Some?
    requires var proof := Read2(sent, Some(m2)).value.0; Verifies(proof) && HonestSigner(w, proof.payload.signer)
    ensures e in w.log && EntryOk(e) && e.Answered?
    ensures SignedHash(e) == Some(Read2(sent, Some(m2)).value.0.signedHash)
  {
    var proof, box := Read2(sent, Some(m2)).value.0, m2.encPayload;
    ProofBox2(sent, m2);
    HashTellsRole2(sent, sent.s, m2);
    hide Read2, BeforeProof2, PendingOk, HonestSigner, BoxesFrom;
    assert SignatureIn(box) == Some((proof.payload.signer, proof.signedHash));
    e :| e in w.log && e.identity.signer == proof.payload.signer && SignedHash(e) == Some(proof.signedHash);
    assert LogOk(w, e);
    if e.Finished? { HashTellsRole3(e.sent, e.draw, Prove(e.identity, None), Some(e.message), Message3(box, box)); }
  }

  /** A logged message 2 whose handshake reaches the hash this initiator checks is its own handshake. */
  lemma MeetAt2(sent: Handshake, b: Entry, m2: Message2)
    requires Sent1(sent, PROLOGUE) && sent.e.value.Honest? && EntryOk(b) && b.Answered?
    requires BeforeProof2(sent, m2).Some? && SignedHash(b) == Some(BeforeProof2(sent, m2).value.0.h)
    ensures InSync1(sent, b.got)
    ensures BeforeProof2(sent, m2).value == (BeforePayload2(b.got, b.er).value.0, PublicOf(b.identity.s))
    ensures m2.e == PublicOf(b.er) && m2.encS == BeforePayload2(b.got, b.er).value.1
    ensures var sym := BeforeProof2(sent, m2).value.0;
      !Derivable(OUTSIDER, sym.ck) && sym.k.Some? && !Derivable(OUTSIDER, sym.k.value)
  {
    EqualHashMeansSameHandshake2(sent, PROLOGUE, m2, b.got, PROLOGUE, b.er);
    HandshakeKeysAreSecret(sent, m2, b.er);
  }

  lemma ReadWhatWasAnswered(sent: Handshake, b: Entry, m2: Message2)
    requires Sent1(sent, PROLOGUE) && sent.e.value.Honest? && EntryOk(b) && b.Answered?
    requires Read2(sent, Some(m2)).Some? && BeforeProof2(sent, m2).Some?
    requires SignedHash(b) == Some(BeforeProof2(sent, m2).value.0.h) && m2.encPayload == Answer(b).value.0.encPayload
    ensures m2 == Answer(b).value.0 && InSync2(Read2(sent, Some(m2)).value.1, Answer(b).value.1)
    ensures var proof := Read2(sent, Some(m2)).value.0;
      && proof.remote == PublicOf(b.identity.s)
      && proof.payload == Prove(b.identity, Some(PublicOf(b.ratchet)))(proof.signedHash)
  {
    MeetAt2(sent, b, m2);
    Message2Agrees(sent, b.got, b.er, Prove(b.identity, Some(PublicOf(b.ratchet))));
    hide BeforeProof2, BeforePayload2, Derivable, InSync2, Read2;
  }

  /** An initiator that accepts a proof under an honest signer's name read, unchanged, the message 2 a
      manager of that name sent it: the static key, the ratchet key and the key schedule are that manager's. */
  lemma ResponseMeansAnswer(w: World, move: Move) returns (b: Entry)
    requires WorldInv(w) && Enabled(w, move) && move.step.OnResponse?
    requires ProofOf(w.managers[move.who], move.step).Some?
    requires var proof := ProofOf(w.managers[move.who], move.step).value.0;
      Verifies(proof) && HonestSigner(w, proof.payload.signer)
    ensures var (proof, hs) := ProofOf(w.managers[move.who], move.step).value;
      && b in w.log && b.Answered? && EntryOk(b)
      && move.step.second == Some(Answer(b).value.0) && InSync2(hs, Answer(b).value.1)
      && proof.remote == PublicOf(b.identity.s)
      && proof.payload == Prove(b.identity, Some(PublicOf(b.ratchet)))(proof.signedHash)
  {
    var sent, m2 := w.managers[move.who].pending[move.step.hsId].hs, move.step.second.value;
    assert PendingOk(w, w.managers[move.who], w.managers[move.who].pending[move.step.hsId]);
    assert m2.encPayload in Delivered(move.step);
    ProofBox2(sent, m2);
    var e := SignerAnswered(w, sent, m2);
    MeetAt2(sent, e, m2);
    b := SecretBoxIsLogged(w, m2.encPayload);
    HashTellsRole2(sent, sent.s, m2);
    hide WorldInv, Deliverable, BeforeProof2, BeforePayload2, Read2, Write2, Derivable;
    ReadWhatWasAnswered(sent, b, m2);
  }

  // -- an undisturbed handshake completes ---------------------------------------------------------------

  /** No other static key is pinned for that signer. */
  predicate PinAllows(trust: Trust, peer: Identity) {
    peer.signer in trust ==> trust[peer.signer].remote == PublicOf(peer.s)
  }

  /** The clock readings at which the four messages of a handshake are handled. */
  datatype Times = Times(start: real, init: real, response: real, fin: real)

  /** The four handlers in turn, each message delivered as it was sent, at any four clock readings. */
  function Undisturbed(a: Manager, b: Manager, hsId: Bytes, e: KeyPair, er: KeyPair, ratchet: KeyPair, draw: KeyPair,
                       at: Times)
    : Option<(Manager, Manager)>
  {
    var (m1, a1) := StartHandshake(a, hsId, e, at.start);
    var (m2, b1) := HandleInit(b, hsId, Some(m1), er, ratchet, at.init);
    if m2.None? then None
    else
      var (r3, a2) := HandleResponse(a1, hsId, m2, draw, at.response);
      if !r3.Done? then None
      else
        var (r4, b2) := HandleFin(b1, hsId, Some(r3.value), at.fin);
        if r4.Done? then Some((a2, b2)) else None
  }

  /** The two handshake states of an undisturbed run, with every message and proof on the way. */
  lemma UndisturbedStates(a: Identity, b: Identity, e: KeyPair, er: KeyPair, ratchet: KeyPair)
    returns (i1: Handshake, r1: Handshake, m2: Message2, r2: Handshake, p2: Proof, i2: Handshake,
             m3: Message3, i3: Handshake, p3: Proof, r3: Handshake)
    requires e.Honest? && er.Honest?
    ensures Write1(Start(true, a.s, PROLOGUE), e) == (Some(PublicOf(e)), i1)
    ensures Read1(Start(false, b.s, PROLOGUE), Some(PublicOf(e))) == Some(r1)
    ensures Write2(r1, er, Prove(b, Some(PublicOf(ratchet)))) == Some((m2, r2))
    ensures Read2(i1, Some(m2)) == Some((p2, i2))
    ensures p2.remote == PublicOf(b.s) && p2.payload == Prove(b, Some(PublicOf(ratchet)))(p2.signedHash)
    ensures Write3(i2, Prove(a, None)) == Some((m3, i3))
    ensures Read3(r2, Some(m3)) == Some((p3, r3))
    ensures p3.remote == PublicOf(a.s) && p3.payload == Prove(a, None)(p3.signedHash)
    ensures i3.sym == r3.sym && RestsOn(i3.sym.ck, e, er)
  {
    i1 := Write1(Start(true, a.s, PROLOGUE), e).1;
    r1 := Read1(Start(false, b.s, PROLOGUE), Some(PublicOf(e))).value;
    Message2Agrees(i1, r1, er, Prove(b, Some(PublicOf(ratchet))));
    var written := Write2(r1, er, Prove(b, Some(PublicOf(ratchet)))).value;
    m2, r2 := written.0, written.1;
    p2, i2 := Read2(i1, Some(m2)).value.0, Read2(i1, Some(m2)).value.1;
    Message3Agrees(i2, r2, Prove(a, None));
    m3, i3 := Write3(i2, Prove(a, None)).value.0, Write3(i2, Prove(a, None)).value.1;
    p3, r3 := Read3(r2, Some(m3)).value.0, Read3(r2, Some(m3)).value.1;
    HandshakeRestsOn(i1, m2, er);
    LaterRestsOn(i1, m2, er);
  }

  /** The pinned peer is the one of the proof, under the nickname it gave. */
  predicate Shows(peer: Peer, proof: Proof) {
    && peer.remote == proof.remote && proof.payload.Identity?
    && (proof.payload.nickname != "" ==> peer.nickname == proof.payload.nickname)
  }

  lemma InitiatorFiles(m: Manager, hsId: Bytes, m2: Message2, draw: KeyPair, now: real, p2: Proof, i2: Handshake,
                       m3: Message3, i3: Handshake, channel: Channel)
    requires hsId in m.pending && m.pending[hsId].hs.initiator && Read2(m.pending[hsId].hs, Some(m2)) == Some((p2, i2))
    requires Verifies(p2) && p2.payload.ratchet.Some? && Write3(i2, Prove(m.identity, None)) == Some((m3, i3))
    requires InitiatorChannel(i3, p2.payload.ratchet.value, draw) == Some(channel)
    ensures var (r, m') := HandleResponse(m, hsId, Some(m2), draw, now);
      if p2.payload.signer in m.trust && m.trust[p2.payload.signer].remote != p2.remote
      then r == Rejected && hsId in m'.pending
      else
        && r == Done(m3) && m'.pending == m.pending - {hsId}
        && p2.payload.signer in m'.sessions && m'.sessions[p2.payload.signer] == channel
        && p2.payload.signer in m'.trust && Shows(m'.trust[p2.payload.signer], p2)
  {
    hide Read2, Write3, InitiatorChannel, Observe;
    if !(p2.payload.signer in m.trust && m.trust[p2.payload.signer].remote != p2.remote) {
      ObserveRecords(m.trust, p2.payload.signer, p2.remote, p2.payload.nickname, now, p2.payload.signer);
    }
  }

  lemma ResponderFiles(m: Manager, hsId: Bytes, m3: Message3, now: real, p3: Proof, r3: Handshake, ratchet: KeyPair)
    requires hsId in m.pending && !m.pending[hsId].hs.initiator && m.pending[hsId].ratchetPrivate == Some(ratchet)
    requires Read3(m.pending[hsId].hs, Some(m3)) == Some((p3, r3)) && Verifies(p3)
    ensures var (r, m') := HandleFin(m, hsId, Some(m3), now);
      if p3.payload.signer in m.trust && m.trust[p3.payload.signer].remote != p3.remote
      then r == Rejected && hsId in m'.pending
      else
        && r == Done(()) && hsId !in m'.pending
        && p3.payload.signer in m'.sessions && m'.sessions[p3.payload.signer] == ResponderChannel(r3, ratchet)
        && p3.payload.signer in m'.trust && Shows(m'.trust[p3.payload.signer], p3)
  {
    hide Read3, ResponderChannel, Observe;
    if !(p3.payload.signer in m.trust && m.trust[p3.payload.signer].remote != p3.remote) {
      ObserveRecords(m.trust, p3.payload.signer, p3.remote, p3.payload.nickname, now, p3.payload.signer);
    }
  }

  /** The peer is pinned with its static key, and called what it calls itself. */
  predicate Knows(trust: Trust, peer: Identity) {
    && peer.signer in trust && trust[peer.signer].remote == PublicOf(peer.s)
    && (peer.nickname != "" ==> trust[peer.signer].nickname == peer.nickname)
  }

  /** In an undisturbed run each side refuses exactly when it has another static key pinned for the other,
      and exactly then leaves its entry behind; a side that completes removes it and knows the other. */
  lemma UndisturbedSteps(a: Manager, b: Manager, hsId: Bytes, e: KeyPair, er: KeyPair, ratchet: KeyPair,
                         draw: KeyPair, at: Times)
    requires e.Honest? && er.Honest? && ratchet.Honest? && draw.Honest? && draw !in {e, er, ratchet}
    requires |Alive(b.pending, at.init)| < MAX_PENDING_HANDSHAKES && hsId !in Alive(b.pending, at.init)
    ensures var (m1, a1) := StartHandshake(a, hsId, e, at.start);
      var (m2, b1) := HandleInit(b, hsId, Some(m1), er, ratchet, at.init);
      var (r3, a2) := HandleResponse(a1, hsId, m2, draw, at.response);
      && m2.Some? && (if PinAllows(a.trust, b.identity) then r3.Done? else r3 == Rejected)
      && (hsId in a2.pending <==> r3 == Rejected)
      && (r3.Done? ==>
            var (r4, b2) := HandleFin(b1, hsId, Some(r3.value), at.fin);
            && (if PinAllows(b.trust, a.identity) then r4.Done? else r4 == Rejected)
            && (hsId in b2.pending <==> r4 == Rejected)
            && (r4.Done? ==>
                  && Knows(a2.trust, b.identity) && Knows(b2.trust, a.identity)
                  && b.identity.signer in a2.sessions && a.identity.signer in b2.sessions
                  && Paired(a2.sessions[b.identity.signer], b2.sessions[a.identity.signer])))
  {
    hide Read1, Read2, Read3, Write1, Write2, Write3, HandleResponse, HandleFin, InitiatorChannel, ResponderChannel;
    hide Paired, Expire, Alive;
    ExpireIsAlive(b.pending, at.init);
    var i1, r1, m2, r2, p2, i2, m3, i3, p3, r3 := UndisturbedStates(a.identity, b.identity, e, er, ratchet);
    FinishingPairs(i3, e, er, ratchet, draw, r3);
    var channel := InitiatorChannel(i3, PublicOf(ratchet), draw).value;
    InitiatorFiles(StartHandshake(a, hsId, e, at.start).1, hsId, m2, draw, at.response, p2, i2, m3, i3, channel);
    ResponderFiles(HandleInit(b, hsId, Some(PublicOf(e)), er, ratchet, at.init).1, hsId, m3, at.fin, p3, r3, ratchet);
  }

  /** With room at the responder, an undisturbed handshake completes on both ends, however long its messages
      take, if and only if neither side has another static key pinned for the other, and then the two
      sessions pair up. */
  lemma UndisturbedHandshake(a: Manager, b: Manager, hsId: Bytes, e: KeyPair, er: KeyPair, ratchet: KeyPair,
                             draw: KeyPair, at: Times)
    requires e.Honest? && er.Honest? && ratchet.Honest? && draw.Honest? && draw !in {e, er, ratchet}
    requires |Alive(b.pending, at.init)| < MAX_PENDING_HANDSHAKES && hsId !in Alive(b.pending, at.init)
    ensures Undisturbed(a, b, hsId, e, er, ratchet, draw, at).Some?
       <==> PinAllows(a.trust, b.identity) && PinAllows(b.trust, a.identity)
    ensures Undisturbed(a, b, hsId, e, er, ratchet, draw, at).Some? ==>
      var (a2, b2) := Undisturbed(a, b, hsId, e, er, ratchet, draw, at).value;
      && b.identity.signer in a2.sessions && a.identity.signer in b2.sessions
      && Paired(a2.sessions[b.identity.signer], b2.sessions[a.identity.signer])
  {
    hide StartHandshake, HandleInit, HandleResponse, HandleFin, Paired, Alive, PinAllows;
    UndisturbedSteps(a, b, hsId, e, er, ratchet, draw, at);
  }
}
