/** The session manager: handshakes in flight, pinned identities, and established sessions, with
    the handshake's keys seeding the ratchet.
*/
module Session {
  import opened SymbolicCrypto
  import opened Noise
  import R = Ratchet

  const PROLOGUE: nat := 0
  const HANDSHAKE_TIMEOUT: real := 120.0
  const MAX_PENDING_HANDSHAKES: nat := 32

  datatype Identity = Identity(signer: Signer, s: KeyPair, nickname: string)

  datatype Peer = Peer(remote: Public, nickname: string, verified: bool, firstSeen: real)

  /** Pinned peers, by signing key. */
  type Trust = map<Signer, Peer>

  datatype Channel = Channel(ratchet: R.State, sendTag: Term, recvTag: Term, initiator: bool)

  datatype Pending = Pending(hs: Handshake, startedAt: real, ratchetPrivate: Option<KeyPair>)

  datatype Manager = Manager(identity: Identity, trust: Trust, sessions: map<Signer, Channel>,
                             pending: map<Bytes, Pending>)

  /** `Rejected` stands for every path that raises. */
  datatype Result<+T> = Ignored | Rejected | Done(value: T)

  // -- pinning ------------------------------------------------------------------------

  /** A handshake forgets, repins and verifies nobody: it leaves a pinned key as it was, or pins a new peer. */
  ghost predicate OnlyPins(before: Trust, after: Trust) {
    && before.Keys <= after.Keys
    && forall signer :: signer in after ==>
      if signer !in before then !after[signer].verified
      else after[signer].remote == before[signer].remote && after[signer].verified == before[signer].verified
  }

  /** First sight pins; a different static key for a pinned signer is refused. */
  function Observe(trust: Trust, signer: Signer, remote: Public, nickname: string, now: real): (r: Option<Trust>)
    ensures r.None? <==> signer in trust && trust[signer].remote != remote
    ensures r.Some? ==> signer in r.value && r.value[signer].remote == remote && OnlyPins(trust, r.value)
  {
    if signer !in trust then Some(trust[signer := Peer(remote, nickname, false, now)])
    else if trust[signer].remote != remote then None
    else if nickname != "" then Some(trust[signer := trust[signer].(nickname := nickname)])
    else Some(trust)
  }

  /** What first sight records, and what later sightings leave: only a nickname that was given changes. */
  lemma ObserveRecords(trust: Trust, signer: Signer, remote: Public, nickname: string, now: real, other: Signer)
    requires Observe(trust, signer, remote, nickname, now).Some?
    ensures var after := Observe(trust, signer, remote, nickname, now).value;
      && after[signer] == (if signer !in trust then Peer(remote, nickname, false, now)
                           else trust[signer].(nickname := if nickname == "" then trust[signer].nickname else nickname))
      && (other != signer ==>
            (other in after <==> other in trust) && (other in trust ==> after[other] == trust[other]))
  {}

  function MarkVerified(trust: Trust, signer: Signer): Option<Trust> {
    if signer !in trust then None else Some(trust[signer := trust[signer].(verified := true)])
  }

  function Repin(trust: Trust, signer: Signer, remote: Public): Option<Trust> {
    if signer !in trust then None
    else Some(trust[signer := trust[signer].(remote := remote, verified := false)])
  }

  // -- handshakes ---------------------------------------------------------------------

  function Expire(pending: map<Bytes, Pending>, now: real): map<Bytes, Pending> {
    map id | id in pending && now - pending[id].startedAt <= HANDSHAKE_TIMEOUT :: pending[id]
  }

  /** The identity payload: a signature over the hash, and the responder's ratchet key. */
  function Prove(identity: Identity, ratchet: Option<Public>): Transcript -> Payload {
    (h: Transcript) => Payload.Identity(identity.signer, Signed(identity.signer, h), ratchet, identity.nickname)
  }

  /** The proof carries a signature by the signer it names over this handshake's own hash. */
  predicate Verifies(proof: Proof) {
    proof.payload.Identity? && proof.payload.signature == Signed(proof.payload.signer, proof.signedHash)
  }

  function RootKeyOf(hs: Handshake): Term {
    SessionPart(hs.sym.ck, hs.sym.h, 0)
  }

  function ForwardTag(hs: Handshake): Term {
    SessionPart(hs.sym.ck, hs.sym.h, 1)
  }

  function BackwardTag(hs: Handshake): Term {
    SessionPart(hs.sym.ck, hs.sym.h, 2)
  }

  function InitiatorChannel(hs: Handshake, ratchet: Public, draw: KeyPair): Option<Channel> {
    match R.InitSender(RootKeyOf(hs), ratchet, draw)
    case None => None
    case Some(st) => Some(Channel(st, ForwardTag(hs), BackwardTag(hs), true))
  }

  lemma InitiatorChannelOf(hs: Handshake, ratchet: Public, draw: KeyPair)
    ensures var st := R.InitSender(RootKeyOf(hs), ratchet, draw);
      && (st.None? <==> ratchet.LowOrder?)
      && InitiatorChannel(hs, ratchet, draw)
         == (if st.None? then None else Some(Channel(st.value, ForwardTag(hs), BackwardTag(hs), true)))
  {}

  function ResponderChannel(hs: Handshake, ratchet: KeyPair): Channel {
    Channel(R.InitReceiver(RootKeyOf(hs), ratchet), BackwardTag(hs), ForwardTag(hs), false)
  }

  function StartHandshake(m: Manager, hsId: Bytes, draw: KeyPair, now: real): (Public, Manager) {
    var (message, hs) := Write1(Start(true, m.identity.s, PROLOGUE), draw);
    (message.value, m.(pending := Expire(m.pending, now)[hsId := Pending(hs, now, None)]))
  }

  function HandleInit(m: Manager, hsId: Bytes, body: Option<Public>, draw: KeyPair, ratchet: KeyPair, now: real)
    : (Option<Message2>, Manager)
  {
    var m1 := m.(pending := Expire(m.pending, now));
    if |m1.pending| >= MAX_PENDING_HANDSHAKES || hsId in m1.pending then (None, m1)
    else
      match Read1(Start(false, m.identity.s, PROLOGUE), body)
      case None => (None, m1)
      case Some(hs) =>
        match Write2(hs, draw, Prove(m.identity, Some(PublicOf(ratchet))))
        case None => (None, m1)
        case Some((message, hs')) =>
          (Some(message), m1.(pending := m1.pending[hsId := Pending(hs', now, Some(ratchet))]))
  }

  function Forgetting(m: Manager, hsId: Bytes): Manager {
    m.(pending := m.pending - {hsId})
  }

  /** A read that succeeded moved the handshake on, whatever is refused after it. */
  function Moving(m: Manager, hsId: Bytes, hs: Handshake): Manager
    requires hsId in m.pending
  {
    m.(pending := m.pending[hsId := m.pending[hsId].(hs := hs)])
  }

  /** The proof is checked and pinned: write message 3 and file the session. */
  function Conclude(m: Manager, hsId: Bytes, hs: Handshake, proof: Proof, draw: KeyPair)
    : (r: (Result<Message3>, Manager))
    requires hsId in m.pending && proof.payload.Identity? && proof.payload.ratchet.Some?
    ensures r.1.trust == m.trust && (!r.0.Done? ==> r.1.sessions == m.sessions)
  {
    match Write3(hs, Prove(m.identity, None))
    case None => (Rejected, m)
    case Some((fin, hs')) =>
      match InitiatorChannel(hs', proof.payload.ratchet.value, draw)
      case None => (Rejected, Moving(m, hsId, hs'))
      case Some(channel) =>
        (Done(fin), Forgetting(m.(sessions := m.sessions[proof.payload.signer := channel]), hsId))
  }

  function HandleResponse(m: Manager, hsId: Bytes, body: Option<Message2>, draw: KeyPair, now: real)
    : (Result<Message3>, Manager)
  {
    if hsId !in m.pending || !m.pending[hsId].hs.initiator then (Ignored, m)
    else
      match Read2(m.pending[hsId].hs, body)
      case None => (Rejected, Forgetting(m, hsId))
      case Some((proof, hs)) =>
        var m1 := Moving(m, hsId, hs);
        if !proof.payload.Identity? || proof.payload.ratchet.None? then (Rejected, m1)
        else if !Verifies(proof) then (Rejected, Forgetting(m1, hsId))
        else
          match Observe(m.trust, proof.payload.signer, proof.remote, proof.payload.nickname, now)
          case None => (Rejected, m1)
          case Some(trust) => Conclude(m1.(trust := trust), hsId, hs, proof, draw)
  }

  function Complete(m: Manager, hsId: Bytes, hs: Handshake, proof: Proof): (r: (Result<()>, Manager))
    requires hsId in m.pending && proof.payload.Identity?
    ensures r.1.trust == m.trust && (!r.0.Done? ==> r.1.sessions == m.sessions)
  {
    if m.pending[hsId].ratchetPrivate.None? then (Rejected, m)
    else
      var channel := ResponderChannel(hs, m.pending[hsId].ratchetPrivate.value);
      (Done(()), Forgetting(m.(sessions := m.sessions[proof.payload.signer := channel]), hsId))
  }

  function HandleFin(m: Manager, hsId: Bytes, body: Option<Message3>, now: real): (Result<()>, Manager) {
    if hsId !in m.pending || m.pending[hsId].hs.initiator then (Ignored, m)
    else
      match Read3(m.pending[hsId].hs, body)
      case None => (Rejected, Forgetting(m, hsId))
      case Some((proof, hs)) =>
        var m1 := Moving(m, hsId, hs);
        if !proof.payload.Identity? then (Rejected, m1)
        else if !Verifies(proof) then (Rejected, Forgetting(m1, hsId))
        else
          match Observe(m.trust, proof.payload.signer, proof.remote, proof.payload.nickname, now)
          case None => (Rejected, m1)
          case Some(trust) => Complete(m1.(trust := trust), hsId, hs, proof)
  }

  /** The same outcome, with the sessions of `m` kept beside whatever `m0` filed. */
  ghost predicate AddsTo<T>(m: Manager, a: (Result<T>, Manager), a0: (Result<T>, Manager)) {
    && a.0 == a0.0 && a.1 == a0.1.(sessions := m.sessions + a0.1.sessions)
    && (if a.0.Done? then |a0.1.sessions| == 1 else a0.1.sessions == map[])
  }

  lemma UnchangedAdds<T>(m: Manager, a: (Result<T>, Manager))
    requires a.1.sessions == m.sessions && !a.0.Done?
    ensures AddsTo(m, a, (a.0, a.1.(sessions := map[])))
  {}

  lemma OneAdds<T>(m: Manager, a: (Result<T>, Manager), a0: (Result<T>, Manager), signer: Signer, channel: Channel)
    requires a.0.Done? && a.0 == a0.0 && a.1 == a0.1.(sessions := a.1.sessions)
    requires a.1.sessions == m.sessions[signer := channel] && a0.1.sessions == map[signer := channel]
    ensures AddsTo(m, a, a0)
  {
    assert a.1.sessions == m.sessions + a0.1.sessions;
  }

  lemma ConcludeAdds(m: Manager, hsId: Bytes, hs: Handshake, proof: Proof, draw: KeyPair)
    requires hsId in m.pending && proof.payload.Identity? && proof.payload.ratchet.Some?
    ensures AddsTo(m, Conclude(m, hsId, hs, proof, draw), Conclude(m.(sessions := map[]), hsId, hs, proof, draw))
  {
    hide Write3, InitiatorChannel, AddsTo;
    var a, a0 := Conclude(m, hsId, hs, proof, draw), Conclude(m.(sessions := map[]), hsId, hs, proof, draw);
    if a.0.Done? {
      OneAdds(m, a, a0, proof.payload.signer, a0.1.sessions[proof.payload.signer]);
    } else {
      UnchangedAdds(m, a);
    }
  }

  lemma CompleteAdds(m: Manager, hsId: Bytes, hs: Handshake, proof: Proof)
    requires hsId in m.pending && proof.payload.Identity?
    ensures AddsTo(m, Complete(m, hsId, hs, proof), Complete(m.(sessions := map[]), hsId, hs, proof))
  {
    hide ResponderChannel, AddsTo;
    var a, a0 := Complete(m, hsId, hs, proof), Complete(m.(sessions := map[]), hsId, hs, proof);
    if a.0.Done? {
      OneAdds(m, a, a0, proof.payload.signer, a0.1.sessions[proof.payload.signer]);
    } else {
      UnchangedAdds(m, a);
    }
  }

  /** What a message does to the sessions is to add at most one; everything else is the same whatever
      sessions there are. */
  lemma ResponseAddsSession(m: Manager, hsId: Bytes, body: Option<Message2>, draw: KeyPair, now: real)
    ensures AddsTo(m, HandleResponse(m, hsId, body, draw, now),
                   HandleResponse(m.(sessions := map[]), hsId, body, draw, now))
  {
    hide Read2, Conclude, Observe, Verifies, AddsTo;
    var a := HandleResponse(m, hsId, body, draw, now);
    if a.1.sessions == m.sessions && !a.0.Done? { UnchangedAdds(m, a); }
    if hsId in m.pending && m.pending[hsId].hs.initiator && Read2(m.pending[hsId].hs, body).Some? {
      var (proof, hs) := Read2(m.pending[hsId].hs, body).value;
      if proof.payload.Identity? && proof.payload.ratchet.Some? {
        var pinned := Observe(m.trust, proof.payload.signer, proof.remote, proof.payload.nickname, now);
        if pinned.Some? {
          var m1 := Moving(m, hsId, hs).(trust := pinned.value);
          ConcludeAdds(m1, hsId, hs, proof, draw);
          AddsToSame(m1, m, Conclude(m1, hsId, hs, proof, draw),
                     Conclude(m1.(sessions := map[]), hsId, hs, proof, draw));
        }
      }
    }
  }

  lemma AddsToSame<T>(m1: Manager, m: Manager, a: (Result<T>, Manager), a0: (Result<T>, Manager))
    requires AddsTo(m1, a, a0) && m1.sessions == m.sessions
    ensures AddsTo(m, a, a0)
  {}

  lemma FinAddsSession(m: Manager, hsId: Bytes, body: Option<Message3>, now: real)
    ensures AddsTo(m, HandleFin(m, hsId, body, now), HandleFin(m.(sessions := map[]), hsId, body, now))
  {
    hide Read3, Complete, Observe, Verifies, AddsTo;
    var a := HandleFin(m, hsId, body, now);
    if a.1.sessions == m.sessions && !a.0.Done? { UnchangedAdds(m, a); }
    if hsId in m.pending && !m.pending[hsId].hs.initiator && Read3(m.pending[hsId].hs, body).Some? {
      var (proof, hs) := Read3(m.pending[hsId].hs, body).value;
      if proof.payload.Identity? {
        var pinned := Observe(m.trust, proof.payload.signer, proof.remote, proof.payload.nickname, now);
        if pinned.Some? {
          var m1 := Moving(m, hsId, hs).(trust := pinned.value);
          CompleteAdds(m1, hsId, hs, proof);
          AddsToSame(m1, m, Complete(m1, hsId, hs, proof), Complete(m1.(sessions := map[]), hsId, hs, proof));
        }
      }
    }
  }

  /** No key of a session serves twice: root and tag keys of any two handshakes are equal only if it is the
      same one of the three and the handshakes end in the same state. */
  lemma KeysAreApart(a: Handshake, b: Handshake)
    ensures ForwardTag(a) != BackwardTag(b) && RootKeyOf(a) != ForwardTag(b) && RootKeyOf(a) != BackwardTag(b)
    ensures var same := a.sym.ck == b.sym.ck && a.sym.h == b.sym.h;
      && (RootKeyOf(a) == RootKeyOf(b) <==> same)
      && (ForwardTag(a) == ForwardTag(b) <==> same) && (BackwardTag(a) == BackwardTag(b) <==> same)
  {}

  // -- runs of one manager ---------------------------------------------------------------

  datatype Step =
    | Begin(hsId: Bytes, draw: KeyPair, now: real)
    | OnInit(hsId: Bytes, first: Option<Public>, draw: KeyPair, ratchetDraw: KeyPair, now: real)
    | OnResponse(hsId: Bytes, second: Option<Message2>, draw: KeyPair, now: real)
    | OnFin(hsId: Bytes, third: Option<Message3>, now: real)
    | Drop(signer: Signer)
    | Verify(signer: Signer)
    | Accept(signer: Signer, remote: Public)
    | Forget(signer: Signer)
    | Talk(signer: Signer, state: R.State)

  function Or(changed: Option<Trust>, trust: Trust): Trust {
    if changed.Some? then changed.value else trust
  }

  /** `Talk` stands for any use of an established ratchet. */
  function Next(m: Manager, step: Step): Manager {
    match step
    case Begin(hsId, draw, now) => StartHandshake(m, hsId, draw, now).1
    case OnInit(hsId, body, draw, ratchet, now) => HandleInit(m, hsId, body, draw, ratchet, now).1
    case OnResponse(hsId, body, draw, now) => HandleResponse(m, hsId, body, draw, now).1
    case OnFin(hsId, body, now) => HandleFin(m, hsId, body, now).1
    case Drop(signer) => m.(sessions := m.sessions - {signer})
    case Verify(signer) => m.(trust := Or(MarkVerified(m.trust, signer), m.trust))
    case Accept(signer, remote) => m.(trust := Or(Repin(m.trust, signer, remote), m.trust))
    case Forget(signer) => m.(trust := m.trust - {signer})
    case Talk(signer, state) =>
      if signer in m.sessions then m.(sessions := m.sessions[signer := m.sessions[signer].(ratchet := state)]) else m
  }

  ghost predicate IsRun(states: seq<Manager>, steps: seq<Step>) {
    && |states| == |steps| + 1
    && states[0].sessions == map[] && states[0].pending == map[]
    && forall k :: 0 <= k < |steps| ==> states[k + 1] == Next(states[k], steps[k])
  }

  // -- soundness of every session ----------------------------------------------------------

  /** The proof a step read, and the handshake that read it. */
  function ProofOf(m: Manager, step: Step): Option<(Proof, Handshake)> {
    match step
    case OnResponse(hsId, body, _, _) =>
      if hsId in m.pending && m.pending[hsId].hs.initiator then Read2(m.pending[hsId].hs, body) else None
    case OnFin(hsId, body, _) =>
      if hsId in m.pending && !m.pending[hsId].hs.initiator then Read3(m.pending[hsId].hs, body) else None
    case _ => None
  }

  /** The channel keyed by that handshake, as the step's own side derives it. */
  function ChannelOf(m: Manager, step: Step): Option<Channel> {
    match ProofOf(m, step)
    case None => None
    case Some((proof, hs)) =>
      if step.OnFin? then
        (if m.pending[step.hsId].ratchetPrivate.None? then None
         else Some(ResponderChannel(hs, m.pending[step.hsId].ratchetPrivate.value)))
      else
        match Write3(hs, Prove(m.identity, None))
        case None => None
        case Some((_, hs')) =>
          if !proof.payload.Identity? || proof.payload.ratchet.None? then None
          else InitiatorChannel(hs', proof.payload.ratchet.value, step.draw)
  }

  /** The step created the session with `signer`: its proof verified over the hash of that very
      handshake, names that signer, and shows the static key that is pinned for it; the session's
      keys are that handshake's. */
  ghost predicate Creates(m: Manager, step: Step, m': Manager, signer: Signer) {
    && ProofOf(m, step).Some?
    && var proof := ProofOf(m, step).value.0;
    && Verifies(proof) && proof.payload.signer == signer
    && signer in m'.trust && m'.trust[signer].remote == proof.remote
    && (signer in m.trust ==> m.trust[signer].remote == proof.remote)
    && signer in m'.sessions && Some(m'.sessions[signer]) == ChannelOf(m, step)
  }

  /** The parts of a session that no later use of it changes. */
  predicate SameChannel(a: Channel, b: Channel) {
    a.sendTag == b.sendTag && a.recvTag == b.recvTag && a.initiator == b.initiator
  }

  ghost predicate CreatesOrKeeps(m: Manager, step: Step, signer: Signer) {
    var m' := Next(m, step);
    signer in m'.sessions ==>
      || Creates(m, step, m', signer)
      || (signer in m.sessions && SameChannel(m'.sessions[signer], m.sessions[signer]))
  }

  lemma ResponseCreatesOrKeeps(m: Manager, step: Step, signer: Signer)
    requires step.OnResponse?
    ensures CreatesOrKeeps(m, step, signer)
  {
    hide Read2, Write3, HandleInit, HandleFin, StartHandshake, InitiatorChannel, Verifies;
  }

  lemma FinCreatesOrKeeps(m: Manager, step: Step, signer: Signer)
    requires step.OnFin?
    ensures CreatesOrKeeps(m, step, signer)
  {
    hide Read3, HandleInit, HandleResponse, StartHandshake, ResponderChannel, Verifies;
  }

  lemma NextCreatesOrKeeps(m: Manager, step: Step, signer: Signer)
    requires signer in Next(m, step).sessions
    ensures CreatesOrKeeps(m, step, signer)
  {
    if step.OnResponse? {
      ResponseCreatesOrKeeps(m, step, signer);
    } else if step.OnFin? {
      FinCreatesOrKeeps(m, step, signer);
    } else {
      hide Creates, HandleResponse, HandleFin, Read1, Write1, Write2, Expire;
    }
  }

  /** The step completed a handshake on its own side. */
  predicate Completed(m: Manager, step: Step) {
    match step
    case OnResponse(hsId, body, draw, now) => HandleResponse(m, hsId, body, draw, now).0.Done?
    case OnFin(hsId, body, now) => HandleFin(m, hsId, body, now).0.Done?
    case _ => false
  }

  /** It did so under this name. */
  predicate Files(m: Manager, step: Step, signer: Signer) {
    && Completed(m, step) && ProofOf(m, step).Some?
    && ProofOf(m, step).value.0.payload.Identity? && ProofOf(m, step).value.0.payload.signer == signer
  }

  /** What a step leaves under a name: the session it files there, none if it drops it, and otherwise the
      one that was there. */
  ghost predicate FilesOrKeeps(m: Manager, step: Step, signer: Signer) {
    var m' := Next(m, step);
    if Files(m, step, signer) then signer in m'.sessions && Some(m'.sessions[signer]) == ChannelOf(m, step)
    else if step == Drop(signer) then signer !in m'.sessions
    else
      && (signer in m'.sessions <==> signer in m.sessions)
      && (signer in m.sessions ==> SameChannel(m'.sessions[signer], m.sessions[signer]))
  }

  lemma ResponseFilesOrKeeps(m: Manager, step: Step, signer: Signer)
    requires step.OnResponse?
    ensures FilesOrKeeps(m, step, signer)
  {
    hide Read2, Write3, HandleInit, HandleFin, StartHandshake, InitiatorChannel, Verifies, Observe;
  }

  lemma FinFilesOrKeeps(m: Manager, step: Step, signer: Signer)
    requires step.OnFin?
    ensures FilesOrKeeps(m, step, signer)
  {
    hide Read3, HandleInit, HandleResponse, StartHandshake, ResponderChannel, Verifies, Observe;
  }

  lemma StepFilesOrKeeps(m: Manager, step: Step, signer: Signer)
    ensures FilesOrKeeps(m, step, signer)
  {
    hide FilesOrKeeps;
    if step.OnResponse? {
      ResponseFilesOrKeeps(m, step, signer);
    } else if step.OnFin? {
      FinFilesOrKeeps(m, step, signer);
    } else {
      OtherFilesOrKeeps(m, step, signer);
    }
  }

  lemma OtherFilesOrKeeps(m: Manager, step: Step, signer: Signer)
    requires !step.OnResponse? && !step.OnFin?
    ensures FilesOrKeeps(m, step, signer)
  {
    hide HandleResponse, HandleFin, Read1, Write1, Write2, Expire, ChannelOf, ProofOf, MarkVerified, Repin;
  }

  /** In every reachable state each session was created by a verified, pinned handshake of its own. */
  lemma {:induction false} SessionsAreSound(states: seq<Manager>, steps: seq<Step>, k: nat, signer: Signer)
    returns (j: nat)
    requires IsRun(states, steps) && k <= |steps| && signer in states[k].sessions
    ensures j < k && Creates(states[j], steps[j], states[j + 1], signer)
    ensures SameChannel(states[k].sessions[signer], states[j + 1].sessions[signer])
  {
    hide Next, Creates;
    NextCreatesOrKeeps(states[k - 1], steps[k - 1], signer);
    if Creates(states[k - 1], steps[k - 1], states[k], signer) {
      j := k - 1;
    } else {
      j := SessionsAreSound(states, steps, k - 1, signer);
    }
  }

  lemma FiledTagsDiffer(m: Manager, step: Step)
    requires ChannelOf(m, step).Some?
    ensures ChannelOf(m, step).value.sendTag != ChannelOf(m, step).value.recvTag
  {
    hide ProofOf, Write3;
  }

  /** In every reachable state a session tags its two directions with different keys. */
  lemma TagsDifferInEveryRun(states: seq<Manager>, steps: seq<Step>, k: nat, signer: Signer)
    requires IsRun(states, steps) && k <= |steps| && signer in states[k].sessions
    ensures states[k].sessions[signer].sendTag != states[k].sessions[signer].recvTag
  {
    hide Next, ChannelOf, Verifies, ProofOf;
    var j := SessionsAreSound(states, steps, k, signer);
    FiledTagsDiffer(states[j], steps[j]);
  }

  /** A step that raises, or ignores its input, leaves every session as it was. */
  lemma RejectionKeepsSessions(m: Manager, step: Step)
    requires step.OnResponse? ==> !HandleResponse(m, step.hsId, step.second, step.draw, step.now).0.Done?
    requires step.OnFin? ==> !HandleFin(m, step.hsId, step.third, step.now).0.Done?
    requires !step.Drop? && !step.Talk?
    ensures Next(m, step).sessions == m.sessions
  {
    hide HandleResponse, HandleFin, Write1, Read1, Write2, Expire, MarkVerified, Repin;
    match step
    case OnResponse(hsId, body, draw, now) => ResponseAddsSession(m, hsId, body, draw, now);
    case OnFin(hsId, body, now) => FinAddsSession(m, hsId, body, now);
    case _ =>
  }

  /** A checked proof pins its peer, or finds it pinned, before anything else can fail. */
  lemma ProofPins(m: Manager, step: Step)
    requires ProofOf(m, step).Some? && Verifies(ProofOf(m, step).value.0)
    requires step.OnResponse? ==> ProofOf(m, step).value.0.payload.ratchet.Some?
    ensures var (proof, after) := (ProofOf(m, step).value.0, Next(m, step).trust);
      var signer := proof.payload.signer;
      if signer in m.trust && m.trust[signer].remote != proof.remote then after == m.trust
      else signer in after && after[signer].remote == proof.remote
  {
    hide Read2, Read3, Conclude, Complete, Observe;
  }

  // -- pinning over runs -----------------------------------------------------------------------

  lemma ResponseOnlyPins(m: Manager, hsId: Bytes, body: Option<Message2>, draw: KeyPair, now: real)
    ensures OnlyPins(m.trust, HandleResponse(m, hsId, body, draw, now).1.trust)
  {
    assert OnlyPins(m.trust, m.trust);
    hide Read2, Write3, InitiatorChannel, Verifies, Observe, OnlyPins;
  }

  lemma FinOnlyPins(m: Manager, hsId: Bytes, body: Option<Message3>, now: real)
    ensures OnlyPins(m.trust, HandleFin(m, hsId, body, now).1.trust)
  {
    assert OnlyPins(m.trust, m.trust);
    hide Read3, ResponderChannel, Verifies, Observe, OnlyPins;
  }

  /** A pinned static key changes only by an explicit accept or after an explicit forget, and a peer
      is verified only by an explicit verification of the key still pinned. */
  lemma PinsAreSticky(m: Manager, step: Step, signer: Signer)
    requires signer in Next(m, step).trust
    ensures var remote := Next(m, step).trust[signer].remote;
      signer in m.trust && remote != m.trust[signer].remote ==> step == Accept(signer, remote)
    ensures var peer := Next(m, step).trust[signer];
      peer.verified && step != Verify(signer) ==>
        signer in m.trust && m.trust[signer].verified && m.trust[signer].remote == peer.remote
    ensures step != Forget(signer)
    ensures step.Accept? && step.signer == signer ==> !Next(m, step).trust[signer].verified
  {
    hide HandleResponse, HandleFin, Read1, Write1, Write2, Expire;
    match step
    case OnResponse(hsId, body, draw, now) => ResponseOnlyPins(m, hsId, body, draw, now);
    case OnFin(hsId, body, now) => FinOnlyPins(m, hsId, body, now);
    case _ =>
  }

  /** A peer that was not verified at the start is verified only if the user verified it while this
      very static key was pinned, and neither accepted another key nor forgot the peer since. */
  lemma {:induction false} VerifiedMeansVerifiedThisKey(states: seq<Manager>, steps: seq<Step>, k: nat, signer: Signer)
    returns (j: nat)
    requires IsRun(states, steps) && k <= |steps|
    requires signer in states[k].trust && states[k].trust[signer].verified
    requires signer in states[0].trust ==> !states[0].trust[signer].verified
    ensures j < k && steps[j] == Verify(signer)
    ensures forall i :: j < i <= k ==>
      signer in states[i].trust && states[i].trust[signer].remote == states[k].trust[signer].remote
    ensures forall i :: j < i < k ==> steps[i] != Forget(signer) && !(steps[i].Accept? && steps[i].signer == signer)
  {
    hide Next;
    PinsAreSticky(states[k - 1], steps[k - 1], signer);
    if steps[k - 1] == Verify(signer) {
      j := k - 1;
    } else {
      j := VerifiedMeansVerifiedThisKey(states, steps, k - 1, signer);
    }
  }

  /** What the user decides takes effect, on that peer alone; about unknown peers there is nothing to decide. */
  lemma DecisionsTakeEffect(m: Manager, signer: Signer, remote: Public, other: Signer)
    ensures var (verified, accepted) := (Next(m, Verify(signer)).trust, Next(m, Accept(signer, remote)).trust);
      if signer in m.trust then
        && signer in verified && verified[signer].verified && verified[signer].remote == m.trust[signer].remote
        && signer in accepted && accepted[signer].remote == remote && !accepted[signer].verified
      else verified == accepted == m.trust
    ensures signer !in Next(m, Forget(signer)).trust && signer !in Next(m, Drop(signer)).sessions
    ensures other != signer ==>
      forall step :: step in {Verify(signer), Accept(signer, remote), Forget(signer)} ==>
        (other in Next(m, step).trust <==> other in m.trust)
        && (other in m.trust ==> Next(m, step).trust[other] == m.trust[other])
  {}

  lemma PinStays(m: Manager, step: Step, signer: Signer)
    requires signer in m.trust && step != Forget(signer) && !(step.Accept? && step.signer == signer)
    ensures signer in Next(m, step).trust && Next(m, step).trust[signer].remote == m.trust[signer].remote
    ensures m.trust[signer].verified ==> Next(m, step).trust[signer].verified
  {
    hide HandleResponse, HandleFin, Read1, Write1, Write2, Expire;
    match step
    case OnResponse(hsId, body, draw, now) => ResponseOnlyPins(m, hsId, body, draw, now);
    case OnFin(hsId, body, now) => FinOnlyPins(m, hsId, body, now);
    case _ =>
  }

  /** A verified peer stays verified, under the key it was verified with, until the user accepts another
      key or forgets the peer, whatever handshakes arrive. */
  lemma {:induction false} VerifiedStays(states: seq<Manager>, steps: seq<Step>, j: nat, k: nat, signer: Signer)
    requires IsRun(states, steps) && j < k <= |steps| && steps[j] == Verify(signer) && signer in states[j].trust
    requires forall i :: j < i < k ==> steps[i] != Forget(signer) && !(steps[i].Accept? && steps[i].signer == signer)
    ensures signer in states[k].trust && states[k].trust[signer].verified
    ensures states[k].trust[signer].remote == states[j].trust[signer].remote
    decreases k
  {
    hide Next;
    if k == j + 1 {
      DecisionsTakeEffect(states[j], signer, states[j].trust[signer].remote, signer);
    } else {
      VerifiedStays(states, steps, j, k - 1, signer);
      PinStays(states[k - 1], steps[k - 1], signer);
    }
  }

  // -- pending handshakes ------------------------------------------------------------------------

  function Responding(pending: map<Bytes, Pending>): set<Bytes> {
    set id | id in pending && !pending[id].hs.initiator
  }

  /** Responder entries are capped, and every entry carries what finishing it needs. */
  ghost predicate PendingInv(m: Manager) {
    && |Responding(m.pending)| <= MAX_PENDING_HANDSHAKES
    && forall id :: id in m.pending ==> (m.pending[id].ratchetPrivate.Some? <==> !m.pending[id].hs.initiator)
  }

  lemma SubsetSize<T>(a: set<T>, b: set<T>)
    requires a <= b
    ensures |a| <= |b|
  {
    assert b == a + (b - a);
  }

  /** `p` is what became of entry `q`: the same, or further along in the same role. */
  predicate Later(p: Pending, q: Pending) {
    || p == q
    || (p == q.(hs := p.hs) && p.hs.initiator == q.hs.initiator && p.hs.index > q.hs.index)
  }

  /** A message under `hsId` touches no other entry. */
  lemma ResponseIsLocal(m: Manager, hsId: Bytes, body: Option<Message2>, draw: KeyPair, now: real, id: Bytes)
    requires id != hsId
    ensures var pending := HandleResponse(m, hsId, body, draw, now).1.pending;
      (id in pending <==> id in m.pending) && (id in pending ==> pending[id] == m.pending[id])
  {
    hide Read2, Write3, Observe, InitiatorChannel, Verifies;
  }

  lemma FinIsLocal(m: Manager, hsId: Bytes, body: Option<Message3>, now: real, id: Bytes)
    requires id != hsId
    ensures var pending := HandleFin(m, hsId, body, now).1.pending;
      (id in pending <==> id in m.pending) && (id in pending ==> pending[id] == m.pending[id])
  {
    hide Read3, Observe, Verifies, ResponderChannel;
  }

  lemma ResponseMoves(m: Manager, hsId: Bytes, body: Option<Message2>, draw: KeyPair, now: real)
    ensures var pending := HandleResponse(m, hsId, body, draw, now).1.pending;
      hsId in pending ==> hsId in m.pending && Later(pending[hsId], m.pending[hsId])
  {
    hide Read2, Write3, Observe, InitiatorChannel, Verifies;
  }

  lemma FinMoves(m: Manager, hsId: Bytes, body: Option<Message3>, now: real)
    ensures var pending := HandleFin(m, hsId, body, now).1.pending;
      hsId in pending ==> hsId in m.pending && Later(pending[hsId], m.pending[hsId])
  {
    hide Read3, Observe, Verifies, ResponderChannel;
  }

  lemma ResponseRoles(m: Manager, hsId: Bytes, body: Option<Message2>, draw: KeyPair, now: real, id: Bytes)
    requires id in HandleResponse(m, hsId, body, draw, now).1.pending
    ensures id in m.pending && Later(HandleResponse(m, hsId, body, draw, now).1.pending[id], m.pending[id])
  {
    hide HandleResponse;
    if id == hsId { ResponseMoves(m, hsId, body, draw, now); } else { ResponseIsLocal(m, hsId, body, draw, now, id); }
  }

  lemma FinRoles(m: Manager, hsId: Bytes, body: Option<Message3>, now: real, id: Bytes)
    requires id in HandleFin(m, hsId, body, now).1.pending
    ensures id in m.pending && Later(HandleFin(m, hsId, body, now).1.pending[id], m.pending[id])
  {
    hide HandleFin;
    if id == hsId { FinMoves(m, hsId, body, now); } else { FinIsLocal(m, hsId, body, now, id); }
  }

  predicate Answers(m: Manager, step: Step) {
    && step.OnInit? && HandleInit(m, step.hsId, step.first, step.draw, step.ratchetDraw, step.now).0.Some?
  }

  /** No entry ever changes role, and only a start or an answered init adds one. */
  lemma StepRoles(m: Manager, step: Step, id: Bytes)
    requires id in Next(m, step).pending
    ensures var p := Next(m, step).pending[id];
      || (id in m.pending && Later(p, m.pending[id]))
      || (step.Begin? && p.hs.initiator && p.ratchetPrivate.None?)
      || (step.OnInit? && id == step.hsId && !p.hs.initiator && p.ratchetPrivate.Some? && Answers(m, step))
  {
    hide MixDh, DecryptAndHash, EncryptAndHash, HandleResponse, HandleFin, MarkVerified, Repin;
    match step
    case OnResponse(hsId, body, draw, now) => ResponseRoles(m, hsId, body, draw, now, id);
    case OnFin(hsId, body, now) => FinRoles(m, hsId, body, now, id);
    case _ =>
  }

  /** An answered init adds one entry, to fewer than 32. */
  lemma AnswerAddsOne(m: Manager, step: Step)
    requires Answers(m, step)
    ensures step.OnInit?
    ensures Next(m, step).pending.Keys == Expire(m.pending, step.now).Keys + {step.hsId}
    ensures |Expire(m.pending, step.now)| < MAX_PENDING_HANDSHAKES
  {
    hide Read1, Write2, Expire;
  }

  /** In every reachable state at most 32 entries await a final message as responder. */
  lemma NextKeepsPendingInv(m: Manager, step: Step)
    requires PendingInv(m)
    ensures PendingInv(Next(m, step))
  {
    hide Next, Answers, Expire;
    var m' := Next(m, step);
    if Answers(m, step) {
      AnswerAddsOne(m, step);
      SubsetSize(Responding(m'.pending), Expire(m.pending, step.now).Keys + {step.hsId});
    }
    forall id | id in m'.pending
      ensures m'.pending[id].ratchetPrivate.Some? <==> !m'.pending[id].hs.initiator
    {
      StepRoles(m, step, id);
    }
    if !Answers(m, step) {
      forall id | id in Responding(m'.pending) ensures id in Responding(m.pending) {
        StepRoles(m, step, id);
      }
      SubsetSize(Responding(m'.pending), Responding(m.pending));
    }
  }

  lemma {:induction false} RunKeepsPendingInv(states: seq<Manager>, steps: seq<Step>, k: nat)
    requires IsRun(states, steps) && k <= |steps|
    ensures PendingInv(states[k])
  {
    if k > 0 {
      RunKeepsPendingInv(states, steps, k - 1);
      NextKeepsPendingInv(states[k - 1], steps[k - 1]);
    } else {
      assert Responding(states[0].pending) == {};
    }
  }

  // -- how long an entry lives -----------------------------------------------------------------------

  /** The handshakes begun no longer than the timeout ago. */
  function Alive(pending: map<Bytes, Pending>, now: real): set<Bytes> {
    set id | id in pending && pending[id].startedAt >= now - HANDSHAKE_TIMEOUT
  }

  lemma ExpireIsAlive(pending: map<Bytes, Pending>, now: real)
    ensures Expire(pending, now).Keys == Alive(pending, now) && |Expire(pending, now)| == |Alive(pending, now)|
    ensures forall id :: id in Expire(pending, now) ==> Expire(pending, now)[id] == pending[id]
  {
    assert Expire(pending, now).Keys == Alive(pending, now);
  }

  /** An init is answered exactly when fewer than 32 handshakes are alive, its identifier is not one of
      theirs, and it carries a usable key. */
  lemma AnswersExactly(m: Manager, hsId: Bytes, body: Option<Public>, draw: KeyPair, ratchet: KeyPair, now: real)
    ensures HandleInit(m, hsId, body, draw, ratchet, now).0.Some?
       <==> |Alive(m.pending, now)| < MAX_PENDING_HANDSHAKES && hsId !in Alive(m.pending, now)
            && body.Some? && body.value.PublicOf?
  {
    hide Expire, Alive, Read1, Write2;
    ExpireIsAlive(m.pending, now);
    Message2IsWritable(m.identity.s, PROLOGUE, body, draw, Prove(m.identity, Some(PublicOf(ratchet))));
  }

  /** An init under an identifier in flight goes unanswered and leaves that handshake as it was. */
  lemma InFlightIsIgnored(m: Manager, hsId: Bytes, body: Option<Public>, draw: KeyPair, ratchet: KeyPair, now: real)
    requires hsId in Alive(m.pending, now)
    ensures var (answer, m') := HandleInit(m, hsId, body, draw, ratchet, now);
      answer.None? && hsId in m'.pending && m'.pending[hsId] == m.pending[hsId]
  {
    hide Expire, Read1, Write2;
    ExpireIsAlive(m.pending, now);
  }

  /** The steps that clear out old handshakes first. */
  predicate Clears(step: Step) {
    step.Begin? || step.OnInit?
  }

  /** The step is about the handshake under this identifier. */
  predicate Concerns(step: Step, id: Bytes) {
    match step
    case Begin(hsId, _, _) => hsId == id
    case OnInit(hsId, _, _, _, _) => hsId == id
    case OnResponse(hsId, _, _, _) => hsId == id
    case OnFin(hsId, _, _) => hsId == id
    case _ => false
  }

  /** Clearing drops the handshakes begun more than 120 seconds ago and no others. */
  lemma EntryStaysExactly(m: Manager, step: Step, id: Bytes)
    requires id in m.pending && !Concerns(step, id)
    ensures id in Next(m, step).pending <==> (Clears(step) ==> step.now - m.pending[id].startedAt <= 120.0)
    ensures id in Next(m, step).pending ==> Next(m, step).pending[id] == m.pending[id]
  {
    hide Read1, Write1, Write2, HandleResponse, HandleFin, MarkVerified, Repin;
    match step
    case OnResponse(hsId, body, draw, now) => ResponseIsLocal(m, hsId, body, draw, now, id);
    case OnFin(hsId, body, now) => FinIsLocal(m, hsId, body, now, id);
    case _ =>
  }

  /** Right after a clearing step no handshake is older than that, and what the step began is begun now. */
  lemma NothingStaysStale(m: Manager, step: Step, id: Bytes)
    requires Clears(step) && id in Next(m, step).pending
    ensures var p := Next(m, step).pending[id];
      || (id in m.pending && p == m.pending[id] && step.now - p.startedAt <= 120.0)
      || (Concerns(step, id) && p.startedAt == step.now)
  {
    hide Read1, Write1, Write2;
  }

  lemma ResponseKeepsDates(m: Manager, step: Step, id: Bytes)
    requires !Clears(step) && id in Next(m, step).pending
    ensures id in m.pending && Next(m, step).pending[id].startedAt == m.pending[id].startedAt
  {
    hide HandleResponse, HandleFin, MarkVerified, Repin;
    match step
    case OnResponse(hsId, body, draw, now) => ResponseRoles(m, hsId, body, draw, now, id);
    case OnFin(hsId, body, now) => FinRoles(m, hsId, body, now, id);
    case _ =>
  }

  ghost predicate ClockForward(steps: seq<Step>) {
    forall i, j :: 0 <= i <= j < |steps| && Clears(steps[i]) && Clears(steps[j]) ==> steps[i].now <= steps[j].now
  }

  /** Every entry was begun by an earlier step under its identifier, at the time it carries. */
  lemma {:induction false} EntryWasBegun(states: seq<Manager>, steps: seq<Step>, k: nat, id: Bytes) returns (j: nat)
    requires IsRun(states, steps) && k <= |steps| && id in states[k].pending
    ensures j < k && Clears(steps[j]) && Concerns(steps[j], id) && steps[j].now == states[k].pending[id].startedAt
    ensures forall i :: j < i <= k ==> id in states[i].pending
  {
    hide Next;
    var step := steps[k - 1];
    if Clears(step) {
      NothingStaysStale(states[k - 1], step, id);
      if id in states[k - 1].pending && states[k].pending[id] == states[k - 1].pending[id] {
        j := EntryWasBegun(states, steps, k - 1, id);
      } else {
        j := k - 1;
      }
    } else {
      ResponseKeepsDates(states[k - 1], step, id);
      j := EntryWasBegun(states, steps, k - 1, id);
    }
  }

  /** In every run with a clock that never goes back, no handshake outlives its 120 seconds past the next
      step that clears. */
  lemma AgesAreBounded(states: seq<Manager>, steps: seq<Step>, k: nat, id: Bytes)
    requires IsRun(states, steps) && ClockForward(steps) && k < |steps| && Clears(steps[k])
    requires id in states[k + 1].pending
    ensures 0.0 <= steps[k].now - states[k + 1].pending[id].startedAt <= 120.0
  {
    hide Next;
    var j := EntryWasBegun(states, steps, k + 1, id);
    NothingStaysStale(states[k], steps[k], id);
  }

  /** And one that nothing concerns stays for that long, exactly. */
  lemma {:induction false} EntryLivesExactly(states: seq<Manager>, steps: seq<Step>, j: nat, k: nat, id: Bytes)
    requires IsRun(states, steps) && j <= k <= |steps| && id in states[j].pending
    requires forall i :: j <= i < k ==> !Concerns(steps[i], id)
    ensures id in states[k].pending
       <==> forall i :: j <= i < k && Clears(steps[i]) ==> steps[i].now - states[j].pending[id].startedAt <= 120.0
    ensures id in states[k].pending ==> states[k].pending[id] == states[j].pending[id]
    decreases k
  {
    hide Next;
    if j < k {
      EntryLivesExactly(states, steps, j, k - 1, id);
      if id in states[k - 1].pending {
        EntryStaysExactly(states[k - 1], steps[k - 1], id);
      } else if id in states[k].pending {
        NothingComesBack(states[k - 1], steps[k - 1], id);
      }
    }
  }

  lemma NothingComesBack(m: Manager, step: Step, id: Bytes)
    requires id in Next(m, step).pending && !Concerns(step, id)
    ensures id in m.pending
  {
    hide Next;
    if Clears(step) { NothingStaysStale(m, step, id); } else { ResponseKeepsDates(m, step, id); }
  }

  // -- what the bound does not cover -----------------------------------------------------------------

  /** `n` handshakes begun at one moment under distinct four-byte identifiers. */
  function ManyStarts(m: Manager, n: nat, draw: KeyPair, now: real): Manager
    requires n <= 256
  {
    if n == 0 then m else StartHandshake(ManyStarts(m, n - 1, draw, now), [0, 0, 0, (n - 1) as byte], draw, now).1
  }

  /** The cap is not on all entries: starting handshakes is never refused, and 33 of them make 33 entries. */
  lemma {:induction false} StartsAreNotCapped(m: Manager, n: nat, draw: KeyPair, now: real)
    requires n <= 256 && m.pending == map[]
    ensures |ManyStarts(m, n, draw, now).pending| == n
    ensures forall id :: id in ManyStarts(m, n, draw, now).pending ==>
      |id| == 4 && id[3] as nat < n && ManyStarts(m, n, draw, now).pending[id].startedAt == now
  {
    if n > 0 {
      StartsAreNotCapped(m, n - 1, draw, now);
      var before := ManyStarts(m, n - 1, draw, now).pending;
      var id: Bytes := [0, 0, 0, (n - 1) as byte];
      assert Expire(before, now) == before && id[3] as nat == n - 1;
    }
  }

  /** The whole table exceeds 32 in a step exactly when a handshake is started under an unused
      identifier while 32 entries are still alive. */
  lemma CapIsExceededExactly(m: Manager, step: Step)
    requires |m.pending| <= MAX_PENDING_HANDSHAKES
    ensures |Next(m, step).pending| > MAX_PENDING_HANDSHAKES
       <==> step.Begin? && step.hsId !in Alive(m.pending, step.now)
            && |Alive(m.pending, step.now)| == MAX_PENDING_HANDSHAKES
  {
    hide Next, Answers, Alive, Expire;
    if step.Begin? {
      StartAddsOne(m, step);
      ExpireIsAlive(m.pending, step.now);
      ExpireIsSmaller(m.pending, step.now);
    } else if Answers(m, step) {
      AnswerAddsOne(m, step);
      AddedSize(Expire(m.pending, step.now).Keys, step.hsId);
    } else {
      forall id | id in Next(m, step).pending ensures id in m.pending {
        StepRoles(m, step, id);
      }
      SubsetSize(Next(m, step).pending.Keys, m.pending.Keys);
    }
  }

  lemma StartAddsOne(m: Manager, step: Step)
    requires step.Begin?
    ensures var (before, after) := (Expire(m.pending, step.now), Next(m, step).pending);
      |after| == |before| + (if step.hsId in before then 0 else 1)
  {
    hide Expire, Write1;
    var before, after := Expire(m.pending, step.now), Next(m, step).pending;
    assert after.Keys == before.Keys + {step.hsId};
  }

  lemma AddedSize<T>(s: set<T>, x: T)
    ensures |s + {x}| == |s| + (if x in s then 0 else 1)
  {
    if x in s { assert s + {x} == s; }
  }

  lemma ExpireIsSmaller(pending: map<Bytes, Pending>, now: real)
    ensures |Expire(pending, now)| <= |pending|
  {
    SubsetSize(Expire(pending, now).Keys, pending.Keys);
  }

  /** A refused response removes its entry exactly when reading it or checking its signature failed;
      a truncated payload, a changed key and an unusable ratchet key leave the entry behind. */
  lemma RefusedResponseForgets(m: Manager, hsId: Bytes, body: Option<Message2>, draw: KeyPair, now: real)
    requires HandleResponse(m, hsId, body, draw, now).0.Rejected?
    ensures var read := Read2(m.pending[hsId].hs, body);
      hsId !in HandleResponse(m, hsId, body, draw, now).1.pending
      <==> read.None? || (var proof := read.value.0;
             proof.payload.Identity? && proof.payload.ratchet.Some? && !Verifies(proof))
  {
    hide Read2, Write3, InitiatorChannel, Observe, Verifies;
  }

  /** The same for the final message, which carries no ratchet key. */
  lemma RefusedFinForgets(m: Manager, hsId: Bytes, body: Option<Message3>, now: real)
    requires HandleFin(m, hsId, body, now).0.Rejected?
    ensures var read := Read3(m.pending[hsId].hs, body);
      hsId !in HandleFin(m, hsId, body, now).1.pending
      <==> read.None? || (read.value.0.payload.Identity? && !Verifies(read.value.0))
  {
    hide Read3, ResponderChannel, Observe, Verifies;
  }

  /** Such a leftover entry never completes: the next response under its identifier removes it. */
  lemma LeftoverIsRemovedNext(m: Manager, hsId: Bytes, body: Option<Message2>, draw: KeyPair, now: real,
                              body': Option<Message2>, draw': KeyPair, now': real)
    requires HandleResponse(m, hsId, body, draw, now).0.Rejected?
    requires hsId in HandleResponse(m, hsId, body, draw, now).1.pending
    ensures var m1 := HandleResponse(m, hsId, body, draw, now).1;
      HandleResponse(m1, hsId, body', draw', now') == (Rejected, Forgetting(m1, hsId))
  {
    hide BeforeProof2, BeforePayload3, DecryptAndHash, EncryptAndHash, InitiatorChannel, Observe, Verifies;
  }

  lemma LeftoverFinIsRemovedNext(m: Manager, hsId: Bytes, body: Option<Message3>, now: real, body': Option<Message3>,
                                 now': real)
    requires HandleFin(m, hsId, body, now).0.Rejected? && hsId in HandleFin(m, hsId, body, now).1.pending
    ensures var m1 := HandleFin(m, hsId, body, now).1;
      HandleFin(m1, hsId, body', now') == (Rejected, Forgetting(m1, hsId))
  {
    hide BeforeProof3, DecryptAndHash, ResponderChannel, Observe, Verifies;
  }
}
