/** Which sessions two managers hold for each other at one moment: when they are the two ends of one
    handshake, when they are not, and that sessions of different handshakes share no keys.
*/
module SessionPairing {
  import opened SymbolicCrypto
  import opened Noise
  import opened Session
  import opened SessionWorld
  import R = Ratchet
  import H = RatchetHistory

  // -- a handshake completes once on each side ----------------------------------------------------

  /** The step completed a handshake as initiator. */
  predicate Concludes(w: World, move: Move) {
    move.who < |w.managers| && move.step.OnResponse? && Completed(w.managers[move.who], move.step)
  }

  lemma ResponseRemoves(m: Manager, step: Step)
    requires step.OnResponse? && Completed(m, step)
    ensures step.hsId in m.pending && m.pending[step.hsId].hs.initiator && m.pending[step.hsId].hs.index == 1
    ensures step.hsId !in Next(m, step).pending
  {
    hide BeforeProof2, DecryptAndHash, Observe, Write3, InitiatorChannel, Verifies;
  }

  /** Completing as initiator spends the ephemeral. */
  lemma ResponseSpends(w: World, move: Move)
    requires WorldInv(w) && OnePerEphemeral(w) && Enabled(w, move) && Concludes(w, move)
    ensures Waiting(w, move.who, move.step.hsId) && WaitsWith(w, move.who, move.step.hsId).Some?
    ensures Spent(Act(w, move), WaitsWith(w, move.who, move.step.hsId).value)
  {
    hide WorldInv, Enabled, Next, Signs, Completed;
    ResponseRemoves(w.managers[move.who], move.step);
    WaitsWithUsed(w, move.who, move.step.hsId);
    var w' := Act(w, move);
    forall q, id | Waiting(w', q, id) ensures WaitsWith(w', q, id) != WaitsWith(w, move.who, move.step.hsId) {
      MoveWaits(w, move, q, id);
    }
  }

  lemma LaterConclusionDiffers(worlds: seq<World>, moves: seq<Move>, j: nat, k: nat)
    requires IsRunOf(worlds, moves) && j < k < |moves|
    requires Concludes(worlds[j], moves[j]) && Concludes(worlds[k], moves[k])
    ensures Waiting(worlds[j], moves[j].who, moves[j].step.hsId) && Waiting(worlds[k], moves[k].who, moves[k].step.hsId)
    ensures WaitsWith(worlds[j], moves[j].who, moves[j].step.hsId)
         != WaitsWith(worlds[k], moves[k].who, moves[k].step.hsId)
  {
    hide WorldInv, Enabled, Act, Completed, OnePerEphemeral, Waiting, WaitsWith;
    RunKeepsWorldInv(worlds, moves, j);
    RunKeepsOnePerEphemeral(worlds, moves, j);
    ResponseSpends(worlds[j], moves[j]);
    var e := WaitsWith(worlds[j], moves[j].who, moves[j].step.hsId).value;
    SpentStays(worlds, moves, j + 1, k, e);
    RunKeepsWorldInv(worlds, moves, k);
    RunKeepsOnePerEphemeral(worlds, moves, k);
    ResponseSpends(worlds[k], moves[k]);
  }

  // -- the final hash tells the handshake -----------------------------------------------------------

  /** The hash as it was five mixes ago. */
  function Rewound(h: Transcript, n: nat): Option<Transcript> {
    if n == 0 then Some(h) else if h.Mixed? then Rewound(h.prev, n - 1) else None
  }

  lemma ReadMixesThree(hs: Handshake, m2: Option<Message2>)
    requires Read2(hs, m2).Some?
    ensures Rewound(Read2(hs, m2).value.1.sym.h, 3) == Some(hs.sym.h)
  {
    assert forall h: Transcript :: h.Mixed? ==> Rewound(h, 1) == Some(h.prev);
  }

  lemma WriteMixesTwo(hs: Handshake, builder: Transcript -> Payload)
    requires Write3(hs, builder).Some?
    ensures Rewound(Write3(hs, builder).value.1.sym.h, 2) == Some(hs.sym.h)
  {
    assert forall h: Transcript :: h.Mixed? ==> Rewound(h, 1) == Some(h.prev);
  }

  lemma {:induction false} RewoundTwice(h: Transcript, n: nat, k: nat)
    requires Rewound(h, n).Some?
    ensures Rewound(h, n + k) == Rewound(Rewound(h, n).value, k)
  {
    if n > 0 { RewoundTwice(h.prev, n - 1, k); }
  }

  /** What the initiator's final hash was before message 2. */
  lemma FinalHashBegins(hs: Handshake, m2: Option<Message2>, builder: Transcript -> Payload)
    requires Read2(hs, m2).Some? && Write3(Read2(hs, m2).value.1, builder).Some?
    ensures Rewound(Write3(Read2(hs, m2).value.1, builder).value.1.sym.h, 5) == Some(hs.sym.h)
  {
    hide Read2, Write3;
    ReadMixesThree(hs, m2);
    WriteMixesTwo(Read2(hs, m2).value.1, builder);
    RewoundTwice(Write3(Read2(hs, m2).value.1, builder).value.1.sym.h, 2, 3);
  }

  lemma Sent1Tells(a: Handshake, b: Handshake)
    requires Sent1(a, PROLOGUE) && Sent1(b, PROLOGUE) && a.sym.h == b.sym.h
    ensures a.e == b.e
  {}

  /** An initiator's handshake after message 3. */
  function FinalOf(m: Manager, step: Step): Option<Handshake> {
    match ProofOf(m, step)
    case None => None
    case Some((_, hs)) =>
      match Write3(hs, Prove(m.identity, None))
      case None => None
      case Some((_, hs')) => Some(hs')
  }

  lemma ConcludedChannel(m: Manager, step: Step)
    requires step.OnResponse? && Completed(m, step)
    ensures step.hsId in m.pending && Read2(m.pending[step.hsId].hs, step.second).Some?
    ensures ProofOf(m, step) == Read2(m.pending[step.hsId].hs, step.second)
    ensures FinalOf(m, step).Some? && ChannelOf(m, step).Some?
    ensures var (hs, channel) := (FinalOf(m, step).value, ChannelOf(m, step).value);
      channel.initiator && channel.sendTag == ForwardTag(hs) && channel.recvTag == BackwardTag(hs)
  {
    hide Read2, Write3, Observe, Verifies;
  }

  lemma BegunBefore(w: World, move: Move)
    requires WorldInv(w) && Concludes(w, move)
    ensures move.step.hsId in w.managers[move.who].pending
    ensures Sent1(w.managers[move.who].pending[move.step.hsId].hs, PROLOGUE)
  {
    var m := w.managers[move.who];
    ResponseRemoves(m, move.step);
    hide Completed, EntryOk, Sent1;
    assert PendingOk(w, m, m.pending[move.step.hsId]);
  }

  /** Two completions that end in one hash are one step. */
  lemma HashTellsConclusion(worlds: seq<World>, moves: seq<Move>, j: nat, k: nat)
    requires IsRunOf(worlds, moves) && j < |moves| && k < |moves|
    requires Concludes(worlds[j], moves[j]) && Concludes(worlds[k], moves[k])
    requires var a, b := FinalOf(worlds[j].managers[moves[j].who], moves[j].step),
                         FinalOf(worlds[k].managers[moves[k].who], moves[k].step);
      a.Some? && b.Some? && a.value.sym.h == b.value.sym.h
    ensures j == k
  {
    hide WorldInv, Enabled, Act, Completed, ChannelOf, Read2, Write3, Sent1, Rewound;
    var m, n := worlds[j].managers[moves[j].who], worlds[k].managers[moves[k].who];
    RunKeepsWorldInv(worlds, moves, j);
    RunKeepsWorldInv(worlds, moves, k);
    BegunBefore(worlds[j], moves[j]);
    BegunBefore(worlds[k], moves[k]);
    ConcludedChannel(m, moves[j].step);
    ConcludedChannel(n, moves[k].step);
    FinalHashBegins(m.pending[moves[j].step.hsId].hs, moves[j].step.second, Prove(m.identity, None));
    FinalHashBegins(n.pending[moves[k].step.hsId].hs, moves[k].step.second, Prove(n.identity, None));
    Sent1Tells(m.pending[moves[j].step.hsId].hs, n.pending[moves[k].step.hsId].hs);
    if j < k { LaterConclusionDiffers(worlds, moves, j, k); }
    if k < j { LaterConclusionDiffers(worlds, moves, k, j); }
  }

  /** Frames of one session can be replayed into any other: no two completions, of the same two managers
      or not, share a root, so what the network may deliver to a ratchet includes all of them. */
  lemma OtherSessionsAreForeign(worlds: seq<World>, moves: seq<Move>, j: nat, k: nat, h: H.History, g: H.History,
                                c: nat, n: nat)
    requires IsRunOf(worlds, moves) && j < |moves| && k < |moves| && j != k
    requires Concludes(worlds[j], moves[j]) && Concludes(worlds[k], moves[k])
    requires var a, b := FinalOf(worlds[j].managers[moves[j].who], moves[j].step),
                         FinalOf(worlds[k].managers[moves[k].who], moves[k].step);
      a.Some? && b.Some? && h.shared == RootKeyOf(a.value) && g.shared == RootKeyOf(b.value)
    requires H.Emitted(g, c, n)
    ensures H.Deliverable(h, H.CipherAt(g, c, n))
  {
    hide FinalOf, Completed, H.Deliverable, H.Emitted, H.CipherAt;
    if h.shared == g.shared { HashTellsConclusion(worlds, moves, j, k); }
    H.ForeignIsDeliverable(h, g, c, n);
  }

  // -- what is still held ----------------------------------------------------------------------------

  /** From world `from` to world `t`, manager `q` neither filed another session under this name nor dropped it. */
  ghost predicate Untouched(worlds: seq<World>, moves: seq<Move>, q: nat, signer: Signer, from: nat, t: nat) {
    forall i :: from <= i < t && i < |moves| && i < |worlds| && moves[i].who == q && q < |worlds[i].managers| ==>
      !Files(worlds[i].managers[q], moves[i].step, signer) && moves[i].step != Drop(signer)
  }

  lemma {:induction false} ManagersStay(worlds: seq<World>, moves: seq<Move>, q: nat, t: nat)
    requires IsRunOf(worlds, moves) && t <= |moves|
    ensures |worlds[t].managers| == |worlds[0].managers|
    ensures q < |worlds[0].managers| ==> worlds[t].managers[q].identity == worlds[0].managers[q].identity
  {
    hide Next, Signs, Deliverable;
    if t > 0 {
      ManagersStay(worlds, moves, q, t - 1);
      IdentityIsFixed(worlds[t - 1].managers[moves[t - 1].who], moves[t - 1].step);
    }
  }

  /** What one move leaves manager `q` under a name. */
  lemma MoveFilesOrKeeps(w: World, move: Move, q: nat, signer: Signer)
    requires move.who < |w.managers| && q < |w.managers|
    ensures var (m, m') := (w.managers[q], Act(w, move).managers[q]);
      if move.who == q && Files(m, move.step, signer)
      then signer in m'.sessions && Some(m'.sessions[signer]) == ChannelOf(m, move.step)
      else if move.who == q && move.step == Drop(signer) then signer !in m'.sessions
      else
        && (signer in m'.sessions <==> signer in m.sessions)
        && (signer in m.sessions ==> SameChannel(m'.sessions[signer], m.sessions[signer]))
  {
    hide Next, Signs, Files, ChannelOf;
    if move.who == q { StepFilesOrKeeps(w.managers[q], move.step, signer); }
  }

  lemma {:induction false} HeldStays(worlds: seq<World>, moves: seq<Move>, q: nat, signer: Signer, from: nat, t: nat)
    requires IsRunOf(worlds, moves) && from <= t <= |moves| && q < |worlds[0].managers|
    requires Untouched(worlds, moves, q, signer, from, t)
    ensures |worlds[from].managers| == |worlds[t].managers| == |worlds[0].managers|
    ensures var (a, b) := (worlds[from].managers[q].sessions, worlds[t].managers[q].sessions);
      (signer in a <==> signer in b) && (signer in a ==> SameChannel(a[signer], b[signer]))
    decreases t
  {
    hide Act, Deliverable, Files, ChannelOf;
    ManagersStay(worlds, moves, q, from);
    ManagersStay(worlds, moves, q, t);
    if from < t {
      HeldStays(worlds, moves, q, signer, from, t - 1);
      MoveFilesOrKeeps(worlds[t - 1], moves[t - 1], q, signer);
    }
  }

  /** The step that filed a session still held. */
  lemma {:induction false} LastFiling(worlds: seq<World>, moves: seq<Move>, q: nat, signer: Signer, t: nat)
    returns (k: nat)
    requires IsRunOf(worlds, moves) && t <= |moves| && q < |worlds[t].managers|
    requires signer in worlds[t].managers[q].sessions
    ensures k < t && moves[k].who == q && q < |worlds[k].managers|
    ensures Files(worlds[k].managers[q], moves[k].step, signer)
    ensures Untouched(worlds, moves, q, signer, k + 1, t)
  {
    hide Act, Deliverable, Files, ChannelOf;
    ManagersStay(worlds, moves, q, t);
    ManagersStay(worlds, moves, q, t - 1);
    MoveFilesOrKeeps(worlds[t - 1], moves[t - 1], q, signer);
    if moves[t - 1].who == q && Files(worlds[t - 1].managers[q], moves[t - 1].step, signer) {
      k := t - 1;
    } else {
      k := LastFiling(worlds, moves, q, signer, t - 1);
    }
  }

  // -- when two held sessions pair up --------------------------------------------------------------------

  /** The sessions of the initiator and of the responder of one handshake, whatever was sent since. */
  predicate Mirrored(a: Channel, b: Channel) {
    a.initiator && !b.initiator && a.sendTag == b.recvTag && a.recvTag == b.sendTag
  }

  ghost predicate DistinctSigners(w: World) {
    forall p, q :: 0 <= p < |w.managers| && 0 <= q < |w.managers|
                    && w.managers[p].identity.signer == w.managers[q].identity.signer
      ==> p == q
  }

  /** A session still held is the one its filing step derived. */
  lemma HeldIsFiled(worlds: seq<World>, moves: seq<Move>, q: nat, signer: Signer, k: nat, t: nat)
    requires IsRunOf(worlds, moves) && k < t <= |moves| && q < |worlds[0].managers| && moves[k].who == q
    requires q < |worlds[k].managers| && Files(worlds[k].managers[q], moves[k].step, signer)
    requires Untouched(worlds, moves, q, signer, k + 1, t)
    ensures q < |worlds[k + 1].managers| && q < |worlds[t].managers|
    ensures signer in worlds[k + 1].managers[q].sessions && signer in worlds[t].managers[q].sessions
    ensures Some(worlds[k + 1].managers[q].sessions[signer]) == ChannelOf(worlds[k].managers[q], moves[k].step)
    ensures SameChannel(worlds[t].managers[q].sessions[signer], worlds[k + 1].managers[q].sessions[signer])
  {
    hide Act, Deliverable, Files, ChannelOf, Untouched;
    MoveFilesOrKeeps(worlds[k], moves[k], q, signer);
    HeldStays(worlds, moves, q, signer, k + 1, t);
  }

  lemma FilesByRole(m: Manager, step: Step, signer: Signer)
    requires Files(m, step, signer) && ChannelOf(m, step).Some?
    ensures step.OnResponse? || step.OnFin?
    ensures step.OnResponse? <==> ChannelOf(m, step).value.initiator
  {
    hide Read2, Read3, Write3, HandleFin, HandleResponse;
  }

  /** A responder's filing under an honest manager's name completes a handshake. */
  lemma FilingCompletes(w: World, move: Move, p: nat, signer: Signer)
    requires move.who < |w.managers| && p < |w.managers| && w.managers[p].identity.signer == signer
    requires Files(w.managers[move.who], move.step, signer) && move.step.OnFin?
    ensures Completes(w, move)
  {
    hide ProofOf, HandleFin;
  }

  lemma CompletionFiles(w: World, move: Move)
    requires Completes(w, move)
    ensures Files(w.managers[move.who], move.step, ProofOf(w.managers[move.who], move.step).value.0.payload.signer)
  {
    hide ProofOf, HandleFin;
  }

  lemma PairedMirrors(a: Channel, b: Channel)
    requires Paired(a, b)
    ensures Mirrored(a, b)
  {}

  /** The handshake a responder completed is the one that filed the initiator's session, if their tags match. */
  lemma MirroredMeansAgree(worlds: seq<World>, moves: seq<Move>, p: nat, q: nat, j: nat, k: nat)
    requires IsRunOf(worlds, moves) && DistinctSigners(worlds[0]) && j < |moves| && k < |moves|
    requires p < |worlds[j].managers| && q < |worlds[k].managers| && moves[j].who == p && moves[k].who == q
    requires Concludes(worlds[j], moves[j]) && Completes(worlds[k], moves[k])
    requires ProofOf(worlds[k].managers[q], moves[k].step).value.0.payload.signer
          == worlds[j].managers[p].identity.signer
    requires var a, b := ChannelOf(worlds[j].managers[p], moves[j].step),
                         ChannelOf(worlds[k].managers[q], moves[k].step);
      a.Some? && b.Some? && Mirrored(a.value, b.value)
    ensures Agree(worlds, moves, j, k)
  {
    hide Act, Enabled, Completes, Completed, ProofOf, ChannelOf, FinalOf, Next, Paired;
    var ini, res := worlds[j].managers[p].identity.signer, worlds[k].managers[q].identity.signer;
    var j' := BothEndsFinish(worlds, moves, k);
    var p' := moves[j'].who;
    ManagersStay(worlds, moves, p', j');
    ManagersStay(worlds, moves, p', j' + 1);
    ManagersStay(worlds, moves, p, j);
    ManagersStay(worlds, moves, q, k);
    ManagersStay(worlds, moves, q, k + 1);
    MoveFilesOrKeeps(worlds[j'], moves[j'], p, res);
    CompletionFiles(worlds[k], moves[k]);
    MoveFilesOrKeeps(worlds[k], moves[k], q, ini);
    PairedMirrors(worlds[j' + 1].managers[p].sessions[res], worlds[k + 1].managers[q].sessions[ini]);
    ConcludedChannel(worlds[j].managers[p], moves[j].step);
    FilesByRole(worlds[j'].managers[p], moves[j'].step, res);
    ConcludedChannel(worlds[j'].managers[p], moves[j'].step);
    HashTellsConclusion(worlds, moves, j, j');
  }

  /** Manager `p` holds a session for manager `q`. */
  predicate HoldsFor(w: World, p: nat, q: nat) {
    p < |w.managers| && q < |w.managers| && w.managers[q].identity.signer in w.managers[p].sessions
  }

  function SessionFor(w: World, p: nat, q: nat): Channel
    requires HoldsFor(w, p, q)
  {
    w.managers[p].sessions[w.managers[q].identity.signer]
  }

  /** Step `j` filed the session that `p` holds for `q` in world `t`. */
  ghost predicate FiledAt(worlds: seq<World>, moves: seq<Move>, p: nat, q: nat, j: nat, t: nat)
    requires t < |worlds| && HoldsFor(worlds[t], p, q)
  {
    && j < t && j < |moves| && moves[j].who == p && p < |worlds[j].managers|
    && Files(worlds[j].managers[p], moves[j].step, worlds[t].managers[q].identity.signer)
    && Untouched(worlds, moves, p, worlds[t].managers[q].identity.signer, j + 1, t)
  }

  lemma FiledIsHeld(worlds: seq<World>, moves: seq<Move>, p: nat, q: nat, j: nat, t: nat)
    requires IsRunOf(worlds, moves) && t <= |moves| && HoldsFor(worlds[t], p, q) && FiledAt(worlds, moves, p, q, j, t)
    ensures HoldsFor(worlds[j + 1], p, q) && q < |worlds[j].managers|
    ensures worlds[j].managers[p].identity == worlds[j + 1].managers[p].identity == worlds[t].managers[p].identity
    ensures worlds[j].managers[q].identity == worlds[j + 1].managers[q].identity == worlds[t].managers[q].identity
    ensures ChannelOf(worlds[j].managers[p], moves[j].step) == Some(SessionFor(worlds[j + 1], p, q))
    ensures SameChannel(SessionFor(worlds[t], p, q), SessionFor(worlds[j + 1], p, q))
  {
    hide Act, Enabled, Files, ChannelOf, Untouched;
    ManagersStay(worlds, moves, p, t);
    ManagersStay(worlds, moves, q, t);
    ManagersStay(worlds, moves, p, j);
    ManagersStay(worlds, moves, q, j);
    ManagersStay(worlds, moves, p, j + 1);
    ManagersStay(worlds, moves, q, j + 1);
    HeldIsFiled(worlds, moves, p, worlds[t].managers[q].identity.signer, j, t);
  }

  /** Every session held was filed at some step and left alone since. */
  lemma SomeStepFiled(worlds: seq<World>, moves: seq<Move>, p: nat, q: nat, t: nat) returns (j: nat)
    requires IsRunOf(worlds, moves) && t <= |moves| && HoldsFor(worlds[t], p, q)
    ensures FiledAt(worlds, moves, p, q, j, t)
  {
    hide Act, Enabled, Files, Untouched;
    j := LastFiling(worlds, moves, p, worlds[t].managers[q].identity.signer, t);
  }

  lemma MirroredEnds(worlds: seq<World>, moves: seq<Move>, p: nat, q: nat, j: nat, k: nat, t: nat)
    requires IsRunOf(worlds, moves) && DistinctSigners(worlds[0]) && t <= |moves|
    requires HoldsFor(worlds[t], p, q) && HoldsFor(worlds[t], q, p)
    requires FiledAt(worlds, moves, p, q, j, t) && FiledAt(worlds, moves, q, p, k, t)
    requires Mirrored(SessionFor(worlds[t], p, q), SessionFor(worlds[t], q, p))
    ensures Completes(worlds[k], moves[k]) && Agree(worlds, moves, j, k)
  {
    hide Act, Enabled, ChannelOf, Untouched, Completes, Paired, ProofOf, Completed;
    FiledIsHeld(worlds, moves, p, q, j, t);
    FiledIsHeld(worlds, moves, q, p, k, t);
    var ini, res := worlds[t].managers[p].identity.signer, worlds[t].managers[q].identity.signer;
    FilesByRole(worlds[j].managers[p], moves[j].step, res);
    FilesByRole(worlds[k].managers[q], moves[k].step, ini);
    FilingCompletes(worlds[k], moves[k], p, ini);
    MirroredMeansAgree(worlds, moves, p, q, j, k);
  }

  /** Two managers hold sessions for each other. They are initiator's and responder's of one handshake
      exactly when the steps that filed them are its two ends; a session filed over since pairs with nothing. */
  lemma HeldPairExactly(worlds: seq<World>, moves: seq<Move>, p: nat, q: nat, j: nat, k: nat, t: nat)
    requires IsRunOf(worlds, moves) && DistinctSigners(worlds[0]) && t <= |moves|
    requires HoldsFor(worlds[t], p, q) && HoldsFor(worlds[t], q, p)
    requires FiledAt(worlds, moves, p, q, j, t) && FiledAt(worlds, moves, q, p, k, t)
    ensures Mirrored(SessionFor(worlds[t], p, q), SessionFor(worlds[t], q, p))
       <==> Completes(worlds[k], moves[k]) && Agree(worlds, moves, j, k)
  {
    hide Act, Enabled, Files, ChannelOf, Untouched, Completes, Paired, ProofOf;
    FiledIsHeld(worlds, moves, p, q, j, t);
    FiledIsHeld(worlds, moves, q, p, k, t);
    if Mirrored(SessionFor(worlds[t], p, q), SessionFor(worlds[t], q, p)) {
      MirroredEnds(worlds, moves, p, q, j, k, t);
    }
    if Completes(worlds[k], moves[k]) && Agree(worlds, moves, j, k) {
      PairedMirrors(SessionFor(worlds[j + 1], p, q), SessionFor(worlds[k + 1], q, p));
    }
  }

  // -- when both sides start ---------------------------------------------------------------------------

  /** The key pairs that two managers `a` and `b` draw in turn. */
  datatype CrossedDraws = CrossedDraws(startA: KeyPair, startB: KeyPair, answerA: KeyPair, answerB: KeyPair,
                                       ratchetA: KeyPair, ratchetB: KeyPair, sendA: KeyPair, sendB: KeyPair)

  /** Both managers start a handshake, and all messages cross. */
  function Crossed(a: Manager, b: Manager, d: CrossedDraws, idA: Bytes, idB: Bytes, now: real)
    : Option<(Manager, Manager)>
  {
    var (m1a, a1) := StartHandshake(a, idA, d.startA, now);
    var (m1b, b1) := StartHandshake(b, idB, d.startB, now);
    var (m2a, a2) := HandleInit(a1, idB, Some(m1b), d.answerA, d.ratchetA, now);
    var (m2b, b2) := HandleInit(b1, idA, Some(m1a), d.answerB, d.ratchetB, now);
    var (m3a, a3) := HandleResponse(a2, idA, m2b, d.sendA, now);
    var (m3b, b3) := HandleResponse(b2, idB, m2a, d.sendB, now);
    if !m3a.Done? || !m3b.Done? then None
    else
      var (doneA, a4) := HandleFin(a3, idB, Some(m3b.value), now);
      var (doneB, b4) := HandleFin(b3, idA, Some(m3a.value), now);
      if doneA.Done? && doneB.Done? then Some((a4, b4)) else None
  }

  /** Nothing can be sent in this session until something was received in it. */
  ghost predicate Mute(c: Channel) {
    !c.initiator && forall plaintext, ad :: R.Encrypt(c.ratchet, plaintext, ad) == (None, c.ratchet)
  }

  lemma ResponderIsMute(hs: Handshake, ratchet: KeyPair)
    ensures Mute(ResponderChannel(hs, ratchet))
  {}

  /** A manager with one handshake begun answers another. */
  lemma BothBegun(m: Manager, own: Bytes, theirs: Bytes, start: KeyPair, m1: Public, answer: KeyPair, ratchet: KeyPair,
                  now: real, i1: Handshake, r1: Handshake, m2: Message2, r2: Handshake)
    requires m.pending == map[] && own != theirs
    requires Write1(Start(true, m.identity.s, PROLOGUE), start) == (Some(PublicOf(start)), i1)
    requires Read1(Start(false, m.identity.s, PROLOGUE), Some(m1)) == Some(r1)
    requires Write2(r1, answer, Prove(m.identity, Some(PublicOf(ratchet)))) == Some((m2, r2))
    ensures HandleInit(StartHandshake(m, own, start, now).1, theirs, Some(m1), answer, ratchet, now)
         == (Some(m2), m.(pending := map[own := Pending(i1, now, None), theirs := Pending(r2, now, Some(ratchet))]))
  {
    hide Write1, Read1, Write2;
    var begun: map<Bytes, Pending> := map[own := Pending(i1, now, None)];
    assert Expire(m.pending, now) == map[] && Expire(begun, now) == begun;
    assert begun[theirs := Pending(r2, now, Some(ratchet))]
        == map[own := Pending(i1, now, None), theirs := Pending(r2, now, Some(ratchet))];
    assert |begun| == 1;
  }

  /** It then finishes its own as initiator and the other as responder, which files over the first. */
  lemma BothFinish(m: Manager, own: Bytes, theirs: Bytes, now: real, m2: Message2, send: KeyPair, p2: Proof,
                   i2: Handshake, m3: Message3, i3: Handshake, m3': Message3, p3: Proof, r3: Handshake)
    requires own in m.pending && m.pending[own].hs.initiator && own != theirs
    requires Read2(m.pending[own].hs, Some(m2)) == Some((p2, i2)) && Verifies(p2)
    requires Write3(i2, Prove(m.identity, None)) == Some((m3, i3))
    requires p2.payload.ratchet.Some? && !p2.payload.ratchet.value.LowOrder?
    requires theirs in m.pending && !m.pending[theirs].hs.initiator && m.pending[theirs].ratchetPrivate.Some?
    requires Read3(m.pending[theirs].hs, Some(m3')) == Some((p3, r3)) && Verifies(p3)
    requires p3.payload.signer == p2.payload.signer && p3.remote == p2.remote
    requires p2.payload.signer in m.trust ==> m.trust[p2.payload.signer].remote == p2.remote
    ensures var (r, m') := HandleResponse(m, own, Some(m2), send, now);
      && r == Done(m3)
      && var (r', m'') := HandleFin(m', theirs, Some(m3'), now);
      && r' == Done(()) && p2.payload.signer in m''.sessions
      && m''.sessions[p2.payload.signer] == ResponderChannel(r3, m.pending[theirs].ratchetPrivate.value)
  {
    hide Read2, Read3, Write3, InitiatorChannel, ResponderChannel, HandleResponse, HandleFin;
    InitiatorChannelOf(i3, p2.payload.ratchet.value, send);
    var channel := InitiatorChannel(i3, p2.payload.ratchet.value, send).value;
    InitiatorFiles(m, own, m2, send, now, p2, i2, m3, i3, channel);
    ResponderFiles(HandleResponse(m, own, Some(m2), send, now).1, theirs, m3', now, p3, r3,
                   m.pending[theirs].ratchetPrivate.value);
  }

  /** Two managers that start handshakes with each other at once, all messages delivered as sent, both
      complete both of them, and are left with two responder sessions that do not pair up: neither can
      send the first message. */
  lemma CrossedSessionsAreMute(a: Manager, b: Manager, d: CrossedDraws, idA: Bytes, idB: Bytes, now: real)
    requires a.pending == map[] && b.pending == map[] && idA != idB
    requires d.startA.Honest? && d.startB.Honest? && d.answerA.Honest? && d.answerB.Honest?
    requires PinAllows(a.trust, b.identity) && PinAllows(b.trust, a.identity)
    ensures Crossed(a, b, d, idA, idB, now).Some?
    ensures var (a', b') := Crossed(a, b, d, idA, idB, now).value;
      && b.identity.signer in a'.sessions && a.identity.signer in b'.sessions
      && Mute(a'.sessions[b.identity.signer]) && Mute(b'.sessions[a.identity.signer])
  {
    hide Read1, Read2, Read3, Write1, Write2, Write3, HandleInit, HandleResponse, HandleFin, ResponderChannel;
    hide RestsOn, Mute;
    var i1a, r1a, m2b, r2a, p2b, i2a, m3a, i3a, p3a, r3a :=
      UndisturbedStates(a.identity, b.identity, d.startA, d.answerB, d.ratchetB);
    var i1b, r1b, m2a, r2b, p2a, i2b, m3b, i3b, p3b, r3b :=
      UndisturbedStates(b.identity, a.identity, d.startB, d.answerA, d.ratchetA);
    BothBegun(a, idA, idB, d.startA, PublicOf(d.startB), d.answerA, d.ratchetA, now, i1a, r1b, m2a, r2b);
    BothBegun(b, idB, idA, d.startB, PublicOf(d.startA), d.answerB, d.ratchetB, now, i1b, r1a, m2b, r2a);
    var a2 := HandleInit(StartHandshake(a, idA, d.startA, now).1, idB, Some(PublicOf(d.startB)), d.answerA,
                         d.ratchetA, now).1;
    var b2 := HandleInit(StartHandshake(b, idB, d.startB, now).1, idA, Some(PublicOf(d.startA)), d.answerB,
                         d.ratchetB, now).1;
    BothFinish(a2, idA, idB, now, m2b, d.sendA, p2b, i2a, m3a, i3a, m3b, p3b, r3b);
    BothFinish(b2, idB, idA, now, m2a, d.sendB, p2a, i2b, m3b, i3b, m3a, p3a, r3a);
    ResponderIsMute(r3a, d.ratchetB);
    ResponderIsMute(r3b, d.ratchetA);
  }
}
