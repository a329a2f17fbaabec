/** Two honest parties over a network that reorders, drops, duplicates and injects frames,
    and what holds in every run.
*/
module RatchetWorld {
  import opened SymbolicCrypto
  import opened Ratchet
  import opened RatchetHistory
  import opened RatchetLedger
  import opened RatchetParty
  import opened RatchetAccept

  datatype Side = Initiator | Responder

  datatype World = World(h: History, ini: Party, res: Party)

  function Other(side: Side): Side {
    if side.Initiator? then Responder else Initiator
  }

  function At(w: World, side: Side): Party {
    if side.Initiator? then w.ini else w.res
  }

  function With(w: World, h: History, side: Side, p: Party): World {
    if side.Initiator? then World(h, p, w.res) else World(h, w.ini, p)
  }

  /** `draw` is the key pair the party's generator would hand out during that call. */
  datatype Action =
    | Send(side: Side, plaintext: Bytes, ad: Bytes)
    | Receive(side: Side, header: Header, cipher: Cipher, ad: Bytes, draw: KeyPair)

  ghost predicate Enabled(w: World, a: Action) {
    a.Receive? ==> Deliverable(w.h, a.cipher) && a.draw.Honest? && a.draw !in w.h.keys
  }

  function Sending(h: History, c: nat, m: Sent): History {
    h.(sent := seq(|h.sent|, i requires 0 <= i < |h.sent| => if i == c then h.sent[i] + [m] else h.sent[i]))
  }

  /** One step: the real operation runs, and the history notes what it did. */
  function Step(w: World, a: Action): World {
    var p := At(w, a.side);
    match a
    case Send(side, plaintext, ad) =>
      var st' := Encrypt(p.st, plaintext, ad).1;
      if p.st.cks.None? then With(w, w.h, side, p.(st := st'))
      else With(w, Sending(w.h, p.epoch, Sent(plaintext, ad)), side, p.(st := st'))
    case Receive(side, header, cipher, ad, draw) =>
      var (r, st') := Decrypt(p.st, header, cipher, ad, draw);
      if r.None? then With(w, w.h, side, p.(st := st'))
      else With(w, Grown(w.h, p, st', draw), side, Noted(p, st', FrameId(header.pub, header.n)))
  }

  function Run(w: World, actions: seq<Action>): World {
    if actions == [] then w else Step(Run(w, actions[..|actions| - 1]), actions[|actions| - 1])
  }

  ghost predicate Feasible(w: World, actions: seq<Action>) {
    forall i :: 0 <= i < |actions| ==> Enabled(Run(w, actions[..i]), actions[i])
  }

  /** How a completed handshake leaves the two ratchets. */
  ghost predicate Starts(w: World) {
    && ValidHistory(w.h) && |w.h.keys| == 2 && w.h.sent == [[], []]
    && Some(w.ini.st) == InitSender(w.h.shared, PublicOf(w.h.keys[0]), w.h.keys[1])
    && w.res.st == InitReceiver(w.h.shared, w.h.keys[0])
    && w.ini == Party(w.ini.st, 1, [], {})
    && w.res == Party(w.res.st, 0, [], {})
  }

  ghost predicate Inv(w: World) {
    && ValidHistory(w.h)
    && PartyInv(w.h, w.ini) && PartyInv(w.h, w.res)
    && w.ini.epoch % 2 == 1 && w.res.epoch % 2 == 0
    && |w.h.keys| == (if w.ini.epoch > w.res.epoch then w.ini.epoch else w.res.epoch) + 1
    && (w.ini.epoch == w.res.epoch + 1 || w.res.epoch == w.ini.epoch + 1)
  }

  // -- every run keeps the invariant --------------------------------------------------

  lemma StartIsInv(w: World)
    requires Starts(w)
    ensures Inv(w)
  {
    var h := w.h;
    assert {h.keys[1], h.keys[0]} == Link(h, 1).pairs;
    assert RootKey(h, 1) == RootOf(RootKey(h, 0), Link(h, 1));
    assert Ids([]) == {} && Elements([]) == {};
    forall id ensures !Behind(h, 0, 0, id) && !Behind(h, 1, 0, id) {}
    assert PartyInv(h, w.res);
    assert PartyInv(h, w.ini);
  }

  /** The other party does not notice growth on chains it has not reached the end of. */
  lemma PartyFrame(h: History, h': History, p: Party)
    requires |h.keys| == |h.sent| && Extends(h, h') && PartyInv(h, p)
    requires forall c :: 0 <= c <= p.epoch && c + 1 != p.epoch ==> |h.sent[c]| == |h'.sent[c]|
    ensures PartyInv(h', p)
  {
    var e := p.epoch;
    LedgerFrame(h, h', e, p.st.nr, p.st.skipped, Elements(p.delivered), p.evicted);
    RootKeyStable(h, h', e);
    if e >= 1 { ChainKeyStable(h, h', e); }
    if e >= 2 { ChainKeyStable(h, h', e - 1); }
  }

  lemma SendKeepsParty(h: History, p: Party, m: Sent)
    requires ValidHistory(h) && PartyInv(h, p) && p.epoch >= 1
    ensures ValidHistory(Sending(h, p.epoch, m)) && Extends(h, Sending(h, p.epoch, m))
    ensures PartyInv(Sending(h, p.epoch, m), p.(st := Encrypt(p.st, m.plaintext, m.ad).1))
  {
    hide SkipLoop, Ledger;
    var h', e := Sending(h, p.epoch, m), p.epoch;
    LedgerFrame(h, h', e, p.st.nr, p.st.skipped, Elements(p.delivered), p.evicted);
    RootKeyStable(h, h', e);
    ChainKeyStable(h, h', e);
    if e >= 2 { ChainKeyStable(h, h', e - 1); }
  }

  /** An accepted frame keeps the receiver's invariant and grows the history by at most one chain. */
  lemma ReceiveKeepsParty(h: History, p: Party, header: Header, cipher: Cipher, ad: Bytes, draw: KeyPair)
    requires ValidHistory(h) && PartyInv(h, p) && p.epoch + 2 >= |h.keys|
    requires Deliverable(h, cipher) && draw.Honest? && draw !in h.keys
    requires Decrypt(p.st, header, cipher, ad, draw).0.Some?
    ensures var st' := Decrypt(p.st, header, cipher, ad, draw).1;
      var h' := Grown(h, p, st', draw);
      && ValidHistory(h') && Extends(h, h') && PartyInv(h', Noted(p, st', FrameId(header.pub, header.n)))
      && (st'.dhr != p.st.dhr ==> p.epoch + 2 == |h.keys|)
  {
    hide SkipLoop, Ledger, OnEpoch, Evict, Range;
    var c := AcceptedIsGenuine(h, p, header, cipher, ad, draw);
    var n := header.n;
    if IdAt(h, c, n) in Ids(p.st.skipped) {
      AcceptStored(h, p, c, n, header, cipher, ad, draw);
      InvAfterStored(h, p, Find(p.st.skipped, header.pub, n));
    } else if c + 1 == p.epoch {
      AcceptCurrent(h, p, c, n, header, cipher, ad, draw);
      InvAfterCurrent(h, p, c, n);
    } else {
      AcceptNext(h, p, n, header, cipher, ad, draw);
      InvAfterNext(h, p, n, draw);
    }
  }

  lemma SendKeepsInv(w: World, side: Side, plaintext: Bytes, ad: Bytes)
    requires Inv(w)
    ensures var w' := Step(w, Send(side, plaintext, ad)); Inv(w') && Extends(w.h, w'.h)
  {
    hide SkipLoop, Decrypt, Ledger, Advance, RootKey, ChainKey, Derivable;
    var p, m := At(w, side), Sent(plaintext, ad);
    assert p.st.cks.Some? ==> p.epoch >= 1;
    hide OnEpoch;
    if p.st.cks.Some? {
      SendKeepsParty(w.h, p, m);
      PartyFrame(w.h, Sending(w.h, p.epoch, m), At(w, Other(side)));
      hide ValidHistory, PartyInv, Extends;
    }
  }

  lemma ReceiveKeepsInv(w: World, side: Side, header: Header, cipher: Cipher, ad: Bytes, draw: KeyPair)
    requires Inv(w) && Enabled(w, Receive(side, header, cipher, ad, draw))
    ensures var w' := Step(w, Receive(side, header, cipher, ad, draw)); Inv(w') && Extends(w.h, w'.h)
  {
    hide SkipLoop, PartyInv, Decrypt;
    var p := At(w, side);
    var (r, st') := Decrypt(p.st, header, cipher, ad, draw);
    if r.Some? {
      ReceiveKeepsParty(w.h, p, header, cipher, ad, draw);
      PartyFrame(w.h, Grown(w.h, p, st', draw), At(w, Other(side)));
    } else {
      RefusalKeepsState(p.st, header, cipher, ad, draw);
    }
  }

  lemma StepKeepsInv(w: World, a: Action)
    requires Inv(w) && Enabled(w, a)
    ensures Inv(Step(w, a)) && Extends(w.h, Step(w, a).h)
  {
    hide Step;
    match a
    case Send(side, plaintext, ad) => SendKeepsInv(w, side, plaintext, ad);
    case Receive(side, header, cipher, ad, draw) => ReceiveKeepsInv(w, side, header, cipher, ad, draw);
  }

  lemma FeasiblePrefix(w: World, actions: seq<Action>, k: nat)
    requires Feasible(w, actions) && k <= |actions|
    ensures Feasible(w, actions[..k])
  {
    forall i | 0 <= i < k ensures Enabled(Run(w, actions[..k][..i]), actions[..k][i]) {
      assert actions[..k][..i] == actions[..i];
    }
  }

  /** Every reachable state satisfies the invariant, and history only grows. */
  lemma {:induction false} RunKeepsInv(w: World, actions: seq<Action>)
    requires Inv(w) && Feasible(w, actions)
    ensures Inv(Run(w, actions)) && Extends(w.h, Run(w, actions).h)
  {
    hide Step, Inv, Enabled;
    if actions == [] {
      assert Extends(w.h, w.h) by { InvHistory(w); }
    } else {
      var before := actions[..|actions| - 1];
      FeasiblePrefix(w, actions, |actions| - 1);
      RunKeepsInv(w, before);
      StepKeepsInv(Run(w, before), actions[|actions| - 1]);
    }
  }

  lemma InvHistory(w: World)
    requires Inv(w)
    ensures ValidHistory(w.h)
  {}

  // -- ping-pong agreement ---------------------------------------------------------------

  /** `ahead` made the newest DH step: its root key and sending chain are what `behind` will
      derive from it, and its receiving chain is the one `behind` sends on.
  */
  ghost predicate OneAhead(ahead: State, behind: State) {
    var link := Dh({behind.dhs, ahead.dhs});
    && ahead.dhr == Some(PublicOf(behind.dhs))
    && ahead.rk == RootOf(behind.rk, link)
    && ahead.cks == Some(Advance(ChainOf(behind.rk, link), ahead.ns))
    && (if behind.cks.None? then ahead.ckr.None?
        else exists ck :: behind.cks == Some(Advance(ck, behind.ns))
               && ahead.ckr == Some(Advance(ck, ahead.nr)) && ahead.nr <= behind.ns)
  }

  lemma PingPong(w: World)
    requires Inv(w)
    ensures w.ini.epoch == w.res.epoch + 1 ==> OneAhead(w.ini.st, w.res.st)
    ensures w.res.epoch == w.ini.epoch + 1 ==> OneAhead(w.res.st, w.ini.st)
  {
    hide Ledger;
    var h := w.h;
    var (ahead, behind) := if w.ini.epoch > w.res.epoch then (w.ini, w.res) else (w.res, w.ini);
    var e := behind.epoch;
    assert {h.keys[e], h.keys[e + 1]} == Link(h, e + 1).pairs;
    assert RootKey(h, e + 1) == RootOf(RootKey(h, e), Link(h, e + 1));
    if e >= 1 {
      assert behind.st.cks == Some(Advance(ChainKey(h, e), behind.st.ns));
    }
  }

  /** Chain `c` is one the party at `side` receives: its peer opened it. */
  predicate FromPeer(w: World, side: Side, c: nat) {
    0 < c <= At(w, Other(side)).epoch && (At(w, Other(side)).epoch - c) % 2 == 0
  }

  /** A ratchet key the receiver has not seen is the very next one, and its `pn` is the length of
      the peer's previous chain. */
  lemma NewKeyIsNext(w: World, side: Side, c: nat, n: nat)
    requires Inv(w) && Emitted(w.h, c, n) && FromPeer(w, side, c) && c > At(w, side).epoch
    ensures c == At(w, side).epoch + 1 == At(w, Other(side)).epoch
    ensures HeaderAt(w.h, c, n).pub == PublicOf(At(w, Other(side)).st.dhs)
    ensures HeaderAt(w.h, c, n).pn == At(w, Other(side)).st.pn == (if c >= 2 then |w.h.sent[c - 2]| else 0)
  {}

  // -- exact delivery -----------------------------------------------------------------------

  /** The frame is message `header.n` of the peer's chain `c`, unchanged, it carried `pt`, and
      it lies inside the receiver's window. */
  predicate Carries(w: World, side: Side, c: nat, header: Header, cipher: Cipher, ad: Bytes, pt: Bytes) {
    && FromPeer(w, side, c) && IsGenuine(w.h, c, header.n, header, cipher, ad)
    && InWindow(w.h, At(w, side), c, header.n) && w.h.sent[c][header.n].plaintext == pt
  }

  /** Decryption returns `pt` exactly when the frame carries it; everything else is refused. */
  lemma DeliveryIsExact(w: World, side: Side, header: Header, cipher: Cipher, ad: Bytes, draw: KeyPair, pt: Bytes)
    requires Inv(w) && Enabled(w, Receive(side, header, cipher, ad, draw))
    ensures Decrypt(At(w, side).st, header, cipher, ad, draw).0 == Some(pt)
       <==> exists c :: Carries(w, side, c, header, cipher, ad, pt)
  {
    hide SkipLoop, Decrypt, PartyInv, InWindow;
    var p := At(w, side);
    if Decrypt(p.st, header, cipher, ad, draw).0.Some? {
      var c := AcceptedIsGenuine(w.h, p, header, cipher, ad, draw);
      PeerChain(w, side, c);
      assert Carries(w, side, c, header, cipher, ad, w.h.sent[c][header.n].plaintext);
    }
    if c :| Carries(w, side, c, header, cipher, ad, pt) {
      WindowIsComplete(w.h, p, c, header, cipher, ad, draw);
    }
  }

  /** The same, said of every run from a completed handshake. */
  lemma DeliveryIsExactInEveryRun(w: World, actions: seq<Action>, side: Side, header: Header, cipher: Cipher,
                                  ad: Bytes, draw: KeyPair, pt: Bytes)
    requires Starts(w) && Feasible(w, actions)
    requires Enabled(Run(w, actions), Receive(side, header, cipher, ad, draw))
    ensures Decrypt(At(Run(w, actions), side).st, header, cipher, ad, draw).0 == Some(pt)
       <==> exists c :: Carries(Run(w, actions), side, c, header, cipher, ad, pt)
  {
    hide Starts, Inv, Run, Feasible, Enabled, Carries, Decrypt;
    StartIsInv(w);
    RunKeepsInv(w, actions);
    DeliveryIsExact(Run(w, actions), side, header, cipher, ad, draw, pt);
  }

  /** Of two neighbouring epochs, the chains of the second as the first one counts them. */
  lemma Neighbours(e: nat, f: nat, c: nat)
    requires f == e + 1 || e == f + 1
    ensures 0 < c <= f && (f - c) % 2 == 0 <==> (c <= f && c == e + 1) || Receives(e, c)
  {}

  lemma PeerChain(w: World, side: Side, c: nat)
    requires Inv(w)
    ensures ValidHistory(w.h) && PartyInv(w.h, At(w, side))
    ensures FromPeer(w, side, c) <==> c < |w.h.keys| && (Receives(At(w, side).epoch, c) || c == At(w, side).epoch + 1)
  {
    hide PartyInv, ValidHistory, Receives;
    Neighbours(At(w, side).epoch, At(w, Other(side)).epoch, c);
    ReceivesBelow(At(w, side).epoch, c);
  }

  lemma ReceivesBelow(e: nat, c: nat)
    ensures Receives(e, c) ==> c < e
  {}

  lemma WindowIsComplete(h: History, p: Party, c: nat, header: Header, cipher: Cipher, ad: Bytes, draw: KeyPair)
    requires ValidHistory(h) && PartyInv(h, p) && IsGenuine(h, c, header.n, header, cipher, ad)
    requires InWindow(h, p, c, header.n)
    ensures Decrypt(p.st, header, cipher, ad, draw).0 == Some(h.sent[c][header.n].plaintext)
  {
    hide SkipLoop, Decrypt, PartyInv;
    if IdAt(h, c, header.n) in Ids(p.st.skipped) {
      AcceptStored(h, p, c, header.n, header, cipher, ad, draw);
    } else if c + 1 == p.epoch {
      AcceptCurrent(h, p, c, header.n, header, cipher, ad, draw);
    } else {
      AcceptNext(h, p, header.n, header, cipher, ad, draw);
    }
  }

  // -- conservation and survival ----------------------------------------------------------

  /** Of the messages a party has moved past, each was delivered, is stored, or was evicted;
      of the others, none was. */
  lemma KeysAreConserved(w: World, side: Side, c: nat, n: nat)
    requires Inv(w) && FromPeer(w, side, c)
    ensures var p, id := At(w, side), IdAt(w.h, c, n);
      var (delivered, stored, evicted) := (id in p.delivered, id in Ids(p.st.skipped), id in p.evicted);
      && (delivered || stored || evicted <==> c < p.epoch && n < Passed(w.h, p.epoch, p.st.nr, c))
      && !(delivered && stored) && !(delivered && evicted) && !(stored && evicted)
  {
    hide Inv, FromPeer, ValidHistory, PartyInv, Receives, Passed, Behind, Ledger, Ids;
    var p := At(w, side);
    PeerChain(w, side, c);
    ReceivesBelow(p.epoch, c);
    PartyFacts(w.h, p);
    BehindAt(w.h, p.epoch, p.st.nr, c, n);
    LedgerAt(w.h, p.epoch, p.st.nr, p.st.skipped, Elements(p.delivered), p.evicted, IdAt(w.h, c, n));
  }

  /** Keys skipped by an accepted frame outlive that frame's own eviction, and the table stays bounded. */
  lemma NewKeysSurvive(w: World, side: Side, header: Header, cipher: Cipher, ad: Bytes, draw: KeyPair, id: FrameId)
    requires Inv(w) && Enabled(w, Receive(side, header, cipher, ad, draw))
    requires Decrypt(At(w, side).st, header, cipher, ad, draw).0.Some?
    ensures var p := At(w, side);
      var w' := Step(w, Receive(side, header, cipher, ad, draw));
      var p' := At(w', side);
      && |p'.st.skipped| <= MAX_SKIPPED_KEYS
      && (Behind(w'.h, p'.epoch, p'.st.nr, id) && !Behind(w.h, p.epoch, p.st.nr, id)
          ==> id == FrameId(header.pub, header.n) || id in Ids(p'.st.skipped))
  {
    hide SkipLoop, Decrypt, Evict, OnEpoch, ValidHistory;
    ReceiveKeepsInv(w, side, header, cipher, ad, draw);
    ElementsOfAppend(At(w, side).delivered, FrameId(header.pub, header.n));
  }

  // -- at most once ---------------------------------------------------------------------------

  /** Action `i` of the run is a frame that `side` accepts. */
  predicate Accepts(w: World, actions: seq<Action>, i: nat, side: Side) {
    && i < |actions| && actions[i].Receive? && actions[i].side == side
    && var a := actions[i];
      Decrypt(At(Run(w, actions[..i]), side).st, a.header, a.cipher, a.ad, a.draw).0.Some?
  }

  function AcceptedId(a: Action): FrameId
    requires a.Receive?
  {
    FrameId(a.header.pub, a.header.n)
  }

  lemma DeliveredGrows(w: World, a: Action, side: Side)
    ensures At(w, side).delivered <= At(Step(w, a), side).delivered
    ensures a.Receive? && a.side == side && Decrypt(At(w, side).st, a.header, a.cipher, a.ad, a.draw).0.Some?
      ==> At(Step(w, a), side).delivered == At(w, side).delivered + [AcceptedId(a)]
  {
    hide Decrypt;
    if a.Receive? {
      var (r, st') := Decrypt(At(w, a.side).st, a.header, a.cipher, a.ad, a.draw);
    }
  }

  lemma {:induction false} DeliveredStays(w: World, actions: seq<Action>, i: nat, j: nat, side: Side)
    requires i < j <= |actions| && Accepts(w, actions, i, side)
    ensures AcceptedId(actions[i]) in At(Run(w, actions[..j]), side).delivered
    decreases j
  {
    hide Decrypt, Step;
    assert actions[..j][..j - 1] == actions[..j - 1];
    DeliveredGrows(Run(w, actions[..j - 1]), actions[j - 1], side);
    if i < j - 1 { DeliveredStays(w, actions, i, j - 1, side); }
  }

  lemma NothingTwice(w: World, side: Side)
    requires Inv(w)
    ensures forall i, j :: 0 <= i < j < |At(w, side).delivered| ==> At(w, side).delivered[i] != At(w, side).delivered[j]
  {
    hide ValidHistory, OnEpoch, Ledger;
  }

  /** Over a whole run no message is accepted twice, however it is replayed. */
  lemma AtMostOnce(w: World, actions: seq<Action>, i: nat, j: nat, side: Side)
    requires Starts(w) && Feasible(w, actions)
    requires i < j && Accepts(w, actions, i, side) && Accepts(w, actions, j, side)
    ensures AcceptedId(actions[i]) != AcceptedId(actions[j])
  {
    hide Decrypt, Step, Inv, Starts, Enabled;
    StartIsInv(w);
    FeasiblePrefix(w, actions, j + 1);
    RunKeepsInv(w, actions[..j + 1]);
    assert actions[..j + 1][..j] == actions[..j];
    DeliveredStays(w, actions, i, j, side);
    DeliveredGrows(Run(w, actions[..j]), actions[j], side);
    var d, w' := At(Run(w, actions[..j]), side).delivered, Run(w, actions[..j + 1]);
    assert w' == Step(Run(w, actions[..j]), actions[j]);
    NothingTwice(w', side);
    var k :| 0 <= k < |d| && d[k] == AcceptedId(actions[i]);
    assert At(w', side).delivered[k] != At(w', side).delivered[|d|];
  }
}
