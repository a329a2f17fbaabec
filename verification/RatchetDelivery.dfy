/** From one party's encryption to the other's decryption: the frames that `Encrypt` returns are the
    frames the delivery theorems speak of, and nothing else is ever accepted.
*/
module RatchetDelivery {
  import opened SymbolicCrypto
  import opened Ratchet
  import opened RatchetHistory
  import opened RatchetParty
  import opened RatchetWorld

  // -- what a send puts out -----------------------------------------------------------------

  /** The frame a party would send now, if it sends at all. */
  function Outgoing(w: World, side: Side, plaintext: Bytes, ad: Bytes): Option<Frame> {
    Encrypt(At(w, side).st, plaintext, ad).0
  }

  /** Message `n` of chain `c` was encrypted, whether or not its counter still fitted a frame. */
  predicate Written(h: History, c: nat, n: nat) {
    0 < c < |h.keys| == |h.sent| && n < |h.sent[c]|
  }

  lemma OwnChain(h: History, p: Party)
    requires ValidHistory(h) && PartyInv(h, p)
    ensures p.epoch < |h.keys| == |h.sent| && p.st.ns == |h.sent[p.epoch]| && p.st.pn == PnOf(h, p.epoch)
    ensures p.st.dhs == h.keys[p.epoch] && (p.st.cks.None? <==> p.epoch == 0)
    ensures p.epoch > 0 ==> p.st.cks == Some(Advance(ChainKey(h, p.epoch), p.st.ns))
  {}

  /** Sending on chain `e` leaves its key, its header fields and the keys of every chain alone. */
  lemma SendingKeeps(h: History, e: nat, m: Sent)
    requires ValidHistory(h) && 0 < e < |h.keys|
    ensures var h' := Sending(h, e, m);
      && h'.keys == h.keys && |h'.sent| == |h.sent| && h'.sent[e] == h.sent[e] + [m]
      && PnOf(h', e) == PnOf(h, e) && ChainKey(h', e) == ChainKey(h, e)
  {
    ChainKeyStable(h, Sending(h, e, m), e);
  }

  /** What goes out is exactly the next message of the party's own chain, under its own key and header;
      nothing goes out without a sending chain, or once a counter outgrew its four bytes. */
  lemma SendEmits(w: World, side: Side, plaintext: Bytes, ad: Bytes)
    requires Inv(w)
    ensures var e, out := At(w, side).epoch, Outgoing(w, side, plaintext, ad);
      var h' := Step(w, Send(side, plaintext, ad)).h;
      && e < |w.h.sent| <= |h'.sent| && (e == 0 ==> out.None?)
      && (e > 0 ==>
            var n := |w.h.sent[e]|;
            && Written(h', e, n) && h'.sent[e][n] == Sent(plaintext, ad)
            && (out.Some? <==> Emitted(h', e, n))
            && (out.Some? ==> out == Some(Frame(HeaderAt(h', e, n), CipherAt(h', e, n)))))
  {
    hide ChainKey, Advance, PartyInv, ValidHistory, PnOf;
    InvHistory(w);
    assert PartyInv(w.h, At(w, side));
    OwnChain(w.h, At(w, side));
    if At(w, side).epoch > 0 { SendingKeeps(w.h, At(w, side).epoch, Sent(plaintext, ad)); }
  }

  // -- frames stay what they are --------------------------------------------------------------

  /** A chain that is followed by its owner's next one never grows again. */
  lemma ClosedStays(w: World, a: Action, c: nat)
    requires Inv(w) && Enabled(w, a) && c + 2 < |w.h.keys|
    ensures c < |w.h.sent| && c < |Step(w, a).h.sent| && Step(w, a).h.sent[c] == w.h.sent[c]
  {
    hide Encrypt, Decrypt, PartyInv;
    InvHistory(w);
    StepKeepsInv(w, a);
  }

  /** The message, and the frame it went out as if it did, are the same in both histories. */
  ghost predicate SameFrame(h: History, h': History, c: nat, n: nat)
    requires Written(h, c, n)
  {
    && Written(h', c, n) && h'.sent[c][n] == h.sent[c][n] && HeaderAt(h', c, n) == HeaderAt(h, c, n)
    && (Emitted(h, c, n) <==> Emitted(h', c, n))
    && (Emitted(h, c, n) ==> CipherAt(h', c, n) == CipherAt(h, c, n))
  }

  lemma ExtensionKeeps(h: History, h': History, c: nat, n: nat)
    requires ValidHistory(h) && ValidHistory(h') && Extends(h, h') && Written(h, c, n) && PnOf(h', c) == PnOf(h, c)
    ensures SameFrame(h, h', c, n)
  {
    ChainKeyStable(h, h', c);
    hide ChainKey, Advance, PnOf;
  }

  lemma FrameStays(w: World, a: Action, c: nat, n: nat)
    requires Inv(w) && Enabled(w, a) && Written(w.h, c, n)
    ensures SameFrame(w.h, Step(w, a).h, c, n)
  {
    hide Step, Enabled, Inv, ValidHistory, SameFrame;
    InvHistory(w);
    StepKeepsInv(w, a);
    InvHistory(Step(w, a));
    if c >= 2 { ClosedStays(w, a, c - 2); }
    ExtensionKeeps(w.h, Step(w, a).h, c, n);
  }

  lemma RunUnfolds(w: World, actions: seq<Action>, k: nat)
    requires k < |actions|
    ensures Run(w, actions[..k + 1]) == Step(Run(w, actions[..k]), actions[k])
  {
    hide Step;
    assert actions[..k + 1][..k] == actions[..k];
  }

  lemma {:induction false} FrameStaysInRun(w: World, actions: seq<Action>, k: nat, c: nat, n: nat)
    requires Inv(w) && Feasible(w, actions) && k <= |actions| && Written(Run(w, actions[..k]).h, c, n)
    ensures SameFrame(Run(w, actions[..k]).h, Run(w, actions).h, c, n)
    decreases |actions|
  {
    hide Step, Inv, Enabled, HeaderAt, CipherAt, Emitted;
    if k == |actions| {
      assert actions[..k] == actions;
    } else {
      var before := actions[..|actions| - 1];
      assert before[..k] == actions[..k];
      FeasiblePrefix(w, actions, |actions| - 1);
      FrameStaysInRun(w, before, k, c, n);
      RunKeepsInv(w, before);
      FrameStays(Run(w, before), actions[|actions| - 1], c, n);
    }
  }

  // -- from end to end --------------------------------------------------------------------------

  predicate Owns(side: Side, c: nat) {
    c > 0 && c % 2 == if side.Initiator? then 1 else 0
  }

  lemma OwnedIsFromPeer(w: World, side: Side, c: nat)
    requires Inv(w)
    ensures Owns(side, At(w, side).epoch) || At(w, side).epoch == 0
    ensures Owns(side, c) && c < |w.h.keys| <==> FromPeer(w, Other(side), c)
  {
    hide PartyInv, ValidHistory;
  }

  lemma KeyTellsChain(h: History, c: nat, c': nat)
    requires ValidHistory(h) && c < |h.keys| && c' < |h.keys| && PublicOf(h.keys[c]) == PublicOf(h.keys[c'])
    ensures c == c'
  {}

  /** A frame of the peer's, delivered as it was emitted, decrypts if and only if it lies in the window. */
  lemma EmittedDecrypts(w: World, side: Side, c: nat, n: nat, draw: KeyPair)
    requires Inv(w) && FromPeer(w, side, c) && Emitted(w.h, c, n) && draw.Honest? && draw !in w.h.keys
    ensures var m := w.h.sent[c][n];
      Decrypt(At(w, side).st, HeaderAt(w.h, c, n), CipherAt(w.h, c, n), m.ad, draw).0
      == if InWindow(w.h, At(w, side), c, n) then Some(m.plaintext) else None
  {
    hide Inv, Decrypt, InWindow, CipherAt, FromPeer, ValidHistory;
    var m, header, cipher := w.h.sent[c][n], HeaderAt(w.h, c, n), CipherAt(w.h, c, n);
    InvHistory(w);
    assert Enabled(w, Receive(side, header, cipher, m.ad, draw));
    DeliveryIsExact(w, side, header, cipher, m.ad, draw, m.plaintext);
    if InWindow(w.h, At(w, side), c, n) {
      assert Carries(w, side, c, header, cipher, m.ad, m.plaintext);
    } else {
      var r := Decrypt(At(w, side).st, header, cipher, m.ad, draw).0;
      if r.Some? {
        DeliveryIsExact(w, side, header, cipher, m.ad, draw, r.value);
        var c' :| Carries(w, side, c', header, cipher, m.ad, r.value);
        KeyTellsChain(w.h, c, c');
      }
    }
  }

  /** Where the history of the whole run has the message that step `k` encrypted: its chain and its index. */
  function SentAs(w: World, actions: seq<Action>, k: nat): (nat, nat)
    requires k < |actions|
  {
    var before := Run(w, actions[..k]);
    var c := At(before, actions[k].side).epoch;
    (c, if c < |before.h.sent| then |before.h.sent[c]| else 0)
  }

  lemma EmittedNames(h: History, c: nat, n: nat)
    requires Emitted(h, c, n)
    ensures Written(h, c, n) && HeaderAt(h, c, n).n == n && c < |h.keys| == |h.sent|
  {}

  /** The frame a send returned is, for good, the frame the history has for its message. */
  lemma SentStays(w: World, actions: seq<Action>, k: nat)
    requires Inv(w) && Feasible(w, actions) && k < |actions| && actions[k].Send?
    ensures var (a, h) := (actions[k], Run(w, actions).h);
      var (c, n) := SentAs(w, actions, k);
      var out := Outgoing(Run(w, actions[..k]), a.side, a.plaintext, a.ad);
      && (c == 0 ==> out.None?)
      && (c > 0 ==>
            && Written(h, c, n) && h.sent[c][n] == Sent(a.plaintext, a.ad)
            && FromPeer(Run(w, actions), Other(a.side), c)
            && (out.Some? <==> Emitted(h, c, n))
            && (out.Some? ==> out == Some(Frame(HeaderAt(h, c, n), CipherAt(h, c, n)))))
  {
    hide Inv, Step, Enabled, FromPeer, Emitted, HeaderAt, CipherAt, Outgoing, Owns;
    var a, before, after := actions[k], Run(w, actions[..k]), Run(w, actions);
    FeasiblePrefix(w, actions, k);
    RunKeepsInv(w, actions[..k]);
    RunKeepsInv(w, actions);
    SendEmits(before, a.side, a.plaintext, a.ad);
    RunUnfolds(w, actions, k);
    var (c, n) := SentAs(w, actions, k);
    if c > 0 {
      FrameStaysInRun(w, actions, k + 1, c, n);
      OwnedIsFromPeer(before, a.side, c);
      OwnedIsFromPeer(after, a.side, c);
    }
  }

  /** What one side's `Encrypt` returned at step `k` and the network delivers unchanged, however late,
      the peer decrypts to the very plaintext if and only if it lies in its window. */
  lemma SentArrives(w: World, actions: seq<Action>, k: nat, draw: KeyPair)
    requires Starts(w) && Feasible(w, actions) && k < |actions| && actions[k].Send?
    requires Outgoing(Run(w, actions[..k]), actions[k].side, actions[k].plaintext, actions[k].ad).Some?
    requires draw.Honest? && draw !in Run(w, actions).h.keys
    ensures var (a, before, after) := (actions[k], Run(w, actions[..k]), Run(w, actions));
      var frame := Outgoing(before, a.side, a.plaintext, a.ad).value;
      var p, c := At(after, Other(a.side)), At(before, a.side).epoch;
      && c < |after.h.keys| == |after.h.sent|
      && Decrypt(p.st, frame.header, frame.cipher, a.ad, draw).0
         == if InWindow(after.h, p, c, frame.header.n) then Some(a.plaintext) else None
  {
    hide Starts, Inv, Step, Enabled, InWindow, FromPeer, Decrypt, Outgoing, Run, Emitted, HeaderAt, CipherAt, Written;
    StartIsInv(w);
    SentStays(w, actions, k);
    RunKeepsInv(w, actions);
    var (c, n) := SentAs(w, actions, k);
    EmittedDecrypts(Run(w, actions), Other(actions[k].side), c, n, draw);
    EmittedNames(Run(w, actions).h, c, n);
  }

  // -- and nothing else --------------------------------------------------------------------------

  /** One action either leaves a chain alone or is the send that appended to it. */
  lemma StepAppends(w: World, a: Action, c: nat)
    requires Inv(w) && Enabled(w, a) && c < |Step(w, a).h.sent|
    ensures (c < |w.h.sent| && Step(w, a).h.sent[c] == w.h.sent[c])
         || (c >= |w.h.sent| && Step(w, a).h.sent[c] == [])
         || (a.Send? && c == At(w, a.side).epoch && c < |w.h.sent|
             && Step(w, a).h.sent[c] == w.h.sent[c] + [Sent(a.plaintext, a.ad)])
  {
    hide Encrypt, Decrypt, PartyInv;
    InvHistory(w);
  }

  /** Every message of the history was handed to `Encrypt` in some step, as the next one of its chain. */
  lemma {:induction false} SomeStepSent(w: World, actions: seq<Action>, c: nat, n: nat) returns (k: nat)
    requires Starts(w) && Feasible(w, actions) && c < |Run(w, actions).h.sent| && n < |Run(w, actions).h.sent[c]|
    ensures k < |actions| && actions[k].Send?
    ensures var (a, before) := (actions[k], Run(w, actions[..k]));
      && c == At(before, a.side).epoch && c < |before.h.sent| && n == |before.h.sent[c]|
      && Run(w, actions).h.sent[c][n] == Sent(a.plaintext, a.ad)
    decreases |actions|
  {
    hide Inv, Step, Enabled;
    StartIsInv(w);
    k := |actions| - 1;
    var before, a := actions[..k], actions[k];
    FeasiblePrefix(w, actions, k);
    RunKeepsInv(w, before);
    StepAppends(Run(w, before), a, c);
    if c < |Run(w, before).h.sent| && n < |Run(w, before).h.sent[c]| {
      k := SomeStepSent(w, before, c, n);
      assert before[..k] == actions[..k];
    }
  }

  /** Whatever a party accepts, its peer's `Encrypt` returned, as this very frame and for this very
      plaintext and associated data, at an earlier step. */
  lemma AcceptedWasSent(w: World, actions: seq<Action>, side: Side, header: Header, cipher: Cipher, ad: Bytes,
                        draw: KeyPair)
    returns (k: nat)
    requires Starts(w) && Feasible(w, actions)
    requires Enabled(Run(w, actions), Receive(side, header, cipher, ad, draw))
    requires Decrypt(At(Run(w, actions), side).st, header, cipher, ad, draw).0.Some?
    ensures k < |actions|
    ensures var plaintext := Decrypt(At(Run(w, actions), side).st, header, cipher, ad, draw).0.value;
      && actions[k] == Send(Other(side), plaintext, ad)
      && Outgoing(Run(w, actions[..k]), Other(side), plaintext, ad) == Some(Frame(header, cipher))
  {
    hide Starts, Inv, Step, Enabled, InWindow, FromPeer, Decrypt, CipherAt, Outgoing, Run;
    StartIsInv(w);
    var after := Run(w, actions);
    var plaintext := Decrypt(At(after, side).st, header, cipher, ad, draw).0.value;
    RunKeepsInv(w, actions);
    DeliveryIsExact(after, side, header, cipher, ad, draw, plaintext);
    var c :| Carries(after, side, c, header, cipher, ad, plaintext);
    k := SomeStepSent(w, actions, c, header.n);
    SentStays(w, actions, k);
    FeasiblePrefix(w, actions, k);
    RunKeepsInv(w, actions[..k]);
    SenderIsPeer(Run(w, actions[..k]), actions[k].side, after, side, c);
  }

  lemma SenderIsPeer(before: World, sender: Side, after: World, side: Side, c: nat)
    requires Inv(before) && Inv(after) && c == At(before, sender).epoch && FromPeer(after, side, c)
    ensures sender == Other(side)
  {
    hide Inv, FromPeer;
    OwnedIsFromPeer(before, sender, c);
    OwnedIsFromPeer(after, Other(side), c);
  }
}
