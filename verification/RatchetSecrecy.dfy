/** Forward secrecy and healing: exactly which message keys follow from a full copy of one
    party's state, among all the messages sent before the copy and in any run after it.
*/
module RatchetSecrecy {
  import opened SymbolicCrypto
  import opened Ratchet
  import opened RatchetHistory
  import opened RatchetLedger
  import opened RatchetParty
  import opened RatchetWorld

  /** Everything a ratchet state holds, in the attacker's hands. */
  function Leak(st: State): Attacker {
    Attacker({st.rk} + (if st.cks.Some? then {st.cks.value} else {}) + (if st.ckr.Some? then {st.ckr.value} else {})
               + (set i | 0 <= i < |st.skipped| :: st.skipped[i].mk), {st.dhs})
  }

  lemma {:induction false} AdvanceDerivable(att: Attacker, ck: Term, m: nat, n: nat)
    requires m <= n && Derivable(att, Advance(ck, m))
    ensures Derivable(att, Advance(ck, n))
    decreases n
  {
    if m < n { AdvanceDerivable(att, ck, m, n - 1); }
  }

  /** The shape of every leaked term. */
  lemma LeakedTerms(h: History, p: Party, t: Term)
    requires ValidHistory(h) && PartyInv(h, p) && t in Leak(p.st).terms
    ensures t == RootKey(h, p.epoch)
      || (p.epoch >= 1 && t == Advance(ChainKey(h, p.epoch), p.st.ns))
      || (p.epoch >= 2 && t == Advance(ChainKey(h, p.epoch - 1), p.st.nr))
      || (t.MessageOf? && exists c, n ::
            0 < c < |h.keys| && IdAt(h, c, n) in Ids(p.st.skipped) && t == MessageKey(h, c, n))
  {
    hide Ledger, Derivable, RootKey, Advance, ChainKey;
    if i :| 0 <= i < |p.st.skipped| && p.st.skipped[i].mk == t {
      var c := StoredIsBehind(h, p, i);
      assert IdOf(p.st.skipped[i]) == IdAt(h, c, p.st.skipped[i].n);
    }
  }

  lemma LeakedLink(h: History, p: Party, h': History, k: nat)
    requires ValidHistory(h) && PartyInv(h, p) && ValidHistory(h') && Extends(h, h') && 0 < k < |h'.keys|
    ensures Derivable(Leak(p.st), Link(h', k)) <==> k == p.epoch || k == p.epoch + 1
  {
    var att, e := Leak(p.st), p.epoch;
    assert att.pairs == {h'.keys[e]};
    if Link(h', k) in att.terms { LeakedTerms(h, p, Link(h', k)); }
    if k == e || k == e + 1 {
      assert h'.keys[e] in Link(h', k).pairs && KnowsPrivate(att, h'.keys[e]);
    }
  }

  /** Of the root keys after the handshake's own, only the current and the next one follow from the leak. */
  lemma LeakedRoot(h: History, p: Party, h': History, k: nat)
    requires ValidHistory(h) && PartyInv(h, p) && ValidHistory(h') && Extends(h, h') && 0 < k < |h'.keys|
    ensures Derivable(Leak(p.st), RootKey(h', k)) <==> k == p.epoch || k == p.epoch + 1
  {
    hide Ledger, Advance;
    LeakHoldsRoot(h, p, h');
    LeakedLink(h, p, h', k);
    if k != p.epoch && RootKey(h', k) in Leak(p.st).terms {
      LeakedTerms(h, p, RootKey(h', k));
      AdvancedIsNoRoot(h, p);
      RootKeyStable(h, h', p.epoch);
      RootKeyInjective(h', k, p.epoch);
    }
  }

  lemma LeakHoldsRoot(h: History, p: Party, h': History)
    requires PartyInv(h, p) && Extends(h, h')
    ensures RootKey(h', p.epoch) in Leak(p.st).terms && Derivable(Leak(p.st), RootKey(h', p.epoch))
  {
    hide Ledger;
    RootKeyStable(h, h', p.epoch);
  }

  lemma AdvancedIsNoRoot(h: History, p: Party)
    requires ValidHistory(h) && PartyInv(h, p)
    ensures p.epoch >= 1 ==> !Advance(ChainKey(h, p.epoch), p.st.ns).RootOf?
    ensures p.epoch >= 2 ==> !Advance(ChainKey(h, p.epoch - 1), p.st.nr).RootOf?
  {
    hide Ledger;
  }

  /** The initiator's first chain, all of it, would follow from a leak that still told the handshake's root. */
  ghost predicate RootTold(h: History, p: Party, c: nat) {
    c == p.epoch == 1 && Derivable(Leak(p.st), h.shared)
  }

  lemma LeakedChain(h: History, p: Party, h': History, c: nat)
    requires ValidHistory(h) && PartyInv(h, p) && ValidHistory(h') && Extends(h, h') && 0 < c < |h'.keys|
    ensures Derivable(Leak(p.st), ChainKey(h', c))
       <==> ChainKey(h', c) in Leak(p.st).terms || c == p.epoch + 1 || RootTold(h, p, c)
  {
    hide PartyInv, Leak, Link;
    LeakHoldsRoot(h, p, h');
    LeakedLink(h, p, h', c);
    if c > 1 { LeakedRoot(h, p, h', c - 1); }
  }

  /** Positions of the chains that follow from the leak: the rest of the two live chains, and all
      of the next one. */
  predicate LiveAt(p: Party, c: nat, n: nat) {
    || (c == p.epoch && n >= p.st.ns)
    || (c + 1 == p.epoch && n >= p.st.nr)
    || c == p.epoch + 1
  }

  lemma SameChain(h: History, h': History, c: nat, m: nat, c': nat, n: nat)
    requires h.shared == h'.shared && h.keys <= h'.keys && 0 < c < |h.keys| && 0 < c' < |h'.keys|
    requires Advance(ChainKey(h, c), m) == Advance(ChainKey(h', c'), n)
    ensures c == c' && m == n
  {
    ChainKeyStable(h, h', c);
    AdvanceInjective(ChainKey(h', c), m, ChainKey(h', c'), n);
    RootKeyInjective(h', c - 1, c' - 1);
  }

  lemma LeakedAdvanceIsLive(h: History, p: Party, h': History, c: nat, n: nat)
    requires ValidHistory(h) && PartyInv(h, p) && Extends(h, h') && 0 < c < |h'.keys|
    requires Advance(ChainKey(h', c), n) in Leak(p.st).terms
    ensures LiveAt(p, c, n)
  {
    hide Ledger;
    LeakedTerms(h, p, Advance(ChainKey(h', c), n));
    var e := p.epoch;
    if e >= 1 && Advance(ChainKey(h', c), n) == Advance(ChainKey(h, e), p.st.ns) {
      SameChain(h, h', e, p.st.ns, c, n);
    } else if e >= 2 && Advance(ChainKey(h', c), n) == Advance(ChainKey(h, e - 1), p.st.nr) {
      SameChain(h, h', e - 1, p.st.nr, c, n);
    }
  }

  lemma {:induction false} DerivedAdvanceIsLive(h: History, p: Party, h': History, c: nat, n: nat)
    requires ValidHistory(h) && PartyInv(h, p) && ValidHistory(h') && Extends(h, h') && 0 < c < |h'.keys|
    requires Derivable(Leak(p.st), Advance(ChainKey(h', c), n))
    ensures LiveAt(p, c, n) || RootTold(h, p, c)
    decreases n
  {
    hide PartyInv, Leak, ChainKey, RootTold;
    if Advance(ChainKey(h', c), n) in Leak(p.st).terms {
      LeakedAdvanceIsLive(h, p, h', c, n);
    } else if n > 0 {
      DerivedAdvanceIsLive(h, p, h', c, n - 1);
    } else {
      LeakedChain(h, p, h', c);
    }
  }

  lemma LiveAdvanceIsDerived(h: History, p: Party, h': History, c: nat, n: nat)
    requires ValidHistory(h) && PartyInv(h, p) && ValidHistory(h') && Extends(h, h') && 0 < c < |h'.keys|
    requires LiveAt(p, c, n) || RootTold(h, p, c)
    ensures Derivable(Leak(p.st), Advance(ChainKey(h', c), n))
  {
    hide Ledger;
    var att := Leak(p.st);
    if c == p.epoch + 1 || RootTold(h, p, c) {
      LeakedChain(h, p, h', c);
      AdvanceDerivable(att, ChainKey(h', c), 0, n);
    } else {
      ChainKeyStable(h, h', c);
      var m := if c == p.epoch then p.st.ns else p.st.nr;
      assert Advance(ChainKey(h', c), m) in att.terms;
      AdvanceDerivable(att, ChainKey(h', c), m, n);
    }
  }

  lemma StoredIsLeaked(h: History, p: Party, h': History, c: nat, n: nat)
    requires ValidHistory(h) && PartyInv(h, p) && ValidHistory(h') && Extends(h, h') && 0 < c < |h'.keys|
    ensures MessageKey(h', c, n) in Leak(p.st).terms <==> IdAt(h', c, n) in Ids(p.st.skipped)
  {
    hide Ledger, OnEpoch;
    if IdAt(h', c, n) in Ids(p.st.skipped) {
      var i :| 0 <= i < |p.st.skipped| && IdOf(p.st.skipped[i]) == IdAt(h', c, n);
      var c' := StoredIsBehind(h, p, i);
      assert h'.keys[c'] == h'.keys[c];
      ChainKeyStable(h, h', c);
    }
    if MessageKey(h', c, n) in Leak(p.st).terms {
      LeakedTerms(h, p, MessageKey(h', c, n));
      var c', n' :| 0 < c' < |h.keys| && IdAt(h, c', n') in Ids(p.st.skipped)
                    && MessageKey(h', c, n) == MessageKey(h, c', n');
      SameChain(h, h', c', n', c, n);
    }
  }

  /** The compromise window, exactly. Let one party's whole state leak in any reachable state, and
      let the run go on. Of all message keys, past and future, in both directions, the attacker
      holds the stored ones, the unread rest of the receiving chain, the unsent rest of the sending
      chain, and the single chain that answers it. Delivered and sent keys are gone, and from the
      party's next committed DH step on nothing follows any more. Only an initiator that has read
      nothing yet could tell more, if its state still told the root the handshake gave it. */
  lemma CompromiseWindow(w: World, side: Side, later: seq<Action>, c: nat, n: nat)
    requires Inv(w) && Feasible(w, later)
    requires 0 < c < |Run(w, later).h.keys|
    ensures var p, h' := At(w, side), Run(w, later).h;
      Derivable(Leak(p.st), MessageKey(h', c, n))
      <==> IdAt(h', c, n) in Ids(p.st.skipped) || LiveAt(p, c, n) || RootTold(w.h, p, c)
  {
    RunKeepsInv(w, later);
    WindowOfHistory(w.h, At(w, side), Run(w, later).h, c, n);
  }

  lemma WindowOfHistory(h: History, p: Party, h': History, c: nat, n: nat)
    requires ValidHistory(h) && PartyInv(h, p) && ValidHistory(h') && Extends(h, h') && 0 < c < |h'.keys|
    ensures Derivable(Leak(p.st), MessageKey(h', c, n))
       <==> IdAt(h', c, n) in Ids(p.st.skipped) || LiveAt(p, c, n) || RootTold(h, p, c)
  {
    hide PartyInv, Leak, LiveAt, RootTold;
    StoredIsLeaked(h, p, h', c, n);
    if Derivable(Leak(p.st), Advance(ChainKey(h', c), n)) { DerivedAdvanceIsLive(h, p, h', c, n); }
    if LiveAt(p, c, n) || RootTold(h, p, c) { LiveAdvanceIsDerived(h, p, h', c, n); }
  }

  /** Delivered keys are gone: nothing the party accepted can be opened from its state now. */
  lemma DeliveredKeysAreGone(w: World, side: Side, c: nat, n: nat)
    requires Inv(w) && FromPeer(w, side, c)
    requires IdAt(w.h, c, n) in At(w, side).delivered
    ensures !Derivable(Leak(At(w, side).st), MessageKey(w.h, c, n))
  {
    hide PartyInv, Leak, Derivable;
    KeysAreConserved(w, side, c, n);
    assert Run(w, []) == w;
    CompromiseWindow(w, side, [], c, n);
  }

  /** Healing: once the party has committed another DH step, the new chains of both directions are safe. */
  lemma Healing(w: World, side: Side, later: seq<Action>, c: nat, n: nat)
    requires Inv(w) && Feasible(w, later)
    requires At(w, side).epoch + 2 <= c < |Run(w, later).h.keys|
    ensures !Derivable(Leak(At(w, side).st), MessageKey(Run(w, later).h, c, n))
  {
    CompromiseWindow(w, side, later, c, n);
    RunKeepsInv(w, later);
    NewChainsAreNotStored(w.h, At(w, side), Run(w, later).h, c, n);
  }

  // -- where the handshake's root is out of reach ---------------------------------------------

  /** What a party that has made a DH step can hold. */
  predicate RatchetMade(t: Term) {
    t.RootOf? || t.ChainOf? || t.NextOf? || t.MessageOf?
  }

  /** The root does not follow from the initiator's first ratchet key pair and anything a ratchet makes. */
  ghost predicate RootIsApart(h: History) {
    && |h.keys| >= 2
    && forall terms: set<Term> ::
         (forall t :: t in terms ==> RatchetMade(t)) ==> !Derivable(Attacker(terms, {h.keys[1]}), h.shared)
  }

  lemma LeakIsRatchetMade(h: History, p: Party)
    requires ValidHistory(h) && PartyInv(h, p) && p.epoch >= 1
    ensures forall t :: t in Leak(p.st).terms ==> RatchetMade(t)
  {
    hide Ledger;
    forall t | t in Leak(p.st).terms ensures RatchetMade(t) {
      LeakedTerms(h, p, t);
    }
  }

  lemma ApartIsNotTold(h: History, h': History, p: Party, c: nat)
    requires RootIsApart(h) && Extends(h, h') && ValidHistory(h') && PartyInv(h', p)
    ensures !RootTold(h', p, c)
  {
    hide Ledger;
    if p.epoch == 1 {
      LeakIsRatchetMade(h', p);
      assert Leak(p.st) == Attacker(Leak(p.st).terms, {h.keys[1]});
    }
  }

  /** A pre-shared root is apart by itself; a handshake's is by the freshness of its draws. */
  lemma PresharedRootIsApart(h: History)
    requires h.shared.Seed? && |h.keys| >= 2
    ensures RootIsApart(h)
  {
    forall terms: set<Term> | forall t :: t in terms ==> RatchetMade(t)
      ensures !Derivable(Attacker(terms, {h.keys[1]}), h.shared)
    {
      assert !RatchetMade(h.shared);
    }
  }

  /** From a handshake whose root is apart, the window holds at every point of every run with nothing added. */
  lemma CompromiseWindowInEveryRun(w: World, before: seq<Action>, side: Side, later: seq<Action>, c: nat, n: nat)
    requires Starts(w) && RootIsApart(w.h) && Feasible(w, before) && Feasible(Run(w, before), later)
    requires 0 < c < |Run(Run(w, before), later).h.keys|
    ensures var p, h' := At(Run(w, before), side), Run(Run(w, before), later).h;
      Derivable(Leak(p.st), MessageKey(h', c, n)) <==> IdAt(h', c, n) in Ids(p.st.skipped) || LiveAt(p, c, n)
  {
    hide Run, Feasible, Starts, PartyInv, RootIsApart, RootTold, Derivable, Leak, LiveAt;
    StartIsInv(w);
    RunKeepsInv(w, before);
    CompromiseWindow(Run(w, before), side, later, c, n);
    ApartIsNotTold(w.h, Run(w, before).h, At(Run(w, before), side), c);
  }

  lemma NewChainsAreNotStored(h: History, p: Party, h': History, c: nat, n: nat)
    requires ValidHistory(h) && PartyInv(h, p) && ValidHistory(h') && Extends(h, h')
    requires p.epoch <= c < |h'.keys|
    ensures IdAt(h', c, n) !in Ids(p.st.skipped)
  {
    hide Ledger, OnEpoch;
    if i :| 0 <= i < |p.st.skipped| && IdOf(p.st.skipped[i]) == IdAt(h', c, n) {
      var c' := StoredIsBehind(h, p, i);
    }
  }
}
