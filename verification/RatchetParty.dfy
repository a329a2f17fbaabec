/** One honest party inside a two-party history: what its real state must be, and exactly
    which frames off the network its decryption accepts.
*/
module RatchetParty {
  import opened SymbolicCrypto
  import opened Ratchet
  import opened RatchetHistory
  import opened RatchetLedger

  /** A party's real state, with what an observer of its table and its deliveries noted down.
      `epoch` is the number of its own newest sending chain.
  */
  datatype Party = Party(st: State, epoch: nat, delivered: seq<FrameId>, evicted: set<FrameId>)

  function Elements(s: seq<FrameId>): set<FrameId> {
    set x | x in s
  }

  /** The keys and counters of a party whose newest sending chain is `e`. */
  ghost predicate OnEpoch(h: History, e: nat, st: State) {
    && e < |h.keys| == |h.sent|
    && st.dhs == h.keys[e] && st.rk == RootKey(h, e)
    && st.ns == |h.sent[e]| && st.pn == PnOf(h, e)
    && (if e == 0 then st.dhr == None && st.cks == None
        else st.dhr == Some(PublicOf(h.keys[e - 1])) && st.cks == Some(Advance(ChainKey(h, e), st.ns)))
    && (if e <= 1 then st.ckr == None && st.nr == 0
        else st.nr <= |h.sent[e - 1]| && st.ckr == Some(Advance(ChainKey(h, e - 1), st.nr)))
  }

  ghost predicate PartyInv(h: History, p: Party) {
    && OnEpoch(h, p.epoch, p.st)
    && Ledger(h, p.epoch, p.st.nr, p.st.skipped, Elements(p.delivered), p.evicted)
    && forall i, j :: 0 <= i < j < |p.delivered| ==> p.delivered[i] != p.delivered[j]
  }

  function IdAt(h: History, c: nat, n: nat): FrameId
    requires c < |h.keys|
  {
    FrameId(PublicOf(h.keys[c]), n)
  }

  /** The code's acceptance window for message `n` of chain `c`. */
  predicate InWindow(h: History, p: Party, c: nat, n: nat)
    requires c < |h.keys| == |h.sent|
  {
    || IdAt(h, c, n) in Ids(p.st.skipped)
    || (c + 1 == p.epoch && p.st.nr <= n <= p.st.nr + MAX_SKIP)
    || (c == p.epoch + 1 && PnOf(h, c) - p.st.nr <= MAX_SKIP && n <= MAX_SKIP)
  }

  /** The party after a frame was accepted: `step` says whether a DH step was committed. */
  function Noted(p: Party, st: State, id: FrameId): Party {
    Party(st, if st.dhr != p.st.dhr then p.epoch + 2 else p.epoch, p.delivered + [id],
          p.evicted + (Ids(p.st.skipped) - Ids(st.skipped) - {id}))
  }

  /** The history after that: a committed DH step opens a new sending chain. */
  function Grown(h: History, p: Party, st: State, draw: KeyPair): History {
    if st.dhr != p.st.dhr then h.(keys := h.keys + [draw], sent := h.sent + [[]]) else h
  }

  // -- what is behind a party ------------------------------------------------------

  lemma BehindAt(h: History, e: nat, nr: nat, c: nat, n: nat)
    requires ValidHistory(h) && c < |h.keys|
    ensures Behind(h, e, nr, IdAt(h, c, n)) <==> Receives(e, c) && n < Passed(h, e, nr, c)
  {
    if Receives(e, c) && n < Passed(h, e, nr, c) {
      assert IdAt(h, c, n).pub == PublicOf(h.keys[c]);
    }
  }

  lemma StoredIsBehind(h: History, p: Party, i: nat) returns (c: nat)
    requires ValidHistory(h) && PartyInv(h, p) && i < |p.st.skipped|
    ensures 0 < c < |h.keys| && p.st.skipped[i] == EntryAt(h, c, p.st.skipped[i].n)
    ensures Receives(p.epoch, c) && p.st.skipped[i].n < Passed(h, p.epoch, p.st.nr, c)
  {
    var x := p.st.skipped[i];
    c :| 0 < c < |h.keys| && x == EntryAt(h, c, x.n);
    assert IdOf(x) in Ids(p.st.skipped);
    BehindAt(h, p.epoch, p.st.nr, c, x.n);
  }

  /** Only growth at the tip of a party's newest receiving chain is invisible to its ledger. */
  lemma LedgerFrame(h: History, h': History, e: nat, nr: nat, items: seq<Entry>, delivered: set<FrameId>,
                    evicted: set<FrameId>)
    requires |h.keys| == |h.sent| && |h'.keys| == |h'.sent| && h.shared == h'.shared && h.keys <= h'.keys
    requires e <= |h.keys| && forall c :: 0 <= c < e && c + 1 != e ==> |h.sent[c]| == |h'.sent[c]|
    requires Ledger(h, e, nr, items, delivered, evicted)
    ensures Ledger(h', e, nr, items, delivered, evicted)
  {
    forall i | 0 <= i < |items| ensures GenuineEntry(h', items[i]) {
      GenuineEntryStable(h, h', items[i]);
    }
    forall id ensures Behind(h, e, nr, id) <==> Behind(h', e, nr, id) {
      if Behind(h, e, nr, id) {
        var c :| 0 <= c < |h.keys| && Receives(e, c) && id.pub == PublicOf(h.keys[c]) && id.n < Passed(h, e, nr, c);
        assert h'.keys[c] == h.keys[c];
      }
      if Behind(h', e, nr, id) {
        var c :| 0 <= c < |h'.keys| && Receives(e, c) && id.pub == PublicOf(h'.keys[c]) && id.n < Passed(h', e, nr, c);
        assert h'.keys[c] == h.keys[c];
      }
    }
  }

  lemma GenuineEntryStable(h: History, h': History, x: Entry)
    requires h.shared == h'.shared && h.keys <= h'.keys && GenuineEntry(h, x)
    ensures GenuineEntry(h', x)
  {
    var c :| 0 < c < |h.keys| && x == EntryAt(h, c, x.n);
    ChainKeyStable(h, h', c);
    assert x == EntryAt(h', c, x.n);
  }

  // -- the receiving chain under the cursor -------------------------------------------

  lemma OnReceivingChain(h: History, p: Party)
    requires ValidHistory(h) && PartyInv(h, p) && p.epoch >= 2
    ensures OnChain(h, p.epoch - 1, p.st)
  {
    forall x | x in p.st.skipped && x.pub == PublicOf(h.keys[p.epoch - 1]) ensures x.n < p.st.nr {
      var i :| 0 <= i < |p.st.skipped| && p.st.skipped[i] == x;
      var c := StoredIsBehind(h, p, i);
    }
  }

}
