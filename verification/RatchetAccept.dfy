/** Exactly which frames a party accepts, and that accepting one keeps every invariant. */
module RatchetAccept {
  import opened SymbolicCrypto
  import opened Ratchet
  import opened RatchetHistory
  import opened RatchetLedger
  import opened RatchetParty

  function Consumed(st: State): State
    requires st.ckr.Some?
  {
    st.(ckr := Some(NextOf(st.ckr.value)), nr := st.nr + 1)
  }

  /** The state once the next chain is opened: the old one is skipped to its end first. */
  function Opened(h: History, p: Party, draw: KeyPair): State
    requires p.epoch + 1 < |h.keys| == |h.sent|
    requires p.epoch >= 2 ==> p.st.nr <= |h.sent[p.epoch - 1]|
  {
    var e := p.epoch;
    DhStep(if e >= 2 then Moved(h, e - 1, p.st, |h.sent[e - 1]| - p.st.nr) else p.st, h.keys[e + 1], draw)
  }

  function OpenedHistory(h: History, draw: KeyPair): History {
    h.(keys := h.keys + [draw], sent := h.sent + [[]])
  }

  lemma DecryptByTrial(st: State, header: Header, cipher: Cipher, ad: Bytes, draw: KeyPair, trial: State, pt: Bytes)
    requires Find(st.skipped, header.pub, header.n) == |st.skipped|
    requires Position(st, header, draw) == Some(trial) && trial.ckr.Some?
    requires Open(MessageOf(trial.ckr.value), cipher, ad, header) == Some(pt)
    ensures Decrypt(st, header, cipher, ad, draw) == (Some(pt), Consumed(trial))
  {}

  lemma KeyOfStored(h: History, p: Party, i: nat, c: nat, n: nat)
    requires ValidHistory(h) && PartyInv(h, p) && i < |p.st.skipped| && c < |h.keys|
    requires IdOf(p.st.skipped[i]) == IdAt(h, c, n)
    ensures Receives(p.epoch, c) && p.st.skipped[i] == EntryAt(h, c, n)
  {
    var c' := StoredIsBehind(h, p, i);
    assert h.keys[c'] == h.keys[c];
  }

  lemma NotStored(h: History, p: Party, c: nat, n: nat)
    requires ValidHistory(h) && PartyInv(h, p) && c < |h.keys|
    requires !(Receives(p.epoch, c) && n < Passed(h, p.epoch, p.st.nr, c))
    ensures Find(p.st.skipped, PublicOf(h.keys[c]), n) == |p.st.skipped|
    ensures !Behind(h, p.epoch, p.st.nr, IdAt(h, c, n))
  {
    BehindAt(h, p.epoch, p.st.nr, c, n);
    FindById(p.st.skipped, PublicOf(h.keys[c]), n);
  }

  // -- acceptance ------------------------------------------------------------------

  lemma AcceptStored(h: History, p: Party, c: nat, n: nat, header: Header, cipher: Cipher, ad: Bytes, draw: KeyPair)
    requires ValidHistory(h) && PartyInv(h, p) && IsGenuine(h, c, n, header, cipher, ad)
    requires IdAt(h, c, n) in Ids(p.st.skipped)
    ensures var i := Find(p.st.skipped, header.pub, n);
      && i < |p.st.skipped| && p.st.skipped[i] == EntryAt(h, c, n)
      && Decrypt(p.st, header, cipher, ad, draw)
         == (Some(h.sent[c][n].plaintext), p.st.(skipped := Remove(p.st.skipped, i)))
  {
    FindById(p.st.skipped, header.pub, n);
    KeyOfStored(h, p, Find(p.st.skipped, header.pub, n), c, n);
  }

  lemma PositionCurrent(h: History, p: Party, c: nat, header: Header, draw: KeyPair)
    requires ValidHistory(h) && PartyInv(h, p) && 0 < c && c + 1 == p.epoch
    requires header.pub == PublicOf(h.keys[c]) && p.st.nr <= header.n <= p.st.nr + MAX_SKIP
    ensures Position(p.st, header, draw) == Some(Moved(h, c, p.st, header.n - p.st.nr))
  {
    hide SkipLoop;
    OnReceivingChain(h, p);
    SkipIsRange(h, c, p.st, header.n - p.st.nr);
  }

  lemma GenuineOpens(h: History, h': History, c: nat, n: nat, header: Header, cipher: Cipher, ad: Bytes)
    requires IsGenuine(h, c, n, header, cipher, ad) && h.shared == h'.shared && h.keys <= h'.keys
    ensures Open(MessageOf(Advance(ChainKey(h', c), n)), cipher, ad, header) == Some(h.sent[c][n].plaintext)
  {
    hide ChainKey, Advance;
    ChainKeyStable(h, h', c);
  }

  lemma AcceptCurrent(h: History, p: Party, c: nat, n: nat, header: Header, cipher: Cipher, ad: Bytes, draw: KeyPair)
    requires ValidHistory(h) && PartyInv(h, p) && IsGenuine(h, c, n, header, cipher, ad)
    requires c + 1 == p.epoch && p.st.nr <= n <= p.st.nr + MAX_SKIP
    ensures Decrypt(p.st, header, cipher, ad, draw)
            == (Some(h.sent[c][n].plaintext), Consumed(Moved(h, c, p.st, n - p.st.nr)))
  {
    hide SkipLoop, Position, Decrypt, Find, Range, Evict, Ledger, ChainKey, Advance, Open, ValidHistory;
    var trial := Moved(h, c, p.st, n - p.st.nr);
    NotStored(h, p, c, n);
    PositionCurrent(h, p, c, header, draw);
    GenuineOpens(h, h, c, n, header, cipher, ad);
    DecryptByTrial(p.st, header, cipher, ad, draw, trial, h.sent[c][n].plaintext);
  }

  /** Nothing of the next chain is stored before it is opened. */
  lemma NextChainNotStored(h: History, p: Party, draw: KeyPair, x: Entry)
    requires ValidHistory(h) && PartyInv(h, p) && p.epoch + 1 < |h.keys|
    requires x in Opened(h, p, draw).skipped
    ensures x.pub != PublicOf(h.keys[p.epoch + 1])
  {
    hide SkipLoop, Ledger, Advance, RootKey, ChainKey, Range;
    var e := p.epoch;
    if x in p.st.skipped {
      var i :| 0 <= i < |p.st.skipped| && p.st.skipped[i] == x;
      var c := StoredIsBehind(h, p, i);
    } else {
      var r := Range(h, e - 1, p.st.nr, |h.sent[e - 1]| - p.st.nr);
      var i :| 0 <= i < |r| && r[i] == x;
      RangeAt(h, e - 1, p.st.nr, |h.sent[e - 1]| - p.st.nr, i);
    }
  }

  lemma OpenedOnChain(h: History, p: Party, draw: KeyPair)
    requires ValidHistory(h) && PartyInv(h, p) && p.epoch + 1 < |h.keys|
    ensures OnChain(OpenedHistory(h, draw), p.epoch + 1, Opened(h, p, draw))
  {
    hide SkipLoop, Range, Evict, Ledger, RootKey;
    var e := p.epoch;
    var h' := OpenedHistory(h, draw);
    var st' := Opened(h, p, draw);
    ChainKeyStable(h, h', e + 1);
    assert {h.keys[e], h.keys[e + 1]} == {h.keys[e + 1], h.keys[e]};
    forall x | x in st'.skipped ensures x.pub != PublicOf(h.keys[e + 1]) {
      NextChainNotStored(h, p, draw, x);
    }
  }

  lemma OldChainSkipped(h: History, p: Party)
    requires ValidHistory(h) && PartyInv(h, p) && p.epoch + 1 < |h.keys|
    requires PnOf(h, p.epoch + 1) - p.st.nr <= MAX_SKIP
    ensures Skip(p.st, PnOf(h, p.epoch + 1))
            == Some(if p.epoch >= 2 then Moved(h, p.epoch - 1, p.st, |h.sent[p.epoch - 1]| - p.st.nr) else p.st)
  {
    hide SkipLoop;
    if p.epoch >= 2 {
      OnReceivingChain(h, p);
      SkipIsRange(h, p.epoch - 1, p.st, |h.sent[p.epoch - 1]| - p.st.nr);
    }
  }

  lemma PositionByStep(st: State, header: Header, draw: KeyPair, s1: State, pair: KeyPair)
    requires st.dhr != Some(header.pub) && header.pub == PublicOf(pair) && Skip(st, header.pn) == Some(s1)
    ensures Position(st, header, draw) == Skip(DhStep(s1, pair, draw), header.n)
  {
    hide Skip;
  }

  lemma OpenedIsFresh(h: History, p: Party, draw: KeyPair)
    requires ValidHistory(h) && PartyInv(h, p) && p.epoch + 1 < |h.keys|
    ensures Opened(h, p, draw).nr == 0 && |Opened(h, p, draw).skipped| <= MAX_SKIPPED_KEYS
  {
    hide SkipLoop, Range, Evict, Advance, RootKey, ChainKey;
  }

  lemma OpenedSkips(h: History, p: Party, n: nat, draw: KeyPair)
    requires ValidHistory(h) && PartyInv(h, p) && p.epoch + 1 < |h.keys| && n <= MAX_SKIP
    ensures Skip(Opened(h, p, draw), n) == Some(Moved(OpenedHistory(h, draw), p.epoch + 1, Opened(h, p, draw), n))
  {
    hide SkipLoop, Skip, Range, Evict, Ledger, Advance, RootKey, ChainKey, OnChain, Moved, Opened, PartyInv, DhStep;
    PartyFacts(h, p);
    OpenedOnChain(h, p, draw);
    OpenedIsFresh(h, p, draw);
    SkipIsRange(OpenedHistory(h, draw), p.epoch + 1, Opened(h, p, draw), n);
  }

  lemma PositionNext(h: History, p: Party, n: nat, draw: KeyPair)
    requires ValidHistory(h) && PartyInv(h, p) && p.epoch + 1 < |h.keys|
    requires PnOf(h, p.epoch + 1) - p.st.nr <= MAX_SKIP && n <= MAX_SKIP
    ensures Position(p.st, HeaderAt(h, p.epoch + 1, n), draw)
            == Some(Moved(OpenedHistory(h, draw), p.epoch + 1, Opened(h, p, draw), n))
  {
    hide SkipLoop, Skip, Position, Range, Evict, Ledger, Advance, RootKey, ChainKey, OnChain, Moved, DhStep;
    var header := HeaderAt(h, p.epoch + 1, n);
    assert p.st.dhr != Some(header.pub);
    assert p.epoch >= 2 ==> p.st.nr <= |h.sent[p.epoch - 1]|;
    var s1 := if p.epoch >= 2 then Moved(h, p.epoch - 1, p.st, |h.sent[p.epoch - 1]| - p.st.nr) else p.st;
    assert Opened(h, p, draw) == DhStep(s1, h.keys[p.epoch + 1], draw);
    OldChainSkipped(h, p);
    hide OnEpoch, Opened, OpenedHistory;
    PositionByStep(p.st, header, draw, s1, h.keys[p.epoch + 1]);
    OpenedSkips(h, p, n, draw);
  }

  lemma AcceptNext(h: History, p: Party, n: nat, header: Header, cipher: Cipher, ad: Bytes, draw: KeyPair)
    requires ValidHistory(h) && PartyInv(h, p) && IsGenuine(h, p.epoch + 1, n, header, cipher, ad)
    requires PnOf(h, p.epoch + 1) - p.st.nr <= MAX_SKIP && n <= MAX_SKIP
    ensures Decrypt(p.st, header, cipher, ad, draw)
            == (Some(h.sent[p.epoch + 1][n].plaintext),
                Consumed(Moved(OpenedHistory(h, draw), p.epoch + 1, Opened(h, p, draw), n)))
  {
    hide SkipLoop, Position, Decrypt, Find, Range, Evict, Ledger, PartyInv, Opened, ChainKey, Advance, Open;
    hide ValidHistory;
    PartyFacts(h, p);
    var h' := OpenedHistory(h, draw);
    NotStored(h, p, p.epoch + 1, n);
    PositionNext(h, p, n, draw);
    OpenedIsFresh(h, p, draw);
    GenuineOpens(h, h', p.epoch + 1, n, header, cipher, ad);
    DecryptByTrial(p.st, header, cipher, ad, draw, Moved(h', p.epoch + 1, Opened(h, p, draw), n),
                   h.sent[p.epoch + 1][n].plaintext);
  }

  // -- the ledger and the keys after acceptance ---------------------------------------

  lemma ElementsOfAppend(s: seq<FrameId>, x: FrameId)
    ensures Elements(s + [x]) == Elements(s) + {x}
  {}

  lemma InvAfterStored(h: History, p: Party, i: nat)
    requires ValidHistory(h) && PartyInv(h, p) && i < |p.st.skipped|
    ensures var st' := p.st.(skipped := Remove(p.st.skipped, i));
      PartyInv(h, Noted(p, st', IdOf(p.st.skipped[i])))
  {
    var items, id := p.st.skipped, IdOf(p.st.skipped[i]);
    var st' := p.st.(skipped := Remove(items, i));
    LedgerUse(h, p.epoch, p.st.nr, items, Elements(p.delivered), p.evicted, i);
    RemoveSplits(items, i);
    ElementsOfAppend(p.delivered, id);
    assert id in Ids(items);
    assert Noted(p, st', id).evicted == p.evicted;
  }

  /** New keys and a new ledger make a new invariant; the accepted frame was never seen before. */
  lemma InvOfNoted(h: History, p: Party, h': History, st': State, id: FrameId)
    requires |h.keys| == |h.sent| && PartyInv(h, p) && !Behind(h, p.epoch, p.st.nr, id)
    requires var p' := Noted(p, st', id);
      && OnEpoch(h', p'.epoch, st')
      && Ledger(h', p'.epoch, st'.nr, st'.skipped, Elements(p.delivered) + {id},
                p.evicted + (Ids(p.st.skipped) - Ids(st'.skipped)))
    ensures PartyInv(h', Noted(p, st', id))
  {
    ElementsOfAppend(p.delivered, id);
    assert id !in Elements(p.delivered) && id !in Ids(p.st.skipped);
    assert Ids(p.st.skipped) - Ids(st'.skipped) - {id} == Ids(p.st.skipped) - Ids(st'.skipped);
  }

  lemma InvAfterCurrent(h: History, p: Party, c: nat, n: nat)
    requires ValidHistory(h) && PartyInv(h, p) && 0 < c && c + 1 == p.epoch
    requires p.st.nr <= n <= p.st.nr + MAX_SKIP && n < |h.sent[c]|
    ensures PartyInv(h, Noted(p, Consumed(Moved(h, c, p.st, n - p.st.nr)), IdAt(h, c, n)))
  {
    hide SkipLoop, Ledger, Range, Evict, RootKey, Derivable, Behind;
    var st' := Consumed(Moved(h, c, p.st, n - p.st.nr));
    NotStored(h, p, c, n);
    LedgerAfterCurrent(h, p, c, n);
    assert OnEpoch(h, p.epoch, st');
    InvOfNoted(h, p, h, st', IdAt(h, c, n));
  }

  lemma PartyFacts(h: History, p: Party)
    requires ValidHistory(h) && PartyInv(h, p)
    ensures |h.keys| == |h.sent| && p.epoch < |h.keys| && (p.epoch >= 2 ==> p.st.nr <= |h.sent[p.epoch - 1]|)
    ensures Ledger(h, p.epoch, p.st.nr, p.st.skipped, Elements(p.delivered), p.evicted)
    ensures forall x :: x in p.st.skipped ==> GenuineEntry(h, x)
  {}

  lemma RangeIsNew(h: History, e: nat, nr: nat, c: nat, count: nat)
    requires ValidHistory(h) && 0 < c && c + 1 == e && c < |h.keys|
    ensures forall x :: x in Range(h, c, nr, count) ==> !Behind(h, e, nr, IdOf(x)) && IdOf(x) != IdAt(h, c, nr + count)
  {
    hide Behind, Range, Advance, ChainKey;
    var added := Range(h, c, nr, count);
    forall x | x in added ensures !Behind(h, e, nr, IdOf(x)) && IdOf(x) != IdAt(h, c, nr + count) {
      var i :| 0 <= i < |added| && added[i] == x;
      RangeAt(h, c, nr, count, i);
      BehindAt(h, e, nr, c, x.n);
    }
  }

  lemma BehindAfterCurrent(h: History, e: nat, nr: nat, c: nat, count: nat, x: FrameId)
    requires ValidHistory(h) && 0 < c && c + 1 == e && c < |h.keys|
    ensures Behind(h, e, nr + count + 1, x)
       <==> Behind(h, e, nr, x) || x in Ids(Range(h, c, nr, count)) || x == IdAt(h, c, nr + count)
  {
    hide Behind, Range, Ids;
    RangeIds(h, c, nr, count, x);
    BehindGrows(h, e, nr, nr + count + 1, x);
  }

  lemma LedgerAfterCurrent(h: History, p: Party, c: nat, n: nat)
    requires ValidHistory(h) && PartyInv(h, p) && 0 < c && c + 1 == p.epoch
    requires p.st.nr <= n <= p.st.nr + MAX_SKIP && n < |h.sent[c]|
    ensures var kept := Evict(p.st.skipped + Range(h, c, p.st.nr, n - p.st.nr));
      Ledger(h, p.epoch, n + 1, kept, Elements(p.delivered) + {IdAt(h, c, n)},
             p.evicted + (Ids(p.st.skipped) - Ids(kept)))
  {
    hide ValidHistory, PartyInv, Range, Ledger, Behind, GenuineEntry, Evict, DistinctIds, Elements, Ids, IdAt;
    PartyFacts(h, p);
    var e, nr, count, id := p.epoch, p.st.nr, n - p.st.nr, IdAt(h, c, n);
    var added := Range(h, c, nr, count);
    RangeDistinct(h, c, nr, count);
    RangeIsNew(h, e, nr, c, count);
    forall x ensures Behind(h, e, n + 1, x) <==> Behind(h, e, nr, x) || x in Ids(added) || x == id {
      BehindAfterCurrent(h, e, nr, c, count, x);
    }
    IdIsNew(h, e, nr, c, n);
    LedgerGrow(h, e, nr, p.st.skipped, Elements(p.delivered), p.evicted, h, e, n + 1, added, id);
  }

  lemma IdIsNew(h: History, e: nat, nr: nat, c: nat, n: nat)
    requires ValidHistory(h) && 0 < c && c + 1 == e && c < |h.keys| && nr <= n
    ensures !Behind(h, e, nr, IdAt(h, c, n))
  {
    BehindAt(h, e, nr, c, n);
  }

  lemma BehindGrows(h: History, e: nat, nr: nat, nr': nat, x: FrameId)
    requires ValidHistory(h) && 2 <= e <= |h.keys| && nr <= nr'
    ensures Behind(h, e, nr', x) <==> Behind(h, e, nr, x) || (x.pub == PublicOf(h.keys[e - 1]) && nr <= x.n < nr')
  {
    if c :| 0 <= c < |h.keys| && x.pub == PublicOf(h.keys[c]) {
      assert x == IdAt(h, c, x.n);
      BehindAt(h, e, nr, c, x.n);
      BehindAt(h, e, nr', c, x.n);
    }
  }

  /** Everything moved past once chain `e + 1` is opened and read up to index `n`. */
  lemma BehindAfterNext(h: History, e: nat, nr: nat, n: nat, draw: KeyPair, x: FrameId)
    requires ValidHistory(h) && ValidHistory(OpenedHistory(h, draw)) && e + 2 == |h.keys|
    requires e >= 2 ==> nr <= |h.sent[e - 1]|
    ensures Behind(OpenedHistory(h, draw), e + 2, n + 1, x)
       <==> Behind(h, e, nr, x)
            || (e >= 2 && x.pub == PublicOf(h.keys[e - 1]) && nr <= x.n < |h.sent[e - 1]|)
            || (x.pub == PublicOf(h.keys[e + 1]) && x.n <= n)
  {
    var h' := OpenedHistory(h, draw);
    if c :| 0 <= c < |h.keys| && x.pub == PublicOf(h.keys[c]) {
      assert x == IdAt(h, c, x.n) == IdAt(h', c, x.n);
      BehindAt(h, e, nr, c, x.n);
      BehindAt(h', e + 2, n + 1, c, x.n);
      assert Receives(e + 2, c) <==> Receives(e, c) || c == e + 1;
    }
  }

  /** The keys stored by a frame that opens the next chain: the rest of the old chain, then the new one. */
  function AddedByNext(h: History, p: Party, n: nat, draw: KeyPair): seq<Entry>
    requires p.epoch + 1 < |h.keys| == |h.sent|
    requires p.epoch >= 2 ==> p.st.nr <= |h.sent[p.epoch - 1]|
  {
    (if p.epoch >= 2 then Range(h, p.epoch - 1, p.st.nr, |h.sent[p.epoch - 1]| - p.st.nr) else [])
    + Range(OpenedHistory(h, draw), p.epoch + 1, 0, n)
  }

  lemma AddedIds(h: History, p: Party, n: nat, draw: KeyPair, x: FrameId)
    requires p.epoch + 1 < |h.keys| == |h.sent|
    requires p.epoch >= 2 ==> p.st.nr <= |h.sent[p.epoch - 1]|
    ensures x in Ids(AddedByNext(h, p, n, draw))
       <==> (p.epoch >= 2 && x.pub == PublicOf(h.keys[p.epoch - 1]) && p.st.nr <= x.n < |h.sent[p.epoch - 1]|)
            || (x.pub == PublicOf(h.keys[p.epoch + 1]) && x.n < n)
  {
    hide Range, Ids;
    var e, h' := p.epoch, OpenedHistory(h, draw);
    RangeIds(h', e + 1, 0, n, x);
    if e >= 2 {
      RangeIds(h, e - 1, p.st.nr, |h.sent[e - 1]| - p.st.nr, x);
      IdsOfConcat(Range(h, e - 1, p.st.nr, |h.sent[e - 1]| - p.st.nr), Range(h', e + 1, 0, n));
    } else {
      assert AddedByNext(h, p, n, draw) == Range(h', e + 1, 0, n);
    }
  }

  lemma AddedEntries(h: History, p: Party, n: nat, draw: KeyPair)
    requires ValidHistory(h) && p.epoch + 1 < |h.keys|
    requires p.epoch >= 2 ==> p.st.nr <= |h.sent[p.epoch - 1]|
    ensures DistinctIds(AddedByNext(h, p, n, draw))
    ensures forall x :: x in AddedByNext(h, p, n, draw) ==> GenuineEntry(OpenedHistory(h, draw), x)
  {
    hide SkipLoop, RootKey, Advance, ChainKey, GenuineEntry, Range;
    var e, h' := p.epoch, OpenedHistory(h, draw);
    var newer := Range(h', e + 1, 0, n);
    RangeDistinct(h', e + 1, 0, n);
    if e >= 2 {
      var count := |h.sent[e - 1]| - p.st.nr;
      var older := Range(h, e - 1, p.st.nr, count);
      RangeDistinct(h, e - 1, p.st.nr, count);
      forall i, j | 0 <= i < |older| && 0 <= j < |newer| ensures IdOf(older[i]) != IdOf(newer[j]) {
        RangeAt(h, e - 1, p.st.nr, count, i);
        RangeAt(h', e + 1, 0, n, j);
      }
      forall x | x in older ensures GenuineEntry(h', x) {
        GenuineEntryStable(h, h', x);
      }
    } else {
      assert AddedByNext(h, p, n, draw) == newer;
    }
  }

  /** None of those keys was behind the party before, and none is the frame's own. */
  lemma AddedAreNew(h: History, p: Party, n: nat, draw: KeyPair)
    requires ValidHistory(h) && PartyInv(h, p) && p.epoch + 1 < |h.keys|
    ensures forall x :: x in AddedByNext(h, p, n, draw) ==>
      !Behind(h, p.epoch, p.st.nr, IdOf(x)) && IdOf(x) != IdAt(h, p.epoch + 1, n)
    ensures |AddedByNext(h, p, n, draw)| == n + (if p.epoch >= 2 then |h.sent[p.epoch - 1]| - p.st.nr else 0)
  {
    hide SkipLoop, Range, Ledger, Advance, RootKey, Behind;
    var e, nr, added := p.epoch, p.st.nr, AddedByNext(h, p, n, draw);
    forall x | x in added ensures !Behind(h, e, nr, IdOf(x)) && IdOf(x) != IdAt(h, e + 1, n) {
      var i :| 0 <= i < |added| && added[i] == x;
      assert IdOf(x) in Ids(added);
      AddedIds(h, p, n, draw, IdOf(x));
      BehindAt(h, e, nr, e + 1, x.n);
      if e >= 2 { BehindAt(h, e, nr, e - 1, x.n); }
    }
  }

  lemma LedgerAfterNext(h: History, p: Party, n: nat, draw: KeyPair)
    requires ValidHistory(h) && ValidHistory(OpenedHistory(h, draw)) && PartyInv(h, p) && p.epoch + 2 == |h.keys|
    requires PnOf(h, p.epoch + 1) - p.st.nr <= MAX_SKIP && n <= MAX_SKIP
    ensures var kept := Evict(p.st.skipped + AddedByNext(h, p, n, draw));
      Ledger(OpenedHistory(h, draw), p.epoch + 2, n + 1, kept, Elements(p.delivered) + {IdAt(h, p.epoch + 1, n)},
             p.evicted + (Ids(p.st.skipped) - Ids(kept)))
  {
    hide ValidHistory, PartyInv, Range, AddedByNext, Behind, Ledger, GenuineEntry, Evict, DistinctIds, Elements, Ids;
    PartyFacts(h, p);
    var e, nr, h' := p.epoch, p.st.nr, OpenedHistory(h, draw);
    var added, id := AddedByNext(h, p, n, draw), IdAt(h, e + 1, n);
    AddedEntries(h, p, n, draw);
    AddedAreNew(h, p, n, draw);
    BehindAt(h, e, nr, e + 1, n);
    forall x | x in p.st.skipped ensures GenuineEntry(h', x) {
      GenuineEntryStable(h, h', x);
    }
    forall x ensures Behind(h', e + 2, n + 1, x) <==> Behind(h, e, nr, x) || x in Ids(added) || x == id {
      AddedIds(h, p, n, draw, x);
      BehindAfterNext(h, e, nr, n, draw, x);
    }
    LedgerGrow(h, e, nr, p.st.skipped, Elements(p.delivered), p.evicted, h', e + 2, n + 1, added, id);
  }

  lemma TableAfterNext(h: History, p: Party, n: nat, draw: KeyPair)
    requires ValidHistory(h) && PartyInv(h, p) && p.epoch + 2 == |h.keys|
    ensures Moved(OpenedHistory(h, draw), p.epoch + 1, Opened(h, p, draw), n).skipped
            == Evict(p.st.skipped + AddedByNext(h, p, n, draw))
  {
    hide SkipLoop, Range, Ledger, Evict;
    var e := p.epoch;
    var newer := Range(OpenedHistory(h, draw), e + 1, 0, n);
    if e >= 2 {
      var older := Range(h, e - 1, p.st.nr, |h.sent[e - 1]| - p.st.nr);
      EvictOfEvict(p.st.skipped + older, newer);
      assert p.st.skipped + older + newer == p.st.skipped + (older + newer);
    } else {
      assert [] + newer == newer;
    }
  }

  /** Opening the next chain leaves both chain keys and the root key where both parties' history puts them. */
  lemma OpenedKeys(h: History, p: Party, draw: KeyPair)
    requires ValidHistory(h) && PartyInv(h, p) && p.epoch + 2 == |h.keys|
    ensures var (e, h', st) := (p.epoch, OpenedHistory(h, draw), Opened(h, p, draw));
      && st.rk == RootKey(h', e + 2) && st.cks == Some(ChainKey(h', e + 2)) && st.dhs == draw
      && st.dhr == Some(PublicOf(h.keys[e + 1])) && st.ns == st.nr == 0 && st.pn == |h.sent[e]|
  {
    hide SkipLoop, Range, Evict, Ledger, Derivable, Advance;
    var e, h' := p.epoch, OpenedHistory(h, draw);
    RootKeyStable(h, h', e);
    assert {h.keys[e], h.keys[e + 1]} == {h.keys[e + 1], h.keys[e]};
    assert RootKey(h', e + 1) == RootOf(RootKey(h, e), Link(h', e + 1));
    assert RootKey(h', e + 2) == RootOf(RootKey(h', e + 1), Link(h', e + 2));
  }

  lemma KeysAfterNext(h: History, p: Party, n: nat, draw: KeyPair)
    requires ValidHistory(h) && PartyInv(h, p) && p.epoch + 2 == |h.keys| && n < |h.sent[p.epoch + 1]|
    ensures OnEpoch(OpenedHistory(h, draw), p.epoch + 2,
                    Consumed(Moved(OpenedHistory(h, draw), p.epoch + 1, Opened(h, p, draw), n)))
  {
    hide ValidHistory, Range, Evict, PartyInv, RootKey, ChainKey, Opened, Ledger, GenuineEntry;
    PartyFacts(h, p);
    OpenedKeys(h, p, draw);
  }

  lemma InvAfterNext(h: History, p: Party, n: nat, draw: KeyPair)
    requires ValidHistory(h) && ValidHistory(OpenedHistory(h, draw)) && PartyInv(h, p) && p.epoch + 2 == |h.keys|
    requires n < |h.sent[p.epoch + 1]| && PnOf(h, p.epoch + 1) - p.st.nr <= MAX_SKIP && n <= MAX_SKIP
    ensures var st' := Consumed(Moved(OpenedHistory(h, draw), p.epoch + 1, Opened(h, p, draw), n));
      && st'.dhr != p.st.dhr
      && PartyInv(OpenedHistory(h, draw), Noted(p, st', IdAt(h, p.epoch + 1, n)))
  {
    hide SkipLoop, Range, Evict, Ledger, RootKey, Advance, ChainKey, AddedByNext, Behind, Derivable;
    var h', id := OpenedHistory(h, draw), IdAt(h, p.epoch + 1, n);
    var st' := Consumed(Moved(h', p.epoch + 1, Opened(h, p, draw), n));
    BehindAt(h, p.epoch, p.st.nr, p.epoch + 1, n);
    TableAfterNext(h, p, n, draw);
    LedgerAfterNext(h, p, n, draw);
    KeysAfterNext(h, p, n, draw);
    InvOfNoted(h, p, h', st', id);
  }

  // -- nothing else is accepted ----------------------------------------------------------

  lemma {:induction false} SkipLoopChain(st: State, until: nat, ck: Term)
    requires st.dhr.Some? && st.ckr == Some(Advance(ck, st.nr)) && st.nr <= until
    ensures SkipLoop(st, until).ckr == Some(Advance(ck, until))
    decreases until - st.nr
  {
    hide Evict, Put;
    if st.nr < until {
      SkipLoopChain(SkipOne(st), until, ck);
    }
  }

  lemma SoundStored(h: History, p: Party, header: Header, cipher: Cipher, ad: Bytes, i: nat) returns (c: nat)
    requires ValidHistory(h) && PartyInv(h, p) && Deliverable(h, cipher)
    requires i < |p.st.skipped| && IdOf(p.st.skipped[i]) == FrameId(header.pub, header.n)
    requires Open(p.st.skipped[i].mk, cipher, ad, header).Some?
    ensures IsGenuine(h, c, header.n, header, cipher, ad) && Receives(p.epoch, c)
    ensures IdAt(h, c, header.n) in Ids(p.st.skipped)
    ensures Open(p.st.skipped[i].mk, cipher, ad, header) == Some(h.sent[c][header.n].plaintext)
  {
    c := StoredIsBehind(h, p, i);
    OpeningIsGenuine(h, c - 1, Link(h, c), header.n, header, cipher, ad);
    assert IdOf(p.st.skipped[i]) in Ids(p.st.skipped);
  }

  lemma SoundCurrent(h: History, p: Party, header: Header, cipher: Cipher, ad: Bytes, draw: KeyPair)
    requires ValidHistory(h) && PartyInv(h, p) && Deliverable(h, cipher)
    requires p.st.dhr == Some(header.pub) && Skip(p.st, header.n).Some?
    requires DecryptCurrent(Skip(p.st, header.n).value, header, cipher, ad).0.Some?
    ensures p.epoch >= 2 && IsGenuine(h, p.epoch - 1, header.n, header, cipher, ad)
    ensures InWindow(h, p, p.epoch - 1, header.n)
    ensures DecryptCurrent(Skip(p.st, header.n).value, header, cipher, ad).0
            == Some(h.sent[p.epoch - 1][header.n].plaintext)
  {
    hide Ledger, SkipLoop, RootKey, Advance, Deliverable, Derivable, Open;
    var e, n := p.epoch, header.n;
    if n >= p.st.nr {
      SkipLoopChain(p.st, n, ChainKey(h, e - 1));
      OpeningIsGenuine(h, e - 2, Link(h, e - 1), n, header, cipher, ad);
    } else {
      SkipLoopStays(p.st, n);
      OpeningIsGenuine(h, e - 2, Link(h, e - 1), p.st.nr, header, cipher, ad);
    }
  }

  lemma SkipLoopStays(st: State, until: nat)
    requires st.ckr.Some? && st.dhr.Some? && until <= st.nr
    ensures SkipLoop(st, until) == st
  {}

  lemma SoundNext(h: History, p: Party, header: Header, cipher: Cipher, ad: Bytes, draw: KeyPair)
    requires ValidHistory(h) && PartyInv(h, p) && Deliverable(h, cipher)
    requires p.st.dhr != Some(header.pub) && Position(p.st, header, draw).Some?
    requires DecryptCurrent(Position(p.st, header, draw).value, header, cipher, ad).0.Some?
    ensures IsGenuine(h, p.epoch + 1, header.n, header, cipher, ad)
    ensures InWindow(h, p, p.epoch + 1, header.n)
    ensures DecryptCurrent(Position(p.st, header, draw).value, header, cipher, ad).0
            == Some(h.sent[p.epoch + 1][header.n].plaintext)
  {
    hide SkipLoop, Ledger;
    var e, n := p.epoch, header.n;
    var s1 := Skip(p.st, header.pn).value;
    if p.st.ckr.Some? { SkipLoopShape(p.st, header.pn); }
    assert s1.rk == p.st.rk && s1.dhs == p.st.dhs;
    var link := Dh({h.keys[e], header.pub.pair});
    SkipLoopChain(DhStep(s1, header.pub.pair, draw), n, ChainOf(RootKey(h, e), link));
    OpeningIsGenuine(h, e, link, n, header, cipher, ad);
  }

  /** Every accepted frame is a frame of the peer's, unchanged, inside the window. */
  lemma AcceptedIsGenuine(h: History, p: Party, header: Header, cipher: Cipher, ad: Bytes, draw: KeyPair)
    returns (c: nat)
    requires ValidHistory(h) && PartyInv(h, p) && Deliverable(h, cipher)
    requires Decrypt(p.st, header, cipher, ad, draw).0.Some?
    ensures IsGenuine(h, c, header.n, header, cipher, ad) && InWindow(h, p, c, header.n)
    ensures Receives(p.epoch, c) || c == p.epoch + 1
    ensures Decrypt(p.st, header, cipher, ad, draw).0 == Some(h.sent[c][header.n].plaintext)
  {
    hide SkipLoop, Ledger, OnEpoch;
    var i := Find(p.st.skipped, header.pub, header.n);
    if i < |p.st.skipped| {
      c := SoundStored(h, p, header, cipher, ad, i);
    } else if p.st.dhr == Some(header.pub) {
      SoundCurrent(h, p, header, cipher, ad, draw);
      c := p.epoch - 1;
    } else {
      SoundNext(h, p, header, cipher, ad, draw);
      c := p.epoch + 1;
    }
  }
}
