/** Exact bookkeeping of received message keys: every index a receiving chain has moved past
    was delivered, is stored, or was evicted, and exactly one of the three.
*/
module RatchetLedger {
  import opened SymbolicCrypto
  import opened Ratchet
  import opened RatchetHistory

  /** A message as the wire names it. */
  datatype FrameId = FrameId(pub: Public, n: nat)

  function IdOf(e: Entry): FrameId {
    FrameId(e.pub, e.n)
  }

  function Ids(items: seq<Entry>): set<FrameId> {
    set i | 0 <= i < |items| :: IdOf(items[i])
  }

  ghost predicate DistinctIds(items: seq<Entry>) {
    forall i, j :: 0 <= i < j < |items| ==> IdOf(items[i]) != IdOf(items[j])
  }

  function EntryAt(h: History, c: nat, n: nat): Entry
    requires 0 < c < |h.keys|
  {
    Entry(PublicOf(h.keys[c]), n, MessageKey(h, c, n))
  }

  ghost predicate GenuineEntry(h: History, x: Entry) {
    exists c :: 0 < c < |h.keys| && x == EntryAt(h, c, x.n)
  }

  /** Chain `c` reaches the party whose own sending chain is `e`. */
  predicate Receives(e: nat, c: nat) {
    0 < c < e && (e - c) % 2 == 1
  }

  /** How many indices of chain `c` that party has moved past, `nr` of them on its newest chain. */
  function Passed(h: History, e: nat, nr: nat, c: nat): nat
    requires c < |h.sent|
  {
    if c + 1 == e then nr else |h.sent[c]|
  }

  ghost predicate Behind(h: History, e: nat, nr: nat, id: FrameId)
    requires |h.keys| == |h.sent|
  {
    exists c :: 0 <= c < |h.keys| && Receives(e, c) && id.pub == PublicOf(h.keys[c]) && id.n < Passed(h, e, nr, c)
  }

  /** The three-way split, for the party at sending chain `e` with `nr` messages received. */
  ghost predicate Ledger(h: History, e: nat, nr: nat, items: seq<Entry>, delivered: set<FrameId>, evicted: set<FrameId>)
    requires |h.keys| == |h.sent|
  {
    && DistinctIds(items)
    && |items| <= MAX_SKIPPED_KEYS
    && (forall i :: 0 <= i < |items| ==> GenuineEntry(h, items[i]))
    && (forall id :: Behind(h, e, nr, id) <==> id in delivered || id in Ids(items) || id in evicted)
    && delivered !! Ids(items) !! evicted
  }

  /** The split, for one index. */
  lemma LedgerAt(h: History, e: nat, nr: nat, items: seq<Entry>, delivered: set<FrameId>, evicted: set<FrameId>,
                 id: FrameId)
    requires |h.keys| == |h.sent| && Ledger(h, e, nr, items, delivered, evicted)
    ensures Behind(h, e, nr, id) <==> id in delivered || id in Ids(items) || id in evicted
    ensures !(id in delivered && id in Ids(items)) && !(id in delivered && id in evicted)
    ensures !(id in Ids(items) && id in evicted)
  {
    hide Behind, Ids, DistinctIds, GenuineEntry;
  }

  // -- tables ------------------------------------------------------------------

  lemma FindById(items: seq<Entry>, pub: Public, n: nat)
    ensures Find(items, pub, n) < |items| <==> FrameId(pub, n) in Ids(items)
  {
    FindIsFirst(items, pub, n);
    var i := Find(items, pub, n);
    if i < |items| { assert IdOf(items[i]) == FrameId(pub, n); }
  }

  lemma IdsOfConcat(a: seq<Entry>, b: seq<Entry>)
    ensures Ids(a + b) == Ids(a) + Ids(b)
  {
    var s := a + b;
    forall id | id in Ids(a) ensures id in Ids(s) {
      var i :| 0 <= i < |a| && IdOf(a[i]) == id;
      assert IdOf(s[i]) == id;
    }
    forall id | id in Ids(b) ensures id in Ids(s) {
      var i :| 0 <= i < |b| && IdOf(b[i]) == id;
      assert IdOf(s[|a| + i]) == id;
    }
  }

  lemma EvictOfEvict(a: seq<Entry>, b: seq<Entry>)
    ensures Evict(Evict(a) + b) == Evict(a + b)
  {}

  /** Eviction only loses entries that were there before the last `MAX_SKIPPED_KEYS` arrived. */
  lemma EvictionSplits(items: seq<Entry>, added: seq<Entry>)
    requires DistinctIds(items + added) && |added| <= MAX_SKIPPED_KEYS
    ensures var kept := Evict(items + added);
      && DistinctIds(kept)
      && Ids(added) <= Ids(kept) <= Ids(items) + Ids(added)
      && (forall i :: 0 <= i < |kept| ==> kept[i] in items + added)
  {
    var all := items + added;
    var kept := Evict(all);
    var d := |all| - |kept|;
    IdsOfConcat(items, added);
    assert all == all[..d] + kept;
    IdsOfConcat(all[..d], kept);
    assert kept == items[d..] + added;
    IdsOfConcat(items[d..], added);
  }

  lemma RemoveSplits(items: seq<Entry>, i: nat)
    requires DistinctIds(items) && i < |items|
    ensures DistinctIds(Remove(items, i)) && Ids(Remove(items, i)) == Ids(items) - {IdOf(items[i])}
    ensures forall j :: 0 <= j < |items| - 1 ==> Remove(items, i)[j] in items
  {
    assert items == items[..i] + ([items[i]] + items[i + 1..]);
    IdsOfConcat(items[..i], [items[i]] + items[i + 1..]);
    IdsOfConcat([items[i]], items[i + 1..]);
    IdsOfConcat(items[..i], items[i + 1..]);
    assert Ids([items[i]]) == {IdOf(items[i])} by { assert IdOf([items[i]][0]) in Ids([items[i]]); }
    var front, back := items[..i], items[i + 1..];
    forall j | 0 <= j < |front| ensures IdOf(front[j]) != IdOf(items[i]) {
      assert front[j] == items[j];
    }
    forall j | 0 <= j < |back| ensures IdOf(back[j]) != IdOf(items[i]) {
      assert back[j] == items[i + 1 + j];
    }
  }

  // -- the skip loop in closed form ---------------------------------------------

  /** The entries for `count` indices of chain `c`, starting at `from`. */
  function Range(h: History, c: nat, from: nat, count: nat): (r: seq<Entry>)
    requires 0 < c < |h.keys|
    ensures |r| == count
    decreases count
  {
    if count == 0 then [] else [EntryAt(h, c, from)] + Range(h, c, from + 1, count - 1)
  }

  lemma {:induction false} RangeAt(h: History, c: nat, from: nat, count: nat, i: nat)
    requires 0 < c < |h.keys| && i < count
    ensures Range(h, c, from, count)[i] == EntryAt(h, c, from + i)
    decreases count
  {
    if i > 0 { RangeAt(h, c, from + 1, count - 1, i - 1); }
  }

  lemma RangeIds(h: History, c: nat, from: nat, count: nat, id: FrameId)
    requires 0 < c < |h.keys|
    ensures id in Ids(Range(h, c, from, count)) <==> id.pub == PublicOf(h.keys[c]) && from <= id.n < from + count
  {
    var r := Range(h, c, from, count);
    forall i | 0 <= i < |r| ensures r[i] == EntryAt(h, c, from + i) {
      RangeAt(h, c, from, count, i);
    }
    if id.pub == PublicOf(h.keys[c]) && from <= id.n < from + count {
      assert IdOf(r[id.n - from]) == id;
    }
  }

  lemma RangeDistinct(h: History, c: nat, from: nat, count: nat)
    requires 0 < c < |h.keys|
    ensures DistinctIds(Range(h, c, from, count))
    ensures forall x :: x in Range(h, c, from, count) ==> GenuineEntry(h, x)
  {
    var r := Range(h, c, from, count);
    forall i | 0 <= i < |r| ensures r[i] == EntryAt(h, c, from + i) {
      RangeAt(h, c, from, count, i);
    }
  }

  /** The receiving half of `st` stands on chain `c`, and no index from `st.nr` on is stored. */
  ghost predicate OnChain(h: History, c: nat, st: State) {
    && 0 < c < |h.keys|
    && st.dhr == Some(PublicOf(h.keys[c])) && st.ckr == Some(Advance(ChainKey(h, c), st.nr))
    && forall x :: x in st.skipped && x.pub == PublicOf(h.keys[c]) ==> x.n < st.nr
  }

  function Moved(h: History, c: nat, st: State, count: nat): State
    requires 0 < c < |h.keys|
  {
    st.(ckr := Some(Advance(ChainKey(h, c), st.nr + count)), nr := st.nr + count,
        skipped := Evict(st.skipped + Range(h, c, st.nr, count)))
  }

  lemma SkipOneAppends(h: History, c: nat, st: State)
    requires OnChain(h, c, st)
    ensures OnChain(h, c, SkipOne(st)) && |SkipOne(st).skipped| <= MAX_SKIPPED_KEYS
    ensures SkipOne(st) == st.(ckr := Some(Advance(ChainKey(h, c), st.nr + 1)), nr := st.nr + 1,
                               skipped := Evict(st.skipped + [EntryAt(h, c, st.nr)]))
  {
    var x := EntryAt(h, c, st.nr);
    FindIsFirst(st.skipped, x.pub, x.n);
    assert x == Entry(st.dhr.value, st.nr, MessageOf(st.ckr.value));
    assert Put(st.skipped, x) == st.skipped + [x];
  }

  lemma SkipLoopUnfolds(st: State, until: nat)
    requires st.ckr.Some? && st.dhr.Some?
    ensures SkipLoop(st, until) == if st.nr < until then SkipLoop(SkipOne(st), until) else st
  {
    hide SkipOne;
  }

  lemma MovedOnce(h: History, c: nat, st: State, count: nat)
    requires OnChain(h, c, st) && count > 0
    ensures Moved(h, c, SkipOne(st), count - 1) == Moved(h, c, st, count)
  {
    hide SkipOne, Evict, Advance;
    OnChainFacts(h, c, st);
    SkipOneAppends(h, c, st);
    var x := EntryAt(h, c, st.nr);
    var rest := Range(h, c, st.nr + 1, count - 1);
    EvictOfEvict(st.skipped + [x], rest);
    assert st.skipped + [x] + rest == st.skipped + Range(h, c, st.nr, count);
  }

  lemma MovedNone(h: History, c: nat, st: State)
    requires OnChain(h, c, st) && |st.skipped| <= MAX_SKIPPED_KEYS
    ensures Moved(h, c, st, 0) == st
  {
    assert st.skipped + [] == st.skipped;
  }

  /** Skipping `count` indices of chain `c` appends that range to the table and then evicts. */
  lemma {:induction false} SkipLoopIsRange(h: History, c: nat, st: State, count: nat)
    requires OnChain(h, c, st) && |st.skipped| <= MAX_SKIPPED_KEYS
    ensures SkipLoop(st, st.nr + count) == Moved(h, c, st, count)
    decreases count
  {
    hide SkipLoop, Moved, SkipOne, OnChain, Evict, Range, Advance, ChainKey;
    OnChainFacts(h, c, st);
    SkipLoopUnfolds(st, st.nr + count);
    MovedNone(h, c, st);
    if count > 0 {
      SkipOneAppends(h, c, st);
      MovedOnce(h, c, st, count);
      SkipLoopIsRange(h, c, SkipOne(st), count - 1);
    }
  }

  lemma OnChainFacts(h: History, c: nat, st: State)
    requires OnChain(h, c, st)
    ensures 0 < c < |h.keys| && st.ckr.Some? && st.dhr.Some? && SkipOne(st).nr == st.nr + 1
  {}

  lemma SkipIsRange(h: History, c: nat, st: State, count: nat)
    requires OnChain(h, c, st) && |st.skipped| <= MAX_SKIPPED_KEYS && count <= MAX_SKIP
    ensures Skip(st, st.nr + count) == Some(Moved(h, c, st, count))
  {
    SkipLoopIsRange(h, c, st, count);
  }

  // -- how the ledger moves ------------------------------------------------------

  /** A stored key is used up. */
  lemma LedgerUse(h: History, e: nat, nr: nat, items: seq<Entry>, delivered: set<FrameId>, evicted: set<FrameId>,
                  i: nat)
    requires |h.keys| == |h.sent| && Ledger(h, e, nr, items, delivered, evicted) && i < |items|
    ensures Ledger(h, e, nr, Remove(items, i), delivered + {IdOf(items[i])}, evicted)
  {
    RemoveSplits(items, i);
    assert IdOf(items[i]) in Ids(items);
    forall j | 0 <= j < |items| - 1 ensures GenuineEntry(h, Remove(items, i)[j]) {
      assert Remove(items, i)[j] in items;
    }
  }

  /** Fresh keys are stored, the oldest fall out, and one more index is delivered. */
  lemma LedgerGrow(h: History, e: nat, nr: nat, items: seq<Entry>, delivered: set<FrameId>, evicted: set<FrameId>,
                   h': History, e': nat, nr': nat, added: seq<Entry>, id: FrameId)
    requires |h.keys| == |h.sent| && |h'.keys| == |h'.sent|
    requires Ledger(h, e, nr, items, delivered, evicted)
    requires |added| <= MAX_SKIPPED_KEYS && DistinctIds(added)
    requires forall x :: x in added ==> GenuineEntry(h', x) && !Behind(h, e, nr, IdOf(x)) && IdOf(x) != id
    requires forall x :: x in items ==> GenuineEntry(h', x)
    requires !Behind(h, e, nr, id)
    requires forall x :: Behind(h', e', nr', x) <==> Behind(h, e, nr, x) || x in Ids(added) || x == id
    ensures var kept := Evict(items + added);
      Ledger(h', e', nr', kept, delivered + {id}, evicted + (Ids(items) - Ids(kept)))
  {
    var all := items + added;
    var kept := Evict(all);
    forall i, j | 0 <= i < j < |all| ensures IdOf(all[i]) != IdOf(all[j]) {
      if i < |items| <= j {
        assert all[j] in added;
        assert IdOf(all[i]) in Ids(items);
      }
    }
    EvictionSplits(items, added);
    forall i | 0 <= i < |kept| ensures GenuineEntry(h', kept[i]) {
      assert kept[i] in all;
    }
    forall x | x in Ids(added) ensures !Behind(h, e, nr, x) && x != id {
      var i :| 0 <= i < |added| && IdOf(added[i]) == x;
      assert added[i] in added;
    }
  }
}
