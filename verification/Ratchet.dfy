/** One party's Double Ratchet state (Signal's "The Double Ratchet Algorithm", revision 1,
    sections 3.3 to 3.5): every operation as a function on a state value.
*/
module Ratchet {
  import opened SymbolicCrypto

  const MAX_SKIP: nat := 256
  const MAX_SKIPPED_KEYS: nat := 1024
  // Header counters are four bytes wide on the wire.
  const COUNTER_LIMIT: nat := 0x1_0000_0000

  datatype Header = Header(pub: Public, pn: nat, n: nat)

  /** A ratchet ciphertext; the AEAD's associated data is the caller's data plus the header. */
  datatype Cipher =
    | Scrambled(id: nat)
    | Boxed(mk: Term, plaintext: Bytes, ad: Bytes, header: Header)

  datatype Frame = Frame(header: Header, cipher: Cipher)

  datatype Entry = Entry(pub: Public, n: nat, mk: Term)

  datatype State = State(
    dhs: KeyPair,
    dhr: Option<Public>,
    rk: Term,
    cks: Option<Term>,
    ckr: Option<Term>,
    ns: nat,
    nr: nat,
    pn: nat,
    skipped: seq<Entry>)

  function Open(mk: Term, cipher: Cipher, ad: Bytes, header: Header): Option<Bytes> {
    if cipher.Boxed? && cipher.mk == mk && cipher.ad == ad && cipher.header == header
    then Some(cipher.plaintext) else None
  }

  // -- the ordered table of skipped message keys ----------------------------

  /** The position of key `(pub, n)`, or the table's length when it is absent. */
  function Find(items: seq<Entry>, pub: Public, n: nat): (i: nat)
    ensures i <= |items|
    ensures i < |items| ==> items[i].pub == pub && items[i].n == n
  {
    if items == [] || (items[0].pub == pub && items[0].n == n) then 0
    else 1 + Find(items[1..], pub, n)
  }

  lemma {:induction false} FindIsFirst(items: seq<Entry>, pub: Public, n: nat)
    ensures forall j :: 0 <= j < Find(items, pub, n) ==> items[j].pub != pub || items[j].n != n
  {
    if items != [] { FindIsFirst(items[1..], pub, n); }
  }

  /** An ordered dictionary keeps the place of a key it already holds. */
  function Put(items: seq<Entry>, e: Entry): seq<Entry> {
    var i := Find(items, e.pub, e.n);
    if i < |items| then items[i := e] else items + [e]
  }

  function Remove(items: seq<Entry>, i: nat): seq<Entry>
    requires i < |items|
  {
    items[..i] + items[i + 1..]
  }

  /** Oldest entries go first once the table is over its bound. */
  function Evict(items: seq<Entry>): (r: seq<Entry>)
    ensures |r| <= MAX_SKIPPED_KEYS
  {
    if |items| > MAX_SKIPPED_KEYS then items[|items| - MAX_SKIPPED_KEYS..] else items
  }

  // -- operations -----------------------------------------------------------

  function InitSender(shared: Term, peer: Public, draw: KeyPair): Option<State> {
    match DhTerm(draw, peer)
    case None => None
    case Some(dh) =>
      Some(State(draw, Some(peer), RootOf(shared, dh), Some(ChainOf(shared, dh)), None, 0, 0, 0, []))
  }

  function InitReceiver(shared: Term, pair: KeyPair): State {
    State(pair, None, shared, None, None, 0, 0, 0, [])
  }

  predicate Encodable(h: Header) {
    h.pn < COUNTER_LIMIT && h.n < COUNTER_LIMIT
  }

  /** The chain advances before the header is encoded, so an overflowing counter still costs a key. */
  function Encrypt(st: State, plaintext: Bytes, ad: Bytes): (Option<Frame>, State) {
    match st.cks
    case None => (None, st)
    case Some(ck) =>
      var header := Header(PublicOf(st.dhs), st.pn, st.ns);
      var st' := st.(cks := Some(NextOf(ck)), ns := st.ns + 1);
      if Encodable(header)
      then (Some(Frame(header, Boxed(MessageOf(ck), plaintext, ad, header))), st')
      else (None, st')
  }

  /** Store the message key at the chain's current position and move the chain on. */
  function SkipOne(st: State): State
    requires st.ckr.Some? && st.dhr.Some?
  {
    var ck := st.ckr.value;
    var items := Put(st.skipped, Entry(st.dhr.value, st.nr, MessageOf(ck)));
    st.(ckr := Some(NextOf(ck)), nr := st.nr + 1, skipped := Evict(items))
  }

  function SkipLoop(st: State, until: nat): State
    requires st.ckr.Some? && st.dhr.Some?
    decreases until - st.nr
  {
    if st.nr >= until then st else SkipLoop(SkipOne(st), until)
  }

  /** A receiving chain with no peer key would fail an assertion, which also refuses the frame. */
  predicate MaySkip(st: State, until: nat) {
    if st.ckr.None? then until == 0 else until - st.nr <= MAX_SKIP && st.dhr.Some?
  }

  function Skip(st: State, until: nat): Option<State>
  {
    if !MaySkip(st, until) then None
    else if st.ckr.None? then Some(st)
    else Some(SkipLoop(st, until))
  }

  /** The state after a DH step whose Diffie-Hellman outputs both exist. */
  function DhStep(st: State, pair: KeyPair, draw: KeyPair): State {
    var dh := Dh({st.dhs, pair});
    var dh' := Dh({draw, pair});
    var rk := RootOf(st.rk, dh);
    st.(pn := st.ns, ns := 0, nr := 0, dhr := Some(PublicOf(pair)), dhs := draw,
        rk := RootOf(rk, dh'), ckr := Some(ChainOf(st.rk, dh)), cks := Some(ChainOf(rk, dh')))
  }

  function DhRatchet(st: State, pub: Public, draw: KeyPair): Option<State> {
    if pub.LowOrder? then None else Some(DhStep(st, pub.pair, draw))
  }

  /** The receiving chain positioned at `header`, before the frame itself is tried. */
  function Position(st: State, header: Header, draw: KeyPair): Option<State>
  {
    if st.dhr == Some(header.pub) then Skip(st, header.n)
    else
      match Skip(st, header.pn)
      case None => None
      case Some(s1) =>
        match DhRatchet(s1, header.pub, draw)
        case None => None
        case Some(s2) => Skip(s2, header.n)
  }

  function DecryptCurrent(st: State, header: Header, cipher: Cipher, ad: Bytes): (Option<Bytes>, State) {
    if st.ckr.None? then (None, st)
    else
      match Open(MessageOf(st.ckr.value), cipher, ad, header)
      case None => (None, st)
      case Some(pt) => (Some(pt), st.(ckr := Some(NextOf(st.ckr.value)), nr := st.nr + 1))
  }

  /** A whole decryption: the plaintext and the committed state, or the old state on any failure. */
  function Decrypt(st: State, header: Header, cipher: Cipher, ad: Bytes, draw: KeyPair): (Option<Bytes>, State)
  {
    var i := Find(st.skipped, header.pub, header.n);
    if i < |st.skipped| then
      match Open(st.skipped[i].mk, cipher, ad, header)
      case None => (None, st)
      case Some(pt) => (Some(pt), st.(skipped := Remove(st.skipped, i)))
    else
      match Position(st, header, draw)
      case None => (None, st)
      case Some(trial) =>
        var (r, trial') := DecryptCurrent(trial, header, cipher, ad);
        if r.Some? then (r, trial') else (None, st)
  }

  /** A refused frame changes nothing at all. */
  lemma RefusalKeepsState(st: State, header: Header, cipher: Cipher, ad: Bytes, draw: KeyPair)
    requires Decrypt(st, header, cipher, ad, draw).0.None?
    ensures Decrypt(st, header, cipher, ad, draw).1 == st
  {}

  /** The table holds one key per name. */
  ghost predicate OnePerName(items: seq<Entry>) {
    forall i, j :: 0 <= i < j < |items| ==> items[i].pub != items[j].pub || items[i].n != items[j].n
  }

  /** Storing under a name that is there replaces its key in place; otherwise the key comes last. */
  lemma PutReplaces(items: seq<Entry>, e: Entry)
    requires OnePerName(items)
    ensures var items' := Put(items, e);
      && OnePerName(items') && e in items'
      && (forall x :: x in items && (x.pub != e.pub || x.n != e.n) ==> x in items')
      && |items'| == |items| + (if exists x :: x in items && x.pub == e.pub && x.n == e.n then 0 else 1)
  {
    FindIsFirst(items, e.pub, e.n);
    var i, items' := Find(items, e.pub, e.n), Put(items, e);
    if i < |items| {
      assert items[i] in items && items'[i] == e;
      forall x | x in items && (x.pub != e.pub || x.n != e.n) ensures x in items' {
        var j :| 0 <= j < |items| && items[j] == x;
        assert items'[j] == x;
      }
    } else {
      assert items'[|items|] == e;
    }
  }

  lemma {:induction false} SkipKeepsNames(st: State, until: nat)
    requires st.ckr.Some? && st.dhr.Some? && OnePerName(st.skipped)
    ensures OnePerName(SkipLoop(st, until).skipped)
    decreases until - st.nr
  {
    if st.nr < until {
      PutReplaces(st.skipped, Entry(st.dhr.value, st.nr, MessageOf(st.ckr.value)));
      hide Put;
      SkipKeepsNames(SkipOne(st), until);
    }
  }

  /** No frame, genuine or not, ever makes the table hold two keys under one name. */
  lemma DecryptKeepsNames(st: State, header: Header, cipher: Cipher, ad: Bytes, draw: KeyPair)
    requires OnePerName(st.skipped)
    ensures OnePerName(Decrypt(st, header, cipher, ad, draw).1.skipped)
  {
    PositionKeepsNames(st, header, draw);
    hide Position, OnePerName, Find, Open;
    var i := Find(st.skipped, header.pub, header.n);
    if i < |st.skipped| { RemoveKeepsNames(st.skipped, i); }
  }

  lemma RemoveKeepsNames(items: seq<Entry>, i: nat)
    requires OnePerName(items) && i < |items|
    ensures OnePerName(Remove(items, i))
  {}

  lemma PositionKeepsNames(st: State, header: Header, draw: KeyPair)
    requires OnePerName(st.skipped)
    ensures Position(st, header, draw).Some? ==> OnePerName(Position(st, header, draw).value.skipped)
  {
    hide OnePerName, SkipLoop;
    if st.dhr == Some(header.pub) {
      if st.ckr.Some? && st.dhr.Some? { SkipKeepsNames(st, header.n); }
    } else if Skip(st, header.pn).Some? && header.pub.PublicOf? {
      if st.ckr.Some? && st.dhr.Some? { SkipKeepsNames(st, header.pn); }
      SkipKeepsNames(DhStep(Skip(st, header.pn).value, header.pub.pair, draw), header.n);
    }
  }

  /** Whoever made it, a frame whose key is not stored is refused when it lies more than 256 ahead on its
      chain, leaves more than 256 behind on the chain before it, claims a chain before it where there was
      none, or carries an unusable ratchet key. */
  lemma OutOfReachIsRefused(st: State, header: Header, cipher: Cipher, ad: Bytes, draw: KeyPair)
    requires Find(st.skipped, header.pub, header.n) == |st.skipped|
    requires
      if st.dhr == Some(header.pub) then st.ckr.None? || header.n > st.nr + 256
      else header.pub.LowOrder? || header.n > 256
           || (if st.ckr.None? then header.pn > 0 else header.pn > st.nr + 256)
    ensures Decrypt(st, header, cipher, ad, draw) == (None, st)
  {
    if st.dhr != Some(header.pub) && Skip(st, header.pn).Some? && header.pub.PublicOf? && header.n > 256 {
      assert DhStep(Skip(st, header.pn).value, header.pub.pair, draw).nr == 0;
    }
  }

  // -- shape lemmas ----------------------------------------------------------

  lemma {:induction false} SkipLoopShape(st: State, until: nat)
    requires st.ckr.Some? && st.dhr.Some?
    ensures var r := SkipLoop(st, until);
      && r == st.(ckr := r.ckr, nr := r.nr, skipped := r.skipped) && r.ckr.Some?
      && r.nr == (if st.nr >= until then st.nr else until)
      && (|st.skipped| <= MAX_SKIPPED_KEYS ==> |r.skipped| <= MAX_SKIPPED_KEYS)
    decreases until - st.nr
  {
    if st.nr < until {
      SkipLoopShape(SkipOne(st), until);
    }
  }

  predicate Bounded(st: State) {
    |st.skipped| <= MAX_SKIPPED_KEYS
  }

  lemma SkipShape(st: State, until: nat)
    requires Bounded(st) && Skip(st, until).Some?
    ensures var r := Skip(st, until).value;
      && Bounded(r) && r == st.(ckr := r.ckr, nr := r.nr, skipped := r.skipped)
      && st.nr <= r.nr <= st.nr + MAX_SKIP && (r.ckr.Some? <==> st.ckr.Some?)
  {
    if st.ckr.Some? { SkipLoopShape(st, until); }
  }

  lemma PositionBounded(st: State, header: Header, draw: KeyPair)
    requires Bounded(st)
    ensures Position(st, header, draw).Some? ==> Bounded(Position(st, header, draw).value)
  {
    if Position(st, header, draw).Some? {
      if st.dhr == Some(header.pub) {
        SkipShape(st, header.n);
      } else {
        SkipShape(st, header.pn);
        var s1 := Skip(st, header.pn).value;
        SkipShape(DhStep(s1, header.pub.pair, draw), header.n);
      }
    }
  }

  /** No frame, genuine or not, takes the table over its bound. */
  lemma DecryptBounded(st: State, header: Header, cipher: Cipher, ad: Bytes, draw: KeyPair)
    requires Bounded(st)
    ensures Bounded(Decrypt(st, header, cipher, ad, draw).1)
  {
    PositionBounded(st, header, draw);
  }
}
