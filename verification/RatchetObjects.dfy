/** The mutable objects behind a ratchet. Decryption works on a clone that owns its own
    skipped-key table, and adopts the clone's fields, table included, only on success.
*/
module RatchetObjects {
  import opened SymbolicCrypto
  import R = Ratchet

  /** An insertion-ordered dictionary from (ratchet key, counter) to message key. */
  class SkippedKeys {
    var items: seq<R.Entry>

    constructor ()
      ensures items == []
    {
      items := [];
    }

    constructor CopyOf(other: SkippedKeys)
      ensures items == other.items
    {
      items := other.items;
    }

    method Set(e: R.Entry)
      modifies this
      ensures items == R.Put(old(items), e)
    {
      var i := R.Find(items, e.pub, e.n);
      if i < |items| {
        items := items[i := e];
      } else {
        items := items + [e];
      }
    }

    method PopOldest()
      requires items != []
      modifies this
      ensures items == old(items)[1..]
    {
      items := items[1..];
    }

    method Delete(i: nat)
      requires i < |items|
      modifies this
      ensures items == R.Remove(old(items), i)
    {
      items := items[..i] + items[i + 1..];
    }
  }

  lemma PopKeepsEvict(items: seq<R.Entry>)
    requires |items| > R.MAX_SKIPPED_KEYS
    ensures R.Evict(items[1..]) == R.Evict(items)
  {}

  lemma FitKeepsEvict(items: seq<R.Entry>)
    requires |items| <= R.MAX_SKIPPED_KEYS
    ensures R.Evict(items) == items
  {}

  class DoubleRatchet {
    var dhs: KeyPair
    var dhr: Option<Public>
    var rk: Term
    var cks: Option<Term>
    var ckr: Option<Term>
    var ns: nat
    var nr: nat
    var pn: nat
    var skipped: SkippedKeys

    ghost function Value(): R.State
      reads this, skipped
    {
      R.State(dhs, dhr, rk, cks, ckr, ns, nr, pn, skipped.items)
    }

    constructor (dhs: KeyPair, dhr: Option<Public>, rk: Term, cks: Option<Term>)
      ensures fresh(skipped) && Value() == R.State(dhs, dhr, rk, cks, None, 0, 0, 0, [])
    {
      this.dhs, this.dhr, this.rk, this.cks, ckr := dhs, dhr, rk, cks, None;
      ns, nr, pn := 0, 0, 0;
      skipped := new SkippedKeys();
    }

    /** `null` stands for the exception a low-order peer key raises. */
    static method InitSender(shared: Term, peer: Public, draw: KeyPair) returns (r: DoubleRatchet?)
      ensures r == null <==> R.InitSender(shared, peer, draw).None?
      ensures r != null ==> fresh(r) && fresh(r.skipped) && Some(r.Value()) == R.InitSender(shared, peer, draw)
    {
      var dh := DhTerm(draw, peer);
      if dh.None? {
        return null;
      }
      r := new DoubleRatchet(draw, Some(peer), RootOf(shared, dh.value), Some(ChainOf(shared, dh.value)));
    }

    static method InitReceiver(shared: Term, pair: KeyPair) returns (r: DoubleRatchet)
      ensures fresh(r) && fresh(r.skipped) && r.Value() == R.InitReceiver(shared, pair)
    {
      r := new DoubleRatchet(pair, None, shared, None);
    }

    constructor CloneOf(other: DoubleRatchet)
      ensures Value() == other.Value()
      ensures fresh(skipped)
    {
      dhs, dhr, rk, cks, ckr := other.dhs, other.dhr, other.rk, other.cks, other.ckr;
      ns, nr, pn := other.ns, other.nr, other.pn;
      skipped := new SkippedKeys.CopyOf(other.skipped);
    }

    method Encrypt(plaintext: Bytes, ad: Bytes) returns (frame: Option<R.Frame>)
      modifies this
      ensures skipped == old(skipped)
      ensures (frame, Value()) == R.Encrypt(old(Value()), plaintext, ad)
    {
      if cks.None? {
        return None;
      }
      var mk := MessageOf(cks.value);
      cks := Some(NextOf(cks.value));
      var header := R.Header(PublicOf(dhs), pn, ns);
      ns := ns + 1;
      if !R.Encodable(header) {
        return None;
      }
      frame := Some(R.Frame(header, R.Boxed(mk, plaintext, ad, header)));
    }

    /** `work` counts the chain steps taken, whether or not the frame is accepted. */
    method Decrypt(header: R.Header, cipher: R.Cipher, ad: Bytes, draw: KeyPair)
      returns (plaintext: Option<Bytes>, ghost work: nat)
      modifies this, skipped
      ensures (plaintext, Value()) == R.Decrypt(old(Value()), header, cipher, ad, draw)
      ensures plaintext.None? ==> unchanged(this) && old(skipped).items == old(skipped.items)
      ensures skipped == old(skipped) || fresh(skipped)
      ensures work <= 2 * R.MAX_SKIP + 1
    {
      work := 0;
      var hit;
      hit, plaintext := TrySkipped(header, cipher, ad);
      if hit {
        return;
      }
      var trial := new DoubleRatchet.CloneOf(this);
      var ok;
      ok, work := trial.Position(header, draw);
      if ok {
        plaintext := trial.DecryptCurrent(header, cipher, ad);
        work := work + 1;
      }
      if plaintext.Some? {
        Adopt(trial);
      }
    }

    /** Move to the header's chain and counter; a failure may leave this half moved. */
    method Position(header: R.Header, draw: KeyPair) returns (ok: bool, ghost work: nat)
      modifies this, skipped
      ensures skipped == old(skipped)
      ensures ok == R.Position(old(Value()), header, draw).Some?
      ensures ok ==> Value() == R.Position(old(Value()), header, draw).value
      ensures work <= 2 * R.MAX_SKIP
    {
      work := 0;
      if dhr != Some(header.pub) {
        ok, work := SkipMessageKeys(header.pn);
        if !ok {
          return;
        }
        ok := DhRatchet(header.pub, draw);
        if !ok {
          return;
        }
      }
      ghost var more;
      ok, more := SkipMessageKeys(header.n);
      work := work + more;
    }

    /** A stored key that does not open the frame stays stored, and the frame is refused. */
    method TrySkipped(header: R.Header, cipher: R.Cipher, ad: Bytes)
      returns (hit: bool, plaintext: Option<Bytes>)
      modifies skipped
      ensures hit <==> R.Find(old(skipped.items), header.pub, header.n) < |old(skipped.items)|
      ensures var i := R.Find(old(skipped.items), header.pub, header.n);
        && (hit ==> plaintext == R.Open(old(skipped.items)[i].mk, cipher, ad, header))
        && (!hit ==> plaintext.None?)
        && skipped.items == if hit && plaintext.Some? then R.Remove(old(skipped.items), i) else old(skipped.items)
    {
      var i := R.Find(skipped.items, header.pub, header.n);
      hit := i < |skipped.items|;
      plaintext := None;
      if hit {
        plaintext := R.Open(skipped.items[i].mk, cipher, ad, header);
        if plaintext.Some? {
          skipped.Delete(i);
        }
      }
    }

    method SkipMessageKeys(until: nat) returns (ok: bool, ghost work: nat)
      modifies this, skipped
      ensures skipped == old(skipped)
      ensures ok == R.Skip(old(Value()), until).Some?
      ensures Value() == if ok then R.Skip(old(Value()), until).value else old(Value())
      ensures work <= R.MAX_SKIP
    {
      work := 0;
      if ckr.None? {
        return until == 0, 0;
      }
      if until - nr > R.MAX_SKIP || dhr.None? {
        return false, 0;
      }
      while nr < until
        invariant ckr.Some? && dhr.Some? && skipped == old(skipped)
        invariant R.SkipLoop(Value(), until) == R.SkipLoop(old(Value()), until)
        invariant old(nr) <= nr && work == nr - old(nr)
        invariant nr <= until || nr == old(nr)
      {
        ghost var start := Value();
        SkipOne();
        work := work + 1;
        assert Value() == R.SkipOne(start);
      }
      ok := true;
    }

    method SkipOne()
      requires ckr.Some? && dhr.Some?
      modifies this, skipped
      ensures skipped == old(skipped)
      ensures Value() == R.SkipOne(old(Value()))
    {
      var ck := ckr.value;
      ckr := Some(NextOf(ck));
      skipped.Set(R.Entry(dhr.value, nr, MessageOf(ck)));
      nr := nr + 1;
      ghost var full := skipped.items;
      hide R.Evict, R.Put;
      while |skipped.items| > R.MAX_SKIPPED_KEYS
        invariant R.Evict(skipped.items) == R.Evict(full)
        modifies skipped
      {
        PopKeepsEvict(skipped.items);
        skipped.PopOldest();
      }
      FitKeepsEvict(skipped.items);
    }

    /** A low-order public key is refused after the counters were already reset. */
    method DhRatchet(pub: Public, draw: KeyPair) returns (ok: bool)
      modifies this
      ensures skipped == old(skipped) && ok == pub.PublicOf?
      ensures ok ==> Some(Value()) == R.DhRatchet(old(Value()), pub, draw)
      ensures !ok ==> Value() == old(Value()).(pn := old(ns), ns := 0, nr := 0, dhr := Some(pub))
    {
      pn, ns, nr := ns, 0, 0;
      dhr := Some(pub);
      if pub.LowOrder? {
        return false;
      }
      var dh := Dh({dhs, pub.pair});
      rk, ckr := RootOf(rk, dh), Some(ChainOf(rk, dh));
      dhs := draw;
      var dh' := Dh({dhs, pub.pair});
      rk, cks := RootOf(rk, dh'), Some(ChainOf(rk, dh'));
      ok := true;
    }

    method DecryptCurrent(header: R.Header, cipher: R.Cipher, ad: Bytes) returns (plaintext: Option<Bytes>)
      modifies this
      ensures skipped == old(skipped)
      ensures (plaintext, Value()) == R.DecryptCurrent(old(Value()), header, cipher, ad)
    {
      if ckr.None? {
        return None;
      }
      plaintext := R.Open(MessageOf(ckr.value), cipher, ad, header);
      if plaintext.Some? {
        ckr := Some(NextOf(ckr.value));
        nr := nr + 1;
      }
    }

    /** The clone's table object becomes this ratchet's own. */
    method Adopt(other: DoubleRatchet)
      modifies this
      ensures Value() == old(other.Value()) && skipped == old(other.skipped)
    {
      dhs, dhr, rk, cks, ckr := other.dhs, other.dhr, other.rk, other.cks, other.ckr;
      ns, nr, pn := other.ns, other.nr, other.pn;
      skipped := other.skipped;
    }
  }
}
