/** What two honest parties did so far, and the keys that follow from it.

    Sending chains are numbered in the order they were opened: the initiator owns the odd
    ones and the responder the even ones. `keys[c]` is the ratchet key pair of chain `c`
    (chain 0 is the responder's handshake key, which never sends), and `sent[c]` lists the
    messages encrypted on it.
*/
module RatchetHistory {
  import opened SymbolicCrypto
  import opened Ratchet

  datatype Sent = Sent(plaintext: Bytes, ad: Bytes)

  datatype History = History(shared: Term, keys: seq<KeyPair>, sent: seq<seq<Sent>>)

  /** A root key comes out of a handshake, or is a pre-shared 32-byte secret. */
  predicate IsRootSecret(t: Term) {
    t.SessionPart? || t.Seed?
  }

  ghost predicate ValidHistory(h: History) {
    && IsRootSecret(h.shared)
    && |h.keys| == |h.sent| >= 2
    && h.sent[0] == []
    && (forall k :: 0 <= k < |h.keys| ==> h.keys[k].Honest?)
    && (forall j, k :: 0 <= j < k < |h.keys| ==> h.keys[j] != h.keys[k])
    && !Derivable(OUTSIDER, h.shared)
  }

  // -- the keys of a history ------------------------------------------------

  function Link(h: History, k: nat): Term
    requires 0 < k < |h.keys|
  {
    Dh({h.keys[k], h.keys[k - 1]})
  }

  /** The root key after chain `k` was opened. */
  function RootKey(h: History, k: nat): Term
    requires k < |h.keys|
  {
    if k == 0 then h.shared else RootOf(RootKey(h, k - 1), Link(h, k))
  }

  function ChainKey(h: History, c: nat): Term
    requires 0 < c < |h.keys|
  {
    ChainOf(RootKey(h, c - 1), Link(h, c))
  }

  function Advance(ck: Term, n: nat): Term {
    if n == 0 then ck else NextOf(Advance(ck, n - 1))
  }

  function MessageKey(h: History, c: nat, n: nat): Term
    requires 0 < c < |h.keys|
  {
    MessageOf(Advance(ChainKey(h, c), n))
  }

  // -- the frames of a history ----------------------------------------------

  function PnOf(h: History, c: nat): nat
    requires c < |h.sent|
  {
    if c >= 2 then |h.sent[c - 2]| else 0
  }

  function HeaderAt(h: History, c: nat, n: nat): Header
    requires c < |h.keys| == |h.sent|
  {
    Header(PublicOf(h.keys[c]), PnOf(h, c), n)
  }

  /** Message `n` of chain `c` went out as a frame; a counter past four bytes never does. */
  predicate Emitted(h: History, c: nat, n: nat) {
    && 0 < c < |h.keys| == |h.sent|
    && n < |h.sent[c]|
    && Encodable(HeaderAt(h, c, n))
  }

  function CipherAt(h: History, c: nat, n: nat): Cipher
    requires Emitted(h, c, n)
  {
    Boxed(MessageKey(h, c, n), h.sent[c][n].plaintext, h.sent[c][n].ad, HeaderAt(h, c, n))
  }

  /** `cipher` delivered under `header` and `ad` is exactly message `n` of chain `c`. */
  predicate IsGenuine(h: History, c: nat, n: nat, header: Header, cipher: Cipher, ad: Bytes) {
    && Emitted(h, c, n)
    && cipher == CipherAt(h, c, n)
    && header == HeaderAt(h, c, n)
    && ad == h.sent[c][n].ad
  }

  /** `mk` is message key `n` of a chain that hangs off root key `k` of this history by `link`. */
  predicate IsKeyAt(h: History, k: nat, link: Term, n: nat, mk: Term)
    requires k < |h.keys|
  {
    mk == MessageOf(Advance(ChainOf(RootKey(h, k), link), n))
  }

  /** Only the two parties of this history could have made a box under this key. */
  ghost predicate OffRoot(h: History, mk: Term) {
    exists k: nat, link, n: nat :: k < |h.keys| && IsKeyAt(h, k, link, n, mk)
  }

  /** What the network can deliver: ciphertexts of this history in any order, any number of times and
      under any header; anything made elsewhere, by anyone, in any other session; and anything it can
      seal under a key it can compute. */
  ghost predicate Deliverable(h: History, cipher: Cipher) {
    || cipher.Scrambled? || Derivable(OUTSIDER, cipher.mk) || !OffRoot(h, cipher.mk)
    || exists c, n :: Emitted(h, c, n) && cipher == CipherAt(h, c, n)
  }

  // -- growth ----------------------------------------------------------------

  ghost predicate Extends(h: History, h': History) {
    && h.shared == h'.shared
    && |h.keys| == |h.sent| && |h'.keys| == |h'.sent|
    && h.keys <= h'.keys
    && forall c :: 0 <= c < |h.sent| ==> h.sent[c] <= h'.sent[c]
  }

  lemma {:induction false} RootKeyStable(h: History, h': History, k: nat)
    requires h.shared == h'.shared && h.keys <= h'.keys && k < |h.keys|
    ensures RootKey(h, k) == RootKey(h', k)
  {
    if k > 0 { RootKeyStable(h, h', k - 1); }
  }

  lemma ChainKeyStable(h: History, h': History, c: nat)
    requires h.shared == h'.shared && h.keys <= h'.keys && 0 < c < |h.keys|
    ensures ChainKey(h, c) == ChainKey(h', c)
  {
    RootKeyStable(h, h', c - 1);
  }

  // -- distinct positions have distinct keys ---------------------------------

  lemma {:induction false} RootKeyGrows(h: History, j: nat, k: nat)
    requires j < k < |h.keys|
    ensures RootKey(h, j) < RootKey(h, k)
  {
    if j < k - 1 { RootKeyGrows(h, j, k - 1); }
  }

  lemma RootKeyInjective(h: History, j: nat, k: nat)
    requires j < |h.keys| && k < |h.keys| && RootKey(h, j) == RootKey(h, k)
    ensures j == k
  {
    if j < k { RootKeyGrows(h, j, k); }
    if k < j { RootKeyGrows(h, k, j); }
  }

  lemma {:induction false} AdvanceInjective(a: Term, m: nat, b: Term, n: nat)
    requires a.ChainOf? && b.ChainOf? && Advance(a, m) == Advance(b, n)
    ensures a == b && m == n
  {
    if m > 0 && n > 0 { AdvanceInjective(a, m - 1, b, n - 1); }
  }

  /** A message key determines the root key, the link and the counter it was derived from. */
  lemma MessageKeyInjective(h: History, c: nat, n: nat, k: nat, link: Term, m: nat)
    requires 0 < c < |h.keys| && k < |h.keys|
    requires MessageKey(h, c, n) == MessageOf(Advance(ChainOf(RootKey(h, k), link), m))
    ensures k == c - 1 && link == Link(h, c) && m == n
  {
    AdvanceInjective(ChainKey(h, c), n, ChainOf(RootKey(h, k), link), m);
    RootKeyInjective(h, k, c - 1);
  }

  // -- the network learns none of them ---------------------------------------

  lemma {:induction false} RootKeySecret(att: Attacker, h: History, k: nat)
    requires k < |h.keys| && !Derivable(att, h.shared)
    requires forall t :: t in att.terms ==> !t.RootOf?
    ensures !Derivable(att, RootKey(h, k))
  {
    if k > 0 { RootKeySecret(att, h, k - 1); }
  }

  lemma {:induction false} AdvanceSecret(att: Attacker, ck: Term, n: nat)
    requires !Derivable(att, ck)
    requires forall m :: 0 < m <= n ==> Advance(ck, m) !in att.terms
    ensures !Derivable(att, Advance(ck, n))
  {
    if n > 0 { AdvanceSecret(att, ck, n - 1); }
  }

  /** Every key of a chain hanging off the root, whatever the peer key, is out of reach. */
  lemma MessageKeySecret(h: History, k: nat, link: Term, n: nat)
    requires ValidHistory(h) && k < |h.keys|
    ensures !Derivable(OUTSIDER, MessageOf(Advance(ChainOf(RootKey(h, k), link), n)))
  {
    RootKeySecret(OUTSIDER, h, k);
    AdvanceSecret(OUTSIDER, ChainOf(RootKey(h, k), link), n);
  }

  /** A ciphertext that opens under a chain off the root is a frame of the history. */
  lemma OpeningIsGenuine(h: History, k: nat, link: Term, m: nat, header: Header, cipher: Cipher, ad: Bytes)
    requires ValidHistory(h) && k < |h.keys| && Deliverable(h, cipher)
    requires Open(MessageOf(Advance(ChainOf(RootKey(h, k), link), m)), cipher, ad, header).Some?
    ensures k + 1 < |h.keys| && link == Link(h, k + 1)
    ensures IsGenuine(h, k + 1, m, header, cipher, ad)
    ensures Open(MessageOf(Advance(ChainOf(RootKey(h, k), link), m)), cipher, ad, header).value
            == h.sent[k + 1][m].plaintext
  {
    hide ValidHistory, RootKey, Advance, Derivable;
    MessageKeySecret(h, k, link, m);
    assert IsKeyAt(h, k, link, m, cipher.mk);
    var c, n :| Emitted(h, c, n) && cipher == CipherAt(h, c, n);
    MessageKeyInjective(h, c, n, k, link, m);
  }

  // -- other sessions ---------------------------------------------------------

  lemma {:induction false} RootsStayApart(h: History, j: nat, g: History, k: nat)
    requires j < |h.keys| && k < |g.keys| && IsRootSecret(h.shared) && IsRootSecret(g.shared) && h.shared != g.shared
    ensures RootKey(h, j) != RootKey(g, k)
    decreases j
  {
    if j > 0 && k > 0 { RootsStayApart(h, j - 1, g, k - 1); }
  }

  /** Frames of any session with another root are in the network's reach, an earlier session of the same
      two parties included. */
  lemma ForeignIsDeliverable(h: History, g: History, c: nat, n: nat)
    requires IsRootSecret(h.shared) && IsRootSecret(g.shared) && h.shared != g.shared && Emitted(g, c, n)
    ensures Deliverable(h, CipherAt(g, c, n))
  {
    var mk := MessageKey(g, c, n);
    if OffRoot(h, mk) {
      var k: nat, link, m: nat :| k < |h.keys| && IsKeyAt(h, k, link, m, mk);
      AdvanceInjective(ChainKey(g, c), n, ChainOf(RootKey(h, k), link), m);
      RootsStayApart(h, k, g, c - 1);
    }
  }
}
