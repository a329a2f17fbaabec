/** The cryptographic vocabulary shared by the handshake and the ratchet.

    Every primitive is ideal: hashes and key derivations are free constructors, a
    Diffie-Hellman output depends only on the unordered pair of key pairs, an AEAD box
    opens only under the key, nonce and associated data it was sealed with, and a
    signature verifies only for the signer and message it was made for.
*/
module SymbolicCrypto {

  newtype byte = x: int | 0 <= x < 256

  type Bytes = seq<byte>

  datatype Option<+T> = None | Some(value: T)

  /** An X25519 key pair. Hostile pairs are the ones whose private half is public knowledge. */
  datatype KeyPair = Honest(id: nat) | Hostile(id: nat)

  /** The 32 bytes of an X25519 public key. Low-order points belong to no key pair. */
  datatype Public = PublicOf(pair: KeyPair) | LowOrder(id: nat)

  /** An Ed25519 signing key, identified with its public half. */
  datatype Signer = Signer(id: nat)

  datatype Signature = Signed(signer: Signer, message: Transcript) | Forged(id: nat)

  /** Secret byte strings. */
  datatype Term =
    | Seed(id: nat)
    | Constant(id: nat)
    | Dh(pairs: set<KeyPair>)
    | RootOf(rk: Term, dh: Term)
    | ChainOf(rk: Term, dh: Term)
    | NextOf(ck: Term)
    | MessageOf(ck: Term)
    | MixedChain(ck: Term, ikm: Term)
    | MixedKey(ck: Term, ikm: Term)
    | SessionPart(ck: Term, h: Transcript, part: nat)

  /** The running handshake hash: injective in everything that was mixed into it. */
  datatype Transcript = ProtocolName | Mixed(prev: Transcript, data: Data)

  datatype Data = Prologue(tag: nat) | KeyData(key: Public) | BoxData(box: Box)

  /** A handshake ciphertext. Before a key exists the plaintext travels in the clear. */
  datatype Box =
    | Garbage(id: nat)
    | Clear(plain: Plain)
    | Sealed(key: Term, nonce: nat, ad: Transcript, plain: Plain)

  datatype Plain = KeyPlain(key: Public) | PayloadPlain(payload: Payload)

  /** The identity proof carried by handshake messages 2 and 3. */
  datatype Payload =
    | Truncated(id: nat)
    | Identity(signer: Signer, signature: Signature, ratchet: Option<Public>, nickname: string)

  /** X25519 with the all-zero check: a low-order point yields no shared secret. */
  function DhTerm(own: KeyPair, peer: Public): Option<Term> {
    match peer
    case PublicOf(pair) => Some(Dh({own, pair}))
    case LowOrder(_) => None
  }

  // -- what an attacker can compute ---------------------------------------

  /** Secrets an attacker was handed, beyond the private halves of the hostile key pairs. */
  datatype Attacker = Attacker(terms: set<Term>, pairs: set<KeyPair>)

  const OUTSIDER := Attacker({}, {})

  predicate KnowsPrivate(att: Attacker, pair: KeyPair) {
    pair.Hostile? || pair in att.pairs
  }

  /** Whether `t` is in the closure of the attacker's knowledge under every key derivation. */
  ghost predicate Derivable(att: Attacker, t: Term) {
    t in att.terms ||
    match t
    case Seed(_) => false
    case Constant(_) => true
    case Dh(pairs) => exists pair :: pair in pairs && KnowsPrivate(att, pair)
    case RootOf(rk, dh) => Derivable(att, rk) && Derivable(att, dh)
    case ChainOf(rk, dh) => Derivable(att, rk) && Derivable(att, dh)
    case NextOf(ck) => Derivable(att, ck)
    case MessageOf(ck) => Derivable(att, ck)
    case MixedChain(ck, ikm) => Derivable(att, ck) && Derivable(att, ikm)
    case MixedKey(ck, ikm) => Derivable(att, ck) && Derivable(att, ikm)
    case SessionPart(ck, h, part) => Derivable(att, ck)
  }

  /** One step of an attack: a term already held, or computed from terms in `known`. */
  ghost predicate DerivesFrom(att: Attacker, known: seq<Term>, t: Term) {
    t in att.terms ||
    match t
    case Seed(_) => false
    case Constant(_) => true
    case Dh(pairs) => exists pair :: pair in pairs && KnowsPrivate(att, pair)
    case RootOf(rk, dh) => rk in known && dh in known
    case ChainOf(rk, dh) => rk in known && dh in known
    case NextOf(ck) => ck in known
    case MessageOf(ck) => ck in known
    case MixedChain(ck, ikm) => ck in known && ikm in known
    case MixedKey(ck, ikm) => ck in known && ikm in known
    case SessionPart(ck, h, part) => ck in known
  }

  /** A whole attack: every term is derived from the ones before it. */
  ghost predicate Derivation(att: Attacker, steps: seq<Term>) {
    forall i :: 0 <= i < |steps| ==> DerivesFrom(att, steps[..i], steps[i])
  }

  /** Nothing outside the closure is ever reached by an attack. */
  lemma {:induction false} DerivationIsSound(att: Attacker, steps: seq<Term>, i: nat)
    requires Derivation(att, steps) && i < |steps|
    ensures Derivable(att, steps[i])
    decreases i
  {
    forall j | 0 <= j < i ensures Derivable(att, steps[j]) {
      DerivationIsSound(att, steps, j);
    }
    assert DerivesFrom(att, steps[..i], steps[i]);
  }

  lemma DerivationsConcatenate(att: Attacker, a: seq<Term>, b: seq<Term>)
    requires Derivation(att, a) && Derivation(att, b)
    ensures Derivation(att, a + b)
  {
    var s := a + b;
    forall i | 0 <= i < |s| ensures DerivesFrom(att, s[..i], s[i]) {
      if i < |a| {
        assert s[..i] == a[..i];
      } else {
        assert s[i] == b[i - |a|];
        assert s[..i] == a + b[..i - |a|];
      }
    }
  }

  lemma DerivationExtends(att: Attacker, steps: seq<Term>, t: Term)
    requires Derivation(att, steps) && DerivesFrom(att, steps, t)
    ensures Derivation(att, steps + [t])
  {
    var s := steps + [t];
    forall i | 0 <= i < |s| ensures DerivesFrom(att, s[..i], s[i]) {
      assert s[..i] == steps[..i];
      assert i == |steps| ==> s[..i] == steps;
    }
  }

  /** Everything in the closure is reached by some attack. */
  lemma {:induction false} DerivationIsComplete(att: Attacker, t: Term) returns (steps: seq<Term>)
    requires Derivable(att, t)
    ensures Derivation(att, steps) && t in steps
    decreases t
  {
    steps := [];
    if t !in att.terms {
      match t
      case Constant(_) =>
      case Dh(_) =>
      case RootOf(a, b) => steps := DeriveBoth(att, t, a, b);
      case ChainOf(a, b) => steps := DeriveBoth(att, t, a, b);
      case MixedChain(a, b) => steps := DeriveBoth(att, t, a, b);
      case MixedKey(a, b) => steps := DeriveBoth(att, t, a, b);
      case NextOf(ck) => steps := DerivationIsComplete(att, ck);
      case MessageOf(ck) => steps := DerivationIsComplete(att, ck);
      case SessionPart(ck, _, _) => steps := DerivationIsComplete(att, ck);
    }
    DerivationExtends(att, steps, t);
    steps := steps + [t];
  }

  lemma {:induction false} DeriveBoth(att: Attacker, t: Term, a: Term, b: Term) returns (steps: seq<Term>)
    requires Derivable(att, a) && Derivable(att, b) && a < t && b < t
    ensures Derivation(att, steps) && a in steps && b in steps
    decreases t, 0
  {
    var left := DerivationIsComplete(att, a);
    var right := DerivationIsComplete(att, b);
    DerivationsConcatenate(att, left, right);
    steps := left + right;
  }
}
