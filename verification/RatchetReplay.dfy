/** Refused frames are invisible: a party's later results are those of the run without them.

    Each attempt carries the key pair the generator would hand out during it, so a refused
    frame's draw goes with it: the two runs agree up to which fresh keys were used up.
*/
module RatchetReplay {
  import opened SymbolicCrypto
  import opened Ratchet

  datatype Operation =
    | Seal(plaintext: Bytes, ad: Bytes)
    | Try(header: Header, cipher: Cipher, ad: Bytes, draw: KeyPair)

  datatype Outcome = Sealed(frame: Option<Frame>) | Accepted(plaintext: Bytes) | Refused

  function Perform(st: State, op: Operation): (Outcome, State) {
    match op
    case Seal(plaintext, ad) =>
      var (frame, st') := Encrypt(st, plaintext, ad);
      (Outcome.Sealed(frame), st')
    case Try(header, cipher, ad, draw) =>
      var (r, st') := Decrypt(st, header, cipher, ad, draw);
      (if r.Some? then Accepted(r.value) else Refused, st')
  }

  function Outcomes(st: State, ops: seq<Operation>): seq<Outcome>
    decreases ops
  {
    if ops == [] then [] else [Perform(st, ops[0]).0] + Outcomes(Perform(st, ops[0]).1, ops[1..])
  }

  function Final(st: State, ops: seq<Operation>): State
    decreases ops
  {
    if ops == [] then st else Final(Perform(st, ops[0]).1, ops[1..])
  }

  /** The operations of a run that were not refused in it. */
  function Effective(st: State, ops: seq<Operation>): seq<Operation>
    decreases ops
  {
    if ops == [] then []
    else
      var (outcome, st') := Perform(st, ops[0]);
      (if outcome.Refused? then [] else [ops[0]]) + Effective(st', ops[1..])
  }

  function Results(outcomes: seq<Outcome>): seq<Outcome> {
    if outcomes == [] then []
    else (if outcomes[0].Refused? then [] else [outcomes[0]]) + Results(outcomes[1..])
  }

  /** Deleting every refused frame from any run leaves the same results and the same final state. */
  lemma {:induction false} RefusedFramesAreInvisible(st: State, ops: seq<Operation>)
    ensures Final(st, Effective(st, ops)) == Final(st, ops)
    ensures Outcomes(st, Effective(st, ops)) == Results(Outcomes(st, ops))
    decreases ops
  {
    hide Encrypt, Decrypt;
    if ops != [] {
      var (outcome, st') := Perform(st, ops[0]);
      RefusedFramesAreInvisible(st', ops[1..]);
      if outcome.Refused? {
        var op := ops[0];
        RefusalKeepsState(st, op.header, op.cipher, op.ad, op.draw);
        assert Effective(st, ops) == Effective(st, ops[1..]);
      } else {
        assert Effective(st, ops)[1..] == Effective(st', ops[1..]);
      }
    }
  }
}
