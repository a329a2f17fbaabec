# chatbit: a verified model of its protocols

chatbit is a peer-to-peer messenger for lossy broadcast links. This project models its protocol
core in Dafny and proves what the code is for: end-to-end sessions that agree, deliver each message
unchanged and at most once, refuse without side effects and heal after a compromise; a mesh that
floods without looping; a radio that stays inside its duty cycle; and framing that gives back what
was sent.

`dafny verify dfyconfig.toml` checks everything.

## How it is organised

| part | modules |
|---|---|
| vocabulary of keys, signatures, boxes and transcripts; what an attacker can derive | `SymbolicCrypto` |
| Double Ratchet: operations on state values, the mutable objects, two parties over a hostile network, secrecy, refused frames | `Ratchet`, `RatchetObjects`, `RatchetHistory`, `RatchetLedger`, `RatchetParty`, `RatchetAccept`, `RatchetWorld`, `RatchetDelivery`, `RatchetSecrecy`, `RatchetReplay` |
| Noise XX, the session manager, pinning, and many managers against an active attacker | `Noise`, `NoiseObjects`, `Session`, `SessionObjects`, `SessionWorld`, `SessionPairing`, `Codecs` |
| mesh router: dedup cache, one node, many nodes | `Dedup`, `Router`, `RouterObjects`, `Flood`, `Remembering`, `Hearing`, `Storing`, `MeshFlood` |
| duty-cycle governor | `Airtime`, `AirtimeObjects` |
| SLIP, packets, padding, fragments, the whole pipeline | `Slip`, `Packet`, `Fragment`, `FragmentObjects`, `Framing`, `FramingBounds` |

Code that updates fields in place is a class whose methods are proved against functions on state
values (`...Objects`, `Dedup.DedupCache`, `Slip.SlipCodec`); the properties are then proved of those
functions and of runs built from them.

Three theorems carry the most weight, and they compose. `SessionWorld.BothEndsFinish` says that when a
responder finishes a handshake under an honest manager's name, that manager finished the same one and
the two ratchets stand exactly where the two-party protocol starts, whatever an active attacker did
(`SessionWorld.AgreementIsInjective`: one completion each; `SessionWorld.UndisturbedHandshake`: exactly
when an undisturbed one completes; `SessionPairing.HeldPairExactly`: exactly when the sessions held later
still pair up).
`RatchetWorld.DeliveryIsExactInEveryRun` says that from there on, decryption returns a plaintext if and
only if the frame is an unchanged message of the peer's inside the code's own acceptance window;
`RatchetDelivery.SentArrives` and `AcceptedWasSent` say it from one party's encryption to the other's
decryption.
`RatchetSecrecy.CompromiseWindow` says exactly which message keys, past and future and in both
directions, follow from a copy of one party's state; the pairing above rules out its one exception.

## Assumptions

- Cryptography is ideal. Hashes, HKDF and HMAC are free constructors; a Diffie-Hellman output depends
  on the unordered pair of key pairs; a box opens under its own key, nonce and associated data; a
  signature verifies for its signer and message only. Low-order X25519 points have no shared secret.
- `SymbolicCrypto.Derivable` is the attacker's closure. `DerivationIsSound` and `DerivationIsComplete`
  show that it is exactly what step-by-step derivation reaches.
- Each call that draws a key takes the drawn pair as a parameter. Runs require honest draws to be new.
- The network delivers anything except boxes sealed under underivable keys, and honest signatures,
  that were never made. For a ratchet that includes every frame of every other session
  (`RatchetHistory.ForeignIsDeliverable`, `SessionPairing.OtherSessionsAreForeign`): a box is withheld only
  if its key hangs off this session's own roots and neither party sealed it. Whoever holds the private
  half of a `Hostile` key pair is the attacker.
- After a copy of a party's state leaks, the attacker of `CompromiseWindow` and `Healing` reads along
  but does not forge: the run stays feasible.
- Times and durations are exact reals.

## Model

| member | source | states |
|---|---|---|
| `RatchetWorld.RunKeepsInv` | chatbit/crypto/ratchet.py:157-322 | every reachable state of two honest parties over a network that reorders, drops, duplicates, injects and replays other sessions keeps the whole two-party invariant, and what was sent is never rewritten |
| `RatchetWorld.StartIsInv` | chatbit/crypto/ratchet.py:157-185 | the states `init_sender` and `init_receiver` leave after a handshake satisfy that invariant |
| `RatchetWorld.PingPong` | chatbit/crypto/ratchet.py:193-295 | the party one epoch ahead holds exactly the root key, sending chain and receiving chain that its peer will derive from the DH of their two current keys |
| `RatchetWorld.NewKeyIsNext` | chatbit/crypto/ratchet.py:193-205 | a genuine frame with an unseen ratchet key is from exactly the next chain, carries the peer's current key, and its `pn` is the number sent on the peer's previous chain |
| `RatchetWorld.DeliveryIsExact` | chatbit/crypto/ratchet.py:207-295 | decryption returns a plaintext if and only if the frame is an unchanged message of the peer's, with that plaintext, whose key is stored or which lies in the window of the current or the next chain |
| `RatchetWorld.DeliveryIsExactInEveryRun` | chatbit/crypto/ratchet.py:207-295 | the same equivalence in the state any feasible run from a completed handshake reaches |
| `RatchetDelivery.SendEmits` | chatbit/crypto/ratchet.py:193-203 | an encryption returns a frame if and only if there is a sending chain and its counters fit, and then exactly the next message of the party's own newest chain: its key, `pn` the length of the chain before, `n` the index, sealed with that header |
| `RatchetDelivery.SentArrives` | chatbit/crypto/ratchet.py:193-268 | end to end: the frame one side's encryption returned, delivered unchanged at any later point of any run, decrypts at the peer to that plaintext if and only if it lies in the peer's window, and is refused otherwise |
| `RatchetDelivery.AcceptedWasSent` | chatbit/crypto/ratchet.py:193-268 | whatever a party accepts in any run is a frame its peer's encryption returned at an earlier step, for that very plaintext and associated data |
| `RatchetDelivery.SentStays` | chatbit/crypto/ratchet.py:193-203 | the frame a send returned is for good the frame of its message, however the run goes on |
| `RatchetWorld.AtMostOnce` | chatbit/crypto/ratchet.py:218-268 | over a whole run no (ratchet key, counter) is accepted twice, however the frame is replayed |
| `RatchetWorld.KeysAreConserved` | chatbit/crypto/ratchet.py:237-285 | the indices a party has moved past split exactly into delivered, stored and evicted, and no other index is in any of the three |
| `RatchetWorld.NewKeysSurvive` | chatbit/crypto/ratchet.py:55-58 | every key newly skipped by an accepted frame is still stored after that frame's own oldest-first eviction, and the table stays within 1024 |
| `RatchetAccept.AcceptedIsGenuine` | chatbit/crypto/ratchet.py:207-295 | whatever is accepted is a genuine, unchanged frame inside the window, and its own plaintext comes out |
| `RatchetAccept.AcceptNext` | chatbit/crypto/ratchet.py:226-295 | a frame that opens the next chain skips the old chain to its end, steps both chains, skips to the frame and consumes one key: the whole new state |
| `RatchetAccept.AcceptCurrent` | chatbit/crypto/ratchet.py:226-285 | the same for a frame on the current chain, up to 256 ahead |
| `RatchetAccept.AcceptStored` | chatbit/crypto/ratchet.py:251-268 | a stored key opens its frame and only it leaves the table |
| `RatchetAccept.InvAfterNext` | chatbit/crypto/ratchet.py:287-295 | accepting a frame of the next chain re-establishes the party's invariant two epochs on |
| `RatchetLedger.SkipLoopIsRange` | chatbit/crypto/ratchet.py:270-285 | the skip loop appends exactly the keys of the skipped range, in order, and then evicts oldest first |
| `RatchetLedger.LedgerGrow` | chatbit/crypto/ratchet.py:270-285 | storing new keys and evicting the oldest keeps delivered, stored and evicted a disjoint cover of what is behind the party |
| `RatchetHistory.OpeningIsGenuine` | chatbit/crypto/ratchet.py:237-249 | a deliverable ciphertext that opens under a secret chain's key at a position is that position's own message |
| `RatchetHistory.ForeignIsDeliverable` | chatbit/crypto/ratchet.py:207-249 | every frame of a session with another root, an earlier one of the same two parties included, is among what the network may deliver; only this session's own keys set a box apart |
| `RatchetReplay.RefusedFramesAreInvisible` | chatbit/crypto/ratchet.py:218-235 | deleting every refused frame from any sequence of operations leaves all other results and the final state the same |
| `Ratchet.RefusalKeepsState` | chatbit/crypto/ratchet.py:226-235 | a refused frame leaves every field and the ordered table unchanged |
| `Ratchet.SkipLoopShape` | chatbit/crypto/ratchet.py:278-285 | the skip loop touches only the receiving chain, its counter and the table, stops at the target, and keeps the table bound |
| `Ratchet.DecryptBounded` | chatbit/crypto/ratchet.py:55-58 | no frame, genuine or not, takes the table over 1024 entries |
| `Ratchet.DecryptKeepsNames` | chatbit/crypto/ratchet.py:270-285 | no frame, genuine or not, makes the table hold two keys for one ratchet key and counter |
| `Ratchet.OutOfReachIsRefused` | chatbit/crypto/ratchet.py:218-285 | for an arbitrary sender: a frame that skips more than 256 on its chain or on the one before, claims a previous chain where there was none, or carries a low-order key, is refused with nothing changed |
| `RatchetSecrecy.CompromiseWindow` | chatbit/crypto/ratchet.py:193-295 | given one party's whole state at any point and any run after it, exactly these message keys follow: the stored ones, the unread rest of the receiving chain, the unsent rest of the sending chain, the one chain that answers it, and, for an initiator that has read nothing yet and only if its state still tells the handshake's root, its whole first chain |
| `RatchetSecrecy.Healing` | chatbit/crypto/ratchet.py:287-295 | after the party's next committed DH step the new chains of both directions stay underivable from the leaked state, with no assumption on the handshake's root |
| `RatchetSecrecy.DeliveredKeysAreGone` | chatbit/crypto/ratchet.py:237-268 | the key of an accepted message no longer follows from the party's state, with no assumption on the handshake's root |
| `RatchetSecrecy.CompromiseWindowInEveryRun` | chatbit/crypto/ratchet.py:157-295 | from a handshake whose root is apart from what a ratchet makes, the window holds at every point of every run without the exception |
| `RatchetSecrecy.PresharedRootIsApart` | chatbit/crypto/ratchet.py:157-171 | a pre-shared root always is |
| `RatchetObjects.DoubleRatchet.InitSender` | chatbit/crypto/ratchet.py:157-171 | a fresh object in the state of the specification, or the exception for a low-order key, exactly when the specification has none |
| `RatchetObjects.DoubleRatchet.InitReceiver` | chatbit/crypto/ratchet.py:174-185 | a fresh object in the state of the specification |
| `RatchetObjects.DoubleRatchet.CloneOf` | chatbit/crypto/ratchet.py:299-311 | a clone has the same value and a table of its own |
| `RatchetObjects.DoubleRatchet.Encrypt` | chatbit/crypto/ratchet.py:193-205 | frame and new state are those of the specification, a counter past four bytes included |
| `RatchetObjects.DoubleRatchet.Decrypt` | chatbit/crypto/ratchet.py:207-235 | result and new state are those of the specification; a refusal leaves this object and its own table object untouched although the trial ran on a clone; at most 2*256+1 chain steps |
| `RatchetObjects.DoubleRatchet.DhRatchet` | chatbit/crypto/ratchet.py:287-295 | a low-order key stops halfway, after the counters and the peer key were overwritten: the damage the clone absorbs |
| `RatchetObjects.DoubleRatchet.SkipMessageKeys` | chatbit/crypto/ratchet.py:270-285 | the loop computes the specified skip, in at most 256 steps, or refuses and changes nothing |
| `RatchetObjects.DoubleRatchet.TrySkipped` | chatbit/crypto/ratchet.py:251-268 | a hit is removed only when it opens the frame |
| `RatchetObjects.DoubleRatchet.Adopt` | chatbit/crypto/ratchet.py:313-322 | the clone's fields are taken over, its table object included |
| `SymbolicCrypto.DerivationIsSound` | chatbit/crypto/ratchet.py:107-124 | no sequence of derivation steps reaches a term outside the closure used in the secrecy statements |
| `SymbolicCrypto.DerivationIsComplete` | chatbit/crypto/ratchet.py:107-124 | every term in that closure is reached by some sequence of derivation steps |
| `Codecs.HeaderRoundTrip` | chatbit/crypto/ratchet.py:89-104 | the 40-byte header layout is a bijection between headers that fit and 40-byte strings |
| `Codecs.HeaderLayout` | chatbit/crypto/ratchet.py:89-105 | the header byte by byte: ratchet key, then `pn`, then `n` |
| `Codecs.AssociatedDataBinds` | chatbit/crypto/ratchet.py:198-200 | appending the header to the caller's associated data loses nothing: equal results mean equal data and equal headers |
| `Codecs.EncodableMeansWritable` | chatbit/crypto/ratchet.py:89-94 | the counters the ratchet model lets into a header are exactly those four bytes can carry |
| `Noise.Message1Agrees` | chatbit/crypto/noise.py:192-209 | message 1 delivered unchanged leaves equal symmetric states |
| `Noise.Message2Agrees` | chatbit/crypto/noise.py:213-265 | message 2 delivered unchanged leaves equal (h, ck, k, n), yields the writer's static key and payload, and the hash the writer's builder was given |
| `Noise.Message3Agrees` | chatbit/crypto/noise.py:269-312 | the same for message 3, and the transport keys of the two sides mirror each other |
| `Noise.EqualHashMeansSameHandshake2` | chatbit/crypto/noise.py:213-265 | if the hash an initiator checks is one a responder signed, both ran the same handshake whatever was delivered: ephemerals, static key and key schedule agree |
| `Noise.EqualHashMeansSameHandshake3` | chatbit/crypto/noise.py:269-303 | the same for message 3: equal hashes force equal states before it and the writer's own static key |
| `Noise.EqualHashMeansOneHandshake` | chatbit/crypto/noise.py:192-303 | equal hashes at message 3 reach back to message 1: message 2 arrived as sent, and the two sides stand in equal states |
| `Noise.HashTellsRole2` | chatbit/crypto/noise.py:225-233 | the hash signed for message 2 ends with an ephemeral and one box |
| `Noise.HashTellsRole3` | chatbit/crypto/noise.py:273-279 | the hash signed for message 3 ends with two boxes, so no proof serves both roles |
| `Noise.HandshakeKeysAreSecret` | chatbit/crypto/noise.py:225-233 | with both ephemerals honest, the chaining key and cipher key from message 2 on are underivable from outside |
| `Noise.RestingIsSecret` | chatbit/crypto/noise.py:225-233 | whatever rests on two honest ephemerals stays underivable for anyone who has neither private half, other key pairs and ratchet secrets notwithstanding |
| `Noise.Proof2RestsOnStatic` | chatbit/crypto/noise.py:238-267 | a proof read from message 2 came under a key that rests on the private half of the static key it shows: without that half and the reader's ephemeral the key is underivable |
| `Noise.Proof3RestsOnStatic` | chatbit/crypto/noise.py:285-305 | the same for message 3 |
| `Noise.FinalKeyRestsOnAll` | chatbit/crypto/noise.py:213-305 | after message 3 the chaining key rests on all three exchanges, ee, es and se |
| `Noise.NoNonceReuse` | chatbit/crypto/noise.py:87-139 | whatever message 2 an attacker makes of the responder's, the four boxes the two honest sides seal are pairwise different in key or nonce |
| `Noise.Message3IsWritable` | chatbit/crypto/noise.py:269-283 | message 3 can always be written once message 2 was read |
| `Noise.Message2IsWritable` | chatbit/crypto/noise.py:201-236 | message 2 can be written if and only if message 1 carried a usable key |
| `Noise.DirectionsDiffer` | chatbit/crypto/noise.py:307-312 | the two transport keys of a finished handshake differ, and the first output of the split is the one the initiator sends with |
| `Noise.OpensExactly` | chatbit/crypto/noise.py:87-139 | a keyed state opens exactly the box an equal state would seal now, both move on alike, and nothing is sealed or opened once the nonces are used up |
| `NoiseObjects.CipherState.EncryptWithAd` | chatbit/crypto/noise.py:87-94 | box, nonce and counter exactly, the exhausted and the keyless case included |
| `NoiseObjects.CipherState.DecryptWithAd` | chatbit/crypto/noise.py:96-108 | opens exactly the box sealed under this key, counter and data; a refusal does not advance the counter |
| `NoiseObjects.SymmetricState.MixKey` | chatbit/crypto/noise.py:124-126 | the new chaining key, and a fresh cipher object at counter zero |
| `NoiseObjects.SymmetricState.EncryptAndHash` | chatbit/crypto/noise.py:131-134 | new state and box as specified, nothing hashed on failure |
| `NoiseObjects.SymmetricState.DecryptAndHash` | chatbit/crypto/noise.py:136-139 | new state and plaintext as specified, nothing changed on failure |
| `NoiseObjects.HandshakeState.constructor` | chatbit/crypto/noise.py:170-173 | the state after the protocol name and prologue |
| `NoiseObjects.HandshakeState.WriteMessage1` | chatbit/crypto/noise.py:192-199 | message and whole new state, or out of order and nothing changed |
| `NoiseObjects.HandshakeState.ReadMessage1` | chatbit/crypto/noise.py:201-209 | whole new state, or refused and nothing changed |
| `NoiseObjects.HandshakeState.WriteMessage2` | chatbit/crypto/noise.py:213-236 | succeeds exactly when the specification does, with its message and state |
| `NoiseObjects.HandshakeState.ReadMessage2` | chatbit/crypto/noise.py:238-265 | succeeds exactly when the specification does, with its proof and state |
| `NoiseObjects.HandshakeState.WriteMessage3` | chatbit/crypto/noise.py:269-283 | the same for message 3, split included |
| `NoiseObjects.HandshakeState.ReadMessage3` | chatbit/crypto/noise.py:285-303 | the same for message 3, split included |
| `NoiseObjects.HandshakeState.TransportKeys` | chatbit/crypto/noise.py:307-312 | send and receive keys as this side sees them, refused exactly while incomplete |
| `SessionWorld.BothEndsFinish` | chatbit/session.py:228-380 | among any number of honest managers and an active attacker, whenever a responder completes under an honest manager's name, that manager completed the same handshake earlier on the message 2 made with this responder's ephemeral, filed its session under the responder's name, tag keys are mirrored, and the two ratchets satisfy the two-party start with a root that is apart |
| `SessionWorld.AgreementIsInjective` | chatbit/session.py:228-335 | agreement is one to one: two responder completions never rest on the same initiator completion, however messages are replayed |
| `SessionWorld.HandshakeRootIsApart` | chatbit/session.py:123-125 | the root a handshake seeds the ratchet with does not follow from ratchet secrets and the initiator's first ratchet key pair |
| `SessionWorld.UndisturbedHandshake` | chatbit/session.py:207-380 | with room at the responder, a handshake whose messages all arrive as sent, at any four clock readings, completes on both ends if and only if neither side has another static key pinned for the other; then the two sessions pair up |
| `SessionWorld.UndisturbedSteps` | chatbit/session.py:228-335 | message by message: each side of such a handshake refuses if and only if it has another static key pinned for the other, and exactly then its entry stays; completing removes it |
| `SessionPairing.HeldPairExactly` | chatbit/session.py:352-380 | at any moment of any run, the sessions two managers hold for each other are initiator's and responder's of one handshake if and only if the steps that filed them, untouched since, are the two ends of one handshake; a session filed over pairs with nothing |
| `SessionPairing.SomeStepFiled` | chatbit/session.py:366-380 | every session held was filed by a step that completed under that name, with no other filing or drop of that name since |
| `SessionPairing.HashTellsConclusion` | chatbit/session.py:207-263 | two completions by initiators that end in the same handshake hash are one and the same step |
| `SessionPairing.OtherSessionsAreForeign` | chatbit/session.py:352-380 | no two completions share a root, so every frame of one session may be delivered to the ratchet of any other |
| `SessionPairing.CrossedSessionsAreMute` | chatbit/session.py:207-380 | two managers that start handshakes with each other at once, all messages delivered, complete both and end with two responder sessions: neither can send, since each session was filed over the one it pairs with |
| `SessionWorld.ResponseMeansAnswer` | chatbit/session.py:228-256 | an initiator that accepts a proof under an honest name read, unchanged, the message 2 a manager of that name sent: static key, ratchet key and key schedule are that manager's |
| `SessionWorld.RunKeepsWorldInv` | chatbit/session.py:207-335 | in every reachable world each unfinished entry is an honest handshake of its manager and every logged proof was really made |
| `SessionWorld.LogIsHistory` | chatbit/session.py:207-335 | every proof an attacker may replay stems from an earlier step of the manager that made it |
| `SessionWorld.SecretBoxIsLogged` | chatbit/crypto/noise.py:131-139 | a box that opens under a key no outsider can compute and carries a proof is one an honest manager sealed over that very hash |
| `SessionWorld.FinishingPairs` | chatbit/session.py:352-380 | equal handshake states on both ends and fresh draws give mirrored tag keys and ratchets that start the two-party protocol |
| `Session.SessionsAreSound` | chatbit/session.py:228-380 | in every reachable state each session stems from a step that verified the peer's signature over that handshake's own hash and saw the pinned static key; its keys are that handshake's, and it is filed under the signing key |
| `Session.KeysAreApart` | chatbit/session.py:123-125 | root and tag keys of any two handshakes are equal only if they are the same one of the three and the handshakes end in the same state |
| `Session.TagsDifferInEveryRun` | chatbit/session.py:352-380 | every session held in any reachable state tags its two directions with different keys |
| `Session.ProofPins` | chatbit/session.py:244-256 | a checked proof pins its peer, or finds it pinned, before anything else can fail; a different pinned key leaves the trust store as it was |
| `Session.StepFilesOrKeeps` | chatbit/session.py:200-380 | what any step leaves under a name: the session it completed, if it completed one under that name; none if it dropped it; otherwise the one that was there |
| `Session.RejectionKeepsSessions` | chatbit/session.py:228-335 | every path that raises or ignores its input leaves all sessions as they were |
| `Session.ResponseAddsSession` | chatbit/session.py:228-263 | a response adds at most one session, and its effect does not depend on the sessions there are |
| `Session.FinAddsSession` | chatbit/session.py:309-335 | the same for the final message |
| `Session.RunKeepsPendingInv` | chatbit/session.py:267-307 | in every reachable state at most 32 entries await a final message as responder, and exactly those carry a ratchet key |
| `Session.StartsAreNotCapped` | chatbit/session.py:207-226 | runs that exceed 32 entries in all: starting handshakes is never refused |
| `Session.CapIsExceededExactly` | chatbit/session.py:207-307 | a step takes the whole table over 32 if and only if it starts a handshake under an unused identifier while 32 handshakes begun in the last 120 seconds still wait |
| `Session.AnswersExactly` | chatbit/session.py:267-307 | an init is answered if and only if fewer than 32 handshakes were begun in the last 120 seconds and still wait, none of them under its identifier, and it carries a usable key |
| `Session.InFlightIsIgnored` | chatbit/session.py:276-277 | an init under an identifier in flight goes unanswered and leaves that handshake as it was |
| `Session.AgesAreBounded` | chatbit/session.py:382-390 | in every run whose clock never goes back, right after any start or init no handshake is more than 120 seconds old |
| `Session.EntryLivesExactly` | chatbit/session.py:207-307 | a handshake that no message concerns is still there, unchanged, if and only if no start or init came more than 120 seconds after it was begun |
| `Session.EntryWasBegun` | chatbit/session.py:207-307 | every entry was begun by a step under its identifier, at the time it carries, and has been there since |
| `Session.RefusedResponseForgets` | chatbit/session.py:235-263 | a refused response removes its entry if and only if reading it or checking its signature failed |
| `Session.RefusedFinForgets` | chatbit/session.py:316-332 | the same for the final message |
| `Session.LeftoverIsRemovedNext` | chatbit/session.py:235-241 | an entry left behind never completes: the next response under its identifier is refused and removes it |
| `Session.LeftoverFinIsRemovedNext` | chatbit/session.py:311-322 | the same for the final message |
| `Session.PinsAreSticky` | chatbit/crypto/identity.py:300-359 | no step changes a pinned key or verifies a peer except the explicit ones |
| `Session.VerifiedMeansVerifiedThisKey` | chatbit/crypto/identity.py:338-359 | over any run, a verified peer was verified by the user while this very key was pinned, with no re-pin and no forget since |
| `Session.VerifiedStays` | chatbit/crypto/identity.py:338-359 | over any run, a peer the user verified stays verified under that key until the user accepts another or forgets the peer |
| `Session.DecisionsTakeEffect` | chatbit/crypto/identity.py:338-359 | verifying verifies, accepting pins the new key unverified, forgetting forgets, each for that peer alone and not for unknown ones |
| `Session.ObserveRecords` | chatbit/crypto/identity.py:300-336 | first sight records key, nickname and time; later sightings change nothing but a nickname that was given |
| `SessionObjects.TrustStore.Observe` | chatbit/crypto/identity.py:300-336 | the store's new value, and the pinned object itself, or a refusal that changes nothing |
| `SessionObjects.TrustStore.MarkVerified` | chatbit/crypto/identity.py:338-345 | the shared peer object is marked, unknown peers are refused |
| `SessionObjects.TrustStore.Repin` | chatbit/crypto/identity.py:347-355 | the shared peer object takes the new key and loses its verification |
| `SessionObjects.TrustStore.Forget` | chatbit/crypto/identity.py:357-359 | exactly that entry goes |
| `SessionObjects.SessionManager.StartHandshake` | chatbit/session.py:207-226 | message and new entries as specified |
| `SessionObjects.SessionManager.HandleInit` | chatbit/session.py:267-307 | answer and new entries as specified, full table, replayed identifier and low-order key included |
| `SessionObjects.SessionManager.HandleResponse` | chatbit/session.py:228-263 | result, trust, entries and the one session filed as specified; its peer is the pinned object |
| `SessionObjects.SessionManager.HandleFin` | chatbit/session.py:309-335 | the same for the responder's side |
| `SessionObjects.SessionManager.Drop` | chatbit/session.py:202-203 | exactly that session goes |
| `SessionObjects.SessionManager.ExpirePending` | chatbit/session.py:382-390 | the loop removes exactly the entries older than 120 seconds |
| `SessionObjects.Session.Decrypt` | chatbit/session.py:157-166 | the ratchet's own result; a refused frame leaves the session, its counters included, as it was |
| `SessionObjects.Session.Encrypt` | chatbit/session.py:151-155 | the ratchet's own frame, counted when there is one |
| `Codecs.PayloadRoundTrip` | chatbit/session.py:87-120 | an identity payload reads back as written, its nickname cut to 64 bytes |
| `Codecs.PayloadLayout` | chatbit/session.py:88-97 | the payload byte by byte, with the nickname cut to 64 bytes behind its length |
| `Codecs.ReencodesExactly` | chatbit/session.py:98-120 | an accepted payload re-encodes to itself if and only if it ends with its nickname of at most 64 bytes |
| `Codecs.ReadFields` | chatbit/session.py:98-120 | the walk with a moving offset computes the layout, and refuses exactly the payloads that are too short |
| `Dedup.CacheRefinesLog` | chatbit/mesh/router.py:53-73 | in every run with a clock that never goes back, the cache is the longest suffix of the accepted-key log with at most `capacity` entries and none older than `ttl` |
| `Dedup.SeenIsExact` | chatbit/mesh/router.py:53-62 | a key is reported seen if and only if it was accepted within `ttl` and fewer than `capacity` keys were accepted after it |
| `Dedup.ExpireKeepsWindow` | chatbit/mesh/router.py:67-73 | stopping at the first fresh entry loses nothing |
| `Dedup.DedupCache.Seen` | chatbit/mesh/router.py:53-62 | answer and new contents as specified |
| `Dedup.DedupCache.Prune` | chatbit/mesh/router.py:67-73 | the early-exit loop computes the specified suffix |
| `Router.EveryFrameIsAccountedFor` | chatbit/mesh/router.py:131-189 | in every run: received = duplicates + expired + undelivered + suppressed + being delivered + live timers + in flight + relayed + failed |
| `Router.PendingCountsLiveRelays` | chatbit/mesh/router.py:154-189 | while no key is readmitted with its relay pending, the router's own index counts exactly the live timers, and the first event after which it does not is one that readmits such a key |
| `Router.StepIndexes` | chatbit/mesh/router.py:131-224 | from an exact index a step leaves an exact index if and only if it does not schedule a relay for a key that has one pending; a frame whose TTL ran out schedules none |
| `Hearing.FirstHearing` | chatbit/mesh/router.py:131-166 | a frame whose key was not accepted within the cache's time and capacity is handed over if it is for this node, and otherwise leaves one more live, indexed timer that holds it at TTL minus one; with TTL 1 or less it is counted as expired |
| `Hearing.DeliveredIsRelayed` | chatbit/mesh/router.py:143-166 | a delivery that returned goes on to the relay of that frame |
| `Hearing.TimerGoesOut` | chatbit/mesh/router.py:168-183 | a timer that elapses and is sent puts out the very packet it held |
| `Hearing.HeardAgain` | chatbit/mesh/router.py:131-141 | a frame heard within the cache's time and capacity stands the pending relay of its key down: no live timer has the key, every other stays, and what went is counted as suppressed |
| `Hearing.KeyStaysIndexed` | chatbit/mesh/router.py:154-191 | while a key is not forgotten, every live timer of it is the one the router's index names |
| `Hearing.HeardAgainIsNotRelayed` | chatbit/mesh/router.py:131-191 | over any run, a frame that comes back in time and is heard again before its timer elapses is never relayed by that node |
| `Storing.ReplayIsExact` | chatbit/mesh/router.py:209-224 | a replay sends exactly the entries that are not too old and get out and keeps exactly those that are not too old and do not, each once and in order |
| `Storing.PurgeIsExact` | chatbit/mesh/router.py:226-232 | a purge keeps exactly the entries that are not too old, in order |
| `Storing.FullStoreLosesOldest` | chatbit/mesh/router.py:200-207 | in every run a failed relay joins the store; a full store gives up one entry for it, and none is older than that one |
| `Storing.StoreStaysInOrder` | chatbit/mesh/router.py:200-232 | in every run the store stays within its capacity and in order of age |
| `RouterObjects.Router.Handle` | chatbit/mesh/router.py:131-150 | new node state as specified up to the first suspension: a duplicate, a frame to relay, or one whose delivery is awaited |
| `RouterObjects.Router.AfterDelivery` | chatbit/mesh/router.py:143-150 | when an awaited delivery returns the relay is scheduled, when it raises the frame is not |
| `RouterObjects.Router.ScheduleRelay` | chatbit/mesh/router.py:154-166 | one timer more, indexed under the key, or one expired frame more |
| `RouterObjects.Router.CancelPendingRelay` | chatbit/mesh/router.py:185-189 | the indexed timer is cancelled and counted |
| `RouterObjects.Router.FireRelay` | chatbit/mesh/router.py:168-172 | the timer becomes a relay in flight |
| `RouterObjects.Router.DoRelay` | chatbit/mesh/router.py:174-183 | sent and counted, or kept |
| `RouterObjects.Router.Keep` | chatbit/mesh/router.py:200-207 | oldest out, newest in |
| `RouterObjects.Router.Originate` | chatbit/mesh/router.py:193-196 | the key is marked as seen and the frame itself is handed to the radio |
| `RouterObjects.Router.ReplayStore` | chatbit/mesh/router.py:209-224 | the loop sends every fresh frame it can, keeps every fresh frame it cannot, and drops the expired |
| `RouterObjects.Router.PurgeStore` | chatbit/mesh/router.py:226-232 | exactly the expired frames go |
| `Flood.StepConserves` | chatbit/mesh/router.py:131-232 | whatever a node does, what it sent plus what it may still send is at most what it could send before plus what it took on, under any weighting of packets |
| `Flood.RelayedAtMostOnce` | chatbit/mesh/router.py:131-224 | while its cache keeps the key, a node relays a frame at most once in any environment, store replays included |
| `Flood.OriginNeverRelays` | chatbit/mesh/router.py:193-196 | the node that originated the frame never relays it |
| `Remembering.RememberedExactly` | chatbit/mesh/router.py:53-73 | for a frame not originated again, the cache knows its key at every later arrival if and only if each comes within `ttl` of the first and before `capacity` further keys were accepted |
| `Remembering.InTimeIsRelayedOnce` | chatbit/mesh/router.py:53-224 | a frame that always comes back in time is relayed at most once by a node and never by one that originated it |
| `Remembering.KnownExactly` | chatbit/mesh/router.py:53-150 | in every run with a clock that never goes back, an event finds its key known if and only if the log of accepted keys holds it, recent and not pushed out |
| `Flood.FloodTerminates` | chatbit/mesh/router.py:131-224 | for any topology, loss and bounded duplication, and even if every cache forgets, the transmissions of the mesh never exceed a budget fixed by the TTLs of the originated frames |
| `Flood.MovePays` | chatbit/mesh/router.py:131-224 | no move of the mesh raises transmissions plus potential by more than the frame it originates brings in |
| `MeshFlood.NodeRun` | chatbit/mesh/router.py:131-232 | one node's share of a mesh run is a run of that node |
| `MeshFlood.FloodAmplification` | chatbit/mesh/router.py:131-224 | in a mesh of n nodes whose caches keep the key, one frame is relayed at most once by each node and never by one that originated it: at most n minus the originators in all |
| `MeshFlood.InTimeAmplification` | chatbit/mesh/router.py:131-224 | the same bound from clocks and counts alone: at every node later arrivals of the key come within the cache's time to live of the first and before its capacity of other keys was accepted |
| `MeshFlood.RelaysAddUp` | chatbit/mesh/router.py:131-224 | the relays counted node by node are all the relays the mesh makes |
| `Airtime.AnyWindow` | chatbit/radio/airtime.py:100-145 | over every run of check-then-record pairs and queries with a clock that never goes back, every window of the configured length, wherever it starts, carries at most the budget |
| `Airtime.PermittedKeepsBudget` | chatbit/radio/airtime.py:116-145 | a transmission permitted at t1 and recorded at any t2 >= t1 keeps every window within budget |
| `Airtime.WaitIsTight` | chatbit/radio/airtime.py:131-140 | after a refusal on budget the same check is permitted at t if and only if t is strictly later than now plus the wait named |
| `Airtime.PermittedExactly` | chatbit/radio/airtime.py:116-129 | a transmission is permitted if and only if it fits the dwell limit and the airtime of the whole log in the window that ends now leaves room for it |
| `Airtime.EveryVerdictIsExact` | chatbit/radio/airtime.py:116-145 | the same in every state any run of the governor reaches |
| `Airtime.WaitIsLeast` | chatbit/radio/airtime.py:131-139 | the wait a refusal names is the least: the log leaves no room up to its end and leaves room at every moment after it |
| `Airtime.OverBudgetExactly` | chatbit/radio/airtime.py:131-140 | a frame alone over the budget is refused with the whole window, and it is the only kind for which there is never room |
| `Airtime.DwellRefusal` | chatbit/radio/airtime.py:118-119 | a frame over the dwell limit, in milliseconds, is refused with no wait and nothing changed |
| `Airtime.RecordForgets` | chatbit/radio/airtime.py:142-145 | recording leaves no event behind that is older than the window |
| `Airtime.WholeWindowFallthrough` | chatbit/radio/airtime.py:131-140 | the search for the freeing event falls through if and only if the frame alone is over budget; `OverBudgetExactly` says it of the verdict |
| `AirtimeObjects.DutyCycleGovernor.Check` | chatbit/radio/airtime.py:116-140 | verdict and pruned events as specified |
| `AirtimeObjects.DutyCycleGovernor.Record` | chatbit/radio/airtime.py:142-145 | events as specified |
| `AirtimeObjects.DutyCycleGovernor.Prune` | chatbit/radio/airtime.py:100-103 | the loop drops exactly the events before the cutoff, from the front |
| `AirtimeObjects.LoRaTransport.Send` | chatbit/radio/lora.py:232-254 | one send under the lock: stopped, oversized, refused, raised by the radio or sent, exactly; recorded only when sent, and every window of the whole history stays within budget |
| `Slip.SelfSynchronising` | chatbit/radio/lora.py:58-95 | from any decoder state an encoded payload comes out last, preceded by the stale buffer exactly when there is one and it is not escaped, and leaves the decoder clean |
| `Slip.AnyChunking` | chatbit/radio/lora.py:58-95 | however a stream of encodings is cut into reads, exactly the nonempty payloads come out, in order |
| `Slip.FeedSplits` | chatbit/radio/lora.py:75-95 | feeding a whole is feeding its parts |
| `Slip.EncodeInjective` | chatbit/radio/lora.py:58-69 | two payloads with the same encoding are the same |
| `Slip.EndsOnlyAtEnds` | chatbit/radio/lora.py:58-73 | on the line a frame starts and ends with the END byte and has none inside |
| `Slip.SlipCodec.EncodeFrame` | chatbit/radio/lora.py:58-69 | the loop computes the specified encoding |
| `Slip.SlipCodec.Receive` | chatbit/radio/lora.py:75-95 | frames and new decoder state as specified |
| `Framing.PipelineRoundTrip` | chatbit/wire/fragment.py:36-144 | any payload of up to 255 times the capacity goes out, every packet of it; copies of the frames arriving in any order, repeated, at any TTL over any relays and paddings, among arbitrary other frames, give nothing until the last missing fragment and then exactly the payload |
| `Framing.ReassemblyIsExact` | chatbit/wire/fragment.py:102-144 | the same at the level of packets, which may differ from the origin's in TTL, for any capacity and any byte cap the payload fits |
| `FramingBounds.CalmPipeline` | chatbit/wire/fragment.py:102-153 | the pipeline under conditions on the traffic: a clock that never goes back, everything within the timeout of the first fragment, fewer other messages than slots, and older entries strictly older |
| `FramingBounds.CalmIsUndisturbed` | chatbit/wire/fragment.py:107-122 | under those conditions no arrival finds the message expired and none evicts it: the oldest entry of a full buffer is another's |
| `FramingBounds.EntryOrigin` | chatbit/wire/fragment.py:110-122 | every entry of the buffer was there at the start or was opened by an arrival of that message, at the time it was first seen |
| `Framing.CapNeverTriggers` | chatbit/wire/fragment.py:36-69 | on a link of at most 255 bytes the largest message that can be split stays below the byte cap |
| `Framing.WireRoundTrip` | chatbit/wire/packet.py:117-175 | a packet goes out if and only if it fits the link, fits padded, and decodes to itself |
| `Framing.RelayedIsSameButTtl` | chatbit/wire/packet.py:177-190 | what a relay forwards of a valid packet is valid and differs from the original in TTL alone |
| `Fragment.AddKeepsInv` | chatbit/wire/fragment.py:72-153 | under arbitrary valid packets the buffer keeps its bounds on count, bytes and age, never holds a complete message, and assembling always finds every index |
| `Fragment.CompleteMeansAll` | chatbit/wire/fragment.py:80-85 | as many fragments as the count, all below it, are all of them |
| `Fragment.ChunksRejoin` | chatbit/wire/fragment.py:36-69 | the chunks of a payload join to it |
| `Fragment.Split` | chatbit/wire/fragment.py:36-69 | a message can be split if and only if it is at most 255 times the capacity, fits the length field, and has 8-byte identifier and tag and a TTL up to 16; the packets are the fewest that suffice, numbered in order, each valid and with the caller's fields |
| `Fragment.FragmentOfBegun` | chatbit/wire/fragment.py:110-144 | a fragment that disagrees about its message or takes it over the cap discards the whole message, a repeated one changes nothing, any other is added; other messages lose nothing but what timed out |
| `Fragment.FragmentOfNew` | chatbit/wire/fragment.py:105-144 | a fragment of a message that is absent or timed out begins it anew; a full buffer gives up the victim and nothing else |
| `FragmentObjects.Reassembler.Add` | chatbit/wire/fragment.py:102-144 | result and buffer as specified, the evicted entry being a first-seen oldest one |
| `FragmentObjects.Reassembler.Expire` | chatbit/wire/fragment.py:146-153 | the loop removes exactly the entries past the timeout |
| `Packet.RoundTrip` | chatbit/wire/packet.py:117-175 | a valid packet decodes from its encoding under any padding |
| `Packet.DecodeIsExact` | chatbit/wire/packet.py:143-175 | bytes decode to a packet if and only if the packet is valid and they are its header and payload followed by anything |
| `Packet.FrameLayout` | chatbit/wire/packet.py:117-141 | the frame byte by byte, with the two length bytes high first and zeros up to the padded size; refused if and only if the padding is too short |
| `Packet.PaddingFits` | chatbit/wire/padding.py:47-60 | a padded frame holds the frame and fits the link; only an oversized frame is refused |
| `Packet.BucketsHideLengths` | chatbit/wire/padding.py:43-60 | under bucket padding two frames go out at the same size if and only if no rung below the link size lies between their lengths |
| `Packet.BigEndianRoundTrip` | chatbit/wire/packet.py:117-175 | a field that fits its width reads back |

## Where the code and its documents differ

- Section 5.1 of the Noise Protocol Framework, revision 34, reserves the nonce 2^64-1. The guard in
  `chatbit/crypto/noise.py:90` lets it be used; `NoiseObjects.CipherState.EncryptWithAd` follows the code.
  No handshake box uses a nonce above 1 and no session uses the split ciphers, so only a direct caller of
  the cipher class can reach it.
- The comment at `chatbit/session.py:71-73` speaks of handshakes in general; only `handle_init` applies
  the cap. `Session.StartsAreNotCapped` gives runs that exceed it, `Session.CapIsExceededExactly` says
  exactly which steps do, and `Session.RunKeepsPendingInv` gives the bound that holds, on responder entries.
- A refused handshake does not always remove its entry: `Session.RefusedResponseForgets` and
  `Session.RefusedFinForgets` say exactly when. `SessionWorld.UndisturbedSteps` gives the inputs, one on
  each side: a peer whose messages all arrive but for whom another static key is pinned is refused, and
  its entry stays until it expires or another message comes under its identifier.
- Sessions are one per name, and a completing side files over the one it has. When both sides start at
  once and all messages cross, each ends with the responder's session of a different handshake and
  neither can send (`SessionPairing.CrossedSessionsAreMute`).
- The ratchet key in an identity payload is not under the signature, which covers the hash before the
  payload. It is authentic because the payload travels under a key only the two ends can compute;
  `SessionWorld.ResponseMeansAnswer` is proved that way.

## Left out

- NoiseObjects.HandshakeState.WriteMessage2: after a refusal partway through, only the message index and the transport keys are stated to be unchanged; the hash may have moved, and the manager discards the object.
- NoiseObjects.HandshakeState.ReadMessage2: as for WriteMessage2.
- NoiseObjects.HandshakeState.WriteMessage3: as for WriteMessage2; by `Noise.Message3IsWritable` it is never refused in a session.
- NoiseObjects.HandshakeState.ReadMessage3: as for WriteMessage2.
- SessionObjects.SessionManager.HandleResponse: pending handshakes are kept as values and run on a handshake object made for the call, so an object shared between two entries is not modelled; the source never shares one.
- SessionObjects.SessionManager.HandleFin: as for HandleResponse.
- RatchetReplay.RefusedFramesAreInvisible: each attempt carries the key pair its call would draw, so the two runs it compares agree up to which fresh keys were used up.
- SessionObjects.Session.Decrypt: takes the header and ciphertext apart; cutting the first 40 bytes off the blob, and refusing a shorter one, is `Codecs.HeaderRoundTrip` and not part of the method.
- SessionObjects.Session.Encrypt: returns header and ciphertext; joining their bytes is not modelled, ciphertexts being symbolic.
- SessionWorld.BothEndsFinish: the responder is whoever answered; the source stores the intended peer's static key and never compares it, so no theorem speaks of the intended one.
- FragmentObjects.Reassembler.Add: which of several entries first seen at the same time is evicted is left open; partial messages are values inside the buffer, not objects of their own.
- Flood.RelayedAtMostOnce: assumes the cache keeps the key while copies still arrive; `Remembering.RememberedExactly` says when it does, and `Flood.FloodTerminates` needs no such assumption.
- MeshFlood.FloodAmplification: as for RelayedAtMostOnce; `InTimeAmplification` puts clocks and counts in its place.
- FramingBounds.CalmIsUndisturbed: entries as old as the message's first fragment are excluded, though the source would evict them first.
- RouterObjects.Router.ReplayStore: one atomic step; the source awaits between sends, when other frames may be stored.
- AirtimeObjects.LoRaTransport.Send: the bytes written to the radio and the wait for it to finish are not modelled; a write that raised may have been on air, and is not in the log, as in the source.
- Airtime.AnyWindow: assumes a clock that never goes back, as a monotonic clock does, and a budget that is not negative.
- Codecs.ReadFields: as for PayloadRoundTrip.
- Codecs.PayloadRoundTrip: the nickname is bytes; cutting inside a UTF-8 character and replacing undecodable bytes are not modelled. Above the codec a payload is what it decodes to, and bytes of the wrong shape count as truncated.
- A flood reaching every connected node: the code does not promise it, since a duplicate cancels a pending relay.
- A message reassembling only once: repeats after completion start a new partial message.
- Computational cryptography, curve arithmetic and the key derivation labels of `chatbit/crypto/primitives.py`.
- Ratchet serialisation, rotating tags, safety numbers, identity files, the command line.
- UDP, the serial port and its driver modes, reader threads, asyncio queues, shutdown.
- Time on air, region tables, cover traffic and beacons.
