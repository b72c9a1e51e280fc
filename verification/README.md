# Verified model of the anonymous-credential mixnet

The repository implements a mix network whose clients hold anonymous credentials and send, with every layer
of a packet, a proof about the ticket that picks the next server. This project models its four linked parts
in Dafny and proves what they promise; where the code promises less, it says exactly what holds. In
particular a prover that follows the code is accepted only with the ticket of its credential, but acceptance
alone does not determine the ticket (`PokTicket.AnyTicketAccepted`).

* **Credentials.** BBS+ signatures, blind issuance, selective disclosure and the ticket proof
  (sections 4.3 to 4.5 of eprint 2016/663). Modules `PrimeField`, `Group`, `PokVc`, `Signatures`,
  `Issuance`, `Disclosure`, `PokSignature`, `Unlinkability`, `PokTicket`.
* **Byte formats.** Length-prefixed nested proofs, keys, requests, and the big-endian bit vector. Modules
  `Encoding`, `Codecs`, `MessageCodecs`, `BitVector`, `Layouts`, `MessageLayouts`.
* **Onion circuits.** Setup and data packets, built backwards by the client and peeled forwards by the
  servers. Modules `Network`, `PacketChecks`, `Circuits`.
* **The mix protocol.** N mixes with per-layer buffers, counters and permits, as a state machine over all
  interleavings of their handlers. Modules `MixServer`, `MixRound`, `MixSafety`, `MixLockstep`, `MixInStep`,
  `MixPanics`, `MixReplies`, `MixProgress`, `MixOneLayer`, `MixRefinement`, `EdgeCases`, `MixTraffic`, `MixSetup`,
  `MixCircuits`.

`Results` and `Lists` serve all of them, `Selection` the credentials.

## How the model is built

* The scalar field is the integers modulo `PrimeField.R`, an arbitrary prime of at most 256 bits (a constant
  without a value, so nothing is assumed of it but its type). Inverses and the absence of zero divisors are
  proved from primality. `R` needs the bound only because a scalar is written in 32 bytes.
* A group of order `R` is represented by exponents; every group of that order is isomorphic to it.
  Multiplying a point by a scalar is repeated addition; the pairing multiplies exponents. The second
  generator of G1, the hashes and the curve library's element codecs are constants without a value: any
  point, any functions, any codecs that decode what they encode.
  The curve library writes a scalar alike in both forms; it is not part of this model.
* Random draws are arguments (`Coins`, `TicketCoins`, `LayerCoins`), with the conditions under which the
  code draws them (non-zero) as preconditions.
* A call ends with a value, with an error or with a panic (`Results.Result`). A failed assertion, an
  `unwrap` and an index out of bounds are panics, and the model says when they happen.
* Objects the code updates in place are classes (`ProverCommittingG1`, `CommitmentBuilder`, `Client`,
  `Connections`, `MyServer`), and its loops are loops. Each such method is tied to a function, and the
  theorems are about the functions.
* Encryption is ideal: a sealed packet opens with the key pair it was sealed for, a boxed one with its
  nonce and key.
* In a round, one step is one critical section: a handler parses its request, checks (and possibly sends a
  layer), or answers; `get` outputs. Requests take any time to arrive, other handlers run between any two
  steps, and a shuffle is any permutation. The steps use the functions to which the methods of `MyServer`
  are tied. A handler that would panic (on a packet that does not open, on a proof that trips the assertion,
  on a next mix that does not exist) has no step, and its request is never answered. A round starts with a
  request on the way to each mix and nothing else going on.
* A round in lock step (`MixLockstep`) is the simple form of the protocol: all mixes peel what they were sent
  from a layer, then all send, then the next layer.

## Main results

* `PokTicket.HonestVerdict`, `PokTicket.Completeness`: for every key, message list, hidden/revealed split
  and randomness, a prover's ticket is accepted exactly when it is e * b (or the challenge is zero), under
  the challenge the verifier recomputes; the response assertion never fires for it.
* `PokTicket.Soundness`, `PokSignature.Soundness`, `PokSignature.AnswerSoundness`: two accepted transcripts with
  one commitment give a BBS+ signature over the revealed messages; the ticket's assertion forces the same e in
  both sub-proofs.
* `PokSignature.AnswerMeans`, `PacketChecks.HeaderMeans`, `Issuance.IssueMeans` with `Issuance.ContextMeans`: what the
  verifier, a server and the issuer decide on any input, exactly, with every refusal.
* `Unlinkability.Unlinkable`: two holders that reveal the same messages can send exactly the same proofs, with
  the exact condition on the draw. `Unlinkability.TicketSentExactly`: what a holder can send about its ticket is
  exactly what is accepted.
* `PokTicket.AnyTicketAccepted`, `PokTicket.FifthBinds`: what the fifth sub-proof does not bind, and what it
  does.
* `PokVc.ExplainedIffAccepted`, `PokVc.DrawnIffAccepted`: which witness a prover holds cannot be told from its
  transcripts, but for factors that are never drawn zero.
* `PokSignature.LinkSound`, `PokSignature.LinkComplete`: linking hidden messages across credentials.
* `Issuance.BlindIssuance`, `Issuance.IssuanceSound`: for every partition of the messages, blind issuance ends with
  the signature that plain signing gives; and from any context the issuer signs, transcripts give hidden messages
  for which this is so.
* `Codecs.TicketRoundTrip`, `MessageCodecs.SignatureProofRoundTrip`, `MessageCodecs.RequestRoundTrip`,
  `BitVector.BitsRoundTrip`: decoding an encoding gives the original back, with the exact condition.
  `Layouts.TicketMeans`, `Layouts.TicketRefused`, `Layouts.IncompleteTicket` and their kind in `MessageLayouts`: what
  any other data decodes to.
* `Circuits.SetupRoundTrip`, `Circuits.DataRoundTrip`, `Circuits.SetupThenSend`: packets come apart along
  the client's circuit, with the exact condition on the servers' keys.
* `MixProgress.RoundSafety`: in every run, layers are sent in order, once, behind a barrier and with bounded
  skew.
* `MixInStep.RoundIsLockstep`, `MixInStep.RoundsAgree`: every interleaving refines lock step: a completed
  round has stored and output at each mix exactly what lock step stores and outputs, whichever packets are
  valid and whether large batches are checked or not.
* `MixOneLayer.CompletableExactly`, `MixProgress.RunsGoOn`, `MixProgress.CanComplete`: a round can be completed
  exactly if it has two layers or more and no handler panics in lock step; then no run is stuck, and each
  has the same number of steps. `MixPanics.CleanExactly`: which packets those are.
* `MixRefinement.RoundRefinement`, `MixRefinement.RoundExact`: a round delivers what peeling each packet
  alone delivers; `MixCircuits.SetupTables`, `MixCircuits.SetupThenData`, `MixTraffic.ModesAgree` say what
  this means for real setup and data packets and for the three verification modes, and
  `MixTraffic.HonestAmongOthers`, `MixCircuits.DataAmongOthers` what it means when others inject what they like.
* `MixSetup.HeldInSetup`, `MixSetup.SentInSetup`: whatever is injected into a setup round, a mix holds and sends
  only packets whose headers lead where they go, proven where the mode asks for it.
* `MixReplies.OutputAfterAnswers`: a mix outputs only after everything it sent in the round was answered.
* `EdgeCases.FewOverLimit`, `MixSetup.SetupKept`: how many batches the edge check can touch, and what
  it lets through.

## Where the code decides otherwise than one might expect

* An index equal to the number of generators passes the check of `new_blind_signature_context` and then
  panics on the generator (`Issuance.NewBlindSignatureContext`).
* The match guard in `generate_setup_packet_layer` covers both of its patterns, so a proof is generated in
  every mode, `NoVerification` included, except at the last layer (`PacketChecks.HeaderShape`).
* A layer is sealed for the server of its own ticket and opened by the server of the ticket before it. This
  works because all servers of a network are clones of one (`Circuits.SetupRoundTrip` has the exact
  condition, `Circuits.ClonedServersAgree` says that it holds).
* A data packet is refused for its layer only if the connection's server differs as well
  (`Circuits.AcceptedForLayer`). Every connection a setup packet or a setup round leaves names server 0, so
  server 0 accepts a packet of its circuits for any layer and every other server only for the right one
  (`Circuits.LayerCheck`, `MixCircuits.RoundLayerCheck`; `Circuits.WrongLayerAccepted` is an instance).
* With one layer that layer is sent on as if it were a middle one, so no run completes the round
  (`MixOneLayer.NeverComplete`).
* A key with x + e = 0 cannot sign, yet a signature with that e verifies whenever the point to divide is the
  identity (`Signatures.VerifiesIffSigned`).

## Model

| member | source | states |
|---|---|---|
| `PrimeField.InverseIsInverse` | src/pok_ticket.rs:182 | from primality: every non-zero scalar has an inverse, so the code's `unwrap` on a non-zero scalar succeeds |
| `PrimeField.NoZeroDivisors` | src/pok_ticket.rs:163-164 | from primality: a product is zero exactly when a factor is, so randomising with a non-zero scalar keeps a point away from the identity |
| `PrimeField.DivisionUnique` | src/signature.rs:264-267 | dividing by x + e is the only solution of the signature equation |
| `Group.MsmIsDot` | src/lib.rs:343-360 | the multi-scalar product is the reduced sum of products over the shorter of the two lists |
| `Group.MsmConcat` | src/lib.rs:362-398 | the product of concatenated lists is the sum of the products, so the order of building a statement does not matter |
| `Group.PairingCheck` | src/pok_ticket.rs:700-719 | the product of pairings compared with one decides the equation between the two pairings |
| `PokVc.ProverCommittingG1.CommitWith` | src/pok_vc.rs:194-203 | appends the base and the caller's factor, and returns their index |
| `PokVc.ProverCommittingG1.Commit` | src/pok_vc.rs:185-191 | appends the base with a factor drawn non-zero, and returns their index |
| `PokVc.ProverCommittingG1.Finish` | src/pok_vc.rs:206-213 | the random commitment is the product of the collected bases and factors |
| `PokVc.GenProof` | src/pok_vc.rs:255-279 | one response, factor minus challenge times secret, for each base; an error unless there is one secret for each |
| `PokVc.ProveMeans` | src/pok_vc.rs:255-279 | a proof exactly if there is one secret for each base, response by response; the error names both numbers |
| `PokVc.VerifyEquation` | src/pok_vc.rs:288-323 | what verification decides: responses on the bases plus challenge on the commitment give the random commitment |
| `PokVc.AcceptedIffOpening` | src/pok_vc.rs:255-323 | a generated proof is accepted exactly when the challenge is zero or the secrets open the commitment |
| `PokVc.CompleteProofAccepted` | src/pok_vc.rs:327-359 | a complete proof of an opening is accepted exactly when its challenge is the prover's own hash |
| `PokVc.SpecialSoundness` | src/pok_vc.rs:314-323 | two accepted transcripts with one random commitment and different challenges open the commitment |
| `PokVc.PerfectHiding` | src/pok_vc.rs:194-213 | for a witness, an accepted transcript comes from exactly one vector of blinding factors |
| `PokVc.ExplainedIffAccepted` | src/pok_vc.rs:255-323 | for some factors a prover sends a proof exactly if it verifies, whichever witness the prover holds |
| `PokVc.DrawnIffAccepted` | src/pok_vc.rs:185-191 | with non-zero factors: exactly if it verifies and the witness explains no response by the factor zero |
| `Signatures.ComputeB` | src/signature.rs:341-356 | the point to divide, over the messages and generators both sides have |
| `Signatures.GetB` | src/signature.rs:324-339 | the same point for a signature and a full message vector |
| `Signatures.BMeans` | src/signature.rs:341-356 | the point to divide is g1 + s * h0 + the products of generators and messages, up to the shorter of the two lists |
| `Signatures.BShort` | src/signature.rs:351 | fewer messages than generators count as if the others were zero |
| `Signatures.NewSignature` | src/signature.rs:250-269 | signing, with its errors in order, and the panic when x + e is zero |
| `Signatures.CheckSignature` | src/signature.rs:277-312 | verification, with its errors in order |
| `Signatures.SignMeans` | src/signature.rs:250-269 | a signature exactly if there is a generator for each message, neither key is malformed and x + e is not zero; it is the one solution of (x + e) * A == B; which error otherwise |
| `Signatures.VerifyMeans` | src/signature.rs:277-312 | true and false are the two sides of (w + e) * A == B for well-formed input; which error otherwise |
| `Signatures.MalformedMeans` | src/signature.rs:316-322 | a signature is malformed for a zero component, a key for an identity among its points |
| `Signatures.PairingEquation` | src/signature.rs:289-311 | the pairing check decides (w + e) * A == B |
| `Signatures.VerifiesIffSigned` | src/signature.rs:250-322 | for the holder of the key, a signature is accepted exactly when no component is degenerate and signing would produce it, or, where x + e is zero and signing panics, when B is the identity |
| `Signatures.SignThenVerify` | src/signature.rs:250-312 | signing succeeds exactly when x + e is not zero, and the result verifies exactly when B is not the identity |
| `Issuance.CommitmentBuilder.Add` | src/lib.rs:231-234 | appends a base and its scalar |
| `Issuance.CommitmentBuilder.Finalize` | src/lib.rs:237-242 | the commitment is the product of what was added |
| `Issuance.CommitMessages` | src/prover.rs:48-59 | adds every message to commitment and proof, up to the first index without a generator |
| `Issuance.NewBlindSignatureContext` | src/prover.rs:33-83 | the honest context; an error for an index beyond the generators, a panic for the index equal to their number |
| `Issuance.CheckContext` | src/lib.rs:454-495 | recomputes random commitment and challenge over the generators of the hidden messages |
| `Issuance.ContextMeans` | src/lib.rs:454-495 | any context passes exactly if its proof verifies over the generators of the messages the issuer does not know and its challenge is the hash of those, the random commitment, the commitment and the nonce; an error exactly for a wrong number of responses |
| `Issuance.ContextBytesBind` | src/lib.rs:476-487 | what is hashed determines bases, both commitments and the nonce |
| `Issuance.ContextIsComplete` | src/lib.rs:454-495 | checking a context is checking its proof as a complete proof |
| `Issuance.NewBlindSignature` | src/signature.rs:152-191 | blind signing, with its errors in order; an index without a generator panics |
| `Issuance.BlindSignMeans` | src/signature.rs:152-191 | when blind signing succeeds, and that A is then the one solution for the commitment and the known messages; which error otherwise |
| `Issuance.IssueMeans` | src/issuer.rs:43-59 | the issuer signs exactly if the check passes and signing does; a failed check is the general error, and errors of the check are passed on |
| `Issuance.ContextAccepted` | src/lib.rs:454-495 | the context of a holder who hides exactly what the issuer does not know is accepted |
| `Issuance.BlindB` | src/signature.rs:166-190 | what the issuer divides is the B of the merged messages under the summed blinding |
| `Issuance.BlindIssuance` | src/issuer.rs:43-59 | for every partition, blind issuance gives the plain signature of the merged messages, and the holder keeps it unless plain verification would call it malformed |
| `Issuance.IssuanceSound` | src/issuer.rs:43-59 | what was issued for any context, with another transcript for the same commitments that passes the check, gives the hidden messages: unblinded, it is the plain signature of the messages they make with the known ones |
| `Issuance.CompleteMeans` | src/prover.rs:86-101 | the holder keeps a reply exactly if it verifies after unblinding; otherwise it is refused with the error of the check, or the general one |
| `Issuance.Completion` | src/prover.rs:86-101 | when a completed signature verifies and when it is refused as malformed |
| `Disclosure.CheckMessages` | src/pok_ticket.rs:130-147 | the checks before proving, in order |
| `Disclosure.CheckedMeans` | src/pok_ticket.rs:130-147 | a prover may start exactly if there is a message for each generator and the signature verifies for them; which error otherwise |
| `Disclosure.CommitHidden` | src/pok_ticket.rs:224-238 | commits to the hidden messages in index order, each with its external or drawn factor |
| `Disclosure.CommitCredential` | src/pok_ticket.rs:161-239 | the randomised signature and its two committed relations |
| `Disclosure.SplitGenerators` | src/pok_ticket.rs:604-628 | one pass over the generators gives the hidden bases and the point of the revealed messages |
| `Disclosure.RandomizedPairing` | src/pok_sig.rs:153-163 | the randomised signature satisfies the pairing equation if the signature does |
| `Disclosure.FirstRelation` | src/pok_ticket.rs:190-202 | -e and r2 open the first relation |
| `Disclosure.SecondRelation` | src/pok_ticket.rs:204-239 | -r3, s' and the hidden messages open the second relation, for every hidden/revealed split |
| `Disclosure.CredentialEquation` | src/pok_ticket.rs:586-633 | two accepted transcripts satisfy the BBS+ equation (w + e) * A == B over a vector with the revealed messages |
| `Disclosure.CredentialSoundness` | src/signature.rs:277-312 | the extracted signature passes plain verification unless a component is degenerate |
| `PokSignature.Init` | src/pok_sig.rs:117-242 | the prover's state: checked messages, two committed relations, revealed messages |
| `PokSignature.CommitMeans` | src/pok_sig.rs:117-139 | a prover starts exactly if its signature verifies for a full list of messages, and otherwise gets the error of that check |
| `PokSignature.GenSignatureProof` | src/prover.rs:147-158 | the proof of both relations, sent with the revealed messages, or the error of the first that fails |
| `PokSignature.ProvedMeans` | src/pok_sig.rs:262-290 | the proof of a state has its points and the proofs of both relations; otherwise the error of the first that cannot be proved |
| `PokSignature.GetBytesForChallenge` | src/pok_sig.rs:296-322 | the challenge bytes, put together from proof, key and revealed indices |
| `PokSignature.SameBytes` | src/pok_sig.rs:245-322 | prover and verifier hash the same bytes |
| `PokSignature.BytesBind` | src/pok_sig.rs:296-322 | the hashed bytes determine every point of the proof and the generators of the hidden messages |
| `PokSignature.Verify` | src/pok_sig.rs:342-428 | the verdict, with errors and statuses in order |
| `PokSignature.SuccessMeans` | src/pok_sig.rs:342-428 | acceptance holds exactly when key, indices, pairing and both relations are in order |
| `PokSignature.RefusalMeans` | src/pok_sig.rs:342-428 | which check failed for each other status and error |
| `PokSignature.CredentialComplete` | src/pok_sig.rs:117-290 | for every challenge, the proof for a signature that verifies satisfies all equations |
| `PokSignature.ProverChallenge` | src/prover.rs:125-144 | the hash over all provers' bytes, the nonce and the claims |
| `PokSignature.VerifierChallenge` | src/verifier.rs:82-108 | the hash over proofs and requests taken pairwise, the nonce and the claims |
| `PokSignature.ChallengeMeans` | src/prover.rs:125-144 | what a challenge is the hash of: the provers' bytes, the nonce and the claims, joined in order |
| `PokSignature.ChallengeBinds` | src/verifier.rs:88-104 | for equal provers' bytes, what is hashed determines the nonce and the joined claims |
| `PokSignature.AnswerMeans` | src/verifier.rs:44-68 | for any request, proof and nonce: the revealed messages in order exactly if key, indices and all equations are in order under the recomputed challenge, otherwise an error; invalid exactly if a check of the proof fails |
| `PokSignature.AnswerSoundness` | src/verifier.rs:44-68 | two answers to proofs with the same points under different challenges give a signature that verifies over the revealed messages |
| `PokSignature.Completeness` | src/verifier.rs:44-68 | a prover asked for what it reveals convinces the verifier, who gets the revealed messages in index order |
| `PokSignature.CompletenessAlone` | src/prover.rs:125-144 | the challenge a prover takes over its own state without claims is the one the verifier recomputes, and its proof under it is accepted |
| `PokSignature.JointCompleteness` | src/verifier.rs:82-108 | for any number of credentials shown together, the verifier recomputes the prover's challenge and accepts every proof |
| `PokSignature.Soundness` | src/pok_sig.rs:342-428 | two accepted transcripts give a signature that verifies over the revealed messages |
| `PokSignature.ResponseOfHidden` | src/pok_sig.rs:326-339 | response 2 + k is that of the k-th hidden message in index order; beyond the hidden messages it is an error |
| `PokSignature.ResponseMeans` | src/pok_sig.rs:326-339 | for any proof: response k + 2, an error beyond the responses, a panic for fewer than two |
| `PokSignature.LinkComplete` | src/pok_sig.rs:215-230 | equal messages with equal external factors have equal responses under one challenge, in any two credentials |
| `PokSignature.LinkSound` | src/pok_sig.rs:326-339 | equal responses in two accepting pairs of transcripts give equal extracted messages in two valid credentials |
| `Unlinkability.ProofExplained` | src/pok_sig.rs:117-290 | a holder can send every accepted proof that shows its randomised signature, with some blinding factors |
| `Unlinkability.Unlinkable` | src/pok_sig.rs:149-242 | of two holders under one key that reveal the same messages, one can send exactly the proof that the other sends, for every draw of the other but the one that needs an r2 of zero |
| `PokTicket.CommitTicket` | src/pok_ticket.rs:241-294 | C and the three relations about the ticket; e is blinded as in the first relation |
| `PokTicket.Init` | src/pok_ticket.rs:123-312 | the prover's state, or the error of a check |
| `PokTicket.StartMeans` | src/pok_ticket.rs:123-147 | as for the signature proof: a prover starts exactly if its signature verifies |
| `PokTicket.GenTicketProof` | src/pok_ticket.rs:342-400 | the five sub-proofs, or the first error |
| `PokTicket.ProvedMeans` | src/pok_ticket.rs:342-400 | the proof of a state has its points, C and the proofs of the five relations; otherwise the error of the first that cannot be proved |
| `PokTicket.GetBytesForChallenge` | src/pok_ticket.rs:514-566 | the challenge bytes, put together from proof, key, indices, base and ticket |
| `PokTicket.SameBytes` | src/pok_ticket.rs:315-566 | prover and verifier hash the same bytes |
| `PokTicket.BytesBind` | src/pok_ticket.rs:514-566 | the hashed bytes determine every point of the proof, the base and the ticket |
| `PokTicket.VerifyWithoutPairing` | src/pok_ticket.rs:569-676 | everything but the pairing, with errors, statuses and the assertion in order |
| `PokTicket.Verify` | src/pok_ticket.rs:679-723 | the whole verdict |
| `PokTicket.SuccessMeans` | src/pok_ticket.rs:569-723 | acceptance holds exactly when key, indices, pairing, all five relations and the equality of the first responses hold |
| `PokTicket.FirstFailure` | src/pok_ticket.rs:569-676 | the first of the five relations that fails decides between the status for hidden messages, the one for the ticket, and an error |
| `PokTicket.PanicMeans` | src/pok_ticket.rs:665-672 | the verifier panics exactly on a proof whose five relations hold while its first responses differ, whatever the pairing says |
| `PokTicket.OtherRefusals` | src/pok_ticket.rs:569-722 | when the key or an index is refused, and when the signature is called bad |
| `PokTicket.FourthRelation` | src/pok_ticket.rs:267-281 | -e, rho1 e and rho2 e open the fourth relation to the identity |
| `PokTicket.FifthRelation` | src/pok_ticket.rs:283-294 | rho1 e and -rho1 open the fifth relation exactly when the ticket is e * b |
| `PokTicket.HonestVerdict` | src/pok_ticket.rs:569-723 | a prover's ticket is accepted exactly when it is e * b or the challenge is zero, otherwise it is called bad; the assertion never fires |
| `PokTicket.Completeness` | src/network.rs:550-566 | the correct ticket is accepted under the challenge recomputed from the proof |
| `PokTicket.Soundness` | src/pok_ticket.rs:586-676 | two accepted transcripts give a verifying signature, an opening of C, a representation of e * C for that same e, and a witness of the fifth relation |
| `PokTicket.AnyTicketAccepted` | src/pok_ticket.rs:658-676 | the witness (0, 0) opens the fifth relation: with it a prover's proof is accepted for any ticket, under any challenge |
| `PokTicket.FifthBinds` | src/pok_ticket.rs:658-676 | with a witness (w0, w1) of the fifth relation, w1 not zero, the ticket is e * b exactly when (w0 + e w1) * b is the identity |
| `Unlinkability.TicketSentExactly` | src/pok_ticket.rs:123-400 | a holder can send about its ticket exactly the proofs that show its randomised points and that the verifier accepts, under any challenge |
| `BitVector.RevealedToBitvector` | src/lib.rs:730-742 | the bit vector of the indices, most significant byte first; a panic exactly when an index has no byte |
| `BitVector.BitvectorToRevealed` | src/lib.rs:745-764 | the marked indices, despite the early exit on a byte without further bits |
| `BitVector.BitsRoundTrip` | src/lib.rs:730-764 | reading back gives the same set exactly for the sets that fit, among them all sets of indices up to the total |
| `Layouts.BigEndianDigits` | src/lib.rs:551 | byte j of a number is its digit to the base 256, most significant first |
| `Codecs.VcToBytes` | src/pok_vc.rs:362-372 | commitment, 32-bit count, responses |
| `Codecs.VcFromBytes` | src/pok_vc.rs:375-411 | the decoder, with its length checks |
| `Codecs.VcAt` | src/pok_vc.rs:362-411 | decoding what was encoded, whatever follows it; the count is cut to 32 bits |
| `Codecs.VcDecodedSize` | src/pok_vc.rs:375-411 | a proof decodes only from data at least as long as its encoding |
| `Layouts.VcLayout` | src/pok_vc.rs:362-372 | where commitment, count and each response lie |
| `Layouts.VcMeans` | src/pok_vc.rs:375-411 | any data decodes to a proof exactly if its parts can be read at these places; otherwise it is the general error |
| `Codecs.TicketToBytes` | src/pok_ticket.rs:405-435 | four points, four length-prefixed sub-proofs, and the fifth |
| `Codecs.TicketFromBytes` | src/pok_ticket.rs:438-510 | the offset-moving decoder, with its errors and panics |
| `Codecs.TicketRoundTrip` | src/pok_ticket.rs:405-510 | in both forms, a ticket proof comes back exactly when its lengths fit in 32 bits |
| `Layouts.TicketLayout` | src/pok_ticket.rs:405-435 | where the points, the four prefixed sub-proofs and the fifth lie |
| `Layouts.TicketMeans` | src/pok_ticket.rs:438-510 | any data decodes to a ticket proof exactly if its parts can be read one after the other |
| `Layouts.TicketRefused` | src/pok_ticket.rs:438-510 | a panic exactly if one of the first four sub-proofs is cut off, and which error when |
| `Layouts.IncompleteTicket` | src/pok_ticket.rs:438-510 | what each proper prefix of an encoding decodes to: an error within the points or the last sub-proof, a panic in between |
| `MessageCodecs.KeyToBytes` | src/keys.rs:110-119 | w, h0, 32-bit count, generators |
| `MessageCodecs.KeyFromBytes` | src/keys.rs:122-146 | the decoder, with its check of the length, its panics and the validation of the key |
| `MessageCodecs.KeyRoundTrip` | src/keys.rs:110-157 | in both forms, a key comes back, cut to a 32-bit count, or is refused for an identity |
| `MessageLayouts.KeyLayout` | src/keys.rs:110-119 | where w, h0, the count and each generator lie |
| `MessageLayouts.KeyMeans` | src/keys.rs:122-146 | any data decodes to a key exactly if its length is right, its parts can be read and no point is the identity |
| `MessageLayouts.KeyRefused` | src/keys.rs:122-146 | a panic exactly for fewer than four bytes or a missing count, and which error when |
| `MessageCodecs.ContextRoundTrip` | src/lib.rs:413-449 | in both forms, a context comes back exactly when its count fits in 32 bits |
| `MessageLayouts.ContextLayout` | src/lib.rs:413-425 | where commitment, challenge and proof lie |
| `MessageLayouts.ContextMeans` | src/lib.rs:427-449 | any data decodes to a context exactly if its parts can be read; which error otherwise |
| `MessageCodecs.CredentialToBytes` | src/pok_sig.rs:433-445 | three points, a length-prefixed sub-proof, and the second |
| `MessageCodecs.CredentialFromBytes` | src/pok_sig.rs:448-488 | the offset-moving decoder, with its errors and panics |
| `MessageLayouts.CredentialLayout` | src/pok_sig.rs:433-445 | where the points, the prefixed sub-proof and the second lie |
| `MessageLayouts.CredentialMeans` | src/pok_sig.rs:448-488 | any data decodes to a proof exactly if its parts can be read one after the other |
| `MessageLayouts.CredentialRefused` | src/pok_sig.rs:448-488 | a panic exactly if the first sub-proof is cut off, and which error when |
| `MessageCodecs.SignatureProofToBytes` | src/lib.rs:629-647 | the length-prefixed proof, then each revealed index, cast to 32 bits, with its message |
| `MessageCodecs.SignatureProofFromBytes` | src/lib.rs:650-689 | the offset-moving decoder that inserts into an ordered map, with its panics |
| `MessageCodecs.SignatureProofRoundTrip` | src/lib.rs:629-689 | in both forms, a signature proof comes back exactly when its length, its number of messages and their indices fit in 32 bits |
| `MessageLayouts.SignatureProofLayout` | src/lib.rs:629-647 | where the proof, the count and each entry lie |
| `MessageLayouts.SignatureProofMeans` | src/lib.rs:650-689 | any data decodes exactly if the proof fills its section and the stated number of entries follows; of entries for one index the last counts |
| `MessageLayouts.SignatureProofRefused` | src/lib.rs:650-689 | errors are those of the length and of the proof; all else is a panic |
| `MessageCodecs.RequestToBytes` | src/lib.rs:546-555 | length-prefixed bit vector, then the key; a panic for an index without a byte |
| `MessageCodecs.RequestFromBytes` | src/lib.rs:557-575 | the decoder, with its errors and panics |
| `MessageCodecs.RequestRoundTrip` | src/lib.rs:546-575 | in both forms, a request for a valid key comes back for every set of indices that can be encoded |
| `MessageLayouts.RequestLayout` | src/lib.rs:546-555 | the bit vector behind its length, bit i of it as one number saying whether i is requested, then the key |
| `MessageLayouts.RequestMeans` | src/lib.rs:557-575 | any data decodes exactly if a bit vector fills its section and a key follows; the indices are those of its set bits |
| `MessageLayouts.RequestRefused` | src/lib.rs:557-575 | too few bytes, a bit vector that is cut off, and the errors of the key |
| `Network.Client.GenerateSetupPacket` | src/network.rs:212-267 | the packet and the new circuit, put before what the client already had; a panic when a proof or a chosen ticket is missing |
| `Network.Client.FixCircuit` | src/network.rs:260-264 | every hop's server is where the hop before it leads |
| `Network.Client.GenerateDataPacket` | src/network.rs:457-484 | the payload boxed under the circuit's keys, last layer first |
| `Network.Connections.Insert` | src/network.rs:62-64 | replaces one entry of one server's table |
| `Circuits.InsertMeans` | src/network.rs:62-64 | inserting replaces what the server had under the id, and nothing else anywhere |
| `Network.DecryptSetupPacket` | src/network.rs:322-339 | peels layer by layer and stores each connection at the server that peeled it; a panic where a layer does not open |
| `PacketChecks.HeaderMeans` | src/network.rs:378-431 | any header counts as valid for a layer, leading to server x, exactly if its bytes are a ticket and a proof that is accepted for the layer's base under the recomputed challenge, and x is the ticket's server |
| `PacketChecks.RefusedHeader` | src/network.rs:382-385 | which server a refused header is given: the ticket's if the proof was checked to the end, otherwise none |
| `PacketChecks.HeaderPanics` | src/network.rs:400-430 | the check panics exactly if decoding the proof does or the assertion is tripped |
| `PacketChecks.SetupLayerMeans` | src/network.rs:343-374 | a packet is passed on exactly if it opens and its header leads on, dropped exactly if the check on arrival refuses it, and a panic otherwise |
| `PacketChecks.WalkMeans` | src/network.rs:322-339 | a packet comes apart exactly if each layer opens at the server the one before leads to, and leads on |
| `PacketChecks.HeaderShape` | src/network.rs:270-319 | ticket, server and connection of a layer; a proof exactly if the layer is not the last, in every mode; when a layer cannot be built |
| `PacketChecks.ModifiedLayer` | src/network.rs:191-209 | a chosen ticket, and where it leads, at every layer but the first; a panic where none was given |
| `PacketChecks.PacketBuilt` | src/network.rs:212-258 | when a packet can be built |
| `PacketChecks.RouteOf` | src/network.rs:191-258 | the ticket each layer of a packet carries, the server that ticket names, and the connection |
| `PacketChecks.DataLayerMeans` | src/network.rs:486-519 | a data packet is peeled exactly if it is boxed under the key of a connection stored at the server, for the layer or for the server itself |
| `PacketChecks.DataOnion` | src/network.rs:457-484 | a data packet has a box for each hop, with the hop's id in the clear, under its key and a nonce of its own, and the payload inside |
| `Circuits.NewClientHonest` | src/network.rs:91-103 | a new client's signature is accepted unless its randomness is degenerate |
| `Circuits.HonestProof` | src/network.rs:378-431 | the proof bytes an honest client sends verify at the layer the ticket was made for |
| `Circuits.HonestLayer` | src/network.rs:270-319 | an honest layer can be built, and both ways of finding the next server agree on it |
| `Circuits.PacketLayers` | src/network.rs:191-258 | honest packets, and with verification off packets with chosen tickets, can be built and pass every layer |
| `Circuits.Unwrap` | src/network.rs:322-374 | peeling from any layer on: success exactly when the key pairs agree along the rest of the circuit |
| `Circuits.SetupRoundTrip` | src/network.rs:191-374 | a setup packet peels to empty data exactly when the key pairs agree; the servers visited and the connections stored are those of the client's circuit |
| `Circuits.ClonedServersAgree` | src/network.rs:163-178 | in a network of cloned servers the key pairs agree |
| `Circuits.ModeIndependence` | src/network.rs:290-368 | an honest layer is the same packet, and is peeled alike, in every verification mode |
| `Circuits.InsertAllStores` | src/network.rs:62-64 | after a walk without a repeated id, every visited server has the connection of its visit |
| `Circuits.UnboxFrom` | src/network.rs:486-519 | peeling a data packet from any layer on along stored connections gives the payload and visits the circuit's servers |
| `Circuits.DataRoundTrip` | src/network.rs:457-519 | after the setup walk, a data packet peels to its payload along the servers the setup packet visited |
| `Circuits.LayerCheck` | src/network.rs:495-516 | a packet that fits hop i of a stored circuit is accepted for a layer exactly if that is layer i or the hop is at server 0, as every stored connection names server 0 |
| `Circuits.WrongLayerAccepted` | src/network.rs:499-501 | an instance: a packet for layer 0, at server 0, accepted for layer 1 |
| `Circuits.NewCircuitFirst` | src/network.rs:260-264 | a client's earlier circuits do not reach its new one |
| `Circuits.SetupThenSend` | src/network.rs:630-655 | a client and the servers together: the setup packet peels to nothing, the data packet to the payload |
| `MixServer.MyServer.constructor` | src/mix/mod.rs:48-62 | an empty buffer, no permits, no connections |
| `MixServer.MyServer.ParseInput` | src/mix/mod.rs:129-159 | peels a request, stores its connections, counts it and puts each packet in the batch of its next mix; a panic while peeling changes nothing, one for a next mix that does not exist comes after the request is counted |
| `MixServer.MyServer.StoreConnections` | src/mix/mixnet_request.rs:58-62 | inserts the connections of the peeled packets in order |
| `MixServer.MyServer.HandleMiddleLayer` | src/mix/mod.rs:162-207 | takes the least layer out exactly when it looks complete, and prepares for every mix its batch, checked and in some order; a panic of the check loses the layer |
| `MixServer.MyServer.VerifyOnOutput` | src/mix/mixnet_request.rs:69-89 | drops the packets that do not verify, from a batch over the limit only, and panics exactly if verifying one of them does |
| `MixServer.MiddleLayerMeans` | src/mix/mod.rs:285-294 | the rule for sending, on any buffer |
| `MixServer.MyServer.OutputLastLayer` | src/mix/mod.rs:242-264 | takes the round's permits and the greatest layer, and outputs its packets in some order |
| `MixServer.Shuffle` | src/mix/mod.rs:197 | the result is a permutation |
| `MixServer.Drain` | src/mix/mod.rs:198-204 | every packet is passed on exactly once |
| `MixRound.ReadyMeans` | src/mix/mod.rs:285-294 | the rule for sending is met exactly when the next unsent layer is complete, and the least key is then that layer |
| `MixRound.BoundedSkew` | src/mix/mod.rs:162-173 | two mixes differ by at most one sent layer |
| `MixRound.BufferedLayers` | src/mix/mod.rs:172-173 | a mix buffers only its next unsent layer and the one after it |
| `MixRound.LayerBarrier` | src/mix/mod.rs:146-174 | a mix that has sent layer k > 1 had parsed one request for layer k - 1 from every mix |
| `MixRound.PermitsMeanComplete` | src/mix/mod.rs:97-105 | with the permits of a round, the buffer has only the last layer, with a request from every mix, and there are no permits to spare |
| `MixSafety.InitInv` | src/mix/mod.rs:331-356 | the invariant holds when the initial requests are on their way |
| `MixSafety.ParsePreserves` | src/mix/mod.rs:129-159 | parsing keeps the invariant: no layer already taken out is created again |
| `MixSafety.FirePreserves` | src/mix/mod.rs:162-217 | sending keeps the invariant, whichever handler does it |
| `MixSafety.FireSleeps` | src/mix/mod.rs:285-294 | after sending, a mix cannot send again before its own request has come back |
| `MixSafety.OutputPreserves` | src/mix/mod.rs:242-264 | output keeps the invariant |
| `MixSafety.StepPreserves` | src/mix/mod.rs:66-123 | every step keeps the invariant |
| `MixSafety.RunInv` | src/mix/mod.rs:66-123 | every state of every run satisfies the invariant |
| `MixProgress.RoundSafety` | src/mix/mod.rs:129-217 | in every state of every run: layers sent in order and once, bounded skew, and the barrier |
| `MixReplies.RunMinded` | src/mix/mod.rs:198-217 | in every state of every run: a request that is not answered has a handler at its sender that waits for it |
| `MixReplies.OutputAfterAnswers` | src/mix/mod.rs:88-103 | a mix that can acquire its permits has answered every request it was sent, and every request it sent is answered |
| `MixInStep.StepInStep` | src/mix/mod.rs:66-123 | every step keeps to lock step: batches, requests, stored connections and output are those of the requests parsed so far |
| `MixInStep.SentInLockstep` | src/mix/mod.rs:162-217 | in every state, what has been sent to a mix of a layer is part of what lock step sends it, and all of it once every mix has sent the layer |
| `MixInStep.RoundIsLockstep` | src/mix/mod.rs:129-264 | in every interleaving, a completed round has stored and output at each mix what lock step stores and outputs, and no handler panics in lock step |
| `MixInStep.RoundsAgree` | src/mix/mod.rs:129-264 | two completed rounds of the same packets, given to each mix in any order, agree at every mix |
| `MixPanics.SafeIsClean` | src/mix/mixnet_request.rs:39-153 | if no injected packet panics on its own path, no handler panics in lock step |
| `MixPanics.CleanExactly` | src/mix/mixnet_request.rs:102-153 | without the check of large batches, exactly then |
| `MixProgress.NoStuckState` | src/mix/mod.rs:66-105 | where no handler panics in lock step, a state in which no step is possible is a completed round with empty buffers and no permits |
| `MixProgress.StepWork` | src/mix/mod.rs:66-123 | every step uses up exactly one unit of the remaining work |
| `MixProgress.RunsEnd` | src/mix/mod.rs:66-123 | no run is longer than a round, and a completed one has exactly that length |
| `MixProgress.RunsGoOn` | src/mix/mod.rs:66-123 | where no handler panics in lock step, a run can go on exactly as long as it is shorter than a round, and is then complete |
| `MixProgress.CanComplete` | src/mix/mod.rs:66-123 | where no handler panics in lock step, every run can be continued to a complete one |
| `MixOneLayer.NeverComplete` | src/mix/mod.rs:285-294 | in every run with one layer: a mix that has checked its initial request has sent its only layer on, so no state is a completed round |
| `MixOneLayer.CompletableExactly` | src/mix/mod.rs:66-123 | a round can be completed exactly if it has two layers or more and no handler panics in lock step |
| `MixRefinement.ParseMix` | src/mix/mod.rs:129-159 | parsing turns a request into stored connections and buffered packets, and loses nothing else |
| `MixRefinement.SentBatch` | src/mix/mod.rs:185-206 | what is sent of a batch is at most what was held, and at least what verifies |
| `MixRefinement.FirePotential` | src/mix/mod.rs:162-217 | sending a layer creates no packet and loses none that verifies |
| `MixRefinement.OutputPotential` | src/mix/mod.rs:242-264 | output delivers exactly the last layer |
| `MixRefinement.RoundRefinement` | src/mix/mod.rs:129-264 | in every interleaving, the outcome of a round lies between what the packets that pass every check give alone and what all of them give alone |
| `MixRefinement.RoundExact` | src/mix/mod.rs:129-264 | without the edge check, or if no packet fails it, the outcome is exactly what the packets give alone |
| `EdgeCases.LimitExact` | src/mix/mod.rs:296-315 | a batch is over the limit exactly when its size times the number of mixes exceeds the edge factor times the total |
| `EdgeCases.FewOverLimit` | src/mix/mod.rs:296-315 | with edge factor E fewer than n / E batches of a layer are over the limit |
| `EdgeCases.SentOfBatch` | src/mix/mixnet_request.rs:69-154 | a batch over the limit is sent without its invalid packets and with every valid one, any other batch whole |
| `MixSetup.SetupKept` | src/mix/mixnet_request.rs:69-89 | in a setup round: only in the mode for edge cases, and there of a batch over its share, what does not verify is dropped; any other batch is kept whole |
| `MixSetup.SetupCheckable` | src/mix/mixnet_request.rs:141-154 | checking a batch panics exactly if it is such a batch and some header in it makes the check panic |
| `MixSetup.SetupSent` | src/mix/mod.rs:162-207 | a step that sends a layer of a setup round: one request for each mix, with what remains of its batch in some order |
| `MixSetup.SetupPeels` | src/mix/mixnet_request.rs:39-67 | what a mix makes of any packet of a setup round: kept for the mix its header leads to, dropped exactly if refused on arrival, otherwise a panic |
| `MixSetup.RefusedIsDropped` | src/mix/mixnet_request.rs:48-57 | a packet refused on arrival gives nothing and stops nothing else |
| `MixSetup.HeldInSetup` | src/mix/mixnet_request.rs:39-67 | in every state of every setup round, whatever was injected: a packet held for a mix has a header that leads there, and where mixes verify on arrival one that is proven |
| `MixSetup.SentInSetup` | src/mix/mod.rs:162-217 | in every step that sends, whatever was injected: what is sent to a mix comes from packets whose headers lead there, all proven where mixes verify on arrival and in a large batch where they check those |
| `MixSetup.StoredInSetup` | src/mix/mixnet_request.rs:58-62 | in every state of every setup round: a stored connection belongs to a packet whose header leads on |
| `MixTraffic.SetupPath` | src/network.rs:343-374 | a verified setup packet, alone: a connection at each server of its circuit, and empty data at the end |
| `MixTraffic.RoundAmongOthers` | src/mix/mod.rs:129-264 | packets that no check would drop all get where they get alone, whatever else is injected |
| `MixTraffic.HonestSetupRound` | src/mix/mixnet_request.rs:39-67 | a setup round of honest clients stores exactly the connections of their circuits, in any mode and interleaving |
| `MixTraffic.HonestSetupCompletes` | src/mix/mod.rs:66-123 | such a round can be completed from any point of any run |
| `MixTraffic.HonestAmongOthers` | src/mix/mixnet_request.rs:39-89 | whatever other packets are injected, a completed setup round has stored every honest client's circuit and delivered its packet |
| `MixTraffic.ModesAgree` | src/mix/mixnet_request.rs:69-89 | two rounds of the same honest clients, in any two modes and interleavings, store and deliver the same |
| `MixCircuits.InsertAllPermuted` | src/network.rs:62-64 | without a repeated id, the order of insertion does not matter |
| `MixCircuits.SetupTables` | src/mix/mixnet_request.rs:58-62 | a setup round leaves exactly the tables that `decrypt_setup_packet` leaves when it peels the packets one after another, which it does without a panic |
| `MixCircuits.DataPath` | src/mix/mixnet_request.rs:102-122 | a data packet, alone, over stored connections: its payload at the last server |
| `MixCircuits.DataPeels` | src/mix/mixnet_request.rs:102-122 | what a mix makes of any packet of a data round: passed on or dropped as the table says, never a panic |
| `MixCircuits.DataRound` | src/mix/mixnet_request.rs:102-122 | a data round delivers exactly the payloads, each at the end of its circuit |
| `MixCircuits.DataRoundCompletes` | src/mix/mod.rs:66-123 | such a round can be completed from any point of any run |
| `MixCircuits.DataAmongOthers` | src/mix/mixnet_request.rs:102-122 | whatever other packets are injected, a completed data round has delivered every payload |
| `MixCircuits.RoundLayerCheck` | src/network.rs:495-516 | over the tables a setup round left, a packet that fits hop j is accepted for a layer exactly if that is layer j or the hop is at server 0 |
| `MixCircuits.SetupThenData` | src/mix/mod.rs:88-123 | after a setup round, a data round over the tables it left delivers every payload and nothing else |

## Left out

- MixProgress.RoundSafety: is about one round of at least two layers that starts from a quiet network. Permits and buffers carry no round tag, and a fast mix starts its next round before the others have finished; rounds that overlap are not covered. The end of a round is again such a start (`MixProgress.Complete`).
- PokTicket.Soundness: does not conclude that the ticket is e * b, which acceptance does not force (`PokTicket.AnyTicketAccepted`); what it forces is stated, and the ticket equation is proved for a prover that follows the code (`PokTicket.HonestVerdict`).
- MixRound.ParseStep: follows a run up to a panic. What the other handlers, and a sender whose request fails, do after one is not modelled; the state a panicking handler leaves is (`MixServer.MyServer.ParseInput`, `MixServer.MyServer.HandleMiddleLayer`). A handler that panics adds no permit, and every mix waits for one for each of its requests, so such a round is not completed in the code either.
- MixServer.MyServer.ParseInput: merges the critical section that stores connections with the one that fills the buffer; a setup round reads no connections and a data round stores none.
- MixServer.MyServer.OutputLastLayer: acquires the permits and outputs the layer in one step; the code does the second right after the first, and nothing is left to arrive at that mix in between.
- EdgeCases.LimitExact: is over exact numbers; the rounding of the code's 64-bit floating point numbers is not modelled.
- MixServer.MyServer.HandleMiddleLayer: the shuffle's draws are an argument and the same for all batches; the state machine allows every permutation of every batch.
- Circuits.PacketLayers: covers the two modifications the code makes of a setup layer, not an arbitrary closure.
- MessageCodecs.KeyFromBytes: calls the underflow of the length check on fewer than four bytes a panic, as in a build with overflow checks; so does the model of `get_resp_for_message` for fewer than two responses.
- Shared code: the signature proof and the ticket proof repeat the same lines for the credential; they are modelled once, in `Disclosure`, and cited where the ticket proof has them.
- Error payloads: an error's text, and the conversion of a sub-proof's error into a general one, are not modelled.
- Curve arithmetic, pairing internals, hashing to curves and fields, key derivation, and the deterministic public key built by hashing.
- The encryption library and the general-purpose serializer: ideal constructors with matching destructors.
- Random sampling and the loops that retry it.
- `Verifier::new_proof_request` and the fixed-size conversions of single elements, which only copy.
- gRPC, channels, retries, timing, logging, shutdown files, configuration files, the wasm layer, and the scripts.
