/** Proof of knowledge of a signature with selective disclosure. */
module PokSignature {
  import opened PrimeField
  import opened Group
  import opened Lists
  import opened Results
  import opened Encoding
  import opened Selection
  import opened PokVc
  import opened Signatures
  import opened Disclosure

  datatype Status = Success | BadSignature | BadHiddenMessage | BadRevealedMessage

  datatype PoKOfSignature = PoKOfSignature(core: Randomized, revealedMessages: Messages)

  datatype ProofRequest = ProofRequest(revealedMessages: set<nat>, verificationKey: PublicKey)

  datatype SignatureProof = SignatureProof(revealedMessages: Messages, proof: CredentialProof)

  // ---------- The prover ----------

  function Commit(sig: Signature, key: PublicKey, messages: seq<ProofMessage>, coins: Coins): Result<PoKOfSignature>
    requires Usable(coins, |messages|)
  {
    var _ :- CheckSigned(sig, key, messages);
    Ok(PoKOfSignature(Randomize(sig, key, messages, coins), RevealedMessages(messages)))
  }

  method Init(sig: Signature, key: PublicKey, messages: seq<ProofMessage>, coins: Coins) returns (result: Result<PoKOfSignature>)
    requires Usable(coins, |messages|) && Drawn(coins)
    ensures result == Commit(sig, key, messages, coins)
  {
    var _ :- CheckMessages(sig, key, messages);
    var core := CommitCredential(sig, key, messages, coins);
    return Ok(PoKOfSignature(core, RevealedMessages(messages)));
  }

  /** The part of the challenge bytes that is about the signature, on the prover's side. */
  function CoreBytes(core: Randomized): seq<Byte> {
    SerG1(core.aBar, false) + CommittedBytes(core.pokVc1) + CommittedBytes(core.pokVc2)
  }

  function ProveCredential(core: Randomized, challenge: Fr): Result<CredentialProof>
    requires |core.pokVc1.bases| == |core.pokVc1.blindingFactors|
    requires |core.pokVc2.bases| == |core.pokVc2.blindingFactors|
  {
    var vc1 :- Prove(core.pokVc1, challenge, core.secrets1);
    var vc2 :- Prove(core.pokVc2, challenge, core.secrets2);
    Ok(CredentialProof(core.aPrime, core.aBar, core.d, vc1, vc2))
  }

  method GenSignatureProof(pok: PoKOfSignature, challenge: Fr) returns (result: Result<SignatureProof>)
    requires |pok.core.pokVc1.bases| == |pok.core.pokVc1.blindingFactors|
    requires |pok.core.pokVc2.bases| == |pok.core.pokVc2.blindingFactors|
    ensures result == match ProveCredential(pok.core, challenge)
      case Ok(credential) => Ok(SignatureProof(pok.revealedMessages, credential))
      case Err(error) => Err(error)
      case Panic => Panic
  {
    var vc1 :- GenProof(pok.core.pokVc1, challenge, pok.core.secrets1);
    var vc2 :- GenProof(pok.core.pokVc2, challenge, pok.core.secrets2);
    return Ok(SignatureProof(pok.revealedMessages, CredentialProof(pok.core.aPrime, pok.core.aBar, pok.core.d, vc1, vc2)));
  }

  /** The proof of a state: its three points and the proofs of both relations, or the error of the first that
      cannot be proved. */
  lemma ProvedMeans(core: Randomized, challenge: Fr, p: CredentialProof)
    requires |core.pokVc1.bases| == |core.pokVc1.blindingFactors|
    requires |core.pokVc2.bases| == |core.pokVc2.blindingFactors|
    ensures ProveCredential(core, challenge) == Ok(p) <==>
      && p.aPrime == core.aPrime && p.aBar == core.aBar && p.d == core.d
      && Prove(core.pokVc1, challenge, core.secrets1) == Ok(p.vc1) && Prove(core.pokVc2, challenge, core.secrets2) == Ok(p.vc2)
    ensures var n1, n2 := |core.pokVc1.bases|, |core.pokVc2.bases|;
      var error := if |core.secrets1| != n1 then UnequalNoOfBasesExponents(n1, |core.secrets1|) else UnequalNoOfBasesExponents(n2, |core.secrets2|);
      !ProveCredential(core, challenge).Ok? <==> ProveCredential(core, challenge) == Err(error)
  {
    hide Responses;
  }

  // ---------- The verifier ----------

  /** The same bytes, put together from the proof, the key and the revealed indices. */
  function CredentialBytes(p: CredentialProof, revealed: set<nat>, key: PublicKey): seq<Byte> {
    SerG1(p.aBar, false) + SerG1(p.aPrime, false) + SerG1(key.h0, false) + SerG1(p.vc1.commitment, false)
    + SerG1(p.d, false) + SerG1(key.h0, false)
    + SerPoints(Pick(key.h, Outside(|key.h|, revealed)), false) + SerG1(p.vc2.commitment, false)
  }

  /** The generators of the hidden messages, appended one by one. */
  method AppendHidden(bytes: seq<Byte>, revealed: set<nat>, key: PublicKey) returns (r: seq<Byte>)
    ensures r == bytes + SerPoints(Pick(key.h, Outside(|key.h|, revealed)), false)
  {
    r := bytes;
    for i := 0 to |key.h|
      invariant r == bytes + SerPoints(Pick(key.h, Outside(i, revealed)), false)
    {
      if i in revealed {
        continue;
      }
      PickSnoc(key.h, Outside(i, revealed), i);
      SerPointsSnoc(Pick(key.h, Outside(i, revealed)), key.h[i], false);
      r := r + SerG1(key.h[i], false);
    }
  }

  method GetBytesForChallenge(p: CredentialProof, revealed: set<nat>, key: PublicKey) returns (bytes: seq<Byte>)
    ensures bytes == CredentialBytes(p, revealed, key)
  {
    bytes := SerG1(p.aBar, false);
    bytes := bytes + SerG1(p.aPrime, false);
    bytes := bytes + SerG1(key.h0, false);
    bytes := bytes + SerG1(p.vc1.commitment, false);
    bytes := bytes + SerG1(p.d, false);
    bytes := bytes + SerG1(key.h0, false);
    bytes := AppendHidden(bytes, revealed, key);
    bytes := bytes + SerG1(p.vc2.commitment, false);
  }

  /** The response for the `k`-th hidden message; fewer than two responses underflow the length check. */
  function GetRespForMessage(p: CredentialProof, k: nat): Result<Fr> {
    if |p.vc2.responses| < 2 then Panic
    else if k >= |p.vc2.responses| - 2 then Err(GeneralError)
    else Ok(p.vc2.responses[2 + k])
  }

  /** The verdict once key and indices are in order: pairing first, then the two relations; a wrong
      number of responses in the second is a bad revealed message. */
  function Verdict(p: CredentialProof, key: PublicKey, revealed: Messages, challenge: Fr): Result<Status>
    requires forall i :: 0 <= i < |revealed.keys| ==> revealed.keys[i] < |key.h|
  {
    if p.aPrime == 0 || !PairingHolds(p.aPrime, p.aBar, key) then Ok(BadSignature)
    else
      var first :- VerifyVc(p.vc1, [p.aPrime, key.h0], Sub(p.aBar, p.d), challenge);
      if !first then Ok(BadHiddenMessage)
      else Ok(if VerifyVc(p.vc2, HiddenBases(p.d, key, revealed), RevealedPoint(key, revealed), challenge) == Ok(true)
              then Success else BadRevealedMessage)
  }

  function VerifyProof(p: CredentialProof, key: PublicKey, revealed: Messages, challenge: Fr): Result<Status> {
    var _ :- key.Validate();
    if FirstBeyond(revealed, |key.h|) then Err(GeneralError) else Verdict(p, key, revealed, challenge)
  }

  /** Some revealed index has no generator. */
  predicate FirstBeyond(revealed: Messages, n: nat) {
    exists i :: 0 <= i < |revealed.keys| && revealed.keys[i] >= n
  }

  method Verify(p: CredentialProof, key: PublicKey, revealed: Messages, challenge: Fr) returns (result: Result<Status>)
    ensures result == VerifyProof(p, key, revealed, challenge)
  {
    var _ :- key.Validate();
    for i := 0 to |revealed.keys|
      invariant forall j :: 0 <= j < i ==> revealed.keys[j] < |key.h|
    {
      if revealed.keys[i] >= |key.h| {
        return Err(GeneralError);
      }
    }
    if p.aPrime == 0 {
      return Ok(BadSignature);
    }
    var aBar := p.aBar;
    aBar := Neg(aBar);
    if Add(Pair(p.aPrime, key.w), Pair(aBar, ONE)) != 0 {
      return Ok(BadSignature);
    }
    var bases := [p.aPrime, key.h0];
    var aBarD := p.aBar;
    aBarD := Sub(aBarD, p.d);
    var first :- VerifyVc(p.vc1, bases, aBarD, challenge);
    if !first {
      return Ok(BadHiddenMessage);
    }
    var hiddenBases, pr := SplitGenerators(p.d, key, revealed);
    return Ok(if VerifyVc(p.vc2, hiddenBases, pr, challenge) == Ok(true) then Success else BadRevealedMessage);
  }

  // ---------- Challenges over several proofs ----------

  function ProverBytes(poks: seq<PoKOfSignature>): seq<Byte> {
    if poks == [] then [] else ProverBytes(poks[..|poks| - 1]) + CoreBytes(poks[|poks| - 1].core)
  }

  function ClaimBytes(claims: seq<seq<Byte>>): seq<Byte> {
    if claims == [] then [] else ClaimBytes(claims[..|claims| - 1]) + claims[|claims| - 1]
  }

  /** What a challenge is the hash of: the proofs' bytes, the nonce and any claims. */
  function HashedBytes(proofs: seq<Byte>, nonce: Fr, claims: Option<seq<seq<Byte>>>): seq<Byte> {
    proofs + SerFr(nonce, false) + ClaimBytes(if claims.Some? then claims.value else [])
  }

  function ChallengeOver(proofs: seq<Byte>, nonce: Fr, claims: Option<seq<seq<Byte>>>): Fr {
    HASH_TO_FR(HashedBytes(proofs, nonce, claims))
  }

  method FinishChallenge(proofs: seq<Byte>, nonce: Fr, claims: Option<seq<seq<Byte>>>) returns (challenge: Fr)
    ensures challenge == ChallengeOver(proofs, nonce, claims)
  {
    var bytes := proofs + SerFr(nonce, false);
    ghost var start := bytes;
    if claims.Some? {
      for i := 0 to |claims.value|
        invariant bytes == start + ClaimBytes(claims.value[..i])
      {
        assert claims.value[..i + 1][..i] == claims.value[..i];
        bytes := bytes + claims.value[i];
      }
      assert claims.value[..|claims.value|] == claims.value;
    } else {
      assert start + ClaimBytes([]) == start;
    }
    challenge := HASH_TO_FR(bytes);
  }

  method ProverChallenge(poks: seq<PoKOfSignature>, claims: Option<seq<seq<Byte>>>, nonce: Fr) returns (challenge: Fr)
    ensures challenge == ChallengeOver(ProverBytes(poks), nonce, claims)
  {
    var bytes: seq<Byte> := [];
    for i := 0 to |poks|
      invariant bytes == ProverBytes(poks[..i])
    {
      assert poks[..i + 1][..i] == poks[..i];
      bytes := bytes + CoreBytes(poks[i].core);
    }
    assert poks[..|poks|] == poks;
    challenge := FinishChallenge(bytes, nonce, claims);
  }

  /** Proofs and requests are taken pairwise; the surplus of the longer list is ignored. */
  function VerifierBytes(proofs: seq<SignatureProof>, requests: seq<ProofRequest>, n: nat): seq<Byte>
    requires n <= |proofs| && n <= |requests|
  {
    if n == 0 then [] else
      VerifierBytes(proofs, requests, n - 1)
      + CredentialBytes(proofs[n - 1].proof, requests[n - 1].revealedMessages, requests[n - 1].verificationKey)
  }

  function Paired(proofs: seq<SignatureProof>, requests: seq<ProofRequest>): (n: nat)
    ensures n <= |proofs| && n <= |requests| && (n == |proofs| || n == |requests|)
  {
    if |proofs| < |requests| then |proofs| else |requests|
  }

  method VerifierChallenge(proofs: seq<SignatureProof>, requests: seq<ProofRequest>, nonce: Fr, claims: Option<seq<seq<Byte>>>)
    returns (challenge: Fr)
    ensures challenge
         == ChallengeOver(VerifierBytes(proofs, requests, Paired(proofs, requests)), nonce, claims)
  {
    var n := Paired(proofs, requests);
    var bytes: seq<Byte> := [];
    for i := 0 to n
      invariant bytes == VerifierBytes(proofs, requests, i)
    {
      var more := GetBytesForChallenge(proofs[i].proof, requests[i].revealedMessages, requests[i].verificationKey);
      bytes := bytes + more;
    }
    challenge := FinishChallenge(bytes, nonce, claims);
  }

  /** `Verifier::verify_signature_pok`: the challenge covers the indices the request names, the
      equations use the messages the proof reveals. */
  function VerifySignaturePok(request: ProofRequest, proof: SignatureProof, nonce: Fr): Result<seq<Fr>> {
    var bytes := CredentialBytes(proof.proof, request.revealedMessages, request.verificationKey) + SerFr(nonce, false);
    var status :- VerifyProof(proof.proof, request.verificationKey, proof.revealedMessages, HASH_TO_FR(bytes));
    if status == Success then Ok(Values(proof.revealedMessages)) else Err(InvalidProof)
  }

  // ---------- What a challenge covers ----------

  function BytesOf(): PoKOfSignature -> seq<Byte> {
    (pok: PoKOfSignature) => CoreBytes(pok.core)
  }

  lemma {:induction false} ProverBytesJoined(poks: seq<PoKOfSignature>)
    ensures ProverBytes(poks) == FlatMap(BytesOf(), poks)
  {
    hide CoreBytes;
    if poks != [] {
      ProverBytesJoined(poks[..|poks| - 1]);
    }
  }

  lemma {:induction false} ClaimsJoined(claims: seq<seq<Byte>>)
    ensures ClaimBytes(claims) == FlatMap(Whole(), claims)
  {
    if claims != [] {
      ClaimsJoined(claims[..|claims| - 1]);
    }
  }

  /** The challenge of a prover is the hash of its states' bytes, the nonce's bytes and the claims, joined
      in order. */
  lemma {:induction false} ChallengeMeans(poks: seq<PoKOfSignature>, nonce: Fr, claims: Option<seq<seq<Byte>>>)
    ensures ChallengeOver(ProverBytes(poks), nonce, claims)
         == HASH_TO_FR(FlatMap(BytesOf(), poks) + SerFr(nonce, false)
                       + match claims case None => [] case Some(c) => FlatMap(Whole(), c))
  {
    hide BytesOf, FlatMap;
    ProverBytesJoined(poks);
    ClaimsJoined(if claims.Some? then claims.value else []);
  }

  /** What is hashed determines the nonce and the joined claims. */
  lemma ChallengeBinds(proofs: seq<Byte>, nonce: Fr, claims: Option<seq<seq<Byte>>>, nonce': Fr, claims': Option<seq<seq<Byte>>>)
    requires HashedBytes(proofs, nonce, claims) == HashedBytes(proofs, nonce', claims')
    ensures nonce == nonce'
    ensures FlatMap(Whole(), if claims.Some? then claims.value else []) == FlatMap(Whole(), if claims'.Some? then claims'.value else [])
  {
    hide FlatMap, ClaimBytes, SerFr;
    var c, c' := if claims.Some? then claims.value else [], if claims'.Some? then claims'.value else [];
    assert HashedBytes(proofs, nonce, claims) == proofs + (SerFr(nonce, false) + ClaimBytes(c));
    assert HashedBytes(proofs, nonce', claims') == proofs + (SerFr(nonce', false) + ClaimBytes(c'));
    FirstParts(proofs, SerFr(nonce, false) + ClaimBytes(c), proofs, SerFr(nonce', false) + ClaimBytes(c'));
    FirstParts(SerFr(nonce, false), ClaimBytes(c), SerFr(nonce', false), ClaimBytes(c'));
    SameFr(nonce, nonce', false);
    ClaimsJoined(c);
    ClaimsJoined(c');
  }

  /** A proof's bytes, with any that follow them, determine its points; for keys and indices of one shape also
      the generators. */
  lemma {:induction false} BytesBind(p: CredentialProof, key: PublicKey, a: seq<Byte>,
                                     p': CredentialProof, key': PublicKey, a': seq<Byte>, revealed: set<nat>)
    requires |key.h| == |key'.h| && CredentialBytes(p, revealed, key) + a == CredentialBytes(p', revealed, key') + a'
    ensures SameCommitments(p, p') && key.h0 == key'.h0 && a == a'
    ensures Pick(key.h, Outside(|key.h|, revealed)) == Pick(key'.h, Outside(|key.h|, revealed))
  {
    hide SerG1, SerPoints, Pick, Outside;
    var h, h' := Pick(key.h, Outside(|key.h|, revealed)), Pick(key'.h, Outside(|key.h|, revealed));
    var x7, x7' := SerG1(p.vc2.commitment, false) + a, SerG1(p'.vc2.commitment, false) + a';
    var x6, x6' := SerPoints(h, false) + x7, SerPoints(h', false) + x7';
    var x5, x5' := SerG1(key.h0, false) + x6, SerG1(key'.h0, false) + x6';
    var x4, x4' := SerG1(p.d, false) + x5, SerG1(p'.d, false) + x5';
    var x3, x3' := SerG1(p.vc1.commitment, false) + x4, SerG1(p'.vc1.commitment, false) + x4';
    var x2, x2' := SerG1(key.h0, false) + x3, SerG1(key'.h0, false) + x3';
    var x1, x1' := SerG1(p.aPrime, false) + x2, SerG1(p'.aPrime, false) + x2';
    CredentialBytesNested(p, revealed, key, a);
    CredentialBytesNested(p', revealed, key', a');
    PointFirst(p.aBar, x1, p'.aBar, x1');
    PointFirst(p.aPrime, x2, p'.aPrime, x2');
    PointFirst(key.h0, x3, key'.h0, x3');
    PointFirst(p.vc1.commitment, x4, p'.vc1.commitment, x4');
    PointFirst(p.d, x5, p'.d, x5');
    PointFirst(key.h0, x6, key'.h0, x6');
    PointsFirst(h, x7, h', x7');
    PointFirst(p.vc2.commitment, a, p'.vc2.commitment, a');
  }

  lemma {:induction false} CredentialBytesNested(p: CredentialProof, revealed: set<nat>, key: PublicKey, a: seq<Byte>)
    ensures CredentialBytes(p, revealed, key) + a
         == SerG1(p.aBar, false) + (SerG1(p.aPrime, false) + (SerG1(key.h0, false) + (SerG1(p.vc1.commitment, false)
            + (SerG1(p.d, false) + (SerG1(key.h0, false) + (SerPoints(Pick(key.h, Outside(|key.h|, revealed)), false)
            + (SerG1(p.vc2.commitment, false) + a)))))))
  {
    hide SerG1, SerPoints, Pick, Outside;
  }

  // ---------- Who may start ----------

  /** No state without a signature that verifies: a prover starts exactly if it has a message for each
      generator and the signature is for them, and otherwise gets the error of the check. */
  lemma CommitMeans(sig: Signature, key: PublicKey, messages: seq<ProofMessage>, coins: Coins)
    requires Usable(coins, |messages|)
    ensures var r := Commit(sig, key, messages, coins);
      && (r.Ok? <==> |messages| == |key.h| && VerifySig(sig, AllMessages(messages), key) == Ok(true))
      && (!r.Ok? ==> r.Err? && CheckSigned(sig, key, messages) == Err(r.error))
  {
    hide VerifySig, Randomize;
    CheckedMeans(sig, key, messages);
  }

  // ---------- The verifier's answer ----------

  /** The answer to a proof, whoever made it: the revealed messages in index order, exactly if the key is
      valid, the indices have generators and all equations hold under the challenge recomputed from the
      proof, the request and the nonce. Otherwise it is an error, and not a panic. */
  lemma AnswerMeans(request: ProofRequest, proof: SignatureProof, nonce: Fr)
    ensures var key, revealed := request.verificationKey, proof.revealedMessages;
      var challenge := HASH_TO_FR(CredentialBytes(proof.proof, request.revealedMessages, key) + SerFr(nonce, false));
      var answer := VerifySignaturePok(request, proof, nonce);
      && (answer.Ok? <==> key.Validate().Ok? && InRange(revealed, key) && Accepted(proof.proof, key, revealed, challenge))
      && (answer.Ok? ==> answer.value == Values(revealed))
      && (!answer.Ok? ==> answer.Err?)
      && (answer == Err(InvalidProof) <==>
            && key.Validate().Ok? && InRange(revealed, key) && !Accepted(proof.proof, key, revealed, challenge)
            && VerifyProof(proof.proof, key, revealed, challenge).Ok?)
  {
    hide VerifyVc, HiddenBases, RevealedPoint, PairingHolds, CredentialBytes;
    var key, revealed := request.verificationKey, proof.revealedMessages;
    var challenge := HASH_TO_FR(CredentialBytes(proof.proof, request.revealedMessages, key) + SerFr(nonce, false));
    SuccessMeans(proof.proof, key, revealed, challenge);
    NeverPanics(proof.proof, key, revealed, challenge);
  }

  lemma NeverPanics(p: CredentialProof, key: PublicKey, revealed: Messages, challenge: Fr)
    ensures VerifyProof(p, key, revealed, challenge) != Panic
    ensures VerifyProof(p, key, revealed, challenge) != Err(InvalidProof)
  {
    hide Msm, HiddenBases, RevealedPoint, PairingHolds;
  }

  /** Which check failed: the status or error of a proof that is not accepted. */
  lemma RefusalMeans(p: CredentialProof, key: PublicKey, revealed: Messages, challenge: Fr)
    ensures var r := VerifyProof(p, key, revealed, challenge);
      && (!key.Validate().Ok? <==> r == Err(MalformedPublicKey))
      && (key.Validate().Ok? && !InRange(revealed, key) <==> r == Err(GeneralError))
      && (key.Validate().Ok? && InRange(revealed, key) ==>
            var pairs, count := p.aPrime != 0 && PairingHolds(p.aPrime, p.aBar, key), |p.vc1.responses|;
            var first, second := VerifyVc(p.vc1, [p.aPrime, key.h0], Sub(p.aBar, p.d), challenge),
                                 VerifyVc(p.vc2, HiddenBases(p.d, key, revealed), RevealedPoint(key, revealed), challenge);
            && (r == Ok(BadSignature) <==> !pairs)
            && (r == Err(UnequalNoOfBasesExponents(2, count)) <==> pairs && count != 2)
            && (r == Ok(BadHiddenMessage) <==> pairs && first == Ok(false))
            && (r == Ok(BadRevealedMessage) <==> pairs && first == Ok(true) && second != Ok(true)))
  {
    hide Msm, HiddenBases, RevealedPoint, PairingHolds;
  }

  /** Two answers to proofs with the same points and revealed messages, under different challenges, give a
      signature that verifies over messages with the revealed ones in their places. */
  lemma AnswerSoundness(request: ProofRequest, proof: SignatureProof, nonce: Fr, proof': SignatureProof, nonce': Fr)
    requires SameCommitments(proof.proof, proof'.proof) && proof.revealedMessages == proof'.revealedMessages
    requires var bytes := CredentialBytes(proof.proof, request.revealedMessages, request.verificationKey);
      HASH_TO_FR(bytes + SerFr(nonce, false)) != HASH_TO_FR(bytes + SerFr(nonce', false))
    requires VerifySignaturePok(request, proof, nonce).Ok? && VerifySignaturePok(request, proof', nonce').Ok?
    ensures var key, revealed, p, p' := request.verificationKey, proof.revealedMessages, proof.proof, proof'.proof;
      var bytes := CredentialBytes(p, request.revealedMessages, key);
      var c, c' := HASH_TO_FR(bytes + SerFr(nonce, false)), HASH_TO_FR(bytes + SerFr(nonce', false));
      && |p.vc1.responses| == |p'.vc1.responses| == 2
      && |p.vc2.responses| == |p'.vc2.responses| == 2 + |Outside(|key.h|, revealed.entries.Keys)|
      && var (sig, messages) := ExtractCredential(p, p', key, revealed, c, c');
      && VerifySig(sig, messages, key) == (if sig.Validate().Ok? then Ok(true) else Err(MalformedSignature))
      && (forall i :: i in revealed.entries ==> i < |messages| && messages[i] == revealed.entries[i])
  {
    hide VerifyProof, Accepted, VerifySig, ExtractCredential, VerifySignaturePok;
    var key, revealed, p, p' := request.verificationKey, proof.revealedMessages, proof.proof, proof'.proof;
    SameBytesForCommitments(p, p', request.revealedMessages, key);
    AnswerMeans(request, proof, nonce);
    AnswerMeans(request, proof', nonce');
    var bytes := CredentialBytes(p, request.revealedMessages, key);
    var c, c' := HASH_TO_FR(bytes + SerFr(nonce, false)), HASH_TO_FR(bytes + SerFr(nonce', false));
    SuccessMeans(p, key, revealed, c);
    SuccessMeans(p', key, revealed, c');
    Soundness(p, p', key, revealed, c, c');
  }

  lemma SameBytesForCommitments(p: CredentialProof, p': CredentialProof, revealed: set<nat>, key: PublicKey)
    requires SameCommitments(p, p')
    ensures CredentialBytes(p, revealed, key) == CredentialBytes(p', revealed, key)
  {
  }

  /** The response of the `k`-th hidden message: the first two are not about messages. */
  lemma ResponseMeans(p: CredentialProof, k: nat)
    ensures GetRespForMessage(p, k) == Panic <==> |p.vc2.responses| < 2
    ensures GetRespForMessage(p, k) == Err(GeneralError) <==> 2 <= |p.vc2.responses| <= k + 2
    ensures |p.vc2.responses| > k + 2 ==> GetRespForMessage(p, k) == Ok(p.vc2.responses[k + 2])
  {
  }

  // ---------- Completeness ----------

  /** Prover and verifier hash the same bytes. */
  lemma SameBytes(sig: Signature, key: PublicKey, messages: seq<ProofMessage>, coins: Coins, challenge: Fr)
    requires |messages| == |key.h| && Usable(coins, |messages|)
    ensures var core := Randomize(sig, key, messages, coins);
      && ProveCredential(core, challenge).Ok?
      && CredentialBytes(ProveCredential(core, challenge).value, RevealedIndices(messages), key) == CoreBytes(core)
  {
    hide Msm;
    var core := Randomize(sig, key, messages, coins);
    SerPointsTwo(core.aPrime, key.h0, []);
    assert [core.aPrime, key.h0] + [] == [core.aPrime, key.h0];
    SerPointsTwo(core.d, key.h0, Pick(key.h, HiddenIndices(messages)));
  }

  lemma {:induction false} SerPointsTwo(p: G1, q: G1, ps: seq<G1>)
    ensures SerPoints([p, q] + ps, false) == SerG1(p, false) + SerG1(q, false) + SerPoints(ps, false)
  {
    assert ([p, q] + ps)[1..] == [q] + ps && ([q] + ps)[1..] == ps;
  }

  /** For every challenge, the proof of a prover whose signature verifies satisfies all equations. */
  lemma CredentialComplete(sig: Signature, key: PublicKey, messages: seq<ProofMessage>, coins: Coins, challenge: Fr)
    requires Usable(coins, |messages|) && CheckSigned(sig, key, messages).Ok?
    ensures InRange(RevealedMessages(messages), key)
    ensures ProveCredential(Randomize(sig, key, messages, coins), challenge).Ok?
    ensures Accepted(ProveCredential(Randomize(sig, key, messages, coins), challenge).value, key, RevealedMessages(messages), challenge)
  {
    hide Msm, B, Red, Mul, Add, Neg, Sub;
    var core, revealed := Randomize(sig, key, messages, coins), RevealedMessages(messages);
    var all := AllMessages(messages);
    var b := B(sig.s, all, key);
    SignedEquation(sig, all, key);
    RandomizedNonZero(sig, coins.r1);
    RandomizedPairing(sig, b, key, coins.r1);
    FirstRelation(sig, b, key.h0, coins.r1, coins.r2);
    SecondRelation(sig.s, key, messages, coins.r1, coins.r2);
    AcceptedIffOpening(core.pokVc1.bases, core.pokVc1.blindingFactors, core.secrets1, Sub(core.aBar, core.d), challenge);
    AcceptedIffOpening(core.pokVc2.bases, core.pokVc2.blindingFactors, core.secrets2, RevealedPoint(key, revealed), challenge);
  }

  lemma SignedEquation(sig: Signature, messages: seq<Fr>, key: PublicKey)
    requires VerifySig(sig, messages, key) == Ok(true)
    ensures Mul(sig.a, Add(sig.e, key.w)) == B(sig.s, messages, key) && sig.a != 0
  {
    hide B, Red, Mul, Add, Neg;
    PairingEquation(sig.a, sig.e, key.w, B(sig.s, messages, key));
  }

  lemma RandomizedNonZero(sig: Signature, r1: Fr)
    requires sig.a != 0 && r1 != 0
    ensures APrime(sig, r1) != 0
  {
    MulIs(sig.a, r1);
    NoZeroDivisors(sig.a, r1);
  }

  /** One credential a prover shows, with the randomness it uses. */
  datatype Showing = Showing(sig: Signature, key: PublicKey, messages: seq<ProofMessage>, coins: Coins) {

    ghost predicate Fits() {
      |messages| == |key.h| && Usable(coins, |messages|)
    }

    ghost predicate Honest() {
      Fits() && VerifySig(sig, AllMessages(messages), key) == Ok(true)
    }

    ghost function Core(): (r: Randomized)
      requires Fits()
      ensures |r.pokVc1.bases| == |r.pokVc1.blindingFactors| == |r.secrets1|
      ensures |r.pokVc2.bases| == |r.pokVc2.blindingFactors| == |r.secrets2|
    {
      Randomize(sig, key, messages, coins)
    }

    ghost function Pok(): PoKOfSignature
      requires Fits()
    {
      PoKOfSignature(Core(), RevealedMessages(messages))
    }

    ghost function Proof(challenge: Fr): SignatureProof
      requires Fits()
    {
      SignatureProof(RevealedMessages(messages), ProveCredential(Core(), challenge).value)
    }

    ghost function Request(): ProofRequest {
      ProofRequest(RevealedIndices(messages), key)
    }
  }

  lemma HonestStart(s: Showing)
    requires s.Honest()
    ensures Commit(s.sig, s.key, s.messages, s.coins) == Ok(s.Pok())
  {
    hide Randomize, B, Red, Msm;
  }

  lemma HonestAccepted(s: Showing, challenge: Fr)
    requires s.Honest()
    ensures ProveCredential(s.Core(), challenge).Ok?
    ensures VerifyProof(s.Proof(challenge).proof, s.key, RevealedMessages(s.messages), challenge) == Ok(Success)
  {
    hide Msm, B, Red, Mul, Add, Neg, Sub;
    CredentialComplete(s.sig, s.key, s.messages, s.coins, challenge);
  }

  /** Selective disclosure is complete: a prover whose signature verifies, asked for exactly the
      messages it reveals, convinces the verifier, who recomputes the challenge from the proof and
      gets the revealed messages in index order. */
  lemma Completeness(s: Showing, nonce: Fr)
    requires s.Honest()
    ensures Commit(s.sig, s.key, s.messages, s.coins) == Ok(s.Pok())
    ensures VerifySignaturePok(s.Request(), s.Proof(HASH_TO_FR(CoreBytes(s.Core()) + SerFr(nonce, false))), nonce)
         == Ok(Pick(AllMessages(s.messages), Inside(|s.messages|, RevealedIndices(s.messages))))
  {
    hide Randomize, ProveCredential, VerifyProof, CoreBytes, CredentialBytes, VerifySig, Commit;
    var challenge := HASH_TO_FR(CoreBytes(s.Core()) + SerFr(nonce, false));
    HonestStart(s);
    SameBytes(s.sig, s.key, s.messages, s.coins, challenge);
    HonestAccepted(s, challenge);
  }

  /** The same with the challenge the prover takes over its own state, without claims: it is the one the
      verifier recomputes. */
  lemma CompletenessAlone(s: Showing, nonce: Fr)
    requires s.Honest()
    ensures var challenge := ChallengeOver(ProverBytes([s.Pok()]), nonce, None);
      && challenge == HASH_TO_FR(CoreBytes(s.Core()) + SerFr(nonce, false))
      && VerifySignaturePok(s.Request(), s.Proof(challenge), nonce)
         == Ok(Pick(AllMessages(s.messages), Inside(|s.messages|, RevealedIndices(s.messages))))
  {
    hide Randomize, ProveCredential, VerifySignaturePok, CoreBytes, VerifySig, Commit, SerFr;
    AloneBytes(s.Pok(), nonce);
    Completeness(s, nonce);
  }

  lemma {:induction false} AloneBytes(pok: PoKOfSignature, nonce: Fr)
    ensures HashedBytes(ProverBytes([pok]), nonce, None) == CoreBytes(pok.core) + SerFr(nonce, false)
  {
    hide CoreBytes, SerFr;
    assert [pok][..0] == [];
  }

  /** Provers' states, proofs and requests for credentials shown together. */
  ghost predicate Shown(showings: seq<Showing>, poks: seq<PoKOfSignature>, proofs: seq<SignatureProof>,
                        requests: seq<ProofRequest>, challenge: Fr)
  {
    && |poks| == |proofs| == |requests| == |showings|
    && forall i :: 0 <= i < |showings| ==>
         && showings[i].Honest() && poks[i] == showings[i].Pok()
         && proofs[i] == showings[i].Proof(challenge) && requests[i] == showings[i].Request()
  }

  lemma {:induction false} JointBytes(showings: seq<Showing>, poks: seq<PoKOfSignature>, proofs: seq<SignatureProof>,
                                      requests: seq<ProofRequest>, challenge: Fr, n: nat)
    requires Shown(showings, poks, proofs, requests, challenge) && n <= |showings|
    ensures ProverBytes(poks[..n]) == VerifierBytes(proofs, requests, n)
  {
    hide CoreBytes, CredentialBytes, Randomize, VerifySig, ProveCredential;
    if n > 0 {
      JointBytes(showings, poks, proofs, requests, challenge, n - 1);
      assert poks[..n][..n - 1] == poks[..n - 1];
      var s := showings[n - 1];
      assert poks[n - 1] == s.Pok();
      SameBytes(s.sig, s.key, s.messages, s.coins, challenge);
    }
  }

  /** Any number of credentials shown together under one challenge and the same claims: the
      verifier recomputes the prover's challenge, and every proof is accepted under it. */
  lemma {:induction false} JointCompleteness(showings: seq<Showing>, poks: seq<PoKOfSignature>, proofs: seq<SignatureProof>,
                          requests: seq<ProofRequest>, nonce: Fr, claims: Option<seq<seq<Byte>>>, i: nat)
    requires Shown(showings, poks, proofs, requests, ChallengeOver(ProverBytes(poks), nonce, claims))
    ensures ChallengeOver(VerifierBytes(proofs, requests, |requests|), nonce, claims)
         == ChallengeOver(ProverBytes(poks), nonce, claims)
    ensures i < |proofs| ==>
      VerifyProof(proofs[i].proof, requests[i].verificationKey, proofs[i].revealedMessages,
                  ChallengeOver(VerifierBytes(proofs, requests, |requests|), nonce, claims)) == Ok(Success)
  {
    hide ProverBytes, VerifierBytes, Randomize, ProveCredential, VerifySig, VerifyProof, ChallengeOver;
    var challenge := ChallengeOver(ProverBytes(poks), nonce, claims);
    JointBytes(showings, poks, proofs, requests, challenge, |poks|);
    assert poks[..|poks|] == poks;
    if i < |proofs| {
      HonestAccepted(showings[i], challenge);
      assert requests[i] == showings[i].Request();
    }
  }

  /** The one status that means acceptance, spelled out. */
  lemma SuccessMeans(p: CredentialProof, key: PublicKey, revealed: Messages, challenge: Fr)
    ensures VerifyProof(p, key, revealed, challenge) == Ok(Success)
       <==> key.Validate().Ok? && InRange(revealed, key) && Accepted(p, key, revealed, challenge)
  {
    hide VerifyVc, HiddenBases, RevealedPoint, PairingHolds;
  }

  /** Special soundness: two proofs with the same commitments, accepted under different challenges,
      give a signature that verifies (unless a component is degenerate) over messages that have the
      revealed ones in their places. */
  lemma Soundness(p: CredentialProof, p': CredentialProof, key: PublicKey, revealed: Messages, c: Fr, c': Fr)
    requires c != c' && SameCommitments(p, p')
    requires VerifyProof(p, key, revealed, c) == VerifyProof(p', key, revealed, c') == Ok(Success)
    ensures |p.vc1.responses| == |p'.vc1.responses| == 2
    ensures |p.vc2.responses| == |p'.vc2.responses| == 2 + |Outside(|key.h|, revealed.entries.Keys)|
    ensures var (sig, messages) := ExtractCredential(p, p', key, revealed, c, c');
      && VerifySig(sig, messages, key) == (if sig.Validate().Ok? then Ok(true) else Err(MalformedSignature))
      && (forall i :: i in revealed.entries ==> i < |messages| && messages[i] == revealed.entries[i])
  {
    hide VerifyVc, HiddenBases, RevealedPoint, PairingHolds, VerifyProof, Accepted, VerifySig, ExtractCredential;
    SuccessMeans(p, key, revealed, c);
    SuccessMeans(p', key, revealed, c');
    CredentialSoundness(p, p', key, revealed, c, c');
  }

  // ---------- Linking credentials ----------

  /** The response at place `k` belongs to the `k`-th hidden message in index order. */
  lemma ResponseOfHidden(sig: Signature, key: PublicKey, messages: seq<ProofMessage>, coins: Coins, challenge: Fr, k: nat)
    requires |messages| == |key.h| && Usable(coins, |messages|)
    ensures ProveCredential(Randomize(sig, key, messages, coins), challenge).Ok?
    ensures var proof, hidden := ProveCredential(Randomize(sig, key, messages, coins), challenge).value, HiddenIndices(messages);
      GetRespForMessage(proof, k) ==
        if k >= |hidden| then Err(GeneralError)
        else var i := hidden[k];
          Ok(Response(Factors(messages, coins.messages)[i], challenge, messages[i].GetMessage()))
  {
    hide Msm, Red, Mul, Sub;
  }

  /** Equal messages with equal external blinding factors have equal responses under one challenge,
      in whichever two credentials and at whichever places they are hidden. */
  lemma LinkComplete(sig: Signature, key: PublicKey, messages: seq<ProofMessage>, coins: Coins, k: nat,
                     sig': Signature, key': PublicKey, messages': seq<ProofMessage>, coins': Coins, k': nat, challenge: Fr)
    requires |messages| == |key.h| && Usable(coins, |messages|) && k < |HiddenIndices(messages)|
    requires |messages'| == |key'.h| && Usable(coins', |messages'|) && k' < |HiddenIndices(messages')|
    requires messages[HiddenIndices(messages)[k]].ExternalBlinding?
    requires messages[HiddenIndices(messages)[k]] == messages'[HiddenIndices(messages')[k']]
    ensures var p, p' := ProveCredential(Randomize(sig, key, messages, coins), challenge),
                         ProveCredential(Randomize(sig', key', messages', coins'), challenge);
      p.Ok? && p'.Ok? && GetRespForMessage(p.value, k).Ok? && GetRespForMessage(p.value, k) == GetRespForMessage(p'.value, k')
  {
    hide Msm, Red, Mul, Sub;
    ResponseOfHidden(sig, key, messages, coins, challenge, k);
    ResponseOfHidden(sig', key', messages', coins', challenge, k');
  }

  /** Two credentials whose responses at places `k` and `k'` agree under two challenges hide the
      same message there: both extracted signatures satisfy their equations, with equal messages. */
  lemma LinkSound(p1: CredentialProof, p2: CredentialProof, key: PublicKey, revealed: Messages, k: nat,
                  q1: CredentialProof, q2: CredentialProof, key': PublicKey, revealed': Messages, k': nat, c: Fr, c': Fr)
    requires c != c' && InRange(revealed, key) && InRange(revealed', key')
    requires SameCommitments(p1, p2) && Accepted(p1, key, revealed, c) && Accepted(p2, key, revealed, c')
    requires SameCommitments(q1, q2) && Accepted(q1, key', revealed', c) && Accepted(q2, key', revealed', c')
    requires GetRespForMessage(p1, k).Ok? && GetRespForMessage(q1, k').Ok?
    requires GetRespForMessage(p1, k) == GetRespForMessage(q1, k') && GetRespForMessage(p2, k) == GetRespForMessage(q2, k')
    ensures |p1.vc1.responses| == |p2.vc1.responses| == |q1.vc1.responses| == |q2.vc1.responses| == 2
    ensures |p1.vc2.responses| == |p2.vc2.responses| == 2 + |Outside(|key.h|, revealed.entries.Keys)|
    ensures |q1.vc2.responses| == |q2.vc2.responses| == 2 + |Outside(|key'.h|, revealed'.entries.Keys)|
    ensures
      var (sig, messages) := ExtractCredential(p1, p2, key, revealed, c, c');
      var (sig', messages') := ExtractCredential(q1, q2, key', revealed', c, c');
      && Mul(sig.a, Add(sig.e, key.w)) == B(sig.s, messages, key)
      && Mul(sig'.a, Add(sig'.e, key'.w)) == B(sig'.s, messages', key')
      && messages[Outside(|key.h|, revealed.entries.Keys)[k]] == messages'[Outside(|key'.h|, revealed'.entries.Keys)[k']]
  {
    hide Msm, Red, Mul, Sub, Add, B;
    CredentialEquation(p1, p2, key, revealed, c, c');
    CredentialEquation(q1, q2, key', revealed', c, c');
    ExtractedAt(p1, p2, key, revealed, k, c, c');
    ExtractedAt(q1, q2, key', revealed', k', c, c');
  }

  lemma ExtractedAt(p1: CredentialProof, p2: CredentialProof, key: PublicKey, revealed: Messages, k: nat, c: Fr, c': Fr)
    requires c != c' && |p1.vc1.responses| == |p2.vc1.responses| == 2
    requires |p1.vc2.responses| == |p2.vc2.responses| == 2 + |Outside(|key.h|, revealed.entries.Keys)|
    requires k < |Outside(|key.h|, revealed.entries.Keys)|
    ensures ExtractCredential(p1, p2, key, revealed, c, c').1[Outside(|key.h|, revealed.entries.Keys)[k]]
         == ExtractOne(p1.vc2.responses[2 + k], p2.vc2.responses[2 + k], c, c')
  {
    var hidden := Outside(|key.h|, revealed.entries.Keys);
    var u := Extract(p1.vc2.responses, p2.vc2.responses, c, c');
    PlaceHidden(|key.h|, revealed, u[2..]);
    assert Pick(Place(|key.h|, revealed, u[2..]), hidden)[k] == u[2..][k];
  }
}
