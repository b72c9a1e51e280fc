/** Proof of knowledge of the values committed to in a vector Pedersen commitment. */
module PokVc {
  import opened PrimeField
  import opened Group
  import opened Results
  import opened Encoding

  /** Collects bases and blinding factors, one pair per committed value. */
  class ProverCommittingG1 {
    var bases: seq<G1>
    var blindingFactors: seq<Fr>

    ghost predicate Valid()
      reads this
    {
      |bases| == |blindingFactors|
    }

    constructor ()
      ensures Valid() && bases == [] && blindingFactors == []
    {
      bases := [];
      blindingFactors := [];
    }

    /** Commits to a value with a freshly drawn factor `r`, which is never zero. */
    method Commit(base: G1, r: Fr) returns (idx: nat)
      requires Valid() && r != 0
      modifies this
      ensures Valid() && idx == |old(bases)|
      ensures bases == old(bases) + [base] && blindingFactors == old(blindingFactors) + [r]
    {
      idx := |bases|;
      bases := bases + [base];
      blindingFactors := blindingFactors + [r];
    }

    /** Commits to a value with a factor the caller supplies. */
    method CommitWith(base: G1, blindingFactor: Fr) returns (idx: nat)
      requires Valid()
      modifies this
      ensures Valid() && idx == |old(bases)|
      ensures bases == old(bases) + [base] && blindingFactors == old(blindingFactors) + [blindingFactor]
    {
      idx := |bases|;
      bases := bases + [base];
      blindingFactors := blindingFactors + [blindingFactor];
    }

    method Finish() returns (committed: ProverCommittedG1)
      requires Valid()
      ensures committed == Committed(bases, blindingFactors)
    {
      committed := ProverCommittedG1(bases, blindingFactors, Msm(bases, blindingFactors));
    }
  }

  datatype ProverCommittedG1 = ProverCommittedG1(bases: seq<G1>, blindingFactors: seq<Fr>, commitment: G1)

  datatype ProofG1 = ProofG1(commitment: G1, responses: seq<Fr>)

  function Committed(bases: seq<G1>, blindingFactors: seq<Fr>): ProverCommittedG1 {
    ProverCommittedG1(bases, blindingFactors, Msm(bases, blindingFactors))
  }

  /** What one response is meant to be: the blinding factor minus challenge times secret. */
  function Response(blinding: Fr, challenge: Fr, secret: Fr): Fr {
    Sub(blinding, Mul(challenge, secret))
  }

  function Responses(blindings: seq<Fr>, challenge: Fr, secrets: seq<Fr>): (r: seq<Fr>)
    requires |blindings| == |secrets|
    ensures |r| == |secrets|
  {
    seq(|secrets|, i requires 0 <= i < |secrets| => Response(blindings[i], challenge, secrets[i]))
  }

  /** The proof a committed prover gives; an error unless there is one secret for each base. */
  function Prove(committed: ProverCommittedG1, challenge: Fr, secrets: seq<Fr>): Result<ProofG1>
    requires |committed.bases| == |committed.blindingFactors|
  {
    if |secrets| != |committed.bases| then
      Err(UnequalNoOfBasesExponents(|committed.bases|, |secrets|))
    else
      Ok(ProofG1(committed.commitment, Responses(committed.blindingFactors, challenge, secrets)))
  }

  /** A proof exactly if there is one secret for each base: the prover's commitment, and for each base its
      factor less challenge times secret. */
  lemma {:induction false} ProveMeans(committed: ProverCommittedG1, challenge: Fr, secrets: seq<Fr>, proof: ProofG1)
    requires |committed.bases| == |committed.blindingFactors|
    ensures Prove(committed, challenge, secrets) == Ok(proof) <==>
      && |secrets| == |committed.bases| == |proof.responses| && proof.commitment == committed.commitment
      && forall i :: 0 <= i < |secrets| ==>
           proof.responses[i] == Sub(committed.blindingFactors[i], Mul(challenge, secrets[i]))
    ensures !Prove(committed, challenge, secrets).Ok? <==>
      Prove(committed, challenge, secrets) == Err(UnequalNoOfBasesExponents(|committed.bases|, |secrets|))
  {
    hide Sub, Mul;
    if |secrets| == |committed.bases| {
      var r := Responses(committed.blindingFactors, challenge, secrets);
      assert proof.responses == r <==> |proof.responses| == |r| && forall i :: 0 <= i < |r| ==> proof.responses[i] == r[i];
    }
  }

  method GenProof(committed: ProverCommittedG1, challenge: Fr, secrets: seq<Fr>) returns (result: Result<ProofG1>)
    requires |committed.bases| == |committed.blindingFactors|
    ensures result == Prove(committed, challenge, secrets)
  {
    if |secrets| != |committed.bases| {
      return Err(UnequalNoOfBasesExponents(|committed.bases|, |secrets|));
    }
    var responses: seq<Fr> := [];
    for i := 0 to |committed.bases|
      invariant |responses| == i
      invariant forall j :: 0 <= j < i ==> responses[j] == Response(committed.blindingFactors[j], challenge, secrets[j])
    {
      var c := challenge;
      c := Mul(c, secrets[i]);
      var s := committed.blindingFactors[i];
      s := Sub(s, c);
      responses := responses + [s];
    }
    assert responses == Responses(committed.blindingFactors, challenge, secrets);
    return Ok(ProofG1(committed.commitment, responses));
  }

  /** Recomputes the prover's random commitment from the responses. */
  function ChallengeContribution(proof: ProofG1, bases: seq<G1>, commitment: G1, challenge: Fr): Result<G1> {
    if |bases| != |proof.responses| then
      Err(UnequalNoOfBasesExponents(|bases|, |proof.responses|))
    else
      Ok(Msm(bases + [commitment], proof.responses + [challenge]))
  }

  function VerifyVc(proof: ProofG1, bases: seq<G1>, commitment: G1, challenge: Fr): Result<bool> {
    var pr :- ChallengeContribution(proof, bases, commitment, challenge);
    Ok(Sub(pr, proof.commitment) == 0)
  }

  /** `verify_complete_proof`: the recomputed random commitment and the recomputed challenge must both
      be the ones given. */
  function VerifyComplete(proof: ProofG1, bases: seq<G1>, commitment: G1, challenge: Fr, nonce: seq<Byte>): Result<bool> {
    var pr :- ChallengeContribution(proof, bases, commitment, challenge);
    var hash := HASH_TO_FR(SerPoints(bases, false) + SerG1(pr, false) + SerG1(commitment, false) + nonce);
    Ok(Sub(pr, proof.commitment) == 0 && Sub(hash, challenge) == 0)
  }

  /** `ProverCommittedG1::to_bytes`: the bases, then the random commitment. */
  function CommittedBytes(committed: ProverCommittedG1): seq<Byte> {
    SerPoints(committed.bases, false) + SerG1(committed.commitment, false)
  }

  // ---------- Acceptance as an equation ----------

  lemma {:induction false} VerifyEquation(proof: ProofG1, bases: seq<G1>, commitment: G1, challenge: Fr)
    requires |bases| == |proof.responses|
    ensures VerifyVc(proof, bases, commitment, challenge)
         == Ok(Red(Dot(bases, proof.responses) + commitment * challenge) == proof.commitment)
  {
    hide Msm, Dot, Red, Sub;
    MsmIsDot(bases + [commitment], proof.responses + [challenge]);
    DotSnoc(bases, proof.responses, commitment, challenge);
    DistinctDifference(Msm(bases + [commitment], proof.responses + [challenge]), proof.commitment);
  }

  lemma {:induction false} ResponsesDot(bases: seq<G1>, blindings: seq<Fr>, challenge: Fr, secrets: seq<Fr>)
    requires |bases| == |blindings| == |secrets|
    ensures Red(Dot(bases, Responses(blindings, challenge, secrets)))
         == Red(Dot(bases, blindings) - challenge * Dot(bases, secrets))
  {
    var c: int := 0 - challenge;
    var r, z := Responses(blindings, challenge, secrets), Combine(blindings, c, secrets);
    forall i | 0 <= i < |r| ensures Red(r[i]) == Red(z[i]) {
      ResponseCongruent(blindings[i], challenge, secrets[i]);
    }
    DotCongruent(bases, r, z);
    DotLinear(bases, blindings, c, secrets);
    Negate(challenge, Dot(bases, secrets));
  }

  lemma {:induction false} ResponseCongruent(k: Fr, c: Fr, s: Fr)
    ensures Red(Response(k, c, s)) == Red(k + (0 - c) * s)
  {
    hide Mul;
    var m: int := c * s;
    MulIs(c, s);
    CongruentSub(k, k, Red(m), m);
    Negate(c, s);
  }

  /** Completeness of one equation, over the integers. */
  lemma OpeningAlgebra(d: int, k: int, w: int, c: int, commitment: int)
    requires Red(d) == Red(k - c * w)
    ensures Red(d + commitment * c) == Red(k) <==> Red(c) == 0 || Red(commitment) == Red(w)
  {
    CongruentAdd(d, k - c * w, commitment * c, commitment * c);
    var left := k - c * w + commitment * c;
    assert left - k == c * (commitment - w);
    ZeroDifference(left, k);
    NoZeroDivisors(c, commitment - w);
    ZeroDifference(commitment, w);
  }

  /** A generated proof is accepted exactly when the challenge is zero or the secrets open the
      commitment the verifier checks against. */
  lemma {:induction false} AcceptedIffOpening(bases: seq<G1>, blindings: seq<Fr>, secrets: seq<Fr>, commitment: G1, challenge: Fr)
    requires |bases| == |blindings| == |secrets|
    ensures Prove(Committed(bases, blindings), challenge, secrets).Ok?
    ensures VerifyVc(Prove(Committed(bases, blindings), challenge, secrets).value, bases, commitment, challenge)
         == Ok(challenge == 0 || commitment == Msm(bases, secrets))
  {
    var responses := Responses(blindings, challenge, secrets);
    VerifyEquation(ProofG1(Msm(bases, blindings), responses), bases, commitment, challenge);
    ResponsesDot(bases, blindings, challenge, secrets);
    MsmIsDot(bases, blindings);
    MsmIsDot(bases, secrets);
    OpeningAlgebra(Dot(bases, responses), Dot(bases, blindings), Dot(bases, secrets), challenge, commitment);
  }

  /** A complete proof of an opening is accepted when its challenge is the hash the prover takes;
      otherwise a complete proof is refused. */
  lemma {:induction false} CompleteProofAccepted(bases: seq<G1>, blindings: seq<Fr>, secrets: seq<Fr>, challenge: Fr, nonce: seq<Byte>)
    requires |bases| == |blindings| == |secrets|
    ensures var committed, commitment := Committed(bases, blindings), Msm(bases, secrets);
      var proof := Prove(committed, challenge, secrets);
      && proof.Ok?
      && VerifyComplete(proof.value, bases, commitment, challenge, nonce)
         == Ok(HASH_TO_FR(CommittedBytes(committed) + SerG1(commitment, false) + nonce) == challenge)
  {
    var committed, commitment := Committed(bases, blindings), Msm(bases, secrets);
    var proof := Prove(committed, challenge, secrets).value;
    AcceptedIffOpening(bases, blindings, secrets, commitment, challenge);
    var pr := ChallengeContribution(proof, bases, commitment, challenge).value;
    DistinctDifference(pr, proof.commitment);
    DistinctDifference(HASH_TO_FR(CommittedBytes(committed) + SerG1(commitment, false) + nonce), challenge);
  }

  // ---------- Special soundness ----------

  /** The witness two transcripts give away: the difference of the responses divided by the
      difference of the challenges. */
  function ExtractOne(response: Fr, response': Fr, challenge: Fr, challenge': Fr): Fr
    requires challenge != challenge'
  {
    DistinctDifference(challenge', challenge);
    InverseIsInverse(Sub(challenge', challenge));
    Mul(Inverse(Sub(challenge', challenge)).value, Sub(response, response'))
  }

  function Extract(responses: seq<Fr>, responses': seq<Fr>, challenge: Fr, challenge': Fr): (w: seq<Fr>)
    requires |responses| == |responses'| && challenge != challenge'
    ensures |w| == |responses|
  {
    seq(|responses|, i requires 0 <= i < |responses| => ExtractOne(responses[i], responses'[i], challenge, challenge'))
  }

  lemma DistinctDifference(x: Fr, y: Fr)
    ensures Sub(x, y) == 0 <==> x == y
  {
    ZeroDifference(x, y);
  }

  /** Each extracted value times the difference of the challenges is the difference of the responses. */
  lemma {:induction false} ExtractOneLaw(response: Fr, response': Fr, challenge: Fr, challenge': Fr)
    requires challenge != challenge'
    ensures Red((challenge' - challenge) * ExtractOne(response, response', challenge, challenge'))
         == Red(response - response')
  {
    DistinctDifference(challenge', challenge);
    InverseIsInverse(Sub(challenge', challenge));
    DivideLaw(challenge' - challenge, Inverse(Sub(challenge', challenge)).value, response - response');
  }

  lemma {:induction false} DivideLaw(d: int, i: Fr, z: int)
    requires Red(Red(d) * i) == 1
    ensures Red(d * Mul(i, Red(z))) == Red(z)
  {
    hide Mul;
    MulIs(i, Red(z));
    CongruentMul(i, i, Red(z), z);
    CongruentMul(d, Red(d), Red(i * Red(z)), i * z);
    Associate(Red(d), i, z);
    CongruentMul(Red(d) * i, 1, z, z);
  }

  lemma {:induction false} ScaledDifference(bases: seq<int>, r: seq<int>, r': seq<int>, w: seq<int>, d: int)
    requires |bases| == |r| == |r'| == |w|
    requires forall i :: 0 <= i < |w| ==> Red(d * w[i]) == Red(r[i] - r'[i])
    ensures Red(d * Dot(bases, w)) == Red(Dot(bases, r) - Dot(bases, r'))
  {
    DotCongruent(bases, Scale(d, w), Combine(r, -1, r'));
    DotScale(bases, d, w);
    DotLinear(bases, r, -1, r');
  }

  lemma {:induction false} ExtractedDifference(bases: seq<G1>, r: seq<Fr>, r': seq<Fr>, c: Fr, c': Fr)
    requires |bases| == |r| == |r'| && c != c'
    ensures Red((c' - c) * Dot(bases, Extract(r, r', c, c'))) == Red(Dot(bases, r) - Dot(bases, r'))
  {
    var w := Extract(r, r', c, c');
    var d: int := c' - c;
    forall i | 0 <= i < |w| ensures Red(d * w[i]) == Red((r[i] as int) - r'[i]) {
      ExtractOneLaw(r[i], r'[i], c, c');
    }
    ScaledDifference(bases, r, r', w, d);
  }

  /** Two equations with one right-hand side and different challenges determine the commitment. */
  lemma TwoEquations(x: int, x': int, c: int, c': int, commitment: int, w: int)
    requires Red(x + commitment * c) == Red(x' + commitment * c')
    requires Red((c' - c) * w) == Red(x - x') && Red(c' - c) != 0
    ensures Red(w) == Red(commitment)
  {
    var shift := x' + commitment * c;
    CongruentSub(x + commitment * c, x' + commitment * c', shift, shift);
    Distribute(c', c, commitment);
    Cancel(c' - c, w, commitment);
  }

  /** Two accepting transcripts with one random commitment and different challenges open the
      commitment: the extracted witness satisfies the relation. */
  lemma {:induction false} SpecialSoundness(proof: ProofG1, proof': ProofG1, bases: seq<G1>, commitment: G1, c: Fr, c': Fr)
    requires c != c' && proof.commitment == proof'.commitment
    requires VerifyVc(proof, bases, commitment, c) == Ok(true)
    requires VerifyVc(proof', bases, commitment, c') == Ok(true)
    ensures |proof.responses| == |proof'.responses| == |bases|
    ensures Msm(bases, Extract(proof.responses, proof'.responses, c, c')) == commitment
  {
    AcceptedHasResponses(proof, bases, commitment, c);
    AcceptedHasResponses(proof', bases, commitment, c');
    var r, r' := proof.responses, proof'.responses;
    var w := Extract(r, r', c, c');
    ExtractedDifference(bases, r, r', c, c');
    VerifyEquation(proof, bases, commitment, c);
    VerifyEquation(proof', bases, commitment, c');
    DistinctDifference(c', c);
    TwoEquations(Dot(bases, r), Dot(bases, r'), c, c', commitment, Dot(bases, w));
    MsmIsDot(bases, w);
  }

  // ---------- Perfect hiding ----------

  /** The blinding factors under which a witness explains given responses. */
  function Explain(responses: seq<Fr>, challenge: Fr, secrets: seq<Fr>): (k: seq<Fr>)
    requires |responses| == |secrets|
    ensures |k| == |secrets|
  {
    seq(|secrets|, i requires 0 <= i < |secrets| => Add(responses[i], Mul(challenge, secrets[i])))
  }

  lemma {:induction false} ResponseInverse(k: Fr, c: Fr, s: Fr, r: Fr)
    ensures Response(k, c, s) == r <==> k == Add(r, Mul(c, s))
  {
    var m := Mul(c, s);
    if Response(k, c, s) == r {
      CongruentAdd(Red(k - m), k - m, m, m);
    }
    if k == Add(r, m) {
      CongruentSub(Red(r + m), r + m, m, m);
    }
  }

  lemma ExplainIsInverse(blindings: seq<Fr>, challenge: Fr, secrets: seq<Fr>, responses: seq<Fr>)
    requires |blindings| == |secrets| == |responses|
    ensures Responses(blindings, challenge, secrets) == responses <==> blindings == Explain(responses, challenge, secrets)
  {
    forall i | 0 <= i < |secrets|
      ensures Response(blindings[i], challenge, secrets[i]) == responses[i]
         <==> blindings[i] == Add(responses[i], Mul(challenge, secrets[i]))
    {
      ResponseInverse(blindings[i], challenge, secrets[i], responses[i]);
    }
    if Responses(blindings, challenge, secrets) == responses {
      forall i | 0 <= i < |secrets| ensures blindings[i] == Explain(responses, challenge, secrets)[i] {
        assert Responses(blindings, challenge, secrets)[i] == responses[i];
      }
      assert blindings == Explain(responses, challenge, secrets);
    }
    if blindings == Explain(responses, challenge, secrets) {
      forall i | 0 <= i < |secrets| ensures Responses(blindings, challenge, secrets)[i] == responses[i] {
        assert blindings[i] == Explain(responses, challenge, secrets)[i];
      }
      assert Responses(blindings, challenge, secrets) == responses;
    }
  }

  /** For a witness of the statement, an accepting transcript comes from one vector of blinding
      factors and no other, so no transcript tells two witnesses apart. */
  lemma {:induction false} PerfectHiding(bases: seq<G1>, secrets: seq<Fr>, challenge: Fr, proof: ProofG1, blindings: seq<Fr>)
    requires |bases| == |secrets| == |proof.responses| == |blindings|
    requires VerifyVc(proof, bases, Msm(bases, secrets), challenge) == Ok(true)
    ensures Prove(Committed(bases, blindings), challenge, secrets) == Ok(proof)
       <==> blindings == Explain(proof.responses, challenge, secrets)
  {
    ExplainIsInverse(blindings, challenge, secrets, proof.responses);
    if blindings == Explain(proof.responses, challenge, secrets) {
      AcceptedIffOpening(bases, blindings, secrets, Msm(bases, secrets), challenge);
      SameResponsesSameCommitment(proof, ProofG1(Msm(bases, blindings), proof.responses), bases, Msm(bases, secrets), challenge);
    }
  }

  lemma SameResponsesSameCommitment(proof: ProofG1, proof': ProofG1, bases: seq<G1>, commitment: G1, challenge: Fr)
    requires proof.responses == proof'.responses
    requires VerifyVc(proof, bases, commitment, challenge) == VerifyVc(proof', bases, commitment, challenge) == Ok(true)
    ensures proof == proof'
  {
    VerifyEquation(proof, bases, commitment, challenge);
    VerifyEquation(proof', bases, commitment, challenge);
  }

  /** Some vector of blinding factors makes a prover with these secrets send this proof. */
  ghost predicate Explained(bases: seq<G1>, secrets: seq<Fr>, challenge: Fr, proof: ProofG1)
    requires |bases| == |secrets|
  {
    exists k: seq<Fr> :: |k| == |bases| && Prove(Committed(bases, k), challenge, secrets) == Ok(proof)
  }

  /** A prover can send exactly the proofs that verify, whichever witness it holds: any two
      witnesses of one statement can give exactly the same transcripts. */
  lemma {:induction false} ExplainedIffAccepted(bases: seq<G1>, secrets: seq<Fr>, challenge: Fr, proof: ProofG1)
    requires |bases| == |secrets|
    ensures Explained(bases, secrets, challenge, proof)
       <==> VerifyVc(proof, bases, Msm(bases, secrets), challenge) == Ok(true)
  {
    if k: seq<Fr> :| |k| == |bases| && Prove(Committed(bases, k), challenge, secrets) == Ok(proof) {
      AcceptedIffOpening(bases, k, secrets, Msm(bases, secrets), challenge);
    }
    if VerifyVc(proof, bases, Msm(bases, secrets), challenge) == Ok(true) {
      AcceptedHasResponses(proof, bases, Msm(bases, secrets), challenge);
      var k' := Explain(proof.responses, challenge, secrets);
      PerfectHiding(bases, secrets, challenge, proof, k');
    }
  }

  /** The same with factors as `commit` draws them, all non-zero. */
  ghost predicate ExplainedByDraw(bases: seq<G1>, secrets: seq<Fr>, challenge: Fr, proof: ProofG1)
    requires |bases| == |secrets|
  {
    exists k: seq<Fr> :: |k| == |bases| && 0 !in k && Prove(Committed(bases, k), challenge, secrets) == Ok(proof)
  }

  /** A prover that draws its factors can send exactly the proofs that verify and for which its witness
      explains no response by the factor zero. */
  lemma {:induction false} DrawnIffAccepted(bases: seq<G1>, secrets: seq<Fr>, challenge: Fr, proof: ProofG1)
    requires |bases| == |secrets|
    ensures ExplainedByDraw(bases, secrets, challenge, proof)
       <==> VerifyVc(proof, bases, Msm(bases, secrets), challenge) == Ok(true)
            && |proof.responses| == |secrets| && 0 !in Explain(proof.responses, challenge, secrets)
  {
    hide Explain, VerifyVc, Prove;
    if k: seq<Fr> :| |k| == |bases| && 0 !in k && Prove(Committed(bases, k), challenge, secrets) == Ok(proof) {
      assert Explained(bases, secrets, challenge, proof);
      ExplainedIffAccepted(bases, secrets, challenge, proof);
      AcceptedHasResponses(proof, bases, Msm(bases, secrets), challenge);
      PerfectHiding(bases, secrets, challenge, proof, k);
    }
    if VerifyVc(proof, bases, Msm(bases, secrets), challenge) == Ok(true)
       && |proof.responses| == |secrets| && 0 !in Explain(proof.responses, challenge, secrets) {
      var k' := Explain(proof.responses, challenge, secrets);
      PerfectHiding(bases, secrets, challenge, proof, k');
    }
  }

  lemma AcceptedHasResponses(proof: ProofG1, bases: seq<G1>, commitment: G1, challenge: Fr)
    requires VerifyVc(proof, bases, commitment, challenge).Ok?
    ensures |proof.responses| == |bases|
  {
  }
}
