/** Blind issuance: the holder commits to the messages it hides and proves that it knows them, the
    issuer signs the commitment together with the messages it knows, and the holder unblinds. */
module Issuance {
  import opened PrimeField
  import opened Group
  import opened Results
  import opened Encoding
  import opened Selection
  import opened PokVc
  import opened Signatures

  class CommitmentBuilder {
    var bases: seq<G1>
    var scalars: seq<Fr>

    constructor ()
      ensures bases == [] && scalars == []
    {
      bases := [];
      scalars := [];
    }

    method Add(base: G1, scalar: Fr)
      modifies this
      ensures bases == old(bases) + [base] && scalars == old(scalars) + [scalar]
    {
      bases := bases + [base];
      scalars := scalars + [scalar];
    }

    method Finalize() returns (commitment: G1)
      ensures commitment == Msm(bases, scalars)
    {
      commitment := Msm(bases, scalars);
    }
  }

  datatype BlindSignature = BlindSignature(a: G1, e: Fr, s: Fr) {
    function ToUnblinded(blinding: Fr): Signature {
      Signature(a, e, PrimeField.Add(s, blinding))
    }
  }

  datatype BlindSignatureContext = BlindSignatureContext(challengeHash: Fr, commitment: G1, proof: ProofG1)

  // ---------- The holder commits ----------

  /** The first key that has no generator. */
  function FirstBeyond(keys: seq<nat>, n: nat): (r: Option<nat>)
    ensures r.None? <==> forall i :: 0 <= i < |keys| ==> keys[i] < n
  {
    if keys == [] then None else if keys[0] >= n then Some(keys[0]) else
      assert forall i :: 1 <= i < |keys| ==> keys[i] == keys[1..][i - 1];
      FirstBeyond(keys[1..], n)
  }

  lemma {:induction false} FirstBeyondAt(keys: seq<nat>, n: nat, j: nat)
    requires j < |keys| && keys[j] >= n && forall i :: 0 <= i < j ==> keys[i] < n
    ensures FirstBeyond(keys, n) == Some(keys[j])
  {
    if j > 0 {
      FirstBeyondAt(keys[1..], n, j - 1);
    }
  }

  /** The bytes behind the challenge of issuance. */
  function ContextBytes(bases: seq<G1>, random: G1, commitment: G1, nonce: Fr): seq<Byte> {
    SerPoints(bases, false) + SerG1(random, false) + SerG1(commitment, false) + SerFr(nonce, false)
  }

  /** The context a holder of `secrets` makes over `bases` with its random factors. */
  function ContextOver(bases: seq<G1>, secrets: seq<Fr>, nonce: Fr, factors: seq<Fr>): BlindSignatureContext
    requires |bases| == |secrets| == |factors|
  {
    var commitment, random := Msm(bases, secrets), Msm(bases, factors);
    var challenge := HASH_TO_FR(ContextBytes(bases, random, commitment, nonce));
    BlindSignatureContext(challenge, commitment, ProofG1(random, Responses(factors, challenge, secrets)))
  }

  /** The context for hidden messages that all have a generator. */
  function HonestContext(key: PublicKey, hidden: Messages, nonce: Fr, blinding: Fr, factors: seq<Fr>): BlindSignatureContext
    requires FirstBeyond(hidden.keys, |key.h|) == None
    requires |factors| == |hidden.keys| + 1
  {
    ContextOver([key.h0] + Pick(key.h, hidden.keys), [blinding] + Values(hidden), nonce, factors)
  }

  /** Adds every message to the commitment and to the proof, up to the first without a generator. */
  method CommitMessages(key: PublicKey, messages: Messages, builder: CommitmentBuilder, committing: ProverCommittingG1, factors: seq<Fr>)
    returns (beyond: Option<nat>)
    requires |factors| == |messages.keys| && 0 !in factors && committing.Valid()
    modifies builder, committing
    ensures committing.Valid() && beyond == FirstBeyond(messages.keys, |key.h|)
    ensures beyond.None? ==>
      && builder.bases == old(builder.bases) + Pick(key.h, messages.keys)
      && builder.scalars == old(builder.scalars) + Values(messages)
      && committing.bases == old(committing.bases) + Pick(key.h, messages.keys)
      && committing.blindingFactors == old(committing.blindingFactors) + factors
  {
    var keys, values := messages.keys, Values(messages);
    for j := 0 to |keys|
      invariant committing.Valid()
      invariant forall i :: 0 <= i < j ==> keys[i] < |key.h|
      invariant builder.bases == old(builder.bases) + Pick(key.h, keys[..j])
      invariant builder.scalars == old(builder.scalars) + values[..j]
      invariant committing.bases == old(committing.bases) + Pick(key.h, keys[..j])
      invariant committing.blindingFactors == old(committing.blindingFactors) + factors[..j]
    {
      if keys[j] >= |key.h| {
        FirstBeyondAt(keys, |key.h|, j);
        return Some(keys[j]);
      }
      PickSnoc(key.h, keys[..j], keys[j]);
      assert keys[..j + 1] == keys[..j] + [keys[j]];
      builder.Add(key.h[keys[j]], values[j]);
      var _ := committing.Commit(key.h[keys[j]], factors[j]);
    }
    assert keys[..|keys|] == keys && values[..|keys|] == values && factors[..|keys|] == factors;
    return None;
  }

  /** A key equal to the number of generators passes the code's check and then panics. */
  method NewBlindSignatureContext(key: PublicKey, messages: Messages, nonce: Fr, blinding: Fr, factors: seq<Fr>)
    returns (result: Result<(BlindSignatureContext, Fr)>)
    requires |factors| == |messages.keys| + 1 && 0 !in factors
    ensures result ==
      match FirstBeyond(messages.keys, |key.h|)
      case None => Ok((HonestContext(key, messages, nonce, blinding, factors), blinding))
      case Some(i) => if i == |key.h| then Panic else Err(MessageCountMismatch(i, |key.h|))
  {
    var builder := new CommitmentBuilder();
    builder.Add(key.h0, blinding);
    var committing := new ProverCommittingG1();
    var _ := committing.Commit(key.h0, factors[0]);
    var beyond := CommitMessages(key, messages, builder, committing, factors[1..]);
    if beyond.Some? {
      return if beyond.value == |key.h| then Panic else Err(MessageCountMismatch(beyond.value, |key.h|));
    }
    var bases, secrets := [key.h0] + Pick(key.h, messages.keys), [blinding] + Values(messages);
    assert committing.bases == builder.bases == bases && builder.scalars == secrets;
    assert committing.blindingFactors == factors;
    var commitment := builder.Finalize();
    var committed := committing.Finish();
    var context := ProveHidden(committed, secrets, commitment, nonce);
    return Ok((context, blinding));
  }

  method ProveHidden(committed: ProverCommittedG1, secrets: seq<Fr>, commitment: G1, nonce: Fr)
    returns (context: BlindSignatureContext)
    requires |committed.bases| == |committed.blindingFactors| == |secrets|
    requires committed == Committed(committed.bases, committed.blindingFactors)
    requires commitment == Msm(committed.bases, secrets)
    ensures context == ContextOver(committed.bases, secrets, nonce, committed.blindingFactors)
  {
    var extra := SerG1(commitment, false) + SerFr(nonce, false);
    var bytes := CommittedBytes(committed) + extra;
    assert bytes == ContextBytes(committed.bases, committed.commitment, commitment, nonce);
    var challenge := HASH_TO_FR(bytes);
    var proof := GenProof(committed, challenge, secrets);
    context := BlindSignatureContext(challenge, commitment, proof.value);
  }

  // ---------- The issuer checks and signs ----------

  function ContextBases(key: PublicKey, revealed: set<nat>): seq<G1> {
    [key.h0] + Pick(key.h, Outside(|key.h|, revealed))
  }

  function VerifyOver(ctx: BlindSignatureContext, bases: seq<G1>, nonce: Fr): Result<bool> {
    var random :- ChallengeContribution(ctx.proof, bases, ctx.commitment, ctx.challengeHash);
    var challenge := HASH_TO_FR(ContextBytes(bases, random, ctx.commitment, nonce));
    Ok(random == ctx.proof.commitment && challenge == ctx.challengeHash)
  }

  function VerifyContext(ctx: BlindSignatureContext, revealed: set<nat>, key: PublicKey, nonce: Fr): Result<bool> {
    VerifyOver(ctx, ContextBases(key, revealed), nonce)
  }

  /** The check of a context is the check of its proof as a complete one. */
  lemma ContextIsComplete(ctx: BlindSignatureContext, bases: seq<G1>, nonce: Fr)
    ensures VerifyOver(ctx, bases, nonce) == VerifyComplete(ctx.proof, bases, ctx.commitment, ctx.challengeHash, SerFr(nonce, false))
  {
    hide Msm;
    var random := ChallengeContribution(ctx.proof, bases, ctx.commitment, ctx.challengeHash);
    if random.Ok? {
      DistinctDifference(random.value, ctx.proof.commitment);
      DistinctDifference(HASH_TO_FR(ContextBytes(bases, random.value, ctx.commitment, nonce)), ctx.challengeHash);
    }
  }

  method SerializePoints(points: seq<G1>) returns (bytes: seq<Byte>)
    ensures bytes == SerPoints(points, false)
  {
    bytes := [];
    for i := 0 to |points|
      invariant bytes == SerPoints(points[..i], false)
    {
      SerPointsSnoc(points[..i], points[i], false);
      assert points[..i + 1] == points[..i] + [points[i]];
      bytes := bytes + SerG1(points[i], false);
    }
    assert points[..|points|] == points;
  }

  method CheckContext(ctx: BlindSignatureContext, revealed: set<nat>, key: PublicKey, nonce: Fr) returns (result: Result<bool>)
    ensures result == VerifyContext(ctx, revealed, key, nonce)
  {
    var bases := [key.h0];
    hide Msm, SerPoints, SerG1, SerFr, Red;
    for i := 0 to |key.h|
      invariant bases == [key.h0] + Pick(key.h, Outside(i, revealed))
    {
      if i !in revealed {
        PickSnoc(key.h, Outside(i, revealed), i);
        bases := bases + [key.h[i]];
      }
    }
    var commitment :- ChallengeContribution(ctx.proof, bases, ctx.commitment, ctx.challengeHash);
    var bytes := SerializePoints(bases);
    bytes := bytes + SerG1(commitment, false);
    bytes := bytes + SerG1(ctx.commitment, false);
    bytes := bytes + SerFr(nonce, false);
    var challenge := HASH_TO_FR(bytes);
    DistinctDifference(challenge, ctx.challengeHash);
    DistinctDifference(commitment, ctx.proof.commitment);
    challenge := Sub(challenge, ctx.challengeHash);
    commitment := Sub(commitment, ctx.proof.commitment);
    return Ok(commitment == 0 && challenge == 0);
  }

  /** Signing a commitment and the known messages; a message index without a generator panics. */
  function BlindSign(commitment: G1, messages: Messages, sk: SecretKey, key: PublicKey, e: Fr, s: Fr): Result<BlindSignature> {
    if |messages.keys| > |key.h| then Err(MessageCountMismatch(|key.h|, |messages.keys|))
    else if sk == 0 then Err(MalformedSecretKey)
    else
      var _ :- key.Validate();
      if FirstBeyond(messages.keys, |key.h|).Some? then Panic
      else
        var b := Msm([commitment, ONE, key.h0] + Pick(key.h, messages.keys), [1, 1, s] + Values(messages));
        match Inverse(Add(sk, e))
        case None => Panic
        case Some(i) => Ok(BlindSignature(Mul(b, i), e, s))
  }

  method NewBlindSignature(commitment: G1, messages: Messages, sk: SecretKey, key: PublicKey, e: Fr, s: Fr)
    returns (result: Result<BlindSignature>)
    requires e != 0 && s != 0
    ensures result == BlindSign(commitment, messages, sk, key, e, s)
  {
    hide Msm, Mul, Red, Inverse, Values;
    if |messages.keys| > |key.h| {
      return Err(MessageCountMismatch(|key.h|, |messages.keys|));
    }
    if sk == 0 {
      return Err(MalformedSecretKey);
    }
    var _ :- key.Validate();
    var points: seq<G1>, scalars: seq<Fr> := [commitment], [1];
    points, scalars := points + [ONE], scalars + [1];
    points, scalars := points + [key.h0], scalars + [s];
    var values := Values(messages);
    for j := 0 to |messages.keys|
      invariant forall i :: 0 <= i < j ==> messages.keys[i] < |key.h|
      invariant points == [commitment, ONE, key.h0] + Pick(key.h, messages.keys[..j])
      invariant scalars == [1, 1, s] + values[..j]
    {
      var i := messages.keys[j];
      if i >= |key.h| {
        FirstBeyondAt(messages.keys, |key.h|, j);
        return Panic;
      }
      PickSnoc(key.h, messages.keys[..j], i);
      assert messages.keys[..j + 1] == messages.keys[..j] + [i];
      points, scalars := points + [key.h[i]], scalars + [values[j]];
    }
    assert messages.keys[..|messages.keys|] == messages.keys && values[..|values|] == values;
    var b := Msm(points, scalars);
    var exp := sk;
    exp := Add(exp, e);
    var inverse := Inverse(exp);
    if inverse.None? {
      return Panic;
    }
    return Ok(BlindSignature(Mul(b, inverse.value), e, s));
  }

  /** The issuer: sign only after the context checked out. */
  function Issue(ctx: BlindSignatureContext, messages: Messages, sk: SecretKey, key: PublicKey, nonce: Fr, e: Fr, s: Fr): Result<BlindSignature> {
    var valid :- VerifyContext(ctx, messages.entries.Keys, key, nonce);
    if valid then BlindSign(ctx.commitment, messages, sk, key, e, s) else Err(GeneralError)
  }

  /** The holder: unblind and keep the signature only if it verifies. */
  function CompleteSignature(key: PublicKey, messages: seq<Fr>, blind: BlindSignature, blinding: Fr): Result<Signature> {
    var sig := blind.ToUnblinded(blinding);
    var valid :- VerifySig(sig, messages, key);
    if valid then Ok(sig) else Err(GeneralError)
  }

  // ---------- What the issuer and the holder accept ----------

  /** The bytes behind the challenge of issuance determine what went into them. */
  lemma {:induction false} ContextBytesBind(bases: seq<G1>, random: G1, commitment: G1, nonce: Fr,
                                            bases': seq<G1>, random': G1, commitment': G1, nonce': Fr)
    requires |bases| == |bases'| && ContextBytes(bases, random, commitment, nonce) == ContextBytes(bases', random', commitment', nonce')
    ensures bases == bases' && random == random' && commitment == commitment' && nonce == nonce'
  {
    hide SerPoints, SerG1, SerFr;
    var c, c' := SerG1(commitment, false) + SerFr(nonce, false), SerG1(commitment', false) + SerFr(nonce', false);
    assert ContextBytes(bases, random, commitment, nonce) == SerPoints(bases, false) + (SerG1(random, false) + c);
    assert ContextBytes(bases', random', commitment', nonce') == SerPoints(bases', false) + (SerG1(random', false) + c');
    PointsFirst(bases, SerG1(random, false) + c, bases', SerG1(random', false) + c');
    PointFirst(random, c, random', c');
    PointFirst(commitment, SerFr(nonce, false), commitment', SerFr(nonce', false));
    SameFr(nonce, nonce', false);
  }

  /** When a context passes its check, whoever made it: its proof verifies over the generators of the hidden
      messages, and its challenge is the hash over them, its points and the nonce. */
  lemma {:induction false} ContextMeans(ctx: BlindSignatureContext, revealed: set<nat>, key: PublicKey, nonce: Fr)
    ensures var bases := [key.h0] + Pick(key.h, Outside(|key.h|, revealed));
      var r := VerifyContext(ctx, revealed, key, nonce);
      && (r == Ok(true) <==>
            && VerifyVc(ctx.proof, bases, ctx.commitment, ctx.challengeHash) == Ok(true)
            && ctx.challengeHash == HASH_TO_FR(SerPoints(bases, false) + SerG1(ctx.proof.commitment, false)
                                               + SerG1(ctx.commitment, false) + SerFr(nonce, false)))
      && (r.Ok? <==> |bases| == |ctx.proof.responses|)
      && (!r.Ok? ==> r == Err(UnequalNoOfBasesExponents(|bases|, |ctx.proof.responses|)))
  {
    hide Msm, SerPoints, SerG1, SerFr;
    var bases := ContextBases(key, revealed);
    var random := ChallengeContribution(ctx.proof, bases, ctx.commitment, ctx.challengeHash);
    if random.Ok? {
      DistinctDifference(random.value, ctx.proof.commitment);
    }
  }

  /** The issuer signs exactly a context that passes its check, and then as `BlindSign` does. */
  lemma IssueMeans(ctx: BlindSignatureContext, messages: Messages, sk: SecretKey, key: PublicKey, nonce: Fr, e: Fr, s: Fr)
    ensures var checked := VerifyContext(ctx, messages.entries.Keys, key, nonce);
      var issued := Issue(ctx, messages, sk, key, nonce, e, s);
      && (issued.Ok? <==> checked == Ok(true) && BlindSign(ctx.commitment, messages, sk, key, e, s).Ok?)
      && (checked == Ok(true) ==> issued == BlindSign(ctx.commitment, messages, sk, key, e, s))
      && (checked == Ok(false) ==> issued == Err(GeneralError))
      && (checked.Err? ==> issued == Err(checked.error))
  {
    hide VerifyContext, BlindSign;
  }

  /** When blind signing gives a signature, and which: the point that x + e times gives the commitment, the
      blinding and the known messages. */
  lemma {:induction false} BlindSignMeans(commitment: G1, messages: Messages, sk: SecretKey, key: PublicKey, e: Fr, s: Fr)
    ensures var r := BlindSign(commitment, messages, sk, key, e, s);
      var inRange := forall i :: 0 <= i < |messages.keys| ==> messages.keys[i] < |key.h|;
      && (r.Ok? <==> |messages.keys| <= |key.h| && sk != 0 && key.Validate().Ok? && inRange && Add(sk, e) != 0)
      && (r.Ok? ==> forall a :: r.value == BlindSignature(a, e, s) <==>
            Mul(a, Add(sk, e)) == Red(commitment + 1 + key.h0 * s + Dot(Pick(key.h, messages.keys), Values(messages))))
      && (r == Err(MessageCountMismatch(|key.h|, |messages.keys|)) <==> |messages.keys| > |key.h|)
      && (r == Err(MalformedSecretKey) <==> |messages.keys| <= |key.h| && sk == 0)
      && (r == Err(MalformedPublicKey) <==> |messages.keys| <= |key.h| && sk != 0 && !key.Validate().Ok?)
  {
    hide Msm, Dot, Mul, Inverse, Red;
    InverseOfZero(Add(sk, e));
    if Add(sk, e) != 0 && FirstBeyond(messages.keys, |key.h|).None? {
      var h, m := Pick(key.h, messages.keys), Values(messages);
      var b := Msm([commitment, ONE, key.h0] + h, [1, 1, s] + m);
      SignedDot(commitment, key.h0, s, h, m);
      assert commitment * 1 + (1 * 1 + (key.h0 * s + Dot(h, m))) == commitment + 1 + key.h0 * s + Dot(h, m);
      forall a: G1 ensures a == Mul(b, Inverse(Add(sk, e)).value) <==> Mul(a, Add(sk, e)) == b {
        MulIs(a, Add(sk, e));
        DivisionUnique(a, b, Add(sk, e));
      }
    }
  }

  /** The holder keeps a reply exactly if its unblinded signature verifies over all messages; a reply that
      does not verify is an error. */
  lemma CompleteMeans(key: PublicKey, messages: seq<Fr>, blind: BlindSignature, blinding: Fr)
    ensures var sig := Signature(blind.a, blind.e, PrimeField.Add(blind.s, blinding));
      var verified, completed := VerifySig(sig, messages, key), CompleteSignature(key, messages, blind, blinding);
      && (completed.Ok? <==> verified == Ok(true))
      && (completed.Ok? ==> completed.value == sig)
      && (verified == Ok(false) ==> completed == Err(GeneralError))
      && (verified.Err? ==> completed == Err(verified.error))
  {
    hide VerifySig;
  }

  /** Two contexts that pass their check, with one commitment and one random commitment but different
      challenges, open the commitment to a blinding and hidden messages; what the issuer signs for it is,
      unblinded with that blinding, the plain signature over these hidden and the known messages. */
  lemma {:induction false} IssuanceSound(ctx: BlindSignatureContext, nonce: Fr, ctx': BlindSignatureContext, nonce': Fr,
                                         known: Messages, sk: SecretKey, key: PublicKey, e: Fr, s: Fr)
    requires ctx.commitment == ctx'.commitment && ctx.proof.commitment == ctx'.proof.commitment
    requires ctx.challengeHash != ctx'.challengeHash
    requires Issue(ctx, known, sk, key, nonce, e, s).Ok? && VerifyContext(ctx', known.entries.Keys, key, nonce') == Ok(true)
    ensures var keys := Outside(|key.h|, known.entries.Keys);
      && |ctx.proof.responses| == |ctx'.proof.responses| == 1 + |keys| && Ascending(keys)
      && var w := Extract(ctx.proof.responses, ctx'.proof.responses, ctx.challengeHash, ctx'.challengeHash);
         var hidden := MessagesAt(keys, w[1..]);
      && Partition(hidden, known, |key.h|)
      && ctx.commitment == Msm([key.h0] + Pick(key.h, keys), w)
      && Sign(Merged(hidden, known, |key.h|), sk, key, e, Add(s, w[0]))
         == Ok(Issue(ctx, known, sk, key, nonce, e, s).value.ToUnblinded(w[0]))
  {
    hide Msm, VerifyVc, VerifyContext, Extract, Merged, Sign, Inverse, BlindSign, Issue, SerPoints, SerG1, SerFr, MessagesAt;
    var keys := Outside(|key.h|, known.entries.Keys);
    var bases := [key.h0] + Pick(key.h, keys);
    IssueMeans(ctx, known, sk, key, nonce, e, s);
    ContextMeans(ctx, known.entries.Keys, key, nonce);
    ContextMeans(ctx', known.entries.Keys, key, nonce');
    SpecialSoundness(ctx.proof, ctx'.proof, bases, ctx.commitment, ctx.challengeHash, ctx'.challengeHash);
    OutsideElements(|key.h|, known.entries.Keys);
    var w := Extract(ctx.proof.responses, ctx'.proof.responses, ctx.challengeHash, ctx'.challengeHash);
    WitnessIssued(ctx.commitment, keys, w, known, sk, key, e, s);
  }

  /** A witness of the commitment is a blinding and the hidden messages. */
  lemma {:induction false} WitnessIssued(commitment: G1, keys: seq<nat>, w: seq<Fr>, known: Messages, sk: SecretKey, key: PublicKey, e: Fr, s: Fr)
    requires keys == Outside(|key.h|, known.entries.Keys) && Ascending(keys) && |w| == 1 + |keys|
    requires commitment == Msm([key.h0] + Pick(key.h, keys), w) && BlindSign(commitment, known, sk, key, e, s).Ok?
    ensures var hidden := MessagesAt(keys, w[1..]);
      && Partition(hidden, known, |key.h|)
      && Sign(Merged(hidden, known, |key.h|), sk, key, e, Add(s, w[0]))
         == Ok(BlindSign(commitment, known, sk, key, e, s).value.ToUnblinded(w[0]))
  {
    hide Msm, Merged, B, Mul, Inverse, BlindSign, Sign;
    var hidden := MessagesAt(keys, w[1..]);
    KnownInRange(commitment, known, sk, key, e, s);
    PartitionOf(hidden, known, |key.h|);
    assert w == [w[0]] + Values(hidden);
    OpenedIssue(commitment, hidden, known, w[0], sk, key, e, s);
  }

  lemma KnownInRange(commitment: G1, known: Messages, sk: SecretKey, key: PublicKey, e: Fr, s: Fr)
    requires BlindSign(commitment, known, sk, key, e, s).Ok?
    ensures forall i: nat :: i in known.entries ==> i < |key.h|
  {
    hide Msm, Mul, Inverse;
    forall i: nat | i in known.entries ensures i < |key.h| {
      assert i in known.keys;
      var j :| 0 <= j < |known.keys| && known.keys[j] == i;
    }
  }

  lemma {:induction false} PartitionOf(hidden: Messages, known: Messages, n: nat)
    requires hidden.keys == Outside(n, known.entries.Keys) && forall i: nat :: i in known.entries ==> i < n
    ensures Partition(hidden, known, n)
  {
    OutsideElements(n, known.entries.Keys);
    assert forall i: nat :: i in hidden.entries <==> i in hidden.keys;
  }

  /** Signing a commitment to hidden messages is signing the merged messages. */
  lemma OpenedIssue(commitment: G1, hidden: Messages, known: Messages, blinding: Fr, sk: SecretKey, key: PublicKey, e: Fr, s: Fr)
    requires Partition(hidden, known, |key.h|) && BlindSign(commitment, known, sk, key, e, s).Ok?
    requires hidden.keys == Outside(|key.h|, known.entries.Keys)
    requires commitment == Msm([key.h0] + Pick(key.h, hidden.keys), [blinding] + Values(hidden))
    ensures Sign(Merged(hidden, known, |key.h|), sk, key, e, Add(s, blinding))
         == Ok(BlindSign(commitment, known, sk, key, e, s).value.ToUnblinded(blinding))
  {
    hide Msm, B, Mul, Inverse, Merged;
    BlindB(key, hidden, known, s, blinding);
  }

  // ---------- Issuance end to end ----------

  /** Every message index below `n` is hidden or known, and not both. */
  ghost predicate Partition(hidden: Messages, known: Messages, n: nat) {
    && hidden.entries.Keys !! known.entries.Keys
    && (forall i: nat :: i in hidden.entries || i in known.entries <==> i < n)
  }

  function Merged(hidden: Messages, known: Messages, n: nat): (m: seq<Fr>)
    requires Partition(hidden, known, n)
    ensures |m| == n
  {
    seq(n, i requires 0 <= i < n => if i in hidden.entries then hidden.entries[i] else known.entries[i])
  }

  lemma {:induction false} PartitionKeys(hidden: Messages, known: Messages, n: nat)
    requires Partition(hidden, known, n)
    ensures hidden.keys == Outside(n, known.entries.Keys) && known.keys == Inside(n, known.entries.Keys)
    ensures Pick(Merged(hidden, known, n), hidden.keys) == Values(hidden)
    ensures Pick(Merged(hidden, known, n), known.keys) == Values(known)
  {
    var keys := known.entries.Keys;
    OutsideElements(n, keys);
    InsideElements(n, keys);
    forall k: nat ensures k in hidden.keys <==> k in Outside(n, keys) {
    }
    AscendingUnique(hidden.keys, Outside(n, keys));
    forall k: nat ensures k in known.keys <==> k in Inside(n, keys) {
    }
    AscendingUnique(known.keys, Inside(n, keys));
    PickMerged(hidden, known, n);
  }

  lemma PickMerged(hidden: Messages, known: Messages, n: nat)
    requires Partition(hidden, known, n)
    requires forall i :: 0 <= i < |hidden.keys| ==> hidden.keys[i] < n
    requires forall i :: 0 <= i < |known.keys| ==> known.keys[i] < n
    ensures Pick(Merged(hidden, known, n), hidden.keys) == Values(hidden)
    ensures Pick(Merged(hidden, known, n), known.keys) == Values(known)
  {
    var m := Merged(hidden, known, n);
    forall j | 0 <= j < |hidden.keys| ensures Pick(m, hidden.keys)[j] == Values(hidden)[j] {
      assert hidden.keys[j] in hidden.keys;
    }
    forall j | 0 <= j < |known.keys| ensures Pick(m, known.keys)[j] == Values(known)[j] {
      assert known.keys[j] in known.keys;
      assert known.keys[j] !in hidden.entries.Keys;
    }
  }

  lemma AcceptedOver(bases: seq<G1>, secrets: seq<Fr>, nonce: Fr, factors: seq<Fr>)
    requires |bases| == |secrets| == |factors|
    ensures VerifyOver(ContextOver(bases, secrets, nonce, factors), bases, nonce) == Ok(true)
  {
    var ctx := ContextOver(bases, secrets, nonce, factors);
    AcceptedIffOpening(bases, factors, secrets, ctx.commitment, ctx.challengeHash);
    var random := ChallengeContribution(ctx.proof, bases, ctx.commitment, ctx.challengeHash).value;
    ZeroDifference(random, ctx.proof.commitment);
  }

  /** The issuer accepts the context of a holder who hides exactly what the issuer does not know. */
  lemma ContextAccepted(key: PublicKey, hidden: Messages, known: Messages, nonce: Fr, blinding: Fr, factors: seq<Fr>)
    requires Partition(hidden, known, |key.h|) && |factors| == |hidden.keys| + 1
    ensures FirstBeyond(hidden.keys, |key.h|) == None
    ensures VerifyContext(HonestContext(key, hidden, nonce, blinding, factors), known.entries.Keys, key, nonce) == Ok(true)
  {
    PartitionKeys(hidden, known, |key.h|);
    AcceptedOver([key.h0] + Pick(key.h, hidden.keys), [blinding] + Values(hidden), nonce, factors);
  }

  lemma BlindAlgebra(h0: int, s: int, s': int, hid: int, known: int, commitment: int, total: int)
    requires Red(commitment) == Red(h0 * s' + hid) && Red(total) == Red(s + s')
    ensures Red(commitment * 1 + (1 * 1 + (h0 * s + known))) == Red(1 + h0 * total + (hid + known))
  {
    CongruentMul(h0, h0, total, s + s');
    var rest := 1 + h0 * s + known;
    CongruentAdd(commitment, h0 * s' + hid, rest, rest);
    CongruentAdd(h0 * total, h0 * (s + s'), 1 + (hid + known), 1 + (hid + known));
    Distribute(s, 0 - s', h0);
  }

  lemma {:induction false} DotThree(b: int, s: int, b': int, s': int, b'': int, s'': int, bs: seq<int>, ss: seq<int>)
    requires |bs| == |ss|
    ensures Dot([b, b', b''] + bs, [s, s', s''] + ss) == b * s + (b' * s' + (b'' * s'' + Dot(bs, ss)))
  {
    assert [b, b', b''] + bs == [b] + ([b', b''] + bs) && [s, s', s''] + ss == [s] + ([s', s''] + ss);
    DotConcat([b], [s], [b', b''] + bs, [s', s''] + ss);
    DotConcat([b', b''], [s', s''], bs, ss);
    DotOne(b, s);
    DotTwo(b', s', b'', s'');
  }

  lemma {:induction false} CommitmentDot(h0: G1, s: Fr, h: seq<G1>, m: seq<Fr>)
    requires |h| == |m|
    ensures Msm([h0] + h, [s] + m) == Red(h0 * s + Dot(h, m))
  {
    MsmIsDot([h0] + h, [s] + m);
    DotConcat([h0], [s], h, m);
    DotOne(h0, s);
  }

  lemma {:induction false} SignedDot(commitment: G1, h0: G1, s: Fr, h: seq<G1>, m: seq<Fr>)
    requires |h| == |m|
    ensures Msm([commitment, ONE, h0] + h, [1, 1, s] + m) == Red(commitment * 1 + (1 * 1 + (h0 * s + Dot(h, m))))
  {
    MsmIsDot([commitment, ONE, h0] + h, [1, 1, s] + m);
    DotThree(commitment, 1, ONE, 1, h0, s, h, m);
  }

  lemma {:induction false} MergedDot(h: seq<G1>, hidden: Messages, known: Messages)
    requires Partition(hidden, known, |h|)
    ensures FirstBeyond(known.keys, |h|) == None && FirstBeyond(hidden.keys, |h|) == None
    ensures Dot(h, Merged(hidden, known, |h|))
         == Dot(Pick(h, hidden.keys), Values(hidden)) + Dot(Pick(h, known.keys), Values(known))
  {
    PartitionKeys(hidden, known, |h|);
    SplitAll(h, Merged(hidden, known, |h|), known.entries.Keys, hidden.keys, known.keys);
  }

  lemma {:induction false} SplitAll(h: seq<G1>, m: seq<Fr>, s: set<nat>, out: seq<nat>, ins: seq<nat>)
    requires |h| == |m| && out == Outside(|h|, s) && ins == Inside(|h|, s)
    ensures Dot(h, m) == Dot(Pick(h, out), Pick(m, out)) + Dot(Pick(h, ins), Pick(m, ins))
  {
    DotSplit(h, m, |h|, s);
    assert h[..|h|] == h && m[..|h|] == m;
  }

  /** What the issuer divides is the `B` of the merged messages under the summed blinding. */
  lemma BlindB(key: PublicKey, hidden: Messages, known: Messages, s: Fr, blinding: Fr)
    requires Partition(hidden, known, |key.h|)
    ensures FirstBeyond(known.keys, |key.h|) == None && FirstBeyond(hidden.keys, |key.h|) == None
    ensures var commitment := Msm([key.h0] + Pick(key.h, hidden.keys), [blinding] + Values(hidden));
      Msm([commitment, ONE, key.h0] + Pick(key.h, known.keys), [1, 1, s] + Values(known))
      == B(Add(s, blinding), Merged(hidden, known, |key.h|), key)
  {
    hide Msm, Dot, Red, Mul, B;
    MergedDot(key.h, hidden, known);
    var hh, hk := Pick(key.h, hidden.keys), Pick(key.h, known.keys);
    var commitment := Msm([key.h0] + hh, [blinding] + Values(hidden));
    CommitmentDot(key.h0, blinding, hh, Values(hidden));
    SignedDot(commitment, key.h0, s, hk, Values(known));
    BDot(Add(s, blinding), Merged(hidden, known, |key.h|), key);
    RedRed(key.h0 * blinding + Dot(hh, Values(hidden)));
    RedRed(s + blinding);
    BlindAlgebra(key.h0, s, blinding, Dot(hh, Values(hidden)), Dot(hk, Values(known)), commitment, Add(s, blinding));
  }

  /** However the messages are divided between holder and issuer, blind issuance ends with the
      signature that plain signing of the merged messages gives; the holder rejects it only where
      plain verification would call it malformed. */
  lemma BlindIssuance(key: PublicKey, sk: SecretKey, hidden: Messages, known: Messages,
                      nonce: Fr, blinding: Fr, factors: seq<Fr>, e: Fr, s: Fr)
    requires KeyPair(sk, key) && key.Validate().Ok? && Partition(hidden, known, |key.h|)
    requires |factors| == |hidden.keys| + 1 && e != 0 && Add(sk, e) != 0
    ensures FirstBeyond(hidden.keys, |key.h|) == None
    ensures
      var ctx := HonestContext(key, hidden, nonce, blinding, factors);
      var merged := Merged(hidden, known, |key.h|);
      var issued := Issue(ctx, known, sk, key, nonce, e, s);
      && issued.Ok?
      && Sign(merged, sk, key, e, Add(s, blinding)) == Ok(issued.value.ToUnblinded(blinding))
      && CompleteSignature(key, merged, issued.value, blinding)
         == if B(Add(s, blinding), merged, key) == 0 || Add(s, blinding) == 0
            then Err(MalformedSignature) else Ok(issued.value.ToUnblinded(blinding))
  {
    hide Msm, B, Mul, VerifyContext, VerifySig, Inverse;
    ContextAccepted(key, hidden, known, nonce, blinding, factors);
    var merged := Merged(hidden, known, |key.h|);
    BlindB(key, hidden, known, s, blinding);
    InverseIsInverse(Add(sk, e));
    SecretNonZero(sk, key);
    KnownFit(hidden, known, |key.h|);
    Completion(key, sk, merged, e, Add(s, blinding));
  }

  lemma KnownFit(hidden: Messages, known: Messages, n: nat)
    requires Partition(hidden, known, n)
    ensures |known.keys| <= n
  {
    PartitionKeys(hidden, known, n);
    InsideLength(n, known.entries.Keys);
  }

  lemma {:induction false} InsideLength(n: nat, s: set<nat>)
    ensures |Inside(n, s)| <= n
  {
    if n > 0 {
      InsideLength(n - 1, s);
    }
  }

  lemma Completion(key: PublicKey, sk: SecretKey, messages: seq<Fr>, e: Fr, s: Fr)
    requires KeyPair(sk, key) && key.Validate().Ok? && |messages| == |key.h|
    requires e != 0 && Add(sk, e) != 0
    ensures Sign(messages, sk, key, e, s).Ok?
    ensures VerifySig(Sign(messages, sk, key, e, s).value, messages, key)
         == if B(s, messages, key) == 0 || s == 0 then Err(MalformedSignature) else Ok(true)
  {
    hide Mul, B;
    SecretNonZero(sk, key);
    InverseIsInverse(Add(sk, e));
    if s != 0 {
      SignThenVerify(messages, sk, key, e, s);
    }
  }
}
