/** Proof of knowledge of a signature and of a ticket t = e * b made with its exponent `e`. */
module PokTicket {
  import opened PrimeField
  import opened Group
  import opened Results
  import opened Encoding
  import opened Selection
  import opened PokVc
  import opened Signatures
  import opened Disclosure
  import PokSignature

  datatype Status = Success | BadSignature | BadHiddenMessage | BadRevealedMessage | BadTicket

  /** The random scalars: those of the credential, `rho1` and `rho2`, and blinding factors for the
      third relation, for the second and third place of the fourth, and for the fifth. */
  datatype TicketCoins = TicketCoins(core: Coins, rho1: Fr, rho2: Fr, one3: Fr, g3: Fr, one4: Fr, g4: Fr, b5: Fr, t5: Fr)

  ghost predicate UsableTicket(coins: TicketCoins, n: nat) {
    Usable(coins.core, n) && coins.rho1 != 0 && coins.rho2 != 0
  }

  /** The blinding factors are drawn non-zero. */
  ghost predicate DrawnTicket(coins: TicketCoins) {
    && Drawn(coins.core)
    && coins.one3 != 0 && coins.g3 != 0 && coins.one4 != 0 && coins.g4 != 0 && coins.b5 != 0 && coins.t5 != 0
  }

  /** The three relations about the ticket, with their secrets. */
  datatype TicketCommitments = TicketCommitments(c: G1,
    pokVc3: ProverCommittedG1, secrets3: seq<Fr>,
    pokVc4: ProverCommittedG1, secrets4: seq<Fr>,
    pokVc5: ProverCommittedG1, secrets5: seq<Fr>)

  datatype PoKOfTicket = PoKOfTicket(core: Randomized, ticket: TicketCommitments)

  datatype TicketPart = TicketPart(c: G1, vc3: ProofG1, vc4: ProofG1, vc5: ProofG1)

  datatype PoKOfTicketProof = PoKOfTicketProof(credential: CredentialProof, ticket: TicketPart)

  // ---------- The prover ----------

  /** C = rho1 * g1 + rho2 * g2 */
  function TicketC(rho1: Fr, rho2: Fr): G1 { Add(Mul(ONE, rho1), Mul(G2_VALUE, rho2)) }

  /** The fourth relation blinds `e` with the factor the first relation uses. */
  function CommitmentsFor(e: Fr, t: G1, b: G1, coins: TicketCoins): (r: TicketCommitments)
    ensures |r.pokVc3.bases| == |r.pokVc3.blindingFactors| == |r.secrets3|
    ensures |r.pokVc4.bases| == |r.pokVc4.blindingFactors| == |r.secrets4|
    ensures |r.pokVc5.bases| == |r.pokVc5.blindingFactors| == |r.secrets5|
  {
    var c := TicketC(coins.rho1, coins.rho2);
    var beta1, beta2 := Mul(coins.rho1, e), Mul(coins.rho2, e);
    TicketCommitments(c,
      Committed([ONE, G2_VALUE], [coins.one3, coins.g3]), [coins.rho1, coins.rho2],
      Committed([c, ONE, G2_VALUE], [coins.core.e, coins.one4, coins.g4]), [Neg(e), beta1, beta2],
      Committed([b, t], [coins.b5, coins.t5]), [beta1, Neg(coins.rho1)])
  }

  method CommitTicket(e: Fr, t: G1, b: G1, coins: TicketCoins) returns (r: TicketCommitments)
    requires DrawnTicket(coins)
    ensures r == CommitmentsFor(e, t, b, coins)
  {
    var beta1 := coins.rho1;
    beta1 := Mul(beta1, e);
    var beta2 := coins.rho2;
    beta2 := Mul(beta2, e);
    var c: G1 := ONE;
    c := Mul(c, coins.rho1);
    var g2 := G2_VALUE;
    g2 := Mul(g2, coins.rho2);
    c := Add(c, g2);

    var pokVc3 := CommitPair(ONE, coins.one3, G2_VALUE, coins.g3);
    var committing := new ProverCommittingG1();
    var _ := committing.CommitWith(c, coins.core.e);
    var _ := committing.Commit(ONE, coins.one4);
    var _ := committing.Commit(G2_VALUE, coins.g4);
    assert committing.bases == [c, ONE, G2_VALUE];
    assert committing.blindingFactors == [coins.core.e, coins.one4, coins.g4];
    var pokVc4 := committing.Finish();
    var pokVc5 := CommitPair(b, coins.b5, t, coins.t5);
    r := TicketCommitments(c, pokVc3, [coins.rho1, coins.rho2], pokVc4, [Neg(e), beta1, beta2],
                           pokVc5, [beta1, Neg(coins.rho1)]);
  }

  function Start(sig: Signature, key: PublicKey, messages: seq<ProofMessage>, t: G1, b: G1, coins: TicketCoins): (r: Result<PoKOfTicket>)
    requires UsableTicket(coins, |messages|)
    ensures r.Ok? ==> MatchedAll(r.value)
  {
    var _ :- CheckSigned(sig, key, messages);
    Ok(PoKOfTicket(Randomize(sig, key, messages, coins.core), CommitmentsFor(sig.e, t, b, coins)))
  }

  method Init(sig: Signature, key: PublicKey, messages: seq<ProofMessage>, t: G1, b: G1, coins: TicketCoins)
    returns (result: Result<PoKOfTicket>)
    requires UsableTicket(coins, |messages|) && DrawnTicket(coins)
    ensures result == Start(sig, key, messages, t, b, coins)
  {
    var _ :- CheckMessages(sig, key, messages);
    var core := CommitCredential(sig, key, messages, coins.core);
    var ticket := CommitTicket(sig.e, t, b, coins);
    return Ok(PoKOfTicket(core, ticket));
  }

  /** `PoKOfTicket::to_bytes` */
  function StartBytes(pok: PoKOfTicket): seq<Byte> {
    PokSignature.CoreBytes(pok.core)
    + CommittedBytes(pok.ticket.pokVc3) + CommittedBytes(pok.ticket.pokVc4) + CommittedBytes(pok.ticket.pokVc5)
  }

  ghost predicate Matched(t: TicketCommitments) {
    && |t.pokVc3.bases| == |t.pokVc3.blindingFactors|
    && |t.pokVc4.bases| == |t.pokVc4.blindingFactors|
    && |t.pokVc5.bases| == |t.pokVc5.blindingFactors|
  }

  function ProveTicket(t: TicketCommitments, challenge: Fr): Result<TicketPart>
    requires Matched(t)
  {
    var vc3 :- Prove(t.pokVc3, challenge, t.secrets3);
    var vc4 :- Prove(t.pokVc4, challenge, t.secrets4);
    var vc5 :- Prove(t.pokVc5, challenge, t.secrets5);
    Ok(TicketPart(t.c, vc3, vc4, vc5))
  }

  ghost predicate MatchedAll(pok: PoKOfTicket) {
    && |pok.core.pokVc1.bases| == |pok.core.pokVc1.blindingFactors|
    && |pok.core.pokVc2.bases| == |pok.core.pokVc2.blindingFactors|
    && Matched(pok.ticket)
  }

  function ProveAll(pok: PoKOfTicket, challenge: Fr): Result<PoKOfTicketProof>
    requires MatchedAll(pok)
  {
    var credential :- PokSignature.ProveCredential(pok.core, challenge);
    var ticket :- ProveTicket(pok.ticket, challenge);
    Ok(PoKOfTicketProof(credential, ticket))
  }

  method GenTicketProof(pok: PoKOfTicket, challenge: Fr) returns (result: Result<PoKOfTicketProof>)
    requires MatchedAll(pok)
    ensures result == ProveAll(pok, challenge)
  {
    var vc1 :- GenProof(pok.core.pokVc1, challenge, pok.core.secrets1);
    var vc2 :- GenProof(pok.core.pokVc2, challenge, pok.core.secrets2);
    var vc3 :- GenProof(pok.ticket.pokVc3, challenge, pok.ticket.secrets3);
    var vc4 :- GenProof(pok.ticket.pokVc4, challenge, pok.ticket.secrets4);
    var vc5 :- GenProof(pok.ticket.pokVc5, challenge, pok.ticket.secrets5);
    return Ok(PoKOfTicketProof(CredentialProof(pok.core.aPrime, pok.core.aBar, pok.core.d, vc1, vc2),
                               TicketPart(pok.ticket.c, vc3, vc4, vc5)));
  }

  /** The proof of a state: the proofs of the five relations with C and the points, or the error of the first
      that cannot be proved. */
  lemma ProvedMeans(pok: PoKOfTicket, challenge: Fr, p: PoKOfTicketProof)
    requires MatchedAll(pok)
    ensures ProveAll(pok, challenge) == Ok(p) <==>
      && PokSignature.ProveCredential(pok.core, challenge) == Ok(p.credential) && p.ticket.c == pok.ticket.c
      && Prove(pok.ticket.pokVc3, challenge, pok.ticket.secrets3) == Ok(p.ticket.vc3)
      && Prove(pok.ticket.pokVc4, challenge, pok.ticket.secrets4) == Ok(p.ticket.vc4)
      && Prove(pok.ticket.pokVc5, challenge, pok.ticket.secrets5) == Ok(p.ticket.vc5)
    ensures !ProveAll(pok, challenge).Ok? <==>
      exists k: nat :: k < 5 && ProveAll(pok, challenge) == Fails(pok, k) && Unprovable(pok, k) && forall i: nat :: i < k ==> !Unprovable(pok, i)
  {
    hide Responses;
    assert ProveAll(pok, challenge).Ok? ==>
      !Unprovable(pok, 0) && !Unprovable(pok, 1) && !Unprovable(pok, 2) && !Unprovable(pok, 3) && !Unprovable(pok, 4);
    if !ProveAll(pok, challenge).Ok? {
      var k: nat := if Unprovable(pok, 0) then 0 else if Unprovable(pok, 1) then 1 else if Unprovable(pok, 2) then 2
                    else if Unprovable(pok, 3) then 3 else 4;
      assert Unprovable(pok, k) && ProveAll(pok, challenge) == Fails(pok, k);
    }
  }

  /** How many bases the relations have, and how many secrets. */
  ghost function Sizes(pok: PoKOfTicket): (s: seq<(nat, nat)>)
    ensures |s| == 5
  {
    [(|pok.core.pokVc1.bases|, |pok.core.secrets1|), (|pok.core.pokVc2.bases|, |pok.core.secrets2|),
     (|pok.ticket.pokVc3.bases|, |pok.ticket.secrets3|), (|pok.ticket.pokVc4.bases|, |pok.ticket.secrets4|),
     (|pok.ticket.pokVc5.bases|, |pok.ticket.secrets5|)]
  }

  ghost predicate Unprovable(pok: PoKOfTicket, k: nat) {
    k < 5 && Sizes(pok)[k].0 != Sizes(pok)[k].1
  }

  ghost function Fails(pok: PoKOfTicket, k: nat): Result<PoKOfTicketProof>
    requires k < 5
  {
    Err(UnequalNoOfBasesExponents(Sizes(pok)[k].0, Sizes(pok)[k].1))
  }

  // ---------- The verifier ----------

  function TicketBytes(t: TicketPart, b: G1, ticket: G1): seq<Byte> {
    (SerG1(ONE, false) + SerG1(G2_VALUE, false) + SerG1(t.vc3.commitment, false))
    + (SerG1(t.c, false) + SerG1(ONE, false) + SerG1(G2_VALUE, false) + SerG1(t.vc4.commitment, false))
    + (SerG1(b, false) + SerG1(ticket, false) + SerG1(t.vc5.commitment, false))
  }

  function ProofBytes(p: PoKOfTicketProof, revealed: set<nat>, key: PublicKey, b: G1, t: G1): seq<Byte> {
    PokSignature.CredentialBytes(p.credential, revealed, key) + TicketBytes(p.ticket, b, t)
  }

  method GetBytesForChallenge(p: PoKOfTicketProof, revealed: set<nat>, key: PublicKey, b: G1, t: G1) returns (bytes: seq<Byte>)
    ensures bytes == ProofBytes(p, revealed, key, b, t)
  {
    bytes := PokSignature.GetBytesForChallenge(p.credential, revealed, key);
    ghost var start := bytes;
    bytes := bytes + SerG1(ONE, false);
    bytes := bytes + SerG1(G2_VALUE, false);
    bytes := bytes + SerG1(p.ticket.vc3.commitment, false);
    bytes := bytes + SerG1(p.ticket.c, false);
    bytes := bytes + SerG1(ONE, false);
    bytes := bytes + SerG1(G2_VALUE, false);
    bytes := bytes + SerG1(p.ticket.vc4.commitment, false);
    bytes := bytes + SerG1(b, false);
    bytes := bytes + SerG1(t, false);
    bytes := bytes + SerG1(p.ticket.vc5.commitment, false);
    assert bytes == start + TicketBytes(p.ticket, b, t);
  }

  function First(s: seq<Fr>): Option<Fr> {
    if s == [] then None else Some(s[0])
  }

  /** The three ticket equations, and the assertion that both proofs about `e` respond alike. */
  function CheckTicketPart(p: PoKOfTicketProof, challenge: Fr, b: G1, t: G1): Result<Status> {
    var third :- VerifyVc(p.ticket.vc3, [ONE, G2_VALUE], p.ticket.c, challenge);
    if !third then Ok(BadTicket) else
    var fourth :- VerifyVc(p.ticket.vc4, [p.ticket.c, ONE, G2_VALUE], 0, challenge);
    if !fourth then Ok(BadTicket) else
    var fifth :- VerifyVc(p.ticket.vc5, [b, t], 0, challenge);
    if !fifth then Ok(BadTicket)
    else if First(p.credential.vc1.responses) != First(p.ticket.vc4.responses) then Panic
    else Ok(Success)
  }

  function CheckRelations(p: PoKOfTicketProof, key: PublicKey, revealed: Messages, challenge: Fr, b: G1, t: G1): Result<Status>
    requires InRange(revealed, key)
  {
    var cred := p.credential;
    if cred.aPrime == 0 then Ok(BadSignature) else
    var first :- VerifyVc(cred.vc1, [cred.aPrime, key.h0], Sub(cred.aBar, cred.d), challenge);
    if !first then Ok(BadHiddenMessage) else
    var second :- VerifyVc(cred.vc2, HiddenBases(cred.d, key, revealed), RevealedPoint(key, revealed), challenge);
    if !second then Ok(BadHiddenMessage) else
    CheckTicketPart(p, challenge, b, t)
  }

  /** `verify_without_pairing` */
  function WithoutPairing(p: PoKOfTicketProof, key: PublicKey, revealed: Messages, challenge: Fr, b: G1, t: G1): Result<Status> {
    var _ :- key.Validate();
    if PokSignature.FirstBeyond(revealed, |key.h|) then Err(GeneralError)
    else CheckRelations(p, key, revealed, challenge, b, t)
  }

  /** `verify`: the pairing equation comes last. */
  function VerifyTicketProof(p: PoKOfTicketProof, key: PublicKey, revealed: Messages, challenge: Fr, b: G1, t: G1): Result<Status> {
    var status :- WithoutPairing(p, key, revealed, challenge, b, t);
    if status != Success then Ok(status)
    else Ok(if PairingHolds(p.credential.aPrime, p.credential.aBar, key) then Success else BadSignature)
  }

  method VerifyWithoutPairing(p: PoKOfTicketProof, key: PublicKey, revealed: Messages, challenge: Fr, b: G1, t: G1)
    returns (result: Result<Status>)
    ensures result == WithoutPairing(p, key, revealed, challenge, b, t)
  {
    var _ :- key.Validate();
    for i := 0 to |revealed.keys|
      invariant forall j :: 0 <= j < i ==> revealed.keys[j] < |key.h|
    {
      if revealed.keys[i] >= |key.h| {
        return Err(GeneralError);
      }
    }
    var cred := p.credential;
    if cred.aPrime == 0 {
      return Ok(BadSignature);
    }
    var aBarD := cred.aBar;
    aBarD := Sub(aBarD, cred.d);
    var first :- VerifyVc(cred.vc1, [cred.aPrime, key.h0], aBarD, challenge);
    if !first {
      return Ok(BadHiddenMessage);
    }
    var hiddenBases, pr := SplitGenerators(cred.d, key, revealed);
    var second :- VerifyVc(cred.vc2, hiddenBases, pr, challenge);
    if !second {
      return Ok(BadHiddenMessage);
    }
    result := VerifyTicketPart(p, challenge, b, t);
  }

  method VerifyTicketPart(p: PoKOfTicketProof, challenge: Fr, b: G1, t: G1) returns (result: Result<Status>)
    ensures result == CheckTicketPart(p, challenge, b, t)
  {
    var third :- VerifyVc(p.ticket.vc3, [ONE, G2_VALUE], p.ticket.c, challenge);
    if !third {
      return Ok(BadTicket);
    }
    var fourth :- VerifyVc(p.ticket.vc4, [p.ticket.c, ONE, G2_VALUE], 0, challenge);
    if !fourth {
      return Ok(BadTicket);
    }
    var fifth :- VerifyVc(p.ticket.vc5, [b, t], 0, challenge);
    if !fifth {
      return Ok(BadTicket);
    }
    if First(p.credential.vc1.responses) != First(p.ticket.vc4.responses) {
      return Panic;
    }
    return Ok(Success);
  }

  method Verify(p: PoKOfTicketProof, key: PublicKey, revealed: Messages, challenge: Fr, b: G1, t: G1)
    returns (result: Result<Status>)
    ensures result == VerifyTicketProof(p, key, revealed, challenge, b, t)
  {
    var status :- VerifyWithoutPairing(p, key, revealed, challenge, b, t);
    if status != Success {
      return Ok(status);
    }
    var aBar := p.credential.aBar;
    aBar := Neg(aBar);
    if Add(Pair(p.credential.aPrime, key.w), Pair(aBar, ONE)) != 0 {
      return Ok(BadSignature);
    }
    return Ok(Success);
  }

  // ---------- Completeness ----------

  /** All relations about the ticket hold. */
  ghost predicate TicketHolds(p: PoKOfTicketProof, challenge: Fr, b: G1, t: G1) {
    && VerifyVc(p.ticket.vc3, [ONE, G2_VALUE], p.ticket.c, challenge) == Ok(true)
    && VerifyVc(p.ticket.vc4, [p.ticket.c, ONE, G2_VALUE], 0, challenge) == Ok(true)
    && VerifyVc(p.ticket.vc5, [b, t], 0, challenge) == Ok(true)
    && First(p.credential.vc1.responses) == First(p.ticket.vc4.responses)
  }

  /** The one status that means acceptance, spelled out. */
  lemma SuccessMeans(p: PoKOfTicketProof, key: PublicKey, revealed: Messages, challenge: Fr, b: G1, t: G1)
    ensures VerifyTicketProof(p, key, revealed, challenge, b, t) == Ok(Success)
       <==> key.Validate().Ok? && InRange(revealed, key)
            && Accepted(p.credential, key, revealed, challenge) && TicketHolds(p, challenge, b, t)
  {
    hide VerifyVc, HiddenBases, RevealedPoint, PairingHolds;
  }

  // ---------- Who may start ----------

  /** As for the signature proof: no state without a signature that verifies. */
  lemma StartMeans(sig: Signature, key: PublicKey, messages: seq<ProofMessage>, t: G1, b: G1, coins: TicketCoins)
    requires UsableTicket(coins, |messages|)
    ensures var r := Start(sig, key, messages, t, b, coins);
      && (r.Ok? <==> |messages| == |key.h| && VerifySig(sig, AllMessages(messages), key) == Ok(true))
      && (!r.Ok? ==> r.Err? && CheckSigned(sig, key, messages) == Err(r.error))
  {
    hide VerifySig, Randomize, CommitmentsFor;
    CheckedMeans(sig, key, messages);
  }

  // ---------- What the verdict says ----------

  /** The five relations, in the order in which they are checked. */
  ghost function Relations(p: PoKOfTicketProof, key: PublicKey, revealed: Messages, challenge: Fr, b: G1, t: G1): (r: seq<Result<bool>>)
    requires InRange(revealed, key)
    ensures |r| == 5
  {
    var cred, ticket := p.credential, p.ticket;
    [VerifyVc(cred.vc1, [cred.aPrime, key.h0], Sub(cred.aBar, cred.d), challenge),
     VerifyVc(cred.vc2, HiddenBases(cred.d, key, revealed), RevealedPoint(key, revealed), challenge),
     VerifyVc(ticket.vc3, [ONE, G2_VALUE], ticket.c, challenge),
     VerifyVc(ticket.vc4, [ticket.c, ONE, G2_VALUE], 0, challenge),
     VerifyVc(ticket.vc5, [b, t], 0, challenge)]
  }

  ghost predicate AllHold(checks: seq<Result<bool>>) {
    forall i :: 0 <= i < |checks| ==> checks[i] == Ok(true)
  }

  /** The assertion comes before the pairing: the verifier panics exactly on a proof whose relations all hold
      while its two responses for `e` differ, whether or not the pairing equation holds. */
  lemma PanicMeans(p: PoKOfTicketProof, key: PublicKey, revealed: Messages, challenge: Fr, b: G1, t: G1)
    ensures VerifyTicketProof(p, key, revealed, challenge, b, t) == Panic
       <==> key.Validate().Ok? && InRange(revealed, key) && p.credential.aPrime != 0
            && AllHold(Relations(p, key, revealed, challenge, b, t))
            && First(p.credential.vc1.responses) != First(p.ticket.vc4.responses)
  {
    hide Msm, HiddenBases, RevealedPoint, PairingHolds;
    if InRange(revealed, key) {
      var r := Relations(p, key, revealed, challenge, b, t);
      assert AllHold(r) <==> r[0] == Ok(true) && r[1] == Ok(true) && r[2] == Ok(true) && r[3] == Ok(true) && r[4] == Ok(true);
    }
  }

  /** The first relation that fails decides the status, or gives its error. */
  lemma FirstFailure(p: PoKOfTicketProof, key: PublicKey, revealed: Messages, challenge: Fr, b: G1, t: G1, k: nat)
    requires key.Validate().Ok? && InRange(revealed, key) && p.credential.aPrime != 0 && k < 5
    requires var r := Relations(p, key, revealed, challenge, b, t); AllHold(r[..k]) && r[k] != Ok(true)
    ensures VerifyTicketProof(p, key, revealed, challenge, b, t)
         == match Relations(p, key, revealed, challenge, b, t)[k]
            case Ok(_) => Ok(if k < 2 then BadHiddenMessage else BadTicket)
            case Err(error) => Err(error)
            case Panic => Panic
  {
    hide Msm, HiddenBases, RevealedPoint, PairingHolds;
    var r := Relations(p, key, revealed, challenge, b, t);
    forall i | 0 <= i < k ensures r[i] == Ok(true) {
      assert r[..k][i] == Ok(true);
    }
    assert k > 0 ==> r[0] == Ok(true);
    assert k > 1 ==> r[1] == Ok(true);
    assert k > 2 ==> r[2] == Ok(true);
    assert k > 3 ==> r[3] == Ok(true);
  }

  /** What comes before the relations, and after them. */
  lemma OtherRefusals(p: PoKOfTicketProof, key: PublicKey, revealed: Messages, challenge: Fr, b: G1, t: G1)
    ensures var r := VerifyTicketProof(p, key, revealed, challenge, b, t);
      && (!key.Validate().Ok? <==> r == Err(MalformedPublicKey))
      && (key.Validate().Ok? && !InRange(revealed, key) <==> r == Err(GeneralError))
      && (r == Ok(BadSignature) <==>
            && key.Validate().Ok? && InRange(revealed, key)
            && (p.credential.aPrime == 0
                || (AllHold(Relations(p, key, revealed, challenge, b, t))
                    && First(p.credential.vc1.responses) == First(p.ticket.vc4.responses)
                    && !PairingHolds(p.credential.aPrime, p.credential.aBar, key))))
  {
    hide Msm, HiddenBases, RevealedPoint, PairingHolds;
    if InRange(revealed, key) {
      var r := Relations(p, key, revealed, challenge, b, t);
      assert AllHold(r) <==> r[0] == Ok(true) && r[1] == Ok(true) && r[2] == Ok(true) && r[3] == Ok(true) && r[4] == Ok(true);
    }
  }

  /** What the challenge covers: the hashed bytes determine every point of the proof, the base and the
      ticket; for keys of one shape also the generators. */
  lemma {:induction false} BytesBind(p: PoKOfTicketProof, key: PublicKey, b: G1, t: G1,
                                     p': PoKOfTicketProof, key': PublicKey, b': G1, t': G1, revealed: set<nat>)
    requires |key.h| == |key'.h| && ProofBytes(p, revealed, key, b, t) == ProofBytes(p', revealed, key', b', t')
    ensures SameTicketCommitments(p, p') && b == b' && t == t' && key.h0 == key'.h0
    ensures Pick(key.h, Outside(|key.h|, revealed)) == Pick(key'.h, Outside(|key.h|, revealed))
  {
    hide SerG1, PokSignature.CredentialBytes, Pick, Outside, TicketBytes;
    PokSignature.BytesBind(p.credential, key, TicketBytes(p.ticket, b, t), p'.credential, key', TicketBytes(p'.ticket, b', t'), revealed);
    TicketBytesBind(p.ticket, b, t, p'.ticket, b', t');
  }

  lemma {:induction false} TicketBytesBind(p: TicketPart, b: G1, t: G1, p': TicketPart, b': G1, t': G1)
    requires TicketBytes(p, b, t) == TicketBytes(p', b', t')
    ensures p.c == p'.c && p.vc3.commitment == p'.vc3.commitment && p.vc4.commitment == p'.vc4.commitment
    ensures p.vc5.commitment == p'.vc5.commitment && b == b' && t == t'
  {
    hide SerG1, SerPoints, TicketBytes;
    TicketBytesListed(p, b, t);
    TicketBytesListed(p', b', t');
    var x, y := TicketPoints(p, b, t), TicketPoints(p', b', t');
    assert SerPoints(x, false) + [] == SerPoints(x, false) && SerPoints(y, false) + [] == SerPoints(y, false);
    PointsFirst(x, [], y, []);
    assert x[2] == y[2] && x[3] == y[3] && x[6] == y[6] && x[7] == y[7] && x[8] == y[8] && x[9] == y[9];
  }

  lemma {:induction false} TicketBytesListed(p: TicketPart, b: G1, t: G1)
    ensures TicketBytes(p, b, t) == SerPoints(TicketPoints(p, b, t), false)
  {
    hide SerG1, SerPoints;
    var x, y, z := [ONE, G2_VALUE, p.vc3.commitment], [ONE, G2_VALUE, p.vc4.commitment], [b, t, p.vc5.commitment];
    assert TicketPoints(p, b, t) == x + ([p.c] + y) + z;
    SerPointsConcat(x + ([p.c] + y), z, false);
    SerPointsConcat(x, [p.c] + y, false);
    SerPointsConcat([p.c], y, false);
    SerPointsSnoc([], p.c, false);
    NoPoints();
    assert [] + [p.c] == [p.c];
    ThreePoints(ONE, G2_VALUE, p.vc3.commitment);
    ThreePoints(ONE, G2_VALUE, p.vc4.commitment);
    ThreePoints(b, t, p.vc5.commitment);
  }

  lemma NoPoints()
    ensures forall s: seq<Byte> :: SerPoints([], false) + s == s
  {
  }

  ghost function TicketPoints(p: TicketPart, b: G1, t: G1): seq<G1> {
    [ONE, G2_VALUE, p.vc3.commitment, p.c, ONE, G2_VALUE, p.vc4.commitment, b, t, p.vc5.commitment]
  }

  /** Prover and verifier hash the same bytes. */
  lemma SameBytes(sig: Signature, key: PublicKey, messages: seq<ProofMessage>, t: G1, b: G1, coins: TicketCoins, challenge: Fr)
    requires |messages| == |key.h| && UsableTicket(coins, |messages|)
    ensures var pok := PoKOfTicket(Randomize(sig, key, messages, coins.core), CommitmentsFor(sig.e, t, b, coins));
      && ProveAll(pok, challenge).Ok?
      && ProofBytes(ProveAll(pok, challenge).value, RevealedIndices(messages), key, b, t) == StartBytes(pok)
  {
    hide Msm, PokSignature.CoreBytes, PokSignature.CredentialBytes, Randomize;
    PokSignature.SameBytes(sig, key, messages, coins.core, challenge);
    TicketSameBytes(sig.e, t, b, coins, challenge);
  }

  lemma TicketSameBytes(e: Fr, t: G1, b: G1, coins: TicketCoins, challenge: Fr)
    ensures var r := CommitmentsFor(e, t, b, coins);
      && ProveTicket(r, challenge).Ok?
      && TicketBytes(ProveTicket(r, challenge).value, b, t)
         == CommittedBytes(r.pokVc3) + CommittedBytes(r.pokVc4) + CommittedBytes(r.pokVc5)
  {
    hide Msm, Mul, Add, Neg, SerG1, Responses, SerPoints;
    TwoPoints(ONE, G2_VALUE);
    ThreePoints(TicketC(coins.rho1, coins.rho2), ONE, G2_VALUE);
    TwoPoints(b, t);
  }

  lemma {:induction false} TwoPoints(p: G1, q: G1)
    ensures SerPoints([p, q], false) == SerG1(p, false) + SerG1(q, false)
  {
    PokSignature.SerPointsTwo(p, q, []);
    assert [p, q] + [] == [p, q];
  }

  lemma {:induction false} ThreePoints(p: G1, q: G1, r: G1)
    ensures SerPoints([p, q, r], false) == SerG1(p, false) + SerG1(q, false) + SerG1(r, false)
  {
    PokSignature.SerPointsTwo(p, q, [r]);
    assert [p, q] + [r] == [p, q, r];
    assert [r][1..] == [];
  }

  // The relations, as sums of points.

  lemma {:induction false} FourthRelation(e: Fr, rho1: Fr, rho2: Fr)
    ensures Msm([TicketC(rho1, rho2), ONE, G2_VALUE], [Neg(e), Mul(rho1, e), Mul(rho2, e)]) == 0
  {
    hide Red, Mul, Add, Neg;
    var c := TicketC(rho1, rho2);
    MsmThree(c, Neg(e), ONE, Mul(rho1, e), G2_VALUE, Mul(rho2, e));
    FourthAlgebra(c, e, rho1, G2_VALUE, rho2);
  }

  lemma {:induction false} MsmThree(b: G1, s: Fr, b': G1, s': Fr, b'': G1, s'': Fr)
    ensures Msm([b, b', b''], [s, s', s'']) == Add(Mul(b, s), Add(Mul(b', s'), Mul(b'', s'')))
  {
    hide Red, Mul, Add;
    assert [b, b', b''] == [b] + [b', b''] && [s, s', s''] == [s] + [s', s''];
    MsmConcat([b], [s], [b', b''], [s', s'']);
    MsmOne(b, s);
    MsmTwo(b', s', b'', s'');
  }

  lemma {:induction false} FourthAlgebra(c: Fr, e: Fr, rho1: Fr, g: Fr, rho2: Fr)
    requires c == Add(Mul(ONE, rho1), Mul(g, rho2))
    ensures Add(Mul(c, Neg(e)), Add(Mul(ONE, Mul(rho1, e)), Mul(g, Mul(rho2, e)))) == 0
  {
    hide Mul;
    ProductNeg(c, e);
    FourthC(c, e, rho1, g, rho2);
    FourthBetas(e, rho1, g, rho2);
    var x: int := c * e;
    var y := Add(Mul(ONE, Mul(rho1, e)), Mul(g, Mul(rho2, e)));
    CongruentAdd(Red(0 - x), 0 - x, y, x);
  }

  lemma {:induction false} FourthC(c: Fr, e: Fr, rho1: Fr, g: Fr, rho2: Fr)
    requires c == Add(Mul(ONE, rho1), Mul(g, rho2))
    ensures Red(c * e) == Red(rho1 * e + g * (rho2 * e))
  {
    hide Mul;
    OneTimes(rho1);
    MulIs(g, rho2);
    var x: int := g * rho2;
    CongruentAdd(rho1, rho1, Red(x), x);
    CongruentMul(c, rho1 + x, e, e);
    Distribute(rho1, x, e);
    Associate(g, rho2, e);
  }

  lemma {:induction false} FourthBetas(e: Fr, rho1: Fr, g: Fr, rho2: Fr)
    ensures Add(Mul(ONE, Mul(rho1, e)), Mul(g, Mul(rho2, e))) == Red(rho1 * e + g * (rho2 * e))
  {
    hide Mul;
    MulIs(rho1, e);
    MulIs(rho2, e);
    OneTimes(Mul(rho1, e));
    MulIs(g, Mul(rho2, e));
    var x: int, y: int := rho1 * e, rho2 * e;
    CongruentMul(g, g, Red(y), y);
    CongruentAdd(Red(x), x, Red(g * Red(y)), g * y);
  }

  /** The fifth relation holds for the prover's secrets exactly when the ticket is right. */
  lemma {:induction false} FifthRelation(e: Fr, t: G1, b: G1, rho1: Fr)
    requires rho1 != 0
    ensures Msm([b, t], [Mul(rho1, e), Neg(rho1)]) == 0 <==> t == Mul(b, e)
  {
    MsmTwo(b, Mul(rho1, e), t, Neg(rho1));
    FifthAlgebra(e, t, b, rho1);
  }

  lemma {:induction false} FifthAlgebra(e: Fr, t: Fr, b: Fr, rho1: Fr)
    requires rho1 != 0
    ensures Add(Mul(b, Mul(rho1, e)), Mul(t, Neg(rho1))) == 0 <==> t == Mul(b, e)
  {
    hide Mul;
    MulIs(rho1, e);
    MulIs(b, Mul(rho1, e));
    MulIs(b, e);
    ProductNeg(t, rho1);
    var x: int, y: int := rho1 * e, t * rho1;
    CongruentMul(b, b, Red(x), x);
    CongruentAdd(Red(b * Red(x)), b * x, Red(0 - y), 0 - y);
    ZeroDifference(b * x, y);
    FifthFactor(rho1, b, e, t);
    Cancel(rho1, b * e, t);
  }

  lemma FifthFactor(rho1: int, b: int, e: int, t: int)
    ensures b * (rho1 * e) == rho1 * (b * e) && t * rho1 == rho1 * t
  {
  }

  lemma {:induction false} TicketComplete(core: CredentialProof, e: Fr, t: G1, b: G1, coins: TicketCoins, challenge: Fr)
    requires coins.rho1 != 0
    requires First(core.vc1.responses) == Some(Response(coins.core.e, challenge, Neg(e)))
    ensures ProveTicket(CommitmentsFor(e, t, b, coins), challenge).Ok?
    ensures CheckTicketPart(PoKOfTicketProof(core, ProveTicket(CommitmentsFor(e, t, b, coins), challenge).value), challenge, b, t)
         == Ok(if challenge == 0 || t == Mul(b, e) then Success else BadTicket)
  {
    hide Msm, Red, Mul, Add, Neg;
    var r := CommitmentsFor(e, t, b, coins);
    AcceptedIffOpening(r.pokVc3.bases, r.pokVc3.blindingFactors, r.secrets3, r.c, challenge);
    AcceptedIffOpening(r.pokVc4.bases, r.pokVc4.blindingFactors, r.secrets4, 0, challenge);
    AcceptedIffOpening(r.pokVc5.bases, r.pokVc5.blindingFactors, r.secrets5, 0, challenge);
    MsmTwo(ONE, coins.rho1, G2_VALUE, coins.rho2);
    FourthRelation(e, coins.rho1, coins.rho2);
    FifthRelation(e, t, b, coins.rho1);
  }

  lemma FirstResponse(sig: Signature, key: PublicKey, messages: seq<ProofMessage>, coins: Coins, challenge: Fr)
    requires |messages| == |key.h| && Usable(coins, |messages|)
    ensures PokSignature.ProveCredential(Randomize(sig, key, messages, coins), challenge).Ok?
    ensures First(PokSignature.ProveCredential(Randomize(sig, key, messages, coins), challenge).value.vc1.responses)
         == Some(Response(coins.e, challenge, Neg(sig.e)))
  {
    hide Msm, Red, Mul, Add, Neg;
  }

  /** The verdict on a prover whose signature verifies: the ticket `t` is accepted exactly when it is
      `e * b` (or the challenge is zero); otherwise it is called bad. The assertion on the shared
      response never fires. */
  lemma {:induction false} HonestVerdict(sig: Signature, key: PublicKey, messages: seq<ProofMessage>, t: G1, b: G1, coins: TicketCoins, challenge: Fr)
    requires UsableTicket(coins, |messages|)
    requires VerifySig(sig, AllMessages(messages), key) == Ok(true)
    ensures
      var pok := Start(sig, key, messages, t, b, coins);
      && pok.Ok? && MatchedAll(pok.value)
      && ProveAll(pok.value, challenge).Ok?
      && VerifyTicketProof(ProveAll(pok.value, challenge).value, key, RevealedMessages(messages), challenge, b, t)
         == Ok(if challenge == 0 || t == Mul(b, sig.e) then Success else BadTicket)
  {
    hide Msm, Red, Mul, Add, Neg, Randomize, CommitmentsFor, VerifyVc, HiddenBases, RevealedPoint, PairingHolds,
      PokSignature.ProveCredential, ProveTicket, CheckTicketPart;
    var core := Randomize(sig, key, messages, coins.core);
    SignedKey(sig, AllMessages(messages), key);
    PokSignature.CredentialComplete(sig, key, messages, coins.core, challenge);
    FirstResponse(sig, key, messages, coins.core, challenge);
    var credential := PokSignature.ProveCredential(core, challenge).value;
    TicketComplete(credential, sig.e, t, b, coins, challenge);
  }

  lemma SignedKey(sig: Signature, messages: seq<Fr>, key: PublicKey)
    requires VerifySig(sig, messages, key) == Ok(true)
    ensures key.Validate().Ok? && |messages| == |key.h|
  {
    hide B, Red;
  }

  /** The ticket proof is complete: under the challenge the prover hashes, which is the one the
      verifier recomputes from the proof, the correct ticket is accepted. */
  lemma {:induction false} Completeness(sig: Signature, key: PublicKey, messages: seq<ProofMessage>, b: G1, coins: TicketCoins)
    requires UsableTicket(coins, |messages|)
    requires VerifySig(sig, AllMessages(messages), key) == Ok(true)
    ensures
      var t := Mul(b, sig.e);
      var pok := Start(sig, key, messages, t, b, coins);
      && pok.Ok? && MatchedAll(pok.value)
      && var challenge := HASH_TO_FR(StartBytes(pok.value));
         var proof := ProveAll(pok.value, challenge);
      && proof.Ok?
      && HASH_TO_FR(ProofBytes(proof.value, RevealedIndices(messages), key, b, t)) == challenge
      && VerifyTicketProof(proof.value, key, RevealedMessages(messages), challenge, b, t) == Ok(Success)
  {
    hide Msm, Red, Mul, Add, Neg, Randomize, CommitmentsFor, ProofBytes, StartBytes, ProveAll, VerifyTicketProof;
    var t := Mul(b, sig.e);
    var pok := PoKOfTicket(Randomize(sig, key, messages, coins.core), CommitmentsFor(sig.e, t, b, coins));
    SignedKey(sig, AllMessages(messages), key);
    var challenge := HASH_TO_FR(StartBytes(pok));
    HonestVerdict(sig, key, messages, t, b, coins, challenge);
    SameBytes(sig, key, messages, t, b, coins, challenge);
  }

  /** Acceptance does not determine the ticket: the fifth relation is about a witness of its own, and (0, 0)
      opens it for every ticket, so with its fifth part made from that witness a proof is accepted for any
      `t`, under any challenge. */
  lemma {:induction false} AnyTicketAccepted(sig: Signature, key: PublicKey, messages: seq<ProofMessage>, t: G1, b: G1, coins: TicketCoins, challenge: Fr)
    requires UsableTicket(coins, |messages|)
    requires VerifySig(sig, AllMessages(messages), key) == Ok(true)
    ensures
      var pok := Start(sig, key, messages, t, b, coins);
      && pok.Ok? && MatchedAll(pok.value)
      && var proof, fifth := ProveAll(pok.value, challenge), Prove(pok.value.ticket.pokVc5, challenge, [0, 0]);
      && proof.Ok? && fifth.Ok?
      && VerifyTicketProof(proof.value.(ticket := proof.value.ticket.(vc5 := fifth.value)), key, RevealedMessages(messages), challenge, b, t)
         == Ok(Success)
  {
    hide Msm, Red, Mul, Add, Neg, Randomize, VerifyVc, HiddenBases, RevealedPoint, PairingHolds, VerifyTicketProof,
      PokSignature.ProveCredential;
    var core := Randomize(sig, key, messages, coins.core);
    SignedKey(sig, AllMessages(messages), key);
    PokSignature.CredentialComplete(sig, key, messages, coins.core, challenge);
    FirstResponse(sig, key, messages, coins.core, challenge);
    var credential := PokSignature.ProveCredential(core, challenge).value;
    var ticket := AnyTicketPart(credential, sig.e, t, b, coins, challenge);
    SuccessMeans(PoKOfTicketProof(credential, ticket), key, RevealedMessages(messages), challenge, b, t);
  }

  lemma {:induction false} AnyTicketPart(core: CredentialProof, e: Fr, t: G1, b: G1, coins: TicketCoins, challenge: Fr)
    returns (part: TicketPart)
    requires coins.rho1 != 0
    requires First(core.vc1.responses) == Some(Response(coins.core.e, challenge, Neg(e)))
    ensures ProveTicket(CommitmentsFor(e, t, b, coins), challenge).Ok?
    ensures Prove(CommitmentsFor(e, t, b, coins).pokVc5, challenge, [0, 0]).Ok?
    ensures part == ProveTicket(CommitmentsFor(e, t, b, coins), challenge).value
      .(vc5 := Prove(CommitmentsFor(e, t, b, coins).pokVc5, challenge, [0, 0]).value)
    ensures TicketHolds(PoKOfTicketProof(core, part), challenge, b, t)
  {
    hide Msm, Red, Mul, Add, Neg;
    var r := CommitmentsFor(e, t, b, coins);
    AcceptedIffOpening(r.pokVc3.bases, r.pokVc3.blindingFactors, r.secrets3, r.c, challenge);
    AcceptedIffOpening(r.pokVc4.bases, r.pokVc4.blindingFactors, r.secrets4, 0, challenge);
    AcceptedIffOpening(r.pokVc5.bases, r.pokVc5.blindingFactors, [0, 0], 0, challenge);
    MsmTwo(ONE, coins.rho1, G2_VALUE, coins.rho2);
    FourthRelation(e, coins.rho1, coins.rho2);
    NothingOpens(b, t);
    part := ProveTicket(r, challenge).value.(vc5 := Prove(r.pokVc5, challenge, [0, 0]).value);
  }

  lemma NothingOpens(b: G1, t: G1)
    ensures Msm([b, t], [0, 0]) == 0
  {
    hide Mul;
    MsmTwo(b, 0, t, 0);
    MulIs(b, 0);
    MulIs(t, 0);
  }

  /** What the fifth relation does bind: with a witness (w0, w1), w1 not zero, the ticket is e * b exactly
      when (w0 + e * w1) * b is the identity. */
  lemma {:induction false} FifthBinds(b: G1, t: G1, w0: Fr, w1: Fr, e: Fr)
    requires Add(Mul(b, w0), Mul(t, w1)) == 0 && w1 != 0
    ensures t == Mul(b, e) <==> Mul(b, Add(w0, Mul(e, w1))) == 0
  {
    hide Mul, Red;
    MulIs(b, w0);
    MulIs(t, w1);
    MulIs(b, e);
    MulIs(e, w1);
    MulIs(b, Add(w0, Mul(e, w1)));
    FifthReduced(b, t, w0, w1, e);
  }

  lemma {:induction false} FifthReduced(b: Fr, t: Fr, w0: Fr, w1: Fr, e: Fr)
    requires Red(Red(b * w0) + Red(t * w1)) == 0 && w1 != 0
    ensures t == Red(b * e) <==> Red(b * Red(w0 + Red(e * w1))) == 0
  {
    hide Red;
    FifthSum(b, w0, w1, e);
    FifthFactor(w1, b, e, t);
    var x: int, y: int, z: int := b * w0, t * w1, b * e;
    RedRed(x);
    RedRed(y);
    CongruentAdd(Red(x), x, Red(y), y);
    FifthCases(x, y, w1, z, t);
  }

  lemma FifthCases(x: int, y: int, w1: Fr, z: int, t: Fr)
    requires Red(x + y) == 0 && y == w1 * t && w1 != 0
    ensures t == Red(z) <==> Red(x + w1 * z) == 0
  {
    var u: int := w1 * z;
    CongruentSub(x + y, 0, y - u, y - u);
    ZeroDifference(y, u);
    Cancel(w1, z, t);
    NegatedZero(y - u);
  }

  lemma {:induction false} FifthSum(b: Fr, w0: Fr, w1: Fr, e: Fr)
    ensures Red(b * Red(w0 + Red(e * w1))) == Red(b * w0 + w1 * (b * e))
  {
    var s: int := e * w1;
    CongruentAdd(w0, w0, Red(s), s);
    CongruentMul(b, b, Red(w0 + Red(s)), w0 + s);
    FifthProducts(b, w0, w1, e);
  }

  lemma FifthProducts(b: int, w0: int, w1: int, e: int)
    ensures b * (w0 + e * w1) == b * w0 + w1 * (b * e)
  {
  }

  lemma NegatedZero(x: int)
    ensures Red(0 - x) == 0 <==> Red(x) == 0
  {
    ZeroDifference(0, x);
  }

  // ---------- Special soundness ----------

  ghost predicate SameTicketCommitments(p: PoKOfTicketProof, p': PoKOfTicketProof) {
    && SameCommitments(p.credential, p'.credential)
    && p.ticket.c == p'.ticket.c
    && p.ticket.vc3.commitment == p'.ticket.vc3.commitment
    && p.ticket.vc4.commitment == p'.ticket.vc4.commitment
    && p.ticket.vc5.commitment == p'.ticket.vc5.commitment
  }

  /** Two accepted transcripts with the same commitments and different challenges give a signature
      that verifies over messages with the revealed ones in place, an opening of C, and a
      representation of `e * C` for the very `e` of that signature: the equal first responses force
      both extractions to one value. */
  lemma {:induction false} Soundness(p: PoKOfTicketProof, p': PoKOfTicketProof, key: PublicKey, revealed: Messages, c: Fr, c': Fr, b: G1, t: G1)
    requires c != c' && SameTicketCommitments(p, p')
    requires VerifyTicketProof(p, key, revealed, c, b, t) == VerifyTicketProof(p', key, revealed, c', b, t) == Ok(Success)
    ensures |p.credential.vc1.responses| == |p'.credential.vc1.responses| == 2
    ensures |p.credential.vc2.responses| == |p'.credential.vc2.responses| == 2 + |Outside(|key.h|, revealed.entries.Keys)|
    ensures |p.ticket.vc3.responses| == |p'.ticket.vc3.responses| == 2
    ensures |p.ticket.vc4.responses| == |p'.ticket.vc4.responses| == 3
    ensures |p.ticket.vc5.responses| == |p'.ticket.vc5.responses| == 2
    ensures
      var (sig, messages) := ExtractCredential(p.credential, p'.credential, key, revealed, c, c');
      var w3 := Extract(p.ticket.vc3.responses, p'.ticket.vc3.responses, c, c');
      var w4 := Extract(p.ticket.vc4.responses, p'.ticket.vc4.responses, c, c');
      var w5 := Extract(p.ticket.vc5.responses, p'.ticket.vc5.responses, c, c');
      && VerifySig(sig, messages, key) == (if sig.Validate().Ok? then Ok(true) else Err(MalformedSignature))
      && (forall i :: i in revealed.entries ==> i < |messages| && messages[i] == revealed.entries[i])
      && p.ticket.c == TicketC(w3[0], w3[1])
      && Mul(p.ticket.c, sig.e) == TicketC(w4[1], w4[2])
      && Add(Mul(b, w5[0]), Mul(t, w5[1])) == 0
  {
    hide Msm, VerifySig, Mul, Add, VerifyVc, ExtractCredential;
    SuccessMeans(p, key, revealed, c, b, t);
    SuccessMeans(p', key, revealed, c', b, t);
    CredentialSoundness(p.credential, p'.credential, key, revealed, c, c');
    TicketSoundness(p.ticket, p'.ticket, c, c', b, t);
    ExtractedE(p.credential, p'.credential, p.ticket, p'.ticket, key, revealed, c, c');
  }

  lemma {:induction false} TicketSoundness(p: TicketPart, p': TicketPart, c: Fr, c': Fr, b: G1, t: G1)
    requires c != c' && p.c == p'.c && p.vc3.commitment == p'.vc3.commitment
    requires p.vc4.commitment == p'.vc4.commitment && p.vc5.commitment == p'.vc5.commitment
    requires VerifyVc(p.vc3, [ONE, G2_VALUE], p.c, c) == VerifyVc(p'.vc3, [ONE, G2_VALUE], p.c, c') == Ok(true)
    requires VerifyVc(p.vc4, [p.c, ONE, G2_VALUE], 0, c) == VerifyVc(p'.vc4, [p.c, ONE, G2_VALUE], 0, c') == Ok(true)
    requires VerifyVc(p.vc5, [b, t], 0, c) == VerifyVc(p'.vc5, [b, t], 0, c') == Ok(true)
    ensures |p.vc3.responses| == |p'.vc3.responses| == 2
    ensures |p.vc4.responses| == |p'.vc4.responses| == 3
    ensures |p.vc5.responses| == |p'.vc5.responses| == 2
    ensures
      var w3, w4, w5 := Extract(p.vc3.responses, p'.vc3.responses, c, c'),
                        Extract(p.vc4.responses, p'.vc4.responses, c, c'),
                        Extract(p.vc5.responses, p'.vc5.responses, c, c');
      && p.c == TicketC(w3[0], w3[1])
      && Mul(p.c, Neg(w4[0])) == TicketC(w4[1], w4[2])
      && Add(Mul(b, w5[0]), Mul(t, w5[1])) == 0
  {
    hide Msm, VerifyVc, Mul, Add, Neg, Red, ExtractOne;
    SpecialSoundness(p.vc3, p'.vc3, [ONE, G2_VALUE], p.c, c, c');
    SpecialSoundness(p.vc4, p'.vc4, [p.c, ONE, G2_VALUE], 0, c, c');
    SpecialSoundness(p.vc5, p'.vc5, [b, t], 0, c, c');
    var w3 := Extract(p.vc3.responses, p'.vc3.responses, c, c');
    var w4 := Extract(p.vc4.responses, p'.vc4.responses, c, c');
    var w5 := Extract(p.vc5.responses, p'.vc5.responses, c, c');
    assert w3 == [w3[0], w3[1]] && w4 == [w4[0], w4[1], w4[2]] && w5 == [w5[0], w5[1]];
    MsmTwo(ONE, w3[0], G2_VALUE, w3[1]);
    MsmThree(p.c, w4[0], ONE, w4[1], G2_VALUE, w4[2]);
    MsmTwo(b, w5[0], t, w5[1]);
    MoveNegated(p.c, w4[0], TicketC(w4[1], w4[2]));
  }

  lemma {:induction false} MoveNegated(c: Fr, w: Fr, z: Fr)
    requires Add(Mul(c, w), z) == 0
    ensures Mul(c, Neg(w)) == z
  {
    hide Mul;
    MulIs(c, w);
    ProductNeg(c, w);
    var x: int := c * w;
    CongruentAdd(Red(x), x, z, z);
    CongruentSub(x + z, 0, x, x);
  }

  lemma ExtractedE(p: CredentialProof, p': CredentialProof, q: TicketPart, q': TicketPart, key: PublicKey, revealed: Messages, c: Fr, c': Fr)
    requires c != c' && |p.vc1.responses| == |p'.vc1.responses| == 2
    requires |p.vc2.responses| == |p'.vc2.responses| == 2 + |Outside(|key.h|, revealed.entries.Keys)|
    requires |q.vc4.responses| == |q'.vc4.responses| == 3
    requires First(p.vc1.responses) == First(q.vc4.responses) && First(p'.vc1.responses) == First(q'.vc4.responses)
    ensures ExtractCredential(p, p', key, revealed, c, c').0.e == Neg(Extract(q.vc4.responses, q'.vc4.responses, c, c')[0])
  {
    hide ExtractOne, Red, Neg, Mul, Add;
  }
}
