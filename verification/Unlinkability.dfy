/** What a verifier is shown does not tell holders apart: two credentials under one key that reveal the same
    messages can be shown with the same proofs, whatever they hide. */
module Unlinkability {
  import opened PrimeField
  import opened Group
  import opened Results
  import opened Encoding
  import opened Selection
  import opened PokVc
  import opened Signatures
  import opened Disclosure
  import opened PokSignature
  import PokTicket

  // ---------- Randomising one signature into the points of another ----------

  /** The scalar that takes the point `a` to the point `p`. */
  function Ratio(p: G1, a: G1): Fr
    requires a != 0
  {
    InverseIsInverse(a);
    Mul(p, Inverse(a).value)
  }

  lemma {:induction false} RatioMeans(p: G1, a: G1, x: Fr)
    requires a != 0
    ensures Mul(a, x) == p <==> x == Ratio(p, a)
    ensures p != 0 ==> Ratio(p, a) != 0
  {
    hide Mul;
    InverseIsInverse(a);
    DivisionUnique(x, p, a);
    DivisionUnique(Ratio(p, a), p, a);
    MulIs(a, x);
    MulIs(a, Ratio(p, a));
    Swapped(a, x);
    Swapped(a, Ratio(p, a));
    NoZeroDivisors(a, Ratio(p, a));
  }

  lemma Swapped(x: int, y: int)
    ensures x * y == y * x
  {
  }

  /** Some r2 gives any `d`, and it is zero only for one of them. */
  lemma SecondScalar(b: G1, h0: G1, r1: Fr, d: G1) returns (r2: Fr)
    requires h0 != 0
    ensures D(b, h0, r1, r2) == d
    ensures r2 == 0 <==> Mul(b, r1) == d
  {
    hide Mul, Msm, Add, Neg, Sub, Inverse;
    var z := Sub(Mul(b, r1), d);
    r2 := Ratio(z, h0);
    RatioMeans(z, h0, r2);
    MsmTwo(b, r1, h0, Neg(r2));
    ProductNeg(h0, r2);
    MulIs(h0, r2);
    Undone(Mul(b, r1), d, h0 * r2);
    NoZeroDivisors(h0, r2);
    DistinctDifference(Mul(b, r1), d);
  }

  lemma Undone(x: Fr, d: Fr, y: int)
    requires Red(y) == Sub(x, d)
    ensures Add(x, Red(0 - y)) == d
  {
    CongruentSub(0, 0, y, x - d);
    CongruentAdd(x, x, Red(0 - y), 0 - (x - d));
    RedRed(0 - y);
  }

  /** With r2 not zero, d is not r1 * b. */
  lemma {:induction false} NotPlain(b: G1, h0: G1, r1: Fr, r2: Fr)
    requires h0 != 0 && r2 != 0
    ensures D(b, h0, r1, r2) != Mul(b, r1)
  {
    hide Mul, Msm, Add, Neg;
    MsmTwo(b, r1, h0, Neg(r2));
    ProductNeg(h0, r2);
    NoZeroDivisors(h0, r2);
    ZeroDifference(0, h0 * r2);
    Shifted(Mul(b, r1), Red(0 - h0 * r2));
  }

  lemma Shifted(x: Fr, y: Fr)
    requires y != 0
    ensures Add(x, y) != x
  {
    ZeroDifference(x + y, x);
  }

  // ---------- Every accepted proof comes from some draw ----------

  ghost predicate NoExternal(messages: seq<ProofMessage>) {
    forall i :: 0 <= i < |messages| ==> !messages[i].ExternalBlinding?
  }

  /** The blinding factors for messages that have these factors at the hidden places. */
  lemma DrawnFor(messages: seq<ProofMessage>, factors: seq<Fr>) returns (drawn: seq<Fr>)
    requires NoExternal(messages) && |factors| == |HiddenIndices(messages)|
    ensures |drawn| == |messages| && Pick(Factors(messages, drawn), HiddenIndices(messages)) == factors
  {
    var revealed := RevealedMessages(messages);
    drawn := Place(|messages|, revealed, factors);
    PlaceHidden(|messages|, revealed, factors);
    assert Factors(messages, drawn) == drawn;
  }

  /** A holder can send every proof that is accepted and that shows its randomised signature. */
  lemma {:induction false} ProofExplained(sig: Signature, key: PublicKey, messages: seq<ProofMessage>, r1: Fr, r2: Fr,
                                          p: CredentialProof, challenge: Fr)
    returns (coins: Coins)
    requires |messages| == |key.h| && NoExternal(messages) && r1 != 0 && r2 != 0
    requires var b := B(sig.s, AllMessages(messages), key);
      p.aPrime == APrime(sig, r1) && p.aBar == ABar(sig, b, r1) && p.d == D(b, key.h0, r1, r2)
    requires Accepted(p, key, RevealedMessages(messages), challenge)
    ensures coins.r1 == r1 && coins.r2 == r2 && Usable(coins, |messages|)
    ensures ProveCredential(Randomize(sig, key, messages, coins), challenge) == Ok(p)
  {
    hide Msm, B, Red, Mul, Add, Neg, Sub, VerifyVc, Prove, PairingHolds, Factors, APrime, ABar, D;
    var revealed, hidden, all := RevealedMessages(messages), HiddenIndices(messages), AllMessages(messages);
    var b := B(sig.s, all, key);
    var bases1, secrets1 := [p.aPrime, key.h0], [Neg(sig.e), r2];
    var bases2, secrets2 := SecondBases(p.d, key, hidden), SecondSecrets(sig.s, r1, r2, all, hidden);
    FirstRelation(sig, b, key.h0, r1, r2);
    SecondRelation(sig.s, key, messages, r1, r2);
    assert HiddenBases(p.d, key, revealed) == bases2;
    var k1 := FactorsFor(bases1, secrets1, challenge, p.vc1);
    var k2 := FactorsFor(bases2, secrets2, challenge, p.vc2);
    var drawn := DrawnFor(messages, k2[2..]);
    coins := Coins(r1, r2, k1[0], k1[1], k2[0], k2[1], drawn);
    assert k1 == [coins.e, coins.h01] && k2 == [coins.d, coins.h02] + k2[2..];
  }

  lemma {:induction false} FactorsFor(bases: seq<G1>, secrets: seq<Fr>, challenge: Fr, proof: ProofG1) returns (k: seq<Fr>)
    requires |bases| == |secrets| && VerifyVc(proof, bases, Msm(bases, secrets), challenge) == Ok(true)
    ensures |k| == |bases| && Prove(Committed(bases, k), challenge, secrets) == Ok(proof)
  {
    ExplainedIffAccepted(bases, secrets, challenge, proof);
    k :| |k| == |bases| && Prove(Committed(bases, k), challenge, secrets) == Ok(proof);
  }

  /** So for the ticket proof, if the ticket is the holder's: two accepted responses that agree are what one
      blinding factor for e gives in both relations. */
  lemma {:induction false} TicketExplained(sig: Signature, key: PublicKey, messages: seq<ProofMessage>, r1: Fr, r2: Fr,
                                           rho1: Fr, rho2: Fr,
                                           p: PokTicket.PoKOfTicketProof, b: G1, challenge: Fr)
    returns (coins: PokTicket.TicketCoins)
    requires |messages| == |key.h| && NoExternal(messages) && r1 != 0 && r2 != 0 && rho1 != 0 && rho2 != 0
    requires var point := B(sig.s, AllMessages(messages), key);
      && p.credential.aPrime == APrime(sig, r1) && p.credential.aBar == ABar(sig, point, r1)
      && p.credential.d == D(point, key.h0, r1, r2) && p.ticket.c == PokTicket.TicketC(rho1, rho2)
    requires Accepted(p.credential, key, RevealedMessages(messages), challenge)
    requires PokTicket.TicketHolds(p, challenge, b, Mul(b, sig.e))
    ensures coins.core.r1 == r1 && coins.core.r2 == r2 && coins.rho1 == rho1 && coins.rho2 == rho2
    ensures PokTicket.UsableTicket(coins, |messages|)
    ensures var pok := PokTicket.PoKOfTicket(Randomize(sig, key, messages, coins.core), PokTicket.CommitmentsFor(sig.e, Mul(b, sig.e), b, coins));
      PokTicket.ProveAll(pok, challenge) == Ok(p)
  {
    hide Msm, B, Red, Mul, Add, Neg, Sub, VerifyVc, Randomize, ProveCredential, PokTicket.TicketC, APrime, ABar, D, Accepted;
    var e, t, c := sig.e, Mul(b, sig.e), p.ticket.c;
    var core := ProofExplained(sig, key, messages, r1, r2, p.credential, challenge);
    MsmTwo(ONE, rho1, G2_VALUE, rho2);
    PokTicket.FourthRelation(e, rho1, rho2);
    PokTicket.FifthRelation(e, t, b, rho1);
    assert c == Msm([ONE, G2_VALUE], [rho1, rho2]) by {
      TicketPoint(rho1, rho2);
    }
    var k3 := FactorsFor([ONE, G2_VALUE], [rho1, rho2], challenge, p.ticket.vc3);
    var k4 := FactorsFor([c, ONE, G2_VALUE], [Neg(e), Mul(rho1, e), Mul(rho2, e)], challenge, p.ticket.vc4);
    var k5 := FactorsFor([b, t], [Mul(rho1, e), Neg(rho1)], challenge, p.ticket.vc5);
    SharedFactor(sig, key, messages, core, p, k4, challenge);
    coins := PokTicket.TicketCoins(core, rho1, rho2, k3[0], k3[1], k4[1], k4[2], k5[0], k5[1]);
    assert k3 == [k3[0], k3[1]] && k4 == [core.e, k4[1], k4[2]] && k5 == [k5[0], k5[1]];
  }

  /** The proof a holder sends with these coins about its ticket for the base `b`. */
  ghost predicate SendsTicket(sig: Signature, key: PublicKey, messages: seq<ProofMessage>,
                              coins: PokTicket.TicketCoins, b: G1, challenge: Fr,
                              p: PokTicket.PoKOfTicketProof)
    requires |messages| == |key.h|
  {
    && PokTicket.UsableTicket(coins, |messages|)
    && PokTicket.ProveAll(PokTicket.PoKOfTicket(Randomize(sig, key, messages, coins.core),
                                                PokTicket.CommitmentsFor(sig.e, Mul(b, sig.e), b, coins)), challenge) == Ok(p)
  }

  /** The proof shows this holder's signature, randomised by r1 and r2, and its C for rho1 and rho2. */
  ghost predicate Shows(sig: Signature, key: PublicKey, messages: seq<ProofMessage>, r1: Fr, r2: Fr, rho1: Fr,
                        rho2: Fr, p: PokTicket.PoKOfTicketProof)
    requires |messages| == |key.h|
  {
    var point := B(sig.s, AllMessages(messages), key);
    && p.credential.aPrime == APrime(sig, r1) && p.credential.aBar == ABar(sig, point, r1)
    && p.credential.d == D(point, key.h0, r1, r2) && p.ticket.c == PokTicket.TicketC(rho1, rho2)
  }

  /** A holder can send about its ticket exactly the proofs that show its points and that the verifier accepts,
      under any challenge. */
  lemma {:induction false} TicketSentExactly(sig: Signature, key: PublicKey, messages: seq<ProofMessage>, r1: Fr,
                                             r2: Fr, rho1: Fr, rho2: Fr,
                                             p: PokTicket.PoKOfTicketProof, b: G1, challenge: Fr)
    requires VerifySig(sig, AllMessages(messages), key) == Ok(true) && |messages| == |key.h| && NoExternal(messages)
    requires r1 != 0 && r2 != 0 && rho1 != 0 && rho2 != 0
    ensures
      (exists coins: PokTicket.TicketCoins ::
         && coins.core.r1 == r1 && coins.core.r2 == r2 && coins.rho1 == rho1 && coins.rho2 == rho2
         && SendsTicket(sig, key, messages, coins, b, challenge, p))
      <==>
      Shows(sig, key, messages, r1, r2, rho1, rho2, p)
      && PokTicket.VerifyTicketProof(p, key, RevealedMessages(messages), challenge, b, Mul(b, sig.e)) == Ok(PokTicket.Success)
  {
    hide Msm, B, Red, Mul, Add, Neg, Sub, VerifyVc, Randomize, ProveCredential, PokTicket.TicketC, APrime, ABar, D, Accepted, VerifySig,
      PokTicket.VerifyTicketProof, PokTicket.TicketHolds, PokTicket.ProveTicket;
    var t := Mul(b, sig.e);
    PokTicket.SuccessMeans(p, key, RevealedMessages(messages), challenge, b, t);
    if coins: PokTicket.TicketCoins :|
         && coins.core.r1 == r1 && coins.core.r2 == r2 && coins.rho1 == rho1 && coins.rho2 == rho2
         && SendsTicket(sig, key, messages, coins, b, challenge, p) {
      CheckedMeans(sig, key, messages);
      PokTicket.HonestVerdict(sig, key, messages, t, b, coins, challenge);
      SentShows(sig, key, messages, coins, b, challenge, p);
    }
    if Shows(sig, key, messages, r1, r2, rho1, rho2, p)
       && PokTicket.VerifyTicketProof(p, key, RevealedMessages(messages), challenge, b, t) == Ok(PokTicket.Success) {
      var coins := TicketExplained(sig, key, messages, r1, r2, rho1, rho2, p, b, challenge);
      assert SendsTicket(sig, key, messages, coins, b, challenge, p);
    }
  }

  lemma SentShows(sig: Signature, key: PublicKey, messages: seq<ProofMessage>, coins: PokTicket.TicketCoins, b: G1,
                  challenge: Fr, p: PokTicket.PoKOfTicketProof)
    requires |messages| == |key.h| && SendsTicket(sig, key, messages, coins, b, challenge, p)
    ensures Shows(sig, key, messages, coins.core.r1, coins.core.r2, coins.rho1, coins.rho2, p)
  {
    hide Msm, B, Red, Mul, Add, Neg, Sub;
  }

  lemma TicketPoint(rho1: Fr, rho2: Fr)
    ensures PokTicket.TicketC(rho1, rho2) == Msm([ONE, G2_VALUE], [rho1, rho2])
  {
    hide Msm, Mul, Add;
    MsmTwo(ONE, rho1, G2_VALUE, rho2);
  }

  /** Equal responses for one secret have equal factors. */
  lemma {:induction false} SharedFactor(sig: Signature, key: PublicKey, messages: seq<ProofMessage>, coins: Coins,
                                        p: PokTicket.PoKOfTicketProof, k: seq<Fr>, challenge: Fr)
    requires |messages| == |key.h| && Usable(coins, |messages|)
    requires ProveCredential(Randomize(sig, key, messages, coins), challenge) == Ok(p.credential)
    requires |p.ticket.vc4.responses| == |k| == 3 && p.ticket.vc4.responses[0] == Response(k[0], challenge, Neg(sig.e))
    requires PokTicket.First(p.credential.vc1.responses) == PokTicket.First(p.ticket.vc4.responses)
    ensures coins.e == k[0]
  {
    hide Msm, Red, Mul, Add, Neg, Sub;
    PokTicket.FirstResponse(sig, key, messages, coins, challenge);
    ResponseInverse(coins.e, challenge, Neg(sig.e), p.ticket.vc4.responses[0]);
    ResponseInverse(k[0], challenge, Neg(sig.e), p.ticket.vc4.responses[0]);
  }

  // ---------- Two holders ----------

  /** The proof a holder sends for a nonce. */
  ghost function Sent(s: Showing, nonce: Fr): SignatureProof
    requires s.Fits()
  {
    s.Proof(HASH_TO_FR(CoreBytes(s.Core()) + SerFr(nonce, false)))
  }

  ghost predicate Sends(s: Showing, coins: Coins, nonce: Fr, proof: SignatureProof) {
    |s.messages| == |s.key.h| && Usable(coins, |s.messages|) && Sent(s.(coins := coins), nonce) == proof
  }

  /** Of two holders of signatures under one key that reveal the same messages, the second can send, with some
      draw, exactly the proof that the first sends, unless the point d of that proof is the one that would
      need an r2 of zero. Signatures, hidden messages and which messages are hidden may differ otherwise. */
  lemma {:induction false} Unlinkable(s: Showing, s': Showing, nonce: Fr)
    requires s.Honest() && s'.Honest() && s.key == s'.key
    requires RevealedMessages(s.messages) == RevealedMessages(s'.messages) && NoExternal(s'.messages)
    ensures s'.sig.a != 0
    ensures (exists coins :: Sends(s', coins, nonce, Sent(s, nonce)))
       <==> s.Core().d != Mul(B(s'.sig.s, AllMessages(s'.messages), s'.key), Ratio(s.Core().aPrime, s'.sig.a))
  {
    hide Randomize, ProveCredential, VerifySig, CoreBytes, SerFr, B, Mul, Sent, D;
    SignedEquation(s'.sig, AllMessages(s'.messages), s'.key);
    var d, b' := s.Core().d, B(s'.sig.s, AllMessages(s'.messages), s'.key);
    var r1 := Ratio(s.Core().aPrime, s'.sig.a);
    if d != Mul(b', r1) {
      var coins := OtherDraw(s, s', nonce);
      assert Sends(s', coins, nonce, Sent(s, nonce));
    }
    if coins :| Sends(s', coins, nonce, Sent(s, nonce)) {
      SamePoints(s, s'.(coins := coins), nonce);
      RatioMeans(s.Core().aPrime, s'.sig.a, coins.r1);
      KeyPoint(s'.sig, s'.messages, s'.key);
      NotPlain(b', s'.key.h0, coins.r1, coins.r2);
    }
  }

  lemma KeyPoint(sig: Signature, messages: seq<ProofMessage>, key: PublicKey)
    requires VerifySig(sig, AllMessages(messages), key) == Ok(true)
    ensures key.h0 != 0
  {
    hide B, Red;
  }

  /** Equal proofs have equal points. */
  lemma SamePoints(s: Showing, s': Showing, nonce: Fr)
    requires s.Fits() && s'.Fits() && Sent(s', nonce) == Sent(s, nonce)
    ensures Mul(s'.sig.a, s'.coins.r1) == s.Core().aPrime
    ensures D(B(s'.sig.s, AllMessages(s'.messages), s'.key), s'.key.h0, s'.coins.r1, s'.coins.r2) == s.Core().d
  {
    hide Msm, B, Mul, Red, CoreBytes;
    ProvesPoints(s, HASH_TO_FR(CoreBytes(s.Core()) + SerFr(nonce, false)));
    ProvesPoints(s', HASH_TO_FR(CoreBytes(s'.Core()) + SerFr(nonce, false)));
  }

  lemma ProvesPoints(s: Showing, challenge: Fr)
    requires s.Fits()
    ensures s.Proof(challenge).proof.aPrime == s.Core().aPrime == Mul(s.sig.a, s.coins.r1)
    ensures s.Proof(challenge).proof.d == s.Core().d
         == D(B(s.sig.s, AllMessages(s.messages), s.key), s.key.h0, s.coins.r1, s.coins.r2)
  {
    hide Msm, B, Mul, Red;
  }

  /** The draw with which the second holder sends the first one's proof. */
  lemma {:induction false} OtherDraw(s: Showing, s': Showing, nonce: Fr) returns (coins: Coins)
    requires s.Honest() && s'.Honest() && s.key == s'.key && s'.sig.a != 0
    requires RevealedMessages(s.messages) == RevealedMessages(s'.messages) && NoExternal(s'.messages)
    requires s.Core().d != Mul(B(s'.sig.s, AllMessages(s'.messages), s'.key), Ratio(s.Core().aPrime, s'.sig.a))
    ensures Sends(s', coins, nonce, Sent(s, nonce))
  {
    hide Msm, Randomize, ProveCredential, VerifySig, CoreBytes, CredentialBytes, SerFr, B, Mul, D, Accepted, VerifyProof, ABar;
    var key, b' := s.key, B(s'.sig.s, AllMessages(s'.messages), s'.key);
    var challenge := HASH_TO_FR(CoreBytes(s.Core()) + SerFr(nonce, false));
    var p := s.Proof(challenge).proof;
    var r1 := Ratio(s.Core().aPrime, s'.sig.a);
    KeyPoint(s.sig, s.messages, key);
    CredentialComplete(s.sig, key, s.messages, s.coins, challenge);
    ProvesPoints(s, challenge);
    ShownNonZero(p, key, RevealedMessages(s.messages), challenge);
    RatioMeans(p.aPrime, s'.sig.a, r1);
    var r2 := SecondScalar(b', key.h0, r1, p.d);
    SameBar(s'.sig, b', key, r1, AllMessages(s'.messages), p, RevealedMessages(s.messages), challenge);
    coins := ProofExplained(s'.sig, key, s'.messages, r1, r2, p, challenge);
    SameBytes(s.sig, key, s.messages, s.coins, challenge);
    SameBytes(s'.sig, key, s'.messages, coins, challenge);
  }

  lemma ShownNonZero(p: CredentialProof, key: PublicKey, revealed: Messages, challenge: Fr)
    requires InRange(revealed, key) && Accepted(p, key, revealed, challenge)
    ensures p.aPrime != 0 && Mul(p.aPrime, key.w) == p.aBar
  {
    hide VerifyVc, HiddenBases, RevealedPoint, Mul, Add, Neg;
    PairingCheck(p.aPrime, key.w, p.aBar);
  }

  /** The pairing equation leaves one point for aBar. */
  lemma SameBar(sig: Signature, b: G1, key: PublicKey, r1: Fr, messages: seq<Fr>, p: CredentialProof,
                revealed: Messages, challenge: Fr)
    requires VerifySig(sig, messages, key) == Ok(true) && b == B(sig.s, messages, key) && p.aPrime == APrime(sig, r1)
    requires InRange(revealed, key) && Accepted(p, key, revealed, challenge)
    ensures p.aBar == ABar(sig, b, r1)
  {
    hide VerifyVc, HiddenBases, RevealedPoint, Mul, Add, Neg, B, VerifySig, APrime, ABar;
    SignedEquation(sig, messages, key);
    RandomizedPairing(sig, b, key, r1);
    PairingCheck(p.aPrime, key.w, p.aBar);
    PairingCheck(APrime(sig, r1), key.w, ABar(sig, b, r1));
  }
}
