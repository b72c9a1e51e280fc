/** What the signature proof and the ticket proof share: randomising a signature, committing to its
    secrets and the hidden messages, and the verifier's two equations (section 4.5 of eprint 2016/663). */
module Disclosure {
  import opened PrimeField
  import opened Group
  import opened Results
  import opened Selection
  import opened PokVc
  import opened Signatures
  import Issuance

  datatype ProofMessage =
    | Revealed(message: Fr)
    | ProofSpecificBlinding(message: Fr)
    | ExternalBlinding(message: Fr, factor: Fr)
  {
    function GetMessage(): Fr { message }
  }

  function AllMessages(messages: seq<ProofMessage>): (m: seq<Fr>)
    ensures |m| == |messages|
  {
    seq(|messages|, i requires 0 <= i < |messages| => messages[i].GetMessage())
  }

  /** The blinding factor for each message: the external one if given, otherwise a drawn one. */
  function Factors(messages: seq<ProofMessage>, drawn: seq<Fr>): (k: seq<Fr>)
    requires |drawn| == |messages|
    ensures |k| == |messages|
  {
    seq(|messages|, i requires 0 <= i < |messages| =>
      if messages[i].ExternalBlinding? then messages[i].factor else drawn[i])
  }

  function RevealedIndices(messages: seq<ProofMessage>): set<nat> {
    set i: nat | i < |messages| && messages[i].Revealed?
  }

  function HiddenIndices(messages: seq<ProofMessage>): (idx: seq<nat>)
    ensures Ascending(idx) && forall i :: 0 <= i < |idx| ==> idx[i] < |messages|
  {
    OutsideElements(|messages|, RevealedIndices(messages));
    Outside(|messages|, RevealedIndices(messages))
  }

  /** The map of revealed messages a proof is sent with. */
  function RevealedMessages(messages: seq<ProofMessage>): (m: Messages)
    ensures m.keys == Inside(|messages|, RevealedIndices(messages))
    ensures m.entries.Keys == RevealedIndices(messages)
    ensures forall i :: 0 <= i < |m.keys| ==> m.keys[i] < |messages|
    ensures Values(m) == Pick(AllMessages(messages), m.keys)
  {
    InsideElements(|messages|, RevealedIndices(messages));
    var m := Restrict(AllMessages(messages), Inside(|messages|, RevealedIndices(messages)));
    assert m.entries.Keys == RevealedIndices(messages) by {
      forall k: nat ensures k in m.entries <==> k in RevealedIndices(messages) {
      }
    }
    m
  }

  /** The random scalars behind a proof about a signature: `r1`, `r2`, and blinding factors for
      `e`, for h0 in the first relation, for d and h0 in the second, and for each message. */
  datatype Coins = Coins(r1: Fr, r2: Fr, e: Fr, h01: Fr, d: Fr, h02: Fr, messages: seq<Fr>)

  ghost predicate Usable(coins: Coins, n: nat) {
    coins.r1 != 0 && coins.r2 != 0 && |coins.messages| == n
  }

  /** The blinding factors are drawn non-zero. */
  ghost predicate Drawn(coins: Coins) {
    coins.e != 0 && coins.h01 != 0 && coins.d != 0 && coins.h02 != 0 && 0 !in coins.messages
  }

  /** A randomised signature with its two committed relations and their secrets. */
  datatype Randomized = Randomized(aPrime: G1, aBar: G1, d: G1,
    pokVc1: ProverCommittedG1, secrets1: seq<Fr>, pokVc2: ProverCommittedG1, secrets2: seq<Fr>)

  // ---------- The prover's specification ----------

  function APrime(sig: Signature, r1: Fr): G1 { Mul(sig.a, r1) }

  function ABar(sig: Signature, b: G1, r1: Fr): G1 {
    Sub(Mul(b, r1), Mul(APrime(sig, r1), sig.e))
  }

  /** d = B^r1 * h0^-r2 */
  function D(b: G1, h0: G1, r1: Fr, r2: Fr): G1 { Msm([b, h0], [r1, Neg(r2)]) }

  /** s' = s - r2 * r3 */
  function SPrime(s: Fr, r2: Fr, r3: Fr): Fr { Add(Neg(Mul(r2, r3)), s) }

  function SecondBases(d: G1, key: PublicKey, hidden: seq<nat>): (bases: seq<G1>)
    requires forall i :: 0 <= i < |hidden| ==> hidden[i] < |key.h|
    ensures |bases| == 2 + |hidden|
  {
    [d, key.h0] + Pick(key.h, hidden)
  }

  /** What the prover shows it knows in the second relation: -r3, s' and the hidden messages. */
  function SecondSecrets(s: Fr, r1: Fr, r2: Fr, all: seq<Fr>, hidden: seq<nat>): (secrets: seq<Fr>)
    requires r1 != 0 && forall i :: 0 <= i < |hidden| ==> hidden[i] < |all|
    ensures |secrets| == 2 + |hidden|
  {
    InverseIsInverse(r1);
    var r3 := Inverse(r1).value;
    [Neg(r3), SPrime(s, r2, r3)] + Pick(all, hidden)
  }

  /** What the prover holds for a signature that verifies. */
  function Randomize(sig: Signature, key: PublicKey, messages: seq<ProofMessage>, coins: Coins): (r: Randomized)
    requires |messages| == |key.h| && Usable(coins, |messages|)
    ensures |r.pokVc1.bases| == |r.pokVc1.blindingFactors| == |r.secrets1|
    ensures |r.pokVc2.bases| == |r.pokVc2.blindingFactors| == |r.secrets2|
  {
    var all, hidden := AllMessages(messages), HiddenIndices(messages);
    var b := B(sig.s, all, key);
    var aPrime, d := APrime(sig, coins.r1), D(b, key.h0, coins.r1, coins.r2);
    Randomized(aPrime, ABar(sig, b, coins.r1), d,
      Committed([aPrime, key.h0], [coins.e, coins.h01]),
      [Neg(sig.e), coins.r2],
      Committed(SecondBases(d, key, hidden), [coins.d, coins.h02] + Pick(Factors(messages, coins.messages), hidden)),
      SecondSecrets(sig.s, coins.r1, coins.r2, all, hidden))
  }

  /** The checks before randomising: one message for each generator, and a signature that verifies. */
  function CheckSigned(sig: Signature, key: PublicKey, messages: seq<ProofMessage>): Result<()> {
    if |messages| != |key.h| then Err(MessageCountMismatch(|key.h|, |messages|))
    else
      var valid :- VerifySig(sig, AllMessages(messages), key);
      if valid then Ok(()) else Err(PoKVCError)
  }

  /** A prover may start exactly if there is a message for each generator and the signature verifies for
      them; which error it gets otherwise. */
  lemma CheckedMeans(sig: Signature, key: PublicKey, messages: seq<ProofMessage>)
    ensures var r, all := CheckSigned(sig, key, messages), AllMessages(messages);
      && (r.Ok? <==> |messages| == |key.h| && VerifySig(sig, all, key) == Ok(true))
      && (r == Err(PoKVCError) <==> |messages| == |key.h| && VerifySig(sig, all, key) == Ok(false))
      && (r == Err(MessageCountMismatch(|key.h|, |messages|)) <==> |messages| != |key.h|)
      && (|messages| == |key.h| && VerifySig(sig, all, key).Err? ==> r == Err(VerifySig(sig, all, key).error))
      && r != Panic
  {
    hide B, Red;
  }

  method CheckMessages(sig: Signature, key: PublicKey, messages: seq<ProofMessage>) returns (result: Result<()>)
    ensures result == CheckSigned(sig, key, messages)
  {
    if |messages| != |key.h| {
      return Err(MessageCountMismatch(|key.h|, |messages|));
    }
    var valid :- CheckSignature(sig, AllMessages(messages), key);
    if !valid {
      return Err(PoKVCError);
    }
    return Ok(());
  }

  /** Commits to the hidden messages in index order. */
  method CommitHidden(key: PublicKey, messages: seq<ProofMessage>, drawn: seq<Fr>, committing: ProverCommittingG1)
    returns (secrets: seq<Fr>)
    requires committing.Valid() && |messages| == |key.h| == |drawn| && 0 !in drawn
    modifies committing
    ensures committing.Valid()
    ensures secrets == Pick(AllMessages(messages), HiddenIndices(messages))
    ensures committing.bases == old(committing.bases) + Pick(key.h, HiddenIndices(messages))
    ensures committing.blindingFactors
         == old(committing.blindingFactors) + Pick(Factors(messages, drawn), HiddenIndices(messages))
  {
    secrets := [];
    ghost var shown, all, factors := RevealedIndices(messages), AllMessages(messages), Factors(messages, drawn);
    ghost var bases, blindings := committing.bases, committing.blindingFactors;
    NoneHidden(all, key.h, factors, shown);
    assert HiddenIndices(messages) == Outside(|messages|, shown);
    hide RevealedIndices, AllMessages, Factors, Pick, Outside, HiddenIndices;
    for i := 0 to |messages|
      invariant committing.Valid()
      invariant secrets == Pick(all, Outside(i, shown))
      invariant committing.bases == bases + Pick(key.h, Outside(i, shown))
      invariant committing.blindingFactors == blindings + Pick(factors, Outside(i, shown))
    {
      HiddenStep(messages, drawn, key.h, i);
      match messages[i] {
        case Revealed(_) =>
        case ProofSpecificBlinding(m) =>
          var _ := committing.Commit(key.h[i], drawn[i]);
          secrets := secrets + [m];
        case ExternalBlinding(m, factor) =>
          var _ := committing.CommitWith(key.h[i], factor);
          secrets := secrets + [m];
      }
    }
  }

  lemma {:induction false} NoneHidden(a: seq<Fr>, b: seq<Fr>, c: seq<Fr>, shown: set<nat>)
    ensures Pick(a, Outside(0, shown)) == [] && Pick(b, Outside(0, shown)) == [] && Pick(c, Outside(0, shown)) == []
  {
  }

  /** What one message adds. */
  lemma {:induction false} HiddenStep(messages: seq<ProofMessage>, drawn: seq<Fr>, h: seq<Fr>, i: nat)
    requires |drawn| == |messages| == |h| && i < |messages|
    ensures
      var shown, all, factors := RevealedIndices(messages), AllMessages(messages), Factors(messages, drawn);
      var idx, next := Outside(i, shown), Outside(i + 1, shown);
      if messages[i].Revealed? then next == idx
      else
        && Pick(all, next) == Pick(all, idx) + [messages[i].GetMessage()]
        && Pick(h, next) == Pick(h, idx) + [h[i]]
        && Pick(factors, next) == Pick(factors, idx) + [if messages[i].ExternalBlinding? then messages[i].factor else drawn[i]]
  {
    MessageAt(messages, drawn, i);
    var shown, all, factors := RevealedIndices(messages), AllMessages(messages), Factors(messages, drawn);
    hide RevealedIndices, AllMessages, Factors;
    OutsideNext(i, shown);
    hide Outside;
    Extend(all, h, factors, Outside(i, shown), i);
  }

  lemma MessageAt(messages: seq<ProofMessage>, drawn: seq<Fr>, i: nat)
    requires |drawn| == |messages| && i < |messages|
    ensures i in RevealedIndices(messages) <==> messages[i].Revealed?
    ensures AllMessages(messages)[i] == messages[i].GetMessage()
    ensures Factors(messages, drawn)[i] == if messages[i].ExternalBlinding? then messages[i].factor else drawn[i]
  {
  }

  lemma Extend(a: seq<Fr>, b: seq<Fr>, c: seq<Fr>, idx: seq<nat>, k: nat)
    requires |a| == |b| == |c| && k < |a| && forall i :: 0 <= i < |idx| ==> idx[i] < |a|
    ensures Pick(a, idx + [k]) == Pick(a, idx) + [a[k]]
    ensures Pick(b, idx + [k]) == Pick(b, idx) + [b[k]]
    ensures Pick(c, idx + [k]) == Pick(c, idx) + [c[k]]
  {
  }

  /** Randomises a verified signature; `e` is committed to with a factor the caller may share. */
  method CommitCredential(sig: Signature, key: PublicKey, messages: seq<ProofMessage>, coins: Coins)
    returns (r: Randomized)
    requires |messages| == |key.h| && Usable(coins, |messages|) && Drawn(coins)
    ensures r == Randomize(sig, key, messages, coins)
  {
    var bSig := GetB(sig, AllMessages(messages), key);
    var aPrime := sig.a;
    aPrime := Mul(aPrime, coins.r1);
    var aBarDenom := aPrime;
    aBarDenom := Mul(aBarDenom, sig.e);
    var aBar := bSig;
    aBar := Mul(aBar, coins.r1);
    aBar := Sub(aBar, aBarDenom);

    var builder := new Issuance.CommitmentBuilder();
    builder.Add(bSig, coins.r1);
    builder.Add(key.h0, Neg(coins.r2));
    assert builder.bases == [bSig, key.h0] && builder.scalars == [coins.r1, Neg(coins.r2)];
    var d := builder.Finalize();

    InverseIsInverse(coins.r1);
    var r3 := Inverse(coins.r1).value;
    var sPrime := coins.r2;
    sPrime := Mul(sPrime, r3);
    sPrime := Neg(sPrime);
    sPrime := Add(sPrime, sig.s);

    var pokVc1 := CommitPair(aPrime, coins.e, key.h0, coins.h01);
    var secrets1 := [Neg(sig.e), coins.r2];
    var pokVc2, hidden := CommitSecond(d, key, messages, coins);
    var secrets2 := [Neg(r3), sPrime] + hidden;
    r := Randomized(aPrime, aBar, d, pokVc1, secrets1, pokVc2, secrets2);
  }

  method CommitPair(p: G1, kp: Fr, q: G1, kq: Fr) returns (committed: ProverCommittedG1)
    requires kq != 0
    ensures committed == Committed([p, q], [kp, kq])
  {
    var committing := new ProverCommittingG1();
    var _ := committing.CommitWith(p, kp);
    var _ := committing.Commit(q, kq);
    assert committing.bases == [p, q] && committing.blindingFactors == [kp, kq];
    committed := committing.Finish();
  }

  method CommitSecond(d: G1, key: PublicKey, messages: seq<ProofMessage>, coins: Coins)
    returns (committed: ProverCommittedG1, hidden: seq<Fr>)
    requires |messages| == |key.h| && Usable(coins, |messages|) && Drawn(coins)
    ensures hidden == Pick(AllMessages(messages), HiddenIndices(messages))
    ensures committed == Committed(SecondBases(d, key, HiddenIndices(messages)),
      [coins.d, coins.h02] + Pick(Factors(messages, coins.messages), HiddenIndices(messages)))
  {
    var committing := new ProverCommittingG1();
    var _ := committing.Commit(d, coins.d);
    var _ := committing.Commit(key.h0, coins.h02);
    assert committing.bases == [d, key.h0] && committing.blindingFactors == [coins.d, coins.h02];
    hidden := CommitHidden(key, messages, coins.messages, committing);
    committed := committing.Finish();
  }

  // ---------- The verifier's statements ----------

  /** The public side of the second relation: the inverse of g1 and the revealed messages. */
  function RevealedPoint(key: PublicKey, revealed: Messages): G1
    requires forall i :: 0 <= i < |revealed.keys| ==> revealed.keys[i] < |key.h|
  {
    Neg(Msm([ONE] + Pick(key.h, revealed.keys), [1] + Values(revealed)))
  }

  function HiddenBases(d: G1, key: PublicKey, revealed: Messages): seq<G1> {
    SecondBases(d, key, Outside(|key.h|, revealed.entries.Keys))
  }

  /** The revealed messages among the first `n`, in order. */
  function ValuesBelow(revealed: Messages, n: nat): seq<Fr> {
    if n == 0 then []
    else if n - 1 in revealed.entries then ValuesBelow(revealed, n - 1) + [revealed.entries[n - 1]]
    else ValuesBelow(revealed, n - 1)
  }

  lemma {:induction false} ValuesBelowAt(revealed: Messages, n: nat)
    ensures |ValuesBelow(revealed, n)| == |Inside(n, revealed.entries.Keys)|
    ensures forall j :: 0 <= j < |Inside(n, revealed.entries.Keys)| ==>
      && Inside(n, revealed.entries.Keys)[j] in revealed.entries
      && ValuesBelow(revealed, n)[j] == revealed.entries[Inside(n, revealed.entries.Keys)[j]]
  {
    if n > 0 {
      ValuesBelowAt(revealed, n - 1);
    }
  }

  lemma {:induction false} AllValues(revealed: Messages, n: nat)
    requires forall i :: 0 <= i < |revealed.keys| ==> revealed.keys[i] < n
    ensures Inside(n, revealed.entries.Keys) == revealed.keys && ValuesBelow(revealed, n) == Values(revealed)
  {
    InsideIsKeys(revealed, n);
    ValuesBelowAt(revealed, n);
  }

  /** Both are computed in one pass over the generators. */
  method SplitGenerators(d: G1, key: PublicKey, revealed: Messages) returns (hiddenBases: seq<G1>, point: G1)
    requires forall i :: 0 <= i < |revealed.keys| ==> revealed.keys[i] < |key.h|
    ensures hiddenBases == HiddenBases(d, key, revealed)
    ensures point == RevealedPoint(key, revealed)
  {
    hiddenBases := [d, key.h0];
    var basesDisclosed, exponents := [ONE], [1];
    ghost var keys := revealed.entries.Keys;
    for i := 0 to |key.h|
      invariant hiddenBases == [d, key.h0] + Pick(key.h, Outside(i, keys))
      invariant basesDisclosed == [ONE] + Pick(key.h, Inside(i, keys))
      invariant exponents == [1] + ValuesBelow(revealed, i)
    {
      if i in revealed.entries {
        PickSnoc(key.h, Inside(i, keys), i);
        basesDisclosed := basesDisclosed + [key.h[i]];
        exponents := exponents + [revealed.entries[i]];
      } else {
        PickSnoc(key.h, Outside(i, keys), i);
        hiddenBases := hiddenBases + [key.h[i]];
      }
    }
    AllValues(revealed, |key.h|);
    point := Msm(basesDisclosed, exponents);
    point := Neg(point);
  }

  lemma {:induction false} InsideIsKeys(m: Messages, n: nat)
    requires forall i :: 0 <= i < |m.keys| ==> m.keys[i] < n
    ensures Inside(n, m.entries.Keys) == m.keys
  {
    InsideElements(n, m.entries.Keys);
    AscendingUnique(Inside(n, m.entries.Keys), m.keys);
  }

  /** e(a', w) == e(a_bar, g2) */
  function PairingHolds(aPrime: G1, aBar: G1, key: PublicKey): bool {
    Add(Pair(aPrime, key.w), Pair(Neg(aBar), ONE)) == 0
  }

  // ---------- The relations as sums of points ----------

  lemma {:induction false} SecondMsm(d: G1, key: PublicKey, hidden: seq<nat>, u: Fr, v: Fr, m: seq<Fr>)
    requires |m| == |key.h| && forall i :: 0 <= i < |hidden| ==> hidden[i] < |key.h|
    ensures Msm(SecondBases(d, key, hidden), [u, v] + Pick(m, hidden))
         == Add(Add(Mul(d, u), Mul(key.h0, v)), Msm(Pick(key.h, hidden), Pick(m, hidden)))
  {
    hide Red, Mul, Add, Pick;
    MsmConcat([d, key.h0], [u, v], Pick(key.h, hidden), Pick(m, hidden));
    MsmTwo(d, u, key.h0, v);
  }

  lemma RevealedMsm(key: PublicKey, open: seq<nat>, m: seq<Fr>)
    requires |m| == |key.h| && forall i :: 0 <= i < |open| ==> open[i] < |key.h|
    ensures Msm([ONE] + Pick(key.h, open), [1] + Pick(m, open))
         == Add(ONE, Msm(Pick(key.h, open), Pick(m, open)))
  {
    hide Red, Mul, Add, Pick;
    MsmConcat([ONE], [1], Pick(key.h, open), Pick(m, open));
    MsmOne(ONE, 1);
    MulOne(ONE);
  }

  /** `B` is g1 + s*h0, plus the messages outside a set of indices, plus those inside. */
  lemma {:induction false} BParts(s: Fr, m: seq<Fr>, key: PublicKey, shown: set<nat>)
    requires |m| == |key.h|
    ensures B(s, m, key) == Add(Add(ONE, Mul(key.h0, s)),
      Add(Msm(Pick(key.h, Outside(|m|, shown)), Pick(m, Outside(|m|, shown))),
          Msm(Pick(key.h, Inside(|m|, shown)), Pick(m, Inside(|m|, shown)))))
  {
    hide Red, Mul, Add, Pick;
    assert key.h[..|key.h|] == key.h && m[..|key.h|] == m;
    MsmConcat([ONE, key.h0], [1, s], key.h, m);
    MsmTwo(ONE, 1, key.h0, s);
    MulOne(ONE);
    MsmSplit(key.h, m, shown);
  }

  // ---------- Completeness of the shared relations ----------

  lemma FirstRelation(sig: Signature, b: G1, h0: G1, r1: Fr, r2: Fr)
    ensures Sub(ABar(sig, b, r1), D(b, h0, r1, r2)) == Msm([APrime(sig, r1), h0], [Neg(sig.e), r2])
  {
    hide Msm;
    var a' := APrime(sig, r1);
    MsmTwo(b, r1, h0, Neg(r2));
    MsmTwo(a', Neg(sig.e), h0, r2);
    FirstAlgebra(b, r1, a', sig.e, h0, r2);
  }

  lemma {:induction false} FirstAlgebra(b: Fr, r1: Fr, a': Fr, e: Fr, h0: Fr, r2: Fr)
    ensures Sub(Sub(Mul(b, r1), Mul(a', e)), Add(Mul(b, r1), Mul(h0, Neg(r2)))) == Add(Mul(a', Neg(e)), Mul(h0, r2))
  {
    hide Mul;
    MulIs(b, r1);
    MulIs(a', e);
    MulIs(h0, r2);
    ProductNeg(h0, r2);
    ProductNeg(a', e);
    FirstSum(b * r1, a' * e, h0 * r2, Mul(b, r1), Mul(a', e), Mul(h0, r2), Mul(h0, Neg(r2)), Mul(a', Neg(e)));
  }

  lemma {:induction false} ProductNeg(x: Fr, y: Fr)
    ensures Mul(x, Neg(y)) == Red(0 - x * y)
  {
    hide Mul;
    MulIs(x, Neg(y));
    CongruentMul(x, x, Neg(y), 0 - y);
    Negate(x, y);
  }

  lemma FirstSum(p: int, q: int, t: int, p': Fr, q': Fr, t': Fr, nt: Fr, nq: Fr)
    requires p' == Red(p) && q' == Red(q) && t' == Red(t) && nt == Red(0 - t) && nq == Red(0 - q)
    ensures Sub(Sub(p', q'), Add(p', nt)) == Add(nq, t')
  {
    FirstLeft(p, q, t, p', q', nt);
    CongruentAdd(nq, 0 - q, t', t);
    assert p - q - (p - t) == 0 - q + t;
  }

  lemma FirstLeft(p: int, q: int, t: int, p': Fr, q': Fr, nt: Fr)
    requires p' == Red(p) && q' == Red(q) && nt == Red(0 - t)
    ensures Sub(Sub(p', q'), Add(p', nt)) == Red(p - q - (p - t))
  {
    CongruentSub(p', p, q', q);
    CongruentAdd(p', p, nt, 0 - t);
    CongruentSub(Sub(p', q'), p - q, Add(p', nt), p + (0 - t));
  }

  /** The pairing equation of the randomised signature follows from that of the signature. */
  lemma RandomizedPairing(sig: Signature, b: G1, key: PublicKey, r1: Fr)
    requires Mul(sig.a, Add(sig.e, key.w)) == b
    ensures PairingHolds(APrime(sig, r1), ABar(sig, b, r1), key)
  {
    hide Mul;
    PairingCheck(APrime(sig, r1), key.w, ABar(sig, b, r1));
    MulIs(sig.a, Add(sig.e, key.w));
    MulIs(sig.a, r1);
    MulIs(APrime(sig, r1), key.w);
    MulIs(APrime(sig, r1), sig.e);
    MulIs(b, r1);
    PairingAlgebra(sig.a, sig.e, key.w, b, r1);
  }

  lemma PairingAlgebra(a: int, e: int, w: int, b: int, r1: int)
    requires Red(a * Red(e + w)) == Red(b)
    ensures Red(Red(a * r1) * w) == Red(Red(b * r1) - Red(Red(a * r1) * e))
  {
    CongruentMul(a, a, Red(e + w), e + w);
    CongruentMul(b, a * (e + w), r1, r1);
    CongruentMul(Red(a * r1), a * r1, w, w);
    CongruentMul(Red(a * r1), a * r1, e, e);
    CongruentSub(Red(b * r1), a * (e + w) * r1, Red(Red(a * r1) * e), a * r1 * e);
    PairingIdentity(a, e, w, r1);
  }

  lemma PairingIdentity(a: int, e: int, w: int, r1: int)
    ensures a * (e + w) * r1 - a * r1 * e == a * r1 * w
  {
  }

  /** The prover's secrets open the second relation. */
  lemma SecondRelation(s: Fr, key: PublicKey, messages: seq<ProofMessage>, r1: Fr, r2: Fr)
    requires |messages| == |key.h| && r1 != 0
    ensures var all, hidden := AllMessages(messages), HiddenIndices(messages);
      RevealedPoint(key, RevealedMessages(messages))
      == Msm(SecondBases(D(B(s, all, key), key.h0, r1, r2), key, hidden), SecondSecrets(s, r1, r2, all, hidden))
  {
    hide Red, Mul, Add, Neg, Msm, Pick, B;
    InverseIsInverse(r1);
    var r3 := Inverse(r1).value;
    var all, shown := AllMessages(messages), RevealedIndices(messages);
    var hidden, open := HiddenIndices(messages), Inside(|messages|, shown);
    var b := B(s, all, key);
    var d := D(b, key.h0, r1, r2);
    MsmTwo(b, r1, key.h0, Neg(r2));
    BParts(s, all, key, shown);
    RevealedMsm(key, open, all);
    SecondMsm(d, key, hidden, Neg(r3), SPrime(s, r2, r3), all);
    SecondAlgebra(b, key.h0, s, r1, r2, r3, d,
      Msm(Pick(key.h, hidden), Pick(all, hidden)), Msm(Pick(key.h, open), Pick(all, open)));
  }

  lemma {:induction false} SecondAlgebra(b: Fr, h0: Fr, s: Fr, r1: Fr, r2: Fr, r3: Fr, d: Fr, hid: Fr, rev: Fr)
    requires Red(r1 * r3) == 1
    requires b == Add(Add(ONE, Mul(h0, s)), Add(hid, rev)) && d == Add(Mul(b, r1), Mul(h0, Neg(r2)))
    ensures Neg(Add(ONE, rev)) == Add(Add(Mul(d, Neg(r3)), Mul(h0, SPrime(s, r2, r3))), hid)
  {
    hide Mul;
    MulIs(h0, s);
    DPart(b, r1, r3, h0, r2, d);
    SPart(h0, s, r2, r3);
    SecondPoints(Mul(d, Neg(r3)), h0 * (r2 * r3), Mul(h0, SPrime(s, r2, r3)), h0 * s, Mul(h0, s), b, hid, rev);
  }

  lemma {:induction false} DPart(b: Fr, r1: Fr, r3: Fr, h0: Fr, r2: Fr, d: Fr)
    requires Red(r1 * r3) == 1 && d == Add(Mul(b, r1), Mul(h0, Neg(r2)))
    ensures Mul(d, Neg(r3)) == Red(h0 * (r2 * r3) - b)
  {
    hide Mul;
    MulIs(b, r1);
    MulIs(d, Neg(r3));
    ProductNeg(h0, r2);
    CongruentAdd(Mul(b, r1), b * r1, Mul(h0, Neg(r2)), 0 - h0 * r2);
    SecondDPart(b, r1, r3, h0, r2, r2 * r3, d, Neg(r3));
  }

  lemma {:induction false} SPart(h0: Fr, s: Fr, r2: Fr, r3: Fr)
    ensures Mul(h0, SPrime(s, r2, r3)) == Red(h0 * s - h0 * (r2 * r3))
  {
    hide Mul, SPrime;
    MulIs(h0, SPrime(s, r2, r3));
    SPrimeCongruent(s, r2, r3);
    SecondSPart(h0, s, r2 * r3, SPrime(s, r2, r3));
  }

  lemma SecondPoints(p: Fr, q: int, t: Fr, hs: int, hs': Fr, b: Fr, hid: Fr, rev: Fr)
    requires p == Red(q - b) && t == Red(hs - q) && hs' == Red(hs)
    requires b == Add(Add(ONE, hs'), Add(hid, rev))
    ensures Neg(Add(ONE, rev)) == Add(Add(p, t), hid)
  {
    SumOfPoints(1, hs, (hid as int) + rev);
    SecondSum(p, q, t, hs, b, hid, rev);
    SumOfPoints(p, t, hid);
  }

  lemma {:induction false} SPrimeCongruent(s: Fr, r2: Fr, r3: Fr)
    ensures Red(SPrime(s, r2, r3)) == Red(s - r2 * r3)
  {
    hide Mul, Red;
    MulIs(r2, r3);
    var q: int := r2 * r3;
    NegatedReduction(q);
    CongruentAdd(Neg(Mul(r2, r3)), 0 - q, s, s);
    RedRed(Neg(Mul(r2, r3)) + s);
  }

  lemma NegatedReduction(q: int)
    ensures Red(Red(0 - Red(q))) == Red(0 - q)
  {
    CongruentSub(0, 0, Red(q), q);
    RedRed(0 - Red(q));
  }

  /** The second relation from its parts: `p` and `t` are what d and h0 contribute, `q` what they
      have in common, `hs` the part of `b` at h0. */
  lemma SecondSum(p: int, q: int, t: int, hs: int, b: int, hid: int, rev: int)
    requires Red(p) == Red(q - b) && Red(t) == Red(hs - q)
    requires Red(b) == Red(1 + hs + (hid + rev))
    ensures Red(0 - Red(1 + rev)) == Red(p + t + hid)
  {
    CongruentAdd(p, q - b, t, hs - q);
    CongruentAdd(p + t, hs - b, hid, hid);
    CongruentSub(hs + hid, hs + hid, b, 1 + hs + (hid + rev));
    CongruentSub(0, 0, Red(1 + rev), 1 + rev);
  }

  lemma SecondDPart(b: int, r1: int, r3: int, h0: int, r2: int, q: int, d: int, u: int)
    requires Red(r1 * r3) == 1 && q == r2 * r3
    requires Red(d) == Red(b * r1 - h0 * r2) && Red(u) == Red(0 - r3)
    ensures Red(d * u) == Red(h0 * q - b)
  {
    CongruentMul(d, b * r1 - h0 * r2, u, 0 - r3);
    DPartIdentity(b, r1, r3, h0, r2);
    CongruentMul(b, b, r1 * r3, 1);
    CongruentSub(h0 * q, h0 * q, b * (r1 * r3), b);
  }

  lemma DPartIdentity(b: int, r1: int, r3: int, h0: int, r2: int)
    ensures (b * r1 - h0 * r2) * (0 - r3) == h0 * (r2 * r3) - b * (r1 * r3)
  {
  }

  lemma SecondSPart(h0: int, s: int, q: int, v: int)
    requires Red(v) == Red(s - q)
    ensures Red(h0 * v) == Red(h0 * s - h0 * q)
  {
    DistributeLeft(h0, s, q);
    CongruentMul(h0, h0, v, s - q);
  }

  // ---------- Special soundness of the shared relations ----------

  /** The part of a proof that is about the signature. */
  datatype CredentialProof = CredentialProof(aPrime: G1, aBar: G1, d: G1, vc1: ProofG1, vc2: ProofG1)

  ghost predicate InRange(revealed: Messages, key: PublicKey) {
    forall i :: 0 <= i < |revealed.keys| ==> revealed.keys[i] < |key.h|
  }

  /** All equations about the signature hold. */
  ghost predicate Accepted(p: CredentialProof, key: PublicKey, revealed: Messages, challenge: Fr)
    requires InRange(revealed, key)
  {
    && p.aPrime != 0
    && PairingHolds(p.aPrime, p.aBar, key)
    && VerifyVc(p.vc1, [p.aPrime, key.h0], Sub(p.aBar, p.d), challenge) == Ok(true)
    && VerifyVc(p.vc2, HiddenBases(p.d, key, revealed), RevealedPoint(key, revealed), challenge) == Ok(true)
  }

  ghost predicate SameCommitments(p: CredentialProof, p': CredentialProof) {
    && p.aPrime == p'.aPrime && p.aBar == p'.aBar && p.d == p'.d
    && p.vc1.commitment == p'.vc1.commitment && p.vc2.commitment == p'.vc2.commitment
  }

  /** A message vector from its revealed entries and the hidden ones in index order. */
  function Place(n: nat, revealed: Messages, values: seq<Fr>): (m: seq<Fr>)
    requires |values| == |Outside(n, revealed.entries.Keys)|
    ensures |m| == n
  {
    if n == 0 then []
    else if n - 1 in revealed.entries then Place(n - 1, revealed, values) + [revealed.entries[n - 1]]
    else Place(n - 1, revealed, values[..|values| - 1]) + [values[|values| - 1]]
  }

  lemma {:induction false} PlaceHidden(n: nat, revealed: Messages, values: seq<Fr>)
    requires |values| == |Outside(n, revealed.entries.Keys)|
    ensures Pick(Place(n, revealed, values), Outside(n, revealed.entries.Keys)) == values
  {
    hide Pick;
    if n > 0 {
      var idx := Outside(n - 1, revealed.entries.Keys);
      if n - 1 in revealed.entries {
        PlaceHidden(n - 1, revealed, values);
        PickAppend(Place(n - 1, revealed, values), revealed.entries[n - 1], idx);
      } else {
        var rest, last := values[..|values| - 1], values[|values| - 1];
        PlaceHidden(n - 1, revealed, rest);
        PickLast(Place(n - 1, revealed, rest), last, idx);
      }
    } else {
      PickNone(Place(0, revealed, values));
    }
  }

  lemma {:induction false} PlaceShown(n: nat, revealed: Messages, values: seq<Fr>)
    requires |values| == |Outside(n, revealed.entries.Keys)|
    ensures Pick(Place(n, revealed, values), Inside(n, revealed.entries.Keys)) == ValuesBelow(revealed, n)
  {
    hide Pick;
    if n > 0 {
      var idx := Inside(n - 1, revealed.entries.Keys);
      if n - 1 in revealed.entries {
        PlaceShown(n - 1, revealed, values);
        PickAppend(Place(n - 1, revealed, values), revealed.entries[n - 1], idx);
        PickSnoc(Place(n, revealed, values), idx, n - 1);
      } else {
        var rest, last := values[..|values| - 1], values[|values| - 1];
        PlaceShown(n - 1, revealed, rest);
        PickAppend(Place(n - 1, revealed, rest), last, idx);
      }
    } else {
      PickNone(Place(0, revealed, values));
    }
  }

  lemma PickNone(m: seq<Fr>)
    ensures Pick(m, []) == []
  {
  }

  lemma PickLast(m: seq<Fr>, x: Fr, idx: seq<nat>)
    requires forall i :: 0 <= i < |idx| ==> idx[i] < |m|
    ensures Pick(m + [x], idx + [|m|]) == Pick(m, idx) + [x]
  {
  }

  lemma PickAppend(m: seq<Fr>, x: Fr, idx: seq<nat>)
    requires forall i :: 0 <= i < |idx| ==> idx[i] < |m|
    ensures Pick(m + [x], idx) == Pick(m, idx)
  {
  }

  lemma {:induction false} PlaceRevealed(n: nat, revealed: Messages, values: seq<Fr>, i: nat)
    requires |values| == |Outside(n, revealed.entries.Keys)| && i < n && i in revealed.entries
    ensures Place(n, revealed, values)[i] == revealed.entries[i]
  {
    if i < n - 1 {
      PlaceRevealed(n - 1, revealed, if n - 1 in revealed.entries then values else values[..|values| - 1], i);
    }
  }

  /** The credential two transcripts give away. */
  function ExtractCredential(p: CredentialProof, p': CredentialProof, key: PublicKey, revealed: Messages, c: Fr, c': Fr): (r: (Signature, seq<Fr>))
    requires c != c' && |p.vc1.responses| == |p'.vc1.responses| == 2
    requires |p.vc2.responses| == |p'.vc2.responses| == 2 + |Outside(|key.h|, revealed.entries.Keys)|
    ensures |r.1| == |key.h|
  {
    var w := Extract(p.vc1.responses, p'.vc1.responses, c, c');
    var u := Extract(p.vc2.responses, p'.vc2.responses, c, c');
    var r3 := Neg(u[0]);
    (Signature(Mul(p.aPrime, r3), Neg(w[0]), Add(u[1], Mul(r3, w[1]))), Place(|key.h|, revealed, u[2..]))
  }

  lemma AcceptedLengths(p: CredentialProof, key: PublicKey, revealed: Messages, challenge: Fr)
    requires InRange(revealed, key) && Accepted(p, key, revealed, challenge)
    ensures |p.vc1.responses| == 2 && |p.vc2.responses| == 2 + |Outside(|key.h|, revealed.entries.Keys)|
  {
    AcceptedHasResponses(p.vc1, [p.aPrime, key.h0], Sub(p.aBar, p.d), challenge);
    AcceptedHasResponses(p.vc2, HiddenBases(p.d, key, revealed), RevealedPoint(key, revealed), challenge);
  }

  /** d from the first relation and the pairing: `k` stands for `w + e`. */
  lemma ExtractD(a': int, w: int, aBar: int, d: int, w0: int, h0: int, w1: int)
    requires Red(a' * w) == Red(aBar) && Red(aBar - d) == Red(a' * w0 + h0 * w1)
    ensures Red(d) == Red(a' * (w - w0) - h0 * w1)
  {
    CongruentSub(aBar, a' * w, aBar - d, a' * w0 + h0 * w1);
    DistributeLeft(a', w, w0);
  }

  lemma ExtractScaled(a': int, k: int, d: int, h0: int, w1: int, r3: int)
    requires Red(d) == Red(a' * k - h0 * w1)
    ensures Red(d * r3) == Red((a' * r3) * k - h0 * (r3 * w1))
  {
    CongruentMul(d, a' * k - h0 * w1, r3, r3);
    ScaledIdentity(a', k, h0, w1, r3);
  }

  lemma ScaledIdentity(a': int, k: int, h0: int, w1: int, r3: int)
    ensures (a' * k - h0 * w1) * r3 == (a' * r3) * k - h0 * (r3 * w1)
  {
  }

  /** The signature equation from its parts: `x` is (r3 a')(w + e), `du` is d*u0, `dr` is d*r3,
      `t` and `q` are the parts of s at h0. */
  lemma ExtractSum(x: int, du: int, dr: int, t: int, q: int, hid: int, rev: int)
    requires Red(dr) == Red(x - q) && Red(dr) == Red(0 - du)
    requires Red(0 - Red(1 + rev)) == Red(du + t + hid)
    ensures Red(x) == Red(1 + (t + q) + (hid + rev))
  {
    hide Red;
    ExtractFirst(du, t, hid, rev);
    CongruentAdd(1 + rev + t + hid, 0 - du, q, q);
    CongruentAdd(0 - du, x - q, q, q);
    assert 1 + rev + t + hid + q == 1 + (t + q) + (hid + rev) && x - q + q == x;
  }

  lemma ExtractFirst(du: int, t: int, hid: int, rev: int)
    requires Red(0 - Red(1 + rev)) == Red(du + t + hid)
    ensures Red(1 + rev + t + hid) == Red(0 - du)
  {
    var sum := du + t + hid;
    CongruentSub(0, 0, Red(1 + rev), 1 + rev);
    CongruentSub(0, 0, 0 - (1 + rev), sum);
    CongruentAdd(1 + rev, 0 - sum, t + hid, t + hid);
    assert 0 - sum + (t + hid) == 0 - du;
  }

  lemma ExtractAlgebra(a': int, w: int, aBar: int, d: int, w0: int, w1: int, h0: int, u0: int, u1: int, r3: int, q: int, hid: int, rev: int)
    requires Red(a' * w) == Red(aBar) && Red(aBar - d) == Red(a' * w0 + h0 * w1)
    requires Red(0 - Red(1 + rev)) == Red(d * u0 + h0 * u1 + hid)
    requires Red(r3) == Red(0 - u0) && q == r3 * w1
    ensures Red((a' * r3) * (w - w0)) == Red(1 + (h0 * u1 + h0 * q) + (hid + rev))
  {
    ExtractD(a', w, aBar, d, w0, h0, w1);
    ExtractScaled(a', w - w0, d, h0, w1, r3);
    CongruentMul(d, d, r3, 0 - u0);
    Negate(d, u0);
    ExtractSum((a' * r3) * (w - w0), d * u0, d * r3, h0 * u1, h0 * q, hid, rev);
  }

  /** From unreduced products to the extracted signature. */
  lemma ExtractReduce(a': Fr, r3: Fr, w0: Fr, w: Fr, u1: Fr, w1: Fr, h0: Fr, rest: int)
    requires Red((a' * r3) * (w - w0)) == Red(1 + (h0 * u1 + h0 * (r3 * w1)) + rest)
    ensures Red(Mul(a', r3) * Add(Neg(w0), w)) == Red(1 + h0 * Add(u1, Mul(r3, w1)) + rest)
  {
    hide Mul;
    MulIs(a', r3);
    MulIs(r3, w1);
    var p: int, q: int, d: int := a' * r3, r3 * w1, (w as int) - w0;
    CongruentAdd(Red(0 - w0), 0 - w0, w, w);
    CongruentMul(Red(p), p, Add(Neg(w0), w), d);
    CongruentAdd(u1, u1, Red(q), q);
    CongruentMul(h0, h0, Add(u1, Red(q)), u1 + q);
    ReduceSum(h0, u1, q);
    CongruentAdd(h0 * Add(u1, Red(q)), h0 * u1 + h0 * q, 1 + rest, 1 + rest);
  }

  lemma ReduceSum(h0: int, u: int, q: int)
    ensures h0 * (u + q) == h0 * u + h0 * q
  {
  }

  lemma {:induction false} WitnessAlgebra(a': Fr, w: Fr, aBar: Fr, d: Fr, w0: Fr, w1: Fr, h0: Fr, u0: Fr, u1: Fr, hid: Fr, rev: Fr)
    requires Mul(a', w) == aBar && Sub(aBar, d) == Add(Mul(a', w0), Mul(h0, w1))
    requires Neg(Add(ONE, rev)) == Add(Add(Mul(d, u0), Mul(h0, u1)), hid)
    ensures Mul(Mul(a', Neg(u0)), Add(Neg(w0), w))
         == Add(Add(ONE, Mul(h0, Add(u1, Mul(Neg(u0), w1)))), Add(hid, rev))
  {
    hide Mul;
    MulIs(a', w);
    MulIs(a', w0);
    MulIs(h0, w1);
    MulIs(d, u0);
    MulIs(h0, u1);
    MulIs(Mul(a', Neg(u0)), Add(Neg(w0), w));
    MulIs(h0, Add(u1, Mul(Neg(u0), w1)));
    CongruentAdd(Mul(a', w0), a' * w0, Mul(h0, w1), h0 * w1);
    SumOfPoints(d * u0, h0 * u1, hid);
    ExtractAlgebra(a', w, aBar, d, w0, w1, h0, u0, u1, Neg(u0), Neg(u0) * w1, hid, rev);
    ExtractReduce(a', Neg(u0), w0, w, u1, w1, h0, (hid as int) + rev);
    SumOfPoints(1, h0 * Add(u1, Mul(Neg(u0), w1)), (hid as int) + rev);
  }

  lemma {:induction false} CredentialFromWitness(aPrime: G1, aBar: G1, d: G1, key: PublicKey, revealed: Messages, w: seq<Fr>, u: seq<Fr>)
    requires InRange(revealed, key) && |w| == 2 && |u| == 2 + |Outside(|key.h|, revealed.entries.Keys)|
    requires PairingHolds(aPrime, aBar, key)
    requires Msm([aPrime, key.h0], w) == Sub(aBar, d)
    requires Msm(HiddenBases(d, key, revealed), u) == RevealedPoint(key, revealed)
    ensures Mul(Mul(aPrime, Neg(u[0])), Add(Neg(w[0]), key.w))
         == B(Add(u[1], Mul(Neg(u[0]), w[1])), Place(|key.h|, revealed, u[2..]), key)
  {
    hide Msm, B, Red, Mul, Add, Neg, Sub, Pick, Place, Inside, Outside, ValuesBelow;
    var m, hidden := Place(|key.h|, revealed, u[2..]), Outside(|key.h|, revealed.entries.Keys);
    PlaceHidden(|key.h|, revealed, u[2..]);
    PlaceShown(|key.h|, revealed, u[2..]);
    AllValues(revealed, |key.h|);
    BParts(Add(u[1], Mul(Neg(u[0]), w[1])), m, key, revealed.entries.Keys);
    PairingCheck(aPrime, key.w, aBar);
    assert w == [w[0], w[1]];
    MsmTwo(aPrime, w[0], key.h0, w[1]);
    assert u == [u[0], u[1]] + Pick(m, hidden);
    SecondMsm(d, key, hidden, u[0], u[1], m);
    RevealedMsm(key, revealed.keys, m);
    WitnessAlgebra(aPrime, key.w, aBar, d, w[0], w[1], key.h0, u[0], u[1],
      Msm(Pick(key.h, hidden), Pick(m, hidden)), Msm(Pick(key.h, revealed.keys), Pick(m, revealed.keys)));
  }

  /** Two accepted transcripts with the same commitments and different challenges give a BBS+
      signature: the extracted values satisfy the signature equation over a message vector that
      has the revealed messages in their places. */
  lemma CredentialEquation(p: CredentialProof, p': CredentialProof, key: PublicKey, revealed: Messages, c: Fr, c': Fr)
    requires InRange(revealed, key) && c != c' && SameCommitments(p, p')
    requires Accepted(p, key, revealed, c) && Accepted(p', key, revealed, c')
    ensures |p.vc1.responses| == |p'.vc1.responses| == 2
    ensures |p.vc2.responses| == |p'.vc2.responses| == 2 + |Outside(|key.h|, revealed.entries.Keys)|
    ensures var (sig, messages) := ExtractCredential(p, p', key, revealed, c, c');
      Mul(sig.a, Add(sig.e, key.w)) == B(sig.s, messages, key)
  {
    hide Msm;
    AcceptedLengths(p, key, revealed, c);
    AcceptedLengths(p', key, revealed, c');
    SpecialSoundness(p.vc1, p'.vc1, [p.aPrime, key.h0], Sub(p.aBar, p.d), c, c');
    SpecialSoundness(p.vc2, p'.vc2, HiddenBases(p.d, key, revealed), RevealedPoint(key, revealed), c, c');
    var w := Extract(p.vc1.responses, p'.vc1.responses, c, c');
    var u := Extract(p.vc2.responses, p'.vc2.responses, c, c');
    CredentialFromWitness(p.aPrime, p.aBar, p.d, key, revealed, w, u);
  }

  /** What special soundness means for the verifier of plain signatures: the extracted signature
      verifies unless one of its components is degenerate. */
  lemma CredentialSoundness(p: CredentialProof, p': CredentialProof, key: PublicKey, revealed: Messages, c: Fr, c': Fr)
    requires key.Validate().Ok? && InRange(revealed, key) && c != c' && SameCommitments(p, p')
    requires Accepted(p, key, revealed, c) && Accepted(p', key, revealed, c')
    ensures |p.vc1.responses| == |p'.vc1.responses| == 2
    ensures |p.vc2.responses| == |p'.vc2.responses| == 2 + |Outside(|key.h|, revealed.entries.Keys)|
    ensures var (sig, messages) := ExtractCredential(p, p', key, revealed, c, c');
      && VerifySig(sig, messages, key) == (if sig.Validate().Ok? then Ok(true) else Err(MalformedSignature))
      && (forall i :: i in revealed.entries ==> i < |messages| && messages[i] == revealed.entries[i])
  {
    hide Msm;
    CredentialEquation(p, p', key, revealed, c, c');
    var (sig, messages) := ExtractCredential(p, p', key, revealed, c, c');
    PairingEquation(sig.a, sig.e, key.w, B(sig.s, messages, key));
    var u := Extract(p.vc2.responses, p'.vc2.responses, c, c');
    forall i | i in revealed.entries ensures i < |messages| && messages[i] == revealed.entries[i] {
      assert i in revealed.keys;
      PlaceRevealed(|key.h|, revealed, u[2..], i);
    }
  }
}
