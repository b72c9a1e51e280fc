/** BBS+ signatures over known messages (sections 4.3 of eprint 2016/663). */
module Signatures {
  import opened PrimeField
  import opened Group
  import opened Results

  datatype PublicKey = PublicKey(h0: G1, h: seq<G1>, w: G2) {

    function MessageCount(): nat { |h| }

    /** No generator may be the identity. */
    function Validate(): Result<()> {
      if h0 == 0 || w == 0 || 0 in h then Err(MalformedPublicKey) else Ok(())
    }
  }

  type SecretKey = Fr

  /** `w` commits to the secret key. */
  ghost predicate KeyPair(sk: SecretKey, key: PublicKey) {
    key.w == Mul(ONE, sk)
  }

  datatype Signature = Signature(a: G1, e: Fr, s: Fr) {

    function Validate(): Result<()> {
      if a == 0 || e == 0 || s == 0 then Err(MalformedSignature) else Ok(())
    }
  }

  /** `B`: the point the signer divides by `x + e`, over the messages both sides have. */
  function B(s: Fr, messages: seq<Fr>, key: PublicKey): G1 {
    var n := if |key.h| <= |messages| then |key.h| else |messages|;
    Msm([ONE, key.h0] + key.h[..n], [1, s] + messages[..n])
  }

  method ComputeB(s: Fr, messages: seq<Fr>, key: PublicKey) returns (b: G1)
    ensures b == B(s, messages, key)
  {
    var bases, scalars := [ONE], [1];
    bases, scalars := bases + [key.h0], scalars + [s];
    var min := if |key.h| <= |messages| then |key.h| else |messages|;
    for i := 0 to min
      invariant bases == [ONE, key.h0] + key.h[..i]
      invariant scalars == [1, s] + messages[..i]
    {
      bases := bases + [key.h[i]];
      scalars := scalars + [messages[i]];
    }
    b := Msm(bases, scalars);
  }

  /** As `ComputeB`, for a signature at hand; it indexes one message for each generator. */
  method GetB(sig: Signature, messages: seq<Fr>, key: PublicKey) returns (b: G1)
    requires |messages| >= |key.h|
    ensures b == B(sig.s, messages, key)
  {
    var bases, scalars := [ONE], [1];
    bases, scalars := bases + [key.h0], scalars + [sig.s];
    for i := 0 to |key.h|
      invariant bases == [ONE, key.h0] + key.h[..i]
      invariant scalars == [1, sig.s] + messages[..i]
    {
      bases := bases + [key.h[i]];
      scalars := scalars + [messages[i]];
    }
    b := Msm(bases, scalars);
  }

  /** What signing gives for the drawn `e` and `s`; `x + e == 0` has no inverse to unwrap. */
  function Sign(messages: seq<Fr>, sk: SecretKey, key: PublicKey, e: Fr, s: Fr): Result<Signature> {
    if |messages| > |key.h| then Err(MessageCountMismatch(|key.h|, |messages|))
    else if sk == 0 then Err(MalformedSecretKey)
    else
      var _ :- key.Validate();
      match Inverse(Add(sk, e))
      case None => Panic
      case Some(i) => Ok(Signature(Mul(B(s, messages, key), i), e, s))
  }

  method NewSignature(messages: seq<Fr>, sk: SecretKey, key: PublicKey, e: Fr, s: Fr) returns (result: Result<Signature>)
    requires e != 0 && s != 0
    ensures result == Sign(messages, sk, key, e, s)
  {
    if |messages| > |key.h| {
      return Err(MessageCountMismatch(|key.h|, |messages|));
    }
    if sk == 0 {
      return Err(MalformedSecretKey);
    }
    var _ :- key.Validate();
    var b := ComputeB(s, messages, key);
    var exp := sk;
    exp := Add(exp, e);
    var inverse := Inverse(exp);
    if inverse.None? {
      return Panic;
    }
    b := Mul(b, inverse.value);
    return Ok(Signature(b, e, s));
  }

  /** e(A, w * g2^e) == e(B, g2), after the checks on lengths, key and signature. */
  function VerifySig(sig: Signature, messages: seq<Fr>, key: PublicKey): Result<bool> {
    if |messages| != |key.h| then Err(MessageCountMismatch(|key.h|, |messages|))
    else
      var _ :- key.Validate();
      var _ :- sig.Validate();
      Ok(Add(Pair(sig.a, Add(Mul(ONE, sig.e), key.w)), Pair(Neg(B(sig.s, messages, key)), ONE)) == 0)
  }

  method CheckSignature(sig: Signature, messages: seq<Fr>, key: PublicKey) returns (result: Result<bool>)
    ensures result == VerifySig(sig, messages, key)
  {
    if |messages| != |key.h| {
      return Err(MessageCountMismatch(|key.h|, |messages|));
    }
    var _ :- key.Validate();
    var _ :- sig.Validate();
    var a: G2 := ONE;
    a := Mul(a, sig.e);
    a := Add(a, key.w);
    var b := GetB(sig, messages, key);
    b := Neg(b);
    var product := Add(Pair(sig.a, a), Pair(b, ONE));
    return Ok(product == 0);
  }

  // ---------- What a signature is ----------

  lemma {:induction false} BDot(s: Fr, messages: seq<Fr>, key: PublicKey)
    requires |messages| == |key.h|
    ensures B(s, messages, key) == Red(1 + key.h0 * s + Dot(key.h, messages))
  {
    assert key.h[..|key.h|] == key.h && messages[..|key.h|] == messages;
    MsmIsDot([ONE, key.h0] + key.h, [1, s] + messages);
    DotConcat([ONE, key.h0], [1, s], key.h, messages);
    DotTwo(ONE, 1, key.h0, s);
  }

  /** For fewer or more messages than generators: only as many as both sides have count. */
  lemma {:induction false} BMeans(s: Fr, messages: seq<Fr>, key: PublicKey)
    ensures var n := if |key.h| <= |messages| then |key.h| else |messages|;
      B(s, messages, key) == Red(1 + key.h0 * s + Dot(key.h[..n], messages[..n]))
  {
    var n := if |key.h| <= |messages| then |key.h| else |messages|;
    MsmIsDot([ONE, key.h0] + key.h[..n], [1, s] + messages[..n]);
    DotConcat([ONE, key.h0], [1, s], key.h[..n], messages[..n]);
    DotTwo(ONE, 1, key.h0, s);
  }

  /** A message that is missing counts as zero. */
  lemma {:induction false} BShort(s: Fr, messages: seq<Fr>, key: PublicKey, zeros: seq<Fr>)
    requires |messages| + |zeros| == |key.h| && forall i :: 0 <= i < |zeros| ==> zeros[i] == 0
    ensures B(s, messages, key) == B(s, messages + zeros, key)
  {
    hide B, Dot;
    var n := |messages|;
    BMeans(s, messages, key);
    BDot(s, messages + zeros, key);
    assert messages[..n] == messages && key.h == key.h[..n] + key.h[n..];
    DotConcat(key.h[..n], messages, key.h[n..], zeros);
    DotZeros(key.h[n..], zeros);
  }

  lemma {:induction false} PairingEquation(a: G1, e: Fr, w: G2, b: G1)
    ensures Add(Pair(a, Add(Mul(ONE, e), w)), Pair(Neg(b), ONE)) == 0 <==> Mul(a, Add(e, w)) == b
  {
    hide Mul;
    OneTimes(e);
    PairingCheck(a, Add(e, w), b);
  }

  /** When signing gives a signature, and which: the point that x + e times gives B. Otherwise the first of
      the errors that applies, or a panic. */
  lemma SignMeans(messages: seq<Fr>, sk: SecretKey, key: PublicKey, e: Fr, s: Fr)
    ensures var r := Sign(messages, sk, key, e, s);
      && (r.Ok? <==> |messages| <= |key.h| && sk != 0 && key.Validate().Ok? && Add(sk, e) != 0)
      && (r.Ok? ==> forall a :: r.value == Signature(a, e, s) <==> Mul(a, Add(sk, e)) == B(s, messages, key))
      && (r == Err(MessageCountMismatch(|key.h|, |messages|)) <==> |messages| > |key.h|)
      && (r == Err(MalformedSecretKey) <==> |messages| <= |key.h| && sk == 0)
      && (r == Err(MalformedPublicKey) <==> |messages| <= |key.h| && sk != 0 && !key.Validate().Ok?)
  {
    hide B, Mul, Inverse, Red;
    InverseOfZero(Add(sk, e));
    if Add(sk, e) != 0 {
      forall a: G1 ensures a == Mul(B(s, messages, key), Inverse(Add(sk, e)).value) <==> Mul(a, Add(sk, e)) == B(s, messages, key) {
        MulIs(a, Add(sk, e));
        DivisionUnique(a, B(s, messages, key), Add(sk, e));
      }
    }
  }

  /** When verification accepts: all is in order and the pairing equation holds. It never panics. */
  lemma VerifyMeans(sig: Signature, messages: seq<Fr>, key: PublicKey)
    ensures var r := VerifySig(sig, messages, key);
      var inOrder := |messages| == |key.h| && key.Validate().Ok? && sig.Validate().Ok?;
      && (r == Ok(true) <==> inOrder && Mul(sig.a, Add(sig.e, key.w)) == B(sig.s, messages, key))
      && (r == Ok(false) <==> inOrder && Mul(sig.a, Add(sig.e, key.w)) != B(sig.s, messages, key))
      && (r == Err(MessageCountMismatch(|key.h|, |messages|)) <==> |messages| != |key.h|)
      && (r == Err(MalformedPublicKey) <==> |messages| == |key.h| && !key.Validate().Ok?)
      && (r == Err(MalformedSignature) <==> |messages| == |key.h| && key.Validate().Ok? && !sig.Validate().Ok?)
  {
    hide B, Mul, Red;
    PairingEquation(sig.a, sig.e, key.w, B(sig.s, messages, key));
  }

  /** What makes a key or a signature malformed. */
  lemma MalformedMeans(key: PublicKey, sig: Signature)
    ensures key.Validate() == Ok(()) || key.Validate() == Err(MalformedPublicKey)
    ensures key.Validate().Ok? <==> key.h0 != 0 && key.w != 0 && forall i :: 0 <= i < |key.h| ==> key.h[i] != 0
    ensures sig.Validate() == Ok(()) || sig.Validate() == Err(MalformedSignature)
    ensures sig.Validate().Ok? <==> sig.a != 0 && sig.e != 0 && sig.s != 0
  {
  }

  /** The holder of the secret key can only have made an accepted signature by signing, and what
      it signs is accepted unless a component is degenerate. Where x + e is zero it cannot sign, and a
      signature is accepted exactly when the point to divide is the identity. */
  lemma VerifiesIffSigned(sig: Signature, messages: seq<Fr>, sk: SecretKey, key: PublicKey)
    requires KeyPair(sk, key) && key.Validate().Ok? && |messages| == |key.h|
    ensures Add(sk, sig.e) == 0 ==> Sign(messages, sk, key, sig.e, sig.s) == Panic
    ensures VerifySig(sig, messages, key) == Ok(true)
       <==> sig.Validate().Ok?
            && if Add(sk, sig.e) != 0 then Sign(messages, sk, key, sig.e, sig.s) == Ok(sig) else B(sig.s, messages, key) == 0
  {
    hide Mul, B, Inverse;
    SecretNonZero(sk, key);
    InverseOfZero(Add(sk, sig.e));
    PairingEquation(sig.a, sig.e, key.w, B(sig.s, messages, key));
    assert sig.e + key.w == sk + sig.e;
    MulIs(sig.a, Add(sk, sig.e));
    if Add(sk, sig.e) != 0 {
      InverseIsInverse(Add(sk, sig.e));
      DivisionUnique(sig.a, B(sig.s, messages, key), Add(sk, sig.e));
    }
  }

  /** Signing a full message vector and verifying it: accepted exactly when `B` is not the identity. */
  lemma SignThenVerify(messages: seq<Fr>, sk: SecretKey, key: PublicKey, e: Fr, s: Fr)
    requires KeyPair(sk, key) && key.Validate().Ok? && |messages| == |key.h|
    requires e != 0 && s != 0
    ensures Sign(messages, sk, key, e, s).Ok? <==> Add(sk, e) != 0
    ensures Add(sk, e) != 0 ==>
      VerifySig(Sign(messages, sk, key, e, s).value, messages, key)
      == if B(s, messages, key) == 0 then Err(MalformedSignature) else Ok(true)
  {
    hide B, Inverse, Mul, VerifySig, Red;
    InverseOfZero(Add(sk, e));
    if Add(sk, e) != 0 {
      InverseIsInverse(Add(sk, e));
      var i, b := Inverse(Add(sk, e)).value, B(s, messages, key);
      var sig := Signature(Mul(b, i), e, s);
      SecretNonZero(sk, key);
      VerifiesIffSigned(sig, messages, sk, key);
      InverseNonZero(Add(sk, e));
      ScaledNonZero(b, i);
      if b == 0 {
        DegenerateRefused(sig, messages, key);
      }
    } else {
      SecretNonZero(sk, key);
    }
  }

  lemma InverseNonZero(x: Fr)
    requires x != 0
    ensures Inverse(x).Some? && Inverse(x).value != 0
  {
    hide Inverse;
    InverseIsInverse(x);
    assert x * 0 == 0;
  }

  lemma {:induction false} ScaledNonZero(b: Fr, i: Fr)
    requires i != 0
    ensures Mul(b, i) == 0 <==> b == 0
  {
    MulIs(b, i);
    NoZeroDivisors(b, i);
  }

  lemma DegenerateRefused(sig: Signature, messages: seq<Fr>, key: PublicKey)
    requires key.Validate().Ok? && |messages| == |key.h| && !sig.Validate().Ok?
    ensures VerifySig(sig, messages, key) == Err(MalformedSignature)
  {
    hide B, Red;
  }

  lemma InverseOfZero(x: Fr)
    ensures Inverse(x).None? <==> x == 0
  {
  }

  lemma SecretNonZero(sk: SecretKey, key: PublicKey)
    requires KeyPair(sk, key) && key.Validate().Ok?
    ensures sk != 0 && key.w == sk
  {
    OneTimes(sk);
  }
}
