/** The pairing groups. A group of prime order `R` is represented by the exponents of a fixed
    generator: a point is its exponent, adding points adds exponents, and multiplying a point
    by a scalar multiplies them. Every group of that order is isomorphic to this one. */
module Group {
  import opened PrimeField

  type G1 = Fr
  type G2 = Fr
  type GT = Fr

  /** `G1::one()` and `G2::one()`: the fixed generators. */
  const ONE: Fr := 1

  /** The other generator of G1, the hash of a fixed string: an arbitrary point. */
  const G2_VALUE: G1

  /** The bilinear pairing, as exponents. */
  function Pair(p: G1, q: G2): GT { Mul(p, q) }

  /** How every pairing equation is checked: the product with the inverse of one side is the identity. */
  lemma {:induction false} PairingCheck(p: G1, q: G2, z: G1)
    ensures Add(Pair(p, q), Pair(Neg(z), ONE)) == 0 <==> Mul(p, q) == z
  {
    var x, y := Mul(p, q), Neg(z);
    MulOne(y);
    CongruentAdd(x, x, y, 0 - z);
    ZeroDifference(x, z);
  }

  /** The multi-scalar product: multiply pairwise, then add up. Surplus elements of the longer
      sequence are ignored, as `zip` does. */
  function Msm(bases: seq<G1>, scalars: seq<Fr>): G1 {
    if bases == [] || scalars == [] then 0
    else Add(Mul(bases[0], scalars[0]), Msm(bases[1..], scalars[1..]))
  }

  // ---------- The product without reduction ----------

  /** The same sum over the integers. */
  function Dot(bases: seq<int>, scalars: seq<int>): int {
    if bases == [] || scalars == [] then 0
    else bases[0] * scalars[0] + Dot(bases[1..], scalars[1..])
  }

  lemma {:induction false} MsmIsDot(bases: seq<G1>, scalars: seq<Fr>)
    ensures Msm(bases, scalars) == Red(Dot(bases, scalars))
  {
    if bases == [] || scalars == [] {
    } else {
      var b: int, s: int := bases[0], scalars[0];
      var x, y := b * s, Dot(bases[1..], scalars[1..]);
      MulIs(bases[0], scalars[0]);
      MsmIsDot(bases[1..], scalars[1..]);
      CongruentAdd(Red(x), x, Red(y), y);
    }
  }

  lemma {:induction false} DotConcat(b: seq<int>, s: seq<int>, b': seq<int>, s': seq<int>)
    requires |b| == |s|
    ensures Dot(b + b', s + s') == Dot(b, s) + Dot(b', s')
  {
    if b == [] {
      assert b + b' == b' && s + s' == s';
    } else {
      assert (b + b')[1..] == b[1..] + b' && (s + s')[1..] == s[1..] + s';
      DotConcat(b[1..], s[1..], b', s');
    }
  }

  lemma DotOne(b: int, s: int)
    ensures Dot([b], [s]) == b * s
  {
    assert [b][1..] == [] && [s][1..] == [];
  }

  lemma DotTwo(b: int, s: int, b': int, s': int)
    ensures Dot([b, b'], [s, s']) == b * s + b' * s'
  {
    assert [b, b'] == [b] + [b'] && [s, s'] == [s] + [s'];
    DotConcat([b], [s], [b'], [s']);
    DotOne(b, s);
    DotOne(b', s');
  }

  lemma {:induction false} DotNothing(b: seq<int>, s: seq<int>)
    requires b == [] && s == []
    ensures Dot(b, s) == 0
  {
  }

  lemma {:induction false} DotSnoc(b: seq<int>, s: seq<int>, x: int, y: int)
    requires |b| == |s|
    ensures Dot(b + [x], s + [y]) == Dot(b, s) + x * y
  {
    DotConcat(b, s, [x], [y]);
    DotOne(x, y);
  }

  /** Scalars that are zero add nothing. */
  lemma {:induction false} DotZeros(b: seq<int>, s: seq<int>)
    requires |b| == |s| && forall i :: 0 <= i < |s| ==> s[i] == 0
    ensures Dot(b, s) == 0
  {
    if b != [] {
      DotZeros(b[1..], s[1..]);
    }
  }

  lemma {:induction false} DotCongruent(b: seq<int>, s: seq<int>, s': seq<int>)
    requires |b| == |s| == |s'|
    requires forall i :: 0 <= i < |s| ==> Red(s[i]) == Red(s'[i])
    ensures Red(Dot(b, s)) == Red(Dot(b, s'))
  {
    hide Red;
    if b == [] {
    } else {
      DotCongruent(b[1..], s[1..], s'[1..]);
      CongruentMul(b[0], b[0], s[0], s'[0]);
      var x: int, x': int := b[0] * s[0], b[0] * s'[0];
      CongruentAdd(x, x', Dot(b[1..], s[1..]), Dot(b[1..], s'[1..]));
    }
  }

  /** Pairwise `x[i] + a * y[i]`. */
  function Combine(x: seq<int>, a: int, y: seq<int>): (z: seq<int>)
    requires |x| == |y|
    ensures |z| == |x|
  {
    seq(|x|, i requires 0 <= i < |x| => x[i] + a * y[i])
  }

  lemma {:induction false} DotLinear(b: seq<int>, x: seq<int>, a: int, y: seq<int>)
    requires |b| == |x| == |y|
    ensures Dot(b, Combine(x, a, y)) == Dot(b, x) + a * Dot(b, y)
  {
    if b == [] {
    } else {
      assert Combine(x, a, y)[1..] == Combine(x[1..], a, y[1..]);
      DotLinear(b[1..], x[1..], a, y[1..]);
      LinearStep(b[0], x[0], a, y[0], Dot(b[1..], x[1..]), Dot(b[1..], y[1..]));
    }
  }

  /** Pairwise `a * x[i]`. */
  function Scale(a: int, x: seq<int>): (z: seq<int>)
    ensures |z| == |x|
  {
    seq(|x|, i requires 0 <= i < |x| => a * x[i])
  }

  lemma {:induction false} DotScale(b: seq<int>, a: int, x: seq<int>)
    requires |b| == |x|
    ensures Dot(b, Scale(a, x)) == a * Dot(b, x)
  {
    if b != [] {
      assert Scale(a, x)[1..] == Scale(a, x[1..]);
      DotScale(b[1..], a, x[1..]);
      LinearStep(b[0], 0, a, x[0], 0, Dot(b[1..], x[1..]));
    }
  }

  lemma LinearStep(b: int, x: int, a: int, y: int, d: int, e: int)
    ensures b * (x + a * y) + (d + a * e) == b * x + d + a * (b * y + e)
  {
  }

  lemma {:induction false} MsmConcat(b: seq<G1>, s: seq<Fr>, b': seq<G1>, s': seq<Fr>)
    requires |b| == |s|
    ensures Msm(b + b', s + s') == Add(Msm(b, s), Msm(b', s'))
  {
    hide Msm, Dot, Red;
    MsmIsDot(b + b', s + s');
    MsmIsDot(b, s);
    MsmIsDot(b', s');
    DotConcat(b, s, b', s');
    RedRed(Dot(b, s));
    RedRed(Dot(b', s'));
    CongruentAdd(Red(Dot(b, s)), Dot(b, s), Red(Dot(b', s')), Dot(b', s'));
  }

  lemma {:induction false} MsmOne(b: G1, s: Fr)
    ensures Msm([b], [s]) == Mul(b, s)
  {
    assert [b][1..] == [] && [s][1..] == [];
  }

  lemma {:induction false} MsmTwo(b: G1, s: Fr, b': G1, s': Fr)
    ensures Msm([b, b'], [s, s']) == Add(Mul(b, s), Mul(b', s'))
  {
    hide Red, Mul, Add;
    assert [b, b'] == [b] + [b'] && [s, s'] == [s] + [s'];
    MsmConcat([b], [s], [b'], [s']);
    MsmOne(b, s);
    MsmOne(b', s');
  }

  lemma {:induction false} MulOne(p: G1)
    ensures Mul(p, 1) == p
  {
  }

  /** From a sum over the integers to a sum of points. */
  lemma SumOfPoints(x: int, y: int, z: int)
    ensures Red(x + y + z) == Add(Add(Red(x), Red(y)), Red(z))
  {
    CongruentAdd(Red(x), x, Red(y), y);
    CongruentAdd(Add(Red(x), Red(y)), x + y, Red(z), z);
  }
}
