/** The scalar field of the pairing curve: the integers modulo a prime `R`.
    `R` is an arbitrary prime of at most 256 bits, so that a scalar fits its 32-byte encoding;
    every statement of the project therefore holds for each such prime. */
module PrimeField {
  import opened Results

  predicate Divides(d: int, n: int) {
    d != 0 && n % d == 0
  }

  ghost predicate IsPrime(p: int) {
    1 < p && forall d :: 1 < d < p ==> !Divides(d, p)
  }

  function Pow256(n: nat): (p: int)
    ensures 1 <= p
  {
    if n == 0 then 1 else 256 * Pow256(n - 1)
  }

  type GroupOrder = p: int | IsPrime(p) && p <= Pow256(32) witness 2

  const R: GroupOrder

  type Fr = x: int | 0 <= x < R witness 0

  /** The representative of `x` modulo `R`, by repeated addition or subtraction of `R`. */
  function Red(x: int): (r: Fr)
    decreases x < 0, if x < 0 then -x else x
  {
    if x < 0 then Red(x + R) else if x < R then x else Red(x - R)
  }

  function Add(x: Fr, y: Fr): Fr { Red(x + y) }

  function Sub(x: Fr, y: Fr): Fr { Red(x - y) }

  function Neg(x: Fr): Fr { Red(0 - x) }

  /** Repeated addition, as a group multiplies a point by a scalar. */
  function Mul(x: Fr, y: Fr): Fr
    decreases y
  {
    if y == 0 then 0 else Add(Mul(x, y - 1), x)
  }

  // ---------- Congruence ----------

  lemma {:induction false} RedShiftUp(x: int, k: nat)
    ensures Red(x + k * R) == Red(x)
    decreases k
  {
    if k > 0 {
      RedShiftUp(x, k - 1);
      var y := x + (k - 1) * R;
      assert x + k * R == y + R;
    }
  }

  lemma RedShift(x: int, k: int)
    ensures Red(x + k * R) == Red(x)
  {
    if k >= 0 {
      RedShiftUp(x, k);
    } else {
      RedShiftUp(x + k * R, -k);
      assert x + k * R + -k * R == x;
    }
  }

  /** How many multiples of `R` separate `x` from its representative. */
  ghost function Quotient(x: int): int
    decreases x < 0, if x < 0 then -x else x
  {
    if x < 0 then Quotient(x + R) - 1 else if x < R then 0 else Quotient(x - R) + 1
  }

  lemma {:induction false} QuotientLaw(x: int)
    ensures x == Red(x) + Quotient(x) * R
    decreases x < 0, if x < 0 then -x else x
  {
    if x < 0 {
      QuotientLaw(x + R);
      DistributeStep(Quotient(x));
    } else if x < R {
    } else {
      QuotientLaw(x - R);
      DistributeStep(Quotient(x - R));
    }
  }

  lemma DistributeStep(k: int)
    ensures (k + 1) * R == k * R + R
  {
  }

  /** Numbers with one representative differ by a multiple of `R`. */
  ghost function Gap(x: int, y: int): int {
    Quotient(x) - Quotient(y)
  }

  lemma {:induction false} GapLaw(x: int, y: int)
    requires Red(x) == Red(y)
    ensures x == y + Gap(x, y) * R
  {
    QuotientLaw(x);
    QuotientLaw(y);
    Distribute(Quotient(x), Quotient(y), R);
  }

  lemma Distribute(a: int, b: int, c: int)
    ensures (a - b) * c == a * c - b * c
    ensures (a + b) * c == a * c + b * c
  {
  }

  lemma DistributeLeft(c: int, a: int, b: int)
    ensures c * (a - b) == c * a - c * b
  {
  }

  lemma Associate(a: int, b: int, c: int)
    ensures (a * b) * c == a * (b * c) == (a * c) * b
  {
  }

  lemma Negate(a: int, b: int)
    ensures (0 - a) * b == 0 - a * b == a * (0 - b)
  {
  }

  lemma CongruentAdd(x: int, x': int, y: int, y': int)
    requires Red(x) == Red(x') && Red(y) == Red(y')
    ensures Red(x + y) == Red(x' + y')
  {
    GapLaw(x, x');
    GapLaw(y, y');
    Distribute(Gap(x, x'), Gap(y, y'), R);
    RedShift(x' + y', Gap(x, x') + Gap(y, y'));
  }

  lemma {:induction false} CongruentMul(x: int, x': int, y: int, y': int)
    requires Red(x) == Red(x') && Red(y) == Red(y')
    ensures Red(x * y) == Red(x' * y')
  {
    GapLaw(x, x');
    GapLaw(y, y');
    var k := ShiftedProduct(x, x', Gap(x, x'), y, y', Gap(y, y'), R);
    RedShift(x' * y', k);
  }

  /** Numbers that differ by multiples of `m` have products that do. */
  lemma ShiftedProduct(x: int, x': int, p: int, y: int, y': int, q: int, m: int) returns (k: int)
    requires x == x' + p * m && y == y' + q * m
    ensures x * y == x' * y' + k * m
  {
    k := x' * q + p * y' + p * q * m;
    MulOfShifts(x', p, y', q, m);
  }

  lemma MulOfShifts(x: int, p: int, y: int, q: int, m: int)
    ensures (x + p * m) * (y + q * m) == x * y + (x * q + p * y + p * q * m) * m
  {
  }

  /** Repeated addition is multiplication modulo `R`. */
  lemma {:induction false} MulIs(x: Fr, y: Fr)
    ensures Mul(x, y) == Red(x * y)
    decreases y
  {
    if y > 0 {
      MulIs(x, y - 1);
      var p: int := x * (y - 1);
      RedRed(p);
      CongruentAdd(Red(p), p, x, x);
      DistributeLeft(x, y, 1);
    }
  }

  lemma {:induction false} OneTimes(y: Fr)
    ensures Mul(1, y) == y
  {
    MulIs(1, y);
  }

  lemma CongruentSub(x: int, x': int, y: int, y': int)
    requires Red(x) == Red(x') && Red(y) == Red(y')
    ensures Red(x - y) == Red(x' - y')
  {
    CongruentMul(-1, -1, y, y');
    CongruentAdd(x, x', -1 * y, -1 * y');
  }

  lemma {:induction false} RedRed(x: int)
    ensures Red(Red(x)) == Red(x)
  {
  }

  /** Congruent means: the difference reduces to zero. */
  lemma ZeroDifference(x: int, y: int)
    ensures Red(x - y) == 0 <==> Red(x) == Red(y)
  {
    if Red(x) == Red(y) {
      CongruentSub(x, y, y, y);
    }
    if Red(x - y) == 0 {
      CongruentAdd(x - y, 0, y, y);
    }
  }

  // ---------- Inverses, from primality ----------

  /** Coefficients of Bezout's identity by the extended Euclidean algorithm. */
  function Bezout(a: nat, b: nat): (r: (nat, int, int))
    ensures r.0 == r.1 * a + r.2 * b
    decreases b
  {
    if b == 0 then (a, 1, 0)
    else
      var (g, u, v) := Bezout(b, a % b);
      BezoutStep(a, b, u, v);
      (g, v, u - (a / b) * v)
  }

  lemma BezoutStep(a: nat, b: nat, u: int, v: int)
    requires b != 0
    ensures u * b + v * (a % b) == v * a + (u - (a / b) * v) * b
  {
    var q, m := a / b, a % b;
    assert a == q * b + m;
    calc {
      v * a + (u - q * v) * b;
      v * (q * b + m) + u * b - q * v * b;
      v * (q * b) + v * m + u * b - q * v * b;
      { assert v * (q * b) == q * v * b; }
      u * b + v * m;
    }
  }

  lemma DividesCombination(d: int, x: int, y: int, q: int)
    requires Divides(d, x) && Divides(d, y)
    ensures Divides(d, q * x + y)
  {
    var i, j := x / d, y / d;
    assert x == i * d && y == j * d;
    assert q * x + y == (q * i + j) * d;
    MultipleDivides(d, q * i + j);
  }

  lemma MultipleDivides(d: int, k: int)
    requires d != 0
    ensures Divides(d, k * d)
  {
    var n := k * d;
    var q, m := n / d, n % d;
    assert n == q * d + m;
    assert (k - q) * d == m;
    if k - q >= 1 {
      assert d > 0 ==> m >= d;
    } else if k - q <= -1 {
    }
  }

  lemma QuotientAndRest(a: nat, b: nat)
    requires b != 0
    ensures a == (a / b) * b + a % b
  {
  }

  lemma {:induction false} BezoutDivides(a: nat, b: nat)
    requires a != 0 || b != 0
    ensures Bezout(a, b).0 != 0
    ensures Divides(Bezout(a, b).0, a) && Divides(Bezout(a, b).0, b)
    decreases b
  {
    if b != 0 {
      BezoutDivides(b, a % b);
      var g := Bezout(b, a % b).0;
      assert g == Bezout(a, b).0;
      hide Bezout, Divides;
      DividesCombination(g, b, a % b, a / b);
      QuotientAndRest(a, b);
    }
  }

  /** `Fr::inverse`: none for zero. */
  function Inverse(x: Fr): (r: Option<Fr>)
  {
    if x == 0 then None else Some(Red(Bezout(x, R).1))
  }

  lemma {:induction false} InverseIsInverse(x: Fr)
    requires x != 0
    ensures Inverse(x).Some? && Red(x * Inverse(x).value) == 1
  {
    var (g, u, v) := Bezout(x, R);
    BezoutDivides(x, R);
    DivisorBound(g, x);
    assert g == 1;
    RedShift(u * x, v);
    assert Red(u * x) == Red(1) == 1;
    RedRed(u);
    CongruentMul(x, x, Red(u), u);
    assert x * u == u * x;
  }

  lemma DivisorBound(g: int, x: int)
    requires 0 < x && 0 < g && Divides(g, x)
    ensures g <= x
  {
    assert x == (x / g) * g;
    if x / g > 0 {
      assert (x / g) * g >= g;
    }
  }

  /** Multiplying by the inverse undoes multiplying. */
  lemma {:induction false} InverseUndoes(x: Fr, y: int)
    requires x != 0
    ensures Inverse(x).Some? && Red(Inverse(x).value * (x * y)) == Red(y)
  {
    InverseIsInverse(x);
    var i := Inverse(x).value;
    CongruentMul(x * i, 1, y, y);
    Associate(x, i, y);
  }

  /** A prime field has no zero divisors. */
  lemma {:induction false} NoZeroDivisors(x: int, y: int)
    ensures Red(x * y) == 0 <==> Red(x) == 0 || Red(y) == 0
  {
    RedRed(x);
    CongruentMul(x, Red(x), y, y);
    if Red(x) == 0 {
    } else if Red(x * y) == 0 {
      InverseUndoes(Red(x), y);
      CongruentMul(Inverse(Red(x)).value, Inverse(Red(x)).value, Red(x) * y, 0);
    } else if Red(y) == 0 {
      CongruentMul(x, x, y, 0);
    }
  }

  /** A non-zero factor can be cancelled. */
  lemma {:induction false} Cancel(a: int, x: int, y: int)
    requires Red(a) != 0
    ensures Red(a * x) == Red(a * y) <==> Red(x) == Red(y)
  {
    assert a * x - a * y == a * (x - y);
    ZeroDifference(a * x, a * y);
    ZeroDifference(x, y);
    NoZeroDivisors(a, x - y);
  }

  lemma {:induction false} DivideThenMultiply(b: Fr, i: Fr, d: Fr)
    requires Red(d * i) == 1
    ensures Red(Mul(b, i) * d) == b
  {
    hide Mul;
    MulIs(b, i);
    var p: int := b * i;
    CongruentMul(Red(p), p, d, d);
    Associate(b, i, d);
    CongruentMul(b, b, i * d, 1);
  }

  /** Dividing by a non-zero `d` is the one solution of `q * d == b`. */
  lemma {:induction false} DivisionUnique(q: Fr, b: Fr, d: Fr)
    requires d != 0
    ensures Inverse(d).Some?
    ensures q == Mul(b, Inverse(d).value) <==> Red(q * d) == b
  {
    InverseIsInverse(d);
    var p := Mul(b, Inverse(d).value);
    DivideThenMultiply(b, Inverse(d).value, d);
    Cancel(d, q, p);
  }
}
