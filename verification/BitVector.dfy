/** Sets of message indices as big-endian bit vectors. */
module BitVector {
  import opened Results
  import opened Encoding

  /** Bit `k` of `v`, counted from the least significant. */
  predicate Bit(v: nat, k: nat) {
    if k == 0 then v % 2 == 1 else Bit(v / 2, k - 1)
  }

  predicate ByteBit(b: Byte, k: nat) { Bit(b as nat, k) }

  function Pow2(n: nat): (p: nat)
    ensures 1 <= p
  {
    if n == 0 then 1 else 2 * Pow2(n - 1)
  }

  lemma Pow2Eight()
    ensures Pow2(8) == 256
  {
    assert Pow2(4) == 2 * Pow2(3) == 4 * Pow2(2) == 8 * Pow2(1) == 16;
    assert Pow2(8) == 2 * Pow2(7) == 4 * Pow2(6) == 8 * Pow2(5) == 16 * Pow2(4);
  }

  /** `v | (1 << k)` */
  function SetBit(v: nat, k: nat): nat {
    if k == 0 then (if v % 2 == 1 then v else v + 1) else 2 * SetBit(v / 2, k - 1) + v % 2
  }

  lemma {:induction false} SetBitLaw(v: nat, k: nat, j: nat)
    ensures Bit(SetBit(v, k), j) <==> j == k || Bit(v, j)
  {
    if k > 0 && j > 0 {
      SetBitLaw(v / 2, k - 1, j - 1);
      assert SetBit(v, k) / 2 == SetBit(v / 2, k - 1);
    } else if j > 0 {
      assert SetBit(v, 0) / 2 == v / 2;
    }
  }

  lemma {:induction false} SetBitBound(v: nat, k: nat, n: nat)
    requires v < Pow2(n) && k < n
    ensures SetBit(v, k) < Pow2(n)
  {
    var half := Pow2(n - 1);
    HalfBound(v, half);
    if k > 0 {
      SetBitBound(v / 2, k - 1, n - 1);
      HalfBound(2 * SetBit(v / 2, k - 1) + v % 2, half);
    } else {
      HalfBound(v + 1, half);
    }
  }

  lemma HalfBound(v: nat, h: nat)
    ensures v < 2 * h <==> v / 2 < h
  {
  }

  lemma {:induction false} NoHighBit(v: nat, n: nat, k: nat)
    requires v < Pow2(n) && k >= n
    ensures !Bit(v, k)
  {
    if k > 0 {
      NoHighBit(v / 2, if n == 0 then 0 else n - 1, k - 1);
    }
  }

  lemma {:induction false} SameBits(v: nat, w: nat, n: nat)
    requires v < Pow2(n) && w < Pow2(n)
    requires forall k: nat :: k < n ==> (Bit(v, k) <==> Bit(w, k))
    ensures v == w
  {
    if n > 0 {
      forall k: nat | k < n - 1 ensures Bit(v / 2, k) <==> Bit(w / 2, k) {
        assert Bit(v, k + 1) <==> Bit(w, k + 1);
      }
      SameBits(v / 2, w / 2, n - 1);
      assert Bit(v, 0) <==> Bit(w, 0);
    }
  }

  // ---------- The two conversions ----------

  /** The number whose bit `k` says whether `base + k` is in `s`. */
  ghost function Pack(s: set<nat>, base: nat, n: nat): (v: nat)
    ensures v < Pow2(n)
    decreases n
  {
    if n == 0 then 0 else (if base in s then 1 else 0) + 2 * Pack(s, base + 1, n - 1)
  }

  lemma {:induction false} PackBit(s: set<nat>, base: nat, n: nat, k: nat)
    ensures Bit(Pack(s, base, n), k) <==> k < n && base + k in s
    decreases n
  {
    if n == 0 {
      NoHighBit(0, 0, k);
    } else {
      var rest := Pack(s, base + 1, n - 1);
      DoubledBit(if base in s then 1 else 0, rest, k);
      if k > 0 {
        PackBit(s, base + 1, n - 1, k - 1);
        assert base + k == base + 1 + (k - 1);
      }
    }
  }

  lemma DoubledBit(low: nat, v: nat, k: nat)
    requires low <= 1
    ensures Bit(low + 2 * v, k) <==> if k == 0 then low == 1 else Bit(v, k - 1)
  {
    var w := low + 2 * v;
    assert w / 2 == v && w % 2 == low;
  }

  ghost function PackByte(s: set<nat>, base: nat): Byte {
    Pow2Eight();
    Pack(s, base, 8) as Byte
  }

  /** The most significant byte comes first. */
  ghost function Bits(total: nat, s: set<nat>): (bytes: seq<Byte>)
    ensures |bytes| == total / 8 + 1
  {
    seq(total / 8 + 1, j requires 0 <= j < total / 8 + 1 => PackByte(s, 8 * (total / 8 - j)))
  }

  predicate Marked(data: seq<Byte>, i: nat)
    requires i < 8 * |data|
  {
    ByteBit(data[|data| - 1 - i / 8], i % 8)
  }

  /** The indices a bit vector marks, below `n`. */
  ghost function MarkedBelow(data: seq<Byte>, n: nat): set<nat>
    requires n <= 8 * |data|
  {
    set i: nat | i < n && Marked(data, i)
  }

  ghost function Members(data: seq<Byte>): set<nat> {
    MarkedBelow(data, 8 * |data|)
  }

  ghost function Elements(s: seq<nat>): set<nat> {
    set k | k in s
  }

  ghost predicate Fits(total: nat, s: set<nat>) {
    forall r :: r in s ==> r / 8 <= total / 8
  }

  /** An index past the last byte is out of bounds. */
  method RevealedToBitvector(total: nat, revealed: seq<nat>) returns (result: Result<seq<Byte>>)
    ensures result == if Fits(total, Elements(revealed)) then Ok(Bits(total, Elements(revealed))) else Panic
  {
    var bytes := new Byte[total / 8 + 1](_ => 0);
    Pow2Eight();
    ClearBytes(bytes);
    for i := 0 to |revealed|
      invariant forall j :: 0 <= j < i ==> revealed[j] / 8 <= total / 8
      invariant forall n: nat, k: nat :: n < bytes.Length && k < 8 ==>
        (ByteBit(bytes[n], k) <==> 8 * n + k in revealed[..i])
    {
      var idx, bit := revealed[i] / 8, revealed[i] % 8;
      if idx >= bytes.Length {
        assert revealed[i] in Elements(revealed);
        return Panic;
      }
      SetBitBound(bytes[idx] as nat, bit, 8);
      var b := SetBit(bytes[idx] as nat, bit) as Byte;
      forall k: nat ensures ByteBit(b, k) <==> k == bit || ByteBit(bytes[idx], k) {
        SetBitLaw(bytes[idx] as nat, bit, k);
      }
      bytes[idx] := b;
      assert revealed[..i + 1] == revealed[..i] + [revealed[i]];
    }
    assert revealed[..|revealed|] == revealed;
    ghost var before := bytes[..];
    Reverse(bytes);
    AreBits(total, revealed, before, bytes[..]);
    return Ok(bytes[..]);
  }

  lemma ClearBytes(bytes: array<Byte>)
    requires forall n :: 0 <= n < bytes.Length ==> bytes[n] == 0
    ensures forall n: nat, k: nat :: n < bytes.Length ==> !ByteBit(bytes[n], k)
  {
    forall k: nat ensures !Bit(0, k) {
      NoHighBit(0, 0, k);
    }
  }

  method Reverse(bytes: array<Byte>)
    modifies bytes
    ensures forall n :: 0 <= n < bytes.Length ==> bytes[n] == old(bytes[bytes.Length - 1 - n])
  {
    var len := bytes.Length;
    for i := 0 to len / 2
      invariant forall n :: 0 <= n < i || len - i <= n < len ==> bytes[n] == old(bytes[len - 1 - n])
      invariant forall n :: i <= n < len - i ==> bytes[n] == old(bytes[n])
    {
      bytes[i], bytes[len - 1 - i] := bytes[len - 1 - i], bytes[i];
    }
  }

  lemma AreBits(total: nat, revealed: seq<nat>, little: seq<Byte>, big: seq<Byte>)
    requires |little| == |big| == total / 8 + 1
    requires forall n: nat, k: nat :: n < |little| && k < 8 ==> (ByteBit(little[n], k) <==> 8 * n + k in revealed)
    requires forall n :: 0 <= n < |big| ==> big[n] == little[|big| - 1 - n]
    ensures big == Bits(total, Elements(revealed))
  {
    hide ByteBit, PackByte;
    var s := Elements(revealed);
    forall n: nat | n < |big| ensures big[n] == PackByte(s, 8 * (total / 8 - n)) {
      var m := total / 8 - n;
      assert big[n] == little[m];
      forall k: nat | k < 8 ensures ByteBit(little[m], k) <==> 8 * m + k in s {
        assert ByteBit(little[m], k) <==> 8 * m + k in revealed;
      }
      IsPacked(little[m], s, 8 * m);
    }
  }

  lemma IsPacked(b: Byte, s: set<nat>, base: nat)
    requires forall k: nat :: k < 8 ==> (ByteBit(b, k) <==> base + k in s)
    ensures b == PackByte(s, base)
  {
    hide Pow2;
    Pow2Eight();
    forall k: nat | k < 8 ensures Bit(b as nat, k) <==> Bit(Pack(s, base, 8), k) {
      assert ByteBit(b, k) <==> base + k in s;
      PackBit(s, base, 8, k);
    }
    SameBits(b as nat, Pack(s, base, 8), 8);
  }

  /** The inner loop stops at the last set bit of a byte; `remaining` skips the others. */
  method BitvectorToRevealed(data: seq<Byte>) returns (revealed: set<nat>)
    ensures revealed == Members(data)
  {
    hide MarkedBelow, Shifted, Pow2;
    revealed := {};
    var scalar := 0;
    NoneMarked(data);
    for i := 0 to |data|
      invariant scalar == 8 * i
      invariant revealed == MarkedBelow(data, scalar)
    {
      var v: nat := data[|data| - 1 - i] as nat;
      ghost var b := v;
      var remaining := 8;
      StartByte(b);
      while v > 0
        invariant 0 <= remaining <= 8 && v < Pow2(remaining)
        invariant scalar == 8 * i + (8 - remaining)
        invariant Shifted(v, b, 8 - remaining)
        invariant revealed == MarkedBelow(data, scalar)
      {
        BitStep(data, i, v, b, remaining);
        if v % 2 == 1 {
          revealed := revealed + {scalar};
        }
        v := v / 2;
        scalar := scalar + 1;
        remaining := remaining - 1;
      }
      UnmarkedRest(data, i, b, 8 - remaining);
      scalar := scalar + remaining;
    }
  }

  /** `v` is `b` shifted right by `done` bits. */
  ghost predicate Shifted(v: nat, b: nat, done: nat) {
    forall k: nat :: Bit(v, k) <==> Bit(b, k + done)
  }

  lemma NoneMarked(data: seq<Byte>)
    ensures MarkedBelow(data, 0) == {}
  {
  }

  lemma StartByte(b: nat)
    requires b < 256
    ensures b < Pow2(8) && Shifted(b, b, 0)
  {
    Pow2Eight();
  }

  lemma {:induction false} ShiftedStep(v: nat, b: nat, done: nat)
    requires Shifted(v, b, done)
    ensures v % 2 == 1 <==> Bit(b, done)
    ensures Shifted(v / 2, b, done + 1)
  {
    assert Bit(v, 0) <==> Bit(b, 0 + done);
    forall k: nat ensures Bit(v / 2, k) <==> Bit(b, k + (done + 1)) {
      assert Bit(v, k + 1) <==> Bit(b, k + 1 + done);
    }
  }

  lemma BitStep(data: seq<Byte>, i: nat, v: nat, b: nat, remaining: nat)
    requires i < |data| && b == data[|data| - 1 - i] as nat && remaining <= 8
    requires 0 < v < Pow2(remaining) && Shifted(v, b, 8 - remaining)
    ensures remaining > 0 && v / 2 < Pow2(remaining - 1) && Shifted(v / 2, b, 8 - remaining + 1)
    ensures var n := 8 * i + (8 - remaining);
      MarkedBelow(data, n + 1) == if v % 2 == 1 then MarkedBelow(data, n) + {n} else MarkedBelow(data, n)
  {
    ShiftedStep(v, b, 8 - remaining);
    var n := 8 * i + (8 - remaining);
    assert n / 8 == i && n % 8 == 8 - remaining;
    MarkedStep(data, n);
  }

  lemma MarkedStep(data: seq<Byte>, n: nat)
    requires n < 8 * |data|
    ensures MarkedBelow(data, n + 1) == if Marked(data, n) then MarkedBelow(data, n) + {n} else MarkedBelow(data, n)
  {
  }

  lemma UnmarkedRest(data: seq<Byte>, i: nat, b: nat, done: nat)
    requires i < |data| && done <= 8 && b == data[|data| - 1 - i] as nat
    requires Shifted(0, b, done)
    ensures MarkedBelow(data, 8 * i + done) == MarkedBelow(data, 8 * i + 8)
  {
    forall j: nat | 8 * i + done <= j < 8 * i + 8 ensures !Marked(data, j) {
      NoHighBit(0, 0, j - 8 * i - done);
      assert Bit(0, j - 8 * i - done) <==> Bit(b, j - 8 * i - done + done);
      assert j / 8 == i && j % 8 == j - 8 * i;
    }
  }

  // ---------- The round trip ----------

  lemma BitsMark(total: nat, s: set<nat>, i: nat)
    requires i < 8 * (total / 8 + 1)
    ensures Marked(Bits(total, s), i) <==> i in s
  {
    var n := i / 8;
    var bytes := Bits(total, s);
    assert bytes[|bytes| - 1 - n] == PackByte(s, 8 * n);
    PackBit(s, 8 * n, 8, i % 8);
    assert 8 * n + i % 8 == i;
  }

  /** Reading back a written bit vector gives the same set, for every set the writer does not
      panic on; among them are all sets of indices up to and including `total`. */
  lemma BitsRoundTrip(total: nat, s: set<nat>)
    ensures Fits(total, s) <==> Members(Bits(total, s)) == s
    ensures (forall r :: r in s ==> r <= total) ==> Fits(total, s)
  {
    var back := Members(Bits(total, s));
    forall i: nat ensures i in back <==> i in s && i / 8 <= total / 8 {
      if i < 8 * (total / 8 + 1) {
        BitsMark(total, s, i);
      }
    }
  }
}
