/** Bytes, big-endian lengths, and the fixed-size encodings of points and scalars. */
module Encoding {
  import opened PrimeField
  import opened Group
  import opened Lists
  import opened Results

  newtype Byte = x: int | 0 <= x < 256

  const FR_SIZE: nat := 32
  const G1_COMPRESSED_SIZE: nat := 48
  const G1_UNCOMPRESSED_SIZE: nat := 96
  const G2_COMPRESSED_SIZE: nat := 96
  const G2_UNCOMPRESSED_SIZE: nat := 192

  /** A scalar takes the same 32 bytes in both forms. */
  function FrSize(compressed: bool): nat { FR_SIZE }

  function G1Size(compressed: bool): nat {
    if compressed then G1_COMPRESSED_SIZE else G1_UNCOMPRESSED_SIZE
  }

  function G2Size(compressed: bool): nat {
    if compressed then G2_COMPRESSED_SIZE else G2_UNCOMPRESSED_SIZE
  }

  // ---------- Big-endian numbers ----------

  function BigEndian(x: nat, n: nat): (s: seq<Byte>)
    ensures |s| == n
  {
    if n == 0 then [] else BigEndian(x / 256, n - 1) + [(x % 256) as Byte]
  }

  function FromBigEndian(s: seq<Byte>): nat {
    if s == [] then 0 else FromBigEndian(s[..|s| - 1]) * 256 + s[|s| - 1] as nat
  }

  lemma {:induction false} BigEndianRoundTrip(x: nat, n: nat)
    requires x < Pow256(n)
    ensures FromBigEndian(BigEndian(x, n)) == x
  {
    if n > 0 {
      BigEndianRoundTrip(x / 256, n - 1);
      assert BigEndian(x, n)[..n - 1] == BigEndian(x / 256, n - 1);
    }
  }

  /** `(x as u32).to_be_bytes()`: the cast keeps the low 32 bits. */
  function U32(x: nat): (s: seq<Byte>)
    ensures |s| == 4
  {
    BigEndian(x % 0x1_0000_0000, 4)
  }

  lemma U32RoundTrip(x: nat)
    ensures FromBigEndian(U32(x)) == x % 0x1_0000_0000
  {
    assert Pow256(4) == 256 * Pow256(3) == 256 * (256 * Pow256(2));
    assert Pow256(2) == 256 * Pow256(1) == 256 * (256 * Pow256(0));
    BigEndianRoundTrip(x % 0x1_0000_0000, 4);
  }

  // ---------- Element codecs ----------

  /** An encoder in both forms and a decoder of exactly as many bytes as the form takes. */
  datatype Codec = Codec(enc: (Fr, bool) -> seq<Byte>, dec: (seq<Byte>, bool) -> Option<Fr>)

  ghost predicate Faithful(c: Codec, size: bool -> nat) {
    forall x: Fr, z: bool :: |c.enc(x, z)| == size(z) && c.dec(c.enc(x, z), z) == Some(x)
  }

  /** The scalar codec ignores the form: what one form writes, the other reads. */
  ghost predicate FaithfulScalar(c: Codec) {
    Faithful(c, FrSize) && forall x: Fr, z: bool, z': bool :: c.dec(c.enc(x, z), z') == Some(x)
  }

  function BigEndianCodec(size: bool -> nat): (c: Codec)
    requires forall z :: size(z) >= FR_SIZE
    ensures Faithful(c, size)
    ensures (forall z :: size(z) == FR_SIZE) ==> FaithfulScalar(c)
  {
    var c := Codec((x: Fr, z: bool) => BigEndian(x, size(z)),
                   (s: seq<Byte>, z: bool) => var v := FromBigEndian(s); if v < R then Some(v as Fr) else None);
    assert Faithful(c, size) by {
      forall x: Fr, z: bool ensures |c.enc(x, z)| == size(z) && c.dec(c.enc(x, z), z) == Some(x) {
        Pow256Grows(FR_SIZE, size(z));
        BigEndianRoundTrip(x, size(z));
      }
    }
    c
  }

  lemma {:induction false} Pow256Grows(m: nat, n: nat)
    requires m <= n
    ensures Pow256(m) <= Pow256(n)
  {
    if m < n {
      Pow256Grows(m, n - 1);
    }
  }

  type FrCodec = c: Codec | FaithfulScalar(c) witness BigEndianCodec(FrSize)
  type G1Codec = c: Codec | Faithful(c, G1Size) witness BigEndianCodec(G1Size)
  type G2Codec = c: Codec | Faithful(c, G2Size) witness BigEndianCodec(G2Size)

  // The curve library's codecs: any that are faithful.
  const FR_CODEC: FrCodec
  const G1_CODEC: G1Codec
  const G2_CODEC: G2Codec

  function SerFr(x: Fr, compressed: bool): (s: seq<Byte>)
    ensures |s| == FR_SIZE && forall z :: FR_CODEC.dec(s, z) == Some(x)
  {
    FR_CODEC.enc(x, compressed)
  }

  function SerG1(p: G1, compressed: bool): (s: seq<Byte>)
    ensures |s| == G1Size(compressed) && G1_CODEC.dec(s, compressed) == Some(p)
  {
    G1_CODEC.enc(p, compressed)
  }

  function SerG2(p: G2, compressed: bool): (s: seq<Byte>)
    ensures |s| == G2Size(compressed) && G2_CODEC.dec(s, compressed) == Some(p)
  {
    G2_CODEC.enc(p, compressed)
  }

  function SerPoints(ps: seq<G1>, compressed: bool): seq<Byte> {
    if ps == [] then [] else SerG1(ps[0], compressed) + SerPoints(ps[1..], compressed)
  }

  lemma {:induction false} SerPointsConcat(ps: seq<G1>, qs: seq<G1>, compressed: bool)
    ensures SerPoints(ps + qs, compressed) == SerPoints(ps, compressed) + SerPoints(qs, compressed)
  {
    if ps == [] {
      assert ps + qs == qs;
    } else {
      assert (ps + qs)[1..] == ps[1..] + qs;
      SerPointsConcat(ps[1..], qs, compressed);
    }
  }

  lemma {:induction false} SerPointsSnoc(ps: seq<G1>, p: G1, compressed: bool)
    ensures SerPoints(ps + [p], compressed) == SerPoints(ps, compressed) + SerG1(p, compressed)
  {
    SerPointsConcat(ps, [p], compressed);
    assert SerPoints([p], compressed) == SerG1(p, compressed) + SerPoints([], compressed);
  }

  // ---------- Encodings are injective ----------

  lemma SameG1(p: G1, q: G1, compressed: bool)
    requires SerG1(p, compressed) == SerG1(q, compressed)
    ensures p == q
  {
    assert G1_CODEC.dec(SerG1(p, compressed), compressed) == Some(p);
  }

  lemma SameFr(x: Fr, y: Fr, compressed: bool)
    requires SerFr(x, compressed) == SerFr(y, compressed)
    ensures x == y
  {
    assert FR_CODEC.dec(SerFr(x, compressed), compressed) == Some(x);
  }

  /** A point in front of other bytes. */
  lemma PointFirst(p: G1, a: seq<Byte>, q: G1, b: seq<Byte>)
    requires SerG1(p, false) + a == SerG1(q, false) + b
    ensures p == q && a == b
  {
    FirstParts(SerG1(p, false), a, SerG1(q, false), b);
    SameG1(p, q, false);
  }

  /** As many points on both sides, in front of other bytes. */
  lemma {:induction false} PointsFirst(ps: seq<G1>, a: seq<Byte>, qs: seq<G1>, b: seq<Byte>)
    requires |ps| == |qs| && SerPoints(ps, false) + a == SerPoints(qs, false) + b
    ensures ps == qs && a == b
  {
    hide SerG1;
    if ps == [] {
      assert SerPoints(ps, false) + a == a && SerPoints(qs, false) + b == b;
    } else {
      assert SerPoints(ps, false) + a == SerG1(ps[0], false) + (SerPoints(ps[1..], false) + a);
      assert SerPoints(qs, false) + b == SerG1(qs[0], false) + (SerPoints(qs[1..], false) + b);
      PointFirst(ps[0], SerPoints(ps[1..], false) + a, qs[0], SerPoints(qs[1..], false) + b);
      PointsFirst(ps[1..], a, qs[1..], b);
      assert ps == [ps[0]] + ps[1..] && qs == [qs[0]] + qs[1..];
    }
  }

  // ---------- Hashes ----------

  /** `hash_to_fr`, behind every challenge and every hashed message: an arbitrary function. */
  const HASH_TO_FR: seq<Byte> -> Fr
}
