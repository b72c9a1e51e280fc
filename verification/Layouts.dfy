/** Where each part of an encoding lies, and what any data decodes to: exactly which bytes are read as a
    proof, which are refused with which error, and on which the decoder panics. */
module Layouts {
  import opened PrimeField
  import opened Results
  import opened Encoding
  import opened PokVc
  import opened Disclosure
  import opened Codecs
  import PokTicket

  // ---------- Numbers ----------

  /** Byte `j` of a number written in `n` bytes is its digit to the base 256, most significant first. */
  lemma {:induction false} BigEndianDigits(x: nat, n: nat, j: nat)
    requires j < n
    ensures BigEndian(x, n)[j] as nat == (x / Pow256(n - 1 - j)) % 256
  {
    if j < n - 1 {
      BigEndianDigits(x / 256, n - 1, j);
      DivideBy(x, 256, Pow256(n - 2 - j));
    }
  }

  lemma {:induction false} DivideBy(x: nat, m: nat, p: nat)
    requires m >= 1 && p >= 1
    ensures m * p >= 1 && (x / m) / p == x / (m * p)
  {
    var y, d := x / m, m * p;
    Positive(m, p);
    var q, z := y / p, x / d;
    Parts(x, m);
    Parts(y, p);
    Parts(x, d);
    Rest(m, p, q, y % p, x % m);
    Closest(d, q, z, m * (y % p) + x % m, x % d);
  }

  lemma Positive(m: nat, p: nat)
    requires m >= 1 && p >= 1
    ensures m * p >= 1
  {
  }

  lemma Rest(m: nat, p: nat, q: nat, a: nat, b: nat)
    requires a < p && b < m
    ensures m * (p * q + a) + b == (m * p) * q + (m * a + b)
    ensures 0 <= m * a + b < m * p
  {
    Regroup(m, p, q);
    Apart(m, a, p);
  }

  lemma Parts(x: nat, d: nat)
    requires d >= 1
    ensures x == d * (x / d) + x % d && 0 <= x % d < d
  {
  }

  lemma Regroup(m: nat, p: nat, q: nat)
    ensures m * (p * q) == (m * p) * q
  {
  }

  lemma Closest(d: nat, q: nat, z: nat, r: int, m: int)
    requires d * q + r == d * z + m && 0 <= r < d && 0 <= m < d
    ensures q == z
  {
    if q < z {
      Apart(d, q, z);
    } else if z < q {
      Apart(d, z, q);
    }
  }

  lemma Apart(d: nat, a: nat, b: nat)
    requires a < b
    ensures d * a + d <= d * b
  {
    var k := b - a - 1;
    assert d * b == d * a + d + d * k;
  }

  // ---------- ProofG1 ----------

  /** A proof is its commitment, the number of responses and the responses, one after the other. */
  lemma {:induction false} VcLayout(p: ProofG1, z: bool, i: nat)
    ensures var data, g := EncodeVc(p, z), G1Size(z);
      && |data| == g + 4 + FR_SIZE * |p.responses|
      && Holds(data, 0, SerG1(p.commitment, z))
      && Holds(data, g, U32(|p.responses|))
      && (i < |p.responses| ==> Holds(data, g + 4 + FR_SIZE * i, SerFr(p.responses[i], z)))
  {
    hide Holds, SerG1, SerFr, SerScalars, U32, G1Size;
    var data, g := EncodeVc(p, z), G1Size(z);
    HoldsAll(data);
    HoldsSplit(data, 0, SerG1(p.commitment, z), U32(|p.responses|) + SerScalars(p.responses, z));
    HoldsSplit(data, g, U32(|p.responses|), SerScalars(p.responses, z));
    if i < |p.responses| {
      ScalarsHeld(data, g + 4, p.responses, i + 1, z);
      ScalarsNext(p.responses, i, z);
      HoldsSplit(data, g + 4, SerScalars(p.responses[..i], z), SerFr(p.responses[i], z));
    }
  }

  ghost predicate ScalarHere(data: seq<Byte>, at: nat, i: nat, z: bool, x: Fr) {
    ReadFr(data, at + FR_SIZE * i, z) == Ok(x)
  }

  /** `n` scalars, one after the other. */
  ghost predicate ScalarsHere(data: seq<Byte>, at: nat, n: nat, z: bool, xs: seq<Fr>)
    requires n <= |xs|
  {
    forall i :: 0 <= i < n ==> ScalarHere(data, at, i, z, xs[i])
  }

  /** Which data is a proof, whatever follows it. */
  ghost predicate IsVc(data: seq<Byte>, p: ProofG1, z: bool) {
    var g, n := G1Size(z), |p.responses|;
    && |data| >= g + 4 + FR_SIZE * n
    && ReadG1(data, 0, z) == Ok(p.commitment)
    && FromBigEndian(data[g..g + 4]) == n
    && ScalarsHere(data, g + 4, n, z, p.responses)
  }

  lemma VcMeans(data: seq<Byte>, p: ProofG1, z: bool)
    ensures DecodeVc(data, z) == Ok(p) <==> IsVc(data, p, z)
    ensures DecodeVc(data, z).Ok? || DecodeVc(data, z) == Err(GeneralError)
  {
    hide ReadG1, ReadFr, ReadScalars, G1Size;
    var g := G1Size(z);
    NeverPanics(data, 0, z);
    if |data| >= g + 4 {
      var n := U32Of(data, g);
      ScalarsMean(data, g + 4, n, z, p.responses);
    }
  }

  lemma NeverPanics(data: seq<Byte>, at: nat, z: bool)
    ensures ReadG1(data, at, z).Ok? || ReadG1(data, at, z) == Err(GeneralError)
    ensures ReadG2(data, at, z).Ok? || ReadG2(data, at, z) == Err(GeneralError)
    ensures ReadFr(data, at, z).Ok? || ReadFr(data, at, z) == Err(GeneralError)
  {
  }

  lemma {:induction false} ScalarsMean(data: seq<Byte>, at: nat, n: nat, z: bool, xs: seq<Fr>)
    ensures ReadScalars(data, at, n, z) == Ok(xs) <==> |xs| == n && ScalarsHere(data, at, n, z, xs)
    ensures ReadScalars(data, at, n, z).Ok? || ReadScalars(data, at, n, z) == Err(GeneralError)
  {
    hide ReadFr, ScalarsHere;
    ScalarsErr(data, at, n, z);
    if |xs| == n {
      ScalarsUpTo(data, at, n, z, xs);
      assert xs[..n] == xs;
    }
  }

  lemma {:induction false} ScalarsUpTo(data: seq<Byte>, at: nat, n: nat, z: bool, xs: seq<Fr>)
    requires n <= |xs|
    ensures ReadScalars(data, at, n, z) == Ok(xs[..n]) <==> ScalarsHere(data, at, n, z, xs)
  {
    hide ReadFr, ScalarHere;
    if n > 0 {
      ScalarsUpTo(data, at, n - 1, z, xs);
      ScalarNext(data, at, n - 1, z, xs);
    }
  }

  lemma {:induction false} ScalarNext(data: seq<Byte>, at: nat, n: nat, z: bool, xs: seq<Fr>)
    requires n < |xs|
    ensures ReadScalars(data, at, n + 1, z) == Ok(xs[..n + 1])
       <==> ReadScalars(data, at, n, z) == Ok(xs[..n]) && ScalarHere(data, at, n, z, xs[n])
  {
    hide ReadFr;
    var rest, x := ReadScalars(data, at, n, z), ReadFr(data, at + FR_SIZE * n, z);
    assert xs[..n + 1] == xs[..n] + [xs[n]];
    if rest.Ok? && x.Ok? {
      assert (rest.value + [x.value])[..n] == rest.value && xs[..n + 1][..n] == xs[..n];
      assert (rest.value + [x.value])[n] == x.value && xs[..n + 1][n] == xs[n];
    }
  }

  lemma {:induction false} ScalarsErr(data: seq<Byte>, at: nat, n: nat, z: bool)
    ensures ReadScalars(data, at, n, z).Ok? || ReadScalars(data, at, n, z) == Err(GeneralError)
  {
    hide ReadFr;
    if n > 0 {
      ScalarsErr(data, at, n - 1, z);
      NeverPanics(data, at + FR_SIZE * (n - 1), z);
    }
  }

  // ---------- Sections ----------

  /** Sections one after the other, each with its length in front: as they are written. */
  ghost predicate Written(data: seq<Byte>, at: nat, ps: seq<ProofG1>, end: nat, z: bool)
    decreases |ps|
  {
    if ps == [] then end == at
    else
      var body := EncodeVc(ps[0], z);
      Holds(data, at, U32(|body|)) && Holds(data, at + 4, body) && Written(data, at + 4 + |body|, ps[1..], end, z)
  }

  /** As they are read. */
  ghost predicate Read(data: seq<Byte>, at: nat, ps: seq<ProofG1>, end: nat, z: bool)
    decreases |ps|
  {
    if ps == [] then end == at
    else
      && at + 4 <= |data|
      && var next := at + 4 + FromBigEndian(data[at..at + 4]);
      && next <= |data| && IsVc(data[at + 4..next], ps[0], z) && Read(data, next, ps[1..], end, z)
  }

  /** No length, or a length beyond the end of the data. */
  ghost predicate CutOff(data: seq<Byte>, at: nat) {
    at + 4 > |data| || at + 4 + FromBigEndian(data[at..at + 4]) > |data|
  }

  lemma {:induction false} SectionMeans(data: seq<Byte>, at: nat, z: bool, p: ProofG1, end: nat)
    ensures ReadProof(data, at, z) == Ok((p, end)) <==> Read(data, at, [p], end, z)
    ensures ReadProof(data, at, z) == Panic <==> CutOff(data, at)
    ensures ReadProof(data, at, z).Err? ==> ReadProof(data, at, z) == Err(GeneralError)
  {
    hide DecodeVc, IsVc;
    if !CutOff(data, at) {
      var next := at + 4 + U32Of(data, at);
      VcMeans(data[at + 4..next], p, z);
      assert Read(data, next, [p][1..], end, z) <==> end == next;
    }
  }

  lemma {:induction false} ReadStep(data: seq<Byte>, at: nat, ps: seq<ProofG1>, end: nat, z: bool)
    requires ps != []
    ensures Read(data, at, ps, end, z) <==>
      var r := ReadProof(data, at, z);
      r.Ok? && r.value.0 == ps[0] && Read(data, r.value.1, ps[1..], end, z)
  {
    hide DecodeVc, IsVc, ReadProof;
    var r := ReadProof(data, at, z);
    if r.Ok? {
      SectionMeans(data, at, z, r.value.0, r.value.1);
      assert Read(data, r.value.1, [r.value.0][1..], r.value.1, z);
    }
    if Read(data, at, ps, end, z) {
      var next := at + 4 + FromBigEndian(data[at..at + 4]);
      assert [ps[0]][1..] == [];
      SectionMeans(data, at, z, ps[0], next);
    }
  }

  lemma {:induction false} NoneLeft(data: seq<Byte>, at: nat, end: nat, z: bool)
    ensures Read(data, at, [], end, z) <==> end == at
  {
  }

  /** The next `n` sections and where they end, the way the decoders read them. */
  ghost function Sections(data: seq<Byte>, at: nat, n: nat, z: bool): Result<(seq<ProofG1>, nat)>
    decreases n
  {
    if n == 0 then Ok(([], at)) else
      var first :- ReadProof(data, at, z);
      var rest :- Sections(data, first.1, n - 1, z);
      Ok(([first.0] + rest.0, rest.1))
  }

  lemma {:induction false} SectionsMean(data: seq<Byte>, at: nat, n: nat, z: bool, ps: seq<ProofG1>, end: nat)
    ensures Sections(data, at, n, z) == Ok((ps, end)) <==> |ps| == n && Read(data, at, ps, end, z)
    decreases n
  {
    hide ReadProof, Read;
    if n == 0 {
      NoneLeft(data, at, end, z);
    } else {
      var first := ReadProof(data, at, z);
      if ps != [] {
        ReadStep(data, at, ps, end, z);
        assert ps == [ps[0]] + ps[1..];
        if first.Ok? {
          SectionsMean(data, first.value.1, n - 1, z, ps[1..], end);
          var rest := Sections(data, first.value.1, n - 1, z);
          if rest.Ok? {
            assert ([first.value.0] + rest.value.0)[1..] == rest.value.0;
          }
        }
      }
    }
  }

  /** Some section before the `n`-th is cut off, and those before it can be read. */
  ghost predicate SomeCutOff(data: seq<Byte>, at: nat, n: nat, z: bool) {
    exists ps: seq<ProofG1>, end: nat :: |ps| < n && Read(data, at, ps, end, z) && CutOff(data, end)
  }

  lemma CutLater(data: seq<Byte>, at: nat, p: ProofG1, next: nat, n: nat, z: bool)
    requires ReadProof(data, at, z) == Ok((p, next)) && SomeCutOff(data, next, n, z)
    ensures SomeCutOff(data, at, n + 1, z)
  {
    hide ReadProof, Read, CutOff;
    var ps: seq<ProofG1>, end: nat :| |ps| < n && Read(data, next, ps, end, z) && CutOff(data, end);
    assert ([p] + ps)[1..] == ps;
    ReadStep(data, at, [p] + ps, end, z);
  }

  lemma {:induction false} SectionsPanic(data: seq<Byte>, at: nat, n: nat, z: bool)
    ensures Sections(data, at, n, z) == Panic <==> SomeCutOff(data, at, n, z)
    ensures Sections(data, at, n, z).Err? ==> Sections(data, at, n, z) == Err(GeneralError)
    decreases n
  {
    hide ReadProof, Read, CutOff;
    if n > 0 {
      var first := ReadProof(data, at, z);
      NoneLeft(data, at, at, z);
      SectionMeans(data, at, z, ProofG1(0, []), 0);
      if first.Ok? {
        SectionsPanic(data, first.value.1, n - 1, z);
        if SomeCutOff(data, first.value.1, n - 1, z) {
          CutLater(data, at, first.value.0, first.value.1, n - 1, z);
        }
      }
      if SomeCutOff(data, at, n, z) {
        var ps: seq<ProofG1>, end: nat :| |ps| < n && Read(data, at, ps, end, z) && CutOff(data, end);
        if ps == [] {
          NoneLeft(data, at, end, z);
        } else {
          ReadStep(data, at, ps, end, z);
        }
      }
    }
  }

  // ---------- PoKOfTicketProof ----------

  ghost function Prefixed(p: PokTicket.PoKOfTicketProof): seq<ProofG1> {
    [p.credential.vc1, p.credential.vc2, p.ticket.vc3, p.ticket.vc4]
  }

  /** A ticket proof is four points, four sub-proofs behind their lengths, and the fifth to the end. */
  lemma {:induction false} TicketLayout(p: PokTicket.PoKOfTicketProof, z: bool)
    ensures var data, g := EncodeTicket(p, z), G1Size(z);
      && Holds(data, 0, SerG1(p.credential.aPrime, z)) && Holds(data, g, SerG1(p.credential.aBar, z))
      && Holds(data, 2 * g, SerG1(p.credential.d, z)) && Holds(data, 3 * g, SerG1(p.ticket.c, z))
      && |data| >= |EncodeVc(p.ticket.vc5, z)|
      && Written(data, 4 * g, Prefixed(p), |data| - |EncodeVc(p.ticket.vc5, z)|, z)
      && data[|data| - |EncodeVc(p.ticket.vc5, z)|..] == EncodeVc(p.ticket.vc5, z)
  {
    hide Holds, SerG1, EncodeVc, TicketHead, G1Size, U32, Written;
    var data, head := EncodeTicket(p, z), TicketHead(p, z);
    var s1, s2 := EncodeVc(p.credential.vc1, z), EncodeVc(p.credential.vc2, z);
    var s3, s4, s5 := EncodeVc(p.ticket.vc3, z), EncodeVc(p.ticket.vc4, z), EncodeVc(p.ticket.vc5, z);
    HoldsAll(data);
    HoldsSplit(data, 0, head + Section(s1) + Section(s2) + Section(s3) + Section(s4), s5);
    HoldsSplit(data, 0, head + Section(s1) + Section(s2) + Section(s3), Section(s4));
    HoldsSplit(data, 0, head + Section(s1) + Section(s2), Section(s3));
    HoldsSplit(data, 0, head + Section(s1), Section(s2));
    HoldsSplit(data, 0, head, Section(s1));
    HeadParts(data, p, z);
    var ps, at := Prefixed(p), 4 * G1Size(z);
    assert ps == [ps[0]] + ([ps[1]] + ([ps[2]] + ([ps[3]] + [])));
    var at2, at3, at4 := at + 4 + |s1|, at + 8 + |s1| + |s2|, at + 12 + |s1| + |s2| + |s3|;
    var end := at4 + 4 + |s4|;
    NoneWritten(data, end, z);
    WrittenStep(data, at4, ps[3], [], end, z);
    WrittenStep(data, at3, ps[2], [ps[3]] + [], end, z);
    WrittenStep(data, at2, ps[1], [ps[2]] + ([ps[3]] + []), end, z);
    WrittenStep(data, at, ps[0], [ps[1]] + ([ps[2]] + ([ps[3]] + [])), end, z);
  }

  lemma {:induction false} NoneWritten(data: seq<Byte>, at: nat, z: bool)
    ensures Written(data, at, [], at, z)
  {
  }

  lemma {:induction false} WrittenStep(data: seq<Byte>, at: nat, p: ProofG1, ps: seq<ProofG1>, end: nat, z: bool)
    requires Holds(data, at, Section(EncodeVc(p, z))) && Written(data, at + 4 + |EncodeVc(p, z)|, ps, end, z)
    ensures Written(data, at, [p] + ps, end, z)
  {
    hide Holds, EncodeVc, U32;
    var body := EncodeVc(p, z);
    HoldsSplit(data, at, U32(|body|), body);
    assert ([p] + ps)[1..] == ps;
  }

  lemma HeadParts(data: seq<Byte>, p: PokTicket.PoKOfTicketProof, z: bool)
    requires Holds(data, 0, TicketHead(p, z))
    ensures var g := G1Size(z);
      && Holds(data, 0, SerG1(p.credential.aPrime, z)) && Holds(data, g, SerG1(p.credential.aBar, z))
      && Holds(data, 2 * g, SerG1(p.credential.d, z)) && Holds(data, 3 * g, SerG1(p.ticket.c, z))
  {
    hide Holds, SerG1;
    var a, b, c, d := SerG1(p.credential.aPrime, z), SerG1(p.credential.aBar, z), SerG1(p.credential.d, z), SerG1(p.ticket.c, z);
    HoldsSplit(data, 0, a + b + c, d);
    HoldsSplit(data, 0, a + b, c);
    HoldsSplit(data, 0, a, b);
  }

  ghost predicate FourPoints(data: seq<Byte>, z: bool) {
    var g := G1Size(z);
    ReadG1(data, 0, z).Ok? && ReadG1(data, g, z).Ok? && ReadG1(data, 2 * g, z).Ok? && ReadG1(data, 3 * g, z).Ok?
  }

  /** Any data is a ticket proof exactly if its parts can be read one after the other. */
  lemma {:induction false} TicketMeans(data: seq<Byte>, p: PokTicket.PoKOfTicketProof, z: bool)
    ensures DecodeTicket(data, z) == Ok(p) <==>
      var g := G1Size(z);
      && ReadG1(data, 0, z) == Ok(p.credential.aPrime) && ReadG1(data, g, z) == Ok(p.credential.aBar)
      && ReadG1(data, 2 * g, z) == Ok(p.credential.d) && ReadG1(data, 3 * g, z) == Ok(p.ticket.c)
      && exists end: nat :: end <= |data| && Read(data, 4 * g, Prefixed(p), end, z) && IsVc(data[end..], p.ticket.vc5, z)
  {
    hide ReadG1, ReadProof, DecodeVc, IsVc, Read, Sections, DecodeTicket;
    var g := G1Size(z);
    ShortData(data, z);
    TicketSections(data, z);
    forall end: nat | end <= |data|
      ensures Read(data, 4 * g, Prefixed(p), end, z) <==> Sections(data, 4 * g, 4, z) == Ok((Prefixed(p), end))
      ensures IsVc(data[end..], p.ticket.vc5, z) <==> DecodeVc(data[end..], z) == Ok(p.ticket.vc5)
    {
      SectionsMean(data, 4 * g, 4, z, Prefixed(p), end);
      VcMeans(data[end..], p.ticket.vc5, z);
    }
    var r := Sections(data, 4 * g, 4, z);
    if r.Ok? {
      var ps := r.value.0;
      assert ps == [ps[0], ps[1], ps[2], ps[3]];
    }
  }

  /** The decoder panics exactly if one of the first four sub-proofs is cut off. Fewer bytes than three points
      take is one error, everything else another. */
  lemma TicketRefused(data: seq<Byte>, z: bool)
    ensures DecodeTicket(data, z) == Panic <==> FourPoints(data, z) && SomeCutOff(data, 4 * G1Size(z), 4, z)
    ensures DecodeTicket(data, z) == Err(PoKVCError) <==> |data| < 3 * G1Size(z)
    ensures DecodeTicket(data, z).Err? ==> DecodeTicket(data, z).error in {PoKVCError, GeneralError}
  {
    hide ReadG1, ReadProof, DecodeVc, IsVc, Read, Sections, DecodeTicket, SomeCutOff;
    var g := G1Size(z);
    ShortData(data, z);
    TicketSections(data, z);
    NeverPanics(data, 0, z);
    NeverPanics(data, g, z);
    NeverPanics(data, 2 * g, z);
    NeverPanics(data, 3 * g, z);
    SectionsPanic(data, 4 * g, 4, z);
    var r := Sections(data, 4 * g, 4, z);
    if r.Ok? {
      SectionsMean(data, 4 * g, 4, z, r.value.0, r.value.1);
      if r.value.1 <= |data| {
        VcMeans(data[r.value.1..], ProofG1(0, []), z);
      }
    }
  }

  lemma ShortData(data: seq<Byte>, z: bool)
    ensures |data| < 3 * G1Size(z) ==> ReadG1(data, 3 * G1Size(z), z) == ReadG1(data, 2 * G1Size(z), z) == Err(GeneralError)
  {
  }

  lemma {:induction false} TicketSections(data: seq<Byte>, z: bool)
    ensures var g, r := G1Size(z), Sections(data, 4 * G1Size(z), 4, z);
      && (r.Ok? ==> |r.value.0| == 4 && r.value.1 <= |data|)
      && DecodeTicket(data, z) ==
        if |data| < 3 * g then Err(PoKVCError)
        else if !FourPoints(data, z) then Err(GeneralError)
        else if !r.Ok? then r.PropagateFailure()
        else
          var ps, last := r.value.0, DecodeVc(data[r.value.1..], z);
          if !last.Ok? then last.PropagateFailure()
          else
            var aPrime, aBar, d, c := ReadG1(data, 0, z).value, ReadG1(data, g, z).value, ReadG1(data, 2 * g, z).value, ReadG1(data, 3 * g, z).value;
            Ok(PokTicket.PoKOfTicketProof(CredentialProof(aPrime, aBar, d, ps[0], ps[1]), PokTicket.TicketPart(c, ps[2], ps[3], last.value)))
  {
    hide ReadG1, ReadProof, DecodeVc, Sections;
    var g := G1Size(z);
    NeverPanics(data, 0, z);
    NeverPanics(data, g, z);
    NeverPanics(data, 2 * g, z);
    NeverPanics(data, 3 * g, z);
    FourSections(data, 4 * g, z);
  }

  ghost function Four(data: seq<Byte>, at: nat, z: bool): Result<(seq<ProofG1>, nat)> {
    var r1 :- ReadProof(data, at, z);
    var r2 :- ReadProof(data, r1.1, z);
    var r3 :- ReadProof(data, r2.1, z);
    var r4 :- ReadProof(data, r3.1, z);
    Ok(([r1.0, r2.0, r3.0, r4.0], r4.1))
  }

  lemma {:induction false} FourSections(data: seq<Byte>, at: nat, z: bool)
    ensures Sections(data, at, 4, z) == Four(data, at, z)
  {
    hide ReadProof;
    var r1 := ReadProof(data, at, z);
    if r1.Ok? {
      var r2 := ReadProof(data, r1.value.1, z);
      if r2.Ok? {
        var r3 := ReadProof(data, r2.value.1, z);
        if r3.Ok? {
          var r4 := ReadProof(data, r3.value.1, z);
          if r4.Ok? {
            var end := r4.value.1;
            assert Sections(data, end, 0, z) == Ok(([], end));
            var s4, s3, s2, s1 := [r4.value.0], [r3.value.0, r4.value.0], [r2.value.0, r3.value.0, r4.value.0],
                                  [r1.value.0, r2.value.0, r3.value.0, r4.value.0];
            assert [r4.value.0] + [] == s4 && [r3.value.0] + s4 == s3 && [r2.value.0] + s3 == s2 && [r1.value.0] + s2 == s1;
            assert Sections(data, r3.value.1, 1, z) == Ok((s4, end));
            assert Sections(data, r2.value.1, 2, z) == Ok((s3, end));
            assert Sections(data, r1.value.1, 3, z) == Ok((s2, end));
          }
        }
      }
    }
  }

  // ---------- Incomplete data ----------

  ghost predicate AllFit(ps: seq<ProofG1>, z: bool) {
    forall i :: 0 <= i < |ps| ==> |EncodeVc(ps[i], z)| < U32_RANGE
  }

  /** The first `n` bytes of written sections: all of them can be read, or one is cut off. */
  lemma {:induction false} PrefixSections(data: seq<Byte>, at: nat, ps: seq<ProofG1>, end: nat, z: bool, n: nat)
    requires Written(data, at, ps, end, z) && AllFit(ps, z) && n <= |data|
    ensures end <= n ==> Read(data[..n], at, ps, end, z)
    ensures n < end && ps != [] ==> SomeCutOff(data[..n], at, |ps|, z)
    decreases |ps|
  {
    hide IsVc, EncodeVc, Read, CutOff, U32, SomeCutOff, ReadProof, Holds;
    var part := data[..n];
    if ps == [] {
      NoneLeft(part, at, end, z);
    } else {
      var body := EncodeVc(ps[0], z);
      var next := at + 4 + |body|;
      EndsAfter(data, next, ps[1..], end, z);
      PrefixSections(data, next, ps[1..], end, z, n);
      if next <= n {
        PrefixSection(data, at, ps[0], z, n);
        ReadStep(part, at, ps, end, z);
        if n < end {
          CutLater(part, at, ps[0], next, |ps[1..]|, z);
        }
      } else {
        CutSection(data, at, body, n);
        CutHere(part, at, |ps|, z);
      }
    }
  }

  lemma CutHere(data: seq<Byte>, at: nat, n: nat, z: bool)
    requires CutOff(data, at) && n > 0
    ensures SomeCutOff(data, at, n, z)
  {
    hide CutOff;
    NoneLeft(data, at, at, z);
  }

  lemma {:induction false} EndsAfter(data: seq<Byte>, at: nat, ps: seq<ProofG1>, end: nat, z: bool)
    requires Written(data, at, ps, end, z)
    ensures at <= end
    decreases |ps|
  {
    if ps != [] {
      EndsAfter(data, at + 4 + |EncodeVc(ps[0], z)|, ps[1..], end, z);
    }
  }

  lemma PrefixSection(data: seq<Byte>, at: nat, p: ProofG1, z: bool, n: nat)
    requires Holds(data, at, U32(|EncodeVc(p, z)|)) && Holds(data, at + 4, EncodeVc(p, z)) && |EncodeVc(p, z)| < U32_RANGE
    requires at + 4 + |EncodeVc(p, z)| <= n <= |data|
    ensures ReadProof(data[..n], at, z) == Ok((p, at + 4 + |EncodeVc(p, z)|))
  {
    hide EncodeVc, U32, ReadProof;
    var body := EncodeVc(p, z);
    HoldsPrefix(data, at, U32(|body|), n);
    HoldsPrefix(data, at + 4, body, n);
    HoldsSplit(data[..n], at, U32(|body|), body);
    ProofAt(data[..n], at, p, z);
  }

  lemma HoldsPrefix(data: seq<Byte>, at: nat, chunk: seq<Byte>, n: nat)
    requires Holds(data, at, chunk) && at + |chunk| <= n <= |data|
    ensures Holds(data[..n], at, chunk)
  {
    assert data[..n][at..at + |chunk|] == data[at..at + |chunk|];
  }

  lemma CutSection(data: seq<Byte>, at: nat, body: seq<Byte>, n: nat)
    requires Holds(data, at, U32(|body|)) && |body| < U32_RANGE && n <= |data| && n < at + 4 + |body|
    ensures CutOff(data[..n], at)
  {
    hide U32;
    if at + 4 <= n {
      HoldsPrefix(data, at, U32(|body|), n);
      U32At(data[..n], at, |body|);
    }
  }

  /** What a part of a ticket proof decodes to: an error within the points or the last sub-proof, a panic
      within the sections. */
  lemma {:induction false} IncompleteTicket(p: PokTicket.PoKOfTicketProof, z: bool, n: nat)
    requires TicketFits(p, z) && n < |EncodeTicket(p, z)|
    ensures var g, last := G1Size(z), |EncodeTicket(p, z)| - |EncodeVc(p.ticket.vc5, z)|;
      DecodeTicket(EncodeTicket(p, z)[..n], z) ==
        if n < 3 * g then Err(PoKVCError)
        else if n < 4 * g then Err(GeneralError)
        else if n < last then Panic
        else Err(GeneralError)
  {
    hide EncodeVc, EncodeTicket, DecodeTicket, Written, ReadG1, IsVc, SomeCutOff, Read, SerG1;
    var data, g := EncodeTicket(p, z), G1Size(z);
    var last, part := |data| - |EncodeVc(p.ticket.vc5, z)|, data[..n];
    TicketLayout(p, z);
    TicketRefused(part, z);
    if n < 4 * g {
      ShortPoint(part, 3 * g, z);
      if DecodeTicket(part, z).Ok? {
        TicketMeans(part, DecodeTicket(part, z).value, z);
      }
    } else {
      FourHeld(data, p, z, n);
      assert AllFit(Prefixed(p), z);
      PrefixSections(data, 4 * g, Prefixed(p), last, z, n);
      if last <= n {
        LastCut(data, p, z, n);
      }
    }
  }

  lemma ShortPoint(data: seq<Byte>, at: nat, z: bool)
    requires |data| < at + G1Size(z)
    ensures ReadG1(data, at, z) == Err(GeneralError)
  {
  }

  lemma FourHeld(data: seq<Byte>, p: PokTicket.PoKOfTicketProof, z: bool, n: nat)
    requires 4 * G1Size(z) <= n <= |data|
    requires var g := G1Size(z);
      && Holds(data, 0, SerG1(p.credential.aPrime, z)) && Holds(data, g, SerG1(p.credential.aBar, z))
      && Holds(data, 2 * g, SerG1(p.credential.d, z)) && Holds(data, 3 * g, SerG1(p.ticket.c, z))
    ensures FourPoints(data[..n], z)
  {
    hide Holds, ReadG1;
    var g := G1Size(z);
    HoldsPrefix(data, 0, SerG1(p.credential.aPrime, z), n);
    HoldsPrefix(data, g, SerG1(p.credential.aBar, z), n);
    HoldsPrefix(data, 2 * g, SerG1(p.credential.d, z), n);
    HoldsPrefix(data, 3 * g, SerG1(p.ticket.c, z), n);
    G1At(data[..n], 0, p.credential.aPrime, z);
    G1At(data[..n], g, p.credential.aBar, z);
    G1At(data[..n], 2 * g, p.credential.d, z);
    G1At(data[..n], 3 * g, p.ticket.c, z);
  }

  lemma {:induction false} LastCut(data: seq<Byte>, p: PokTicket.PoKOfTicketProof, z: bool, n: nat)
    requires TicketFits(p, z) && 4 * G1Size(z) <= n < |data| && |data| >= |EncodeVc(p.ticket.vc5, z)|
    requires var last := |data| - |EncodeVc(p.ticket.vc5, z)|;
      last <= n && data[last..] == EncodeVc(p.ticket.vc5, z) && Read(data[..n], 4 * G1Size(z), Prefixed(p), last, z)
    ensures DecodeTicket(data[..n], z) != Panic && !DecodeTicket(data[..n], z).Ok?
  {
    hide EncodeVc, DecodeTicket, ReadG1, IsVc, SomeCutOff, Read, Sections, FourPoints, Prefixed, TicketFits;
    var part, g, last := data[..n], G1Size(z), |data| - |EncodeVc(p.ticket.vc5, z)|;
    TicketRefused(part, z);
    FourPrefixed(p);
    SectionsMean(part, 4 * g, 4, z, Prefixed(p), last);
    SectionsPanic(part, 4 * g, 4, z);
    if DecodeTicket(part, z).Ok? {
      var q := DecodeTicket(part, z).value;
      LastRead(part, p, last, q, z);
      assert part[last..] == data[last..][..n - last];
      FifthFits(p, z);
      CutVc(data[last..], p.ticket.vc5, z, n - last, q.ticket.vc5);
    }
  }

  lemma FifthFits(p: PokTicket.PoKOfTicketProof, z: bool)
    requires TicketFits(p, z)
    ensures |p.ticket.vc5.responses| < U32_RANGE
  {
  }

  /** Sections end at one place only. */
  lemma {:induction false} LastRead(data: seq<Byte>, p: PokTicket.PoKOfTicketProof, last: nat,
                                    q: PokTicket.PoKOfTicketProof, z: bool)
    requires Read(data, 4 * G1Size(z), Prefixed(p), last, z) && DecodeTicket(data, z) == Ok(q)
    ensures last <= |data| && IsVc(data[last..], q.ticket.vc5, z)
  {
    hide EncodeVc, DecodeTicket, ReadG1, IsVc, Read, Sections, Prefixed;
    var g := G1Size(z);
    TicketMeans(data, q, z);
    var end: nat :| end <= |data| && Read(data, 4 * g, Prefixed(q), end, z) && IsVc(data[end..], q.ticket.vc5, z);
    SectionsMean(data, 4 * g, 4, z, Prefixed(p), last);
    SectionsMean(data, 4 * g, 4, z, Prefixed(q), end);
    FourPrefixed(p);
    FourPrefixed(q);
  }

  lemma FourPrefixed(p: PokTicket.PoKOfTicketProof)
    ensures |Prefixed(p)| == 4
  {
  }

  /** A part of a proof is not a proof. */
  lemma {:induction false} CutVc(data: seq<Byte>, p: ProofG1, z: bool, n: nat, q: ProofG1)
    requires data == EncodeVc(p, z) && |p.responses| < U32_RANGE && n < |data|
    ensures !IsVc(data[..n], q, z)
  {
    hide ReadG1, ReadFr, G1Size, Holds, EncodeVc;
    VcLayout(p, z, 0);
    if n >= G1Size(z) + 4 {
      HoldsPrefix(data, G1Size(z), U32(|p.responses|), n);
      U32At(data[..n], G1Size(z), |p.responses|);
    }
  }
}
