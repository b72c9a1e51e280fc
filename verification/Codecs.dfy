/** The byte formats of proofs, keys and requests. */
module Codecs {
  import opened PrimeField
  import opened Group
  import opened Results
  import opened Encoding
  import opened PokVc
  import opened Disclosure
  import PokTicket

  const U32_RANGE: nat := 0x1_0000_0000

  // ---------- Reading ----------

  /** Reading an element past the end of the data is an error. */
  function ReadG1(data: seq<Byte>, at: nat, z: bool): Result<G1> {
    if at + G1Size(z) > |data| then Err(GeneralError)
    else match G1_CODEC.dec(data[at..at + G1Size(z)], z)
      case None => Err(GeneralError)
      case Some(p) => Ok(p)
  }

  function ReadG2(data: seq<Byte>, at: nat, z: bool): Result<G2> {
    if at + G2Size(z) > |data| then Err(GeneralError)
    else match G2_CODEC.dec(data[at..at + G2Size(z)], z)
      case None => Err(GeneralError)
      case Some(p) => Ok(p)
  }

  function ReadFr(data: seq<Byte>, at: nat, z: bool): Result<Fr> {
    if at + FR_SIZE > |data| then Err(GeneralError)
    else match FR_CODEC.dec(data[at..at + FR_SIZE], z)
      case None => Err(GeneralError)
      case Some(x) => Ok(x)
  }

  /** Reading a length or slicing past the end of the data is a panic. */
  function ReadU32(data: seq<Byte>, at: nat): (r: Result<nat>)
    ensures r.Ok? ==> r.value < U32_RANGE && at + 4 <= |data|
  {
    if at + 4 > |data| then Panic else Ok(U32Of(data, at))
  }

  function U32Of(data: seq<Byte>, at: nat): (n: nat)
    requires at + 4 <= |data|
    ensures n < U32_RANGE
  {
    FourBytes(data[at..at + 4]);
    FromBigEndian(data[at..at + 4])
  }

  lemma {:induction false} FourBytes(s: seq<Byte>)
    requires |s| == 4
    ensures FromBigEndian(s) < U32_RANGE
  {
    assert s[..3][..2] == s[..2] && s[..2][..1] == s[..1] && s[..1][..0] == [];
    assert FromBigEndian(s[..1]) < 256;
    assert FromBigEndian(s[..2]) < 0x1_0000;
    assert FromBigEndian(s[..3]) < 0x100_0000;
  }

  /** `chunk` lies in `data` at the given place. */
  ghost predicate Holds(data: seq<Byte>, at: nat, chunk: seq<Byte>) {
    at + |chunk| <= |data| && data[at..at + |chunk|] == chunk
  }

  lemma HoldsSplit(data: seq<Byte>, at: nat, x: seq<Byte>, y: seq<Byte>)
    ensures Holds(data, at, x + y) <==> Holds(data, at, x) && Holds(data, at + |x|, y)
  {
    if at + |x + y| <= |data| {
      var z := data[at..at + |x + y|];
      assert z == data[at..at + |x|] + data[at + |x|..at + |x| + |y|];
      assert (x + y)[..|x|] == x && (x + y)[|x|..] == y;
      if z == x + y {
        assert z[..|x|] == x && z[|x|..] == y;
      }
    }
  }

  lemma HoldsAll(data: seq<Byte>)
    ensures Holds(data, 0, data)
  {
  }

  lemma G1At(data: seq<Byte>, at: nat, p: G1, z: bool)
    requires Holds(data, at, SerG1(p, z))
    ensures ReadG1(data, at, z) == Ok(p)
  {
  }

  lemma G2At(data: seq<Byte>, at: nat, p: G2, z: bool)
    requires Holds(data, at, SerG2(p, z))
    ensures ReadG2(data, at, z) == Ok(p)
  {
  }

  lemma FrAt(data: seq<Byte>, at: nat, x: Fr, z: bool, z': bool)
    requires Holds(data, at, SerFr(x, z))
    ensures ReadFr(data, at, z') == Ok(x)
  {
  }

  /** A count cast to 32 bits. */
  function Cut(n: nat): (r: nat)
    ensures r <= n && r < U32_RANGE
    ensures n < U32_RANGE ==> r == n
  {
    n % U32_RANGE
  }

  lemma U32At(data: seq<Byte>, at: nat, n: nat)
    requires Holds(data, at, U32(n))
    ensures ReadU32(data, at) == Ok(Cut(n))
  {
    U32RoundTrip(n);
  }

  // ---------- Sequences of scalars and points ----------

  function SerScalars(xs: seq<Fr>, z: bool): (s: seq<Byte>)
    ensures |s| == FR_SIZE * |xs|
  {
    if xs == [] then [] else SerScalars(xs[..|xs| - 1], z) + SerFr(xs[|xs| - 1], z)
  }

  lemma {:induction false} NoScalars(z: bool)
    ensures SerScalars([], z) == []
  {
  }

  lemma {:induction false} ScalarsNext(xs: seq<Fr>, i: nat, z: bool)
    requires i < |xs|
    ensures SerScalars(xs[..i + 1], z) == SerScalars(xs[..i], z) + SerFr(xs[i], z)
  {
    hide SerFr;
    assert xs[..i + 1][..i] == xs[..i];
  }

  function ReadScalars(data: seq<Byte>, at: nat, n: nat, z: bool): (r: Result<seq<Fr>>)
    ensures r.Ok? ==> |r.value| == n && (n > 0 ==> at + FR_SIZE * n <= |data|)
  {
    if n == 0 then Ok([]) else
      var init :- ReadScalars(data, at, n - 1, z);
      var x :- ReadFr(data, at + FR_SIZE * (n - 1), z);
      Ok(init + [x])
  }

  lemma {:induction false} ScalarsHeld(data: seq<Byte>, at: nat, xs: seq<Fr>, n: nat, z: bool)
    requires n <= |xs| && Holds(data, at, SerScalars(xs, z))
    ensures Holds(data, at, SerScalars(xs[..n], z))
  {
    hide Holds, SerFr, SerScalars;
    if n < |xs| {
      var k := |xs| - 1;
      ScalarsNext(xs, k, z);
      assert xs[..k + 1] == xs;
      HoldsSplit(data, at, SerScalars(xs[..k], z), SerFr(xs[k], z));
      ScalarsHeld(data, at, xs[..k], n, z);
      assert xs[..k][..n] == xs[..n];
    } else {
      assert xs[..n] == xs;
    }
  }

  lemma {:induction false} ScalarsRead(data: seq<Byte>, at: nat, xs: seq<Fr>, z: bool)
    requires Holds(data, at, SerScalars(xs, z))
    ensures ReadScalars(data, at, |xs|, z) == Ok(xs)
  {
    hide Holds, ReadFr, SerFr, SerScalars;
    if xs != [] {
      var k := |xs| - 1;
      ScalarsNext(xs, k, z);
      assert xs[..k + 1] == xs;
      HoldsSplit(data, at, SerScalars(xs[..k], z), SerFr(xs[k], z));
      ScalarsRead(data, at, xs[..k], z);
      FrAt(data, at + FR_SIZE * k, xs[k], z, z);
      assert xs[..k] + [xs[k]] == xs;
    } else {
      NoScalars(z);
    }
  }

  lemma {:induction false} ScalarsAt(data: seq<Byte>, at: nat, xs: seq<Fr>, n: nat, z: bool)
    requires n <= |xs| && Holds(data, at, SerScalars(xs, z))
    ensures ReadScalars(data, at, n, z) == Ok(xs[..n])
  {
    ScalarsHeld(data, at, xs, n, z);
    ScalarsRead(data, at, xs[..n], z);
  }

  lemma {:induction false} ScalarsFail(data: seq<Byte>, at: nat, i: nat, n: nat, z: bool)
    requires i <= n && !ReadScalars(data, at, i, z).Ok?
    ensures ReadScalars(data, at, n, z) == ReadScalars(data, at, i, z)
  {
    if i < n {
      ScalarsFail(data, at, i, n - 1, z);
    }
  }

  function ReadPoints(data: seq<Byte>, at: nat, n: nat, z: bool): (r: Result<seq<G1>>)
    ensures r.Ok? ==> |r.value| == n
  {
    if n == 0 then Ok([]) else
      var init :- ReadPoints(data, at, n - 1, z);
      var x :- ReadG1(data, at + G1Size(z) * (n - 1), z);
      Ok(init + [x])
  }

  lemma {:induction false} PointsSize(ps: seq<G1>, z: bool)
    ensures |SerPoints(ps, z)| == G1Size(z) * |ps|
  {
    if ps != [] {
      PointsSize(ps[1..], z);
    }
  }

  lemma {:induction false} PointsAt(data: seq<Byte>, at: nat, ps: seq<G1>, n: nat, z: bool)
    requires n <= |ps| && Holds(data, at, SerPoints(ps, z))
    ensures ReadPoints(data, at, n, z) == Ok(ps[..n])
    decreases |ps| + n
  {
    hide Holds, ReadG1, SerG1;
    if ps != [] {
      var k := |ps| - 1;
      assert ps == ps[..k] + [ps[k]];
      SerPointsSnoc(ps[..k], ps[k], z);
      HoldsSplit(data, at, SerPoints(ps[..k], z), SerG1(ps[k], z));
      PointsSize(ps[..k], z);
      if n <= k {
        PointsAt(data, at, ps[..k], n, z);
        assert ps[..k][..n] == ps[..n];
      } else {
        PointsAt(data, at, ps[..k], k, z);
        G1At(data, at + G1Size(z) * k, ps[k], z);
        assert ps[..k][..k] == ps[..k] && ps[..n] == ps[..k] + [ps[k]];
      }
    }
  }

  lemma {:induction false} PointsFail(data: seq<Byte>, at: nat, i: nat, n: nat, z: bool)
    requires i <= n && !ReadPoints(data, at, i, z).Ok?
    ensures ReadPoints(data, at, n, z) == ReadPoints(data, at, i, z)
  {
    if i < n {
      PointsFail(data, at, i, n - 1, z);
    }
  }

  // ---------- ProofG1 ----------

  function EncodeVc(p: ProofG1, z: bool): (s: seq<Byte>)
    ensures |s| == G1Size(z) + 4 + FR_SIZE * |p.responses|
  {
    SerG1(p.commitment, z) + (U32(|p.responses|) + SerScalars(p.responses, z))
  }

  method VcToBytes(p: ProofG1, z: bool) returns (result: seq<Byte>)
    ensures result == EncodeVc(p, z)
  {
    hide U32, SerG1, SerFr, SerScalars;
    NoScalars(z);
    result := SerG1(p.commitment, z);
    result := result + U32(|p.responses|);
    ghost var start := result;
    for i := 0 to |p.responses|
      invariant result == start + SerScalars(p.responses[..i], z)
    {
      ScalarsNext(p.responses, i, z);
      result := result + SerFr(p.responses[i], z);
    }
    assert p.responses[..|p.responses|] == p.responses;
    assert result == SerG1(p.commitment, z) + (U32(|p.responses|) + SerScalars(p.responses, z));
  }

  function DecodeVc(data: seq<Byte>, z: bool): Result<ProofG1> {
    var g := G1Size(z);
    if |data| < g + 4 then Err(GeneralError) else
    var commitment :- ReadG1(data, 0, z);
    var length := U32Of(data, g);
    if |data| < g + 4 + length * FR_SIZE then Err(GeneralError) else
    var responses :- ReadScalars(data, g + 4, length, z);
    Ok(ProofG1(commitment, responses))
  }

  method VcFromBytes(data: seq<Byte>, z: bool) returns (result: Result<ProofG1>)
    ensures result == DecodeVc(data, z)
  {
    var g := G1Size(z);
    if |data| < g + 4 {
      return Err(GeneralError);
    }
    var at := 0;
    var commitment :- ReadG1(data, at, z);
    at := at + g;
    var length := U32Of(data, at);
    at := at + 4;
    if |data| < g + 4 + length * FR_SIZE {
      return Err(GeneralError);
    }
    var responses :- ScalarsFromBytes(data, at, length, z);
    return Ok(ProofG1(commitment, responses));
  }

  method ScalarsFromBytes(data: seq<Byte>, start: nat, length: nat, z: bool) returns (result: Result<seq<Fr>>)
    ensures result == ReadScalars(data, start, length, z)
  {
    hide ReadFr;
    var at, responses: seq<Fr> := start, [];
    for i := 0 to length
      invariant at == start + FR_SIZE * i
      invariant ReadScalars(data, start, i, z) == Ok(responses)
    {
      var r := ReadFr(data, at, z);
      if !r.Ok? {
        ScalarsFail(data, start, i + 1, length, z);
        return r.PropagateFailure();
      }
      responses := responses + [r.value];
      at := at + FR_SIZE;
    }
    return Ok(responses);
  }

  /** Decoding what was encoded, whatever follows it in the data; the count is cut to 32 bits. */
  lemma VcAt(data: seq<Byte>, p: ProofG1, z: bool)
    requires Holds(data, 0, EncodeVc(p, z))
    ensures DecodeVc(data, z) == Ok(ProofG1(p.commitment, p.responses[..Cut(|p.responses|)]))
  {
    hide Holds, ReadG1, ReadScalars, SerG1, SerScalars, U32, G1Size;
    var g, n := G1Size(z), Cut(|p.responses|);
    HoldsSplit(data, 0, SerG1(p.commitment, z), U32(|p.responses|) + SerScalars(p.responses, z));
    HoldsSplit(data, g, U32(|p.responses|), SerScalars(p.responses, z));
    G1At(data, 0, p.commitment, z);
    U32At(data, g, |p.responses|);
    ScalarsAt(data, g + 4, p.responses, n, z);
  }

  lemma VcWhole(data: seq<Byte>, p: ProofG1, z: bool)
    requires Holds(data, 0, EncodeVc(p, z)) && |p.responses| < U32_RANGE
    ensures DecodeVc(data, z) == Ok(p)
  {
    hide DecodeVc, EncodeVc, Holds;
    VcAt(data, p, z);
    assert p.responses[..|p.responses|] == p.responses;
  }

  lemma VcSize(p: ProofG1, z: bool)
    ensures |p.responses| <= |EncodeVc(p, z)|
  {
  }

  /** A proof decodes only from data at least as long as its encoding. */
  lemma VcDecodedSize(data: seq<Byte>, p: ProofG1, z: bool)
    requires DecodeVc(data, z) == Ok(p)
    ensures |p.responses| < U32_RANGE && |EncodeVc(p, z)| <= |data|
  {
  }

  // ---------- Length-prefixed sections ----------

  function Section(body: seq<Byte>): seq<Byte> {
    U32(|body|) + body
  }

  /** The proof in the section at a place, and the end of the section. */
  function ReadProof(data: seq<Byte>, at: nat, z: bool): (r: Result<(ProofG1, nat)>)
    ensures r.Ok? ==> r.value.1 <= |data|
  {
    var n :- ReadU32(data, at);
    if at + 4 + n > |data| then Panic else
    var p :- DecodeVc(data[at + 4..at + 4 + n], z);
    Ok((p, at + 4 + n))
  }

  method NextProof(data: seq<Byte>, end: nat, z: bool) returns (result: Result<(ProofG1, nat)>)
    ensures result == ReadProof(data, end, z)
  {
    var offset, end := end, end;
    end := offset + 4;
    var proofBytes :- ReadU32(data, offset);
    offset := end;
    end := offset + proofBytes;
    if end > |data| {
      return Panic;
    }
    var proof :- VcFromBytes(data[offset..end], z);
    return Ok((proof, end));
  }

  lemma ProofAt(data: seq<Byte>, at: nat, p: ProofG1, z: bool)
    requires Holds(data, at, Section(EncodeVc(p, z))) && |EncodeVc(p, z)| < U32_RANGE
    ensures ReadProof(data, at, z) == Ok((p, at + 4 + |EncodeVc(p, z)|))
  {
    VcSize(p, z);
    hide DecodeVc, EncodeVc, U32;
    var body := EncodeVc(p, z);
    HoldsSplit(data, at, U32(|body|), body);
    U32At(data, at, |body|);
    HoldsAll(body);
    VcWhole(body, p, z);
    assert data[at + 4..at + 4 + |body|] == body;
  }

  lemma ProofReadSize(data: seq<Byte>, at: nat, p: ProofG1, end: nat, z: bool)
    requires ReadProof(data, at, z) == Ok((p, end))
    ensures |EncodeVc(p, z)| < U32_RANGE && at + 4 + |EncodeVc(p, z)| <= end <= |data|
  {
    var n := ReadU32(data, at).value;
    VcDecodedSize(data[at + 4..at + 4 + n], p, z);
  }

  // ---------- PoKOfTicketProof ----------

  function TicketHead(p: PokTicket.PoKOfTicketProof, z: bool): (s: seq<Byte>)
    ensures |s| == 4 * G1Size(z)
  {
    SerG1(p.credential.aPrime, z) + SerG1(p.credential.aBar, z) + SerG1(p.credential.d, z) + SerG1(p.ticket.c, z)
  }

  /** Four length-prefixed sub-proofs; the fifth takes the rest. */
  function EncodeTicket(p: PokTicket.PoKOfTicketProof, z: bool): seq<Byte> {
    TicketHead(p, z)
    + Section(EncodeVc(p.credential.vc1, z)) + Section(EncodeVc(p.credential.vc2, z))
    + Section(EncodeVc(p.ticket.vc3, z)) + Section(EncodeVc(p.ticket.vc4, z)) + EncodeVc(p.ticket.vc5, z)
  }

  method AppendSection(output: seq<Byte>, p: ProofG1, z: bool) returns (r: seq<Byte>)
    ensures r == output + Section(EncodeVc(p, z))
  {
    var proofBytes := VcToBytes(p, z);
    r := output + U32(|proofBytes|);
    r := r + proofBytes;
    assert r == output + (U32(|proofBytes|) + proofBytes);
  }

  method TicketToBytes(p: PokTicket.PoKOfTicketProof, z: bool) returns (output: seq<Byte>)
    ensures output == EncodeTicket(p, z)
  {
    hide Section, EncodeVc;
    output := SerG1(p.credential.aPrime, z);
    output := output + SerG1(p.credential.aBar, z);
    output := output + SerG1(p.credential.d, z);
    output := output + SerG1(p.ticket.c, z);
    output := AppendSection(output, p.credential.vc1, z);
    output := AppendSection(output, p.credential.vc2, z);
    output := AppendSection(output, p.ticket.vc3, z);
    output := AppendSection(output, p.ticket.vc4, z);
    var proof5Bytes := VcToBytes(p.ticket.vc5, z);
    output := output + proof5Bytes;
  }

  function DecodeTicket(data: seq<Byte>, z: bool): Result<PokTicket.PoKOfTicketProof> {
    var g := G1Size(z);
    if |data| < g * 3 then Err(PoKVCError) else
    var aPrime :- ReadG1(data, 0, z);
    var aBar :- ReadG1(data, g, z);
    var d :- ReadG1(data, 2 * g, z);
    var c :- ReadG1(data, 3 * g, z);
    var r1 :- ReadProof(data, 4 * g, z);
    var r2 :- ReadProof(data, r1.1, z);
    var r3 :- ReadProof(data, r2.1, z);
    var r4 :- ReadProof(data, r3.1, z);
    var vc5 :- DecodeVc(data[r4.1..], z);
    Ok(PokTicket.PoKOfTicketProof(CredentialProof(aPrime, aBar, d, r1.0, r2.0), PokTicket.TicketPart(c, r3.0, r4.0, vc5)))
  }

  method TicketFromBytes(data: seq<Byte>, z: bool) returns (result: Result<PokTicket.PoKOfTicketProof>)
    ensures result == DecodeTicket(data, z)
  {
    var g := G1Size(z);
    if |data| < g * 3 {
      return Err(PoKVCError);
    }
    var offset, end := 0, g;
    var aPrime :- ReadG1(data, offset, z);
    offset, end := end, end + g;
    var aBar :- ReadG1(data, offset, z);
    offset, end := end, end + g;
    var d :- ReadG1(data, offset, z);
    offset, end := end, end + g;
    var c :- ReadG1(data, offset, z);
    var first :- NextProof(data, end, z);
    end := first.1;
    var second :- NextProof(data, end, z);
    end := second.1;
    var third :- NextProof(data, end, z);
    end := third.1;
    var fourth :- NextProof(data, end, z);
    end := fourth.1;
    var vc5 :- VcFromBytes(data[end..], z);
    return Ok(PokTicket.PoKOfTicketProof(CredentialProof(aPrime, aBar, d, first.0, second.0),
                                         PokTicket.TicketPart(c, third.0, fourth.0, vc5)));
  }

  /** Every prefixed sub-proof's length, and the fifth's count, fits in 32 bits. */
  ghost predicate TicketFits(p: PokTicket.PoKOfTicketProof, z: bool) {
    && |EncodeVc(p.credential.vc1, z)| < U32_RANGE && |EncodeVc(p.credential.vc2, z)| < U32_RANGE
    && |EncodeVc(p.ticket.vc3, z)| < U32_RANGE && |EncodeVc(p.ticket.vc4, z)| < U32_RANGE
    && |p.ticket.vc5.responses| < U32_RANGE
  }

  /** A ticket proof comes back from its bytes exactly when its lengths fit, in both forms. */
  lemma TicketRoundTrip(p: PokTicket.PoKOfTicketProof, z: bool)
    ensures DecodeTicket(EncodeTicket(p, z), z) == Ok(p) <==> TicketFits(p, z)
  {
    if TicketFits(p, z) {
      TicketDecodes(p, z);
    }
    if DecodeTicket(EncodeTicket(p, z), z) == Ok(p) {
      TicketDecodedFits(EncodeTicket(p, z), p, z);
    }
  }

  lemma TicketHeadAt(data: seq<Byte>, p: PokTicket.PoKOfTicketProof, z: bool)
    requires Holds(data, 0, TicketHead(p, z))
    ensures ReadG1(data, 0, z) == Ok(p.credential.aPrime) && ReadG1(data, G1Size(z), z) == Ok(p.credential.aBar)
    ensures ReadG1(data, 2 * G1Size(z), z) == Ok(p.credential.d) && ReadG1(data, 3 * G1Size(z), z) == Ok(p.ticket.c)
  {
    hide Holds, ReadG1, SerG1;
    var a, b, c, d := SerG1(p.credential.aPrime, z), SerG1(p.credential.aBar, z), SerG1(p.credential.d, z), SerG1(p.ticket.c, z);
    HoldsSplit(data, 0, a + b + c, d);
    HoldsSplit(data, 0, a + b, c);
    HoldsSplit(data, 0, a, b);
    G1At(data, 0, p.credential.aPrime, z);
    G1At(data, G1Size(z), p.credential.aBar, z);
    G1At(data, 2 * G1Size(z), p.credential.d, z);
    G1At(data, 3 * G1Size(z), p.ticket.c, z);
  }

  lemma TicketDecodes(p: PokTicket.PoKOfTicketProof, z: bool)
    requires TicketFits(p, z)
    ensures DecodeTicket(EncodeTicket(p, z), z) == Ok(p)
  {
    hide Holds, ReadG1, ReadProof, DecodeVc, SerG1, EncodeVc, TicketHead, G1Size, U32;
    var data, head := EncodeTicket(p, z), TicketHead(p, z);
    var s1, s2 := EncodeVc(p.credential.vc1, z), EncodeVc(p.credential.vc2, z);
    var s3, s4, s5 := EncodeVc(p.ticket.vc3, z), EncodeVc(p.ticket.vc4, z), EncodeVc(p.ticket.vc5, z);
    HoldsAll(data);
    HoldsSplit(data, 0, head + Section(s1) + Section(s2) + Section(s3) + Section(s4), s5);
    HoldsSplit(data, 0, head + Section(s1) + Section(s2) + Section(s3), Section(s4));
    HoldsSplit(data, 0, head + Section(s1) + Section(s2), Section(s3));
    HoldsSplit(data, 0, head + Section(s1), Section(s2));
    HoldsSplit(data, 0, head, Section(s1));
    TicketHeadAt(data, p, z);
    var at := 4 * G1Size(z);
    ProofAt(data, at, p.credential.vc1, z);
    at := at + 4 + |s1|;
    ProofAt(data, at, p.credential.vc2, z);
    at := at + 4 + |s2|;
    ProofAt(data, at, p.ticket.vc3, z);
    at := at + 4 + |s3|;
    ProofAt(data, at, p.ticket.vc4, z);
    LastAt(data, at + 4 + |s4|, p.ticket.vc5, z);
  }

  lemma LastAt(data: seq<Byte>, at: nat, p: ProofG1, z: bool)
    requires Holds(data, at, EncodeVc(p, z)) && |p.responses| < U32_RANGE
    ensures DecodeVc(data[at..], z) == Ok(p)
  {
    var rest := data[at..];
    assert rest[0..|EncodeVc(p, z)|] == data[at..at + |EncodeVc(p, z)|];
    VcWhole(rest, p, z);
  }

  lemma TicketDecodedFits(data: seq<Byte>, p: PokTicket.PoKOfTicketProof, z: bool)
    requires DecodeTicket(data, z) == Ok(p)
    ensures TicketFits(p, z)
  {
    hide ReadG1, ReadProof, DecodeVc, EncodeVc;
    var r1 := ReadProof(data, 4 * G1Size(z), z).value;
    var r2 := ReadProof(data, r1.1, z).value;
    var r3 := ReadProof(data, r2.1, z).value;
    var r4 := ReadProof(data, r3.1, z).value;
    ProofReadSize(data, 4 * G1Size(z), p.credential.vc1, r1.1, z);
    ProofReadSize(data, r1.1, p.credential.vc2, r2.1, z);
    ProofReadSize(data, r2.1, p.ticket.vc3, r3.1, z);
    ProofReadSize(data, r3.1, p.ticket.vc4, r4.1, z);
    VcDecodedSize(data[r4.1..], p.ticket.vc5, z);
  }
}
