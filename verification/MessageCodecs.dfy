/** The byte formats of what the parties of issuance and disclosure send: keys, contexts, signature
    proofs with their revealed messages, and proof requests. */
module MessageCodecs {
  import opened PrimeField
  import opened Group
  import opened Results
  import opened Encoding
  import opened Selection
  import opened Signatures
  import opened Disclosure
  import opened Codecs
  import Issuance
  import PokSignature
  import BitVector

  // ---------- PublicKey ----------

  function EncodeKey(key: PublicKey, z: bool): seq<Byte> {
    SerG2(key.w, z) + SerG1(key.h0, z) + U32(|key.h|) + SerPoints(key.h, z)
  }

  method KeyToBytes(key: PublicKey, z: bool) returns (out: seq<Byte>)
    ensures out == EncodeKey(key, z)
  {
    out := SerG2(key.w, z);
    out := out + SerG1(key.h0, z);
    out := out + U32(|key.h|);
    out := AppendPoints(out, key.h, z);
  }

  method AppendPoints(out: seq<Byte>, ps: seq<G1>, z: bool) returns (r: seq<Byte>)
    ensures r == out + SerPoints(ps, z)
  {
    hide SerG1;
    r := out;
    for i := 0 to |ps|
      invariant r == out + SerPoints(ps[..i], z)
    {
      assert ps[..i + 1] == ps[..i] + [ps[i]];
      SerPointsSnoc(ps[..i], ps[i], z);
      r := r + SerG1(ps[i], z);
    }
    assert ps[..|ps|] == ps;
  }

  /** Fewer than four bytes underflow the length check; a decoded key must be valid. */
  function DecodeKey(data: seq<Byte>, z: bool): Result<PublicKey> {
    if |data| < 4 then Panic
    else if (|data| - 4) % G1Size(z) != 0 then Err(MalformedPublicKey) else
    var w :- ReadG2(data, 0, z);
    var h0 :- ReadG1(data, G2Size(z), z);
    var n :- ReadU32(data, G2Size(z) + G1Size(z));
    var h :- ReadPoints(data, G2Size(z) + G1Size(z) + 4, n, z);
    var _ :- PublicKey(h0, h, w).Validate();
    Ok(PublicKey(h0, h, w))
  }

  method KeyFromBytes(data: seq<Byte>, z: bool) returns (result: Result<PublicKey>)
    ensures result == DecodeKey(data, z)
  {
    if |data| < 4 {
      return Panic;
    }
    if (|data| - 4) % G1Size(z) != 0 {
      return Err(MalformedPublicKey);
    }
    var c := 0;
    var w :- ReadG2(data, c, z);
    c := c + G2Size(z);
    var h0 :- ReadG1(data, c, z);
    c := c + G1Size(z);
    var hSize :- ReadU32(data, c);
    c := c + 4;
    var h :- PointsFromBytes(data, c, hSize, z);
    var key := PublicKey(h0, h, w);
    var _ :- key.Validate();
    return Ok(key);
  }

  method PointsFromBytes(data: seq<Byte>, start: nat, hSize: nat, z: bool) returns (result: Result<seq<G1>>)
    ensures result == ReadPoints(data, start, hSize, z)
  {
    var c, h: seq<G1> := start, [];
    hide ReadG1, G1Size;
    assert ReadPoints(data, start, 0, z) == Ok([]);
    hide ReadPoints;
    for i := 0 to hSize
      invariant c == start + G1Size(z) * i
      invariant ReadPoints(data, start, i, z) == Ok(h)
    {
      var p := ReadG1(data, c, z);
      if !p.Ok? {
        PointsStep(data, start, i, h, z);
        PointsFail(data, start, i + 1, hSize, z);
        return p.PropagateFailure();
      }
      PointsStep(data, start, i, h, z);
      h := h + [p.value];
      c := c + G1Size(z);
      Stride(G1Size(z), i);
    }
    return Ok(h);
  }

  lemma {:induction false} PointsStep(data: seq<Byte>, start: nat, i: nat, h: seq<G1>, z: bool)
    requires ReadPoints(data, start, i, z) == Ok(h)
    ensures var p := ReadG1(data, start + G1Size(z) * i, z);
      ReadPoints(data, start, i + 1, z) == if p.Ok? then Ok(h + [p.value]) else p.PropagateFailure()
  {
    hide ReadG1, G1Size;
  }

  lemma Stride(g: nat, i: nat)
    ensures g * (i + 1) == g * i + g
  {
  }

  lemma KeySize(key: PublicKey, z: bool)
    ensures |EncodeKey(key, z)| == 4 + G1Size(z) * (3 + |key.h|)
    ensures (|EncodeKey(key, z)| - 4) % G1Size(z) == 0
  {
    hide SerG1, SerG2, U32, SerPoints;
    PointsSize(key.h, z);
    WholePoints(3 + |key.h|, z);
  }

  lemma WholePoints(n: nat, z: bool)
    ensures (G1Size(z) * n) % G1Size(z) == 0
  {
    if z {
      assert (48 * n) % 48 == 0;
    } else {
      assert (96 * n) % 96 == 0;
    }
  }

  /** The key a written key reads as: the count of generators is cut to 32 bits. */
  function CutKey(key: PublicKey): PublicKey {
    key.(h := key.h[..Cut(|key.h|)])
  }

  /** A key comes back from its bytes, in both forms, or is refused for an identity among its points. */
  lemma KeyRoundTrip(key: PublicKey, z: bool)
    ensures DecodeKey(EncodeKey(key, z), z)
         == if CutKey(key).Validate().Ok? then Ok(CutKey(key)) else Err(MalformedPublicKey)
    ensures |key.h| < U32_RANGE ==> CutKey(key) == key
  {
    hide Holds, ReadG1, ReadG2, ReadPoints, ReadU32, SerPoints, SerG1, SerG2, U32;
    var data := EncodeKey(key, z);
    KeySize(key, z);
    KeyHeld(key, z);
    hide EncodeKey, G1Size, G2Size;
    G2At(data, 0, key.w, z);
    G1At(data, G2Size(z), key.h0, z);
    U32At(data, G2Size(z) + G1Size(z), |key.h|);
    PointsAt(data, G2Size(z) + G1Size(z) + 4, key.h, Cut(|key.h|), z);
    WholeKey(key);
  }

  lemma {:induction false} KeyHeld(key: PublicKey, z: bool)
    ensures var data := EncodeKey(key, z);
      && Holds(data, 0, SerG2(key.w, z)) && Holds(data, G2Size(z), SerG1(key.h0, z))
      && Holds(data, G2Size(z) + G1Size(z), U32(|key.h|)) && Holds(data, G2Size(z) + G1Size(z) + 4, SerPoints(key.h, z))
  {
    hide Holds, SerPoints, SerG1, SerG2, U32;
    var data := EncodeKey(key, z);
    HoldsAll(data);
    HoldsSplit(data, 0, SerG2(key.w, z) + SerG1(key.h0, z) + U32(|key.h|), SerPoints(key.h, z));
    HoldsSplit(data, 0, SerG2(key.w, z) + SerG1(key.h0, z), U32(|key.h|));
    HoldsSplit(data, 0, SerG2(key.w, z), SerG1(key.h0, z));
  }

  lemma WholeKey(key: PublicKey)
    ensures |key.h| < U32_RANGE ==> CutKey(key) == key
  {
    if |key.h| < U32_RANGE {
      assert key.h[..|key.h|] == key.h;
    }
  }

  // ---------- BlindSignatureContext ----------

  function EncodeContext(ctx: Issuance.BlindSignatureContext, z: bool): seq<Byte> {
    SerG1(ctx.commitment, z) + SerFr(ctx.challengeHash, z) + EncodeVc(ctx.proof, z)
  }

  function DecodeContext(data: seq<Byte>, z: bool): Result<Issuance.BlindSignatureContext> {
    var g := G1Size(z);
    if |data| < g * 2 + FR_SIZE + 4 then Err(InvalidNumberOfBytes(g * 2 + FR_SIZE + 4, |data|)) else
    var commitment :- ReadG1(data, 0, z);
    var challengeHash :- ReadFr(data, g, z);
    var proof :- DecodeVc(data[g + FR_SIZE..], z);
    Ok(Issuance.BlindSignatureContext(challengeHash, commitment, proof))
  }

  lemma ContextRoundTrip(ctx: Issuance.BlindSignatureContext, z: bool)
    ensures DecodeContext(EncodeContext(ctx, z), z) == Ok(ctx) <==> |ctx.proof.responses| < U32_RANGE
  {
    hide Holds, ReadG1, ReadFr, DecodeVc, SerG1, SerFr, EncodeVc;
    var data, at := EncodeContext(ctx, z), G1Size(z) + FR_SIZE;
    HoldsAll(data);
    HoldsSplit(data, 0, SerG1(ctx.commitment, z) + SerFr(ctx.challengeHash, z), EncodeVc(ctx.proof, z));
    HoldsSplit(data, 0, SerG1(ctx.commitment, z), SerFr(ctx.challengeHash, z));
    G1At(data, 0, ctx.commitment, z);
    FrAt(data, G1Size(z), ctx.challengeHash, z, z);
    if |ctx.proof.responses| < U32_RANGE {
      LastAt(data, at, ctx.proof, z);
    } else if DecodeVc(data[at..], z) == Ok(ctx.proof) {
      VcDecodedSize(data[at..], ctx.proof, z);
    }
  }

  // ---------- PoKOfSignatureProof ----------

  function EncodeCredential(p: CredentialProof, z: bool): seq<Byte> {
    SerG1(p.aPrime, z) + SerG1(p.aBar, z) + SerG1(p.d, z) + Section(EncodeVc(p.vc1, z)) + EncodeVc(p.vc2, z)
  }

  method CredentialToBytes(p: CredentialProof, z: bool) returns (output: seq<Byte>)
    ensures output == EncodeCredential(p, z)
  {
    hide Section, EncodeVc;
    output := SerG1(p.aPrime, z);
    output := output + SerG1(p.aBar, z);
    output := output + SerG1(p.d, z);
    output := AppendSection(output, p.vc1, z);
    var proof2Bytes := VcToBytes(p.vc2, z);
    output := output + proof2Bytes;
  }

  function DecodeCredential(data: seq<Byte>, z: bool): Result<CredentialProof> {
    var g := G1Size(z);
    if |data| < g * 3 then Err(PoKVCError) else
    var aPrime :- ReadG1(data, 0, z);
    var aBar :- ReadG1(data, g, z);
    var d :- ReadG1(data, 2 * g, z);
    var r1 :- ReadProof(data, 3 * g, z);
    var vc2 :- DecodeVc(data[r1.1..], z);
    Ok(CredentialProof(aPrime, aBar, d, r1.0, vc2))
  }

  method CredentialFromBytes(data: seq<Byte>, z: bool) returns (result: Result<CredentialProof>)
    ensures result == DecodeCredential(data, z)
  {
    var g := G1Size(z);
    if |data| < g * 3 {
      return Err(PoKVCError);
    }
    var offset, end := 0, g;
    var aPrime :- ReadG1(data, offset, z);
    offset, end := end, end + g;
    var aBar :- ReadG1(data, offset, z);
    offset, end := end, end + g;
    var d :- ReadG1(data, offset, z);
    var first :- NextProof(data, end, z);
    end := first.1;
    var vc2 :- VcFromBytes(data[end..], z);
    return Ok(CredentialProof(aPrime, aBar, d, first.0, vc2));
  }

  ghost predicate CredentialFits(p: CredentialProof, z: bool) {
    |EncodeVc(p.vc1, z)| < U32_RANGE && |p.vc2.responses| < U32_RANGE
  }

  lemma CredentialDecodes(p: CredentialProof, z: bool)
    requires CredentialFits(p, z)
    ensures DecodeCredential(EncodeCredential(p, z), z) == Ok(p)
  {
    hide Holds, ReadG1, ReadProof, DecodeVc, SerG1, EncodeVc;
    var data, g := EncodeCredential(p, z), G1Size(z);
    var a, b, c, s1, s2 := SerG1(p.aPrime, z), SerG1(p.aBar, z), SerG1(p.d, z), EncodeVc(p.vc1, z), EncodeVc(p.vc2, z);
    HoldsAll(data);
    HoldsSplit(data, 0, a + b + c + Section(s1), s2);
    HoldsSplit(data, 0, a + b + c, Section(s1));
    HoldsSplit(data, 0, a + b, c);
    HoldsSplit(data, 0, a, b);
    G1At(data, 0, p.aPrime, z);
    G1At(data, g, p.aBar, z);
    G1At(data, 2 * g, p.d, z);
    ProofAt(data, 3 * g, p.vc1, z);
    LastAt(data, 3 * g + 4 + |s1|, p.vc2, z);
  }

  /** A signature proof decodes only from data at least as long as its encoding. */
  lemma CredentialDecodedSize(data: seq<Byte>, p: CredentialProof, z: bool)
    requires DecodeCredential(data, z) == Ok(p)
    ensures CredentialFits(p, z) && |EncodeCredential(p, z)| <= |data|
  {
    hide ReadG1, ReadProof, DecodeVc, EncodeVc;
    var r1 := ReadProof(data, 3 * G1Size(z), z).value;
    ProofReadSize(data, 3 * G1Size(z), p.vc1, r1.1, z);
    VcDecodedSize(data[r1.1..], p.vc2, z);
  }

  lemma CredentialSize(p: CredentialProof, z: bool)
    requires |EncodeCredential(p, z)| < U32_RANGE
    ensures CredentialFits(p, z)
  {
    VcSize(p.vc2, z);
  }

  // ---------- SignatureProof ----------

  const ENTRY_SIZE: nat := 4 + FR_SIZE

  /** The entries for the first `n` keys: each index cast to 32 bits, then the message. */
  function SerEntries(m: Messages, n: nat, z: bool): (s: seq<Byte>)
    requires n <= |m.keys|
    ensures |s| == ENTRY_SIZE * n
  {
    if n == 0 then [] else SerEntries(m, n - 1, z) + (U32(m.keys[n - 1]) + SerFr(Values(m)[n - 1], z))
  }

  function EncodeSignatureProof(p: PokSignature.SignatureProof, z: bool): seq<Byte> {
    Section(EncodeCredential(p.proof, z)) + U32(|p.revealedMessages.keys|)
    + SerEntries(p.revealedMessages, |p.revealedMessages.keys|, z)
  }

  method SignatureProofToBytes(p: PokSignature.SignatureProof, z: bool) returns (output: seq<Byte>)
    ensures output == EncodeSignatureProof(p, z)
  {
    var proofBytes := CredentialToBytes(p.proof, z);
    output := U32(|proofBytes|);
    output := output + proofBytes;
    output := output + U32(|p.revealedMessages.keys|);
    output := AppendEntries(output, p.revealedMessages, z);
  }

  method AppendEntries(output: seq<Byte>, m: Messages, z: bool) returns (r: seq<Byte>)
    ensures r == output + SerEntries(m, |m.keys|, z)
  {
    hide U32, SerFr;
    r := output;
    var values := Values(m);
    for i := 0 to |m.keys|
      invariant r == output + SerEntries(m, i, z)
    {
      ghost var before := r;
      r := r + U32(m.keys[i]);
      r := r + SerFr(values[i], z);
      assert r == before + (U32(m.keys[i]) + SerFr(values[i], z));
    }
  }

  function InsertKey(keys: seq<nat>, k: nat): (r: seq<nat>)
    requires Ascending(keys)
    ensures Ascending(r) && |r| <= |keys| + 1
    ensures forall j: nat :: j in r <==> j in keys || j == k
  {
    if keys == [] then [k]
    else if k < keys[0] then [k] + keys
    else if k == keys[0] then keys
    else
      var rest := InsertKey(keys[1..], k);
      assert keys == [keys[0]] + keys[1..];
      AboveHead(keys, rest, k);
      [keys[0]] + rest
  }

  lemma AboveHead(keys: seq<nat>, rest: seq<nat>, k: nat)
    requires keys != [] && Ascending(keys) && k > keys[0]
    requires forall j: nat :: j in rest <==> j in keys[1..] || j == k
    ensures forall i :: 0 <= i < |rest| ==> rest[i] > keys[0]
  {
    forall i | 0 <= i < |rest| ensures rest[i] > keys[0] {
      assert rest[i] in rest;
    }
  }

  /** `BTreeMap::insert` */
  function InsertMessage(m: Messages, k: nat, x: Fr): (r: Messages)
    ensures r.entries == m.entries[k := x] && |r.keys| <= |m.keys| + 1
  {
    OrderedMap(InsertKey(m.keys, k), m.entries[k := x])
  }

  /** The scalar behind an index always reads in compressed form; anything amiss is a panic. */
  function ReadEntry(data: seq<Byte>, at: nat): (r: Result<(nat, Fr)>)
    ensures r.Ok? ==> r.value.0 < U32_RANGE
  {
    var i :- ReadU32(data, at);
    var m := ReadFr(data, at + 4, true);
    if m.Ok? then Ok((i, m.value)) else Panic
  }

  function ReadEntries(data: seq<Byte>, at: nat, n: nat): (r: Result<Messages>)
    ensures r.Ok? ==> |r.value.keys| <= n && forall k :: k in r.value.entries ==> k < U32_RANGE
  {
    if n == 0 then Ok(OrderedMap([], map[])) else
      var init :- ReadEntries(data, at, n - 1);
      var e :- ReadEntry(data, at + ENTRY_SIZE * (n - 1));
      Ok(InsertMessage(init, e.0, e.1))
  }

  lemma {:induction false} EntriesFail(data: seq<Byte>, at: nat, i: nat, n: nat)
    requires i <= n && !ReadEntries(data, at, i).Ok?
    ensures ReadEntries(data, at, n) == ReadEntries(data, at, i)
  {
    if i < n {
      EntriesFail(data, at, i, n - 1);
    }
  }

  function DecodeSignatureProof(data: seq<Byte>, z: bool): Result<PokSignature.SignatureProof> {
    if |data| < 8 then Err(InvalidNumberOfBytes(8, |data|)) else
    var n := U32Of(data, 0);
    if 4 + n > |data| then Panic else
    var proof :- DecodeCredential(data[4..4 + n], z);
    var count :- ReadU32(data, 4 + n);
    var revealed :- ReadEntries(data, 4 + n + 4, count);
    Ok(PokSignature.SignatureProof(revealed, proof))
  }

  method SignatureProofFromBytes(data: seq<Byte>, z: bool) returns (result: Result<PokSignature.SignatureProof>)
    ensures result == DecodeSignatureProof(data, z)
  {
    if |data| < 8 {
      return Err(InvalidNumberOfBytes(8, |data|));
    }
    var n := U32Of(data, 0);
    var proofLen := n + 4;
    if proofLen > |data| {
      return Panic;
    }
    var proof :- CredentialFromBytes(data[4..proofLen], z);
    var offset := proofLen;
    var count :- ReadU32(data, offset);
    offset := offset + 4;
    var revealed :- EntriesFromBytes(data, offset, count);
    return Ok(PokSignature.SignatureProof(revealed, proof));
  }

  lemma {:induction false} NoEntries(data: seq<Byte>, start: nat)
    ensures ReadEntries(data, start, 0) == Ok(OrderedMap([], map[]))
  {
  }

  /** One turn of the loop over the entries. */
  lemma EntriesStep(data: seq<Byte>, start: nat, j: nat, count: nat, revealed: Messages)
    requires j < count && ReadEntries(data, start, j) == Ok(revealed)
    ensures
      var i, m := ReadU32(data, start + ENTRY_SIZE * j), ReadFr(data, start + ENTRY_SIZE * j + 4, true);
      && (i.Ok? || i == Panic)
      && (i.Ok? && m.Ok? ==> ReadEntries(data, start, j + 1) == Ok(InsertMessage(revealed, i.value, m.value)))
      && (!i.Ok? || !m.Ok? ==> ReadEntries(data, start, count) == Panic)
  {
    hide ReadFr, InsertMessage;
    var i, m := ReadU32(data, start + ENTRY_SIZE * j), ReadFr(data, start + ENTRY_SIZE * j + 4, true);
    if !i.Ok? || !m.Ok? {
      EntriesFail(data, start, j + 1, count);
    }
  }

  method EntriesFromBytes(data: seq<Byte>, start: nat, count: nat) returns (result: Result<Messages>)
    ensures result == ReadEntries(data, start, count)
  {
    hide ReadFr, ReadU32, InsertMessage, ReadEntries;
    var offset, end := start, start + 4;
    NoEntries(data, start);
    var revealed: Messages := OrderedMap([], map[]);
    for j := 0 to count
      invariant offset == start + ENTRY_SIZE * j && end == offset + 4
      invariant ReadEntries(data, start, j) == Ok(revealed)
    {
      EntriesStep(data, start, j, count, revealed);
      var i := ReadU32(data, offset);
      if !i.Ok? {
        return Panic;
      }
      offset := end;
      end := offset + FR_SIZE;
      var m := ReadFr(data, offset, true);
      if !m.Ok? {
        return Panic;
      }
      offset := end;
      end := offset + 4;
      revealed := InsertMessage(revealed, i.value, m.value);
    }
    return Ok(revealed);
  }

  ghost predicate IndicesFit(m: Messages) {
    forall k :: k in m.entries ==> k < U32_RANGE
  }

  /** The entries at the first `n` keys. */
  ghost function FirstEntries(m: Messages, n: nat): (r: Messages)
    requires n <= |m.keys|
  {
    assert forall k :: k in m.keys[..n] ==> k in m.keys;
    OrderedMap(m.keys[..n], map k | k in m.keys[..n] :: m.entries[k])
  }

  lemma AllEntries(m: Messages)
    ensures FirstEntries(m, |m.keys|) == m
  {
    assert m.keys[..|m.keys|] == m.keys;
    assert FirstEntries(m, |m.keys|).entries == m.entries;
  }

  lemma InsertNext(m: Messages, n: nat)
    requires n < |m.keys|
    ensures InsertMessage(FirstEntries(m, n), m.keys[n], Values(m)[n]) == FirstEntries(m, n + 1)
  {
    var r, s := InsertMessage(FirstEntries(m, n), m.keys[n], Values(m)[n]), FirstEntries(m, n + 1);
    assert m.keys[..n + 1] == m.keys[..n] + [m.keys[n]];
    AscendingUnique(r.keys, s.keys);
    assert m.keys[n] in m.keys;
    assert r.entries == s.entries;
  }

  lemma {:induction false} EntriesAt(data: seq<Byte>, at: nat, m: Messages, n: nat, z: bool)
    requires n <= |m.keys| && IndicesFit(m) && Holds(data, at, SerEntries(m, n, z))
    ensures ReadEntries(data, at, n) == Ok(FirstEntries(m, n))
  {
    hide Holds, ReadFr, U32, SerFr, InsertMessage, ReadEntry, Values;
    if n > 0 {
      var place := at + ENTRY_SIZE * (n - 1);
      HoldsSplit(data, at, SerEntries(m, n - 1, z), U32(m.keys[n - 1]) + SerFr(Values(m)[n - 1], z));
      HoldsSplit(data, place, U32(m.keys[n - 1]), SerFr(Values(m)[n - 1], z));
      EntriesAt(data, at, m, n - 1, z);
      EntryAt(data, place, m, n - 1, z);
      InsertNext(m, n - 1);
    } else {
      assert FirstEntries(m, 0) == OrderedMap([], map[]);
    }
  }

  lemma EntryAt(data: seq<Byte>, at: nat, m: Messages, n: nat, z: bool)
    requires n < |m.keys| && IndicesFit(m)
    requires Holds(data, at, U32(m.keys[n])) && Holds(data, at + 4, SerFr(Values(m)[n], z))
    ensures ReadEntry(data, at) == Ok((m.keys[n], Values(m)[n]))
  {
    hide Holds, ReadFr, U32, SerFr, Values;
    assert m.keys[n] in m.keys;
    U32At(data, at, m.keys[n]);
    FrAt(data, at + 4, Values(m)[n], z, true);
  }

  ghost predicate SignatureProofFits(p: PokSignature.SignatureProof, z: bool) {
    && |EncodeCredential(p.proof, z)| < U32_RANGE
    && |p.revealedMessages.keys| < U32_RANGE && IndicesFit(p.revealedMessages)
  }

  lemma SignatureProofDecodes(p: PokSignature.SignatureProof, z: bool)
    requires SignatureProofFits(p, z)
    ensures DecodeSignatureProof(EncodeSignatureProof(p, z), z) == Ok(p)
  {
    hide Holds, U32, U32Of, SerEntries, EncodeCredential, DecodeCredential, ReadEntries, IndicesFit;
    var body, m := EncodeCredential(p.proof, z), p.revealedMessages;
    var data := EncodeSignatureProof(p, z);
    SignatureProofParts(data, body, m, z);
    CredentialSize(p.proof, z);
    CredentialDecodes(p.proof, z);
    EntriesAt(data, 4 + |body| + 4, m, |m.keys|, z);
    AllEntries(m);
  }

  lemma {:induction false} SignatureProofParts(data: seq<Byte>, body: seq<Byte>, m: Messages, z: bool)
    requires data == Section(body) + U32(|m.keys|) + SerEntries(m, |m.keys|, z)
    requires |body| < U32_RANGE && |m.keys| < U32_RANGE
    ensures |data| >= 8 + |body| && U32Of(data, 0) == |body| && data[4..4 + |body|] == body
    ensures ReadU32(data, 4 + |body|) == Ok(|m.keys|)
    ensures Holds(data, 4 + |body| + 4, SerEntries(m, |m.keys|, z))
  {
    hide Holds, U32, SerEntries;
    HoldsAll(data);
    HoldsSplit(data, 0, Section(body) + U32(|m.keys|), SerEntries(m, |m.keys|, z));
    HoldsSplit(data, 0, Section(body), U32(|m.keys|));
    HoldsSplit(data, 0, U32(|body|), body);
    U32At(data, 0, |body|);
    HeldSlice(data, 4, body);
    U32At(data, 4 + |body|, |m.keys|);
  }

  lemma HeldSlice(data: seq<Byte>, at: nat, chunk: seq<Byte>)
    requires Holds(data, at, chunk)
    ensures at + |chunk| <= |data| && data[at..at + |chunk|] == chunk
  {
  }

  lemma SignatureProofDecodedFits(data: seq<Byte>, p: PokSignature.SignatureProof, z: bool)
    requires DecodeSignatureProof(data, z) == Ok(p)
    ensures SignatureProofFits(p, z)
  {
    hide DecodeCredential, EncodeCredential;
    var n := U32Of(data, 0);
    CredentialDecodedSize(data[4..4 + n], p.proof, z);
  }

  /** A signature proof with its revealed messages comes back from its bytes, in both forms, exactly
      when its length, its number of revealed messages and their indices fit in 32 bits. */
  lemma SignatureProofRoundTrip(p: PokSignature.SignatureProof, z: bool)
    ensures DecodeSignatureProof(EncodeSignatureProof(p, z), z) == Ok(p) <==> SignatureProofFits(p, z)
  {
    hide DecodeSignatureProof, EncodeSignatureProof, SignatureProofFits;
    if SignatureProofFits(p, z) {
      SignatureProofDecodes(p, z);
    }
    if DecodeSignatureProof(EncodeSignatureProof(p, z), z) == Ok(p) {
      SignatureProofDecodedFits(EncodeSignatureProof(p, z), p, z);
    }
  }

  // ---------- ProofRequest ----------

  ghost function EncodeRequest(r: PokSignature.ProofRequest, z: bool): Result<seq<Byte>> {
    if BitVector.Fits(|r.verificationKey.h|, r.revealedMessages) then
      Ok(Section(BitVector.Bits(|r.verificationKey.h|, r.revealedMessages)) + EncodeKey(r.verificationKey, z))
    else Panic
  }

  /** `revealed` lists the requested indices. */
  method RequestToBytes(r: PokSignature.ProofRequest, revealed: seq<nat>, z: bool) returns (result: Result<seq<Byte>>)
    requires BitVector.Elements(revealed) == r.revealedMessages
    ensures result == EncodeRequest(r, z)
  {
    var temp :- BitVector.RevealedToBitvector(|r.verificationKey.h|, revealed);
    var key := KeyToBytes(r.verificationKey, z);
    var output := U32(|temp|);
    output := output + temp;
    output := output + key;
    return Ok(output);
  }

  ghost function DecodeRequest(data: seq<Byte>, z: bool): Result<PokSignature.ProofRequest> {
    var minLen := 8 + G1Size(z) + G2Size(z);
    if |data| < minLen then Err(InvalidNumberOfBytes(minLen, |data|)) else
    var n := U32Of(data, 0);
    if 4 + n > |data| then Panic else
    var key :- DecodeKey(data[4 + n..], z);
    Ok(PokSignature.ProofRequest(BitVector.Members(data[4..4 + n]), key))
  }

  method RequestFromBytes(data: seq<Byte>, z: bool) returns (result: Result<PokSignature.ProofRequest>)
    ensures result == DecodeRequest(data, z)
  {
    var minLen := 8 + G1Size(z) + G2Size(z);
    if |data| < minLen {
      return Err(InvalidNumberOfBytes(minLen, |data|));
    }
    var bitvectorLen := U32Of(data, 0);
    var offset := 4 + bitvectorLen;
    if offset > |data| {
      return Panic;
    }
    var revealed := BitVector.BitvectorToRevealed(data[4..offset]);
    var key :- KeyFromBytes(data[offset..], z);
    return Ok(PokSignature.ProofRequest(revealed, key));
  }

  /** A request for a valid key of representable size comes back from its bytes, in both forms, for
      every set of indices that has a bit; the others panic on encoding. */
  lemma RequestRoundTrip(r: PokSignature.ProofRequest, z: bool)
    requires |r.verificationKey.h| < U32_RANGE && r.verificationKey.Validate().Ok?
    ensures EncodeRequest(r, z).Ok? <==> BitVector.Fits(|r.verificationKey.h|, r.revealedMessages)
    ensures (forall i :: i in r.revealedMessages ==> i <= |r.verificationKey.h|) ==> EncodeRequest(r, z).Ok?
    ensures EncodeRequest(r, z).Ok? ==> DecodeRequest(EncodeRequest(r, z).value, z) == Ok(r)
  {
    hide DecodeRequest, BitVector.Bits, BitVector.Fits;
    BitVector.BitsRoundTrip(|r.verificationKey.h|, r.revealedMessages);
    if EncodeRequest(r, z).Ok? {
      RequestDecodes(r, z);
    }
  }

  lemma RequestDecodes(r: PokSignature.ProofRequest, z: bool)
    requires |r.verificationKey.h| < U32_RANGE && r.verificationKey.Validate().Ok?
    requires BitVector.Fits(|r.verificationKey.h|, r.revealedMessages)
    ensures DecodeRequest(EncodeRequest(r, z).value, z) == Ok(r)
  {
    hide U32, U32Of, EncodeKey, DecodeKey, BitVector.Bits, BitVector.Members, BitVector.Fits;
    var key, bits := r.verificationKey, BitVector.Bits(|r.verificationKey.h|, r.revealedMessages);
    var data := Section(bits) + EncodeKey(key, z);
    BitVector.BitsRoundTrip(|key.h|, r.revealedMessages);
    SectionParts(bits, EncodeKey(key, z));
    KeySize(key, z);
    KeyRoundTrip(key, z);
  }

  lemma SectionParts(body: seq<Byte>, rest: seq<Byte>)
    requires |body| < U32_RANGE
    ensures var data := Section(body) + rest;
      && 4 + |body| <= |data| && U32Of(data, 0) == |body|
      && data[4..4 + |body|] == body && data[4 + |body|..] == rest
  {
    hide U32;
    var data := Section(body) + rest;
    assert data[0..4] == U32(|body|);
    U32RoundTrip(|body|);
  }
}
