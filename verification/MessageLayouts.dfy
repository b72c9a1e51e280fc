/** The same for what the parties of issuance and disclosure send: where each part lies, and what any data
    decodes to. */
module MessageLayouts {
  import opened PrimeField
  import opened Group
  import opened Results
  import opened Encoding
  import opened Selection
  import opened Signatures
  import opened PokVc
  import opened Disclosure
  import opened Codecs
  import opened MessageCodecs
  import opened Layouts
  import BitVector
  import Issuance
  import PokSignature

  // ---------- PublicKey ----------

  /** A key is w, h0, the number of generators and the generators, one after the other. */
  lemma {:induction false} KeyLayout(key: PublicKey, z: bool, i: nat)
    ensures var data, g, g2 := EncodeKey(key, z), G1Size(z), G2Size(z);
      && |data| == g2 + g + 4 + g * |key.h|
      && Holds(data, 0, SerG2(key.w, z)) && Holds(data, g2, SerG1(key.h0, z)) && Holds(data, g2 + g, U32(|key.h|))
      && (i < |key.h| ==> Holds(data, g2 + g + 4 + g * i, SerG1(key.h[i], z)))
  {
    KeyHeld(key, z);
    PointsSize(key.h, z);
    if i < |key.h| {
      PointHeld(EncodeKey(key, z), G2Size(z) + G1Size(z) + 4, key.h, i, z);
    }
  }

  lemma {:induction false} PointHeld(data: seq<Byte>, at: nat, ps: seq<G1>, i: nat, z: bool)
    requires i < |ps| && Holds(data, at, SerPoints(ps, z))
    ensures Holds(data, at + G1Size(z) * i, SerG1(ps[i], z))
  {
    hide Holds, SerG1, SerPoints;
    assert ps == ps[..i] + ([ps[i]] + ps[i + 1..]);
    SerPointsConcat(ps[..i], [ps[i]] + ps[i + 1..], z);
    SerPointsConcat([ps[i]], ps[i + 1..], z);
    OnePoint(ps[i], z);
    PointsSize(ps[..i], z);
    HoldsSplit(data, at, SerPoints(ps[..i], z), SerPoints([ps[i]] + ps[i + 1..], z));
    HoldsSplit(data, at + G1Size(z) * i, SerG1(ps[i], z), SerPoints(ps[i + 1..], z));
  }

  lemma {:induction false} OnePoint(p: G1, z: bool)
    ensures SerPoints([p], z) == SerG1(p, z)
  {
    hide SerG1;
    assert [p][1..] == [];
    assert SerPoints([], z) == [];
  }

  ghost predicate PointHere(data: seq<Byte>, at: nat, i: nat, z: bool, p: G1) {
    PointRead(data, at, i, z) == Ok(p)
  }

  ghost function PointRead(data: seq<Byte>, at: nat, i: nat, z: bool): Result<G1> {
    ReadG1(data, at + G1Size(z) * i, z)
  }

  lemma PointsNext(data: seq<Byte>, at: nat, n: nat, z: bool)
    ensures var rest, p := ReadPoints(data, at, n, z), PointRead(data, at, n, z);
      && (rest.Ok? ==> |rest.value| == n)
      && (p.Ok? || p == Err(GeneralError))
      && ReadPoints(data, at, n + 1, z) ==
         if !rest.Ok? then rest else if p.Ok? then Ok(rest.value + [p.value]) else p.PropagateFailure()
  {
    NeverPanics(data, at + G1Size(z) * n, z);
    hide ReadG1, G1Size;
  }

  /** `n` points, one after the other. */
  ghost predicate PointsHere(data: seq<Byte>, at: nat, n: nat, z: bool, ps: seq<G1>)
    requires n <= |ps|
  {
    forall i :: 0 <= i < n ==> PointHere(data, at, i, z, ps[i])
  }

  lemma {:induction false} PointsUpTo(data: seq<Byte>, at: nat, n: nat, z: bool, ps: seq<G1>)
    requires n <= |ps|
    ensures ReadPoints(data, at, n, z) == Ok(ps[..n]) <==> PointsHere(data, at, n, z, ps)
  {
    hide ReadG1, G1Size, PointHere;
    if n > 0 {
      PointsUpTo(data, at, n - 1, z, ps);
      PointNext(data, at, n - 1, z, ps);
    }
  }

  lemma {:induction false} PointNext(data: seq<Byte>, at: nat, n: nat, z: bool, ps: seq<G1>)
    requires n < |ps|
    ensures ReadPoints(data, at, n + 1, z) == Ok(ps[..n + 1])
       <==> ReadPoints(data, at, n, z) == Ok(ps[..n]) && PointHere(data, at, n, z, ps[n])
  {
    hide ReadPoints, PointRead;
    var rest, p := ReadPoints(data, at, n, z), PointRead(data, at, n, z);
    PointsNext(data, at, n, z);
    assert ps[..n + 1] == ps[..n] + [ps[n]];
    if rest.Ok? && p.Ok? {
      assert (rest.value + [p.value])[..n] == rest.value && ps[..n + 1][..n] == ps[..n];
      assert (rest.value + [p.value])[n] == p.value && ps[..n + 1][n] == ps[n];
    }
  }

  lemma {:induction false} PointsErr(data: seq<Byte>, at: nat, n: nat, z: bool)
    ensures ReadPoints(data, at, n, z).Ok? || ReadPoints(data, at, n, z) == Err(GeneralError)
  {
    assert ReadPoints(data, at, 0, z) == Ok([]);
    hide ReadPoints, PointRead;
    if n > 0 {
      PointsErr(data, at, n - 1, z);
      PointsNext(data, at, n - 1, z);
    }
  }

  lemma {:induction false} PointsMean(data: seq<Byte>, at: nat, n: nat, z: bool, ps: seq<G1>)
    ensures ReadPoints(data, at, n, z) == Ok(ps) <==> |ps| == n && PointsHere(data, at, n, z, ps)
  {
    hide ReadG1, PointsHere;
    if |ps| == n {
      PointsUpTo(data, at, n, z, ps);
      assert ps[..n] == ps;
    }
  }

  ghost predicate WholeNumberOfPoints(data: seq<Byte>, z: bool) {
    |data| >= 4 && (|data| - 4) % G1Size(z) == 0
  }

  /** Any data is a key exactly if its length is right, its parts can be read and no point is the identity. */
  lemma KeyMeans(data: seq<Byte>, key: PublicKey, z: bool)
    ensures DecodeKey(data, z) == Ok(key) <==>
      var at := G2Size(z) + G1Size(z);
      && WholeNumberOfPoints(data, z) && |data| >= at + 4
      && ReadG2(data, 0, z) == Ok(key.w) && ReadG1(data, G2Size(z), z) == Ok(key.h0)
      && FromBigEndian(data[at..at + 4]) == |key.h| && PointsHere(data, at + 4, |key.h|, z, key.h)
      && key.h0 != 0 && key.w != 0 && 0 !in key.h
  {
    hide ReadG1, ReadG2, ReadPoints, PointsHere, G1Size, G2Size;
    var at := G2Size(z) + G1Size(z);
    if |data| >= at + 4 {
      PointsMean(data, at + 4, U32Of(data, at), z, key.h);
      var h := ReadPoints(data, at + 4, U32Of(data, at), z);
      if h.Ok? {
        PointsMean(data, at + 4, U32Of(data, at), z, h.value);
      }
    }
  }

  /** Fewer than four bytes, or none for the number of generators, are a panic. A length that is not right, or
      an identity among the points, is a malformed key; what cannot be read is another error. */
  lemma KeyRefused(data: seq<Byte>, z: bool)
    ensures var at := G2Size(z) + G1Size(z);
      var read := ReadG2(data, 0, z).Ok? && ReadG1(data, G2Size(z), z).Ok?;
      && (DecodeKey(data, z) == Panic <==> |data| < 4 || (WholeNumberOfPoints(data, z) && read && |data| < at + 4))
      && (|data| >= 4 && !WholeNumberOfPoints(data, z) ==> DecodeKey(data, z) == Err(MalformedPublicKey))
      && (WholeNumberOfPoints(data, z) && !read ==> DecodeKey(data, z) == Err(GeneralError))
      && (DecodeKey(data, z).Err? ==> DecodeKey(data, z).error in {MalformedPublicKey, GeneralError})
  {
    hide ReadG1, ReadG2, ReadPoints, G1Size, G2Size;
    var at := G2Size(z) + G1Size(z);
    NeverPanics(data, 0, z);
    NeverPanics(data, G2Size(z), z);
    if |data| >= at + 4 {
      PointsErr(data, at + 4, U32Of(data, at), z);
    }
  }

  // ---------- BlindSignatureContext ----------

  /** A context is its commitment, its challenge and its proof. */
  lemma ContextLayout(ctx: Issuance.BlindSignatureContext, z: bool)
    ensures var data, g := EncodeContext(ctx, z), G1Size(z);
      && Holds(data, 0, SerG1(ctx.commitment, z)) && Holds(data, g, SerFr(ctx.challengeHash, z))
      && g + FR_SIZE <= |data| && data[g + FR_SIZE..] == EncodeVc(ctx.proof, z)
  {
    hide Holds, SerG1, SerFr, EncodeVc;
    var data := EncodeContext(ctx, z);
    HoldsAll(data);
    HoldsSplit(data, 0, SerG1(ctx.commitment, z) + SerFr(ctx.challengeHash, z), EncodeVc(ctx.proof, z));
    HoldsSplit(data, 0, SerG1(ctx.commitment, z), SerFr(ctx.challengeHash, z));
  }

  lemma ContextMeans(data: seq<Byte>, ctx: Issuance.BlindSignatureContext, z: bool)
    ensures var g, r := G1Size(z), DecodeContext(data, z);
      && (r == Ok(ctx) <==>
            && |data| >= g + FR_SIZE && ReadG1(data, 0, z) == Ok(ctx.commitment)
            && ReadFr(data, g, z) == Ok(ctx.challengeHash) && IsVc(data[g + FR_SIZE..], ctx.proof, z))
      && (r == Err(InvalidNumberOfBytes(2 * g + FR_SIZE + 4, |data|)) <==> |data| < 2 * g + FR_SIZE + 4)
      && (r.Ok? || r == Err(GeneralError) || |data| < 2 * g + FR_SIZE + 4)
  {
    hide ReadG1, ReadFr, DecodeVc;
    NeverPanics(data, 0, z);
    NeverPanics(data, G1Size(z), z);
    if |data| >= G1Size(z) + FR_SIZE {
      VcMeans(data[G1Size(z) + FR_SIZE..], ctx.proof, z);
    }
  }

  // ---------- PoKOfSignatureProof ----------

  /** A proof of knowledge is three points, a sub-proof behind its length, and the second to the end. */
  lemma {:induction false} CredentialLayout(p: CredentialProof, z: bool)
    ensures var data, g, end := EncodeCredential(p, z), G1Size(z), |EncodeCredential(p, z)| - |EncodeVc(p.vc2, z)|;
      && Holds(data, 0, SerG1(p.aPrime, z)) && Holds(data, g, SerG1(p.aBar, z)) && Holds(data, 2 * g, SerG1(p.d, z))
      && end >= 0 && Written(data, 3 * g, [p.vc1], end, z) && data[end..] == EncodeVc(p.vc2, z)
  {
    hide Holds, SerG1, EncodeVc, U32, Written;
    var data := EncodeCredential(p, z);
    var a, b, c, s1, s2 := SerG1(p.aPrime, z), SerG1(p.aBar, z), SerG1(p.d, z), EncodeVc(p.vc1, z), EncodeVc(p.vc2, z);
    HoldsAll(data);
    HoldsSplit(data, 0, a + b + c + Section(s1), s2);
    HoldsSplit(data, 0, a + b + c, Section(s1));
    HoldsSplit(data, 0, a + b, c);
    HoldsSplit(data, 0, a, b);
    var end := 3 * G1Size(z) + 4 + |s1|;
    NoneWritten(data, end, z);
    WrittenStep(data, 3 * G1Size(z), p.vc1, [], end, z);
    assert [p.vc1] + [] == [p.vc1];
  }

  lemma {:induction false} CredentialMeans(data: seq<Byte>, p: CredentialProof, z: bool)
    ensures DecodeCredential(data, z) == Ok(p) <==>
      var g := G1Size(z);
      && ReadG1(data, 0, z) == Ok(p.aPrime) && ReadG1(data, g, z) == Ok(p.aBar) && ReadG1(data, 2 * g, z) == Ok(p.d)
      && exists end: nat :: end <= |data| && Read(data, 3 * g, [p.vc1], end, z) && IsVc(data[end..], p.vc2, z)
  {
    hide ReadG1, ReadProof, DecodeVc, IsVc, Read;
    var g := G1Size(z);
    ShortData(data, z);
    forall end: nat | end <= |data|
      ensures Read(data, 3 * g, [p.vc1], end, z) <==> ReadProof(data, 3 * g, z) == Ok((p.vc1, end))
      ensures IsVc(data[end..], p.vc2, z) <==> DecodeVc(data[end..], z) == Ok(p.vc2)
    {
      SectionMeans(data, 3 * g, z, p.vc1, end);
      VcMeans(data[end..], p.vc2, z);
    }
  }

  ghost predicate ThreePoints(data: seq<Byte>, z: bool) {
    var g := G1Size(z);
    ReadG1(data, 0, z).Ok? && ReadG1(data, g, z).Ok? && ReadG1(data, 2 * g, z).Ok?
  }

  lemma CredentialRefused(data: seq<Byte>, z: bool)
    ensures DecodeCredential(data, z) == Panic <==> ThreePoints(data, z) && CutOff(data, 3 * G1Size(z))
    ensures DecodeCredential(data, z) == Err(PoKVCError) <==> |data| < 3 * G1Size(z)
    ensures DecodeCredential(data, z).Err? ==> DecodeCredential(data, z).error in {PoKVCError, GeneralError}
  {
    hide ReadG1, ReadProof, DecodeVc, CutOff;
    var g := G1Size(z);
    ShortData(data, z);
    NeverPanics(data, 0, z);
    NeverPanics(data, g, z);
    NeverPanics(data, 2 * g, z);
    SectionMeans(data, 3 * g, z, ProofG1(0, []), 0);
    var r := ReadProof(data, 3 * g, z);
    if r.Ok? {
      VcMeans(data[r.value.1..], ProofG1(0, []), z);
    }
  }

  // ---------- SignatureProof ----------

  /** The `i`-th entry: its index, then its message. */
  ghost predicate EntryWritten(data: seq<Byte>, at: nat, m: Messages, i: nat, z: bool)
    requires i < |m.keys|
  {
    Holds(data, at + ENTRY_SIZE * i, U32(m.keys[i])) && Holds(data, at + ENTRY_SIZE * i + 4, SerFr(Values(m)[i], z))
  }

  /** A signature proof is the proof behind its length, the number of revealed messages, and for each its index
      and the message. */
  lemma {:induction false} SignatureProofLayout(p: PokSignature.SignatureProof, z: bool, i: nat)
    ensures var data, body, m := EncodeSignatureProof(p, z), EncodeCredential(p.proof, z), p.revealedMessages;
      && |data| == 4 + |body| + 4 + ENTRY_SIZE * |m.keys|
      && Holds(data, 0, U32(|body|)) && Holds(data, 4, body) && Holds(data, 4 + |body|, U32(|m.keys|))
      && (i < |m.keys| ==> EntryWritten(data, 8 + |body|, m, i, z))
  {
    hide Holds, U32, SerEntries, EncodeCredential, EntryWritten;
    var data, body, m := EncodeSignatureProof(p, z), EncodeCredential(p.proof, z), p.revealedMessages;
    HoldsAll(data);
    assert |SerEntries(m, |m.keys|, z)| == ENTRY_SIZE * |m.keys| by {
      EntriesSize(m, |m.keys|, z);
    }
    HoldsSplit(data, 0, Section(body) + U32(|m.keys|), SerEntries(m, |m.keys|, z));
    HoldsSplit(data, 0, Section(body), U32(|m.keys|));
    HoldsSplit(data, 0, U32(|body|), body);
    if i < |m.keys| {
      EntryHeld(data, 8 + |body|, m, |m.keys|, i, z);
    }
  }

  lemma {:induction false} EntriesSize(m: Messages, n: nat, z: bool)
    requires n <= |m.keys|
    ensures |SerEntries(m, n, z)| == ENTRY_SIZE * n
  {
  }

  lemma {:induction false} EntryHeld(data: seq<Byte>, at: nat, m: Messages, n: nat, i: nat, z: bool)
    requires i < n <= |m.keys| && Holds(data, at, SerEntries(m, n, z))
    ensures EntryWritten(data, at, m, i, z)
    decreases n
  {
    hide Holds, U32, SerFr, Values;
    HoldsSplit(data, at, SerEntries(m, n - 1, z), U32(m.keys[n - 1]) + SerFr(Values(m)[n - 1], z));
    if i < n - 1 {
      EntryHeld(data, at, m, n - 1, i, z);
    } else {
      HoldsSplit(data, at + ENTRY_SIZE * i, U32(m.keys[i]), SerFr(Values(m)[i], z));
    }
  }

  /** An index and a message behind it. The message is read in compressed form in both forms. */
  ghost predicate EntryHere(data: seq<Byte>, at: nat, k: nat, x: Fr) {
    at + ENTRY_SIZE <= |data| && FromBigEndian(data[at..at + 4]) == k && ReadFr(data, at + 4, true) == Ok(x)
  }

  ghost predicate EntriesHere(data: seq<Byte>, at: nat, keys: seq<nat>, values: seq<Fr>)
    requires |keys| == |values|
  {
    forall j :: 0 <= j < |keys| ==> EntryIs(data, at, j, keys[j], values[j])
  }

  ghost predicate EntryIs(data: seq<Byte>, at: nat, j: nat, k: nat, x: Fr) {
    EntryHere(data, at + ENTRY_SIZE * j, k, x)
  }

  lemma EntryMeans(data: seq<Byte>, at: nat, k: nat, x: Fr)
    ensures ReadEntry(data, at) == Ok((k, x)) <==> EntryHere(data, at, k, x)
    ensures ReadEntry(data, at).Ok? || ReadEntry(data, at) == Panic
  {
  }

  /** A message at an index given again replaces the one before. */
  lemma {:induction false} EntriesMean(data: seq<Byte>, at: nat, n: nat, m: Messages)
    ensures ReadEntries(data, at, n) == Ok(m) <==>
      exists keys: seq<nat>, values: seq<Fr> ::
        |keys| == |values| == n && EntriesHere(data, at, keys, values) && m.entries == MapOf(keys, values)
  {
    hide ReadEntries, EntriesHere;
    if ReadEntries(data, at, n) == Ok(m) {
      var keys, values := EntriesGive(data, at, n, m);
    }
    if keys: seq<nat>, values: seq<Fr> :|
        |keys| == |values| == n && EntriesHere(data, at, keys, values) && m.entries == MapOf(keys, values) {
      EntriesTake(data, at, keys, values);
      SameMessages(m, ReadEntries(data, at, n).value);
    }
  }

  lemma SameMessages(m: Messages, m': Messages)
    requires m.entries == m'.entries
    ensures m == m'
  {
    AscendingUnique(m.keys, m'.keys);
  }

  lemma {:induction false} EntriesGive(data: seq<Byte>, at: nat, n: nat, m: Messages) returns (keys: seq<nat>, values: seq<Fr>)
    requires ReadEntries(data, at, n) == Ok(m)
    ensures |keys| == |values| == n && EntriesHere(data, at, keys, values) && m.entries == MapOf(keys, values)
  {
    hide ReadEntry, EntryHere, EntriesHere, InsertMessage;
    if n == 0 {
      keys, values := [], [];
      NoneHere(data, at);
    } else {
      var init, e := ReadEntries(data, at, n - 1).value, ReadEntry(data, at + ENTRY_SIZE * (n - 1)).value;
      var ks, vs := EntriesGive(data, at, n - 1, init);
      EntryMeans(data, at + ENTRY_SIZE * (n - 1), e.0, e.1);
      OneMore(data, at, ks, vs, e.0, e.1);
      MapNext(ks, vs, e.0, e.1);
      assert InsertMessage(init, e.0, e.1).entries == init.entries[e.0 := e.1];
      keys, values := ks + [e.0], vs + [e.1];
    }
  }

  lemma NoneHere(data: seq<Byte>, at: nat)
    ensures EntriesHere(data, at, [], []) && MapOf([], []) == map[]
  {
  }

  lemma OneMore(data: seq<Byte>, at: nat, keys: seq<nat>, values: seq<Fr>, k: nat, x: Fr)
    requires |keys| == |values| && EntriesHere(data, at, keys, values) && EntryIs(data, at, |keys|, k, x)
    ensures EntriesHere(data, at, keys + [k], values + [x])
  {
    hide EntryIs;
    var n, ks, vs := |keys|, keys + [k], values + [x];
    forall j | 0 <= j < |ks| ensures EntryIs(data, at, j, ks[j], vs[j]) {
      if j < n {
        assert EntryIs(data, at, j, keys[j], values[j]);
      }
    }
  }

  lemma {:induction false} MapNext(keys: seq<nat>, values: seq<Fr>, k: nat, x: Fr)
    requires |keys| == |values|
    ensures MapOf(keys + [k], values + [x]) == MapOf(keys, values)[k := x]
  {
    assert (keys + [k])[..|keys|] == keys && (values + [x])[..|keys|] == values;
  }

  lemma {:induction false} EntriesTake(data: seq<Byte>, at: nat, keys: seq<nat>, values: seq<Fr>)
    requires |keys| == |values| && EntriesHere(data, at, keys, values)
    ensures ReadEntries(data, at, |keys|).Ok? && ReadEntries(data, at, |keys|).value.entries == MapOf(keys, values)
  {
    hide EntriesHere, EntryIs, InsertMessage, ReadEntry;
    if keys != [] {
      var k := |keys| - 1;
      OneLess(data, at, keys, values);
      EntriesTake(data, at, keys[..k], values[..k]);
      OneRead(data, at, k, keys[k], values[k]);
    }
  }

  lemma OneLess(data: seq<Byte>, at: nat, keys: seq<nat>, values: seq<Fr>)
    requires |keys| == |values| && keys != [] && EntriesHere(data, at, keys, values)
    ensures var k := |keys| - 1; EntriesHere(data, at, keys[..k], values[..k]) && EntryIs(data, at, k, keys[k], values[k])
  {
    hide EntryIs;
    var k := |keys| - 1;
    forall j | 0 <= j < k ensures EntryIs(data, at, j, keys[..k][j], values[..k][j]) {
      assert EntryIs(data, at, j, keys[j], values[j]);
    }
  }

  lemma OneRead(data: seq<Byte>, at: nat, n: nat, k: nat, x: Fr)
    requires ReadEntries(data, at, n).Ok? && EntryIs(data, at, n, k, x)
    ensures ReadEntries(data, at, n + 1).Ok?
    ensures ReadEntries(data, at, n + 1).value.entries == ReadEntries(data, at, n).value.entries[k := x]
  {
    hide ReadEntry, EntryHere, ReadEntries;
    EntryMeans(data, at + ENTRY_SIZE * n, k, x);
    EntriesUnroll(data, at, n);
  }

  lemma EntriesUnroll(data: seq<Byte>, at: nat, n: nat)
    ensures var rest, e, r := ReadEntries(data, at, n), ReadEntry(data, at + ENTRY_SIZE * n), ReadEntries(data, at, n + 1);
      && (rest.Ok? && e.Ok? ==> r.Ok? && r.value.entries == rest.value.entries[e.value.0 := e.value.1])
      && (rest.Ok? && !e.Ok? ==> r == e.PropagateFailure())
      && (!rest.Ok? ==> r == rest)
  {
    hide ReadEntry;
    var rest, e := ReadEntries(data, at, n), ReadEntry(data, at + ENTRY_SIZE * n);
    if rest.Ok? && e.Ok? {
      assert InsertMessage(rest.value, e.value.0, e.value.1).entries == rest.value.entries[e.value.0 := e.value.1];
    }
    hide InsertMessage;
  }

  lemma {:induction false} EntriesPanic(data: seq<Byte>, at: nat, n: nat)
    ensures ReadEntries(data, at, n).Ok? || ReadEntries(data, at, n) == Panic
  {
    hide ReadEntry;
    assert ReadEntries(data, at, 0).Ok?;
    hide ReadEntries;
    if n > 0 {
      EntriesPanic(data, at, n - 1);
      EntryMeans(data, at + ENTRY_SIZE * (n - 1), 0, 0);
      EntriesUnroll(data, at, n - 1);
    }
  }

  /** Any data is a signature proof exactly if the proof fills its section, and the stated number of entries
      follows; the messages are those of the entries. */
  lemma SignatureProofMeans(data: seq<Byte>, p: PokSignature.SignatureProof, z: bool)
    ensures DecodeSignatureProof(data, z) == Ok(p) <==>
      && |data| >= 8
      && var end := 4 + FromBigEndian(data[0..4]);
      && end + 4 <= |data| && DecodeCredential(data[4..end], z) == Ok(p.proof)
      && exists keys: seq<nat>, values: seq<Fr> ::
           && |keys| == |values| == FromBigEndian(data[end..end + 4])
           && EntriesHere(data, end + 4, keys, values) && p.revealedMessages.entries == MapOf(keys, values)
  {
    hide DecodeCredential, ReadEntries, EntriesHere;
    if |data| >= 8 && 8 + U32Of(data, 0) <= |data| {
      var end := 4 + U32Of(data, 0);
      EntriesMean(data, end + 4, U32Of(data, end), p.revealedMessages);
      EntriesPanic(data, end + 4, U32Of(data, end));
    }
  }

  /** Too few bytes are an error, and so is whatever is wrong with the proof. A proof that is cut off, a missing
      number of entries and a bad entry are panics. */
  lemma SignatureProofRefused(data: seq<Byte>, z: bool)
    ensures var r := DecodeSignatureProof(data, z);
      && (|data| < 8 ==> r == Err(InvalidNumberOfBytes(8, |data|)))
      && (|data| >= 8 ==>
            var end := 4 + FromBigEndian(data[0..4]);
            if end > |data| then r == Panic
            else if !DecodeCredential(data[4..end], z).Ok? then r == DecodeCredential(data[4..end], z).PropagateFailure()
            else r.Ok? || r == Panic)
  {
    hide DecodeCredential, ReadEntries;
    if |data| >= 8 && 8 + U32Of(data, 0) <= |data| {
      var end := 4 + U32Of(data, 0);
      EntriesPanic(data, end + 4, U32Of(data, end));
    }
  }

  // ---------- ProofRequest ----------

  /** A request is the bit vector behind its length, and the key to the end. */
  lemma RequestLayout(r: PokSignature.ProofRequest, z: bool)
    requires EncodeRequest(r, z).Ok?
    ensures var data, n := EncodeRequest(r, z).value, |r.verificationKey.h| / 8 + 1;
      && 4 + n <= |data| && data[..4] == U32(n) && data[4 + n..] == EncodeKey(r.verificationKey, z)
      && forall i: nat :: i < 8 * n ==> (i in r.revealedMessages <==> BitOf(data[4..4 + n], i))
  {
    hide U32, EncodeKey, BitVector.Bits;
    var total := |r.verificationKey.h|;
    var bits := BitVector.Bits(total, r.revealedMessages);
    var data := EncodeRequest(r, z).value;
    assert data == U32(|bits|) + (bits + EncodeKey(r.verificationKey, z));
    assert data[4..4 + |bits|] == bits;
    forall i: nat | i < 8 * |bits| ensures i in r.revealedMessages <==> BitOf(bits, i) {
      BitVector.BitsMark(total, r.revealedMessages, i);
      MarkedMeans(bits, i);
    }
  }

  /** Bit `i` of the data as one number, the last byte being the least significant. */
  ghost predicate BitOf(data: seq<Byte>, i: nat)
    requires i < 8 * |data|
  {
    (data[|data| - 1 - i / 8] as nat / BitVector.Pow2(i % 8)) % 2 == 1
  }

  lemma MarkedMeans(data: seq<Byte>, i: nat)
    requires i < 8 * |data|
    ensures BitVector.Marked(data, i) <==> BitOf(data, i)
  {
    BitMeans(data[|data| - 1 - i / 8] as nat, i % 8);
  }

  lemma {:induction false} BitMeans(v: nat, k: nat)
    ensures BitVector.Bit(v, k) <==> (v / BitVector.Pow2(k)) % 2 == 1
  {
    if k > 0 {
      BitMeans(v / 2, k - 1);
      Halve(v, BitVector.Pow2(k - 1));
    }
  }

  lemma Halve(v: nat, p: nat)
    requires p >= 1
    ensures (v / 2) / p == v / (2 * p)
  {
    DivideBy(v, 2, p);
  }

  /** Any data is a request exactly if a bit vector fills its section and a key follows. */
  lemma RequestMeans(data: seq<Byte>, r: PokSignature.ProofRequest, z: bool)
    ensures DecodeRequest(data, z) == Ok(r) <==>
      && |data| >= 8 + G1Size(z) + G2Size(z)
      && var end := 4 + FromBigEndian(data[0..4]);
      && end <= |data| && DecodeKey(data[end..], z) == Ok(r.verificationKey)
      && forall i: nat :: i in r.revealedMessages <==> i < 8 * (end - 4) && BitOf(data[4..end], i)
  {
    hide DecodeKey;
    if |data| >= 8 && 4 + U32Of(data, 0) <= |data| {
      var bits := data[4..4 + U32Of(data, 0)];
      forall i: nat ensures i in BitVector.Members(bits) <==> i < 8 * |bits| && BitOf(bits, i) {
        if i < 8 * |bits| {
          MarkedMeans(bits, i);
        }
      }
      var key := DecodeKey(data[4 + |bits|..], z);
      if key.Ok? {
        assert r == PokSignature.ProofRequest(BitVector.Members(bits), key.value)
          <==> r.verificationKey == key.value && forall i: nat :: i in r.revealedMessages <==> i in BitVector.Members(bits);
      }
    }
  }

  lemma RequestRefused(data: seq<Byte>, z: bool)
    ensures var r, least := DecodeRequest(data, z), 8 + G1Size(z) + G2Size(z);
      && (|data| < least ==> r == Err(InvalidNumberOfBytes(least, |data|)))
      && (|data| >= least ==>
            var end := 4 + FromBigEndian(data[0..4]);
            if end > |data| then r == Panic
            else !DecodeKey(data[end..], z).Ok? ==> r == DecodeKey(data[end..], z).PropagateFailure())
  {
    hide DecodeKey;
  }
}
