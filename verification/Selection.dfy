/** Ordered maps from message indices, and the split of an index range into the indices inside
    and outside a set. */
module Selection {
  import opened PrimeField
  import opened Group

  ghost predicate Ascending(s: seq<nat>) {
    forall i, j :: 0 <= i < j < |s| ==> s[i] < s[j]
  }

  /** A `BTreeMap<usize, SignatureMessage>`: its keys in ascending order and its entries. */
  datatype OrderedMap = OrderedMap(keys: seq<nat>, entries: map<nat, Fr>)

  ghost predicate Ordered(m: OrderedMap) {
    && Ascending(m.keys)
    && (forall k: nat :: k in m.keys <==> k in m.entries)
  }

  type Messages = m: OrderedMap | Ordered(m) witness OrderedMap([], map[])

  /** The values in key order. */
  function Values(m: Messages): (s: seq<Fr>)
    ensures |s| == |m.keys|
  {
    seq(|m.keys|, i requires 0 <= i < |m.keys| => assert m.keys[i] in m.keys; m.entries[m.keys[i]])
  }

  function MapOf(keys: seq<nat>, values: seq<Fr>): (m: map<nat, Fr>)
    requires |keys| == |values|
    ensures forall k: nat :: k in m <==> k in keys
  {
    if keys == [] then map[] else
      var n := |keys| - 1;
      assert keys == keys[..n] + [keys[n]];
      MapOf(keys[..n], values[..n])[keys[n] := values[n]]
  }

  lemma {:induction false} MapOfAt(keys: seq<nat>, values: seq<Fr>, i: nat)
    requires |keys| == |values| && Ascending(keys) && i < |keys|
    ensures MapOf(keys, values)[keys[i]] == values[i]
  {
    var n := |keys| - 1;
    if i < n {
      MapOfAt(keys[..n], values[..n], i);
      assert keys[i] != keys[n];
    }
  }

  /** The ordered map of given values at ascending keys. */
  function MessagesAt(keys: seq<nat>, values: seq<Fr>): (m: Messages)
    requires |keys| == |values| && Ascending(keys)
    ensures m.keys == keys && Values(m) == values
  {
    var m := OrderedMap(keys, MapOf(keys, values));
    assert Ordered(m);
    assert Values(m) == values by {
      forall i | 0 <= i < |keys| ensures Values(m)[i] == values[i] {
        MapOfAt(keys, values, i);
      }
    }
    m
  }

  /** The indices below `n` that are in `s`, ascending. */
  function Inside(n: nat, s: set<nat>): (r: seq<nat>)
    ensures forall i :: 0 <= i < |r| ==> r[i] < n
  {
    if n == 0 then [] else if n - 1 in s then Inside(n - 1, s) + [n - 1] else Inside(n - 1, s)
  }

  /** The indices below `n` that are not in `s`, ascending. */
  function Outside(n: nat, s: set<nat>): (r: seq<nat>)
    ensures forall i :: 0 <= i < |r| ==> r[i] < n
  {
    if n == 0 then [] else if n - 1 in s then Outside(n - 1, s) else Outside(n - 1, s) + [n - 1]
  }

  lemma {:induction false} OutsideNext(n: nat, s: set<nat>)
    ensures Outside(n + 1, s) == if n in s then Outside(n, s) else Outside(n, s) + [n]
  {
  }

  function Pick<T>(xs: seq<T>, idx: seq<nat>): (r: seq<T>)
    requires forall i :: 0 <= i < |idx| ==> idx[i] < |xs|
    ensures |r| == |idx|
  {
    seq(|idx|, i requires 0 <= i < |idx| => xs[idx[i]])
  }

  lemma PickSnoc<T>(xs: seq<T>, idx: seq<nat>, k: nat)
    requires k < |xs| && forall i :: 0 <= i < |idx| ==> idx[i] < |xs|
    ensures Pick(xs, idx + [k]) == Pick(xs, idx) + [xs[k]]
  {
  }

  lemma {:induction false} OutsideElements(n: nat, s: set<nat>)
    ensures Ascending(Outside(n, s))
    ensures forall k: nat :: k in Outside(n, s) <==> k < n && k !in s
  {
    if n > 0 {
      OutsideElements(n - 1, s);
      var rest := Outside(n - 1, s);
      forall k: nat ensures k in Outside(n, s) <==> k < n && k !in s {
        assert k in Outside(n, s) <==> k in rest || (k == n - 1 && n - 1 !in s);
      }
    }
  }

  lemma {:induction false} InsideElements(n: nat, s: set<nat>)
    ensures Ascending(Inside(n, s))
    ensures forall k: nat :: k in Inside(n, s) <==> k < n && k in s
  {
    if n > 0 {
      InsideElements(n - 1, s);
      var rest := Inside(n - 1, s);
      forall k: nat ensures k in Inside(n, s) <==> k < n && k in s {
        assert k in Inside(n, s) <==> k in rest || (k == n - 1 && n - 1 in s);
      }
    }
  }

  ghost function Head(s: seq<nat>): nat {
    if s == [] then 0 else s[0]
  }

  lemma HeadIsElement(s: seq<nat>)
    ensures s != [] ==> Head(s) in s
  {
  }

  /** An ascending sequence is determined by its elements. */
  lemma {:induction false} AscendingUnique(a: seq<nat>, b: seq<nat>)
    requires Ascending(a) && Ascending(b)
    requires forall k: nat :: k in a <==> k in b
    ensures a == b
  {
    if a == [] {
      HeadIsElement(b);
    } else {
      assert a[0] in a;
      assert b != [];
      assert b[0] in b;
      assert a[0] == b[0];
      var a', b' := a[1..], b[1..];
      assert a == [a[0]] + a' && b == [b[0]] + b';
      forall k: nat ensures k in a' <==> k in b' {
        if k in a' {
          assert k in a && k != b[0];
        }
        if k in b' {
          assert k in b && k != a[0];
        }
      }
      AscendingUnique(a', b');
    }
  }

  lemma PickNothing(xs: seq<Fr>)
    ensures Pick(xs, []) == []
  {
  }

  /** A sum over all indices is the sum over those outside a set plus the sum over those inside. */
  lemma {:induction false} DotSplit(b: seq<Fr>, x: seq<Fr>, n: nat, s: set<nat>)
    requires n <= |b| && n <= |x|
    ensures Dot(b[..n], x[..n])
         == Dot(Pick(b, Outside(n, s)), Pick(x, Outside(n, s))) + Dot(Pick(b, Inside(n, s)), Pick(x, Inside(n, s)))
  {
    hide Pick, Dot;
    if n == 0 {
      DotNothing(b[..0], x[..0]);
      DotNothing([], []);
      PickNothing(b);
      PickNothing(x);
    } else {
      DotSplit(b, x, n - 1, s);
      assert b[..n] == b[..n - 1] + [b[n - 1]] && x[..n] == x[..n - 1] + [x[n - 1]];
      DotSnoc(b[..n - 1], x[..n - 1], b[n - 1], x[n - 1]);
      var idx := if n - 1 in s then Inside(n - 1, s) else Outside(n - 1, s);
      PickSnoc(b, idx, n - 1);
      PickSnoc(x, idx, n - 1);
      DotSnoc(Pick(b, idx), Pick(x, idx), b[n - 1], x[n - 1]);
      if n - 1 in s {
        assert Inside(n, s) == idx + [n - 1] && Outside(n, s) == Outside(n - 1, s);
      } else {
        assert Outside(n, s) == idx + [n - 1] && Inside(n, s) == Inside(n - 1, s);
      }
    }
  }

  /** The same split for the product of points. */
  lemma {:induction false} MsmSplit(b: seq<G1>, x: seq<Fr>, s: set<nat>)
    requires |b| == |x|
    ensures Msm(b, x) == Add(Msm(Pick(b, Outside(|b|, s)), Pick(x, Outside(|b|, s))),
                             Msm(Pick(b, Inside(|b|, s)), Pick(x, Inside(|b|, s))))
  {
    hide Msm, Dot, Pick;
    var bo, xo := Pick(b, Outside(|b|, s)), Pick(x, Outside(|b|, s));
    var bi, xi := Pick(b, Inside(|b|, s)), Pick(x, Inside(|b|, s));
    DotSplit(b, x, |b|, s);
    assert b[..|b|] == b && x[..|b|] == x;
    MsmIsDot(b, x);
    MsmIsDot(bo, xo);
    MsmIsDot(bi, xi);
    CongruentAdd(Red(Dot(bo, xo)), Dot(bo, xo), Red(Dot(bi, xi)), Dot(bi, xi));
  }

  /** The entries of `xs` at ascending indices, as an ordered map. */
  function Restrict(xs: seq<Fr>, idx: seq<nat>): (m: Messages)
    requires Ascending(idx) && forall i :: 0 <= i < |idx| ==> idx[i] < |xs|
    ensures m.keys == idx && Values(m) == Pick(xs, idx)
  {
    var m := OrderedMap(idx, map k | k in idx :: xs[k]);
    assert Ordered(m);
    assert forall i :: 0 <= i < |idx| ==> idx[i] in idx;
    m
  }
}
