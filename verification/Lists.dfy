/** Sequences up to the order of their elements, and concatenations of what each element gives. */
module Lists {

  // ---------- Permutations ----------

  lemma RemoveAt<T>(s: seq<T>, k: nat)
    requires k < |s|
    ensures multiset(s[..k] + s[k + 1..]) == multiset(s) - multiset{s[k]}
  {
    assert s == s[..k] + ([s[k]] + s[k + 1..]);
  }

  lemma Position<T>(x: T, s: seq<T>, t: seq<T>) returns (k: nat)
    requires multiset(s) == multiset(t) && x in s
    ensures k < |t| && t[k] == x
  {
    assert x in multiset(t);
    k :| 0 <= k < |t| && t[k] == x;
  }

  lemma WithoutFirst<T>(a: seq<T>, b: seq<T>, i: nat)
    requires multiset(a) == multiset(b) && a != [] && i < |b| && b[i] == a[0]
    ensures multiset(a[1..]) == multiset(b[..i] + b[i + 1..])
  {
    RemoveAt(a, 0);
    assert a[..0] + a[1..] == a[1..];
    RemoveAt(b, i);
  }

  lemma WithoutLast<T>(a: seq<T>, b: seq<T>) returns (i: nat)
    requires multiset(a) <= multiset(b) && a != []
    ensures i < |b| && b[i] == a[|a| - 1] && multiset(a[..|a| - 1]) <= multiset(b[..i] + b[i + 1..])
  {
    var n := |a| - 1;
    assert a[n] in multiset(a);
    i :| 0 <= i < |b| && b[i] == a[n];
    RemoveAt(a, n);
    RemoveAt(b, i);
    assert a[..n] + a[n + 1..] == a[..n];
  }

  lemma Joined<T>(a: seq<T>, x: seq<T>, b: seq<T>, y: seq<T>)
    requires multiset(a) <= multiset(b) && multiset(x) <= multiset(y)
    ensures multiset(a + x) <= multiset(b + y)
    ensures multiset(a) == multiset(b) && multiset(x) == multiset(y) ==> multiset(a + x) == multiset(b + y)
  {
  }

  lemma GrownLast<T>(a: seq<T>, b: seq<T>, b': seq<T>, x: seq<T>)
    requires multiset(b') == multiset(b) + multiset(x)
    ensures multiset(a + b') == multiset(a + b) + multiset(x)
  {
  }

  lemma GrownFirst<T>(a: seq<T>, a': seq<T>, x: seq<T>, b: seq<T>)
    requires multiset(a') == multiset(a) + multiset(x)
    ensures multiset(a' + b) == multiset(a + b) + multiset(x)
  {
  }

  // ---------- Concatenations ----------

  lemma FirstParts<T>(a: seq<T>, b: seq<T>, a': seq<T>, b': seq<T>)
    requires |a| == |a'| && a + b == a' + b'
    ensures a == a' && b == b'
  {
    assert (a + b)[..|a|] == a && (a + b)[|a|..] == b;
    assert (a' + b')[..|a|] == a' && (a' + b')[|a|..] == b';
  }

  /** For joining sequences: each gives itself. */
  function Whole<T>(): seq<T> -> seq<T> {
    (s: seq<T>) => s
  }

  function FlatMap<T, U>(f: T -> seq<U>, s: seq<T>): seq<U> {
    if s == [] then [] else FlatMap(f, s[..|s| - 1]) + f(s[|s| - 1])
  }

  lemma {:induction false} FlatMapConcat<T, U>(f: T -> seq<U>, a: seq<T>, b: seq<T>)
    ensures FlatMap(f, a + b) == FlatMap(f, a) + FlatMap(f, b)
  {
    if b == [] {
      assert a + b == a;
    } else {
      assert (a + b)[..|a + b| - 1] == a + b[..|b| - 1];
      FlatMapConcat(f, a, b[..|b| - 1]);
    }
  }

  lemma {:induction false} FlatMapOne<T, U>(f: T -> seq<U>, x: T)
    ensures FlatMap(f, [x]) == f(x)
  {
    assert [x][..0] == [];
  }

  lemma {:induction false} FlatMapAt<T, U>(f: T -> seq<U>, s: seq<T>, i: nat)
    requires i < |s|
    ensures FlatMap(f, s) == FlatMap(f, s[..i]) + f(s[i]) + FlatMap(f, s[i + 1..])
  {
    assert s == s[..i] + [s[i]] + s[i + 1..];
    FlatMapConcat(f, s[..i] + [s[i]], s[i + 1..]);
    FlatMapConcat(f, s[..i], [s[i]]);
    FlatMapOne(f, s[i]);
  }

  lemma {:induction false} FlatMapWithout<T, U>(f: T -> seq<U>, s: seq<T>, i: nat)
    requires i < |s|
    ensures multiset(FlatMap(f, s)) == multiset(FlatMap(f, s[..i] + s[i + 1..])) + multiset(f(s[i]))
  {
    hide FlatMap;
    FlatMapAt(f, s, i);
    FlatMapConcat(f, s[..i], s[i + 1..]);
  }

  lemma {:induction false} FlatMapPermuted<T, U>(f: T -> seq<U>, a: seq<T>, b: seq<T>)
    requires multiset(a) == multiset(b)
    ensures multiset(FlatMap(f, a)) == multiset(FlatMap(f, b))
    decreases |a|
  {
    hide FlatMap;
    if a == [] {
      assert |multiset(b)| == 0;
    } else {
      var i := Position(a[0], a, b);
      WithoutFirst(a, b, i);
      FlatMapPermuted(f, a[1..], b[..i] + b[i + 1..]);
      FlatMapWithout(f, a, 0);
      assert a[..0] + a[1..] == a[1..];
      FlatMapWithout(f, b, i);
    }
  }

  lemma {:induction false} FlatMapUpdate<T, U>(f: T -> seq<U>, s: seq<T>, i: nat, x: T)
    requires i < |s|
    ensures f(x) == f(s[i]) ==> FlatMap(f, s[i := x]) == FlatMap(f, s)
    ensures multiset(FlatMap(f, s[i := x])) + multiset(f(s[i])) == multiset(FlatMap(f, s)) + multiset(f(x))
  {
    hide FlatMap;
    var t := s[i := x];
    FlatMapAt(f, s, i);
    FlatMapAt(f, t, i);
    assert t[..i] == s[..i] && t[i + 1..] == s[i + 1..];
  }

  lemma {:induction false} FlatMapFrom<T, U>(f: T -> seq<U>, s: seq<T>, y: U)
    requires y in FlatMap(f, s)
    ensures exists i :: 0 <= i < |s| && y in f(s[i])
  {
    var n := |s| - 1;
    if y !in f(s[n]) {
      FlatMapFrom(f, s[..n], y);
      var i :| 0 <= i < n && y in f(s[..n][i]);
      assert y in f(s[i]);
    }
  }

  lemma {:induction false} FlatMapHas<T, U>(f: T -> seq<U>, s: seq<T>, i: nat, y: U)
    requires i < |s| && y in f(s[i])
    ensures y in FlatMap(f, s)
  {
    if i < |s| - 1 {
      FlatMapHas(f, s[..|s| - 1], i, y);
    }
  }
}
