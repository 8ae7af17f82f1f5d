/**
 * PHP's ordered arrays with string keys, the values the controllers build and
 * hand to the JSON encoder. An array is a sequence of key/value entries; the
 * arrays PHP itself builds never repeat a key (`Distinct`).
 */
module PhpArray {
  import opened Wrappers

  /** The values that occur in the envelopes: scalars, lists and nested arrays. */
  datatype Value =
    | Null
    | Bool(b: bool)
    | Int(i: int)
    | Str(s: string)
    | List(items: seq<Value>)
    | Obj(fields: seq<(string, Value)>)

  type Dict = seq<(string, Value)>

  /** The keys of `d`, in insertion order. */
  function Keys(d: Dict): (ks: seq<string>)
    ensures |ks| == |d|
    ensures forall i :: 0 <= i < |d| ==> ks[i] == d[i].0
  {
    if d == [] then [] else [d[0].0] + Keys(d[1..])
  }

  /** No key occurs twice. */
  predicate Distinct(d: Dict) {
    forall i, j :: 0 <= i < j < |d| ==> d[i].0 != d[j].0
  }

  /** Dropping the first entry of a distinct array keeps it distinct and takes away exactly the first key. */
  lemma DistinctTail(d: Dict)
    requires Distinct(d) && d != []
    ensures Distinct(d[1..])
    ensures d[0].0 !in Keys(d[1..])
  {
    var rest := d[1..];
    forall i, j | 0 <= i < j < |rest|
      ensures rest[i].0 != rest[j].0
    {
      assert rest[i] == d[i + 1] && rest[j] == d[j + 1];
    }
    forall j | 0 <= j < |rest|
      ensures Keys(rest)[j] != d[0].0
    {
      assert rest[j] == d[j + 1];
    }
  }

  /** `$d[$k]`, or None when the key is absent. */
  function Lookup(d: Dict, k: string): Option<Value> {
    if d == [] then None
    else if d[0].0 == k then Some(d[0].1)
    else Lookup(d[1..], k)
  }

  lemma {:induction false} LookupPresent(d: Dict, k: string)
    ensures Lookup(d, k).Some? <==> k in Keys(d)
  {
    if d != [] {
      LookupPresent(d[1..], k);
    }
  }

  /** `$d[$k]` reads the first entry under `k`. */
  lemma {:induction false} LookupAt(d: Dict, i: int)
    requires 0 <= i < |d|
    requires forall j :: 0 <= j < i ==> d[j].0 != d[i].0
    ensures Lookup(d, d[i].0) == Some(d[i].1)
  {
    if i > 0 {
      LookupAt(d[1..], i - 1);
      assert d[1..][i - 1] == d[i];
    }
  }

  lemma {:induction false} KeysAppend(a: Dict, b: Dict)
    ensures Keys(a + b) == Keys(a) + Keys(b)
  {
    if a != [] {
      assert (a + b)[1..] == a[1..] + b;
      KeysAppend(a[1..], b);
    }
  }

  /** A lookup in `a + b` finds `a`'s entry first. */
  lemma {:induction false} LookupAppend(a: Dict, b: Dict, k: string)
    ensures Lookup(a + b, k) == if k in Keys(a) then Lookup(a, k) else Lookup(b, k)
  {
    if a != [] {
      assert (a + b)[1..] == a[1..] + b;
      LookupAppend(a[1..], b, k);
    } else {
      assert a + b == b;
    }
  }

  /**
   * `$d[$k] = $v`: an existing key keeps its position and takes the new value;
   * a new key is appended.
   */
  function Put(d: Dict, k: string, v: Value): (r: Dict)
    ensures Lookup(r, k) == Some(v)
    ensures forall k' :: k' != k ==> Lookup(r, k') == Lookup(d, k')
    ensures k in Keys(d) ==> Keys(r) == Keys(d)
    ensures k !in Keys(d) ==> r == d + [(k, v)]
  {
    if d == [] then [(k, v)]
    else if d[0].0 == k then [(k, v)] + d[1..]
    else [d[0]] + Put(d[1..], k, v)
  }

  /** The entries of `b` whose key is not among `ks`, in `b`'s order. */
  function Without(b: Dict, ks: seq<string>): Dict {
    if b == [] then []
    else if b[0].0 in ks then Without(b[1..], ks)
    else [b[0]] + Without(b[1..], ks)
  }

  lemma {:induction false} WithoutKeys(b: Dict, ks: seq<string>, k: string)
    ensures k in Keys(Without(b, ks)) <==> k in Keys(b) && k !in ks
  {
    if b != [] {
      WithoutKeys(b[1..], ks, k);
    }
  }

  lemma {:induction false} LookupWithout(b: Dict, ks: seq<string>, k: string)
    requires k !in ks
    ensures Lookup(Without(b, ks), k) == Lookup(b, k)
  {
    if b != [] {
      LookupWithout(b[1..], ks, k);
    }
  }

  lemma {:induction false} WithoutDistinct(b: Dict, ks: seq<string>)
    requires Distinct(b)
    ensures Distinct(Without(b, ks))
  {
    if b != [] {
      WithoutDistinct(b[1..], ks);
      if b[0].0 !in ks {
        var w := Without(b[1..], ks);
        forall j | 0 <= j < |w|
          ensures b[0].0 != w[j].0
        {
          assert w[j].0 == Keys(w)[j];
          WithoutKeys(b[1..], ks, w[j].0);
          var i :| 0 <= i < |b[1..]| && Keys(b[1..])[i] == w[j].0;
          assert b[i + 1].0 == w[j].0;
        }
      }
    }
  }

  /** `s` is `b` with some entries left out: the rest keep their order. */
  ghost predicate Subsequence(s: Dict, b: Dict)
    decreases |b|
  {
    if s == [] then true
    else if b == [] then false
    else (s[0] == b[0] && Subsequence(s[1..], b[1..])) || Subsequence(s, b[1..])
  }

  /** The filter only drops entries: what it keeps stays in `b`'s order. */
  lemma {:induction false} WithoutSubsequence(b: Dict, ks: seq<string>)
    ensures Subsequence(Without(b, ks), b)
  {
    if b != [] {
      WithoutSubsequence(b[1..], ks);
      if b[0].0 !in ks {
        assert Without(b, ks)[1..] == Without(b[1..], ks);
      }
    }
  }

  /** No entry of `s` has a key among `ks`. */
  ghost predicate Avoids(s: Dict, ks: seq<string>) {
    s == [] || (s[0].0 !in ks && Avoids(s[1..], ks))
  }

  lemma {:induction false} AvoidsKeys(s: Dict, ks: seq<string>, k: string)
    requires Avoids(s, ks) && k in Keys(s)
    ensures k !in ks
  {
    KeysTail(s, k);
    if k != s[0].0 {
      AvoidsKeys(s[1..], ks, k);
    }
  }

  lemma {:induction false} WithoutAvoids(b: Dict, ks: seq<string>)
    ensures Avoids(Without(b, ks), ks)
  {
    if b != [] {
      WithoutAvoids(b[1..], ks);
      if b[0].0 !in ks {
        assert Without(b, ks)[1..] == Without(b[1..], ks);
      }
    }
  }

  /**
   * `r` is the left-biased union of `a` and `b`: it starts with `a` and goes
   * on with entries of `b` in `b`'s order, none of them under a key of `a`;
   * it holds exactly the keys of both, and every key of `a` keeps `a`'s value
   * while every other key keeps `b`'s.
   */
  ghost predicate LeftBiased(r: Dict, a: Dict, b: Dict) {
    && |a| <= |r| && r[..|a|] == a
    && Subsequence(r[|a|..], b)
    && Avoids(r[|a|..], Keys(a))
    && (forall k :: k in Keys(r) <==> k in Keys(a) || k in Keys(b))
    && (forall k :: Lookup(r, k) == if k in Keys(a) then Lookup(a, k) else Lookup(b, k))
  }

  /** PHP's array union `$a + $b`. */
  function Union(a: Dict, b: Dict): (r: Dict)
    ensures LeftBiased(r, a, b)
    ensures Distinct(a) && Distinct(b) ==> Distinct(r)
  {
    UnionIsLeftBiased(a, b);
    a + Without(b, Keys(a))
  }

  lemma UnionIsLeftBiased(a: Dict, b: Dict)
    ensures LeftBiased(a + Without(b, Keys(a)), a, b)
    ensures Distinct(a) && Distinct(b) ==> Distinct(a + Without(b, Keys(a)))
  {
    var w := Without(b, Keys(a));
    var r := a + w;
    KeysAppend(a, w);
    assert r[..|a|] == a;
    assert r[|a|..] == w;
    WithoutSubsequence(b, Keys(a));
    WithoutAvoids(b, Keys(a));
    forall k
      ensures k in Keys(r) <==> k in Keys(a) || k in Keys(b)
      ensures Lookup(r, k) == if k in Keys(a) then Lookup(a, k) else Lookup(b, k)
    {
      WithoutKeys(b, Keys(a), k);
      LookupAppend(a, w, k);
      if k !in Keys(a) {
        LookupWithout(b, Keys(a), k);
      }
    }
    if Distinct(a) && Distinct(b) {
      WithoutDistinct(b, Keys(a));
      forall i, j | 0 <= i < |a| <= j < |r|
        ensures r[i].0 != r[j].0
      {
        assert r[j] == w[j - |a|];
        assert w[j - |a|].0 == Keys(w)[j - |a|];
        AvoidsKeys(w, Keys(a), r[j].0);
        assert r[i].0 == Keys(a)[i];
      }
    }
  }

  /** A subsequence only holds keys of the array it was taken from. */
  lemma {:induction false} SubsequenceKeys(s: Dict, b: Dict, k: string)
    requires Subsequence(s, b) && k in Keys(s)
    ensures k in Keys(b)
    decreases |b|
  {
    if s[0] == b[0] && Subsequence(s[1..], b[1..]) {
      if k != s[0].0 {
        KeysTail(s, k);
        SubsequenceKeys(s[1..], b[1..], k);
        KeysTail(b, k);
      }
    } else {
      SubsequenceKeys(s, b[1..], k);
      KeysTail(b, k);
    }
  }

  /** A key of a non-empty array is its first key or a key of the rest. */
  lemma KeysTail(d: Dict, k: string)
    requires d != []
    ensures k in Keys(d) <==> k == d[0].0 || k in Keys(d[1..])
  {
    assert Keys(d) == [d[0].0] + Keys(d[1..]);
  }

  /** Within one distinct array, a subsequence is fixed by its set of keys. */
  lemma {:induction false} SubsequenceUnique(s1: Dict, s2: Dict, b: Dict)
    requires Distinct(b) && Subsequence(s1, b) && Subsequence(s2, b)
    requires forall k :: k in Keys(s1) <==> k in Keys(s2)
    ensures s1 == s2
    decreases |b|
  {
    if b == [] {
      assert s1 == [] && s2 == [];
    } else {
      var first := b[0].0;
      DistinctTail(b);
      if first in Keys(s1) {
        FirstTaken(s1, b);
        FirstTaken(s2, b);
        forall k
          ensures k in Keys(s1[1..]) <==> k in Keys(s2[1..])
        {
          KeysTail(s1, k);
          KeysTail(s2, k);
          if k == first {
            if k in Keys(s1[1..]) { SubsequenceKeys(s1[1..], b[1..], k); }
            if k in Keys(s2[1..]) { SubsequenceKeys(s2[1..], b[1..], k); }
          }
        }
        SubsequenceUnique(s1[1..], s2[1..], b[1..]);
        assert s1 == [s1[0]] + s1[1..] && s2 == [s2[0]] + s2[1..];
      } else {
        FirstSkipped(s1, b);
        FirstSkipped(s2, b);
        SubsequenceUnique(s1, s2, b[1..]);
      }
    }
  }

  /** If a subsequence of a distinct array holds its first key, it starts with its first entry. */
  lemma FirstTaken(s: Dict, b: Dict)
    requires Distinct(b) && b != [] && Subsequence(s, b) && b[0].0 in Keys(s)
    ensures s != [] && s[0] == b[0] && Subsequence(s[1..], b[1..])
  {
    DistinctTail(b);
    if !(s[0] == b[0] && Subsequence(s[1..], b[1..])) {
      SubsequenceKeys(s, b[1..], b[0].0);
      assert false;
    }
  }

  /** If a subsequence lacks the first key, it is a subsequence of the rest. */
  lemma FirstSkipped(s: Dict, b: Dict)
    requires b != [] && Subsequence(s, b) && b[0].0 !in Keys(s)
    ensures Subsequence(s, b[1..])
  {
    if s != [] {
      assert Keys(s)[0] == s[0].0;
    }
  }

  /** When `b` is distinct, `LeftBiased` leaves exactly one candidate: the union is determined, order included. */
  lemma LeftBiasedUnique(r1: Dict, r2: Dict, a: Dict, b: Dict)
    requires Distinct(b)
    requires LeftBiased(r1, a, b) && LeftBiased(r2, a, b)
    ensures r1 == r2
  {
    var s1, s2 := r1[|a|..], r2[|a|..];
    forall k
      ensures k in Keys(s1) <==> k in Keys(s2)
    {
      SuffixKeys(r1, a, b, k);
      SuffixKeys(r2, a, b, k);
    }
    SubsequenceUnique(s1, s2, b);
    assert r1 == r1[..|a|] + s1 && r2 == r2[..|a|] + s2;
  }

  /** In a left-biased union, the entries after `a` hold exactly the keys of `b` that `a` lacks. */
  lemma SuffixKeys(r: Dict, a: Dict, b: Dict, k: string)
    requires LeftBiased(r, a, b)
    ensures k in Keys(r[|a|..]) <==> k in Keys(b) && k !in Keys(a)
  {
    var s := r[|a|..];
    assert r == a + s;
    KeysAppend(a, s);
    if k in Keys(s) {
      SubsequenceKeys(s, b, k);
      AvoidsKeys(s, Keys(a), k);
    }
  }

  /** No entry after `a` in a left-biased union repeats a key of `a`. */
  lemma SuffixAvoids(r: Dict, a: Dict, b: Dict, j: int)
    requires LeftBiased(r, a, b) && |a| <= j < |r|
    ensures r[j].0 !in Keys(a)
  {
    var s := r[|a|..];
    assert s[j - |a|] == r[j] && Keys(s)[j - |a|] == r[j].0;
    AvoidsKeys(s, Keys(a), r[j].0);
  }

  /** A subsequence of a distinct array is distinct. */
  lemma {:induction false} SubsequenceDistinct(s: Dict, b: Dict)
    requires Distinct(b) && Subsequence(s, b)
    ensures Distinct(s)
    decreases |b|
  {
    if s != [] {
      DistinctTail(b);
      if s[0] == b[0] && Subsequence(s[1..], b[1..]) {
        SubsequenceDistinct(s[1..], b[1..]);
        forall j | 0 < j < |s|
          ensures s[0].0 != s[j].0
        {
          assert s[j] == s[1..][j - 1];
          assert Keys(s[1..])[j - 1] == s[j].0;
          SubsequenceKeys(s[1..], b[1..], s[j].0);
        }
        forall i, j | 0 < i < j < |s|
          ensures s[i].0 != s[j].0
        {
          assert s[i] == s[1..][i - 1] && s[j] == s[1..][j - 1];
        }
      } else {
        SubsequenceDistinct(s, b[1..]);
      }
    }
  }

  /** A left-biased union of two distinct arrays repeats no key. */
  lemma LeftBiasedDistinct(r: Dict, a: Dict, b: Dict)
    requires Distinct(a) && Distinct(b) && LeftBiased(r, a, b)
    ensures Distinct(r)
  {
    var s := r[|a|..];
    SubsequenceDistinct(s, b);
    forall i, j | 0 <= i < j < |r|
      ensures r[i].0 != r[j].0
    {
      if j < |a| {
        assert r[i] == a[i] && r[j] == a[j];
      } else if i < |a| {
        assert r[j] == s[j - |a|] && Keys(s)[j - |a|] == r[j].0;
        AvoidsKeys(s, Keys(a), r[j].0);
        assert r[i].0 == Keys(a)[i];
      } else {
        assert r[i] == s[i - |a|] && r[j] == s[j - |a|];
      }
    }
  }

  /** Union with an empty right operand leaves the left one unchanged. */
  lemma UnionEmpty(a: Dict)
    ensures Union(a, []) == a
  {
  }
}
