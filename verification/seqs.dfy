/** Generic sequence helpers: Python's negative-index slicing and sums over association lists. */
module Seqs {

  function Min(a: int, b: int): int {
    if a <= b then a else b
  }

  /** Python's `s[-n:]` for a positive `n`: the last `n` elements, or all of them when there are fewer. */
  function Keep<T>(s: seq<T>, n: nat): (r: seq<T>)
    requires n > 0
    ensures |r| == Min(|s|, n)
    ensures r == s[|s| - |r|..]
  {
    if |s| <= n then s else s[|s| - n..]
  }

  /** Keeping the last `n` twice keeps the same elements as keeping them once. */
  lemma KeepIdempotent<T>(s: seq<T>, n: nat)
    requires n > 0
    ensures Keep(Keep(s, n), n) == Keep(s, n)
  {
  }

  /** Keeping the last `n` of the last `m` is keeping the last `n`, when `n <= m`. */
  lemma KeepNested<T>(s: seq<T>, m: nat, n: nat)
    requires 0 < n <= m
    ensures Keep(Keep(s, m), n) == Keep(s, n)
  {
  }

  /** Trimming before appending loses nothing that a single trim at the end would keep:
      the retained entries are always the most recent ones of the whole history. */
  lemma KeepThenAppend<T>(s: seq<T>, t: seq<T>, n: nat)
    requires n > 0
    ensures Keep(Keep(s, n) + t, n) == Keep(s + t, n)
  {
    if |s| > n {
      var w := s + t;
      assert Keep(s, n) == s[|s| - n..];
      assert Keep(s, n) + t == w[|s| - n..];
      KeepOfSuffix(w, |s| - n, n);
    } else {
      assert Keep(s, n) == s;
    }
  }

  /** Keeping the last `n` of `prior + t` keeps, before `t`, the most recent elements of `prior`. */
  lemma KeepAfterAppend<T>(prior: seq<T>, t: seq<T>, n: nat)
    requires 0 < n && |t| <= n
    ensures var kept := Keep(prior + t, n);
            |kept| >= |t| && |prior| >= |kept| - |t|
            && kept[..|kept| - |t|] == prior[|prior| - (|kept| - |t|)..]
  {
    var w := prior + t;
    var kept := Keep(w, n);
    assert kept[..|kept| - |t|] == w[|w| - |kept|..|prior|];
  }

  /** A suffix that still holds the last `n` elements keeps the same ones. */
  lemma KeepOfSuffix<T>(w: seq<T>, j: nat, n: nat)
    requires n > 0 && j + n <= |w|
    ensures Keep(w[j..], n) == Keep(w, n)
  {
    assert w[j..][|w| - j - n..] == w[|w| - n..];
  }

  lemma SeqAssoc<T>(a: seq<T>, b: seq<T>, c: seq<T>)
    ensures a + b + c == a + (b + c)
  {
  }

  /** The pieces `f` gives each element, concatenated in order (`[y for x in s for y in f(x)]`). */
  function Flatten<A, B>(s: seq<A>, f: A -> seq<B>): seq<B> {
    if s == [] then [] else f(s[0]) + Flatten(s[1..], f)
  }

  lemma {:induction false} FlattenAppend<A, B>(a: seq<A>, b: seq<A>, f: A -> seq<B>)
    ensures Flatten(a + b, f) == Flatten(a, f) + Flatten(b, f)
    decreases |a|
  {
    if a == [] {
      assert a + b == b;
    } else {
      assert (a + b)[0] == a[0] && (a + b)[1..] == a[1..] + b;
      FlattenAppend(a[1..], b, f);
    }
  }

  /** An element of the concatenation comes from one of the pieces. */
  lemma {:induction false} FlattenFrom<A, B>(s: seq<A>, f: A -> seq<B>, y: B)
    requires y in Flatten(s, f)
    ensures exists i :: 0 <= i < |s| && y in f(s[i])
    decreases |s|
  {
    if y !in f(s[0]) {
      FlattenFrom(s[1..], f, y);
      var i :| 0 <= i < |s[1..]| && y in f(s[1..][i]);
      assert s[1..][i] == s[i + 1];
    }
  }

  /** Every element of every piece is in the concatenation. */
  lemma {:induction false} FlattenHas<A, B>(s: seq<A>, f: A -> seq<B>, i: nat, y: B)
    requires i < |s| && y in f(s[i])
    ensures y in Flatten(s, f)
    decreases i
  {
    if i > 0 {
      assert s[1..][i - 1] == s[i];
      FlattenHas(s[1..], f, i - 1, y);
    }
  }

  /** Pieces of at most one element concatenate to no more elements than there are pieces. */
  lemma {:induction false} FlattenShort<A, B>(s: seq<A>, f: A -> seq<B>)
    requires forall i :: 0 <= i < |s| ==> |f(s[i])| <= 1
    ensures |Flatten(s, f)| <= |s|
    decreases |s|
  {
    if s != [] {
      assert forall i :: 1 <= i < |s| ==> s[i] == s[1..][i - 1];
      FlattenShort(s[1..], f);
    }
  }

  /** The sum of the values of an association list. */
  function SumValues<K>(m: seq<(K, int)>): int {
    if m == [] then 0 else m[0].1 + SumValues(m[1..])
  }

  lemma {:induction false} SumValuesAppend<K>(a: seq<(K, int)>, b: seq<(K, int)>)
    ensures SumValues(a + b) == SumValues(a) + SumValues(b)
  {
    if a == [] {
      assert a + b == b;
    } else {
      assert (a + b)[1..] == a[1..] + b;
      SumValuesAppend(a[1..], b);
    }
  }

  /** The keys of an association list, in order. */
  function Keys<K, V>(m: seq<(K, V)>): (ks: seq<K>)
    ensures |ks| == |m|
    ensures forall i :: 0 <= i < |m| ==> ks[i] == m[i].0
  {
    if m == [] then [] else [m[0].0] + Keys(m[1..])
  }

  /** No key occurs twice, as in a Python dict. */
  ghost predicate DistinctKeys<K, V>(m: seq<(K, V)>) {
    forall i, j :: 0 <= i < j < |m| ==> m[i].0 != m[j].0
  }
}
