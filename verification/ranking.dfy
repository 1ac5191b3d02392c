/** The ranking idioms litepop_wrapup.py relies on: Python's stable
    `sorted(items, key=..., reverse=True)[:n]` and `max(counter.items(), key=...)`
    over a `Counter`, whose keys come in order of first appearance. */
module Ranking {
  import opened Base

  /** Keys never increase along `s`. */
  predicate NonIncreasing<T>(s: seq<T>, key: T -> real) {
    forall i, j :: 0 <= i < j < |s| ==> key(s[i]) >= key(s[j])
  }

  /** Places `x` after every element whose key is at least its own, so that among
      equal keys the earlier element stays first. */
  function Insert<T(==)>(x: T, s: seq<T>, key: T -> real): (r: seq<T>)
    ensures |r| == |s| + 1
    ensures multiset(r) == multiset(s) + multiset{x}
  {
    if |s| == 0 then [x]
    else if key(s[0]) >= key(x) then
      assert s == [s[0]] + s[1..];
      [s[0]] + Insert(x, s[1..], key)
    else
      [x] + s
  }

  /** Inserting into a ranked sequence leaves it ranked. */
  lemma {:induction false} InsertKeepsOrder<T>(x: T, s: seq<T>, key: T -> real)
    requires NonIncreasing(s, key)
    ensures NonIncreasing(Insert(x, s, key), key)
  {
    if |s| > 0 && key(s[0]) >= key(x) {
      var rest := Insert(x, s[1..], key);
      InsertKeepsOrder(x, s[1..], key);
      var r := [s[0]] + rest;
      forall j | 1 <= j < |r|
        ensures key(s[0]) >= key(r[j])
      {
        assert r[j] in multiset(s[1..]) + multiset{x} by {
          assert r[j] == rest[j - 1];
          assert rest[j - 1] in multiset(rest);
        }
        if r[j] != x {
          var k :| 0 <= k < |s[1..]| && s[1..][k] == r[j];
          assert s[k + 1] == r[j];
        }
      }
    }
  }

  /** `sorted(xs, key=key, reverse=True)`: insertion of each element in turn. */
  function SortDesc<T(==)>(xs: seq<T>, key: T -> real): (r: seq<T>)
    ensures multiset(r) == multiset(xs)
    ensures |r| == |xs|
    ensures NonIncreasing(r, key)
  {
    if |xs| == 0 then []
    else
      var n := |xs| - 1;
      assert xs == xs[..n] + [xs[n]];
      var sorted := SortDesc(xs[..n], key);
      InsertKeepsOrder(xs[n], sorted, key);
      Insert(xs[n], sorted, key)
  }

  /** An element of a non-increasing sequence that lies beyond position `n` ranks no
      higher than anything before `n`. */
  lemma BeyondRanksLower<T>(s: seq<T>, key: T -> real, n: nat, x: T)
    requires NonIncreasing(s, key) && n <= |s|
    requires x in s[n..]
    ensures forall i :: 0 <= i < n ==> key(x) <= key(s[i])
  {
    var j :| 0 <= j < |s[n..]| && s[n..][j] == x;
    assert s[n + j] == x;
  }

  /** The first `k` elements of a ranked permutation of `xs` are the top `k`. */
  lemma PrefixIsTop<T>(xs: seq<T>, s: seq<T>, key: T -> real, k: nat)
    requires multiset(s) == multiset(xs) && NonIncreasing(s, key) && k <= |s|
    ensures forall i, j :: 0 <= i < k && 0 <= j < |xs| && multiset(s[..k])[xs[j]] < multiset(xs)[xs[j]] ==>
      key(xs[j]) <= key(s[i])
  {
    assert s == s[..k] + s[k..];
    assert multiset(s) == multiset(s[..k]) + multiset(s[k..]);
    forall j | 0 <= j < |xs| && multiset(s[..k])[xs[j]] < multiset(xs)[xs[j]]
      ensures forall i :: 0 <= i < k ==> key(xs[j]) <= key(s[i])
    {
      assert xs[j] in multiset(s[k..]);
      BeyondRanksLower(s, key, k, xs[j]);
    }
  }

  /** A prefix of a permutation of `xs` draws its elements from `xs`. */
  lemma PrefixFromSource<T>(xs: seq<T>, s: seq<T>, k: nat)
    requires multiset(s) == multiset(xs) && k <= |s|
    ensures multiset(s[..k]) <= multiset(xs)
    ensures forall i :: 0 <= i < k ==> s[i] in xs
  {
    assert s == s[..k] + s[k..];
    assert multiset(s) == multiset(s[..k]) + multiset(s[k..]);
    forall i | 0 <= i < k
      ensures s[i] in xs
    {
      assert s[i] in multiset(s);
    }
  }

  /** `r` is an n-best ranking of `xs`: min(n, |xs|) of its elements, highest key
      first, and whatever is cut off ranks no higher than anything kept. */
  predicate IsTop<T(==)>(r: seq<T>, xs: seq<T>, key: T -> real, n: nat) {
    && |r| == Min(n, |xs|)
    && NonIncreasing(r, key)
    && multiset(r) <= multiset(xs)
    && forall i, j :: 0 <= i < |r| && 0 <= j < |xs| && multiset(r)[xs[j]] < multiset(xs)[xs[j]] ==>
      key(xs[j]) <= key(r[i])
  }

  /** `sorted(xs, key=key, reverse=True)[:n]`. */
  function Top<T(==)>(xs: seq<T>, key: T -> real, n: nat): (r: seq<T>)
    ensures |r| == Min(n, |xs|)
    ensures NonIncreasing(r, key)
    ensures multiset(r) <= multiset(xs)
    ensures forall i :: 0 <= i < |r| ==> r[i] in xs
    // whatever is cut off ranks no higher than anything kept
    ensures forall i, j :: 0 <= i < |r| && 0 <= j < |xs| && multiset(r)[xs[j]] < multiset(xs)[xs[j]] ==>
      key(xs[j]) <= key(r[i])
    ensures IsTop(r, xs, key, n)
  {
    var s := SortDesc(xs, key);
    var k := Min(n, |s|);
    PrefixIsTop(xs, s, key, k);
    PrefixFromSource(xs, s, k);
    s[..k]
  }

  /** Position of the first occurrence of `v`. */
  function FirstIndex<T(==)>(xs: seq<T>, v: T): (r: nat)
    requires v in xs
    ensures r < |xs| && xs[r] == v
    ensures forall j :: 0 <= j < r ==> xs[j] != v
  {
    if xs[0] == v then 0 else 1 + FirstIndex(xs[1..], v)
  }

  /** `v` occurs `c` times in `xs`, no value occurs more often, and no value as
      frequent appears before it. */
  predicate MostCommonOf<T(==)>(xs: seq<T>, v: T, c: nat) {
    && v in xs && c == multiset(xs)[v]
    && (forall i :: 0 <= i < |xs| ==> multiset(xs)[xs[i]] <= c)
    && forall i :: 0 <= i < |xs| && multiset(xs)[xs[i]] == c ==> FirstIndex(xs, v) <= i
  }

  /** `max(Counter(xs).items(), key=count)`: the most frequent value with its count;
      among equally frequent values, the one that appeared first. */
  method MostCommon<T(==)>(xs: seq<T>) returns (v: T, c: nat)
    requires |xs| > 0
    ensures v in xs && c == multiset(xs)[v]
    ensures forall y :: multiset(xs)[y] <= c
    ensures forall i :: 0 <= i < |xs| && multiset(xs)[xs[i]] == c ==> FirstIndex(xs, v) <= i
    ensures MostCommonOf(xs, v, c)
  {
    v, c := xs[0], multiset(xs)[xs[0]];
    var i := 1;
    while i < |xs|
      invariant 1 <= i <= |xs|
      invariant v in xs[..i] && c == multiset(xs)[v]
      invariant forall j :: 0 <= j < i ==> multiset(xs)[xs[j]] <= c
      invariant forall j :: 0 <= j < i && multiset(xs)[xs[j]] == c ==> FirstIndex(xs, v) <= j
    {
      if multiset(xs)[xs[i]] > c {
        v, c := xs[i], multiset(xs)[xs[i]];
      } else {
        var k :| 0 <= k < i && xs[k] == v;
        assert FirstIndex(xs, v) <= k;
      }
      i := i + 1;
    }
    forall y | y in xs
      ensures multiset(xs)[y] <= c
    {
      var j :| 0 <= j < |xs| && xs[j] == y;
    }
  }
}
