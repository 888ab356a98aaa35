/** Sums and the descending sort that the modelled code obtains from
    `Array.prototype.reduce` and `Array.prototype.sort`. Amounts are `real`:
    the model does not follow IEEE rounding. */
module Seqs {

  /** `s.reduce((sum, x) => sum + f(x), 0)`. */
  function SumOf<T>(s: seq<T>, f: T -> real): real {
    if s == [] then 0.0 else f(s[0]) + SumOf(s[1..], f)
  }

  lemma {:induction false} SumOfAppend<T>(a: seq<T>, b: seq<T>, f: T -> real)
    ensures SumOf(a + b, f) == SumOf(a, f) + SumOf(b, f)
  {
    if a == [] {
      assert a + b == b;
    } else {
      assert (a + b)[1..] == a[1..] + b;
      SumOfAppend(a[1..], b, f);
    }
  }

  /** Replacing one element changes the sum by the difference. */
  lemma {:induction false} SumOfUpdate<T>(s: seq<T>, i: nat, x: T, f: T -> real)
    requires i < |s|
    ensures SumOf(s[i := x], f) == SumOf(s, f) - f(s[i]) + f(x)
  {
    if i == 0 {
      assert s[i := x][1..] == s[1..];
    } else {
      assert s[i := x][1..] == s[1..][i - 1 := x];
      SumOfUpdate(s[1..], i - 1, x, f);
    }
  }

  lemma SumOfRemoveAt<T>(b: seq<T>, i: nat, f: T -> real)
    requires i < |b|
    ensures SumOf(b, f) == f(b[i]) + SumOf(b[..i] + b[i + 1..], f)
  {
    var pre, mid, post := b[..i], [b[i]], b[i + 1..];
    assert b == (pre + mid) + post;
    SumOfAppend(pre + mid, post, f);
    SumOfAppend(pre, mid, f);
    SumOfAppend(pre, post, f);
    assert mid[1..] == [];
  }

  lemma MultisetRemoveAt<T>(b: seq<T>, i: nat)
    requires i < |b|
    ensures multiset(b[..i] + b[i + 1..]) == multiset(b) - multiset{b[i]}
  {
    assert b == b[..i] + [b[i]] + b[i + 1..];
  }

  /** The sum does not depend on the order of the elements. */
  lemma {:induction false} SumOfPermutation<T>(a: seq<T>, b: seq<T>, f: T -> real)
    requires multiset(a) == multiset(b)
    ensures SumOf(a, f) == SumOf(b, f)
  {
    if a == [] {
      assert |b| == |multiset(b)| == 0;
    } else {
      var i := MatchHead(a, b);
      SumOfPermutation(a[1..], b[..i] + b[i + 1..], f);
      SumOfRemoveAt(b, i, f);
    }
  }

  /** The head of `a` sits somewhere in its permutation `b`, and the rests
      are permutations of each other. */
  lemma MatchHead<T>(a: seq<T>, b: seq<T>) returns (i: nat)
    requires a != [] && multiset(a) == multiset(b)
    ensures i < |b| && b[i] == a[0]
    ensures multiset(a[1..]) == multiset(b[..i] + b[i + 1..])
  {
    var x := a[0];
    assert a == [x] + a[1..];
    assert multiset(a[1..]) == multiset(a) - multiset{x};
    assert x in multiset(b);
    i :| 0 <= i < |b| && b[i] == x;
    MultisetRemoveAt(b, i);
  }

  /** Two functions that agree on the elements give the same sum. */
  lemma {:induction false} SumOfAgree<T>(s: seq<T>, f: T -> real, g: T -> real)
    requires forall i :: 0 <= i < |s| ==> f(s[i]) == g(s[i])
    ensures SumOf(s, f) == SumOf(s, g)
  {
    if s != [] {
      SumOfAgree(s[1..], f, g);
    }
  }

  /** Two sequences whose elements pair up with equal values give the same
      sum. */
  lemma {:induction false} SumOfMatched<A, B>(a: seq<A>, b: seq<B>, f: A -> real, g: B -> real)
    requires |a| == |b|
    requires forall i :: 0 <= i < |a| ==> f(a[i]) == g(b[i])
    ensures SumOf(a, f) == SumOf(b, g)
  {
    if a != [] {
      forall i | 0 <= i < |a| - 1 ensures f(a[1..][i]) == g(b[1..][i]) {
        assert a[1..][i] == a[i + 1] && b[1..][i] == b[i + 1];
      }
      SumOfMatched(a[1..], b[1..], f, g);
    }
  }

  /** Extending a prefix of `hs` by one element. */
  lemma PrefixSnoc<T>(before: seq<T>, hs: seq<T>, t: nat)
    requires t < |hs|
    ensures before + hs[..t + 1] == (before + hs[..t]) + [hs[t]]
  {
    assert hs[..t + 1] == hs[..t] + [hs[t]];
  }

  /** Ordered by `key`, largest first. */
  ghost predicate SortedDesc<T>(s: seq<T>, key: T -> real) {
    forall i, j :: 0 <= i < j < |s| ==> key(s[i]) >= key(s[j])
  }

  /** Places `x` in front of the first element whose key is not larger than
      its own, so that `x` stays ahead of the elements it tied with. */
  function Insert<T>(x: T, s: seq<T>, key: T -> real): (r: seq<T>)
    ensures multiset(r) == multiset(s) + multiset{x}
  {
    if s == [] || key(s[0]) <= key(x) then
      [x] + s
    else
      assert s == [s[0]] + s[1..];
      [s[0]] + Insert(x, s[1..], key)
  }

  lemma {:induction false} InsertSorted<T>(x: T, s: seq<T>, key: T -> real)
    requires SortedDesc(s, key)
    ensures SortedDesc(Insert(x, s, key), key)
  {
    if s == [] || key(s[0]) <= key(x) {
    } else {
      var t := Insert(x, s[1..], key);
      InsertSorted(x, s[1..], key);
      forall k | 0 <= k < |t| ensures key(s[0]) >= key(t[k]) {
        assert t[k] in multiset(t);
        assert t[k] in multiset(s[1..]) + multiset{x};
        if t[k] != x {
          var j :| 0 <= j < |s[1..]| && s[1..][j] == t[k];
          assert s[1 + j] == t[k];
        }
      }
    }
  }

  /** `Insert` puts `x` right after the leading elements whose key is larger
      than its own. */
  lemma {:induction false} InsertSplits<T>(x: T, t: seq<T>, key: T -> real, k: nat)
    requires k <= |t|
    requires forall m :: 0 <= m < k ==> key(t[m]) > key(x)
    requires k < |t| ==> key(t[k]) <= key(x)
    ensures Insert(x, t, key) == t[..k] + [x] + t[k..]
  {
    if k == 0 {
      assert t[..0] + [x] + t[0..] == [x] + t;
    } else {
      ShiftPremises(x, t, key, k);
      InsertSplits(x, t[1..], key, k - 1);
      InsertPastHead(x, t, key, k);
    }
  }

  /** The premises of `InsertSplits` hold for the tail one position on. */
  lemma ShiftPremises<T>(x: T, t: seq<T>, key: T -> real, k: nat)
    requires 0 < k <= |t|
    requires forall m :: 0 <= m < k ==> key(t[m]) > key(x)
    requires k < |t| ==> key(t[k]) <= key(x)
    ensures forall m :: 0 <= m < k - 1 ==> key(t[1..][m]) > key(x)
    ensures k - 1 < |t[1..]| ==> key(t[1..][k - 1]) <= key(x)
  {
    forall m | 0 <= m < k - 1 ensures key(t[1..][m]) > key(x) {
      assert t[1..][m] == t[m + 1];
    }
  }

  /** Past a head larger than `x`, the split of the tail carries over. */
  lemma InsertPastHead<T>(x: T, t: seq<T>, key: T -> real, k: nat)
    requires 0 < k <= |t|
    requires key(t[0]) > key(x)
    requires Insert(x, t[1..], key) == t[1..][..k - 1] + [x] + t[1..][k - 1..]
    ensures Insert(x, t, key) == t[..k] + [x] + t[k..]
  {
    var rest := t[1..];
    assert Insert(x, t, key) == [t[0]] + Insert(x, rest, key);
    assert t[..k] == [t[0]] + rest[..k - 1];
    assert t[k..] == rest[k - 1..];
    ConsRegroups(t[0], rest[..k - 1], x, rest[k - 1..]);
  }

  lemma ConsRegroups<T>(y: T, a: seq<T>, x: T, b: seq<T>)
    ensures [y] + (a + [x] + b) == ([y] + a) + [x] + b
  {
  }

  /** `s.sort((a, b) => key(b) - key(a))`: largest key first, as an
      insertion sort. The result is ordered and is a permutation of `s`;
      `SortDescKeepsSorted` shows that it leaves ordered input, ties
      included, as it was. */
  function SortDesc<T>(s: seq<T>, key: T -> real): (r: seq<T>)
    ensures SortedDesc(r, key)
    ensures multiset(r) == multiset(s)
    ensures |r| == |s|
  {
    if s == [] then []
    else
      assert s == [s[0]] + s[1..];
      InsertSorted(s[0], SortDesc(s[1..], key), key);
      var r := Insert(s[0], SortDesc(s[1..], key), key);
      assert |r| == |multiset(r)| == |multiset(s)|;
      r
  }

  /** A sequence already in order, ties included, comes back unchanged:
      the sort does not reorder elements whose keys are equal. */
  lemma {:induction false} SortDescKeepsSorted<T>(s: seq<T>, key: T -> real)
    requires SortedDesc(s, key)
    ensures SortDesc(s, key) == s
  {
    if s != [] {
      assert s == [s[0]] + s[1..];
      assert SortedDesc(s[1..], key) by {
        forall i, j | 0 <= i < j < |s[1..]|
          ensures key(s[1..][i]) >= key(s[1..][j])
        {
          assert s[1..][i] == s[i + 1] && s[1..][j] == s[j + 1];
        }
      }
      SortDescKeepsSorted(s[1..], key);
      assert |s| > 1 ==> key(s[1..][0]) <= key(s[0]) by {
        if |s| > 1 { assert s[1..][0] == s[1]; }
      }
    }
  }

  /** The sort of a suffix inserts its first element into the sort of the
      rest. */
  lemma SortDescStep<T>(s: seq<T>, i: nat, key: T -> real)
    requires i < |s|
    ensures SortDesc(s[i..], key) == Insert(s[i], SortDesc(s[i + 1..], key), key)
  {
    assert s[i..][0] == s[i] && s[i..][1..] == s[i + 1..];
  }

  /** Sorting keeps every sum over the elements. */
  lemma SortDescKeepsSum<T>(s: seq<T>, key: T -> real, f: T -> real)
    ensures SumOf(SortDesc(s, key), f) == SumOf(s, f)
  {
    SumOfPermutation(SortDesc(s, key), s, f);
  }

  function Min(a: int, b: int): int { if a <= b then a else b }

  /** `s.slice(0, n)`. */
  function Take<T>(s: seq<T>, n: nat): seq<T> {
    s[..Min(n, |s|)]
  }

  /** The first `n` elements of a sorted sequence are its `n` largest: none
      left out is larger than any kept. */
  lemma TakeOfSortedIsLargest<T>(s: seq<T>, key: T -> real, n: nat)
    requires SortedDesc(s, key)
    ensures forall x, y :: x in Take(s, n) && y in s[Min(n, |s|)..] ==> key(x) >= key(y)
  {
    forall x, y | x in Take(s, n) && y in s[Min(n, |s|)..] ensures key(x) >= key(y) {
      var i :| 0 <= i < |Take(s, n)| && Take(s, n)[i] == x;
      var j :| 0 <= j < |s[Min(n, |s|)..]| && s[Min(n, |s|)..][j] == y;
      assert s[i] == x && s[Min(n, |s|) + j] == y;
    }
  }
}
