/** Sequences of row ids: ranges, duplicate-freedom, permutations of
    `0..m-1`, and the order-preserving removal the teachers use to move a
    batch to the front of their shuffled order. */
module IdSeq {

  /** `np.arange(n)` */
  function Range(n: nat): (r: seq<nat>)
    ensures |r| == n
    ensures forall i | 0 <= i < n :: r[i] == i
  {
    seq(n, i => i)
  }

  predicate Distinct<T(==)>(s: seq<T>) {
    forall i, j | 0 <= i < j < |s| :: s[i] != s[j]
  }

  predicate AllBelow(s: seq<nat>, m: nat) {
    forall i | 0 <= i < |s| :: s[i] < m
  }

  /** `p` holds each of `0..m-1` exactly once. */
  predicate IsPermutation(p: seq<nat>, m: nat) {
    multiset(p) == multiset(Range(m))
  }

  /** The elements of `s` that are not in `ex`, in their original order. */
  function Without(s: seq<nat>, ex: set<nat>): (r: seq<nat>)
    ensures forall x :: x in r <==> x in s && x !in ex
    ensures multiset(r) <= multiset(s)
  {
    if s == [] then []
    else
      assert s == [s[0]] + s[1..];
      if s[0] in ex then Without(s[1..], ex)
      else [s[0]] + Without(s[1..], ex)
  }

  /** The elements of `s` that are in `keep`, in their original order. */
  function KeepIn(s: seq<nat>, keep: set<nat>): (r: seq<nat>)
    ensures forall x :: x in r <==> x in s && x in keep
  {
    if s == [] then []
    else if s[0] in keep then [s[0]] + KeepIn(s[1..], keep)
    else KeepIn(s[1..], keep)
  }

  lemma {:induction false} SplitByMembership(s: seq<nat>, ex: set<nat>)
    ensures multiset(KeepIn(s, ex)) + multiset(Without(s, ex)) == multiset(s)
  {
    if s != [] {
      SplitByMembership(s[1..], ex);
      assert s == [s[0]] + s[1..];
    }
  }

  lemma {:induction false} RangeCount(m: nat, x: nat)
    ensures multiset(Range(m))[x] == if x < m then 1 else 0
  {
    if m > 0 {
      RangeCount(m - 1, x);
      assert Range(m) == Range(m - 1) + [m - 1];
    }
  }

  lemma {:induction false} DistinctCounts<T>(s: seq<T>)
    requires Distinct(s)
    ensures forall x :: multiset(s)[x] <= 1
  {
    if s != [] {
      DistinctCounts(s[1..]);
      assert s == [s[0]] + s[1..];
      assert s[0] !in s[1..];
    }
  }

  lemma {:induction false} CountsDistinct<T>(s: seq<T>)
    requires forall x :: multiset(s)[x] <= 1
    ensures Distinct(s)
  {
    forall i, j | 0 <= i < j < |s|
      ensures s[i] != s[j]
    {
      assert s == s[..i] + [s[i]] + s[i+1..j] + [s[j]] + s[j+1..];
      assert multiset(s)[s[i]] >= 1 + multiset([s[j]])[s[i]];
    }
  }

  /** A sequence whose elements come from a duplicate-free one is duplicate-free. */
  lemma {:induction false} SubMultisetDistinct<T>(s: seq<T>, t: seq<T>)
    requires multiset(s) <= multiset(t)
    requires Distinct(t)
    ensures Distinct(s)
  {
    DistinctCounts(t);
    CountsDistinct(s);
  }

  /** A permutation of `0..m-1` has length m, no duplicates, and only ids below m. */
  lemma {:induction false} PermutationFacts(p: seq<nat>, m: nat)
    requires IsPermutation(p, m)
    ensures |p| == m
    ensures Distinct(p)
    ensures AllBelow(p, m)
    ensures forall x: nat :: x in p <==> x < m
  {
    assert |p| == |multiset(p)| == |multiset(Range(m))| == m;
    forall x ensures multiset(p)[x] <= 1 {
      RangeCount(m, x);
    }
    CountsDistinct(p);
    forall x: nat ensures x in p <==> x < m {
      RangeCount(m, x);
      assert x in p <==> x in multiset(p);
    }
    forall i | 0 <= i < |p| ensures p[i] < m {
      assert p[i] in p;
    }
  }

  /** Distinct sequences with the same elements have the same multiset. */
  lemma {:induction false} SameElementsSameMultiset(s: seq<nat>, t: seq<nat>)
    requires Distinct(s) && Distinct(t)
    requires forall x :: x in s <==> x in t
    ensures multiset(s) == multiset(t)
  {
    DistinctCounts(s);
    DistinctCounts(t);
    forall x ensures multiset(s)[x] == multiset(t)[x] {
      assert x in s <==> x in multiset(s);
      assert x in t <==> x in multiset(t);
    }
  }

  lemma {:induction false} KeepInDistinct(s: seq<nat>, keep: set<nat>)
    requires Distinct(s)
    ensures Distinct(KeepIn(s, keep))
  {
    SplitByMembership(s, keep);
    SubMultisetDistinct(KeepIn(s, keep), s);
  }

  /** Moving a duplicate-free batch drawn from `p` to the front of `p`, the rest
      keeping its order, yields a permutation again, with the batch as prefix. */
  lemma {:induction false} FrontLoadPermutation(p: seq<nat>, m: nat, batch: seq<nat>)
    requires IsPermutation(p, m)
    requires Distinct(batch)
    requires AllBelow(batch, m)
    ensures IsPermutation(batch + Without(p, set x | x in batch), m)
  {
    var ex := set x | x in batch;
    PermutationFacts(p, m);
    SplitByMembership(p, ex);
    KeepInDistinct(p, ex);
    forall x ensures x in KeepIn(p, ex) <==> x in batch {
      if x in batch {
        var i :| 0 <= i < |batch| && batch[i] == x;
        assert x < m;
      }
    }
    SameElementsSameMultiset(KeepIn(p, ex), batch);
  }
}

/** Order-preserving sub-selection and per-class views of id sequences. */
module Subseqs {
  import opened IdSeq

  /** `s` can be obtained from `t` by deleting elements (order kept). */
  predicate IsSubseq(s: seq<nat>, t: seq<nat>)
    decreases |t|
  {
    if t == [] then s == []
    else (s != [] && s[|s|-1] == t[|t|-1] && IsSubseq(s[..|s|-1], t[..|t|-1]))
         || IsSubseq(s, t[..|t|-1])
  }

  lemma {:induction false} SubseqMultiset(s: seq<nat>, t: seq<nat>)
    requires IsSubseq(s, t)
    ensures multiset(s) <= multiset(t)
    decreases |t|
  {
    if t != [] {
      var t' := t[..|t|-1];
      assert t == t' + [t[|t|-1]];
      if s != [] && s[|s|-1] == t[|t|-1] && IsSubseq(s[..|s|-1], t') {
        SubseqMultiset(s[..|s|-1], t');
        assert s == s[..|s|-1] + [s[|s|-1]];
      } else {
        SubseqMultiset(s, t');
      }
    }
  }

  /** The ids in `s` whose label in `y` is `c`, in order. */
  function OfClass(s: seq<nat>, y: seq<nat>, c: nat): (r: seq<nat>)
    ensures |r| <= |s|
  {
    if s == [] then []
    else (if s[0] < |y| && y[s[0]] == c then [s[0]] else []) + OfClass(s[1..], y, c)
  }

  lemma {:induction false} OfClassAppend(a: seq<nat>, b: seq<nat>, y: seq<nat>, c: nat)
    ensures OfClass(a + b, y, c) == OfClass(a, y, c) + OfClass(b, y, c)
  {
    if a != [] {
      assert (a + b)[1..] == a[1..] + b;
      OfClassAppend(a[1..], b, y, c);
    } else {
      assert a + b == b;
    }
  }

  /** The number of ids of class `c` in a permutation of the rows is the number
      of rows labelled `c`. */
  lemma {:induction false} OfClassPermutation(p: seq<nat>, y: seq<nat>, c: nat)
    requires IsPermutation(p, |y|)
    ensures |OfClass(p, y, c)| == multiset(y)[c]
  {
    OfClassMultiset(p, Range(|y|), y, c);
    OfClassRange(|y|, y, c);
    assert y[..|y|] == y;
  }

  lemma {:induction false} OfClassRange(n: nat, y: seq<nat>, c: nat)
    requires n <= |y|
    ensures |OfClass(Range(n), y, c)| == multiset(y[..n])[c]
  {
    if n > 0 {
      OfClassRange(n - 1, y, c);
      assert Range(n) == Range(n - 1) + [n - 1];
      OfClassAppend(Range(n - 1), [n - 1], y, c);
      assert y[..n] == y[..n-1] + [y[n-1]];
    }
  }

  /** Class sizes depend only on the multiset of ids. */
  lemma {:induction false} OfClassMultiset(s: seq<nat>, t: seq<nat>, y: seq<nat>, c: nat)
    requires multiset(s) == multiset(t)
    ensures |OfClass(s, y, c)| == |OfClass(t, y, c)|
    decreases |s|
  {
    if s != [] {
      var a := s[0];
      assert a in multiset(t);
      var j :| 0 <= j < |t| && t[j] == a;
      var t' := t[..j] + t[j+1..];
      RemoveAt(s, t, j);
      OfClassMultiset(s[1..], t', y, c);
      OfClassRemoveAt(t, j, y, c);
      assert s == [a] + s[1..];
      OfClassAppend([a], s[1..], y, c);
    } else {
      assert |t| == |multiset(t)| == 0;
    }
  }

  lemma {:induction false} RemoveAt(s: seq<nat>, t: seq<nat>, j: nat)
    requires multiset(s) == multiset(t)
    requires s != [] && j < |t| && t[j] == s[0]
    ensures multiset(s[1..]) == multiset(t[..j] + t[j+1..])
  {
    assert s == [s[0]] + s[1..];
    assert t == t[..j] + [t[j]] + t[j+1..];
    var ms := multiset(s[1..]);
    var mt := multiset(t[..j] + t[j+1..]);
    assert multiset(s) == multiset([s[0]]) + ms;
    assert multiset(t) == multiset(t[..j]) + multiset([t[j]]) + multiset(t[j+1..]);
    assert mt == multiset(t[..j]) + multiset(t[j+1..]);
    assert [s[0]] == [t[j]];
    forall x ensures ms[x] == mt[x] {
      assert multiset(s)[x] == multiset([s[0]])[x] + ms[x];
      assert multiset(t)[x] == multiset([t[j]])[x] + mt[x];
    }
  }

  lemma {:induction false} OfClassRemoveAt(t: seq<nat>, j: nat, y: seq<nat>, c: nat)
    requires j < |t|
    ensures |OfClass(t, y, c)| == |OfClass(t[..j] + t[j+1..], y, c)| + |OfClass([t[j]], y, c)|
  {
    assert t == t[..j] + ([t[j]] + t[j+1..]);
    OfClassAppend(t[..j], [t[j]] + t[j+1..], y, c);
    OfClassAppend([t[j]], t[j+1..], y, c);
    OfClassAppend(t[..j], t[j+1..], y, c);
  }
}
