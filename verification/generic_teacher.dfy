/** The helpers every teacher shares: remembering the dataset, the ids of the
    rows a hypothesis gets wrong, its accuracy, and the default test ids. */
module GenericTeacher {
  import opened Results
  import opened IdSeq

  /** What `_start` remembers: the correct labels and the row ids `0..m-1`.
      The feature matrix enters only through its row count. */
  datatype Base = Base(y: seq<nat>, ids: seq<nat>)

  /** `_start`: the label vector and the feature matrix must have the same
      number of rows, or the assertion fails. */
  function Start(rowsX: nat, y: seq<nat>): (r: Result<Base>)
    ensures r.Ok? <==> rowsX == |y|
    ensures r.Ok? ==> r.value.y == y && IsPermutation(r.value.ids, |y|)
    ensures r.Ok? ==> |r.value.ids| == |y| && forall i | 0 <= i < |y| :: r.value.ids[i] == i
  {
    var ids := Range(|y|);
    assert IsPermutation(ids, |y|);
    if rowsX != |y| then Err(AssertionError("rows of X == rows of y"))
    else Ok(Base(y, ids))
  }

  predicate Increasing(s: seq<nat>) {
    forall i, j | 0 <= i < j < |s| :: s[i] < s[j]
  }

  /** `_get_wrong_labels_id`: the ids of the rows whose label in `h` differs
      from the correct one, in ascending order. */
  function WrongIds(y: seq<nat>, h: seq<nat>): (r: seq<nat>)
    requires |h| == |y|
    ensures Increasing(r) && AllBelow(r, |y|)
    ensures forall i: nat | i < |y| :: i in r <==> y[i] != h[i]
    ensures forall x :: x in r ==> x < |y|
    decreases |y|
  {
    if y == [] then []
    else
      var n := |y| - 1;
      var prev := WrongIds(y[..n], h[..n]);
      assert forall i: nat | i < n :: y[..n][i] == y[i] && h[..n][i] == h[i];
      prev + (if y[n] != h[n] then [n] else [])
  }

  /** Independent count of the rows where `h` disagrees with `y`. */
  function Mismatches(y: seq<nat>, h: seq<nat>): (k: nat)
    requires |h| == |y|
    ensures k <= |y|
    ensures k == 0 <==> y == h
  {
    if y == [] then 0
    else
      var rest := Mismatches(y[1..], h[1..]);
      assert y == h <==> y[0] == h[0] && y[1..] == h[1..] by {
        assert y == [y[0]] + y[1..] && h == [h[0]] + h[1..];
      }
      (if y[0] != h[0] then 1 else 0) + rest
  }

  /** The wrong ids are exactly as many as the mismatches. */
  lemma {:induction false} WrongIdsCount(y: seq<nat>, h: seq<nat>)
    requires |h| == |y|
    ensures |WrongIds(y, h)| == Mismatches(y, h)
    decreases |y|
  {
    if y != [] {
      var n := |y| - 1;
      assert y[..n] + [y[n]] == y && h[..n] + [h[n]] == h;
      WrongIdsCount(y[..n], h[..n]);
      MismatchesSnoc(y[..n], h[..n], y[n], h[n]);
      assert |WrongIds(y, h)| == |WrongIds(y[..n], h[..n])| + (if y[n] != h[n] then 1 else 0);
    }
  }

  lemma {:induction false} MismatchesSnoc(y: seq<nat>, h: seq<nat>, a: nat, b: nat)
    requires |h| == |y|
    ensures Mismatches(y + [a], h + [b]) == Mismatches(y, h) + (if a != b then 1 else 0)
    decreases |y|
  {
    if y == [] {
      assert (y + [a])[1..] == [] && (h + [b])[1..] == [];
    } else {
      assert (y + [a])[1..] == y[1..] + [a] && (h + [b])[1..] == h[1..] + [b];
      MismatchesSnoc(y[1..], h[1..], a, b);
    }
  }

  /** The fraction of rows a hypothesis gets right; an empty dataset divides
      by zero. */
  function Accuracy(y: seq<nat>, h: seq<nat>): (r: Result<real>)
    requires |h| == |y|
    ensures r.Ok? <==> |y| > 0
    ensures r.Ok? ==> 0.0 <= r.value <= 1.0
    ensures r.Ok? ==> (r.value == 1.0 <==> h == y)
    ensures r.Ok? ==> r.value == (|y| - Mismatches(y, h)) as real / |y| as real
  {
    if |y| == 0 then Err(ZeroDivisionError)
    else
      var wrong := WrongIds(y, h);
      WrongIdsCount(y, h);
      AccuracyFacts(|wrong|, |y|);
      Ok(1.0 - ErrorRate(|wrong|, |y|))
  }

  /** The fraction `w / n` of wrong answers among `n`. */
  function ErrorRate(w: nat, n: nat): real
    requires 0 < n
  {
    w as real / n as real
  }

  /** The arithmetic behind `Accuracy`: `1 - w/n` for `w` wrong rows of `n`. */
  lemma {:induction false} AccuracyFacts(w: nat, n: nat)
    requires 0 < n && w <= n
    ensures var a := 1.0 - w as real / n as real;
      0.0 <= a <= 1.0 && (a == 1.0 <==> w == 0) && a == (n - w) as real / n as real
  {
    var nr, wr := n as real, w as real;
    var q, p := wr / nr, (n - w) as real / nr;
    assert q * nr == wr;
    assert p * nr == nr - wr;
    Cancel(p, 1.0 - q, nr);
  }

  /** A product with a positive factor determines the other factor. */
  lemma {:induction false} Cancel(a: real, b: real, c: real)
    requires 0.0 < c && a * c == b * c
    ensures a == b
  {
    assert (a - b) * c == 0.0;
  }

  /** The default `get_new_test_ids`: every row id while nothing has been
      queried yet, nothing afterwards. */
  function DefaultTestIds(b: Base, testIds: seq<nat>): (r: seq<nat>)
    ensures testIds == [] && b.ids == Range(|b.y|) ==> |r| == |b.y| && forall i | 0 <= i < |r| :: r[i] == i
    ensures testIds == [] && b.ids == Range(|b.y|) ==> IsPermutation(r, |b.y|)
    ensures testIds != [] ==> r == []
  {
    if |testIds| == 0 then b.ids else []
  }

  /** An increasing sequence is determined by its elements: the order
      `_get_wrong_labels_id` returns is the only ascending one. */
  lemma {:induction false} IncreasingUnique(a: seq<nat>, b: seq<nat>)
    requires Increasing(a) && Increasing(b)
    requires forall x :: x in a <==> x in b
    ensures a == b
    decreases |a| + |b|
  {
    BothEmpty(a, b);
    if a != [] {
      var la, lb := a[|a| - 1], b[|b| - 1];
      LastIsMax(a);
      LastIsMax(b);
      assert la in b && lb in a;
      assert la == lb;
      var a', b' := a[..|a| - 1], b[..|b| - 1];
      forall x ensures x in a' <==> x in b' {
        assert x in a' <==> x in a && x != la;
        assert x in b' <==> x in b && x != lb;
      }
      IncreasingUnique(a', b');
      assert a == a[..|a| - 1] + [la] && b == b[..|b| - 1] + [lb];
    }
  }

  lemma {:induction false} BothEmpty(a: seq<nat>, b: seq<nat>)
    requires forall x :: x in a <==> x in b
    ensures a == [] <==> b == []
  {
    if a != [] {
      assert a[0] in b;
    }
    if b != [] {
      assert b[0] in a;
    }
  }

  lemma {:induction false} LastIsMax(s: seq<nat>)
    requires Increasing(s) && s != []
    ensures forall x :: x in s ==> x <= s[|s| - 1]
    ensures forall x :: x in s[..|s| - 1] <==> x in s && x != s[|s| - 1]
    ensures Increasing(s[..|s| - 1])
  {
    forall x | x in s ensures x <= s[|s| - 1] {
      var k :| 0 <= k < |s| && s[k] == x;
    }
    forall x ensures x in s[..|s| - 1] <==> x in s && x != s[|s| - 1] {
      if x in s && x != s[|s| - 1] {
        var k :| 0 <= k < |s| && s[k] == x;
        assert s[..|s| - 1][k] == x;
      }
    }
  }
}
