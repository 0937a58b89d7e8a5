/** Python and NumPy numeric and slicing conventions the teachers rely on:
    slice bounds that count from the end when negative, `np.round` (half to
    even), `int()` (truncation toward zero) and `np.ceil`. */
module PyOps {

  /** The position a slice bound `k` denotes in a sequence of length `n`:
      negative bounds count from the end, and both ends are clamped. */
  function Bound(k: int, n: nat): (r: nat)
    ensures r <= n
  {
    if k < 0 then (if k + n < 0 then 0 else k + n)
    else if k > n then n
    else k
  }

  /** `s[a:b]` with Python semantics (an empty slice when b lands before a). */
  function Slice<T>(s: seq<T>, a: int, b: int): seq<T>
  {
    var lo := Bound(a, |s|);
    var hi := Bound(b, |s|);
    if hi <= lo then [] else s[lo..hi]
  }

  /** `s[:k]` */
  function Take<T>(s: seq<T>, k: int): seq<T>
  {
    Slice(s, 0, k)
  }

  /** `s[k:]` */
  function Drop<T>(s: seq<T>, k: int): seq<T>
  {
    Slice(s, k, |s|)
  }

  /** `s[:k] + s[k:] == s` for every integer `k`, negative ones included. */
  lemma {:induction false} TakeDrop<T>(s: seq<T>, k: int)
    ensures Take(s, k) + Drop(s, k) == s
  {
    var j := Bound(k, |s|);
    assert Take(s, k) == s[..j];
    assert Drop(s, k) == s[j..];
  }

  /** A slice whose bounds are already inside the sequence is the plain subsequence. */
  lemma {:induction false} SliceInRange<T>(s: seq<T>, a: int, b: int)
    requires 0 <= a <= b <= |s|
    ensures Slice(s, a, b) == s[a..b]
  {
  }

  /** `np.ceil` on a real. */
  function Ceil(x: real): (r: int)
    ensures (r - 1) as real < x <= r as real
  {
    -((-x).Floor)
  }

  /** Python's `int()` on a float: truncation toward zero. */
  function Trunc(x: real): (r: int)
    ensures 0.0 <= x ==> r as real <= x < r as real + 1.0 && 0 <= r
    ensures x < 0.0 ==> r as real - 1.0 < x <= r as real && r <= 0
  {
    if x >= 0.0 then x.Floor else -((-x).Floor)
  }

  predicate IsEven(k: int) {
    k % 2 == 0
  }

  /** `np.round` to zero decimals: nearest integer, ties to the even one. */
  function RoundHalfEven(x: real): (r: int)
    ensures -0.5 <= x - r as real <= 0.5
    ensures (x - r as real == 0.5 || r as real - x == 0.5) ==> IsEven(r)
  {
    var f := x.Floor;
    var d := x - f as real;
    if d < 0.5 then f
    else if d > 0.5 then f + 1
    else if IsEven(f) then f
    else f + 1
  }

  /** Rounding never leaves an interval with integer ends. */
  lemma {:induction false} RoundBetween(x: real, lo: int, hi: int)
    requires lo as real <= x <= hi as real
    ensures lo <= RoundHalfEven(x) <= hi
  {
  }

  /** Rounding an integer gives it back. */
  lemma {:induction false} RoundInteger(k: int)
    ensures RoundHalfEven(k as real) == k
  {
  }

  /** The same bound with the factors the other way round, as `m * f`. */
  lemma {:induction false} FractionOfRev(f: real, m: real)
    requires 0.0 <= f <= 1.0 && 0.0 <= m
    ensures 0.0 <= m * f <= m
  {
    var p := m * f;
    assert m - p == m * (1.0 - f);
  }

  /** `f * n` for a count `n`, as `n` additions of `f`: it keeps the
      products of a real by a count out of the arithmetic the proofs see. */
  function Times(f: real, n: nat): real
    decreases n
  {
    if n == 0 then 0.0 else Times(f, n - 1) + f
  }

  /** `n` additions of `f` are the product `f * n`. */
  lemma {:induction false} TimesProduct(f: real, n: nat)
    ensures Times(f, n) == f * n as real
    decreases n
  {
    if n > 0 {
      TimesProduct(f, n - 1);
      assert f * n as real == f * (n - 1) as real + f;
    }
  }

  /** All of a count is the count. */
  lemma {:induction false} TimesOne(n: nat)
    ensures Times(1.0, n) == n as real
    decreases n
  {
    if n > 0 {
      TimesOne(n - 1);
    }
  }

  /** A fraction in [0, 1] of a count stays in [0, count]. */
  lemma {:induction false} TimesFraction(f: real, n: nat)
    requires 0.0 <= f <= 1.0
    ensures 0.0 <= Times(f, n) <= n as real
    decreases n
  {
    if n > 0 {
      TimesFraction(f, n - 1);
    }
  }

  /** `np.round(f * n)` for a fraction `f` in [0, 1] lies in `0..n`. */
  lemma {:induction false} RoundFraction(f: real, n: nat)
    requires 0.0 <= f <= 1.0
    ensures 0 <= RoundHalfEven(Times(f, n)) <= n
  {
    TimesFraction(f, n);
    RoundBetween(Times(f, n), 0, n);
  }
}
