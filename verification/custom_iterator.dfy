/** `CustomIterator`: a little-endian mixed-radix counter that enumerates
    every vector between the zero vector and a vector of upper bounds. */
module CustomIterator {
  import opened Results

  /** Every digit has at least one admissible value. */
  predicate NonNegative(ub: seq<int>) {
    forall i | 0 <= i < |ub| :: ub[i] >= 0
  }

  /** The bounds a list of candidate values can produce: its length minus
      one, so an empty list gives -1. */
  predicate AtLeastMinusOne(ub: seq<int>) {
    forall i | 0 <= i < |ub| :: ub[i] >= -1
  }

  /** `v` is a vector the counter can show: one digit per bound, each
      between 0 and its bound. */
  predicate InRange(v: seq<int>, ub: seq<int>) {
    |v| == |ub| && forall i | 0 <= i < |v| :: 0 <= v[i] <= ub[i]
  }

  /** The number of vectors under `ub`: the product of every ub_i + 1, which
      is 1 for no bounds at all. */
  function Product(ub: seq<int>): (p: int)
    ensures AtLeastMinusOne(ub) ==> p >= 0
    ensures NonNegative(ub) ==> p >= 1
  {
    if |ub| == 0 then 1
    else
      assert AtLeastMinusOne(ub) ==> AtLeastMinusOne(ub[1..]);
      assert NonNegative(ub) ==> NonNegative(ub[1..]);
      (ub[0] + 1) * Product(ub[1..])
  }

  /** `_product`: the running product, left to right. */
  method ProductOf(ub: seq<int>) returns (p: int)
    ensures p == Product(ub)
  {
    p := 1;
    for k := 0 to |ub|
      invariant p * Product(ub[k..]) == Product(ub)
    {
      assert ub[k..][1..] == ub[k + 1..];
      MulAssoc(p, ub[k] + 1, Product(ub[k + 1..]));
      p := p * (ub[k] + 1);
    }
    assert ub[|ub|..] == [];
  }

  lemma {:induction false} MulAssoc(a: int, b: int, c: int)
    ensures a * (b * c) == (a * b) * c
  {
  }

  /** A bound of -1, an empty list of candidates, leaves nothing to count. */
  lemma {:induction false} ProductZero(ub: seq<int>)
    requires AtLeastMinusOne(ub)
    ensures Product(ub) == 0 <==> exists i | 0 <= i < |ub| :: ub[i] == -1
  {
    if |ub| > 0 {
      var tail := ub[1..];
      assert AtLeastMinusOne(tail);
      ProductZero(tail);
      if exists i | 0 <= i < |tail| :: tail[i] == -1 {
        var i :| 0 <= i < |tail| && tail[i] == -1;
        assert ub[i + 1] == -1;
      }
      if exists i | 0 <= i < |ub| :: ub[i] == -1 {
        var i :| 0 <= i < |ub| && ub[i] == -1;
        if i > 0 {
          assert tail[i - 1] == -1;
        }
      }
    }
  }

  /** The number the digits of `v` stand for, digit 0 least significant. */
  function Value(v: seq<int>, ub: seq<int>): int
    requires |v| == |ub|
  {
    if |v| == 0 then 0 else v[0] + (ub[0] + 1) * Value(v[1..], ub[1..])
  }

  lemma {:induction false} MulLe(d: int, x: int, y: int)
    requires 0 <= d && x <= y
    ensures d * x <= d * y
  {
    assert d * y - d * x == d * (y - x);
  }

  /** Digit and carry of a mixed-radix step are unique. */
  lemma {:induction false} DigitSplit(a: int, b: int, x: int, y: int, d: int)
    requires 0 <= a < d && 0 <= b < d && a + d * x == b + d * y
    ensures a == b && x == y
  {
    assert d * (x - y) == b - a;
    MulAwayFromZero(d, x - y);
  }

  lemma {:induction false} MulAwayFromZero(d: int, t: int)
    requires 0 < d
    ensures t == 0 || d * t >= d || d * t <= -d
  {
    if t > 0 {
      MulLe(d, 1, t);
    } else if t < 0 {
      MulLe(d, t, -1);
    }
  }

  lemma {:induction false} DivBelow(k: int, d: int, p: int)
    requires 0 <= k && 0 < d && k < d * p
    ensures 0 <= k / d < p
  {
    if k / d >= p {
      MulLe(d, p, k / d);
    }
  }

  /** Value and range of a vector, split at its first digit. */
  lemma {:induction false} Cons(m: int, t: seq<int>, ub: seq<int>)
    requires |ub| > 0 && |t| == |ub| - 1
    ensures ([m] + t)[1..] == t
    ensures Value([m] + t, ub) == m + (ub[0] + 1) * Value(t, ub[1..])
    ensures InRange([m] + t, ub) <==> 0 <= m <= ub[0] && InRange(t, ub[1..])
  {
    assert ([m] + t)[1..] == t;
    if 0 <= m <= ub[0] && InRange(t, ub[1..]) {
      forall i | 0 < i < |ub|
        ensures 0 <= ([m] + t)[i] <= ub[i]
      {
        assert ([m] + t)[i] == t[i - 1] && ub[1..][i - 1] == ub[i];
      }
    }
    if InRange([m] + t, ub) {
      forall i | 0 <= i < |t|
        ensures 0 <= t[i] <= ub[1..][i]
      {
        assert ([m] + t)[i + 1] == t[i];
      }
    }
  }

  lemma {:induction false} PlaceBound(a: int, d: int, x: int, p: int)
    requires 0 <= a < d && 0 <= x < p
    ensures 0 <= a + d * x < d * p
  {
    MulLe(d, x, p - 1);
    MulLe(d, 0, x);
    assert d * (p - 1) == d * p - d;
  }

  /** Every vector in range stands for a number the counter reaches. */
  lemma {:induction false} ValueBound(v: seq<int>, ub: seq<int>)
    requires InRange(v, ub)
    ensures 0 <= Value(v, ub) < Product(ub)
  {
    if |v| > 0 {
      assert v == [v[0]] + v[1..];
      Cons(v[0], v[1..], ub);
      ValueBound(v[1..], ub[1..]);
      PlaceBound(v[0], ub[0] + 1, Value(v[1..], ub[1..]), Product(ub[1..]));
    }
  }

  /** Two vectors in range that stand for the same number are equal. */
  lemma {:induction false} ValueInjective(v: seq<int>, w: seq<int>, ub: seq<int>)
    requires InRange(v, ub) && InRange(w, ub) && Value(v, ub) == Value(w, ub)
    ensures v == w
  {
    if |v| > 0 {
      assert v == [v[0]] + v[1..] && w == [w[0]] + w[1..];
      Cons(v[0], v[1..], ub);
      Cons(w[0], w[1..], ub);
      DigitSplit(v[0], w[0], Value(v[1..], ub[1..]), Value(w[1..], ub[1..]), ub[0] + 1);
      ValueInjective(v[1..], w[1..], ub[1..]);
    }
  }

  lemma {:induction false} DivMod(k: int, d: int)
    requires 0 <= k && 0 < d
    ensures k == k % d + d * (k / d) && 0 <= k % d < d
  {
  }

  /** The vector in range that stands for `k`. */
  function Digits(k: int, ub: seq<int>): (r: seq<int>)
    requires NonNegative(ub) && 0 <= k < Product(ub)
    ensures InRange(r, ub) && Value(r, ub) == k
    decreases |ub|
  {
    if |ub| == 0 then []
    else
      var d := ub[0] + 1;
      assert NonNegative(ub[1..]);
      DivBelow(k, d, Product(ub[1..]));
      DivMod(k, d);
      var t := Digits(k / d, ub[1..]);
      Cons(k % d, t, ub);
      [k % d] + t
  }

  function Zeros(n: nat): (r: seq<int>)
    ensures |r| == n && forall i | 0 <= i < n :: r[i] == 0
  {
    seq(n, _ => 0)
  }

  /** Number 0 is the all-zero vector. */
  lemma {:induction false} DigitsZero(ub: seq<int>)
    requires NonNegative(ub)
    ensures Digits(0, ub) == Zeros(|ub|)
  {
    ZerosValue(ub);
    ValueInjective(Digits(0, ub), Zeros(|ub|), ub);
  }

  lemma {:induction false} ZerosValue(ub: seq<int>)
    requires NonNegative(ub)
    ensures InRange(Zeros(|ub|), ub) && Value(Zeros(|ub|), ub) == 0
  {
    if |ub| > 0 {
      assert NonNegative(ub[1..]);
      ZerosValue(ub[1..]);
      assert Zeros(|ub|)[1..] == Zeros(|ub| - 1);
    }
  }

  /** `_add_one` as a function: add one to digit 0 and carry while a digit
      passes its bound, except out of the last digit, which keeps growing. */
  function Successor(v: seq<int>, ub: seq<int>): (r: seq<int>)
    requires |v| == |ub| > 0
    ensures |r| == |v|
  {
    if v[0] + 1 > ub[0] && |v| > 1 then [0] + Successor(v[1..], ub[1..])
    else [v[0] + 1] + v[1..]
  }

  /** `_add_one`, the in-place loop: it computes `Successor`. */
  method AddOne(v: seq<int>, ub: seq<int>) returns (w: seq<int>)
    requires |v| == |ub| > 0
    ensures w == Successor(v, ub)
  {
    var n := |v|;
    w := v[0 := v[0] + 1];
    SuccessorCarry(v, ub);
    assert w == [v[0] + 1] + v[1..];
    var i := 0;
    while w[i] > ub[i] && i < n - 1
      invariant 0 <= i < n && |w| == n
      decreases n - i
      invariant Successor(v, ub) == w[..i] + Carry(w[i..], ub[i..])
    {
      CarryStep(w, ub, i);
      w, i := w[i := 0][i + 1 := w[i + 1] + 1], i + 1;
    }
    assert w[i..] == [w[i]] + w[i + 1..];
    assert w == w[..i] + w[i..];
  }

  /** One turn of the carry loop: digit i wraps to 0 and i + 1 goes up. */
  lemma {:induction false} CarryStep(w: seq<int>, ub: seq<int>, i: int)
    requires |w| == |ub| && 0 <= i < |w| - 1 && w[i] > ub[i]
    ensures var w' := w[i := 0][i + 1 := w[i + 1] + 1];
      w[..i] + Carry(w[i..], ub[i..]) == w'[..i + 1] + Carry(w'[i + 1..], ub[i + 1..])
  {
    var w' := w[i := 0][i + 1 := w[i + 1] + 1];
    assert w[i..][1..] == w[i + 1..] && w[i..][2..] == w[i + 2..];
    assert w'[..i + 1] == w[..i] + [0];
    assert w'[i + 1..] == [w[i + 1] + 1] + w[i + 2..];
    assert ub[i..][1..] == ub[i + 1..];
    assert Carry(w[i..], ub[i..]) == [0] + Carry(w'[i + 1..], ub[i + 1..]);
    SeqAssoc(w[..i], [0], Carry(w'[i + 1..], ub[i + 1..]));
  }

  lemma {:induction false} SeqAssoc(a: seq<int>, b: seq<int>, c: seq<int>)
    ensures a + (b + c) == (a + b) + c
  {
  }

  /** The carry loop once digit 0 of `w` has been increased. */
  ghost function Carry(w: seq<int>, ub: seq<int>): seq<int>
    requires |w| == |ub| > 0
    decreases |w|
  {
    if w[0] > ub[0] && |w| > 1 then [0] + Carry([w[1] + 1] + w[2..], ub[1..]) else w
  }

  lemma {:induction false} SuccessorCarry(v: seq<int>, ub: seq<int>)
    requires |v| == |ub| > 0
    ensures Successor(v, ub) == Carry([v[0] + 1] + v[1..], ub)
  {
    if v[0] + 1 > ub[0] && |v| > 1 {
      SuccessorCarry(v[1..], ub[1..]);
      assert ([v[0] + 1] + v[1..])[2..] == v[1..][1..];
    }
  }

  /** Adding one to a vector in range adds one to the number it stands for,
      the overflow of the last digit included. */
  lemma {:induction false} SuccessorValue(v: seq<int>, ub: seq<int>)
    requires InRange(v, ub) && |v| > 0
    ensures Value(Successor(v, ub), ub) == Value(v, ub) + 1
  {
    var r := Successor(v, ub);
    if v[0] + 1 > ub[0] && |v| > 1 {
      assert InRange(v[1..], ub[1..]);
      SuccessorValue(v[1..], ub[1..]);
      assert r[1..] == Successor(v[1..], ub[1..]);
      var d, x := ub[0] + 1, Value(v[1..], ub[1..]);
      assert d * (x + 1) == d * x + d;
    } else {
      assert r[1..] == v[1..];
    }
  }

  /** Below the last number, adding one stays in range. */
  lemma {:induction false} SuccessorInRange(v: seq<int>, ub: seq<int>)
    requires InRange(v, ub) && |v| > 0 && Value(v, ub) + 1 < Product(ub)
    ensures InRange(Successor(v, ub), ub)
  {
    var r := Successor(v, ub);
    var d, x, p := ub[0] + 1, Value(v[1..], ub[1..]), Product(ub[1..]);
    if v[0] + 1 > ub[0] && |v| > 1 {
      assert InRange(v[1..], ub[1..]);
      assert d * (x + 1) == d * x + d;
      if x + 1 >= p {
        MulLe(d, p, x + 1);
      }
      SuccessorInRange(v[1..], ub[1..]);
      assert r[1..] == Successor(v[1..], ub[1..]);
    } else if |v| == 1 {
      assert x == 0 && p == 1;
    }
  }

  /** Adding one to the vector for `k` gives the vector for `k + 1`. */
  lemma {:induction false} SuccessorDigits(k: int, ub: seq<int>)
    requires NonNegative(ub) && 0 <= k && k + 1 < Product(ub)
    ensures |ub| > 0 && Successor(Digits(k, ub), ub) == Digits(k + 1, ub)
  {
    var v := Digits(k, ub);
    SuccessorValue(v, ub);
    SuccessorInRange(v, ub);
    ValueInjective(Successor(v, ub), Digits(k + 1, ub), ub);
  }

  /** An iterator: its bounds, `qtd_itens`, how many vectors it has handed
      out, and the digits it shows next (absent until `__iter__`). */
  datatype It = It(ub: seq<int>, qtd: int, i: int, v: Option<seq<int>>)

  /** What every iterator state keeps: the digits match the bounds. */
  predicate Valid(it: It) {
    it.v.Some? ==> |it.v.value| == |it.ub|
  }

  /** The constructor: nothing handed out, no digits yet. */
  function New(ub: seq<int>): (r: It)
    ensures Valid(r) && r.ub == ub && r.i == 0 && r.v.None?
    ensures NonNegative(ub) ==> r.qtd >= 1
  {
    It(ub, Product(ub), 0, None)
  }

  /** `__iter__`: back to the zero vector with nothing handed out. */
  function Iter(it: It): (r: It)
    ensures Valid(r) && r.ub == it.ub && r.qtd == it.qtd && r.i == 0
    ensures r.v.Some? && |r.v.value| == |it.ub| && Value(r.v.value, it.ub) == 0
    ensures r.v.Some? && (InRange(r.v.value, it.ub) <==> NonNegative(it.ub))
  {
    ZerosOf(it.ub);
    it.(v := Some(Zeros(|it.ub|)), i := 0)
  }

  lemma {:induction false} ZerosOf(ub: seq<int>)
    ensures InRange(Zeros(|ub|), ub) == NonNegative(ub) && Value(Zeros(|ub|), ub) == 0
  {
    if NonNegative(ub) {
      ZerosValue(ub);
    } else {
      var i :| 0 <= i < |ub| && ub[i] < 0;
      assert Zeros(|ub|)[i] > ub[i];
      ZerosValueAny(ub);
    }
  }

  lemma {:induction false} ZerosValueAny(ub: seq<int>)
    ensures Value(Zeros(|ub|), ub) == 0
  {
    if |ub| > 0 {
      ZerosValueAny(ub[1..]);
      assert Zeros(|ub|)[1..] == Zeros(|ub| - 1);
    }
  }

  /** `qtd_left`. */
  function QtdLeft(it: It): int {
    it.qtd - it.i
  }

  /** `__next__`: while something is left, hand out a copy of the digits
      and add one to them; the count goes down by one. */
  function Next(it: It): (r: Result<(It, seq<int>)>)
    requires Valid(it)
    ensures r == Err(StopIteration) <==> QtdLeft(it) == 0
    ensures r.Err? && QtdLeft(it) != 0 ==> it.v.None?
    ensures r.Ok? ==> it.v.Some?
    ensures r.Ok? ==> (it.v.Some? && r.value.0.v.Some? && Valid(r.value.0) && r.value.0.ub == it.ub && r.value.0.qtd == it.qtd
                       && QtdLeft(r.value.0) == QtdLeft(it) - 1 && r.value.1 == it.v.value)
  {
    if QtdLeft(it) == 0 then Err(StopIteration)
    else if it.v.None? then Err(AttributeError("_v"))
    else
      var v := it.v.value;
      if |v| > 0 then Ok((it.(i := it.i + 1, v := Some(Successor(v, it.ub))), v))
      else Ok((it.(i := it.i + 1), v))
  }

  /** After a successful `__next__` the digits stand for one more. */
  lemma {:induction false} NextAddsOne(it: It)
    requires Valid(it) && Next(it).Ok? && |it.ub| > 0 && InRange(it.v.value, it.ub)
    ensures Value(Next(it).value.0.v.value, it.ub) == Value(it.v.value, it.ub) + 1
  {
    SuccessorValue(it.v.value, it.ub);
  }

  /** `n` calls of `__next__`, stopping at the first error. */
  function Collect(it: It, n: nat): (r: Result<(It, seq<seq<int>>)>)
    requires Valid(it)
    ensures r.Ok? ==> Valid(r.value.0) && |r.value.1| == n
    decreases n
  {
    if n == 0 then Ok((it, []))
    else
      var (it', v) :- Next(it);
      var (it'', vs) :- Collect(it', n - 1);
      Ok((it'', [v] + vs))
  }

  /** The iterator has handed out `k` vectors and shows the vector for `k`. */
  predicate At(it: It, ub: seq<int>, k: int) {
    NonNegative(ub) && 0 <= k && it.ub == ub && it.qtd == Product(ub) && it.i == k
    && it.v.Some? && |it.v.value| == |ub|
    && (k < Product(ub) ==> it.v.value == Digits(k, ub))
  }

  /** A fresh iterator shows the vector for 0. */
  lemma {:induction false} Restart(ub: seq<int>)
    requires NonNegative(ub)
    ensures At(Iter(New(ub)), ub, 0)
  {
    DigitsZero(ub);
  }

  /** One call of `__next__` hands out the vector for `k` and moves on. */
  lemma {:induction false} Step(it: It, ub: seq<int>, k: int)
    requires At(it, ub, k) && k < Product(ub)
    ensures Next(it).Ok? && Next(it).value.1 == Digits(k, ub) && At(Next(it).value.0, ub, k + 1)
  {
    if k + 1 < Product(ub) {
      SuccessorDigits(k, ub);
    }
  }

  /** After the last vector, `__next__` raises StopIteration. */
  lemma {:induction false} Exhausted(it: It, ub: seq<int>)
    requires At(it, ub, Product(ub))
    ensures Next(it) == Err(StopIteration)
  {
  }

  /** `n` more calls succeed and leave the iterator at `q = k + n`. */
  lemma {:induction false} CollectState(it: It, ub: seq<int>, k: int, n: nat, q: int)
    requires At(it, ub, k) && q == k + n && q <= Product(ub)
    ensures Collect(it, n).Ok? && At(Collect(it, n).value.0, ub, q)
    decreases n
  {
    if n > 0 {
      Step(it, ub, k);
      var next := Next(it).value.0;
      CollectState(next, ub, k + 1, n - 1, q);
      CollectCons(it, n);
      AtSame(Collect(it, n).value.0, Collect(next, n - 1).value.0, ub, q);
    } else {
      AtMoved(it, ub, k, q);
    }
  }

  lemma {:induction false} AtSame(it: It, it': It, ub: seq<int>, k: int)
    requires it == it' && At(it', ub, k)
    ensures At(it, ub, k)
  {
  }

  lemma {:induction false} AtMoved(it: It, ub: seq<int>, k: int, k': int)
    requires At(it, ub, k) && k == k'
    ensures At(it, ub, k')
  {
  }

  /** ... and hand out the vectors for k, k + 1, ..., k + n - 1. */
  lemma {:induction false} CollectFrom(it: It, ub: seq<int>, k: int, n: nat)
    requires At(it, ub, k) && k + n <= Product(ub)
    ensures Collect(it, n).Ok? && CountsFrom(Collect(it, n).value.1, ub, k)
    decreases n
  {
    if n > 0 {
      Step(it, ub, k);
      var next := Next(it).value;
      CollectFrom(next.0, ub, k + 1, n - 1);
      CollectCons(it, n);
      Shifted(next.1, Collect(next.0, n - 1).value.1, ub, k);
    }
  }

  /** The vectors for k, k + 1, ... in a row. */
  predicate CountsFrom(outs: seq<seq<int>>, ub: seq<int>, k: int) {
    NonNegative(ub) && 0 <= k && k + |outs| <= Product(ub)
    && forall j | 0 <= j < |outs| :: outs[j] == Digits(k + j, ub)
  }

  /** One step of `Collect` taken apart. */
  lemma {:induction false} CollectCons(it: It, n: nat)
    requires Valid(it) && n > 0 && Next(it).Ok? && Collect(Next(it).value.0, n - 1).Ok?
    ensures var rest := Collect(Next(it).value.0, n - 1).value;
      Collect(it, n) == Ok((rest.0, [Next(it).value.1] + rest.1))
  {
  }

  lemma {:induction false} Shifted(d: seq<int>, rest: seq<seq<int>>, ub: seq<int>, k: int)
    requires 0 <= k < Product(ub) && NonNegative(ub)
    requires d == Digits(k, ub) && CountsFrom(rest, ub, k + 1)
    ensures CountsFrom([d] + rest, ub, k)
  {
    var outs := [d] + rest;
    forall j | 0 < j < |outs|
      ensures outs[j] == Digits(k + j, ub)
    {
      assert outs[j] == rest[j - 1];
    }
  }

  /** The whole enumeration: `qtd_itens` vectors, vector j standing for j
      (so in counting order, each handed out once), every vector in range
      among them, then StopIteration. */
  lemma {:induction false} Enumerates(ub: seq<int>)
    requires NonNegative(ub)
    ensures var r := Collect(Iter(New(ub)), Product(ub));
      r.Ok? && Next(r.value.0) == Err(StopIteration)
      && (forall j | 0 <= j < Product(ub) :: InRange(r.value.1[j], ub) && Value(r.value.1[j], ub) == j)
      && (forall w | InRange(w, ub) :: 0 <= Value(w, ub) < Product(ub) && r.value.1[Value(w, ub)] == w)
  {
    Restart(ub);
    var p := Product(ub);
    CollectState(Iter(New(ub)), ub, 0, p, p);
    CollectFrom(Iter(New(ub)), ub, 0, p);
    var r := Collect(Iter(New(ub)), p);
    Exhausted(r.value.0, ub);
    forall w | InRange(w, ub)
      ensures 0 <= Value(w, ub) < p && r.value.1[Value(w, ub)] == w
    {
      ValueBound(w, ub);
      ValueInjective(r.value.1[Value(w, ub)], w, ub);
    }
  }

  /** A bound of -1 anywhere: the fresh iterator is already exhausted. */
  lemma {:induction false} NothingToEnumerate(ub: seq<int>, i: int)
    requires AtLeastMinusOne(ub) && 0 <= i < |ub| && ub[i] == -1
    ensures Next(Iter(New(ub))) == Err(StopIteration)
  {
    ProductZero(ub);
  }

  /** `_is_lower_or_equal`: the length assertion, then a componentwise
      comparison where the first failure wins. */
  method IsLowerOrEqual(v1: seq<int>, v2: seq<int>) returns (r: Result<bool>)
    ensures r.Err? <==> |v1| != |v2|
    ensures r.Err? ==> r.error == AssertionError("len(v1) == len(v2)")
    ensures r.Ok? ==> (r.value <==> forall i | 0 <= i < |v1| :: v1[i] <= v2[i])
  {
    if |v1| != |v2| {
      return Err(AssertionError("len(v1) == len(v2)"));
    }
    for i := 0 to |v1|
      invariant forall j | 0 <= j < i :: v1[j] <= v2[j]
    {
      if v1[i] > v2[i] {
        return Ok(false);
      }
    }
    return Ok(true);
  }
}
