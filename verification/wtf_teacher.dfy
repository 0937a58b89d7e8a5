/** The weighting teacher: every round it looks at the misclassified rows not
    taught yet, scales their weights by the least power of two that lifts
    their total to at least 1, and teaches the rows hit by a sweep of sorted
    random draws over the cumulative weights, never growing the training set
    past `S_max`. */
module WtfTeacher {
  import opened Results
  import opened IdSeq
  import opened PyOps
  import GenericTeacher
  import Sampler
  import DoubleTeacher

  const DefaultFracStart := 0.01
  const DefaultFracStop := 1.0

  /** The constructor's arguments that the model keeps. */
  datatype Config = Config(fracStart: real, fracStop: real)

  /** The constructor: both fractions must lie in [0, 1] with the start not
      above the stop, or an assertion fails. */
  function Init(fracStart: real, fracStop: real): (r: Result<Config>)
    ensures r.Ok? <==> 0.0 <= fracStart <= fracStop <= 1.0
    ensures r.Ok? ==> r.value == Config(fracStart, fracStop)
    ensures r.Err? ==> r.error.AssertionError?
  {
    var _ :- Check(0.0 <= fracStart <= 1.0, "frac start most be in [0, 1]");
    var _ :- Check(fracStart <= fracStop <= 1.0, "frac start most be in [frac_start, 1]");
    Ok(Config(fracStart, fracStop))
  }

  /** Teacher state. `sMax` is `S_max_size`, `s` is `S_current_size`,
      `selected` holds the ids taught so far, `n` is the number of draws per
      attempt, and `lastAccuracy` is missing (an AttributeError) until the
      first misclassification count. The weights start at `1 / (2m)`, are
      only ever multiplied by powers of two or set back to `1 / (2m)`, so
      each is a whole number of `1 / (2m)`: `units` holds those numbers and
      `Weights` turns them back into the weights. */
  datatype Wtf = Wtf(
    config: Config, base: GenericTeacher.Base, sMax: int, numIters: nat,
    selected: set<nat>, units: seq<nat>, n: nat, s: nat, lastAccuracy: Result<real>)
  {
    function M(): nat { |base.y| }

    /** What every step keeps: a non-empty dataset, one positive weight per
        row, at least one draw per attempt, and a taught count that is the
        number of distinct taught ids. */
    predicate Valid() {
      0 < M() && |units| == M() && Positive(units) && 1 <= n
      && (forall x | x in selected :: x < M()) && s == |selected|
    }
  }

  predicate Positive(c: seq<nat>) {
    forall i | 0 <= i < |c| :: 1 <= c[i]
  }

  /** The weights `units[i] / (2m)`. */
  function Weights(units: seq<nat>): (r: seq<real>)
    ensures |r| == |units|
  {
    seq(|units|, i requires 0 <= i < |units| => units[i] as real / (2.0 * |units| as real))
  }

  /** One unit per row: every weight `1 / (2m)`. */
  function Ones(m: nat): (r: seq<nat>)
    ensures |r| == m && Positive(r)
  {
    seq(m, _ => 1)
  }

  /** The starting weights are the `np.full(m, 1 / (2m))` of `WTFTeacher.start`. */
  lemma {:induction false} OnesWeights(m: nat)
    requires 0 < m
    ensures forall i | 0 <= i < m :: Weights(Ones(m))[i] == 1.0 / (2.0 * m as real)
  {
  }

  /** `start`: the shared `_start`, then `S_max = int(m * frac_stop)`, every
      weight `1 / (2m)`, nothing selected, one draw per attempt. With no rows
      the weight divides by zero. */
  function Start(c: Config, rowsX: nat, y: seq<nat>): (r: Result<Wtf>)
    ensures r.Ok? <==> rowsX == |y| && 0 < |y|
    ensures rowsX == |y| && |y| == 0 ==> r == Err(ZeroDivisionError)
    ensures r.Ok? ==> r.value.Valid() && r.value.base.y == y && r.value.config == c
    ensures r.Ok? ==> r.value.sMax == Trunc(|y| as real * c.fracStop) && r.value.units == Ones(|y|)
    ensures r.Ok? && 0.0 <= c.fracStop <= 1.0 ==> 0 <= r.value.sMax <= |y|
    ensures r.Ok? ==> r.value.s == 0 && r.value.selected == {} && r.value.n == 1 && r.value.numIters == 0
  {
    var base :- GenericTeacher.Start(rowsX, y);
    if |y| == 0 then Err(ZeroDivisionError)
    else
      TruncFraction(c.fracStop, |y|);
      Ok(Wtf(c, base, Trunc(|y| as real * c.fracStop), 0, {}, Ones(|y|), 1, 0,
             Err(AttributeError("last_accuracy"))))
  }

  /** `int(m * f)` for a fraction `f` in [0, 1] lies in `0..m`. */
  lemma {:induction false} TruncFraction(f: real, m: nat)
    ensures 0.0 <= f <= 1.0 ==> 0 <= Trunc(m as real * f) <= m
  {
    var x := m as real;
    if 0.0 <= f <= 1.0 {
      FractionOfRev(f, x);
      var k := Trunc(x * f);
      assert k as real <= x;
    }
  }

  /** `_get_delta_h`: the misclassified ids not taught yet, in ascending
      order; on the way it records the accuracy `(m - wrong) / m`. */
  function DeltaH(t: Wtf, h: seq<nat>): (r: (Wtf, seq<nat>))
    requires t.Valid() && |h| == t.M()
    ensures r.0 == t.(lastAccuracy := r.0.lastAccuracy)
    ensures r.0.lastAccuracy == GenericTeacher.Accuracy(t.base.y, h)
    ensures GenericTeacher.Increasing(r.1) && AllBelow(r.1, t.M())
    ensures forall x: nat | x < t.M() :: x in r.1 <==> t.base.y[x] != h[x] && x !in t.selected
  {
    (Record(t, h), Untaught(t, h))
  }

  /** The accuracy `_get_delta_h` records. */
  function Record(t: Wtf, h: seq<nat>): (r: Wtf)
    requires t.Valid() && |h| == t.M()
    ensures r == t.(lastAccuracy := r.lastAccuracy)
    ensures r.lastAccuracy == GenericTeacher.Accuracy(t.base.y, h)
  {
    var y := t.base.y;
    RecordedAccuracy(y, h);
    t.(lastAccuracy := Ok(Share(|y| - |GenericTeacher.WrongIds(y, h)|, |y|)))
  }

  /** The ids `_get_delta_h` returns. */
  function Untaught(t: Wtf, h: seq<nat>): (r: seq<nat>)
    requires t.Valid() && |h| == t.M()
    ensures GenericTeacher.Increasing(r) && AllBelow(r, t.M())
    ensures forall x: nat | x < t.M() :: x in r <==> t.base.y[x] != h[x] && x !in t.selected
  {
    var wrong := GenericTeacher.WrongIds(t.base.y, h);
    var delta := Without(wrong, t.selected);
    WithoutIncreasing(wrong, t.selected);
    assert forall i | 0 <= i < |delta| :: delta[i] in wrong;
    delta
  }

  /** `(m - wrong) / m` is the shared accuracy. */
  lemma {:induction false} RecordedAccuracy(y: seq<nat>, h: seq<nat>)
    requires |h| == |y| && 0 < |y|
    ensures |GenericTeacher.WrongIds(y, h)| <= |y|
    ensures GenericTeacher.Accuracy(y, h) == Ok(Share(|y| - |GenericTeacher.WrongIds(y, h)|, |y|))
  {
    GenericTeacher.WrongIdsCount(y, h);
    ShareOf(|GenericTeacher.WrongIds(y, h)|, |y|);
    RightShare(y, h);
  }

  /** The shared accuracy in terms of the wrong ids. */
  lemma {:induction false} RightShare(y: seq<nat>, h: seq<nat>)
    requires |h| == |y| && 0 < |y|
    ensures GenericTeacher.Accuracy(y, h)
            == Ok(1.0 - GenericTeacher.ErrorRate(|GenericTeacher.WrongIds(y, h)|, |y|))
  {
  }

  /** The fraction `k / n`, as `WTFTeacher._get_delta_h` computes `(m - wrong) / m`. */
  function Share(k: nat, n: nat): real
    requires 0 < n
  {
    k as real / n as real
  }

  lemma {:induction false} ShareOf(w: nat, n: nat)
    requires 0 < n && w <= n
    ensures 1.0 - GenericTeacher.ErrorRate(w, n) == Share(n - w, n)
  {
    GenericTeacher.AccuracyFacts(w, n);
  }

  /** Removing ids keeps an ascending sequence ascending. */
  lemma {:induction false} WithoutIncreasing(s: seq<nat>, ex: set<nat>)
    requires GenericTeacher.Increasing(s)
    ensures GenericTeacher.Increasing(Without(s, ex))
  {
    if s != [] {
      var rest := Without(s[1..], ex);
      WithoutIncreasing(s[1..], ex);
      if s[0] !in ex {
        assert Without(s, ex) == [s[0]] + rest;
        forall j | 0 <= j < |rest|
          ensures s[0] < rest[j]
        {
          assert rest[j] in s[1..];
        }
      }
    }
  }

  /** `_keep_going`: the labels must cover every row; the teacher goes on
      while some misclassified id is untaught and the training set is below
      `S_max`. */
  function KeepGoing(t: Wtf, h: seq<nat>): (r: Result<(Wtf, bool)>)
    requires t.Valid()
    ensures r.Ok? <==> |h| == t.M()
    ensures r.Err? ==> r.error.AssertionError?
    ensures r.Ok? ==> r.value.0 == DeltaH(t, h).0
    ensures r.Ok? ==> (r.value.1 <==> DeltaH(t, h).1 != [] && t.s < t.sMax)
  {
    var _ :- Check(|h| == t.M(), "len(test_labels) == m");
    var d := DeltaH(t, h);
    if |d.1| == 0 then Ok((d.0, false))
    else if t.s >= t.sMax then Ok((d.0, false))
    else Ok((d.0, true))
  }

  /** `np.sum(w[ids])` over real weights. */
  function Mass(w: seq<real>, ids: seq<nat>): real
    requires AllBelow(ids, |w|)
  {
    if ids == [] then 0.0 else w[ids[0]] + Mass(w, ids[1..])
  }

  /** The same sum counted in units of `1 / (2m)`. */
  function Units(c: seq<nat>, ids: seq<nat>): nat
    requires AllBelow(ids, |c|)
  {
    if ids == [] then 0 else c[ids[0]] + Units(c, ids[1..])
  }

  /** The mass of the weights is their number of units over `2m`. */
  lemma {:induction false} MassUnits(c: seq<nat>, ids: seq<nat>)
    requires 0 < |c| && AllBelow(ids, |c|)
    ensures Mass(Weights(c), ids) == Units(c, ids) as real / (2.0 * |c| as real)
  {
    if ids != [] {
      MassUnits(c, ids[1..]);
      SumOver(c[ids[0]] as real, Units(c, ids[1..]) as real, 2.0 * |c| as real);
    }
  }

  lemma {:induction false} SumOver(a: real, b: real, d: real)
    requires 0.0 < d
    ensures a / d + b / d == (a + b) / d
  {
    var p := a / d;
    var q := b / d;
    assert p * d == a && q * d == b;
    var e := (p + q) * d;
    assert e == a + b;
  }

  /** The restart test `v >= 1.0` of `WTFTeacher._get_new_weights_and_delta_w`, in units: at least `2m`. */
  lemma {:induction false} Heavy(c: seq<nat>, ids: seq<nat>)
    requires 0 < |c| && AllBelow(ids, |c|)
    ensures 1.0 <= Mass(Weights(c), ids) <==> 2 * |c| <= Units(c, ids)
  {
    MassUnits(c, ids);
    AtLeastOne(Units(c, ids) as real, 2.0 * |c| as real);
  }

  lemma {:induction false} AtLeastOne(a: real, d: real)
    requires 0.0 < d
    ensures 1.0 <= a / d <==> d <= a
  {
    var q := a / d;
    assert q * d == a;
    var e := (q - 1.0) * d;
    assert e == a - d;
    if 1.0 <= q {
      MulNonneg(q - 1.0, d);
    } else {
      PositiveFactor(d, 1.0 - q);
      var f := (1.0 - q) * d;
      assert f == d - a;
    }
  }

  lemma {:induction false} MulNonneg(a: real, b: real)
    requires 0.0 <= a && 0.0 <= b
    ensures 0.0 <= a * b
  {
  }

  lemma {:induction false} PositiveFactor(a: real, b: real)
    requires 0.0 < a && 0.0 < b
    ensures 0.0 < b * a
  {
  }

  /** Positive units give a positive count to any non-empty id list. */
  lemma {:induction false} UnitsPositive(c: seq<nat>, ids: seq<nat>)
    requires AllBelow(ids, |c|) && Positive(c) && ids != []
    ensures 0 < Units(c, ids)
  {
    if |ids| > 1 {
      UnitsPositive(c, ids[1..]);
    }
  }

  /** Under the starting weights every id counts one unit. */
  lemma {:induction false} UnitsOnes(m: nat, ids: seq<nat>)
    requires AllBelow(ids, m)
    ensures Units(Ones(m), ids) == |ids|
  {
    if ids != [] {
      UnitsOnes(m, ids[1..]);
    }
  }

  /** Scaling every listed weight by `k` scales their units by `k`. */
  lemma {:induction false} UnitsScaled(c: seq<nat>, c': seq<nat>, ids: seq<nat>, k: nat)
    requires AllBelow(ids, |c|) && |c'| == |c|
    requires forall i | 0 <= i < |ids| :: c'[ids[i]] == k * c[ids[i]]
    ensures Units(c', ids) == k * Units(c, ids)
  {
    if ids != [] {
      UnitsScaled(c, c', ids[1..], k);
      assert k * c[ids[0]] + k * Units(c, ids[1..]) == k * (c[ids[0]] + Units(c, ids[1..]));
    }
  }

  predicate IsPow2(k: nat) {
    k == 1 || (k % 2 == 0 && 0 < k && IsPow2(k / 2))
  }

  /** The `while v * k < 1: k *= 2` loop in units, from a given `k`: the
      first `k` of the doubling sequence with `total * k >= target`. */
  function Doubled(total: nat, target: nat, k: nat): (r: nat)
    requires 1 <= total && 1 <= k
    ensures k <= r && target <= total * r
    ensures r == k || (r % 2 == 0 && total * (r / 2) < target && k <= r / 2)
    ensures IsPow2(k) ==> IsPow2(r)
    decreases target - total * k
  {
    if target <= total * k then k
    else
      assert total * (2 * k) == 2 * (total * k);
      Doubled(total, target, 2 * k)
  }

  /** `k` of `_get_new_weights_and_delta_w`: the least power of two that
      lifts `total` units to at least `target`. */
  function Scale(total: nat, target: nat): (k: nat)
    requires 1 <= total
    ensures IsPow2(k) && target <= total * k
    ensures k == 1 || (k % 2 == 0 && total * (k / 2) < target)
  {
    Doubled(total, target, 1)
  }

  /** The units a round starts from: unchanged, or all back to one when the
      untaught misclassified ids already weigh at least 1 (`2m` units), in
      which case the number of draws doubles. */
  function Restart(c: seq<nat>, n: nat, wrong: seq<nat>): (r: (seq<nat>, nat))
    requires AllBelow(wrong, |c|)
    ensures Units(c, wrong) < 2 * |c| ==> r == (c, n)
    ensures 2 * |c| <= Units(c, wrong) ==> r == (Ones(|c|), 2 * n)
    ensures |r.0| == |c| && (Positive(c) ==> Positive(r.0))
  {
    if Units(c, wrong) >= 2 * |c| then (Ones(|c|), 2 * n) else (c, n)
  }

  /** `_get_new_weights_and_delta_w`: after the restart rule, the listed
      weights are multiplied by `Scale` of their mass, and each one's change
      is halved into `delta_w`. Returns the new units, `delta_w` and the new
      number of draws. */
  function NewWeights(c: seq<nat>, n: nat, wrong: seq<nat>): (r: (seq<nat>, seq<real>, nat))
    requires 0 < |c| && Positive(c) && AllBelow(wrong, |c|) && wrong != []
    ensures 0 < Units(Restart(c, n, wrong).0, wrong)
    ensures |r.0| == |c| && |r.1| == |wrong| && Positive(r.0)
    ensures r.2 == Restart(c, n, wrong).1
    ensures var b := Restart(c, n, wrong).0;
      forall i | 0 <= i < |c| && i !in wrong :: r.0[i] == b[i]
    ensures var b := Restart(c, n, wrong).0; var k := Scale(Units(b, wrong), 2 * |c|);
      forall j | 0 <= j < |wrong| :: r.0[wrong[j]] == k * b[wrong[j]]
    ensures forall j | 0 <= j < |wrong| :: 0.0 <= r.1[j]
  {
    var b := Restart(c, n, wrong);
    var v := if Units(c, wrong) >= 2 * |c| then |wrong| else Units(c, wrong);
    UnitsOnes(|c|, wrong);
    UnitsPositive(b.0, wrong);
    var k := Scale(v, 2 * |c|);
    (Scaled(b.0, wrong, k), Deltas(b.0, wrong, k), b.1)
  }

  /** `new_w[wrong] *= k` */
  function Scaled(b: seq<nat>, wrong: seq<nat>, k: nat): (r: seq<nat>)
    requires Positive(b) && AllBelow(wrong, |b|) && 1 <= k
    ensures |r| == |b| && Positive(r)
    ensures forall i | 0 <= i < |b| && i !in wrong :: r[i] == b[i]
    ensures forall j | 0 <= j < |wrong| :: r[wrong[j]] == k * b[wrong[j]]
  {
    ScaleUp(b, k);
    seq(|b|, i requires 0 <= i < |b| => if i in wrong then k * b[i] else b[i])
  }

  /** `delta_w`, one entry per listed id. */
  function Deltas(b: seq<nat>, wrong: seq<nat>, k: nat): (r: seq<real>)
    requires 0 < |b| && AllBelow(wrong, |b|) && 1 <= k
    ensures |r| == |wrong|
    ensures forall j | 0 <= j < |wrong| :: 0.0 <= r[j] && r[j] == Delta(k, b[wrong[j]], |b|)
  {
    seq(|wrong|, j requires 0 <= j < |wrong| => Delta(k, b[wrong[j]], |b|))
  }

  /** `delta_w` for one id: `(k - 1)` times its weight, halved, with the
      weight `u / (2m)`. */
  function Delta(k: nat, u: nat, m: nat): (r: real)
    requires 1 <= k && 0 < m
    ensures 0.0 <= r
  {
    DivNonneg(((k - 1) * u) as real, 4.0 * m as real);
    ((k - 1) * u) as real / (4.0 * m as real)
  }

  lemma {:induction false} DivNonneg(a: real, d: real)
    requires 0.0 <= a && 0.0 < d
    ensures 0.0 <= a / d
  {
    var q := a / d;
    assert q * d == a;
    if q < 0.0 {
      NegativeProduct(q, d);
      assert false;
    }
  }

  lemma {:induction false} NegativeProduct(a: real, b: real)
    requires a < 0.0 && 0.0 < b
    ensures a * b < 0.0
  {
  }

  /** Multiplying by a positive `k` never lowers a count. */
  lemma {:induction false} ScaleUp(b: seq<nat>, k: nat)
    requires 1 <= k
    ensures forall i | 0 <= i < |b| :: b[i] <= k * b[i]
  {
    forall i | 0 <= i < |b|
      ensures b[i] <= k * b[i]
    {
      MulMono(b[i], k);
    }
  }

  lemma {:induction false} MulMono(a: nat, k: nat)
    requires 1 <= k
    ensures a <= k * a
  {
    assert k * a == a + (k - 1) * a;
  }

  /** `delta_w` is half of each weight's change. */
  lemma {:induction false} DeltaHalf(c: seq<nat>, n: nat, wrong: seq<nat>)
    requires 0 < |c| && Positive(c) && AllBelow(wrong, |c|) && wrong != []
    ensures var r := NewWeights(c, n, wrong); var b := Restart(c, n, wrong).0;
      forall j | 0 <= j < |wrong| ::
        r.1[j] == (Weights(r.0)[wrong[j]] - Weights(b)[wrong[j]]) / 2.0
  {
    var r := NewWeights(c, n, wrong);
    var b := Restart(c, n, wrong).0;
    var k := Scale(Units(b, wrong), 2 * |c|);
    forall j | 0 <= j < |wrong|
      ensures r.1[j] == (Weights(r.0)[wrong[j]] - Weights(b)[wrong[j]]) / 2.0
    {
      var i := wrong[j];
      assert r.0[i] == k * b[i] && r.1[j] == Delta(k, b[i], |c|);
      assert Weights(r.0)[i] == r.0[i] as real / (2.0 * |c| as real);
      assert Weights(b)[i] == b[i] as real / (2.0 * |c| as real);
      DeltaAt(k, b[i], |c|);
    }
  }

  /** One id's `delta_w` is half the change of its weight. */
  lemma {:induction false} DeltaAt(k: nat, u: nat, m: nat)
    requires 1 <= k && 0 < m
    ensures Delta(k, u, m) == ((k * u) as real / (2.0 * m as real) - u as real / (2.0 * m as real)) / 2.0
  {
    assert (k * u) - u == (k - 1) * u;
    Halved((k * u) as real, u as real, 2.0 * m as real);
    assert 2.0 * (2.0 * m as real) == 4.0 * m as real;
  }

  lemma {:induction false} Halved(a: real, b: real, d: real)
    requires 0.0 < d
    ensures (a / d - b / d) / 2.0 == (a - b) / (2.0 * d)
  {
    var p := a / d;
    var q := b / d;
    assert p * d == a && q * d == b;
    var e := ((p - q) / 2.0) * (2.0 * d);
    assert e == a - b;
  }

  /** After the update the untaught misclassified ids weigh at least 1
      (`2m` units) together, and less than 2 unless they already weighed at
      least 1 before the restart rule reset them. */
  lemma {:induction false} LiftedMass(c: seq<nat>, n: nat, wrong: seq<nat>)
    requires 0 < |c| && Positive(c) && AllBelow(wrong, |c|) && wrong != []
    ensures var r := NewWeights(c, n, wrong); var b := Restart(c, n, wrong).0;
      2 * |c| <= Units(r.0, wrong) && (Units(b, wrong) < 2 * |c| ==> Units(r.0, wrong) < 4 * |c|)
  {
    var r := NewWeights(c, n, wrong);
    var b := Restart(c, n, wrong).0;
    var total := Units(b, wrong);
    UnitsScaled(b, r.0, wrong, Scale(total, 2 * |c|));
    Bracket(total, 2 * |c|);
  }

  /** The scale lifts a total to at least the target, and to less than twice
      the target when it starts below it. */
  lemma {:induction false} Bracket(total: nat, target: nat)
    requires 1 <= total
    ensures var k := Scale(total, target);
      target <= k * total && (total < target ==> k * total < 2 * target)
  {
    var k := Scale(total, target);
    assert total * k == k * total;
    if k != 1 {
      var h := k / 2;
      assert k == 2 * h;
      assert total * k == 2 * (total * h);
    }
  }

  /** The cumulative weight `delta_w[0] + ... + delta_w[i - 1]`. */
  function Prefix(dw: seq<real>, i: nat): real
    requires i <= |dw|
  {
    if i == 0 then 0.0 else Prefix(dw, i - 1) + dw[i - 1]
  }

  /** A selection: position `at` of the listed ids, chosen by draw number `draw`. */
  datatype Pick = Pick(at: nat, draw: nat)

  /** The loop of `_select_examples` from position `i` of the listed ids
      and draw `j`; `aux` is the running sum and `pending` the flag that says
      whether the weight at `i` still has to be added to it. Each pick is a
      draw inside the picked id's slice `(Prefix(i), Prefix(i + 1)]` of the
      cumulative weights; ids and draws are used in increasing order. */
  function Sweep(dw: seq<real>, rs: seq<real>, i: nat, j: nat, aux: real, pending: bool): (r: seq<Pick>)
    requires i <= |dw| && j <= |rs|
    requires pending ==> aux == Prefix(dw, i)
    requires !pending ==> i < |dw| && aux == Prefix(dw, i + 1)
    ensures SweptFrom(dw, rs, i, j, r)
    decreases |dw| - i + |rs| - j
  {
    if j < |rs| && i < |dw| then
      var aux' := if pending then aux + dw[i] else aux;
      if rs[j] <= aux' then
        if rs[j] > aux' - dw[i] then
          var rest := Sweep(dw, rs, i + 1, j + 1, aux', true);
          PrependPick(dw, rs, i, j, rest);
          [Pick(i, j)] + rest
        else
          var rest := Sweep(dw, rs, i, j + 1, aux', false);
          SweptLater(dw, rs, i, j, i, j + 1, rest);
          rest
      else
        var rest := Sweep(dw, rs, i + 1, j, aux', true);
        SweptLater(dw, rs, i, j, i + 1, j, rest);
        rest
    else []
  }

  /** What a sweep from position `i` and draw `j` hands out: picks at those
      positions or later, each draw inside its position's slice, positions
      and draws both strictly increasing. */
  predicate SweptFrom(dw: seq<real>, rs: seq<real>, i: nat, j: nat, r: seq<Pick>) {
    && |r| <= |dw| - i && |r| <= |rs| - j
    && (forall k | 0 <= k < |r| :: i <= r[k].at < |dw| && j <= r[k].draw < |rs|)
    && (forall k | 0 <= k < |r| :: Prefix(dw, r[k].at) < rs[r[k].draw] <= Prefix(dw, r[k].at + 1))
    && (forall a, b | 0 <= a < b < |r| :: r[a].at < r[b].at && r[a].draw < r[b].draw)
  }

  /** Picks from a later position and draw are picks from an earlier one. */
  lemma {:induction false} SweptLater(dw: seq<real>, rs: seq<real>, i: nat, j: nat, i': nat, j': nat, r: seq<Pick>)
    requires i <= i' && j <= j' && SweptFrom(dw, rs, i', j', r)
    ensures SweptFrom(dw, rs, i, j, r)
  {
  }

  /** Putting pick `(i, j)`, whose draw lies in slice `i`, in front of picks
      made from position `i + 1` and draw `j + 1` onwards. */
  lemma {:induction false} PrependPick(dw: seq<real>, rs: seq<real>, i: nat, j: nat, rest: seq<Pick>)
    requires i < |dw| && j < |rs| && Prefix(dw, i) < rs[j] <= Prefix(dw, i + 1)
    requires SweptFrom(dw, rs, i + 1, j + 1, rest)
    ensures SweptFrom(dw, rs, i, j, [Pick(i, j)] + rest)
  {
    var r := [Pick(i, j)] + rest;
    assert forall k | 1 <= k < |r| :: r[k] == rest[k - 1];
  }

  /** Some draw lies in the slice of the cumulative weights that belongs to
      position `i`. */
  ghost predicate Covered(dw: seq<real>, rs: seq<real>, i: nat)
    requires i < |dw|
  {
    exists j | 0 <= j < |rs| :: Prefix(dw, i) < rs[j] <= Prefix(dw, i + 1)
  }

  /** `x` is listed at a position some draw covers. */
  ghost predicate CoveredId(wrong: seq<nat>, dw: seq<real>, rs: seq<real>, x: nat)
    requires |dw| == |wrong|
  {
    exists i | 0 <= i < |wrong| :: x == wrong[i] && Covered(dw, rs, i)
  }

  /** `_select_examples` with the attempt's sorted draws `rs` (there are `n`
      of them): the chosen ids, in the order of `wrong`, never more than
      there are draws or ids, each one with a draw in its slice. */
  function SelectExamples(wrong: seq<nat>, dw: seq<real>, rs: seq<real>): (r: seq<nat>)
    requires |dw| == |wrong|
    ensures |r| <= |rs| && |r| <= |wrong|
    ensures forall x | x in r :: x in wrong
    ensures GenericTeacher.Increasing(wrong) ==> GenericTeacher.Increasing(r)
    ensures forall k | 0 <= k < |r| :: CoveredId(wrong, dw, rs, r[k])
  {
    var picks := Sweep(dw, rs, 0, 0, 0.0, true);
    var r := seq(|picks|, k requires 0 <= k < |picks| => wrong[picks[k].at]);
    PicksCovered(wrong, dw, rs, picks, r);
    r
  }

  /** Every pick of a sweep has a draw in its slice. */
  lemma {:induction false} PicksCovered(wrong: seq<nat>, dw: seq<real>, rs: seq<real>, picks: seq<Pick>, r: seq<nat>)
    requires |dw| == |wrong| && SweptFrom(dw, rs, 0, 0, picks)
    requires |r| == |picks| && forall k | 0 <= k < |r| :: r[k] == wrong[picks[k].at]
    ensures forall k | 0 <= k < |r| :: CoveredId(wrong, dw, rs, r[k])
  {
    forall k | 0 <= k < |r|
      ensures CoveredId(wrong, dw, rs, r[k])
    {
      PickCovered(dw, rs, picks[k].at, picks[k].draw);
      assert r[k] == wrong[picks[k].at];
    }
  }

  /** A draw inside slice `i` covers it. */
  lemma {:induction false} PickCovered(dw: seq<real>, rs: seq<real>, i: nat, j: nat)
    requires i < |dw| && j < |rs| && Prefix(dw, i) < rs[j] <= Prefix(dw, i + 1)
    ensures Covered(dw, rs, i)
  {
  }

  /** One draw inside the total weight picks exactly the id whose slice holds it. */
  lemma {:induction false} OneDraw(dw: seq<real>, x: real)
    requires 0.0 < x <= Prefix(dw, |dw|)
    ensures var r := Sweep(dw, [x], 0, 0, 0.0, true);
      |r| == 1 && Prefix(dw, r[0].at) < x <= Prefix(dw, r[0].at + 1)
  {
    OneDrawFrom(dw, x, 0);
  }

  lemma {:induction false} OneDrawFrom(dw: seq<real>, x: real, i: nat)
    requires i <= |dw| && Prefix(dw, i) < x <= Prefix(dw, |dw|)
    ensures var r := Sweep(dw, [x], i, 0, Prefix(dw, i), true);
      |r| == 1 && Prefix(dw, r[0].at) < x <= Prefix(dw, r[0].at + 1)
    decreases |dw| - i
  {
    if i == |dw| {
      assert false;
    } else if x > Prefix(dw, i + 1) {
      OneDrawFrom(dw, x, i + 1);
    }
  }

  /** `_send_new_ids`: one more iteration, the ids count as taught and are
      marked selected. Fresh, distinct ids in range keep the taught count
      equal to the number of selected ids. */
  function Send(t: Wtf, ids: seq<nat>): (r: Wtf)
    ensures r.numIters == t.numIters + 1 && r.s == t.s + |ids|
    ensures r.selected == t.selected + set x: nat | x in ids
    ensures r.(numIters := t.numIters, s := t.s, selected := t.selected) == t
    ensures t.Valid() && Distinct(ids) && AllBelow(ids, t.M()) && (forall x | x in ids :: x !in t.selected)
            ==> r.Valid()
  {
    var added := set x: nat | x in ids;
    DistinctCard(ids);
    assert forall x | x in added :: exists i :: 0 <= i < |ids| && ids[i] == x;
    assert (forall x | x in ids :: x !in t.selected) ==> t.selected !! added;
    t.(numIters := t.numIters + 1, s := t.s + |ids|, selected := t.selected + added)
  }

  /** A duplicate-free list has as many distinct elements as entries. */
  lemma {:induction false} DistinctCard(ids: seq<nat>)
    ensures Distinct(ids) ==> |set x: nat | x in ids| == |ids|
  {
    if ids == [] {
      assert (set x: nat | x in ids) == {};
    } else if Distinct(ids) {
      var rest := ids[1..];
      assert Distinct(rest) by {
        forall i, j | 0 <= i < j < |rest| ensures rest[i] != rest[j] {
          assert rest[i] == ids[i + 1] && rest[j] == ids[j + 1];
        }
      }
      DistinctCard(rest);
      var tail := set x: nat | x in rest;
      assert (set x: nat | x in ids) == {ids[0]} + tail;
      assert ids[0] !in tail by {
        forall k | 0 <= k < |rest| ensures rest[k] != ids[0] {
          assert rest[k] == ids[k + 1];
        }
      }
      assert |{ids[0]} + tail| == 1 + |tail|;
    }
  }

  /** `get_first_examples`: the stratified sample, taught at once and
      without the `S_max` cap. An empty sample becomes `np.array([])`, whose
      float entries cannot index the selection mask: IndexError. */
  function FirstExamples(t: Wtf, perm: seq<nat>): (r: Result<(Wtf, seq<nat>)>)
    requires t.Valid() && IsPermutation(perm, t.M())
    ensures var sample := Sampler.GetFirstExamples(t.config.fracStart, DoubleTeacher.NumClasses(t.base.y), t.base.y, perm);
      (r.Ok? <==> sample.Ok? && sample.value != [])
      && (sample.Ok? && sample.value == [] ==> r == Err(IndexError))
      && (r.Ok? ==> sample == Ok(r.value.1))
    ensures r.Ok? ==> r.value.0 == Send(t, r.value.1)
    ensures r.Ok? && t.selected == {} ==> r.value.0.Valid()
  {
    var ids :- Sampler.GetFirstExamples(t.config.fracStart, DoubleTeacher.NumClasses(t.base.y), t.base.y, perm);
    if ids == [] then Err(IndexError)
    else Ok((Send(t, ids), ids))
  }

  /** `_get_accuracy`: whatever the last misclassification count recorded. */
  function Accuracy(t: Wtf): Result<real> {
    t.lastAccuracy
  }

  /** The retry loop of `get_new_examples`: reweight, draw, and when nothing
      is picked double the number of draws and reset the weights before the
      next attempt. `rolls[a]` is attempt `a`'s sorted draws; running out of
      them, or a list of the wrong length, is `DrawsExhausted`. */
  function Attempts(t: Wtf, wrong: seq<nat>, rolls: seq<seq<real>>): (r: Result<(Wtf, seq<nat>)>)
    requires t.Valid() && wrong != [] && AllBelow(wrong, t.M())
    ensures r.Err? ==> r.error == DrawsExhausted
    ensures r.Ok? ==> r.value.0.Valid() && r.value.0.(units := t.units, n := t.n) == t && t.n <= r.value.0.n
    ensures r.Ok? ==> r.value.1 != [] && |r.value.1| <= r.value.0.n && (forall x | x in r.value.1 :: x in wrong)
    ensures r.Ok? && GenericTeacher.Increasing(wrong) ==> GenericTeacher.Increasing(r.value.1)
    decreases |rolls|
  {
    var nw := NewWeights(t.units, t.n, wrong);
    var t1 := t.(units := nw.0, n := nw.2);
    if |rolls| == 0 || |rolls[0]| != t1.n then Err(DrawsExhausted)
    else
      var picked := SelectExamples(wrong, nw.1, rolls[0]);
      if picked == [] then Attempts(t1.(n := 2 * t1.n, units := Ones(t.M())), wrong, rolls[1..])
      else Ok((t1, picked))
  }

  /** `get_new_examples`: when the teacher goes on, the first non-empty
      selection of the retry loop, cut so that the training set stays within
      `S_max`, is taught. */
  function GetNewExamples(t: Wtf, h: seq<nat>, rolls: seq<seq<real>>): (r: Result<(Wtf, seq<nat>)>)
    requires t.Valid()
    ensures |h| != t.M() ==> r.Err? && r.error.AssertionError?
    ensures r.Err? ==> r.error.AssertionError? || r.error == DrawsExhausted
    ensures r.Ok? ==> r.value.0.Valid() && r.value.0.lastAccuracy == GenericTeacher.Accuracy(t.base.y, h)
    ensures r.Ok? ==> (r.value.1 == [] <==> Untaught(t, h) == [] || t.sMax <= t.s)
    ensures r.Ok? ==> r.value.0.selected == t.selected + (set x: nat | x in r.value.1)
    ensures r.Ok? ==> r.value.0.s == t.s + |r.value.1|
    ensures r.Ok? && r.value.1 != [] ==> r.value.0.s <= t.sMax
    ensures r.Ok? ==> GenericTeacher.Increasing(r.value.1) && |r.value.1| <= r.value.0.n
    ensures r.Ok? ==> forall x | x in r.value.1 :: x < t.M() && t.base.y[x] != h[x] && x !in t.selected
  {
    var kg :- KeepGoing(t, h);
    if !kg.1 then Ok((kg.0, []))
    else Proceed(kg.0, h, rolls)
  }

  /** The teaching branch of `get_new_examples`: `_get_delta_h` once more,
      the retry loop, the cut to the room `S_max` leaves, and the send. */
  function Proceed(t: Wtf, h: seq<nat>, rolls: seq<seq<real>>): (r: Result<(Wtf, seq<nat>)>)
    requires t.Valid() && |h| == t.M() && Untaught(t, h) != [] && t.s < t.sMax
    ensures r.Err? ==> r.error == DrawsExhausted
    ensures r.Ok? ==> r.value.0.Valid() && r.value.0.lastAccuracy == GenericTeacher.Accuracy(t.base.y, h)
    ensures r.Ok? ==> r.value.1 != [] && r.value.0.selected == t.selected + (set x: nat | x in r.value.1)
    ensures r.Ok? ==> r.value.0.s == t.s + |r.value.1| <= t.sMax
    ensures r.Ok? ==> GenericTeacher.Increasing(r.value.1) && |r.value.1| <= r.value.0.n
    ensures r.Ok? ==> forall x | x in r.value.1 :: x < t.M() && t.base.y[x] != h[x] && x !in t.selected
  {
    var d := DeltaH(t, h);
    var at :- Attempts(d.0, d.1, rolls);
    Ok(SendCapped(t, h, at.0, at.1))
  }

  /** The end of `get_new_examples`: the selection `picked` of the retry
      loop, which left the teacher at `t2`, cut to the room `S_max` leaves
      and sent. */
  function SendCapped(t: Wtf, h: seq<nat>, t2: Wtf, picked: seq<nat>): (r: (Wtf, seq<nat>))
    requires t.Valid() && |h| == t.M() && t.s < t.sMax
    requires t2.Valid() && t2.selected == t.selected && t2.s == t.s && t2.base == t.base
    requires picked != [] && |picked| <= t2.n && GenericTeacher.Increasing(picked)
    requires forall x | x in picked :: x in Untaught(t, h)
    ensures r.0.Valid() && r.0.lastAccuracy == t2.lastAccuracy
    ensures r.1 != [] && r.0.selected == t.selected + (set x: nat | x in r.1)
    ensures r.0.s == t.s + |r.1| <= t.sMax
    ensures GenericTeacher.Increasing(r.1) && |r.1| <= r.0.n
    ensures forall x | x in r.1 :: x < t.M() && t.base.y[x] != h[x] && x !in t.selected
  {
    var ids := Capped(picked, t.sMax - t.s);
    Fresh(t, h, picked, t.sMax - t.s);
    (Send(t2, ids), ids)
  }

  /** `new_ids[:S_max - S]` when the batch would pass `S_max`. */
  function Capped(ids: seq<nat>, room: int): (r: seq<nat>)
    requires 0 < room
    ensures 0 < |r| || ids == []
    ensures |r| <= room && |r| <= |ids| && r == ids[..|r|]
    ensures |ids| <= room ==> r == ids
  {
    if |ids| > room then ids[..room] else ids
  }

  /** A cut of an ascending selection of untaught misclassified ids: still
      ascending, in range, misclassified and untaught. */
  lemma {:induction false} Fresh(t: Wtf, h: seq<nat>, picked: seq<nat>, room: int)
    requires t.Valid() && |h| == t.M() && 0 < room
    requires GenericTeacher.Increasing(picked) && forall x | x in picked :: x in Untaught(t, h)
    ensures var ids := Capped(picked, room);
      GenericTeacher.Increasing(ids) && Distinct(ids) && AllBelow(ids, t.M())
      && forall x | x in ids :: x < t.M() && t.base.y[x] != h[x] && x !in t.selected
  {
    var ids := Capped(picked, room);
    assert forall k | 0 <= k < |ids| :: ids[k] in picked;
  }
}
