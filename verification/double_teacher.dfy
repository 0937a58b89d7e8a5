/** The teacher that starts from a stratified sample and then teaches
    consecutive runs of its shuffled order whose length doubles every round. */
module DoubleTeacher {
  import opened Results
  import opened IdSeq
  import opened PyOps
  import GenericTeacher
  import Sampler

  const StrategyDoubleIncrement := 0
  const StrategyDoubleSize := 1

  /** Teacher state. `s` is `S_current_size`, the number of ids taught so far;
      `batch` is `batch_size`. */
  datatype Double = Double(
    fracStart: real, strategy: int, incrementStart: int,
    base: GenericTeacher.Base, numIters: nat, s: nat, batch: int, shuffled: seq<nat>)
  {
    function M(): nat { |base.y| }

    /** The shuffled order stays a permutation of the rows and the taught
        count never passes the number of rows. */
    ghost predicate Valid() {
      Bounded() && IsPermutation(shuffled, M())
    }

    /** The part of `Valid` the slicing needs. */
    predicate Bounded() {
      |shuffled| == M() && s <= M()
    }
  }

  /** `start`: the shared `_start` (whose assertion can fail), then no
      iterations, nothing taught, batch size 1 and the shuffled order. */
  function Start(fracStart: real, strategy: int, incrementStart: int,
                 rowsX: nat, y: seq<nat>, perm: seq<nat>): (r: Result<Double>)
    requires IsPermutation(perm, |y|)
    ensures r.Ok? <==> rowsX == |y|
    ensures r.Ok? ==> r.value.Valid() && r.value.base.y == y
    ensures r.Ok? ==> r.value.s == 0 && r.value.batch == 1 && r.value.numIters == 0
  {
    var base :- GenericTeacher.Start(rowsX, y);
    PermutationFacts(perm, |y|);
    Ok(Double(fracStart, strategy, incrementStart, base, 0, 0, 1, perm))
  }

  /** `_keep_going` */
  predicate KeepGoing(t: Double) {
    t.s < t.M()
  }

  /** `_send_new_ids`: one more iteration, and the batch counts as taught. */
  function Send(t: Double, ids: seq<nat>): (r: Double)
    ensures r.s == t.s + |ids| && r.numIters == t.numIters + 1
    ensures r.shuffled == t.shuffled && r.batch == t.batch && r.base == t.base
  {
    t.(numIters := t.numIters + 1, s := t.s + |ids|)
  }

  /** The number of distinct labels, the `classes` handed to the sampler. */
  function NumClasses(y: seq<nat>): nat {
    |set x | x in y|
  }

  /** `get_first_examples`: a stratified sample, moved to the front of the
      shuffled order; the batch size then follows the strategy, and an unknown
      strategy raises ValueError. The sampler's shuffle is the input `perm`. */
  function FirstExamples(t: Double, perm: seq<nat>): (r: Result<(Double, seq<nat>)>)
    requires t.Valid() && IsPermutation(perm, t.M())
    ensures r.Ok? ==> Sampler.GetFirstExamples(t.fracStart, NumClasses(t.base.y), t.base.y, perm) == Ok(r.value.1)
    ensures r.Ok? <==> Sampler.GetFirstExamples(t.fracStart, NumClasses(t.base.y), t.base.y, perm).Ok?
                       && (t.strategy == StrategyDoubleSize || t.strategy == StrategyDoubleIncrement)
    ensures Sampler.GetFirstExamples(t.fracStart, NumClasses(t.base.y), t.base.y, perm).Ok?
            && t.strategy != StrategyDoubleSize && t.strategy != StrategyDoubleIncrement
            ==> r == Err(ValueError("unknown strategy"))
    ensures r.Ok? ==> var (t', ids) := r.value;
      |ids| <= |t'.shuffled| && IsPermutation(t'.shuffled, t.M()) && t'.shuffled[..|ids|] == ids
      && t'.shuffled[|ids|..] == Without(t.shuffled, set x | x in ids)
      && t'.s == t.s + |ids| && t'.numIters == t.numIters + 1 && t'.base == t.base
      && t'.batch == (if t.strategy == StrategyDoubleSize then |ids| else t.incrementStart)
    ensures r.Ok? && t.s == 0 ==> r.value.0.Valid()
  {
    var ids :- Sampler.GetFirstExamples(t.fracStart, NumClasses(t.base.y), t.base.y, perm);
    var shuffled := FrontLoad(t.shuffled, t.M(), ids);
    var batch :- StrategyBatch(t.strategy, |ids|, t.incrementStart);
    Ok((Send(t.(shuffled := shuffled, batch := batch), ids), ids))
  }

  /** The batch size a strategy starts from, or ValueError for an unknown one. */
  function StrategyBatch(strategy: int, firstSize: nat, incrementStart: int): (r: Result<int>)
    ensures r.Ok? <==> strategy == StrategyDoubleSize || strategy == StrategyDoubleIncrement
    ensures strategy == StrategyDoubleSize ==> r == Ok(firstSize)
    ensures strategy == StrategyDoubleIncrement ==> r == Ok(incrementStart)
  {
    if strategy == StrategyDoubleSize then Ok(firstSize)
    else if strategy == StrategyDoubleIncrement then Ok(incrementStart)
    else Err(ValueError("unknown strategy"))
  }

  /** `batch` followed by the rest of `p` in its old order: again a
      permutation, with `batch` as its prefix. */
  function FrontLoad(p: seq<nat>, m: nat, batch: seq<nat>): (r: seq<nat>)
    requires IsPermutation(p, m) && Distinct(batch) && AllBelow(batch, m)
    ensures IsPermutation(r, m) && |r| == m && |batch| <= m
    ensures r[..|batch|] == batch && r[|batch|..] == Without(p, set x | x in batch)
  {
    var r := batch + Without(p, set x | x in batch);
    FrontLoadPermutation(p, m, batch);
    PermutationFacts(r, m);
    assert r[..|batch|] == batch && r[|batch|..] == Without(p, set x | x in batch);
    r
  }

  function Min(a: int, b: int): int {
    if a < b then a else b
  }

  /** `get_new_examples`: once everything is taught, nothing; otherwise the
      next `batch` ids of the shuffled order (fewer at the end), after which
      the batch size doubles. */
  function NewExamples(t: Double): (r: (Double, seq<nat>))
    requires t.Bounded()
    ensures r.0.Bounded() && r.0.shuffled == t.shuffled && r.0.base == t.base
    ensures !KeepGoing(t) ==> r.0 == t && r.1 == []
    ensures KeepGoing(t) ==> r.0.numIters == t.numIters + 1
    ensures var st := Step(t.shuffled, t.s, t.batch);
      r.0.s == st.0 && r.0.batch == st.1 && r.1 == st.2
  {
    if !KeepGoing(t) then (t, [])
    else
      var st := Step(t.shuffled, t.s, t.batch);
      (Send(t.(batch := st.1), st.2), st.2)
  }

  /** The part of `get_new_examples` that moves through the shuffled order:
      from position `s` with batch size `b`, the new position, the new batch
      size and the ids taught. */
  function Step(order: seq<nat>, s: nat, b: int): (r: (nat, int, seq<nat>))
    requires s <= |order|
    ensures r.0 == s + |r.2| <= |order| && r.2 == order[s..r.0]
    ensures s == |order| ==> r == (s, b, [])
    ensures s < |order| ==> r.1 == 2 * b
    ensures s < |order| && 0 < b ==> r.0 == Min(s + b, |order|)
    ensures s < |order| && b <= 0 && 0 <= s + b ==> r.2 == []
  {
    if s >= |order| then (s, b, [])
    else
      var ids := Slice(order, s, Min(s + b, |order|));
      NextRun(order, s, Min(s + b, |order|));
      (s + |ids|, b * 2, ids)
  }

  /** The slice `get_new_examples` takes, when it starts inside the sequence.
      A negative end (from a negative batch size) counts from the end, yet
      the slice still starts at `lo`. */
  lemma {:induction false} NextRun(s: seq<nat>, lo: nat, hi: int)
    requires lo < |s| && hi <= |s|
    ensures lo + |Slice(s, lo, hi)| <= |s|
    ensures Slice(s, lo, hi) == s[lo..lo + |Slice(s, lo, hi)|]
    ensures 0 <= hi && lo < hi ==> |Slice(s, lo, hi)| == hi - lo
    ensures 0 <= hi <= lo ==> Slice(s, lo, hi) == []
  {
  }

  /** `get_new_test_ids`: this teacher never queries. */
  function NewTestIds(t: Double, testIds: seq<nat>, testLabels: seq<nat>): (r: seq<nat>)
    ensures |r| == 0
  {
    []
  }

  function Pow2(k: nat): (r: nat)
    ensures r >= 1
  {
    if k == 0 then 1 else 2 * Pow2(k - 1)
  }

  /** `k` rounds of `get_new_examples` seen through the position and the
      batch size: the final position and every id taught, in order. They
      form one contiguous run of the shuffled order. */
  function Run(order: seq<nat>, s: nat, b: int, k: nat): (r: (nat, seq<nat>))
    requires s <= |order|
    ensures s <= r.0 <= |order| && r.1 == order[s..r.0]
    decreases k
  {
    if k == 0 then (s, [])
    else
      var st := Step(order, s, b);
      var more := Run(order, st.0, st.1, k - 1);
      SliceJoin(order, s, st.0, more.0);
      (more.0, st.2 + more.1)
  }

  lemma {:induction false} SliceJoin(s: seq<nat>, a: nat, b: nat, c: nat)
    requires a <= b <= c <= |s|
    ensures s[a..b] + s[b..c] == s[a..c]
  {
  }

  /** How many ids `k` rounds starting from batch size `b` ask for. */
  function Asked(b: int, k: nat): int
    decreases k
  {
    if k == 0 then 0 else b + Asked(2 * b, k - 1)
  }

  /** The batches asked for double: `b + 2b + ... + 2^(k-1) b`. */
  lemma {:induction false} AskedDoubles(b: int, k: nat)
    ensures Asked(b, k) == b * (Pow2(k) - 1)
    decreases k
  {
    if k > 0 {
      AskedDoubles(2 * b, k - 1);
      assert 2 * b * (Pow2(k - 1) - 1) + b == b * (2 * Pow2(k - 1) - 1);
    }
  }

  lemma {:induction false} AskedPositive(b: int, k: nat)
    requires 0 < b
    ensures 0 <= Asked(b, k)
    decreases k
  {
    if k > 0 {
      AskedPositive(2 * b, k - 1);
    }
  }

  /** With a positive batch size, `k` rounds teach exactly what they ask
      for, capped at the number of rows: with `b = 1` that is 1, 3, 7, ...
      ids. */
  lemma {:induction false} RunAsked(order: seq<nat>, s: nat, b: int, k: nat)
    requires s <= |order| && 0 < b
    ensures Run(order, s, b, k).0 == Min(s + Asked(b, k), |order|)
    decreases k
  {
    if k > 0 {
      var st := Step(order, s, b);
      RunAsked(order, st.0, st.1, k - 1);
      AskedPositive(b, k);
      AskedPositive(2 * b, k - 1);
    }
  }

  /** Once the whole order is taught, more rounds change nothing. */
  lemma {:induction false} RunIdle(order: seq<nat>, b: int, k: nat)
    ensures Run(order, |order|, b, k) == (|order|, [])
    decreases k
  {
    if k > 0 {
      RunIdle(order, b, k - 1);
    }
  }

  /** From a valid teacher every id is taught at most once, however many
      rounds run. */
  lemma {:induction false} RunDistinct(t: Double, k: nat)
    requires t.Valid()
    ensures Distinct(Run(t.shuffled, t.s, t.batch, k).1)
  {
    PermutationFacts(t.shuffled, t.M());
  }
}
