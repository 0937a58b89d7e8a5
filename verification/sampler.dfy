/** The stratified sampler that draws every teacher's first batch: a per-class
    quota proportional to the class's share of the dataset, filled by scanning
    a shuffled order of the rows. */
module Sampler {
  import opened Results
  import opened IdSeq
  import opened Subseqs
  import PyOps

  function Sum(v: seq<int>): int
  {
    if v == [] then 0 else v[0] + Sum(v[1..])
  }

  lemma {:induction false} SumUpdate(v: seq<int>, k: nat, d: int)
    requires k < |v|
    ensures Sum(v[k := v[k] + d]) == Sum(v) + d
  {
    if k > 0 {
      SumUpdate(v[1..], k - 1, d);
      assert v[k := v[k] + d][1..] == v[1..][k - 1 := v[k] + d];
    }
  }

  /** A pointwise-smaller vector has a smaller sum, and an equal sum only when
      it is equal everywhere. */
  lemma {:induction false} SumBelow(a: seq<int>, b: seq<int>)
    requires |a| == |b|
    requires forall i | 0 <= i < |a| :: a[i] <= b[i]
    ensures Sum(a) <= Sum(b)
    ensures Sum(a) == Sum(b) ==> forall i | 0 <= i < |a| :: a[i] == b[i]
  {
    if a != [] {
      SumBelow(a[1..], b[1..]);
      assert forall i | 1 <= i < |a| :: a[i] == a[1..][i-1] && b[i] == b[1..][i-1];
    }
  }

  /** Adds one to the slot of every label of `y`, in order; a label without a
      slot raises IndexError. */
  function Tally(dist: seq<nat>, y: seq<nat>): (r: Result<seq<nat>>)
    ensures r.Ok? <==> AllBelow(y, |dist|)
    ensures r.Ok? ==> |r.value| == |dist|
    ensures r.Ok? ==> forall c | 0 <= c < |dist| :: r.value[c] == dist[c] + multiset(y)[c]
    decreases |y|
  {
    if y == [] then Ok(dist)
    else if y[0] >= |dist| then Err(IndexError)
    else
      assert y == [y[0]] + y[1..];
      Tally(dist[y[0] := dist[y[0]] + 1], y[1..])
  }

  /** `class_distribution`: how many rows carry each label `0..numClasses-1`. */
  function ClassDistribution(numClasses: nat, y: seq<nat>): (r: Result<seq<nat>>)
    ensures r.Ok? <==> AllBelow(y, numClasses)
    ensures r.Ok? ==> |r.value| == numClasses
    ensures r.Ok? ==> forall c | 0 <= c < numClasses :: r.value[c] == multiset(y)[c]
  {
    Tally(seq(numClasses, _ => 0), y)
  }

  /** The quota of a class with `total` rows out of `m` when `nSamples` rows are
      wanted: the ceiling of its proportional share, capped at its population. */
  function ClassQuota(total: nat, m: nat, nSamples: real): (q: int)
    requires m > 0
    ensures q <= total
    ensures q == total || (q - 1) as real < total as real / m as real * nSamples <= q as real
    ensures 0.0 <= nSamples ==> 0 <= q
    ensures nSamples <= 0.0 ==> q <= 0
    ensures 0.0 < nSamples && 1 <= total ==> 1 <= q
  {
    var share := total as real / m as real * nSamples;
    var want := PyOps.Ceil(share);
    if want < total then want else total
  }

  /** `_get_class_samples`: one quota per class; dividing by an empty dataset
      raises ZeroDivisionError. */
  function ClassSamples(nSamples: real, m: nat, dist: seq<nat>): (r: Result<seq<int>>)
    ensures r.Ok? <==> (m > 0 || dist == [])
    ensures r.Ok? ==> |r.value| == |dist|
    ensures r.Ok? ==> forall c | 0 <= c < |dist| :: r.value[c] <= dist[c]
  {
    if dist == [] then Ok([])
    else if m == 0 then Err(ZeroDivisionError)
    else Ok(seq(|dist|, c requires 0 <= c < |dist| => ClassQuota(dist[c], m, nSamples)))
  }

  /** The quotas the sampler computes for labels `y` and fraction `prop`. */
  function Quotas(prop: real, numClasses: nat, y: seq<nat>): (q: seq<int>)
    requires |y| > 0 || numClasses == 0
    ensures |q| == numClasses
  {
    seq(numClasses, c requires 0 <= c < numClasses =>
      ClassQuota(multiset(y)[c], |y|, prop * |y| as real))
  }

  /** How many members of a class with `n` candidates a quota `q` admits. */
  function Cap(n: nat, q: int): nat
  {
    if q <= 0 then 0 else if n < q then n else q
  }

  /** Reference selection: walking `p` in order, an id is kept exactly when
      fewer members of its class than its quota were seen before it. */
  function Picked(p: seq<nat>, y: seq<nat>, quota: seq<int>): seq<nat>
    decreases |p|
  {
    if p == [] then []
    else
      var prev := p[..|p|-1];
      var x := p[|p|-1];
      Picked(prev, y, quota) +
        (if x < |y| && y[x] < |quota| && |OfClass(prev, y, y[x])| < quota[y[x]] then [x] else [])
  }

  /** Each class's members among the picked ids are the first quota of that
      class's members in `p`. */
  lemma {:induction false} PickedClass(p: seq<nat>, y: seq<nat>, quota: seq<int>, c: nat)
    requires c < |quota|
    ensures OfClass(Picked(p, y, quota), y, c) == OfClass(p, y, c)[..Cap(|OfClass(p, y, c)|, quota[c])]
    decreases |p|
  {
    if p != [] {
      var prev := p[..|p|-1];
      var x := p[|p|-1];
      var keep := x < |y| && y[x] < |quota| && |OfClass(prev, y, y[x])| < quota[y[x]];
      var mine := x < |y| && y[x] == c;
      PickedClass(prev, y, quota, c);
      PickedClassStep(p, y, quota, c);
      CapStep(OfClass(prev, y, c), x, mine, keep, quota[c]);
    }
  }

  /** One step of `PickedClass`: how the class-c views of `p` and of its
      picked ids grow with the last id of `p`. */
  lemma {:induction false} PickedClassStep(p: seq<nat>, y: seq<nat>, quota: seq<int>, c: nat)
    requires c < |quota| && p != []
    ensures var prev := p[..|p|-1];
      var x := p[|p|-1];
      var keep := x < |y| && y[x] < |quota| && |OfClass(prev, y, y[x])| < quota[y[x]];
      var mine := x < |y| && y[x] == c;
      && OfClass(p, y, c) == OfClass(prev, y, c) + (if mine then [x] else [])
      && OfClass(Picked(p, y, quota), y, c)
         == OfClass(Picked(prev, y, quota), y, c) + (if mine && keep then [x] else [])
      && (mine ==> (keep <==> |OfClass(prev, y, c)| < quota[c]))
  {
    var prev := p[..|p|-1];
    var x := p[|p|-1];
    var keep := x < |y| && y[x] < |quota| && |OfClass(prev, y, y[x])| < quota[y[x]];
    assert p == prev + [x];
    OfClassAppend(prev, [x], y, c);
    var extra := if keep then [x] else [];
    assert Picked(p, y, quota) == Picked(prev, y, quota) + extra;
    OfClassAppend(Picked(prev, y, quota), extra, y, c);
  }

  /** How the capped prefix of a class grows when one id is appended. */
  lemma {:induction false} CapStep(before: seq<nat>, x: nat, mine: bool, keep: bool, q: int)
    requires mine ==> (keep <==> |before| < q)
    ensures before[..Cap(|before|, q)] + (if mine && keep then [x] else [])
         == (before + (if mine then [x] else []))[..Cap(|before| + (if mine then 1 else 0), q)]
  {
    if mine {
      assert (before + [x])[..|before|] == before;
    }
  }

  lemma {:induction false} PickedSubseq(p: seq<nat>, y: seq<nat>, quota: seq<int>)
    ensures IsSubseq(Picked(p, y, quota), p)
    decreases |p|
  {
    if p != [] {
      var prev := p[..|p|-1];
      PickedSubseq(prev, y, quota);
      var s := Picked(p, y, quota);
      if s != [] && s[|s|-1] == p[|p|-1] && s[..|s|-1] == Picked(prev, y, quota) {
      } else {
        assert s == Picked(prev, y, quota);
      }
    }
  }

  /** A prefix has no more members of a class than the whole. */
  lemma {:induction false} ClassStaysFull(p: seq<nat>, i: nat, y: seq<nat>, c: nat)
    requires i <= |p|
    ensures |OfClass(p[..i], y, c)| <= |OfClass(p, y, c)|
  {
    assert p == p[..i] + p[i..];
    OfClassAppend(p[..i], p[i..], y, c);
  }

  /** Once every class has met its quota inside `p[..i]`, nothing after
      position i is picked. */
  lemma {:induction false} NoMorePicks(p: seq<nat>, i: nat, y: seq<nat>, quota: seq<int>)
    requires i <= |p|
    requires forall c | 0 <= c < |quota| :: |OfClass(p[..i], y, c)| >= quota[c]
    ensures Picked(p, y, quota) == Picked(p[..i], y, quota)
    decreases |p|
  {
    if |p| > i {
      var prev := p[..|p|-1];
      var x := p[|p|-1];
      assert prev[..i] == p[..i];
      NoMorePicks(prev, i, y, quota);
      if x < |y| && y[x] < |quota| {
        ClassStaysFull(prev, i, y, y[x]);
        assert !(|OfClass(prev, y, y[x])| < quota[y[x]]);
      }
      assert Picked(p, y, quota) == Picked(prev, y, quota);
    } else {
      assert p[..i] == p;
    }
  }

  /** The scan loop of `get_first_examples`: `taken` is `v_cont`, `cont` the
      number kept so far, `acc` the kept ids; stops once `total` ids are kept,
      and reading past the end of the order raises IndexError. */
  function Scan(perm: seq<nat>, y: seq<nat>, quota: seq<int>, total: int,
                i: nat, taken: seq<int>, cont: nat, acc: seq<nat>): Result<seq<nat>>
    requires |taken| == |quota|
    decreases |perm| - i
  {
    if cont >= total then Ok(acc)
    else if i >= |perm| then Err(IndexError)
    else
      var id := perm[i];
      if id >= |y| || y[id] >= |taken| then Err(IndexError)
      else
        var c := y[id];
        if taken[c] < quota[c] then
          Scan(perm, y, quota, total, i + 1, taken[c := taken[c] + 1], cont + 1, acc + [id])
        else
          Scan(perm, y, quota, total, i + 1, taken, cont, acc)
  }

  /** Extending the scanned prefix by `perm[i]`. */
  lemma {:induction false} PrefixStep(perm: seq<nat>, y: seq<nat>, quota: seq<int>, i: nat)
    requires i < |perm|
    requires perm[i] < |y| && y[perm[i]] < |quota|
    ensures Picked(perm[..i+1], y, quota)
         == Picked(perm[..i], y, quota)
            + (if |OfClass(perm[..i], y, y[perm[i]])| < quota[y[perm[i]]] then [perm[i]] else [])
    ensures forall d | 0 <= d < |quota| ::
      |OfClass(perm[..i+1], y, d)| == |OfClass(perm[..i], y, d)| + (if d == y[perm[i]] then 1 else 0)
  {
    var id := perm[i];
    var next := perm[..i+1];
    assert next[..i] == perm[..i] && next[i] == id;
    assert next == perm[..i] + [id];
    forall d | 0 <= d < |quota|
      ensures |OfClass(next, y, d)| == |OfClass(perm[..i], y, d)| + (if d == y[id] then 1 else 0)
    {
      OfClassAppend(perm[..i], [id], y, d);
    }
  }

  /** The invariant of the scan loop at position i. */
  predicate ScanState(perm: seq<nat>, y: seq<nat>, quota: seq<int>,
                      i: nat, taken: seq<int>, cont: nat, acc: seq<nat>)
  {
    && i <= |perm|
    && |taken| == |quota|
    && acc == Picked(perm[..i], y, quota)
    && (forall c | 0 <= c < |quota| :: taken[c] == Cap(|OfClass(perm[..i], y, c)|, quota[c]))
    && cont == |acc| == Sum(taken)
  }

  /** The quotas the scan is asked to fill: each between zero and the size of
      its class in the order. */
  predicate Fillable(perm: seq<nat>, y: seq<nat>, quota: seq<int>)
  {
    && AllBelow(perm, |y|) && AllBelow(y, |quota|)
    && forall c | 0 <= c < |quota| :: 0 <= quota[c] <= |OfClass(perm, y, c)|
  }

  /** Once the kept count reaches the sum of the quotas, every class is full. */
  lemma {:induction false} ScanDone(perm: seq<nat>, y: seq<nat>, quota: seq<int>,
                 i: nat, taken: seq<int>, cont: nat, acc: seq<nat>)
    requires Fillable(perm, y, quota)
    requires ScanState(perm, y, quota, i, taken, cont, acc)
    requires cont >= Sum(quota)
    ensures Picked(perm, y, quota) == acc
    ensures cont == Sum(quota)
  {
    assert forall c | 0 <= c < |quota| :: taken[c] <= quota[c];
    SumBelow(taken, quota);
    NoMorePicks(perm, i, y, quota);
  }

  /** At the end of the order the kept count equals the sum of the quotas. */
  lemma {:induction false} ScanExhausted(perm: seq<nat>, y: seq<nat>, quota: seq<int>,
                      taken: seq<int>, cont: nat, acc: seq<nat>)
    requires Fillable(perm, y, quota)
    requires ScanState(perm, y, quota, |perm|, taken, cont, acc)
    ensures cont == Sum(quota)
  {
    assert perm[..|perm|] == perm;
    assert taken == quota;
  }

  /** Keeping `perm[i]` when its class is below quota preserves the invariant. */
  lemma {:induction false} ScanKeep(perm: seq<nat>, y: seq<nat>, quota: seq<int>,
                 i: nat, taken: seq<int>, cont: nat, acc: seq<nat>)
    requires i < |perm| && perm[i] < |y| && y[perm[i]] < |quota|
    requires ScanState(perm, y, quota, i, taken, cont, acc)
    requires taken[y[perm[i]]] < quota[y[perm[i]]]
    ensures ScanState(perm, y, quota, i + 1, taken[y[perm[i]] := taken[y[perm[i]]] + 1], cont + 1, acc + [perm[i]])
  {
    var taken' := taken[y[perm[i]] := taken[y[perm[i]]] + 1];
    SumUpdate(taken, y[perm[i]], 1);
    KeepStep(perm, y, quota, i, taken);
    assert acc + [perm[i]] == Picked(perm[..i + 1], y, quota);
    assert |taken'| == |quota| && cont + 1 == |acc + [perm[i]]| == Sum(taken');
  }

  /** The picked prefix and the capped counts after keeping `perm[i]`. */
  lemma {:induction false} KeepStep(perm: seq<nat>, y: seq<nat>, quota: seq<int>, i: nat, taken: seq<int>)
    requires i < |perm| && perm[i] < |y| && y[perm[i]] < |quota| && |taken| == |quota|
    requires forall c | 0 <= c < |quota| :: taken[c] == Cap(|OfClass(perm[..i], y, c)|, quota[c])
    requires taken[y[perm[i]]] < quota[y[perm[i]]]
    ensures Picked(perm[..i + 1], y, quota) == Picked(perm[..i], y, quota) + [perm[i]]
    ensures forall d | 0 <= d < |quota| ::
      taken[y[perm[i]] := taken[y[perm[i]]] + 1][d] == Cap(|OfClass(perm[..i + 1], y, d)|, quota[d])
  {
    var c := y[perm[i]];
    assert |OfClass(perm[..i], y, c)| < quota[c];
    PrefixStep(perm, y, quota, i);
  }

  /** Skipping `perm[i]` when its class is full preserves the invariant. */
  lemma {:induction false} ScanSkip(perm: seq<nat>, y: seq<nat>, quota: seq<int>,
                 i: nat, taken: seq<int>, cont: nat, acc: seq<nat>)
    requires i < |perm| && perm[i] < |y| && y[perm[i]] < |quota|
    requires ScanState(perm, y, quota, i, taken, cont, acc)
    requires taken[y[perm[i]]] >= quota[y[perm[i]]]
    ensures ScanState(perm, y, quota, i + 1, taken, cont, acc)
  {
    PrefixStep(perm, y, quota, i);
  }

  /** With non-negative quotas no larger than the class populations, the scan
      never runs off the end of the order, keeps exactly the reference
      selection, and keeps exactly as many ids as the quotas add up to. */
  lemma {:induction false} ScanPicks(perm: seq<nat>, y: seq<nat>, quota: seq<int>,
                                     i: nat, taken: seq<int>, cont: nat, acc: seq<nat>)
    requires Fillable(perm, y, quota)
    requires ScanState(perm, y, quota, i, taken, cont, acc)
    ensures Scan(perm, y, quota, Sum(quota), i, taken, cont, acc) == Ok(Picked(perm, y, quota))
    ensures |Picked(perm, y, quota)| == Sum(quota)
    decreases |perm| - i
  {
    var total := Sum(quota);
    if i == |perm| {
      ScanExhausted(perm, y, quota, taken, cont, acc);
      ScanDone(perm, y, quota, i, taken, cont, acc);
    } else if cont >= total {
      ScanDone(perm, y, quota, i, taken, cont, acc);
    } else {
      var id := perm[i];
      var c := y[id];
      if taken[c] < quota[c] {
        ScanKeep(perm, y, quota, i, taken, cont, acc);
        ScanPicks(perm, y, quota, i + 1, taken[c := taken[c] + 1], cont + 1, acc + [id]);
      } else {
        ScanSkip(perm, y, quota, i, taken, cont, acc);
        ScanPicks(perm, y, quota, i + 1, taken, cont, acc);
      }
    }
  }

  /** With all quotas at most zero nothing is picked. */
  lemma {:induction false} NothingPicked(p: seq<nat>, y: seq<nat>, quota: seq<int>)
    requires forall c | 0 <= c < |quota| :: quota[c] <= 0
    ensures Picked(p, y, quota) == []
  {
    NoMorePicks(p, 0, y, quota);
  }

  /** `get_first_examples(prop, m, classes, y, shuffle)`, with m = |y|, the
      class list given by its length, and the shuffled `0..m-1` passed in.
      It fails exactly when a label has no class slot or when there are
      classes but no rows; otherwise it keeps, in shuffled order, the first
      quota-many members of every class. */
  function GetFirstExamples(prop: real, numClasses: nat, y: seq<nat>, perm: seq<nat>): (r: Result<seq<nat>>)
    requires IsPermutation(perm, |y|)
    ensures r.Ok? <==> AllBelow(y, numClasses) && (|y| > 0 || numClasses == 0)
    ensures r.Ok? ==> r.value == Picked(perm, y, Quotas(prop, numClasses, y))
    ensures r.Ok? ==> IsSubseq(r.value, perm) && Distinct(r.value) && AllBelow(r.value, |y|)
    ensures r.Ok? ==> forall c | 0 <= c < numClasses ::
      OfClass(r.value, y, c) == OfClass(perm, y, c)[..Cap(|OfClass(perm, y, c)|, Quotas(prop, numClasses, y)[c])]
    ensures r.Ok? && 0.0 <= prop ==> forall c | 0 <= c < numClasses ::
      |OfClass(r.value, y, c)| == Quotas(prop, numClasses, y)[c]
    ensures r.Ok? && 0.0 <= prop ==> |r.value| == Sum(Quotas(prop, numClasses, y))
    ensures r.Ok? && 0.0 < prop ==> forall c | 0 <= c < numClasses && multiset(y)[c] >= 1 ::
      |OfClass(r.value, y, c)| >= 1
  {
    var dist :- ClassDistribution(numClasses, y);
    var quota :- ClassSamples(prop * |y| as real, |y|, dist);
    QuotasAgree(prop, numClasses, y, dist);
    SamplePromises(prop, numClasses, y, perm);
    Scan(perm, y, quota, Sum(quota), 0, seq(numClasses, _ => 0), 0, [])
  }

  /** The quotas computed from the class distribution are `Quotas`. */
  lemma {:induction false} QuotasAgree(prop: real, numClasses: nat, y: seq<nat>, dist: seq<nat>)
    requires |y| > 0 || numClasses == 0
    requires |dist| == numClasses
    requires forall c | 0 <= c < numClasses :: dist[c] == multiset(y)[c]
    ensures ClassSamples(prop * |y| as real, |y|, dist) == Ok(Quotas(prop, numClasses, y))
  {
    if dist != [] {
      var q := ClassSamples(prop * |y| as real, |y|, dist).value;
      assert forall c | 0 <= c < numClasses :: q[c] == Quotas(prop, numClasses, y)[c];
      assert q == Quotas(prop, numClasses, y);
    }
  }

  /** Everything the sampler promises about the reference selection with the
      sampler's own quotas. */
  lemma {:induction false} SamplePromises(prop: real, numClasses: nat, y: seq<nat>, perm: seq<nat>)
    requires IsPermutation(perm, |y|)
    requires AllBelow(y, numClasses) && (|y| > 0 || numClasses == 0)
    ensures var quota := Quotas(prop, numClasses, y);
      Scan(perm, y, quota, Sum(quota), 0, seq(numClasses, _ => 0), 0, []) == Ok(Picked(perm, y, quota))
    ensures var s := Picked(perm, y, Quotas(prop, numClasses, y));
      IsSubseq(s, perm) && Distinct(s) && AllBelow(s, |y|)
    ensures forall c | 0 <= c < numClasses ::
      OfClass(Picked(perm, y, Quotas(prop, numClasses, y)), y, c)
        == OfClass(perm, y, c)[..Cap(|OfClass(perm, y, c)|, Quotas(prop, numClasses, y)[c])]
    ensures 0.0 <= prop ==> forall c | 0 <= c < numClasses ::
      |OfClass(Picked(perm, y, Quotas(prop, numClasses, y)), y, c)| == Quotas(prop, numClasses, y)[c]
    ensures 0.0 <= prop ==> |Picked(perm, y, Quotas(prop, numClasses, y))| == Sum(Quotas(prop, numClasses, y))
    ensures 0.0 < prop ==> forall c | 0 <= c < numClasses && multiset(y)[c] >= 1 ::
      |OfClass(Picked(perm, y, Quotas(prop, numClasses, y)), y, c)| >= 1
  {
    var quota := Quotas(prop, numClasses, y);
    SamplerScan(prop, numClasses, y, perm);
    SampleIds(perm, y, quota);
    SampleClasses(perm, y, quota);
    if 0.0 < prop {
      EveryClassSampled(prop, numClasses, y, perm);
    }
  }

  /** With a positive fraction, every class that occurs gets at least one row. */
  lemma {:induction false} EveryClassSampled(prop: real, numClasses: nat, y: seq<nat>, perm: seq<nat>)
    requires IsPermutation(perm, |y|)
    requires AllBelow(y, numClasses) && (|y| > 0 || numClasses == 0)
    requires 0.0 < prop
    ensures forall c | 0 <= c < numClasses && multiset(y)[c] >= 1 ::
      |OfClass(Picked(perm, y, Quotas(prop, numClasses, y)), y, c)| >= 1
  {
    var quota := Quotas(prop, numClasses, y);
    forall c | 0 <= c < numClasses && multiset(y)[c] >= 1
      ensures |OfClass(Picked(perm, y, quota), y, c)| >= 1
    {
      OfClassPermutation(perm, y, c);
      PickedClass(perm, y, quota, c);
    }
  }

  /** The reference selection from a permutation of the rows is an in-order,
      duplicate-free choice of row ids. */
  lemma {:induction false} SampleIds(perm: seq<nat>, y: seq<nat>, quota: seq<int>)
    requires IsPermutation(perm, |y|)
    ensures var s := Picked(perm, y, quota);
      IsSubseq(s, perm) && Distinct(s) && AllBelow(s, |y|)
  {
    var s := Picked(perm, y, quota);
    PermutationFacts(perm, |y|);
    PickedSubseq(perm, y, quota);
    SubseqMultiset(s, perm);
    SubMultisetDistinct(s, perm);
    forall i | 0 <= i < |s| ensures s[i] < |y| {
      assert s[i] in multiset(s);
    }
  }

  /** Per class, the reference selection holds the first quota-many members
      of that class; from a permutation of the rows with quotas no larger than
      the class populations, exactly quota-many. */
  lemma {:induction false} SampleClasses(perm: seq<nat>, y: seq<nat>, quota: seq<int>)
    requires IsPermutation(perm, |y|)
    ensures forall c | 0 <= c < |quota| ::
      OfClass(Picked(perm, y, quota), y, c) == OfClass(perm, y, c)[..Cap(|OfClass(perm, y, c)|, quota[c])]
    ensures forall c | 0 <= c < |quota| && 0 <= quota[c] <= multiset(y)[c] ::
      |OfClass(Picked(perm, y, quota), y, c)| == quota[c]
  {
    forall c | 0 <= c < |quota|
      ensures OfClass(Picked(perm, y, quota), y, c) == OfClass(perm, y, c)[..Cap(|OfClass(perm, y, c)|, quota[c])]
      ensures 0 <= quota[c] <= multiset(y)[c] ==> |OfClass(Picked(perm, y, quota), y, c)| == quota[c]
    {
      PickedClass(perm, y, quota, c);
      OfClassPermutation(perm, y, c);
    }
  }

  lemma {:induction false} SamplerScan(prop: real, numClasses: nat, y: seq<nat>, perm: seq<nat>)
    requires IsPermutation(perm, |y|)
    requires AllBelow(y, numClasses) && (|y| > 0 || numClasses == 0)
    ensures var quota := Quotas(prop, numClasses, y);
      Scan(perm, y, quota, Sum(quota), 0, seq(numClasses, _ => 0), 0, []) == Ok(Picked(perm, y, quota))
    ensures 0.0 <= prop ==> |Picked(perm, y, Quotas(prop, numClasses, y))| == Sum(Quotas(prop, numClasses, y))
  {
    var quota := Quotas(prop, numClasses, y);
    var zeros: seq<int> := seq(numClasses, _ => 0);
    SumZeros(numClasses);
    if 0.0 <= prop {
      QuotasFillable(prop, numClasses, y, perm);
      assert ScanState(perm, y, quota, 0, zeros, 0, []) by {
        assert perm[..0] == [];
      }
      ScanPicks(perm, y, quota, 0, zeros, 0, []);
    } else {
      NothingPicked(perm, y, quota);
      SumBelow(quota, zeros);
    }
  }

  lemma {:induction false} QuotasFillable(prop: real, numClasses: nat, y: seq<nat>, perm: seq<nat>)
    requires IsPermutation(perm, |y|)
    requires AllBelow(y, numClasses) && (|y| > 0 || numClasses == 0)
    requires 0.0 <= prop
    ensures Fillable(perm, y, Quotas(prop, numClasses, y))
  {
    var quota := Quotas(prop, numClasses, y);
    PermutationFacts(perm, |y|);
    forall c | 0 <= c < numClasses ensures 0 <= quota[c] <= |OfClass(perm, y, c)| {
      OfClassPermutation(perm, y, c);
    }
  }

  lemma {:induction false} SumZeros(n: nat)
    ensures Sum(seq(n, _ => 0)) == 0
  {
    if n > 0 {
      assert seq(n, _ => 0)[1..] == seq(n - 1, _ => 0);
      SumZeros(n - 1);
    }
  }
}
