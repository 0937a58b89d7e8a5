/** The teacher that, each round, queries a contiguous block of its shuffled
    order, measures the learner's error on it, and teaches every misclassified
    id of the block plus enough correctly classified ones to fill its batch. */
module FixedPercWrongTeacher {
  import opened Results
  import opened IdSeq
  import opened PyOps
  import GenericTeacher
  import Sampler
  import DoubleTeacher

  /** The default number of ids queried before the first batch size is chosen. */
  const DefaultSampleSize := 300
  const DefaultFracWrongIncrement := 0.1
  /** `np.isclose(error, 0)`: the absolute tolerance with a zero reference. */
  const Tolerance := 0.00000001

  /** Where `get_new_test_ids` stands within a round. */
  datatype Phase = SendNewIds | ChooseBatchSize | SendEmptyNewIds

  /** Teacher state. `s` is `S_current_size`, `batch` is `batch_size`, and
      `done` is set once a queried block came back without errors. */
  datatype Fpw = Fpw(
    fracStart: real, strategy: int, fracWrongIncrement: real, sampleSize: int,
    base: GenericTeacher.Base, numIters: nat, s: nat, batch: int,
    phase: Phase, done: bool, shuffled: seq<nat>, lastAccuracy: real)
  {
    function M(): nat { |base.y| }

    ghost predicate Valid() {
      Bounded() && IsPermutation(shuffled, M())
    }

    predicate Bounded() {
      |shuffled| == M() && s <= M()
    }
  }

  /** `start`: the shared `_start`, then nothing taught, the batch size set
      to the sample size, the first query phase and accuracy 0. */
  function Start(fracStart: real, strategy: int, fracWrongIncrement: real, sampleSize: int,
                 rowsX: nat, y: seq<nat>, perm: seq<nat>): (r: Result<Fpw>)
    requires IsPermutation(perm, |y|)
    ensures r.Ok? <==> rowsX == |y|
    ensures r.Ok? ==> r.value.Valid() && r.value.base.y == y && r.value.s == 0
    ensures r.Ok? ==> (r.value.batch == sampleSize && r.value.phase == SendNewIds
                       && !r.value.done && r.value.lastAccuracy == 0.0 && r.value.numIters == 0)
  {
    var base :- GenericTeacher.Start(rowsX, y);
    PermutationFacts(perm, |y|);
    Ok(Fpw(fracStart, strategy, fracWrongIncrement, sampleSize, base, 0, 0, sampleSize,
           SendNewIds, false, perm, 0.0))
  }

  /** `_keep_going` */
  predicate KeepGoing(t: Fpw) {
    t.s < t.M()
  }

  /** `_send_new_ids` */
  function Send(t: Fpw, ids: seq<nat>): (r: Fpw)
    ensures r.s == t.s + |ids| && r.numIters == t.numIters + 1
    ensures r.shuffled == t.shuffled && r.batch == t.batch && r.base == t.base
    ensures r.(numIters := t.numIters, s := t.s) == t
  {
    t.(numIters := t.numIters + 1, s := t.s + |ids|)
  }

  /** `_get_accuracy`: the accuracy measured by the last `get_new_examples`. */
  function Accuracy(t: Fpw): real {
    t.lastAccuracy
  }

  /** `get_first_examples`: as in the doubling teacher, a stratified sample
      moved to the front; the batch size becomes the sample's size or the
      query size, and an unknown strategy raises ValueError. */
  function FirstExamples(t: Fpw, perm: seq<nat>): (r: Result<(Fpw, seq<nat>)>)
    requires t.Valid() && IsPermutation(perm, t.M())
    ensures r.Ok? ==> Sampler.GetFirstExamples(t.fracStart, DoubleTeacher.NumClasses(t.base.y), t.base.y, perm) == Ok(r.value.1)
    ensures r.Ok? <==> Sampler.GetFirstExamples(t.fracStart, DoubleTeacher.NumClasses(t.base.y), t.base.y, perm).Ok?
                       && (t.strategy == DoubleTeacher.StrategyDoubleSize || t.strategy == DoubleTeacher.StrategyDoubleIncrement)
    ensures r.Ok? ==> var t', ids := r.value.0, r.value.1;
      |ids| <= |t'.shuffled| && IsPermutation(t'.shuffled, t.M()) && t'.shuffled[..|ids|] == ids
      && t'.s == t.s + |ids| && t'.numIters == t.numIters + 1 && t'.base == t.base
      && t'.batch == (if t.strategy == DoubleTeacher.StrategyDoubleSize then |ids| else t.sampleSize)
      && t'.phase == t.phase && t'.done == t.done
    ensures r.Ok? && t.s == 0 ==> r.value.0.Valid()
  {
    var ids :- Sampler.GetFirstExamples(t.fracStart, DoubleTeacher.NumClasses(t.base.y), t.base.y, perm);
    var shuffled := DoubleTeacher.FrontLoad(t.shuffled, t.M(), ids);
    var batch :- DoubleTeacher.StrategyBatch(t.strategy, |ids|, t.sampleSize);
    Ok((Send(t.(shuffled := shuffled, batch := batch), ids), ids))
  }

  /** `y[test_ids]`: the correct labels of the queried ids. */
  function Truth(ids: seq<nat>, y: seq<nat>): (r: seq<nat>)
    requires AllBelow(ids, |y|)
    ensures |r| == |ids| && forall i | 0 <= i < |ids| :: r[i] == y[ids[i]]
  {
    seq(|ids|, i requires 0 <= i < |ids| => y[ids[i]])
  }

  /** The queried ids split, in order, into those the learner labelled wrongly
      and those it labelled correctly. */
  function Partition(ids: seq<nat>, labels: seq<nat>, y: seq<nat>): (r: (seq<nat>, seq<nat>))
    requires |labels| == |ids| && AllBelow(ids, |y|)
    ensures multiset(r.0) + multiset(r.1) == multiset(ids)
    ensures |r.0| + |r.1| == |ids|
    decreases |ids|
  {
    if ids == [] then ([], [])
    else
      var p := Partition(ids[1..], labels[1..], y);
      assert ids == [ids[0]] + ids[1..];
      if labels[0] != y[ids[0]] then ([ids[0]] + p.0, p.1)
      else (p.0, [ids[0]] + p.1)
  }

  /** Each queried id lands in the part its label says. */
  lemma {:induction false} PartitionMembers(ids: seq<nat>, labels: seq<nat>, y: seq<nat>)
    requires |labels| == |ids| && AllBelow(ids, |y|)
    ensures forall i | 0 <= i < |ids| :: labels[i] != y[ids[i]] ==> ids[i] in Partition(ids, labels, y).0
    ensures forall i | 0 <= i < |ids| :: labels[i] == y[ids[i]] ==> ids[i] in Partition(ids, labels, y).1
    decreases |ids|
  {
    if ids != [] {
      PartitionMembers(ids[1..], labels[1..], y);
      forall i | 1 <= i < |ids|
        ensures labels[i] != y[ids[i]] ==> ids[i] in Partition(ids, labels, y).0
        ensures labels[i] == y[ids[i]] ==> ids[i] in Partition(ids, labels, y).1
      {
        assert ids[1..][i - 1] == ids[i] && labels[1..][i - 1] == labels[i];
      }
    }
  }

  /** The wrongly labelled part counts exactly the mismatches between the
      predictions and the correct labels. */
  lemma {:induction false} PartitionCount(ids: seq<nat>, labels: seq<nat>, y: seq<nat>)
    requires |labels| == |ids| && AllBelow(ids, |y|)
    ensures |Partition(ids, labels, y).0| == GenericTeacher.Mismatches(Truth(ids, y), labels)
    decreases |ids|
  {
    if ids != [] {
      PartitionCount(ids[1..], labels[1..], y);
      assert Truth(ids, y)[1..] == Truth(ids[1..], y);
    }
  }

  /** `self.shuffled_ids[s:] = vals` under NumPy's assignment rule: the
      values must fill the slice exactly or be a single value broadcast over
      it; anything else raises ValueError. */
  function AssignTail(p: seq<nat>, s: nat, vals: seq<nat>): (r: Result<seq<nat>>)
    requires s <= |p|
    ensures r.Ok? <==> |vals| == |p| - s || |vals| == 1
    ensures r.Ok? ==> |r.value| == |p| && r.value[..s] == p[..s]
    ensures |vals| == |p| - s ==> r == Ok(p[..s] + vals)
    ensures r.Ok? && |vals| == 1 ==> forall i | s <= i < |p| :: r.value[i] == vals[0]
  {
    if |vals| == |p| - s then Ok(p[..s] + vals)
    else if |vals| == 1 then Ok(p[..s] + seq(|p| - s, _ => vals[0]))
    else Err(ValueError("could not broadcast"))
  }

  /** The ids one `get_new_examples` teaches: every wrongly labelled queried
      id, then correctly labelled ones up to the batch size. */
  function Chosen(wrong: seq<nat>, correct: seq<nat>, batch: int): seq<nat> {
    wrong + Take(correct, batch - |wrong|)
  }

  /** The correctly labelled queried ids that are not taught; they go to
      the back of the shuffled order. */
  function Unselected(wrong: seq<nat>, correct: seq<nat>, batch: int): seq<nat> {
    Drop(correct, batch - |wrong|)
  }

  /** `get_new_examples`. When the teacher is finished, nothing. Otherwise
      the untaught part of the shuffled order is rewritten (see `Taught`).
      Querying an id outside the dataset raises IndexError, a query longer
      than the untaught part cannot be assigned back (ValueError), and an
      empty query divides by zero. */
  function NewExamples(t: Fpw, testIds: seq<nat>, testLabels: seq<nat>): (r: Result<(Fpw, seq<nat>)>)
    requires t.Bounded() && |testLabels| == |testIds|
    ensures !KeepGoing(t) || t.done ==> r == Ok((t, []))
    ensures KeepGoing(t) && !t.done ==>
      (r.Ok? <==> AllBelow(testIds, t.M()) && |testIds| <= t.M() - t.s && |testIds| > 0)
    ensures KeepGoing(t) && !t.done && !AllBelow(testIds, t.M()) ==> r == Err(IndexError)
    ensures KeepGoing(t) && !t.done && AllBelow(testIds, t.M()) && |testIds| == 0 ==> r == Err(ZeroDivisionError)
    ensures KeepGoing(t) && !t.done && AllBelow(testIds, t.M()) && t.M() - t.s < |testIds| ==> r.Err? && r.error.ValueError?
    ensures r.Ok? && KeepGoing(t) && !t.done ==> r.value == Taught(t, testIds, testLabels)
  {
    if !KeepGoing(t) || t.done then Ok((t, []))
    else if !AllBelow(testIds, t.M()) then Err(IndexError)
    else
      var parts := Partition(testIds, testLabels, t.base.y);
      var wrong, correct := parts.0, parts.1;
      var vals := Chosen(wrong, correct, t.batch) + Drop(t.shuffled, t.s + |testIds|)
                  + Unselected(wrong, correct, t.batch);
      TailLength(t.shuffled, t.s, testIds, wrong, correct, t.batch);
      var shuffled :- AssignTail(t.shuffled, t.s, vals);
      if |testIds| == 0 then Err(ZeroDivisionError)
      else Ok(Taught(t, testIds, testLabels))
  }

  /** The successful path of `get_new_examples`: the chosen ids are taught,
      the untaught part of the shuffled order becomes the chosen ids, the ids
      after the queried block, then the unselected ones; the accuracy on the
      queried block is recorded and the batch size doubles. */
  function Taught(t: Fpw, testIds: seq<nat>, testLabels: seq<nat>): (r: (Fpw, seq<nat>))
    requires t.Bounded() && |testLabels| == |testIds|
    requires AllBelow(testIds, t.M()) && 0 < |testIds| <= t.M() - t.s
    ensures r.0.Bounded() && r.0.base == t.base
    ensures r.1 == Chosen(Partition(testIds, testLabels, t.base.y).0, Partition(testIds, testLabels, t.base.y).1, t.batch)
    ensures r.0.shuffled == Rewritten(t.shuffled, t.s, |testIds|, Partition(testIds, testLabels, t.base.y).0,
                                      Partition(testIds, testLabels, t.base.y).1, t.batch)
    ensures r.0.s == t.s + |r.1| && r.0.numIters == t.numIters + 1
    ensures r.0.batch == 2 * t.batch && r.0.phase == SendNewIds && r.0.done == t.done
  {
    var parts := Partition(testIds, testLabels, t.base.y);
    var wrong, correct := parts.0, parts.1;
    var ids := Chosen(wrong, correct, t.batch);
    var shuffled := Rewritten(t.shuffled, t.s, |testIds|, wrong, correct, t.batch);
    ChosenSplit(wrong, correct, t.batch);
    DropInRange(t.shuffled, t.s + |testIds|);
    var error := GenericTeacher.ErrorRate(|wrong|, |testIds|);
    (Send(t.(shuffled := shuffled, lastAccuracy := 1.0 - error, batch := t.batch * 2,
             phase := SendNewIds), ids), ids)
  }

  /** The shuffled order after `get_new_examples`: the taught prefix, the
      chosen ids, the ids after the queried block of `n`, then the
      unselected ones. */
  function Rewritten(p: seq<nat>, s: nat, n: nat, wrong: seq<nat>, correct: seq<nat>, batch: int): (r: seq<nat>)
    requires s <= |p|
    ensures s <= |r| && r[..s] == p[..s]
    ensures s + |Chosen(wrong, correct, batch)| <= |r| && r[s..s + |Chosen(wrong, correct, batch)|] == Chosen(wrong, correct, batch)
  {
    p[..s] + (Chosen(wrong, correct, batch) + Drop(p, s + n) + Unselected(wrong, correct, batch))
  }

  /** The chosen and the unselected ids together are the queried ones. */
  lemma {:induction false} ChosenSplit(wrong: seq<nat>, correct: seq<nat>, batch: int)
    ensures Chosen(wrong, correct, batch) + Unselected(wrong, correct, batch) == wrong + correct
    ensures |Chosen(wrong, correct, batch)| + |Unselected(wrong, correct, batch)| == |wrong| + |correct|
  {
    TakeDrop(correct, batch - |wrong|);
  }

  lemma {:induction false} DropInRange(p: seq<nat>, k: nat)
    requires k <= |p|
    ensures Drop(p, k) == p[k..] && |Drop(p, k)| == |p| - k
  {
  }

  /** The rewritten tail is as long as the query or the untaught part,
      whichever is longer, so it fits exactly when the query fits. */
  lemma {:induction false} TailLength(p: seq<nat>, s: nat, testIds: seq<nat>, wrong: seq<nat>, correct: seq<nat>, batch: int)
    requires s < |p| && |wrong| + |correct| == |testIds|
    ensures var n := |Chosen(wrong, correct, batch) + Drop(p, s + |testIds|) + Unselected(wrong, correct, batch)|;
      (n == |p| - s <==> |testIds| <= |p| - s) && (n == 1 ==> |testIds| <= |p| - s)
  {
    TakeDrop(correct, batch - |wrong|);
    assert |Chosen(wrong, correct, batch)| + |Unselected(wrong, correct, batch)| == |testIds|;
  }

  /** The accuracy `get_new_examples` records is the shared accuracy of the
      predictions on the queried ids. */
  lemma {:induction false} LastAccuracy(testIds: seq<nat>, testLabels: seq<nat>, y: seq<nat>)
    requires |testLabels| == |testIds| && AllBelow(testIds, |y|) && |testIds| > 0
    ensures GenericTeacher.Accuracy(Truth(testIds, y), testLabels)
            == Ok(1.0 - GenericTeacher.ErrorRate(|Partition(testIds, testLabels, y).0|, |testIds|))
  {
    var truth := Truth(testIds, y);
    var w := |GenericTeacher.WrongIds(truth, testLabels)|;
    assert GenericTeacher.Accuracy(truth, testLabels) == Ok(1.0 - GenericTeacher.ErrorRate(w, |truth|));
    assert w == |Partition(testIds, testLabels, y).0| by {
      PartitionCount(testIds, testLabels, y);
      GenericTeacher.WrongIdsCount(truth, testLabels);
    }
  }

  /** The accuracy a successful `get_new_examples` records is the shared
      accuracy of the learner's labels on the queried ids. */
  lemma {:induction false} TaughtAccuracy(t: Fpw, testIds: seq<nat>, testLabels: seq<nat>)
    requires t.Bounded() && |testLabels| == |testIds|
    requires AllBelow(testIds, t.M()) && 0 < |testIds| <= t.M() - t.s
    ensures GenericTeacher.Accuracy(Truth(testIds, t.base.y), testLabels)
            == Ok(Taught(t, testIds, testLabels).0.lastAccuracy)
  {
    var e := GenericTeacher.ErrorRate(|Partition(testIds, testLabels, t.base.y).0|, |testIds|);
    assert Taught(t, testIds, testLabels).0.lastAccuracy == 1.0 - e;
    LastAccuracy(testIds, testLabels, t.base.y);
    assert GenericTeacher.Accuracy(Truth(testIds, t.base.y), testLabels) == Ok(1.0 - e);
  }

  /** Every queried id the learner labelled wrongly is taught. */
  lemma {:induction false} WrongTaught(t: Fpw, testIds: seq<nat>, testLabels: seq<nat>)
    requires t.Bounded() && |testLabels| == |testIds|
    requires AllBelow(testIds, t.M()) && 0 < |testIds| <= t.M() - t.s
    ensures forall i | 0 <= i < |testIds| && testLabels[i] != t.base.y[testIds[i]] ::
      testIds[i] in Taught(t, testIds, testLabels).1
  {
    var parts := Partition(testIds, testLabels, t.base.y);
    PartitionMembers(testIds, testLabels, t.base.y);
    assert Taught(t, testIds, testLabels).1[..|parts.0|] == parts.0;
  }

  /** When the errors fit in the batch, correctly labelled ids fill the
      rest of it as far as the query allows. */
  lemma {:induction false} ChosenFill(wrong: seq<nat>, correct: seq<nat>, batch: int)
    requires |wrong| <= batch
    ensures |Chosen(wrong, correct, batch)| == Min(batch, |wrong| + |correct|)
  {
  }

  /** When there are more errors than the batch holds, the slice bound is
      negative and counts from the end: every error is taught together with
      all but the last `|wrong| - batch` correctly labelled ids. */
  lemma {:induction false} ChosenOverflow(wrong: seq<nat>, correct: seq<nat>, batch: int)
    requires batch < |wrong|
    ensures var k := |correct| - (|wrong| - batch);
      Chosen(wrong, correct, batch) == wrong + correct[..if k < 0 then 0 else k]
  {
  }

  function Min(a: int, b: int): int {
    if a < b then a else b
  }

  function Max(a: int, b: int): int {
    if a < b then b else a
  }

  /** Rewriting the untaught part after a query of the block right after the
      taught prefix keeps a permutation, leaves the taught prefix alone, and
      puts the newly taught ids, all different, right after it. */
  lemma {:induction false} ReorderPermutation(t: Fpw, testIds: seq<nat>, testLabels: seq<nat>)
    requires t.Valid() && |testLabels| == |testIds|
    requires 0 < |testIds| && t.s + |testIds| <= t.M() && testIds == t.shuffled[t.s..t.s + |testIds|]
    requires AllBelow(testIds, t.M())
    ensures var r := Taught(t, testIds, testLabels);
      r.0.Valid() && r.0.shuffled[..t.s] == t.shuffled[..t.s]
      && t.s + |r.1| <= t.M() && r.0.shuffled[t.s..t.s + |r.1|] == r.1
      && Distinct(r.1)
  {
    ReorderValid(t, testIds, testLabels);
    ReorderPlacement(t, testIds, testLabels);
  }

  lemma {:induction false} ReorderValid(t: Fpw, testIds: seq<nat>, testLabels: seq<nat>)
    requires t.Valid() && |testLabels| == |testIds|
    requires 0 < |testIds| && t.s + |testIds| <= t.M() && testIds == t.shuffled[t.s..t.s + |testIds|]
    requires AllBelow(testIds, t.M())
    ensures Taught(t, testIds, testLabels).0.Valid()
    ensures Distinct(Taught(t, testIds, testLabels).1)
  {
    var parts := Partition(testIds, testLabels, t.base.y);
    RewritePermutation(t.shuffled, t.M(), t.s, testIds, parts.0, parts.1, t.batch);
  }

  lemma {:induction false} ReorderPlacement(t: Fpw, testIds: seq<nat>, testLabels: seq<nat>)
    requires t.Bounded() && |testLabels| == |testIds|
    requires 0 < |testIds| <= t.M() - t.s
    requires AllBelow(testIds, t.M())
    ensures var r := Taught(t, testIds, testLabels);
      r.0.shuffled[..t.s] == t.shuffled[..t.s]
      && t.s + |r.1| <= |r.0.shuffled| && r.0.shuffled[t.s..t.s + |r.1|] == r.1
  {
  }

  /** The sequence-level fact behind `ReorderPermutation`. */
  lemma {:induction false} RewritePermutation(p: seq<nat>, m: nat, s: nat, testIds: seq<nat>,
                           wrong: seq<nat>, correct: seq<nat>, batch: int)
    requires IsPermutation(p, m) && |p| == m
    requires s + |testIds| <= m && testIds == p[s..s + |testIds|]
    requires multiset(wrong) + multiset(correct) == multiset(testIds)
    ensures IsPermutation(Rewritten(p, s, |testIds|, wrong, correct, batch), m)
    ensures |Rewritten(p, s, |testIds|, wrong, correct, batch)| == m
    ensures Distinct(Chosen(wrong, correct, batch))
  {
    var ids := Chosen(wrong, correct, batch);
    var q := Rewritten(p, s, |testIds|, wrong, correct, batch);
    RewriteMultiset(p, s, testIds, wrong, correct, batch);
    PermutationFacts(q, m);
    SubseqDistinct(q, s, s + |ids|);
  }

  /** Rewriting the tail after the queried block only reorders it. */
  lemma {:induction false} RewriteMultiset(p: seq<nat>, s: nat, testIds: seq<nat>,
                        wrong: seq<nat>, correct: seq<nat>, batch: int)
    requires s + |testIds| <= |p| && testIds == p[s..s + |testIds|]
    requires multiset(wrong) + multiset(correct) == multiset(testIds)
    ensures multiset(Rewritten(p, s, |testIds|, wrong, correct, batch)) == multiset(p)
  {
    var ids := Chosen(wrong, correct, batch);
    var rest := Unselected(wrong, correct, batch);
    var tail := p[s + |testIds|..];
    DropInRange(p, s + |testIds|);
    assert multiset(ids) + multiset(rest) == multiset(testIds) by {
      ChosenSplit(wrong, correct, batch);
      assert multiset(ids + rest) == multiset(wrong + correct);
    }
    assert p == p[..s] + testIds + tail;
    assert Rewritten(p, s, |testIds|, wrong, correct, batch) == p[..s] + ids + tail + rest;
  }

  lemma {:induction false} SubseqDistinct(p: seq<nat>, a: nat, b: nat)
    requires Distinct(p) && a <= b <= |p|
    ensures Distinct(p[a..b])
  {
    assert forall i | 0 <= i < b - a :: p[a..b][i] == p[a + i];
  }

  /** The error on a query of `n` ids, `w` of them wrong, is never negative
      and below 1 unless every id is wrong: the assertions after it hold. */
  lemma {:induction false} ErrorBounds(w: nat, n: nat)
    requires w <= n && 0 < n
    ensures var e := w as real / n as real; (e > 0.0 || w == 0) && (e < 1.0 || w == n) && 0.0 <= e
  {
  }

  /** The increment the error buys: the fraction of the batch scaled up by
      the error, minus the fraction itself, never negative. */
  function Increment(fracWrongIncrement: real, batch: int, error: real): (r: int)
    requires error > 0.0
    ensures r >= 0
    ensures r == 0 || r == Trunc(fracWrongIncrement * batch as real / error) - Trunc(fracWrongIncrement * batch as real)
  {
    Max(Trunc(fracWrongIncrement * batch as real / error) - Trunc(fracWrongIncrement * batch as real), 0)
  }

  /** `get_new_test_ids`. Once everything is taught, nothing; otherwise the
      phase decides: the first queries the block after the taught prefix
      (`FirstQuery`), the second measures the error on it and queries on
      (`SecondQuery`), the third queries nothing. Only an id outside the
      dataset or an empty first block can make it raise: its assertions on
      the error always hold. */
  function NewTestIds(t: Fpw, testIds: seq<nat>, testLabels: seq<nat>): (r: Result<(Fpw, seq<nat>)>)
    requires t.Bounded() && |testLabels| == |testIds|
    ensures r.Ok? ==> (r.value.0.Bounded() && r.value.0.s == t.s && r.value.0.shuffled == t.shuffled
                       && r.value.0.base == t.base && r.value.0.batch == t.batch)
    ensures r.Err? ==> r.error == IndexError || r.error == ZeroDivisionError
    ensures !KeepGoing(t) || t.phase == SendEmptyNewIds ==> r == Ok((t, []))
    ensures KeepGoing(t) && t.phase == SendNewIds ==> r == Ok(FirstQuery(t))
    ensures KeepGoing(t) && t.phase == ChooseBatchSize ==> r == SecondQuery(t, testIds, testLabels)
  {
    if !KeepGoing(t) then Ok((t, []))
    else match t.phase
      case SendNewIds => Ok(FirstQuery(t))
      case ChooseBatchSize => SecondQuery(t, testIds, testLabels)
      case SendEmptyNewIds => Ok((t, []))
  }

  /** The first phase: the query size becomes the taught count, and the block
      of that many ids right after the taught prefix is queried. */
  function FirstQuery(t: Fpw): (r: (Fpw, seq<nat>))
    requires t.Bounded()
    ensures r.0 == t.(sampleSize := t.s, phase := ChooseBatchSize)
    ensures t.s + |r.1| <= t.M() && r.1 == t.shuffled[t.s..t.s + |r.1|]
    ensures |r.1| == Min(t.s, t.M() - t.s)
  {
    (t.(sampleSize := t.s, phase := ChooseBatchSize), Slice(t.shuffled, t.s, Min(t.s + t.s, t.M())))
  }

  /** The second phase: the error on the queried block decides. No error
      (within `np.isclose`) finishes the teacher with nothing queried;
      otherwise the block from the end of the first one up to the batch
      size plus an increment is queried. An id outside the dataset raises
      IndexError and an empty query divides by zero. */
  function SecondQuery(t: Fpw, testIds: seq<nat>, testLabels: seq<nat>): (r: Result<(Fpw, seq<nat>)>)
    requires t.Bounded() && |testLabels| == |testIds|
    ensures r.Ok? <==> AllBelow(testIds, t.M()) && |testIds| > 0
    ensures r.Err? ==> r.error == (if AllBelow(testIds, t.M()) then ZeroDivisionError else IndexError)
    ensures r.Ok? ==> r.value.0.(phase := t.phase, done := t.done) == t
    ensures r.Ok? && Partition(testIds, testLabels, t.base.y).0 == [] ==> r.value.0.done && r.value.1 == []
    ensures r.Ok? && r.value.1 != [] ==> r.value.0.phase == SendEmptyNewIds && r.value.0.done == t.done
    ensures r.Ok? && 0 <= t.sampleSize && r.value.1 != [] ==>
      t.s + t.sampleSize < t.M() && t.s + t.sampleSize + |r.value.1| <= t.M()
      && r.value.1 == t.shuffled[t.s + t.sampleSize..t.s + t.sampleSize + |r.value.1|]
      && Min(t.s + t.batch, t.M()) <= t.s + t.sampleSize + |r.value.1|
  {
    if !AllBelow(testIds, t.M()) then Err(IndexError)
    else
      var wrong := Partition(testIds, testLabels, t.base.y).0;
      if |testIds| == 0 then Err(ZeroDivisionError)
      else
        var error := GenericTeacher.ErrorRate(|wrong|, |testIds|);
        if error <= Tolerance then Ok((t.(done := true), []))
        else
          var inc := Increment(t.fracWrongIncrement, t.batch, error);
          var lo := t.s + t.sampleSize;
          var hi := Min(t.s + t.batch + inc, t.M());
          ChooseBlock(t.shuffled, lo, hi, t.s + t.batch);
          Ok((t.(phase := SendEmptyNewIds), Slice(t.shuffled, lo, hi)))
  }

  /** The block the second phase queries: a contiguous run starting at `lo`
      that, when not empty, reaches at least to the batch end. */
  lemma {:induction false} ChooseBlock(p: seq<nat>, lo: int, hi: int, target: int)
    requires hi <= |p| && Min(target, |p|) <= hi
    ensures var b := Slice(p, lo, hi);
      0 <= lo && b != [] ==> lo < |p| && lo + |b| <= |p| && b == p[lo..lo + |b|] && Min(target, |p|) <= lo + |b|
  {
  }

  /** One round of queries from the first phase: the two blocks together are
      one contiguous run of the shuffled order right after the taught prefix,
      so `get_new_examples` afterwards receives exactly what
      `ReorderPermutation` needs. */
  lemma {:induction false} QueryRound(t: Fpw, labels: seq<nat>)
    requires t.Bounded() && |labels| == |FirstQuery(t).1|
    requires SecondQuery(FirstQuery(t).0, FirstQuery(t).1, labels).Ok?
    ensures var a := FirstQuery(t).1;
      var b := SecondQuery(FirstQuery(t).0, a, labels).value.1;
      t.s + |a| + |b| <= t.M() && a + b == t.shuffled[t.s..t.s + |a| + |b|]
  {
    var t1 := FirstQuery(t).0;
    var a := FirstQuery(t).1;
    var b := SecondQuery(t1, a, labels).value.1;
    if b != [] {
      Adjacent(t.shuffled, t.s, a, b);
    }
  }

  /** Two consecutive runs of a sequence join into one. */
  lemma {:induction false} Adjacent(p: seq<nat>, s: nat, a: seq<nat>, b: seq<nat>)
    requires s + |a| + |b| <= |p|
    requires a == p[s..s + |a|] && b == p[s + |a|..s + |a| + |b|]
    ensures a + b == p[s..s + |a| + |b|]
  {
    DoubleTeacher.SliceJoin(p, s, s + |a|, s + |a| + |b|);
  }
}
