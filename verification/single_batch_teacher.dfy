/** The teacher that hands the learner one batch, a prefix of its shuffled
    order, and never queries or teaches again. */
module SingleBatchTeacher {
  import opened Results
  import opened IdSeq
  import opened PyOps
  import GenericTeacher

  /** The shuffled order of the rows is an input: the seeded shuffle is not
      part of this model. */
  datatype SingleBatch = SingleBatch(frac: real, base: GenericTeacher.Base, shuffled: seq<nat>)
  {
    ghost predicate Valid() {
      |shuffled| == |base.y| && IsPermutation(shuffled, |base.y|)
    }
  }

  /** `start`: remembers the shuffled order, then runs the shared `_start`,
      whose row-count assertion can fail. */
  function Start(frac: real, rowsX: nat, y: seq<nat>, perm: seq<nat>): (r: Result<SingleBatch>)
    requires IsPermutation(perm, |y|)
    ensures r.Ok? <==> rowsX == |y|
    ensures r.Ok? ==> r.value.Valid() && r.value.base.y == y && r.value.frac == frac
  {
    var base :- GenericTeacher.Start(rowsX, y);
    PermutationFacts(perm, |y|);
    Ok(SingleBatch(frac, base, perm))
  }

  /** The number of ids the first batch asks for: `frac * m` rounded half to even. */
  function FirstSize(t: SingleBatch): int {
    RoundHalfEven(Times(t.frac, |t.base.y|))
  }

  /** `get_first_examples`: the shuffled order cut at `FirstSize`, with a
      negative size counting from the end as Python slicing does. */
  function FirstExamples(t: SingleBatch): (r: seq<nat>)
    requires t.Valid()
    ensures |r| <= |t.shuffled| && r == t.shuffled[..|r|]
    ensures 0 <= FirstSize(t) <= |t.shuffled| ==> |r| == FirstSize(t)
    ensures |t.shuffled| < FirstSize(t) ==> r == t.shuffled
    ensures FirstSize(t) < 0 ==> |r| == if |t.shuffled| + FirstSize(t) < 0 then 0 else |t.shuffled| + FirstSize(t)
    ensures Distinct(r) && AllBelow(r, |t.base.y|)
  {
    PermutationFacts(t.shuffled, |t.base.y|);
    Take(t.shuffled, FirstSize(t))
  }

  /** With the whole dataset requested, the first batch is every row. */
  lemma {:induction false} WholeDataset(t: SingleBatch)
    requires t.Valid() && t.frac == 1.0
    ensures IsPermutation(FirstExamples(t), |t.base.y|)
  {
    PermutationFacts(t.shuffled, |t.base.y|);
    RoundInteger(|t.base.y|);
    TimesOne(|t.base.y|);
    assert FirstSize(t) == |t.shuffled|;
    assert FirstExamples(t) == t.shuffled[..|t.shuffled|] == t.shuffled;
  }

  /** With a fraction in [0, 1] the first batch has the rounded size and
      never more rows than the dataset. */
  lemma {:induction false} FractionSize(t: SingleBatch)
    requires t.Valid() && 0.0 <= t.frac <= 1.0
    ensures 0 <= FirstSize(t) <= |t.base.y|
    ensures |FirstExamples(t)| == FirstSize(t)
  {
    RoundFraction(t.frac, |t.base.y|);
  }

  /** `get_new_examples` never teaches anything more. */
  function NewExamples(t: SingleBatch, testIds: seq<nat>, testLabels: seq<nat>): (r: seq<nat>)
    ensures |r| == 0
  {
    []
  }

  /** `get_new_test_ids` never queries. */
  function NewTestIds(t: SingleBatch, testIds: seq<nat>, testLabels: seq<nat>): (r: seq<nat>)
    ensures |r| == 0
  {
    []
  }
}
