# Machine teaching: a Dafny model of the teaching protocol and its teachers

This project models the core of a time-constrained machine-teaching framework.

A *teacher* knows the correct labels of a dataset. It hands a *learner* a small
training set, looks at the learner's predictions, and decides which further
rows to teach, until it has nothing more to send or time runs out. The
*protocol* (`teach`) drives that loop. It keeps a log row per round and
optionally retains the best learner seen so far, judged by a confidence
bound on the teacher's reported accuracy.

The model covers:

- the **stratified sampler** that draws every teacher's first batch (`Sampler`);
- the helpers shared by all teachers (`GenericTeacher`) and the four teachers:
  - `SingleBatchTeacher`: one prefix of a shuffled order;
  - `DoubleTeacher`: runs of a shuffled order that double in length;
  - `FixedPercWrongTeacher`: a three-phase query sub-protocol that reorders
    its shuffled order;
  - `WtfTeacher`: weight doubling over the misclassified rows, with a sweep
    of sorted random draws;
- the interface the protocol sees of them (`Teachers`);
- the `teach` loop with its tests, its log and the best-learner retention
  (`Protocol`);
- the five-state stopwatch and its arithmetic (`Timer`);
- the averaging algebra of results (`TeachResult`);
- the mixed-radix counter (`CustomIterator`) and the configuration-grid
  reader built on it (`ConfigurationCursor`, `ConfigurationReader`).

Everything is functional. Each piece of state is an immutable datatype and
each operation is a pure function. An operation that can raise an exception
returns a `Result` whose `Err` names the Python exception (`Results`). Python's
and NumPy's slicing and rounding conventions are defined once in `PyOps`, and
facts about id sequences live in `IdSeq` and `Subseqs`.

These things are passed in as arguments rather than computed:

- shuffled permutations, random draws and clock readings;
- the learner's `fit`, which returns a hypothesis on every row;
- the statistical lower bound used to score a learner;
- the number of rounds the time budget allows.

## Model

| member | source | states |
|---|---|---|
| Results.Check | machine_teacher/GenericTeacher.py:161-164 | a Python `assert` fails, with AssertionError, exactly when its condition is false |
| PyOps.Bound | machine_teacher/Teachers/FixedPercWrongTeacher.py:89-91 | a slice bound, negative ones counted from the end, always lands inside the sequence |
| PyOps.TakeDrop | machine_teacher/Teachers/FixedPercWrongTeacher.py:89-91 | `s[:k] + s[k:]` gives `s` back for every integer `k`, negative ones included |
| PyOps.SliceInRange | machine_teacher/Teachers/DoubleTeacher.py:65-67 | a Python slice whose bounds lie inside the sequence is the ordinary subsequence |
| PyOps.Ceil | machine_teacher/Utils/Sampler.py:46 | `np.ceil` gives the least integer at or above its argument |
| PyOps.Trunc | machine_teacher/Teachers/WTFTeacher.py:36 | `int()` of a float truncates toward zero, for both signs |
| PyOps.RoundHalfEven | machine_teacher/Teachers/SingleBatchTeacher.py:20 | `np.round` gives an integer within one half, and on a tie the even one |
| PyOps.RoundFraction | machine_teacher/Teachers/SingleBatchTeacher.py:20-21 | rounding a fraction in [0, 1] of `n` rows gives a size between 0 and `n` |
| PyOps.TimesProduct | machine_teacher/Teachers/SingleBatchTeacher.py:20 | the fraction-times-count used by the teachers is the real product |
| IdSeq.Range | machine_teacher/GenericTeacher.py:160 | `np.arange(n)` holds `i` at position `i`, for every `i < n` |
| IdSeq.Without | machine_teacher/Teachers/DoubleTeacher.py:46-48 | the filtered order holds exactly the elements not excluded, each no more often than before |
| IdSeq.PermutationFacts | machine_teacher/Teachers/SingleBatchTeacher.py:31-35 | a shuffled `0..m-1` has length m, no repeated id, and holds exactly the ids below m |
| IdSeq.FrontLoadPermutation | machine_teacher/Teachers/DoubleTeacher.py:46-48 | moving a repeat-free batch drawn from a permutation to its front leaves a permutation |
| Subseqs.OfClassPermutation | machine_teacher/Utils/Sampler.py:17-20 | a permutation of the rows holds as many ids of class c as the labels count for c |
| Sampler.Tally | machine_teacher/Utils/Sampler.py:19-20 | counting succeeds exactly when every label has a slot, and then slot c gains the number of rows labelled c |
| Sampler.ClassDistribution | machine_teacher/Utils/Sampler.py:17-20 | `class_distribution[c]` is the number of rows labelled c; a label outside the classes raises IndexError |
| Sampler.ClassQuota | machine_teacher/Utils/Sampler.py:46-47 | a class's quota is the ceiling of its share of the sample, cut at the class size, and at least 1 for a present class when the sample is positive |
| Sampler.ClassSamples | machine_teacher/Utils/Sampler.py:42-50 | one quota per class, none above its class size; an empty dataset with classes divides by zero |
| Sampler.PickedClass | machine_teacher/Utils/Sampler.py:31-38 | the kept ids of class c are the first quota-many members of class c in the shuffled order |
| Sampler.PickedSubseq | machine_teacher/Utils/Sampler.py:31-38 | the kept ids are a subsequence of the shuffled order |
| Sampler.NoMorePicks | machine_teacher/Utils/Sampler.py:31-38 | once every class has met its quota, the rest of the order adds nothing |
| Sampler.ScanKeep | machine_teacher/Utils/Sampler.py:34-37 | keeping an id of a class below quota preserves the scan loop's invariant |
| Sampler.ScanSkip | machine_teacher/Utils/Sampler.py:34-38 | skipping an id of a full class preserves the scan loop's invariant |
| Sampler.ScanPicks | machine_teacher/Utils/Sampler.py:29-38 | with quotas no larger than the classes, the scan never reads past the order and returns the reference selection, whose length is the sum of the quotas |
| Sampler.QuotasAgree | machine_teacher/Utils/Sampler.py:16-22 | the quotas computed from the class distribution are the per-class ceilings of `prop * count` |
| Sampler.QuotasFillable | machine_teacher/Utils/Sampler.py:45-48 | with a non-negative fraction every quota lies between 0 and its class size, so the scan can fill it |
| Sampler.SampleIds | machine_teacher/Utils/Sampler.py:26-38 | the selection drawn from a permutation is an in-order, repeat-free subsequence of ids below m |
| Sampler.SampleClasses | machine_teacher/Utils/Sampler.py:33-37 | per class, the selection holds the first quota-many members, so exactly the quota when it is fillable |
| Sampler.EveryClassSampled | machine_teacher/Utils/Sampler.py:9-13 | with a positive fraction every class that occurs gets at least one row |
| Sampler.SamplerScan | machine_teacher/Utils/Sampler.py:29-38 | the loop started from zero counts returns the reference selection, of length the sum of the quotas |
| Sampler.SamplePromises | machine_teacher/Utils/Sampler.py:7-40 | with the sampler's own quotas, the scan returns the reference selection: a repeat-free subsequence of the shuffled order whose ids of each class are that class's first ids in the order, exactly its quota of them (for a non-negative fraction), and at least one for every present class (for a positive fraction) |
| Sampler.GetFirstExamples | machine_teacher/Utils/Sampler.py:7-40 | fails exactly on a label without a class or classes without rows; otherwise returns the reference selection: distinct ids below m, in shuffled order, exactly the quota per class, and at least one row of each present class |
| GenericTeacher.Start | machine_teacher/GenericTeacher.py:144-164 | succeeds exactly when X and y have the same row count, and then `ids` is `0..m-1` |
| GenericTeacher.WrongIds | machine_teacher/GenericTeacher.py:166-181 | the ids, in increasing order, of exactly the rows where the hypothesis disagrees with the labels |
| GenericTeacher.Mismatches | machine_teacher/GenericTeacher.py:179-181 | an independent count of disagreements, zero exactly when the hypothesis equals the labels |
| GenericTeacher.WrongIdsCount | machine_teacher/GenericTeacher.py:179-181 | the wrong ids are exactly as many as the disagreements |
| GenericTeacher.Accuracy | machine_teacher/GenericTeacher.py:183-192 | `1 - wrong/m` lies in [0, 1] and is 1 exactly when the hypothesis is right everywhere; an empty dataset divides by zero |
| GenericTeacher.IncreasingUnique | machine_teacher/GenericTeacher.py:179-181 | two increasing id lists with the same elements are equal, so the wrong ids are determined by the mismatching rows |
| GenericTeacher.DefaultTestIds | machine_teacher/GenericTeacher.py:119-138 | before any query it returns every row id, a permutation of the rows; after one it returns nothing |
| SingleBatchTeacher.Start | machine_teacher/Teachers/SingleBatchTeacher.py:14-17 | succeeds exactly when `_start`'s row check passes, keeping the shuffled permutation |
| SingleBatchTeacher.FirstExamples | machine_teacher/Teachers/SingleBatchTeacher.py:19-21 | a prefix of the shuffled order whose length is the rounded size, Python-clamped for sizes out of range; its ids are distinct and valid |
| SingleBatchTeacher.WholeDataset | machine_teacher/Teachers/SingleBatchTeacher.py:19-21 | with fraction 1.0 the first batch is every row |
| SingleBatchTeacher.FractionSize | machine_teacher/Teachers/SingleBatchTeacher.py:19-21 | with a fraction in [0, 1] the batch has exactly the rounded size, at most m |
| SingleBatchTeacher.NewExamples | machine_teacher/Teachers/SingleBatchTeacher.py:23-25 | never sends more examples; the method is a constant, so this row records its behaviour rather than a proved property |
| SingleBatchTeacher.NewTestIds | machine_teacher/Teachers/SingleBatchTeacher.py:27-29 | never queries; a constant, recorded rather than proved |
| DoubleTeacher.Start | machine_teacher/Teachers/DoubleTeacher.py:23-32 | succeeds exactly when the rows match, with nothing taught, batch size 1, no iterations and a permutation as the order |
| DoubleTeacher.Send | machine_teacher/Teachers/DoubleTeacher.py:83-86 | counts one iteration and adds the batch to the taught count, nothing else changes |
| DoubleTeacher.FrontLoad | machine_teacher/Teachers/DoubleTeacher.py:46-48 | the rewritten order is a permutation that starts with the first batch and continues with the old order minus the batch |
| DoubleTeacher.StrategyBatch | machine_teacher/Teachers/DoubleTeacher.py:51-57 | strategy 1 takes the first batch's size, strategy 0 the starting increment, anything else raises ValueError |
| DoubleTeacher.FirstExamples | machine_teacher/Teachers/DoubleTeacher.py:37-59 | returns the sampler's selection, fails exactly when the sampler or the strategy does, and leaves the order a permutation with the batch at its front and the taught count at its size |
| DoubleTeacher.Step | machine_teacher/Teachers/DoubleTeacher.py:61-69 | one round sends the next run of the order, of length `min(s + b, m) - s`, and doubles the batch size; nothing once the order is used up |
| DoubleTeacher.NewExamples | machine_teacher/Teachers/DoubleTeacher.py:61-69 | sends nothing and changes nothing once all rows are taught; otherwise it is one `Step` and one more iteration, keeping the taught count at most m |
| DoubleTeacher.NewTestIds | machine_teacher/Teachers/DoubleTeacher.py:71-73 | never queries; a constant, recorded rather than proved |
| DoubleTeacher.Run | machine_teacher/Teachers/DoubleTeacher.py:61-69 | k rounds send one contiguous run of the order, starting at the taught count |
| DoubleTeacher.AskedDoubles | machine_teacher/Teachers/DoubleTeacher.py:66-68 | k rounds ask for `b + 2b + … = b * (2^k - 1)` ids |
| DoubleTeacher.RunAsked | machine_teacher/Teachers/DoubleTeacher.py:65-68 | after k rounds the taught count is `min(s + b * (2^k - 1), m)` |
| DoubleTeacher.RunIdle | machine_teacher/Teachers/DoubleTeacher.py:34-35 | once all rows are taught, further rounds send nothing |
| DoubleTeacher.RunDistinct | machine_teacher/Teachers/DoubleTeacher.py:61-69 | no id is sent twice across any number of rounds |
| Teachers.AccuracyOf | machine_teacher/Utils/TeachResult.py:56 | the final accuracy: generic teachers compute it from the hypothesis, the query teachers report their last recorded accuracy |
| Teachers.LastAccuracy | machine_teacher/Protocol.py:144-145 | the no-argument `_get_accuracy()` of the best-learner bookkeeping raises TypeError on a teacher without the override |
| Teachers.HypothesisIgnored | machine_teacher/Teachers/FixedPercWrongTeacher.py:174-176 | a teacher that remembers its accuracy answers the same with any hypothesis or none |
| Teachers.GenericNeedsHypothesis | machine_teacher/GenericTeacher.py:183-192 | a generic teacher answers only when given the hypothesis, and then with `GenericTeacher.Accuracy` |
| Teachers.NewTestIds | machine_teacher/GenericTeacher.py:119-138 | the batch teachers query nothing, the WTF teacher queries every row once, and only the fixed-percentage teacher can fail |
| Teachers.WtfTestsEveryRowOnce | machine_teacher/GenericTeacher.py:134-138 | the WTF teacher asks for every row in the first query round and for nothing after |
| FixedPercWrongTeacher.Start | machine_teacher/Teachers/FixedPercWrongTeacher.py:35-47 | succeeds exactly when the rows match, with nothing taught, the batch at the sample size, the first query phase, not done, and a permutation as the order |
| FixedPercWrongTeacher.Send | machine_teacher/Teachers/FixedPercWrongTeacher.py:160-163 | counts one iteration and adds the batch to the taught count, nothing else changes |
| FixedPercWrongTeacher.FirstExamples | machine_teacher/Teachers/FixedPercWrongTeacher.py:58-79 | returns the sampler's selection, fails exactly when the sampler or the strategy does, and leaves the order a permutation with the batch at its front |
| FixedPercWrongTeacher.Truth | machine_teacher/Teachers/FixedPercWrongTeacher.py:86 | `y[test_ids]` holds the correct label of each queried id, position by position |
| FixedPercWrongTeacher.Partition | machine_teacher/Teachers/FixedPercWrongTeacher.py:86-88 | the wrong and correct parts together hold exactly the queried ids |
| FixedPercWrongTeacher.PartitionMembers | machine_teacher/Teachers/FixedPercWrongTeacher.py:87-88 | each queried id lands in the wrong part when the learner's label differs from the truth and in the correct part otherwise |
| FixedPercWrongTeacher.PartitionCount | machine_teacher/Teachers/FixedPercWrongTeacher.py:87-96 | the wrong part counts exactly the mismatches between the truth and the learner's labels |
| FixedPercWrongTeacher.AssignTail | machine_teacher/Teachers/FixedPercWrongTeacher.py:93 | NumPy's `a[s:] = vals` succeeds exactly when the lengths match or one value is broadcast, and never touches `a[:s]` |
| FixedPercWrongTeacher.ChosenSplit | machine_teacher/Teachers/FixedPercWrongTeacher.py:89-91 | the taught ids followed by the unselected ones are the wrong ids followed by the correct ones, whatever the batch size |
| FixedPercWrongTeacher.ChosenFill | machine_teacher/Teachers/FixedPercWrongTeacher.py:89 | when the errors fit in the batch, the taught ids are `min(batch, queried)` many |
| FixedPercWrongTeacher.ChosenOverflow | machine_teacher/Teachers/FixedPercWrongTeacher.py:89 | with more errors than the batch, the negative slice bound teaches every error and all but the last `wrong - batch` correct ids |
| FixedPercWrongTeacher.NewExamples | machine_teacher/Teachers/FixedPercWrongTeacher.py:81-103 | nothing once finished; otherwise succeeds exactly for a non-empty query of valid ids that fits the untaught part, with IndexError, ZeroDivisionError or ValueError naming each failure, and then is `Taught` |
| FixedPercWrongTeacher.Taught | machine_teacher/Teachers/FixedPercWrongTeacher.py:85-103 | teaches the chosen ids, rewrites the untaught part, adds to the taught count, doubles the batch and goes back to the first query phase |
| FixedPercWrongTeacher.Rewritten | machine_teacher/Teachers/FixedPercWrongTeacher.py:91-93 | the rewritten order keeps the taught prefix and continues with the newly taught ids |
| FixedPercWrongTeacher.TailLength | machine_teacher/Teachers/FixedPercWrongTeacher.py:91-93 | the rewritten tail fits the untaught part exactly when the query does |
| FixedPercWrongTeacher.LastAccuracy | machine_teacher/Teachers/FixedPercWrongTeacher.py:96-97 | the recorded `1 - error` is the shared accuracy of the learner's labels on the queried ids |
| FixedPercWrongTeacher.TaughtAccuracy | machine_teacher/Teachers/FixedPercWrongTeacher.py:174-176 | the accuracy a successful round records, and `_get_accuracy` reports, is that shared accuracy |
| FixedPercWrongTeacher.WrongTaught | machine_teacher/Teachers/FixedPercWrongTeacher.py:87-89 | every queried id the learner labelled wrongly is taught |
| FixedPercWrongTeacher.ReorderPermutation | machine_teacher/Teachers/FixedPercWrongTeacher.py:85-93 | after a query of the block right after the taught prefix, the order stays a permutation, the prefix is unchanged and the newly taught ids, all different, follow it |
| FixedPercWrongTeacher.RewriteMultiset | machine_teacher/Teachers/FixedPercWrongTeacher.py:91-93 | rewriting the tail after the queried block only reorders it |
| FixedPercWrongTeacher.ErrorBounds | machine_teacher/Teachers/FixedPercWrongTeacher.py:123-126 | the two assertions on the query error always hold, so they never raise |
| FixedPercWrongTeacher.Increment | machine_teacher/Teachers/FixedPercWrongTeacher.py:136-138 | the increment is never negative, and is either 0 or the difference of the two truncations |
| FixedPercWrongTeacher.NewTestIds | machine_teacher/Teachers/FixedPercWrongTeacher.py:106-150 | nothing once everything is taught or in the last phase; the first phase is `FirstQuery`, the second `SecondQuery`; it never changes the order, the taught count or the batch, and fails only with IndexError or ZeroDivisionError |
| FixedPercWrongTeacher.FirstQuery | machine_teacher/Teachers/FixedPercWrongTeacher.py:111-118 | the sample size becomes the taught count, and the query is the next `min(s, m - s)` ids of the order, in the second phase |
| FixedPercWrongTeacher.SecondQuery | machine_teacher/Teachers/FixedPercWrongTeacher.py:120-148 | succeeds exactly for a non-empty query of valid ids; an error close to 0 finishes the teacher with nothing; otherwise it queries the run of the order that starts after the first block and reaches at least to the batch end, and moves to the last phase |
| FixedPercWrongTeacher.ChooseBlock | machine_teacher/Teachers/FixedPercWrongTeacher.py:139-146 | the second block is a contiguous run of the order reaching at least to `min(s + batch, m)` |
| FixedPercWrongTeacher.QueryRound | machine_teacher/Teachers/FixedPercWrongTeacher.py:111-148 | the two blocks of one query round are one contiguous run right after the taught prefix, which is what `get_new_examples` needs to keep a permutation |
| WtfTeacher.Init | machine_teacher/Teachers/WTFTeacher.py:19-29 | the constructor succeeds exactly when `0 <= frac_start <= frac_stop <= 1`, and otherwise raises AssertionError |
| WtfTeacher.OnesWeights | machine_teacher/Teachers/WTFTeacher.py:41 | the starting weights are all `1 / (2m)` |
| WtfTeacher.Start | machine_teacher/Teachers/WTFTeacher.py:31-46 | succeeds exactly for a non-empty dataset with matching rows (an empty one divides by zero); then `S_max = int(m * frac_stop)`, which lies in `0..m` for a fraction, every weight is `1 / (2m)`, nothing is selected, one draw, no iterations |
| WtfTeacher.TruncFraction | machine_teacher/Teachers/WTFTeacher.py:36 | `int(m * f)` for a fraction `f` in [0, 1] lies in `0..m` |
| WtfTeacher.DeltaH | machine_teacher/Teachers/WTFTeacher.py:95-100 | returns, in increasing order, exactly the misclassified ids not yet selected, and records the accuracy over all misclassified rows; nothing else changes |
| WtfTeacher.RecordedAccuracy | machine_teacher/Teachers/WTFTeacher.py:97 | `(m - wrong) / m` equals the shared accuracy of the hypothesis |
| WtfTeacher.WithoutIncreasing | machine_teacher/Teachers/WTFTeacher.py:98 | removing selected ids keeps the wrong ids in increasing order |
| WtfTeacher.KeepGoing | machine_teacher/Teachers/WTFTeacher.py:48-56 | fails with AssertionError exactly when the labels do not cover every row; otherwise true exactly when some misclassified id is unselected and `S < S_max` |
| WtfTeacher.MassUnits | machine_teacher/Teachers/WTFTeacher.py:104 | `np.sum(w[ids])` is the number of `1 / (2m)` units of those weights over `2m` |
| WtfTeacher.Heavy | machine_teacher/Teachers/WTFTeacher.py:106 | the failure test `v >= 1` holds exactly when the listed weights hold at least `2m` units |
| WtfTeacher.Doubled | machine_teacher/Teachers/WTFTeacher.py:111-113 | the doubling loop stops at the first power of two, counted from its start, that lifts the total to the target |
| WtfTeacher.Scale | machine_teacher/Teachers/WTFTeacher.py:111-113 | `k` is the least power of two with `v * k >= 1` |
| WtfTeacher.Bracket | machine_teacher/Teachers/WTFTeacher.py:111-113 | the scaled total reaches the target and, starting below it, stays under twice the target |
| WtfTeacher.Restart | machine_teacher/Teachers/WTFTeacher.py:106-109 | the weights are kept when their mass is below 1; otherwise all reset to `1 / (2m)` and the number of draws doubles |
| WtfTeacher.NewWeights | machine_teacher/Teachers/WTFTeacher.py:102-118 | after the restart rule, exactly the listed weights are multiplied by `k`, the others are unchanged, the weights stay positive, and every `delta_w` entry is non-negative |
| WtfTeacher.Scaled | machine_teacher/Teachers/WTFTeacher.py:116 | `new_w[wrong] *= k` multiplies the listed weights by `k` and leaves the others alone |
| WtfTeacher.Deltas | machine_teacher/Teachers/WTFTeacher.py:115-117 | `delta_w` has one non-negative entry per listed id |
| WtfTeacher.DeltaHalf | machine_teacher/Teachers/WTFTeacher.py:115-117 | each `delta_w` entry is half the change of that id's weight |
| WtfTeacher.LiftedMass | machine_teacher/Teachers/WTFTeacher.py:102-118 | after the update the listed ids weigh at least 1 together, and less than 2 unless they already weighed at least 1 |
| WtfTeacher.Sweep | machine_teacher/Teachers/WTFTeacher.py:124-144 | the loop hands out picks in strictly increasing position and draw order, each draw lying in its position's slice of the cumulative `delta_w` |
| WtfTeacher.OneDraw | machine_teacher/Teachers/WTFTeacher.py:130-144 | a single draw inside the total weight picks exactly the one id whose slice holds it |
| WtfTeacher.SelectExamples | machine_teacher/Teachers/WTFTeacher.py:120-144 | returns at most `n` and at most `len(wrong)` listed ids, in increasing order when the list is, each one at a position some draw falls into |
| WtfTeacher.Send | machine_teacher/Teachers/WTFTeacher.py:87-93 | one more iteration, the ids become selected and their count is added to `S`; for distinct unselected ids `S` stays the number of selected ids |
| WtfTeacher.DistinctCard | machine_teacher/Teachers/WTFTeacher.py:90-91 | a repeat-free batch adds as many selected ids as it has entries |
| WtfTeacher.FirstExamples | machine_teacher/Teachers/WTFTeacher.py:58-63 | sends the sampler's selection, without the `S_max` cap; an empty selection raises IndexError |
| WtfTeacher.Attempts | machine_teacher/Teachers/WTFTeacher.py:69-79 | the retry loop returns the first non-empty selection, of listed ids and at most `n` of them, with only the weights and the number of draws changed, and `n` never lower |
| WtfTeacher.GetNewExamples | machine_teacher/Teachers/WTFTeacher.py:65-85 | fails with AssertionError exactly on labels that do not cover the rows; sends nothing exactly when no misclassified id is unselected or `S >= S_max`; otherwise sends unselected misclassified ids in increasing order, never taking `S` above `S_max` and keeping `S` the number of selected ids |
| WtfTeacher.Proceed | machine_teacher/Teachers/WTFTeacher.py:69-85 | the teaching branch sends a non-empty batch of unselected misclassified ids and keeps `S <= S_max` |
| WtfTeacher.Capped | machine_teacher/Teachers/WTFTeacher.py:81-83 | the cut keeps a non-empty prefix of at most `S_max - S` ids, and the whole batch when it fits |
| WtfTeacher.SendCapped | machine_teacher/Teachers/WTFTeacher.py:80-85 | sending the cut selection keeps the teacher's invariant and `S <= S_max` |
| Protocol.ColumnNames | machine_teacher/Protocol.py:46-51 | the header has sixteen columns, and the two column constants name the test-accuracy and retained-accuracy columns |
| Protocol.HeaderRow | machine_teacher/Protocol.py:46-49 | the first log row is the header, cell by cell |
| Protocol.Predict | machine_teacher/Protocol.py:220 | `L.predict(X[ids])` gives the classifier's label for each requested row, in order |
| Protocol.InRange | machine_teacher/Protocol.py:105 | indexing `X[ids]` succeeds exactly when every id is a row, and otherwise raises IndexError |
| Protocol.TwoClasses | machine_teacher/Protocol.py:83 | more than one distinct label exactly when two rows carry different labels |
| Protocol.LabelChecks | machine_teacher/Protocol.py:82-84 | the start checks pass exactly when two rows differ in label and some label is 0, and otherwise raise AssertionError |
| Protocol.Accuracy | machine_teacher/Protocol.py:267-271 | unequal lengths fail the assertion and an empty vector divides by zero; otherwise the share of agreeing positions, in [0, 1] and 1 exactly when the vectors are equal |
| Protocol.AccuracyAgrees | machine_teacher/Protocol.py:267-271 | the protocol's accuracy equals the teachers' `_get_accuracy` on the same hypothesis |
| Protocol.SetTimerKeysToZero | machine_teacher/Protocol.py:262-265 | a tick and tock per key at the same instant adds nothing to any field and leaves the timer running |
| Protocol.KeysAppended | machine_teacher/Protocol.py:262-265 | new keys enter the timer's fields in the given order |
| Protocol.ZeroedTimer | machine_teacher/Protocol.py:68-72 | after the start, the timer's fields are exactly training, classification, get_examples, in that order, all at 0 |
| Protocol.RunTests | machine_teacher/Protocol.py:215-225 | the query loop keeps the ids and labels it had, appends valid ids each labelled by the learner, and never passes the row count; a chunk that would fails the assertion |
| Protocol.Tests | machine_teacher/Protocol.py:210-225 | `_run_tests` returns at most `rows` valid ids with the learner's label for each |
| Protocol.TestAccuracy | machine_teacher/Protocol.py:234-237 | the test-set column is `'-'` without a test set, and otherwise an accuracy in [0, 1] |
| Protocol.LogLine | machine_teacher/Protocol.py:227-254 | the log line has twelve cells: the round, the training-set size, the number of queried ids, the time left, the number of training classes, and a number in the test-accuracy column when there is a test set |
| Protocol.Snap | machine_teacher/Protocol.py:115-126 | the top of a round counts the round, snapshots the timer and the training ids, and appends the completed row at once unless the best learner is retained; nothing else changes |
| Protocol.Query | machine_teacher/Protocol.py:130-137 | classifying and asking for examples change only the teacher, the timer and the test ids, and never query more ids than rows |
| Protocol.ReplacesBounds | machine_teacher/Protocol.py:142-152 | the score 2.0 of a round without new ids never passes the retention guard, and an accuracy in [0, 1] at least as good as the best always does |
| Protocol.Score | machine_teacher/Protocol.py:142-146 | 2.0 for a round without new ids, otherwise the teacher's own accuracy lowered by the confidence bound, failing when the teacher cannot report one |
| Protocol.Retain | machine_teacher/Protocol.py:139-162 | without `save_best` the learner is copied before its refit; with it, either the current learner and round are retained or the previous ones are kept, a round without new ids never replaces, and the completed sixteen-cell row names the retained round |
| Protocol.NextTrainIds | machine_teacher/Protocol.py:169-172 | `join_sets` appends the new ids to the training ids, otherwise they replace them |
| Protocol.Train | machine_teacher/Protocol.py:166-180 | no new ids ends the loop with nothing changed; otherwise the learner is refitted on the next training ids, which may not outnumber the rows, and while no copy has been retained the learner the loop will predict with is the refitted one |
| Protocol.Round | machine_teacher/Protocol.py:114-180 | one round keeps the loop invariant and adds one to the round count |
| Protocol.Rounds | machine_teacher/Protocol.py:114-180 | the loop keeps its invariant (log one row longer than the round count, training ids valid and no more than the rows) and runs at least one and at most the allowed rounds |
| Protocol.Prepare | machine_teacher/Protocol.py:67-110 | the label checks come first; then the first batch is non-empty and no larger than the dataset, the learner is fitted on it, and `final_learner` is the learner itself |
| Protocol.Finish | machine_teacher/Protocol.py:183-208 | fails unless a round ran and the last snapshot's training ids are distinct; the result reports that snapshot, the round count, the log and the hypothesis of the retained learner on every row |
| Protocol.Teach | machine_teacher/Protocol.py:60-208 | fails exactly as the label checks of `teach` do; a result has between one and the allowed rounds, a log with one row per round plus the header, all rows of the right shape, and distinct valid training ids |
| Timer.AddTo | machine_teacher/Utils/Timer.py:84 | `_d[k] = _d.get(k, 0.0) + delta` adds `delta` to one field, appends a new key at the end, leaves the other fields alone, and grows the sum by `delta` |
| Timer.New | machine_teacher/Utils/Timer.py:45-47 | a new timer is OFF with no fields |
| Timer.Start | machine_teacher/Utils/Timer.py:49-64 | `start` turns the timer ON, clears the fields, zeroes the totals and records the start instant |
| Timer.Resume | machine_teacher/Utils/Timer.py:125-131 | resuming shifts the start instant by the length of the pause and turns the timer ON |
| Timer.Unstop | machine_teacher/Utils/Timer.py:125-131 | `unstop` succeeds exactly from STOP, and otherwise fails its assertion |
| Timer.Tick | machine_teacher/Utils/Timer.py:66-76 | `tick` succeeds exactly from ON, or from STOP after an implicit unstop, and enters TICK on the named field without touching the fields |
| Timer.Tock | machine_teacher/Utils/Timer.py:78-87 | `tock` succeeds exactly from TICK; it adds the ticked interval to that field only, appending a new key at the end, and returns to ON |
| Timer.Stop | machine_teacher/Utils/Timer.py:116-123 | `stop` succeeds exactly from ON or TICK, closes an open tick, and records the stop instant |
| Timer.Settle | machine_teacher/Utils/Timer.py:94-97 | before finishing, an open tick is closed and a pause is resumed |
| Timer.Finish | machine_teacher/Utils/Timer.py:89-102 | `finish` succeeds exactly from ON, TICK or STOP, and the total is the time since the (shifted) start with `others` the part no field accounts for |
| Timer.ElapsedTime | machine_teacher/Utils/Timer.py:104-114 | the total once FINISHED, the time up to the stop instant in STOP, and `now - t0` otherwise, OFF included because the OFF branch is overridden |
| Timer.OffElapsed | machine_teacher/Utils/Timer.py:104-112 | an OFF timer does not report 0.0: it has no start instant, so reading it raises AttributeError |
| Timer.Item | machine_teacher/Utils/Timer.py:174-175 | `timer[key]` is the field's time, and a missing key raises KeyError |
| Timer.AddFields | machine_teacher/Utils/Timer.py:146-148 | field by field sums, in the first timer's key order |
| Timer.Add | machine_teacher/Utils/Timer.py:141-158 | `+` succeeds exactly when the key lists are equal in order and both totals exist, and sums every field, the total and `others` into a new OFF timer |
| Timer.AddKeyOrder | machine_teacher/Utils/Timer.py:142-144 | two timers with the same fields ticked in a different order cannot be added |
| Timer.AddBalanced | machine_teacher/Utils/Timer.py:141-158 | `+` keeps the total equal to the fields plus `others` |
| Timer.ScaleFields | machine_teacher/Utils/Timer.py:163-164 | every field is multiplied by `alpha`, keys in the same order |
| Timer.Mul | machine_teacher/Utils/Timer.py:160-169 | `*` scales every field, the total and `others`, into a new OFF timer; a timer never started has no total (AttributeError) |
| Timer.MulBalanced | machine_teacher/Utils/Timer.py:160-169 | `*` keeps the total equal to the fields plus `others` |
| Timer.Div | machine_teacher/Utils/Timer.py:171-172 | `/ alpha` is `* (1 / alpha)`, and `alpha == 0` divides by zero |
| Timer.DivUndoesMul | machine_teacher/Utils/Timer.py:160-172 | dividing by a non-zero `alpha` undoes multiplying by it |
| Timer.Copy | machine_teacher/Utils/Timer.py:177-190 | a copy equals the original, so finishing the copy leaves the original as it was; a timer never started has nothing to copy (AttributeError) |
| Timer.SessionAccumulates | machine_teacher/Utils/Timer.py:66-87 | repeated tick/tock pairs on one field add exactly the covered time to it and change no other field |
| Timer.PauseExcluded | machine_teacher/Utils/Timer.py:104-131 | a pause is left out of the elapsed and finished total time, and the elapsed time stands still while paused |
| Timer.StartFinish | machine_teacher/Utils/Timer.py:49-102 | a timer started at `s` and finished at `e` with no field timed has run `e - s`, all of it `others` |
| TeachResult.NumbersInjective | machine_teacher/Utils/TeachResult.py:134-141 | the eight statistics determine the statistics record |
| TeachResult.IsCloseSymmetric | machine_teacher/Utils/TeachResult.py:170 | `math.isclose` with its default tolerances is symmetric |
| TeachResult.AddStats | machine_teacher/Utils/TeachResult.py:174-181 | each of the eight statistics is the sum of the two |
| TeachResult.ScaleStats | machine_teacher/Utils/TeachResult.py:188-195 | each of the eight statistics is scaled by `alpha` |
| TeachResult.AddInfos | machine_teacher/Utils/TeachResult.py:162-183 | `+` succeeds exactly when the names, sizes, class distribution and (closely) the time limit agree, and otherwise fails its assertion; it sums the eight statistics and keeps the left identity fields |
| TeachResult.MulInfos | machine_teacher/Utils/TeachResult.py:185-197 | `*` scales the eight statistics and keeps every identity field |
| TeachResult.DivInfos | machine_teacher/Utils/TeachResult.py:199-200 | `/ alpha` is `* (1 / alpha)`, failing exactly on `alpha == 0` |
| TeachResult.AddInfosSymmetry | machine_teacher/Utils/TeachResult.py:162-183 | `a + b` succeeds exactly when `b + a` does, and the two agree exactly when the time limits are equal, since the sum keeps the left one |
| TeachResult.InfosMean | machine_teacher/Utils/TeachResult.py:172-197 | halving the sum of two runs gives the mean of each statistic |
| TeachResult.Header | machine_teacher/Utils/TeachResult.py:143-151 | the header has sixteen entries |
| TeachResult.InfosList | machine_teacher/Utils/TeachResult.py:153-160 | the infos list is as long as the header |
| TeachResult.HeaderMatchesInfos | machine_teacher/Utils/TeachResult.py:143-160 | every header entry names the value at the same position of the infos list |
| TeachResult.New | machine_teacher/Utils/TeachResult.py:28-73 | construction fails exactly on a timer without a total or one of the three phase fields, or on a teacher that cannot report its accuracy; otherwise the example count is the hypothesis length, the teaching-set size the number of training ids, and the times come from the timer |
| TeachResult.Add | machine_teacher/Utils/TeachResult.py:91-104 | `+` adds the main infos and the timers and clears the log, the parameters and the date |
| TeachResult.Mul | machine_teacher/Utils/TeachResult.py:106-110 | `*` scales the main infos and the timer and keeps the log, the parameters and the date |
| TeachResult.Div | machine_teacher/Utils/TeachResult.py:112-113 | `/ alpha` is `* (1 / alpha)`, failing exactly on `alpha == 0` |
| TeachResult.ResultMean | machine_teacher/Utils/TeachResult.py:91-110 | `(r1 + r2) * 0.5` of two runs of one experiment averages every statistic, every timer field and the total time |
| CustomIterator.Product | machine_teacher/Utils/CustomIterator.py:49-54 | the count of vectors is non-negative when every bound is at least -1, and at least one when every bound is non-negative |
| CustomIterator.ProductOf | machine_teacher/Utils/CustomIterator.py:49-54 | the loop computes the product of the bounds plus one |
| CustomIterator.ProductZero | machine_teacher/Utils/CustomIterator.py:49-54 | with bounds of at least -1, there is nothing to enumerate exactly when some bound is -1 |
| CustomIterator.ValueBound | machine_teacher/Utils/CustomIterator.py:28-38 | a vector within its bounds encodes a number in `[0, product)` in the mixed radix the bounds define |
| CustomIterator.ValueInjective | machine_teacher/Utils/CustomIterator.py:28-38 | two in-range vectors with the same encoding are equal |
| CustomIterator.Digits | machine_teacher/Utils/CustomIterator.py:28-38 | every number in range has an in-range vector that encodes it |
| CustomIterator.AddOne | machine_teacher/Utils/CustomIterator.py:28-38 | the carry loop of `_add_one` computes the successor vector |
| CustomIterator.SuccessorValue | machine_teacher/Utils/CustomIterator.py:28-38 | the successor encodes the number one higher |
| CustomIterator.SuccessorInRange | machine_teacher/Utils/CustomIterator.py:28-38 | the successor of an in-range vector that is not the last stays in range |
| CustomIterator.SuccessorDigits | machine_teacher/Utils/CustomIterator.py:28-38 | the successor of the vector for `k` is the vector for `k + 1` |
| CustomIterator.New | machine_teacher/Utils/CustomIterator.py:4-8 | a new iterator keeps its bounds, counts their product of vectors, and has handed none out |
| CustomIterator.Iter | machine_teacher/Utils/CustomIterator.py:10-13 | `__iter__` resets the count and starts at the all-zero vector, which is in range exactly when every bound is non-negative |
| CustomIterator.Next | machine_teacher/Utils/CustomIterator.py:15-26 | `__next__` raises StopIteration exactly when nothing is left; otherwise it hands out the current vector and one fewer is left |
| CustomIterator.NextAddsOne | machine_teacher/Utils/CustomIterator.py:15-23 | the vector shown after `__next__` encodes the number one higher |
| CustomIterator.Step | machine_teacher/Utils/CustomIterator.py:15-23 | at position `k`, `__next__` hands out the vector for `k` and moves to `k + 1` |
| CustomIterator.Exhausted | machine_teacher/Utils/CustomIterator.py:15-26 | after the last vector `__next__` raises StopIteration |
| CustomIterator.CollectState | machine_teacher/Utils/CustomIterator.py:15-23 | `n` further calls all succeed and leave the iterator at `k + n` |
| CustomIterator.CollectFrom | machine_teacher/Utils/CustomIterator.py:15-23 | those `n` calls hand out the vectors for `k`, `k + 1`, … in order |
| CustomIterator.Enumerates | machine_teacher/Utils/CustomIterator.py:4-26 | a fresh iterator hands out every in-range vector exactly once, in counting order, and then raises StopIteration |
| CustomIterator.NothingToEnumerate | machine_teacher/Utils/CustomIterator.py:15-26 | with a bound of -1 the fresh iterator is exhausted at once |
| CustomIterator.IsLowerOrEqual | machine_teacher/Utils/CustomIterator.py:40-47 | the length assertion fails exactly on vectors of different lengths; otherwise the result is true exactly when every component of the first vector is at most the second's |
| ConfigurationCursor.Start | machine_teacher/Reports/ConfigurationReader.py:51-56 | `__iter__` fails with StopIteration exactly when the teacher grid is empty |
| ConfigurationCursor.NextTeacher | machine_teacher/Reports/ConfigurationReader.py:58-64 | moving the teacher on restarts the learner counter |
| ConfigurationCursor.Advance | machine_teacher/Reports/ConfigurationReader.py:58-66 | the counters stop exactly when both are used up; while the learner counter has vectors left the teacher vector stays the same |
| ConfigurationCursor.PairAtValue | machine_teacher/Reports/ConfigurationReader.py:58-66 | the pair at position `learner + (learner grid size) * teacher` is that pair, so positions and grid pairs correspond |
| ConfigurationCursor.PairUnique | machine_teacher/Reports/ConfigurationReader.py:58-66 | two in-range pairs with the same position are equal |
| ConfigurationCursor.AdvanceAt | machine_teacher/Reports/ConfigurationReader.py:58-66 | at position `p` the counters hand out the pair at `p` and move to `p + 1` |
| ConfigurationCursor.WalkRun | machine_teacher/Reports/ConfigurationReader.py:58-66 | `n` steps from position `p` hand out the pairs at `p`, …, `p + n - 1` |
| ConfigurationCursor.WalkEnd | machine_teacher/Reports/ConfigurationReader.py:58-61 | after the whole grid both counters are used up |
| ConfigurationReader.StripLeft | machine_teacher/Reports/ConfigurationReader.py:214-215 | the result is a suffix after whitespace only, starting with a non-space |
| ConfigurationReader.StripRight | machine_teacher/Reports/ConfigurationReader.py:214-215 | the result is a prefix before whitespace only, ending with a non-space |
| ConfigurationReader.StripSpaces | machine_teacher/Reports/ConfigurationReader.py:214-215 | stripping removes exactly the surrounding whitespace |
| ConfigurationReader.Remove | machine_teacher/Reports/ConfigurationReader.py:214-215 | removing a character leaves none of it and nothing new |
| ConfigurationReader.RemoveKeeps | machine_teacher/Reports/ConfigurationReader.py:214-215 | removing a character keeps every other character with its multiplicity |
| ConfigurationReader.ParseString | machine_teacher/Reports/ConfigurationReader.py:214-215 | the result carries no quote of either kind and is no longer than the input |
| ConfigurationReader.UnquoteQuoted | machine_teacher/Reports/ConfigurationReader.py:214-215 | a quoted word surrounded by whitespace parses back to the word |
| ConfigurationReader.ParseWord | machine_teacher/Reports/ConfigurationReader.py:214-215 | a word without quotes or surrounding whitespace parses to itself |
| ConfigurationReader.Lower | machine_teacher/Reports/ConfigurationReader.py:218 | lowercasing maps every character and keeps the length |
| ConfigurationReader.ParseBoolean | machine_teacher/Reports/ConfigurationReader.py:217-224 | true exactly for the four true words, false exactly for the four false words, ValueError otherwise |
| ConfigurationReader.BooleanRoundTrip | machine_teacher/Reports/ConfigurationReader.py:217-224 | `True` and `False`, quoted or not, parse back to their value |
| ConfigurationReader.ParseValue | machine_teacher/Reports/ConfigurationReader.py:192-212 | a decoding error propagates; a decoded value is accepted exactly when it is a scalar or a list of one kind, a scalar becomes a one-element list, a list keeps its length, and a string loses its quotes |
| ConfigurationReader.Lookup | machine_teacher/Reports/ConfigurationReader.py:150-151 | a key is found exactly when the section has it, with the value stored for it |
| ConfigurationReader.Others | machine_teacher/Reports/ConfigurationReader.py:153 | the parameter keys are the section's keys other than `name`, without duplicates |
| ConfigurationReader.ParseCandidates | machine_teacher/Reports/ConfigurationReader.py:153 | succeeds exactly when every value parses, with one candidate list per non-`name` key |
| ConfigurationReader.ParseNamedSection | machine_teacher/Reports/ConfigurationReader.py:149-159 | fails its assertion without `name`; otherwise succeeds exactly when every value parses, with the unquoted name and the candidate lists |
| ConfigurationReader.SingleValues | machine_teacher/Reports/ConfigurationReader.py:168-176 | succeeds exactly when every value parses to one element, holding that element under its key |
| ConfigurationReader.ParseDatasetSection | machine_teacher/Reports/ConfigurationReader.py:161-176 | succeeds exactly when `path` is present, every key is an allowed dataset key and every value is single |
| ConfigurationReader.ParseProtocolSection | machine_teacher/Reports/ConfigurationReader.py:178-190 | succeeds exactly when every key is an allowed protocol key and every value is single |
| ConfigurationReader.Basename | machine_teacher/Reports/ConfigurationReader.py:18 | the result is the part of the path after its last `/` |
| ConfigurationReader.Limits | machine_teacher/Reports/ConfigurationReader.py:83-97 | each bound is the number of candidates minus one |
| ConfigurationReader.LimitsCount | machine_teacher/Reports/ConfigurationReader.py:83-97 | the bounds count exactly the parameter combinations, and are non-negative exactly when no candidate list is empty |
| ConfigurationReader.PyAt | machine_teacher/Reports/ConfigurationReader.py:104 | Python indexing succeeds exactly for `-len <= j < len`, else IndexError |
| ConfigurationReader.Choose | machine_teacher/Reports/ConfigurationReader.py:99-117 | the chosen settings have exactly the parameter keys, each with the candidate the vector selects, or fail with IndexError |
| ConfigurationReader.Pick | machine_teacher/Reports/ConfigurationReader.py:99-117 | the length assertion fails exactly on a vector of the wrong length |
| ConfigurationReader.PickInRange | machine_teacher/Reports/ConfigurationReader.py:99-117 | an in-range vector picks candidate `v[i]` for parameter `i` |
| ConfigurationReader.NewConfigs | machine_teacher/Reports/ConfigurationReader.py:36-49 | construction fails exactly when the dataset has no string `path`; the dataset name is its basename |
| ConfigurationReader.ReadConfiguration | machine_teacher/Reports/ConfigurationReader.py:119-142 | reading fails its assertion without the four sections, succeeds exactly when every section parses, and holds the parsed teacher, learner, dataset, destination and (possibly empty) protocol settings |
| ConfigurationReader.Iter | machine_teacher/Reports/ConfigurationReader.py:51-56 | iteration stops at once exactly when the teacher has no combination |
| ConfigurationReader.Next | machine_teacher/Reports/ConfigurationReader.py:58-73 | `__next__` stops when both counters are used up and otherwise hands out the experiment for the current pair of vectors |
| ConfigurationReader.Experiments | machine_teacher/Reports/ConfigurationReader.py:58-73 | one experiment per pair of vectors, in order |
| ConfigurationReader.PositionPair | machine_teacher/Reports/ConfigurationReader.py:58-73 | every pair of in-range vectors has a position in the grid |
| ConfigurationReader.GridWalk | machine_teacher/Reports/ConfigurationReader.py:51-73 | the counters walk the whole grid, teacher times learner combinations, in learner-fastest order |
| ConfigurationReader.Enumerates | machine_teacher/Reports/ConfigurationReader.py:51-73 | iterating yields the experiment for every grid position in order, then StopIteration |
| ConfigurationReader.EnumeratesEach | machine_teacher/Reports/ConfigurationReader.py:51-73 | every combination of teacher and learner settings appears, at its position |
| ConfigurationReader.NoCandidates | machine_teacher/Reports/ConfigurationReader.py:51-73 | an empty teacher candidate list stops iteration at once, and an empty learner list makes the first `__next__` raise StopIteration |
| ConfigurationReader.CollectWalk | machine_teacher/Reports/ConfigurationReader.py:58-73 | repeated `__next__` turns each pair of vectors the counters hand out into the experiment of that pair |

## Left out

- WtfTeacher.Weights: weights are exact rationals `units / (2m)` with an integer number of units per row, not IEEE doubles. The sum of the wrong rows' weights, the doubling factor and `delta_w` are therefore exact, and rounding that could tip the `v >= 1.0` or `v*k < 1.0` comparisons is not modelled.
- WtfTeacher.Sweep: the draws and the running sum `aux` (with `aux - delta_w[i]`) are exact reals, so a float rounding that moves a draw across an interval boundary is not modelled.
- WtfTeacher.Attempts: the retry loop of `get_new_examples` is driven by a finite list of sorted draws, one list per attempt. `DrawsExhausted` is returned when that list runs out or has the wrong length. The Python loop has no such exit: it keeps drawing until something is picked.
- FixedPercWrongTeacher.SecondQuery: `np.isclose(error, 0)` is modelled as `error <= 1e-8` on exact reals. That is the default absolute tolerance, since the relative part vanishes against 0.
- TeachResult.IsClose: `math.isclose` with its default relative tolerance of 1e-9 and no absolute tolerance, on exact reals rather than doubles.
- Protocol.Score: the confidence bound `a - 1.96 * sqrt(a(1-a)/n)` is the parameter `env.lowerBound`. The model does not compute square roots; it only passes the accuracy and the number of queried ids to that parameter.
- Protocol.Rounds: the time budget is a list of clock stamps, one per round it allows, so the loop runs at most that many rounds. Which round a real clock would stop at is not modelled.
- Protocol.Teach: an empty list of stamps means the budget ran out before the first round. The loop then never runs and the `qtd_iters >= 1` sanity check fails, so the result is an error. The clock readings themselves are parameters.
- Timer.Start: every Timer operation takes the current reading of `default_timer` as a parameter `now`. Where Python reads the clock twice in one operation, the model takes both readings as one instant, so no time passes between them. This covers `tick` from STOP (`unstop`, then Timer.py:73), `stop` from TICK (`tock`, then Timer.py:122) and `finish` from TICK or STOP (Timer.py:99).
- ConfigurationReader.ReadConfiguration: the file is taken after parsing, as a map from section name to its list of key/value strings. Reading the file, configparser's syntax, its lowercasing of keys and its merging of a DEFAULT section into every section are not modelled. `_sections_to_lowercase` is not called by `read_configuration_file` and is left out.
- ConfigurationReader.ParseValue: `json.loads` is the parameter `decode`, which returns a JSON value or an error. The JSON grammar is not modelled. In the homogeneity test a Python `bool` counts as an `int`, as `isinstance` does.
- ConfigurationReader.Lower: lowercasing covers ASCII letters only. The words it is compared with are ASCII, but a non-ASCII letter that Python would lowercase is kept as it is.
- Sampler.GetFirstExamples: the shuffled order is an input. Nothing ties it to the seeded `RandomState.shuffle` the teachers use, and the teacher's own shuffled order is a separate input.
- Sampler.choose_ids: not modelled. It draws with `np.random.choice`, and although WTFTeacher imports it, nothing calls it.
- PyOps.Times: `frac * m` is computed by repeated addition over exact reals and proved equal to the real product. Float rounding before `np.round` or `int()` is not modelled.
- Teacher `get_params`, `get_log_header` and `get_log_line`, `Timer.__str__`, `TeachResult.__str__`, `_get_class_qtd_and_distribution` and the date: these only format text. The class-distribution text and the date are parameters of the log line and of the result.
- Learners: a learner is a pair of functions. `fit` takes the training ids and returns a classifier, and a classifier gives a label for every row. The scikit-learn and LightGBM wrappers are left out.
- `deepcopy` of learners: modelled only where it matters, namely the best-learner copy at `Protocol.py:151` and `:162` against the alias `final_learner = L` at `Protocol.py:109`. Elsewhere values are immutable, so copies need no model.
- DatasetLoader, Report, TeacherLearnerLoader, Definitions and the experiment scripts: file I/O, spreadsheet output, a name-to-constructor table and NumPy shape helpers. Sequence lengths stand in for the shape helpers.
- Teachers.AccuracyOf: with `save_best_learner`, the protocol calls `_get_accuracy()` with no argument. SingleBatchTeacher and DoubleTeacher only inherit the one-argument version, so that call raises TypeError. The model returns that error and does not assume some other accuracy.
- FixedPercWrongTeacher.ChosenOverflow: when there are more wrong ids than the batch, `correct_ids[:batch_size - len(wrong_ids)]` has a negative bound and takes almost all of the correct ids. The model keeps this behaviour as written and states it. It is not listed as a bug, because the authors may intend it.
- WtfTeacher.FirstExamples: the sampler's ceiling rounding can make the first batch larger than `S_max`, and only later batches are cut to it. The model keeps this as written.
