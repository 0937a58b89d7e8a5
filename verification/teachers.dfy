// The four teachers behind the one interface the protocol calls: which
// implementation of `get_new_test_ids` and `_get_accuracy` each of them
// inherits or overrides.

module Teachers {
  import opened Results
  import GenericTeacher
  import SingleBatchTeacher
  import DoubleTeacher
  import FixedPercWrongTeacher
  import WtfTeacher

  datatype Teacher =
    | SingleBatchT(sb: SingleBatchTeacher.SingleBatch)
    | DoubleT(dbl: DoubleTeacher.Double)
    | FpwT(fpw: FixedPercWrongTeacher.Fpw)
    | WtfT(wtf: WtfTeacher.Wtf)
  {
    /** The state every teacher shares through `GenericTeacher`. */
    function Base(): GenericTeacher.Base {
      match this
      case SingleBatchT(t) => t.base
      case DoubleT(t) => t.base
      case FpwT(t) => t.base
      case WtfT(t) => t.base
    }

    /** Teachers that override `_get_accuracy` to report the accuracy of
        their last query instead of classifying `h` themselves. */
    predicate Remembers() {
      FpwT? || WtfT?
    }

    /** What the fixed-percentage teacher's query step needs of its state. */
    predicate Ready() {
      FpwT? ==> fpw.Bounded()
    }

    /** Both teachers are of the same kind and share the same labels. */
    predicate SameKind(u: Teacher) {
      (SingleBatchT? <==> u.SingleBatchT?) && (DoubleT? <==> u.DoubleT?)
      && (FpwT? <==> u.FpwT?) && (WtfT? <==> u.WtfT?) && Base().y == u.Base().y
    }
  }

  /** `_get_accuracy(h)` as `teach` calls it on the final hypothesis: the
      generic teachers classify `h`, the others return what they remember. */
  function AccuracyOf(t: Teacher, h: seq<nat>): (r: Result<real>)
    requires |h| == |t.Base().y|
    ensures !t.Remembers() ==> (r.Ok? <==> |h| > 0)
    ensures !t.Remembers() && r.Ok? ==> 0.0 <= r.value <= 1.0 && (r.value == 1.0 <==> h == t.Base().y)
    ensures t.FpwT? ==> r == Ok(t.fpw.lastAccuracy)
    ensures t.WtfT? ==> r == t.wtf.lastAccuracy
  {
    match t
    case SingleBatchT(_) => GenericTeacher.Accuracy(t.Base().y, h)
    case DoubleT(_) => GenericTeacher.Accuracy(t.Base().y, h)
    case FpwT(f) => Ok(FixedPercWrongTeacher.Accuracy(f))
    case WtfT(w) => WtfTeacher.Accuracy(w)
  }

  /** `_get_accuracy()` with no hypothesis, as the best-model bookkeeping
      calls it: the generic teachers only define the one-argument form, so
      the call is a TypeError for them. */
  function LastAccuracy(t: Teacher): (r: Result<real>)
    ensures !t.Remembers() ==> r.Err? && r.error.TypeError?
    ensures t.FpwT? ==> r.Ok?
  {
    match t
    case SingleBatchT(_) => Err(TypeError("_get_accuracy() missing 1 required positional argument: 'h'"))
    case DoubleT(_) => Err(TypeError("_get_accuracy() missing 1 required positional argument: 'h'"))
    case FpwT(f) => Ok(FixedPercWrongTeacher.Accuracy(f))
    case WtfT(w) => WtfTeacher.Accuracy(w)
  }

  /** A teacher that remembers its accuracy gives the same answer with or
      without a hypothesis, and whatever the hypothesis is. */
  lemma {:induction false} HypothesisIgnored(t: Teacher, h: seq<nat>, h': seq<nat>)
    requires t.Remembers() && |h| == |h'| == |t.Base().y|
    ensures AccuracyOf(t, h) == AccuracyOf(t, h') == LastAccuracy(t)
  {
  }

  /** A generic teacher answers the final call from `h` and refuses the
      no-argument call: saving the best model is unavailable with them. */
  lemma {:induction false} GenericNeedsHypothesis(t: Teacher, h: seq<nat>)
    requires !t.Remembers() && |h| == |t.Base().y| > 0
    ensures AccuracyOf(t, h).Ok? && LastAccuracy(t).Err?
    ensures AccuracyOf(t, h) == GenericTeacher.Accuracy(t.Base().y, h)
  {
  }

  /** `get_new_test_ids`: the batch teachers test nothing, the
      fixed-percentage teacher answers from its query phase, and the WTF
      teacher, which does not override it, asks for the generic default. */
  function NewTestIds(t: Teacher, testIds: seq<nat>, testLabels: seq<nat>): (r: Result<(Teacher, seq<nat>)>)
    requires t.Ready() && |testLabels| == |testIds|
    ensures r.Ok? ==> t.SameKind(r.value.0) && r.value.0.Ready()
    ensures r.Err? ==> t.FpwT? && (r.error == IndexError || r.error == ZeroDivisionError)
    ensures t.SingleBatchT? || t.DoubleT? ==> r == Ok((t, []))
    ensures t.WtfT? ==> r.Ok? && r.value.0 == t && (r.value.1 == [] <==> |testIds| > 0 || |t.Base().ids| == 0)
  {
    match t
    case SingleBatchT(b) => Ok((t, SingleBatchTeacher.NewTestIds(b, testIds, testLabels)))
    case DoubleT(d) => Ok((t, DoubleTeacher.NewTestIds(d, testIds, testLabels)))
    case FpwT(f) =>
      var (f', ids) :- FixedPercWrongTeacher.NewTestIds(f, testIds, testLabels);
      Ok((FpwT(f'), ids))
    case WtfT(_) => Ok((t, GenericTeacher.DefaultTestIds(t.Base(), testIds)))
  }

  /** Every row, in order. */
  predicate AllRows(b: GenericTeacher.Base) {
    |b.ids| == |b.y| && forall i | 0 <= i < |b.ids| :: b.ids[i] == i
  }

  /** The WTF teacher sees the whole dataset labelled in one round: its first
      request names every row in order, and once those are answered it asks
      for nothing more. */
  lemma {:induction false} WtfTestsEveryRowOnce(t: Teacher, labels: seq<nat>)
    requires t.WtfT? && AllRows(t.Base()) && |t.Base().y| > 0
    requires |labels| == |t.Base().y|
    ensures NewTestIds(t, [], []) == Ok((t, t.Base().ids))
    ensures NewTestIds(t, t.Base().ids, labels) == Ok((t, []))
  {
  }
}
