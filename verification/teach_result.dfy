/** The result of one teaching run and the arithmetic that averages several
    runs: identity fields must agree, the eight numeric fields add up and
    scale. */
module TeachResult {
  import opened Results
  import Timer

  /** One cell of a report row. */
  datatype Cell = Text(text: string) | Count(count: int) | Number(number: real)

  /** The numbers of `_MainInfos` that averaging combines. Counts become
      reals once scaled, so all eight are reals here. */
  datatype Stats = Stats(
    totalTime: real, qtdIters: real, teachingSetSize: real, accuracy: real,
    getExamplesTime: real, trainingTime: real, classificationTime: real,
    validationSetAccuracy: real)

  /** `_MainInfos`: what identifies a run, then its statistics. */
  datatype MainInfos = MainInfos(
    teacherName: string, learnerName: string, datasetName: string,
    datasetQtdExamples: int, qtdAttributes: int, qtdClasses: int,
    distClasses: string, timeLimit: real, stats: Stats)

  /** The eight statistics in header order. */
  function Numbers(s: Stats): (r: seq<real>)
    ensures |r| == 8
  {
    [s.totalTime, s.qtdIters, s.teachingSetSize, s.accuracy,
     s.getExamplesTime, s.trainingTime, s.classificationTime, s.validationSetAccuracy]
  }

  /** Two statistics records with the same eight numbers are the same. */
  lemma {:induction false} NumbersInjective(a: Stats, b: Stats)
    requires Numbers(a) == Numbers(b)
    ensures a == b
  {
    assert forall i | 0 <= i < 8 :: Numbers(a)[i] == Numbers(b)[i];
  }

  function Abs(x: real): real {
    if x < 0.0 then -x else x
  }

  function Max(a: real, b: real): real {
    if a < b then b else a
  }

  /** `math.isclose` with its default tolerances: relative 1e-9, absolute 0. */
  const RelTol: real := 0.000000001

  predicate IsClose(a: real, b: real) {
    Abs(a - b) <= RelTol * Max(Abs(a), Abs(b))
  }

  lemma {:induction false} IsCloseSymmetric(a: real, b: real)
    ensures IsClose(a, b) <==> IsClose(b, a)
  {
    assert Abs(a - b) == Abs(b - a);
  }

  /** The conditions `_MainInfos.__add__` asserts, in its order. */
  predicate SameRun(a: MainInfos, b: MainInfos) {
    a.teacherName == b.teacherName && a.learnerName == b.learnerName
    && a.datasetName == b.datasetName && a.datasetQtdExamples == b.datasetQtdExamples
    && a.qtdAttributes == b.qtdAttributes && a.qtdClasses == b.qtdClasses
    && a.distClasses == b.distClasses && IsClose(a.timeLimit, b.timeLimit)
  }

  /** The statistics added number by number. */
  function AddStats(a: Stats, b: Stats): (r: Stats)
    ensures forall i | 0 <= i < 8 :: Numbers(r)[i] == Numbers(a)[i] + Numbers(b)[i]
  {
    Stats(a.totalTime + b.totalTime, a.qtdIters + b.qtdIters,
          a.teachingSetSize + b.teachingSetSize, a.accuracy + b.accuracy,
          a.getExamplesTime + b.getExamplesTime, a.trainingTime + b.trainingTime,
          a.classificationTime + b.classificationTime,
          a.validationSetAccuracy + b.validationSetAccuracy)
  }

  /** The statistics scaled number by number. */
  function ScaleStats(s: Stats, alpha: real): (r: Stats)
    ensures forall i | 0 <= i < 8 :: Numbers(r)[i] == Numbers(s)[i] * alpha
  {
    Stats(s.totalTime * alpha, s.qtdIters * alpha, s.teachingSetSize * alpha,
          s.accuracy * alpha, s.getExamplesTime * alpha, s.trainingTime * alpha,
          s.classificationTime * alpha, s.validationSetAccuracy * alpha)
  }

  /** `_MainInfos.__add__`: runs that differ in any identity field (the time
      limit only approximately) cannot be added; otherwise the identity is
      the left operand's and the statistics add up. */
  function AddInfos(a: MainInfos, b: MainInfos): (r: Result<MainInfos>)
    ensures r.Ok? <==> SameRun(a, b)
    ensures r.Err? ==> r.error.AssertionError?
    ensures r.Ok? ==> r.value.(stats := a.stats) == a
    ensures r.Ok? ==> forall i | 0 <= i < 8 :: Numbers(r.value.stats)[i] == Numbers(a.stats)[i] + Numbers(b.stats)[i]
  {
    var _ :- Check(a.teacherName == b.teacherName, "");
    var _ :- Check(a.learnerName == b.learnerName, "");
    var _ :- Check(a.datasetName == b.datasetName, "");
    var _ :- Check(a.datasetQtdExamples == b.datasetQtdExamples, "");
    var _ :- Check(a.qtdAttributes == b.qtdAttributes, "");
    var _ :- Check(a.qtdClasses == b.qtdClasses, "");
    var _ :- Check(a.distClasses == b.distClasses, "");
    var _ :- Check(IsClose(a.timeLimit, b.timeLimit), "");
    Ok(a.(stats := AddStats(a.stats, b.stats)))
  }

  /** `_MainInfos.__mul__`: the statistics scaled, the identity kept. */
  function MulInfos(m: MainInfos, alpha: real): (r: MainInfos)
    ensures r.(stats := m.stats) == m
    ensures forall i | 0 <= i < 8 :: Numbers(r.stats)[i] == Numbers(m.stats)[i] * alpha
  {
    m.(stats := ScaleStats(m.stats, alpha))
  }

  /** `_MainInfos.__truediv__`: `__mul__` by `1 / alpha`. */
  function DivInfos(m: MainInfos, alpha: real): (r: Result<MainInfos>)
    ensures alpha == 0.0 <==> r == Err(ZeroDivisionError)
    ensures alpha != 0.0 ==> r == Ok(MulInfos(m, 1.0 / alpha))
  {
    if alpha == 0.0 then Err(ZeroDivisionError) else Ok(MulInfos(m, 1.0 / alpha))
  }

  /** Adding is symmetric in whether it succeeds, and the two sums agree
      exactly when the time limits do: the sum keeps the left time limit,
      which need only be close to the right one. */
  lemma {:induction false} AddInfosSymmetry(a: MainInfos, b: MainInfos)
    ensures AddInfos(a, b).Ok? <==> AddInfos(b, a).Ok?
    ensures AddInfos(a, b).Ok? ==> (AddInfos(a, b) == AddInfos(b, a) <==> a.timeLimit == b.timeLimit)
  {
    IsCloseSymmetric(a.timeLimit, b.timeLimit);
    if AddInfos(a, b).Ok? {
      var ab := AddInfos(a, b).value;
      var ba := AddInfos(b, a).value;
      assert Numbers(ab.stats) == Numbers(ba.stats);
      NumbersInjective(ab.stats, ba.stats);
      assert ab.timeLimit == a.timeLimit && ba.timeLimit == b.timeLimit;
    }
  }

  /** Halving the sum of two runs gives the mean of every statistic. */
  lemma {:induction false} InfosMean(a: MainInfos, b: MainInfos)
    requires SameRun(a, b)
    ensures AddInfos(a, b).Ok?
    ensures forall i | 0 <= i < 8 ::
      Numbers(MulInfos(AddInfos(a, b).value, 0.5).stats)[i] == (Numbers(a.stats)[i] + Numbers(b.stats)[i]) / 2.0
  {
  }

  /** `get_header` */
  function Header(): (r: seq<string>)
    ensures |r| == 16
  {
    ["teacher_name", "learner_name", "dataset_name",
     "dataset_qtd_examples", "dataset_qtd_attributes",
     "dataset_qtd_classes", "dataset_dist_classes",
     "time_limit", "total_time", "qtd_iters",
     "teaching_set_size", "dataset_accuracy",
     "get_examples_time", "training_time", "classification_time",
     "validation_set_accuracy"]
  }

  /** `get_infos_list` */
  function InfosList(m: MainInfos): (r: seq<Cell>)
    ensures |r| == |Header()|
  {
    var s := m.stats;
    [Text(m.teacherName), Text(m.learnerName), Text(m.datasetName),
     Count(m.datasetQtdExamples), Count(m.qtdAttributes), Count(m.qtdClasses),
     Text(m.distClasses), Number(m.timeLimit), Number(s.totalTime),
     Number(s.qtdIters), Number(s.teachingSetSize), Number(s.accuracy),
     Number(s.getExamplesTime), Number(s.trainingTime), Number(s.classificationTime),
     Number(s.validationSetAccuracy)]
  }

  /** The attribute a header name stands for. */
  function Column(m: MainInfos, name: string): Option<Cell> {
    match name
    case "teacher_name" => Some(Text(m.teacherName))
    case "learner_name" => Some(Text(m.learnerName))
    case "dataset_name" => Some(Text(m.datasetName))
    case "dataset_qtd_examples" => Some(Count(m.datasetQtdExamples))
    case "dataset_qtd_attributes" => Some(Count(m.qtdAttributes))
    case "dataset_qtd_classes" => Some(Count(m.qtdClasses))
    case "dataset_dist_classes" => Some(Text(m.distClasses))
    case "time_limit" => Some(Number(m.timeLimit))
    case "total_time" => Some(Number(m.stats.totalTime))
    case "qtd_iters" => Some(Number(m.stats.qtdIters))
    case "teaching_set_size" => Some(Number(m.stats.teachingSetSize))
    case "dataset_accuracy" => Some(Number(m.stats.accuracy))
    case "get_examples_time" => Some(Number(m.stats.getExamplesTime))
    case "training_time" => Some(Number(m.stats.trainingTime))
    case "classification_time" => Some(Number(m.stats.classificationTime))
    case "validation_set_accuracy" => Some(Number(m.stats.validationSetAccuracy))
    case _ => None
  }

  /** Every header entry names the value at the same position of the infos
      list. */
  lemma {:induction false} HeaderMatchesInfos(m: MainInfos)
    ensures forall i | 0 <= i < |Header()| :: Column(m, Header()[i]) == Some(InfosList(m)[i])
  {
  }

  /** A teaching result. `log`, the parameter maps and the date are what
      addition clears; `None` is Python's `None`. */
  datatype TeachResult = TeachResult(
    h: seq<nat>, sIds: seq<nat>, main: MainInfos, timer: Timer.Timer,
    log: Option<seq<seq<Cell>>>, teacherParams: map<string, string>,
    learnerParams: map<string, string>, date: Option<string>)

  /** Who ran and on what: the names and sizes `__init__` stores as they are. */
  datatype Setting = Setting(
    teacherName: string, learnerName: string, datasetName: string,
    qtdAttributes: int, qtdClasses: int, distClasses: string, timeLimit: real)

  /** `TeachResult.__init__`. The teacher's `_get_accuracy(h)` is the input
      `accuracy`; the three phase times come from the timer, whose fields
      must exist, and the total time must have been set. */
  function New(s: Setting, sIds: seq<nat>, h: seq<nat>, timer: Timer.Timer, qtdIters: nat,
               log: seq<seq<Cell>>, validationAccuracy: real, accuracy: Result<real>,
               teacherParams: map<string, string>, learnerParams: map<string, string>,
               date: string): (r: Result<TeachResult>)
    ensures r.Ok? <==> (timer.totals.Some? && accuracy.Ok?
      && "get_examples" in timer.fields.times && "training" in timer.fields.times
      && "classification" in timer.fields.times)
    ensures timer.totals.None? ==> r == Err(AttributeError("total_time"))
    ensures timer.totals.Some? && accuracy.Err? ==> r == Err(accuracy.error)
    ensures r.Ok? ==> (r.value.main.datasetQtdExamples == |h|
      && r.value.main.stats.teachingSetSize == |sIds| as real
      && r.value.main.stats.accuracy == accuracy.value
      && r.value.main.stats.qtdIters == qtdIters as real
      && r.value.main.stats.totalTime == timer.totals.value.total
      && r.value.main.stats.getExamplesTime == Timer.Get(timer.fields, "get_examples")
      && r.value.main.stats.trainingTime == Timer.Get(timer.fields, "training")
      && r.value.main.stats.classificationTime == Timer.Get(timer.fields, "classification"))
    ensures r.Ok? ==> (r.value.main.teacherName == s.teacherName && r.value.main.learnerName == s.learnerName
      && r.value.main.datasetName == s.datasetName && r.value.main.timeLimit == s.timeLimit
      && r.value.main.stats.validationSetAccuracy == validationAccuracy)
    ensures r.Ok? ==> (r.value.h == h && r.value.sIds == sIds && r.value.timer == timer
      && r.value.log == Some(log) && r.value.date == Some(date))
  {
    if timer.totals.None? then Err(AttributeError("total_time"))
    else
      var acc :- accuracy;
      var getExamples :- Timer.Item(timer, "get_examples");
      var training :- Timer.Item(timer, "training");
      var classification :- Timer.Item(timer, "classification");
      var main := MainInfos(s.teacherName, s.learnerName, s.datasetName, |h|,
                            s.qtdAttributes, s.qtdClasses, s.distClasses, s.timeLimit,
                            Stats(timer.totals.value.total, qtdIters as real, |sIds| as real, acc,
                                  getExamples, training, classification, validationAccuracy));
      Ok(TeachResult(h, sIds, main, timer, Some(log), teacherParams, learnerParams, Some(date)))
  }

  /** `TeachResult.__add__`: the main infos and the timers add up; the log,
      the parameters and the date no longer mean anything and are cleared. */
  function Add(a: TeachResult, b: TeachResult): (r: Result<TeachResult>)
    requires a.timer.Valid() && b.timer.Valid()
    ensures r.Ok? <==> AddInfos(a.main, b.main).Ok? && Timer.Add(a.timer, b.timer).Ok?
    ensures r.Ok? ==> (r.value.main == AddInfos(a.main, b.main).value
      && r.value.timer == Timer.Add(a.timer, b.timer).value)
    ensures r.Ok? ==> (r.value.log.None? && r.value.date.None?
      && r.value.teacherParams == map[] && r.value.learnerParams == map[]
      && r.value.h == a.h && r.value.sIds == a.sIds)
  {
    var main :- AddInfos(a.main, b.main);
    var timer :- Timer.Add(a.timer, b.timer);
    Ok(a.(log := None, teacherParams := map[], learnerParams := map[], date := None,
          main := main, timer := timer))
  }

  /** `TeachResult.__mul__`: main infos and timer scaled; unlike `+` the log
      and the parameters are kept. */
  function Mul(a: TeachResult, alpha: real): (r: Result<TeachResult>)
    requires a.timer.Valid()
    ensures r.Ok? <==> a.timer.totals.Some?
    ensures r.Ok? ==> r.value.main == MulInfos(a.main, alpha) && r.value.timer == Timer.Mul(a.timer, alpha).value
    ensures r.Ok? ==> (r.value.log == a.log && r.value.teacherParams == a.teacherParams
      && r.value.learnerParams == a.learnerParams && r.value.date == a.date)
  {
    var timer :- Timer.Mul(a.timer, alpha);
    Ok(a.(main := MulInfos(a.main, alpha), timer := timer))
  }

  /** `TeachResult.__truediv__` */
  function Div(a: TeachResult, alpha: real): (r: Result<TeachResult>)
    requires a.timer.Valid()
    ensures alpha == 0.0 ==> r == Err(ZeroDivisionError)
    ensures alpha != 0.0 ==> r == Mul(a, 1.0 / alpha)
  {
    if alpha == 0.0 then Err(ZeroDivisionError) else Mul(a, 1.0 / alpha)
  }

  /** The mean of two runs of the same experiment, `(r1 + r2) * 0.5`,
      averages every statistic and every timer field. */
  lemma {:induction false} ResultMean(a: TeachResult, b: TeachResult)
    requires a.timer.Valid() && b.timer.Valid() && SameRun(a.main, b.main)
    requires a.timer.fields.order == b.timer.fields.order
    requires a.timer.totals.Some? && b.timer.totals.Some?
    ensures Add(a, b).Ok? && Add(a, b).value.timer.Valid() && Mul(Add(a, b).value, 0.5).Ok?
    ensures var mean := Mul(Add(a, b).value, 0.5).value;
      (forall i | 0 <= i < 8 ::
        Numbers(mean.main.stats)[i] == (Numbers(a.main.stats)[i] + Numbers(b.main.stats)[i]) / 2.0)
      && (forall k :: Timer.Get(mean.timer.fields, k)
                      == (Timer.Get(a.timer.fields, k) + Timer.Get(b.timer.fields, k)) / 2.0)
      && mean.timer.totals.value.total == (a.timer.totals.value.total + b.timer.totals.value.total) / 2.0
  {
  }
}
