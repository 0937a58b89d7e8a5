/** The teaching protocol: a teacher hands a learner batches of training
    ids, the learner is refitted after each batch, and a log row, a timer
    snapshot and the retained learner are kept per round until the teacher
    has nothing more to teach or the time budget runs out.

    Teacher and learner are abstract: the teacher is a record of transition
    functions over its own state, the learner a function from training ids
    to a classifier. Clock readings come in as stamps, one record per round
    the budget allows. */
module Protocol {
  import opened Results
  import opened IdSeq
  import Timer
  import GenericTeacher
  import TeachResult

  /** `_TIMER_KEYS`: the phases every run reports, zeroed at the start. */
  const TimerKeys: seq<string> := ["training", "classification", "get_examples"]

  /** `_LOG_HEADER`: the first twelve columns come from `_get_log_line`, the
      last four are appended by the loop. */
  const LogHeader: seq<string> := [
    "iter", "TS_size", "dataset_accuracy", "elapsed_time",
    "time_left", "get_examples_time", "training_time",
    "classification_time", "qtd_classified_examples", "TS_qtd_classes",
    "TS_class_distribution", "test_set_accuracy", "estimated_accuracy",
    "validation_set_size", "learner_selected", "accuracy_selected"]

  /** `_IND_TEST_ACC` */
  const TestAccuracyColumn: nat := 11

  /** Where the loop stores the accuracy of the retained learner. */
  const SelectedAccuracyColumn: nat := 15

  type Cell = TeachResult.Cell
  type Row = seq<Cell>

  /** The two column constants point at the columns their names say. */
  lemma {:induction false} ColumnNames()
    ensures |LogHeader| == 16
    ensures LogHeader[TestAccuracyColumn] == "test_set_accuracy"
    ensures LogHeader[SelectedAccuracyColumn] == "accuracy_selected"
  {
  }

  /** The header as the first log row. */
  function HeaderRow(): (r: Row)
    ensures |r| == |LogHeader|
    ensures forall i | 0 <= i < |r| :: r[i] == TeachResult.Text(LogHeader[i])
  {
    seq(|LogHeader|, i requires 0 <= i < |LogHeader| => TeachResult.Text(LogHeader[i]))
  }

  /** What `fit` leaves behind: a classifier that labels dataset rows by id
      and test-set rows by position. */
  datatype Classifier = Classifier(onRow: nat -> nat, onTestRow: nat -> nat)

  /** A learner: its name, its parameters, and what fitting on a set of
      training ids produces. */
  datatype Learner = Learner(name: string, params: map<string, string>, fit: seq<nat> -> Classifier)

  /** A teacher with state `S`: each field is one method of the teacher
      interface. `lastAccuracy` is `_get_accuracy()` called with no
      hypothesis, `accuracy` the call with one. */
  datatype Teacher<!S> = Teacher(
    name: string,
    params: S -> map<string, string>,
    start: seq<nat> -> Result<S>,
    first: S -> Result<(S, seq<nat>)>,
    newTestIds: (S, seq<nat>, seq<nat>) -> Result<(S, seq<nat>)>,
    newExamples: (S, seq<nat>, seq<nat>) -> Result<(S, seq<nat>)>,
    lastAccuracy: S -> Result<real>,
    accuracy: (S, seq<nat>) -> Result<real>)

  /** The labelled dataset, its column count and its optional test set. */
  datatype Dataset = Dataset(name: string, cols: nat, y: seq<nat>, test: Option<seq<nat>>)

  /** The keyword arguments of `teach`. */
  datatype Options = Options(timeLimit: real, joinSets: bool, saveBest: bool)

  /** What the model takes as given: the formatted class distribution, the
      confidence bound subtracted from a teacher's accuracy estimate over
      `n` queried rows, and the date stamped on the result. */
  datatype Env = Env(distText: seq<nat> -> string, lowerBound: (real, nat) -> real, date: string)

  /** Clock readings before the loop. */
  datatype Setup = Setup(start: real, firstFrom: real, firstTo: real, trainFrom: real, trainTo: real)

  /** Clock readings of one round; `timeLeft` is what `get_time_left`
      reports for the log row. */
  datatype Stamps = Stamps(
    stop: real, timeLeft: real, unstop: real, classifyFrom: real, classifyTo: real,
    examplesFrom: real, examplesTo: real, trainFrom: real, trainTo: real)

  /** A classifier's labels for the given rows. */
  function Predict(f: nat -> nat, ids: seq<nat>): (r: seq<nat>)
    ensures |r| == |ids| && forall i | 0 <= i < |ids| :: r[i] == f(ids[i])
  {
    seq(|ids|, i requires 0 <= i < |ids| => f(ids[i]))
  }

  /** `X[ids]` on a matrix with `rows` rows: an id past the end raises. */
  function InRange(ids: seq<nat>, rows: nat): (r: Result<()>)
    ensures r.Ok? <==> AllBelow(ids, rows)
    ensures r.Err? ==> r.error == IndexError
  {
    if AllBelow(ids, rows) then Ok(()) else Err(IndexError)
  }

  /** `y[ids]` */
  function LabelsOf(y: seq<nat>, ids: seq<nat>): (r: seq<nat>)
    requires AllBelow(ids, |y|)
    ensures |r| == |ids|
  {
    seq(|ids|, i requires 0 <= i < |ids| => y[ids[i]])
  }

  /** The distinct labels, `np.unique`. */
  function Classes(y: seq<nat>): set<nat> {
    set l: nat | l in y
  }

  /** At least two different labels make at least two classes, and back. */
  lemma {:induction false} TwoClasses(y: seq<nat>)
    ensures |Classes(y)| > 1 <==> exists i, j | 0 <= i < |y| && 0 <= j < |y| :: y[i] != y[j]
  {
    if exists i, j | 0 <= i < |y| && 0 <= j < |y| :: y[i] != y[j] {
      var i, j :| 0 <= i < |y| && 0 <= j < |y| && y[i] != y[j];
      assert {y[i], y[j]} <= Classes(y);
      assert |{y[i], y[j]}| == 2;
      SubsetCard({y[i], y[j]}, Classes(y));
    }
    if |Classes(y)| > 1 {
      var a :| a in Classes(y);
      assert Classes(y) - {a} != {} by {
        assert |Classes(y) - {a}| == |Classes(y)| - 1;
      }
      var b :| b in Classes(y) - {a};
      var i :| 0 <= i < |y| && y[i] == a;
      var j :| 0 <= j < |y| && y[j] == b;
      assert y[i] != y[j];
    }
  }

  lemma {:induction false} SubsetCard(a: set<nat>, b: set<nat>)
    requires a <= b
    ensures |a| <= |b|
  {
    assert b == a + (b - a);
  }

  /** The two checks at the start of `teach`: more than one class, and the
      smallest label is 0. */
  function LabelChecks(y: seq<nat>): (r: Result<()>)
    ensures r.Ok? <==> (exists i, j | 0 <= i < |y| && 0 <= j < |y| :: y[i] != y[j])
                       && (exists i | 0 <= i < |y| :: y[i] == 0)
    ensures r.Err? ==> r.error.AssertionError?
  {
    TwoClasses(y);
    var _ :- Check(|Classes(y)| > 1, "there must be more than one class in the dataset");
    Check(0 in y, "the smallest label must be 0")
  }

  /** `_get_accuracy(y, h)` of the protocol: the lengths must agree, then
      the share of positions where the two label vectors agree. */
  function Accuracy(y: seq<nat>, h: seq<nat>): (r: Result<real>)
    ensures |y| != |h| ==> r == Err(AssertionError("len(y) == len(h)"))
    ensures |y| == |h| == 0 ==> r == Err(ZeroDivisionError)
    ensures r.Ok? <==> |y| == |h| > 0
    ensures r.Ok? ==> 0.0 <= r.value <= 1.0 && (r.value == 1.0 <==> y == h)
    ensures r.Ok? ==> r.value == (|y| - GenericTeacher.Mismatches(y, h)) as real / |y| as real
  {
    if |y| != |h| then Err(AssertionError("len(y) == len(h)"))
    else if |y| == 0 then Err(ZeroDivisionError)
    else
      var wrong := GenericTeacher.Mismatches(y, h);
      GenericTeacher.AccuracyFacts(wrong, |y|);
      Ok(1.0 - wrong as real / |y| as real)
  }

  /** The protocol's accuracy, computed from a mismatch count, is the
      teacher's, computed from the list of wrong ids. */
  lemma {:induction false} AccuracyAgrees(y: seq<nat>, h: seq<nat>)
    requires |y| == |h|
    ensures Accuracy(y, h) == GenericTeacher.Accuracy(y, h)
  {
    if |y| > 0 {
      var p := Accuracy(y, h);
      var g := GenericTeacher.Accuracy(y, h);
      assert p.Ok? && g.Ok? && p.value == g.value;
    }
  }

  /** `_set_timer_keys_to_zero`: a tick and a tock per key, both at `now`,
      so each key enters the timer with nothing added to it. */
  function SetTimerKeysToZero(t: Timer.Timer, keys: seq<string>, now: real): (r: Result<Timer.Timer>)
    requires t.Valid()
    ensures keys != [] ==> (r.Ok? <==> t.phase.On? || t.phase.Stopped?)
    ensures r.Ok? ==> r.value.Valid() && r.value.totals == t.totals
    ensures r.Ok? && keys != [] ==> r.value.phase.On?
    ensures r.Ok? ==> forall k :: Timer.Get(r.value.fields, k) == Timer.Get(t.fields, k)
    decreases |keys|
  {
    if keys == [] then Ok(t)
    else
      var ticking :- Timer.Tick(t, keys[0], now);
      SetTimerKeysToZero(Timer.Tock(ticking, now).value, keys[1..], now)
  }

  /** Keys new to the timer are appended to its fields in the given order. */
  lemma {:induction false} KeysAppended(t: Timer.Timer, keys: seq<string>, now: real)
    requires t.Valid() && (t.phase.On? || t.phase.Stopped?)
    requires Distinct(keys) && forall i | 0 <= i < |keys| :: keys[i] !in t.fields.order
    ensures SetTimerKeysToZero(t, keys, now).Ok?
    ensures SetTimerKeysToZero(t, keys, now).value.fields.order == t.fields.order + keys
    decreases |keys|
  {
    if keys != [] {
      var tocked := Timer.Tock(Timer.Tick(t, keys[0], now).value, now).value;
      assert tocked.fields.order == t.fields.order + [keys[0]];
      assert forall i | 0 <= i < |keys[1..]| :: keys[1..][i] !in tocked.fields.order by {
        forall i | 0 <= i < |keys[1..]|
          ensures keys[1..][i] !in tocked.fields.order
        {
          assert keys[1..][i] == keys[i + 1] != keys[0];
        }
      }
      KeysAppended(tocked, keys[1..], now);
      SeqAssoc(t.fields.order, keys);
    }
  }

  lemma {:induction false} SeqAssoc(a: seq<string>, keys: seq<string>)
    requires keys != []
    ensures a + [keys[0]] + keys[1..] == a + keys
  {
    assert keys == [keys[0]] + keys[1..];
  }

  /** A started timer, once zeroed, holds exactly the three phase keys, in
      order, at 0. */
  lemma {:induction false} ZeroedTimer(now: real)
    ensures var z := SetTimerKeysToZero(Timer.Start(Timer.New(), now), TimerKeys, now);
      z.Ok? && z.value.phase.On? && z.value.fields.order == TimerKeys
      && forall k :: Timer.Get(z.value.fields, k) == 0.0
  {
    var t := Timer.Start(Timer.New(), now);
    assert t.fields.order == [];
    KeysAppended(t, TimerKeys, now);
  }

  /** The body of `_run_tests`' loop: ask the teacher for test ids until it
      returns none, labelling each chunk with the learner's predictions. A
      chunk that would take the total past the row count fails the
      assertion. */
  function RunTests<S>(t: Teacher<S>, s: S, c: Classifier, rows: nat, ids: seq<nat>, labels: seq<nat>)
    : (r: Result<(S, seq<nat>, seq<nat>)>)
    requires |ids| == |labels|
    ensures r.Ok? ==> (|ids| <= |r.value.1| == |r.value.2|
      && r.value.1[..|ids|] == ids && r.value.2[..|ids|] == labels)
    ensures r.Ok? ==> forall i | |ids| <= i < |r.value.1| :: r.value.1[i] < rows && r.value.2[i] == c.onRow(r.value.1[i])
    ensures r.Ok? && |ids| <= rows ==> |r.value.1| <= rows
    decreases rows - |ids|
  {
    if |ids| > rows then Ok((s, ids, labels))
    else
      var p :- t.newTestIds(s, ids, labels);
      var chunk := p.1;
      if |chunk| == 0 then Ok((p.0, ids, labels))
      else
        var _ :- Check(|chunk| + |ids| <= rows, "len(new_test_ids) + len(test_ids) <= rows");
        var _ :- InRange(chunk, rows);
        var r :- RunTests(t, p.0, c, rows, ids + chunk, labels + Predict(c.onRow, chunk));
        assert forall i | |ids| <= i < |ids| + |chunk| :: r.1[i] == chunk[i - |ids|]
          && r.2[i] == Predict(c.onRow, chunk)[i - |ids|] by {
          assert r.1[..|ids + chunk|] == ids + chunk;
          assert r.2[..|ids + chunk|] == labels + Predict(c.onRow, chunk);
        }
        assert r.1[..|ids|] == (ids + chunk)[..|ids|];
        assert r.2[..|ids|] == (labels + Predict(c.onRow, chunk))[..|ids|];
        Ok(r)
  }

  /** `_run_tests`: the queried ids, all rows of the dataset and at most
      as many as it has, with the learner's label for each. */
  function Tests<S>(t: Teacher<S>, s: S, c: Classifier, rows: nat): (r: Result<(S, seq<nat>, seq<nat>)>)
    ensures r.Ok? ==> |r.value.1| == |r.value.2| <= rows && AllBelow(r.value.1, rows)
    ensures r.Ok? ==> r.value.2 == Predict(c.onRow, r.value.1)
  {
    var r :- RunTests(t, s, c, rows, [], []);
    Ok(r)
  }

  /** The test-set accuracy column: `'-'` without a test set. */
  function TestAccuracy(c: Classifier, test: Option<seq<nat>>): (r: Result<Cell>)
    ensures test.None? ==> r == Ok(TeachResult.Text("-"))
    ensures test.Some? ==> (r.Ok? <==> |test.value| > 0)
    ensures test.Some? && r.Ok? ==> r.value.Number? && 0.0 <= r.value.number <= 1.0
  {
    match test
    case None => Ok(TeachResult.Text("-"))
    case Some(labels) =>
      var a :- Accuracy(Predict(c.onTestRow, Range(|labels|)), labels);
      Ok(TeachResult.Number(a))
  }

  /** `_get_log_line`: the twelve cells describing the last fitted learner,
      read from the finished snapshot of the timer. */
  function LogLine(d: Dataset, env: Env, c: Classifier, trainIds: seq<nat>, testIds: seq<nat>,
                   timer: Timer.Timer, timeLeft: real, iters: nat, now: real): (r: Result<Row>)
    requires AllBelow(trainIds, |d.y|)
    ensures r.Ok? ==> |r.value| == 12
    ensures r.Ok? ==> (r.value[0] == TeachResult.Count(iters) && r.value[1] == TeachResult.Count(|trainIds|)
      && r.value[8] == TeachResult.Count(|testIds|) && r.value[4] == TeachResult.Number(timeLeft))
    ensures r.Ok? && d.test.Some? ==> r.value[TestAccuracyColumn].Number?
    ensures r.Ok? ==> r.value[9] == TeachResult.Count(|Classes(LabelsOf(d.y, trainIds))|)
  {
    var accuracy :- Accuracy(Predict(c.onRow, Range(|d.y|)), d.y);
    var labels := LabelsOf(d.y, trainIds);
    var testAccuracy :- TestAccuracy(c, d.test);
    var elapsed :- Timer.ElapsedTime(timer, now);
    var getExamples :- Timer.Item(timer, "get_examples");
    var training :- Timer.Item(timer, "training");
    var classification :- Timer.Item(timer, "classification");
    Ok([TeachResult.Count(iters), TeachResult.Count(|trainIds|), TeachResult.Number(accuracy),
        TeachResult.Number(elapsed), TeachResult.Number(timeLeft), TeachResult.Number(getExamples),
        TeachResult.Number(training), TeachResult.Number(classification),
        TeachResult.Count(|testIds|), TeachResult.Count(|Classes(labels)|),
        TeachResult.Text(env.distText(labels)), testAccuracy])
  }

  /** What the loop keeps between rounds: `ok` is the snapshot of timer and
      training ids taken at the top of the last round, `final` the retained
      learner and `selected` the round it comes from. `final` is `None`
      while `final_learner` is still the learner itself rather than a copy
      of it, so it follows every refit of the learner. */
  datatype Snapshot = Snapshot(timer: Timer.Timer, trainIds: seq<nat>)

  datatype State<S> = State(
    teacher: S, timer: Timer.Timer, trainIds: seq<nat>, model: Classifier, testIds: seq<nat>,
    log: seq<Row>, iters: nat, ok: Option<Snapshot>, best: real, final: Option<Classifier>, selected: nat)

  /** The classifier `final_learner` predicts with. */
  function Retained<S>(st: State<S>): Classifier {
    match st.final
    case None => st.model
    case Some(c) => c
  }

  /** A log row after the header: sixteen cells, with numbers in the two
      accuracy columns when there is a test set. */
  predicate RowShape(row: Row, hasTest: bool) {
    |row| == |LogHeader|
    && (hasTest ==> row[TestAccuracyColumn].Number? && row[SelectedAccuracyColumn].Number?)
  }

  /** The header row, then rows of the right shape. */
  predicate WellFormedLog(log: seq<Row>, hasTest: bool) {
    |log| >= 1 && log[0] == HeaderRow() && forall i | 1 <= i < |log| :: RowShape(log[i], hasTest)
  }

  /** What holds between rounds. */
  predicate Inv<S>(st: State<S>, d: Dataset) {
    st.timer.Valid() && st.timer.phase.On? && |st.trainIds| <= |d.y| && AllBelow(st.trainIds, |d.y|)
    && |st.log| == st.iters + 1 && WellFormedLog(st.log, d.test.Some?)
    && 1 <= st.selected <= |st.log|
    && (st.ok.Some? <==> st.iters >= 1)
    && (st.ok.Some? ==> |st.ok.value.trainIds| <= |d.y| && AllBelow(st.ok.value.trainIds, |d.y|))
  }

  /** What holds inside a round once the snapshot is taken: the round's row
      is already in the log unless the best learner is being retained. */
  predicate MidInv<S>(st: State<S>, d: Dataset, saveBest: bool) {
    st.timer.Valid() && st.timer.phase.On? && |st.trainIds| <= |d.y| && AllBelow(st.trainIds, |d.y|)
    && st.iters >= 1 && |st.log| == (if saveBest then st.iters else st.iters + 1)
    && WellFormedLog(st.log, d.test.Some?)
    && 1 <= st.selected <= |st.log|
    && st.ok.Some? && |st.ok.value.trainIds| <= |d.y| && AllBelow(st.ok.value.trainIds, |d.y|)
  }

  /** The top of a round: stop the clock, finish a copy of the timer as the
      round's snapshot, build the log row, append it at once unless the
      best learner is being retained, and resume the clock. */
  function Snap<S>(st: State<S>, d: Dataset, env: Env, o: Options, stamp: Stamps): (r: Result<(State<S>, Row)>)
    requires Inv(st, d)
    ensures r.Ok? ==> |r.value.1| == 12 && (d.test.Some? ==> r.value.1[TestAccuracyColumn].Number?)
    ensures r.Ok? ==> MidInv(r.value.0, d, o.saveBest)
    ensures r.Ok? ==> (var s := r.value.0;
      s.iters == st.iters + 1 && s.ok.value.trainIds == st.trainIds
      && s.trainIds == st.trainIds && s.model == st.model && s.teacher == st.teacher
      && s.testIds == st.testIds && s.final == st.final && s.best == st.best
      && (o.saveBest ==> s.log == st.log && s.selected == st.selected)
      && (!o.saveBest ==> s.log == st.log + [r.value.1 + [TeachResult.Count(0), TeachResult.Count(0),
            TeachResult.Count(s.iters), r.value.1[TestAccuracyColumn]]] && s.selected == s.iters))
  {
    var iters := st.iters + 1;
    var stopped := Timer.Stop(st.timer, stamp.stop).value;
    var okTimer := Timer.Finish(Timer.Copy(stopped).value, stamp.stop).value;
    var line :- LogLine(d, env, st.model, st.trainIds, st.testIds, okTimer, stamp.timeLeft, iters, stamp.stop);
    var resumed := Timer.Unstop(stopped, stamp.unstop).value;
    var snapped := st.(iters := iters, timer := resumed, ok := Some(Snapshot(okTimer, st.trainIds)));
    if o.saveBest then Ok((snapped, line))
    else
      var row := line + [TeachResult.Count(0), TeachResult.Count(0), TeachResult.Count(iters), line[TestAccuracyColumn]];
      Ok((snapped.(log := st.log + [row], selected := iters), line))
  }

  /** Classify the test ids the teacher asks for, then ask it for new
      training ids; each phase is timed. */
  function Query<S>(t: Teacher<S>, st: State<S>, rows: nat, stamp: Stamps): (r: Result<(State<S>, seq<nat>)>)
    requires st.timer.Valid() && st.timer.phase.On?
    ensures r.Ok? ==> r.value.0.timer.Valid() && r.value.0.timer.phase.On? && |r.value.0.testIds| <= rows
    ensures r.Ok? ==> r.value.0 == st.(teacher := r.value.0.teacher, timer := r.value.0.timer,
                                       testIds := r.value.0.testIds)
  {
    var ticking := Timer.Tick(st.timer, "classification", stamp.classifyFrom).value;
    var tests :- Tests(t, st.teacher, st.model, rows);
    var classified := Timer.Tock(ticking, stamp.classifyTo).value;
    var asking := Timer.Tick(classified, "get_examples", stamp.examplesFrom).value;
    var taught :- t.newExamples(tests.0, tests.1, tests.2);
    var timer := Timer.Tock(asking, stamp.examplesTo).value;
    Ok((st.(teacher := taught.0, timer := timer, testIds := tests.1), taught.1))
  }

  /** The retention guard: a score within 1e-7 of the best so far, and
      below 2, replaces the retained learner. */
  predicate Replaces(score: real, best: real) {
    score + 0.0000001 >= best && score + 0.0000001 < 2.0
  }

  /** A round with no new ids scores 2.0, which never passes the guard; any
      real accuracy in [0, 1] at least as good as the best does. */
  lemma {:induction false} ReplacesBounds(score: real, best: real)
    ensures !Replaces(2.0, best)
    ensures 0.0 <= score <= 1.0 && best <= score ==> Replaces(score, best)
    ensures Replaces(score, best) ==> best - 0.0000001 <= score < 2.0
  {
  }

  /** The score a round gets when the best learner is retained: 2.0 when
      the teacher gave no new ids, otherwise the teacher's accuracy lowered
      by its confidence bound. */
  function Score<S>(t: Teacher<S>, s: S, env: Env, newIds: seq<nat>, queried: nat): (r: Result<real>)
    ensures |newIds| == 0 ==> r == Ok(2.0)
    ensures |newIds| > 0 ==> (r.Ok? <==> t.lastAccuracy(s).Ok?)
    ensures |newIds| > 0 && r.Ok? ==> r.value == env.lowerBound(t.lastAccuracy(s).value, queried)
  {
    if |newIds| == 0 then Ok(2.0)
    else
      var a :- t.lastAccuracy(s);
      Ok(env.lowerBound(a, queried))
  }

  /** The retention step. With `saveBest` the round's score decides whether
      the current learner becomes the retained one, and the log row is
      completed with the score and the retained learner's test accuracy;
      otherwise the current learner, not yet refitted, is retained. */
  function Retain<S>(t: Teacher<S>, st: State<S>, d: Dataset, env: Env, o: Options, line: Row, newIds: seq<nat>)
    : (r: Result<State<S>>)
    requires |line| == 12 && (d.test.Some? ==> line[TestAccuracyColumn].Number?)
    requires MidInv(st, d, o.saveBest)
    ensures r.Ok? ==> Inv(r.value, d)
    ensures !o.saveBest ==> r == Ok(st.(final := Some(st.model)))
    ensures o.saveBest && |newIds| == 0 ==> (r.Ok? && r.value.final == st.final && r.value.selected == st.selected
      && r.value.best == st.best)
    ensures o.saveBest && r.Ok? ==> (|r.value.log| == |st.log| + 1 && r.value.log[..|st.log|] == st.log
      && RowShape(r.value.log[|st.log|], d.test.Some?)
      && r.value.log[|st.log|][..12] == line
      && r.value.log[|st.log|][14] == TeachResult.Count(r.value.selected))
    ensures o.saveBest && r.Ok? ==> 1 <= r.value.selected <= |r.value.log|
    ensures o.saveBest && r.Ok? ==> ((r.value.final == Some(st.model) && r.value.selected == st.iters)
      || (r.value.final == st.final && r.value.selected == st.selected && r.value.best == st.best))
    ensures r.Ok? ==> r.value == st.(log := r.value.log, best := r.value.best, final := r.value.final,
                                     selected := r.value.selected)
  {
    if !o.saveBest then Ok(st.(final := Some(st.model)))
    else
      var score :- Score(t, st.teacher, env, newIds, |st.testIds|);
      var replace := Replaces(score, st.best);
      var selected := if replace then st.iters else st.selected;
      assert selected < |st.log| ==> RowShape(st.log[selected], d.test.Some?);
      var selectedAccuracy := if selected == |st.log| then line[TestAccuracyColumn]
                              else st.log[selected][TestAccuracyColumn];
      var row := line + [TeachResult.Number(score), TeachResult.Count(|st.testIds|),
                         TeachResult.Count(selected), selectedAccuracy];
      Ok(st.(best := if replace then score else st.best,
             final := if replace then Some(st.model) else st.final,
             selected := selected, log := st.log + [row]))
  }

  /** `join_sets`: the new ids are appended to the training ids, otherwise
      they replace them. */
  function NextTrainIds(trainIds: seq<nat>, newIds: seq<nat>, joinSets: bool): (r: seq<nat>)
    ensures joinSets ==> |r| == |trainIds| + |newIds| && r[..|trainIds|] == trainIds && r[|trainIds|..] == newIds
    ensures !joinSets ==> r == newIds
  {
    if joinSets then trainIds + newIds else newIds
  }

  /** The end of a round: no new ids ends the loop; otherwise the learner is
      refitted on the next training ids, which may not outnumber the rows. */
  function Train<S>(l: Learner, st: State<S>, d: Dataset, o: Options, newIds: seq<nat>, stamp: Stamps)
    : (r: Result<(State<S>, bool)>)
    requires Inv(st, d)
    ensures r.Ok? ==> Inv(r.value.0, d) && r.value.0.iters == st.iters
    ensures |newIds| == 0 ==> r == Ok((st, false))
    ensures |newIds| > 0 && r.Ok? ==> r.value.1
    ensures |newIds| > 0 && |NextTrainIds(st.trainIds, newIds, o.joinSets)| > |d.y| ==> r.Err?
    ensures r.Ok? && r.value.1 ==> (var s := r.value.0;
      s.timer.Valid() && s.timer.phase.On? && s.trainIds == NextTrainIds(st.trainIds, newIds, o.joinSets)
      && |s.trainIds| <= |d.y| && AllBelow(s.trainIds, |d.y|) && s.model == l.fit(s.trainIds)
      && s == st.(timer := s.timer, trainIds := s.trainIds, model := s.model))
    ensures r.Ok? && r.value.1 && st.final.None? ==> Retained(r.value.0) == l.fit(r.value.0.trainIds)
  {
    if |newIds| == 0 then Ok((st, false))
    else
      var ticking := Timer.Tick(st.timer, "training", stamp.trainFrom).value;
      var trainIds := NextTrainIds(st.trainIds, newIds, o.joinSets);
      var _ :- Check(|trainIds| <= |d.y|, "len(train_ids) <= rows");
      var _ :- InRange(trainIds, |d.y|);
      var timer := Timer.Tock(ticking, stamp.trainTo).value;
      Ok((st.(timer := timer, trainIds := trainIds, model := l.fit(trainIds)), true))
  }

  /** One round of the loop; the flag says whether the loop goes on. */
  function Round<S>(t: Teacher<S>, l: Learner, d: Dataset, env: Env, o: Options, st: State<S>, stamp: Stamps)
    : (r: Result<(State<S>, bool)>)
    requires Inv(st, d)
    ensures r.Ok? ==> Inv(r.value.0, d) && r.value.0.iters == st.iters + 1
  {
    var snapped :- Snap(st, d, env, o, stamp);
    var queried :- Query(t, snapped.0, |d.y|, stamp);
    var retained :- Retain(t, queried.0, d, env, o, snapped.1, queried.1);
    Train(l, retained, d, o, queried.1, stamp)
  }

  /** The loop: one round per stamp record, ending early when the teacher
      has nothing more to teach. */
  function Rounds<S>(t: Teacher<S>, l: Learner, d: Dataset, env: Env, o: Options, st: State<S>, stamps: seq<Stamps>)
    : (r: Result<State<S>>)
    requires Inv(st, d)
    ensures r.Ok? ==> Inv(r.value, d) && st.iters <= r.value.iters <= st.iters + |stamps|
    ensures r.Ok? && |stamps| > 0 ==> r.value.iters > st.iters
    decreases |stamps|
  {
    if |stamps| == 0 then Ok(st)
    else
      var next :- Round(t, l, d, env, o, st, stamps[0]);
      if !next.1 then Ok(next.0)
      else Rounds(t, l, d, env, o, next.0, stamps[1..])
  }

  /** Everything up to the first fit: timer, checks, teacher start and the
      first batch, which must be non-empty and no larger than the dataset. */
  function Prepare<S>(t: Teacher<S>, l: Learner, d: Dataset, setup: Setup): (r: Result<State<S>>)
    ensures !LabelChecks(d.y).Ok? ==> r == Err(LabelChecks(d.y).error)
    ensures r.Ok? ==> (Inv(r.value, d) && r.value.iters == 0 && r.value.testIds == []
      && 0 < |r.value.trainIds| <= |d.y| && r.value.model == l.fit(r.value.trainIds)
      && r.value.final.None? && Retained(r.value) == r.value.model)
  {
    ZeroedTimer(setup.start);
    var timer := SetTimerKeysToZero(Timer.Start(Timer.New(), setup.start), TimerKeys, setup.start).value;
    var _ :- LabelChecks(d.y);
    var s :- t.start(d.y);
    var asking := Timer.Tick(timer, "get_examples", setup.firstFrom).value;
    var first :- t.first(s);
    var _ :- Check(0 < |first.1| <= |d.y|, "0 < len(new_train_ids) <= rows");
    var asked := Timer.Tock(asking, setup.firstTo).value;
    var training := Timer.Tick(asked, "training", setup.trainFrom).value;
    var _ :- InRange(first.1, |d.y|);
    var model := l.fit(first.1);
    var trained := Timer.Tock(training, setup.trainTo).value;
    Ok(State(first.0, trained, first.1, model, [], [HeaderRow()], 0, None, 0.0, None, 1))
  }

  /** A result built from a final loop state. */
  predicate Reports<S>(res: TeachResult.TeachResult, end: State<S>, t: Teacher<S>, l: Learner, d: Dataset) {
    end.ok.Some? && res.sIds == end.ok.value.trainIds && res.timer == end.ok.value.timer
    && res.main.stats.qtdIters == end.iters as real && res.log == Some(end.log)
    && res.h == Predict(Retained(end).onRow, Range(|d.y|))
    && res.main.teacherName == t.name && res.main.learnerName == l.name && res.main.datasetName == d.name
  }

  /** After the loop: the sanity checks on the last snapshot, then the
      result from the retained learner. The validation accuracy is the
      retained learner's test accuracy from the last log row, or -1 without
      a test set. */
  function Finish<S>(t: Teacher<S>, l: Learner, d: Dataset, env: Env, o: Options, end: State<S>)
    : (r: Result<TeachResult.TeachResult>)
    requires Inv(end, d)
    ensures end.iters == 0 ==> r.Err? && r.error.AssertionError?
    ensures end.ok.Some? && !Distinct(end.ok.value.trainIds) ==> r.Err? && r.error.AssertionError?
    ensures r.Ok? ==> (Reports(r.value, end, t, l, d) && end.iters >= 1
      && Distinct(r.value.sIds) && |r.value.sIds| <= |d.y| && AllBelow(r.value.sIds, |d.y|)
      && r.value.main.datasetQtdExamples == |d.y| && |r.value.h| == |d.y|
      && r.value.main.stats.teachingSetSize == |r.value.sIds| as real)
  {
    var _ :- Check(end.iters >= 1, "there was no training...");
    var snapshot := end.ok.value;
    var _ :- Check(Distinct(snapshot.trainIds), "len(ok_train_ids) == len(set(ok_train_ids))");
    var validation := if d.test.Some? then end.log[end.iters][SelectedAccuracyColumn].number else -1.0;
    var h := Predict(Retained(end).onRow, Range(|d.y|));
    var setting := TeachResult.Setting(t.name, l.name, d.name, d.cols, |Classes(d.y)|,
                                       env.distText(d.y), o.timeLimit);
    TeachResult.New(setting, snapshot.trainIds, h, snapshot.timer, end.iters, end.log, validation,
                    t.accuracy(end.teacher, h), t.params(end.teacher), l.params, env.date)
  }

  /** `teach`: prepare, run the rounds the stamps allow, then report. */
  function Teach<S>(t: Teacher<S>, l: Learner, d: Dataset, env: Env, o: Options, setup: Setup, stamps: seq<Stamps>)
    : (r: Result<TeachResult.TeachResult>)
    ensures !LabelChecks(d.y).Ok? ==> r == Err(LabelChecks(d.y).error)
    ensures |stamps| == 0 ==> r.Err?
    ensures r.Ok? ==> (1.0 <= r.value.main.stats.qtdIters <= |stamps| as real
      && Distinct(r.value.sIds) && |r.value.sIds| <= |d.y| && AllBelow(r.value.sIds, |d.y|)
      && r.value.main.datasetQtdExamples == |d.y| && |r.value.h| == |d.y|
      && r.value.main.teacherName == t.name && r.value.main.learnerName == l.name)
    ensures r.Ok? ==> (r.value.log.Some? && |r.value.log.value| as real == r.value.main.stats.qtdIters + 1.0
      && WellFormedLog(r.value.log.value, d.test.Some?))
  {
    var st :- Prepare(t, l, d, setup);
    var end :- Rounds(t, l, d, env, o, st, stamps);
    Finish(t, l, d, env, o, end)
  }
}
