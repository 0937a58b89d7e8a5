/** The stopwatch the protocol uses to time each phase of teaching: a
    five-state machine (OFF, ON, TICK, STOP, FINISHED) over named fields.
    Every clock reading is an input `now`. */
module Timer {
  import opened Results
  import opened IdSeq

  /** `Timer.fields`: the names in the order they were first
      ticked, and the time accumulated in each. */
  datatype Fields = Fields(order: seq<string>, times: map<string, real>)
  {
    /** Each name once, and exactly the listed names have a time. */
    predicate WellFormed() {
      Distinct(order) && times.Keys == set k | k in order
    }
  }

  const NoFields := Fields([], map[])

  /** The five states, each with what it remembers: the field being timed
      and when its tick began, or when the pause began. */
  datatype Phase = Off | On | Ticking(field: string, since: real) | Stopped(since: real) | Finished

  datatype Totals = Totals(total: real, others: real)

  /** `totals` (`total_time`, `others_time`) and `t0` (`_t0_total_time`)
      are attributes that `Timer.__init__` leaves unset: `start` sets them,
      and `totals` is also set by `finish`, `copy` and the arithmetic
      operators; `None` stands for an attribute not set. */
  datatype Timer = Timer(phase: Phase, fields: Fields, totals: Option<Totals>, t0: Option<real>)
  {
    /** What every timer the operations build satisfies: a well-formed field
        map, no start instant before `start`, and every attribute set once
        it has run. */
    predicate Valid() {
      fields.WellFormed()
      && (phase.Off? ==> t0.None?)
      && (!phase.Off? ==> totals.Some? && t0.Some?)
    }
  }

  /** `times.get(k, 0.0)` */
  function Value(times: map<string, real>, k: string): real {
    if k in times then times[k] else 0.0
  }

  /** `self._d.get(k, 0.0)` */
  function Get(f: Fields, k: string): real {
    Value(f.times, k)
  }

  /** The times of the listed names, added up. */
  function SumOf(order: seq<string>, times: map<string, real>): real {
    if order == [] then 0.0
    else SumOf(order[..|order| - 1], times) + Value(times, order[|order| - 1])
  }

  /** `sum(self._d.values())` */
  function Sum(f: Fields): real {
    SumOf(f.order, f.times)
  }

  /** Only the times of the listed names matter to their sum. */
  lemma {:induction false} SumFrame(order: seq<string>, x: map<string, real>, y: map<string, real>)
    requires forall k | k in order :: Value(x, k) == Value(y, k)
    ensures SumOf(order, x) == SumOf(order, y)
  {
    if order != [] {
      var init := order[..|order| - 1];
      assert forall k | k in init :: k in order;
      SumFrame(init, x, y);
    }
  }

  /** Listed names whose times are the sums of two maps' times have the
      sum of the two sums. */
  lemma {:induction false} SumPointwise(order: seq<string>, x: map<string, real>, y: map<string, real>, z: map<string, real>)
    requires forall k | k in order :: Value(z, k) == Value(x, k) + Value(y, k)
    ensures SumOf(order, z) == SumOf(order, x) + SumOf(order, y)
  {
    if order != [] {
      var init := order[..|order| - 1];
      assert forall k | k in init :: k in order;
      SumPointwise(init, x, y, z);
    }
  }

  /** Every time scaled by `alpha`. */
  function ScaleMap(x: map<string, real>, alpha: real): (r: map<string, real>)
    ensures r.Keys == x.Keys
    ensures forall k :: Value(r, k) == Value(x, k) * alpha
  {
    map k | k in x :: x[k] * alpha
  }

  /** Scaling every time scales the sum. */
  lemma {:induction false} SumScaled(order: seq<string>, x: map<string, real>, alpha: real)
    ensures SumOf(order, ScaleMap(x, alpha)) == SumOf(order, x) * alpha
  {
    if order != [] {
      var init := order[..|order| - 1];
      var last := order[|order| - 1];
      var z := ScaleMap(x, alpha);
      SumScaled(init, x, alpha);
      assert SumOf(order, z) == SumOf(init, z) + Value(z, last);
      assert SumOf(order, x) == SumOf(init, x) + Value(x, last);
      Distribute(SumOf(init, x), Value(x, last), alpha);
    }
  }

  lemma {:induction false} Distribute(a: real, b: real, c: real)
    ensures a * c + b * c == (a + b) * c
  {
  }

  /** Changing the time of one listed name, listed once, changes the sum
      by the difference. */
  lemma {:induction false} SumUpdate(order: seq<string>, times: map<string, real>, k: string, v: real)
    requires Distinct(order) && k in order
    ensures SumOf(order, times[k := v]) == SumOf(order, times) - Value(times, k) + v
  {
    var init := order[..|order| - 1];
    var last := order[|order| - 1];
    assert forall x | x in init :: x in order;
    if last == k {
      assert k !in init by {
        forall i | 0 <= i < |init| ensures init[i] != k {
          assert init[i] == order[i];
        }
      }
      SumFrame(init, times[k := v], times);
    } else {
      assert Distinct(init) by {
        forall i, j | 0 <= i < j < |init| ensures init[i] != init[j] {
          assert init[i] == order[i] && init[j] == order[j];
        }
      }
      SumUpdate(init, times, k, v);
    }
  }

  /** A name appended with its time adds that time to the sum. */
  lemma {:induction false} SumAppend(order: seq<string>, times: map<string, real>, k: string, v: real)
    requires k !in order
    ensures SumOf(order + [k], times[k := v]) == SumOf(order, times) + v
  {
    assert (order + [k])[..|order|] == order;
    SumFrame(order, times[k := v], times);
  }

  /** Appending a name the list lacks keeps the names distinct. */
  lemma {:induction false} AppendDistinct(ks: seq<string>, k: string)
    requires Distinct(ks) && k !in ks
    ensures Distinct(ks + [k])
  {
    var r := ks + [k];
    forall i, j | 0 <= i < j < |r| ensures r[i] != r[j] {
      if j == |ks| {
        assert r[i] == ks[i];
      }
    }
  }

  /** `self._d[k] = self._d.get(k, 0.0) + d`: an existing field grows in
      place, a new one is appended at the end of the order. */
  function AddTo(f: Fields, k: string, d: real): (r: Fields)
    requires f.WellFormed()
    ensures r.WellFormed()
    ensures r.order == if k in f.order then f.order else f.order + [k]
    ensures Get(r, k) == Get(f, k) + d
    ensures forall k' | k' != k :: Get(r, k') == Get(f, k')
    ensures Sum(r) == Sum(f) + d
  {
    if k in f.order then Grow(f, k, Get(f, k) + d) else Join(f, k, d)
  }

  /** A listed field set to `v`. */
  function Grow(f: Fields, k: string, v: real): (r: Fields)
    requires f.WellFormed() && k in f.order
    ensures r.WellFormed() && r.order == f.order && r.times == f.times[k := v]
    ensures Sum(r) == Sum(f) - Get(f, k) + v
  {
    SumUpdate(f.order, f.times, k, v);
    Fields(f.order, f.times[k := v])
  }

  /** A new field with time `v`, at the end of the order. */
  function Join(f: Fields, k: string, v: real): (r: Fields)
    requires f.WellFormed() && k !in f.order
    ensures r.WellFormed() && r.order == f.order + [k] && r.times == f.times[k := v]
    ensures Sum(r) == Sum(f) + v
  {
    SumAppend(f.order, f.times, k, v);
    AppendDistinct(f.order, k);
    var order := f.order + [k];
    assert (set x | x in order) == (set x | x in f.order) + {k};
    Fields(order, f.times[k := v])
  }

  /** `Timer()`: OFF, with an empty field map and no other attribute. */
  function New(): (r: Timer)
    ensures r.Valid() && r.phase.Off? && r.fields == NoFields
  {
    Timer(Off, NoFields, None, None)
  }

  /** `start`, from any state: ON, no fields, zero totals, and the start
      instant `now`. */
  function Start(t: Timer, now: real): (r: Timer)
    ensures r.Valid() && r.phase.On? && r.fields == NoFields
    ensures r.totals == Some(Totals(0.0, 0.0)) && r.t0 == Some(now)
  {
    Timer(On, NoFields, Some(Totals(0.0, 0.0)), Some(now))
  }

  /** `unstop` on a stopped timer: back to ON, with the start instant moved
      later by the length of the pause. */
  function Resume(t: Timer, now: real): (r: Timer)
    requires t.Valid() && t.phase.Stopped?
    ensures r.Valid() && r.phase.On? && r.fields == t.fields && r.totals == t.totals
    ensures r.t0 == Some(t.t0.value + (now - t.phase.since))
  {
    t.(phase := On, t0 := Some(t.t0.value + (now - t.phase.since)))
  }

  /** `unstop`: only a stopped timer may resume. */
  function Unstop(t: Timer, now: real): (r: Result<Timer>)
    requires t.Valid()
    ensures r.Ok? <==> t.phase.Stopped?
    ensures r.Err? ==> r.error.AssertionError?
    ensures r.Ok? ==> r.value == Resume(t, now)
  {
    var _ :- Check(t.phase.Stopped?, "cannot unstop before stop");
    Ok(Resume(t, now))
  }

  /** `tick`: allowed from ON, and from STOP after an implicit `unstop`;
      the field starts being timed at `now`. */
  function Tick(t: Timer, field: string, now: real): (r: Result<Timer>)
    requires t.Valid()
    ensures r.Ok? <==> t.phase.On? || t.phase.Stopped?
    ensures r.Err? ==> r.error.AssertionError?
    ensures r.Ok? ==> r.value.Valid() && r.value.phase == Ticking(field, now)
    ensures r.Ok? ==> r.value.fields == t.fields && r.value.totals == t.totals
    ensures t.phase.On? ==> r.Ok? && r.value.t0 == t.t0
    ensures t.phase.Stopped? ==> r.Ok? && r.value.t0 == Resume(t, now).t0
  {
    if t.phase.Stopped? then Ok(Resume(t, now).(phase := Ticking(field, now)))
    else if t.phase.On? then Ok(t.(phase := Ticking(field, now)))
    else Err(AssertionError("cannot tick twice or tick before start"))
  }

  /** The `tock` of a timer that is timing `field` since `since`. */
  function Close(t: Timer, field: string, since: real, now: real): (r: Timer)
    requires t.Valid() && t.phase == Ticking(field, since)
    ensures r.Valid() && r.phase.On? && r.totals == t.totals && r.t0 == t.t0
    ensures r.fields == AddTo(t.fields, field, now - since)
  {
    t.(phase := On, fields := AddTo(t.fields, field, now - since))
  }

  /** `tock`: only while a field is timed. The interval since its tick is
      added to that field's running time; every other field keeps its
      time, and a field timed for the first time joins the end of the
      order. */
  function Tock(t: Timer, now: real): (r: Result<Timer>)
    requires t.Valid()
    ensures r.Ok? <==> t.phase.Ticking?
    ensures r.Err? ==> r.error.AssertionError?
    ensures r.Ok? ==> r.value.Valid() && r.value.phase.On? && r.value.totals == t.totals && r.value.t0 == t.t0
    ensures r.Ok? ==> Get(r.value.fields, t.phase.field) == Get(t.fields, t.phase.field) + (now - t.phase.since)
    ensures r.Ok? ==> forall k | k != t.phase.field :: Get(r.value.fields, k) == Get(t.fields, k)
    ensures r.Ok? ==> (r.value.fields.order ==
      if t.phase.field in t.fields.order then t.fields.order else t.fields.order + [t.phase.field])
  {
    match t.phase
    case Ticking(field, since) => Ok(Close(t, field, since, now))
    case _ => Err(AssertionError("cannot tock before tick"))
  }

  /** `stop`: allowed from ON and TICK, closing an open tick; the pause
      starts at `now`. */
  function Stop(t: Timer, now: real): (r: Result<Timer>)
    requires t.Valid()
    ensures r.Ok? <==> t.phase.On? || t.phase.Ticking?
    ensures r.Err? ==> r.error.AssertionError?
    ensures r.Ok? ==> r.value.Valid() && r.value.phase == Stopped(now) && r.value.t0 == t.t0
    ensures r.Ok? ==> r.value.totals == t.totals
    ensures t.phase.On? ==> r.Ok? && r.value.fields == t.fields
    ensures t.phase.Ticking? ==> r.Ok? && r.value.fields == Tock(t, now).value.fields
  {
    match t.phase
    case On => Ok(t.(phase := Stopped(now)))
    case Ticking(field, since) => Ok(Close(t, field, since, now).(phase := Stopped(now)))
    case _ => Err(AssertionError(""))
  }

  /** What `finish` does before it reads the clock: a tick is closed, a
      pause is ended. */
  function Settle(t: Timer, now: real): (r: Timer)
    requires t.Valid() && (t.phase.On? || t.phase.Ticking? || t.phase.Stopped?)
    ensures r.Valid() && r.phase.On? && r.totals == t.totals
    ensures t.phase.On? ==> r == t
    ensures t.phase.Ticking? ==> r == Tock(t, now).value
    ensures t.phase.Stopped? ==> r == Resume(t, now)
  {
    match t.phase
    case Ticking(field, since) => Close(t, field, since, now)
    case Stopped(_) => Resume(t, now)
    case _ => t
  }

  /** The total splits exactly into the fields and `others`. */
  predicate Balanced(t: Timer) {
    t.totals.Some? && t.totals.value.others + Sum(t.fields) == t.totals.value.total
  }

  /** `finish`: allowed from ON, TICK and STOP. It closes what is open, sets
      the total to the time since the (pause-adjusted) start and books the
      rest of it, beyond the fields, as `others`. */
  function Finish(t: Timer, now: real): (r: Result<Timer>)
    requires t.Valid()
    ensures r.Ok? <==> t.phase.On? || t.phase.Ticking? || t.phase.Stopped?
    ensures r.Err? ==> r.error.AssertionError?
    ensures r.Ok? ==> r.value.Valid() && r.value.phase.Finished? && Balanced(r.value)
    ensures r.Ok? ==> r.value.fields == Settle(t, now).fields
    ensures r.Ok? ==> r.value.totals.value.total == now - Settle(t, now).t0.value
  {
    if t.phase.Off? || t.phase.Finished? then Err(AssertionError("cannot finish before start"))
    else
      var s := Settle(t, now);
      var total := now - s.t0.value;
      Ok(s.(phase := Finished, totals := Some(Totals(total, total - Sum(s.fields)))))
  }

  /** `get_elapsed_time`. The OFF test sets 0.0 but is not chained to the
      tests that follow, so an OFF timer falls through to the last branch
      and reads a start instant it does not have: AttributeError. */
  function ElapsedTime(t: Timer, now: real): (r: Result<real>)
    ensures t.phase.Finished? && t.totals.Some? ==> r == Ok(t.totals.value.total)
    ensures t.phase.Stopped? && t.t0.Some? ==> r == Ok(t.phase.since - t.t0.value)
    ensures (t.phase.On? || t.phase.Ticking? || t.phase.Off?) && t.t0.Some? ==> r == Ok(now - t.t0.value)
    ensures !t.phase.Finished? && t.t0.None? ==> r == Err(AttributeError("_t0_total_time"))
  {
    match t.phase
    case Finished =>
      if t.totals.None? then Err(AttributeError("total_time")) else Ok(t.totals.value.total)
    case Stopped(since) =>
      if t.t0.None? then Err(AttributeError("_t0_total_time")) else Ok(since - t.t0.value)
    case _ =>
      if t.t0.None? then Err(AttributeError("_t0_total_time")) else Ok(now - t.t0.value)
  }

  /** `timer[key]` */
  function Item(t: Timer, key: string): (r: Result<real>)
    ensures r.Ok? <==> key in t.fields.times
    ensures r.Ok? ==> r.value == Get(t.fields, key)
    ensures r.Err? ==> r.error == KeyError(key)
  {
    if key in t.fields.times then Ok(t.fields.times[key]) else Err(KeyError(key))
  }

  /** The fields of two timers with the same names in the same order,
      added name by name. */
  function AddFields(a: Fields, b: Fields): (r: Fields)
    requires a.WellFormed() && b.WellFormed() && a.order == b.order
    ensures r.WellFormed() && r.order == a.order
    ensures forall k :: Get(r, k) == Get(a, k) + Get(b, k)
    ensures Sum(r) == Sum(a) + Sum(b)
  {
    var r := Fields(a.order, map k | k in a.times :: a.times[k] + b.times[k]);
    SumPointwise(a.order, a.times, b.times, r.times);
    r
  }

  /** `__add__`: the key lists must be equal, order included; fields,
      total and others add up. The sum is an OFF timer with no start
      instant. */
  function Add(a: Timer, b: Timer): (r: Result<Timer>)
    requires a.Valid() && b.Valid()
    ensures r.Ok? <==> a.fields.order == b.fields.order && a.totals.Some? && b.totals.Some?
    ensures a.fields.order != b.fields.order ==> r.Err? && r.error.AssertionError?
    ensures r.Ok? ==> r.value.Valid() && r.value.phase.Off? && r.value.fields.order == a.fields.order
    ensures r.Ok? ==> forall k :: Get(r.value.fields, k) == Get(a.fields, k) + Get(b.fields, k)
    ensures r.Ok? ==> (r.value.totals.Some?
      && r.value.totals.value.total == a.totals.value.total + b.totals.value.total
      && r.value.totals.value.others == a.totals.value.others + b.totals.value.others)
  {
    var _ :- Check(a.fields.order == b.fields.order, "");
    if a.totals.None? || b.totals.None? then Err(AttributeError("total_time"))
    else
      Ok(Timer(Off, AddFields(a.fields, b.fields),
               Some(Totals(a.totals.value.total + b.totals.value.total,
                           a.totals.value.others + b.totals.value.others)), None))
  }

  /** The fields scaled by `alpha`, in the same order. */
  function ScaleFields(f: Fields, alpha: real): (r: Fields)
    requires f.WellFormed()
    ensures r.WellFormed() && r.order == f.order
    ensures forall k :: Get(r, k) == Get(f, k) * alpha
    ensures Sum(r) == Sum(f) * alpha
  {
    var m := ScaleMap(f.times, alpha);
    SumScaled(f.order, f.times, alpha);
    assert Distinct(f.order) && m.Keys == set k | k in f.order;
    Fields(f.order, m)
  }

  /** `__mul__`: fields, total and others scaled by `alpha`, in a new OFF
      timer. */
  function Mul(t: Timer, alpha: real): (r: Result<Timer>)
    requires t.Valid()
    ensures r.Ok? <==> t.totals.Some?
    ensures r.Err? ==> r.error == AttributeError("total_time")
    ensures r.Ok? ==> r.value.Valid() && r.value.phase.Off? && r.value.fields.order == t.fields.order
    ensures r.Ok? ==> forall k :: Get(r.value.fields, k) == Get(t.fields, k) * alpha
    ensures r.Ok? ==> (r.value.totals.Some?
      && r.value.totals.value.total == t.totals.value.total * alpha
      && r.value.totals.value.others == t.totals.value.others * alpha)
  {
    if t.totals.None? then Err(AttributeError("total_time"))
    else
      Ok(Timer(Off, ScaleFields(t.fields, alpha),
               Some(Totals(t.totals.value.total * alpha, t.totals.value.others * alpha)), None))
  }

  /** `__truediv__`: `__mul__` by `1 / alpha`. */
  function Div(t: Timer, alpha: real): (r: Result<Timer>)
    requires t.Valid()
    ensures alpha == 0.0 ==> r == Err(ZeroDivisionError)
    ensures alpha != 0.0 ==> r == Mul(t, 1.0 / alpha)
  {
    if alpha == 0.0 then Err(ZeroDivisionError) else Mul(t, 1.0 / alpha)
  }

  /** `__copy__`: every attribute is read, so a timer never started has
      none to copy. The copy equals the original; being values, the two
      can never affect each other. */
  function Copy(t: Timer): (r: Result<Timer>)
    ensures r.Ok? <==> t.totals.Some? && t.t0.Some?
    ensures r.Err? ==> r.error.AttributeError?
    ensures r.Ok? ==> r.value == t
  {
    if t.totals.None? then Err(AttributeError("total_time"))
    else if t.t0.None? then Err(AttributeError("_t0_total_time"))
    else Ok(t)
  }

  /** An OFF timer never reports 0.0 elapsed: it has no start instant. */
  lemma {:induction false} OffElapsed(t: Timer, now: real)
    requires t.Valid() && t.phase.Off?
    ensures ElapsedTime(t, now).Err?
  {
  }

  /** A tick at `from` followed by a tock at `to`. */
  datatype Interval = Interval(from: real, to: real)

  /** The time the intervals cover. */
  function Spent(ivs: seq<Interval>): real {
    if ivs == [] then 0.0 else (ivs[0].to - ivs[0].from) + Spent(ivs[1..])
  }

  /** A running timer that ticks and tocks `field` once per interval. */
  function Session(t: Timer, field: string, ivs: seq<Interval>): (r: Timer)
    requires t.Valid() && t.phase.On?
    ensures r.Valid() && r.phase.On? && r.t0 == t.t0 && r.totals == t.totals
    decreases |ivs|
  {
    if ivs == [] then t
    else
      var ticked := Tick(t, field, ivs[0].from).value;
      Session(Tock(ticked, ivs[0].to).value, field, ivs[1..])
  }

  /** Repeated tick/tock pairs on one field add up: the field gains exactly
      the covered time and no other field changes. */
  lemma {:induction false} SessionAccumulates(t: Timer, field: string, ivs: seq<Interval>)
    requires t.Valid() && t.phase.On?
    ensures Get(Session(t, field, ivs).fields, field) == Get(t.fields, field) + Spent(ivs)
    ensures forall k | k != field :: Get(Session(t, field, ivs).fields, k) == Get(t.fields, k)
    decreases |ivs|
  {
    if ivs != [] {
      var ticked := Tick(t, field, ivs[0].from).value;
      var tocked := Tock(ticked, ivs[0].to).value;
      SessionAccumulates(tocked, field, ivs[1..]);
    }
  }

  /** A pause from `p` to `u` is left out of the elapsed and the finished
      total time, and while paused the elapsed time stands still. */
  lemma {:induction false} PauseExcluded(t: Timer, p: real, u: real, now: real)
    requires t.Valid() && t.phase.On?
    ensures Stop(t, p).Ok? && ElapsedTime(Stop(t, p).value, now) == Ok(p - t.t0.value)
    ensures Unstop(Stop(t, p).value, u).Ok?
    ensures ElapsedTime(Unstop(Stop(t, p).value, u).value, now) == Ok((now - t.t0.value) - (u - p))
    ensures Finish(Unstop(Stop(t, p).value, u).value, now).Ok?
    ensures Finish(Unstop(Stop(t, p).value, u).value, now).value.totals.value.total
            == (now - t.t0.value) - (u - p)
  {
    var stopped := Stop(t, p).value;
    var resumed := Unstop(stopped, u).value;
    assert resumed.t0 == Some(t.t0.value + (u - p));
  }

  /** A timer started at `s` and finished at `e` with no field timed has
      run `e - s`, all of it booked as `others`. */
  lemma {:induction false} StartFinish(t: Timer, s: real, e: real)
    ensures Finish(Start(t, s), e).Ok?
    ensures Finish(Start(t, s), e).value.totals == Some(Totals(e - s, e - s))
  {
    assert Sum(NoFields) == 0.0;
  }

  /** `__add__` keeps the split of the total into fields and `others`. */
  lemma {:induction false} AddBalanced(a: Timer, b: Timer)
    requires a.Valid() && b.Valid() && Balanced(a) && Balanced(b) && Add(a, b).Ok?
    ensures Balanced(Add(a, b).value)
  {
  }

  /** `__mul__` keeps the split of the total into fields and `others`. */
  lemma {:induction false} MulBalanced(t: Timer, alpha: real)
    requires t.Valid() && Balanced(t)
    ensures Mul(t, alpha).Ok? && Balanced(Mul(t, alpha).value)
  {
    var o := t.totals.value.others;
    var sum := Sum(t.fields);
    assert o * alpha + sum * alpha == (o + sum) * alpha;
  }

  /** Dividing by a non-zero `alpha` undoes multiplying by it. */
  lemma {:induction false} DivUndoesMul(t: Timer, alpha: real)
    requires t.Valid() && t.totals.Some? && alpha != 0.0
    ensures Div(Mul(t, alpha).value, alpha).Ok?
    ensures var back := Div(Mul(t, alpha).value, alpha).value;
      back.fields.order == t.fields.order
      && (forall k :: Get(back.fields, k) == Get(t.fields, k))
      && back.totals == t.totals
  {
    UnscaleFields(t, alpha);
    UnscaleTotals(t, alpha);
  }

  lemma {:induction false} UnscaleFields(t: Timer, alpha: real)
    requires t.Valid() && t.totals.Some? && alpha != 0.0
    ensures forall k :: Get(Div(Mul(t, alpha).value, alpha).value.fields, k) == Get(t.fields, k)
  {
    var m := Mul(t, alpha).value;
    var back := Div(m, alpha).value;
    forall k ensures Get(back.fields, k) == Get(t.fields, k) {
      Unscale(Get(t.fields, k), Get(m.fields, k), alpha);
    }
  }

  lemma {:induction false} UnscaleTotals(t: Timer, alpha: real)
    requires t.Valid() && t.totals.Some? && alpha != 0.0
    ensures Div(Mul(t, alpha).value, alpha).value.totals == t.totals
  {
    var m := Mul(t, alpha).value;
    var x := t.totals.value;
    var y := m.totals.value;
    assert y.total == x.total * alpha && y.others == x.others * alpha;
    Unscale(x.total, y.total, alpha);
    Unscale(x.others, y.others, alpha);
    var back := Div(m, alpha).value;
    assert back.totals.value.total == y.total * (1.0 / alpha);
    assert back.totals.value.others == y.others * (1.0 / alpha);
    assert back.totals.value == x;
  }

  lemma {:induction false} Unscale(x: real, y: real, alpha: real)
    requires alpha != 0.0 && y == x * alpha
    ensures y * (1.0 / alpha) == x
  {
    var inv := 1.0 / alpha;
    assert alpha * inv == 1.0;
    assert y * inv == x * (alpha * inv);
  }

  /** `__add__` compares the key lists in order: two timers with the same
      fields ticked in a different order cannot be added. */
  lemma {:induction false} AddKeyOrder()
    ensures var a := Timer(Off, Fields(["learn", "test"], map["learn" := 1.0, "test" := 2.0]), Some(Totals(3.0, 0.0)), None);
      var b := Timer(Off, Fields(["test", "learn"], map["learn" := 1.0, "test" := 2.0]), Some(Totals(3.0, 0.0)), None);
      a.Valid() && b.Valid() && a.fields.times == b.fields.times && Add(a, b) == Err(AssertionError(""))
  {
    var a := Timer(Off, Fields(["learn", "test"], map["learn" := 1.0, "test" := 2.0]), Some(Totals(3.0, 0.0)), None);
    var b := Timer(Off, Fields(["test", "learn"], map["learn" := 1.0, "test" := 2.0]), Some(Totals(3.0, 0.0)), None);
    assert a.fields.order != b.fields.order by { assert a.fields.order[0] != b.fields.order[0]; }
    assert (set k | k in a.fields.order) == {"learn", "test"};
    assert (set k | k in b.fields.order) == {"learn", "test"};
  }
}
