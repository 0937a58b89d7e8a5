/** The two counters behind `_TestConfigurations`: the teacher's and the
    learner's `CustomIterator`, walked learner-fastest, and the order of the
    vector pairs they hand out. */
module ConfigurationCursor {
  import opened Results
  import CI = CustomIterator

  /** The iteration state: the teacher's counter, the learner's counter and
      the teacher vector in use. */
  datatype Cursor = Cursor(teacherIt: CI.It, learnerIt: CI.It, vTeacher: seq<int>)

  predicate CursorValid(cur: Cursor) {
    CI.Valid(cur.teacherIt) && CI.Valid(cur.learnerIt)
  }

  /** `__iter__` over the bounds `ut` and `ul`: fresh counters, and the
      teacher's first vector taken at once. */
  function Start(ut: seq<int>, ul: seq<int>): (r: Result<Cursor>)
    ensures r.Ok? ==> CursorValid(r.value)
    ensures r.Err? <==> CI.Product(ut) == 0
    ensures r.Err? ==> r.error == StopIteration
  {
    var (t, v) :- CI.Next(CI.Iter(CI.New(ut)));
    Ok(Cursor(t, CI.Iter(CI.New(ul)), v))
  }

  /** The teacher's next vector, and the learner's counter started over. */
  function NextTeacher(cur: Cursor, ul: seq<int>): (r: Result<Cursor>)
    requires CursorValid(cur)
    ensures r.Ok? ==> CursorValid(r.value) && r.value.learnerIt == CI.Iter(CI.New(ul))
  {
    var (t, v) :- CI.Next(cur.teacherIt);
    Ok(Cursor(t, CI.Iter(CI.New(ul)), v))
  }

  /** The counters' part of `__next__`: once the learner's counter is used
      up, move the teacher's on (or stop when it is used up too) and start
      the learner's over; then take the learner's next vector. The pair
      handed out is the teacher vector in use and that learner vector. */
  function Advance(cur: Cursor, ul: seq<int>): (r: Result<(Cursor, seq<int>)>)
    requires CursorValid(cur)
    ensures r.Ok? ==> CursorValid(r.value.0)
    ensures CI.QtdLeft(cur.learnerIt) == 0 && CI.QtdLeft(cur.teacherIt) == 0 ==> r == Err(StopIteration)
    ensures CI.QtdLeft(cur.learnerIt) > 0 ==> r.Ok? == cur.learnerIt.v.Some? && (r.Ok? ==> r.value.0.vTeacher == cur.vTeacher)
  {
    if CI.QtdLeft(cur.learnerIt) == 0 && CI.QtdLeft(cur.teacherIt) == 0 then Err(StopIteration)
    else
      var cur1 :- if CI.QtdLeft(cur.learnerIt) == 0 then NextTeacher(cur, ul) else Ok(cur);
      var (l, vl) :- CI.Next(cur1.learnerIt);
      Ok((cur1.(learnerIt := l), vl))
  }

  /** `n` steps of the counters alone: the pairs of vectors handed out. */
  function Walk(cur: Cursor, ul: seq<int>, n: nat): (r: Result<(Cursor, seq<(seq<int>, seq<int>)>)>)
    requires CursorValid(cur)
    ensures r.Ok? ==> CursorValid(r.value.0) && |r.value.1| == n
    decreases n
  {
    if n == 0 then Ok((cur, []))
    else
      var (cur1, vl) :- Advance(cur, ul);
      var (cur2, ps) :- Walk(cur1, ul, n - 1);
      Ok((cur2, [(cur1.vTeacher, vl)] + ps))
  }

  // ---------------------------------------------------------------------
  // The order of the pairs

  /** The `p`-th pair, counting teacher-major: teacher vector `p / L` with
      learner vector `p % L`, `L` the learner's count. */
  function PairAt(ut: seq<int>, ul: seq<int>, p: int): (r: (seq<int>, seq<int>))
    requires CI.NonNegative(ut) && CI.NonNegative(ul) && 0 <= p < CI.Product(ut) * CI.Product(ul)
    ensures CI.InRange(r.0, ut) && CI.InRange(r.1, ul)
  {
    var l := CI.Product(ul);
    CI.DivBelow(p, l, CI.Product(ut));
    CI.DivMod(p, l);
    (CI.Digits(p / l, ut), CI.Digits(p % l, ul))
  }

  /** The `p`-th pair stands for `p`: its learner vector is the low place,
      its teacher vector the high one. */
  lemma {:induction false} PairAtPlace(ut: seq<int>, ul: seq<int>, p: int)
    requires CI.NonNegative(ut) && CI.NonNegative(ul) && 0 <= p < CI.Product(ut) * CI.Product(ul)
    ensures CI.Value(PairAt(ut, ul, p).1, ul) + CI.Product(ul) * CI.Value(PairAt(ut, ul, p).0, ut) == p
  {
    CI.DivMod(p, CI.Product(ul));
  }

  /** Every pair of vectors in range is the pair at the position its two
      values give. */
  lemma {:induction false} PairAtValue(ut: seq<int>, ul: seq<int>, vt: seq<int>, vl: seq<int>)
    requires CI.NonNegative(ut) && CI.NonNegative(ul) && CI.InRange(vt, ut) && CI.InRange(vl, ul)
    ensures 0 <= CI.Value(vl, ul) + CI.Product(ul) * CI.Value(vt, ut) < CI.Product(ut) * CI.Product(ul)
    ensures PairAt(ut, ul, CI.Value(vl, ul) + CI.Product(ul) * CI.Value(vt, ut)) == (vt, vl)
  {
    var a, b := CI.Value(vt, ut), CI.Value(vl, ul);
    var t, l := CI.Product(ut), CI.Product(ul);
    CI.ValueBound(vt, ut);
    CI.ValueBound(vl, ul);
    CI.PlaceBound(b, l, a, t);
    assert l * t == t * l;
    var r := PairAt(ut, ul, b + l * a);
    PairAtPlace(ut, ul, b + l * a);
    PairUnique(ut, ul, r.0, r.1, vt, vl);
  }

  /** Two pairs of vectors in range with the same position are the same. */
  lemma {:induction false} PairUnique(ut: seq<int>, ul: seq<int>, x: seq<int>, y: seq<int>, vt: seq<int>, vl: seq<int>)
    requires CI.InRange(x, ut) && CI.InRange(y, ul) && CI.InRange(vt, ut) && CI.InRange(vl, ul)
    requires CI.Value(y, ul) + CI.Product(ul) * CI.Value(x, ut) == CI.Value(vl, ul) + CI.Product(ul) * CI.Value(vt, ut)
    ensures x == vt && y == vl
  {
    CI.ValueBound(y, ul);
    CI.ValueBound(vl, ul);
    CI.DigitSplit(CI.Value(y, ul), CI.Value(vl, ul), CI.Value(x, ut), CI.Value(vt, ut), CI.Product(ul));
    CI.ValueInjective(x, vt, ut);
    CI.ValueInjective(y, vl, ul);
  }

  /** The counters after `p` pairs, `l` learner vectors per teacher vector:
      teacher vector `a` in use and `b` learner vectors handed out with it
      (`b` is 0 only at the start). */
  function Coord(l: int, p: int): (int, int)
    requires 0 < l && 0 <= p
  {
    if p == 0 then (0, 0) else ((p - 1) / l, (p - 1) % l + 1)
  }

  /** The cursor stands at teacher vector `a` with `b` learner vectors
      handed out, over the bounds `ut` and `ul`. */
  predicate CurAt(cur: Cursor, ut: seq<int>, ul: seq<int>, ab: (int, int)) {
    0 <= ab.0 < CI.Product(ut) && 0 <= ab.1 <= CI.Product(ul)
    && CI.At(cur.teacherIt, ut, ab.0 + 1)
    && cur.vTeacher == CI.Digits(ab.0, ut)
    && CI.At(cur.learnerIt, ul, ab.1)
  }

  /** Division by `d` recovers a quotient and a remainder below `d`. */
  lemma {:induction false} DivUnique(p: int, d: int, q: int, r: int)
    requires 0 <= r < d && p == r + d * q && 0 <= p
    ensures p / d == q && p % d == r
  {
    CI.DivMod(p, d);
    CI.DigitSplit(p % d, r, p / d, q, d);
  }

  /** Where the `p`-th pair comes from: in which state of the counters it
      is handed out, and where that leaves them. */
  lemma {:induction false} CoordStep(t: int, l: int, p: int)
    requires 0 < l && 0 <= p < t * l
    ensures var (a, b) := Coord(l, p);
      0 <= a < t && 0 <= b <= l
      && (b < l ==> p / l == a && p % l == b && Coord(l, p + 1) == (a, b + 1))
      && (b == l ==> p / l == a + 1 && p % l == 0 && Coord(l, p + 1) == (a + 1, 1) && a + 1 < t)
  {
    var (a, b) := Coord(l, p);
    CI.DivBelow(p, l, t);
    if p == 0 {
      DivUnique(0, l, 0, 0);
    } else {
      CI.DivMod(p - 1, l);
      CI.DivBelow(p - 1, l, t);
      if b < l {
        DivUnique(p, l, a, b);
      } else {
        DivUnique(p, l, a + 1, 0);
      }
    }
  }

  /** After all `t * l` pairs the counters stand at the last teacher vector
      with every learner vector handed out. */
  lemma {:induction false} FinalCoord(t: int, l: int)
    requires 0 < t && 0 < l
    ensures Coord(l, t * l) == (t - 1, l)
  {
    CI.MulLe(l, 1, t);
    assert t * l - 1 == (l - 1) + l * (t - 1);
    DivUnique(t * l - 1, l, t - 1, l - 1);
  }

  lemma {:induction false} StateMoved(cur: Cursor, ut: seq<int>, ul: seq<int>, ab: (int, int), ab': (int, int))
    requires CurAt(cur, ut, ul, ab) && ab == ab'
    ensures CurAt(cur, ut, ul, ab')
  {
  }

  /** `__iter__` puts the counters at the start. */
  lemma {:induction false} StartAt(ut: seq<int>, ul: seq<int>)
    requires CI.NonNegative(ut) && CI.NonNegative(ul)
    ensures Start(ut, ul).Ok? && CurAt(Start(ut, ul).value, ut, ul, (0, 0))
  {
    CI.Restart(ut);
    CI.Step(CI.Iter(CI.New(ut)), ut, 0);
    CI.Restart(ul);
  }

  /** With learner vectors left, the learner's counter hands out vector `b`
      next to the teacher vector in use. */
  lemma {:induction false} AdvanceLearner(cur: Cursor, ut: seq<int>, ul: seq<int>, a: int, b: int)
    requires CurAt(cur, ut, ul, (a, b)) && b < CI.Product(ul)
    ensures CursorValid(cur) && Advance(cur, ul).Ok?
    ensures Advance(cur, ul).value.0.vTeacher == CI.Digits(a, ut) && Advance(cur, ul).value.1 == CI.Digits(b, ul)
    ensures CurAt(Advance(cur, ul).value.0, ut, ul, (a, b + 1))
  {
    CI.Step(cur.learnerIt, ul, b);
  }

  /** With the learner vectors used up, the teacher's counter hands out
      vector `a + 1` and the learner's starts over. */
  lemma {:induction false} TeacherMoves(cur: Cursor, ut: seq<int>, ul: seq<int>, a: int)
    requires CurAt(cur, ut, ul, (a, CI.Product(ul))) && a + 1 < CI.Product(ut)
    ensures CursorValid(cur) && CI.QtdLeft(cur.learnerIt) == 0 && NextTeacher(cur, ul).Ok?
    ensures CurAt(NextTeacher(cur, ul).value, ut, ul, (a + 1, 0))
  {
    CI.Step(cur.teacherIt, ut, a + 1);
    CI.Restart(ul);
  }

  /** Once the learner's counter is used up and the teacher's moves on,
      the step goes on from the cursor `NextTeacher` gives. */
  lemma {:induction false} AdvanceRestarts(cur: Cursor, ul: seq<int>)
    requires CursorValid(cur) && CI.QtdLeft(cur.learnerIt) == 0 && NextTeacher(cur, ul).Ok?
    requires CI.QtdLeft(NextTeacher(cur, ul).value.learnerIt) > 0
    ensures Advance(cur, ul) == Advance(NextTeacher(cur, ul).value, ul)
  {
  }

  /** With the learner vectors used up, the step hands out teacher vector
      `a + 1` with learner vector 0. */
  lemma {:induction false} AdvanceTeacher(cur: Cursor, ut: seq<int>, ul: seq<int>, a: int)
    requires CurAt(cur, ut, ul, (a, CI.Product(ul))) && a + 1 < CI.Product(ut)
    ensures CursorValid(cur) && Advance(cur, ul).Ok?
    ensures Advance(cur, ul).value.0.vTeacher == CI.Digits(a + 1, ut) && Advance(cur, ul).value.1 == CI.Digits(0, ul)
    ensures CurAt(Advance(cur, ul).value.0, ut, ul, (a + 1, 1))
  {
    TeacherMoves(cur, ut, ul, a);
    AdvanceLearner(NextTeacher(cur, ul).value, ut, ul, a + 1, 0);
    AdvanceRestarts(cur, ul);
  }

  /** The `p`-th step of the counters hands out the `p`-th pair and leaves
      them where the next one comes from. */
  lemma {:induction false} AdvanceAt(cur: Cursor, ut: seq<int>, ul: seq<int>, p: int, t: int, l: int)
    requires CI.NonNegative(ut) && CI.NonNegative(ul) && t == CI.Product(ut) && l == CI.Product(ul)
    requires 0 <= p < t * l && CurAt(cur, ut, ul, Coord(l, p))
    ensures CursorValid(cur) && Advance(cur, ul).Ok?
    ensures (Advance(cur, ul).value.0.vTeacher, Advance(cur, ul).value.1) == PairAt(ut, ul, p)
    ensures CurAt(Advance(cur, ul).value.0, ut, ul, Coord(l, p + 1))
  {
    CoordStep(t, l, p);
    if Coord(l, p).1 < l {
      AdvanceAtLearner(cur, ut, ul, p, t, l);
    } else {
      AdvanceAtTeacher(cur, ut, ul, p, t, l);
    }
  }

  /** `AdvanceAt` while learner vectors are left for the teacher vector in use. */
  lemma {:induction false} AdvanceAtLearner(cur: Cursor, ut: seq<int>, ul: seq<int>, p: int, t: int, l: int)
    requires CI.NonNegative(ut) && CI.NonNegative(ul) && t == CI.Product(ut) && l == CI.Product(ul)
    requires 0 <= p < t * l && CurAt(cur, ut, ul, Coord(l, p)) && Coord(l, p).1 < l
    ensures CursorValid(cur) && Advance(cur, ul).Ok?
    ensures (Advance(cur, ul).value.0.vTeacher, Advance(cur, ul).value.1) == PairAt(ut, ul, p)
    ensures CurAt(Advance(cur, ul).value.0, ut, ul, Coord(l, p + 1))
  {
    var (a, b) := Coord(l, p);
    CoordStep(t, l, p);
    StateMoved(cur, ut, ul, Coord(l, p), (a, b));
    AdvanceLearner(cur, ut, ul, a, b);
    StateMoved(Advance(cur, ul).value.0, ut, ul, (a, b + 1), Coord(l, p + 1));
  }

  /** `AdvanceAt` once the learner vectors are used up. */
  lemma {:induction false} AdvanceAtTeacher(cur: Cursor, ut: seq<int>, ul: seq<int>, p: int, t: int, l: int)
    requires CI.NonNegative(ut) && CI.NonNegative(ul) && t == CI.Product(ut) && l == CI.Product(ul)
    requires 0 <= p < t * l && CurAt(cur, ut, ul, Coord(l, p)) && Coord(l, p).1 >= l
    ensures CursorValid(cur) && Advance(cur, ul).Ok?
    ensures (Advance(cur, ul).value.0.vTeacher, Advance(cur, ul).value.1) == PairAt(ut, ul, p)
    ensures CurAt(Advance(cur, ul).value.0, ut, ul, Coord(l, p + 1))
  {
    var a := Coord(l, p).0;
    CoordStep(t, l, p);
    assert Coord(l, p) == (a, l) && a + 1 < t && Coord(l, p + 1) == (a + 1, 1);
    StateMoved(cur, ut, ul, Coord(l, p), (a, l));
    AdvanceTeacher(cur, ut, ul, a);
    StateMoved(Advance(cur, ul).value.0, ut, ul, (a + 1, 1), Coord(l, p + 1));
  }

  /** `f(p)`, `f(p + 1)`, ..., `f(p + n - 1)`. */
  function Tabulate<T>(f: int -> T, p: int, n: nat): (r: seq<T>)
    ensures |r| == n
    decreases n
  {
    if n == 0 then [] else [f(p)] + Tabulate(f, p + 1, n - 1)
  }

  /** Entry `j - p` of a table from `p` onwards is `f(j)`. */
  lemma {:induction false} TabulateAt<T>(f: int -> T, p: int, n: nat)
    ensures forall j | p <= j < p + n :: Tabulate(f, p, n)[j - p] == f(j)
    decreases n
  {
    if n > 0 {
      TabulateAt(f, p + 1, n - 1);
    }
  }

  /** The `p`-th pair inside the grid, and two empty vectors outside it. */
  function PairOf(ut: seq<int>, ul: seq<int>, p: int): (seq<int>, seq<int>) {
    if CI.NonNegative(ut) && CI.NonNegative(ul) && 0 <= p < CI.Product(ut) * CI.Product(ul) then PairAt(ut, ul, p)
    else ([], [])
  }

  /** Pairs `p` to `p + n - 1`, in order. */
  function Pairs(ut: seq<int>, ul: seq<int>, p: int, n: nat): seq<(seq<int>, seq<int>)> {
    Tabulate(j => PairOf(ut, ul, j), p, n)
  }

  /** Pair `j` sits at offset `j - p` of the pairs from `p` onwards. */
  lemma {:induction false} PairsAt(ut: seq<int>, ul: seq<int>, p: int, n: nat)
    requires CI.NonNegative(ut) && CI.NonNegative(ul) && 0 <= p && p + n <= CI.Product(ut) * CI.Product(ul)
    ensures forall j | p <= j < p + n :: Pairs(ut, ul, p, n)[j - p] == PairAt(ut, ul, j)
  {
    var f := j => PairOf(ut, ul, j);
    TabulateAt(f, p, n);
    assert Pairs(ut, ul, p, n) == Tabulate(f, p, n);
    forall j | p <= j < p + n
      ensures Pairs(ut, ul, p, n)[j - p] == PairAt(ut, ul, j)
    {
      assert f(j) == PairOf(ut, ul, j);
    }
  }

  /** `n` steps from the `p`-th hand out pairs `p` to `p + n - 1` and
      leave the counters at `q = p + n`. */
  lemma {:induction false} WalkRun(cur: Cursor, ut: seq<int>, ul: seq<int>, p: int, n: nat, q: int, t: int, l: int)
    requires CI.NonNegative(ut) && CI.NonNegative(ul) && t == CI.Product(ut) && l == CI.Product(ul)
    requires 0 <= p && q == p + n && q <= t * l && CurAt(cur, ut, ul, Coord(l, p))
    ensures CursorValid(cur) && Walk(cur, ul, n).Ok?
    ensures CurAt(Walk(cur, ul, n).value.0, ut, ul, Coord(l, q))
    ensures Walk(cur, ul, n).value.1 == Pairs(ut, ul, p, n)
    decreases n
  {
    if n > 0 {
      AdvanceAt(cur, ut, ul, p, t, l);
      WalkRun(Advance(cur, ul).value.0, ut, ul, p + 1, n - 1, q, t, l);
      WalkCons(cur, ul, n);
    }
  }

  /** A walk of `n > 0` steps is one step and a walk of `n - 1`. */
  lemma {:induction false} WalkCons(cur: Cursor, ul: seq<int>, n: nat)
    requires CursorValid(cur) && n > 0
    ensures Walk(cur, ul, n).Ok? <==> Advance(cur, ul).Ok? && Walk(Advance(cur, ul).value.0, ul, n - 1).Ok?
    ensures Walk(cur, ul, n).Ok? ==> Walk(cur, ul, n).value == (Walk(Advance(cur, ul).value.0, ul, n - 1).value.0,
      [(Advance(cur, ul).value.0.vTeacher, Advance(cur, ul).value.1)] + Walk(Advance(cur, ul).value.0, ul, n - 1).value.1)
  {
  }

  /** After the last pair both counters are used up. */
  lemma {:induction false} WalkEnd(cur: Cursor, ut: seq<int>, ul: seq<int>, t: int, l: int)
    requires CI.NonNegative(ut) && CI.NonNegative(ul) && t == CI.Product(ut) && l == CI.Product(ul)
    requires CurAt(cur, ut, ul, Coord(l, t * l))
    ensures CI.QtdLeft(cur.teacherIt) == 0 && CI.QtdLeft(cur.learnerIt) == 0
  {
    FinalCoord(t, l);
    StateMoved(cur, ut, ul, Coord(l, t * l), (t - 1, l));
  }
}
