/** Risk shifts of yield curves: parallel, bucketed (step) and point shifts.
    Every shift builds a new curve value; the input curve is a value and
    cannot change. The arithmetic of interpolators and of the absolute
    point-shift factory is outside this model and reaches it through an
    `Oracle` of functions. */
module YieldCurveUtils {
  import opened Common

  datatype ShiftType = Absolute | Relative

  /** A pair of doubles: a bucket (lower time, upper time) or a curve knot (x, y). */
  datatype Pair = Pair(first: real, second: real)

  /** The interpolator a knot curve is built with. */
  datatype Interpolator = StepInterpolator | OtherInterpolator(id: string)

  /** How a spread curve combines its base curve with the spread. */
  datatype SpreadOp = AddSpread | MultiplySpread

  /** The curve shapes the shift utilities produce. `name == None` stands for
      the generated name a knot curve gets when the caller gives none. */
  datatype Curve =
    | ConstantCurve(value: real)
    | InterpolatedCurve(xs: seq<real>, ys: seq<real>, interpolator: Interpolator, curveName: Option<string>)
    | SpreadCurve(op: SpreadOp, name: string, base: Curve, spread: Curve)
    | FactoryShiftedCurve(base: Curve, times: seq<real>, shifts: seq<real>, name: string)

  /** A named yield curve. */
  datatype YieldCurve = YieldCurve(name: string, curve: Curve)

  /** What this model does not compute itself: interpolation between knots and
      the curve built by the absolute point-shift factory. */
  datatype Oracle = Oracle(
    interpolate: (Interpolator, seq<real>, seq<real>, real) -> real,
    pointShift: (Curve, seq<real>, seq<real>, real) -> real)

  /** The value of a curve at time t. */
  function Eval(c: Curve, t: real, o: Oracle): real {
    match c
    case ConstantCurve(v) => v
    case InterpolatedCurve(xs, ys, i, _) => o.interpolate(i, xs, ys, t)
    case SpreadCurve(op, _, b, s) =>
      if op == AddSpread then Eval(b, t, o) + Eval(s, t, o) else Eval(b, t, o) * Eval(s, t, o)
    case FactoryShiftedCurve(b, ts, ss, _) => o.pointShift(b, ts, ss, t)
  }

  // ---------------------------------------------------------------------------
  // Parallel shifts

  /** A constant shift over all tenors: added (absolute) or applied as the
      factor 1 + shift (relative). */
  function WithParallelShift(curve: YieldCurve, shift: real, shiftType: ShiftType): (r: YieldCurve)
    ensures r.name == curve.name + "WithParallelShift"
    ensures shiftType == Absolute ==> forall t, o :: Eval(r.curve, t, o) == Eval(curve.curve, t, o) + shift
    ensures shiftType == Relative ==> forall t, o :: Eval(r.curve, t, o) == Eval(curve.curve, t, o) * (1.0 + shift)
  {
    var newName := curve.name + "WithParallelShift";
    match shiftType
    case Absolute => YieldCurve(newName, SpreadCurve(AddSpread, newName, curve.curve, ConstantCurve(shift)))
    case Relative => YieldCurve(newName, SpreadCurve(MultiplySpread, newName, curve.curve, ConstantCurve(1.0 + shift)))
  }

  /** A zero parallel shift leaves every value of the curve as it was. */
  lemma ZeroParallelShiftIsIdentity(curve: YieldCurve, shiftType: ShiftType, t: real, o: Oracle)
    ensures Eval(WithParallelShift(curve, 0.0, shiftType).curve, t, o) == Eval(curve.curve, t, o)
  {
  }

  // ---------------------------------------------------------------------------
  // Bucketed shifts, as written

  /** The value of a gap filler: no effect under addition or multiplication. */
  function Neutral(shiftType: ShiftType): real {
    if shiftType == Absolute then 0.0 else 1.0
  }

  /** The step points contributed by bucket k, as the source builds them: a
      filler when the bucket does not start where the previous one ended (or,
      for the first bucket, at 0), then the bucket pair itself, or (lo, hi + 1)
      for later buckets of a relative shift. */
  function BucketSegment(buckets: seq<Pair>, k: nat, shiftType: ShiftType): seq<Pair>
    requires k < |buckets|
  {
    var b := buckets[k];
    if k == 0 then
      (if b.first != 0.0 then [Pair(0.0, Neutral(shiftType))] else []) + [b]
    else
      (if buckets[k - 1].second != b.first then [Pair(b.first, Neutral(shiftType))] else [])
      + [if shiftType == Absolute then b else Pair(b.first, b.second + 1.0)]
  }

  /** The step points of the first n buckets. */
  function StepPoints(buckets: seq<Pair>, shiftType: ShiftType, n: nat): seq<Pair>
    requires n <= |buckets|
  {
    if n == 0 then [] else StepPoints(buckets, shiftType, n - 1) + BucketSegment(buckets, n - 1, shiftType)
  }

  /** Number of adjacent buckets, among the first n, that are not contiguous. */
  function Gaps(buckets: seq<Pair>, n: nat): nat
    requires n <= |buckets|
  {
    if n <= 1 then 0
    else Gaps(buckets, n - 1) + if buckets[n - 2].second != buckets[n - 1].first then 1 else 0
  }

  function Xs(points: seq<Pair>): (xs: seq<real>)
    ensures |xs| == |points| && forall i :: 0 <= i < |points| ==> xs[i] == points[i].first
  {
    if points == [] then [] else [points[0].first] + Xs(points[1..])
  }

  function Ys(points: seq<Pair>): (ys: seq<real>)
    ensures |ys| == |points| && forall i :: 0 <= i < |points| ==> ys[i] == points[i].second
  {
    if points == [] then [] else [points[0].second] + Ys(points[1..])
  }

  /** Builds the step-curve points in one pass over the buckets, carrying the
      previous bucket along. */
  method BuildStepPoints(buckets: seq<Pair>, shiftType: ShiftType) returns (points: seq<Pair>)
    requires |buckets| > 0
    ensures points == StepPoints(buckets, shiftType, |buckets|)
  {
    var oldPair := buckets[0];
    points := [];
    if 0.0 != oldPair.first {
      points := points + [Pair(0.0, Neutral(shiftType))];
    }
    points := points + [oldPair];
    assert points == StepPoints(buckets, shiftType, 0) + BucketSegment(buckets, 0, shiftType);
    var i := 1;
    while i < |buckets|
      invariant 1 <= i <= |buckets|
      invariant oldPair == buckets[i - 1]
      invariant points == StepPoints(buckets, shiftType, i)
    {
      ghost var before := points;
      var pair := buckets[i];
      if oldPair.second != pair.first {
        points := points + [Pair(pair.first, Neutral(shiftType))];
      }
      if shiftType == Absolute {
        points := points + [pair];
      } else {
        points := points + [Pair(pair.first, pair.second + 1.0)];
      }
      assert points == before + BucketSegment(buckets, i, shiftType);
      oldPair := pair;
      i := i + 1;
    }
  }

  /** The curve a bucketed shift produces once its arguments are accepted. */
  function BucketedShiftCurve(curve: YieldCurve, points: seq<Pair>, shiftType: ShiftType): YieldCurve {
    var newName := curve.name + "WithBucketedShifts";
    var spread := InterpolatedCurve(Xs(points), Ys(points), StepInterpolator, None);
    YieldCurve(newName, SpreadCurve(if shiftType == Absolute then AddSpread else MultiplySpread,
                                    newName, curve.curve, spread))
  }

  /** Bucketed shift as written: the shift amounts are only counted, and the
      step points are made from the bucket pairs. */
  method WithBucketedShifts(curve: YieldCurve, buckets: seq<Pair>, shifts: seq<real>, shiftType: ShiftType)
    returns (r: Result<YieldCurve>)
    ensures |buckets| != |shifts| ==> r == Err("must have one shift per bucket")
    ensures |buckets| == |shifts| == 0 ==> r == Err("no such element")
    ensures |buckets| == |shifts| > 0 ==>
      r == Ok(BucketedShiftCurve(curve, StepPoints(buckets, shiftType, |buckets|), shiftType))
  {
    if |buckets| != |shifts| {
      return Err("must have one shift per bucket");
    }
    if |buckets| == 0 {
      return Err("no such element");
    }
    var points := BuildStepPoints(buckets, shiftType);
    r := Ok(BucketedShiftCurve(curve, points, shiftType));
  }

  /** The step-point count: one per bucket, one more when the first bucket
      does not start at 0, and one per non-contiguous adjacent pair. */
  lemma {:induction false} StepPointsLength(buckets: seq<Pair>, shiftType: ShiftType, n: nat)
    requires 0 < n <= |buckets|
    ensures |StepPoints(buckets, shiftType, n)| ==
      n + (if buckets[0].first != 0.0 then 1 else 0) + Gaps(buckets, n)
  {
    if n > 1 {
      StepPointsLength(buckets, shiftType, n - 1);
    }
  }

  /** The knots of the as-written step curve sit only at 0 and at bucket lower
      bounds: no knot is ever placed at an upper bound. */
  lemma {:induction false} StepPointsAtLowerBounds(buckets: seq<Pair>, shiftType: ShiftType, n: nat, i: nat)
    requires n <= |buckets| && i < |StepPoints(buckets, shiftType, n)|
    ensures StepPoints(buckets, shiftType, n)[i].first == 0.0 ||
            exists k :: 0 <= k < n && StepPoints(buckets, shiftType, n)[i].first == buckets[k].first
  {
    var prefix := StepPoints(buckets, shiftType, n - 1);
    if i < |prefix| {
      StepPointsAtLowerBounds(buckets, shiftType, n - 1, i);
    } else {
      var p := StepPoints(buckets, shiftType, n)[i];
      assert p in BucketSegment(buckets, n - 1, shiftType);
      assert p.first == 0.0 || p.first == buckets[n - 1].first;
    }
  }

  /** With absolute buckets [(1, 2)] and shift 0.0001, the as-written step
      curve has knots (0, 0) and (1, 2): the knot value is the bucket's upper
      time, and the shift amount appears nowhere. */
  lemma BucketUpperBoundBecomesShift()
    ensures StepPoints([Pair(1.0, 2.0)], Absolute, 1) == [Pair(0.0, 0.0), Pair(1.0, 2.0)]
    ensures 0.0001 !in Ys(StepPoints([Pair(1.0, 2.0)], Absolute, 1))
  {
    var pts := StepPoints([Pair(1.0, 2.0)], Absolute, 1);
    assert pts == [Pair(0.0, 0.0), Pair(1.0, 2.0)];
    assert Ys(pts) == [0.0, 2.0];
  }

  // ---------------------------------------------------------------------------
  // Bucketed shifts, corrected

  /** The factor or summand a shift amount contributes. */
  function Amount(shift: real, shiftType: ShiftType): real {
    if shiftType == Absolute then shift else 1.0 + shift
  }

  /** The points contributed by bucket k when the shift amounts are used: a
      neutral knot where the previous bucket ended (or at 0) if there is a gap,
      then the bucket's amount at its lower bound. */
  function IntendedSegment(buckets: seq<Pair>, shifts: seq<real>, k: nat, shiftType: ShiftType): seq<Pair>
    requires k < |buckets| == |shifts|
  {
    var b := buckets[k];
    (if k == 0 then (if b.first != 0.0 then [Pair(0.0, Neutral(shiftType))] else [])
     else if buckets[k - 1].second != b.first then [Pair(buckets[k - 1].second, Neutral(shiftType))]
     else [])
    + [Pair(b.first, Amount(shifts[k], shiftType))]
  }

  function IntendedPrefix(buckets: seq<Pair>, shifts: seq<real>, shiftType: ShiftType, n: nat): seq<Pair>
    requires n <= |buckets| == |shifts|
  {
    if n == 0 then [] else IntendedPrefix(buckets, shifts, shiftType, n - 1) + IntendedSegment(buckets, shifts, n - 1, shiftType)
  }

  /** The corrected step points: every bucket's amount at its lower bound,
      neutral knots at every upper bound not followed directly by a bucket,
      and a neutral knot at the last upper bound. */
  function IntendedStepPoints(buckets: seq<Pair>, shifts: seq<real>, shiftType: ShiftType): seq<Pair>
    requires 0 < |buckets| == |shifts|
  {
    IntendedPrefix(buckets, shifts, shiftType, |buckets|) + [Pair(buckets[|buckets| - 1].second, Neutral(shiftType))]
  }

  /** Buckets that start at or after 0, are non-empty and do not overlap. */
  ghost predicate OrderedBuckets(buckets: seq<Pair>) {
    && (|buckets| > 0 ==> 0.0 <= buckets[0].first)
    && (forall k :: 0 <= k < |buckets| ==> buckets[k].first < buckets[k].second)
    && (forall k :: 0 < k < |buckets| ==> buckets[k - 1].second <= buckets[k].first)
  }

  /** Knot times strictly increase along the points. */
  ghost predicate IncreasingTimes(points: seq<Pair>) {
    forall i, j :: 0 <= i < j < |points| ==> points[i].first < points[j].first
  }

  lemma AppendIncreasing(a: seq<Pair>, b: seq<Pair>)
    requires IncreasingTimes(a) && IncreasingTimes(b)
    requires |a| > 0 && |b| > 0 ==> a[|a| - 1].first < b[0].first
    ensures IncreasingTimes(a + b)
  {
    forall i, j | 0 <= i < j < |a + b|
      ensures (a + b)[i].first < (a + b)[j].first
    {
      if i < |a| && j >= |a| {
        assert a[i].first <= a[|a| - 1].first;
        assert b[0].first <= b[j - |a|].first;
      }
    }
  }

  /** Bucket k's corrected points increase in time, start after the previous
      bucket's lower bound, and end with the bucket's amount at its lower bound. */
  lemma IntendedSegmentShape(buckets: seq<Pair>, shifts: seq<real>, k: nat, shiftType: ShiftType)
    requires k < |buckets| == |shifts| && OrderedBuckets(buckets)
    ensures var seg := IntendedSegment(buckets, shifts, k, shiftType);
      && |seg| > 0
      && IncreasingTimes(seg)
      && seg[|seg| - 1] == Pair(buckets[k].first, Amount(shifts[k], shiftType))
      && (k > 0 ==> buckets[k - 1].first < seg[0].first)
  {
    if k > 0 {
      assert buckets[k - 1].first < buckets[k - 1].second;
      assert buckets[k - 1].second <= buckets[k].first;
    } else {
      assert 0.0 <= buckets[0].first;
    }
  }

  lemma {:induction false} IntendedPrefixOrdered(buckets: seq<Pair>, shifts: seq<real>, shiftType: ShiftType, n: nat)
    requires 0 < n <= |buckets| == |shifts| && OrderedBuckets(buckets)
    ensures IncreasingTimes(IntendedPrefix(buckets, shifts, shiftType, n))
    ensures IntendedPrefix(buckets, shifts, shiftType, n)[|IntendedPrefix(buckets, shifts, shiftType, n)| - 1]
            == Pair(buckets[n - 1].first, Amount(shifts[n - 1], shiftType))
  {
    var seg := IntendedSegment(buckets, shifts, n - 1, shiftType);
    var prev := IntendedPrefix(buckets, shifts, shiftType, n - 1);
    IntendedSegmentShape(buckets, shifts, n - 1, shiftType);
    if n > 1 {
      IntendedPrefixOrdered(buckets, shifts, shiftType, n - 1);
    }
    AppendIncreasing(prev, seg);
  }

  /** The corrected knots strictly increase in time, so a step curve can be
      built from them without duplicate times. */
  lemma IntendedStepPointsOrdered(buckets: seq<Pair>, shifts: seq<real>, shiftType: ShiftType)
    requires 0 < |buckets| == |shifts| && OrderedBuckets(buckets)
    ensures IncreasingTimes(IntendedStepPoints(buckets, shifts, shiftType))
  {
    var n := |buckets|;
    IntendedPrefixOrdered(buckets, shifts, shiftType, n);
    AppendIncreasing(IntendedPrefix(buckets, shifts, shiftType, n), [Pair(buckets[n - 1].second, Neutral(shiftType))]);
  }

  /** Every bucket's shift amount is the knot value at the bucket's lower bound. */
  lemma {:induction false} IntendedCarriesShifts(buckets: seq<Pair>, shifts: seq<real>, shiftType: ShiftType, n: nat, k: nat)
    requires k < n <= |buckets| == |shifts|
    ensures Pair(buckets[k].first, Amount(shifts[k], shiftType)) in IntendedPrefix(buckets, shifts, shiftType, n)
  {
    if k < n - 1 {
      IntendedCarriesShifts(buckets, shifts, shiftType, n - 1, k);
    } else {
      var seg := IntendedSegment(buckets, shifts, k, shiftType);
      assert seg[|seg| - 1] == Pair(buckets[k].first, Amount(shifts[k], shiftType));
    }
  }

  /** Builds the corrected step points in one pass over the buckets. */
  method BuildIntendedStepPoints(buckets: seq<Pair>, shifts: seq<real>, shiftType: ShiftType) returns (points: seq<Pair>)
    requires 0 < |buckets| == |shifts|
    ensures points == IntendedStepPoints(buckets, shifts, shiftType)
  {
    var oldPair := buckets[0];
    points := [];
    if 0.0 != oldPair.first {
      points := points + [Pair(0.0, Neutral(shiftType))];
    }
    points := points + [Pair(oldPair.first, Amount(shifts[0], shiftType))];
    assert points == IntendedPrefix(buckets, shifts, shiftType, 0) + IntendedSegment(buckets, shifts, 0, shiftType);
    var i := 1;
    while i < |buckets|
      invariant 1 <= i <= |buckets|
      invariant oldPair == buckets[i - 1]
      invariant points == IntendedPrefix(buckets, shifts, shiftType, i)
    {
      ghost var before := points;
      var pair := buckets[i];
      if oldPair.second != pair.first {
        points := points + [Pair(oldPair.second, Neutral(shiftType))];
      }
      points := points + [Pair(pair.first, Amount(shifts[i], shiftType))];
      assert points == before + IntendedSegment(buckets, shifts, i, shiftType);
      oldPair := pair;
      i := i + 1;
    }
    points := points + [Pair(oldPair.second, Neutral(shiftType))];
  }

  /** Bucketed shift with the shift amounts placed on the step curve. */
  method WithBucketedShiftsCorrected(curve: YieldCurve, buckets: seq<Pair>, shifts: seq<real>, shiftType: ShiftType)
    returns (r: Result<YieldCurve>)
    ensures |buckets| != |shifts| ==> r == Err("must have one shift per bucket")
    ensures |buckets| == |shifts| == 0 ==> r == Err("no such element")
    ensures |buckets| == |shifts| > 0 ==>
      r == Ok(BucketedShiftCurve(curve, IntendedStepPoints(buckets, shifts, shiftType), shiftType))
  {
    if |buckets| != |shifts| {
      return Err("must have one shift per bucket");
    }
    if |buckets| == 0 {
      return Err("no such element");
    }
    var points := BuildIntendedStepPoints(buckets, shifts, shiftType);
    r := Ok(BucketedShiftCurve(curve, points, shiftType));
  }

  /** A bucketed shift adds its step curve (absolute) or multiplies by it
      (relative); the curve name gains "WithBucketedShifts". */
  lemma BucketedShiftValue(curve: YieldCurve, points: seq<Pair>, shiftType: ShiftType, t: real, o: Oracle)
    ensures BucketedShiftCurve(curve, points, shiftType).name == curve.name + "WithBucketedShifts"
    ensures var step := o.interpolate(StepInterpolator, Xs(points), Ys(points), t);
      Eval(BucketedShiftCurve(curve, points, shiftType).curve, t, o) ==
        if shiftType == Absolute then Eval(curve.curve, t, o) + step else Eval(curve.curve, t, o) * step
  {
  }

  // ---------------------------------------------------------------------------
  // Point shifts

  /** Knot lists of an interpolated curve. */
  datatype Knots = Knots(xs: seq<real>, ys: seq<real>)

  /** Java `List.indexOf`: the first position holding x, or -1. */
  function IndexOf(xs: seq<real>, x: real): (i: int)
    ensures -1 <= i < |xs|
    ensures i >= 0 ==> xs[i] == x && forall j :: 0 <= j < i ==> xs[j] != x
    ensures i == -1 <==> x !in xs
  {
    if xs == [] then -1
    else if xs[0] == x then 0
    else var j := IndexOf(xs[1..], x); if j < 0 then -1 else j + 1
  }

  /** One step of the relative point shift: scale the first knot at t in
      place, or append a new knot whose value is the original curve's value
      at t, scaled. */
  function ShiftKnot(k: Knots, t: real, s: real, yValue: real -> real): Knots
    requires |k.xs| == |k.ys|
  {
    var index := IndexOf(k.xs, t);
    if index >= 0 then Knots(k.xs, k.ys[index := k.ys[index] * (1.0 + s)])
    else Knots(k.xs + [t], k.ys + [yValue(t) * (1.0 + s)])
  }

  /** The knots after the first n shifts, in order. */
  function ShiftedKnots(k: Knots, ts: seq<real>, ss: seq<real>, yValue: real -> real, n: nat): (r: Knots)
    requires |k.xs| == |k.ys| && n <= |ts| && n <= |ss|
    ensures |r.xs| == |r.ys|
    ensures |k.xs| <= |r.xs| <= |k.xs| + n
    ensures forall j :: 0 <= j < |k.xs| ==> r.xs[j] == k.xs[j]
  {
    if n == 0 then k else ShiftKnot(ShiftedKnots(k, ts, ss, yValue, n - 1), ts[n - 1], ss[n - 1], yValue)
  }

  /** The original curve's value, used for knots the shift inserts. */
  function CurveValue(o: Oracle, interpolator: Interpolator, xs: seq<real>, ys: seq<real>): real -> real {
    x => o.interpolate(interpolator, xs, ys, x)
  }

  /** The relative point-shift helper: edits copies of the knot lists in
      place, one shift time after another. */
  method RelativeShiftedCurve(xs: seq<real>, ys: seq<real>, interpolator: Interpolator,
                              t: seq<real>, yShift: seq<real>, newName: string, o: Oracle)
    returns (r: Result<Curve>)
    requires |xs| == |ys|
    ensures r.Err? <==> |t| != |yShift|
    ensures r.Ok? ==>
      var k := ShiftedKnots(Knots(xs, ys), t, yShift, CurveValue(o, interpolator, xs, ys), |t|);
      r.value == InterpolatedCurve(k.xs, k.ys, interpolator, Some(newName))
    ensures |t| == |yShift| == 0 ==> r == Ok(InterpolatedCurve(xs, ys, interpolator, Some(newName)))
  {
    if |t| != |yShift| {
      return Err("number of x shifts must equal number of y shifts");
    }
    if |t| == 0 {
      return Ok(InterpolatedCurve(xs, ys, interpolator, Some(newName)));
    }
    var yValue := CurveValue(o, interpolator, xs, ys);
    var newX, newY := xs, ys;
    var i := 0;
    while i < |t|
      invariant 0 <= i <= |t|
      invariant Knots(newX, newY) == ShiftedKnots(Knots(xs, ys), t, yShift, yValue, i)
    {
      ghost var before := Knots(newX, newY);
      var index := IndexOf(newX, t[i]);
      if index >= 0 {
        newY := newY[index := newY[index] * (1.0 + yShift[i])];
      } else {
        newX := newX + [t[i]];
        newY := newY + [yValue(t[i]) * (1.0 + yShift[i])];
      }
      ghost var step := ShiftKnot(before, t[i], yShift[i], yValue);
      assert forall j :: 0 <= j < |newY| ==> newY[j] == step.ys[j];
      assert Knots(newX, newY) == step;
      i := i + 1;
    }
    r := Ok(InterpolatedCurve(newX, newY, interpolator, Some(newName)));
  }

  /** The first n shift times are pairwise different. */
  ghost predicate DistinctPrefix(ts: seq<real>, n: nat)
    requires n <= |ts|
  {
    forall a, b :: 0 <= a < b < n ==> ts[a] != ts[b]
  }

  ghost predicate Distinct(xs: seq<real>) {
    forall a, b :: 0 <= a < b < |xs| ==> xs[a] != xs[b]
  }

  /** A knot whose time is none of the shift times keeps its position and value. */
  lemma {:induction false} UntouchedKnot(k: Knots, ts: seq<real>, ss: seq<real>, yValue: real -> real, n: nat, j: nat)
    requires |k.xs| == |k.ys| && n <= |ts| && n <= |ss| && j < |k.xs|
    requires forall i :: 0 <= i < n ==> ts[i] != k.xs[j]
    ensures ShiftedKnots(k, ts, ss, yValue, n).xs[j] == k.xs[j]
    ensures ShiftedKnots(k, ts, ss, yValue, n).ys[j] == k.ys[j]
  {
    if n > 0 {
      UntouchedKnot(k, ts, ss, yValue, n - 1, j);
      var prev := ShiftedKnots(k, ts, ss, yValue, n - 1);
      var index := IndexOf(prev.xs, ts[n - 1]);
      assert index != j;
    }
  }

  /** Every knot the shift adds is one of the shift times. */
  lemma {:induction false} ShiftTimesOnly(k: Knots, ts: seq<real>, ss: seq<real>, yValue: real -> real, n: nat, q: nat)
    requires |k.xs| == |k.ys| && n <= |ts| && n <= |ss|
    requires |k.xs| <= q < |ShiftedKnots(k, ts, ss, yValue, n).xs|
    ensures exists m :: 0 <= m < n && ShiftedKnots(k, ts, ss, yValue, n).xs[q] == ts[m]
  {
    var prev := ShiftedKnots(k, ts, ss, yValue, n - 1);
    var r := ShiftedKnots(k, ts, ss, yValue, n);
    if q < |prev.xs| {
      ShiftTimesOnly(k, ts, ss, yValue, n - 1, q);
      var m :| 0 <= m < n - 1 && prev.xs[q] == ts[m];
      assert r.xs[q] == prev.xs[q];
    } else {
      assert r.xs == prev.xs + [ts[n - 1]];
      assert r.xs[q] == ts[n - 1];
    }
  }

  /** The n-th shift scales the knot at its time in place when that knot is
      an original one and no earlier shift time equals it. */
  lemma LastShiftScalesKnot(k: Knots, ts: seq<real>, ss: seq<real>, yValue: real -> real, n: nat, j: nat)
    requires |k.xs| == |k.ys| && 0 < n <= |ts| && n <= |ss| && Distinct(k.xs)
    requires j < |k.xs| && ts[n - 1] == k.xs[j]
    requires forall m :: 0 <= m < n - 1 ==> ts[m] != k.xs[j]
    ensures ShiftedKnots(k, ts, ss, yValue, n).ys[j] == k.ys[j] * (1.0 + ss[n - 1])
  {
    var prev := ShiftedKnots(k, ts, ss, yValue, n - 1);
    UntouchedKnot(k, ts, ss, yValue, n - 1, j);
    var index := IndexOf(prev.xs, ts[n - 1]);
    assert 0 <= index <= j;
    assert index == j;
    var r := ShiftedKnots(k, ts, ss, yValue, n);
    assert r == ShiftKnot(prev, ts[n - 1], ss[n - 1], yValue);
    assert r.ys[j] == prev.ys[j] * (1.0 + ss[n - 1]);
  }

  /** A shift at a time other than a knot's leaves that knot's value alone. */
  lemma OtherShiftKeepsKnot(k: Knots, ts: seq<real>, ss: seq<real>, yValue: real -> real, n: nat, j: nat)
    requires |k.xs| == |k.ys| && 0 < n <= |ts| && n <= |ss| && j < |k.xs| && ts[n - 1] != k.xs[j]
    ensures ShiftedKnots(k, ts, ss, yValue, n).ys[j] == ShiftedKnots(k, ts, ss, yValue, n - 1).ys[j]
  {
    var prev := ShiftedKnots(k, ts, ss, yValue, n - 1);
    var index := IndexOf(prev.xs, ts[n - 1]);
    assert prev.xs[j] == k.xs[j];
    assert index != j;
  }

  /** With distinct knot times and distinct shift times, the knot at a shift
      time is scaled by (1 + shift) in place. */
  lemma {:induction false} ExistingKnotScaled(k: Knots, ts: seq<real>, ss: seq<real>, yValue: real -> real, n: nat, i: nat, j: nat)
    requires |k.xs| == |k.ys| && n <= |ts| && n <= |ss| && Distinct(k.xs) && DistinctPrefix(ts, n)
    requires i < n && j < |k.xs| && ts[i] == k.xs[j]
    ensures ShiftedKnots(k, ts, ss, yValue, n).ys[j] == k.ys[j] * (1.0 + ss[i])
  {
    if i == n - 1 {
      LastShiftScalesKnot(k, ts, ss, yValue, n, j);
    } else {
      assert DistinctPrefix(ts, n - 1);
      ExistingKnotScaled(k, ts, ss, yValue, n - 1, i, j);
      OtherShiftKeepsKnot(k, ts, ss, yValue, n, j);
    }
  }

  /** A shift time that is not a knot time of the original curve (and is not
      repeated among the shift times) becomes a new knot carrying the
      original value there, scaled by (1 + shift). */
  lemma {:induction false} NewKnotAppended(k: Knots, ts: seq<real>, ss: seq<real>, yValue: real -> real, n: nat, i: nat)
    returns (p: nat)
    requires |k.xs| == |k.ys| && n <= |ts| && n <= |ss| && DistinctPrefix(ts, n)
    requires i < n && ts[i] !in k.xs
    ensures |k.xs| <= p < |ShiftedKnots(k, ts, ss, yValue, n).xs|
    ensures ShiftedKnots(k, ts, ss, yValue, n).xs[p] == ts[i]
    ensures ShiftedKnots(k, ts, ss, yValue, n).ys[p] == yValue(ts[i]) * (1.0 + ss[i])
  {
    var prev := ShiftedKnots(k, ts, ss, yValue, n - 1);
    var r := ShiftedKnots(k, ts, ss, yValue, n);
    if i == n - 1 {
      forall q | 0 <= q < |prev.xs| ensures prev.xs[q] != ts[i] {
        if q < |k.xs| {
          assert prev.xs[q] == k.xs[q];
        } else {
          ShiftTimesOnly(k, ts, ss, yValue, n - 1, q);
        }
      }
      assert IndexOf(prev.xs, ts[i]) == -1;
      p := |prev.xs|;
    } else {
      p := NewKnotAppended(k, ts, ss, yValue, n - 1, i);
      assert ts[n - 1] != ts[i];
      var index := IndexOf(prev.xs, ts[n - 1]);
      assert index != p;
    }
  }

  /** The curve a point shift produces, given the times the relative helper
      receives. */
  function PointShiftCurve(curve: YieldCurve, helperTimes: seq<real>, t: seq<real>, shifts: seq<real>,
                           shiftType: ShiftType, o: Oracle): Result<YieldCurve>
    requires |helperTimes| == |shifts|
  {
    var newName := curve.name + "WithPointShifts";
    match shiftType
    case Absolute => Ok(YieldCurve(newName, FactoryShiftedCurve(curve.curve, t, shifts, newName)))
    case Relative =>
      match curve.curve
      case InterpolatedCurve(xs, ys, interp, _) =>
        if |xs| != |ys| then Err("class cast")
        else
          var k := ShiftedKnots(Knots(xs, ys), helperTimes, shifts, CurveValue(o, interp, xs, ys), |helperTimes|);
          Ok(YieldCurve(newName, InterpolatedCurve(k.xs, k.ys, interp, Some(newName))))
      case _ => Err("class cast")
  }

  /** Point shift as written: the relative case hands the shift amounts to
      the helper as its times. */
  method WithPointShifts(curve: YieldCurve, t: seq<real>, shifts: seq<real>, shiftType: ShiftType, o: Oracle)
    returns (r: Result<YieldCurve>)
    ensures |t| != |shifts| ==> r == Err("must have one shift per point")
    ensures |t| == |shifts| ==> r == PointShiftCurve(curve, shifts, t, shifts, shiftType, o)
  {
    if |t| != |shifts| {
      return Err("must have one shift per point");
    }
    r := PointShift(curve, shifts, t, shifts, shiftType, o);
  }

  /** Point shift with the times passed to the relative helper. */
  method WithPointShiftsCorrected(curve: YieldCurve, t: seq<real>, shifts: seq<real>, shiftType: ShiftType, o: Oracle)
    returns (r: Result<YieldCurve>)
    ensures |t| != |shifts| ==> r == Err("must have one shift per point")
    ensures |t| == |shifts| ==> r == PointShiftCurve(curve, t, t, shifts, shiftType, o)
  {
    if |t| != |shifts| {
      return Err("must have one shift per point");
    }
    r := PointShift(curve, t, t, shifts, shiftType, o);
  }

  method PointShift(curve: YieldCurve, helperTimes: seq<real>, t: seq<real>, shifts: seq<real>,
                    shiftType: ShiftType, o: Oracle) returns (r: Result<YieldCurve>)
    requires |helperTimes| == |shifts|
    ensures r == PointShiftCurve(curve, helperTimes, t, shifts, shiftType, o)
  {
    var newName := curve.name + "WithPointShifts";
    if shiftType == Absolute {
      return Ok(YieldCurve(newName, FactoryShiftedCurve(curve.curve, t, shifts, newName)));
    }
    match curve.curve {
      case InterpolatedCurve(xs, ys, interp, _) =>
        if |xs| != |ys| {
          return Err("class cast");
        }
        var c := RelativeShiftedCurve(xs, ys, interp, helperTimes, shifts, newName, o);
        r := Ok(YieldCurve(newName, c.value));
      case _ =>
        r := Err("class cast");
    }
  }

  /** A relative point shift of 50% at the knot time 1 of a one-knot curve:
      as written the knot is left alone and a knot at time 0.5 is added; the
      corrected shift scales the knot at time 1. */
  lemma PointShiftTimesSwapped(o: Oracle)
    ensures var c := YieldCurve("c", InterpolatedCurve([1.0], [0.02], OtherInterpolator("i"), None));
      && PointShiftCurve(c, [0.5], [1.0], [0.5], Relative, o).value.curve.xs == [1.0, 0.5]
      && PointShiftCurve(c, [0.5], [1.0], [0.5], Relative, o).value.curve.ys[0] == 0.02
      && PointShiftCurve(c, [1.0], [1.0], [0.5], Relative, o).value.curve.xs == [1.0]
      && PointShiftCurve(c, [1.0], [1.0], [0.5], Relative, o).value.curve.ys == [0.03]
  {
    var k := Knots([1.0], [0.02]);
    var y := CurveValue(o, OtherInterpolator("i"), [1.0], [0.02]);
    assert IndexOf([1.0], 0.5) == -1;
    assert IndexOf([1.0], 1.0) == 0;
    assert ShiftedKnots(k, [0.5], [0.5], y, 1) == ShiftKnot(k, 0.5, 0.5, y);
    assert ShiftedKnots(k, [1.0], [0.5], y, 1) == ShiftKnot(k, 1.0, 0.5, y);
  }
}
