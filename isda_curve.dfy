/** A zero-rate curve under the ISDA standard-model conventions: a time
    offset shifts the knot times and the argument of every rate lookup, and
    discount factors are normalised by the rate at time 0. */
module IsdaCurve {
  import opened Common

  /** The curve under the offset: a constant curve for one knot, an
      interpolated one (ISDA interpolation, flat extrapolation to the left,
      ISDA extrapolation to the right) for more. */
  datatype Underlying = ConstantCurve(value: real) | InterpolatedCurve(xs: seq<real>, ys: seq<real>)

  /** The arithmetic this model takes as given: the combined ISDA
      interpolator-extrapolator over knots, and the exponential. */
  datatype Maths = Maths(interpolate: (seq<real>, seq<real>, real) -> real, exp: real -> real)

  /** What is assumed of the exponential: positive everywhere and 1 at 0. */
  ghost predicate ExpLike(exp: real -> real) {
    exp(0.0) == 1.0 && forall x :: exp(x) > 0.0
  }

  function UnderlyingValue(c: Underlying, t: real, m: Maths): real {
    match c
    case ConstantCurve(v) => v
    case InterpolatedCurve(xs, ys) => m.interpolate(xs, ys, t)
  }

  class IsdaCurve {
    const name: string
    const offset: real
    const curve: Underlying
    /** The knot times shifted by the offset, filled once at construction. */
    const shiftedTimePoints: array<real>

    /** Fills the shifted time points from the knot times, one by one. */
    constructor Init(name: string, xData: array<real>, offset: real, curve: Underlying)
      ensures this.name == name && this.offset == offset && this.curve == curve
      ensures fresh(shiftedTimePoints) && shiftedTimePoints.Length == xData.Length
      ensures forall i :: 0 <= i < xData.Length ==> shiftedTimePoints[i] == xData[i] + offset
    {
      var points := new real[xData.Length];
      var i := 0;
      while i < xData.Length
        invariant 0 <= i <= xData.Length
        invariant forall j :: 0 <= j < i ==> points[j] == xData[j] + offset
      {
        points[i] := xData[i] + offset;
        i := i + 1;
      }
      this.name := name;
      this.offset := offset;
      this.curve := curve;
      this.shiftedTimePoints := points;
    }

    /** The zero rate at time t: the underlying curve read at t - offset. */
    function InterestRate(t: real, m: Maths): (r: real)
      ensures curve.ConstantCurve? ==> r == curve.value
      ensures curve.InterpolatedCurve? ==> r == m.interpolate(curve.xs, curve.ys, t - offset)
    {
      UnderlyingValue(curve, t - offset, m)
    }

    /** The exponent of the growth term, (offset - t) r(t). */
    function GrowthExponent(t: real, m: Maths): real {
      (offset - t) * InterestRate(t, m)
    }

    /** The exponent of the normalising term, offset r(0). */
    function NormalisingExponent(m: Maths): real {
      offset * InterestRate(0.0, m)
    }

    /** exp((offset - t) r(t)) / exp(offset r(0)). */
    function DiscountFactor(t: real, m: Maths): (r: real)
      requires ExpLike(m.exp)
      ensures r > 0.0
      ensures r * m.exp(NormalisingExponent(m)) == m.exp(GrowthExponent(t, m))
    {
      var growth := m.exp(GrowthExponent(t, m));
      var normaliser := m.exp(NormalisingExponent(m));
      assert growth > 0.0 && normaliser > 0.0;
      growth / normaliser
    }

    /** The time points handed to callers: the shifted array itself. */
    method GetTimePoints() returns (points: array<real>)
      ensures points == shiftedTimePoints
    {
      points := shiftedTimePoints;
    }
  }

  /** The constructor's dispatch on the number of knots: none throws, one
      gives a constant curve (reading yData[0], which throws when yData is
      empty), more give an interpolated curve over the knots. */
  method Build(name: string, xData: array<real>, yData: array<real>, offset: real) returns (r: Result<IsdaCurve>)
    ensures xData.Length == 0 ==> r == Err("Cannot construct a curve with no points")
    ensures xData.Length == 1 && yData.Length == 0 ==> r.Err?
    ensures r.Ok? ==> fresh(r.value) && fresh(r.value.shiftedTimePoints)
    ensures r.Ok? ==> r.value.name == name && r.value.offset == offset
    ensures r.Ok? ==> r.value.shiftedTimePoints.Length == xData.Length
    ensures r.Ok? ==> forall i :: 0 <= i < xData.Length ==> r.value.shiftedTimePoints[i] == xData[i] + offset
    ensures xData.Length > 1 ==> r.Ok? && r.value.curve == InterpolatedCurve(xData[..], yData[..])
    ensures xData.Length == 1 && yData.Length > 0 ==> r.Ok? && r.value.curve == ConstantCurve(yData[0])
  {
    var curve: Underlying;
    if xData.Length > 1 {
      curve := InterpolatedCurve(xData[..], yData[..]);
    } else if xData.Length == 1 {
      if yData.Length == 0 {
        return Err("array index out of bounds");
      }
      curve := ConstantCurve(yData[0]);
    } else {
      return Err("Cannot construct a curve with no points");
    }
    var c := new IsdaCurve.Init(name, xData, offset, curve);
    r := Ok(c);
  }

  /** A one-knot curve has the knot's value as its rate at every time. */
  lemma OneKnotIsConstant(c: IsdaCurve, y: real, t: real, m: Maths)
    requires c.curve == ConstantCurve(y)
    ensures c.InterestRate(t, m) == y
  {
  }

  /** The rate at t is the underlying curve's value at t - offset, so
      shifting time and offset together leaves the rate unchanged. */
  lemma RateReadsShiftedTime(c: IsdaCurve, t: real, m: Maths)
    ensures c.InterestRate(t + c.offset, m) == UnderlyingValue(c.curve, t, m)
  {
    assert (t + c.offset) - c.offset == t;
  }

  /** The discount factor is exactly 1 at time 0, where numerator and
      denominator coincide. */
  lemma DiscountFactorAtZero(c: IsdaCurve, m: Maths)
    requires ExpLike(m.exp)
    ensures c.DiscountFactor(0.0, m) == 1.0
  {
    var e := m.exp(c.NormalisingExponent(m));
    assert c.GrowthExponent(0.0, m) == c.NormalisingExponent(m);
    assert e > 0.0 && m.exp(c.GrowthExponent(0.0, m)) == e;
    assert e / e == 1.0;
  }

  /** With no offset the discount factor is exp(-t r(t)). */
  lemma DiscountFactorWithoutOffset(c: IsdaCurve, t: real, m: Maths)
    requires ExpLike(m.exp) && c.offset == 0.0
    ensures c.DiscountFactor(t, m) == m.exp(-t * c.InterestRate(t, m))
  {
    assert c.GrowthExponent(t, m) == -t * c.InterestRate(t, m);
    assert c.NormalisingExponent(m) == 0.0;
  }

  /** At t = offset the discount factor is 1 / exp(offset r(0)), not 1 in
      general: the normalisation point is time 0. */
  lemma DiscountFactorAtOffset(c: IsdaCurve, m: Maths)
    requires ExpLike(m.exp)
    ensures c.DiscountFactor(c.offset, m) * m.exp(c.NormalisingExponent(m)) == 1.0
  {
    assert c.GrowthExponent(c.offset, m) == 0.0;
    assert m.exp(c.NormalisingExponent(m)) > 0.0;
  }
}
