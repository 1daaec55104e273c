/** The definition of a zero-coupon inflation coupon whose end index is
    interpolated between two consecutive reference months: the interpolation
    weight, the builders that derive reference and fixing dates from a month
    lag, the builder that reads the start index from a price-index time
    series, re-dating with `With`, and the conversion to a derivative at a
    valuation date, which becomes a fixed coupon once the end index is
    known. */
module InflationZeroCoupon {
  import opened Common
  import opened Calendar

  /** A price index: its name, its currency, and its publication lag, the
      shift from the first of a month to the date that month's fixing is
      published. */
  datatype PriceIndex = PriceIndex(name: string, currency: string, publicationLag: Date -> Date)

  datatype Definition = Definition(
    currency: string,
    paymentDate: Date,
    accrualStartDate: Date,
    accrualEndDate: Date,
    paymentYearFraction: real,
    notional: real,
    priceIndex: PriceIndex,
    monthLag: int,
    referenceStartDate: Date,
    indexStartValue: real,
    referenceEndDate: (Date, Date),
    fixingEndDate: Date,
    weight: real,
    payNotional: bool)

  /** What a definition becomes at a valuation date: a coupon with a fixed
      rate once the end index is known, or an inflation coupon expressed in
      times from the valuation date. */
  datatype Coupon =
    | FixedCoupon(currency: string, paymentTime: real, discountingCurveName: string,
                  paymentYearFraction: real, notional: real, rate: real)
    | InterpolatedCoupon(currency: string, paymentTime: real, discountingCurveName: string,
                         paymentYearFraction: real, notional: real, priceIndex: PriceIndex,
                         indexStartValue: real, referenceEndTime: (real, real), weight: real,
                         fixingTime: real, payNotional: bool)

  /** Price-index fixings by date; a date with no entry has no fixing. */
  type TimeSeries = map<Date, real>

  /** The weight of the first reference month: 1 - (d - 1) / L, for day d
      of a month of length L. */
  function Weight(d: Date): real {
    1.0 - ((d.day as real) - 1.0) / (LengthOfMonth(d.year, d.month) as real)
  }

  /** Linear interpolation between the two monthly index values. */
  function Interpolate(w: real, first: real, second: real): real {
    w * first + (1.0 - w) * second
  }

  /** `first / second`; a zero start index, where the double division gives
      an infinity or NaN, yields 0 here. */
  function Ratio(first: real, second: real): real {
    if second == 0.0 then 0.0 else first / second
  }

  /** The two end reference months for a coupon anchored at `anchor`: the
      first of the month `monthLag` months earlier, and the month after. */
  function EndReferences(anchor: Date, monthLag: int): (r: (Date, Date))
    ensures r.0.day == 1 && r.1.day == 1
    ensures MonthIndex(r.0) == MonthIndex(anchor) - monthLag
    ensures MonthIndex(r.1) == MonthIndex(r.0) + 1
  {
    var first := FirstOfMonth(MinusMonths(anchor, monthLag));
    (first, PlusMonths(first, 1))
  }

  /** The expected fixing date: the publication lag after the first of the
      month two months after the month of the day before the second
      reference date. */
  function FixingDate(references: (Date, Date), publicationLag: Date -> Date): Date {
    publicationLag(PlusMonths(FirstOfMonth(MinusOneDay(references.1)), 2))
  }

  /** The constructor: the three dates it checks must be present; the weight
      is computed from the payment date. */
  function Create(currency: string, paymentDate: Date, accrualStartDate: Date, accrualEndDate: Date,
                  paymentYearFraction: real, notional: real, priceIndex: PriceIndex, monthLag: int,
                  referenceStartDate: Option<Date>, indexStartValue: real,
                  referenceEndDate: Option<(Date, Date)>, fixingEndDate: Option<Date>,
                  payNotional: bool): (r: Result<Definition>)
    ensures r.Ok? <==> referenceStartDate.Some? && referenceEndDate.Some? && fixingEndDate.Some?
    ensures referenceStartDate.None? ==> r == Err("Reference start date")
    ensures referenceStartDate.Some? && referenceEndDate.None? ==> r == Err("Reference end date")
    ensures referenceStartDate.Some? && referenceEndDate.Some? && fixingEndDate.None? ==> r == Err("Fixing end date")
    ensures r.Ok? ==> 0.0 < r.value.weight <= 1.0 && (r.value.weight == 1.0 <==> paymentDate.day == 1)
    ensures r.Ok? ==> (r.value.paymentDate == paymentDate && r.value.referenceStartDate == referenceStartDate.value
      && r.value.referenceEndDate == referenceEndDate.value && r.value.fixingEndDate == fixingEndDate.value)
  {
    if referenceStartDate.None? then Err("Reference start date")
    else if referenceEndDate.None? then Err("Reference end date")
    else if fixingEndDate.None? then Err("Fixing end date")
    else
      WeightBounds(paymentDate);
      Ok(Definition(currency, paymentDate, accrualStartDate, accrualEndDate, paymentYearFraction, notional,
                    priceIndex, monthLag, referenceStartDate.value, indexStartValue, referenceEndDate.value,
                    fixingEndDate.value, Weight(paymentDate), payNotional))
  }

  /** The builder given the end references and fixing date: the accrual
      start is the start reference, the payment date ends the accrual, the
      year fraction is 1 and the currency is the index's. */
  function FromReferences(accrualStartDate: Date, paymentDate: Date, notional: real, priceIndex: Option<PriceIndex>,
                          monthLag: int, indexStartValue: real, referenceEndDate: (Date, Date),
                          fixingEndDate: Date, payNotional: bool): (r: Result<Definition>)
    ensures r.Ok? <==> priceIndex.Some?
    ensures priceIndex.None? ==> r == Err("Price index")
    ensures r.Ok? ==> (r.value.currency == priceIndex.value.currency
      && r.value.referenceStartDate == accrualStartDate && r.value.accrualEndDate == paymentDate
      && r.value.paymentYearFraction == 1.0 && r.value.referenceEndDate == referenceEndDate
      && r.value.fixingEndDate == fixingEndDate && r.value.weight == Weight(paymentDate))
  {
    if priceIndex.None? then Err("Price index")
    else
      Create(priceIndex.value.currency, paymentDate, accrualStartDate, paymentDate, 1.0, notional,
             priceIndex.value, monthLag, Some(accrualStartDate), indexStartValue, Some(referenceEndDate),
             Some(fixingEndDate), payNotional)
  }

  /** The builder from the month lag and the index's publication lag. */
  function FromLag(accrualStartDate: Date, paymentDate: Date, notional: real, priceIndex: PriceIndex,
                   indexStartValue: real, monthLag: int,
                   payNotional: bool): (r: Definition)
    ensures r.referenceStartDate == MinusMonths(accrualStartDate, monthLag)
    ensures r.referenceEndDate == EndReferences(paymentDate, monthLag)
    ensures r.fixingEndDate == FixingDate(EndReferences(paymentDate, monthLag), priceIndex.publicationLag)
    ensures r.accrualEndDate == paymentDate && r.paymentYearFraction == 1.0
    ensures r.currency == priceIndex.currency && r.monthLag == monthLag && r.indexStartValue == indexStartValue
  {
    var references := EndReferences(paymentDate, monthLag);
    Create(priceIndex.currency, paymentDate, accrualStartDate, paymentDate, 1.0, notional, priceIndex, monthLag,
           Some(MinusMonths(accrualStartDate, monthLag)), indexStartValue, Some(references),
           Some(FixingDate(references, priceIndex.publicationLag)), payNotional).value
  }

  /** The builder that reads the start index from a time series: the index
      interpolated between the two months `monthLag` before the accrual
      start, weighted by the accrual start's day; both fixings must be in
      the series. */
  function FromTimeSeries(accrualStartDate: Date, paymentDate: Date, notional: real, priceIndex: PriceIndex,
                          series: TimeSeries, monthLag: int,
                          payNotional: bool): (r: Result<Definition>)
    ensures var refs := EndReferences(accrualStartDate, monthLag);
      r.Ok? <==> refs.0 in series && refs.1 in series
    ensures r.Err? ==> r.message == "Required price index fixing unavailable"
    ensures var refs := EndReferences(accrualStartDate, monthLag);
      r.Ok? ==> r.value == FromLag(accrualStartDate, paymentDate, notional, priceIndex,
                                   Interpolate(Weight(accrualStartDate), series[refs.0], series[refs.1]),
                                   monthLag, payNotional)
  {
    var refs := EndReferences(accrualStartDate, monthLag);
    if refs.0 in series && refs.1 in series then
      var indexStartValue := Interpolate(Weight(accrualStartDate), series[refs.0], series[refs.1]);
      Ok(FromLag(accrualStartDate, paymentDate, notional, priceIndex, indexStartValue,
                 monthLag, payNotional))
    else Err("Required price index fixing unavailable")
  }

  /** Re-dates the coupon: the end references and fixing date follow the new
      accrual end; the month lag, start reference, start index, year
      fraction and the coupon's own notional are kept (the notional argument
      is not read). */
  function With(c: Definition, paymentDate: Date, accrualStartDate: Date, accrualEndDate: Date, notional: real)
    : (r: Definition)
    ensures r.paymentDate == paymentDate && r.accrualStartDate == accrualStartDate && r.accrualEndDate == accrualEndDate
    ensures r.referenceEndDate == EndReferences(accrualEndDate, c.monthLag)
    ensures r.fixingEndDate == FixingDate(r.referenceEndDate, c.priceIndex.publicationLag)
    ensures r.monthLag == c.monthLag && r.referenceStartDate == c.referenceStartDate
    ensures r.indexStartValue == c.indexStartValue && r.notional == c.notional
    ensures r.currency == c.currency && r.paymentYearFraction == c.paymentYearFraction
    ensures r.priceIndex == c.priceIndex && r.payNotional == c.payNotional
    ensures r.weight == Weight(paymentDate)
  {
    var references := EndReferences(accrualEndDate, c.monthLag);
    Create(c.currency, paymentDate, accrualStartDate, accrualEndDate, c.paymentYearFraction, c.notional,
           c.priceIndex, c.monthLag, Some(c.referenceStartDate), c.indexStartValue, Some(references),
           Some(FixingDate(references, c.priceIndex.publicationLag)), c.payNotional).value
  }

  /** The conversion without fixings: rejects a date after the payment date
      first, then an empty list of curve names; every time is measured from
      the valuation date. */
  function ToDerivative(c: Definition, date: Date, yieldCurveNames: seq<string>,
                        timeBetween: (Date, Date) -> real): (r: Result<Coupon>)
    ensures r.Ok? <==> !IsAfter(date, c.paymentDate) && |yieldCurveNames| > 0
    ensures IsAfter(date, c.paymentDate) ==>
      r == Err("Do not have any fixing data but are asking for a derivative after the payment date")
    ensures !IsAfter(date, c.paymentDate) && |yieldCurveNames| == 0 ==> r == Err("at least one curve required")
    ensures r.Ok? ==> (r.value.InterpolatedCoupon?
      && r.value.discountingCurveName == yieldCurveNames[0]
      && r.value.paymentTime == timeBetween(date, c.paymentDate)
      && r.value.fixingTime == timeBetween(date, c.fixingEndDate)
      && r.value.indexStartValue == c.indexStartValue && r.value.weight == c.weight)
  {
    if IsAfter(date, c.paymentDate) then
      Err("Do not have any fixing data but are asking for a derivative after the payment date")
    else if |yieldCurveNames| == 0 then Err("at least one curve required")
    else
      Ok(InterpolatedCoupon(c.currency, timeBetween(date, c.paymentDate), yieldCurveNames[0],
                            c.paymentYearFraction, c.notional, c.priceIndex, c.indexStartValue,
                            (timeBetween(date, c.referenceEndDate.0), timeBetween(date, c.referenceEndDate.1)),
                            c.weight, timeBetween(date, c.fixingEndDate), c.payNotional))
  }

  /** Whether the end index is known at `date`: the fixing date has come and
      both reference months have a fixing. */
  predicate FixingKnown(c: Definition, date: Date, series: TimeSeries) {
    !IsAfter(c.fixingEndDate, date) && c.referenceEndDate.0 in series && c.referenceEndDate.1 in series
  }

  /** The conversion with fixings: rejects an empty list of curve names
      first, then a date after the payment date. A known end index gives a
      fixed coupon with the index ratio as rate, less 1 when the notional is
      not paid; otherwise an inflation coupon whose fixing time is 0 once the
      fixing date has come. */
  function ToDerivativeWithSeries(c: Definition, date: Date, series: TimeSeries, yieldCurveNames: seq<string>,
                                  timeBetween: (Date, Date) -> real): (r: Result<Coupon>)
    ensures r.Ok? <==> |yieldCurveNames| > 0 && !IsAfter(date, c.paymentDate)
    ensures |yieldCurveNames| == 0 ==> r == Err("at least one curve required")
    ensures |yieldCurveNames| > 0 && IsAfter(date, c.paymentDate) ==> r == Err("date is after payment date")
    ensures r.Ok? ==> (r.value.FixedCoupon? <==> FixingKnown(c, date, series))
    ensures r.Ok? && r.value.FixedCoupon? ==>
      r.value.rate == Ratio(Interpolate(c.weight, series[c.referenceEndDate.0], series[c.referenceEndDate.1]),
                            c.indexStartValue) - (if c.payNotional then 0.0 else 1.0)
      && r.value.paymentYearFraction == 1.0 && r.value.notional == c.notional
    ensures r.Ok? && r.value.InterpolatedCoupon? ==>
      r.value.fixingTime == (if IsAfter(c.fixingEndDate, date) then timeBetween(date, c.fixingEndDate) else 0.0)
  {
    if |yieldCurveNames| == 0 then Err("at least one curve required")
    else if IsAfter(date, c.paymentDate) then Err("date is after payment date")
    else
      var paymentTime := timeBetween(date, c.paymentDate);
      var curveName := yieldCurveNames[0];
      if FixingKnown(c, date, series) then
        var indexEnd := Interpolate(c.weight, series[c.referenceEndDate.0], series[c.referenceEndDate.1]);
        var rate := Ratio(indexEnd, c.indexStartValue) - (if c.payNotional then 0.0 else 1.0);
        Ok(FixedCoupon(c.currency, paymentTime, curveName, 1.0, c.notional, rate))
      else
        var fixingTime := if IsAfter(c.fixingEndDate, date) then timeBetween(date, c.fixingEndDate) else 0.0;
        Ok(InterpolatedCoupon(c.currency, paymentTime, curveName, c.paymentYearFraction, c.notional,
                              c.priceIndex, c.indexStartValue,
                              (timeBetween(date, c.referenceEndDate.0), timeBetween(date, c.referenceEndDate.1)),
                              c.weight, fixingTime, c.payNotional))
  }

  /** The weight lies in (0, 1] and is 1 exactly on the first of the month. */
  lemma WeightBounds(d: Date)
    ensures 0.0 < Weight(d) <= 1.0
    ensures Weight(d) == 1.0 <==> d.day == 1
  {
    var length := LengthOfMonth(d.year, d.month) as real;
    var fraction := ((d.day as real) - 1.0) / length;
    assert 0.0 <= (d.day as real) - 1.0 < length;
    assert 0.0 <= fraction < 1.0;
    assert fraction == 0.0 <==> d.day == 1;
  }

  /** With a weight in [0, 1] the interpolated index lies between the two
      monthly values. */
  lemma InterpolateBetween(w: real, first: real, second: real)
    requires 0.0 <= w <= 1.0
    ensures first <= second ==> first <= Interpolate(w, first, second) <= second
    ensures second <= first ==> second <= Interpolate(w, first, second) <= first
  {
    var v := Interpolate(w, first, second);
    assert v - first == (1.0 - w) * (second - first);
    assert second - v == w * (second - first);
    if first <= second {
      ProductNonNegative(1.0 - w, second - first);
      ProductNonNegative(w, second - first);
    } else {
      ProductNonNegative(1.0 - w, first - second);
      ProductNonNegative(w, first - second);
    }
  }

  lemma ProductNonNegative(a: real, b: real)
    requires a >= 0.0 && b >= 0.0
    ensures a * b >= 0.0
  {
  }

  /** The second end reference is the first of the month after the first;
      the fixing date is the publication lag after the first of the month
      after the second reference month. */
  lemma EndReferencesAndFixing(anchor: Date, monthLag: int, publicationLag: Date -> Date)
    ensures var refs := EndReferences(anchor, monthLag);
      refs.1 == PlusMonths(refs.0, 1) && FixingDate(refs, publicationLag) == publicationLag(PlusMonths(refs.1, 1))
  {
    var refs := EndReferences(anchor, monthLag);
    FirstOfMonthBeforeNextMonth(refs.0);
    PlusMonthsCompose(refs.0, 1, 1);
  }

  /** The first end reference is the payment date moved back by the lag,
      on day 1: a payment on the first of a month references that month
      less the lag exactly. */
  lemma EndReferenceOfFirstOfMonth(anchor: Date, monthLag: int)
    requires anchor.day == 1
    ensures EndReferences(anchor, monthLag).0 == MinusMonths(anchor, monthLag)
  {
    SameMonthSameDay(EndReferences(anchor, monthLag).0, MinusMonths(anchor, monthLag));
  }

  /** A coupon built from a time series starts from the index interpolated
      between its two start reference months, so that index lies between
      the two fixings. */
  lemma TimeSeriesStartIndexBetween(accrualStartDate: Date, paymentDate: Date, notional: real,
                                    priceIndex: PriceIndex, series: TimeSeries, monthLag: int, payNotional: bool)
    requires FromTimeSeries(accrualStartDate, paymentDate, notional, priceIndex, series,
                            monthLag, payNotional).Ok?
    ensures var refs := EndReferences(accrualStartDate, monthLag);
      var v := FromTimeSeries(accrualStartDate, paymentDate, notional, priceIndex, series,
                              monthLag, payNotional).value.indexStartValue;
      (series[refs.0] <= series[refs.1] ==> series[refs.0] <= v <= series[refs.1])
      && (series[refs.1] <= series[refs.0] ==> series[refs.1] <= v <= series[refs.0])
  {
    var refs := EndReferences(accrualStartDate, monthLag);
    WeightBounds(accrualStartDate);
    InterpolateBetween(Weight(accrualStartDate), series[refs.0], series[refs.1]);
  }

  /** Once the fixing date has come and both fixings are in the series, the
      conversion yields a fixed coupon whose rate, for a paid notional, is
      the ratio of the interpolated end index to the start index. */
  lemma KnownFixingGivesFixedCoupon(c: Definition, date: Date, series: TimeSeries, yieldCurveNames: seq<string>,
                                    timeBetween: (Date, Date) -> real)
    requires |yieldCurveNames| > 0 && !IsAfter(date, c.paymentDate)
    requires !IsAfter(c.fixingEndDate, date)
    requires c.referenceEndDate.0 in series && c.referenceEndDate.1 in series
    requires c.payNotional && c.indexStartValue != 0.0
    ensures var r := ToDerivativeWithSeries(c, date, series, yieldCurveNames, timeBetween);
      r.Ok? && r.value.FixedCoupon?
      && r.value.rate * c.indexStartValue == Interpolate(c.weight, series[c.referenceEndDate.0], series[c.referenceEndDate.1])
  {
    var indexEnd := Interpolate(c.weight, series[c.referenceEndDate.0], series[c.referenceEndDate.1]);
    assert Ratio(indexEnd, c.indexStartValue) * c.indexStartValue == indexEnd;
  }
}
