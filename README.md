# OpenGamma platform core: curves, coupons, surfaces, registries and caches

This project is a Dafny model of a slice of the OpenGamma analytics and
engine platform. Each modelled Java class has its own module.

- `YieldCurveUtils` (`yield_curve_utils.dfy`): risk shifts of a yield curve.
  - A parallel shift adds a constant or scales by `1 + s`.
  - A bucketed shift builds the points of a step curve from a list of time buckets.
  - A point shift edits the knots of an interpolated curve in place: it scales an existing knot or appends a new one.
- `IsdaCurve` (`isda_curve.dfy`): the ISDA offset curve.
  - A class whose constructor fills the array of shifted time points.
  - Zero rates are read at `t - offset`.
  - Discount factors are normalised by the rate at time 0.
- `GapOption` (`gap_option.dfy`): the gap-option payoff at the expiry nodes of a binomial tree, and one step of backward induction. Both fill fresh arrays.
- `InflationZeroCoupon` (`inflation_coupon.dfy`): the zero-coupon inflation coupon with an interpolated end index.
  - Its weight, and the builders that derive reference months and the fixing date from a month lag.
  - The builder that reads the start index from a price-index time series, and re-dating (`with`).
  - The two conversions to a derivative at a valuation date.
- `VolatilitySurface` (`vol_surface_data.dfy`): the volatility-surface holder. Its null checks, lookup, equality and hash.
- `VolatilitySurfaceBuilder` (`vol_surface_builder.dfy`): the Fudge message encoder and decoder of a surface, and their round trip.
- `ComponentRegistry` (`component_server.dfy`): the component server.
  - Its list of component descriptions, searched by type and classifier.
  - The in-place rewrite of every component URI against a base URI.
- `HistoricalDataCache` (`historical_data_cache.dfy`): the read-through cache in front of a historical time-series source, and the equality and hash of its key. The cache is the one the cache manager holds under "HistoricalDataCache", shared by every provider built on that manager.
- `UserSearchResult` (`user_search_result.dfy`): the three ways of reading users out of a search result.
- `ValueRequirement` (`value_requirement.dfy`): a value requirement's checks, equality, hash, and its writing to and reading from a message.
- `Common` (`common.dfy`) holds:
  - `Option` and `Result`: a Java `null` becomes `None`, and a thrown exception becomes `Err(message)`;
  - Java's 32-bit `String.hashCode`, computed in `bv32` so that it wraps around as Java's does. It runs over UTF-16 code units, so a character outside the basic multilingual plane counts as its surrogate pair.
- `Calendar` (`calendar.dfy`) models the date arithmetic the coupon uses.
  - A date is a year, month and day.
  - Adding months clamps the day to the month's length, as `plusMonths` does.

Every `double` is a `real`. Collaborators the code only calls are parameters of the model functions that need them. These include:
- interpolators and `Math.exp`;
- `URI.resolve` and `ComponentInfo.matches`;
- the time calculator, and the index publication lag, which is a function-valued field of the price index;
- the Fudge codec of a target specification.

Where such a collaborator must behave in a certain way for a property to hold, the property says so. For example, the discount-factor lemmas assume an exponential that is positive and is 1 at 0.

## Model

| member | source | states |
|---|---|---|
| YieldCurveUtils.WithParallelShift | projects/OG-Analytics/src/main/java/com/opengamma/analytics/financial/model/interestrate/curve/YieldCurveUtils.java:50-63 | the name gains "WithParallelShift"; an absolute shift evaluates to orig(t) + s at every t, a relative one to orig(t)·(1 + s), whatever the interpolation |
| YieldCurveUtils.ZeroParallelShiftIsIdentity | projects/OG-Analytics/src/main/java/com/opengamma/analytics/financial/model/interestrate/curve/YieldCurveUtils.java:55-59 | a zero shift of either kind leaves every value of the curve unchanged |
| YieldCurveUtils.BuildStepPoints | projects/OG-Analytics/src/main/java/com/opengamma/analytics/financial/model/interestrate/curve/YieldCurveUtils.java:92-123 | the iterator loop builds exactly the step points of all buckets. Per bucket that is a gap filler (0 or 1) when it does not start where the previous one ended (or at 0 for the first), then the bucket pair itself; for a relative shift, later buckets are stored as (lo, hi + 1) |
| YieldCurveUtils.WithBucketedShifts | projects/OG-Analytics/src/main/java/com/opengamma/analytics/financial/model/interestrate/curve/YieldCurveUtils.java:83-129 | a count mismatch fails with "must have one shift per bucket"; an empty bucket list fails at the first `next()`; otherwise the base curve combined with the step curve over those points |
| YieldCurveUtils.StepPointsLength | projects/OG-Analytics/src/main/java/com/opengamma/analytics/financial/model/interestrate/curve/YieldCurveUtils.java:97-123 | the step-point list has one entry per bucket, plus 1 when the first lower bound is not 0, plus one per non-contiguous adjacent pair |
| YieldCurveUtils.StepPointsAtLowerBounds | projects/OG-Analytics/src/main/java/com/opengamma/analytics/financial/model/interestrate/curve/YieldCurveUtils.java:97-123 | every step-point time is 0 or the lower bound of some bucket |
| YieldCurveUtils.BucketUpperBoundBecomesShift | projects/OG-Analytics/src/main/java/com/opengamma/analytics/financial/model/interestrate/curve/YieldCurveUtils.java:96-110 | as written, bucket (1, 2) with shift 0.0001 gives step values 0 and 2: the upper bound is used as the shift, and the shift appears nowhere |
| YieldCurveUtils.IntendedStepPointsOrdered | projects/OG-Analytics/src/main/java/com/opengamma/analytics/financial/model/interestrate/curve/YieldCurveUtils.java:96-123 | corrected step points have strictly increasing times for ordered, non-overlapping buckets |
| YieldCurveUtils.IntendedCarriesShifts | projects/OG-Analytics/src/main/java/com/opengamma/analytics/financial/model/interestrate/curve/YieldCurveUtils.java:96-123 | corrected step points hold, for every bucket k, the point (lo_k, shift_k), or (lo_k, 1 + shift_k) for a relative shift |
| YieldCurveUtils.BuildIntendedStepPoints | projects/OG-Analytics/src/main/java/com/opengamma/analytics/financial/model/interestrate/curve/YieldCurveUtils.java:92-123 | the corrected loop builds exactly the intended step points |
| YieldCurveUtils.WithBucketedShiftsCorrected | projects/OG-Analytics/src/main/java/com/opengamma/analytics/financial/model/interestrate/curve/YieldCurveUtils.java:83-129 | same error cases as the original; otherwise the base curve combined with the step curve of the intended points |
| YieldCurveUtils.BucketedShiftValue | projects/OG-Analytics/src/main/java/com/opengamma/analytics/financial/model/interestrate/curve/YieldCurveUtils.java:90-125 | the bucketed curve is named "...WithBucketedShifts"; its value is base + step (absolute) or base · step (relative), with the step curve interpolated over the points |
| YieldCurveUtils.IndexOf | projects/OG-Analytics/src/main/java/com/opengamma/analytics/financial/model/interestrate/curve/YieldCurveUtils.java:190 | the first position holding x, or -1 exactly when x is absent |
| YieldCurveUtils.ShiftedKnots | projects/OG-Analytics/src/main/java/com/opengamma/analytics/financial/model/interestrate/curve/YieldCurveUtils.java:187-197 | x and y data keep equal length; every original x stays in place; at most one knot is added per shift |
| YieldCurveUtils.RelativeShiftedCurve | projects/OG-Analytics/src/main/java/com/opengamma/analytics/financial/model/interestrate/curve/YieldCurveUtils.java:178-199 | fails iff the time and shift counts differ; with no shifts, the same knots and interpolator under the new name; otherwise the knots the in-place loop produces |
| YieldCurveUtils.UntouchedKnot | projects/OG-Analytics/src/main/java/com/opengamma/analytics/financial/model/interestrate/curve/YieldCurveUtils.java:189-197 | a knot whose time no shift names keeps its time and value |
| YieldCurveUtils.ShiftTimesOnly | projects/OG-Analytics/src/main/java/com/opengamma/analytics/financial/model/interestrate/curve/YieldCurveUtils.java:193-195 | every appended knot's time is one of the shift times |
| YieldCurveUtils.LastShiftScalesKnot | projects/OG-Analytics/src/main/java/com/opengamma/analytics/financial/model/interestrate/curve/YieldCurveUtils.java:190-192 | the first shift naming an existing knot multiplies its value by 1 + shift |
| YieldCurveUtils.OtherShiftKeepsKnot | projects/OG-Analytics/src/main/java/com/opengamma/analytics/financial/model/interestrate/curve/YieldCurveUtils.java:189-197 | a shift at another time leaves a knot's value as it was |
| YieldCurveUtils.ExistingKnotScaled | projects/OG-Analytics/src/main/java/com/opengamma/analytics/financial/model/interestrate/curve/YieldCurveUtils.java:190-192 | with distinct knots and times, the knot at t[i] ends as y·(1 + yShift[i]) |
| YieldCurveUtils.NewKnotAppended | projects/OG-Analytics/src/main/java/com/opengamma/analytics/financial/model/interestrate/curve/YieldCurveUtils.java:193-195 | a shift time that is not a knot is present in the new knots, after the original knots in the lists handed to the curve factory, with value curve(t)·(1 + shift) |
| YieldCurveUtils.PointShift | projects/OG-Analytics/src/main/java/com/opengamma/analytics/financial/model/interestrate/curve/YieldCurveUtils.java:154-166 | an absolute shift goes to the curve-shift factory; a relative one requires an interpolated curve (a class-cast failure otherwise) and runs the knot helper |
| YieldCurveUtils.WithPointShifts | projects/OG-Analytics/src/main/java/com/opengamma/analytics/financial/model/interestrate/curve/YieldCurveUtils.java:148-167 | a count mismatch fails with "must have one shift per point"; as written, the relative case passes the shift amounts as the helper's times |
| YieldCurveUtils.WithPointShiftsCorrected | projects/OG-Analytics/src/main/java/com/opengamma/analytics/financial/model/interestrate/curve/YieldCurveUtils.java:148-167 | the same, with the times passed as times |
| YieldCurveUtils.PointShiftTimesSwapped | projects/OG-Analytics/src/main/java/com/opengamma/analytics/financial/model/interestrate/curve/YieldCurveUtils.java:163 | a 50% relative shift at knot time 1: as written the knot keeps 0.02 and a knot at time 0.5 is added; corrected, the knot becomes 0.03 |
| IsdaCurve.IsdaCurve.Init | projects/OG-Analytics/src/com/opengamma/analytics/financial/credit/cds/ISDACurve.java:52-56 | a fresh time-point array of the knot count, element i being xData[i] + offset |
| IsdaCurve.Build | projects/OG-Analytics/src/com/opengamma/analytics/financial/credit/cds/ISDACurve.java:35-57 | no knots fails with "Cannot construct a curve with no points"; one knot gives the constant curve yData[0] (failing when yData is empty); more give the interpolated curve on the knots; time points shifted by the offset |
| IsdaCurve.IsdaCurve.GetTimePoints | projects/OG-Analytics/src/com/opengamma/analytics/financial/credit/cds/ISDACurve.java:71-73 | returns the curve's own array, not a copy |
| IsdaCurve.IsdaCurve.InterestRate | projects/OG-Analytics/src/com/opengamma/analytics/financial/credit/cds/ISDACurve.java:63-65 | the rate at t is the underlying curve read at t - offset: the knot's value for a one-knot curve, the interpolated value otherwise |
| IsdaCurve.IsdaCurve.DiscountFactor | projects/OG-Analytics/src/com/opengamma/analytics/financial/credit/cds/ISDACurve.java:67-69 | for an exponential that is positive and 1 at 0, the factor is positive, and multiplied by exp(offset·r(0)) it gives exp((offset - t)·r(t)) |
| IsdaCurve.OneKnotIsConstant | projects/OG-Analytics/src/com/opengamma/analytics/financial/credit/cds/ISDACurve.java:46-47 | a one-knot curve has rate yData[0] at every time |
| IsdaCurve.RateReadsShiftedTime | projects/OG-Analytics/src/com/opengamma/analytics/financial/credit/cds/ISDACurve.java:63-65 | the rate at t + offset is the underlying curve's value at t |
| IsdaCurve.DiscountFactorAtZero | projects/OG-Analytics/src/com/opengamma/analytics/financial/credit/cds/ISDACurve.java:67-69 | the discount factor at time 0 is exactly 1 |
| IsdaCurve.DiscountFactorWithoutOffset | projects/OG-Analytics/src/com/opengamma/analytics/financial/credit/cds/ISDACurve.java:68 | with offset 0 the discount factor is exp(-t·r(t)) |
| IsdaCurve.DiscountFactorAtOffset | projects/OG-Analytics/src/com/opengamma/analytics/financial/credit/cds/ISDACurve.java:68 | at t = offset the discount factor is 1 / exp(offset·r(0)), not 1 |
| GapOption.Make | projects/OG-Analytics/src/main/java/com/opengamma/analytics/financial/model/option/pricing/tree/GapOptionFunctionProvider.java:26-31 | accepted iff the payoff strike is positive, else "payoffStrike should be positive" |
| GapOption.PayoffAtExpiry | projects/OG-Analytics/src/main/java/com/opengamma/analytics/financial/model/option/pricing/tree/GapOptionFunctionProvider.java:34-46 | a fresh array of steps + 1 node payoffs; node i prices the asset at assetPrice·upOverDown^i |
| GapOption.NodePriceStep | projects/OG-Analytics/src/main/java/com/opengamma/analytics/financial/model/option/pricing/tree/GapOptionFunctionProvider.java:40-43 | the running price multiplied by upOverDown is the next node's price |
| GapOption.PayoffMatchesDocumentation | projects/OG-Analytics/src/main/java/com/opengamma/analytics/financial/model/option/pricing/tree/GapOptionFunctionProvider.java:12-13 | the signed payoff equals the documented one: a call pays S - K2 if S > K1, a put K2 - S if S < K1, else 0 |
| GapOption.NoPayoffAtStrike | projects/OG-Analytics/src/main/java/com/opengamma/analytics/financial/model/option/pricing/tree/GapOptionFunctionProvider.java:42 | at S = K1 neither a call nor a put pays |
| GapOption.GapCallCanPayNegative | projects/OG-Analytics/src/main/java/com/opengamma/analytics/financial/model/option/pricing/tree/GapOptionFunctionProvider.java:12-13 | a gap call with K2 > K1 pays a negative amount just above K1 |
| GapOption.PayoffNonNegative | projects/OG-Analytics/src/main/java/com/opengamma/analytics/financial/model/option/pricing/tree/GapOptionFunctionProvider.java:42 | with K2 on the in-the-money side of K1 the payoff is never negative |
| GapOption.NodePricesRise | projects/OG-Analytics/src/main/java/com/opengamma/analytics/financial/model/option/pricing/tree/GapOptionFunctionProvider.java:40-43 | with upOverDown ≥ 1, node prices do not fall with the node index |
| GapOption.CallExerciseRegionIsUpper | projects/OG-Analytics/src/main/java/com/opengamma/analytics/financial/model/option/pricing/tree/GapOptionFunctionProvider.java:42 | once a call pays at a node, it pays S - K2 at every higher node |
| GapOption.NextOptionValues | projects/OG-Analytics/src/main/java/com/opengamma/analytics/financial/model/option/pricing/tree/GapOptionFunctionProvider.java:49-58 | a fresh array of steps + 1 entries discount·(up·values[j+1] + down·values[j]); the input array is unchanged |
| GapOption.BackStepMonotone | projects/OG-Analytics/src/main/java/com/opengamma/analytics/financial/model/option/pricing/tree/GapOptionFunctionProvider.java:55 | with non-negative discount and probabilities, larger values give larger prices |
| GapOption.BackStepOfConstant | projects/OG-Analytics/src/main/java/com/opengamma/analytics/financial/model/option/pricing/tree/GapOptionFunctionProvider.java:55 | with probabilities summing to 1, a constant value c steps back to discount·c |
| Calendar.PlusMonths | projects/OG-Analytics/src/main/java/com/opengamma/analytics/financial/instrument/inflation/CouponInflationZeroCouponInterpolationDefinition.java:131-136 | moves the month index by n and clamps the day to the target month's length |
| Calendar.MinusOneDay | projects/OG-Analytics/src/main/java/com/opengamma/analytics/financial/instrument/inflation/CouponInflationZeroCouponInterpolationDefinition.java:136 | the previous day, crossing to the last day of the previous month from day 1 |
| Calendar.FirstOfMonthBeforeNextMonth | projects/OG-Analytics/src/main/java/com/opengamma/analytics/financial/instrument/inflation/CouponInflationZeroCouponInterpolationDefinition.java:136 | the first of the month of the day before the first of next month is the first of this month |
| InflationZeroCoupon.Create | projects/OG-Analytics/src/main/java/com/opengamma/analytics/financial/instrument/inflation/CouponInflationZeroCouponInterpolationDefinition.java:80-95 | fails iff a reference start date, reference end dates or fixing date is null, naming the first; the weight then lies in (0, 1] and is 1 iff payment is on day 1 |
| InflationZeroCoupon.WeightBounds | projects/OG-Analytics/src/main/java/com/opengamma/analytics/financial/instrument/inflation/CouponInflationZeroCouponInterpolationDefinition.java:92 | 1 - (d - 1)/L lies in (0, 1] and equals 1 exactly on the first of the month |
| InflationZeroCoupon.EndReferences | projects/OG-Analytics/src/main/java/com/opengamma/analytics/financial/instrument/inflation/CouponInflationZeroCouponInterpolationDefinition.java:132-135 | both references are on day 1; the first is in the month monthLag before the anchor, the second in the month after |
| InflationZeroCoupon.FromReferences | projects/OG-Analytics/src/main/java/com/opengamma/analytics/financial/instrument/inflation/CouponInflationZeroCouponInterpolationDefinition.java:111-116 | fails iff the price index is null; otherwise the index's currency, year fraction 1, the accrual start as start reference, the payment date ending the accrual |
| InflationZeroCoupon.FromLag | projects/OG-Analytics/src/main/java/com/opengamma/analytics/financial/instrument/inflation/CouponInflationZeroCouponInterpolationDefinition.java:129-139 | start reference = accrual start less monthLag months; end references from the payment date; fixing date from the second reference and the publication lag |
| InflationZeroCoupon.FromTimeSeries | projects/OG-Analytics/src/main/java/com/opengamma/analytics/financial/instrument/inflation/CouponInflationZeroCouponInterpolationDefinition.java:153-168 | succeeds iff both start fixings are in the series, with start index w·I0 + (1 - w)·I1 from the accrual start's day; otherwise "Required price index fixing unavailable" |
| InflationZeroCoupon.With | projects/OG-Analytics/src/main/java/com/opengamma/analytics/financial/instrument/inflation/CouponInflationZeroCouponInterpolationDefinition.java:227-235 | new dates; end references and fixing date recomputed from the new accrual end; lag, start reference, start index and the coupon's own notional kept |
| InflationZeroCoupon.ToDerivative | projects/OG-Analytics/src/main/java/com/opengamma/analytics/financial/instrument/inflation/CouponInflationZeroCouponInterpolationDefinition.java:238-252 | fails iff the date is after payment (checked first) or no curve is named; otherwise an inflation coupon with times measured from the date and the first curve name |
| InflationZeroCoupon.ToDerivativeWithSeries | projects/OG-Analytics/src/main/java/com/opengamma/analytics/financial/instrument/inflation/CouponInflationZeroCouponInterpolationDefinition.java:255-285 | fails iff no curve is named (checked first) or the date is after payment. The coupon is fixed iff the fixing date has come and both fixings are known, with rate I_end/I_start - (payNotional ? 0 : 1). Otherwise the fixing time is 0 unless the fixing date is still ahead |
| InflationZeroCoupon.InterpolateBetween | projects/OG-Analytics/src/main/java/com/opengamma/analytics/financial/instrument/inflation/CouponInflationZeroCouponInterpolationDefinition.java:268 | with a weight in [0, 1] the interpolated index lies between the two fixings |
| InflationZeroCoupon.EndReferencesAndFixing | projects/OG-Analytics/src/main/java/com/opengamma/analytics/financial/instrument/inflation/CouponInflationZeroCouponInterpolationDefinition.java:134-136 | the second reference is one month after the first; the fixing date is the publication lag after the month following the second reference |
| InflationZeroCoupon.EndReferenceOfFirstOfMonth | projects/OG-Analytics/src/main/java/com/opengamma/analytics/financial/instrument/inflation/CouponInflationZeroCouponInterpolationDefinition.java:132-134 | for an anchor on day 1 the first reference is the anchor less monthLag months |
| InflationZeroCoupon.TimeSeriesStartIndexBetween | projects/OG-Analytics/src/main/java/com/opengamma/analytics/financial/instrument/inflation/CouponInflationZeroCouponInterpolationDefinition.java:159-163 | the start index read from a series lies between its two fixings |
| InflationZeroCoupon.KnownFixingGivesFixedCoupon | projects/OG-Analytics/src/main/java/com/opengamma/analytics/financial/instrument/inflation/CouponInflationZeroCouponInterpolationDefinition.java:264-274 | once the fixing date has come and both fixings are known, the result is a fixed coupon whose rate times the start index is the interpolated end index |
| VolatilitySurface.Create | projects/OG-Financial/src/com/opengamma/financial/analytics/volatility/surface/VolatilitySurfaceData.java:31-45 | fails iff an argument is null, naming the first in the order names, currency, y axis, x axis, values; otherwise holds exactly the arguments |
| VolatilitySurface.GetVolatility | projects/OG-Financial/src/com/opengamma/financial/analytics/volatility/surface/VolatilitySurfaceData.java:55-57 | the value stored for (x, y), or null iff there is none |
| VolatilitySurface.ArraysEqual | projects/OG-Financial/src/com/opengamma/financial/analytics/volatility/surface/VolatilitySurfaceData.java:87-88 | elementwise comparison holds iff the axes are equal |
| VolatilitySurface.Equals | projects/OG-Financial/src/com/opengamma/financial/analytics/volatility/surface/VolatilitySurfaceData.java:76-90 | true iff the other object is a surface with equal names, currency, axes and values; false for null or another type |
| VolatilitySurface.HashCode | projects/OG-Financial/src/com/opengamma/financial/analytics/volatility/surface/VolatilitySurfaceData.java:92-95 | the 32-bit product of the string hashes of the definition name, the specification name and the currency code, as Java's `int` arithmetic computes it |
| VolatilitySurface.EqualsConsistentWithHashCode | projects/OG-Financial/src/com/opengamma/financial/analytics/volatility/surface/VolatilitySurfaceData.java:92-95 | equal surfaces hash equally |
| VolatilitySurface.HashCodeIgnoresData | projects/OG-Financial/src/com/opengamma/financial/analytics/volatility/surface/VolatilitySurfaceData.java:93-95 | the hash does not depend on the axes or the values |
| VolatilitySurface.EqualsSymmetric | projects/OG-Financial/src/com/opengamma/financial/analytics/volatility/surface/VolatilitySurfaceData.java:76-90 | equality is symmetric |
| VolatilitySurfaceBuilder.BuildMessage | projects/OG-Financial/src/com/opengamma/financial/fudgemsg/VolatilitySurfaceDataBuilder.java:35-56 | the message holds the currency and names, then one "xs" field per x in order, one "ys" per y, then one "values" sub-message per map entry, each key exactly once |
| VolatilitySurfaceBuilder.AddEntries | projects/OG-Financial/src/com/opengamma/financial/fudgemsg/VolatilitySurfaceDataBuilder.java:46-54 | one (x, y, value) sub-message per entry; the iteration order enumerates every key exactly once |
| VolatilitySurfaceBuilder.FirstNamed | projects/OG-Financial/src/com/opengamma/financial/fudgemsg/VolatilitySurfaceDataBuilder.java:60-62 | a by-name lookup finds a field iff the message holds one of that name, and then yields the value of the first field of that name |
| VolatilitySurfaceBuilder.ReadXs | projects/OG-Financial/src/com/opengamma/financial/fudgemsg/VolatilitySurfaceDataBuilder.java:63-72 | the loop collects the x values of the "xs" fields in message order |
| VolatilitySurfaceBuilder.ReadYs | projects/OG-Financial/src/com/opengamma/financial/fudgemsg/VolatilitySurfaceDataBuilder.java:73-82 | the loop collects the y values of the "ys" fields in message order |
| VolatilitySurfaceBuilder.ReadValues | projects/OG-Financial/src/com/opengamma/financial/fudgemsg/VolatilitySurfaceDataBuilder.java:87-94 | the loop puts each "values" sub-message's pair and value into the map, in message order |
| VolatilitySurfaceBuilder.BuildObject | projects/OG-Financial/src/com/opengamma/financial/fudgemsg/VolatilitySurfaceDataBuilder.java:59-99 | decodes the message: the surface's fields, with the value map only when both axes are non-empty, through the constructor's null checks |
| VolatilitySurfaceBuilder.EntryReadsBack | projects/OG-Financial/src/com/opengamma/financial/fudgemsg/VolatilitySurfaceDataBuilder.java:89-93 | a written (x, y, value) sub-message reads back as the same entry |
| VolatilitySurfaceBuilder.XsFieldsReadBack | projects/OG-Financial/src/com/opengamma/financial/fudgemsg/VolatilitySurfaceDataBuilder.java:63-72 | the "xs" fields written for an axis read back as that axis, in order |
| VolatilitySurfaceBuilder.YsFieldsReadBack | projects/OG-Financial/src/com/opengamma/financial/fudgemsg/VolatilitySurfaceDataBuilder.java:73-82 | the "ys" fields written for an axis read back as that axis, in order |
| VolatilitySurfaceBuilder.ValuesOfEntry | projects/OG-Financial/src/com/opengamma/financial/fudgemsg/VolatilitySurfaceDataBuilder.java:93 | one more "values" field updates the decoded map at its key |
| VolatilitySurfaceBuilder.EntryFieldsReadBack | projects/OG-Financial/src/com/opengamma/financial/fudgemsg/VolatilitySurfaceDataBuilder.java:86-94 | the sub-messages written for a list of keys read back as the map restricted to those keys |
| VolatilitySurfaceBuilder.HeaderReadsBack | projects/OG-Financial/src/com/opengamma/financial/fudgemsg/VolatilitySurfaceDataBuilder.java:60-62 | currency, definition name and specification name read back unchanged |
| VolatilitySurfaceBuilder.RoundTrip | projects/OG-Financial/src/com/opengamma/financial/fudgemsg/VolatilitySurfaceDataBuilder.java:35-99 | decoding an encoding of a surface yields that surface, when both axes are non-empty or the map is empty |
| VolatilitySurfaceBuilder.EncodeDecode | projects/OG-Financial/src/com/opengamma/financial/fudgemsg/VolatilitySurfaceDataBuilder.java:35-99 | building the message and then the object returns the original surface |
| VolatilitySurfaceBuilder.EmptyAxisDropsValues | projects/OG-Financial/src/com/opengamma/financial/fudgemsg/VolatilitySurfaceDataBuilder.java:83-98 | if either decoded axis is empty, the decoded map is empty, whatever "values" fields the message holds |
| VolatilitySurfaceBuilder.LastEntryWins | projects/OG-Financial/src/com/opengamma/financial/fudgemsg/VolatilitySurfaceDataBuilder.java:88-94 | of two "values" entries for the same pair, the later one is kept |
| ComponentRegistry.ComponentServer.constructor | projects/OG-Component/src/main/java/com/opengamma/component/ComponentServer.java:60-62 | the server has the given URI and no components |
| ComponentRegistry.NewServer | projects/OG-Component/src/main/java/com/opengamma/component/ComponentServer.java:60-62 | a null URI is rejected as the setter rejects it; otherwise a fresh server with that URI |
| ComponentRegistry.ComponentServer.GetComponentInfo | projects/OG-Component/src/main/java/com/opengamma/component/ComponentServer.java:74-81 | succeeds iff some info matches; it then returns the first matching info in list order; otherwise "Component not found: " + the type's printed form (`interface …` or `class …`) + "::" + classifier |
| ComponentRegistry.ComponentServer.GetComponentInfos | projects/OG-Component/src/main/java/com/opengamma/component/ComponentServer.java:91-99 | the infos of the type, in list order |
| ComponentRegistry.ComponentServer.GetComponentInfoMap | projects/OG-Component/src/main/java/com/opengamma/component/ComponentServer.java:109-117 | the infos of the type keyed by classifier, later infos replacing earlier ones |
| ComponentRegistry.ComponentServer.ApplyBaseUri | projects/OG-Component/src/main/java/com/opengamma/component/ComponentServer.java:128-134 | a null base is rejected and changes nothing. Otherwise the server URI becomes the base, and the list keeps its infos and order. Each info's URI is resolved against the base once per listing: exactly once when no info is listed twice |
| ComponentRegistry.ComponentServer.SetUri | projects/OG-Component/src/main/java/com/opengamma/component/ComponentServer.java:172-175 | rejects null and changes nothing; otherwise sets the URI only |
| ComponentRegistry.ComponentServer.SetComponentInfos | projects/OG-Component/src/main/java/com/opengamma/component/ComponentServer.java:200-203 | rejects null and changes nothing; otherwise sets the list only |
| ComponentRegistry.OfType | projects/OG-Component/src/main/java/com/opengamma/component/ComponentServer.java:91-99 | every info in the result is an info of the list with the type, and every info of the list with the type is in the result |
| ComponentRegistry.OfTypeCounts | projects/OG-Component/src/main/java/com/opengamma/component/ComponentServer.java:93-95 | the filtered list holds each info of the type as often as the list does, and nothing else |
| ComponentRegistry.OfTypeAppend | projects/OG-Component/src/main/java/com/opengamma/component/ComponentServer.java:91-99 | filtering commutes with concatenation, so list order is kept |
| ComponentRegistry.ByClassifierKeys | projects/OG-Component/src/main/java/com/opengamma/component/ComponentServer.java:111-115 | a classifier is a key iff some info of the type carries it |
| ComponentRegistry.ByClassifierKeepsLast | projects/OG-Component/src/main/java/com/opengamma/component/ComponentServer.java:113 | the info kept for a classifier is the last info of the type carrying it |
| HistoricalDataCache.CacheManager.AddCache | src/com/opengamma/engine/historicaldata/EHCachingHistoricalDataProvider.java:154-162 | a cache of the name is created empty only when the manager has none; an existing one is kept, entries and all |
| HistoricalDataCache.CacheManager.GetCache | src/com/opengamma/engine/historicaldata/EHCachingHistoricalDataProvider.java:169-178 | the manager's cache of that name, or null when it has none |
| HistoricalDataCache.CachingProvider.constructor | src/com/opengamma/engine/historicaldata/EHCachingHistoricalDataProvider.java:42-49 | the provider keeps the source and the manager's "HistoricalDataCache": the one already there, unchanged and with its entries, or else a fresh empty one |
| HistoricalDataCache.SharedCacheAnswersFirstSource | src/com/opengamma/engine/historicaldata/EHCachingHistoricalDataProvider.java:42-49 | two providers built on one manager share the cache: after the first looks a key up, the second answers the same without asking its own source, and a key new to the cache is answered by the first source |
| HistoricalDataCache.CachingProvider.GetHistoricalTimeSeries | src/com/opengamma/engine/historicaldata/EHCachingHistoricalDataProvider.java:196-216 | a null bundle or field throws a NullPointerException while the key is hashed, leaving the cache alone; otherwise answer and new cache are those of one read-through lookup of the four-part key |
| HistoricalDataCache.CachingProvider.GetHistoricalTimeSeriesRange | src/com/opengamma/engine/historicaldata/EHCachingHistoricalDataProvider.java:219-228 | the same lookup, its series cut to [start, end], or null when the series is null; the lookup's exception passes through |
| HistoricalDataCache.PartEquals | src/com/opengamma/engine/historicaldata/EHCachingHistoricalDataProvider.java:260-266 | null-safe comparison holds iff both parts are null or both equal |
| HistoricalDataCache.KeyEquals | src/com/opengamma/engine/historicaldata/EHCachingHistoricalDataProvider.java:249-289 | true iff the other object is a key equal in all four parts; false for null or another type |
| HistoricalDataCache.KeyHash | src/com/opengamma/engine/historicaldata/EHCachingHistoricalDataProvider.java:244-246 | defined iff the bundle and the field are non-null (otherwise a NullPointerException) |
| HistoricalDataCache.UnhashableKeyThrows | src/com/opengamma/engine/historicaldata/EHCachingHistoricalDataProvider.java:199-200 | a lookup throws exactly when the key's hash throws, with the same exception, before the cache or the source is consulted, and the cache is unchanged |
| HistoricalDataCache.FetchKeepsKeysHashable | src/com/opengamma/engine/historicaldata/EHCachingHistoricalDataProvider.java:199-215 | a lookup stores only keys whose bundle and field are non-null, so a cache of hashable keys stays one |
| HistoricalDataCache.HitReturnsStoredSeries | src/com/opengamma/engine/historicaldata/EHCachingHistoricalDataProvider.java:201-206 | in a cache whose keys are all hashable, a hit on a stored series returns it, leaves the cache alone, and does not depend on the source |
| HistoricalDataCache.HitOnNonSeriesIsNull | src/com/opengamma/engine/historicaldata/EHCachingHistoricalDataProvider.java:207-210 | in a cache whose keys are all hashable, a hit on anything else, a stored null included, answers null and leaves the cache alone |
| HistoricalDataCache.MissStoresAnswer | src/com/opengamma/engine/historicaldata/EHCachingHistoricalDataProvider.java:211-215 | a miss on a key with non-null bundle and field answers what the source answers, stores it (even null) under the key, and keeps every other entry |
| HistoricalDataCache.RepeatedLookupAgrees | src/com/opengamma/engine/historicaldata/EHCachingHistoricalDataProvider.java:199-215 | a second lookup with the same key answers as the first and changes nothing |
| HistoricalDataCache.SubSeriesExact | src/com/opengamma/engine/historicaldata/EHCachingHistoricalDataProvider.java:222-224 | the range keeps exactly the dates from start to end, both included, with their values |
| HistoricalDataCache.SubSeriesKeepsEnds | src/com/opengamma/engine/historicaldata/EHCachingHistoricalDataProvider.java:224 | both end dates are kept when present and in order |
| HistoricalDataCache.SubSeriesIdempotent | src/com/opengamma/engine/historicaldata/EHCachingHistoricalDataProvider.java:224 | cutting twice to the same range changes nothing more |
| HistoricalDataCache.EqualKeysHashEqually | src/com/opengamma/engine/historicaldata/EHCachingHistoricalDataProvider.java:244-289 | equal keys have equal hashes (or both throw) |
| HistoricalDataCache.HashIgnoresSourceAndProvider | src/com/opengamma/engine/historicaldata/EHCachingHistoricalDataProvider.java:244-246 | the hash does not depend on the data source or the data provider |
| UserSearchResult.Users | projects/OG-Master/src/main/java/com/opengamma/master/user/UserSearchResult.java:65-73 | one user per document, in document order; none for a null list |
| UserSearchResult.GetUsers | projects/OG-Master/src/main/java/com/opengamma/master/user/UserSearchResult.java:65-73 | the loop collects exactly those users |
| UserSearchResult.GetFirstUser | projects/OG-Master/src/main/java/com/opengamma/master/user/UserSearchResult.java:80-82 | throws iff the list is null; otherwise the first document's user, or null iff there are no documents |
| UserSearchResult.GetSingleUser | projects/OG-Master/src/main/java/com/opengamma/master/user/UserSearchResult.java:93-99 | succeeds iff there is exactly one document, with its user; any other count, 0 included, fails with the count in the message |
| UserSearchResult.SingleIsFirstAndOnly | projects/OG-Master/src/main/java/com/opengamma/master/user/UserSearchResult.java:80-99 | a single user is the first user and the whole user list |
| UserSearchResult.FirstIsHeadOfUsers | projects/OG-Master/src/main/java/com/opengamma/master/user/UserSearchResult.java:65-82 | the first user is the head of the user list, null when it is empty |
| UserSearchResult.DecimalStringValue | projects/OG-Master/src/main/java/com/opengamma/master/user/UserSearchResult.java:95 | the count printed in the message denotes the count |
| ValueRequirement.Create | src/com/opengamma/engine/value/ValueRequirement.java:37-42 | fails iff the name or the target specification is null, naming the first; otherwise holds both |
| ValueRequirement.Equals | src/com/opengamma/engine/value/ValueRequirement.java:62-82 | true iff the other object is a requirement with the same name and specification; false for null or another type |
| ValueRequirement.HashCode | src/com/opengamma/engine/value/ValueRequirement.java:84-91 | the prime-31 combination started from 1: 31·(31 + hash(valueName)) + hash(specification), in 32-bit arithmetic |
| ValueRequirement.EqualsConsistentWithHashCode | src/com/opengamma/engine/value/ValueRequirement.java:84-91 | equal requirements hash equally |
| ValueRequirement.EqualsSymmetric | src/com/opengamma/engine/value/ValueRequirement.java:62-82 | equality is symmetric |
| ValueRequirement.ToFudgeMsg | src/com/opengamma/engine/value/ValueRequirement.java:98-101 | appends a "valueName" string field, then the specification's fields, to the message's existing fields |
| ValueRequirement.GetString | src/com/opengamma/engine/value/ValueRequirement.java:104 | when the first field of the name holds a string, that string; null when that field holds anything else or no field has the name |
| ValueRequirement.FromFudgeMsg | src/com/opengamma/engine/value/ValueRequirement.java:103-107 | succeeds iff the first "valueName" field holds a string and the specification reader answers; a missing name fails with "Value name", then a missing specification with "Computation target specification"; a requirement read back has that name and the reader's specification |
| ValueRequirement.RoundTrip | src/com/opengamma/engine/value/ValueRequirement.java:98-107 | written after fields without a "valueName", the name reads back; with a specification that reads back, the whole requirement does |
| ValueRequirement.GetStringSkips | src/com/opengamma/engine/value/ValueRequirement.java:104 | fields of other names in front do not change what is read |
| ValueRequirement.EarlierNameWins | src/com/opengamma/engine/value/ValueRequirement.java:104 | a message that already holds a "valueName" reads back that earlier name |

## Left out

- Floating point: every `double` is a `real`. The model does not capture rounding, NaN, infinities or overflow.
- GapOption.Make: does not model the check that the payoff strike is finite (line 29). Every `real` is finite.
- InflationZeroCoupon.ToDerivativeWithSeries: when the start index is 0, the model's division yields 0. The `double` division gives an infinity or NaN.
- Collaborators are function parameters, and nothing is assumed about them beyond what a property states. These are:
  - interpolators and extrapolators;
  - `SpreadDoublesCurve` evaluation and the absolute curve-shift factory;
  - `Math.exp`;
  - `TimeCalculator`, and the price index's publication lag, a function-valued field;
  - `URI.resolve` and `ComponentInfo.matches`;
  - the bundle hash;
  - the target specification's Fudge writer, reader and hash.
- The superclasses' argument checks are not modelled: curve and argument nulls in the shift utilities, and the option superclass. The tree's step count is a `nat`, and `getSign` is +1 for a call and -1 for a put.
- IsdaCurve.Build: the failure for one knot with empty y data is modelled only as an error. `InterpolatedDoublesCurve`'s own length and sorting checks on the knots are left out.
- IsdaCurve.IsdaCurve.DiscountFactor: is 1 at t = 0 (line 68), not at t = offset, as the code computes it (see `DiscountFactorAtZero` and `DiscountFactorAtOffset`).
- YieldCurveUtils.RelativeShiftedCurve: the mismatch message keeps its `{}` placeholders unfilled.
- YieldCurveUtils.RelativeShiftedCurve: the new curve carries the knot lists as the helper builds them, new knots after the old. `InterpolatedDoublesCurve.from` (line 198) sorts the knots by time, and that re-sort is not modelled. The same holds for the curves YieldCurveUtils.PointShift and YieldCurveUtils.WithBucketedShifts build.
- YieldCurveUtils.PointShift: a relative shift of a non-interpolated curve or of knots of unequal length fails with an error. In the code this is a `ClassCastException` or the curve constructor's failure.
- The switch `default` branches of the shift utilities are left out: `ShiftType` has only the two values.
- Dates are year, month and day. Times of day and time zones of `ZonedDateTime` are not modelled.
- InflationZeroCoupon.With: reads the coupon's own notional and ignores the `notional` argument, as the code does.
- Null checks are modelled only where the code checks, or where a null is part of the behaviour. Elsewhere arguments are non-null values.
- `accept` (the visitor) and the plain getters are left out.
- The Fudge byte format and `objectToFudgeMsg` are left out.
  - A message is a sequence of named fields, and axis values are carried as they are.
  - A sub-message without "x", "y" or "value" decodes to an error. In the code it gives nulls or an exception.
  - The class headers and array element types of the decoded axes are not modelled.
- VolatilitySurface.Create: the copy of the value map is implicit, because maps are values. The code keeps the caller's x and y axis arrays themselves (lines 43-44), so later changes the caller makes to them reach the surface. The axes here are sequence values and do not capture that aliasing.
- VolatilitySurfaceBuilder.AddEntries: the `HashMap` iteration order is a ghost enumeration of the keys.
- The Ehcache `CacheManager` is reduced to a map from cache names to caches, and a `Cache` to a map from keys to stored values. The manager `CacheManager.create()` returns is the process-wide one, and the constructor takes it as its argument. The configuration, eviction, expiry and disk overflow of caches are left out, as are the constructors at lines 51-85 and the failures wrapped in `OpenGammaRuntimeException`.
- The underlying source is a deterministic function of the key.
- HistoricalDataCache.CachingProvider.constructor: the null check on the source is left out. A function value cannot be null.
- ComponentRegistry.ComponentServer.GetComponentInfoMap: the result is an unordered map. The insertion order of the `LinkedHashMap` is not modelled.
- ComponentRegistry.ComponentServer.SetComponentInfos: stores a copy of the list value. Later changes the caller makes to its own list do not reach the server, unlike the code.
- `JodaBeanUtils` failures are represented by the property name.
- The protected no-argument constructor, the Joda-bean meta-properties, `equals`, `hashCode`, `clone` and `toString` of the server are left out.
- ValueRequirement.Equals: compares value names by string equality. The code compares interned strings by identity, which agrees for interned names.
- String interning and the other `ValueRequirement` constructors are not modelled; they build the target specification from a target.
- UserSearchResult: the constructors and the search-result superclass are left out. The documents list is an optional sequence.

## Findings

| source | as written | input that shows it | evidently intended | confidence | as-written member | corrected member |
|---|---|---|---|---|---|---|
| projects/OG-Analytics/src/main/java/com/opengamma/analytics/financial/model/interestrate/curve/YieldCurveUtils.java:163 | the relative point shift passes `shiftArray` as both the times and the shifts of the helper | a curve with one knot (1, 0.02), times [1], shifts [0.5], relative: the knot stays 0.02 and a knot at time 0.5 is added | the times array is passed as the times, so the knot at time 1 becomes 0.03 | not executed | YieldCurveUtils.WithPointShifts, YieldCurveUtils.PointShiftTimesSwapped | YieldCurveUtils.WithPointShiftsCorrected |
| projects/OG-Analytics/src/main/java/com/opengamma/analytics/financial/model/interestrate/curve/YieldCurveUtils.java:96-123 | the step curve is built from the bucket pairs themselves: each bucket's upper bound becomes the step value, and `shifts` is only length-checked | bucket (1, 2) with shift 0.0001, absolute: the step values are 0 and 2, so the curve moves by 2 beyond time 1 | each bucket contributes (lower bound, shift), or 1 + shift for a relative shift, with increasing step times | not executed | YieldCurveUtils.WithBucketedShifts, YieldCurveUtils.BucketUpperBoundBecomesShift | YieldCurveUtils.WithBucketedShiftsCorrected, YieldCurveUtils.IntendedCarriesShifts |
