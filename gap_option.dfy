/** The payoff of a gap option on a recombining binomial tree: the payoff at
    the expiry nodes, and one step of backward induction through the tree.
    A gap call pays S - K2 when S > K1 and nothing otherwise; a gap put pays
    K2 - S when S < K1 and nothing otherwise. */
module GapOption {
  import opened Common

  /** The option: strike K1 decides whether the option pays, payoff strike
      K2 decides how much. */
  datatype Provider = Provider(strike: real, timeToExpiry: real, steps: nat, isCall: bool, payoffStrike: real)

  /** The constructor's own check: the payoff strike must be positive. */
  function Make(strike: real, timeToExpiry: real, steps: nat, isCall: bool, payoffStrike: real): (r: Result<Provider>)
    ensures r.Ok? <==> payoffStrike > 0.0
    ensures r.Ok? ==> r.value == Provider(strike, timeToExpiry, steps, isCall, payoffStrike)
    ensures r.Err? ==> r.message == "payoffStrike should be positive"
  {
    if payoffStrike > 0.0 then Ok(Provider(strike, timeToExpiry, steps, isCall, payoffStrike))
    else Err("payoffStrike should be positive")
  }

  /** +1 for a call, -1 for a put. */
  function Sign(p: Provider): real {
    if p.isCall then 1.0 else -1.0
  }

  function Pow(x: real, n: nat): real {
    if n == 0 then 1.0 else x * Pow(x, n - 1)
  }

  /** The asset price at expiry node i: the lowest price times the
      up-over-down ratio i times. */
  function NodePrice(assetPrice: real, upOverDown: real, i: nat): real {
    assetPrice * Pow(upOverDown, i)
  }

  /** The payoff at one expiry node, with the strict comparison against K1. */
  function NodePayoff(p: Provider, s: real): real {
    if Sign(p) * (s - p.strike) > 0.0 then Sign(p) * (s - p.payoffStrike) else 0.0
  }

  /** The payoffs over the steps + 1 expiry nodes. */
  function Payoffs(p: Provider, assetPrice: real, upOverDown: real): (r: seq<real>)
    ensures |r| == p.steps + 1
  {
    seq(p.steps + 1, i requires 0 <= i => NodePayoff(p, NodePrice(assetPrice, upOverDown, i)))
  }

  /** The payoff as the class documentation states it, case by case. */
  function DocumentedPayoff(p: Provider, s: real): real {
    if p.isCall then (if s <= p.strike then 0.0 else s - p.payoffStrike)
    else (if s < p.strike then p.payoffStrike - s else 0.0)
  }

  /** Fills the expiry payoffs, carrying the node price multiplicatively
      from one node to the next. */
  method PayoffAtExpiry(p: Provider, assetPrice: real, upOverDown: real) returns (values: array<real>)
    ensures fresh(values)
    ensures values[..] == Payoffs(p, assetPrice, upOverDown)
  {
    var nStepsP := p.steps + 1;
    var sign := Sign(p);
    values := new real[nStepsP];
    var priceTmp := assetPrice;
    var i := 0;
    while i < nStepsP
      invariant 0 <= i <= nStepsP
      invariant priceTmp == NodePrice(assetPrice, upOverDown, i)
      invariant forall j :: 0 <= j < i ==> values[j] == NodePayoff(p, NodePrice(assetPrice, upOverDown, j))
    {
      values[i] := if sign * (priceTmp - p.strike) > 0.0 then sign * (priceTmp - p.payoffStrike) else 0.0;
      NodePriceStep(assetPrice, upOverDown, i);
      priceTmp := priceTmp * upOverDown;
      i := i + 1;
    }
  }

  lemma NodePriceStep(assetPrice: real, upOverDown: real, i: nat)
    ensures NodePrice(assetPrice, upOverDown, i) * upOverDown == NodePrice(assetPrice, upOverDown, i + 1)
  {
    calc {
      NodePrice(assetPrice, upOverDown, i) * upOverDown;
      (assetPrice * Pow(upOverDown, i)) * upOverDown;
      assetPrice * (upOverDown * Pow(upOverDown, i));
      assetPrice * Pow(upOverDown, i + 1);
    }
  }

  /** One step of backward induction: each of the steps + 1 new values is
      the discounted expectation over its up and down successors. */
  function BackStep(discount: real, up: real, down: real, values: seq<real>, steps: nat): (r: seq<real>)
    requires |values| >= steps + 2
    ensures |r| == steps + 1
  {
    seq(steps + 1, j requires 0 <= j < steps + 1 => discount * (up * values[j + 1] + down * values[j]))
  }

  /** The backward step writes a fresh array and leaves its input alone. The
      remaining parameters of the tree interface are not read. */
  method NextOptionValues(discount: real, upProbability: real, downProbability: real, values: array<real>,
                          baseAssetPrice: real, sumCashDiv: real, downFactor: real, upOverDown: real, steps: nat)
    returns (res: array<real>)
    requires values.Length >= steps + 2
    ensures fresh(res)
    ensures res[..] == BackStep(discount, upProbability, downProbability, values[..], steps)
    ensures values[..] == old(values[..])
  {
    var nStepsP := steps + 1;
    res := new real[nStepsP];
    var j := 0;
    while j < nStepsP
      invariant 0 <= j <= nStepsP
      invariant forall k :: 0 <= k < j ==> res[k] == discount * (upProbability * values[k + 1] + downProbability * values[k])
    {
      res[j] := discount * (upProbability * values[j + 1] + downProbability * values[j]);
      j := j + 1;
    }
    ghost var expected := BackStep(discount, upProbability, downProbability, values[..], steps);
    assert forall k :: 0 <= k < nStepsP ==> res[k] == expected[k];
  }

  /** The sign-based payoff agrees with the documented call and put
      payoffs at every price. */
  lemma PayoffMatchesDocumentation(p: Provider, s: real)
    ensures NodePayoff(p, s) == DocumentedPayoff(p, s)
  {
    if !p.isCall {
      assert -1.0 * (s - p.strike) > 0.0 <==> s < p.strike;
      assert -1.0 * (s - p.payoffStrike) == p.payoffStrike - s;
    }
  }

  /** Exactly at the strike neither a call nor a put pays. */
  lemma NoPayoffAtStrike(p: Provider)
    ensures NodePayoff(p, p.strike) == 0.0
  {
  }

  /** A gap call pays a negative amount just above K1 when K2 > K1. */
  lemma GapCallCanPayNegative()
    ensures NodePayoff(Provider(1.0, 1.0, 1, true, 2.0), 1.5) == -0.5
  {
  }

  /** With K2 on the paying side of K1 the payoff is never negative. */
  lemma PayoffNonNegative(p: Provider, s: real)
    requires p.isCall ==> p.payoffStrike <= p.strike
    requires !p.isCall ==> p.payoffStrike >= p.strike
    ensures NodePayoff(p, s) >= 0.0
  {
    PayoffMatchesDocumentation(p, s);
  }

  lemma {:induction false} PowAtLeastOne(x: real, n: nat)
    requires x >= 1.0
    ensures Pow(x, n) >= 1.0
  {
    if n > 0 {
      PowAtLeastOne(x, n - 1);
      assert x * Pow(x, n - 1) >= Pow(x, n - 1);
    }
  }

  lemma {:induction false} PowMonotone(x: real, i: nat, j: nat)
    requires x >= 1.0 && i <= j
    ensures Pow(x, i) <= Pow(x, j)
  {
    if i < j {
      PowMonotone(x, i, j - 1);
      PowAtLeastOne(x, j - 1);
      assert x * Pow(x, j - 1) >= Pow(x, j - 1);
    }
  }

  /** With a positive lowest price and an up move at least as large as the
      down move, node prices rise along the ladder. */
  lemma NodePricesRise(assetPrice: real, upOverDown: real, i: nat, j: nat)
    requires assetPrice > 0.0 && upOverDown >= 1.0 && i <= j
    ensures NodePrice(assetPrice, upOverDown, i) <= NodePrice(assetPrice, upOverDown, j)
  {
    PowMonotone(upOverDown, i, j);
  }

  /** On such a ladder a call that pays at node i pays at every higher
      node: the exercise region of a call is an upper segment. */
  lemma CallExerciseRegionIsUpper(p: Provider, assetPrice: real, upOverDown: real, i: nat, j: nat)
    requires p.isCall && assetPrice > 0.0 && upOverDown >= 1.0 && i <= j
    requires NodePrice(assetPrice, upOverDown, i) > p.strike
    ensures NodePrice(assetPrice, upOverDown, j) > p.strike
    ensures NodePayoff(p, NodePrice(assetPrice, upOverDown, j)) == NodePrice(assetPrice, upOverDown, j) - p.payoffStrike
  {
    NodePricesRise(assetPrice, upOverDown, i, j);
  }

  /** With non-negative discount and probabilities, the backward step is
      monotone: larger successor values give larger values. */
  lemma BackStepMonotone(discount: real, up: real, down: real, lo: seq<real>, hi: seq<real>, steps: nat)
    requires discount >= 0.0 && up >= 0.0 && down >= 0.0
    requires |lo| == |hi| >= steps + 2
    requires forall k :: 0 <= k < |lo| ==> lo[k] <= hi[k]
    ensures forall j :: 0 <= j < steps + 1 ==>
      BackStep(discount, up, down, lo, steps)[j] <= BackStep(discount, up, down, hi, steps)[j]
  {
    forall j | 0 <= j < steps + 1
      ensures BackStep(discount, up, down, lo, steps)[j] <= BackStep(discount, up, down, hi, steps)[j]
    {
      assert up * lo[j + 1] <= up * hi[j + 1];
      assert down * lo[j] <= down * hi[j];
      assert up * lo[j + 1] + down * lo[j] <= up * hi[j + 1] + down * hi[j];
    }
  }

  /** When the probabilities sum to one, a flat set of values steps back to
      the same flat level, discounted. */
  lemma BackStepOfConstant(discount: real, up: real, down: real, values: seq<real>, steps: nat, c: real)
    requires up + down == 1.0
    requires |values| >= steps + 2
    requires forall k :: 0 <= k < |values| ==> values[k] == c
    ensures forall j :: 0 <= j < steps + 1 ==> BackStep(discount, up, down, values, steps)[j] == discount * c
  {
    forall j | 0 <= j < steps + 1
      ensures BackStep(discount, up, down, values, steps)[j] == discount * c
    {
      assert up * c + down * c == (up + down) * c;
    }
  }
}
