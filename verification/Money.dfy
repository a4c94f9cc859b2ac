/**
 * Amounts of money (control/acquisition.py, lines 51-132; control/services/agentgigs.py, lines
 * 181-206; control/economics.py, lines 29-51) over exact numbers: the precision of the decimal
 * context is not modelled, the rounding to cents is.
 */
module Money {
  import opened Prelude

  // ---------------------------------------------------------------- rounding

  /** The nearest integer, half away from zero. */
  function HalfUp(x: real): int {
    if x >= 0.0 then (x + 0.5).Floor else -(0.5 - x).Floor
  }

  /** How many units of 1/scale an amount is. */
  function Units(v: real, scale: nat): real {
    v * scale as real
  }

  /** ROUND_HALF_UP to a multiple of 1/scale. */
  function Quantized(v: real, scale: nat): real
    requires scale > 0
  {
    HalfUp(Units(v, scale)) as real / scale as real
  }

  const CENTS := 100

  function Cents(v: real): real {
    Quantized(v, CENTS)
  }

  function Abs(v: real): (r: real)
    ensures r >= 0.0 && (r == v || r == -v)
  {
    if v < 0.0 then -v else v
  }

  predicate IsWhole(x: real) {
    x == x.Floor as real
  }

  predicate IsMultiple(v: real, scale: nat) {
    IsWhole(Units(v, scale))
  }

  lemma HalfUpIsNear(x: real)
    ensures Abs(HalfUp(x) as real - x) <= 0.5
    ensures Abs(HalfUp(x) as real - x) == 0.5 ==> Abs(HalfUp(x) as real) > Abs(x)
    ensures IsWhole(HalfUp(x) as real)
  {
  }

  lemma HalfUpOrder(x: real, y: real)
    requires x <= y
    ensures HalfUp(x) <= HalfUp(y)
  {
  }

  lemma HalfUpIsMonotone(x: real, y: real)
    requires x <= y
    ensures HalfUp(x) as real <= HalfUp(y) as real
  {
    HalfUpOrder(x, y);
    hide HalfUp;
  }

  lemma HalfUpOfWhole(x: real)
    requires IsWhole(x)
    ensures HalfUp(x) as real == x
  {
    HalfUpOfInt(x.Floor);
    hide HalfUp;
  }

  lemma HalfUpOfInt(k: int)
    ensures HalfUp(k as real) == k
  {
  }

  lemma UnitsOfQuantized(v: real, scale: nat)
    requires scale > 0
    ensures Units(Quantized(v, scale), scale) == HalfUp(Units(v, scale)) as real
  {
  }

  lemma UnitsKeepOrder(a: real, b: real, scale: nat)
    requires scale > 0
    ensures Units(a, scale) <= Units(b, scale) <==> a <= b
    ensures Units(a - b, scale) == Units(a, scale) - Units(b, scale)
  {
  }

  lemma UnitsOfAbs(v: real, scale: nat)
    ensures Units(Abs(v), scale) == Abs(Units(v, scale))
  {
  }

  /** The result is a multiple of the unit, at most half a unit away, and farther from zero on a tie. */
  lemma RoundsToNearest(v: real, scale: nat)
    requires scale > 0
    ensures var q := Quantized(v, scale);
            && IsMultiple(q, scale)
            && Units(Abs(q - v), scale) <= 0.5
            && (Units(Abs(q - v), scale) == 0.5 ==> Abs(q) > Abs(v))
  {
    hide Quantized, Units, HalfUp, IsWhole, Abs;
    var q := Quantized(v, scale);
    UnitsOfQuantized(v, scale);
    HalfUpIsNear(Units(v, scale));
    UnitsKeepOrder(q, v, scale);
    UnitsOfAbs(q - v, scale);
    UnitsOfAbs(q, scale);
    UnitsOfAbs(v, scale);
    UnitsKeepOrder(Abs(q), Abs(v), scale);
  }

  /** Larger amounts never round to smaller ones. */
  lemma RoundingIsMonotone(a: real, b: real, scale: nat)
    requires scale > 0 && a <= b
    ensures Quantized(a, scale) <= Quantized(b, scale)
  {
    hide Quantized, Units, HalfUp;
    UnitsKeepOrder(a, b, scale);
    HalfUpIsMonotone(Units(a, scale), Units(b, scale));
    UnitsOfQuantized(a, scale);
    UnitsOfQuantized(b, scale);
    UnitsKeepOrder(Quantized(a, scale), Quantized(b, scale), scale);
  }

  /** Rounded amounts stay as they are. */
  lemma RoundingIsIdempotent(v: real, scale: nat)
    requires scale > 0 && IsMultiple(v, scale)
    ensures Quantized(v, scale) == v
  {
    hide Quantized, Units, HalfUp, IsWhole;
    UnitsOfQuantized(v, scale);
    HalfUpOfWhole(Units(v, scale));
    UnitsKeepOrder(v, Quantized(v, scale), scale);
    UnitsKeepOrder(Quantized(v, scale), v, scale);
  }

  // ---------------------------------------------------------------- the paid-cost envelope

  datatype Reason =
    | EconomicInputInvalid
    | SafetyCeilingInvalid
    | ContingencyInvalid
    | NetProfitNotPositive
    | RiskAdjustedProfitNotPositive
    | EmergencyCeilingExceeded
    | ExceedsProfitableEnvelope

  datatype Costs = Costs(gross: real, fee: real, genx: real, external: real, operational: real, riskAdjusted: real,
                         minimumProfit: real, ceiling: real, contingency: real)

  datatype Envelope = Envelope(reasons: seq<Reason>, expected: real, supported: real, approved: real, netProfit: real)

  function Min(a: real, b: real): real { if a < b then a else b }

  function Max(a: real, b: real): real { if a > b then a else b }

  predicate InputInvalid(c: Costs) {
    c.gross < 0.0 || c.fee < 0.0 || c.genx < 0.0 || c.external < 0.0 || c.operational < 0.0 || c.minimumProfit < 0.0
    || c.gross <= 0.0 || c.fee > c.gross
  }

  function Expected(c: Costs): real {
    c.genx + c.external + c.operational
  }

  function Supported(c: Costs): real {
    Max(0.0, c.gross - c.fee - c.minimumProfit)
  }

  function NetProfit(c: Costs): real {
    c.gross - c.fee - Expected(c)
  }

  function Times(v: real, factor: real): real {
    v * factor
  }

  function Planned(c: Costs): real {
    Times(Expected(c), 1.0 + Max(0.0, Min(1.0, c.contingency)))
  }

  function Approved(c: Costs): real {
    Max(0.0, Min(Min(Planned(c), Supported(c)), c.ceiling))
  }

  method EnvelopeReasons(c: Costs) returns (reasons: seq<Reason>)
    ensures forall r :: r in reasons <==>
              match r
              case EconomicInputInvalid => InputInvalid(c)
              case SafetyCeilingInvalid => c.ceiling <= 0.0
              case ContingencyInvalid => c.contingency < 0.0 || c.contingency > 1.0
              case NetProfitNotPositive => NetProfit(c) <= c.minimumProfit
              case RiskAdjustedProfitNotPositive => c.riskAdjusted <= c.minimumProfit
              case EmergencyCeilingExceeded => Expected(c) > c.ceiling
              case ExceedsProfitableEnvelope => Supported(c) < Expected(c) <= c.ceiling
  {
    reasons := [];
    if InputInvalid(c) {
      reasons := reasons + [EconomicInputInvalid];
    }
    if c.ceiling <= 0.0 {
      reasons := reasons + [SafetyCeilingInvalid];
    }
    if c.contingency < 0.0 || c.contingency > 1.0 {
      reasons := reasons + [ContingencyInvalid];
    }
    if NetProfit(c) <= c.minimumProfit {
      reasons := reasons + [NetProfitNotPositive];
    }
    if c.riskAdjusted <= c.minimumProfit {
      reasons := reasons + [RiskAdjustedProfitNotPositive];
    }
    if Expected(c) > c.ceiling {
      reasons := reasons + [EmergencyCeilingExceeded];
    } else if Expected(c) > Supported(c) {
      reasons := reasons + [ExceedsProfitableEnvelope];
    }
  }

  /** Sensible inputs, and a job that earns more than the minimum within the ceiling. */
  predicate Affordable(c: Costs) {
    && !InputInvalid(c) && c.ceiling > 0.0 && 0.0 <= c.contingency <= 1.0
    && NetProfit(c) > c.minimumProfit && c.riskAdjusted > c.minimumProfit && Expected(c) <= c.ceiling
  }

  /** The budget is allowed exactly for an affordable job: the profitable-envelope check never decides alone. */
  method PaidCostEnvelope(c: Costs) returns (e: Envelope)
    ensures e.reasons == [] <==> Affordable(c)
    ensures e.expected == Expected(c) && e.supported == Supported(c) && e.netProfit == NetProfit(c)
              && e.approved == Approved(c)
    ensures ExceedsProfitableEnvelope in e.reasons ==> NetProfitNotPositive in e.reasons
  {
    hide InputInvalid, Planned, Expected;
    var reasons := EnvelopeReasons(c);
    if reasons != [] { assert reasons[0] in reasons; }
    InvalidInput(c);
    assert EconomicInputInvalid !in reasons && SafetyCeilingInvalid !in reasons && ContingencyInvalid !in reasons
        && NetProfitNotPositive !in reasons && RiskAdjustedProfitNotPositive !in reasons
        && EmergencyCeilingExceeded !in reasons
        <==> Affordable(c);
    e := Envelope(reasons, Expected(c), Supported(c), Approved(c), NetProfit(c));
  }

  lemma InvalidInput(c: Costs)
    ensures c.minimumProfit < 0.0 ==> InputInvalid(c)
  {
  }

  /** What makes a job affordable, in terms of its figures alone. */
  lemma AffordableIff(c: Costs)
    ensures var paid := c.genx + c.external + c.operational;
            Affordable(c) <==>
              && c.gross > 0.0 && 0.0 <= c.fee <= c.gross
              && c.genx >= 0.0 && c.external >= 0.0 && c.operational >= 0.0 && c.minimumProfit >= 0.0
              && c.ceiling > 0.0 && 0.0 <= c.contingency <= 1.0
              && c.gross > c.fee + paid + c.minimumProfit
              && c.riskAdjusted > c.minimumProfit && paid <= c.ceiling
    ensures InputInvalid(c) <==>
              || c.gross <= 0.0 || c.fee < 0.0 || c.fee > c.gross
              || c.genx < 0.0 || c.external < 0.0 || c.operational < 0.0 || c.minimumProfit < 0.0
  {
  }

  /**
   * The budget: the expected cost with its contingency, capped by what the job supports and by the ceiling,
   * never negative.
   */
  lemma ApprovedIsLeast(c: Costs)
    ensures var paid := c.genx + c.external + c.operational;
            var rest := c.gross - c.fee - c.minimumProfit;
            var share := if c.contingency < 0.0 then 0.0 else if c.contingency > 1.0 then 1.0 else c.contingency;
            var approved, planned := Approved(c), Times(paid, 1.0 + share);
            && 0.0 <= approved
            && (approved > 0.0 ==>
                  && approved <= planned && approved <= rest && approved <= c.ceiling
                  && (approved == planned || approved == rest || approved == c.ceiling))
            && (approved == 0.0 ==> planned <= 0.0 || rest <= 0.0 || c.ceiling <= 0.0)
  {
    hide Times;
  }

  /** An allowed budget covers the expected cost, stays under the ceiling and never eats into the minimum profit. */
  lemma AllowedBudgetKeepsProfit(c: Costs)
    requires Affordable(c)
    ensures Expected(c) <= Approved(c) <= Min(Supported(c), c.ceiling)
    ensures c.gross - c.fee - Approved(c) >= c.minimumProfit
    ensures Approved(c) <= 2.0 * Expected(c)
  {
    PlannedCovers(c);
    hide Planned;
  }

  lemma PlannedCovers(c: Costs)
    requires Expected(c) >= 0.0
    ensures Expected(c) <= Planned(c) <= 2.0 * Expected(c)
  {
  }

  lemma TimesWithin(v: real, low: real, factor: real, high: real)
    requires v >= 0.0 && low <= factor <= high
    ensures low * v <= Times(v, factor) <= high * v
  {
  }

  // ---------------------------------------------------------------- offers

  /** A budget field in cents, if it is a number that is not negative, in dollars. */
  function Budget(cents: Option<real>): Option<real> {
    if cents.None? || cents.value < 0.0 then None else Some(Cents(cents.value / 100.0))
  }

  /** A budget in dollars is the nearest cent to a hundredth of the field; a negative or missing field is none. */
  lemma BudgetIs(cents: Option<real>)
    ensures Budget(cents) == None <==> cents == None || cents.value < 0.0
    ensures cents.Some? && cents.value >= 0.0 ==>
              && IsMultiple(Budget(cents).value, 100)
              && Abs(Units(Budget(cents).value, 100) - cents.value) <= 0.5
  {
    if cents.Some? && cents.value >= 0.0 {
      RoundsToNearest(cents.value / 100.0, CENTS);
      RoundedDistance(cents.value / 100.0);
    }
  }

  lemma RoundedDistance(v: real)
    ensures Abs(Units(Cents(v), 100) - v * 100.0) <= 0.5
  {
    HalfUpIsNear(Units(v, 100));
  }

  function RecommendedOffer(low: Option<real>, high: Option<real>, reward: real, position: real): real {
    var minimum, maximum := Budget(low), Budget(high);
    if minimum.None? && maximum.None? then Cents(reward)
    else
      var a := if minimum.None? then maximum.value else minimum.value;
      var b := if maximum.None? then minimum.value else maximum.value;
      var least, most := Min(a, b), Max(a, b);
      Cents(least + Times(most - least, Min(1.0, Max(0.0, position))))
  }

  /** Rounding a point between two whole amounts of cents stays between them. */
  lemma BetweenCents(least: real, most: real, t: real)
    requires IsMultiple(least, CENTS) && IsMultiple(most, CENTS) && least <= most && 0.0 <= t <= 1.0
    ensures var offer := Cents(least + Times(most - least, t)); least <= offer <= most && IsMultiple(offer, CENTS)
  {
    hide Quantized, IsMultiple, Units, Times;
    TimesWithin(most - least, 0.0, t, 1.0);
    var exact := least + Times(most - least, t);
    RoundsToNearest(exact, CENTS);
    RoundingIsIdempotent(least, CENTS);
    RoundingIsIdempotent(most, CENTS);
    RoundingIsMonotone(least, exact, CENTS);
    RoundingIsMonotone(exact, most, CENTS);
  }

  lemma BudgetIsCents(cents: Option<real>)
    ensures Budget(cents).Some? ==> IsMultiple(Budget(cents).value, CENTS)
  {
  }

  /** An offer is a whole number of cents between the two budget bounds, in either order. */
  lemma OfferStaysInBudget(low: Option<real>, high: Option<real>, reward: real, position: real)
    ensures var offer := RecommendedOffer(low, high, reward, position);
            var minimum, maximum := Budget(low), Budget(high);
            && IsMultiple(offer, CENTS)
            && (minimum.Some? && maximum.Some? ==>
                Min(minimum.value, maximum.value) <= offer <= Max(minimum.value, maximum.value))
            && (minimum.Some? && maximum.None? ==> offer == minimum.value)
            && (minimum.None? && maximum.Some? ==> offer == maximum.value)
  {
    hide Quantized, IsMultiple, Budget, Cents, Times;
    BudgetIsCents(low);
    BudgetIsCents(high);
    RewardCents(reward);
    var minimum, maximum := Budget(low), Budget(high);
    if minimum.Some? || maximum.Some? {
      var a := if minimum.None? then maximum.value else minimum.value;
      var b := if maximum.None? then minimum.value else maximum.value;
      BetweenCents(Min(a, b), Max(a, b), Min(1.0, Max(0.0, position)));
    }
  }

  lemma RewardCents(reward: real)
    ensures IsMultiple(Cents(reward), CENTS)
  {
  }

  // ---------------------------------------------------------------- scores

  datatype Economics = Economics(gross: real, fee: real, acquire: real, accept: real, payment: real, genx: real,
                                 external: real,
                                 compute: real, opportunity: real, minutes: real)

  datatype Score = Score(net: real, cash: real, profit: real, perMinute: real, perCredit: Option<real>)

  datatype ScoreError = BadProbability | BadMinutes

  predicate Probability(p: real) {
    0.0 <= p <= 1.0
  }

  function ExactCash(i: Economics): real {
    (i.gross - i.fee) * i.acquire * i.accept * i.payment
  }

  function ExactProfit(i: Economics): real {
    ExactCash(i) - i.genx - i.external - i.compute - i.opportunity
  }

  predicate Scorable(i: Economics) {
    Probability(i.acquire) && Probability(i.accept) && Probability(i.payment) && i.minutes > 0.0
  }

  function ScoreJob(i: Economics): (r: Result<Score, ScoreError>)
    ensures r.Ok? <==> Scorable(i)
  {
    if !Probability(i.acquire) || !Probability(i.accept) || !Probability(i.payment) then Err(BadProbability)
    else if i.minutes <= 0.0 then Err(BadMinutes)
    else
      Ok(Score(Cents(i.gross - i.fee), Cents(ExactCash(i)), Cents(ExactProfit(i)), Cents(ExactProfit(i) / i.minutes),
               if i.genx <= 0.0 then None else Some(Quantized(ExactProfit(i) / i.genx, 10000))))
  }

  /** The exact figures behind the score: the probable share of the net reward, and that less the four costs. */
  lemma ExactFigures(i: Economics)
    ensures ExactCash(i) == (i.gross - i.fee) * i.acquire * i.accept * i.payment
    ensures ExactProfit(i) + i.genx + i.external + i.compute + i.opportunity == ExactCash(i)
    ensures Scorable(i) <==>
              && 0.0 <= i.acquire <= 1.0 && 0.0 <= i.accept <= 1.0 && 0.0 <= i.payment <= 1.0 && i.minutes > 0.0
    ensures ScoreJob(i) == Err(BadProbability) <==>
              !(0.0 <= i.acquire <= 1.0 && 0.0 <= i.accept <= 1.0 && 0.0 <= i.payment <= 1.0)
  {
    hide Quantized;
  }

  /** The other four figures are whole cents. */
  lemma FiguresAreCents(i: Economics)
    requires Scorable(i)
    ensures var s := ScoreJob(i).value;
            && IsMultiple(s.net, 100) && IsMultiple(s.cash, 100)
            && IsMultiple(s.profit, 100) && IsMultiple(s.perMinute, 100)
  {
    RoundsToNearest(i.gross - i.fee, 100);
    RoundsToNearest(ExactCash(i), 100);
    RoundsToNearest(ExactProfit(i), 100);
    RoundsToNearest(ExactProfit(i) / i.minutes, 100);
    hide Quantized, IsMultiple, ExactProfit, ExactCash;
  }

  /** The profit per credit is rounded to four places. */
  lemma PerCreditIsNear(i: Economics)
    requires Scorable(i) && i.genx > 0.0
    ensures var per := ScoreJob(i).value.perCredit;
            && per.Some? && Abs(Units(per.value, 10000) - ExactProfit(i) / i.genx * 10000.0) <= 0.5
            && IsMultiple(per.value, 10000)
  {
    HalfUpIsNear(Units(ExactProfit(i) / i.genx, 10000));
    RoundsToNearest(ExactProfit(i) / i.genx, 10000);
    hide HalfUp, ExactProfit;
  }

  /** With a net reward that is not negative, raising any of the probabilities never lowers the expected cash. */
  lemma CashIsMonotone(i: Economics, j: Economics)
    requires Scorable(i) && Scorable(j) && i.gross == j.gross && i.fee == j.fee && i.gross >= i.fee
    requires i.acquire <= j.acquire && i.accept <= j.accept && i.payment <= j.payment
    ensures ScoreJob(i).value.cash <= ScoreJob(j).value.cash
    ensures 0.0 <= ScoreJob(i).value.cash <= ScoreJob(i).value.net
  {
    var n := i.gross - i.fee;
    hide Quantized;
    Raised(n, i.acquire, j.acquire);
    Raised2(n * i.acquire, n * j.acquire, i.accept, j.accept);
    Raised2(n * i.acquire * i.accept, n * j.acquire * j.accept, i.payment, j.payment);
    RoundingIsMonotone(ExactCash(i), ExactCash(j), CENTS);
    Raised(n, i.acquire, 1.0);
    Raised2(n * i.acquire, n, i.accept, 1.0);
    Raised2(n * i.acquire * i.accept, n, i.payment, 1.0);
    RoundingIsMonotone(ExactCash(i), n, CENTS);
    RoundingIsMonotone(0.0, ExactCash(i), CENTS);
    RoundedZero();
  }

  lemma RoundedZero()
    ensures Quantized(0.0, CENTS) == 0.0
  {
  }

  lemma Raised(n: real, p: real, q: real)
    requires n >= 0.0 && 0.0 <= p <= q
    ensures 0.0 <= n * p <= n * q
  {
  }

  lemma Raised2(a: real, b: real, p: real, q: real)
    requires 0.0 <= a <= b && 0.0 <= p <= q
    ensures 0.0 <= a * p <= b * q
  {
  }

  /** Every reported figure is within half a unit in its last place of the exact one. */
  lemma ScoresAreNearExact(i: Economics)
    requires Scorable(i)
    ensures var s := ScoreJob(i).value;
            && Units(Abs(s.net - (i.gross - i.fee)), CENTS) <= 0.5
            && Units(Abs(s.cash - ExactCash(i)), CENTS) <= 0.5
            && Units(Abs(s.profit - ExactProfit(i)), CENTS) <= 0.5
            && Units(Abs(s.perMinute - ExactProfit(i) / i.minutes), CENTS) <= 0.5
            && (s.perCredit.Some? <==> i.genx > 0.0)
            && (s.perCredit.Some? ==> Units(Abs(s.perCredit.value - ExactProfit(i) / i.genx), 10000) <= 0.5)
  {
    hide Quantized, ExactProfit, ExactCash, Units, IsMultiple, Abs;
    RoundsToNearest(i.gross - i.fee, CENTS);
    RoundsToNearest(ExactCash(i), CENTS);
    RoundsToNearest(ExactProfit(i), CENTS);
    RoundsToNearest(ExactProfit(i) / i.minutes, CENTS);
    if i.genx > 0.0 { RoundsToNearest(ExactProfit(i) / i.genx, 10000); }
  }
}
