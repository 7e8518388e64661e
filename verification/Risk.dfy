/** The deterministic risk engine, over exact reals. */
module Risk {
  import opened Domain

  datatype Reason =
    | Pass | PolicyVersionMismatch | BuyOnly | IntentExpired | IntentTooOld | PortfolioStale
    | InvalidAmount | InvalidPriceOrder | DeviationTooLarge | RiskRewardTooLow
    | InvalidRiskFraction | NoCapacity | ExceedsLimits

  datatype Decision = Decision(approved: bool, reason: Reason, maxQuote: real)

  function Deny(reason: Reason): Decision { Decision(false, reason, 0.0) }

  function Abs(x: real): real { if x < 0.0 then -x else x }

  /** Share of the position lost if it is entered at the reference price and stopped out. */
  function RiskFraction(i: TradeIntent): real
    requires i.referenceEntryPrice != 0.0
  {
    (i.referenceEntryPrice - i.stopPrice) / i.referenceEntryPrice
  }

  /** What the policy makes of a portfolio: the figures every amount is held against. */
  datatype Limits = Limits(capital: real, exposure: real, currentExposure: real, balance: real, maxLoss: real)

  function LimitsOf(p: RiskPolicy, f: Portfolio): Limits {
    Limits(f.portfolioValue * p.maxPositionAllocationPct, f.portfolioValue * p.maxPortfolioExposurePct,
           f.currentExposure, f.quoteBalance, f.portfolioValue * p.maxRiskPerTradePct)
  }

  /** The tightest of the allocation, exposure, balance and risk caps. */
  function QuoteCap(l: Limits, riskFraction: real): real
    requires riskFraction > 0.0
  {
    Min(Min(l.capital, Max(l.exposure - l.currentExposure, 0.0)), Min(l.balance, l.maxLoss / riskFraction))
  }

  predicate NearMarket(p: RiskPolicy, i: TradeIntent, price: real)
    requires i.referenceEntryPrice != 0.0
  {
    var deviation := Abs(price - i.referenceEntryPrice) / i.referenceEntryPrice;
    deviation <= Min(i.maxEntryDeviationPct, p.maxEntryDeviationPct)
  }

  predicate WorthTheRisk(p: RiskPolicy, i: TradeIntent)
    requires i.stopPrice < i.referenceEntryPrice
  {
    (i.takeProfitPrice - i.referenceEntryPrice) / (i.referenceEntryPrice - i.stopPrice) >= p.minRiskReward
  }

  /** A reference price of zero passes the ordering check and then divides by zero. */
  function Evaluate(p: RiskPolicy, i: TradeIntent, f: Portfolio, price: real, now: int): Result<Decision> {
    if i.riskPolicyVersion != p.version then Ok(Deny(PolicyVersionMismatch))
    else if i.side != Buy then Ok(Deny(BuyOnly))
    else if now >= i.expiresAt then Ok(Deny(IntentExpired))
    else if now - i.createdAt > p.maxIntentAge * SECOND then Ok(Deny(IntentTooOld))
    else if f.reconciledAt.Some? && now - f.reconciledAt.value > p.maxReconciliationAge * SECOND
      then Ok(Deny(PortfolioStale))
    else if i.quoteAmount <= 0.0 || f.portfolioValue <= 0.0 then Ok(Deny(InvalidAmount))
    else if !(i.stopPrice < i.referenceEntryPrice < i.takeProfitPrice) then Ok(Deny(InvalidPriceOrder))
    else if i.referenceEntryPrice == 0.0 then Err(Faulted)
    else
      if !NearMarket(p, i, price) then Ok(Deny(DeviationTooLarge))
      else if !WorthTheRisk(p, i) then Ok(Deny(RiskRewardTooLow))
      else
        var riskFraction := RiskFraction(i);
        if riskFraction <= 0.0 then Ok(Deny(InvalidRiskFraction))
        else
          var maxQuote := QuoteCap(LimitsOf(p, f), riskFraction);
          if maxQuote <= 0.0 then Ok(Deny(NoCapacity))
          else if i.quoteAmount > maxQuote then Ok(Decision(false, ExceedsLimits, maxQuote))
          else Ok(Decision(true, Pass, maxQuote))
  }

  predicate Approves(p: RiskPolicy, i: TradeIntent, f: Portfolio, price: real, now: int) {
    var r := Evaluate(p, i, f, price, now);
    r.Ok? && r.value.approved
  }

  /** The intent itself may be acted on now. */
  predicate Admissible(p: RiskPolicy, i: TradeIntent, f: Portfolio, now: int) {
    && i.riskPolicyVersion == p.version && i.side == Buy && now < i.expiresAt
    && now - i.createdAt <= p.maxIntentAge * SECOND
    && (f.reconciledAt.Some? ==> now - f.reconciledAt.value <= p.maxReconciliationAge * SECOND)
  }

  /** The limits as a holder of the portfolio would state them: what holds after the trade. */
  predicate WithinLimits(l: Limits, amount: real, riskFraction: real) {
    && amount <= l.capital
    && l.currentExposure + amount <= l.exposure
    && amount <= l.balance
    && amount * riskFraction <= l.maxLoss
  }

  /** The prices are in order, near enough to the market, and worth the risk. */
  predicate WellPriced(p: RiskPolicy, i: TradeIntent, price: real) {
    && i.stopPrice < i.referenceEntryPrice < i.takeProfitPrice
    && Abs(price - i.referenceEntryPrice) <= i.maxEntryDeviationPct * i.referenceEntryPrice
    && Abs(price - i.referenceEntryPrice) <= p.maxEntryDeviationPct * i.referenceEntryPrice
    && i.takeProfitPrice - i.referenceEntryPrice >= p.minRiskReward * (i.referenceEntryPrice - i.stopPrice)
  }

  lemma Cancel(a: real, b: real, c: real)
    requires c > 0.0
    ensures a <= b <==> a * c <= b * c
  {
    assert (b - a) * c == b * c - a * c;
  }

  lemma QuotientVersus(a: real, b: real, c: real)
    requires b > 0.0
    ensures a / b <= c <==> a <= c * b
    ensures c <= a / b <==> c * b <= a
  {
    assert a / b * b == a;
    Cancel(a / b, c, b);
    Cancel(c, a / b, b);
  }

  lemma WellPricedIff(p: RiskPolicy, i: TradeIntent, price: real)
    requires i.referenceEntryPrice > 0.0 && i.stopPrice < i.referenceEntryPrice < i.takeProfitPrice
    ensures WellPriced(p, i, price) <==> NearMarket(p, i, price) && WorthTheRisk(p, i)
  {
    var ref := i.referenceEntryPrice;
    QuotientVersus(Abs(price - ref), ref, i.maxEntryDeviationPct);
    QuotientVersus(Abs(price - ref), ref, p.maxEntryDeviationPct);
    QuotientVersus(i.takeProfitPrice - ref, ref - i.stopPrice, p.minRiskReward);
  }

  lemma RiskFractionPositive(i: TradeIntent)
    requires i.referenceEntryPrice > 0.0 && i.stopPrice < i.referenceEntryPrice
    ensures RiskFraction(i) > 0.0 && RiskFraction(i) * i.referenceEntryPrice == i.referenceEntryPrice - i.stopPrice
  {
    QuotientVersus(i.referenceEntryPrice - i.stopPrice, i.referenceEntryPrice, 0.0);
  }

  /** A positive amount fits under the cap exactly when every limit holds after the trade. */
  lemma CapMeansLimits(l: Limits, amount: real, riskFraction: real)
    requires riskFraction > 0.0 && amount > 0.0
    ensures amount <= QuoteCap(l, riskFraction) <==> WithinLimits(l, amount, riskFraction)
  {
    QuotientVersus(l.maxLoss, riskFraction, amount);
  }

  /** Approval means exactly that the intent is for this policy, to buy, and neither expired nor too old, the
      portfolio fresh, the prices in order, near the market and worth the risk, and that the allocation, the exposure
      and the balance hold the amount, and the risk budget the loss at the stop. */
  lemma ApprovedIff(p: RiskPolicy, i: TradeIntent, f: Portfolio, price: real, now: int)
    ensures Approves(p, i, f, price, now) <==>
              && i.riskPolicyVersion == p.version && i.side == Buy && now < i.expiresAt
              && now - i.createdAt <= p.maxIntentAge * 1_000_000
              && (f.reconciledAt.Some? ==> now - f.reconciledAt.value <= p.maxReconciliationAge * 1_000_000)
              && i.quoteAmount > 0.0 && f.portfolioValue > 0.0 && i.referenceEntryPrice > 0.0
              && i.stopPrice < i.referenceEntryPrice < i.takeProfitPrice
              && Abs(price - i.referenceEntryPrice) <= i.maxEntryDeviationPct * i.referenceEntryPrice
              && Abs(price - i.referenceEntryPrice) <= p.maxEntryDeviationPct * i.referenceEntryPrice
              && i.takeProfitPrice - i.referenceEntryPrice >= p.minRiskReward * (i.referenceEntryPrice - i.stopPrice)
              && i.quoteAmount <= f.portfolioValue * p.maxPositionAllocationPct
              && f.currentExposure + i.quoteAmount <= f.portfolioValue * p.maxPortfolioExposurePct
              && i.quoteAmount <= f.quoteBalance
              && i.quoteAmount * ((i.referenceEntryPrice - i.stopPrice) / i.referenceEntryPrice)
                   <= f.portfolioValue * p.maxRiskPerTradePct
  {
    hide Approves, Abs, QuoteCap;
    ApprovedWithin(p, i, f, price, now);
  }

  lemma ApprovedWithin(p: RiskPolicy, i: TradeIntent, f: Portfolio, price: real, now: int)
    ensures Approves(p, i, f, price, now) <==>
              && Admissible(p, i, f, now) && i.quoteAmount > 0.0 && f.portfolioValue > 0.0
              && i.referenceEntryPrice > 0.0
              && WellPriced(p, i, price) && WithinLimits(LimitsOf(p, f), i.quoteAmount, RiskFraction(i))
  {
    if i.stopPrice < i.referenceEntryPrice < i.takeProfitPrice && i.referenceEntryPrice < 0.0 {
      QuotientVersus(i.referenceEntryPrice - i.stopPrice, -i.referenceEntryPrice, 0.0);
      assert RiskFraction(i) == -((i.referenceEntryPrice - i.stopPrice) / -i.referenceEntryPrice);
    } else if i.stopPrice < i.referenceEntryPrice < i.takeProfitPrice && i.referenceEntryPrice > 0.0 {
      WellPricedIff(p, i, price);
      RiskFractionPositive(i);
      if i.quoteAmount > 0.0 { CapMeansLimits(LimitsOf(p, f), i.quoteAmount, RiskFraction(i)); }
    }
  }

  /** Filled at the fresh price and stopped out, an approved trade loses at most the policy's
      risk share of the portfolio plus the allowed deviation on the amount traded. */
  lemma LossAtStopIsBounded(p: RiskPolicy, i: TradeIntent, f: Portfolio, price: real, now: int)
    requires i.referenceEntryPrice > 0.0 && price > 0.0 && i.stopPrice >= 0.0
    requires Approves(p, i, f, price, now)
    ensures LossAtStop(i.quoteAmount, price, i.stopPrice)
              <= f.portfolioValue * p.maxRiskPerTradePct
                 + i.quoteAmount * Min(i.maxEntryDeviationPct, p.maxEntryDeviationPct)
  {
    ApprovedWithin(p, i, f, price, now);
    LossOfWellPriced(p, i, price, LimitsOf(p, f));
  }

  lemma LossOfWellPriced(p: RiskPolicy, i: TradeIntent, price: real, l: Limits)
    requires i.referenceEntryPrice > 0.0 && price > 0.0 && i.stopPrice >= 0.0 && i.quoteAmount > 0.0
    requires WellPriced(p, i, price) && WithinLimits(l, i.quoteAmount, RiskFraction(i))
    ensures LossAtStop(i.quoteAmount, price, i.stopPrice)
              <= l.maxLoss + i.quoteAmount * Min(i.maxEntryDeviationPct, p.maxEntryDeviationPct)
  {
    LossFromFigures(i.quoteAmount, price, i.referenceEntryPrice, i.stopPrice, i.maxEntryDeviationPct,
                    p.maxEntryDeviationPct, l.maxLoss);
  }

  function LossAtStop(amount: real, price: real, stop: real): real
    requires price > 0.0
  {
    amount / price * (price - stop)
  }

  lemma LossFromFigures(q: real, price: real, ref: real, stop: real, dev1: real, dev2: real, maxLoss: real)
    requires q > 0.0 && price > 0.0 && 0.0 <= stop < ref
    requires Abs(price - ref) <= Times(dev1, ref) && Abs(price - ref) <= Times(dev2, ref)
    requires Times(q, (ref - stop) / ref) <= maxLoss
    ensures LossAtStop(q, price, stop) <= maxLoss + Times(q, Min(dev1, dev2))
  {
    hide Times, LossAtStop;
    var dev := Min(dev1, dev2);
    DeviationCost(stop, price, price - ref, Times(dev, ref));
    LossFromCost(q, price, ref, stop, dev, maxLoss);
  }

  lemma LossFromCost(q: real, price: real, ref: real, stop: real, dev: real, maxLoss: real)
    requires q > 0.0 && price > 0.0 && 0.0 <= stop < ref && Times(q, (ref - stop) / ref) <= maxLoss
    requires Times(stop, price - ref) <= Times(price, Times(dev, ref))
    ensures LossAtStop(q, price, stop) <= maxLoss + Times(q, dev)
  {
    ProductOfQuotient(q, price);
    ProductOfQuotient(ref - stop, ref);
    LossArithmetic(q, q / price, price, ref, stop, (ref - stop) / ref, dev, maxLoss);
  }

  lemma ProductOfQuotient(a: real, b: real)
    requires a > 0.0 && b > 0.0
    ensures a / b * b == a && a / b > 0.0
  {
    QuotientVersus(a, b, 0.0);
  }

  lemma DeviationCost(stop: real, price: real, drift: real, allowed: real)
    requires 0.0 <= stop && price > 0.0 && 0.0 <= allowed && drift <= allowed
    requires drift > 0.0 ==> stop < price
    ensures Times(stop, drift) <= Times(price, allowed)
  {
    Cancel(drift, allowed, price);
    if drift > 0.0 {
      Cancel(stop, price, drift);
    } else {
      assert stop * -drift >= 0.0;
      assert price * allowed >= 0.0;
    }
  }

  lemma LossArithmetic(q: real, units: real, price: real, ref: real, stop: real, fraction: real, dev: real,
      maxLoss: real)
    requires ref > 0.0 && units > 0.0 && units * price == q
    requires fraction * ref == ref - stop && q * fraction <= maxLoss
    requires stop * (price - ref) <= price * (dev * ref)
    ensures units * (price - stop) <= maxLoss + q * dev
  {
    var loss, bound := units * (price - stop), maxLoss + q * dev;
    Cancel(stop * (price - ref), price * (dev * ref), units);
    Cancel(q * fraction, maxLoss, ref);
    assert units * (price * (dev * ref)) == q * dev * ref;
    assert units * (stop * (price - ref)) == q * stop - units * stop * ref;
    assert q * fraction * ref == q * ref - q * stop;
    assert loss * ref == q * ref - units * stop * ref;
    assert loss * ref <= bound * ref;
    Cancel(loss, bound, ref);
  }

  /** A positive cap in the answer is the exact boundary: with the other inputs unchanged, an
      amount is approved just when it is positive and within the cap, and the cap stands. */
  lemma CapIsTheBoundary(p: RiskPolicy, i: TradeIntent, f: Portfolio, price: real, now: int, amount: real)
    requires Evaluate(p, i, f, price, now).Ok? && Evaluate(p, i, f, price, now).value.maxQuote != 0.0
    ensures var cap := Evaluate(p, i, f, price, now).value.maxQuote;
            && cap > 0.0
            && (Approves(p, i.(quoteAmount := amount), f, price, now) <==> 0.0 < amount <= cap)
            && (amount > 0.0 ==> Evaluate(p, i.(quoteAmount := amount), f, price, now).Ok?
                                 && Evaluate(p, i.(quoteAmount := amount), f, price, now).value.maxQuote == cap)
  {
    var j := i.(quoteAmount := amount);
    assert j.referenceEntryPrice == i.referenceEntryPrice && j.stopPrice == i.stopPrice;
  }
}
