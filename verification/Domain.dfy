/** Values shared by every part of the trading core. */
module Domain {

  datatype Option<+T> = None | Some(value: T)

  /** How a call can end other than by returning.  `Crash` stands for the death of the
      process: no handler of the engine catches it, and it may strike after any durable write. */
  datatype Exn = StaleEpoch | Faulted | Ambiguous | Refused | InvalidTransition | GateClosed | Crash

  datatype Result<+T> = Ok(value: T) | Err(exn: Exn) {
    predicate IsFailure() { Err? }

    function PropagateFailure<U>(): Result<U>
      requires Err?
    {
      Err(exn)
    }

    function Extract(): T
      requires Ok?
    {
      value
    }
  }

  /** Times are microseconds since the epoch, UTC. */
  const SECOND: int := 1_000_000

  /** Identifiers and asset names: the core only ever compares them for equality. */
  type Name = int

  datatype TradeState =
    | Created | RiskApproved | Submitted | Acknowledged | PartiallyFilled | Filled
    | PartialProtectionPending | PartiallyProtected | ProtectionPending | Protected
    | UnderProtected | ExitPending | Closed | Expired | Canceled | Unknown | Reconciling
    | ProtectionFailed | EmergencyExit | Halted | Rejected

  predicate Terminal(s: TradeState) {
    s in {Closed, Rejected, Canceled, Expired}
  }

  predicate ClaimsProtection(s: TradeState) {
    s in {Protected, PartiallyProtected}
  }

  /** The states a clean cold boot may leave behind. */
  predicate Resolved(s: TradeState) {
    Terminal(s) || ClaimsProtection(s)
  }

  /** A symbol is its base asset followed by "USDT". */
  datatype Symbol = Symbol(base: Name)

  datatype Side = Buy | Sell

  datatype TradeIntent = TradeIntent(
    id: Name, strategyId: Name, strategyVersion: Name, riskPolicyVersion: int,
    symbol: Symbol, side: Side, quoteAmount: real, referenceEntryPrice: real,
    stopPrice: real, takeProfitPrice: real, maxEntryDeviationPct: real,
    createdAt: int, expiresAt: int)

  datatype Portfolio = Portfolio(
    quoteBalance: real, portfolioValue: real, currentExposure: real, reconciledAt: Option<int>)

  datatype RiskPolicy = RiskPolicy(
    version: int, maxRiskPerTradePct: real, maxPositionAllocationPct: real,
    maxPortfolioExposurePct: real, minRiskReward: real, maxEntryDeviationPct: real,
    maxIntentAge: int, maxReconciliationAge: int, maxOrdersPerHour: int,
    maxNotionalPerDayPct: real, maxConsecutiveErrors: int, emergencyExitOnUnprotected: bool)

  /** What the digest behind a client order id is taken over, apart from the suffix. */
  datatype Origin = Origin(intentId: Name, strategyId: Name, strategyVersion: Name)

  datatype Suffix = Entry | Protection | PartialProtection | EmergencyExitSale

  /** Client order ids, kept as the text that is hashed: distinct texts, distinct ids. */
  datatype ClientId = ClientId(origin: Origin, suffix: Suffix)

  function OriginOf(i: TradeIntent): Origin {
    Origin(i.id, i.strategyId, i.strategyVersion)
  }

  function ProtectionSuffix(partial: bool): Suffix {
    if partial then PartialProtection else Protection
  }

  datatype OrderStatus =
    OrderFilled | OrderPartiallyFilled | OrderCanceled | OrderExpired | OrderOther

  datatype Order = Order(
    symbol: Symbol, status: OrderStatus, requestedQuote: real, filledQty: real,
    avgPrice: real, commission: real, commissionAsset: Option<Name>)

  datatype ProtectionOrder = ProtectionOrder(symbol: Symbol, baseQty: real, active: bool)

  function Max(a: real, b: real): real { if a < b then b else a }
  function Min(a: real, b: real): real { if b < a then b else a }

  /** A product under a name of its own, so that proofs can pass it around without looking inside. */
  function Times(a: real, b: real): real { a * b }

  /** What a fill leaves in the wallet once a commission in the base asset is taken. */
  function NetQty(o: Order, symbol: Symbol): real {
    Max(0.0, if o.commissionAsset == Some(symbol.base) then o.filledQty - o.commission else o.filledQty)
  }

  function Lookup<K, V>(m: map<K, V>, k: K): Option<V> {
    if k in m then Some(m[k]) else None
  }

  lemma Member<K>(s: set<K>) returns (k: K)
    requires s != {}
    ensures k in s
  {
    k :| k in s;
  }
}
