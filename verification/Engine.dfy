/** The execution engine: one trade from intent to protection, and recovery from any interruption. */
module Engine {
  import opened Domain
  import opened StateMachine
  import opened Exchange
  import opened Ledger
  import opened Activity
  import opened BootGate
  import opened Protocol
  import opened Sums
  import Risk

  /** What the exchange can be asked for, each of which may fail on its own; a buy in two ways, by being turned
      down and by its answer being lost. */
  datatype Request =
    | PriceRead | BuySent | BuyAnswered | EntryRead | RemainderCanceled | BalanceRead | ProtectionPlaced
    | ProtectionRead | SaleSent | ExitRead

  /** How the world answers.  Hostile: any answer at all.  Faulty: honest answers, but calls may fail,
      authority may lapse and the process may die.  Calm: honest, authority and the process last, requests of
      some kinds always fail, and requests of the others never do. */
  datatype Mode = Hostile | Faulty | Calm(refused: set<Request>)

  datatype Protecting = Secured | Failed | Uncertain | Short

  class ExecutionEngine {
    const ledger: TradeLedger
    const exchange: PersistentExchange
    const idempotency: IdempotencyStore
    const activity: TradingActivityStore
    const gate: BootGate
    const policy: RiskPolicy
    const mode: Mode

    /** Whether reads of exit orders fail only when authority is lost. */
    const steadyExits: bool

    /** The notional the policy allows on one day. */
    ghost const dailyCap: real

    /** The lease epoch this engine writes under, and whether the lease still backs it. */
    var epoch: Option<nat>
    var auth: bool
    var now: int

    /** Where the current operation began, and what held there: the protocol invariant, the rule that a
        sold position only closes, and the caps. */
    ghost var began: Moment
    ghost var startedAt: int
    ghost var sound: bool
    ghost var settled: bool
    ghost var capped: bool

    /** The operation has cleared the stamp of a claim in order to withdraw it. */
    ghost var withdrawing: bool

    ghost predicate Valid()
      reads this, ledger, exchange, activity
    {
      && ledger.Valid() && exchange.Valid()
      && WriteAhead(ledger.rows, exchange.books, exchange.buyCalls)
      && UpTo(activity.log, now) && Accounted(exchange.buyCalls, activity.log)
      && (auth ==> epoch.Some?) && (epoch.Some? ==> EpochsWithin(ledger.rows, epoch.value))
    }

    constructor (ledger: TradeLedger, exchange: PersistentExchange, idempotency: IdempotencyStore,
                 activity: TradingActivityStore, gate: BootGate, policy: RiskPolicy, mode: Mode, steadyExits: bool,
                 ghost dailyCap: real, epoch: nat, now: int)
      requires ledger.Valid() && exchange.Valid() && UpTo(activity.log, now)
      requires Accounted(exchange.buyCalls, activity.log)
      requires WriteAhead(ledger.rows, exchange.books, exchange.buyCalls)
      requires EpochsWithin(ledger.rows, epoch)
      ensures Valid() && auth && this.epoch == Some(epoch) && this.now == now
      ensures this.ledger == ledger && this.exchange == exchange && this.idempotency == idempotency
      ensures this.activity == activity && this.gate == gate && this.policy == policy && this.mode == mode
      ensures this.steadyExits == steadyExits && this.dailyCap == dailyCap
    {
      this.ledger, this.exchange, this.idempotency := ledger, exchange, idempotency;
      this.activity, this.gate, this.policy, this.mode := activity, gate, policy, mode;
      this.steadyExits, this.dailyCap := steadyExits, dailyCap;
      this.epoch, this.auth, this.now := Some(epoch), true, now;
    }

    /** No more requests to buy than submissions on record: the caps on the one are caps on the other. */
    /** So many errors were put on record, and nothing else. */
    static predicate OnlyErrors(before: seq<Noted>, after: seq<Noted>, n: nat) {
      && |after| == |before| + n && after[..|before|] == before
      && forall k :: |before| <= k < |after| ==> after[k].kind == Error
    }

    static lemma ErrorsAdd(a: seq<Noted>, b: seq<Noted>, c: seq<Noted>, m: nat, n: nat)
      requires OnlyErrors(a, b, m) && OnlyErrors(b, c, n)
      ensures OnlyErrors(a, c, m + n)
    {
      assert a == b[..|a|] == c[..|b|][..|a|] == c[..|a|];
      forall k | |a| <= k < |c| ensures c[k].kind == Error {
        assert k < |b| ==> c[k] == c[..|b|][k] == b[k];
      }
    }

    static ghost predicate Accounted(calls: multiset<Name>, log: seq<Noted>) {
      |calls| <= Submissions(log)
    }

    // --- What every operation keeps ---

    ghost function Here(): Moment
      reads ledger, exchange
    {
      Moment(ledger.rows, exchange.books)
    }

    /** The invariant of the trade protocol, in an honest world. */
    ghost predicate SoundNow()
      reads ledger, exchange
    {
      mode != Hostile && Sound(ledger.rows, exchange.books, exchange.baseline)
    }

    /** The same, seen from an intent that has a row of its own. */
    ghost predicate SoundFor(i: TradeIntent)
      reads ledger, exchange
    {
      SoundNow() && i.id in ledger.rows && Matches(ledger.rows, i)
    }

    ghost predicate CapsHold(log: seq<Noted>) {
      HourlyCapHolds(log, policy.maxOrdersPerHour) && DailyCapHolds(log, dailyCap)
    }

    ghost function Pos(i: TradeIntent): Position
      reads exchange
    {
      PositionOf(exchange.books, OriginOf(i))
    }

    /** The claim of this row, if it makes one, is stamped, unless its withdrawal has begun. */
    ghost predicate Stamped(i: TradeIntent)
      reads this, ledger
    {
      || StampedSince(began.rows, ledger.rows, i.id, startedAt)
      || (withdrawing && StampCut(began.rows, ledger.rows, i.id))
    }

    /** Inside an operation on one intent. */
    ghost predicate Working(i: TradeIntent)
      reads this, ledger, exchange, activity
    {
      && Valid()
      && Moved(began, Here(), i) && Stamped(i) && startedAt <= now
      && (sound ==> SoundFor(i))
      && (settled ==> sound && steadyExits && SettledAt(ledger.rows, exchange.books, i))
      && (capped ==> CapsHold(activity.log))
    }

    lemma RowsAreFiled()
      requires Valid()
      ensures Filed(ledger.rows)
    {
    }

    lemma AuthorityHasEpoch()
      requires Valid()
      ensures auth ==> epoch.Some?
    {
    }

    lemma ClaimsKnowHowMuch(id: Name)
      requires Valid() && ClaimsAt(ledger.rows, id)
      ensures ledger.rows[id].expectedQty.Some?
    {
      assert RowOrderly(ledger.rows, id);
    }

    /** What a write to the row may rely on in any world. */
    lemma Guarded(i: TradeIntent)
      requires Working(i)
      ensures ledger.Valid() && RowOrderly(ledger.rows, i.id) && AskedOnce(ledger.rows, i.id, exchange.buyCalls)
      ensures startedAt <= now && Stamped(i)
      ensures (auth ==> epoch.Some?) && (epoch.Some? ==> EpochAtMost(ledger.rows, i.id, epoch.value))
    {
    }

    /** What an operation may rely on about its own row. */
    lemma Seen(i: TradeIntent)
      requires Working(i)
      ensures sound ==> mode != Hostile && i.id in ledger.rows && RowFits(ledger.rows[i.id], i, Pos(i))
      ensures (auth ==> epoch.Some?) && (epoch.Some? ==> EpochAtMost(ledger.rows, i.id, epoch.value))
      ensures settled ==> sound && steadyExits
      ensures settled && Pos(i).exit.Some? ==> i.id in ledger.rows && ledger.rows[i.id].state in {EmergencyExit, Closed}
    {
      if sound {
        assert RowSound(ledger.rows, i.id, exchange.books);
      }
    }

    /** The free balance backs the whole of an entry that is neither protected nor sold. */
    lemma Backed(i: TradeIntent)
      requires Working(i) && sound && Pos(i).entry.Some? && Unprotected(Pos(i)) && Pos(i).exit == None
      ensures Free(exchange.books, i.symbol) >= NetQty(Pos(i).entry.value, i.symbol)
    {
      FreeCoversEntry(ledger.rows, exchange.books, exchange.baseline, i);
    }

    /** Whether requests of this kind fail in a calm world. */
    predicate Refuses(k: Request) {
      mode.Calm? && k in mode.refused && !(steadyExits && k == ExitRead)
    }

    /** Nothing fails at all. */
    predicate Peaceful() {
      mode.Calm? && mode.refused == {}
    }

    /** Authority only ebbs inside an operation, and in a calm world it stays. */
    predicate Ebbs(before: bool, after: bool) {
      (after ==> before) && (mode.Calm? ==> after == before)
    }

    /** What cuts an operation short: the death of the process, never in a calm world, or authority that is gone. */
    predicate CutsShort(exn: Exn)
      reads this
    {
      (exn == Crash && !mode.Calm?) || (exn == StaleEpoch && !auth)
    }

    /** The sale was confirmed, but authority was gone before that could be written down; the handler then
        tries a step that the table does not have. */
    ghost predicate Cornered(i: TradeIntent)
      reads this, ledger, exchange
    {
      && policy.emergencyExitOnUnprotected && !mode.Calm? && !auth
      && RowIs(ledger.rows, i.id, EmergencyExit) && (mode != Hostile ==> Pos(i).exit.Some?)
    }

    /** What may end an operation halfway. */
    ghost predicate Stopped(i: TradeIntent, exn: Exn)
      reads this, ledger, exchange
    {
      CutsShort(exn) || (exn == InvalidTransition && Cornered(i))
    }

    /** The entry is on the exchange with this fill, neither protected nor sold. */
    ghost predicate Naked(i: TradeIntent, order: Order)
      reads exchange
    {
      Pos(i) == Position(Some(order), None, None, None)
    }

    /** The fill that a buy for this intent gets now. */
    function FillOf(i: TradeIntent): Order
      reads exchange`price, exchange`commissionRate, exchange`partialFillRatio
    {
      if exchange.price > 0.0
      then EntryOrder(i.symbol, i.quoteAmount, exchange.price, exchange.commissionRate, exchange.partialFillRatio)
      else Order(i.symbol, OrderOther, 0.0, 0.0, 0.0, 0.0, None)
    }

    /** Whether a buy for this intent leaves anything once the commission is taken. */
    predicate WorthBuying(i: TradeIntent)
      reads exchange`commissionRate, exchange`partialFillRatio
    {
      i.quoteAmount > 0.0 && exchange.partialFillRatio > 0.0 && exchange.commissionRate < 1.0
    }

    lemma FillIs(i: TradeIntent)
      requires exchange.Valid() && i.quoteAmount > 0.0
      ensures FillOf(i).status == if exchange.partialFillRatio == 1.0 then OrderFilled else OrderPartiallyFilled
      ensures Fills(FillOf(i), i.symbol) <==> WorthBuying(i)
    {
      FillLeaves(i.quoteAmount, exchange.price, exchange.commissionRate, exchange.partialFillRatio);
    }

    /** Where a trade that was let through ends in a calm world, and what is on the exchange for it then. */
    ghost predicate Sent(i: TradeIntent, s: TradeState)
      reads exchange
    {
      var full, some := exchange.partialFillRatio == 1.0, WorthBuying(i);
      && s == (if Refuses(BuySent) || Refuses(EntryRead) then Unknown else Ending(full, some))
      && Pos(i).entry == (if Refuses(BuySent) then None else Some(FillOf(i)))
      && (Pos(i).exit.Some? <==> s == Closed)
      && (Guard(i, !full).Some? <==> !Refuses(BuySent) && !Refuses(EntryRead) && Reserves(full, some))
    }

    /** How many errors that puts on record. */
    function SentErrors(i: TradeIntent): nat
      reads exchange`commissionRate, exchange`partialFillRatio
    {
      if Refuses(BuySent) || Refuses(EntryRead) then 1 else EndErrors(exchange.partialFillRatio == 1.0, WorthBuying(i))
    }

    /** The submission went on record, and then so many errors. */
    static predicate Booked(before: seq<Noted>, after: seq<Noted>, amount: real, n: nat) {
      && |before| < |after| && after[..|before|] == before
      && after[|before|].kind == Submission && after[|before|].notional == amount
      && OnlyErrors(after[..|before| + 1], after, n)
    }

    /** Where the machine stands after an attempt at protecting. */
    function Outcome(p: Protecting, partial: bool): TradeState {
      match p
      case Secured => if partial then PartiallyProtected else Protected
      case Failed => ProtectionFailed
      case Uncertain => Unknown
      case Short => UnderProtected
    }

    predicate StatusIs(order: Order, partial: bool) {
      order.status == if partial then OrderPartiallyFilled else OrderFilled
    }

    function Who(): Authority
      reads this
    {
      Authority(auth, if epoch.Some? then epoch.value else 0)
    }

    // --- Authority, pacing and time ---

    /** Time passes, and the lease may lapse. */
    method Lapse(i: TradeIntent)
      requires Working(i)
      modifies this`auth, this`now
      ensures Working(i) && now >= old(now) && Ebbs(old(auth), auth)
    {
      hide Sound, WriteAhead, Moved, Faithful, Filed, CapsHold, EpochsWithin;
      var elapsed: int := *;
      if elapsed > 0 {
        now := now + elapsed;
      }
      if !mode.Calm? && auth {
        auth := *;
      }
    }

    /** A handler that has seen a stale epoch knows that authority is gone. */
    method Caught(i: TradeIntent, exn: Exn)
      requires Working(i)
      modifies this`auth
      ensures Working(i) && auth == (old(auth) && exn != StaleEpoch)
    {
      hide Sound, WriteAhead, Moved, Faithful, Filed, CapsHold, EpochsWithin, UpTo;
      if exn == StaleEpoch {
        auth := false;
      }
    }

    /** The check and the pacing in front of every exchange call.  Authority may have lapsed by now. */
    method Fence(k: Request) returns (r: Result<()>)
      ensures r.Ok? ==> auth
      ensures r.Err? ==> (r.exn == Faulted && !(steadyExits && k == ExitRead)) || r.exn == StaleEpoch
      ensures mode.Calm? && auth ==> r == if Refuses(k) then Err(Faulted) else Ok(())
    {
      var lapsed: bool, failed: bool := *, *;
      if !auth || (lapsed && !mode.Calm?) {
        return Err(StaleEpoch);
      }
      if (if mode.Calm? then Refuses(k) else failed) && !(steadyExits && k == ExitRead) {
        return Err(Faulted);
      }
      r := Ok(());
    }

    // --- Fenced reads ---

    method GetMarketPrice() returns (r: Result<real>)
      ensures r.Ok? ==> auth
      ensures r.Err? ==> r.exn == Faulted || r.exn == StaleEpoch
      ensures mode.Calm? && auth ==> if Refuses(PriceRead) then r == Err(Faulted) else r.Ok?
      ensures r.Ok? && mode != Hostile ==> r.value == exchange.price
    {
      var _ :- Fence(PriceRead);
      var price := exchange.price;
      if mode == Hostile {
        price := *;
      }
      var _ :- Fence(PriceRead);
      r := Ok(price);
    }

    method QueryOrder(symbol: Symbol, c: ClientId, k: Request) returns (r: Result<Option<Order>>)
      ensures r.Ok? ==> auth
      ensures r.Err? ==> (r.exn == Faulted && !(steadyExits && k == ExitRead)) || r.exn == StaleEpoch
      ensures mode.Calm? && auth ==> if Refuses(k) then r == Err(Faulted) else r.Ok?
      ensures r.Ok? && mode != Hostile ==> r.value == exchange.QueryOrder(symbol, c)
    {
      var _ :- Fence(k);
      var order := exchange.QueryOrder(symbol, c);
      if mode == Hostile {
        order := *;
      }
      var _ :- Fence(k);
      r := Ok(order);
    }

    method ProtectionDetails(symbol: Symbol, c: ClientId) returns (r: Result<Option<ProtectionOrder>>)
      ensures r.Ok? ==> auth
      ensures r.Err? ==> r.exn == Faulted || r.exn == StaleEpoch
      ensures mode.Calm? && auth ==> if Refuses(ProtectionRead) then r == Err(Faulted) else r.Ok?
      ensures r.Ok? && mode != Hostile ==> r.value == exchange.ProtectionDetails(symbol, c)
    {
      var _ :- Fence(ProtectionRead);
      var details := exchange.ProtectionDetails(symbol, c);
      if mode == Hostile {
        details := *;
      }
      var _ :- Fence(ProtectionRead);
      r := Ok(details);
    }

    method CancelRemainder() returns (r: Result<()>)
      ensures r.Ok? ==> auth
      ensures r.Err? ==> r.exn == Faulted || r.exn == StaleEpoch
      ensures mode.Calm? && auth ==> if Refuses(RemainderCanceled) then r == Err(Faulted) else r.Ok?
    {
      var _ :- Fence(RemainderCanceled);
      r := Fence(RemainderCanceled);
    }

    /** The net fill, and how much of it the free balance can back. */
    method AvailableTradeQty(order: Order, symbol: Symbol) returns (r: Result<(real, real)>)
      ensures r.Ok? ==> auth
      ensures r.Err? ==> r.exn == Faulted || r.exn == StaleEpoch
      ensures mode.Calm? && auth ==> if Refuses(BalanceRead) then r == Err(Faulted) else r.Ok?
      ensures r.Ok? ==> r.value.0 == NetQty(order, symbol)
      ensures r.Ok? && mode != Hostile ==> r.value.1 == Min(NetQty(order, symbol), Free(exchange.books, symbol))
    {
      var _ :- Fence(BalanceRead);
      var free := exchange.FreeBaseBalance(symbol);
      if mode == Hostile {
        free := *;
      }
      var _ :- Fence(BalanceRead);
      var expected := NetQty(order, symbol);
      r := Ok((expected, Max(0.0, Min(expected, free))));
    }

    // --- Fenced writes: atomic on the exchange, and the process may die right after ---

    /** The row must be marked and nothing asked before: this is the one request to buy. */
    method SubmitMarketBuy(i: TradeIntent) returns (r: Result<Order>)
      requires Working(i) && i.id in ledger.rows && ledger.rows[i.id].prepared && i.id !in exchange.buyCalls
      requires |exchange.buyCalls| < Submissions(activity.log)
      requires sound ==>
                && ledger.rows[i.id].state == Submitted && Pos(i) == Position(None, None, None, None)
                && i.quoteAmount > 0.0
      modifies this`auth, this`now, exchange`books, exchange`buyCalls
      ensures Working(i) && now >= old(now) && Ebbs(old(auth), auth)
      ensures r.Ok? ==> auth
      ensures r.Err? ==> r.exn in {Faulted, Ambiguous} || CutsShort(r.exn)
      ensures sound ==> Pos(i) == Position(Pos(i).entry, None, None, None)
      ensures mode.Calm? && old(auth) && sound ==>
                if Refuses(BuySent) then r == Err(Faulted) && Pos(i).entry.None?
                else Pos(i).entry == Some(FillOf(i))
                     && r == if Refuses(BuyAnswered) then Err(Ambiguous) else Ok(FillOf(i))
    {
      hide Sound, WriteAhead, Moved, Faithful, Filed, CapsHold, EpochsWithin, UpTo, EntryFits;
      Seen(i);
      var checked := Fence(BuySent);
      if checked.Err? {
        Caught(i, checked.exn);
        return Err(checked.exn);
      }
      ghost var x, calls := exchange.books, exchange.buyCalls;
      if sound {
        EntryOrderFits(i.symbol, i.quoteAmount, exchange.price, exchange.commissionRate, exchange.partialFillRatio);
        BuySound(ledger.rows, x, exchange.baseline, i,
                 EntryOrder(i.symbol, i.quoteAmount, exchange.price, exchange.commissionRate,
                   exchange.partialFillRatio));
      }
      var order := exchange.SubmitMarketBuy(i.symbol, i.quoteAmount, ClientId(OriginOf(i), Entry));
      BuyWriteAhead(ledger.rows, x, exchange.books, calls, OriginOf(i));
      AfterBooksWrite(i, x);
      var died: bool, lost: bool := *, *;
      if died && !mode.Calm? {
        return Err(Crash);
      }
      if (if mode.Calm? then Refuses(BuyAnswered) else lost) {
        return Err(Ambiguous);
      }
      if order.Err? {
        return order;
      }
      Lapse(i);
      if !auth {
        return Err(StaleEpoch);
      }
      r := order;
      if mode == Hostile {
        var answer: Order := *;
        r := Ok(answer);
      }
    }

    /** What follows from a write to this intent's own corner of the books. */
    lemma AfterBooksWrite(i: TradeIntent, x: Books)
      requires Moved(began, Moment(ledger.rows, x), i) && OnlyOrigin(x, exchange.books, OriginOf(i))
      ensures Moved(began, Here(), i)
    {
      MovedBooks(began, Moment(ledger.rows, x), exchange.books, i);
    }

    method PlaceProtection(i: TradeIntent, qty: real, partial: bool) returns (r: Result<()>)
      requires Working(i)
      requires sound ==> && Pos(i).entry.Some? && StatusIs(Pos(i).entry.value, partial) && Unprotected(Pos(i))
                         && Pos(i).exit == None && qty == NetQty(Pos(i).entry.value, i.symbol) > 0.0
                         && ledger.rows[i.id].state != EmergencyExit
      modifies this`auth, this`now, exchange`books
      ensures Working(i) && now >= old(now) && Ebbs(old(auth), auth)
      ensures r.Ok? ==> auth
      ensures r.Err? ==> r.exn == Faulted || CutsShort(r.exn)
      ensures mode != Hostile && r == Err(Faulted) ==> exchange.books == old(exchange.books)
      ensures mode != Hostile && r.Ok? ==>
                ClientId(OriginOf(i), ProtectionSuffix(partial)) in exchange.books.protections
      ensures exchange.books == old(exchange.books)
              || exchange.books == Placed(old(exchange.books), ClientId(OriginOf(i), ProtectionSuffix(partial)),
                i.symbol, qty)
      ensures mode.Calm? && old(auth) && sound ==> r == if Refuses(ProtectionPlaced) then Err(Faulted) else Ok(())
      ensures Refuses(ProtectionPlaced)
              || ClientId(OriginOf(i), ProtectionSuffix(partial)) in old(exchange.books).protections ==>
                exchange.books == old(exchange.books)
      ensures mode.Calm? && old(auth) && !Refuses(ProtectionPlaced) && 0.0 < qty <= Free(old(exchange.books), i.symbol)
              && ClientId(OriginOf(i), ProtectionSuffix(partial)) !in old(exchange.books).protections ==>
                exchange.books == Placed(old(exchange.books), ClientId(OriginOf(i), ProtectionSuffix(partial)),
                  i.symbol, qty)
    {
      hide Sound, WriteAhead, Moved, Faithful, Filed, CapsHold, EpochsWithin, UpTo, EntryFits;
      Seen(i);
      var checked := Fence(ProtectionPlaced);
      if checked.Err? {
        Caught(i, checked.exn);
        return Err(checked.exn);
      }
      ghost var x := exchange.books;
      if sound {
        FreeCoversEntry(ledger.rows, x, exchange.baseline, i);
        PlacementSound(ledger.rows, x, exchange.baseline, i, partial, qty);
      }
      var placed := exchange.PlaceProtection(i.symbol, qty, ClientId(OriginOf(i), ProtectionSuffix(partial)));
      AfterBooksWrite(i, x);
      BooksWriteAhead(ledger.rows, x, exchange.books, exchange.buyCalls, OriginOf(i));
      var died: bool, answer: bool := *, *;
      if died && !mode.Calm? {
        return Err(Crash);
      }
      if mode == Hostile && !answer {
        return Err(Faulted);
      }
      if mode != Hostile && placed.Err? {
        return placed;
      }
      Lapse(i);
      r := if auth then Ok(()) else Err(StaleEpoch);
    }

    method EmergencyMarketSell(i: TradeIntent, qty: real) returns (r: Result<()>)
      requires Working(i) && RowIs(ledger.rows, i.id, EmergencyExit)
      requires sound ==> && Pos(i).entry.Some? && Unprotected(Pos(i)) && Pos(i).exit == None
                         && qty == NetQty(Pos(i).entry.value, i.symbol)
      modifies this`auth, this`now, exchange`books
      ensures Working(i) && now >= old(now) && Ebbs(old(auth), auth)
      ensures r.Ok? ==> auth
      ensures r.Err? ==> r.exn == Faulted || CutsShort(r.exn)
      ensures mode != Hostile && r == Err(Faulted) ==> exchange.books == old(exchange.books)
      ensures mode != Hostile && r.Ok? ==> Pos(i).exit.Some?
      ensures Pos(i) == old(Pos(i)).(exit := Pos(i).exit)
      ensures mode.Calm? && old(auth) && sound && qty > 0.0 ==>
                r == if Refuses(SaleSent) then Err(Faulted) else Ok(())
    {
      hide Working;
      var checked := Fence(SaleSent);
      if checked.Err? {
        Caught(i, checked.exn);
        return Err(checked.exn);
      }
      var sold := Sell(i, qty);
      var died: bool, answer: bool := *, *;
      if died && !mode.Calm? {
        return Err(Crash);
      }
      if mode == Hostile && !answer {
        return Err(Faulted);
      }
      if mode != Hostile && sold.Err? {
        return sold;
      }
      Lapse(i);
      r := if auth then Ok(()) else Err(StaleEpoch);
    }

    /** The sale itself. */
    method Sell(i: TradeIntent, qty: real) returns (r: Result<()>)
      requires Working(i) && RowIs(ledger.rows, i.id, EmergencyExit)
      requires sound ==> && Pos(i).entry.Some? && Unprotected(Pos(i)) && Pos(i).exit == None
                         && qty == NetQty(Pos(i).entry.value, i.symbol)
      modifies exchange`books
      ensures Working(i) && Pos(i) == old(Pos(i)).(exit := Pos(i).exit)
      ensures r.Err? ==> r.exn == Faulted && exchange.books == old(exchange.books)
      ensures r.Ok? ==> Pos(i).exit.Some?
      ensures sound && qty > 0.0 ==> r.Ok?
    {
      hide Sound, WriteAhead, Moved, Faithful, Filed, CapsHold, EpochsWithin, UpTo, EntryFits;
      Seen(i);
      ghost var x := exchange.books;
      if sound {
        FreeCoversEntry(ledger.rows, x, exchange.baseline, i);
        SaleSound(ledger.rows, x, exchange.baseline, i, qty, exchange.price);
      }
      r := exchange.EmergencyMarketSell(i.symbol, qty, ClientId(OriginOf(i), EmergencyExitSale));
      AfterBooksWrite(i, x);
      BooksWriteAhead(ledger.rows, x, exchange.books, exchange.buyCalls, OriginOf(i));
    }

    // --- Durable writes to the ledger ---

    /** What follows from rewriting one row under the current epoch. */
    lemma AfterRowWrite(i: TradeIntent, rows: Rows)
      requires Moved(began, Moment(rows, exchange.books), i) && WriteAhead(rows, exchange.books, exchange.buyCalls)
      requires auth && epoch.Some? && EpochsWithin(rows, epoch.value)
      requires i.id in ledger.rows && ledger.rows == rows[i.id := ledger.rows[i.id]]
      requires i.id in rows ==> SameRecord(rows[i.id], ledger.rows[i.id])
      requires EpochAtMost(ledger.rows, i.id, epoch.value) && RowOrderly(ledger.rows, i.id)
      ensures Moved(began, Here(), i) && WriteAhead(ledger.rows, exchange.books, exchange.buyCalls)
      ensures EpochsWithin(ledger.rows, epoch.value) && OnlyRow(rows, ledger.rows, i.id)
    {
      EpochsAfterWrite(rows, ledger.rows, i.id, epoch.value);
      MovedRow(began, Moment(rows, exchange.books), ledger.rows, i);
      RowWriteAhead(rows, ledger.rows, exchange.books, exchange.buyCalls, i.id);
    }

    /** A write to the ledger that left this row alone, or rewrote it under the current epoch into one that fits:
        the operation goes on. */
    twostate lemma Rewritten(i: TradeIntent)
      requires old(Working(i)) && unchanged(this) && unchanged(exchange) && unchanged(activity) && ledger.Valid()
      requires ledger.rows == old(ledger.rows)
                || (i.id in ledger.rows && ledger.rows == old(ledger.rows)[i.id := ledger.rows[i.id]])
      requires ledger.rows != old(ledger.rows) ==>
                 && auth && epoch.Some? && EpochAtMost(ledger.rows, i.id, epoch.value)
                 && (i.id in old(ledger.rows) ==> SameRecord(old(ledger.rows)[i.id], ledger.rows[i.id]))
                 && RowOrderly(ledger.rows, i.id) && Stamped(i)
                 && (sound ==> RowFits(ledger.rows[i.id], i, Pos(i)))
                 && (settled && Pos(i).exit.Some? ==> ledger.rows[i.id].state in {EmergencyExit, Closed})
      ensures Working(i)
    {
      hide Sound, WriteAhead, Moved, Faithful, Filed, CapsHold, EpochsWithin, UpTo, OnlyOrigin, RowOrderly,
          StampedSince;
      hide PositionSound, StateFits;
      if ledger.rows != old(ledger.rows) {
        AfterRowWrite(i, old(ledger.rows));
        if sound {
          RowWriteSound(old(ledger.rows), ledger.rows, exchange.books, exchange.baseline, i);
        }
      }
    }

    /** The one way a state reaches the ledger; the process may die right after. */
    method Persist(i: TradeIntent, next: TradeState, expectedOld: Option<TradeState>) returns (r: Result<()>)
      requires Working(i)
      requires i.id in ledger.rows && (expectedOld.None? || expectedOld.value == ledger.rows[i.id].state) ==>
                 MayBecome(ledger.rows[i.id], next, Pos(i), sound, settled && auth, startedAt)
      modifies this`auth, this`now, ledger
      ensures Working(i) && now >= old(now) && Ebbs(old(auth), auth)
      ensures r.Ok? ==> auth
      ensures r.Err? ==> r.exn == Refused || CutsShort(r.exn)
      ensures mode.Calm? && old(auth) ==> r.Ok? || r.exn == Refused
      ensures r == Err(Refused) ==>
                i.id !in ledger.rows || (expectedOld.Some? && expectedOld.value != ledger.rows[i.id].state)
      ensures r.Ok? || r == Err(Crash) ==>
                && old(auth) && i.id in old(ledger.rows) && i.id in ledger.rows
                && (expectedOld.Some? ==> old(ledger.rows)[i.id].state == expectedOld.value)
                && ledger.rows[i.id] == old(ledger.rows)[i.id].(state := next, epoch := ledger.rows[i.id].epoch)
      ensures r.Err? && r.exn != Crash ==> ledger.rows == old(ledger.rows)
    {
      hide Working;
      Lapse(i);
      r := Record(i, next, expectedOld);
    }

    method Record(i: TradeIntent, next: TradeState, expectedOld: Option<TradeState>) returns (r: Result<()>)
      requires Working(i)
      requires i.id in ledger.rows && (expectedOld.None? || expectedOld.value == ledger.rows[i.id].state) ==>
                 MayBecome(ledger.rows[i.id], next, Pos(i), sound, settled && auth, startedAt)
      modifies ledger
      ensures Working(i)
      ensures r.Ok? ==> auth
      ensures r.Err? ==> r.exn == Refused || CutsShort(r.exn)
      ensures mode.Calm? && auth ==> r.Ok? || r.exn == Refused
      ensures r == Err(Refused) ==>
                i.id !in ledger.rows || (expectedOld.Some? && expectedOld.value != ledger.rows[i.id].state)
      ensures r.Ok? || r == Err(Crash) ==>
                && auth && i.id in old(ledger.rows) && i.id in ledger.rows
                && (expectedOld.Some? ==> old(ledger.rows)[i.id].state == expectedOld.value)
                && ledger.rows[i.id] == old(ledger.rows)[i.id].(state := next, epoch := ledger.rows[i.id].epoch)
      ensures r.Err? && r.exn != Crash ==> ledger.rows == old(ledger.rows)
    {
      hide Working, Faithful, Filed, StateFits, PositionSound, EntryFits;
      Guarded(i);
      Seen(i);
      label Before:
      r := ledger.SetState(i.id, next, Who(), expectedOld);
      Rewritten@Before(i);
      if r.Ok? {
        var died: bool := *;
        if died && !mode.Calm? {
          return Err(Crash);
        }
      }
    }

    /** One step of the machine, persisted as it is taken. */
    method Transition(sm: TradeStateMachine, i: TradeIntent, next: TradeState) returns (r: Result<()>)
      requires Working(i) && sm.Valid()
      requires RowIs(ledger.rows, i.id, sm.state) && Allowed(sm.state, next) ==>
                 MayBecome(ledger.rows[i.id], next, Pos(i), sound, settled && auth, startedAt)
      modifies this`auth, this`now, sm, ledger
      ensures Working(i) && sm.Valid() && now >= old(now) && Ebbs(old(auth), auth)
      ensures r.Err? ==> r.exn in {InvalidTransition, Refused} || CutsShort(r.exn)
      ensures r == Err(InvalidTransition) <==> !Allowed(old(sm.state), next)
      ensures r == Err(Refused) ==> !RowIs(ledger.rows, i.id, old(sm.state))
      ensures mode.Calm? && old(auth) ==> r.Ok? || r.exn in {InvalidTransition, Refused}
      ensures r.Ok? ==> auth
      ensures Allowed(old(sm.state), next) ==> sm.state == next && sm.history == old(sm.history) + [next]
      ensures old(Heeds(sm.history)) && (old(sm.state) == ProtectionFailed ==>
                                           (next == Halted <==> !policy.emergencyExitOnUnprotected)) ==>
                Heeds(sm.history)
      ensures r.Ok? || r == Err(Crash) ==>
                && old(auth) && RowIs(old(ledger.rows), i.id, old(sm.state)) && i.id in ledger.rows
                && ledger.rows[i.id] == old(ledger.rows)[i.id].(state := next, epoch := ledger.rows[i.id].epoch)
      ensures r.Err? && r.exn != Crash ==> ledger.rows == old(ledger.rows)
    {
      hide Working, LegalPath;
      var from := sm.state;
      var ok := sm.Move(next);
      if !ok {
        return Err(InvalidTransition);
      }
      r := Persist(i, next, Some(from));
    }

    method MarkVerified(i: TradeIntent, expected: real, actual: real) returns (r: Result<()>)
      requires Working(i)
      requires sound ==> Pos(i).entry.Some? && expected == NetQty(Pos(i).entry.value, i.symbol)
      modifies this`auth, this`now, ledger
      ensures Working(i) && now >= old(now) && Ebbs(old(auth), auth)
      ensures r.Ok? ==> auth
      ensures r.Err? ==> CutsShort(r.exn)
      ensures mode.Calm? && old(auth) ==> r.Ok?
      ensures i.id in old(ledger.rows) <==> i.id in ledger.rows
      ensures i.id in ledger.rows && r != Err(StaleEpoch) ==>
                && old(auth)
                && ledger.rows[i.id] == old(ledger.rows)[i.id].(expectedQty := Some(expected),
                  actualQty := Some(actual),
                     verifiedAt := ledger.rows[i.id].verifiedAt, epoch := ledger.rows[i.id].epoch)
                && ledger.rows[i.id].verifiedAt.Some? && old(now) <= ledger.rows[i.id].verifiedAt.value <= now
      ensures r == Err(StaleEpoch) ==> ledger.rows == old(ledger.rows)
    {
      hide Working, Faithful, Filed, StateFits, PositionSound, EntryFits;
      Lapse(i);
      Guarded(i);
      Seen(i);
      label Before:
      r := ledger.MarkProtectionVerified(i.id, expected, actual, now, Who());
      Rewritten@Before(i);
      if r.Ok? {
        var died: bool := *;
        if died && !mode.Calm? {
          return Err(Crash);
        }
      }
    }

    lemma ErrorsAreFree(log: seq<Noted>, t: int)
      ensures CapsHold(log) ==> CapsHold(log + [Noted(t, Error, 0.0)])
    {
      if CapsHold(log) {
        ErrorKeepsCaps(log, t, policy.maxOrdersPerHour, dailyCap);
      }
    }

    method RecordError(i: TradeIntent) returns (r: Result<()>)
      requires Working(i)
      modifies this`now, activity
      ensures Working(i) && now >= old(now)
      ensures r.Err? ==> r.exn == Crash && !mode.Calm?
      ensures activity.log == old(activity.log) + [Noted(now, Error, 0.0)]
      ensures OnlyErrors(old(activity.log), activity.log, 1)
    {
      hide Sound, WriteAhead, Moved, Faithful, Filed, EpochsWithin, CapsHold, UpTo, Submissions, OnlyRow, OnlyOrigin;
      var elapsed: int := *;
      if elapsed > 0 {
        now := now + elapsed;
      }
      ErrorsAreFree(activity.log, now);
      SubmissionsAppend(activity.log, Noted(now, Error, 0.0));
      UpToAppend(activity.log, old(now), Noted(now, Error, 0.0), now);
      activity.RecordError(now);
      var died: bool := *;
      r := if died && !mode.Calm? then Err(Crash) else Ok(());
    }

    // --- What a calm world leads to ---

    /** Whether there is anything to protect, or to sell, that the free balance can be read to back. */
    predicate Backable(some: bool) {
      some && !Refuses(BalanceRead)
    }

    /** Whether a fill comes to be reserved: a partial one must first be rid of its remainder. */
    predicate Reserves(full: bool, some: bool) {
      Backable(some) && !Refuses(ProtectionPlaced) && (full || !Refuses(RemainderCanceled))
    }

    /** Where an entry that could not be protected ends. */
    function SaleEnd(some: bool): TradeState {
      if !policy.emergencyExitOnUnprotected then Halted
      else if !Backable(some) || Refuses(SaleSent) then Unknown
      else Closed
    }

    /** Where a full or a partial fill ends, with something left of it net or not, in a calm world. */
    function Ending(full: bool, some: bool): TradeState {
      if !full && Refuses(RemainderCanceled) then Unknown
      else if !Reserves(full, some) then SaleEnd(some)
      else if Refuses(ProtectionRead) then Unknown
      else if full then Protected
      else Halted
    }

    /** How many errors that puts on record. */
    function SaleErrors(some: bool): nat {
      if policy.emergencyExitOnUnprotected && Backable(some) && Refuses(SaleSent) then 1 else 0
    }

    function EndErrors(full: bool, some: bool): nat {
      if !full && Refuses(RemainderCanceled) then 0
      else if !Reserves(full, some) then 1 + SaleErrors(some)
      else if Refuses(ProtectionRead) then 1
      else 0
    }

    /** The protection of one kind. */
    ghost function Guard(i: TradeIntent, partial: bool): Option<ProtectionOrder>
      reads exchange
    {
      if partial then Pos(i).partial else Pos(i).full
    }

    predicate Fills(order: Order, symbol: Symbol) {
      NetQty(order, symbol) > 0.0
    }

    /** A machine never stays bare: whatever could not be protected is halted exactly where the policy forbids to
        sell it. */
    ghost predicate Heeds(h: seq<TradeState>) {
      forall k :: 0 < k < |h| && h[k - 1] == ProtectionFailed ==>
          (h[k] == Halted <==> !policy.emergencyExitOnUnprotected)
    }

    // --- Protecting and closing one position ---

    /** Something went wrong: takes the step that records it, if there is such a step, and notes an error. */
    method StepBack(i: TradeIntent, sm: TradeStateMachine, exn: Exn, next: TradeState) returns (r: Result<()>)
      requires Working(i) && sm.Valid() && exn != Crash && (mode.Calm? && auth ==> exn != StaleEpoch)
      requires next in {Unknown, ProtectionFailed, UnderProtected} && (sound ==> next != UnderProtected)
      requires Allowed(sm.state, next) ==>
                 && RowIs(ledger.rows, i.id, sm.state) && ledger.rows[i.id].prepared
                 && (settled && auth && exn != StaleEpoch ==> Pos(i).exit == None)
      modifies this`auth, this`now, sm, ledger, activity
      ensures Working(i) && now >= old(now) && Ebbs(old(auth), auth) && (exn == StaleEpoch ==> !auth)
      ensures r.Err? ==> r.exn == InvalidTransition || CutsShort(r.exn)
      ensures r == Err(InvalidTransition) <==> !Allowed(old(sm.state), next)
      ensures r == Err(InvalidTransition) ==> ledger.rows == old(ledger.rows)
      ensures r.Ok? ==> auth && sm.Valid() && RowIs(ledger.rows, i.id, sm.state) && ledger.rows[i.id].prepared
      ensures r.Ok? ==> sm.state == next && sm.history == old(sm.history) + [next]
      ensures r.Ok? && old(sm.state) != ProtectionFailed && old(Heeds(sm.history)) ==> Heeds(sm.history)
      ensures r.Ok? ==> ledger.rows[i.id] == old(ledger.rows)[i.id].(state := next, epoch := ledger.rows[i.id].epoch)
      ensures r.Ok? ==> OnlyErrors(old(activity.log), activity.log, 1)
    {
      hide Working, LegalPath, PositionSound, EntryFits, Heeds, OnlyErrors;
      Seen(i);
      Caught(i, exn);
      var _ :- Transition(sm, i, next);
      r := RecordError(i);
    }

    /** A positive quantity that the free balance can back, or a failure. */
    method TradeQty(i: TradeIntent, order: Order) returns (r: Result<real>)
      requires Working(i) && (sound ==> Naked(i, order))
      ensures r.Ok? ==> auth && r.value > 0.0 && (sound ==> r.value == NetQty(order, i.symbol))
      ensures r.Err? ==> r.exn in {Faulted, StaleEpoch} && (mode.Calm? && auth ==> r.exn == Faulted)
      ensures mode.Calm? && auth && sound ==> (r.Ok? <==> Backable(Fills(order, i.symbol)))
    {
      if sound {
        Backed(i);
      }
      var q :- AvailableTradeQty(order, i.symbol);
      r := if q.0 <= 0.0 || q.1 <= 0.0 then Err(Faulted) else Ok(q.1);
    }

    /** What any part of protecting an entry comes to: cut short, or the machine and the row say what its outcome
        says; entry and exit are as they were. */
    twostate predicate Tried(i: TradeIntent, sm: TradeStateMachine, partial: bool, new r: Result<Protecting>)
      reads this, ledger, exchange, sm
    {
      && now >= old(now) && Ebbs(old(auth), auth)
      && (r.Err? ==> CutsShort(r.exn))
      && Pos(i).entry == old(Pos(i)).entry && Pos(i).exit == old(Pos(i)).exit
      && (r.Ok? ==>
            && auth && sm.Valid() && RowIs(ledger.rows, i.id, sm.state) && ledger.rows[i.id].prepared
            && sm.state == Outcome(r.value, partial) && (old(Heeds(sm.history)) ==> Heeds(sm.history)))
    }

    /** What it comes to in a calm world. */
    twostate predicate TriedCalmly(i: TradeIntent, partial: bool, placed: bool, new r: Result<Protecting>)
      reads this, exchange, activity
    {
      mode.Calm? && old(auth) && sound ==>
        && r == Ok(if !placed then Failed else if Refuses(ProtectionRead) then Uncertain else Secured)
        && (Guard(i, partial).Some? <==> placed)
        && OnlyErrors(old(activity.log), activity.log, if placed && !Refuses(ProtectionRead) then 0 else 1)
    }

    /** Reserves the filled quantity, and reads back what was reserved. */
    method ProtectOrderQty(i: TradeIntent, order: Order, sm: TradeStateMachine, partial: bool)
      returns (r: Result<Protecting>)
      requires Working(i) && sm.Valid() && RowIs(ledger.rows, i.id, sm.state) && ledger.rows[i.id].prepared
      requires sm.state == if partial then PartiallyFilled else Filled
      requires sound ==> Naked(i, order) && StatusIs(order, partial)
      modifies this`auth, this`now, sm, ledger, exchange`books, activity
      ensures Working(i) && Tried(i, sm, partial, r)
      ensures sound ==> r != Ok(Short) && (r == Ok(Failed) ==> Naked(i, order))
      ensures TriedCalmly(i, partial, Backable(Fills(order, i.symbol)) && !Refuses(ProtectionPlaced), r)
    {
      hide Working, LegalPath, Heeds;
      Seen(i);
      var _ :- Transition(sm, i, if partial then PartialProtectionPending else ProtectionPending);
      r := ProtectPending(i, order, sm, partial);
    }

    method ProtectPending(i: TradeIntent, order: Order, sm: TradeStateMachine, partial: bool)
      returns (r: Result<Protecting>)
      requires Working(i) && sm.Valid() && RowIs(ledger.rows, i.id, sm.state) && ledger.rows[i.id].prepared
      requires sm.state == if partial then PartialProtectionPending else ProtectionPending
      requires sound ==> Naked(i, order) && StatusIs(order, partial)
      modifies this`auth, this`now, sm, ledger, exchange`books, activity
      ensures Working(i) && Tried(i, sm, partial, r)
      ensures sound ==> r != Ok(Short) && (r == Ok(Failed) ==> Naked(i, order))
      ensures TriedCalmly(i, partial, Backable(Fills(order, i.symbol)) && !Refuses(ProtectionPlaced), r)
    {
      hide Working, LegalPath, Heeds;
      Seen(i);
      var qty := TradeQty(i, order);
      if qty.Err? {
        var _ :- StepBack(i, sm, qty.exn, ProtectionFailed);
        return Ok(Failed);
      }
      r := PlaceAndVerify(i, order, qty.value, sm, partial);
    }

    method PlaceAndVerify(i: TradeIntent, order: Order, qty: real, sm: TradeStateMachine, partial: bool)
      returns (r: Result<Protecting>)
      requires Working(i) && sm.Valid() && RowIs(ledger.rows, i.id, sm.state) && ledger.rows[i.id].prepared
      requires sm.state == if partial then PartialProtectionPending else ProtectionPending
      requires sound ==> Naked(i, order) && StatusIs(order, partial) && qty == NetQty(order, i.symbol) > 0.0
      modifies this`auth, this`now, sm, ledger, exchange`books, activity
      ensures Working(i) && Tried(i, sm, partial, r)
      ensures sound ==> r != Ok(Short) && (r == Ok(Failed) ==> Naked(i, order))
      ensures TriedCalmly(i, partial, !Refuses(ProtectionPlaced), r)
    {
      hide Working, LegalPath, Heeds, OnlyErrors, EntryFits, Fills, Backable;
      Seen(i);
      var placed := PlaceProtection(i, qty, partial);
      if placed.Err? {
        if placed.exn == Crash {
          return Err(Crash);
        }
        var _ :- StepBack(i, sm, placed.exn, ProtectionFailed);
        return Ok(Failed);
      }
      r := VerifyPlaced(i, NetQty(order, i.symbol), sm, partial);
    }

    /** Reads back a protection just placed, and records what it found. */
    method VerifyPlaced(i: TradeIntent, expected: real, sm: TradeStateMachine, partial: bool)
      returns (r: Result<Protecting>)
      requires Working(i) && sm.Valid() && RowIs(ledger.rows, i.id, sm.state) && ledger.rows[i.id].prepared
      requires sm.state == if partial then PartialProtectionPending else ProtectionPending
      requires sound ==> && Pos(i).entry.Some? && expected == NetQty(Pos(i).entry.value, i.symbol)
                         && ClientId(OriginOf(i), ProtectionSuffix(partial)) in exchange.books.protections
      modifies this`auth, this`now, sm, ledger, activity
      ensures Working(i) && Tried(i, sm, partial, r)
      ensures sound ==> r !in {Ok(Short), Ok(Failed)}
      ensures TriedCalmly(i, partial, true, r)
      ensures mode.Calm? && old(auth) && !Refuses(ProtectionRead)
              && exchange.ProtectionDetails(i.symbol, ClientId(OriginOf(i), ProtectionSuffix(partial))).None? ==>
                r == Ok(Failed)
    {
      hide Working, LegalPath, EntryFits, NetQty, PositionSound, Exact, Heeds;
      Seen(i);
      PlacedIsExact(i, partial);
      var details := ProtectionDetails(i.symbol, ClientId(OriginOf(i), ProtectionSuffix(partial)));
      if details.Err? {
        r := Unread(i, sm, details.exn, partial);
        return;
      }
      if details.value.None? {
        r := Absent(i, sm, partial);
        return;
      }
      r := Confirm(i, expected, details.value.value.baseQty, sm, partial);
    }

    /** A protection just placed is not there. */
    method Absent(i: TradeIntent, sm: TradeStateMachine, partial: bool) returns (r: Result<Protecting>)
      requires Working(i) && sm.Valid() && RowIs(ledger.rows, i.id, sm.state) && ledger.rows[i.id].prepared
      requires sm.state == (if partial then PartialProtectionPending else ProtectionPending) && !sound
      modifies this`auth, this`now, sm, ledger
      ensures Working(i) && Tried(i, sm, partial, r) && (r.Ok? ==> r.value == Failed)
      ensures mode.Calm? && old(auth) ==> r.Ok?
    {
      hide Working, LegalPath, EntryFits, NetQty, Heeds;
      Seen(i);
      var _ :- Transition(sm, i, ProtectionFailed);
      r := Ok(Failed);
    }

    /** A protection just placed could not be read back. */
    method Unread(i: TradeIntent, sm: TradeStateMachine, exn: Exn, partial: bool) returns (r: Result<Protecting>)
      requires Working(i) && sm.Valid() && RowIs(ledger.rows, i.id, sm.state) && ledger.rows[i.id].prepared
      requires sm.state == if partial then PartialProtectionPending else ProtectionPending
      requires exn != Crash && (mode.Calm? && auth ==> exn != StaleEpoch)
      requires sound ==> Guard(i, partial).Some?
      modifies this`auth, this`now, sm, ledger, activity
      ensures Working(i) && Tried(i, sm, partial, r) && (r.Ok? ==> r.value == Uncertain)
      ensures r.Ok? ==> OnlyErrors(old(activity.log), activity.log, 1)
    {
      hide Working, LegalPath, EntryFits, NetQty, Heeds;
      Seen(i);
      var _ :- StepBack(i, sm, exn, Unknown);
      r := Ok(Uncertain);
    }

    /** A protection of a sound position stands for the whole net fill. */
    lemma PlacedIsExact(i: TradeIntent, partial: bool)
      requires Working(i)
      ensures var p := Guard(i, partial);
              sound && p.Some? ==>
                Pos(i).entry.Some? && p.value == ProtectionOrder(i.symbol, NetQty(Pos(i).entry.value, i.symbol), true)
                && StatusIs(Pos(i).entry.value, partial)
    {
      Seen(i);
    }

    method Confirm(i: TradeIntent, expected: real, actual: real, sm: TradeStateMachine, partial: bool)
      returns (r: Result<Protecting>)
      requires Working(i) && sm.Valid() && RowIs(ledger.rows, i.id, sm.state) && ledger.rows[i.id].prepared
      requires sm.state == if partial then PartialProtectionPending else ProtectionPending
      requires sound ==> && Pos(i).entry.Some? && expected == NetQty(Pos(i).entry.value, i.symbol)
                         && Guard(i, partial).Some? && actual == expected
      modifies this`auth, this`now, sm, ledger, activity
      ensures Working(i) && Tried(i, sm, partial, r)
      ensures r.Ok? ==> r.value in {Secured, Short}
      ensures r.Ok? ==> (r.value == Secured <==> actual == expected)
      ensures r.Ok? ==> && ledger.rows[i.id].expectedQty == Some(expected)
                        && ledger.rows[i.id].actualQty == Some(actual)
                        && ledger.rows[i.id].verifiedAt.Some? && old(now) <= ledger.rows[i.id].verifiedAt.value
      ensures r.Ok? ==> OnlyErrors(old(activity.log), activity.log, if actual == expected then 0 else 1)
      ensures mode.Calm? && old(auth) && actual == expected ==> r.Ok?
    {
      hide Working, LegalPath, PositionSound, EntryFits, Exact, Heeds;
      Guarded(i);
      Seen(i);
      var _ :- MarkVerified(i, expected, actual);
      r := Claim(i, actual == expected, sm, partial);
    }

    /** The row is stamped: it claims its protection, unless that falls short. */
    method Claim(i: TradeIntent, exact: bool, sm: TradeStateMachine, partial: bool) returns (r: Result<Protecting>)
      requires Working(i) && sm.Valid() && RowIs(ledger.rows, i.id, sm.state) && ledger.rows[i.id].prepared
      requires sm.state == if partial then PartialProtectionPending else ProtectionPending
      requires ledger.rows[i.id].expectedQty.Some? && ledger.rows[i.id].verifiedAt.Some?
      requires startedAt <= ledger.rows[i.id].verifiedAt.value
      requires sound ==> Pos(i).entry.Some? && Guard(i, partial).Some? && exact
      modifies this`auth, this`now, sm, ledger, activity
      ensures Working(i) && Tried(i, sm, partial, r)
      ensures r.Ok? ==> r.value == if exact then Secured else Short
      ensures r.Ok? ==>
                ledger.rows[i.id] == old(ledger.rows)[i.id].(state := sm.state, epoch := ledger.rows[i.id].epoch)
      ensures r.Ok? ==> OnlyErrors(old(activity.log), activity.log, if exact then 0 else 1)
      ensures mode.Calm? && old(auth) && exact ==> r.Ok?
    {
      hide Working, LegalPath, PositionSound, EntryFits, Exact, Heeds;
      Seen(i);
      if !exact {
        var _ :- StepBack(i, sm, Faulted, UnderProtected);
        return Ok(Short);
      }
      var _ :- Transition(sm, i, if partial then PartiallyProtected else Protected);
      r := Ok(Secured);
    }

    /** What selling comes to in a calm world: the exit is there exactly where the row says Closed. */
    twostate predicate SoldCalmly(i: TradeIntent, sm: TradeStateMachine, s: TradeState, errors: nat, new r: Result<()>)
      reads this, exchange, activity, sm
    {
      mode.Calm? && old(auth) && sound ==>
        && r.Ok? && sm.state == s && (Pos(i).exit.Some? <==> s == Closed)
        && OnlyErrors(old(activity.log), activity.log, errors)
    }

    /** What selling comes to in any world: the position has an exit where the row says Closed, and is otherwise as
        it was. */
    twostate predicate SoldOrNot(i: TradeIntent, sm: TradeStateMachine, new r: Result<()>)
      reads this, ledger, exchange, sm
    {
      && Pos(i) == old(Pos(i)).(exit := Pos(i).exit)
      && (r.Ok? && sm.state == Closed && mode != Hostile ==> Pos(i).exit.Some?)
    }

    /** Sells what could not be protected. */
    method EmergencySale(i: TradeIntent, order: Order, sm: TradeStateMachine) returns (r: Result<()>)
      requires Working(i) && sm.Valid() && RowIs(ledger.rows, i.id, sm.state) && ledger.rows[i.id].prepared
      requires sm.state == ProtectionFailed && (sound ==> Naked(i, order))
      modifies this`auth, this`now, sm, ledger, exchange`books, activity
      ensures Working(i) && Carried(i, sm, r) && SoldOrNot(i, sm, r)
      ensures r.Ok? ==> auth && sm.state in {Halted, Unknown, Closed}
      ensures r.Ok? ==> (sm.state == Halted <==> !policy.emergencyExitOnUnprotected)
      ensures SoldCalmly(i, sm, SaleEnd(Fills(order, i.symbol)), SaleErrors(Fills(order, i.symbol)), r)
    {
      hide Working, LegalPath, Heeds;
      Seen(i);
      if !policy.emergencyExitOnUnprotected {
        r := Transition(sm, i, Halted);
        return;
      }
      r := SellWhatIsFree(i, order, sm);
    }

    method SellWhatIsFree(i: TradeIntent, order: Order, sm: TradeStateMachine) returns (r: Result<()>)
      requires Working(i) && sm.Valid() && RowIs(ledger.rows, i.id, sm.state) && ledger.rows[i.id].prepared
      requires sm.state == ProtectionFailed && policy.emergencyExitOnUnprotected && (sound ==> Naked(i, order))
      modifies this`auth, this`now, sm, ledger, exchange`books, activity
      ensures Working(i) && Carried(i, sm, r) && SoldOrNot(i, sm, r)
      ensures r.Ok? ==> auth && sm.state in {Unknown, Closed}
      ensures SoldCalmly(i, sm, SaleEnd(Fills(order, i.symbol)), SaleErrors(Fills(order, i.symbol)), r)
    {
      hide Working, LegalPath, EntryFits, Cornered, Heeds;
      Seen(i);
      var qty := TradeQty(i, order);
      if qty.Err? {
        Caught(i, qty.exn);
        r := Transition(sm, i, Unknown);
        return;
      }
      r := SellOut(i, order, qty.value, sm);
    }

    method SellOut(i: TradeIntent, order: Order, qty: real, sm: TradeStateMachine) returns (r: Result<()>)
      requires Working(i) && sm.Valid() && RowIs(ledger.rows, i.id, sm.state) && ledger.rows[i.id].prepared
      requires sm.state == ProtectionFailed && policy.emergencyExitOnUnprotected && qty > 0.0
      requires sound ==> Naked(i, order) && qty == NetQty(order, i.symbol)
      modifies this`auth, this`now, sm, ledger, exchange`books, activity
      ensures Working(i) && Carried(i, sm, r) && SoldOrNot(i, sm, r)
      ensures r.Ok? ==> auth && sm.state in {Unknown, Closed}
      ensures SoldCalmly(i, sm, if Refuses(SaleSent) then Unknown else Closed, if Refuses(SaleSent) then 1 else 0, r)
    {
      hide Working, LegalPath, Heeds;
      Seen(i);
      var _ :- Transition(sm, i, EmergencyExit);
      ghost var confirmed: bool;
      r, confirmed := SellNow(i, order, qty, sm);
    }

    /** The sale, and the step that records it: both under one handler, whose own step is illegal once the
        machine has taken the other.  So it leaves as an illegal step exactly when the sale was confirmed and
        authority was gone before the step could be recorded. */
    method SellNow(i: TradeIntent, order: Order, qty: real, sm: TradeStateMachine)
      returns (r: Result<()>, ghost confirmed: bool)
      requires Working(i) && sm.Valid() && RowIs(ledger.rows, i.id, sm.state) && ledger.rows[i.id].prepared
      requires sm.state == EmergencyExit && policy.emergencyExitOnUnprotected && qty > 0.0
      requires sound ==> Naked(i, order) && qty == NetQty(order, i.symbol)
      modifies this`auth, this`now, sm, ledger, exchange`books, activity
      ensures Working(i) && Carried(i, sm, r) && SoldOrNot(i, sm, r)
      ensures r.Ok? ==> auth && sm.state in {Unknown, Closed}
      ensures r.Ok? && confirmed ==> sm.state == if qty == NetQty(order, i.symbol) then Closed else Unknown
      ensures r.Ok? && !confirmed ==> sm.state == Unknown && OnlyErrors(old(activity.log), activity.log, 1)
      ensures confirmed && mode != Hostile ==> Pos(i).exit.Some?
      ensures r == Err(InvalidTransition) <==> confirmed && !auth && r != Err(Crash)
      ensures SoldCalmly(i, sm, if Refuses(SaleSent) then Unknown else Closed, if Refuses(SaleSent) then 1 else 0, r)
    {
      hide Working, LegalPath, Heeds;
      r, confirmed := SellAndRecord(i, order, qty, sm);
      if r.Err? && r.exn != Crash {
        r := StepBack(i, sm, r.exn, Unknown);
      }
    }

    method SellAndRecord(i: TradeIntent, order: Order, qty: real, sm: TradeStateMachine)
      returns (r: Result<()>, ghost confirmed: bool)
      requires Working(i) && sm.Valid() && RowIs(ledger.rows, i.id, sm.state) && ledger.rows[i.id].prepared
      requires sm.state == EmergencyExit && qty > 0.0
      requires sound ==> Naked(i, order) && qty == NetQty(order, i.symbol)
      modifies this`auth, this`now, sm, ledger, exchange`books
      ensures Working(i) && now >= old(now) && Ebbs(old(auth), auth) && sm.Valid()
      ensures Pos(i) == old(Pos(i)).(exit := Pos(i).exit)
      ensures r.Ok? ==> confirmed && auth && RowIs(ledger.rows, i.id, sm.state)
                        && sm.state == if qty == NetQty(order, i.symbol) then Closed else Unknown
      ensures confirmed ==> old(auth) && (mode != Hostile ==> Pos(i).exit.Some?)
      ensures r.Err? ==> r.exn == Faulted || CutsShort(r.exn)
      ensures r.Err? && r.exn != Crash ==>
                && RowIs(ledger.rows, i.id, EmergencyExit) && ledger.rows[i.id].prepared
                && if confirmed then r.exn == StaleEpoch && sm.state in {Unknown, Closed}
                   else sm.state == EmergencyExit && sm.history == old(sm.history)
                        && (settled && auth ==> Pos(i).exit == None)
      ensures r.Ok? && old(Heeds(sm.history)) ==> Heeds(sm.history)
      ensures mode.Calm? && old(auth) && sound ==>
                if Refuses(SaleSent) then r == Err(Faulted) && Pos(i) == old(Pos(i)) else r.Ok? && sm.state == Closed
    {
      hide Working, LegalPath, Heeds;
      Seen(i);
      var sold := EmergencyMarketSell(i, qty);
      confirmed := sold.Ok?;
      if sold.Err? {
        return sold, confirmed;
      }
      r := Transition(sm, i, if qty == NetQty(order, i.symbol) then Closed else Unknown);
    }

    // --- After the entry was submitted ---

    /** What any part of settling a trade comes to: halfway stopped, or the machine says what the row says, and does
        not stand where an entry is bare: protected, sold, halted, ended without a fill, or left for recovery. */
    twostate predicate Carried(i: TradeIntent, sm: TradeStateMachine, new r: Result<()>)
      reads this, ledger, exchange, sm
    {
      && now >= old(now) && Ebbs(old(auth), auth)
      && (r.Err? ==> Stopped(i, r.exn)) && Pos(i).entry == old(Pos(i)).entry
      && (r.Ok? ==>
            && sm.Valid() && RowIs(ledger.rows, i.id, sm.state)
            && sm.state in {Protected, UnderProtected, Closed, Halted, TradeState.Canceled, Expired, Unknown}
            && (sm.state == Closed && mode != Hostile ==> Pos(i).exit.Some?)
            && (old(Heeds(sm.history)) ==> Heeds(sm.history)))
    }

    /** What settling a fill comes to in a calm world. */
    twostate predicate SettledCalmly(i: TradeIntent, sm: TradeStateMachine, order: Order, new r: Result<()>)
      reads this, exchange, activity, sm
    {
      mode.Calm? && old(auth) && sound ==>
        var full, some := order.status == OrderFilled, Fills(order, i.symbol);
        && r.Ok? && sm.state == Ending(full, some)
        && (Pos(i).exit.Some? <==> sm.state == Closed) && (Guard(i, !full).Some? <==> Reserves(full, some))
        && OnlyErrors(old(activity.log), activity.log, EndErrors(full, some))
    }

    /** What reconciling comes to in a calm world: an entry that cannot be read, or is not there, is left for
        recovery. */
    twostate predicate Reconciled(i: TradeIntent, sm: TradeStateMachine, new r: Result<()>)
      reads this, exchange, activity, sm
    {
      if !Refuses(EntryRead) && old(Pos(i)).entry.Some? then SettledCalmly(i, sm, old(Pos(i)).entry.value, r)
      else mode.Calm? && old(auth) && sound ==>
        && r.Ok? && sm.state == Unknown && Pos(i) == old(Pos(i))
        && OnlyErrors(old(activity.log), activity.log, if Refuses(EntryRead) then 1 else 0)
    }

    /** What is made of an entry that ended without a fill, or in a way nobody knows. */
    function Unfilled(status: OrderStatus): Option<TradeState> {
      match status
      case OrderCanceled => Some(TradeState.Canceled)
      case OrderExpired => Some(Expired)
      case OrderOther => Some(Unknown)
      case _ => None
    }

    /** The entry of an intent, if the exchange shows it and it ended without a fill. */
    function ShownUnfilled(i: TradeIntent, c: ClientId): Option<TradeState>
      reads exchange
    {
      var o := exchange.QueryOrder(i.symbol, c);
      if o.Some? && !Refuses(EntryRead) then Unfilled(o.value.status) else None
    }

    /** What the exchange says of the entry decides what happens next. */
    method ReconcileAfterSubmit(i: TradeIntent, sm: TradeStateMachine) returns (r: Result<()>)
      requires Working(i) && sm.Valid() && RowIs(ledger.rows, i.id, sm.state) && ledger.rows[i.id].prepared
      requires sm.state in {Submitted, Unknown}
      requires sound ==> Pos(i) == Position(Pos(i).entry, None, None, None)
      modifies this`auth, this`now, sm, ledger, exchange`books, activity
      ensures Working(i) && Carried(i, sm, r) && Reconciled(i, sm, r)
      ensures var s := old(ShownUnfilled(i, ClientId(OriginOf(i), Entry)));
              mode.Calm? && old(auth) && s.Some? ==> r.Ok? && sm.state == s.value
    {
      hide Working, LegalPath, Heeds;
      Seen(i);
      var found := QueryOrder(i.symbol, ClientId(OriginOf(i), Entry), EntryRead);
      if found.Err? || found.value.None? {
        r := Unseen(i, sm, if found.Err? then Some(found.exn) else None);
        return;
      }
      r := Acknowledge(i, found.value.value, sm);
    }

    method Acknowledge(i: TradeIntent, order: Order, sm: TradeStateMachine) returns (r: Result<()>)
      requires Working(i) && sm.Valid() && RowIs(ledger.rows, i.id, sm.state) && ledger.rows[i.id].prepared
      requires sm.state in {Submitted, Unknown} && (sound ==> Naked(i, order))
      modifies this`auth, this`now, sm, ledger, exchange`books, activity
      ensures Working(i) && Carried(i, sm, r) && SettledCalmly(i, sm, order, r)
      ensures mode.Calm? && old(auth) && Unfilled(order.status).Some? ==>
                r.Ok? && sm.state == Unfilled(order.status).value
    {
      hide Working, LegalPath, Heeds;
      Seen(i);
      if sm.state == Unknown {
        var _ :- Transition(sm, i, Reconciling);
      }
      r := AcknowledgeAndSettle(i, order, sm);
    }

    method AcknowledgeAndSettle(i: TradeIntent, order: Order, sm: TradeStateMachine) returns (r: Result<()>)
      requires Working(i) && sm.Valid() && RowIs(ledger.rows, i.id, sm.state) && ledger.rows[i.id].prepared
      requires sm.state in {Submitted, Reconciling} && (sound ==> Naked(i, order))
      modifies this`auth, this`now, sm, ledger, exchange`books, activity
      ensures Working(i) && Carried(i, sm, r) && SettledCalmly(i, sm, order, r)
      ensures mode.Calm? && old(auth) && Unfilled(order.status).Some? ==>
                r.Ok? && sm.state == Unfilled(order.status).value
    {
      hide Working, LegalPath, Heeds;
      Seen(i);
      var _ :- Transition(sm, i, Acknowledged);
      r := Settle(i, order, sm);
    }

    /** The entry could not be read, which is an error, or is not there. */
    method Unseen(i: TradeIntent, sm: TradeStateMachine, exn: Option<Exn>) returns (r: Result<()>)
      requires Working(i) && sm.Valid() && RowIs(ledger.rows, i.id, sm.state) && ledger.rows[i.id].prepared
      requires sm.state in {Submitted, Unknown} && (mode.Calm? && auth ==> exn != Some(StaleEpoch))
      modifies this`auth, this`now, sm, ledger, activity
      ensures Working(i) && now >= old(now) && Ebbs(old(auth), auth)
      ensures r.Err? ==> CutsShort(r.exn)
      ensures r.Ok? ==> sm.Valid() && RowIs(ledger.rows, i.id, sm.state) && sm.state == Unknown
      ensures r.Ok? && old(Heeds(sm.history)) ==> Heeds(sm.history)
      ensures r.Ok? ==> OnlyErrors(old(activity.log), activity.log, if exn.Some? then 1 else 0)
      ensures mode.Calm? && old(auth) ==> r.Ok?
    {
      hide Working, LegalPath, Heeds;
      Seen(i);
      if exn.Some? {
        Caught(i, exn.value);
      }
      if sm.state != Unknown {
        var _ :- Transition(sm, i, Unknown);
      }
      r := Ok(());
      if exn.Some? {
        r := RecordError(i);
      }
    }

    method Settle(i: TradeIntent, order: Order, sm: TradeStateMachine) returns (r: Result<()>)
      requires Working(i) && sm.Valid() && RowIs(ledger.rows, i.id, sm.state) && ledger.rows[i.id].prepared
      requires sm.state == Acknowledged && (sound ==> Naked(i, order))
      modifies this`auth, this`now, sm, ledger, exchange`books, activity
      ensures Working(i) && Carried(i, sm, r) && SettledCalmly(i, sm, order, r)
      ensures r.Ok? && Unfilled(order.status).Some? ==> sm.state == Unfilled(order.status).value
      ensures mode.Calm? && old(auth) && Unfilled(order.status).Some? ==> r.Ok?
    {
      hide Working, LegalPath, Cornered, Heeds;
      Seen(i);
      match order.status {
        case OrderPartiallyFilled => r := SettlePartial(i, order, sm);
        case OrderFilled => r := SettleFilled(i, order, sm);
        case OrderCanceled => r := Transition(sm, i, TradeState.Canceled);
        case OrderExpired => r := Transition(sm, i, Expired);
        case OrderOther => r := Transition(sm, i, Unknown);
      }
    }

    method SettlePartial(i: TradeIntent, order: Order, sm: TradeStateMachine) returns (r: Result<()>)
      requires Working(i) && sm.Valid() && RowIs(ledger.rows, i.id, sm.state) && ledger.rows[i.id].prepared
      requires sm.state == Acknowledged && order.status == OrderPartiallyFilled && (sound ==> Naked(i, order))
      modifies this`auth, this`now, sm, ledger, exchange`books, activity
      ensures Working(i) && Carried(i, sm, r) && SettledCalmly(i, sm, order, r)
    {
      hide Working, LegalPath, Heeds;
      Seen(i);
      var _ :- Transition(sm, i, PartiallyFilled);
      r := CancelAndProtect(i, order, sm);
    }

    method CancelAndProtect(i: TradeIntent, order: Order, sm: TradeStateMachine) returns (r: Result<()>)
      requires Working(i) && sm.Valid() && RowIs(ledger.rows, i.id, sm.state) && ledger.rows[i.id].prepared
      requires sm.state == PartiallyFilled && (sound ==> Naked(i, order)) && StatusIs(order, true)
      modifies this`auth, this`now, sm, ledger, exchange`books, activity
      ensures Working(i) && Carried(i, sm, r) && SettledCalmly(i, sm, order, r)
    {
      hide Working, LegalPath, Heeds;
      Seen(i);
      var canceled := CancelRemainder();
      if canceled.Err? {
        Caught(i, canceled.exn);
        r := Transition(sm, i, Unknown);
        return;
      }
      r := ProtectPartial(i, order, sm);
    }

    /** What becomes of a fill that was tried to be protected. */
    method ProtectPartial(i: TradeIntent, order: Order, sm: TradeStateMachine) returns (r: Result<()>)
      requires Working(i) && sm.Valid() && RowIs(ledger.rows, i.id, sm.state) && ledger.rows[i.id].prepared
      requires sm.state == PartiallyFilled && (sound ==> Naked(i, order)) && StatusIs(order, true)
      modifies this`auth, this`now, sm, ledger, exchange`books, activity
      ensures Working(i) && Carried(i, sm, r)
      ensures !Refuses(RemainderCanceled) ==> SettledCalmly(i, sm, order, r)
    {
      hide Working, LegalPath, Cornered, PositionSound, StateFits, EntryFits, Heeds, OnlyErrors, NetQty, SaleEnd;
      hide SaleErrors;
      ghost var log := activity.log;
      var result :- ProtectOrderQty(i, order, sm, true);
      if result == Secured {
        r := HaltBehind(i, sm);
        return;
      }
      if result == Failed {
        ghost var failed := activity.log;
        r := EmergencySale(i, order, sm);
        AfterBoth(log, failed, activity.log, Fills(order, i.symbol));
        return;
      }
      r := Ok(());
    }

    /** The errors of an attempt at protecting that failed, and those of the sale after it. */
    lemma AfterBoth(a: seq<Noted>, b: seq<Noted>, c: seq<Noted>, some: bool)
      ensures OnlyErrors(a, b, 1) && OnlyErrors(b, c, SaleErrors(some)) ==> OnlyErrors(a, c, 1 + SaleErrors(some))
    {
      if OnlyErrors(a, b, 1) && OnlyErrors(b, c, SaleErrors(some)) {
        ErrorsAdd(a, b, c, 1, SaleErrors(some));
      }
    }

    /** A partial fill that is protected goes no further. */
    method HaltBehind(i: TradeIntent, sm: TradeStateMachine) returns (r: Result<()>)
      requires Working(i) && sm.Valid() && RowIs(ledger.rows, i.id, sm.state) && ledger.rows[i.id].prepared
      requires sm.state == PartiallyProtected
      modifies this`auth, this`now, sm, ledger
      ensures Working(i) && Carried(i, sm, r) && (r.Ok? ==> sm.state == Halted)
      ensures mode.Calm? && old(auth) ==> r.Ok?
    {
      hide Working, LegalPath, Cornered, EntryFits, Heeds;
      Seen(i);
      r := Transition(sm, i, Halted);
    }

    method SettleFilled(i: TradeIntent, order: Order, sm: TradeStateMachine) returns (r: Result<()>)
      requires Working(i) && sm.Valid() && RowIs(ledger.rows, i.id, sm.state) && ledger.rows[i.id].prepared
      requires sm.state == Acknowledged && order.status == OrderFilled && (sound ==> Naked(i, order))
      modifies this`auth, this`now, sm, ledger, exchange`books, activity
      ensures Working(i) && Carried(i, sm, r) && SettledCalmly(i, sm, order, r)
    {
      hide Working, LegalPath, Heeds;
      Seen(i);
      var _ :- Transition(sm, i, Filled);
      r := ProtectFull(i, order, sm);
    }

    method ProtectFull(i: TradeIntent, order: Order, sm: TradeStateMachine) returns (r: Result<()>)
      requires Working(i) && sm.Valid() && RowIs(ledger.rows, i.id, sm.state) && ledger.rows[i.id].prepared
      requires sm.state == Filled && (sound ==> Naked(i, order)) && StatusIs(order, false)
      modifies this`auth, this`now, sm, ledger, exchange`books, activity
      ensures Working(i) && Carried(i, sm, r) && SettledCalmly(i, sm, order, r)
    {
      hide Working, LegalPath, Cornered, PositionSound, StateFits, EntryFits, Heeds, OnlyErrors, NetQty, SaleEnd;
      hide SaleErrors;
      ghost var log := activity.log;
      var result :- ProtectOrderQty(i, order, sm, false);
      if result == Failed {
        ghost var failed := activity.log;
        r := EmergencySale(i, order, sm);
        AfterBoth(log, failed, activity.log, Fills(order, i.symbol));
        return;
      }
      r := Ok(());
    }

    // --- Recovery ---

    /** Writes down what recovery concluded. */
    method Conclude(i: TradeIntent, target: TradeState) returns (r: Result<TradeState>)
      requires Working(i) && i.id in ledger.rows
      requires MayBecome(ledger.rows[i.id], target, Pos(i), sound, settled && auth, startedAt)
      modifies this`auth, this`now, ledger
      ensures Working(i) && now >= old(now) && Ebbs(old(auth), auth)
      ensures r.Err? ==> CutsShort(r.exn)
      ensures i.id in ledger.rows
      ensures r.Ok? ==> r.value == target
                        && ledger.rows[i.id] == old(ledger.rows)[i.id].(state := target,
                          epoch := ledger.rows[i.id].epoch)
      ensures r == Err(StaleEpoch) ==> ledger.rows == old(ledger.rows)
      ensures mode.Calm? && old(auth) ==> r.Ok?
    {
      hide Working;
      var _ :- Persist(i, target, None);
      r := Ok(target);
    }

    /** Notes on the row that a query failed; a failure to note it is ignored. */
    method NoteError(i: TradeIntent) returns (r: Result<()>)
      requires Working(i) && i.id in ledger.rows
      modifies this`auth, this`now, ledger
      ensures Working(i) && now >= old(now) && Ebbs(old(auth), auth)
      ensures r.Err? ==> r.exn == Crash && !mode.Calm?
      ensures mode.Calm? && old(auth) ==> i.id in ledger.rows && epoch == Some(ledger.rows[i.id].epoch)
      ensures i.id in ledger.rows && ledger.rows[i.id] == old(ledger.rows)[i.id].(epoch := ledger.rows[i.id].epoch)
    {
      hide Working, Faithful, Filed, StateFits, PositionSound, EntryFits;
      Lapse(i);
      Guarded(i);
      Seen(i);
      label Before:
      var noted := ledger.MarkError(i.id, Who());
      Rewritten@Before(i);
      if noted.Ok? {
        var died: bool := *;
        if died && !mode.Calm? {
          return Err(Crash);
        }
      }
      r := Ok(());
    }

    /** The stored expectation of a protected row, or else the net fill of its entry. */
    method ExpectedQtyForRecord(i: TradeIntent, row: Row) returns (q: Option<real>)
      ensures row.expectedQty.Some? ==> q == row.expectedQty
      ensures q.Some? && mode != Hostile && row.expectedQty.None? ==>
                var o := exchange.QueryOrder(i.symbol, row.entryId); o.Some? && q.value == NetQty(o.value, i.symbol)
      ensures mode.Calm? && auth && row.expectedQty.None? ==>
                (q.Some? <==> !Refuses(EntryRead) && exchange.QueryOrder(i.symbol, row.entryId).Some?)
    {
      if row.expectedQty.Some? {
        return row.expectedQty;
      }
      var found := QueryOrder(i.symbol, row.entryId, EntryRead);
      if found.Err? || found.value.None? {
        return None;
      }
      q := Some(NetQty(found.value.value, i.symbol));
    }

    /** Checks that the protection there is, is what the entry calls for. */
    method Verdict(i: TradeIntent, expected: real, actual: real, partial: bool) returns (r: Result<TradeState>)
      requires Working(i) && i.id in ledger.rows
      requires sound ==> Pos(i).entry.Some? && expected == NetQty(Pos(i).entry.value, i.symbol)
      modifies this`auth, this`now, ledger
      ensures Working(i) && now >= old(now) && Ebbs(old(auth), auth)
      ensures r.Ok? ==> auth && r.value == if actual != expected then UnderProtected else Outcome(Secured, partial)
      ensures r.Err? ==> CutsShort(r.exn)
      ensures mode.Calm? && old(auth) ==> r.Ok?
      ensures i.id in ledger.rows && ledger.rows[i.id].state == old(ledger.rows)[i.id].state
      ensures ledger.rows[i.id].prepared == old(ledger.rows)[i.id].prepared
      ensures r.Ok? ==> && ledger.rows[i.id].expectedQty == Some(expected)
                        && ledger.rows[i.id].actualQty == Some(actual) && ledger.rows[i.id].verifiedAt.Some?
                        && old(now) <= ledger.rows[i.id].verifiedAt.value <= now
    {
      hide Working;
      var _ :- MarkVerified(i, expected, actual);
      r := Ok(if actual != expected then UnderProtected else Outcome(Secured, partial));
    }

    /** What an attempt of recovery at protecting an entry leaves behind, and what its answer is worth: the row is
        where it was, a claim is stamped and backed, and in a calm world an entry that can be protected is. */
    twostate predicate Attempted(i: TradeIntent, order: Order, partial: bool, new r: Result<Option<TradeState>>)
      requires i.id in old(ledger.rows)
      reads this, ledger, exchange
    {
      && (r.Err? ==> CutsShort(r.exn))
      && i.id in ledger.rows && ledger.rows[i.id].state == old(ledger.rows)[i.id].state
      && ledger.rows[i.id].prepared == old(ledger.rows)[i.id].prepared
      && Pos(i).exit == old(Pos(i)).exit && Pos(i).entry == old(Pos(i)).entry
      && (r.Ok? && r.value.Some? ==>
            && r.value.value in {ProtectionFailed, UnderProtected, Outcome(Secured, partial)}
            && (sound ==> StateFits(r.value.value, true, Pos(i)))
            && (ClaimsProtection(r.value.value) ==>
                  && ledger.rows[i.id].expectedQty.Some? && ledger.rows[i.id].verifiedAt.Some?
                  && old(now) <= ledger.rows[i.id].verifiedAt.value
                  && (mode != Hostile ==> BackedBy(exchange.books, ledger.rows[i.id].(state := r.value.value), i))))
      && (mode.Calm? && old(auth) && sound ==> r == Ok(Reprotects(old(Pos(i)), order, partial, i.symbol)))
    }

    /** What recovery makes of an entry in a calm world: the protection it finds or places, a failure to place one,
        or nothing that can be said. */
    function Reprotects(p: Position, order: Order, partial: bool, symbol: Symbol): Option<TradeState> {
      if Refuses(ProtectionRead) then None
      else if (if partial then p.partial else p.full).Some? then Some(Outcome(Secured, partial))
      else if Refuses(BalanceRead) then Some(ProtectionFailed)
      else if p.exit.Some? || NetQty(order, symbol) <= 0.0 then None
      else if Refuses(ProtectionPlaced) then Some(ProtectionFailed)
      else Some(Outcome(Secured, partial))
    }

    /** Where one undisturbed recovery leaves a sound row that it does not overreach for, in a calm world. */
    function RecoveredTo(s: TradeState, prepared: bool, p: Position, symbol: Symbol, strict: bool): TradeState {
      if Terminal(s) then s
      else if !prepared then Rejected
      else if ClaimsProtection(s) then if Refuses(ProtectionRead) && strict then Unknown else s
      else if s == EmergencyExit then if p.exit.Some? && !Refuses(ExitRead) then Closed else Unknown
      else if p.entry.None? || Refuses(EntryRead) then Unknown
      else FoundTo(p, p.entry.value, s in {ProtectionPending, PartialProtectionPending}, symbol)
    }

    /** The same for an entry that was found; a row that waits for its protection has no remainder to cancel. */
    function FoundTo(p: Position, order: Order, pending: bool, symbol: Symbol): TradeState {
      var partial := order.status == OrderPartiallyFilled;
      if partial && !pending && Refuses(RemainderCanceled) then Unknown
      else
        var t := Reprotects(p, order, partial, symbol);
        if t.Some? then t.value else Unknown
    }

    /** When nothing fails, it is the protection, whenever there is an entry with something left to protect. */
    lemma PeacefulRecovery(row: Row, p: Position, i: TradeIntent, strict: bool)
      requires Peaceful() && RowFits(row, i, p)
      ensures RecoveredTo(row.state, row.prepared, p, i.symbol, strict)
                == Recovered(row.state, row.prepared, p, i.symbol)
    {
    }

    lemma BooksUntouched(row: Row, x: Books, i: TradeIntent)
      ensures !AsksForEntry(row) ==> BooksAfter(row, x, i) == x
    {
    }

    lemma PeacefulBooks(row: Row, x: Books, i: TradeIntent)
      requires Peaceful()
      ensures BooksAfter(row, x, i) == RecoveredBooks(row, x, i)
    {
    }

    /** When requests of one kind fail: without a placement, or a balance to place against, a bare fill is left as
        ProtectionFailed; nothing is known of a protection that cannot be read, nor of an entry; an exit that cannot be
        read leaves an emergency sale Unknown; a remainder that cannot be canceled, a partial fill that was not
        waiting for protection; and nothing else matters. */
    lemma RecoveryWithout(row: Row, p: Position, i: TradeIntent, strict: bool, k: Request)
      requires mode == Calm({k}) && !steadyExits && RowFits(row, i, p)
      requires row.prepared && row.state !in {Closed, Rejected, TradeState.Canceled, Expired}
      ensures var s := RecoveredTo(row.state, row.prepared, p, i.symbol, strict);
              var usual := Recovered(row.state, row.prepared, p, i.symbol);
              var claims := row.state in {Protected, PartiallyProtected};
              match k
              case ProtectionPlaced | BalanceRead =>
                if p.entry.Some? && p.full.None? && p.partial.None? && p.exit.None? && row.state != EmergencyExit
                   && NetQty(p.entry.value, i.symbol) > 0.0
                then s == ProtectionFailed
                else k == BalanceRead || s == usual
              case ProtectionRead =>
                if claims then s == if strict then Unknown else row.state
                else if row.state == EmergencyExit then s == usual else s == Unknown
              case EntryRead => s == if claims || row.state == EmergencyExit then usual else Unknown
              case ExitRead => s == if row.state == EmergencyExit then Unknown else usual
              case RemainderCanceled =>
                if p.entry.Some? && p.entry.value.status == OrderPartiallyFilled && !claims
                   && row.state !in {EmergencyExit, PartialProtectionPending}
                then s == Unknown else s == usual
              case PriceRead | BuySent | BuyAnswered | SaleSent => s == usual
    {
    }

    /** The same for a new trade that is let through and fills: `some` says whether the fill leaves anything. */
    lemma TradeWithout(full: bool, some: bool, k: Request)
      requires mode == Calm({k}) && some && policy.emergencyExitOnUnprotected
      ensures var usual := if full then Protected else Halted;
              match k
              case ProtectionPlaced => Ending(full, some) == Closed && EndErrors(full, some) == 1
              case BalanceRead | ProtectionRead => Ending(full, some) == Unknown && EndErrors(full, some) == 1
              case RemainderCanceled =>
                EndErrors(full, some) == 0 && Ending(full, some) == if full then Protected else Unknown
              case PriceRead | BuySent | BuyAnswered | EntryRead | SaleSent | ExitRead =>
                Ending(full, some) == usual && EndErrors(full, some) == 0
    {
    }

    /** With a policy that does not sell, whatever could not be protected is Halted; and with sales turned down too,
        it is left Unknown with a second error on record. */
    lemma TradeUnprotected(full: bool, some: bool)
      requires mode.Calm? && !Refuses(RemainderCanceled) && !Reserves(full, some)
      ensures !policy.emergencyExitOnUnprotected ==> Ending(full, some) == Halted && EndErrors(full, some) == 1
      ensures policy.emergencyExitOnUnprotected && (!some || Refuses(BalanceRead)) ==>
                Ending(full, some) == Unknown && EndErrors(full, some) == 1
      ensures policy.emergencyExitOnUnprotected && some && !Refuses(BalanceRead) && Refuses(SaleSent) ==>
                Ending(full, some) == Unknown && EndErrors(full, some) == 2
    {
    }

    /** Whether recovery can come to place anything in a calm world. */
    predicate MayPlace() {
      !Refuses(ProtectionRead) && !Refuses(BalanceRead) && !Refuses(ProtectionPlaced)
    }

    /** What a recovery that runs to its end in a calm world does to the books, whatever is in the row. */
    ghost function BooksAfter(row: Row, x: Books, i: TradeIntent): Books {
      var entry := Shown(x, i.symbol, row.entryId);
      if Refuses(EntryRead) || !MayPlace() then x
      else if && row.state !in {ProtectionPending, PartialProtectionPending} && Refuses(RemainderCanceled)
              && entry.Some? && entry.value.status == OrderPartiallyFilled
      then x
      else RecoveredBooks(row, x, i)
    }

    /** Finds the protection of an entry, or places it; None when nothing can be said. */
    method RecoveryProtect(i: TradeIntent, order: Order, partial: bool) returns (r: Result<Option<TradeState>>)
      requires Working(i) && i.id in ledger.rows && ledger.rows[i.id].state !in {EmergencyExit, Closed}
      requires sound ==> && Pos(i).entry == Some(order) && StatusIs(order, partial)
                         && (Pos(i).exit.Some? ==> Min(NetQty(order, i.symbol), Free(exchange.books, i.symbol)) <= 0.0)
      modifies this`auth, this`now, ledger, exchange`books
      ensures Working(i) && now >= old(now) && Ebbs(old(auth), auth)
      ensures Attempted(i, order, partial, r)
      ensures mode.Calm? && old(auth) ==>
                exchange.books == if MayPlace() then Reprotected(old(exchange.books), i, order, partial)
                                  else old(exchange.books)
    {
      hide Working;
      Seen(i);
      var known := ProtectionDetails(i.symbol, ClientId(OriginOf(i), ProtectionSuffix(partial)));
      if known.Err? {
        Caught(i, known.exn);
        return Ok(None);
      }
      if known.value.Some? {
        var s :- Verdict(i, NetQty(order, i.symbol), known.value.value.baseQty, partial);
        return Ok(Some(s));
      }
      r := PlaceIfFree(i, order, partial);
    }

    /** Nothing is there yet: places what the free balance can back, if that is anything. */
    method PlaceIfFree(i: TradeIntent, order: Order, partial: bool) returns (r: Result<Option<TradeState>>)
      requires !Refuses(ProtectionRead)
      requires Working(i) && i.id in ledger.rows && ledger.rows[i.id].state !in {EmergencyExit, Closed}
      requires sound ==> && Pos(i).entry == Some(order) && StatusIs(order, partial) && Unprotected(Pos(i))
                         && (Pos(i).exit.Some? ==> Min(NetQty(order, i.symbol), Free(exchange.books, i.symbol)) <= 0.0)
      modifies this`auth, this`now, ledger, exchange`books
      ensures Working(i) && now >= old(now) && Ebbs(old(auth), auth)
      ensures Attempted(i, order, partial, r)
      ensures mode.Calm? && old(auth) ==>
                exchange.books == if MayPlace() then Reprotected(old(exchange.books), i, order, partial)
                                  else old(exchange.books)
    {
      hide Working;
      Seen(i);
      var q := AvailableTradeQty(order, i.symbol);
      if q.Err? {
        Caught(i, q.exn);
        return Ok(Some(ProtectionFailed));
      }
      if sound && Pos(i).exit == None {
        Backed(i);
      }
      if q.value.1 <= 0.0 {
        return Ok(None);
      }
      r := PlaceAgain(i, order, q.value.1, partial);
    }

    method PlaceAgain(i: TradeIntent, order: Order, qty: real, partial: bool) returns (r: Result<Option<TradeState>>)
      requires !Refuses(ProtectionRead) && !Refuses(BalanceRead)
      requires Working(i) && i.id in ledger.rows && ledger.rows[i.id].state !in {EmergencyExit, Closed}
      requires sound ==> Naked(i, order) && StatusIs(order, partial) && qty == NetQty(order, i.symbol) > 0.0
      modifies this`auth, this`now, ledger, exchange`books
      ensures Working(i) && now >= old(now) && Ebbs(old(auth), auth)
      ensures Attempted(i, order, partial, r)
      ensures var c := ClientId(OriginOf(i), ProtectionSuffix(partial));
              mode.Calm? && old(auth) && 0.0 < qty <= Free(old(exchange.books), i.symbol) ==>
                exchange.books == if !MayPlace() || c in old(exchange.books).protections then old(exchange.books)
                                  else Placed(old(exchange.books), c, i.symbol, qty)
    {
      hide Working, NetQty;
      Seen(i);
      var placed := PlaceProtection(i, qty, partial);
      if placed.Err? {
        if placed.exn == Crash {
          return Err(Crash);
        }
        Caught(i, placed.exn);
        return Ok(Some(ProtectionFailed));
      }
      r := ReadBack(i, order, partial);
    }

    /** What was placed is read back, and the row stamped with what is there. */
    method ReadBack(i: TradeIntent, order: Order, partial: bool) returns (r: Result<Option<TradeState>>)
      requires !Refuses(ProtectionRead)
      requires Working(i) && i.id in ledger.rows
      requires sound ==> && Pos(i).entry == Some(order) && Pos(i).exit == None && NetQty(order, i.symbol) > 0.0
                         && ClientId(OriginOf(i), ProtectionSuffix(partial)) in exchange.books.protections
                         && ledger.rows[i.id].state != EmergencyExit
      modifies this`auth, this`now, ledger
      ensures Working(i) && now >= old(now) && Ebbs(old(auth), auth)
      ensures Attempted(i, order, partial, r)
    {
      hide Working, NetQty;
      Seen(i);
      var details := ProtectionDetails(i.symbol, ClientId(OriginOf(i), ProtectionSuffix(partial)));
      if details.Err? {
        Caught(i, details.exn);
        return Ok(Some(ProtectionFailed));
      }
      if details.value.None? {
        return Ok(None);
      }
      var verdict := Verdict(i, NetQty(order, i.symbol), details.value.value.baseQty, partial);
      if verdict == Err(Crash) {
        return Err(Crash);
      }
      r := Ok(Some(if verdict.Ok? then verdict.value else ProtectionFailed));
    }

    /** What a claim is held against: the quantity expected, and the protection there is.  None when
        either could not be read; the row then carries a note of the error. */
    method ReadClaim(i: TradeIntent) returns (r: Result<Option<(real, Option<ProtectionOrder>)>>)
      requires Working(i) && i.id in ledger.rows && ClaimsProtection(ledger.rows[i.id].state)
      modifies this`auth, this`now, ledger
      ensures Working(i) && now >= old(now) && Ebbs(old(auth), auth)
      ensures r.Err? ==> r.exn == Crash && !mode.Calm?
      ensures i.id in ledger.rows && ledger.rows[i.id] == old(ledger.rows)[i.id].(epoch := ledger.rows[i.id].epoch)
      ensures mode.Calm? && old(auth) && old(ledger.rows)[i.id].expectedQty.Some? && r == Ok(None) ==>
                epoch == Some(ledger.rows[i.id].epoch)
      ensures r.Ok? && r.value.Some? && mode != Hostile ==>
                r.value.value.1 == exchange.ProtectionDetails(i.symbol, ClaimId(i, ledger.rows[i.id].state))
      ensures r.Ok? && r.value.Some? && ledger.rows[i.id].expectedQty.Some? ==>
                ledger.rows[i.id].expectedQty == Some(r.value.value.0)
      ensures r.Ok? && r.value.Some? && sound ==>
                Pos(i).entry.Some? && r.value.value.0 == NetQty(Pos(i).entry.value, i.symbol)
      ensures mode.Calm? && old(auth) && old(ledger.rows)[i.id].expectedQty.Some? ==>
                r.Ok? && (r.value.Some? <==> !Refuses(ProtectionRead))
    {
      hide Working;
      Seen(i);
      var row := ledger.rows[i.id];
      var expected := ExpectedQtyForRecord(i, row);
      if expected.None? {
        return Ok(None);
      }
      var details := ProtectionDetails(i.symbol, ClaimId(i, row.state));
      if details.Err? {
        Caught(i, details.exn);
        var _ :- NoteError(i);
        return Ok(None);
      }
      r := Ok(Some((expected.value, details.value)));
    }

    /** A sound claim is what the exchange shows. */
    lemma ClaimShown(i: TradeIntent)
      requires Working(i) && ClaimsAt(ledger.rows, i.id)
      ensures ledger.rows[i.id].expectedQty.Some?
      ensures sound ==> Pos(i).exit.None? && Rechecked(ledger.rows[i.id],
                exchange.ProtectionDetails(i.symbol, ClaimId(i, ledger.rows[i.id].state))) == ledger.rows[i.id].state
      ensures sound ==> exchange.ProtectionDetails(i.symbol, ClaimId(i, ledger.rows[i.id].state)).Some?
                        && exchange.ProtectionDetails(i.symbol, ClaimId(i, ledger.rows[i.id].state)).value.baseQty
                             == ledger.rows[i.id].expectedQty.value
    {
      Seen(i);
      Guarded(i);
    }

    /** A row that claims protection: the claim stands, or falls to Unknown. */
    method RecoverClaim(i: TradeIntent, strict: bool) returns (r: Result<TradeState>)
      requires Working(i) && i.id in ledger.rows && ledger.rows[i.id].prepared
      requires ClaimsProtection(ledger.rows[i.id].state)
      modifies this`auth, this`now, ledger
      ensures Working(i) && now >= old(now) && Ebbs(old(auth), auth)
      ensures r.Err? ==> CutsShort(r.exn)
      ensures r.Ok? ==> RowIs(ledger.rows, i.id, r.value)
      ensures r == Err(StaleEpoch) ==> RowIs(ledger.rows, i.id, old(ledger.rows)[i.id].state)
      ensures strict && r.Ok? && ClaimsProtection(r.value) && mode != Hostile ==>
                BackedBy(exchange.books, ledger.rows[i.id], i)
      ensures !strict && r == Ok(Unknown) && mode != Hostile ==>
                exchange.ProtectionDetails(i.symbol, ClaimId(i, old(ledger.rows)[i.id].state)).None?
      ensures mode.Calm? && old(auth) && old(ledger.rows)[i.id].expectedQty.Some? ==>
                r == Ok(if Refuses(ProtectionRead) then (if strict then Unknown else old(ledger.rows)[i.id].state)
                        else Rechecked(old(ledger.rows)[i.id],
                          exchange.ProtectionDetails(i.symbol, ClaimId(i, old(ledger.rows)[i.id].state))))
      ensures mode.Calm? && old(auth) && sound ==>
                r == Ok(if Refuses(ProtectionRead) && strict then Unknown else old(ledger.rows)[i.id].state)
    {
      hide Working, EntryFits, NetQty, PositionSound, Exact;
      ClaimShown(i);
      Seen(i);
      var state := ledger.rows[i.id].state;
      var claim :- ReadClaim(i);
      if claim.None? && !strict {
        return Ok(state);
      }
      if claim.None? || claim.value.1.None? {
        r := Conclude(i, Unknown);
        return;
      }
      r := Reverify(i, state, claim.value.0, claim.value.1.value.baseQty, state == PartiallyProtected);
    }

    method Reverify(i: TradeIntent, claim: TradeState, expected: real, actual: real, partial: bool)
      returns (r: Result<TradeState>)
      requires Working(i) && RowIs(ledger.rows, i.id, claim) && claim == Outcome(Secured, partial)
      requires sound ==> Pos(i).entry.Some? && expected == NetQty(Pos(i).entry.value, i.symbol) && actual == expected
      modifies this`auth, this`now, ledger
      ensures Working(i) && now >= old(now) && Ebbs(old(auth), auth)
      ensures r.Err? ==> CutsShort(r.exn)
      ensures i.id in ledger.rows
      ensures r.Ok? ==> RowIs(ledger.rows, i.id, r.value) && r.value in {claim,
                UnderProtected} && (r.value == claim <==> actual == expected)
      ensures r.Ok? ==> ledger.rows[i.id].expectedQty == Some(expected) && ledger.rows[i.id].verifiedAt.Some?
                        && old(now) <= ledger.rows[i.id].verifiedAt.value <= now
      ensures r == Err(StaleEpoch) ==> ledger.rows[i.id].state == old(ledger.rows)[i.id].state
      ensures mode.Calm? && old(auth) ==> r.Ok?
    {
      hide Working;
      Seen(i);
      var verdict :- Verdict(i, expected, actual, partial);
      if verdict == UnderProtected {
        r := Conclude(i, UnderProtected);
        return;
      }
      r := Ok(verdict);
    }

    /** The entry behind a row, if the exchange shows it. */
    method FindEntry(i: TradeIntent) returns (o: Option<Order>)
      requires i.id in ledger.rows
      ensures mode != Hostile && o.Some? ==> o == exchange.QueryOrder(i.symbol, ledger.rows[i.id].entryId)
      ensures mode.Calm? && auth ==>
                o == if Refuses(EntryRead) then None else exchange.QueryOrder(i.symbol, ledger.rows[i.id].entryId)
    {
      var found := QueryOrder(i.symbol, ledger.rows[i.id].entryId, EntryRead);
      o := if found.Ok? then found.value else None;
    }

    /** What recovering an entry comes to: the row says what was concluded, or, if authority went, what it said
        before; entry and exit are untouched, and an honest exchange backs a claim. */
    twostate predicate Concluded(i: TradeIntent, new r: Result<TradeState>)
      requires i.id in old(ledger.rows)
      reads this, ledger, exchange
    {
      && now >= old(now) && Ebbs(old(auth), auth)
      && (r.Err? ==> CutsShort(r.exn))
      && Pos(i).exit == old(Pos(i)).exit && Pos(i).entry == old(Pos(i)).entry
      && (r == Err(StaleEpoch) ==> RowIs(ledger.rows, i.id, old(ledger.rows)[i.id].state))
      && (r.Ok? ==>
            && RowIs(ledger.rows, i.id, r.value)
            && (ClaimsProtection(r.value) && mode != Hostile ==> BackedBy(exchange.books, ledger.rows[i.id], i)))
    }

    /** A row caught between asking for protection and knowing of it. */
    method RecoverPending(i: TradeIntent, partial: bool) returns (r: Result<TradeState>)
      requires Working(i) && RowIs(ledger.rows, i.id, if partial then PartialProtectionPending else ProtectionPending)
      requires ledger.rows[i.id].prepared
      requires sound ==> !Overreach(ledger.rows, exchange.books, i)
      modifies this`auth, this`now, ledger, exchange`books
      ensures Working(i) && Concluded(i, r)
      ensures mode.Calm? && old(auth) && sound ==>
                r == Ok(RecoveredTo(old(ledger.rows)[i.id].state, true, old(Pos(i)), i.symbol, true))
      ensures mode.Calm? && old(auth) ==>
                exchange.books == BooksAfter(old(ledger.rows)[i.id], old(exchange.books), i)
    {
      hide Working, RecoveredBooks, Reprotected, Free, NetQty, Overreach;
      Seen(i);
      PendingBooks(ledger.rows[i.id], exchange.books, i, partial);
      var read := ReadPending(i, partial);
      if read.None? {
        r := Conclude(i, Unknown);
        return;
      }
      r := ResolvePending(i, read.value.0, read.value.1, partial);
    }

    /** A pending row whose entry could be read: its protection is there, or is placed now. */
    method ResolvePending(i: TradeIntent, order: Order, details: Option<ProtectionOrder>, partial: bool)
      returns (r: Result<TradeState>)
      requires !Refuses(ProtectionRead)
      requires Working(i) && RowIs(ledger.rows, i.id, if partial then PartialProtectionPending else ProtectionPending)
      requires ledger.rows[i.id].prepared
      requires sound ==> && !Overreach(ledger.rows, exchange.books, i)
                         && Pos(i).entry == Some(order) && StatusIs(order, partial)
                         && details == if partial then Pos(i).partial else Pos(i).full
      requires mode != Hostile ==>
                details == exchange.ProtectionDetails(i.symbol, ClientId(OriginOf(i), ProtectionSuffix(partial)))
      modifies this`auth, this`now, ledger, exchange`books
      ensures Working(i) && Concluded(i, r)
      ensures r.Ok? && details.Some? ==>
                r.value == if details.value.baseQty == NetQty(order, i.symbol) then Outcome(Secured, partial)
                           else UnderProtected
      ensures mode.Calm? && old(auth) && sound ==> r == Ok(FoundTo(old(Pos(i)), order, true, i.symbol))
      ensures mode.Calm? && old(auth) ==>
                exchange.books == if MayPlace() then Reprotected(old(exchange.books), i, order, partial)
                                  else old(exchange.books)
    {
      hide Working, Free, EntryFits, Overreach;
      Seen(i);
      if details.Some? {
        r := Adopt(i, NetQty(order, i.symbol), details.value.baseQty, partial);
      } else {
        r := RecoverNaked(i, order, partial);
      }
    }

    /** The entry of a pending row and the protection there is; None when either could not be read. */
    method ReadPending(i: TradeIntent, partial: bool) returns (r: Option<(Order, Option<ProtectionOrder>)>)
      requires i.id in ledger.rows
      ensures mode != Hostile && r.Some? ==>
                && exchange.QueryOrder(i.symbol, ledger.rows[i.id].entryId) == Some(r.value.0)
                && r.value.1 == exchange.ProtectionDetails(i.symbol, ClientId(OriginOf(i), ProtectionSuffix(partial)))
      ensures r.Some? ==> !Refuses(ProtectionRead)
      ensures mode.Calm? && auth ==>
                (r.Some? <==> !Refuses(ProtectionRead) && !Refuses(EntryRead)
                              && exchange.QueryOrder(i.symbol, ledger.rows[i.id].entryId).Some?)
    {
      var details := ProtectionDetails(i.symbol, ClientId(OriginOf(i), ProtectionSuffix(partial)));
      if details.Err? {
        return None;
      }
      var found := FindEntry(i);
      r := if found.Some? then Some((found.value, details.value)) else None;
    }

    /** A protection was there after all. */
    method Adopt(i: TradeIntent, expected: real, actual: real, partial: bool) returns (r: Result<TradeState>)
      requires Working(i) && i.id in ledger.rows && ledger.rows[i.id].prepared && !Terminal(ledger.rows[i.id].state)
      requires sound ==> && Pos(i).entry.Some? && expected == NetQty(Pos(i).entry.value, i.symbol) && actual == expected
                         && (if partial then Pos(i).partial else Pos(i).full).Some?
      requires settled ==> Pos(i).exit == None
      requires mode != Hostile ==> var p := exchange.ProtectionDetails(i.symbol, ClaimId(i, Outcome(Secured, partial)));
                                   p.Some? && p.value.baseQty == actual
      modifies this`auth, this`now, ledger
      ensures Working(i) && now >= old(now) && Ebbs(old(auth), auth)
      ensures r.Err? ==> CutsShort(r.exn)
      ensures r.Ok? ==> RowIs(ledger.rows, i.id, r.value)
      ensures r.Ok? ==> r.value == if actual != expected then UnderProtected else Outcome(Secured, partial)
      ensures r == Err(StaleEpoch) ==> RowIs(ledger.rows, i.id, old(ledger.rows)[i.id].state)
      ensures r.Ok? && ClaimsProtection(r.value) && mode != Hostile ==> BackedBy(exchange.books, ledger.rows[i.id], i)
      ensures mode.Calm? && old(auth) ==> r.Ok?
    {
      hide Working;
      Guarded(i);
      var target :- Verdict(i, expected, actual, partial);
      r := Conclude(i, target);
    }

    /** Protects an entry found without protection, if it can. */
    method RecoverNaked(i: TradeIntent, order: Order, partial: bool) returns (r: Result<TradeState>)
      requires Working(i) && i.id in ledger.rows && ledger.rows[i.id].prepared
      requires ledger.rows[i.id].state !in {EmergencyExit, UnderProtected} && !Terminal(ledger.rows[i.id].state)
      requires sound ==>
                !Overreach(ledger.rows, exchange.books, i) && Pos(i).entry == Some(order) && StatusIs(order, partial)
      modifies this`auth, this`now, ledger, exchange`books
      ensures Working(i) && Concluded(i, r)
      ensures mode.Calm? && old(auth) && sound ==>
                var t := Reprotects(old(Pos(i)), order, partial, i.symbol);
                r == Ok(if t.Some? then t.value else Unknown)
      ensures mode.Calm? && old(auth) ==>
                exchange.books == if MayPlace() then Reprotected(old(exchange.books), i, order, partial)
                                  else old(exchange.books)
    {
      hide Working, EntryFits;
      Guarded(i);
      var target :- RecoveryProtect(i, order, partial);
      Seen(i);
      r := Conclude(i, if target.Some? then target.value else Unknown);
    }

    /** A row in the middle of a sale: closed if the sale is there, unknown otherwise. */
    method RecoverExit(i: TradeIntent) returns (r: Result<TradeState>)
      requires Working(i) && RowIs(ledger.rows, i.id, EmergencyExit) && ledger.rows[i.id].prepared
      modifies this`auth, this`now, ledger
      ensures Working(i) && now >= old(now) && Ebbs(old(auth), auth)
      ensures r.Err? ==> CutsShort(r.exn)
      ensures r.Ok? ==> r.value in {Closed, Unknown}
      ensures r.Ok? ==> RowIs(ledger.rows, i.id, r.value)
      ensures r == Err(StaleEpoch) ==> RowIs(ledger.rows, i.id, old(ledger.rows)[i.id].state)
      ensures r == Ok(Closed) && mode != Hostile ==>
                exchange.QueryOrder(i.symbol, ClientId(OriginOf(i), EmergencyExitSale)).Some?
      ensures mode.Calm? && old(auth) && sound ==>
                r == Ok(if Pos(i).exit.Some? && !Refuses(ExitRead) then Closed else Unknown)
    {
      hide Working;
      Seen(i);
      var found := QueryOrder(i.symbol, ClientId(OriginOf(i), EmergencyExitSale), ExitRead);
      if found.Err? {
        Caught(i, found.exn);
        r := Conclude(i, Unknown);
        return;
      }
      r := Conclude(i, if found.value.Some? && found.value.value.status == OrderFilled then Closed else Unknown);
    }

    /** Any other row: what the exchange says of the entry decides. */
    method RecoverEntry(i: TradeIntent) returns (r: Result<TradeState>)
      requires Working(i) && i.id in ledger.rows && ledger.rows[i.id].prepared
      requires AsksForEntry(ledger.rows[i.id])
      requires ledger.rows[i.id].state !in {ProtectionPending, PartialProtectionPending}
      requires sound ==> !Overreach(ledger.rows, exchange.books, i)
      modifies this`auth, this`now, ledger, exchange`books
      ensures Working(i) && Concluded(i, r)
      ensures var s := old(ShownUnfilled(i, ledger.rows[i.id].entryId));
              mode.Calm? && old(auth) && s.Some? ==> r == Ok(s.value)
      ensures mode.Calm? && old(auth) && sound ==>
                r == Ok(RecoveredTo(old(ledger.rows)[i.id].state, true, old(Pos(i)), i.symbol, true))
      ensures mode.Calm? && old(auth) ==>
                exchange.books == BooksAfter(old(ledger.rows)[i.id], old(exchange.books), i)
    {
      hide Working, RecoveredBooks, Reprotected, Free, Overreach;
      Seen(i);
      EntryBooks(ledger.rows[i.id], exchange.books, i);
      var found := FindEntry(i);
      if found.None? {
        r := Conclude(i, Unknown);
        return;
      }
      var order := found.value;
      if order.status == OrderFilled {
        r := RecoverNaked(i, order, false);
        return;
      }
      if order.status == OrderPartiallyFilled {
        var canceled := CancelRemainder();
        if canceled.Ok? {
          r := RecoverNaked(i, order, true);
          return;
        }
        Caught(i, canceled.exn);
      }
      r := Conclude(i, match order.status
                       case OrderCanceled => TradeState.Canceled
                       case OrderExpired => Expired
                       case _ => Unknown);
    }

    /** What the row alone decides of its recovery: an end stays, without a mark there is nothing to recover, a
        shortfall is left for intervention, and so is an exit that was not the engine's own; an emergency sale is
        only ever closed or left unknown. */
    twostate predicate AsTheRowSays(row: Row, new r: Result<TradeState>)
      reads exchange
    {
      && (row.state in {Closed, Rejected, TradeState.Canceled, Expired} ==>
            r == Ok(row.state) && exchange.books == old(exchange.books))
      && (row.state !in {Closed, Rejected, TradeState.Canceled, Expired} && r.Ok? ==>
            && (!row.prepared ==>
                  && exchange.books == old(exchange.books)
                  && r.value == if row.state in {Created, RiskApproved, Halted, Unknown} then Rejected else Unknown)
            && (row.prepared && row.state == UnderProtected ==>
                  r.value == UnderProtected && exchange.books == old(exchange.books))
            && (row.prepared && row.state == ExitPending ==>
                  r.value == Unknown && exchange.books == old(exchange.books))
            && (row.prepared && row.state == EmergencyExit ==>
                  r.value in {Closed, Unknown} && exchange.books == old(exchange.books)))
    }

    /** What the recovery of a row comes to: what was concluded is in the row, or, if authority went, what was there
        before; entry and exit are untouched; what the row alone decides is decided so; a strict recovery leaves a
        claim only where an honest exchange backs it.  In a calm world an entry that ended without a fill ends the
        trade, a claim is what it comes to when held against the protection there is, and the books are those of
        the recovery. */
    twostate predicate Resumes(i: TradeIntent, strict: bool, new r: Result<TradeState>)
      requires i.id in old(ledger.rows)
      reads this, ledger, exchange
    {
      var row := old(ledger.rows)[i.id];
      && now >= old(now) && Ebbs(old(auth), auth) && (r.Err? ==> CutsShort(r.exn))
      && (r.Ok? ==> RowIs(ledger.rows, i.id, r.value))
      && (r == Err(StaleEpoch) ==> RowIs(ledger.rows, i.id, row.state))
      && Pos(i).exit == old(Pos(i)).exit && Pos(i).entry == old(Pos(i)).entry
      && AsTheRowSays(row, r)
      && (strict && r.Ok? && ClaimsProtection(r.value) && mode != Hostile ==>
            i.id in ledger.rows && BackedBy(exchange.books, ledger.rows[i.id], i))
      && (mode.Calm? && old(auth) ==>
            && exchange.books == BooksAfter(row, old(exchange.books), i)
            && (AsksForEntry(row) && row.state !in {ProtectionPending, PartialProtectionPending}
                && old(ShownUnfilled(i, row.entryId)).Some? ==>
                  r == Ok(old(ShownUnfilled(i, row.entryId)).value))
            && (ClaimsProtection(row.state) && row.prepared && row.expectedQty.Some? && !Refuses(ProtectionRead) ==>
                  r == Ok(Rechecked(row, exchange.ProtectionDetails(i.symbol, ClaimId(i, row.state))))))
    }

    /** Resumes an intent from whatever the ledger says of it. */
    method RecoverIntent(i: TradeIntent, strict: bool) returns (r: Result<TradeState>)
      requires Working(i) && (sound ==> !Overreach(ledger.rows, exchange.books, i))
      modifies this`auth, this`now, ledger, exchange`books
      ensures Working(i)
      ensures if i.id in old(ledger.rows) then Resumes(i, strict, r) else r == Ok(Unknown) && Here() == old(Here())
      ensures now >= old(now) && Ebbs(old(auth), auth)
      ensures mode.Calm? && old(auth) && sound && i.id in old(ledger.rows) ==>
                r == Ok(RecoveredTo(old(ledger.rows)[i.id].state, old(ledger.rows)[i.id].prepared, old(Pos(i)),
                  i.symbol, strict))
    {
      hide Working, PositionSound, EntryFits, NetQty, BooksAfter, BackedBy, Free, ShownUnfilled, Overreach;
      Guarded(i);
      Seen(i);
      if i.id !in ledger.rows {
        return Ok(Unknown);
      }
      var row := ledger.rows[i.id];
      BooksUntouched(row, exchange.books, i);
      if Terminal(row.state) {
        return Ok(row.state);
      }
      if !row.prepared {
        r := Conclude(i, if row.state in {Created, RiskApproved, Halted, Unknown} then Rejected else Unknown);
        return;
      }
      r := RecoverMarked(i, strict);
    }

    /** A row that was marked, and has not ended. */
    method RecoverMarked(i: TradeIntent, strict: bool) returns (r: Result<TradeState>)
      requires Working(i) && (sound ==> !Overreach(ledger.rows, exchange.books, i))
      requires i.id in ledger.rows && ledger.rows[i.id].prepared && !Terminal(ledger.rows[i.id].state)
      modifies this`auth, this`now, ledger, exchange`books
      ensures Working(i) && Resumes(i, strict, r)
      ensures mode.Calm? && old(auth) && sound ==>
                r == Ok(RecoveredTo(old(ledger.rows)[i.id].state, true, old(Pos(i)), i.symbol, strict))
    {
      hide Working, PositionSound, EntryFits, NetQty, BooksAfter, BackedBy, Free, ShownUnfilled, Overreach;
      Guarded(i);
      Seen(i);
      var row := ledger.rows[i.id];
      BooksUntouched(row, exchange.books, i);
      if ClaimsProtection(row.state) {
        r := RecoverClaim(i, strict);
      } else if row.state == UnderProtected {
        r := Conclude(i, UnderProtected);
      } else if row.state in {ProtectionPending, PartialProtectionPending} {
        r := RecoverPending(i, row.state == PartialProtectionPending);
      } else if row.state == EmergencyExit {
        r := RecoverExit(i);
      } else if row.state == ExitPending {
        r := Conclude(i, Unknown);
      } else {
        r := RecoverEntry(i);
      }
    }

    // --- Whole operations ---

    /** The world this intent meets: sound, its own row if there is one, and nothing for recovery to overreach for. */
    ghost predicate Fit(i: TradeIntent)
      reads ledger, exchange
    {
      SoundNow() && Matches(ledger.rows, i) && !Overreach(ledger.rows, exchange.books, i)
    }

    ghost predicate Settling(i: TradeIntent)
      reads ledger, exchange
    {
      Fit(i) && steadyExits && SettledAt(ledger.rows, exchange.books, i)
    }

    /** The protocol invariant, with every sold position on its way to Closed: the durable state an engine
        should find, and leave, in an honest world whose exits can be read. */
    ghost predicate Healthy()
      reads ledger, exchange
    {
      SoundNow() && steadyExits && SoldSettled(ledger.rows, exchange.books)
    }

    /** What every operation on one intent keeps: only its row and orders moved and no end was undone, a claim
        carries a fresh stamp or the one it had, unless its withdrawal was cut, and from a fit, settling or
        healthy state the next one is no worse. */
    twostate predicate Kept(i: TradeIntent)
      reads this, ledger, exchange
    {
      && Moved(old(Here()), Here(), i)
      && (StampedSince(old(ledger.rows), ledger.rows, i.id, old(now)) || StampCut(old(ledger.rows), ledger.rows, i.id))
      && (old(Fit(i)) ==> SoundNow() && Matches(ledger.rows, i))
      && (old(Settling(i)) ==> SettledAt(ledger.rows, exchange.books, i))
      && (old(Healthy() && Matches(ledger.rows, i)) ==> Healthy())
    }

    /** The protocol invariant stands unless a recovery overreached, and from a healthy state none does. */
    twostate predicate StaysSound(overreached: bool)
      reads ledger, exchange
    {
      && (old(SoundNow()) && !overreached ==> SoundNow())
      && (old(Healthy()) ==> Healthy() && !overreached)
    }

    /** In a sound state a claim stands. */
    lemma SoundClaimStands(id: Name)
      requires SoundNow() && ClaimsAt(ledger.rows, id) && Valid()
      ensures ledger.rows[id].payload.Readable?
      ensures BackedBy(exchange.books, ledger.rows[id], ledger.rows[id].payload.intent)
    {
      assert RowSound(ledger.rows, id, exchange.books) && RowOrderly(ledger.rows, id);
    }

    lemma HealthyIsSound()
      requires Healthy()
      ensures SoundNow()
    {
    }

    lemma HealthyIsNoOverreach(i: TradeIntent)
      requires Healthy() && Matches(ledger.rows, i)
      ensures !Overreach(ledger.rows, exchange.books, i)
    {
      SettledHere(ledger.rows, exchange.books, exchange.baseline, i);
    }

    /** What a caller needs to know of an operation, above all on the intent that its row was written for. */
    twostate lemma KeptMeans(i: TradeIntent)
      requires Kept(i)
      ensures OnlyRow(old(ledger.rows), ledger.rows, i.id)
      ensures i.id in old(ledger.rows) ==>
                i.id in ledger.rows && ledger.rows[i.id].payload == old(ledger.rows)[i.id].payload
      ensures StampedSince(old(ledger.rows), ledger.rows, i.id, old(now))
              || StampCut(old(ledger.rows), ledger.rows, i.id)
      ensures old(Fit(i)) ==> SoundNow() && Matches(ledger.rows, i)
      ensures old(Matches(ledger.rows, i)) ==> StaysSound(old(Overreach(ledger.rows, exchange.books, i)))
      ensures old(Matches(ledger.rows, i) && ClaimsAt(ledger.rows, i.id)) ==> StaysSound(false)
    {
      if old(SoundNow() && Matches(ledger.rows, i) && ClaimsAt(ledger.rows, i.id)) {
        ClaimIsNoOverreach(old(ledger.rows), old(exchange.books), exchange.baseline, i);
      }
      if old(Healthy() && Matches(ledger.rows, i)) {
        SettledHere(old(ledger.rows), old(exchange.books), exchange.baseline, i);
      }
    }

    twostate lemma Idle(i: TradeIntent)
      requires unchanged(this) && unchanged(ledger) && unchanged(exchange)
      ensures Kept(i)
    {
    }

    /** One recovery of one intent. */
    method Recover(i: TradeIntent, strict: bool) returns (r: Result<TradeState>)
      requires Valid()
      modifies this`auth, this`now, this`began, this`startedAt, this`sound, this`settled, this`withdrawing
      modifies this`capped, ledger
      modifies exchange`books
      ensures Valid() && now >= old(now) && Ebbs(old(auth), auth) && Kept(i)
      ensures if i.id in old(ledger.rows) then Resumes(i, strict, r) else r == Ok(Unknown) && Here() == old(Here())
      ensures StampedSince(old(ledger.rows), ledger.rows, i.id, old(now))
      ensures mode.Calm? && old(auth) && old(Fit(i)) && i.id in old(ledger.rows) ==>
                && r == Ok(RecoveredTo(old(ledger.rows)[i.id].state, old(ledger.rows)[i.id].prepared, old(Pos(i)),
                  i.symbol, strict))
                && RowFits(ledger.rows[i.id], i, Pos(i))
    {
      hide Working, Kept, RecoveredBooks, RecoveredTo, BooksAfter, BackedBy, Overreach, Matches, PositionSound,
          StateFits;
      if i.id !in ledger.rows {
        Idle(i);
        return Ok(Unknown);
      }
      Begin(i);
      r := RecoverIntent(i, strict);
      Seen(i);
      Done(i);
    }

    /** Sets the marks that the operation is measured against. */
    ghost method Begin(i: TradeIntent)
      requires Valid() && i.id in ledger.rows
      modifies this`began, this`startedAt, this`sound, this`settled, this`withdrawing, this`capped
      ensures Working(i) && began == Here() && startedAt == now && !capped && !withdrawing
      ensures sound == Fit(i) && settled == Settling(i)
      ensures SoundFor(i) ==> RowFits(ledger.rows[i.id], i, Pos(i))
    {
      assert SoundFor(i) ==> RowSound(ledger.rows, i.id, exchange.books);
      began := Here();
      startedAt := now;
      sound := Fit(i);
      settled := Settling(i);
      capped := false;
      withdrawing := false;
    }

    /** At the end of an operation measured from where it began. */
    twostate lemma Done(i: TradeIntent)
      requires old(Valid()) && Working(i) && began == old(Here()) && startedAt == old(now)
      requires (sound == old(Fit(i)) && settled == old(Settling(i))) || Here() == old(Here())
      ensures Valid() && Kept(i) && (capped ==> CapsHold(activity.log))
      ensures !withdrawing ==> StampedSince(old(ledger.rows), ledger.rows, i.id, old(now))
    {
      if old(Healthy() && Matches(ledger.rows, i)) {
        SettledHere(began.rows, began.books, exchange.baseline, i);
        if Here() != old(Here()) {
          SettledAfter(began, Here(), i);
        }
      }
    }

    // --- A new intent ---

    /** The activity caps, as they stand at `t`. */
    predicate GateRefuses(log: seq<Noted>, i: TradeIntent, f: Portfolio, t: int) {
      || CountSince(log, t - HOUR) >= policy.maxOrdersPerHour
      || NotionalSince(log, DayStart(t)) + i.quoteAmount > f.portfolioValue * policy.maxNotionalPerDayPct
      || ErrorStreak(log, 100) >= policy.maxConsecutiveErrors
    }

    predicate TurnedDown(log: seq<Noted>, i: TradeIntent, f: Portfolio, price: real, t: int) {
      GateRefuses(log, i, f, t) || !Risk.Approves(policy, i, f, price, t)
    }

    /** At some moment the caps left room and the risk engine approved, at the price the exchange gave. */
    ghost predicate LetThrough(log: seq<Noted>, i: TradeIntent, f: Portfolio, from: int, to: int)
      reads exchange
    {
      exists t: int, price: real :: from <= t <= to && (mode != Hostile ==> price == exchange.price)
        && !TurnedDown(log, i, f, price, t)
    }

    /** At some moment the caps left no room, or the risk engine did not approve. */
    ghost predicate WasTurnedDown(log: seq<Noted>, i: TradeIntent, f: Portfolio, from: int, to: int)
      reads exchange
    {
      exists t: int, price: real :: from <= t <= to && (mode != Hostile ==> price == exchange.price)
        && TurnedDown(log, i, f, price, t)
    }

    /** The caps, as what they count and sum. */
    lemma GateRefusesIff(log: seq<Noted>, i: TradeIntent, f: Portfolio, t: int)
      ensures GateRefuses(log, i, f, t) <==>
                || |Since(log, t - 3600 * 1_000_000)| >= policy.maxOrdersPerHour
                || Sum(Since(log, t - t % (24 * 3600 * 1_000_000)), Amounts(log)) + i.quoteAmount
                     > f.portfolioValue * policy.maxNotionalPerDayPct
                || EndsInErrors(log, policy.maxConsecutiveErrors)
    {
      hide Since, Amounts, CountSince, NotionalSince, ErrorStreak, EndsInErrors;
      SinceIs(log, t - HOUR);
      SinceIs(log, DayStart(t));
      StreakReachesIff(log, policy.maxConsecutiveErrors);
    }

    /** Whatever was let through, the log did not end in as many errors as the policy stops at. */
    lemma LetThroughMeans(log: seq<Noted>, i: TradeIntent, f: Portfolio, from: int, to: int)
      requires LetThrough(log, i, f, from, to)
      ensures !EndsInErrors(log, policy.maxConsecutiveErrors)
    {
      var t: int, price: real :| from <= t <= to && (mode != Hostile ==> price == exchange.price)
        && !TurnedDown(log, i, f, price, t);
      GateRefusesIff(log, i, f, t);
    }

    /** What comes of a new intent, in any world. */
    ghost predicate TradedOnce(log: seq<Noted>, i: TradeIntent, f: Portfolio, from: int, to: int, s: TradeState,
                               h: seq<TradeState>)
      reads exchange
    {
      && TradeEnds(s) && Heeds(h) && (s == Closed && mode != Hostile ==> Pos(i).exit.Some?)
      && (s == Rejected ==> WasTurnedDown(log, i, f, from, to))
    }

    /** What comes of an intent seen before: it is recovered against its row, and nothing is bought or put on
        record. */
    twostate predicate OnlyRecovered(i: TradeIntent, new r: Result<TradeStateMachine>)
      reads this, ledger, exchange, activity, if r.Ok? then {r.value} else {}
    {
      && exchange.buyCalls == old(exchange.buyCalls) && activity.log == old(activity.log)
      && (r.Ok? ==> r.value.history == [r.value.state])
      && (r.Ok? && i.id in old(ledger.rows) ==> AsTheRowSays(old(ledger.rows)[i.id], Ok(r.value.state)))
      && (r.Ok? && i.id !in old(ledger.rows) ==> r.value.state == Rejected)
      && (r.Ok? && mode != Hostile && r.value.state in {Protected, PartiallyProtected} ==>
            i.id in ledger.rows && BackedBy(exchange.books, ledger.rows[i.id], i))
      && (r.Ok? && mode.Calm? && old(auth) && i.id in old(ledger.rows) ==>
            exchange.books == BooksAfter(old(ledger.rows)[i.id], old(exchange.books), i))
    }

    /** At some moment it was decided, and what was decided came about; without a price it is halted.  `x` and
        `log` are what was there before. */
    ghost predicate Decided(x: Books, log: seq<Noted>, i: TradeIntent, f: Portfolio, from: int, to: int,
                            s: TradeState)
      reads exchange, activity
    {
      if Refuses(PriceRead) then s == Halted && Untraded(x, log)
      else exists t: int :: from <= t <= to && DecidedAt(x, log, i, f, t, s)
    }

    ghost predicate DecidedAt(x: Books, log: seq<Noted>, i: TradeIntent, f: Portfolio, t: int, s: TradeState)
      reads exchange, activity
    {
      if TurnedDown(log, i, f, exchange.price, t) then s == Rejected && Untraded(x, log)
      else Sent(i, s) && Booked(log, activity.log, i.quoteAmount, SentErrors(i))
    }

    /** Nothing was asked of the exchange, and nothing put on record. */
    ghost predicate Untraded(x: Books, log: seq<Noted>)
      reads exchange, activity
    {
      exchange.books == x && activity.log == log
    }

    /** Every later submission of this amount still fits the caps. */
    ghost predicate Room(log: seq<Noted>, n: real, since: int) {
      forall t: int :: since <= t ==> CapsHold(log + [Noted(t, Submission, n)])
    }

    /** The portfolio the caps are stated for. */
    predicate CapFor(f: Portfolio, cap: real) {
      f.portfolioValue * policy.maxNotionalPerDayPct == cap
    }

    ghost method Open(i: TradeIntent, f: Portfolio)
      requires Valid()
      modifies this`began, this`startedAt, this`sound, this`settled, this`withdrawing, this`capped
      ensures Working(i) && began == Here() && startedAt == now && !sound && !settled && !withdrawing
      ensures capped == (CapsHold(activity.log) && CapFor(f, dailyCap))
    {
      began, startedAt, sound, settled, withdrawing := Here(), now, false, false, false;
      capped := CapsHold(activity.log) && CapFor(f, dailyCap);
    }

    /** Creates the row, unless there is one; the operation counts from here. */
    method Admit(i: TradeIntent, f: Portfolio) returns (r: Result<()>)
      requires Valid()
      modifies this`auth, this`now, this`began, this`startedAt, this`sound, this`settled, this`withdrawing
      modifies this`capped, ledger
      ensures Working(i) && now >= old(now) && Ebbs(old(auth), auth)
      ensures began == old(Here()) && startedAt == old(now) && !withdrawing
      ensures capped == (old(CapsHold(activity.log)) && CapFor(f, dailyCap))
      ensures sound ==> !Overreach(ledger.rows, exchange.books, i)
      ensures r.Err? ==> CutsShort(r.exn)
      ensures r == Err(StaleEpoch) ==> ledger.rows == old(ledger.rows)
      ensures r != Err(StaleEpoch) ==> i.id in ledger.rows && sound == old(Fit(i)) && settled == old(Settling(i))
      ensures r.Ok? ==> auth && i.id in ledger.rows
      ensures i.id in ledger.rows ==> if i.id in old(ledger.rows) then ledger.rows == old(ledger.rows)
                                      else RowIs(ledger.rows, i.id, Created) && !ledger.rows[i.id].prepared
      ensures mode.Calm? && old(auth) ==> r.Ok?
    {
      hide Working, Overreach, CapsHold, Matches;
      Open(i, f);
      ghost var fit, settling := Fit(i), Settling(i);
      Lapse(i);
      r := InsertRow(i, fit, settling);
    }

    method InsertRow(i: TradeIntent, ghost fit: bool, ghost settling: bool) returns (r: Result<()>)
      requires Working(i) && began == Here() && !sound && !settled && fit == Fit(i) && settling == Settling(i)
      modifies this`sound, this`settled, ledger
      ensures Working(i)
      ensures sound ==> !Overreach(ledger.rows, exchange.books, i)
      ensures r.Err? ==> CutsShort(r.exn)
      ensures r == Err(StaleEpoch) ==> ledger.rows == old(ledger.rows)
      ensures r != Err(StaleEpoch) ==> i.id in ledger.rows && sound == fit && settled == settling
      ensures r.Ok? ==> auth
      ensures i.id in ledger.rows ==> if i.id in old(ledger.rows) then ledger.rows == old(ledger.rows)
                                      else RowIs(ledger.rows, i.id, Created) && !ledger.rows[i.id].prepared
      ensures mode.Calm? && auth ==> r.Ok?
    {
      hide Sound, WriteAhead, Moved, Faithful, Filed, CapsHold, EpochsWithin, UpTo, OnlyOrigin;
      Guarded(i);
      Seen(i);
      ghost var rows := ledger.rows;
      r := ledger.Ensure(i, ClientId(OriginOf(i), Entry), Who());
      if r.Ok? {
        if i.id !in rows {
          AfterRowWrite(i, rows);
          if fit {
            EnsureSound(rows, exchange.books, exchange.baseline, i, Who().epoch);
          }
        }
        sound, settled := fit, settling;
        var died: bool := *;
        if died && !mode.Calm? {
          return Err(Crash);
        }
      }
    }

    /** The write-ahead mark: from here on the entry may be asked for, once. */
    method Dispatch(i: TradeIntent, sm: TradeStateMachine) returns (r: Result<()>)
      requires Working(i) && sm.Valid() && sm.state == RiskApproved && RowIs(ledger.rows, i.id, RiskApproved)
      modifies this`auth, this`now, sm, ledger
      ensures Working(i) && now >= old(now) && Ebbs(old(auth), auth)
      ensures r.Err? ==> CutsShort(r.exn)
      ensures r.Ok? ==> auth && sm.Valid() && sm.state == Submitted && sm.history == old(sm.history) + [Submitted]
      ensures r.Ok? && old(Heeds(sm.history)) ==> Heeds(sm.history)
      ensures r.Ok? ==> RowIs(ledger.rows, i.id, Submitted) && ledger.rows[i.id].prepared && i.id !in exchange.buyCalls
      ensures r.Ok? && sound ==> Pos(i) == Position(None, None, None, None)
      ensures mode.Calm? && old(auth) ==> r.Ok?
    {
      hide Working, LegalPath;
      Lapse(i);
      var _ :- MarkDispatch(i);
      sm.Follow(Submitted);
      r := Ok(());
    }

    method MarkDispatch(i: TradeIntent) returns (r: Result<()>)
      requires Working(i) && RowIs(ledger.rows, i.id, RiskApproved)
      modifies ledger
      ensures Working(i)
      ensures r.Err? ==> CutsShort(r.exn)
      ensures r.Ok? ==>
                auth && RowIs(ledger.rows, i.id, Submitted) && ledger.rows[i.id].prepared && i.id !in exchange.buyCalls
      ensures r.Ok? && sound ==> Pos(i) == Position(None, None, None, None)
      ensures mode.Calm? && auth ==> r.Ok?
    {
      hide Working, Faithful, Filed;
      Guarded(i);
      Seen(i);
      label Before:
      r := ledger.MarkDispatchPrepared(i.id, Who());
      Rewritten@Before(i);
      if r.Ok? {
        var died: bool := *;
        if died && !mode.Calm? {
          return Err(Crash);
        }
      }
    }

    /** The hourly, daily and consecutive-error caps. */
    method ActivityGate(i: TradeIntent, f: Portfolio) returns (ok: bool)
      requires Working(i)
      ensures ok <==> !GateRefuses(activity.log, i, f, now)
      ensures ok && capped && CapFor(f, dailyCap) && i.quoteAmount >= 0.0 ==> Room(activity.log, i.quoteAmount, now)
    {
      hide Working, Since, Amounts, CountSince, NotionalSince, ErrorStreak, CapsHold, Room;
      var orders := activity.OrdersLastHour(now);
      if orders >= policy.maxOrdersPerHour {
        return false;
      }
      var notional := activity.NotionalToday(now);
      if notional + i.quoteAmount > f.portfolioValue * policy.maxNotionalPerDayPct {
        return false;
      }
      var errors := activity.ConsecutiveErrors();
      ok := errors < policy.maxConsecutiveErrors;
      if capped && CapFor(f, dailyCap) && i.quoteAmount >= 0.0 && ok {
        LeavesRoom(i, f);
      }
    }

    lemma LeavesRoom(i: TradeIntent, f: Portfolio)
      requires Working(i) && capped && CapFor(f, dailyCap) && i.quoteAmount >= 0.0
      requires !GateRefuses(activity.log, i, f, now)
      ensures Room(activity.log, i.quoteAmount, now)
    {
      forall t: int | now <= t ensures CapsHold(activity.log + [Noted(t, Submission, i.quoteAmount)]) {
        HourlyGateSuffices(activity.log, now, t, i.quoteAmount, policy.maxOrdersPerHour);
        DailyGateSuffices(activity.log, now, t, i.quoteAmount, dailyCap);
      }
    }

    method RecordSubmission(i: TradeIntent, ghost since: int) returns (r: Result<()>)
      requires Working(i) && since <= now && i.quoteAmount > 0.0
      requires capped ==> Room(activity.log, i.quoteAmount, since)
      modifies this`now, activity
      ensures Working(i) && now >= old(now)
      ensures r.Err? ==> r.exn == Crash && !mode.Calm?
      ensures activity.log == old(activity.log) + [Noted(now, Submission, i.quoteAmount)]
      ensures |exchange.buyCalls| < Submissions(activity.log)
    {
      hide Sound, WriteAhead, Moved, Faithful, Filed, EpochsWithin, CapsHold, UpTo, Submissions;
      var elapsed: int := *;
      if elapsed > 0 {
        now := now + elapsed;
      }
      assert capped ==> CapsHold(activity.log + [Noted(now, Submission, i.quoteAmount)]);
      SubmissionsAppend(activity.log, Noted(now, Submission, i.quoteAmount));
      UpToAppend(activity.log, old(now), Noted(now, Submission, i.quoteAmount), now);
      activity.RecordSubmission(i.quoteAmount, now);
      var died: bool := *;
      r := if died && !mode.Calm? then Err(Crash) else Ok(());
    }

    /** What any part of a trade comes to.  A machine that comes back says what the row says, unless authority is
        gone; a drifted row and a zero price leave no trace; the gate is only ever shut, and an exception other than
        lost authority leaves it alone. */
    twostate predicate Traded(i: TradeIntent, sm: TradeStateMachine, new r: Result<TradeStateMachine>)
      reads this, ledger, exchange, gate, sm, if r.Ok? then {r.value} else {}
    {
      && now >= old(now) && Ebbs(old(auth), auth) && gate.Valid() && (gate.latch ==> old(gate.latch))
      && (r.Err? ==> r.exn in {Refused, Faulted} || Stopped(i, r.exn))
      && ((r.Err? && r.exn in {Refused, Faulted, InvalidTransition}) || (mode.Calm? && old(auth)) ==> unchanged(gate))
      && (r.Err? && r.exn in {Refused, Faulted} ==> ledger.rows == old(ledger.rows))
      && (r == Err(Refused) ==> !RowIs(old(ledger.rows), i.id, Created))
      && (r == Err(Faulted) ==> i.stopPrice < i.referenceEntryPrice == 0.0 < i.takeProfitPrice)
      && (r.Ok? ==>
            && (r.value == sm || fresh(r.value)) && r.value.Valid()
            && (RowIs(ledger.rows, i.id, r.value.state) || (!auth && r.value.state == Unknown))
            && TradeEnds(r.value.state) && (old(Heeds(sm.history)) ==> Heeds(r.value.history))
            && (r.value.state == Closed && mode != Hostile ==> Pos(i).exit.Some?))
    }

    /** Where a machine that comes back may stand: never where an entry is bare. */
    predicate TradeEnds(s: TradeState) {
      s in {Protected, UnderProtected, Closed, Halted, TradeState.Canceled, Expired, Rejected, Unknown}
    }

    /** Asks for the entry, and deals with every way of asking going wrong. */
    method SubmitEntry(i: TradeIntent, sm: TradeStateMachine) returns (r: Result<TradeStateMachine>)
      requires Working(i) && sm.Valid() && sm.state == Submitted && gate.Valid()
      requires RowIs(ledger.rows, i.id, Submitted) && ledger.rows[i.id].prepared && i.id !in exchange.buyCalls
      requires |exchange.buyCalls| < Submissions(activity.log) && i.quoteAmount > 0.0
      requires sound ==> Pos(i) == Position(None, None, None, None)
      modifies this`auth, this`now, sm, ledger, exchange`books, exchange`buyCalls, activity, gate`latch
      modifies gate`issued, gate`revokedBelow
      ensures Working(i) && Traded(i, sm, r) && (r.Ok? ==> r.value.state != Rejected)
      ensures r.Err? ==> r.exn !in {Refused, Faulted}
      ensures mode.Calm? && old(auth) && sound ==>
                && r.Ok? && Sent(i, r.value.state) && OnlyErrors(old(activity.log), activity.log, SentErrors(i))
    {
      hide Working, LegalPath, BootGate.Valid, Cornered, NetQty, PositionSound, StateFits, EntryFits, Heeds;
      hide OnlyErrors, Ending, EndErrors, Reserves, FillOf, WorthBuying;
      var order := SubmitMarketBuy(i);
      if order.Err? && order.exn != Ambiguous {
        r := NotSubmitted(i, sm, order.exn);
        return;
      }
      r := FollowUp(i, sm, order.Err?);
    }

    /** The entry is there, as far as a calm world can tell. */
    method FollowUp(i: TradeIntent, sm: TradeStateMachine, lost: bool) returns (r: Result<TradeStateMachine>)
      requires Working(i) && sm.Valid() && sm.state == Submitted && gate.Valid() && i.quoteAmount > 0.0
      requires RowIs(ledger.rows, i.id, Submitted) && ledger.rows[i.id].prepared
      requires sound ==> Pos(i) == Position(Pos(i).entry, None, None, None)
      requires mode.Calm? && auth && sound ==> !Refuses(BuySent) && Pos(i).entry == Some(FillOf(i))
      modifies this`auth, this`now, sm, ledger, exchange`books, activity
      ensures Working(i) && Traded(i, sm, r) && (r.Ok? ==> r.value.state != Rejected)
      ensures r.Err? ==> r.exn !in {Refused, Faulted}
      ensures mode.Calm? && old(auth) && sound ==>
                && r.Ok? && Sent(i, r.value.state) && OnlyErrors(old(activity.log), activity.log, SentErrors(i))
    {
      hide Working, LegalPath, BootGate.Valid, Cornered, NetQty, PositionSound, StateFits, EntryFits, Heeds;
      hide OnlyErrors, Ending, EndErrors, Reserves, FillOf, WorthBuying;
      Bought(i);
      var _ :- ReconcileSent(i, sm, lost);
      r := Ok(sm);
    }

    /** What a buy will come to. */
    lemma Bought(i: TradeIntent)
      requires Working(i) && i.quoteAmount > 0.0
      ensures FillOf(i).status == if exchange.partialFillRatio == 1.0 then OrderFilled else OrderPartiallyFilled
      ensures Fills(FillOf(i), i.symbol) <==> WorthBuying(i)
    {
      FillIs(i);
    }

    /** The entry was asked for; if the answer was lost, the row says so before the exchange is asked. */
    method ReconcileSent(i: TradeIntent, sm: TradeStateMachine, lost: bool) returns (r: Result<()>)
      requires Working(i) && sm.Valid() && sm.state == Submitted && RowIs(ledger.rows, i.id, Submitted)
      requires ledger.rows[i.id].prepared
      requires sound ==> Pos(i) == Position(Pos(i).entry, None, None, None)
      modifies this`auth, this`now, sm, ledger, exchange`books, activity
      ensures Working(i) && Carried(i, sm, r) && Reconciled(i, sm, r)
    {
      hide Working, LegalPath, Heeds, Ending, EndErrors, Reserves, OnlyErrors, NetQty, Cornered;
      Seen(i);
      if lost {
        var _ :- Transition(sm, i, Unknown);
      }
      r := ReconcileAfterSubmit(i, sm);
    }

    /** The entry was refused, or authority went before it was confirmed: an error, and left for recovery. */
    method NotSubmitted(i: TradeIntent, sm: TradeStateMachine, exn: Exn) returns (r: Result<TradeStateMachine>)
      requires Working(i) && sm.Valid() && sm.state == Submitted && gate.Valid()
      requires RowIs(ledger.rows, i.id, Submitted) && ledger.rows[i.id].prepared && (exn == Faulted || CutsShort(exn))
      modifies this`auth, this`now, sm, ledger, activity, gate`latch, gate`issued, gate`revokedBelow
      ensures Working(i) && Traded(i, sm, r)
      ensures r.Err? ==> r.exn !in {Refused, Faulted}
      ensures r.Ok? ==> r.value.state == Unknown && OnlyErrors(old(activity.log), activity.log, 1)
      ensures mode.Calm? && old(auth) ==> r.Ok?
    {
      hide Working, LegalPath, BootGate.Valid, Cornered, PositionSound, EntryFits, NetQty, Heeds, OnlyErrors;
      if exn == Crash {
        return Err(Crash);
      }
      if exn == StaleEpoch {
        r := Overtaken(i);
        return;
      }
      r := TurnedAway(i, sm);
    }

    method TurnedAway(i: TradeIntent, sm: TradeStateMachine) returns (r: Result<TradeStateMachine>)
      requires Working(i) && sm.Valid() && sm.state == Submitted && gate.Valid()
      requires RowIs(ledger.rows, i.id, Submitted) && ledger.rows[i.id].prepared
      modifies this`auth, this`now, sm, ledger, activity
      ensures Working(i) && Traded(i, sm, r)
      ensures r.Err? ==> r.exn !in {Refused, Faulted}
      ensures r.Ok? ==> r.value == sm && sm.state == Unknown && OnlyErrors(old(activity.log), activity.log, 1)
      ensures mode.Calm? && old(auth) ==> r.Ok?
    {
      hide Working, LegalPath, BootGate.Valid, Cornered, PositionSound, EntryFits, NetQty, Heeds, OnlyErrors;
      Seen(i);
      var _ :- RecordError(i);
      var _ :- Transition(sm, i, Unknown);
      r := Ok(sm);
    }

    /** Authority went before the entry was confirmed: the gate is shut, and the caller gets a machine of its own. */
    method Overtaken(i: TradeIntent) returns (r: Result<TradeStateMachine>)
      requires Working(i) && gate.Valid() && !auth
      modifies this`auth, this`now, activity, gate`latch, gate`issued, gate`revokedBelow
      ensures Working(i) && now >= old(now) && !auth && gate.Valid() && !gate.latch
      ensures r.Err? ==> CutsShort(r.exn)
      ensures r.Ok? ==> fresh(r.value) && r.value.Valid() && r.value.state == Unknown && Heeds(r.value.history)
      ensures r.Ok? ==> OnlyErrors(old(activity.log), activity.log, 1)
    {
      hide Working, LegalPath, BootGate.Valid, OnlyErrors;
      gate.Revoke();
      var _ :- RecordError(i);
      var lost := new TradeStateMachine(Unknown);
      r := Ok(lost);
    }

    lemma WasRefused(log: seq<Noted>, i: TradeIntent, f: Portfolio, from: int, to: int, price: real, t: int)
      requires from <= t <= to && (mode != Hostile ==> price == exchange.price) && TurnedDown(log, i, f, price, t)
      ensures WasTurnedDown(log, i, f, from, to)
    {
    }

    lemma WasLetThrough(log: seq<Noted>, i: TradeIntent, f: Portfolio, from: int, to: int, price: real, t: int)
      requires from <= t <= to && (mode != Hostile ==> price == exchange.price) && !TurnedDown(log, i, f, price, t)
      ensures LetThrough(log, i, f, from, to)
    {
    }

    lemma WasDecided(x: Books, log: seq<Noted>, i: TradeIntent, f: Portfolio, from: int, to: int, t: int,
        s: TradeState)
      ensures Refuses(PriceRead) && s == Halted && Untraded(x, log) ==> Decided(x, log, i, f, from, to, s)
      ensures !Refuses(PriceRead) && from <= t <= to && TurnedDown(log, i, f, exchange.price, t)
              && s == Rejected && Untraded(x, log) ==>
                Decided(x, log, i, f, from, to, s)
      ensures !Refuses(PriceRead) && from <= t <= to && !TurnedDown(log, i, f, exchange.price, t)
              && Sent(i, s) && Booked(log, activity.log, i.quoteAmount, SentErrors(i)) ==>
                Decided(x, log, i, f, from, to, s)
    {
      hide TurnedDown, Sent, Booked, SentErrors, Untraded;
      assert DecidedAt(x, log, i, f, t, s) || !DecidedAt(x, log, i, f, t, s);
    }

    /** The first attempt at an intent, from the market price to the submission. */
    method FirstTime(i: TradeIntent, f: Portfolio, sm: TradeStateMachine) returns (r: Result<TradeStateMachine>)
      requires Working(i) && i.id in ledger.rows && sm.Valid() && sm.state == Created && gate.Valid()
      requires capped ==> CapFor(f, dailyCap)
      modifies this`auth, this`now, sm, ledger, exchange`books, exchange`buyCalls, activity, gate`latch
      modifies gate`issued, gate`revokedBelow
      ensures Working(i) && Traded(i, sm, r)
      ensures r.Ok? && r.value.state == Rejected ==> WasTurnedDown(old(activity.log), i, f, old(now), now)
      ensures mode.Calm? && old(auth) && sound && r.Ok? ==>
                Decided(old(exchange.books), old(activity.log), i, f, old(now), now, r.value.state)
      ensures exchange.buyCalls != old(exchange.buyCalls) ==> LetThrough(old(activity.log), i, f, old(now), now)
    {
      hide BootGate.Valid;
      hide Working, LegalPath, CapsHold, TurnedDown, LetThrough, WasTurnedDown, Decided, Sent, Booked, SentErrors;
      hide Heeds;
      hide Cornered;
      var price := GetMarketPrice();
      if price.Ok? {
        r := AtPrice(i, f, price.value, sm);
      } else {
        r := WithoutPrice(i, sm, price.exn);
        WasDecided(old(exchange.books), old(activity.log), i, f, old(now), now, now, Halted);
      }
    }

    /** No price could be had. */
    method WithoutPrice(i: TradeIntent, sm: TradeStateMachine, exn: Exn) returns (r: Result<TradeStateMachine>)
      requires Working(i) && i.id in ledger.rows && sm.Valid() && sm.state == Created && gate.Valid()
      requires exn in {Faulted, StaleEpoch} && (mode.Calm? && auth ==> exn != StaleEpoch)
      modifies this`auth, this`now, sm, ledger
      ensures Working(i) && Traded(i, sm, r) && (r.Err? ==> r.exn != Faulted)
      ensures r.Ok? ==> r.value == sm && sm.state == Halted
    {
      hide Working, LegalPath, BootGate.Valid, Cornered, Heeds;
      Caught(i, exn);
      r := EndEarly(i, sm, Halted);
    }

    /** The caps and the risk engine decide, and what they decide is done. */
    method AtPrice(i: TradeIntent, f: Portfolio, price: real, sm: TradeStateMachine)
      returns (r: Result<TradeStateMachine>)
      requires auth && !Refuses(PriceRead) && (mode != Hostile ==> price == exchange.price)
      requires Working(i) && i.id in ledger.rows && sm.Valid() && sm.state == Created && gate.Valid()
      requires capped ==> CapFor(f, dailyCap)
      modifies this`auth, this`now, sm, ledger, exchange`books, exchange`buyCalls, activity, gate`latch
      modifies gate`issued, gate`revokedBelow
      ensures Working(i) && Traded(i, sm, r)
      ensures r.Ok? && r.value.state == Rejected ==> WasTurnedDown(old(activity.log), i, f, old(now), now)
      ensures mode.Calm? && old(auth) && sound && r.Ok? ==>
                Decided(old(exchange.books), old(activity.log), i, f, old(now), now, r.value.state)
      ensures exchange.buyCalls != old(exchange.buyCalls) ==> LetThrough(old(activity.log), i, f, old(now), now)
    {
      hide BootGate.Valid;
      hide Working, LegalPath, CapsHold, TurnedDown, LetThrough, WasTurnedDown, Decided, Sent, Booked, SentErrors;
      hide Heeds;
      ghost var asked := now;
      var go :- Decide(i, f, price);
      if !go {
        r := EndEarly(i, sm, Rejected);
        WasRefused(old(activity.log), i, f, old(now), now, price, asked);
      } else {
        r := Approved(i, sm);
        WasLetThrough(old(activity.log), i, f, old(now), now, price, asked);
      }
      WasDecided(old(exchange.books), old(activity.log), i, f, old(now), now, asked,
                 if r.Ok? then r.value.state else Unknown);
    }

    /** A trade that ends before it is marked. */
    method EndEarly(i: TradeIntent, sm: TradeStateMachine, next: TradeState)
      returns (r: Result<TradeStateMachine>)
      requires next in {Rejected, Halted}
      requires Working(i) && i.id in ledger.rows && sm.Valid() && sm.state == Created
      modifies this`auth, this`now, sm, ledger
      ensures Working(i) && now >= old(now) && Ebbs(old(auth), auth)
      ensures r.Err? ==> r.exn == Refused || CutsShort(r.exn)
      ensures r == Err(Refused) ==> !RowIs(old(ledger.rows), i.id, Created) && ledger.rows == old(ledger.rows)
      ensures r.Ok? ==> r.value == sm && sm.Valid() && sm.state == next && RowIs(ledger.rows, i.id, next)
      ensures r.Ok? && old(Heeds(sm.history)) ==> Heeds(sm.history)
    {
      hide Working, LegalPath, Heeds;
      Guarded(i);
      Seen(i);
      var _ :- Transition(sm, i, next);
      r := Ok(sm);
    }

    /** The activity caps and the risk engine, in that order. */
    method Decide(i: TradeIntent, f: Portfolio, price: real) returns (r: Result<bool>)
      requires Working(i) && (capped ==> CapFor(f, dailyCap))
      ensures r.Ok? ==> (r.value <==> !TurnedDown(activity.log, i, f, price, now))
      ensures r.Ok? && r.value ==> i.quoteAmount > 0.0 && (capped ==> Room(activity.log, i.quoteAmount, now))
      ensures r.Err? ==> r.exn == Faulted && i.stopPrice < i.referenceEntryPrice == 0.0 < i.takeProfitPrice
    {
      hide Working;
      var ok := ActivityGate(i, f);
      if !ok {
        return Ok(false);
      }
      var decision :- Risk.Evaluate(policy, i, f, price, now);
      r := Ok(decision.approved);
    }

    /** Past the risk engine: marks the row, records the submission, submits. */
    method Approved(i: TradeIntent, sm: TradeStateMachine) returns (r: Result<TradeStateMachine>)
      requires Working(i) && i.id in ledger.rows && sm.Valid() && sm.state == Created && gate.Valid()
      requires i.quoteAmount > 0.0 && (capped ==> Room(activity.log, i.quoteAmount, now))
      modifies this`auth, this`now, sm, ledger, exchange`books, exchange`buyCalls, activity, gate`latch
      modifies gate`issued, gate`revokedBelow
      ensures Working(i) && Traded(i, sm, r) && (r.Ok? ==> r.value.state != Rejected)
      ensures r != Err(Faulted)
      ensures mode.Calm? && old(auth) && sound ==>
                || r == Err(Refused)
                || (r.Ok? && Sent(i, r.value.state)
                    && Booked(old(activity.log), activity.log, i.quoteAmount, SentErrors(i)))
    {
      hide Working, LegalPath, CapsHold, Sent, BootGate.Valid, Heeds, Booked, SentErrors, OnlyErrors;
      Guarded(i);
      Seen(i);
      ghost var since := now;
      var _ :- Transition(sm, i, RiskApproved);
      r := MarkAndSend(i, sm, since);
    }

    method MarkAndSend(i: TradeIntent, sm: TradeStateMachine, ghost since: int) returns (r: Result<TradeStateMachine>)
      requires Working(i) && sm.Valid() && sm.state == RiskApproved && RowIs(ledger.rows, i.id, RiskApproved)
      requires gate.Valid()
      requires i.quoteAmount > 0.0 && since <= now && (capped ==> Room(activity.log, i.quoteAmount, since))
      modifies this`auth, this`now, sm, ledger, exchange`books, exchange`buyCalls, activity, gate`latch
      modifies gate`issued, gate`revokedBelow
      ensures Working(i) && Traded(i, sm, r) && (r.Ok? ==> r.value.state != Rejected)
      ensures r.Err? ==> r.exn !in {Refused, Faulted}
      ensures mode.Calm? && old(auth) && sound ==>
                && r.Ok? && Sent(i, r.value.state)
                && Booked(old(activity.log), activity.log, i.quoteAmount, SentErrors(i))
    {
      hide Working, LegalPath, CapsHold, Sent, BootGate.Valid, Heeds, Booked, SentErrors, OnlyErrors;
      var _ :- Dispatch(i, sm);
      r := Send(i, sm, since);
    }

    method Send(i: TradeIntent, sm: TradeStateMachine, ghost since: int) returns (r: Result<TradeStateMachine>)
      requires Working(i) && sm.Valid() && sm.state == Submitted && gate.Valid()
      requires RowIs(ledger.rows, i.id, Submitted) && ledger.rows[i.id].prepared && i.id !in exchange.buyCalls
      requires i.quoteAmount > 0.0 && since <= now && (capped ==> Room(activity.log, i.quoteAmount, since))
      requires sound ==> Pos(i) == Position(None, None, None, None)
      modifies this`auth, this`now, sm, ledger, exchange`books, exchange`buyCalls, activity, gate`latch
      modifies gate`issued, gate`revokedBelow
      ensures Working(i) && Traded(i, sm, r) && (r.Ok? ==> r.value.state != Rejected)
      ensures r.Err? ==> r.exn !in {Refused, Faulted}
      ensures mode.Calm? && old(auth) && sound ==>
                && r.Ok? && Sent(i, r.value.state)
                && Booked(old(activity.log), activity.log, i.quoteAmount, SentErrors(i))
    {
      hide Working, LegalPath, CapsHold, Sent, BootGate.Valid, Heeds, SentErrors, OnlyErrors, Booked;
      ghost var before := activity.log;
      var _ :- RecordSubmission(i, since);
      ghost var noted := activity.log;
      r := SubmitEntry(i, sm);
      Book(before, noted, activity.log, i.quoteAmount, SentErrors(i));
    }

    static lemma Book(before: seq<Noted>, noted: seq<Noted>, after: seq<Noted>, amount: real, n: nat)
      requires |noted| == |before| + 1 && noted[..|before|] == before
      requires noted[|before|].kind == Submission && noted[|before|].notional == amount
      ensures OnlyErrors(noted, after, n) ==> Booked(before, after, amount, n)
    {
      if OnlyErrors(noted, after, n) {
        assert after[..|noted|] == noted;
        assert after[..|before|] == noted[..|before|];
        assert after[|before|] == noted[|before|];
      }
    }

    /** What came about since some moment came about since any earlier one. */
    lemma SinceEarlier(x: Books, log: seq<Noted>, i: TradeIntent, f: Portfolio, earlier: int, from: int, to: int,
        s: TradeState, h: seq<TradeState>)
      requires earlier <= from
      ensures LetThrough(log, i, f, from, to) ==> LetThrough(log, i, f, earlier, to)
      ensures WasTurnedDown(log, i, f, from, to) ==> WasTurnedDown(log, i, f, earlier, to)
      ensures Decided(x, log, i, f, from, to, s) ==> Decided(x, log, i, f, earlier, to, s)
      ensures TradedOnce(log, i, f, from, to, s, h) ==> TradedOnce(log, i, f, earlier, to, s, h)
    {
      hide TurnedDown, DecidedAt, Untraded;
    }

    /** What a trade comes to, seen from where it began: how it may fail and what it then leaves, what a machine that
        comes back says, what a new intent comes to, and that one seen before is only recovered. */
    twostate predicate Answered(i: TradeIntent, f: Portfolio, new r: Result<TradeStateMachine>)
      reads this, ledger, exchange, activity, idempotency, gate, if r.Ok? then {r.value} else {}
    {
      var claimed := i.id in old(idempotency.claimed);
      && now >= old(now) && Ebbs(old(auth), auth) && gate.Valid() && (gate.latch ==> old(gate.latch))
      && (r.Err? ==> r.exn in {Refused, Faulted} || Stopped(i, r.exn))
      && (r == Err(InvalidTransition) || (mode.Calm? && old(auth)) ==> unchanged(gate))
      && (r == Err(Refused) ==> i.id in old(ledger.rows) && !RowIs(old(ledger.rows), i.id, Created) && !claimed)
      && (r == Err(Faulted) ==> i.stopPrice < i.referenceEntryPrice == 0.0 < i.takeProfitPrice && !claimed)
      && (r in {Err(Refused), Err(Faulted)} ==>
            && i.id in ledger.rows && unchanged(gate)
            && if i.id in old(ledger.rows) then ledger.rows == old(ledger.rows) else RowIs(ledger.rows, i.id, Created))
      && (r.Ok? ==>
            && LegalPath(r.value.history) && i.id in idempotency.claimed
            && (RowIs(ledger.rows, i.id, r.value.state) || (!auth && r.value.state == Unknown)))
      && (exchange.buyCalls != old(exchange.buyCalls) ==>
            LetThrough(old(activity.log), i, f, old(now), now) && !claimed)
      && (r.Ok? && !claimed ==>
            TradedOnce(old(activity.log), i, f, old(now), now, r.value.state, r.value.history))
      && (mode.Calm? && old(auth) && old(Fit(i)) && !claimed && r.Ok? ==>
            Decided(old(exchange.books), old(activity.log), i, f, old(now), now, r.value.state))
      && (claimed ==> OnlyRecovered(i, r))
      && (mode.Calm? && old(auth) && old(Fit(i)) && claimed && i.id in old(ledger.rows) ==>
            && r.Ok?
            && r.value.state == RecoveredTo(old(ledger.rows)[i.id].state, old(ledger.rows)[i.id].prepared,
              old(Pos(i)), i.symbol, true))
    }

    /** Everything behind the gate. */
    method Attempt(i: TradeIntent, f: Portfolio) returns (r: Result<TradeStateMachine>)
      requires Valid() && gate.Valid() && auth
      modifies this`auth, this`now, this`began, this`startedAt, this`sound, this`settled, this`withdrawing, this`capped
      modifies ledger, exchange`books, exchange`buyCalls, activity, idempotency, gate`latch, gate`issued
      modifies gate`revokedBelow
      ensures Valid() && Kept(i) && Answered(i, f, r) && (r.Ok? ==> fresh(r.value))
      ensures old(CapsHold(activity.log)) && CapFor(f, dailyCap) ==> CapsHold(activity.log)
      ensures StampedSince(old(ledger.rows), ledger.rows, i.id, old(now))
    {
      hide Working, Kept, CapsHold, Answered;
      r := AdmitAndTrade(i, f);
      Done(i);
    }

    /** The row, and then the trade, measured from where the operation began. */
    method AdmitAndTrade(i: TradeIntent, f: Portfolio) returns (r: Result<TradeStateMachine>)
      requires Valid() && gate.Valid() && auth
      modifies this`auth, this`now, this`began, this`startedAt, this`sound, this`settled, this`withdrawing, this`capped
      modifies ledger, exchange`books, exchange`buyCalls, activity, idempotency, gate`latch, gate`issued
      modifies gate`revokedBelow
      ensures Working(i) && began == old(Here()) && startedAt == old(now) && !withdrawing
      ensures (sound == old(Fit(i)) && settled == old(Settling(i))) || Here() == old(Here())
      ensures capped == (old(CapsHold(activity.log)) && CapFor(f, dailyCap))
      ensures Answered(i, f, r) && (r.Ok? ==> fresh(r.value))
    {
      hide Working, CapsHold, TurnedDown, Sent, Overreach, TradedOnce, LetThrough, Decided, RecoveredTo, BooksAfter;
      hide BackedBy, Matches, PositionSound, Cornered, Settling, LegalPath, BootGate.Valid, Accounted, Valid;
      var admitted := Admit(i, f);
      if admitted.Err? {
        r := Err(admitted.exn);
      } else {
        ghost var from := now;
        r := Claimed(i, f);
        SinceEarlier(old(exchange.books), old(activity.log), i, f, old(now), from, now,
                     if r.Ok? then r.value.state else Unknown, if r.Ok? then r.value.history else []);
      }
    }

    /** The row is there: the claim decides whether this is the first time. */
    method Claimed(i: TradeIntent, f: Portfolio) returns (r: Result<TradeStateMachine>)
      requires Working(i) && i.id in ledger.rows && gate.Valid() && (capped ==> CapFor(f, dailyCap))
      requires sound ==> !Overreach(ledger.rows, exchange.books, i)
      modifies this`auth, this`now, ledger, exchange`books, exchange`buyCalls, activity, idempotency
      modifies gate`latch, gate`issued, gate`revokedBelow
      ensures Working(i) && now >= old(now) && Ebbs(old(auth), auth) && gate.Valid() && (gate.latch ==> old(gate.latch))
      ensures r.Err? ==> r.exn in {Refused, Faulted} || Stopped(i, r.exn)
      ensures r == Err(InvalidTransition) || (mode.Calm? && old(auth)) ==> unchanged(gate)
      ensures r in {Err(Refused), Err(Faulted)} ==>
                unchanged(gate) && ledger.rows == old(ledger.rows) && i.id !in old(idempotency.claimed)
      ensures r == Err(Refused) ==> !RowIs(old(ledger.rows), i.id, Created)
      ensures r == Err(Faulted) ==> i.stopPrice < i.referenceEntryPrice == 0.0 < i.takeProfitPrice
      ensures r.Ok? ==>
                && fresh(r.value) && r.value.Valid()
                && (RowIs(ledger.rows, i.id, r.value.state) || (!auth && r.value.state == Unknown))
      ensures mode.Calm? && old(auth) && sound && i.id !in old(idempotency.claimed) && r.Ok? ==>
                Decided(old(exchange.books), old(activity.log), i, f, old(now), now, r.value.state)
      ensures exchange.buyCalls != old(exchange.buyCalls) ==>
                LetThrough(old(activity.log), i, f, old(now), now) && i.id !in old(idempotency.claimed)
      ensures i.id in old(idempotency.claimed) ==> OnlyRecovered(i, r)
      ensures mode.Calm? && old(auth) && sound && i.id in old(idempotency.claimed) ==>
                && r.Ok?
                && r.value.state == RecoveredTo(old(ledger.rows)[i.id].state, old(ledger.rows)[i.id].prepared,
                  old(Pos(i)), i.symbol, true)
      ensures r.Ok? && i.id !in old(idempotency.claimed) ==>
                TradedOnce(old(activity.log), i, f, old(now), now, r.value.state, r.value.history)
      ensures r.Ok? ==> i.id in idempotency.claimed
    {
      hide Working, LegalPath, CapsHold, TurnedDown, Sent, Overreach, WasTurnedDown, LetThrough, Decided;
      hide RecoveredTo, BooksAfter, BackedBy;
      var first := idempotency.Claim(i.id);
      var died: bool := *;
      if died && !mode.Calm? {
        return Err(Crash);
      }
      if first {
        var sm := new TradeStateMachine(Created);
        r := FirstTime(i, f, sm);
      } else {
        r := Duplicate(i);
      }
    }

    /** An intent seen before is recovered, not traded again. */
    method Duplicate(i: TradeIntent) returns (r: Result<TradeStateMachine>)
      requires Working(i) && i.id in ledger.rows && (sound ==> !Overreach(ledger.rows, exchange.books, i))
      modifies this`auth, this`now, ledger, exchange`books
      ensures Working(i) && now >= old(now) && Ebbs(old(auth), auth)
      ensures r.Err? ==> CutsShort(r.exn)
      ensures r.Ok? ==> fresh(r.value) && r.value.Valid() && RowIs(ledger.rows, i.id, r.value.state)
      ensures OnlyRecovered(i, r)
      ensures mode.Calm? && old(auth) && sound ==>
                && r.Ok?
                && r.value.state == RecoveredTo(old(ledger.rows)[i.id].state, old(ledger.rows)[i.id].prepared,
                  old(Pos(i)), i.symbol, true)
    {
      hide Working, RecoveredTo, BooksAfter, BackedBy;
      var state :- RecoverIntent(i, true);
      var sm := new TradeStateMachine(state);
      r := Ok(sm);
    }

    /** The one public way in.  Losing authority shuts the gate, except where it is lost between a confirmed sale
        and the step that records it: that leaves as an illegal step, past the handler that shuts the gate. */
    method Process(i: TradeIntent, f: Portfolio, healthy: bool) returns (r: Result<TradeStateMachine>)
      requires Valid() && gate.Valid()
      modifies this`auth, this`now, this`began, this`startedAt, this`sound, this`settled, this`withdrawing, this`capped
      modifies ledger, exchange`books, exchange`buyCalls, activity, idempotency, gate`latch, gate`issued
      modifies gate`revokedBelow
      ensures Valid() && now >= old(now) && Ebbs(old(auth), auth) && Kept(i)
      ensures gate.Valid() && (gate.latch ==> old(gate.latch))
      ensures old(CapsHold(activity.log)) && CapFor(f, dailyCap) ==> CapsHold(activity.log)
      ensures r.Ok? ==>
                && fresh(r.value) && LegalPath(r.value.history)
                && (RowIs(ledger.rows, i.id, r.value.state) || (!auth && r.value.state == Unknown))
      ensures StampedSince(old(ledger.rows), ledger.rows, i.id, old(now))
      ensures r.Err? ==> r.exn in {GateClosed, Refused, Faulted, InvalidTransition, Crash}
      ensures r == Err(InvalidTransition) ==> Cornered(i) && unchanged(gate)
      ensures mode.Calm? ==> r.Ok? || r.exn in {GateClosed, Refused, Faulted}
      ensures mode.Calm? && old(auth) ==> unchanged(gate)
      ensures mode.Calm? && r == Err(GateClosed) ==> Here() == old(Here()) && activity.log == old(activity.log)
      ensures r == Err(Refused) ==>
                i.id in old(ledger.rows) && !RowIs(old(ledger.rows), i.id, Created) && i.id !in old(idempotency.claimed)
      ensures r == Err(Faulted) ==>
                i.stopPrice < i.referenceEntryPrice == 0.0 < i.takeProfitPrice && i.id !in old(idempotency.claimed)
      ensures r in {Err(Refused), Err(Faulted)} ==>
                && i.id in ledger.rows && unchanged(gate)
                && if i.id in old(ledger.rows) then ledger.rows == old(ledger.rows)
                  else RowIs(ledger.rows, i.id, Created)
      ensures r == Err(GateClosed) ==> !gate.latch || ledger.rows == old(ledger.rows)
      ensures r == Err(GateClosed) ==> !healthy || !auth || !old(gate.latch && gate.ready)
      ensures !healthy || !old(auth && gate.latch && gate.ready) ==>
                r == Err(GateClosed) && Here() == old(Here()) && activity.log == old(activity.log)
                  && idempotency.claimed == old(idempotency.claimed)
      ensures mode.Calm? && old(Fit(i)) && i.id !in old(idempotency.claimed) && r.Ok? ==>
                Decided(old(exchange.books), old(activity.log), i, f, old(now), now, r.value.state)
      ensures exchange.buyCalls != old(exchange.buyCalls) ==>
                LetThrough(old(activity.log), i, f, old(now), now) && i.id !in old(idempotency.claimed)
      ensures r.Ok? && i.id in old(idempotency.claimed) ==> OnlyRecovered(i, r)
      ensures mode.Calm? && old(Fit(i)) && i.id in old(idempotency.claimed) && i.id in old(ledger.rows) && r.Ok? ==>
                r.value.state == RecoveredTo(old(ledger.rows)[i.id].state, old(ledger.rows)[i.id].prepared, old(Pos(i)),
                  i.symbol, true)
      ensures r.Ok? && i.id !in old(idempotency.claimed) ==>
                && r.value.state in {Protected, UnderProtected, Closed, Halted, TradeState.Canceled, Expired, Rejected,
                                     Unknown}
                && (forall k :: 0 < k < |r.value.history| && r.value.history[k - 1] == ProtectionFailed ==>
                      (r.value.history[k] == Halted <==> !policy.emergencyExitOnUnprotected))
                && (r.value.state == Closed && mode != Hostile ==> Pos(i).exit.Some?)
                && (r.value.state == Rejected ==> WasTurnedDown(old(activity.log), i, f, old(now), now))
      ensures exchange.buyCalls != old(exchange.buyCalls) ==>
                !EndsInErrors(old(activity.log), policy.maxConsecutiveErrors)
      ensures r.Ok? ==> i.id in idempotency.claimed
    {
      hide Kept, LetThrough, Decided, CapsHold, LegalPath, Sound, Sent, Overreach, WriteAhead, Faithful, RecoveredTo;
      hide BooksAfter, BackedBy, WasTurnedDown, EndsInErrors, OnlyRecovered, BootGate.Valid, Matches;
      Idle(i);
      if !(gate.latch && gate.ready && healthy) {
        return Err(GateClosed);
      }
      if !auth {
        gate.Revoke();
        Idle(i);
        return Err(GateClosed);
      }
      r := Attempt(i, f);
      if exchange.buyCalls != old(exchange.buyCalls) {
        LetThroughMeans(old(activity.log), i, f, old(now), now);
      }
      if r == Err(StaleEpoch) {
        gate.Revoke();
        return Err(GateClosed);
      }
    }

    // --- Keeping a claim of protection honest ---

    /** Withdraws a claim: the verification goes first, then the state. */
    method Withdraw(i: TradeIntent) returns (r: Result<()>)
      requires Working(i) && i.id in ledger.rows && ClaimsProtection(ledger.rows[i.id].state)
      requires ClaimsAt(ledger.rows, i.id) ==> ClaimsAt(began.rows, i.id)
      modifies this`auth, this`now, this`withdrawing, ledger
      ensures Working(i) && now >= old(now) && Ebbs(old(auth), auth)
      ensures r.Ok? ==> withdrawing == old(withdrawing) || !ClaimsAt(ledger.rows, i.id)
      ensures r.Err? ==> CutsShort(r.exn)
      ensures i.id in ledger.rows
      ensures (r.Ok? ==> RowIs(ledger.rows, i.id, Unknown) && ledger.rows[i.id].verifiedAt == None)
      ensures r == Err(StaleEpoch) ==> ledger.rows[i.id].state == old(ledger.rows)[i.id].state
      ensures mode.Calm? && old(auth) ==> r.Ok?
    {
      hide Working;
      Seen(i);
      var _ :- ClearVerification(i);
      r := Persist(i, Unknown, None);
    }

    ghost method BeginWithdrawal(i: TradeIntent)
      requires Working(i)
      modifies this`withdrawing
      ensures Working(i) && withdrawing
    {
      hide Sound, WriteAhead, Moved, Faithful, Filed, CapsHold, EpochsWithin, UpTo, StampedSince;
      withdrawing := true;
    }

    method ClearVerification(i: TradeIntent) returns (r: Result<()>)
      requires Working(i) && i.id in ledger.rows
      requires ClaimsAt(ledger.rows, i.id) ==> ClaimsAt(began.rows, i.id)
      modifies this`auth, this`now, this`withdrawing, ledger
      ensures Working(i) && now >= old(now) && Ebbs(old(auth), auth)
      ensures r.Ok? ==> auth
      ensures r.Err? ==> CutsShort(r.exn)
      ensures i.id in ledger.rows
      ensures ledger.rows[i.id] == old(ledger.rows)[i.id].(verifiedAt := ledger.rows[i.id].verifiedAt,
                epoch := ledger.rows[i.id].epoch)
      ensures r.Ok? ==> ledger.rows[i.id].verifiedAt == None
      ensures mode.Calm? && old(auth) ==> r.Ok?
    {
      hide Working, Faithful, Filed, StateFits, PositionSound, EntryFits;
      Lapse(i);
      Guarded(i);
      Seen(i);
      BeginWithdrawal(i);
      label Before:
      r := ledger.ClearProtectionVerification(i.id, Who());
      Rewritten@Before(i);
      if r.Ok? {
        var died: bool := *;
        if died && !mode.Calm? {
          return Err(Crash);
        }
      }
    }

    /** The claim of this row is what the exchange shows: an active protection of the stored quantity. */
    predicate Backs(row: Row, i: TradeIntent)
      reads exchange
    {
      BackedBy(exchange.books, row, i)
    }

    /** Checks one claim against the exchange: Some(true) stands, Some(false) is withdrawn, None is no answer. */
    method CheckClaim(i: TradeIntent) returns (r: Result<Option<bool>>)
      requires Working(i) && i.id in ledger.rows && ClaimsProtection(ledger.rows[i.id].state)
      requires ClaimsAt(ledger.rows, i.id) ==> ClaimsAt(began.rows, i.id)
      modifies this`auth, this`now, this`withdrawing, ledger
      ensures Working(i) && now >= old(now) && Ebbs(old(auth), auth)
      ensures r.Ok? ==> withdrawing == old(withdrawing) || !ClaimsAt(ledger.rows, i.id)
      ensures r.Err? ==> CutsShort(r.exn)
      ensures i.id in ledger.rows
      ensures r == Ok(Some(true)) ==>
                && RowIs(ledger.rows, i.id, old(ledger.rows)[i.id].state)
                && (mode != Hostile ==> Backs(ledger.rows[i.id], i))
                && ledger.rows[i.id].verifiedAt.Some? && old(now) <= ledger.rows[i.id].verifiedAt.value <= now
      ensures r == Err(StaleEpoch) ==> RowIs(ledger.rows, i.id, old(ledger.rows)[i.id].state)
      ensures r == Ok(Some(false)) ==>
                && ledger.rows[i.id].state in {Unknown, UnderProtected}
                && (ledger.rows[i.id].state == Unknown ==> ledger.rows[i.id].verifiedAt == None)
      ensures r == Ok(None) ==> ledger.rows[i.id] == old(ledger.rows)[i.id].(epoch := ledger.rows[i.id].epoch)
      ensures mode.Calm? && old(auth) && old(ledger.rows)[i.id].expectedQty.Some? ==>
                r == Ok(if Refuses(ProtectionRead) then None else Some(Backs(old(ledger.rows)[i.id], i)))
    {
      hide Working;
      Seen(i);
      var state := ledger.rows[i.id].state;
      var claim :- ReadClaim(i);
      if claim.None? {
        return Ok(None);
      }
      if claim.value.1.None? {
        var _ :- Withdraw(i);
        return Ok(Some(false));
      }
      var kept :- Reverify(i, state, claim.value.0, claim.value.1.value.baseQty, state == PartiallyProtected);
      r := Ok(Some(kept == state));
    }

    /** One check of one claim, as an operation of its own. */
    method Verify(i: TradeIntent) returns (r: Result<Option<bool>>)
      requires Valid() && i.id in ledger.rows && ClaimsProtection(ledger.rows[i.id].state)
      modifies this`auth, this`now, this`began, this`startedAt, this`sound, this`settled, this`withdrawing
      modifies this`capped, ledger
      ensures Valid() && now >= old(now) && Ebbs(old(auth), auth) && Kept(i)
      ensures r.Ok? ==> StampedSince(old(ledger.rows), ledger.rows, i.id, old(now))
      ensures r.Err? ==> CutsShort(r.exn)
      ensures i.id in ledger.rows
      ensures r == Ok(Some(true)) ==>
                && RowIs(ledger.rows, i.id, old(ledger.rows)[i.id].state)
                && (mode != Hostile ==> Backs(ledger.rows[i.id], i))
                && ledger.rows[i.id].verifiedAt.Some? && old(now) <= ledger.rows[i.id].verifiedAt.value <= now
      ensures r == Err(StaleEpoch) ==> RowIs(ledger.rows, i.id, old(ledger.rows)[i.id].state)
      ensures r == Ok(Some(false)) ==>
                && ledger.rows[i.id].state in {Unknown, UnderProtected}
                && (ledger.rows[i.id].state == Unknown ==> ledger.rows[i.id].verifiedAt == None)
      ensures r == Ok(None) ==> ledger.rows[i.id] == old(ledger.rows)[i.id].(epoch := ledger.rows[i.id].epoch)
      ensures mode.Calm? && old(auth) && old(ledger.rows)[i.id].expectedQty.Some? ==>
                r == Ok(if Refuses(ProtectionRead) then None else Some(Backs(old(ledger.rows)[i.id], i)))
    {
      Begin(i);
      hide Working, Kept;
      r := CheckClaim(i);
      Done(i);
    }

    /** Withdraws a claim that has gone unverified for too long. */
    method Expire(i: TradeIntent) returns (r: Result<()>)
      requires Valid() && i.id in ledger.rows && ClaimsProtection(ledger.rows[i.id].state)
      modifies this`auth, this`now, this`began, this`startedAt, this`sound, this`settled, this`withdrawing
      modifies this`capped, ledger
      ensures Valid() && now >= old(now) && Ebbs(old(auth), auth) && Kept(i)
      ensures r.Ok? ==> StampedSince(old(ledger.rows), ledger.rows, i.id, old(now))
      ensures r.Err? ==> CutsShort(r.exn)
      ensures i.id in ledger.rows && (r.Ok? ==> RowIs(ledger.rows, i.id, Unknown))
      ensures r == Err(StaleEpoch) ==> RowIs(ledger.rows, i.id, old(ledger.rows)[i.id].state)
    {
      Begin(i);
      hide Working, Kept;
      r := Withdraw(i);
      Done(i);
    }

    /** The note that cold boot leaves on a row it could not read; a failure to leave it is ignored. */
    method Quarantine(id: Name) returns (r: Result<()>)
      requires Valid() && id in ledger.rows
      modifies this`auth, this`now, ledger
      ensures Valid() && now >= old(now) && Ebbs(old(auth), auth)
      ensures r.Err? ==> r.exn == Crash && !mode.Calm?
      ensures OnlyRow(old(ledger.rows), ledger.rows, id) && id in ledger.rows
              && ledger.rows[id] == old(ledger.rows)[id].(epoch := ledger.rows[id].epoch)
      ensures StaysSound(false)
      ensures mode.Calm? && old(auth) ==> epoch == Some(ledger.rows[id].epoch)
    {
      var elapsed: int := *;
      if elapsed > 0 {
        now := now + elapsed;
      }
      if !mode.Calm? && auth {
        auth := *;
      }
      ghost var rows := ledger.rows;
      var noted := ledger.MarkError(id, Who());
      if noted.Ok? {
        assert RowOrderly(rows, id) && (RowOrderly(rows, id) ==> RowOrderly(ledger.rows, id));
        RowWriteAhead(rows, ledger.rows, exchange.books, exchange.buyCalls, id);
        EpochsAfterWrite(rows, ledger.rows, id, epoch.value);
        if old(SoundNow()) {
          EpochWriteIsHarmless(rows, ledger.rows, exchange.books, exchange.baseline, id);
        }
        var died: bool := *;
        if died && !mode.Calm? {
          return Err(Crash);
        }
      }
      r := Ok(());
    }

    // --- Authority ---

    /** Keeps a valid lease; otherwise drops the old epoch and takes whatever the lease now grants. */
    method AcquireAuthority(granted: Option<nat>) returns (ok: bool)
      requires Valid() && (granted.Some? ==> EpochsWithin(ledger.rows, granted.value))
      modifies this`epoch, this`auth
      ensures Valid() && ok == auth
      ensures old(auth) ==> auth && epoch == old(epoch)
      ensures !old(auth) ==> epoch == granted && auth == granted.Some?
    {
      if auth {
        return true;
      }
      epoch := granted;
      auth := granted.Some?;
      ok := auth;
    }

    /** A lease that lapsed and was claimed by nobody may be renewed in place, between operations. */
    method Renew(held: bool)
      requires Valid()
      modifies this`auth
      ensures Valid() && auth == (held && epoch.Some?)
    {
      if epoch.Some? {
        auth := held;
      }
    }

    method ReleaseAuthority()
      requires Valid() && gate.Valid()
      modifies this`epoch, this`auth, gate`latch, gate`issued, gate`revokedBelow
      ensures Valid() && gate.Valid() && !auth && epoch == None && !gate.latch
    {
      epoch := None;
      auth := false;
      gate.Revoke();
    }
  }

  /** How it comes to that, for any row in the middle of a sale: the machine takes the step that records the sale,
      authority has lapsed and the ledger refuses it, and the handler's own step is one the table does not have. */
  method LapseAfterSale(ledger: TradeLedger, sm: TradeStateMachine, id: Name, epoch: nat, whole: bool)
    returns (recorded: Result<()>, handled: bool)
    requires ledger.Valid() && RowIs(ledger.rows, id, EmergencyExit) && sm.Valid() && sm.state == EmergencyExit
    modifies ledger, sm
    ensures recorded == Err(StaleEpoch) && !handled
    ensures ledger.Valid() && ledger.rows == old(ledger.rows) && sm.Valid()
    ensures sm.state == if whole then Closed else Unknown
  {
    var _ := sm.Move(if whole then Closed else Unknown);
    recorded := ledger.SetState(id, sm.state, Authority(false, epoch), Some(EmergencyExit));
    handled := sm.Move(Unknown);
  }
}
