/** Whole runs: trades, recoveries, checks and takeovers in any order, cut anywhere. */
module Runs {
  import opened Domain
  import opened Exchange
  import opened Ledger
  import opened Activity
  import opened BootGate
  import opened Protocol
  import opened Engine

  /** How a row ended is how it stays. */
  ghost predicate EndsStand(past: seq<Rows>, rows: Rows) {
    forall k, id :: 0 <= k < |past| && id in past[k] && Terminal(past[k][id].state) ==>
        RowIs(rows, id, past[k][id].state)
  }

  lemma EndsStandAfter(past: seq<Rows>, a: Moment, b: Moment, i: TradeIntent)
    requires EndsStand(past, a.rows) && Moved(a, b, i)
    ensures EndsStand(past + [b.rows], b.rows)
  {
    forall k, id | 0 <= k < |past| && id in past[k] && Terminal(past[k][id].state)
      ensures RowIs(b.rows, id, past[k][id].state)
    {
      assert RowIs(a.rows, id, past[k][id].state);
      assert id != i.id ==> SameRow(a.rows, b.rows, id);
    }
  }

  /** A fresh leader on the shared stores, its gate open. */
  method TakeOver(ledger: TradeLedger, exchange: PersistentExchange, idempotency: IdempotencyStore,
                  activity: TradingActivityStore, policy: RiskPolicy, mode: Mode, steadyExits: bool,
                  ghost dailyCap: real, epoch: nat, now: int) returns (e: ExecutionEngine)
    requires ledger.Valid() && exchange.Valid() && UpTo(activity.log, now)
    requires ExecutionEngine.Accounted(exchange.buyCalls, activity.log)
    requires WriteAhead(ledger.rows, exchange.books, exchange.buyCalls) && EpochsWithin(ledger.rows, epoch)
    ensures fresh(e) && fresh(e.gate) && e.Valid() && e.gate.Valid() && e.now == now && e.auth
    ensures e.ledger == ledger && e.exchange == exchange && e.idempotency == idempotency && e.activity == activity
    ensures e.mode == mode && e.steadyExits == steadyExits && e.dailyCap == dailyCap && e.policy == policy
    ensures e.epoch == Some(epoch)
  {
    var gate := new BootGate();
    var _ := gate.Bind(0);
    var proof := gate.Issue(0, Some(epoch), 0, 0);
    var _ := gate.Grant(0, Some(epoch), Some(proof.value));
    gate.ready := true;
    e := new ExecutionEngine(ledger, exchange, idempotency, activity, gate, policy, mode, steadyExits, dailyCap,
      epoch, now);
  }

  /** One step of a leader: a new intent, a recovery, a check of a claim, or the withdrawal of one.  Each may be
      cut short. */
  method Step(e: ExecutionEngine, portfolioValue: real) returns (i: TradeIntent, died: bool)
    requires e.Valid() && e.gate.Valid() && e.dailyCap == portfolioValue * e.policy.maxNotionalPerDayPct
    modifies e, e.gate, e.ledger, e.exchange`books, e.exchange`buyCalls, e.activity, e.idempotency
    ensures e.Valid() && e.gate.Valid() && e.epoch == old(e.epoch)
    ensures Moved(old(e.Here()), e.Here(), i)
    ensures old(e.Fit(i)) ==> e.SoundNow() && Matches(e.ledger.rows, i)
    ensures old(e.Settling(i)) ==> SettledAt(e.ledger.rows, e.exchange.books, i)
    ensures old(e.CapsHold(e.activity.log)) ==> e.CapsHold(e.activity.log)
  {
    hide ExecutionEngine.Fit, ExecutionEngine.Settling, ExecutionEngine.Healthy, ExecutionEngine.CapsHold, Moved;
    hide ExecutionEngine.LetThrough, ExecutionEngine.Decided, BootGate.Valid, SettledAt, RecoveredBooks, Recovered;
    var kind: int, intent: TradeIntent, f: Portfolio, strict: bool, healthy: bool := *, *, *, *, *;
    i, died := intent, false;
    e.Idle(i);
    if kind == 0 {
      var r := e.Process(i, f.(portfolioValue := portfolioValue), healthy);
      died := r == Err(Crash);
    } else if i.id in e.ledger.rows {
      assert FiledAt(e.ledger.rows, i.id);
      if e.ledger.rows[i.id].payload.Readable? {
        i := e.ledger.rows[i.id].payload.intent;
        e.Idle(i);
        if kind == 1 {
          var r := e.Recover(i, strict);
          died := r == Err(Crash);
        } else if kind == 2 && ClaimsProtection(e.ledger.rows[i.id].state) {
          var r := e.Verify(i);
          died := r == Err(Crash);
        } else if ClaimsProtection(e.ledger.rows[i.id].state) {
          var r := e.Expire(i);
          died := r == Err(Crash);
        }
      }
    }
  }

  /** What one step met when it began. */
  datatype Met = Met(rows: Rows, books: Books, intent: TradeIntent)

  /** No id was used for two different intents. */
  ghost predicate OneIntentPerId(run: seq<Met>) {
    forall k :: 0 <= k < |run| ==> Matches(run[k].rows, run[k].intent)
  }

  /** And no step found a sold position that had slipped out of its exit states. */
  ghost predicate Clean(run: seq<Met>) {
    OneIntentPerId(run) && forall k :: 0 <= k < |run| ==> !Overreach(run[k].rows, run[k].books, run[k].intent)
  }

  /** The stores that outlive every leader. */
  class Stores {
    const ledger: TradeLedger
    const exchange: PersistentExchange
    const idempotency: IdempotencyStore
    const activity: TradingActivityStore

    constructor (balances: Wallet, price: real, rate: real, ratio: real)
      requires price > 0.0 && 0.0 <= rate <= 1.0 && 0.0 <= ratio
      ensures fresh(ledger) && fresh(exchange) && fresh(idempotency) && fresh(activity)
      ensures ledger.Valid() && exchange.Valid() && activity.log == [] && exchange.buyCalls == multiset{}
      ensures ledger.rows == map[] && exchange.books == Books(balances, map[], map[]) && exchange.baseline == balances
      ensures Conserved(exchange.books, exchange.baseline)
    {
      ledger := new TradeLedger();
      exchange := new PersistentExchange(balances, price, rate, ratio);
      idempotency := new IdempotencyStore();
      activity := new TradingActivityStore();
    }
  }

  lemma EmptyStoresAreSound(balances: Wallet)
    requires forall c: Symbol :: Held(balances, c) >= 0.0
    requires Conserved(Books(balances, map[], map[]), balances)
    ensures Sound(map[], Books(balances, map[], map[]), balances) && SoldSettled(map[], Books(balances, map[], map[]))
    ensures WriteAhead(map[], Books(balances, map[], map[]), multiset{}) && EpochsWithin(map[], 0)
  {
    var rows: Rows, x := map[], Books(balances, map[], map[]);
    forall id ensures RowSound(rows, id, x) && RowOrderly(rows, id) && AskedOnce(rows, id, multiset{})
        && EpochAtMost(rows, id, 0) {
    }
    forall c ensures EntryAsked(x, c, multiset{}) {
    }
  }

  /** What the rest of the run knows after one more step. */
  lemma RunAfter(run: seq<Met>, a: Moment, b: Moment, base: Wallet, i: TradeIntent, steady: bool)
    requires Clean(run) ==> Sound(a.rows, a.books, base)
    requires OneIntentPerId(run) && steady ==> Clean(run) && SoldSettled(a.rows, a.books)
    requires Moved(a, b, i) && Filed(a.rows) && Filed(b.rows)
    requires Sound(a.rows, a.books, base) && Matches(a.rows, i) && !Overreach(a.rows, a.books, i) ==>
               && Sound(b.rows, b.books, base) && Matches(b.rows, i)
               && (steady && SettledAt(a.rows, a.books, i) ==> SettledAt(b.rows, b.books, i))
    ensures var run' := run + [Met(a.rows, a.books, i)];
            && (Clean(run') ==> Sound(b.rows, b.books, base))
            && (OneIntentPerId(run') && steady ==> Clean(run') && SoldSettled(b.rows, b.books))
  {
    var run' := run + [Met(a.rows, a.books, i)];
    assert run'[..|run|] == run && run'[|run|] == Met(a.rows, a.books, i);
    assert OneIntentPerId(run') ==> OneIntentPerId(run) && Matches(a.rows, i);
    assert Clean(run') ==> Clean(run) && !Overreach(a.rows, a.books, i);
    if OneIntentPerId(run') && steady {
      SettledHere(a.rows, a.books, base, i);
      SettledAfter(a, b, i);
    }
  }

  /** After any number of steps by any number of leaders, each cut anywhere: the log tells the truth,
      no entry without its write-ahead mark and none asked for twice, every end stands, the caps hold,
      and in an honest world the protocol invariant holds.  That last claim needs that no id was reused
      and that no recovery overreached; when the reads of exit orders fail only for lack of authority,
      overreach never comes up. */
  method AnyRun(steps: nat, balances: Wallet, price: real, rate: real, ratio: real, policy: RiskPolicy,
                mode: Mode, steadyExits: bool, portfolioValue: real)
    returns (s: Stores, epoch: nat, now: int, ghost run: seq<Met>, ghost past: seq<Rows>)
    requires price > 0.0 && 0.0 <= rate <= 1.0 && 0.0 <= ratio && forall c: Symbol :: Held(balances, c) >= 0.0
    ensures fresh(s) && fresh(s.ledger) && fresh(s.exchange) && fresh(s.idempotency) && fresh(s.activity)
    ensures s.ledger.Valid() && s.exchange.Valid() && s.exchange.baseline == balances
    ensures Faithful(s.ledger.rows, s.ledger.log) && EpochsWithin(s.ledger.rows, epoch) && UpTo(s.activity.log, now)
    ensures |s.exchange.buyCalls| <= Submissions(s.activity.log)
    ensures WriteAhead(s.ledger.rows, s.exchange.books, s.exchange.buyCalls)
    ensures |run| == steps && |past| == steps && EndsStand(past, s.ledger.rows)
    ensures HourlyCapHolds(s.activity.log, policy.maxOrdersPerHour)
    ensures DailyCapHolds(s.activity.log, portfolioValue * policy.maxNotionalPerDayPct)
    ensures mode != Hostile && Clean(run) ==> Sound(s.ledger.rows, s.exchange.books, balances)
    ensures mode != Hostile && OneIntentPerId(run) && steadyExits ==>
              Clean(run) && SoldSettled(s.ledger.rows, s.exchange.books)
  {
    hide ExecutionEngine.Valid, BootGate.Valid, Clean, OneIntentPerId, SoldSettled, Sound, Moved, EndsStand;
    hide Faithful, WriteAhead, EpochsWithin, UpTo, HourlyCapHolds, DailyCapHolds;
    s := new Stores(balances, price, rate, ratio);
    run, past, epoch := [], [], 0;
    ghost var cap := portfolioValue * policy.maxNotionalPerDayPct;
    EmptyStoresAreSound(balances);
    NothingRun(policy, cap);
    var e := TakeOver(s.ledger, s.exchange, s.idempotency, s.activity, policy, mode, steadyExits, cap, 0, 0);
    for k := 0 to steps
      invariant fresh(s.ledger) && fresh(s.exchange) && fresh(s.idempotency) && fresh(s.activity) && fresh(e)
      invariant fresh(e.gate)
      invariant e.ledger == s.ledger && e.exchange == s.exchange && e.idempotency == s.idempotency
      invariant e.activity == s.activity
      invariant e.mode == mode && e.steadyExits == steadyExits && e.dailyCap == cap && e.policy == policy
      invariant e.Valid() && e.gate.Valid() && e.epoch == Some(epoch)
      invariant s.exchange.baseline == balances
      invariant |run| == k && |past| == k && EndsStand(past, s.ledger.rows)
      invariant e.CapsHold(s.activity.log)
      invariant mode != Hostile && Clean(run) ==> Sound(s.ledger.rows, s.exchange.books, balances)
      invariant mode != Hostile && OneIntentPerId(run) && steadyExits ==>
                Clean(run) && SoldSettled(s.ledger.rows, s.exchange.books)
    {
      ghost var a := e.Here();
      e.RowsAreFiled();
      var i, died := Step(e, portfolioValue);
      e.RowsAreFiled();
      EndsStandAfter(past, a, e.Here(), i);
      if mode != Hostile {
        RunAfter(run, a, e.Here(), balances, i, steadyExits);
      }
      run := run + [Met(a.rows, a.books, i)];
      past := past + [s.ledger.rows];
      var elected: bool := *;
      if died || elected {
        EpochsGrow(e);
        epoch := epoch + 1;
        e := TakeOver(s.ledger, s.exchange, s.idempotency, s.activity, policy, mode, steadyExits, cap, epoch, e.now);
      }
    }
    WhatHolds(e);
    now := e.now;
  }

  lemma NothingRun(policy: RiskPolicy, cap: real)
    ensures Clean([]) && OneIntentPerId([])
    ensures HourlyCapHolds([], policy.maxOrdersPerHour) && DailyCapHolds([], cap)
    ensures forall rows: Rows :: EndsStand([], rows)
  {
  }

  lemma EpochsGrow(e: ExecutionEngine)
    requires e.Valid() && e.epoch.Some?
    ensures EpochsWithin(e.ledger.rows, e.epoch.value + 1) && e.ledger.Valid() && e.exchange.Valid()
    ensures UpTo(e.activity.log, e.now)
    ensures ExecutionEngine.Accounted(e.exchange.buyCalls, e.activity.log)
    ensures WriteAhead(e.ledger.rows, e.exchange.books, e.exchange.buyCalls)
  {
    var later := e.epoch.value + 1;
    forall id ensures EpochAtMost(e.ledger.rows, id, later) {
      assert EpochAtMost(e.ledger.rows, id, e.epoch.value);
    }
  }

  lemma WhatHolds(e: ExecutionEngine)
    requires e.Valid() && e.epoch.Some?
    ensures e.ledger.Valid() && e.exchange.Valid() && EpochsWithin(e.ledger.rows, e.epoch.value)
    ensures UpTo(e.activity.log, e.now)
    ensures |e.exchange.buyCalls| <= Submissions(e.activity.log)
    ensures WriteAhead(e.ledger.rows, e.exchange.books, e.exchange.buyCalls)
  {
  }

  /** An intent that ended Rejected has no entry and none was ever asked for; its end stands, so none ever will be. */
  lemma RejectedNeverEnters(rows: Rows, x: Books, calls: multiset<Name>, id: Name, c: ClientId)
    requires WriteAhead(rows, x, calls) && RowIs(rows, id, Rejected)
    ensures id !in calls && (c.suffix == Entry && c.origin.intentId == id ==> c !in x.orders)
  {
    assert RowOrderly(rows, id) && AskedOnce(rows, id, calls) && EntryAsked(x, c, calls);
  }

  /** One leader recovers an intent in peace. */
  method RecoverInPeace(e: ExecutionEngine, i: TradeIntent) returns (state: TradeState)
    requires e.Valid() && e.auth && e.Peaceful()
    modifies e, e.ledger, e.exchange`books
    ensures e.Valid() && e.auth
    ensures old(e.Fit(i)) && i.id in old(e.ledger.rows) ==>
              && e.Fit(i) && RowIs(e.ledger.rows, i.id, state)
              && EndsWell(i, old(e.ledger.rows)[i.id], old(e.Pos(i)), state, e.Pos(i))
  {
    hide ExecutionEngine.Valid, Sound, EndsWell, RecoveredBooks, Recovered, ExecutionEngine.RecoveredTo;
    hide ExecutionEngine.BooksAfter, ExecutionEngine.AsTheRowSays, Overreach, RowFits;
    ghost var fit, rows, x := e.Fit(i) && i.id in e.ledger.rows, e.ledger.rows, e.exchange.books;
    if fit {
      SoundHere(rows, x, e.exchange.baseline, i);
    }
    var r := e.Recover(i, true);
    state := if r.Ok? then r.value else Unknown;
    if fit {
      e.PeacefulRecovery(rows[i.id], PositionOf(x, OriginOf(i)), i, true);
      e.PeacefulBooks(rows[i.id], x, i);
      RecoveryEndsWell(i, rows[i.id], PositionOf(x, OriginOf(i)), e.ledger.rows[i.id], e.Pos(i));
      StillFit(rows, x, e.ledger.rows, e.exchange.books, i);
    }
  }

  /** What was not overreached for is not overreached for again. */
  lemma StillFit(rows: Rows, x: Books, rows': Rows, x': Books, i: TradeIntent)
    requires i.id in rows && RowFits(rows[i.id], i, PositionOf(x, OriginOf(i))) && !Overreach(rows, x, i)
    requires i.id in rows'
    requires rows'[i.id].state == Recovered(rows[i.id].state, rows[i.id].prepared, PositionOf(x, OriginOf(i)), i.symbol)
    requires x' == RecoveredBooks(rows[i.id], x, i)
    ensures !Overreach(rows', x', i)
  {
    if PositionOf(x, OriginOf(i)).exit.Some? && rows[i.id].state !in {EmergencyExit, Closed} {
      assert x' == x;
    }
  }

  /** Cut a run anywhere, any number of times, and let one leader recover an intent in peace, and once more.  From
      a row without an entry, from a sold one, and from an unsold one, wherever it was cut, the first recovery ends
      as `EndsWell` says, and so does the second: only an unsold one cut in EmergencyExit needs it.  The run must be
      clean and not leave this intent to be overreached for; if reads of exit orders fail only for lack of
      authority, it is enough that no id was reused, and what is sold ends Closed. */
  method CutAnywhereThenRecover(steps: nat, balances: Wallet, price: real, rate: real, ratio: real, policy: RiskPolicy,
                                steadyExits: bool, portfolioValue: real, i: TradeIntent)
    returns (first: TradeState, second: TradeState, cut: Moment, once: Moment, twice: Moment, ghost run: seq<Met>)
    requires price > 0.0 && 0.0 <= rate <= 1.0 && 0.0 <= ratio && forall c: Symbol :: Held(balances, c) >= 0.0
    ensures steadyExits && OneIntentPerId(run) && Matches(cut.rows, i) ==>
              Clean(run) && !Overreach(cut.rows, cut.books, i) && SettledAt(cut.rows, cut.books, i)
    ensures Clean(run) && i.id in cut.rows && Matches(cut.rows, i) && !Overreach(cut.rows, cut.books, i) ==>
              RecoveredWell(i, cut, first, once) && RecoveredWell(i, once, second, twice)
  {
    hide ExecutionEngine.Valid, SoldSettled, Sound, Overreach, EndsWell, Clean, OneIntentPerId;
    var s, epoch, now, met, past := AnyRun(steps, balances, price, rate, ratio, policy, Faulty, steadyExits,
        portfolioValue);
    run := met;
    var e := TakeOver(s.ledger, s.exchange, s.idempotency, s.activity, policy, Calm({}), steadyExits,
                      portfolioValue * policy.maxNotionalPerDayPct, epoch, now);
    cut := Moment(s.ledger.rows, s.exchange.books);
    if steadyExits && OneIntentPerId(run) && Matches(cut.rows, i) {
      SettledHere(cut.rows, cut.books, balances, i);
    }
    first := RecoverInPeace(e, i);
    once := Moment(s.ledger.rows, s.exchange.books);
    second := RecoverInPeace(e, i);
    twice := Moment(s.ledger.rows, s.exchange.books);
  }

  lemma SoundHere(rows: Rows, x: Books, base: Wallet, i: TradeIntent)
    requires Sound(rows, x, base) && i.id in rows && Matches(rows, i)
    ensures RowFits(rows[i.id], i, PositionOf(x, OriginOf(i)))
  {
    assert RowSound(rows, i.id, x);
  }
}
