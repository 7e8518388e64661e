/** Cold boot: every row that is not terminal is recovered, and one bad row cannot hide the rest. */
module ColdBoot {
  import opened Domain
  import opened Exchange
  import opened Ledger
  import opened Protocol
  import opened Engine
  import opened Freshness

  /** States by intent; None where the row was quarantined. */
  datatype BootReport = BootReport(
    inspected: nat, resolved: nat, unresolved: nat, states: map<Name, Option<TradeState>>, quarantined: nat)

  predicate Reported(report: BootReport, rows: Rows, id: Name) {
    id in report.states ==>
      id in rows && (report.states[id].Some? ==> rows[id].state == report.states[id].value)
  }

  predicate ResolvedAt(rows: Rows, id: Name) {
    id in rows ==> Resolved(rows[id].state)
  }

  predicate Good(outcome: Option<TradeState>) {
    outcome.Some? && Resolved(outcome.value)
  }

  predicate Bad(outcome: Option<TradeState>) {
    outcome.None?
  }

  /** How many of the reported outcomes are of a kind. */
  function Count(states: map<Name, Option<TradeState>>, kind: Option<TradeState> -> bool): nat {
    |set id | id in states && kind(states[id])|
  }

  lemma CountOf(states: map<Name, Option<TradeState>>, kind: Option<TradeState> -> bool, s: set<Name>)
    requires forall id :: id in s <==> id in states && kind(states[id])
    ensures Count(states, kind) == |s|
  {
    var t := set id | id in states && kind(states[id]);
    forall id ensures id in s <==> id in t {
    }
    assert s == t;
  }

  lemma CountAfter(states: map<Name, Option<TradeState>>, kind: Option<TradeState> -> bool, id: Name,
      outcome: Option<TradeState>)
    requires id !in states
    ensures Count(states[id := outcome], kind) == Count(states, kind) + if kind(outcome) then 1 else 0
  {
    var before := set k | k in states && kind(states[k]);
    var after := if kind(outcome) then before + {id} else before;
    forall k ensures k in after <==> k in states[id := outcome] && kind(states[id := outcome][k]) {
      assert k != id && k in states ==> states[id := outcome][k] == states[k];
    }
    CountOf(states[id := outcome], kind, after);
  }

  function Tally(b: BootReport, id: Name, outcome: Option<TradeState>): BootReport {
    var c := b.(states := b.states[id := outcome]);
    if Good(outcome) then c.(resolved := b.resolved + 1)
    else c.(unresolved := b.unresolved + 1, quarantined := b.quarantined + if outcome.None? then 1 else 0)
  }

  /** Where the report says protected, the exchange holds an active protection of the stored quantity. */
  predicate Vouched(b: BootReport, rows: Rows, x: Books, id: Name) {
    id in b.states && b.states[id].Some? && ClaimsProtection(b.states[id].value) ==>
      id in rows && rows[id].payload.Readable? && BackedBy(x, rows[id], rows[id].payload.intent)
  }

  lemma VouchedAfter(b: BootReport, rows: Rows, x: Books, rows': Rows, x': Books, id: Name, outcome: Option<TradeState>)
    requires (forall k :: Vouched(b, rows, x, k)) && Filed(rows) && OnlyRow(rows, rows', id) && OnlyIntent(x, x', id)
    requires outcome.Some? && ClaimsProtection(outcome.value) ==>
               id in rows' && rows'[id].payload.Readable? && BackedBy(x', rows'[id], rows'[id].payload.intent)
    ensures forall k :: Vouched(Tally(b, id, outcome), rows', x', k)
  {
    forall k ensures Vouched(Tally(b, id, outcome), rows', x', k) {
      assert Vouched(b, rows, x, k) && FiledAt(rows, k);
      if k != id && k in rows && rows[k].payload.Readable? {
        assert SameRow(rows, rows', k);
        assert SameOrders(x, x', ClaimId(rows[k].payload.intent, rows[k].state));
      }
    }
  }

  /** The report so far is true of the rows, and rows not looked at yet are as they were. */
  ghost predicate TrueSoFar(b: BootReport, done: set<Name>, first: Rows, rows: Rows) {
    && b.states.Keys == done && |done| == b.resolved + b.unresolved
    && b.resolved == Count(b.states, Good) && b.quarantined == Count(b.states, Bad) && b.quarantined <= b.unresolved
    && (forall id :: Reported(b, rows, id))
    && (forall id :: id !in done ==> SameRow(first, rows, id))
    && (b.unresolved == 0 ==> forall id :: id in done ==> ResolvedAt(rows, id))
  }

  lemma TrueAfter(b: BootReport, done: set<Name>, first: Rows, rows: Rows, rows': Rows, id: Name,
      outcome: Option<TradeState>)
    requires TrueSoFar(b, done, first, rows) && id !in done
    requires OnlyRow(rows, rows', id) && id in rows' && (outcome.Some? ==> rows'[id].state == outcome.value)
    ensures TrueSoFar(Tally(b, id, outcome), done + {id}, first, rows')
    ensures Tally(b, id, outcome).inspected == b.inspected
  {
    var b' := Tally(b, id, outcome);
    CountAfter(b.states, Good, id, outcome);
    CountAfter(b.states, Bad, id, outcome);
    forall k ensures Reported(b', rows', k) {
      assert Reported(b, rows, k) && (k != id ==> SameRow(rows, rows', k));
    }
    forall k | k !in done + {id} ensures SameRow(first, rows', k) {
      assert SameRow(first, rows, k) && SameRow(rows, rows', k);
    }
    if b'.unresolved == 0 {
      forall k | k in done + {id} ensures ResolvedAt(rows', k) {
        assert k != id ==> SameRow(rows, rows', k) && ResolvedAt(rows, k);
      }
    }
  }

  /** When every row that was not terminal has been looked at, the report speaks for all of them. */
  lemma TrueAtEnd(b: BootReport, all: set<Name>, first: Rows, rows: Rows)
    requires TrueSoFar(b, all, first, rows) && all == (set id | id in first && !Terminal(first[id].state))
    ensures b.states.Keys
              == set id | id in first && first[id].state !in {Closed, Rejected, TradeState.Canceled, Expired}
    ensures |all| == b.resolved + b.unresolved && b.quarantined <= b.unresolved
    ensures b.resolved == |set id | id in b.states && b.states[id].Some? && WellEnded(b.states[id].value)|
    ensures b.quarantined == |set id | id in b.states && b.states[id].None?|
    ensures forall id :: Reported(b, rows, id)
    ensures forall id :: id !in b.states ==> SameRow(first, rows, id)
    ensures b.unresolved == 0 ==> forall id :: id in rows ==> WellEnded(rows[id].state)
  {
    CountOf(b.states, Good, set id | id in b.states && b.states[id].Some? && WellEnded(b.states[id].value));
    CountOf(b.states, Bad, set id | id in b.states && b.states[id].None?);
    forall id | b.unresolved == 0 && id in rows ensures WellEnded(rows[id].state) {
      assert id in all ==> ResolvedAt(rows, id);
      assert id !in all ==> SameRow(first, rows, id);
    }
  }

  /** The states a boot may leave behind and still be clean. */
  predicate WellEnded(s: TradeState) {
    s in {Closed, Rejected, TradeState.Canceled, Expired, Protected, PartiallyProtected}
  }

  /** The report is of exactly the rows that had not ended, counts them by what became of them, and is true of them;
      none unresolved means that every row has ended well. */
  ghost predicate Accurate(b: BootReport, first: Rows, rows: Rows) {
    && b.states.Keys == (set id | id in first && first[id].state !in {Closed, Rejected, TradeState.Canceled, Expired})
    && b.inspected == |b.states.Keys| == b.resolved + b.unresolved && b.quarantined <= b.unresolved
    && b.resolved == |set id | id in b.states && b.states[id].Some? && WellEnded(b.states[id].value)|
    && b.quarantined == |set id | id in b.states && b.states[id].None?|
    && (forall id :: Reported(b, rows, id)) && (forall id :: id !in b.states ==> SameRow(first, rows, id))
    && (b.unresolved == 0 ==> forall id :: id in rows ==> WellEnded(rows[id].state))
  }

  // --- What a calm boot comes to ---

  /** A row that was recovered as the table of recovered states says, and fits its position; entry and exit are as
      they were. */
  ghost predicate Resumed(e: ExecutionEngine, first: Moment, at: Moment, id: Name, outcome: Option<TradeState>) {
    && id in first.rows && id in at.rows && first.rows[id].payload.Readable?
    && var i, row := first.rows[id].payload.intent, first.rows[id];
       var p, q := PositionOf(first.books, OriginOf(i)), PositionOf(at.books, OriginOf(i));
       && outcome == Some(e.RecoveredTo(row.state, row.prepared, p, i.symbol, true))
       && at.rows[id].state == outcome.value && RowFits(at.rows[id], i, q)
       && q.entry == p.entry && q.exit == p.exit
  }

  /** Nothing under an id that is still to come was touched. */
  ghost predicate OrdersStand(x: Books, x': Books, done: set<Name>) {
    forall c: ClientId {:trigger SameOrders(x, x', c)} :: c.origin.intentId !in done ==> SameOrders(x, x', c)
  }

  /** How far a calm boot from a healthy state has come. */
  ghost predicate ResumedSoFar(e: ExecutionEngine, first: Moment, at: Moment, done: set<Name>,
                               states: map<Name, Option<TradeState>>)
  {
    && OrdersStand(first.books, at.books, done)
    && forall id :: id in done && id in first.rows && first.rows[id].payload.Readable? ==>
         id in states && Resumed(e, first, at, id, states[id])
  }

  lemma SamePosition(x: Books, x': Books, o: Origin)
    requires forall c: ClientId :: c.origin == o ==> SameOrders(x, x', c)
    ensures PositionOf(x', o) == PositionOf(x, o)
  {
    forall suffix: Suffix ensures SameOrders(x, x', ClientId(o, suffix)) {
    }
  }

  lemma ResumedStays(e: ExecutionEngine, first: Moment, at: Moment, at': Moment, id: Name, other: Name,
      outcome: Option<TradeState>)
    requires Resumed(e, first, at, id, outcome) && first.rows[id].payload.intent.id == id != other
    requires OnlyRow(at.rows, at'.rows, other) && OnlyIntent(at.books, at'.books, other)
    ensures Resumed(e, first, at', id, outcome)
  {
    assert SameRow(at.rows, at'.rows, id);
    SamePosition(at.books, at'.books, OriginOf(first.rows[id].payload.intent));
  }

  lemma ResumedAfter(e: ExecutionEngine, first: Moment, at: Moment, at': Moment, done: set<Name>,
      states: map<Name, Option<TradeState>>, id: Name, outcome: Option<TradeState>)
    requires ResumedSoFar(e, first, at, done, states) && id !in done && Filed(first.rows)
    requires SameRow(first.rows, at.rows, id)
    requires OnlyRow(at.rows, at'.rows, id) && OnlyIntent(at.books, at'.books, id)
    requires id in at.rows && at.rows[id].payload.Readable? ==> Resumed(e, at, at', id, outcome)
    ensures ResumedSoFar(e, first, at', done + {id}, states[id := outcome])
  {
    forall c: ClientId | c.origin.intentId !in done + {id} ensures SameOrders(first.books, at'.books, c) {
      assert SameOrders(first.books, at.books, c) && SameOrders(at.books, at'.books, c);
    }
    forall k | k in done + {id} && k in first.rows && first.rows[k].payload.Readable?
      ensures k in states[id := outcome] && Resumed(e, first, at', k, states[id := outcome][k])
    {
      assert FiledAt(first.rows, k);
      if k == id {
        SamePosition(first.books, at.books, OriginOf(first.rows[k].payload.intent));
      } else {
        ResumedStays(e, first, at, at', k, id, states[k]);
      }
    }
  }

  /** When nothing fails, recovered as the table says means protected, closed, or without anything to protect. */
  lemma ResumedEndsWell(e: ExecutionEngine, first: Moment, at: Moment, base: Wallet, id: Name,
      outcome: Option<TradeState>)
    requires e.Peaceful() && Sound(first.rows, first.books, base) && Resumed(e, first, at, id, outcome)
    ensures outcome.Some?
    ensures var i := first.rows[id].payload.intent;
            EndsWell(i, first.rows[id], PositionOf(first.books, OriginOf(i)), outcome.value,
              PositionOf(at.books, OriginOf(i)))
  {
    var i := first.rows[id].payload.intent;
    assert RowSound(first.rows, id, first.books);
    var p := PositionOf(first.books, OriginOf(i));
    e.PeacefulRecovery(first.rows[id], p, i, true);
    RecoveryEndsWell(i, first.rows[id], p, at.rows[id], PositionOf(at.books, OriginOf(i)));
  }

  ghost predicate SoundAt(at: Moment, base: Wallet) {
    Sound(at.rows, at.books, base)
  }

  /** A row that was recovered in peace ends as that is stated for any cut. */
  ghost predicate BootedWell(first: Moment, at: Moment, id: Name, outcome: Option<TradeState>) {
    && id in first.rows && first.rows[id].payload.Readable? && outcome.Some?
    && var i := first.rows[id].payload.intent;
       EndsWell(i, first.rows[id], PositionOf(first.books, OriginOf(i)), outcome.value,
         PositionOf(at.books, OriginOf(i)))
  }

  lemma BootsWell(e: ExecutionEngine, first: Moment, at: Moment, b: BootReport, base: Wallet)
    requires e.Peaceful() && SoundAt(first, base)
    requires forall id :: id in b.states && id in first.rows && first.rows[id].payload.Readable? ==>
                            Resumed(e, first, at, id, b.states[id])
    ensures forall id :: id in b.states && id in first.rows && first.rows[id].payload.Readable? ==>
                           BootedWell(first, at, id, b.states[id])
  {
    forall id | id in b.states && id in first.rows && first.rows[id].payload.Readable?
      ensures BootedWell(first, at, id, b.states[id])
    {
      ResumedEndsWell(e, first, at, base, id, b.states[id]);
    }
  }

  /** Why a row was quarantined: it cannot be read, its turn did not come in time, or authority went. */
  ghost predicate Excused(rows: Rows, unpaced: set<Name>, held: bool, id: Name, outcome: Option<TradeState>)
    requires id in rows
  {
    && (rows[id].payload.Unreadable? || id in unpaced ==> outcome.None?)
    && (outcome.None? ==> rows[id].payload.Unreadable? || id in unpaced || !held)
  }

  /** Every row that is not terminal is recovered; `overreached` says whether any of these recoveries met a state
      for which recovery overreaches, and `unpaced` has the rows whose turn did not come in time. */
  method ReconcileAll(e: ExecutionEngine)
    returns (r: Result<BootReport>, ghost overreached: bool, ghost unpaced: set<Name>)
    requires e.Valid()
    modifies e`auth, e`now, e`began, e`startedAt, e`sound, e`settled, e`withdrawing, e`capped, e.ledger
    modifies e.exchange`books
    ensures e.Valid() && e.now >= old(e.now) && e.Ebbs(old(e.auth), e.auth)
    ensures e.StaysSound(overreached)
    ensures r.Err? ==> r.exn == Crash && !e.mode.Calm?
    ensures r.Ok? ==> Accurate(r.value, old(e.ledger.rows), e.ledger.rows)
    ensures r.Ok? && e.mode != Hostile ==> forall id :: Vouched(r.value, e.ledger.rows, e.exchange.books, id)
    ensures r.Ok? ==> forall id :: id in r.value.states ==>
                                     Excused(old(e.ledger.rows), unpaced, e.auth, id, r.value.states[id])
    ensures e.mode.Calm? ==> unpaced == {}
    ensures e.mode.Calm? && old(e.auth && e.Healthy()) ==>
              r.Ok? && forall id :: id in r.value.states && old(e.ledger.rows)[id].payload.Readable? ==>
                                      Resumed(e, old(e.Here()), e.Here(), id, r.value.states[id])
    ensures e.Peaceful() && old(e.auth && e.Healthy()) ==>
              r.Ok? && forall id :: id in r.value.states && old(e.ledger.rows)[id].payload.Readable? ==>
                                      BootedWell(old(e.Here()), e.Here(), id, r.value.states[id])
  {
    hide ExecutionEngine.Valid, ExecutionEngine.SoundNow, ExecutionEngine.Healthy, Going, Reported, Vouched, Resumed;
    hide Excused, WellEnded, Tally, Filed, OnlyRow, OnlyIntent, BackedBy, Overreach, Accurate, BootedWell, Sound;
    hide Terminal;
    var left: set<Name> := set id | id in e.ledger.rows && !Terminal(e.ledger.rows[id].state);
    ghost var all, first := left, e.Here();
    ghost var done: set<Name> := {};
    ghost var peace := e.mode.Calm? && e.auth && e.Healthy();
    var b := BootReport(|left|, 0, 0, map[], 0);
    overreached, unpaced := false, {};
    if peace {
      e.HealthyIsSound();
    }
    ghost var healthy := e.exchange.baseline;
    assert peace ==> SoundAt(first, healthy);
    e.RowsAreFiled();
    GoingAtFirst(e, b, first, e.auth, peace);
    while left != {}
      invariant e.Valid() && e.now >= old(e.now) && e.Ebbs(old(e.auth), e.auth)
      invariant e.StaysSound(overreached)
      invariant left == all - done && done <= all && b.inspected == |all|
      invariant Going(e, b, done, unpaced, first, e.Here(), e.auth, peace) && (e.mode.Calm? ==> unpaced == {})
      decreases left
    {
      ghost var some := Member(left);
      var id: Name :| id in left;
      ghost var over: bool;
      var next: Result<BootReport>;
      next, over, unpaced := ReconcileNext(e, id, b, done, unpaced, first, peace);
      overreached := overreached || over;
      if next.Err? {
        return Err(Crash), overreached, unpaced;
      }
      b := next.value;
      left, done := left - {id}, done + {id};
    }
    assert done == all;
    GoneThrough(e, b, done, unpaced, first, e.Here(), e.auth, peace);
    if peace && e.Peaceful() {
      hide SoundAt;
      BootsWell(e, first, e.Here(), b, healthy);
    }
    r := Ok(b);
  }

  /** The next row. */
  method ReconcileNext(e: ExecutionEngine, id: Name, b: BootReport, ghost done: set<Name>, ghost late: set<Name>,
                       ghost first: Moment, ghost peace: bool)
    returns (r: Result<BootReport>, ghost overreached: bool, ghost unpaced: set<Name>)
    requires e.Valid() && Going(e, b, done, late, first, e.Here(), e.auth, peace)
    requires id !in done && id in first.rows && Filed(first.rows) && (peace ==> e.mode.Calm? && e.auth && e.Healthy())
    modifies e`auth, e`now, e`began, e`startedAt, e`sound, e`settled, e`withdrawing, e`capped, e.ledger
    modifies e.exchange`books
    ensures e.Valid() && e.now >= old(e.now) && e.Ebbs(old(e.auth), e.auth)
    ensures e.StaysSound(overreached) && (e.mode.Calm? ==> unpaced == late)
    ensures r.Err? ==> r.exn == Crash && !e.mode.Calm?
    ensures r.Ok? ==>
              && Going(e, r.value, done + {id}, unpaced, first, e.Here(), e.auth, peace)
              && r.value.inspected == b.inspected
  {
    hide ExecutionEngine.Valid, ExecutionEngine.SoundNow, ExecutionEngine.Healthy, Going, Resumed, Tally, Filed;
    hide OnlyRow, OnlyIntent, BackedBy, Overreach;
    ghost var at, held := e.Here(), e.auth;
    StillToCome(e, b, done, late, first, at, held, peace, id);
    e.RowsAreFiled();
    var outcome, over, paced := RecoverOne(e, id);
    overreached, unpaced := over, if paced then late else late + {id};
    if outcome.Err? {
      return Err(Crash), overreached, unpaced;
    }
    GoesOn(e, b, done, late, first, at, e.Here(), held, e.auth, peace, id, outcome.value, paced);
    r := Ok(Tally(b, id, outcome.value));
  }

  /** What holds part of the way: the report so far is true, and backed by an honest exchange; every quarantine is
      excused; and in peace, whoever had their turn was resumed. */
  ghost predicate Going(e: ExecutionEngine, b: BootReport, done: set<Name>, unpaced: set<Name>, first: Moment,
                        at: Moment, held: bool, peace: bool)
  {
    && TrueSoFar(b, done, first.rows, at.rows)
    && (e.mode != Hostile ==> forall id :: Vouched(b, at.rows, at.books, id))
    && (forall id :: id in done ==> id in first.rows && Excused(first.rows, unpaced, held, id, b.states[id]))
    && unpaced <= done && (e.mode.Calm? ==> unpaced == {})
    && (peace ==> ResumedSoFar(e, first, at, done, b.states))
  }

  lemma GoingAtFirst(e: ExecutionEngine, b: BootReport, first: Moment, held: bool, peace: bool)
    requires b == BootReport(b.inspected, 0, 0, map[], 0)
    ensures Going(e, b, {}, {}, first, first, held, peace)
  {
    NothingResumed(e, first);
    assert Count(map[], Good) == 0 && Count(map[], Bad) == 0;
  }

  lemma StillToCome(e: ExecutionEngine, b: BootReport, done: set<Name>, unpaced: set<Name>, first: Moment, at: Moment,
      held: bool, peace: bool, id: Name)
    requires Going(e, b, done, unpaced, first, at, held, peace) && id !in done
    ensures id in first.rows <==> id in at.rows
    ensures id in at.rows ==> at.rows[id] == first.rows[id]
  {
    assert SameRow(first.rows, at.rows, id);
  }

  lemma GoesOn(e: ExecutionEngine, b: BootReport, done: set<Name>, unpaced: set<Name>, first: Moment, at: Moment,
      at': Moment, held: bool, held': bool, peace: bool, id: Name, outcome: Option<TradeState>, paced: bool)
    requires Going(e, b, done, unpaced, first, at, held, peace) && id !in done && id in first.rows
    requires Filed(first.rows) && Filed(at.rows) && (held' ==> held) && (e.mode.Calm? ==> paced)
    requires OnlyRow(at.rows, at'.rows, id) && id in at'.rows && OnlyIntent(at.books, at'.books, id)
    requires outcome.Some? ==> at'.rows[id].state == outcome.value
    requires outcome.Some? && ClaimsProtection(outcome.value) && e.mode != Hostile ==>
               at'.rows[id].payload.Readable? && BackedBy(at'.books, at'.rows[id], at'.rows[id].payload.intent)
    requires !paced || first.rows[id].payload.Unreadable? ==> outcome.None?
    requires outcome.None? ==> !paced || first.rows[id].payload.Unreadable? || !held'
    requires peace && first.rows[id].payload.Readable? ==> Resumed(e, at, at', id, outcome)
    ensures Going(e, Tally(b, id, outcome), done + {id}, if paced then unpaced else unpaced + {id}, first, at', held',
              peace)
    ensures Tally(b, id, outcome).inspected == b.inspected
  {
    hide Filed, TrueSoFar, OnlyIntent, BackedBy, ResumedSoFar, Resumed, Vouched, OnlyRow, Tally, Excused;
    StillToCome(e, b, done, unpaced, first, at, held, peace, id);
    TallyAdds(b, id, outcome);
    TrueAfter(b, done, first.rows, at.rows, at'.rows, id, outcome);
    if e.mode != Hostile {
      VouchedAfter(b, at.rows, at.books, at'.rows, at'.books, id, outcome);
    }
    if peace {
      ResumedAfter(e, first, at, at', done, b.states, id, outcome);
    }
    KeysAre(b, done, first.rows, at.rows);
    ExcusedAfter(b, done, unpaced, first.rows, held, held', id, outcome, paced);
  }

  lemma ExcusedAfter(b: BootReport, done: set<Name>, unpaced: set<Name>, first: Rows, held: bool, held': bool, id: Name,
      outcome: Option<TradeState>, paced: bool)
    requires b.states.Keys == done && id !in done && id in first && (held' ==> held) && unpaced <= done
    requires forall k :: k in done ==> k in first && Excused(first, unpaced, held, k, b.states[k])
    requires !paced || first[id].payload.Unreadable? ==> outcome.None?
    requires outcome.None? ==> !paced || first[id].payload.Unreadable? || !held'
    ensures forall k :: k in done + {id} ==>
                k in first
                && Excused(first, if paced then unpaced else unpaced + {id}, held', k, b.states[id := outcome][k])
  {
  }

  lemma KeysAre(b: BootReport, done: set<Name>, first: Rows, rows: Rows)
    requires TrueSoFar(b, done, first, rows)
    ensures b.states.Keys == done
  {
  }

  lemma GoneThrough(e: ExecutionEngine, b: BootReport, done: set<Name>, unpaced: set<Name>, first: Moment, at: Moment,
      held: bool, peace: bool)
    requires Going(e, b, done, unpaced, first, at, held, peace)
    requires done == (set id | id in first.rows && !Terminal(first.rows[id].state)) && b.inspected == |done|
    ensures b.states.Keys == done && Accurate(b, first.rows, at.rows)
    ensures e.mode != Hostile ==> forall id :: Vouched(b, at.rows, at.books, id)
    ensures forall id :: id in b.states ==> Excused(first.rows, unpaced, held, id, b.states[id])
    ensures e.mode.Calm? ==> unpaced == {}
    ensures peace ==> forall id :: id in b.states && first.rows[id].payload.Readable? ==>
                                     Resumed(e, first, at, id, b.states[id])
  {
    TrueAtEnd(b, done, first.rows, at.rows);
    if peace {
      AllResumed(e, first, at, done, b.states);
    }
  }

  lemma TallyAdds(b: BootReport, id: Name, outcome: Option<TradeState>)
    ensures Tally(b, id, outcome).states == b.states[id := outcome]
  {
  }

  lemma NothingResumed(e: ExecutionEngine, first: Moment)
    ensures ResumedSoFar(e, first, first, {}, map[])
  {
  }

  lemma AllResumed(e: ExecutionEngine, first: Moment, at: Moment, done: set<Name>,
      states: map<Name, Option<TradeState>>)
    requires ResumedSoFar(e, first, at, done, states) && states.Keys == done
    ensures forall id :: id in states && id in first.rows && first.rows[id].payload.Readable? ==>
                           Resumed(e, first, at, id, states[id])
  {
  }

  /** One recovery of an intent that has a row of its own. */
  method RecoverFiled(e: ExecutionEngine, i: TradeIntent) returns (r: Result<TradeState>)
    requires e.Valid() && i.id in e.ledger.rows && Matches(e.ledger.rows, i)
    modifies e`auth, e`now, e`began, e`startedAt, e`sound, e`settled, e`withdrawing, e`capped, e.ledger
    modifies e.exchange`books
    ensures e.Valid() && e.now >= old(e.now) && (e.auth ==> old(e.auth))
    ensures OnlyRow(old(e.ledger.rows), e.ledger.rows, i.id)
    ensures OnlyIntent(old(e.exchange.books), e.exchange.books, i.id)
    ensures e.StaysSound(old(Overreach(e.ledger.rows, e.exchange.books, i)))
    ensures r.Err? ==> r.exn == StaleEpoch || (r.exn == Crash && !e.mode.Calm?)
    ensures i.id in e.ledger.rows && e.ledger.rows[i.id].payload == Readable(i)
    ensures r.Ok? ==> e.ledger.rows[i.id].state == r.value
    ensures r == Err(StaleEpoch) ==> !e.auth
    ensures e.mode.Calm? ==> e.auth == old(e.auth)
    ensures e.mode.Calm? && old(e.auth) && old(e.Fit(i)) ==>
              && r == Ok(e.RecoveredTo(old(e.ledger.rows)[i.id].state, old(e.ledger.rows)[i.id].prepared, old(e.Pos(i)),
                i.symbol, true))
              && RowFits(e.ledger.rows[i.id], i, e.Pos(i))
              && e.Pos(i).entry == old(e.Pos(i)).entry && e.Pos(i).exit == old(e.Pos(i)).exit
    ensures e.mode.Calm? && old(e.auth) ==>
              e.exchange.books == e.BooksAfter(old(e.ledger.rows)[i.id], old(e.exchange.books), i)
    ensures r.Ok? && ClaimsProtection(r.value) && e.mode != Hostile ==>
              BackedBy(e.exchange.books, e.ledger.rows[i.id], i)
  {
    hide ExecutionEngine.Valid, ExecutionEngine.StaysSound, ExecutionEngine.SoundNow, ExecutionEngine.Healthy;
    hide ExecutionEngine.Fit, Overreach, BackedBy;
    r := e.Recover(i, true);
    e.KeptMeans(i);
  }

  /** One row: its new state, or None when it had to be quarantined.  `paced` says whether its turn came in time. */
  method RecoverOne(e: ExecutionEngine, id: Name)
    returns (r: Result<Option<TradeState>>, ghost overreached: bool, ghost paced: bool)
    requires e.Valid() && id in e.ledger.rows
    modifies e`auth, e`now, e`began, e`startedAt, e`sound, e`settled, e`withdrawing, e`capped, e.ledger
    modifies e.exchange`books
    ensures e.Valid() && e.now >= old(e.now) && e.Ebbs(old(e.auth), e.auth)
    ensures OnlyRow(old(e.ledger.rows), e.ledger.rows, id) && id in e.ledger.rows
    ensures OnlyIntent(old(e.exchange.books), e.exchange.books, id)
    ensures e.StaysSound(overreached)
    ensures overreached ==> old(e.ledger.rows)[id].payload.Readable?
                            && old(Overreach(e.ledger.rows, e.exchange.books, e.ledger.rows[id].payload.intent))
    ensures r.Err? ==> r.exn == Crash && !e.mode.Calm?
    ensures r.Ok? && r.value.Some? && ClaimsProtection(r.value.value) && e.mode != Hostile ==>
              e.ledger.rows[id].payload.Readable?
                && BackedBy(e.exchange.books, e.ledger.rows[id], e.ledger.rows[id].payload.intent)
    ensures r.Ok? && r.value.Some? ==> e.ledger.rows[id].state == r.value.value
    ensures e.mode.Calm? ==> paced
    ensures r.Ok? && (!paced || old(e.ledger.rows)[id].payload.Unreadable?) ==> r.value.None?
    ensures r.Ok? && r.value.None? ==> !paced || old(e.ledger.rows)[id].payload.Unreadable? || !e.auth
    ensures e.mode.Calm? && old(e.auth && e.Healthy()) && old(e.ledger.rows)[id].payload.Readable? ==>
              r.Ok? && Resumed(e, old(e.Here()), e.Here(), id, r.value)
  {
    var inTime: bool := *;
    inTime := inTime || e.mode.Calm?;
    paced := inTime;
    var payload := e.ledger.rows[id].payload;
    ghost var rows := e.ledger.rows;
    hide ExecutionEngine.Valid, ExecutionEngine.SoundNow, ExecutionEngine.Healthy, Overreach, BackedBy, OnlyRow;
    hide OnlyIntent;
    overreached := false;
    if inTime && payload.Readable? {
      e.RowsAreFiled();
      assert FiledAt(e.ledger.rows, id);
      overreached := Overreach(e.ledger.rows, e.exchange.books, payload.intent);
      if e.Healthy() {
        e.HealthyIsNoOverreach(payload.intent);
        e.HealthyIsSound();
      }
      var recovered := RecoverFiled(e, payload.intent);
      match recovered {
        case Ok(state) => return Ok(Some(state)), overreached, paced;
        case Err(exn) =>
          if exn == Crash {
            return Err(Crash), overreached, paced;
          }
      }
    }
    ghost var rows' := e.ledger.rows;
    var noted := e.Quarantine(id);
    OnlyRowTwice(rows, rows', e.ledger.rows, id);
    if noted.Err? {
      return Err(Crash), overreached, paced;
    }
    r := Ok(None);
  }
}
