/** The runtime around the engine: start, submit, event ingestion, supervision and stop. */
module Runtime {
  import opened Domain
  import opened StateMachine
  import opened Exchange
  import opened Ledger
  import opened Activity
  import opened BootGate
  import opened Protocol
  import opened Freshness
  import opened Recovery
  import opened Engine
  import opened Supervisor
  import opened ColdBoot

  /** The states after which the gate may stay open. */
  predicate SafeToCarryOn(s: TradeState) {
    s in {Protected, Closed, Rejected, TradeState.Canceled, Expired}
  }

  ghost predicate AllResolved(rows: Rows) {
    forall id :: ResolvedAt(rows, id)
  }

  lemma ResolvedAfterOne(rows: Rows, rows': Rows, id: Name)
    requires AllResolved(rows) && OnlyRow(rows, rows', id) && ResolvedAt(rows', id)
    ensures AllResolved(rows')
  {
    forall k ensures ResolvedAt(rows', k) {
      assert ResolvedAt(rows, k);
      assert k != id ==> SameRow(rows, rows', k);
    }
  }

  lemma ResolvedIff(rows: Rows, rows': Rows, id: Name)
    requires AllResolved(rows) && OnlyRow(rows, rows', id)
    ensures AllResolved(rows') <==> ResolvedAt(rows', id)
    ensures rows' == rows ==> ResolvedAt(rows', id)
  {
    if ResolvedAt(rows', id) {
      ResolvedAfterOne(rows, rows', id);
    }
    assert ResolvedAt(rows, id);
  }

  lemma ResolvedAfterSame(rows: Rows, rows': Rows)
    requires AllResolved(rows) && forall id :: SameState(rows, rows', id)
    ensures AllResolved(rows')
  {
    forall k ensures ResolvedAt(rows', k) {
      assert ResolvedAt(rows, k) && SameState(rows, rows', k);
    }
  }

  /** What another thread, or somebody at the exchange, does between two steps of the caller. */
  datatype Beside =
    | CycleRuns
    | FaultStrikes
    | LeaseRenewed(held: bool)
    | ProtectionCanceled(symbol: Symbol, client: ClientId)
    | NothingHappens

  /** The answers that a trade's health checks get: whether the supervisory loops read as ready, whether each of them
      is found alive, what the engine's own probe says, and, after the trade, whether the audit witness is up to date
      and everything still reads as ready. */
  datatype Checks = Checks(ready: bool, alive: bool, probe: bool, witnessed: bool, still: bool)

  predicate Quiet(before: Beside, between: Beside, after: Beside) {
    before == between == after == NothingHappens
  }

  predicate Tampered(before: Beside, between: Beside, after: Beside) {
    before.ProtectionCanceled? || between.ProtectionCanceled? || after.ProtectionCanceled?
  }

  /** The report has an entry for exactly the rows that had not ended. */
  ghost predicate ReportsOn(b: BootReport, rows: Rows) {
    b.states.Keys == set id | id in rows && rows[id].state !in {Closed, Rejected, TradeState.Canceled, Expired}
  }

  lemma ReportSpeaks(b: BootReport, first: Rows, rows: Rows)
    requires Accurate(b, first, rows)
    ensures b.quarantined <= b.unresolved
    ensures forall c: BootReport :: c.states == b.states ==> ReportsOn(c, first)
  {
  }

  lemma CleanBootResolves(b: BootReport, first: Rows, rows: Rows)
    requires Accurate(b, first, rows) && b.unresolved == 0
    ensures AllResolved(rows)
  {
    forall id ensures ResolvedAt(rows, id) {
      assert id in rows ==> WellEnded(rows[id].state);
    }
  }

  /** A clean boot leaves no claim that an honest exchange does not back. */
  lemma CleanBootStands(b: BootReport, first: Rows, rows: Rows, x: Books)
    requires Accurate(b, first, rows) && b.unresolved == 0 && forall id :: Vouched(b, rows, x, id)
    ensures AllStand(x, rows, {})
  {
    var none := set id | id in b.states && b.states[id].None?;
    assert |none| == 0;
    forall id | ClaimsAt(rows, id) ensures Stands(x, rows[id]) {
      assert id !in b.states ==> SameRow(first, rows, id);
      assert id in b.states && b.states[id].None? ==> id in none;
      assert Reported(b, rows, id) && Vouched(b, rows, x, id);
    }
  }

  class TradingCoreRuntime {
    const engine: ExecutionEngine
    const token: nat
    const softAge: int
    var supervisor: ProtectionSupervisor

    /** An open latch was opened for the epoch the engine now writes under. */
    ghost predicate OpenerHolds()
      reads engine`epoch, engine.gate
    {
      engine.gate.latch ==>
        && engine.epoch.Some? && engine.gate.opener.Some?
        && engine.gate.opener.value.epoch == engine.epoch.value
    }

    /** What an open gate means: every durable row is closed for good, or protected. */
    ghost predicate GateMeans()
      reads engine.gate, engine.ledger
    {
      engine.gate.latch && engine.gate.ready ==> AllResolved(engine.ledger.rows)
    }

    ghost predicate Valid()
      reads this, supervisor, engine, engine.gate, engine.ledger, engine.exchange, engine.activity
    {
      && engine.Valid() && engine.gate.Valid() && supervisor.engine == engine && OpenerHolds()
      && (engine.gate.ready ==> engine.epoch.Some?) && supervisor.Tracks()
    }

    constructor (engine: ExecutionEngine, token: nat, softAge: int)
      requires engine.Valid() && engine.gate.Valid() && !engine.gate.latch && !engine.gate.ready
      modifies engine.gate`capability
      ensures Valid() && GateMeans() && this.engine == engine && this.token == token && fresh(supervisor)
    {
      this.engine, this.token, this.softAge := engine, token, softAge;
      supervisor := new ProtectionSupervisor(engine, softAge);
      new;
      var _ := engine.gate.Bind(token);
    }

    /** Any of the fault callbacks: not ready, and the gate is shut. */
    method Fault()
      requires Valid()
      modifies engine.gate`ready, engine.gate`latch, engine.gate`issued, engine.gate`revokedBelow
      ensures Valid() && !engine.gate.ready && !engine.gate.latch && engine.gate.issued == None
    {
      engine.gate.ready := false;
      engine.gate.Revoke();
    }

    /** Somebody at the exchange cancels a protection. */
    method CancelBehind(symbol: Symbol, c: ClientId)
      requires Valid()
      modifies engine.exchange`books
      ensures Valid() && engine.exchange.books == CanceledBehind(old(engine.exchange.books), c, symbol)
    {
      hide ProtectionSupervisor.Tracks, BootGate.Valid;
      ghost var x := engine.exchange.books;
      engine.exchange.CancelProtection(symbol, c);
      BooksWriteAhead(engine.ledger.rows, x, engine.exchange.books, engine.exchange.buyCalls, c.origin);
    }

    /** What may happen beside the caller at any moment: a verification cycle, a fault, a renewal, a protection
        canceled at the exchange. */
    method Meanwhile(beside: Beside) returns (r: Result<()>)
      requires Valid() && supervisor.engine == engine
      modifies supervisor`measured, engine`auth, engine`now, engine`began, engine`startedAt, engine`sound
      modifies engine`settled, engine`withdrawing, engine`capped, engine.ledger, engine.exchange`books
      modifies engine.gate`ready, engine.gate`latch, engine.gate`issued, engine.gate`revokedBelow
      ensures beside.ProtectionCanceled? || engine.StaysSound(false)
      ensures engine.exchange.books == if beside.ProtectionCanceled?
                                       then CanceledBehind(old(engine.exchange.books), beside.client, beside.symbol)
                                       else old(engine.exchange.books)
      ensures r.Ok? ==> Valid() && (old(GateMeans()) ==> GateMeans())
      ensures r.Ok? ==> (engine.gate.ready ==> old(engine.gate.ready)) && (engine.gate.latch ==> old(engine.gate.latch))
      ensures r.Ok? && engine.gate.ready ==> engine.gate.issued == old(engine.gate.issued)
      ensures r.Ok? && engine.gate.ready && old(AllResolved(engine.ledger.rows)) ==> AllResolved(engine.ledger.rows)
      ensures engine.epoch.None? ==> engine.ledger.rows == old(engine.ledger.rows)
      ensures beside == FaultStrikes ==> r.Ok? && !engine.gate.ready && engine.auth == old(engine.auth)
      ensures beside.LeaseRenewed? ==> r.Ok? && engine.auth == (beside.held && engine.epoch.Some?)
      ensures beside == NothingHappens ==> r.Ok? && unchanged(engine) && unchanged(engine.gate)
      ensures beside.ProtectionCanceled? ==> r.Ok? && unchanged(engine) && unchanged(engine.gate, engine.ledger)
      ensures beside == CycleRuns && engine.mode.Calm? && !engine.Refuses(ProtectionRead) && old(engine.auth) ==>
                && (if AllStand(engine.exchange.books, old(engine.ledger.rows), {}) then unchanged(engine.gate)
                    else !engine.gate.ready && !engine.gate.latch)
                && forall id :: Judged(old(engine.ledger.rows), engine.Here(), id)
      ensures r.Err? ==> r.exn == Crash && !engine.mode.Calm?
    {
      hide ExecutionEngine.Valid, ExecutionEngine.SoundNow, ExecutionEngine.Healthy, BootGate.Valid, Judged, AllStand;
      engine.AuthorityHasEpoch();
      if beside == CycleRuns && engine.epoch.Some? {
        ghost var rows := engine.ledger.rows;
        var violated, silent := supervisor.VerifyOnce();
        if violated.Err? {
          return Err(Crash);
        }
        if !violated.value && AllResolved(rows) {
          ResolvedAfterSame(rows, engine.ledger.rows);
        }
      } else if beside == FaultStrikes {
        Fault();
      } else if beside.LeaseRenewed? {
        engine.Renew(beside.held);
      } else if beside.ProtectionCanceled? {
        CancelBehind(beside.symbol, beside.client);
      }
      r := Ok(());
    }

    /** A protection behind a claim is canceled: the next calm cycle shuts the gate and withdraws the claim. */
    method CancellationIsNoticed(id: Name)
      requires Valid() && engine.mode.Calm? && !engine.Refuses(ProtectionRead) && engine.auth
      requires ClaimsAt(engine.ledger.rows, id) && engine.ledger.rows[id].payload.Readable?
      modifies supervisor`measured, engine`auth, engine`now, engine`began, engine`startedAt, engine`sound
      modifies engine`settled, engine`withdrawing, engine`capped, engine.ledger, engine.exchange`books
      modifies engine.gate`ready, engine.gate`latch, engine.gate`issued, engine.gate`revokedBelow
      ensures Valid() && !engine.gate.ready && !engine.gate.latch && !ClaimsAt(engine.ledger.rows, id)
      ensures forall k :: k != id && ClaimsAt(old(engine.ledger.rows), k)
                          && Stands(old(engine.exchange.books), old(engine.ledger.rows)[k]) ==>
                            SameState(old(engine.ledger.rows), engine.ledger.rows, k)
    {
      hide ExecutionEngine.Valid, ExecutionEngine.SoundNow, ExecutionEngine.Healthy, BootGate.Valid;
      hide ProtectionSupervisor.Tracks;
      ghost var rows, x := engine.ledger.rows, engine.exchange.books;
      var row := engine.ledger.rows[id];
      engine.RowsAreFiled();
      var canceled := Meanwhile(ProtectionCanceled(row.payload.intent.symbol, ClaimId(row.payload.intent, row.state)));
      ghost var x' := engine.exchange.books;
      assert !Stands(x', row);
      var cycle := Meanwhile(CycleRuns);
      assert Judged(rows, engine.Here(), id);
      forall k | k != id && ClaimsAt(rows, k) && Stands(x, rows[k]) ensures SameState(rows, engine.ledger.rows, k) {
        assert Judged(rows, engine.Here(), k) && FiledAt(rows, k) && FiledAt(rows, id);
      }
    }

    /** Cold boot.  The gate opens only on a clean report, under the authority it was made with, over an
        audit log that passed. */
    method Start(granted: Option<nat>, auditOk: bool, before: Beside, between: Beside, after: Beside)
      returns (r: Result<BootReport>, ghost overreached: bool)
      requires Valid() && (granted.Some? ==> EpochsWithin(engine.ledger.rows, granted.value))
      modifies this`supervisor, engine`epoch, engine`auth, engine`now, engine`began, engine`startedAt
      modifies engine`sound, engine`settled, engine`withdrawing, engine`capped
      modifies engine.ledger, engine.exchange`books, engine.gate
      ensures r.Err? ==> r.exn == GateClosed || (r.exn == Crash && !engine.mode.Calm?)
      ensures Tampered(before, between, after) || engine.StaysSound(overreached)
      ensures r.Ok? ==> Valid() && GateMeans()
      ensures fresh(supervisor) || supervisor == old(supervisor)
      ensures r.Ok? && (r.value.unresolved != 0 || !auditOk) ==> !engine.gate.ready && !engine.gate.latch
      ensures r.Ok? ==> engine.epoch in {old(engine.epoch), granted} && (granted.Some? ==> engine.epoch.Some?)
      ensures engine.mode.Calm? && !engine.Refuses(ProtectionRead) && (old(engine.auth) || granted.Some?) && auditOk
              && Quiet(before, between, after)
              && (old(engine.gate.capability).None? || old(engine.gate.capability) == Some(token)) ==>
                && r.Ok? && (engine.gate.latch && engine.gate.ready <==> r.value.unresolved == 0)
                && ReportsOn(r.value, old(engine.ledger.rows))
      ensures engine.epoch.None? ==> engine.ledger.rows == old(engine.ledger.rows)
      ensures r == Err(GateClosed) ==>
                Valid() && !engine.gate.latch && unchanged(engine.ledger) && engine.epoch == old(engine.epoch)
    {
      hide ExecutionEngine.Valid, ExecutionEngine.SoundNow, ExecutionEngine.Healthy, AllResolved;
      hide BootGate.Valid, ReportsOn, ProtectionSupervisor.Tracks, Quiet, Tampered;
      overreached := false;
      Fault();
      var bound := engine.gate.Bind(token);
      if bound.Err? {
        return Err(GateClosed), overreached;
      }
      var authority := engine.AcquireAuthority(granted);
      if !authority {
        return Ok(BootReport(0, 0, 1, map[], 0)), overreached;
      }
      r, overreached := Boot(auditOk, before, between, after);
    }

    /** Reconciles every row, and opens the gate if all is well. */
    method Boot(auditOk: bool, before: Beside, between: Beside, after: Beside)
      returns (r: Result<BootReport>, ghost overreached: bool)
      requires Valid() && !engine.gate.ready && !engine.gate.latch
      modifies this`supervisor, engine`auth, engine`now, engine`began, engine`startedAt, engine`sound
      modifies engine`settled, engine`withdrawing, engine`capped
      modifies engine.ledger, engine.exchange`books, engine.gate
      ensures r.Err? ==> r.exn == Crash && !engine.mode.Calm?
      ensures Tampered(before, between, after) || engine.StaysSound(overreached)
      ensures fresh(supervisor)
      ensures r.Ok? ==> Valid() && GateMeans()
      ensures r.Ok? && (r.value.unresolved != 0 || !auditOk) ==> !engine.gate.ready && !engine.gate.latch
      ensures engine.mode.Calm? && !engine.Refuses(ProtectionRead) && old(engine.auth) && auditOk
              && Quiet(before, between, after) && old(engine.gate.capability) == Some(token) ==>
                r.Ok? && (engine.gate.latch && engine.gate.ready <==> r.value.unresolved == 0)
      ensures r.Ok? ==> ReportsOn(r.value, old(engine.ledger.rows))
    {
      hide ExecutionEngine.Valid, ExecutionEngine.SoundNow, ExecutionEngine.Healthy, BootGate.Valid, AllResolved;
      hide AllStand, Resumed, Excused, Accurate, ReportsOn, Vouched, BootedWell, GateMeans, Quiet, Tampered;
      supervisor := new ProtectionSupervisor(engine, softAge);
      ghost var first := engine.ledger.rows;
      var report, over, unpaced := ReconcileAll(engine);
      overreached := over;
      if report.Err? {
        return Err(Crash), overreached;
      }
      ReportSpeaks(report.value, first, engine.ledger.rows);
      if report.value.unresolved == 0 {
        CleanBootResolves(report.value, first, engine.ledger.rows);
        if engine.mode != Hostile {
          CleanBootStands(report.value, first, engine.ledger.rows, engine.exchange.books);
        }
      }
      r := OpenIf(report.value, auditOk, before, between, after);
    }

    /** The first verification cycle, then the proof and the gate. */
    method OpenIf(report: BootReport, auditOk: bool, before: Beside, between: Beside, after: Beside)
      returns (r: Result<BootReport>)
      requires Valid() && !engine.gate.ready && !engine.gate.latch
      requires report.unresolved == 0 ==> AllResolved(engine.ledger.rows) && report.quarantined == 0
      requires report.unresolved == 0 && engine.mode != Hostile ==>
                 AllStand(engine.exchange.books, engine.ledger.rows, {})
      modifies supervisor`measured, engine`auth, engine`now, engine`began, engine`startedAt, engine`sound
      modifies engine`settled, engine`withdrawing, engine`capped
      modifies engine.ledger, engine.exchange`books, engine.gate
      ensures Tampered(before, between, after) || engine.StaysSound(false)
      ensures r.Ok? ==> r.value.states == report.states
      ensures engine.mode.Calm? && !engine.Refuses(ProtectionRead) && old(engine.auth) && auditOk
              && Quiet(before, between, after) && old(engine.gate.capability) == Some(token) ==>
                r.Ok? && (engine.gate.latch && engine.gate.ready <==> r.value.unresolved == 0)
      ensures r.Ok? ==> Valid() && GateMeans()
      ensures r.Ok? && (r.value.unresolved != 0 || !auditOk) ==> !engine.gate.ready && !engine.gate.latch
      ensures r.Err? ==> r.exn == Crash && !engine.mode.Calm?
    {
      hide ExecutionEngine.Valid, ExecutionEngine.SoundNow, ExecutionEngine.Healthy, AllResolved, AllStand, Judged;
      hide BootGate.Valid, ProtectionSupervisor.Tracks;
      var protectionOk :- FirstCycle(report);
      if !(auditOk && report.unresolved == 0 && engine.auth && protectionOk) {
        engine.gate.Revoke();
        return Ok(report);
      }
      Ready();
      r := OpenGate(report, before, between, after);
    }

    method Ready()
      requires Valid() && engine.auth
      modifies engine.gate`ready
      ensures Valid() && engine.gate.ready
    {
      engine.AuthorityHasEpoch();
      engine.gate.ready := true;
    }

    /** The verification cycle of a boot, if there is authority for one. */
    method FirstCycle(report: BootReport) returns (r: Result<bool>)
      requires Valid() && !engine.gate.ready && !engine.gate.latch
      requires report.unresolved == 0 ==> AllResolved(engine.ledger.rows)
      modifies supervisor`measured, engine`auth, engine`now, engine`began, engine`startedAt, engine`sound
      modifies engine`settled, engine`withdrawing, engine`capped, engine.ledger
      modifies engine.gate`ready, engine.gate`latch, engine.gate`issued, engine.gate`revokedBelow
      ensures engine.StaysSound(false)
      ensures r.Ok? ==>
                Valid() && !engine.gate.ready && !engine.gate.latch && engine.Ebbs(old(engine.auth), engine.auth)
      ensures r == Ok(true) && report.unresolved == 0 ==> AllResolved(engine.ledger.rows)
      ensures engine.mode.Calm? && !engine.Refuses(ProtectionRead) && old(engine.auth) ==>
                r == Ok(old(AllStand(engine.exchange.books, engine.ledger.rows, {})))
      ensures r.Err? ==> r.exn == Crash && !engine.mode.Calm?
    {
      hide ExecutionEngine.Valid, ExecutionEngine.SoundNow, ExecutionEngine.Healthy, AllResolved, AllStand, Judged;
      hide BootGate.Valid;
      if !engine.auth {
        return Ok(true);
      }
      ghost var rows := engine.ledger.rows;
      var violated, looked := supervisor.VerifyOnce();
      if violated.Err? {
        return Err(Crash);
      }
      if !violated.value && report.unresolved == 0 {
        ResolvedAfterSame(rows, engine.ledger.rows);
      }
      r := Ok(!violated.value);
    }

    /** The proof, and the gate: other threads may strike before the proof, after it, and once the gate is open.
        A fault that strikes before the proof still leaves the latch open. */
    method OpenGate(report: BootReport, before: Beside, between: Beside, after: Beside) returns (r: Result<BootReport>)
      requires Valid() && engine.gate.ready && !engine.gate.latch && report.unresolved == 0
      requires AllResolved(engine.ledger.rows)
      modifies supervisor`measured, engine`auth, engine`now, engine`began, engine`startedAt, engine`sound
      modifies engine`settled, engine`withdrawing, engine`capped
      modifies engine.ledger, engine.exchange`books, engine.gate
      ensures Tampered(before, between, after) || engine.StaysSound(false)
      ensures r.Ok? ==> r.value.states == report.states
      ensures Quiet(before, between, after) && old(engine.auth) && report.quarantined == 0
              && old(engine.gate.capability) == Some(token) ==>
                r == Ok(report) && engine.gate.latch && engine.gate.ready
      ensures r.Ok? ==> Valid() && GateMeans()
      ensures r.Ok? ==> (r.value.unresolved == 0 <==> engine.gate.openings != old(engine.gate.openings))
      ensures r.Ok? && r.value.unresolved != 0 ==> !engine.gate.ready && !engine.gate.latch
      ensures before == FaultStrikes && between == after == NothingHappens && old(engine.auth)
                && report.quarantined == 0
              && old(engine.gate.capability) == Some(token) ==>
                r.Ok? && engine.gate.latch && !engine.gate.ready
      ensures r.Err? ==> r.exn == Crash && !engine.mode.Calm?
    {
      hide ExecutionEngine.Valid, ExecutionEngine.SoundNow, ExecutionEngine.Healthy, ProtectionSupervisor.Tracks;
      hide BootGate.Valid, AllResolved, AllStand, Judged;
      var first := Meanwhile(before);
      if first.Err? {
        return Err(Crash);
      }
      r := ProveAndGrant(report, between, after);
    }

    /** Presents the proof; if it is refused, fails closed. */
    method Admit(proof: Option<Proof>) returns (ok: bool)
      requires Valid() && !engine.gate.latch && engine.epoch.Some?
      requires engine.gate.ready ==> AllResolved(engine.ledger.rows)
      modifies engine.gate
      ensures Valid() && GateMeans()
      ensures ok <==> engine.gate.openings != old(engine.gate.openings)
      ensures ok <==>
                && old(engine.gate.capability) == Some(token) && engine.auth && proof.Some?
                && old(engine.gate.issued).Some? && proof.value.serial == old(engine.gate.issued).value.serial
                && engine.epoch.value == old(engine.gate.issued).value.epoch
      ensures if ok then engine.gate.latch && engine.gate.ready == old(engine.gate.ready)
              else !engine.gate.latch && !engine.gate.ready
    {
      hide ExecutionEngine.Valid, ExecutionEngine.Healthy, ProtectionSupervisor.Tracks, BootGate.Valid, AllResolved;
      var admitted := engine.gate.Grant(token, if engine.auth then engine.epoch else None, proof);
      ok := admitted.Ok?;
      if !ok {
        Fault();
      }
    }

    /** Asks for a proof of the boot; more may happen before it is presented. */
    method Prove(report: BootReport, between: Beside) returns (r: Result<Option<Proof>>)
      requires Valid() && !engine.gate.latch && engine.epoch.Some? && report.unresolved == 0
      requires engine.gate.ready ==> AllResolved(engine.ledger.rows)
      modifies supervisor`measured, engine`auth, engine`now, engine`began, engine`startedAt, engine`sound
      modifies engine`settled, engine`withdrawing, engine`capped
      modifies engine.ledger, engine.exchange`books, engine.gate
      ensures between.ProtectionCanceled? || engine.StaysSound(false)
      ensures r.Ok? ==> Valid() && !engine.gate.latch && (engine.gate.ready ==> AllResolved(engine.ledger.rows))
      ensures between == NothingHappens && engine.auth && report.quarantined == 0
              && old(engine.gate.capability) == Some(token) ==>
                && r.Ok? && r.value.Some? && r.value == engine.gate.issued
                && engine.epoch == Some(r.value.value.epoch)
      ensures between == NothingHappens ==>
                && engine.auth == old(engine.auth) && engine.gate.ready == old(engine.gate.ready)
                && engine.gate.capability == old(engine.gate.capability)
      ensures engine.gate.openings == old(engine.gate.openings)
      ensures r.Err? ==> r.exn == Crash && !engine.mode.Calm?
    {
      hide ExecutionEngine.Valid, ExecutionEngine.SoundNow, ExecutionEngine.Healthy, ProtectionSupervisor.Tracks;
      hide BootGate.Valid, AllResolved, AllStand, Judged;
      var proof := engine.gate.Issue(token, if engine.auth then engine.epoch else None, report.unresolved,
          report.quarantined);
      var second :- Meanwhile(between);
      r := Ok(if proof.Ok? then Some(proof.value) else None);
    }

    method ProveAndGrant(report: BootReport, between: Beside, after: Beside) returns (r: Result<BootReport>)
      requires Valid() && !engine.gate.latch && engine.epoch.Some? && report.unresolved == 0
      requires engine.gate.ready ==> AllResolved(engine.ledger.rows)
      modifies supervisor`measured, engine`auth, engine`now, engine`began, engine`startedAt, engine`sound
      modifies engine`settled, engine`withdrawing, engine`capped
      modifies engine.ledger, engine.exchange`books, engine.gate
      ensures between.ProtectionCanceled? || after.ProtectionCanceled? || engine.StaysSound(false)
      ensures r.Ok? ==> r.value.states == report.states
      ensures r.Ok? ==> Valid() && GateMeans()
      ensures r.Ok? ==> (r.value.unresolved == 0 <==> engine.gate.openings != old(engine.gate.openings))
      ensures r.Ok? && r.value.unresolved != 0 ==> !engine.gate.ready && !engine.gate.latch
      ensures between == after == NothingHappens && old(engine.auth) && report.quarantined == 0
              && old(engine.gate.capability) == Some(token) ==>
                r == Ok(report) && engine.gate.latch && engine.gate.ready == old(engine.gate.ready)
      ensures r.Err? ==> r.exn == Crash && !engine.mode.Calm?
    {
      hide ExecutionEngine.Valid, ExecutionEngine.SoundNow, ExecutionEngine.Healthy, ProtectionSupervisor.Tracks;
      hide BootGate.Valid, AllResolved, AllStand, Judged;
      var proof :- Prove(report, between);
      var admitted := Admit(proof);
      if !admitted {
        return Ok(report.(unresolved := 1));
      }
      var third := Meanwhile(after);
      if third.Err? {
        return Err(Crash);
      }
      r := Ok(report);
    }

    /** One trade.  Whatever is discovered after the side effect, the caller still gets the outcome, unless the
        trade left through an exception that nobody handles: a division by zero, or an illegal step. */
    method Submit(i: TradeIntent, f: Portfolio, c: Checks) returns (r: Result<TradeStateMachine>)
      requires Valid() && GateMeans()
      modifies supervisor`measured, engine`auth, engine`now, engine`began, engine`startedAt, engine`sound
      modifies engine`settled, engine`withdrawing, engine`capped
      modifies engine.ledger, engine.exchange`books, engine.exchange`buyCalls, engine.activity, engine.idempotency
      modifies engine.gate`ready, engine.gate`latch, engine.gate`issued, engine.gate`revokedBelow
      ensures old(Matches(engine.ledger.rows, i)) ==>
                engine.StaysSound(old(Overreach(engine.ledger.rows, engine.exchange.books, i)))
      ensures r.Err? ==> r.exn in {GateClosed, Refused, Faulted, InvalidTransition, Crash}
      ensures engine.mode.Calm? ==> r.Ok? || r.exn in {GateClosed, Refused, Faulted}
      ensures r != Err(Crash) ==> Valid()
      ensures r != Err(Crash) ==>
                (GateMeans() <==>
                   r != Err(InvalidTransition) && (r == Err(Faulted) ==> i.id in old(engine.ledger.rows)))
      ensures r == Err(InvalidTransition) ==> engine.Cornered(i) && unchanged(engine.gate)
      ensures r != Err(Crash) ==>
                BaresAtMost(old(engine.ledger.rows), engine.ledger.rows, i.id, !engine.auth)
      ensures r == Err(Faulted) ==> i.stopPrice < i.referenceEntryPrice == 0.0 < i.takeProfitPrice
      ensures r.Ok? && engine.gate.latch && engine.gate.ready && engine.auth ==>
                SafeToCarryOn(r.value.state) && RowIs(engine.ledger.rows, i.id, r.value.state)
      ensures !old(engine.gate.latch && engine.gate.ready) || !c.ready || !c.alive || !c.probe ==>
                r == Err(GateClosed) && engine.Here() == old(engine.Here())
      ensures r == Err(GateClosed) ==>
                !old(engine.gate.latch && engine.gate.ready) || !c.ready || !c.alive || !c.probe || !engine.auth
      ensures old(engine.gate.ready) && c.ready && !c.alive ==> !engine.gate.latch && !engine.gate.ready
      ensures engine.mode.Calm? && !engine.Refuses(ProtectionRead) && old(engine.Fit(i)) && r.Ok? ==>
                (engine.gate.latch && engine.gate.ready <==>
                   && r.value.state in {Protected, Closed, Rejected, TradeState.Canceled, Expired}
                   && c.witnessed && c.still)
    {
      hide ExecutionEngine.Valid, ExecutionEngine.SoundNow, ExecutionEngine.Healthy, ProtectionSupervisor.Tracks;
      hide BootGate.Valid, AllResolved, Overreach, ExecutionEngine.Fit;
      if engine.Healthy() && Matches(engine.ledger.rows, i) {
        engine.HealthyIsNoOverreach(i);
      }
      if !engine.gate.ready || !c.ready {
        return Err(GateClosed);
      }
      if !c.alive {
        Fault();
        return Err(GateClosed);
      }
      ghost var rows := engine.ledger.rows;
      var done := Trade(i, f, c.probe);
      if done.Err? {
        return done;
      }
      r := AfterTrade(i, done.value, rows, c);
    }

    /** The trade itself, behind an open gate. */
    method Trade(i: TradeIntent, f: Portfolio, probe: bool) returns (r: Result<TradeStateMachine>)
      requires Valid() && GateMeans()
      modifies engine`auth, engine`now, engine`began, engine`startedAt, engine`sound
      modifies engine`settled, engine`withdrawing, engine`capped
      modifies engine.ledger, engine.exchange`books, engine.exchange`buyCalls, engine.activity, engine.idempotency
      modifies engine.gate`latch, engine.gate`issued, engine.gate`revokedBelow
      ensures old(Matches(engine.ledger.rows, i)) ==>
                engine.StaysSound(old(Overreach(engine.ledger.rows, engine.exchange.books, i)))
      ensures engine.mode.Calm? ==> r.Ok? || r.exn in {GateClosed, Refused, Faulted}
      ensures Valid() && OnlyRow(old(engine.ledger.rows), engine.ledger.rows, i.id)
      ensures engine.gate.latch ==> old(engine.gate.latch)
      ensures BaresAtMost(old(engine.ledger.rows), engine.ledger.rows, i.id, false)
      ensures r.Ok? ==> RowIs(engine.ledger.rows, i.id, r.value.state) || r.value.state == Unknown
      ensures r.Err? ==> r.exn in {GateClosed, Refused, Faulted, InvalidTransition, Crash}
      ensures r.Err? && r.exn != Crash ==>
                (GateMeans() <==>
                   r != Err(InvalidTransition) && (r == Err(Faulted) ==> i.id in old(engine.ledger.rows)))
      ensures r == Err(InvalidTransition) ==> engine.Cornered(i) && unchanged(engine.gate)
      ensures r == Err(Faulted) ==> i.stopPrice < i.referenceEntryPrice == 0.0 < i.takeProfitPrice
      ensures !old(engine.gate.latch && engine.gate.ready) || !probe ==>
                r == Err(GateClosed) && engine.Here() == old(engine.Here())
      ensures r == Err(GateClosed) ==> !probe || !engine.auth || !old(engine.gate.latch && engine.gate.ready)
      ensures r.Ok? ==> old(engine.auth && engine.gate.latch && engine.gate.ready)
      ensures engine.mode.Calm? && r.Ok? ==> engine.auth && unchanged(engine.gate)
      ensures engine.mode.Calm? && r.Ok? && old(engine.Fit(i)) ==> engine.SoundNow() && Matches(engine.ledger.rows, i)
    {
      hide ExecutionEngine.Valid, ExecutionEngine.Healthy, ProtectionSupervisor.Tracks, BootGate.Valid, StampedSince;
      hide ExecutionEngine.LetThrough, ExecutionEngine.Decided, ExecutionEngine.CapsHold, ExecutionEngine.Fit;
      hide ExecutionEngine.SoundNow, ExecutionEngine.StaysSound, ExecutionEngine.Kept, Overreach, AllResolved, OnlyRow;
      hide BaresAtMost, LegalPath, Matches;
      r := engine.Process(i, f, probe);
      engine.KeptMeans(i);
      supervisor.StillTracks(i.id);
      OperationBares(old(engine.ledger.rows), engine.ledger.rows, i.id, old(engine.now));
      if old(engine.gate.latch && engine.gate.ready) {
        ResolvedIff(old(engine.ledger.rows), engine.ledger.rows, i.id);
      }
    }

    /** What the runtime makes of a finished trade. */
    method AfterTrade(i: TradeIntent, sm: TradeStateMachine, ghost before: Rows, c: Checks)
      returns (r: Result<TradeStateMachine>)
      requires Valid() && OnlyRow(before, engine.ledger.rows, i.id)
      requires engine.gate.latch && engine.gate.ready ==> AllResolved(before)
      requires RowIs(engine.ledger.rows, i.id, sm.state) || sm.state == Unknown
      modifies engine`auth, engine`now, engine`began, engine`startedAt, engine`sound, engine`settled
      modifies engine`withdrawing, engine`capped, engine.ledger
      modifies engine.gate`ready, engine.gate`latch, engine.gate`issued, engine.gate`revokedBelow
      ensures engine.StaysSound(false)
      ensures r.Ok? ==>
                BaresAtMost(old(engine.ledger.rows), engine.ledger.rows, i.id, !engine.auth)
      ensures r.Ok? ==> Valid() && GateMeans() && r.value == sm
      ensures r.Ok? && engine.gate.latch && engine.gate.ready ==>
                SafeToCarryOn(sm.state) && RowIs(engine.ledger.rows, i.id, sm.state)
      ensures engine.mode.Calm? && !engine.Refuses(ProtectionRead) && old(engine.auth && engine.SoundNow())
              && old(Matches(engine.ledger.rows, i) && engine.gate.latch && engine.gate.ready) ==>
                && r.Ok?
                && (engine.gate.latch && engine.gate.ready <==>
                      && sm.state in {Protected, Closed, Rejected, TradeState.Canceled, Expired}
                      && c.witnessed && c.still)
      ensures r.Err? ==> r.exn == Crash && !engine.mode.Calm?
    {
      hide ExecutionEngine.Valid, ExecutionEngine.SoundNow, ExecutionEngine.Healthy, ProtectionSupervisor.Tracks;
      hide BootGate.Valid, AllResolved, OnlyRow, Matches, BaresAtMost;
      ghost var rows := engine.ledger.rows;
      var _ :- CheckTrade(i.id);
      OnlyRowTwice(before, rows, engine.ledger.rows, i.id);
      CloseUnlessSafe(i, sm, before, c);
      r := Ok(sm);
    }

    /** The claim of a trade, if it makes one, is checked at once. */
    method CheckTrade(id: Name) returns (r: Result<()>)
      requires Valid()
      modifies engine`auth, engine`now, engine`began, engine`startedAt, engine`sound, engine`settled
      modifies engine`withdrawing, engine`capped, engine.ledger
      modifies engine.gate`ready, engine.gate`latch, engine.gate`issued, engine.gate`revokedBelow
      ensures engine.StaysSound(false) && OnlyRow(old(engine.ledger.rows), engine.ledger.rows, id)
      ensures r.Ok? ==> Valid() && BaresAtMost(old(engine.ledger.rows), engine.ledger.rows, id, !engine.auth)
      ensures r.Ok? ==>
                || (unchanged(engine.gate) && SameState(old(engine.ledger.rows), engine.ledger.rows, id))
                || (!engine.gate.latch && !engine.gate.ready)
      ensures engine.mode.Calm? && !engine.Refuses(ProtectionRead) && old(engine.auth && engine.SoundNow()) ==>
                r.Ok? && unchanged(engine.gate) && SameState(old(engine.ledger.rows), engine.ledger.rows, id)
      ensures r.Err? ==> r.exn == Crash && !engine.mode.Calm?
    {
      hide ExecutionEngine.Valid, ExecutionEngine.SoundNow, ExecutionEngine.Healthy, ProtectionSupervisor.Tracks;
      hide BootGate.Valid, BackedBy;
      if id in engine.ledger.rows && ClaimsProtection(engine.ledger.rows[id].state) {
        if engine.SoundNow() {
          engine.SoundClaimStands(id);
        }
        var violated, look := supervisor.VerifyRecord(id);
        if violated.Err? {
          return Err(Crash);
        }
      }
      r := Ok(());
    }

    /** An unsafe outcome, a degraded audit or lost health shuts the gate. */
    method CloseUnlessSafe(i: TradeIntent, sm: TradeStateMachine, ghost before: Rows, c: Checks)
      requires Valid() && OnlyRow(before, engine.ledger.rows, i.id)
      requires engine.gate.latch && engine.gate.ready ==>
                 AllResolved(before) && (RowIs(engine.ledger.rows, i.id, sm.state) || sm.state == Unknown)
      modifies engine.gate`ready, engine.gate`latch, engine.gate`issued, engine.gate`revokedBelow
      ensures Valid() && GateMeans()
      ensures engine.gate.latch && engine.gate.ready ==>
                SafeToCarryOn(sm.state) && RowIs(engine.ledger.rows, i.id, sm.state)
      ensures engine.gate.latch && engine.gate.ready <==>
                && old(engine.gate.latch && engine.gate.ready)
                && sm.state in {Protected, Closed, Rejected, TradeState.Canceled, Expired} && c.witnessed && c.still
    {
      hide ExecutionEngine.Valid, ProtectionSupervisor.Tracks, AllResolved, OnlyRow;
      if !SafeToCarryOn(sm.state) || !c.witnessed {
        Fault();
      } else if !c.still {
        engine.gate.Revoke();
      }
      if engine.gate.latch && engine.gate.ready {
        ResolvedAfterOne(before, engine.ledger.rows, i.id);
      }
    }

    /** The row of this entry can be recovered: it can be read, and has not ended. */
    predicate Awaits(rows: Rows, c: ClientId, id: Name) {
      && id in rows && rows[id].entryId == c && rows[id].payload.Readable?
      && rows[id].state !in {Closed, Rejected, TradeState.Canceled, Expired}
    }

    /** A new exchange event for an entry leads to a recovery of its row, if the runtime is ready, and shuts the gate
        unless that ends safely; `which` is the row, if there was one. */
    method IngestExchangeEvent(c: ClientId, isNew: bool)
      returns (r: Result<Option<TradeState>>, ghost overreached: bool, ghost which: Option<Name>)
      requires Valid() && GateMeans()
      modifies engine`auth, engine`now, engine`began, engine`startedAt, engine`sound, engine`settled
      modifies engine`withdrawing, engine`capped
      modifies engine.ledger, engine.exchange`books
      modifies engine.gate`ready, engine.gate`latch, engine.gate`issued, engine.gate`revokedBelow
      ensures engine.StaysSound(overreached)
      ensures r != Err(Crash) ==> Valid() && GateMeans()
      ensures which.Some? <==> isNew && old(engine.gate.ready && engine.auth)
                               && exists id :: Awaits(old(engine.ledger.rows), c, id)
      ensures which.None? ==> r == Ok(None) && engine.Here() == old(engine.Here()) && unchanged(engine.gate)
      ensures which.Some? ==>
                && Awaits(old(engine.ledger.rows), c, which.value)
                && OnlyRow(old(engine.ledger.rows), engine.ledger.rows, which.value)
                && (r.Ok? ==> r.value.Some? && RowIs(engine.ledger.rows, which.value, r.value.value))
      ensures which.Some? && engine.mode.Calm?
              && old(engine.Fit(engine.ledger.rows[which.value].payload.intent)) ==>
                var row := old(engine.ledger.rows)[which.value];
                r == Ok(Some(engine.RecoveredTo(row.state, row.prepared,
                  old(engine.Pos(engine.ledger.rows[which.value].payload.intent)), row.payload.intent.symbol, false)))
      ensures forall id :: Bare(engine.ledger.rows, id) ==> Bare(old(engine.ledger.rows), id)
      ensures r.Err? ==> r.exn == StaleEpoch || (r.exn == Crash && !engine.mode.Calm?)
      ensures r.Ok? && r.value.Some? ==>
                if r.value.value in {Protected, Closed, Rejected, TradeState.Canceled, Expired}
                then unchanged(engine.gate) else !engine.gate.ready && !engine.gate.latch
    {
      hide ExecutionEngine.Valid, ExecutionEngine.SoundNow, ExecutionEngine.Healthy, ProtectionSupervisor.Tracks;
      hide BootGate.Valid, AllResolved, Overreach;
      overreached, which := false, None;
      if !isNew || !engine.gate.ready || !engine.auth {
        return Ok(None), overreached, which;
      }
      var rows := engine.ledger.rows;
      var matching: set<Name> := set id | id in rows && rows[id].entryId == c && !Terminal(rows[id].state)
          && rows[id].payload.Readable?;
      assert forall id :: id in matching <==> Awaits(rows, c, id);
      if matching == {} {
        return Ok(None), overreached, which;
      }
      ghost var some := Member(matching);
      var id: Name :| id in matching;
      var i := rows[id].payload.intent;
      engine.RowsAreFiled();
      assert FiledAt(rows, id);
      overreached := Overreach(rows, engine.exchange.books, i);
      which := Some(id);
      var state := RecoverOnEvent(i);
      r := if state.Ok? then Ok(Some(state.value)) else Err(state.exn);
    }

    method RecoverOnEvent(i: TradeIntent) returns (r: Result<TradeState>)
      requires Valid() && GateMeans() && i.id in engine.ledger.rows && Matches(engine.ledger.rows, i)
      modifies engine`auth, engine`now, engine`began, engine`startedAt, engine`sound, engine`settled
      modifies engine`withdrawing, engine`capped
      modifies engine.ledger, engine.exchange`books
      modifies engine.gate`ready, engine.gate`latch, engine.gate`issued, engine.gate`revokedBelow
      ensures engine.StaysSound(old(Overreach(engine.ledger.rows, engine.exchange.books, i)))
      ensures r != Err(Crash) ==> Valid() && GateMeans()
      ensures forall id :: Bare(engine.ledger.rows, id) ==> Bare(old(engine.ledger.rows), id)
      ensures r.Err? ==> r.exn == StaleEpoch || (r.exn == Crash && !engine.mode.Calm?)
      ensures r.Ok? ==>
                if r.value in {Protected, Closed, Rejected, TradeState.Canceled, Expired} then unchanged(engine.gate)
                else !engine.gate.ready && !engine.gate.latch
      ensures OnlyRow(old(engine.ledger.rows), engine.ledger.rows, i.id)
      ensures r.Ok? ==> RowIs(engine.ledger.rows, i.id, r.value)
      ensures engine.mode.Calm? && old(engine.auth && engine.Fit(i)) ==>
                r == Ok(engine.RecoveredTo(old(engine.ledger.rows)[i.id].state, old(engine.ledger.rows)[i.id].prepared,
                  old(engine.Pos(i)), i.symbol, false))
    {
      hide ExecutionEngine.Valid, ExecutionEngine.SoundNow, ExecutionEngine.Healthy, ExecutionEngine.Fit;
      hide ExecutionEngine.StaysSound, BootGate.Valid, AllResolved, Overreach, ProtectionSupervisor.Tracks;
      hide BackedBy, ExecutionEngine.Kept;
      ghost var rows, start := engine.ledger.rows, engine.now;
      r := engine.Recover(i, false);
      engine.KeptMeans(i);
      supervisor.StillTracks(i.id);
      OperationBares(rows, engine.ledger.rows, i.id, start);
      if r.Ok? && !SafeToCarryOn(r.value) {
        Fault();
      } else if r != Err(Crash) && engine.gate.latch && engine.gate.ready {
        StaysResolved(rows, i.id);
      }
    }

    /** A row that is resolved, or was and is where it was, keeps what an open gate means. */
    lemma StaysResolved(rows: Rows, id: Name)
      requires AllResolved(rows) && OnlyRow(rows, engine.ledger.rows, id)
      requires id in engine.ledger.rows && id in rows
      requires Resolved(engine.ledger.rows[id].state) || engine.ledger.rows[id].state == rows[id].state
      ensures AllResolved(engine.ledger.rows)
    {
      assert ResolvedAt(rows, id);
      ResolvedAfterOne(rows, engine.ledger.rows, id);
    }

    method Stop(release: bool)
      requires Valid()
      modifies engine`epoch, engine`auth, engine.gate
      ensures Valid() && GateMeans() && !engine.gate.latch && !engine.gate.ready
      ensures engine.gate.capability
                == if old(engine.gate.capability) == Some(token) then None else old(engine.gate.capability)
      ensures release ==> !engine.auth && engine.epoch == None
      ensures !release ==> engine.epoch == old(engine.epoch)
    {
      Fault();
      if release {
        engine.ReleaseAuthority();
      }
      var _ := engine.gate.HandBack(token);
    }

    /** Taking authority outside Start keeps the latch tied to the epoch it was opened for exactly when
        there is nothing to take, or nothing open. */
    method BareAcquire(granted: Option<nat>) returns (ok: bool)
      requires Valid() && (granted.Some? ==> EpochsWithin(engine.ledger.rows, granted.value))
      requires engine.epoch.Some? && granted.Some? ==> engine.epoch.value < granted.value
      modifies engine`epoch, engine`auth
      ensures OpenerHolds() <==> old(engine.auth) || !engine.gate.latch
      ensures ok == engine.auth
    {
      ok := engine.AcquireAuthority(granted);
    }
  }

  lemma WithinLater(rows: Rows, a: nat, b: nat)
    requires EpochsWithin(rows, a) && a <= b
    ensures EpochsWithin(rows, b)
  {
    forall id ensures EpochAtMost(rows, id, b) {
      assert EpochAtMost(rows, id, a);
    }
  }

  /** No epoch so far is above `high`. */
  ghost predicate Bounded(e: ExecutionEngine, high: nat)
    reads e`epoch, e.ledger
  {
    EpochsWithin(e.ledger.rows, high) && (e.epoch.Some? ==> e.epoch.value <= high)
  }

  lemma StillBounded(e: ExecutionEngine, rows: Rows, high: nat, high': nat)
    requires e.Valid() && high <= high' && (e.epoch.Some? ==> e.epoch.value <= high')
    requires e.epoch.None? ==> e.ledger.rows == rows && EpochsWithin(rows, high)
    ensures Bounded(e, high')
  {
    WithinLater(e.ledger.rows, if e.epoch.Some? then e.epoch.value else high, high');
  }

  /** One call on the runtime, or one thing that happens beside it; the result says how a trade escaped, if one did. */
  method OneMove(t: TradingCoreRuntime, high: nat)
    returns (r: Result<Option<Exn>>, high': nat, ghost disturbed: bool, ghost overreached: bool)
    requires t.Valid() && t.GateMeans() && Bounded(t.engine, high)
    modifies t`supervisor, t.supervisor`measured, t.engine, t.engine.gate, t.engine.ledger
    modifies t.engine.exchange`books, t.engine.exchange`buyCalls, t.engine.activity, t.engine.idempotency
    ensures fresh(t.supervisor) || t.supervisor == old(t.supervisor)
    ensures r.Ok? ==> t.Valid() && Bounded(t.engine, high')
    ensures disturbed || t.engine.StaysSound(overreached)
    ensures r.Err? ==> !t.engine.mode.Calm?
    ensures r == Ok(None) ==> t.GateMeans()
    ensures r.Ok? && r.value.Some? ==> r.value.value in {Faulted, InvalidTransition}
    ensures r == Ok(Some(InvalidTransition)) ==>
              t.engine.policy.emergencyExitOnUnprotected && !t.engine.mode.Calm? && !t.engine.auth
  {
    hide ExecutionEngine.Valid, ExecutionEngine.SoundNow, ExecutionEngine.Healthy, BootGate.Valid, AllResolved;
    hide ProtectionSupervisor.Tracks, EpochsWithin, Matches, Overreach, Judged, AllStand;
    var what: int := *;
    ghost var rows := t.engine.ledger.rows;
    high' := high + 1;
    r := Ok(None);
    disturbed, overreached := false, false;
    if what == 0 {
      WithinLater(t.engine.ledger.rows, high, high');
      var refused: bool, auditOk: bool, before: Beside, between: Beside, after: Beside := *, *, *, *, *;
      var report: Result<BootReport>;
      report, overreached := t.Start(if refused then None else Some(high'), auditOk, before, between, after);
      disturbed := Tampered(before, between, after);
      if report == Err(Crash) {
        r := Err(Crash);
      }
    } else if what == 1 {
      var i: TradeIntent, f: Portfolio := *, *;
      disturbed := !Matches(t.engine.ledger.rows, i);
      overreached := Overreach(t.engine.ledger.rows, t.engine.exchange.books, i);
      var checks: Checks := *;
      var done := t.Submit(i, f, checks);
      r := if done == Err(Crash) then Err(Crash)
           else if done in {Err(Faulted), Err(InvalidTransition)} then Ok(Some(done.exn)) else Ok(None);
    } else if what == 2 {
      var c: ClientId, isNew: bool := *, *;
      var done: Result<Option<TradeState>>;
      ghost var which: Option<Name>;
      done, overreached, which := t.IngestExchangeEvent(c, isNew);
      if done == Err(Crash) {
        r := Err(Crash);
      }
    } else if what == 3 {
      var release: bool := *;
      t.Stop(release);
    } else {
      var beside: Beside := *;
      disturbed := beside.ProtectionCanceled?;
      var done := t.Meanwhile(beside);
      if done.Err? {
        r := Err(Crash);
      }
    }
    if r.Ok? {
      StillBounded(t.engine, rows, high, high');
    }
  }

  /** What an open gate is worth: nothing of any trade is left in the free balance. */
  ghost predicate Square(e: ExecutionEngine)
    reads e.exchange
  {
    forall s: Symbol :: SquareAt(e.exchange.books, e.exchange.baseline, s)
  }

  ghost predicate SquareAt(x: Books, base: Wallet, s: Symbol) {
    Balance(x, s) - Reserved(x, s) == Held(base, s)
  }

  lemma ResolvedIsSquare(e: ExecutionEngine)
    requires e.SoundNow() && AllResolved(e.ledger.rows)
    ensures Square(e)
  {
    var rows := e.ledger.rows;
    forall id | id in rows ensures Resolved(rows[id].state) {
      assert ResolvedAt(rows, id);
    }
    forall s: Symbol ensures SquareAt(e.exchange.books, e.exchange.baseline, s) {
      ResolvedMeansBaseline(rows, e.exchange.books, e.exchange.baseline, s);
    }
  }

  /** Any sequence of starts, trades, events, cycles, renewals and stops, as long as the process lives and no
      trade escapes through an exception that nobody handles: an open gate means resolved rows, and the epoch it
      was opened for.  A trade escapes by a zero reference price, or, if the policy sells what it cannot protect,
      by losing authority between a confirmed sale and the step that records it.  In a calm world the process lives.
      A session is disturbed if an id is reused or a protection canceled at the exchange.  Undisturbed, in an honest
      world, the protocol invariant stands, even if the process dies, and behind an open gate the free balance of
      every symbol is exactly its baseline, unless some recovery overreached; if the durable state was healthy, none
      does, and it stays healthy.  And once a cycle has completed, the estimate of the oldest verification age covers
      the ledger unless it is finite and a claim has been left bare. */
  method Session(engine: ExecutionEngine, token: nat, softAge: int, steps: nat, top: nat)
    returns (t: TradingCoreRuntime, alive: bool, escaped: Option<Exn>, ghost disturbed: bool, ghost overreached: bool)
    requires engine.Valid() && engine.gate.Valid() && !engine.gate.latch && !engine.gate.ready && Bounded(engine, top)
    modifies engine, engine.gate, engine.ledger, engine.exchange`books, engine.exchange`buyCalls
    modifies engine.activity, engine.idempotency
    ensures fresh(t) && t.engine == engine && (alive ==> engine.Valid() && engine.gate.Valid())
    ensures alive && engine.gate.latch ==>
              engine.epoch.Some? && engine.gate.opener.Some? && engine.gate.opener.value.epoch == engine.epoch.value
    ensures alive && escaped.None? && engine.gate.latch && engine.gate.ready ==> AllResolved(engine.ledger.rows)
    ensures escaped.Some? ==> escaped.value in {Faulted, InvalidTransition}
    ensures escaped == Some(InvalidTransition) ==>
              engine.policy.emergencyExitOnUnprotected && !engine.mode.Calm? && !engine.auth
    ensures engine.mode.Calm? ==> alive
    ensures disturbed || engine.StaysSound(overreached)
    ensures old(engine.SoundNow()) && !disturbed && !overreached && alive && escaped.None?
            && engine.gate.latch && engine.gate.ready ==>
              Square(engine)
    ensures alive && t.supervisor.measured.Some? ==>
              (t.supervisor.Covering() <==>
                 t.supervisor.measured.value.age.Infinite? || forall id :: !Bare(engine.ledger.rows, id))
  {
    t := new TradingCoreRuntime(engine, token, softAge);
    var high := top;
    alive, escaped, disturbed, overreached := true, None, false, false;
    for k := 0 to steps
      invariant t.engine == engine && fresh(t) && fresh(t.supervisor) && t.Valid() && t.GateMeans()
      invariant Bounded(engine, high)
      invariant alive && escaped.None?
      invariant disturbed || engine.StaysSound(overreached)
    {
      hide ExecutionEngine.Valid, ExecutionEngine.SoundNow, ExecutionEngine.Healthy, BootGate.Valid, AllResolved;
      hide ProtectionSupervisor.Tracks, Bounded;
      var moved, next, strange, over := OneMove(t, high);
      disturbed, overreached := disturbed || strange, overreached || over;
      if moved.Err? {
        alive := false;
        return;
      }
      if moved.value.Some? {
        escaped := moved.value;
        t.supervisor.CoveringIff();
        return;
      }
      high := next;
    }
    t.supervisor.CoveringIff();
    if engine.SoundNow() && engine.gate.latch && engine.gate.ready {
      ResolvedIsSquare(engine);
    }
  }
}
