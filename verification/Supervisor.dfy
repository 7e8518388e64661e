/** The protection supervisor: claims of protection are checked one by one, or they do not stand. */
module Supervisor {
  import opened Domain
  import opened Exchange
  import opened Ledger
  import opened Activity
  import opened BootGate
  import opened Protocol
  import opened Engine
  import opened Freshness

  /** A claim that was checked: an honest exchange backed it, and it was stamped then, not before `since`. */
  predicate Confirmed(x: Books, honest: bool, row: Row, since: int) {
    && row.payload.Readable? && (honest ==> BackedBy(x, row, row.payload.intent))
    && row.verifiedAt.Some? && since <= row.verifiedAt.value
  }

  /** A claim whose check gave no answer: it has the verification it had, within the soft age at `t`. */
  predicate Spared(before: Row, row: Row, softAge: int, t: int) {
    && row == before.(epoch := row.epoch)
    && row.payload.Readable? && row.verifiedAt.Some? && t - row.verifiedAt.value <= softAge
  }

  /** The claim of this row, held against the exchange. */
  predicate Stands(x: Books, row: Row) {
    row.payload.Readable? && BackedBy(x, row, row.payload.intent)
  }

  /** A claim that stood is where it was, and one that did not is gone, or cannot be read. */
  predicate Judged(first: Rows, at: Moment, id: Name) {
    ClaimsAt(first, id) ==>
      if Stands(at.books, first[id]) then SameState(first, at.rows, id)
      else !ClaimsAt(at.rows, id) || first[id].payload.Unreadable?
  }

  /** Every claim of this ledger that is not left out stands. */
  ghost predicate AllStand(x: Books, rows: Rows, but: set<Name>) {
    forall id :: ClaimsAt(rows, id) && id !in but ==> Stands(x, rows[id])
  }

  /** What one look at a claim found: a row that cannot be read, a claim that stood, one that fell, or no answer, and
      when that was. */
  datatype Look = Illegible | Stood | Fell | Silent(at: int)

  /** A cycle, part of the way: the durable state and the time, the claims still to be looked at, what the looks so
      far found, whether nothing was violated, and whether authority is still held. */
  datatype Progress = Progress(
    at: Moment, now: int, left: set<Name>, looked: map<Name, Look>, clean: bool, held: bool)

  /** Neither created, dropped, nor moved to another state. */
  predicate SameState(rows: Rows, rows': Rows, id: Name) {
    (id in rows' <==> id in rows) && (id in rows ==> rows'[id].state == rows[id].state)
  }

  class ProtectionSupervisor {
    const engine: ExecutionEngine
    const softAge: int

    /** The age measured by the last cycle, and when. */
    var measured: Option<Reading>

    constructor (engine: ExecutionEngine, softAge: int)
      ensures this.engine == engine && this.softAge == softAge && measured == None
    {
      this.engine, this.softAge, this.measured := engine, softAge, None;
    }

    /** Tells the runtime: not ready any more, and the gate is shut. */
    method Notify()
      requires engine.gate.Valid()
      modifies engine.gate`ready, engine.gate`latch, engine.gate`issued, engine.gate`revokedBelow
      ensures engine.gate.Valid() && !engine.gate.ready && !engine.gate.latch && engine.gate.issued == None
    {
      engine.gate.ready := false;
      engine.gate.Revoke();
    }

    /** The reading, if there is one, was taken on this clock, and reaches back to every stamp. */
    ghost predicate Tracks()
      reads this, engine`now, engine.ledger
    {
      measured.Some? ==> measured.value.at <= engine.now && Reached(measured.value, engine.ledger.rows)
    }

    /** The estimate covers the ledger, now and from now on. */
    ghost predicate Covering()
      reads this, engine.ledger
    {
      measured.Some? ==> Safe(measured.value, engine.ledger.rows)
    }

    /** Once a cycle has completed, only a finite estimate and a bare claim together let it fall short. */
    lemma CoveringIff()
      requires Tracks()
      ensures Covering() <==>
                measured.None? || measured.value.age.Infinite? || forall id :: !Bare(engine.ledger.rows, id)
    {
      if measured.Some? {
        SafeIffNoneBare(measured.value, engine.ledger.rows);
      }
    }

    /** An operation on one intent keeps the reading reaching back to every stamp. */
    twostate lemma StillTracks(id: Name)
      requires old(Tracks()) && measured == old(measured) && old(engine.now) <= engine.now
      requires OnlyRow(old(engine.ledger.rows), engine.ledger.rows, id)
      requires StampedSince(old(engine.ledger.rows), engine.ledger.rows, id, old(engine.now))
               || StampCut(old(engine.ledger.rows), engine.ledger.rows, id)
      ensures Tracks()
    {
      if measured.Some? {
        OperationReaches(measured.value, old(engine.ledger.rows), engine.ledger.rows, id, old(engine.now));
      }
    }

    /** A claim that nobody could check for too long is withdrawn; whether or not that succeeds, the gate is shut. */
    method Withdraw(i: TradeIntent) returns (r: Result<bool>)
      requires engine.Valid() && engine.gate.Valid() && ClaimsAt(engine.ledger.rows, i.id)
      requires Matches(engine.ledger.rows, i)
      modifies engine`auth, engine`now, engine`began, engine`startedAt, engine`sound, engine`settled
      modifies engine`withdrawing, engine`capped, engine.ledger
      modifies engine.gate`ready, engine.gate`latch, engine.gate`issued, engine.gate`revokedBelow
      ensures engine.Valid() && engine.gate.Valid() && engine.now >= old(engine.now)
      ensures engine.Ebbs(old(engine.auth), engine.auth) && OnlyRow(old(engine.ledger.rows), engine.ledger.rows, i.id)
      ensures i.id in engine.ledger.rows && engine.ledger.rows[i.id].payload == old(engine.ledger.rows)[i.id].payload
      ensures engine.StaysSound(false)
      ensures r.Err? ==> r.exn == Crash && !engine.mode.Calm?
      ensures r.Ok? ==> r.value && !engine.gate.ready && !engine.gate.latch
      ensures r.Ok? && engine.auth ==> !ClaimsAt(engine.ledger.rows, i.id)
      ensures old(Tracks()) ==> Tracks()
      ensures r.Ok? ==> BaresAtMost(old(engine.ledger.rows), engine.ledger.rows, i.id, !engine.auth)
    {
      hide ExecutionEngine.Valid, ExecutionEngine.SoundNow, ExecutionEngine.Healthy, ExecutionEngine.Fit;
      ghost var rows, start := engine.ledger.rows, engine.now;
      var expired := engine.Expire(i);
      engine.KeptMeans(i);
      if old(Tracks()) {
        StillTracks(i.id);
      }
      OperationBares(rows, engine.ledger.rows, i.id, start);
      if expired == Err(Crash) {
        return Err(Crash);
      }
      Notify();
      r := Ok(true);
    }

    /** Asks the engine about one claim.  A check that lost its authority is no answer. */
    method Ask(i: TradeIntent) returns (r: Result<Option<bool>>)
      requires engine.Valid() && ClaimsAt(engine.ledger.rows, i.id) && Matches(engine.ledger.rows, i)
      modifies engine`auth, engine`now, engine`began, engine`startedAt, engine`sound, engine`settled
      modifies engine`withdrawing, engine`capped, engine.ledger
      ensures engine.Valid() && engine.now >= old(engine.now) && engine.Ebbs(old(engine.auth), engine.auth)
      ensures OnlyRow(old(engine.ledger.rows), engine.ledger.rows, i.id) && i.id in engine.ledger.rows
      ensures engine.ledger.rows[i.id].payload == Readable(i)
      ensures engine.StaysSound(false)
      ensures r.Err? ==> r.exn == Crash && !engine.mode.Calm?
      ensures r in {Ok(None), Ok(Some(true))} ==> SameState(old(engine.ledger.rows), engine.ledger.rows, i.id)
      ensures r == Ok(Some(true)) ==>
                Confirmed(engine.exchange.books, engine.mode != Hostile, engine.ledger.rows[i.id], old(engine.now))
      ensures r == Ok(None) && engine.auth ==>
                engine.ledger.rows[i.id] == old(engine.ledger.rows)[i.id].(epoch := engine.ledger.rows[i.id].epoch)
      ensures r == Ok(Some(false)) ==> !ClaimsAt(engine.ledger.rows, i.id)
      ensures engine.mode.Calm? && old(engine.auth) ==>
                r == Ok(if engine.Refuses(ProtectionRead) then None
                        else Some(Stands(engine.exchange.books, old(engine.ledger.rows)[i.id])))
      ensures old(Tracks()) ==> Tracks()
      ensures r.Ok? ==> BaresAtMost(old(engine.ledger.rows), engine.ledger.rows, i.id, !engine.auth)
    {
      hide ExecutionEngine.Valid, ExecutionEngine.SoundNow, ExecutionEngine.Healthy, ExecutionEngine.Fit;
      engine.ClaimsKnowHowMuch(i.id);
      ghost var rows, start := engine.ledger.rows, engine.now;
      r := engine.Verify(i);
      engine.KeptMeans(i);
      if old(Tracks()) {
        StillTracks(i.id);
      }
      OperationBares(rows, engine.ledger.rows, i.id, start);
      if r.Err? && r.exn != Crash {
        r := Ok(None);
      }
    }

    /** Verified too long ago, or never. */
    predicate TooOld(row: Row, t: int) {
      row.verifiedAt.Some? ==> softAge < t - row.verifiedAt.value
    }

    /** What a look at a claim found is a violation: no answer is one only where the claim is too old by then. */
    predicate Violates(row: Row, look: Look) {
      look.Illegible? || look.Fell? || (look.Silent? && TooOld(row, look.at))
    }

    /** What a look leaves of a claim: one that stood was confirmed, one that fell is gone, and one without an answer
        is gone if it was too old, and is otherwise as it was. */
    ghost predicate AccountedFor(first: Rows, at: Moment, now: int, look: Look, since: int, id: Name)
      requires id in first
    {
      match look
      case Illegible => SameRow(first, at.rows, id)
      case Stood =>
        && SameState(first, at.rows, id) && Confirmed(at.books, engine.mode != Hostile, at.rows[id], since)
      case Fell => !ClaimsAt(at.rows, id)
      case Silent(t) =>
        && since <= t <= now
        && if TooOld(first[id], t) then !ClaimsAt(at.rows, id)
           else id in at.rows && Spared(first[id], at.rows[id], softAge, t)
    }

    /** What a look finds in a calm world. */
    predicate FoundCalmly(x: Books, row: Row, look: Look) {
      if row.payload.Unreadable? then look.Illegible?
      else if engine.Refuses(ProtectionRead) then look.Silent?
      else look == if Stands(x, row) then Stood else Fell
    }

    /** Checks one claim; the result says whether it was violated. */
    method VerifyRecord(id: Name) returns (r: Result<bool>, ghost look: Look)
      requires engine.Valid() && engine.gate.Valid() && ClaimsAt(engine.ledger.rows, id)
      modifies engine`auth, engine`now, engine`began, engine`startedAt, engine`sound, engine`settled
      modifies engine`withdrawing, engine`capped, engine.ledger
      modifies engine.gate`ready, engine.gate`latch, engine.gate`issued, engine.gate`revokedBelow
      ensures engine.Valid() && engine.gate.Valid() && engine.now >= old(engine.now)
      ensures engine.Ebbs(old(engine.auth), engine.auth)
      ensures OnlyRow(old(engine.ledger.rows), engine.ledger.rows, id) && id in engine.ledger.rows
      ensures engine.ledger.rows[id].payload == old(engine.ledger.rows)[id].payload
      ensures engine.StaysSound(false)
      ensures r.Err? ==> r.exn == Crash && !engine.mode.Calm?
      ensures r.Ok? ==>
                (r.value <==> look in {Illegible, Fell}
                              || (look.Silent?
                                  && (old(engine.ledger.rows)[id].verifiedAt.None?
                                      || softAge < look.at - old(engine.ledger.rows)[id].verifiedAt.value)))
      ensures look.Illegible? <==> old(engine.ledger.rows)[id].payload.Unreadable?
      ensures r.Ok? && r.value ==> !engine.gate.ready && !engine.gate.latch
      ensures r.Ok? && !r.value ==> unchanged(engine.gate) && SameState(old(engine.ledger.rows), engine.ledger.rows, id)
      ensures r.Ok? && engine.auth ==>
                AccountedFor(old(engine.ledger.rows), engine.Here(), engine.now, look, old(engine.now), id)
      ensures engine.mode.Calm? && old(engine.auth) ==>
                r.Ok? && FoundCalmly(engine.exchange.books, old(engine.ledger.rows)[id], look)
      ensures old(Tracks()) ==> Tracks()
      ensures r.Ok? ==> BaresAtMost(old(engine.ledger.rows), engine.ledger.rows, id, !engine.auth)
    {
      hide ExecutionEngine.Valid, ExecutionEngine.SoundNow, ExecutionEngine.Healthy, BackedBy, BootGate.Valid;
      var row := engine.ledger.rows[id];
      look := Illegible;
      if row.payload.Unreadable? {
        Notify();
        return Ok(true), look;
      }
      var i := row.payload.intent;
      engine.RowsAreFiled();
      assert FiledAt(engine.ledger.rows, id);
      ghost var first := engine.ledger.rows;
      var asked := Ask(i);
      look := if asked.Err? || asked.value.None? then Silent(engine.now) else if asked.value.value then Stood else Fell;
      if asked.Err? {
        return Err(Crash), look;
      }
      var stands := asked.value;
      match stands {
        case Some(ok) =>
          if !ok {
            Notify();
          }
          r := Ok(!ok);
        case None =>
          if row.verifiedAt.Some? && engine.now - row.verifiedAt.value <= softAge {
            return Ok(false), look;
          }
          ghost var second := engine.ledger.rows;
          r := Withdraw(i);
          OnlyRowTwice(first, second, engine.ledger.rows, id);
      }
    }

    /** In the middle of a cycle: only claims have been looked at, everything else is untouched, what the looks found
        decides whether it is clean so far, and while authority is held they account for what they left. */
    ghost predicate SoFar(first: Rows, since: int, p: Progress) {
      && since <= p.now && (forall id :: id in p.left ==> ClaimsAt(first, id))
      && (forall id :: id in p.looked <==> ClaimsAt(first, id) && id !in p.left)
      && (forall id :: id in p.looked ==> (p.looked[id].Illegible? <==> first[id].payload.Unreadable?))
      && (forall id :: id !in p.looked ==> SameRow(first, p.at.rows, id))
      && (p.clean <==> forall id :: id in p.looked ==> !Violates(first[id], p.looked[id]))
      && (p.held ==> forall id :: id in p.looked ==> AccountedFor(first, p.at, p.now, p.looked[id], since, id))
      && (p.clean ==> forall id :: SameState(first, p.at.rows, id))
      && (p.held && engine.mode.Calm? ==>
            forall id :: id in p.looked ==> FoundCalmly(p.at.books, first[id], p.looked[id]))
    }

    lemma SoFarAtFirst(first: Rows, since: int, p: Progress)
      requires p.at.rows == first && p.now == since && p.looked == map[] && p.clean
      requires p.left == set id | id in first && ClaimsProtection(first[id].state)
      ensures SoFar(first, since, p)
    {
    }

    lemma SoFarAfter(first: Rows, since: int, p: Progress, q: Progress, id: Name, look: Look)
      requires SoFar(first, since, p) && id in p.left && id in first && q.left == p.left - {id}
      requires q.looked == p.looked[id := look] && q.clean == (p.clean && !Violates(first[id], look))
      requires q.at.books == p.at.books && p.now <= q.now && (q.held ==> p.held)
      requires OnlyRow(p.at.rows, q.at.rows, id) && (look.Illegible? <==> first[id].payload.Unreadable?)
      requires !Violates(first[id], look) ==> SameState(first, q.at.rows, id)
      requires q.held ==> AccountedFor(first, q.at, q.now, look, p.now, id)
      requires q.held && engine.mode.Calm? ==> FoundCalmly(q.at.books, first[id], look)
      ensures SoFar(first, since, q)
    {
      forall k | k !in q.looked ensures SameRow(first, q.at.rows, k) {
        assert SameRow(first, p.at.rows, k) && SameRow(p.at.rows, q.at.rows, k);
      }
      forall k | q.held && k in q.looked ensures AccountedFor(first, q.at, q.now, q.looked[k], since, k) {
        assert k != id ==> AccountedFor(first, p.at, p.now, p.looked[k], since, k) && SameRow(p.at.rows, q.at.rows, k);
      }
      if q.clean {
        forall k ensures SameState(first, q.at.rows, k) {
          assert SameState(first, p.at.rows, k) && (k != id ==> SameRow(p.at.rows, q.at.rows, k));
        }
      }
      assert q.clean ==> p.clean;
      assert forall k :: k in p.looked ==> q.looked[k] == p.looked[k];
    }

    lemma StillClaims(first: Rows, since: int, p: Progress, id: Name)
      requires SoFar(first, since, p) && id in p.left
      ensures ClaimsAt(p.at.rows, id) && id in first && p.at.rows[id] == first[id]
    {
      assert SameRow(first, p.at.rows, id);
    }

    /** What a calm cycle that can read every protection comes to. */
    lemma CalmlyJudged(first: Rows, since: int, p: Progress)
      requires SoFar(first, since, p) && p.left == {} && p.held && engine.mode.Calm? && !engine.Refuses(ProtectionRead)
      ensures forall id :: Judged(first, p.at, id)
      ensures p.clean <==> AllStand(p.at.books, first, {})
    {
      forall id ensures Judged(first, p.at, id) {
        if id in p.looked {
          assert AccountedFor(first, p.at, p.now, p.looked[id], since, id);
          assert FoundCalmly(p.at.books, first[id], p.looked[id]);
        }
      }
      forall id | ClaimsAt(first, id) ensures id in p.looked && FoundCalmly(p.at.books, first[id], p.looked[id]) {
      }
    }

    /** How far a cycle has come. */
    ghost function Now(left: set<Name>, looked: map<Name, Look>, clean: bool): Progress
      reads engine, engine.ledger, engine.exchange
    {
      Progress(engine.Here(), engine.now, left, looked, clean, engine.auth)
    }

    /** The next claim of a cycle. */
    method CheckNext(id: Name, ghost first: Rows, ghost since: int, ghost p: Progress)
      returns (r: Result<bool>, ghost looked: map<Name, Look>)
      requires engine.Valid() && engine.gate.Valid() && id in p.left
      requires SoFar(first, since, p) && p == Now(p.left, p.looked, p.clean)
      modifies engine`auth, engine`now, engine`began, engine`startedAt, engine`sound
      modifies engine`settled, engine`withdrawing, engine`capped, engine.ledger
      modifies engine.gate`ready, engine.gate`latch, engine.gate`issued, engine.gate`revokedBelow
      ensures engine.Valid() && engine.gate.Valid() && engine.now >= old(engine.now)
      ensures engine.Ebbs(old(engine.auth), engine.auth)
      ensures engine.StaysSound(false)
      ensures r.Err? ==> r.exn == Crash && !engine.mode.Calm?
      ensures r.Ok? ==> if r.value then !engine.gate.ready && !engine.gate.latch else unchanged(engine.gate)
      ensures r.Ok? ==> SoFar(first, since, Now(p.left - {id}, looked, p.clean && !r.value))
    {
      hide ExecutionEngine.Valid, ExecutionEngine.StaysSound, SoFar, AccountedFor, OnlyRow, FoundCalmly;
      hide SameState, Tracks, BaresAtMost, BootGate.Valid, Stands;
      StillClaims(first, since, p, id);
      ghost var look: Look;
      r, look := VerifyRecord(id);
      looked := p.looked[id := look];
      if r.Ok? {
        LooksAlike(first, p.at.rows, engine.Here(), engine.now, look, p.now, id);
        SoFarAfter(first, since, p, Now(p.left - {id}, looked, p.clean && !r.value), id, look);
      }
    }

    /** A claim that has not been looked at yet is judged against the row it had at first. */
    lemma LooksAlike(first: Rows, rows: Rows, at: Moment, now: int, look: Look, since: int, id: Name)
      requires id in first && id in rows && rows[id] == first[id]
      ensures AccountedFor(rows, at, now, look, since, id) ==> AccountedFor(first, at, now, look, since, id)
      ensures SameState(rows, at.rows, id) ==> SameState(first, at.rows, id)
    {
    }

    /** One cycle.  `looked` says what it found of every claim there was: exactly these rows can have changed, and
        there is a violation exactly where one could not be read, fell, or went unanswered when it was too old.  A
        calm cycle under authority that can read the protections finds one exactly where a claim does not stand. */
    method VerifyOnce() returns (r: Result<bool>, ghost looked: map<Name, Look>)
      requires engine.Valid() && engine.gate.Valid()
      modifies this`measured, engine`auth, engine`now, engine`began, engine`startedAt, engine`sound
      modifies engine`settled, engine`withdrawing, engine`capped, engine.ledger
      modifies engine.gate`ready, engine.gate`latch, engine.gate`issued, engine.gate`revokedBelow
      ensures engine.Valid() && engine.gate.Valid() && engine.now >= old(engine.now)
      ensures engine.Ebbs(old(engine.auth), engine.auth)
      ensures engine.StaysSound(false)
      ensures r.Err? ==> r.exn == Crash && !engine.mode.Calm?
      ensures r.Ok? ==> if r.value then !engine.gate.ready && !engine.gate.latch else unchanged(engine.gate)
      ensures r.Ok? ==> forall id ::
                  id in looked <==> id in old(engine.ledger.rows)
                                    && old(engine.ledger.rows)[id].state in {Protected, PartiallyProtected}
      ensures r.Ok? ==> forall id :: id !in looked ==> SameRow(old(engine.ledger.rows), engine.ledger.rows, id)
      ensures r.Ok? ==> forall id :: id in looked ==>
                                       (looked[id].Illegible? <==> old(engine.ledger.rows)[id].payload.Unreadable?)
      ensures r.Ok? ==>
                (r.value <==> exists id :: id in looked && Violates(old(engine.ledger.rows)[id], looked[id]))
      ensures r.Ok? && engine.auth ==>
                forall id :: id in looked ==>
                  AccountedFor(old(engine.ledger.rows), engine.Here(), engine.now, looked[id], old(engine.now), id)
      ensures r.Ok? && !r.value ==> forall id :: SameState(old(engine.ledger.rows), engine.ledger.rows, id)
      ensures engine.mode.Calm? && old(engine.auth) ==>
                && r.Ok?
                && forall id :: id in looked ==>
                     FoundCalmly(engine.exchange.books, old(engine.ledger.rows)[id], looked[id])
      ensures engine.mode.Calm? && old(engine.auth) && !engine.Refuses(ProtectionRead) ==>
                && r == Ok(!AllStand(engine.exchange.books, old(engine.ledger.rows), {}))
                && forall id :: Judged(old(engine.ledger.rows), engine.Here(), id)
      ensures r.Ok? ==> measured.Some? && old(engine.now) <= measured.value.at && Tracks() && Covering()
    {
      hide ExecutionEngine.Valid, ExecutionEngine.SoundNow, ExecutionEngine.Healthy, BootGate.Valid, SoFar;
      hide AccountedFor, Judged, AllStand, Safe, Reached, FoundCalmly, Violates;
      var left: set<Name> := set id | id in engine.ledger.rows && ClaimsProtection(engine.ledger.rows[id].state);
      ghost var first, start := engine.ledger.rows, engine.now;
      var violated := false;
      looked := map[];
      SoFarAtFirst(first, start, Now(left, looked, true));
      while left != {}
        invariant engine.Valid() && engine.gate.Valid() && engine.now >= start
        invariant engine.Ebbs(old(engine.auth), engine.auth)
        invariant SoFar(first, start, Now(left, looked, !violated))
        invariant engine.StaysSound(false)
        invariant if violated then !engine.gate.ready && !engine.gate.latch else unchanged(engine.gate)
        decreases left
      {
        ghost var some := Member(left);
        var id: Name :| id in left;
        var bad: Result<bool>;
        bad, looked := CheckNext(id, first, start, Now(left, looked, !violated));
        if bad.Err? {
          return Err(Crash), looked;
        }
        violated := violated || bad.value;
        left := left - {id};
      }
      AtEnd(first, start, Now({}, looked, !violated));
      if engine.auth && engine.mode.Calm? && !engine.Refuses(ProtectionRead) {
        CalmlyJudged(first, start, Now({}, looked, !violated));
      }
      Measure();
      r := Ok(violated);
    }

    lemma AtEnd(first: Rows, since: int, p: Progress)
      requires SoFar(first, since, p) && p.left == {}
      ensures forall id :: id in p.looked <==> id in first && first[id].state in {Protected, PartiallyProtected}
      ensures forall id :: id !in p.looked ==> SameRow(first, p.at.rows, id)
      ensures forall id :: id in p.looked ==> (p.looked[id].Illegible? <==> first[id].payload.Unreadable?)
      ensures p.clean <==> forall id :: id in p.looked ==> !Violates(first[id], p.looked[id])
      ensures p.held ==> forall id :: id in p.looked ==> AccountedFor(first, p.at, p.now, p.looked[id], since, id)
      ensures p.clean ==> forall id :: SameState(first, p.at.rows, id)
      ensures p.held && engine.mode.Calm? ==>
                forall id :: id in p.looked ==> FoundCalmly(p.at.books, first[id], p.looked[id])
    {
    }

    /** The age of the stalest claim, read off the ledger. */
    method Measure()
      modifies this`measured
      ensures measured.Some? && measured.value.at == engine.now && Safe(measured.value, engine.ledger.rows)
      ensures Tight(measured.value, engine.ledger.rows) && Tracks() && Covering()
    {
      var oldest := Finite(0);
      var left: set<Name> := engine.ledger.rows.Keys;
      while left != {}
        invariant left <= engine.ledger.rows.Keys
        invariant forall id :: ClaimsAt(engine.ledger.rows, id) && id !in left ==>
                                 AtMost(AgeOf(engine.ledger.rows[id], engine.now), oldest)
        invariant
          || oldest == Finite(0)
          || exists id :: ClaimsAt(engine.ledger.rows, id) && oldest == AgeOf(engine.ledger.rows[id], engine.now)
        decreases left
      {
        ghost var some := Member(left);
        var id: Name :| id in left;
        var row := engine.ledger.rows[id];
        if ClaimsProtection(row.state) && !AtMost(AgeOf(row, engine.now), oldest) {
          oldest := AgeOf(row, engine.now);
          assert ClaimsAt(engine.ledger.rows, id);
        }
        left := left - {id};
      }
      measured := Some(Reading(oldest, engine.now));
      SafeReaches(measured.value, engine.ledger.rows);
    }
  }
}
