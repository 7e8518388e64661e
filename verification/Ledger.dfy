/** The durable write-ahead ledger: one row per intent and a log of every transition. */
module Ledger {
  import opened Domain

  datatype Payload = Readable(intent: TradeIntent) | Unreadable

  datatype Row = Row(
    payload: Payload, state: TradeState, entryId: ClientId, epoch: nat, prepared: bool,
    expectedQty: Option<real>, actualQty: Option<real>, verifiedAt: Option<int>)

  datatype Logged = Logged(id: Name, from: TradeState, to: TradeState, epoch: nat)

  type Rows = map<Name, Row>

  /** What the validator of the caller answers, and the epoch the caller writes under. */
  datatype Authority = Authority(valid: bool, epoch: nat)

  // --- The transition log ---

  /** The state a reader of the log alone would give an intent. */
  function Replay(log: seq<Logged>, id: Name): TradeState {
    if log == [] then Created
    else
      var last := log[|log| - 1];
      if last.id == id then last.to else Replay(log[..|log| - 1], id)
  }

  predicate LinkedAt(log: seq<Logged>, k: nat)
    requires k < |log|
  {
    log[k].from == Replay(log[..k], log[k].id) && log[k].from != log[k].to
  }

  /** Every entry leaves the state the previous entry of its intent arrived at, starting from Created. */
  ghost predicate Chained(log: seq<Logged>) {
    forall k :: 0 <= k < |log| ==> LinkedAt(log, k)
  }

  predicate Replayed(rows: Rows, log: seq<Logged>, id: Name) {
    Replay(log, id) == if id in rows then rows[id].state else Created
  }

  /** The log tells the same story as the rows. */
  ghost predicate Faithful(rows: Rows, log: seq<Logged>) {
    Chained(log) && forall id :: Replayed(rows, log, id)
  }

  predicate ClaimsAt(rows: Rows, id: Name) {
    id in rows && ClaimsProtection(rows[id].state)
  }

  /** A readable payload is filed under its own id. */
  predicate FiledAt(rows: Rows, id: Name) {
    id in rows && rows[id].payload.Readable? ==> rows[id].payload.intent.id == id
  }

  ghost predicate Filed(rows: Rows) {
    forall id :: FiledAt(rows, id)
  }

  lemma FiledAfter(rows: Rows, id: Name, row: Row)
    requires Filed(rows)
    requires (id in rows && row.payload == rows[id].payload) || (row.payload.Readable? ==> row.payload.intent.id == id)
    ensures Filed(rows[id := row])
  {
    var rows' := rows[id := row];
    assert FiledAt(rows, id);
    forall k ensures FiledAt(rows', k) {
      assert FiledAt(rows, k);
    }
  }

  lemma ReplayAppend(log: seq<Logged>, e: Logged, id: Name)
    ensures Replay(log + [e], id) == if e.id == id then e.to else Replay(log, id)
  {
    assert (log + [e])[..|log|] == log;
  }

  lemma FaithfulAppend(rows: Rows, log: seq<Logged>, id: Name, row: Row, epoch: nat)
    requires Faithful(rows, log) && id in rows && rows[id].state != row.state
    ensures Faithful(rows[id := row], log + [Logged(id, rows[id].state, row.state, epoch)])
  {
    assert Replayed(rows, log, id);
    var e := Logged(id, rows[id].state, row.state, epoch);
    var log' := log + [e];
    forall k | 0 <= k < |log'|
      ensures LinkedAt(log', k)
    {
      assert log'[..k] == log[..k];
      if k == |log| { assert log[..k] == log; } else { assert LinkedAt(log, k); }
    }
    var rows' := rows[id := row];
    forall j ensures Replayed(rows', log', j) {
      assert Replayed(rows, log, j);
      ReplayAppend(log, e, j);
    }
  }

  lemma FaithfulSameState(rows: Rows, log: seq<Logged>, id: Name, row: Row)
    requires Faithful(rows, log) && row.state == if id in rows then rows[id].state else Created
    ensures Faithful(rows[id := row], log)
  {
    var rows' := rows[id := row];
    forall j ensures Replayed(rows', log, j) {
      assert Replayed(rows, log, j);
    }
  }

  class TradeLedger {
    var rows: Rows
    var log: seq<Logged>

    ghost predicate Valid()
      reads this
    {
      Faithful(rows, log) && Filed(rows)
    }

    constructor ()
      ensures Valid() && rows == map[] && log == []
    {
      rows := map[];
      log := [];
    }

    /** Inserts a fresh row in Created; an existing row is left alone. */
    method Ensure(i: TradeIntent, entryId: ClientId, a: Authority) returns (r: Result<()>)
      requires Valid()
      modifies this
      ensures Valid() && log == old(log)
      ensures r == if a.valid then Ok(()) else Err(StaleEpoch)
      ensures rows == if a.valid && i.id !in old(rows)
                      then old(rows)[i.id := Row(Readable(i), Created, entryId, a.epoch, false, None, None, None)]
                      else old(rows)
    {
      if !a.valid {
        return Err(StaleEpoch);
      }
      if i.id !in rows {
        var row := Row(Readable(i), Created, entryId, a.epoch, false, None, None, None);
        FaithfulSameState(rows, log, i.id, row);
        FiledAfter(rows, i.id, row);
        rows := rows[i.id := row];
      }
      r := Ok(());
    }

    /** The one transaction behind every state change. */
    method SetState(id: Name, next: TradeState, a: Authority, expectedOld: Option<TradeState>) returns (r: Result<()>)
      requires Valid()
      modifies this
      ensures Valid()
      ensures !a.valid ==> r == Err(StaleEpoch)
      ensures a.valid ==> r in {Ok(()), Err(Refused)}
      ensures a.valid ==> (r.Ok? <==> id in old(rows) && old(rows)[id].epoch <= a.epoch
                                      && (expectedOld == None || expectedOld == Some(old(rows)[id].state)))
      ensures r.Ok? && old(rows)[id].state != next ==>
                && rows == old(rows)[id := old(rows)[id].(state := next, epoch := a.epoch)]
                && log == old(log) + [Logged(id, old(rows)[id].state, next, a.epoch)]
      ensures r.Err? || old(rows)[id].state == next ==> rows == old(rows) && log == old(log)
    {
      if !a.valid {
        return Err(StaleEpoch);
      }
      if id !in rows || rows[id].epoch > a.epoch {
        return Err(Refused);
      }
      if expectedOld.Some? && expectedOld.value != rows[id].state {
        return Err(Refused);
      }
      if rows[id].state != next {
        var row := rows[id].(state := next, epoch := a.epoch);
        FaithfulAppend(rows, log, id, row, a.epoch);
        FiledAfter(rows, id, row);
        log := log + [Logged(id, rows[id].state, next, a.epoch)];
        rows := rows[id := row];
      }
      r := Ok(());
    }

    /** The write-ahead mark: only from a durable RiskApproved row. */
    method MarkDispatchPrepared(id: Name, a: Authority) returns (r: Result<()>)
      requires Valid()
      modifies this
      ensures Valid()
      ensures !a.valid ==> r == Err(StaleEpoch)
      ensures a.valid ==> r in {Ok(()), Err(Refused)}
      ensures a.valid ==>
                (r.Ok? <==> id in old(rows) && old(rows)[id].state == RiskApproved && old(rows)[id].epoch <= a.epoch)
      ensures r.Ok? ==>
                && rows == old(rows)[id := old(rows)[id].(state := Submitted, prepared := true, epoch := a.epoch)]
                && log == old(log) + [Logged(id, RiskApproved, Submitted, a.epoch)]
      ensures r.Err? ==> rows == old(rows) && log == old(log)
    {
      if !a.valid {
        return Err(StaleEpoch);
      }
      if id !in rows || rows[id].state != RiskApproved || rows[id].epoch > a.epoch {
        return Err(Refused);
      }
      var row := rows[id].(state := Submitted, prepared := true, epoch := a.epoch);
      FaithfulAppend(rows, log, id, row, a.epoch);
      FiledAfter(rows, id, row);
      log := log + [Logged(id, RiskApproved, Submitted, a.epoch)];
      rows := rows[id := row];
      r := Ok(());
    }

    /** Unconditional update of the row's epoch, as the error note does. */
    method MarkError(id: Name, a: Authority) returns (r: Result<()>)
      requires Valid()
      modifies this
      ensures Valid() && log == old(log)
      ensures r == if a.valid then Ok(()) else Err(StaleEpoch)
      ensures rows == if a.valid && id in old(rows)
                      then old(rows)[id := old(rows)[id].(epoch := a.epoch)] else old(rows)
    {
      if !a.valid {
        return Err(StaleEpoch);
      }
      if id in rows {
        var row := rows[id].(epoch := a.epoch);
        FaithfulSameState(rows, log, id, row);
        FiledAfter(rows, id, row);
        rows := rows[id := row];
      }
      r := Ok(());
    }

    method MarkProtectionVerified(id: Name, expected: real, actual: real, now: int, a: Authority)
      returns (r: Result<()>)
      requires Valid()
      modifies this
      ensures Valid() && log == old(log)
      ensures r == if a.valid then Ok(()) else Err(StaleEpoch)
      ensures rows == if a.valid && id in old(rows)
                      then old(rows)[id := old(rows)[id].(expectedQty := Some(expected), actualQty := Some(actual),
                                                          verifiedAt := Some(now), epoch := a.epoch)]
                      else old(rows)
    {
      if !a.valid {
        return Err(StaleEpoch);
      }
      if id in rows {
        var row := rows[id].(expectedQty := Some(expected), actualQty := Some(actual),
                                     verifiedAt := Some(now), epoch := a.epoch);
        FaithfulSameState(rows, log, id, row);
        FiledAfter(rows, id, row);
        rows := rows[id := row];
      }
      r := Ok(());
    }

    method ClearProtectionVerification(id: Name, a: Authority) returns (r: Result<()>)
      requires Valid()
      modifies this
      ensures Valid() && log == old(log)
      ensures r == if a.valid then Ok(()) else Err(StaleEpoch)
      ensures rows == if a.valid && id in old(rows)
                      then old(rows)[id := old(rows)[id].(verifiedAt := None, epoch := a.epoch)] else old(rows)
    {
      if !a.valid {
        return Err(StaleEpoch);
      }
      if id in rows {
        var row := rows[id].(verifiedAt := None, epoch := a.epoch);
        FaithfulSameState(rows, log, id, row);
        FiledAfter(rows, id, row);
        rows := rows[id := row];
      }
      r := Ok(());
    }
  }

  /** Ids claimed once and for all. */
  class IdempotencyStore {
    var claimed: set<Name>

    constructor ()
      ensures claimed == {}
    {
      claimed := {};
    }

    method Claim(id: Name) returns (first: bool)
      modifies this
      ensures first <==> id !in old(claimed)
      ensures claimed == old(claimed) + {id}
    {
      first := id !in claimed;
      claimed := claimed + {id};
    }
  }
}
