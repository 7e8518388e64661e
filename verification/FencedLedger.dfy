/** Several engines, one lease, one ledger: what their interleaved writes leave in the log. */
module FencedLedger {
  import opened Domain
  import opened Ledger
  import opened Lease

  /** The epoch behind the last entry of an intent. */
  function LastEpoch(log: seq<Logged>, id: Name): nat {
    if log == [] then 0
    else
      var last := log[|log| - 1];
      if last.id == id then last.epoch else LastEpoch(log[..|log| - 1], id)
  }

  predicate RisesAt(log: seq<Logged>, k: nat)
    requires k < |log|
  {
    LastEpoch(log[..k], log[k].id) <= log[k].epoch
  }

  /** Along the log of an intent the epochs never fall. */
  ghost predicate EpochsRise(log: seq<Logged>) {
    forall k :: 0 <= k < |log| ==> RisesAt(log, k)
  }

  lemma {:induction false} LastEpochIsLast(log: seq<Logged>, j: nat)
    requires j < |log| && EpochsRise(log)
    ensures log[j].epoch <= LastEpoch(log, log[j].id)
  {
    var n := |log| - 1;
    if j < n {
      assert RisesAt(log, n);
      Prefix(log, n);
      LastEpochIsLast(log[..n], j);
    }
  }

  lemma Prefix(log: seq<Logged>, n: nat)
    requires n <= |log| && EpochsRise(log)
    ensures EpochsRise(log[..n])
  {
    forall k | 0 <= k < n ensures RisesAt(log[..n], k) {
      assert RisesAt(log, k);
      assert log[..n][..k] == log[..k];
    }
  }

  /** The same, for any two entries of one intent. */
  lemma EpochsInOrder(log: seq<Logged>, j: nat, k: nat)
    requires EpochsRise(log) && j < k < |log| && log[j].id == log[k].id
    ensures log[j].epoch <= log[k].epoch
  {
    assert RisesAt(log, k);
    Prefix(log, k);
    LastEpochIsLast(log[..k], j);
  }

  lemma AppendRises(log: seq<Logged>, e: Logged, id: Name)
    requires EpochsRise(log) && LastEpoch(log, e.id) <= e.epoch
    ensures EpochsRise(log + [e])
    ensures LastEpoch(log + [e], id) == if e.id == id then e.epoch else LastEpoch(log, id)
  {
    var log' := log + [e];
    assert log'[..|log|] == log;
    forall k | 0 <= k < |log'| ensures RisesAt(log', k) {
      if k < |log| {
        assert RisesAt(log, k);
        assert log'[..k] == log[..k];
      }
    }
  }

  /** The row's own epoch has not been written below its log. */
  predicate NotRewound(rows: Rows, log: seq<Logged>, id: Name) {
    LastEpoch(log, id) <= if id in rows then rows[id].epoch else 0
  }

  ghost predicate NoneRewound(rows: Rows, log: seq<Logged>) {
    EpochsRise(log) && forall id :: NotRewound(rows, log, id)
  }

  predicate UsedUpTo(log: seq<Logged>, id: Name, epoch: nat) {
    LastEpoch(log, id) <= epoch
  }

  /** A state change under this epoch that gets past the check of the row, and is logged. */
  predicate GetsIn(rows: Rows, id: Name, next: TradeState, epoch: nat) {
    id in rows && rows[id].epoch <= epoch && rows[id].state != next
  }

  /** It breaks the order exactly when the log of the intent has already seen a later epoch. */
  lemma WriteBreaksOrderIff(log: seq<Logged>, e: Logged)
    requires EpochsRise(log)
    ensures EpochsRise(log + [e]) <==> LastEpoch(log, e.id) <= e.epoch
  {
    var log' := log + [e];
    assert log'[..|log|] == log;
    if LastEpoch(log, e.id) <= e.epoch {
      AppendRises(log, e, e.id);
    } else {
      assert !RisesAt(log', |log|);
    }
  }

  /** Some state change under an epoch that was issued gets past the check and breaks the order. */
  ghost predicate OrderIsAtRisk(rows: Rows, log: seq<Logged>, id: Name, issued: nat) {
    exists next: TradeState, epoch: nat ::
      epoch <= issued && GetsIn(rows, id, next, epoch) && !EpochsRise(log + [Logged(id, rows[id].state, next, epoch)])
  }

  /** A mark does not look at the row's epoch.  It lets a state change in that breaks the order exactly when it
      comes from an epoch older than the intent's last entry. */
  lemma MarkKeepsOrderIff(rows: Rows, log: seq<Logged>, id: Name, epoch: nat, issued: nat)
    requires EpochsRise(log) && id in rows && epoch <= issued
    ensures OrderIsAtRisk(rows[id := rows[id].(epoch := epoch)], log, id, issued) <==> epoch < LastEpoch(log, id)
  {
    var rows' := rows[id := rows[id].(epoch := epoch)];
    forall next: TradeState, e: nat | GetsIn(rows', id, next, e)
      ensures EpochsRise(log + [Logged(id, rows'[id].state, next, e)]) <==> LastEpoch(log, id) <= e
    {
      WriteBreaksOrderIff(log, Logged(id, rows'[id].state, next, e));
    }
    var other := if rows[id].state == Halted then Unknown else Halted;
    assert GetsIn(rows', id, other, epoch);
  }

  /** The two writes themselves: a mark under one epoch, then a change of state under another. */
  method MarkThenWrite(ledger: TradeLedger, id: Name, marked: nat, epoch: nat, next: TradeState) returns (r: Result<()>)
    requires ledger.Valid() && EpochsRise(ledger.log) && id in ledger.rows && ledger.rows[id].state != next
    modifies ledger
    ensures ledger.Valid()
    ensures r.Ok? <==> marked <= epoch
    ensures EpochsRise(ledger.log) <==> r.Err? || LastEpoch(old(ledger.log), id) <= epoch
  {
    var _ := ledger.MarkError(id, Authority(true, marked));
    r := ledger.SetState(id, next, Authority(true, epoch), None);
    WriteBreaksOrderIff(old(ledger.log), Logged(id, old(ledger.rows)[id].state, next, epoch));
  }

  /** A state change looks at the row's epoch, and so always keeps the order. */
  lemma StateChangeKeepsOrder(rows: Rows, log: seq<Logged>, id: Name, row: Row, from: TradeState)
    requires NoneRewound(rows, log) && id in rows && rows[id].epoch <= row.epoch
    ensures NoneRewound(rows[id := row], log + [Logged(id, from, row.state, row.epoch)])
  {
    var e := Logged(id, from, row.state, row.epoch);
    var rows', log' := rows[id := row], log + [e];
    assert NotRewound(rows, log, id);
    forall k ensures NotRewound(rows', log', k) {
      AppendRises(log, e, k);
      assert NotRewound(rows, log, k);
    }
    AppendRises(log, e, id);
  }

  /** One write of some engine. */
  datatype Write =
    | Ensure(intent: TradeIntent)
    | SetState(id: Name, next: TradeState, expectedOld: Option<TradeState>)
    | Dispatch(id: Name)
    | MarkError(id: Name)
    | MarkVerified(id: Name, qty: real)
    | Clear(id: Name)
  {
    predicate Marks() {
      MarkError? || MarkVerified? || Clear?
    }
  }

  /** The row is past the only states from which it can still come to be dispatched. */
  predicate PastDispatch(rows: Rows, id: Name) {
    id in rows && rows[id].state !in {Created, RiskApproved}
  }

  predicate Marked(rows: Rows, id: Name) {
    id in rows && rows[id].prepared
  }

  /** The write takes this row back to where a dispatch is still to come. */
  predicate Rearms(rows: Rows, w: Write, epoch: nat, id: Name) {
    && w.SetState? && w.id == id && w.next in {Created, RiskApproved}
    && GetsIn(rows, id, w.next, epoch) && w.expectedOld in {None, Some(rows[id].state)}
  }

  /** One write, made under an epoch that some validator accepted, now or earlier.  A dispatch goes through only for
      a row that is not past it; it leaves the row marked and past it; and only a write that rearms the row undoes
      that. */
  method WriteOnce(ledger: TradeLedger, w: Write, epoch: nat) returns (dispatched: bool)
    requires ledger.Valid()
    modifies ledger
    ensures ledger.Valid()
    ensures dispatched <==>
              && w.Dispatch? && w.id in old(ledger.rows) && old(ledger.rows)[w.id].state == RiskApproved
              && old(ledger.rows)[w.id].epoch <= epoch
    ensures dispatched ==> PastDispatch(ledger.rows, w.id)
    ensures forall k :: Marked(ledger.rows, k) <==> Marked(old(ledger.rows), k) || (dispatched && k == w.id)
    ensures forall k ::
              PastDispatch(old(ledger.rows), k) ==>
                (PastDispatch(ledger.rows, k) <==> !Rearms(old(ledger.rows), w, epoch, k))
    ensures old(NoneRewound(ledger.rows, ledger.log)) && (w.Marks() ==> UsedUpTo(old(ledger.log), w.id, epoch)) ==>
              NoneRewound(ledger.rows, ledger.log)
    ensures forall k, e: nat :: epoch <= e && UsedUpTo(old(ledger.log), k, e) ==> UsedUpTo(ledger.log, k, e)
  {
    ghost var rows, log := ledger.rows, ledger.log;
    var a := Authority(true, epoch);
    dispatched := false;
    match w {
      case Ensure(i) =>
        var _ := ledger.Ensure(i, ClientId(OriginOf(i), Entry), a);
        SameLogKeepsOrder(rows, log, ledger.rows, i.id);
      case SetState(id, next, expectedOld) =>
        var _ := ledger.SetState(id, next, a, expectedOld);
        Logs(rows, log, ledger.rows, ledger.log, id, epoch);
      case Dispatch(id) =>
        var prepared := ledger.MarkDispatchPrepared(id, a);
        dispatched := prepared.Ok?;
        Logs(rows, log, ledger.rows, ledger.log, id, epoch);
      case MarkError(id) =>
        var _ := ledger.MarkError(id, a);
        SameLogKeepsOrder(rows, log, ledger.rows, id);
      case MarkVerified(id, qty) =>
        var _ := ledger.MarkProtectionVerified(id, qty, qty, 0, a);
        SameLogKeepsOrder(rows, log, ledger.rows, id);
      case Clear(id) =>
        var _ := ledger.ClearProtectionVerification(id, a);
        SameLogKeepsOrder(rows, log, ledger.rows, id);
    }
  }

  lemma SameLogKeepsOrder(rows: Rows, log: seq<Logged>, rows': Rows, id: Name)
    requires rows' == rows || (id in rows' && rows' == rows[id := rows'[id]])
    ensures NoneRewound(rows, log) && (id in rows && rows' != rows ==> UsedUpTo(log, id, rows'[id].epoch)) ==>
              NoneRewound(rows', log)
  {
    if NoneRewound(rows, log) && (id in rows && rows' != rows ==> UsedUpTo(log, id, rows'[id].epoch)) {
      forall k ensures NotRewound(rows', log, k) {
        assert NotRewound(rows, log, k);
      }
    }
  }

  lemma Logs(rows: Rows, log: seq<Logged>, rows': Rows, log': seq<Logged>, id: Name, epoch: nat)
    requires (rows' == rows && log' == log)
             || (id in rows && id in rows' && rows' == rows[id := rows'[id]] && rows'[id].epoch == epoch
               && rows[id].epoch <= epoch
                 && log' == log + [Logged(id, rows[id].state, rows'[id].state, epoch)])
    ensures NoneRewound(rows, log) ==> NoneRewound(rows', log')
    ensures forall k, e: nat :: epoch <= e && UsedUpTo(log, k, e) ==> UsedUpTo(log', k, e)
  {
    if log' != log {
      if NoneRewound(rows, log) {
        StateChangeKeepsOrder(rows, log, id, rows'[id], rows[id].state);
      }
      assert log'[..|log|] == log;
    }
  }

  /** How the engines write: nothing is put back to Created, and a row is approved only from Created. */
  predicate GoesForward(w: Write) {
    w.SetState? ==> w.next != Created && (w.next == RiskApproved ==> w.expectedOld == Some(Created))
  }

  /** Any interleaving of lease calls and ledger writes by any engines.  A write is made under an epoch that
      passed the lease, at the time of the write or, when checks and writes are separate, at some earlier
      time.  The log always tells the truth; its epochs never fall as long as every mark is current, which
      it is when it is checked and written as one step.  Whichever engines race for it, no intent is dispatched
      twice as long as no row is rearmed once it is past its dispatch, and none is when every engine writes
      forward only. */
  method AnyInterleaving(steps: nat, marksAreAtomic: bool, forwardOnly: bool)
    returns (ledger: TradeLedger, lease: SingleWriterLease, ghost rewound: bool, ghost rearmed: bool,
             ghost dispatched: multiset<Name>)
    ensures Faithful(ledger.rows, ledger.log)
    ensures !rewound ==> EpochsRise(ledger.log)
    ensures marksAreAtomic ==> !rewound
    ensures forall id :: UsedUpTo(ledger.log, id, EpochOf(lease.row))
    ensures forall id :: id in dispatched <==> Marked(ledger.rows, id)
    ensures !rearmed ==> forall id :: dispatched[id] <= 1
    ensures forwardOnly ==> !rearmed
  {
    ledger := new TradeLedger();
    lease := new SingleWriterLease();
    rewound, rearmed, dispatched := false, false, multiset{};
    for k := 0 to steps
      invariant fresh(ledger) && fresh(lease) && ledger.Valid()
      invariant !rewound ==> NoneRewound(ledger.rows, ledger.log)
      invariant marksAreAtomic ==> !rewound
      invariant forall id :: id in dispatched <==> Marked(ledger.rows, id)
      invariant !rearmed ==> forall id :: dispatched[id] <= 1
      invariant !rearmed ==> forall id :: id in dispatched ==> PastDispatch(ledger.rows, id)
      invariant forwardOnly ==> !rearmed
      invariant forall id :: UsedUpTo(ledger.log, id, EpochOf(lease.row))
    {
      var calls: seq<Call> := *;
      ghost var before := lease.row;
      lease.Others(calls);
      EpochNeverFalls(before, calls);
      assert forall id :: UsedUpTo(ledger.log, id, EpochOf(before)) ==> UsedUpTo(ledger.log, id, EpochOf(lease.row));
      var w: Write, name: Name, epoch: int, now: int := *, *, *, *;
      if 0 <= epoch <= EpochOf(lease.row) {
        var current := lease.AssertEpoch(name, epoch, now);
        if (current || !(w.Marks() && marksAreAtomic)) && (GoesForward(w) || !forwardOnly) {
          rewound := rewound || (w.Marks() && !UsedUpTo(ledger.log, w.id, epoch));
          rearmed := rearmed || (w.SetState? && PastDispatch(ledger.rows, w.id)
              && Rearms(ledger.rows, w, epoch, w.id));
          ghost var log := ledger.log;
          var sent := WriteOnce(ledger, w, epoch);
          dispatched := dispatched + if sent then multiset{w.id} else multiset{};
          forall id ensures UsedUpTo(ledger.log, id, EpochOf(lease.row)) {
            assert UsedUpTo(log, id, EpochOf(lease.row));
          }
        }
      }
    }
  }
}
