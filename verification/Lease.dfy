/** The single-writer lease: one durable row, one epoch that only grows. */
module Lease {
  import opened Domain

  /** Releasing keeps the row as a tombstone, under a holder name nobody can have. */
  datatype Holder = Live(name: Name) | Released(name: Name)

  datatype LeaseRow = LeaseRow(holder: Holder, expiresAt: int, epoch: nat)

  /** A call on the lease, with the clock reading it made. */
  datatype Call =
    | Acquire(name: Name, ttl: int, now: int)
    | Renew(name: Name, epoch: nat, ttl: int, now: int)
    | Release(name: Name, epoch: nat, now: int)

  function EpochOf(row: Option<LeaseRow>): nat {
    if row.Some? then row.value.epoch else 0
  }

  predicate Owned(row: Option<LeaseRow>, name: Name, epoch: nat) {
    row.Some? && row.value.holder == Live(name) && row.value.epoch == epoch
  }

  predicate Passes(row: Option<LeaseRow>, name: Name, epoch: nat, now: int) {
    Owned(row, name, epoch) && row.value.expiresAt > now
  }

  predicate Granted(row: Option<LeaseRow>, c: Call) {
    c.Acquire? && (row.None? || row.value.expiresAt <= c.now)
  }

  function Apply(row: Option<LeaseRow>, c: Call): Option<LeaseRow> {
    match c
    case Acquire(name, ttl, now) =>
      if Granted(row, c) then Some(LeaseRow(Live(name), now + ttl, EpochOf(row) + 1)) else row
    case Renew(name, epoch, ttl, now) =>
      if Owned(row, name, epoch) then Some(row.value.(expiresAt := now + ttl)) else row
    case Release(name, epoch, now) =>
      if Owned(row, name, epoch) then Some(LeaseRow(Released(name), now - SECOND, epoch)) else row
  }

  function Run(row: Option<LeaseRow>, calls: seq<Call>): Option<LeaseRow>
    decreases |calls|
  {
    if calls == [] then row else Run(Apply(row, calls[0]), calls[1..])
  }

  /** Some call of the run was granted the lease. */
  predicate ChangesHands(row: Option<LeaseRow>, calls: seq<Call>)
    decreases |calls|
  {
    calls != [] && (Granted(row, calls[0]) || ChangesHands(Apply(row, calls[0]), calls[1..]))
  }

  // --- Over any run of calls, on any clock ---

  /** The epoch never falls, and moves exactly when the lease changes hands. */
  lemma {:induction false} EpochNeverFalls(row: Option<LeaseRow>, calls: seq<Call>)
    ensures EpochOf(Run(row, calls)) >= EpochOf(row)
    ensures EpochOf(Run(row, calls)) > EpochOf(row) <==> ChangesHands(row, calls)
    decreases |calls|
  {
    if calls != [] {
      EpochNeverFalls(Apply(row, calls[0]), calls[1..]);
    }
  }

  /** Once an epoch has been issued no smaller one passes the check again. */
  lemma StaleNeverPasses(row: Option<LeaseRow>, calls: seq<Call>, name: Name, epoch: nat, now: int)
    requires epoch < EpochOf(row)
    ensures !Passes(Run(row, calls), name, epoch, now)
  {
    EpochNeverFalls(row, calls);
  }

  /** A pair that is not the owner's, of an epoch already issued, never becomes the owner's. */
  lemma {:induction false} LostForGood(row: Option<LeaseRow>, calls: seq<Call>, name: Name, epoch: nat)
    requires epoch <= EpochOf(row) && !Owned(row, name, epoch)
    ensures !Owned(Run(row, calls), name, epoch)
    decreases |calls|
  {
    if calls != [] {
      LostForGood(Apply(row, calls[0]), calls[1..], name, epoch);
    }
  }

  /** A released pair never passes again, whoever calls what afterwards. */
  lemma ReleasedNeverPasses(row: Option<LeaseRow>, name: Name, epoch: nat, at: int, calls: seq<Call>, now: int)
    requires epoch <= EpochOf(row)
    ensures !Passes(Run(Apply(row, Release(name, epoch, at)), calls), name, epoch, now)
  {
    LostForGood(Apply(row, Release(name, epoch, at)), calls, name, epoch);
  }

  /** Two checks that both pass enclose no change of hands. */
  lemma Sandwich(row: Option<LeaseRow>, calls: seq<Call>, name: Name, epoch: nat, first: int, second: int)
    requires Passes(row, name, epoch, first) && Passes(Run(row, calls), name, epoch, second)
    ensures !ChangesHands(row, calls)
  {
    EpochNeverFalls(row, calls);
  }

  /** Until the lease changes hands again, the one pair that can pass is the last one granted. */
  lemma {:induction false} OnlyTheHolderPasses(row: Option<LeaseRow>, calls: seq<Call>, name: Name, epoch: nat,
      other: Name, e: nat, now: int)
    requires Owned(row, name, epoch) && !ChangesHands(row, calls) && Passes(Run(row, calls), other, e, now)
    ensures other == name && e == epoch
    decreases |calls|
  {
    if calls != [] {
      var row' := Apply(row, calls[0]);
      if !Owned(row', name, epoch) {
        NobodyPasses(row', calls[1..], other, e, now);
      } else {
        OnlyTheHolderPasses(row', calls[1..], name, epoch, other, e, now);
      }
    }
  }

  /** No call is made at or after the expiry, which only the owner's renewals move, and the owner does not release. */
  predicate InTime(name: Name, epoch: nat, expiry: int, calls: seq<Call>)
    decreases |calls|
  {
    calls != [] ==>
      && calls[0].now < expiry && !(calls[0].Release? && calls[0].name == name && calls[0].epoch == epoch)
      && InTime(name, epoch,
                if calls[0].Renew? && calls[0].name == name && calls[0].epoch == epoch
                then calls[0].now + calls[0].ttl else expiry,
                calls[1..])
  }

  /** Mutual exclusion: a lease that is live at every call stays its owner's, and every attempt to acquire it leaves
      the row as it was. */
  lemma {:induction false} LiveLeaseIsExclusive(row: Option<LeaseRow>, calls: seq<Call>, name: Name, epoch: nat)
    requires row.Some? && row.value.holder == Live(name) && row.value.epoch == epoch
    requires InTime(name, epoch, row.value.expiresAt, calls)
    ensures Run(row, calls).Some?
    ensures Run(row, calls).value.holder == Live(name) && Run(row, calls).value.epoch == epoch
    ensures forall k :: 0 <= k < |calls| && calls[k].Acquire? ==> Run(row, calls[..k + 1]) == Run(row, calls[..k])
    ensures !ChangesHands(row, calls)
    decreases |calls|
  {
    if calls != [] {
      var row' := Apply(row, calls[0]);
      LiveLeaseIsExclusive(row', calls[1..], name, epoch);
      forall k | 0 <= k < |calls| && calls[k].Acquire? ensures Run(row, calls[..k + 1]) == Run(row, calls[..k]) {
        assert calls[..k + 1][1..] == calls[1..][..k];
        if k > 0 {
          assert calls[..k][1..] == calls[1..][..k - 1];
          assert calls[k] == calls[1..][k - 1];
        }
      }
    }
  }

  lemma {:induction false} NobodyPasses(row: Option<LeaseRow>, calls: seq<Call>, other: Name, e: nat, now: int)
    requires row.Some? && row.value.holder.Released? && !ChangesHands(row, calls)
    ensures !Passes(Run(row, calls), other, e, now)
    decreases |calls|
  {
    if calls != [] {
      NobodyPasses(Apply(row, calls[0]), calls[1..], other, e, now);
    }
  }

  lemma {:induction false} RunAppend(row: Option<LeaseRow>, a: seq<Call>, b: seq<Call>)
    ensures Run(row, a + b) == Run(Run(row, a), b)
    decreases |a|
  {
    if a == [] {
      assert a + b == b;
    } else {
      assert (a + b)[0] == a[0] && (a + b)[1..] == a[1..] + b;
      RunAppend(Apply(row, a[0]), a[1..], b);
    }
  }

  class SingleWriterLease {
    var row: Option<LeaseRow>

    constructor ()
      ensures row == None
    {
      row := None;
    }

    method AcquireLease(name: Name, ttl: int, now: int) returns (epoch: Option<nat>)
      modifies this
      ensures old(row).Some? && old(row).value.expiresAt > now ==> epoch.None? && row == old(row)
      ensures old(row).None? || old(row).value.expiresAt <= now ==>
                && epoch == Some(if old(row).Some? then old(row).value.epoch + 1 else 1)
                && row == Some(LeaseRow(Live(name), now + ttl, epoch.value))
      ensures row == Apply(old(row), Acquire(name, ttl, now))
    {
      var next := 1;
      if row.Some? {
        if row.value.expiresAt > now {
          return None;
        }
        next := row.value.epoch + 1;
      }
      row := Some(LeaseRow(Live(name), now + ttl, next));
      epoch := Some(next);
    }

    /** A lapsed lease that nobody claimed is renewed in place. */
    method RenewLease(name: Name, epoch: nat, ttl: int, now: int) returns (ok: bool)
      modifies this
      ensures ok <==> old(row).Some? && old(row).value.holder == Live(name) && old(row).value.epoch == epoch
      ensures row == if ok then Some(LeaseRow(Live(name), now + ttl, epoch)) else old(row)
      ensures row == Apply(old(row), Renew(name, epoch, ttl, now))
    {
      if row.None? || row.value.holder != Live(name) || row.value.epoch != epoch {
        return false;
      }
      row := Some(row.value.(expiresAt := now + ttl));
      ok := true;
    }

    method ReleaseLease(name: Name, epoch: nat, now: int)
      modifies this
      ensures row == if old(row).Some? && old(row).value.holder == Live(name) && old(row).value.epoch == epoch
                     then Some(LeaseRow(Released(name), now - SECOND, epoch)) else old(row)
      ensures row == Apply(old(row), Release(name, epoch, now))
    {
      if row.Some? && row.value.holder == Live(name) && row.value.epoch == epoch {
        row := Some(LeaseRow(Released(name), now - SECOND, epoch));
      }
    }

    method AssertEpoch(name: Name, epoch: nat, now: int) returns (ok: bool)
      ensures ok <==>
                row.Some? && row.value.holder == Live(name) && row.value.epoch == epoch && now < row.value.expiresAt
      ensures ok == Passes(row, name, epoch, now)
    {
      if row.None? {
        return false;
      }
      ok := row.value.holder == Live(name) && row.value.epoch == epoch && row.value.expiresAt > now;
    }

    /** What other holders do while one waits. */
    method Others(calls: seq<Call>)
      modifies this
      ensures row == Run(old(row), calls)
    {
      for k := 0 to |calls|
        invariant Run(row, calls[k..]) == Run(old(row), calls)
      {
        match calls[k] {
          case Acquire(name, ttl, now) => var _ := AcquireLease(name, ttl, now);
          case Renew(name, epoch, ttl, now) => var _ := RenewLease(name, epoch, ttl, now);
          case Release(name, epoch, now) => ReleaseLease(name, epoch, now);
        }
        assert calls[k..][1..] == calls[k + 1..];
      }
    }
  }

  /** How a fenced call ended: refused before the effect, lost after it, or done. */
  datatype Fenced = RefusedBefore | LostAfter | Done

  class FencedExchangeFacade {
    const lease: SingleWriterLease
    const name: Name
    const epoch: nat
    var effects: nat

    constructor (lease: SingleWriterLease, name: Name, epoch: nat)
      ensures this.lease == lease && this.name == name && this.epoch == epoch && effects == 0
    {
      this.lease, this.name, this.epoch, effects := lease, name, epoch, 0;
    }

    /** Check, pace, effect, check.  `waiting` and `during` are what others do to the lease meanwhile. */
    method Fence(waiting: seq<Call>, during: seq<Call>, paced: bool, first: int, second: int) returns (r: Fenced)
      modifies this`effects, lease
      ensures lease.row == Run(old(lease.row), if r == RefusedBefore
                && !Passes(old(lease.row), name, epoch, first) then []
                                               else if r == RefusedBefore then waiting else waiting + during)
      ensures effects == old(effects) + if r == RefusedBefore then 0 else 1
      ensures r == RefusedBefore <==> !paced || !Passes(old(lease.row), name, epoch, first)
      ensures r == Done ==> !ChangesHands(old(lease.row), waiting + during) && Owned(lease.row, name, epoch)
      ensures r == LostAfter <==> r != RefusedBefore && !Passes(lease.row, name, epoch, second)
    {
      var ok := lease.AssertEpoch(name, epoch, first);
      if !ok {
        return RefusedBefore;
      }
      lease.Others(waiting);
      if !paced {
        return RefusedBefore;
      }
      effects := effects + 1;
      lease.Others(during);
      RunAppend(old(lease.row), waiting, during);
      ok := lease.AssertEpoch(name, epoch, second);
      if !ok {
        return LostAfter;
      }
      Sandwich(old(lease.row), waiting + during, name, epoch, first, second);
      r := Done;
    }
  }
}
