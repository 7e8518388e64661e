/** The O(1) estimate of the oldest verification age, against the ledger it stands for. */
module Freshness {
  import opened Domain
  import opened Ledger
  import opened Protocol

  datatype Age = Finite(d: int) | Infinite

  /** An age, and the time from which it is extrapolated. */
  datatype Reading = Reading(age: Age, at: int)

  predicate AtMost(a: Age, b: Age) {
    b.Infinite? || (a.Finite? && a.d <= b.d)
  }

  function AgeOf(row: Row, now: int): Age {
    if row.verifiedAt.None? then Infinite
    else Finite(if now < row.verifiedAt.value then 0 else now - row.verifiedAt.value)
  }

  function Cached(r: Reading, now: int): Age {
    if r.age.Infinite? then Infinite else Finite(r.age.d + if now < r.at then 0 else now - r.at)
  }

  /** At `now`, no claim is older than the estimate. */
  ghost predicate Covers(r: Reading, rows: Rows, now: int) {
    forall id :: ClaimsAt(rows, id) ==> AtMost(AgeOf(rows[id], now), Cached(r, now))
  }

  predicate RowSafe(r: Reading, row: Row) {
    !ClaimsProtection(row.state) || r.age.Infinite? || (row.verifiedAt.Some? && r.at - r.age.d <= row.verifiedAt.value)
  }

  /** No claim was verified before the time the reading reaches back to. */
  ghost predicate Safe(r: Reading, rows: Rows) {
    (r.age.Finite? ==> r.age.d >= 0) && forall id :: ClaimsAt(rows, id) ==> RowSafe(r, rows[id])
  }

  /** The reading is not just a bound: some claim really is that old. */
  ghost predicate Tight(r: Reading, rows: Rows) {
    r.age == Finite(0) || exists id :: ClaimsAt(rows, id) && r.age == AgeOf(rows[id], r.at)
  }

  /** An estimate covers the ledger from now on exactly when it is safe. */
  lemma SafeMeansCovering(r: Reading, rows: Rows)
    requires r.age.Finite? ==> r.age.d >= 0
    ensures Safe(r, rows) <==> forall now: int :: r.at <= now ==> Covers(r, rows, now)
  {
    if forall now: int :: r.at <= now ==> Covers(r, rows, now) {
      assert Covers(r, rows, r.at);
    }
  }

  // --- Operations ---

  /** A claim without a stamp: no finite estimate covers it. */
  predicate Bare(rows: Rows, id: Name) {
    ClaimsAt(rows, id) && rows[id].verifiedAt.None?
  }

  predicate ReachesTo(r: Reading, rows: Rows, id: Name) {
    r.age.Finite? && ClaimsAt(rows, id) && rows[id].verifiedAt.Some? ==> r.at - r.age.d <= rows[id].verifiedAt.value
  }

  /** The reading reaches back to the stamp of every claim that has one.  Every operation keeps this. */
  ghost predicate Reached(r: Reading, rows: Rows) {
    (r.age.Finite? ==> r.age.d >= 0) && forall id :: ReachesTo(r, rows, id)
  }

  /** What is left of safety is that no claim is bare. */
  lemma SafeIffNoneBare(r: Reading, rows: Rows)
    requires Reached(r, rows)
    ensures Safe(r, rows) <==> r.age.Infinite? || forall id :: !Bare(rows, id)
  {
    forall id | ClaimsAt(rows, id) ensures RowSafe(r, rows[id]) <==> r.age.Infinite? || !Bare(rows, id) {
      assert ReachesTo(r, rows, id);
    }
  }

  lemma SafeReaches(r: Reading, rows: Rows)
    requires Safe(r, rows)
    ensures Reached(r, rows)
  {
  }

  /** An operation begun after the reading keeps it reaching, and bares no claim unless a withdrawal is cut. */
  lemma OperationReaches(r: Reading, rows: Rows, rows': Rows, id: Name, since: int)
    requires Reached(r, rows) && r.at <= since && OnlyRow(rows, rows', id)
    requires StampedSince(rows, rows', id, since) || StampCut(rows, rows', id)
    ensures Reached(r, rows')
  {
    forall k ensures ReachesTo(r, rows', k) {
      assert ReachesTo(r, rows, k);
      assert k != id ==> SameRow(rows, rows', k);
    }
  }

  /** No claim was left bare that was not bare before, or at most this one. */
  ghost predicate BaresAtMost(rows: Rows, rows': Rows, id: Name, may: bool) {
    forall k :: Bare(rows', k) ==> Bare(rows, k) || (may && k == id)
  }

  lemma OperationBares(rows: Rows, rows': Rows, id: Name, since: int)
    requires OnlyRow(rows, rows', id) && (StampedSince(rows, rows', id, since) || StampCut(rows, rows', id))
    ensures BaresAtMost(rows, rows', id, StampCut(rows, rows', id))
    ensures StampedSince(rows, rows', id, since) ==> BaresAtMost(rows, rows', id, false)
  {
    forall k | Bare(rows', k) && k != id ensures Bare(rows, k) {
      assert SameRow(rows, rows', k);
    }
  }

  /** An operation begun after the reading leaves the ledger covered exactly when it did not cut the withdrawal
      of a claim, or the estimate is infinite anyway. */
  lemma OperationIsSafeIff(r: Reading, rows: Rows, rows': Rows, id: Name, since: int)
    requires Safe(r, rows) && r.at <= since && OnlyRow(rows, rows', id)
    requires StampedSince(rows, rows', id, since) || StampCut(rows, rows', id)
    ensures Safe(r, rows') <==> r.age.Infinite? || !StampCut(rows, rows', id)
  {
    SafeReaches(r, rows);
    SafeIffNoneBare(r, rows);
    OperationReaches(r, rows, rows', id, since);
    OperationBares(rows, rows', id, since);
    SafeIffNoneBare(r, rows');
    assert StampCut(rows, rows', id) ==> Bare(rows', id);
  }

  // --- A cycle that looks in the middle of a trade ---

  /** A trade stamps its row, a cycle takes its reading, and then the trade makes its claim: the ledger stays
      covered exactly when the reading reaches back to the stamp. */
  lemma StraddleIsSafeIff(r: Reading, rows: Rows, id: Name, claim: TradeState)
    requires Safe(r, rows) && id in rows && !ClaimsProtection(rows[id].state) && ClaimsProtection(claim)
    requires rows[id].verifiedAt.Some?
    ensures Safe(r, rows[id := rows[id].(state := claim)]) <==>
              r.age.Infinite? || r.at - r.age.d <= rows[id].verifiedAt.value
  {
    var rows' := rows[id := rows[id].(state := claim)];
    assert ClaimsAt(rows', id);
    forall k | ClaimsAt(rows', k) && k != id ensures RowSafe(r, rows'[k]) {
      assert ClaimsAt(rows, k);
    }
  }

  /** A trade verified just before a cycle looks, and protected just after: the cycle sees no claim,
      reads age zero, and the estimate starts too young. */
  lemma StraddlingACycle(row: Row, v: int, at: int)
    requires row.state == ProtectionPending && row.verifiedAt == Some(v) && v < at
    ensures var r := Reading(Finite(0), at);
            && Safe(r, map[0 := row])
            && !Covers(r, map[0 := row.(state := Protected)], at)
  {
    var rows := map[0 := row.(state := Protected)];
    assert ClaimsAt(rows, 0);
    assert !AtMost(AgeOf(rows[0], at), Cached(Reading(Finite(0), at), at));
  }
}
