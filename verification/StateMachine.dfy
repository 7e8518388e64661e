/** The table of allowed trade transitions and the machine that walks it. */
module StateMachine {
  import opened Domain

  predicate Allowed(s: TradeState, t: TradeState) {
    match s
    case Created => t in {RiskApproved, Rejected, Halted}
    case RiskApproved => t in {Submitted, Rejected, Halted}
    case Submitted => t in {Acknowledged, Unknown, Rejected, Halted}
    case Acknowledged => t in {PartiallyFilled, Filled, Canceled, Expired, Unknown, Halted}
    case PartiallyFilled => t in {PartialProtectionPending, Unknown, EmergencyExit, Halted}
    case PartialProtectionPending =>
      t in {PartiallyProtected, UnderProtected, ProtectionFailed, Unknown, EmergencyExit, Halted}
    case PartiallyProtected => t in {Halted, ExitPending, Unknown, UnderProtected}
    case Filled => t in {ProtectionPending, ProtectionFailed, EmergencyExit, Halted}
    case ProtectionPending =>
      t in {Protected, UnderProtected, ProtectionFailed, Unknown, EmergencyExit, Halted}
    case Protected => t in {ExitPending, Unknown, UnderProtected, Halted}
    case ExitPending => t in {Closed, Unknown, Halted}
    case Unknown => t in {Reconciling, Halted}
    case Reconciling =>
      t in {Acknowledged, PartiallyFilled, Filled, Canceled, Expired, PartialProtectionPending,
       PartiallyProtected, ProtectionPending, Protected, Closed, ProtectionFailed, EmergencyExit, Halted}
    case ProtectionFailed => t in {EmergencyExit, Unknown, Halted}
    case UnderProtected => t in {EmergencyExit, Unknown, Halted}
    case EmergencyExit => t in {Closed, Unknown, Halted}
    case Halted => t in {Reconciling}
    case Rejected => false
    case Expired => false
    case Canceled => false
    case Closed => false
  }

  /** A walk along the table. */
  predicate LegalPath(h: seq<TradeState>) {
    |h| > 0 && forall k :: 0 < k < |h| ==> Allowed(h[k - 1], h[k])
  }

  class TradeStateMachine {
    var state: TradeState
    var history: seq<TradeState>

    predicate Valid()
      reads this
    {
      LegalPath(history) && history[|history| - 1] == state
    }

    constructor (initial: TradeState)
      ensures Valid() && state == initial && history == [initial]
    {
      state := initial;
      history := [initial];
    }

    /** Records a step that the ledger has already taken. */
    method Follow(next: TradeState)
      requires Valid() && Allowed(state, next)
      modifies this
      ensures Valid() && state == next && history == old(history) + [next]
    {
      state := next;
      history := history + [next];
    }

    /** Moves only along the table; otherwise reports failure and stays put. */
    method Move(next: TradeState) returns (ok: bool)
      requires Valid()
      modifies this
      ensures Valid()
      ensures ok <==> Allowed(old(state), next)
      ensures history == if ok then old(history) + [next] else old(history)
    {
      ok := Allowed(state, next);
      if ok {
        state := next;
        history := history + [next];
      }
    }
  }

  lemma NextIsAllowed(h: seq<TradeState>, k: nat)
    requires LegalPath(h) && k + 1 < |h|
    ensures Allowed(h[k], h[k + 1])
  {
  }

  /** Where a trade in this state can have come from.  Protection is claimed only after it was asked for, and what
      follows an unknown state is reconciling. */
  predicate ComesFrom(t: TradeState, s: TradeState) {
    match t
    case Created => false
    case RiskApproved => s in {Created}
    case Rejected => s in {Created, RiskApproved, Submitted}
    case Submitted => s in {RiskApproved}
    case Acknowledged => s in {Submitted, Reconciling}
    case PartiallyFilled | Filled | Expired | Canceled => s in {Acknowledged, Reconciling}
    case PartialProtectionPending => s in {PartiallyFilled, Reconciling}
    case ProtectionPending => s in {Filled, Reconciling}
    case PartiallyProtected => s in {PartialProtectionPending, Reconciling}
    case Protected => s in {ProtectionPending, Reconciling}
    case UnderProtected => s in {PartialProtectionPending, ProtectionPending, PartiallyProtected, Protected}
    case ProtectionFailed => s in {Filled, PartialProtectionPending, ProtectionPending, Reconciling}
    case EmergencyExit =>
      s in {PartiallyFilled, Filled, PartialProtectionPending, ProtectionPending, ProtectionFailed, UnderProtected,
       Reconciling}
    case ExitPending => s in {PartiallyProtected, Protected}
    case Closed => s in {ExitPending, EmergencyExit, Reconciling}
    case Unknown =>
      s in {Submitted, Acknowledged, PartiallyFilled, PartialProtectionPending, ProtectionPending, PartiallyProtected,
       Protected, UnderProtected, ProtectionFailed, EmergencyExit, ExitPending}
    case Reconciling => s in {Unknown, Halted}
    case Halted =>
      s in {Created, RiskApproved, Submitted, Acknowledged, PartiallyFilled, Filled, PartialProtectionPending,
       ProtectionPending, PartiallyProtected, Protected, UnderProtected, ProtectionFailed, EmergencyExit, ExitPending,
       Unknown, Reconciling}
  }

  /** Some walk takes the step from `s` to `t`. */
  ghost predicate Steps(s: TradeState, t: TradeState) {
    exists h: seq<TradeState>, k :: LegalPath(h) && 0 <= k && k + 1 < |h| && h[k] == s && h[k + 1] == t
  }

  lemma AllowedIff(s: TradeState, t: TradeState)
    ensures Allowed(s, t) <==> ComesFrom(t, s)
  {
  }

  /** Walks come to a state from its origins and from nowhere else. */
  lemma WalksComeFromOrigins(s: TradeState, t: TradeState)
    ensures Steps(s, t) <==> ComesFrom(t, s)
  {
    hide Allowed, ComesFrom;
    AllowedIff(s, t);
    if ComesFrom(t, s) {
      var h := [s, t];
      assert LegalPath(h) && h[0] == s && h[0 + 1] == t;
    }
    if Steps(s, t) {
      var h: seq<TradeState>, k :| LegalPath(h) && 0 <= k && k + 1 < |h| && h[k] == s && h[k + 1] == t;
      NextIsAllowed(h, k);
    }
  }

  /** A walk stops at a terminal state and nowhere else: terminal states end every walk through
      them, and every other state can be walked on from. */
  lemma TerminalEndsEveryWalk(s: TradeState)
    ensures Terminal(s) <==> forall h: seq<TradeState>, k :: LegalPath(h) && 0 <= k < |h| && h[k] == s ==> k == |h| - 1
  {
    if !Terminal(s) {
      var next: TradeState :| Allowed(s, next);
      var h := [s, next];
      assert LegalPath(h) && h[0] == s && 0 != |h| - 1;
    } else {
      forall h: seq<TradeState>, k | LegalPath(h) && 0 <= k < |h| && h[k] == s
        ensures k == |h| - 1
      {
        if k + 1 < |h| {
          NextIsAllowed(h, k);
        }
      }
    }
  }
}
