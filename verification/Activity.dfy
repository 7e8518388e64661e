/** The submission record behind the hourly and daily caps. */
module Activity {
  import opened Domain
  import opened Sums

  const HOUR: int := 3600 * SECOND
  const DAY: int := 24 * HOUR

  datatype Kind = Submission | Error
  datatype Noted = Noted(ts: int, kind: Kind, notional: real)

  function DayStart(now: int): int {
    now - now % DAY
  }

  function CountWithin(log: seq<Noted>, from: int, to: int): nat {
    if log == [] then 0
    else
      var e := log[|log| - 1];
      CountWithin(log[..|log| - 1], from, to) + (if e.kind == Submission && from <= e.ts <= to then 1 else 0)
  }

  function NotionalWithin(log: seq<Noted>, from: int, to: int): real {
    if log == [] then 0.0
    else
      var e := log[|log| - 1];
      NotionalWithin(log[..|log| - 1], from, to)
        + (if e.kind == Submission && from <= e.ts <= to then e.notional else 0.0)
  }

  /** Submissions recorded at or after `from`, as the queries count and sum them. */
  function CountSince(log: seq<Noted>, from: int): nat {
    if log == [] then 0
    else
      var e := log[|log| - 1];
      CountSince(log[..|log| - 1], from) + (if e.kind == Submission && from <= e.ts then 1 else 0)
  }

  function NotionalSince(log: seq<Noted>, from: int): real {
    if log == [] then 0.0
    else
      var e := log[|log| - 1];
      NotionalSince(log[..|log| - 1], from) + (if e.kind == Submission && from <= e.ts then e.notional else 0.0)
  }

  /** On a clock that has not run back, everything since is everything until now. */
  lemma {:induction false} SinceIsWithin(log: seq<Noted>, from: int, now: int)
    requires UpTo(log, now)
    ensures CountSince(log, from) == CountWithin(log, from, now)
    ensures NotionalSince(log, from) == NotionalWithin(log, from, now)
  {
    if log != [] {
      SinceIsWithin(log[..|log| - 1], from, now);
    }
  }

  /** The submissions recorded at or after `from`, by their place in the log. */
  ghost function Since(log: seq<Noted>, from: int): set<nat> {
    set k: nat | k < |log| && log[k].kind == Submission && from <= log[k].ts
  }

  ghost function Amounts(log: seq<Noted>): nat -> real {
    (k: nat) => if k < |log| then log[k].notional else 0.0
  }

  lemma SinceOneMore(log: seq<Noted>, from: int)
    requires log != []
    ensures var n, e := |log| - 1, log[|log| - 1];
            && n !in Since(log[..n], from)
            && Since(log, from) == Since(log[..n], from) + if e.kind == Submission && from <= e.ts then {n} else {}
  {
    var n := |log| - 1;
    forall k: nat
      ensures k in Since(log, from) <==>
                k in Since(log[..n], from) || (k == n && log[n].kind == Submission && from <= log[n].ts)
    {
      assert k < n ==> log[..n][k] == log[k];
    }
  }

  lemma SumOneMore(log: seq<Noted>, from: int)
    requires log != []
    ensures var init, e := log[..|log| - 1], log[|log| - 1];
            Sum(Since(log, from), Amounts(log))
              == Sum(Since(init, from), Amounts(init))
                 + if e.kind == Submission && from <= e.ts then e.notional else 0.0
  {
    var n: nat := |log| - 1;
    SinceOneMore(log, from);
    forall k | k in Since(log[..n], from) ensures Amounts(log[..n])(k) == Amounts(log)(k) {
    }
    hide Since;
    SumSame(Since(log[..n], from), Amounts(log[..n]), Amounts(log));
    SumAdd(Since(log[..n], from), Amounts(log), n);
    assert Since(log[..n], from) + {} == Since(log[..n], from);
  }

  /** The two queries, as what they count and sum. */
  lemma {:induction false} SinceIs(log: seq<Noted>, from: int)
    ensures CountSince(log, from) == |Since(log, from)|
    ensures NotionalSince(log, from) == Sum(Since(log, from), Amounts(log))
  {
    if log == [] {
      assert Since(log, from) == {};
    } else {
      hide Since, Amounts;
      SinceIs(log[..|log| - 1], from);
      SinceOneMore(log, from);
      SumOneMore(log, from);
    }
  }

  /** The log ends in at least so many errors; a limit beyond the hundred entries looked at is never reached. */
  predicate EndsInErrors(log: seq<Noted>, n: int) {
    n <= 0 || (n <= 100 && n <= |log| && forall k :: |log| - n <= k < |log| ==> log[k].kind == Error)
  }

  lemma StreakReachesIff(log: seq<Noted>, n: int)
    ensures ErrorStreak(log, 100) >= n <==> EndsInErrors(log, n)
  {
    StreakIsErrors(log, 100);
  }

  /** How many of the last `limit` entries are errors with nothing but errors after them. */
  function ErrorStreak(log: seq<Noted>, limit: nat): nat {
    if log == [] || limit == 0 || log[|log| - 1].kind == Submission then 0
    else 1 + ErrorStreak(log[..|log| - 1], limit - 1)
  }

  lemma {:induction false} StreakIsErrors(log: seq<Noted>, limit: nat)
    ensures var n := ErrorStreak(log, limit);
            && n <= |log| && n <= limit
            && (forall k :: |log| - n <= k < |log| ==> log[k].kind == Error)
            && (n == |log| || n == limit || log[|log| - n - 1].kind == Submission)
  {
    if log != [] && limit > 0 && log[|log| - 1].kind == Error {
      StreakIsErrors(log[..|log| - 1], limit - 1);
    }
  }

  function Submissions(log: seq<Noted>): nat {
    if log == [] then 0
    else Submissions(log[..|log| - 1]) + if log[|log| - 1].kind == Submission then 1 else 0
  }

  lemma SubmissionsAppend(log: seq<Noted>, e: Noted)
    ensures Submissions(log + [e]) == Submissions(log) + if e.kind == Submission then 1 else 0
  {
    assert (log + [e])[..|log|] == log;
  }

  /** No entry is later than `now`, and no submission has a negative notional. */
  ghost predicate UpTo(log: seq<Noted>, now: int) {
    forall k :: 0 <= k < |log| ==> log[k].ts <= now && log[k].notional >= 0.0
  }

  lemma UpToAppend(log: seq<Noted>, before: int, e: Noted, now: int)
    requires UpTo(log, before) && before <= now && e.ts <= now && e.notional >= 0.0
    ensures UpTo(log + [e], now)
  {
  }

  function InHourFrom(log: seq<Noted>, from: int): nat {
    CountWithin(log, from, from + HOUR)
  }

  function OnDayOf(log: seq<Noted>, t: int): real {
    NotionalWithin(log, DayStart(t), DayStart(t) + DAY - 1)
  }

  /** Every closed one-hour window holds at most `maxOrders` submissions. */
  ghost predicate HourlyCapHolds(log: seq<Noted>, maxOrders: int) {
    forall from: int :: InHourFrom(log, from) == 0 || InHourFrom(log, from) <= maxOrders
  }

  /** Every UTC day holds at most `cap` of submitted notional. */
  ghost predicate DailyCapHolds(log: seq<Noted>, cap: real) {
    forall t: int :: OnDayOf(log, t) == 0.0 || OnDayOf(log, t) <= cap
  }

  lemma {:induction false} CountMonotone(log: seq<Noted>, from: int, to: int, from': int, to': int)
    requires from' <= from && forall k :: 0 <= k < |log| ==> (from <= log[k].ts <= to ==> log[k].ts <= to')
    ensures CountWithin(log, from, to) <= CountWithin(log, from', to')
  {
    if log != [] {
      CountMonotone(log[..|log| - 1], from, to, from', to');
    }
  }

  lemma {:induction false} NotionalMonotone(log: seq<Noted>, from: int, to: int, from': int, to': int, now: int)
    requires UpTo(log, now)
    requires from' <= from && forall k :: 0 <= k < |log| ==> (from <= log[k].ts <= to ==> log[k].ts <= to')
    ensures 0.0 <= NotionalWithin(log, from, to) <= NotionalWithin(log, from', to')
  {
    if log != [] {
      NotionalMonotone(log[..|log| - 1], from, to, from', to', now);
    }
  }

  /** The hourly gate, read at `gate`, is enough for a submission recorded at any later `now`. */
  lemma HourlyGateSuffices(log: seq<Noted>, gate: int, now: int, n: real, maxOrders: int)
    requires UpTo(log, gate) && gate <= now && HourlyCapHolds(log, maxOrders)
    requires CountSince(log, gate - HOUR) < maxOrders
    ensures HourlyCapHolds(log + [Noted(now, Submission, n)], maxOrders)
  {
    var log' := log + [Noted(now, Submission, n)];
    assert log'[..|log|] == log;
    SinceIsWithin(log, gate - HOUR, gate);
    forall from: int
      ensures InHourFrom(log', from) == 0 || InHourFrom(log', from) <= maxOrders
    {
      assert InHourFrom(log, from) == 0 || InHourFrom(log, from) <= maxOrders;
      if from <= now <= from + HOUR {
        CountMonotone(log, from, from + HOUR, gate - HOUR, gate);
      }
    }
  }

  /** The daily gate, read at `gate`, is enough even when the submission lands after midnight. */
  lemma DailyGateSuffices(log: seq<Noted>, gate: int, now: int, n: real, cap: real)
    requires UpTo(log, gate) && gate <= now && DailyCapHolds(log, cap) && n >= 0.0
    requires NotionalSince(log, DayStart(gate)) + n <= cap
    ensures DailyCapHolds(log + [Noted(now, Submission, n)], cap)
  {
    var log' := log + [Noted(now, Submission, n)];
    assert log'[..|log|] == log;
    SinceIsWithin(log, DayStart(gate), gate);
    forall t: int
      ensures OnDayOf(log', t) == 0.0 || OnDayOf(log', t) <= cap
    {
      assert OnDayOf(log, t) == 0.0 || OnDayOf(log, t) <= cap;
      var from, to := DayStart(t), DayStart(t) + DAY - 1;
      NotionalMonotone(log, DayStart(gate), gate, DayStart(gate), gate, gate);
      if from <= now <= to {
        if from <= gate {
          SameDay(gate, t);
          NotionalMonotone(log, from, to, DayStart(gate), gate, gate);
        } else {
          NothingLater(log, from, to, gate);
        }
      }
    }
  }

  lemma SameDay(a: int, t: int)
    requires DayStart(t) <= a < DayStart(t) + DAY
    ensures DayStart(a) == DayStart(t)
  {
    var d := t / DAY;
    assert DayStart(t) == d * DAY;
    assert a / DAY == d;
  }

  lemma {:induction false} NothingLater(log: seq<Noted>, from: int, to: int, now: int)
    requires UpTo(log, now) && now < from
    ensures NotionalWithin(log, from, to) == 0.0
  {
    if log != [] {
      NothingLater(log[..|log| - 1], from, to, now);
    }
  }

  /** Entries that are not submissions move neither cap. */
  lemma ErrorKeepsCaps(log: seq<Noted>, now: int, maxOrders: int, cap: real)
    requires HourlyCapHolds(log, maxOrders) && DailyCapHolds(log, cap)
    ensures HourlyCapHolds(log + [Noted(now, Error, 0.0)], maxOrders)
    ensures DailyCapHolds(log + [Noted(now, Error, 0.0)], cap)
  {
    var log' := log + [Noted(now, Error, 0.0)];
    assert log'[..|log|] == log;
    forall t: int
      ensures InHourFrom(log', t) == InHourFrom(log, t) && OnDayOf(log', t) == OnDayOf(log, t)
    {
    }
  }

  class TradingActivityStore {
    var log: seq<Noted>

    constructor ()
      ensures log == []
    {
      log := [];
    }

    method RecordSubmission(n: real, now: int)
      modifies this
      ensures log == old(log) + [Noted(now, Submission, n)]
    {
      log := log + [Noted(now, Submission, n)];
    }

    method RecordError(now: int)
      modifies this
      ensures log == old(log) + [Noted(now, Error, 0.0)]
    {
      log := log + [Noted(now, Error, 0.0)];
    }

    method OrdersLastHour(now: int) returns (n: nat)
      ensures n == CountSince(log, now - HOUR)
      ensures n == |Since(log, now - 3600 * 1_000_000)|
    {
      n := 0;
      for k := 0 to |log|
        invariant n == CountSince(log[..k], now - HOUR)
      {
        assert log[..k + 1][..k] == log[..k];
        if log[k].kind == Submission && log[k].ts >= now - HOUR {
          n := n + 1;
        }
      }
      assert log[..|log|] == log;
      SinceIs(log, now - HOUR);
    }

    method NotionalToday(now: int) returns (n: real)
      ensures n == NotionalSince(log, DayStart(now))
      ensures n == Sum(Since(log, now - now % (24 * 3600 * 1_000_000)), Amounts(log))
    {
      n := 0.0;
      for k := 0 to |log|
        invariant n == NotionalSince(log[..k], DayStart(now))
      {
        assert log[..k + 1][..k] == log[..k];
        if log[k].kind == Submission && log[k].ts >= DayStart(now) {
          n := n + log[k].notional;
        }
      }
      assert log[..|log|] == log;
      SinceIs(log, DayStart(now));
    }

    /** Length of the run of errors at the end of the log, looking at the last hundred entries. */
    method ConsecutiveErrors() returns (n: nat)
      ensures n == ErrorStreak(log, 100)
      ensures n <= |log| && n <= 100 && forall k :: |log| - n <= k < |log| ==> log[k].kind == Error
      ensures n == |log| || n == 100 || log[|log| - n - 1].kind == Submission
    {
      n := 0;
      assert log[..|log|] == log;
      while n < |log| && n < 100 && log[|log| - n - 1].kind == Error
        invariant n <= |log| && n <= 100
        invariant n + ErrorStreak(log[..|log| - n], 100 - n) == ErrorStreak(log, 100)
      {
        assert log[..|log| - n][..|log| - n - 1] == log[..|log| - (n + 1)];
        n := n + 1;
      }
      assert n == ErrorStreak(log, 100);
      StreakIsErrors(log, 100);
    }
  }
}
