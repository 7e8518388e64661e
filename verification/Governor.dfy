/** Priority pacing: who may call next, and how often anyone may. */
module Governor {
  import opened Domain

  datatype Ticket = Ticket(priority: int, number: nat)

  predicate Before(a: Ticket, b: Ticket) {
    a.priority < b.priority || (a.priority == b.priority && a.number < b.number)
  }

  /** The head of the queue: nobody waiting is before it. */
  predicate Least(queue: set<Ticket>, t: Ticket) {
    t in queue && forall u :: u in queue ==> !Before(u, t)
  }

  datatype Exit = Granted | TimedOut | StillWaiting | Interrupted

  // --- Spacing ---

  /** Each grant comes at least one interval after the one before. */
  ghost predicate Spaced(grants: seq<real>, interval: real) {
    forall k :: 0 < k < |grants| ==> grants[k - 1] + interval <= grants[k]
  }

  function CountIn(grants: seq<real>, from: real, to: real): nat {
    if grants == [] then 0
    else CountIn(grants[..|grants| - 1], from, to) + if from <= grants[|grants| - 1] <= to then 1 else 0
  }

  /** The least time that so many spaced grants can take. */
  function Span(count: nat, interval: real): real {
    if count <= 1 then 0.0 else Span(count - 1, interval) + interval
  }

  lemma NoneAtAll(interval: real)
    ensures Times(0.0, interval) == 0.0
  {
  }

  lemma OneMore(k: real, interval: real)
    ensures Times(k + 1.0, interval) == Times(k, interval) + interval
  {
  }

  lemma {:induction false} SpanIsProduct(count: nat, interval: real)
    requires count > 0
    ensures Span(count, interval) == Times((count - 1) as real, interval)
  {
    hide Times;
    if count == 1 {
      NoneAtAll(interval);
    } else {
      var k := (count - 1 - 1) as real;
      SpanIsProduct(count - 1, interval);
      OneMore(k, interval);
      assert (count - 1) as real == k + 1.0;
    }
  }

  lemma {:induction false} WindowReaches(grants: seq<real>, interval: real, from: real, to: real)
    requires interval >= 0.0 && Spaced(grants, interval)
    ensures var c := CountIn(grants, from, to);
            c > 0 ==> from + Span(c, interval) <= to && from + Span(c, interval) <= grants[|grants| - 1]
  {
    if grants != [] {
      var n := |grants| - 1;
      WindowReaches(grants[..n], interval, from, to);
      assert CountIn(grants[..n], from, to) > 0 ==> n > 0 && grants[n - 1] + interval <= grants[n];
    }
  }

  function Within(grants: seq<real>, from: real, to: real): set<nat> {
    set k: nat | k < |grants| && from <= grants[k] <= to
  }

  lemma {:induction false} CountIsSize(grants: seq<real>, from: real, to: real)
    ensures CountIn(grants, from, to) == |Within(grants, from, to)|
  {
    if grants == [] {
      assert Within(grants, from, to) == {};
    } else {
      var n := |grants| - 1;
      CountIsSize(grants[..n], from, to);
      assert Within(grants, from, to) == Within(grants[..n], from, to) + if from <= grants[n] <= to then {n} else {};
    }
  }

  /** A window of length `length` holds at most length / interval + 1 grants. */
  lemma WindowBound(grants: seq<real>, interval: real, from: real, length: real)
    requires interval > 0.0 && length >= 0.0
    requires forall k :: 0 < k < |grants| ==> grants[k - 1] + interval <= grants[k]
    ensures |set k: nat | k < |grants| && from <= grants[k] <= from + length| as real <= length / interval + 1.0
  {
    CountIsSize(grants, from, from + length);
    assert Within(grants, from, from + length) == set k: nat | k < |grants| && from <= grants[k] <= from + length;
    WindowReaches(grants, interval, from, from + length);
    var c := CountIn(grants, from, from + length);
    if c > 0 {
      SpanIsProduct(c, interval);
      QuotientAtLeast((c - 1) as real, length, interval);
    } else {
      QuotientAtLeast(0.0, length, interval);
    }
  }

  lemma QuotientAtLeast(q: real, a: real, b: real)
    requires b > 0.0 && q * b <= a
    ensures q <= a / b
  {
    var d := a / b;
    assert d * b == a;
    assert (d - q) * b >= 0.0;
  }

  // --- The governor ---

  /** What another thread does while it holds the lock. */
  datatype Step =
    | Enter(priority: int)
    | Pass(ticket: Ticket, now: real, later: real, deadline: Option<real>)
    | Quit(ticket: Ticket)

  /** One awakening: what others did first, and the two clock readings made. */
  datatype Wake = Wake(others: seq<Step>, now: real, later: real)

  predicate Late(deadline: Option<real>, w: Wake) {
    deadline.Some? && deadline.value <= w.now
  }

  /** By this awakening the deadline had never passed. */
  predicate InTime(deadline: Option<real>, wakes: seq<Wake>, k: nat) {
    forall j :: 0 <= j < k && j < |wakes| ==> !Late(deadline, wakes[j])
  }

  class PriorityRateGovernor {
    const minInterval: real
    var last: real
    var counter: nat
    var queue: set<Ticket>

    /** Every grant so far, by the clock reading recorded for it. */
    ghost var grants: seq<real>

    /** The tickets they went to. */
    ghost var served: seq<Ticket>

    /** How each ticket left the queue. */
    ghost var left: map<Ticket, Exit>

    ghost predicate Valid()
      reads this
    {
      && minInterval >= 0.0 && Spaced(grants, minInterval) && |served| == |grants|
      && (grants != [] ==> last == grants[|grants| - 1])
      && (forall t :: t in queue ==> 0 < t.number <= counter && t !in left)
      && (forall t :: t in left ==> t.number <= counter)
      && (forall t, u :: t in queue && u in queue && t.number == u.number ==> t == u)
    }

    constructor (minInterval: real)
      ensures Valid() && queue == {} && grants == [] && left == map[]
      ensures this.minInterval == if minInterval < 0.0 then 0.0 else minInterval
    {
      this.minInterval := if minInterval < 0.0 then 0.0 else minInterval;
      last, counter, queue := 0.0, 0, {};
      grants, served, left := [], [], map[];
    }

    method Join(priority: int) returns (t: Ticket)
      requires Valid()
      modifies this
      ensures Valid() && t == Ticket(priority, counter) && counter == old(counter) + 1
      ensures t !in old(queue) && t !in old(left) && queue == old(queue) + {t} && grants == old(grants)
      ensures last == old(last)
      ensures left == old(left) && served == old(served)
    {
      counter := counter + 1;
      t := Ticket(priority, counter);
      queue := queue + {t};
    }

    /** One look at the queue, under the lock.  A grant records a second, later clock reading. */
    method Look(t: Ticket, now: real, later: real, deadline: Option<real>) returns (r: Exit)
      requires Valid() && t in queue && now <= later
      modifies this
      ensures Valid() && counter == old(counter) && r in {Granted, TimedOut, StillWaiting}
      ensures r == TimedOut <==> deadline.Some? && deadline.value <= now
      ensures r == Granted <==>
                && !(deadline.Some? && deadline.value <= now) && old(last) + minInterval <= now
                && forall u :: u in old(queue) && u != t ==>
                     t.priority < u.priority || (t.priority == u.priority && t.number < u.number)
      ensures last == if r == Granted then later else old(last)
      ensures queue == if r == StillWaiting then old(queue) else old(queue) - {t}
      ensures grants == if r == Granted then old(grants) + [later] else old(grants)
      ensures served == if r == Granted then old(served) + [t] else old(served)
      ensures left == if r == StillWaiting then old(left) else old(left)[t := r]
    {
      if deadline.Some? && now >= deadline.value {
        Leave(t, TimedOut);
        return TimedOut;
      }
      var head := Least(queue, t);
      assert head <==> forall u :: u in queue && u != t ==> Before(t, u);
      if head && minInterval - (now - last) <= 0.0 {
        Leave(t, Granted);
        last := later;
        grants, served := grants + [later], served + [t];
        return Granted;
      }
      r := StillWaiting;
    }

    /** Every way out removes this ticket and no other. */
    method Leave(t: Ticket, how: Exit)
      requires Valid() && t in queue
      modifies this`queue, this`left
      ensures Valid() && queue == old(queue) - {t} && left == old(left)[t := how]
    {
      queue := queue - {t};
      left := left[t := how];
    }

    /** Every grant after the first `since` went to a ticket of a lower number in the same priority, or of a
        priority with a lower number. */
    ghost predicate NotOvertaken(t: Ticket, since: nat)
      reads this
    {
      forall k :: since <= k < |served| ==> Before(served[k], t)
    }

    /** Steps of other threads, each on a ticket of its own.  None of them overtakes the one that waits. */
    method Others(steps: seq<Step>, mine: Ticket)
      requires Valid() && mine in queue
      modifies this
      ensures Valid() && mine in queue && counter >= old(counter) && old(grants) <= grants
      ensures old(served) <= served && NotOvertaken(mine, |old(served)|)
      ensures forall t :: t in old(left) ==> t in left && left[t] == old(left)[t]
      ensures steps == [] ==> unchanged(this)
    {
      for k := 0 to |steps|
        invariant Valid() && mine in queue && counter >= old(counter) && old(grants) <= grants
        invariant old(served) <= served && NotOvertaken(mine, |old(served)|)
        invariant forall t :: t in old(left) ==> t in left && left[t] == old(left)[t]
        invariant k == 0 ==> unchanged(this)
      {
        match steps[k] {
          case Enter(priority) => var _ := Join(priority);
          case Pass(t, now, later, deadline) =>
            if t != mine && t in queue && now <= later {
              var _ := Look(t, now, later, deadline);
            }
          case Quit(t) =>
            if t != mine && t in queue {
              Leave(t, Interrupted);
            }
        }
      }
    }

    /** One call, from ticket to exit, with everything other threads do in between: whoever is granted
        meanwhile was before it.  It times out at the first awakening after its deadline, and when the awakenings
        run out, the waiting is interrupted.  Nobody else in the way, it is granted at the first awakening that
        is a whole interval after the last grant. */
    method Acquire(priority: int, deadline: Option<real>, wakes: seq<Wake>) returns (t: Ticket, r: Exit)
      requires Valid() && forall k :: 0 <= k < |wakes| ==> wakes[k].now <= wakes[k].later
      modifies this
      ensures Valid() && old(grants) <= grants && r in {Granted, TimedOut, Interrupted}
      ensures t !in queue && t in left && left[t] == r && t !in old(left) && t !in old(queue)
      ensures t.priority == priority
      ensures r == Granted ==>
                grants != old(grants)
                && exists k :: 0 <= k < |wakes| && grants[|grants| - 1] == wakes[k].later
                               && InTime(deadline, wakes, k + 1)
      ensures r == TimedOut ==> exists k :: 0 <= k < |wakes| && Late(deadline, wakes[k]) && InTime(deadline, wakes, k)
      ensures r == Interrupted ==> InTime(deadline, wakes, |wakes|)
      ensures old(queue) == {} && (forall k :: 0 <= k < |wakes| ==> wakes[k].others == []) ==>
                && (r == Granted <==>
                      exists k :: 0 <= k < |wakes| && old(last) + minInterval <= wakes[k].now
                                  && InTime(deadline, wakes, k + 1))
                && (r != Granted ==> grants == old(grants))
      ensures old(served) <= served && (r == Granted ==> served != old(served) && served[|served| - 1] == t)
      ensures forall k :: |old(served)| <= k < |served| - (if r == Granted then 1 else 0) ==>
                served[k].priority < priority || (served[k].priority == priority && served[k].number < t.number)
      ensures forall u :: u in old(left) ==> u in left && left[u] == old(left)[u]
    {
      hide Valid, Late;
      t := Join(priority);
      ghost var alone := old(queue) == {} && forall k :: 0 <= k < |wakes| ==> wakes[k].others == [];
      for k := 0 to |wakes|
        invariant Valid() && t in queue && old(grants) <= grants && t !in old(left) && t !in old(queue)
        invariant old(served) <= served && NotOvertaken(t, |old(served)|)
        invariant forall u :: u in old(left) ==> u in left && left[u] == old(left)[u]
        invariant InTime(deadline, wakes, k)
        invariant alone ==> queue == {t} && last == old(last) && grants == old(grants)
        invariant alone ==> forall j :: 0 <= j < k ==> !(old(last) + minInterval <= wakes[j].now)
      {
        r := Awaken(t, wakes[k], deadline);
        if r != StillWaiting {
          return;
        }
      }
      Leave(t, Interrupted);
      r := Interrupted;
    }

    /** One awakening: others first, then a look. */
    method Awaken(t: Ticket, w: Wake, deadline: Option<real>) returns (r: Exit)
      requires Valid() && t in queue && w.now <= w.later
      modifies this
      ensures Valid() && old(grants) <= grants && old(served) <= served && r in {Granted, TimedOut, StillWaiting}
      ensures t in queue <==> r == StillWaiting
      ensures r != StillWaiting ==> t in left && left[t] == r
      ensures r == TimedOut <==> Late(deadline, w)
      ensures r == Granted ==>
                grants != old(grants) && grants[|grants| - 1] == w.later && served[|served| - 1] == t
      ensures r == Granted ==> |old(served)| < |served|
      ensures forall k :: |old(served)| <= k < |served| - (if r == Granted then 1 else 0) ==> Before(served[k], t)
      ensures forall u :: u in old(left) ==> u in left && left[u] == old(left)[u]
      ensures w.others == [] && old(queue) == {t} ==>
                && (r == Granted <==> !Late(deadline, w) && old(last) + minInterval <= w.now)
                && (r == StillWaiting ==> queue == {t} && last == old(last))
                && (r != Granted ==> grants == old(grants))
    {
      Others(w.others, t);
      r := Look(t, w.now, w.later, deadline);
    }
  }
}
