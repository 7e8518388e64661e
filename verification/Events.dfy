/** Exchange events, ingested once each and in any order, and the order status they project to. */
module Events {
  import opened Domain

  datatype Status =
    | StatusNew | StatusAcknowledged | StatusPartiallyFilled | StatusFilled | StatusCanceled | StatusExpired

  function Rank(s: Status): int {
    match s
    case StatusNew => 10
    case StatusAcknowledged => 20
    case StatusPartiallyFilled => 30
    case StatusFilled => 40
    case StatusCanceled => 40
    case StatusExpired => 40
  }

  datatype Event = Event(id: Name, client: Name, status: Status, time: int)

  /** An event as it arrives: None for an id that is blank or no text, for a status nobody knows and for
      a time that is no number. */
  datatype RawEvent = RawEvent(id: Option<Name>, client: Option<Name>, status: Option<Status>, time: Option<int>)

  predicate WellFormed(e: RawEvent) {
    e.id.Some? && e.client.Some? && e.status.Some? && e.time.Some? && e.time.value >= 0
  }

  function Parsed(e: RawEvent): Event
    requires WellFormed(e)
  {
    Event(e.id.value, e.client.value, e.status.value, e.time.value)
  }

  datatype Projected = Projected(status: Status, rank: int, time: int)

  /** What the two tables hold. */
  datatype Tables = Tables(events: map<Name, Event>, projection: map<Name, Projected>)

  const NOTHING: Tables := Tables(map[], map[])

  function View(e: Event): Projected {
    Projected(e.status, Rank(e.status), e.time)
  }

  predicate AtLeast(a: Projected, b: Projected) {
    a.rank > b.rank || (a.rank == b.rank && a.time >= b.time)
  }

  /** A repeated id changes nothing; a new event replaces the projection unless that outranks it. */
  function Ingested(t: Tables, e: Event): Tables {
    if e.id in t.events then t
    else
      Tables(t.events[e.id := e],
             if e.client !in t.projection || AtLeast(View(e), t.projection[e.client])
             then t.projection[e.client := View(e)] else t.projection)
  }

  function IngestedAll(es: seq<Event>): Tables {
    if es == [] then NOTHING else Ingested(IngestedAll(es[..|es| - 1]), es[|es| - 1])
  }

  function StatusOf(t: Tables, client: Name): Option<Status> {
    if client in t.projection then Some(t.projection[client].status) else None
  }

  class OrderEventStore {
    var events: map<Name, Event>
    var projection: map<Name, Projected>

    constructor ()
      ensures Tables(events, projection) == NOTHING
    {
      events, projection := map[], map[];
    }

    /** Malformed input is refused without a trace. */
    method Ingest(raw: RawEvent) returns (r: Option<bool>)
      modifies this
      ensures r.Some? <==>
                raw.id.Some? && raw.client.Some? && raw.status.Some? && raw.time.Some? && 0 <= raw.time.value
      ensures r.None? ==> events == old(events) && projection == old(projection)
      ensures r.Some? ==> Tables(events, projection) == Ingested(Tables(old(events), old(projection)), Parsed(raw))
      ensures r.Some? ==> (r.value <==> raw.id.value !in old(events))
      ensures r == Some(false) ==> events == old(events) && projection == old(projection)
      ensures r == Some(true) ==>
                events == old(events)[raw.id.value :=
                                        Event(raw.id.value, raw.client.value, raw.status.value, raw.time.value)]
    {
      if !WellFormed(raw) {
        return None;
      }
      var e := Parsed(raw);
      if e.id in events {
        return Some(false);
      }
      events := events[e.id := e];
      if e.client !in projection || Rank(e.status) > projection[e.client].rank
         || (Rank(e.status) == projection[e.client].rank && e.time >= projection[e.client].time)
      {
        projection := projection[e.client := View(e)];
      }
      r := Some(true);
    }

    method Status(client: Name) returns (s: Option<Status>)
      ensures s == StatusOf(Tables(events, projection), client)
    {
      s := if client in projection then Some(projection[client].status) else None;
    }
  }

  // --- Order does not matter ---

  /** Each event id has one content. */
  ghost predicate OneContentPerId(es: seq<Event>) {
    forall j, k :: 0 <= j < |es| && 0 <= k < |es| && es[j].id == es[k].id ==> es[j] == es[k]
  }

  /** No event of this client is ahead of `e`. */
  ghost predicate Top(es: seq<Event>, e: Event) {
    e in es && forall f :: f in es && f.client == e.client ==> AtLeast(View(e), View(f))
  }

  /** Two histories of the same events, in any order and with any repeats. */
  ghost predicate SameEvents(a: seq<Event>, b: seq<Event>) {
    forall e :: e in a <==> e in b
  }

  lemma InSplit(es: seq<Event>, e: Event)
    requires es != []
    ensures e in es <==> e in es[..|es| - 1] || e == es[|es| - 1]
  {
    assert es == es[..|es| - 1] + [es[|es| - 1]];
  }

  /** The events table holds the events of the history, each under its own id. */
  lemma {:induction false} EventsAreKept(es: seq<Event>)
    requires OneContentPerId(es)
    ensures var t := IngestedAll(es);
            && (forall id :: id in t.events ==> t.events[id].id == id && t.events[id] in es)
            && (forall e :: e in es ==> e.id in t.events && t.events[e.id] == e)
  {
    if es != [] {
      var n := |es| - 1;
      EventsAreKept(es[..n]);
      forall e ensures e in es <==> e in es[..n] || e == es[n] { InSplit(es, e); }
    }
  }

  /** The projection of a client is the view of one of its top events, and there is one once there is an event. */
  ghost predicate ShowsTop(es: seq<Event>, t: Tables, client: Name) {
    && (client in t.projection <==> exists e :: e in es && e.client == client)
    && (client in t.projection ==> exists e :: Top(es, e) && e.client == client && t.projection[client] == View(e))
  }

  lemma TopAfter(es: seq<Event>, s: Tables, client: Name)
    requires es != [] && es[|es| - 1].id !in s.events
    requires ShowsTop(es[..|es| - 1], s, client)
    ensures ShowsTop(es, Ingested(s, es[|es| - 1]), client)
  {
    var init, last := es[..|es| - 1], es[|es| - 1];
    var t := Ingested(s, last);
    forall e ensures e in es <==> e in init || e == last { InSplit(es, e); }
    if client in s.projection {
      var e :| Top(init, e) && e.client == client && s.projection[client] == View(e);
      assert if last.client == client && t.projection[client] == View(last) then Top(es, last) else Top(es, e);
    } else if last.client == client {
      assert Top(es, last);
    }
  }

  lemma TopStays(es: seq<Event>, t: Tables, client: Name)
    requires es != [] && es[|es| - 1] in es[..|es| - 1] && ShowsTop(es[..|es| - 1], t, client)
    ensures ShowsTop(es, t, client)
  {
    var init := es[..|es| - 1];
    forall e ensures e in es <==> e in init { InSplit(es, e); }
    if client in t.projection {
      var e :| Top(init, e) && e.client == client && t.projection[client] == View(e);
      assert Top(es, e);
    }
  }

  /** The projection is always the view of a top event of the client. */
  lemma {:induction false} ProjectionIsTop(es: seq<Event>, client: Name)
    requires OneContentPerId(es)
    ensures ShowsTop(es, IngestedAll(es), client)
  {
    if es != [] {
      var n := |es| - 1;
      var s := IngestedAll(es[..n]);
      ProjectionIsTop(es[..n], client);
      EventsAreKept(es[..n]);
      if es[n].id in s.events {
        assert s.events[es[n].id] == es[n];
        TopStays(es, s, client);
      } else {
        TopAfter(es, s, client);
      }
    }
  }

  /** Rank and time come out the same for any order and any repeats: they are the lexicographic maximum. */
  lemma OrderDoesNotMatter(a: seq<Event>, b: seq<Event>, client: Name)
    requires OneContentPerId(a) && OneContentPerId(b) && SameEvents(a, b)
    ensures var p, q := IngestedAll(a).projection, IngestedAll(b).projection;
            && (client in p <==> client in q)
            && (client in p ==> p[client].rank == q[client].rank && p[client].time == q[client].time)
            && (client in p ==> forall e :: e in a && e.client == client ==> AtLeast(p[client], View(e)))
  {
    ProjectionIsTop(a, client);
    ProjectionIsTop(b, client);
    var p, q := IngestedAll(a).projection, IngestedAll(b).projection;
    if client in p {
      var e :| Top(a, e) && e.client == client && p[client] == View(e);
      assert e in b;
      var f :| Top(b, f) && f.client == client && q[client] == View(f);
      assert f in a;
    }
  }

  predicate Final(s: Status) {
    s in {StatusFilled, StatusCanceled, StatusExpired}
  }

  /** Some event of this client has this status. */
  ghost predicate Heard(es: seq<Event>, client: Name, s: Status) {
    exists e :: e in es && e.client == client && e.status == s
  }

  /** What is shown is the furthest an order was ever heard to be: ended if it was heard to end, otherwise
      partially filled, acknowledged, or new, and of the events that say as much it is a latest one. */
  lemma FurthestIsShown(es: seq<Event>, client: Name)
    requires OneContentPerId(es)
    ensures var t := IngestedAll(es);
            var shown := StatusOf(t, client);
            && (shown.None? <==> forall s :: !Heard(es, client, s))
            && (shown.Some? ==> Heard(es, client, shown.value))
            && (shown.Some? ==>
                  if Heard(es, client, StatusFilled) || Heard(es, client, StatusCanceled)
                     || Heard(es, client, StatusExpired) then Final(shown.value)
                  else if Heard(es, client, StatusPartiallyFilled) then shown == Some(StatusPartiallyFilled)
                  else if Heard(es, client, StatusAcknowledged) then shown == Some(StatusAcknowledged)
                  else shown == Some(StatusNew))
            && (shown.Some? ==> exists e :: e in es && e.client == client && e.status == shown.value
                                            && e.time == t.projection[client].time)
            && (shown.Some? ==>
                  forall e :: e in es && e.client == client
                              && (e.status == shown.value || (Final(e.status) && Final(shown.value))) ==>
                                e.time <= t.projection[client].time)
  {
    ProjectionIsTop(es, client);
    var t := IngestedAll(es);
    if client in t.projection {
      var e :| Top(es, e) && e.client == client && t.projection[client] == View(e);
      hide IngestedAll, OneContentPerId, ShowsTop, Heard, Top;
      TopIsFurthest(es, e);
      TopIsLatest(es, e);
    } else {
      hide IngestedAll, OneContentPerId;
      forall s ensures !Heard(es, client, s) {
      }
    }
  }

  lemma TopIsFurthest(es: seq<Event>, e: Event)
    requires Top(es, e)
    ensures Heard(es, e.client, e.status)
    ensures if Heard(es, e.client, StatusFilled) || Heard(es, e.client, StatusCanceled)
               || Heard(es, e.client, StatusExpired) then Final(e.status)
            else if Heard(es, e.client, StatusPartiallyFilled) then e.status == StatusPartiallyFilled
            else if Heard(es, e.client, StatusAcknowledged) then e.status == StatusAcknowledged
            else e.status == StatusNew
  {
    forall s | Heard(es, e.client, s) ensures Rank(s) <= Rank(e.status) {
      var f :| f in es && f.client == e.client && f.status == s;
      assert AtLeast(View(e), View(f));
    }
  }

  lemma TopIsLatest(es: seq<Event>, e: Event)
    requires Top(es, e)
    ensures e in es
    ensures forall f ::
              f in es && f.client == e.client && (f.status == e.status || (Final(f.status) && Final(e.status))) ==>
                f.time <= e.time
  {
    forall f | f in es && f.client == e.client && (f.status == e.status || (Final(f.status) && Final(e.status)))
      ensures f.time <= e.time
    {
      assert AtLeast(View(e), View(f));
    }
  }

  /** Two different final statuses share the top time. */
  ghost predicate Tied(es: seq<Event>, client: Name) {
    exists e, f :: Top(es, e) && Top(es, f) && e.client == client && f.client == client && e.status != f.status
  }

  function Without(es: seq<Event>, e: Event): seq<Event> {
    if es == [] then [] else Without(es[..|es| - 1], e) + if es[|es| - 1] == e then [] else [es[|es| - 1]]
  }

  lemma {:induction false} WithoutHasTheRest(es: seq<Event>, e: Event, f: Event)
    ensures f in Without(es, e) <==> f in es && f != e
  {
    if es != [] {
      InSplit(es, f);
      WithoutHasTheRest(es[..|es| - 1], e, f);
    }
  }

  /** A history of the same events in which `e` comes last. */
  lemma LastTopWins(es: seq<Event>, e: Event)
    requires OneContentPerId(es) && Top(es, e)
    ensures var b := Without(es, e) + [e];
            OneContentPerId(b) && SameEvents(es, b) && StatusOf(IngestedAll(b), e.client) == Some(e.status)
  {
    var rest := Without(es, e);
    var b := rest + [e];
    forall f ensures f in rest <==> f in es && f != e { WithoutHasTheRest(es, e, f); }
    assert forall f :: f in b <==> f in es;
    Within(es, b);
    Within(es, rest);
    LastTopShows(rest, e);
  }

  /** A new event that nothing is ahead of is what the projection shows. */
  lemma LastTopShows(rest: seq<Event>, e: Event)
    requires OneContentPerId(rest + [e]) && e !in rest && Top(rest + [e], e)
    ensures StatusOf(IngestedAll(rest + [e]), e.client) == Some(e.status)
  {
    var b := rest + [e];
    assert b[..|rest|] == rest && b[|rest|] == e;
    Within(b, rest);
    ProjectionIsTop(rest, e.client);
    EventsAreKept(rest);
    forall f | f in b ensures f.id == e.id ==> f == e {
      assert e in b;
    }
    if e.client in IngestedAll(rest).projection {
      var f :| Top(rest, f) && f.client == e.client && IngestedAll(rest).projection[e.client] == View(f);
      assert f in b;
    }
  }

  lemma Within(es: seq<Event>, b: seq<Event>)
    requires OneContentPerId(es) && forall f :: f in b ==> f in es
    ensures OneContentPerId(b)
  {
    forall j, k | 0 <= j < |b| && 0 <= k < |b| && b[j].id == b[k].id ensures b[j] == b[k] {
      assert b[j] in es && b[k] in es;
    }
  }

  lemma UntiedAgree(es: seq<Event>, b: seq<Event>, client: Name)
    requires OneContentPerId(es) && OneContentPerId(b) && SameEvents(es, b) && !Tied(es, client)
    ensures StatusOf(IngestedAll(b), client) == StatusOf(IngestedAll(es), client)
  {
    OrderDoesNotMatter(es, b, client);
    ProjectionIsTop(es, client);
    ProjectionIsTop(b, client);
    if client in IngestedAll(es).projection {
      var e :| Top(es, e) && e.client == client && IngestedAll(es).projection[client] == View(e);
      var f :| Top(b, f) && f.client == client && IngestedAll(b).projection[client] == View(f);
      assert f in es && Top(es, f);
    }
  }

  /** Every history of the same events gives this client the same status. */
  ghost predicate StatusIsSettled(es: seq<Event>, client: Name) {
    forall b :: OneContentPerId(b) && SameEvents(es, b) ==>
        StatusOf(IngestedAll(b), client) == StatusOf(IngestedAll(es), client)
  }

  /** Of two tied events each can come last, and then decides. */
  lemma TiedIsUnsettled(es: seq<Event>, e: Event, f: Event)
    requires OneContentPerId(es) && Top(es, e) && Top(es, f) && e.client == f.client && e.status != f.status
    ensures !StatusIsSettled(es, e.client)
  {
    hide Top, SameEvents, IngestedAll, OneContentPerId;
    LastTopWins(es, e);
    LastTopWins(es, f);
    var g, h := Without(es, e) + [e], Without(es, f) + [f];
    assert StatusOf(IngestedAll(g), e.client) != StatusOf(IngestedAll(h), e.client);
  }

  lemma UntiedIsSettled(es: seq<Event>, client: Name)
    requires OneContentPerId(es) && !Tied(es, client)
    ensures StatusIsSettled(es, client)
  {
    hide Tied, SameEvents, IngestedAll, OneContentPerId;
    forall b | OneContentPerId(b) && SameEvents(es, b)
      ensures StatusOf(IngestedAll(b), client) == StatusOf(IngestedAll(es), client)
    {
      UntiedAgree(es, b, client);
    }
  }

  /** The status is the same for every order exactly when no two different final statuses share the top time. */
  lemma StatusOrderDoesNotMatterIff(es: seq<Event>, client: Name)
    requires OneContentPerId(es)
    ensures StatusIsSettled(es, client) <==> !Tied(es, client)
  {
    hide Top, StatusIsSettled, OneContentPerId;
    if Tied(es, client) {
      var e, f :| Top(es, e) && Top(es, f) && e.client == client && f.client == client && e.status != f.status;
      TiedIsUnsettled(es, e, f);
    } else {
      UntiedIsSettled(es, client);
    }
  }

  /** Only final statuses can tie. */
  lemma TiesAreFinal(es: seq<Event>, e: Event, f: Event)
    requires Top(es, e) && Top(es, f) && e.client == f.client && e.status != f.status
    ensures Rank(e.status) == Rank(f.status) == 40 && e.time == f.time
  {
  }
}
