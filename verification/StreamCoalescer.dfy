/**
  One connection of the statistics stream: hub events only mark what went stale, and a
  flush, at most once in each window, sends one refresh for each stale channel.
 */
module StreamCoalescer {
  import opened Prelude
  import opened EventRollup
  import opened EventQuery

  datatype Client = Client(id: nat, details: string, online: bool)

  type Rows = map<nat, Client>

  /** The channels subscribed to and the parameters of their queries. */
  datatype Subscription = Subscription(
    summary: bool, clients: bool, events: bool, windowMinutes: int, daily: bool,
    product: string, kind: string, from: int, to: int)

  /** The query behind the events channel. */
  function QueryOf(s: Subscription): Query { Query(s.daily, s.kind, s.product, s.from, s.to) }

  datatype HubEvent = Ingested(client: Option<Client>, entry: Option<Event>) | Tick

  datatype Pending = Pending(summary: bool, events: bool, snapshot: bool, clients: Rows)

  const NOTHING := Pending(false, false, false, map[])

  predicate Matches(e: Event, s: Subscription) {
    (s.kind == "" || e.kind == s.kind) && (s.product == "all" || e.product == s.product) && s.from <= e.created <= s.to
  }

  // ---------------------------------------------------------------------
  // What one hub event marks
  // ---------------------------------------------------------------------

  predicate MarksSummary(s: Subscription) { s.summary }

  predicate MarksSnapshot(s: Subscription, ev: HubEvent) { s.clients && ev.Tick? }

  predicate MarksEvents(s: Subscription, ev: HubEvent) {
    s.events && ev.Ingested? && ev.entry.Some? && Matches(ev.entry.value, s)
  }

  function MarkedClient(s: Subscription, ev: HubEvent): Option<Client> {
    if s.clients && ev.Ingested? then ev.client else None
  }

  function Noted(p: Pending, s: Subscription, ev: HubEvent): Pending {
    var c := MarkedClient(s, ev);
    Pending(p.summary || MarksSummary(s), p.events || MarksEvents(s, ev), p.snapshot || MarksSnapshot(s, ev),
            if c.Some? then p.clients[c.value.id := c.value] else p.clients)
  }

  // ---------------------------------------------------------------------
  // Messages
  // ---------------------------------------------------------------------

  datatype Channel = SummaryChannel | ClientsChannel | EventsChannel

  /** Payloads are what the query is asked with; a snapshot carries the rows it found. */
  datatype Message =
    | Summary(windowMinutes: int, product: string)
    | Snapshot(rows: Rows)
    | Delta(upserted: seq<Client>)
    | Events(query: Query)
    | Failure

  /** The channel a message is for; an error message is for none. */
  function ChannelOf(m: Message): Option<Channel> {
    match m
    case Summary(_, _) => Some(SummaryChannel)
    case Events(_) => Some(EventsChannel)
    case Snapshot(_) => Some(ClientsChannel)
    case Delta(_) => Some(ClientsChannel)
    case Failure => None
  }

  /** Which of a flush's queries succeed, the rows a snapshot finds, and who is online while it runs. */
  datatype Outcome = Outcome(summaryOk: bool, rows: Option<Rows>, eventsOk: bool, online: nat -> bool)

  ghost predicate Ascending(cs: seq<Client>) { forall i, j :: 0 <= i < j < |cs| ==> cs[i].id < cs[j].id }

  /** A client as a delta shows it. */
  predicate Shown(c: Client, clients: Rows, online: nat -> bool) {
    c.id in clients && c == clients[c.id].(online := online(c.id))
  }

  /** The marked clients in the order of their ids, each with its presence. */
  ghost predicate IsDelta(cs: seq<Client>, clients: Rows, online: nat -> bool) {
    Ascending(cs) && forall c :: c in cs <==> Shown(c, clients, online)
  }

  function When(b: bool, m: Message): seq<Message> { if b then [m] else [] }

  /** The messages of a flush; cs is its delta, if it has one. Only a failing snapshot is reported. */
  function Refresh(p: Pending, s: Subscription, o: Outcome, cs: seq<Client>): seq<Message> {
    When(p.summary && o.summaryOk, Summary(s.windowMinutes, s.product))
    + (if p.snapshot then [if o.rows.Some? then Snapshot(o.rows.value) else Failure]
       else When(p.clients != map[], Delta(cs)))
    + When(p.events && o.eventsOk, Events(QueryOf(s)))
  }

  /** Every row is filed under its own id. */
  ghost predicate Filed(clients: Rows) { forall id :: id in clients ==> clients[id].id == id }

  /** One insertion of a sort by id. */
  method Place(cs: seq<Client>, c: Client) returns (r: seq<Client>)
    requires Ascending(cs) && forall x :: x in cs ==> x.id != c.id
    ensures Ascending(r) && forall x :: x in r <==> x in cs || x == c
  {
    var k := 0;
    while k < |cs| && cs[k].id < c.id
      invariant 0 <= k <= |cs| && forall i :: 0 <= i < k ==> cs[i].id < c.id
    {
      k := k + 1;
    }
    r := cs[..k] + [c] + cs[k..];
    PlacedAscending(cs, c, k);
  }

  lemma PlacedAscending(cs: seq<Client>, c: Client, k: nat)
    requires Ascending(cs) && k <= |cs| && (forall i :: 0 <= i < k ==> cs[i].id < c.id)
    requires k < |cs| ==> cs[k].id >= c.id
    requires forall x :: x in cs ==> x.id != c.id
    ensures var r := cs[..k] + [c] + cs[k..]; Ascending(r) && forall x :: x in r <==> x in cs || x == c
  {
    assert cs == cs[..k] + cs[k..];
    assert k < |cs| ==> cs[k] in cs;
  }

  class Connection {
    var sub: Subscription
    var pending: Pending

    constructor (sub: Subscription)
      ensures this.sub == sub && pending == NOTHING
    {
      this.sub, pending := sub, NOTHING;
    }

    method Subscribe(sub: Subscription)
      modifies this`sub
      ensures this.sub == sub
    {
      this.sub := sub;
    }

    method NoteHubEvent(ev: HubEvent)
      modifies this`pending
      ensures pending == Noted(old(pending), sub, ev)
    {
      match ev
      case Ingested(client, entry) =>
        if sub.summary { pending := pending.(summary := true); }
        if sub.clients && client.Some? {
          pending := pending.(clients := pending.clients[client.value.id := client.value]);
        }
        if sub.events && entry.Some? && Matches(entry.value, sub) { pending := pending.(events := true); }
      case Tick =>
        if sub.summary { pending := pending.(summary := true); }
        if sub.clients { pending := pending.(snapshot := true); }
    }

    method TakePending() returns (p: Option<Pending>)
      modifies this`pending
      ensures pending == NOTHING
      ensures p == if old(pending) == NOTHING then None else Some(old(pending))
    {
      if !pending.summary && !pending.events && !pending.snapshot && |pending.clients| == 0 {
        assert pending.clients == map[];
        return None;
      }
      p := Some(pending);
      pending := Pending(false, false, false, map[]);
    }

    /** The rows of a delta, read from the map in any order and sorted. */
    method Upserted(clients: Rows, online: nat -> bool) returns (cs: seq<Client>)
      requires Filed(clients)
      ensures IsDelta(cs, clients, online)
    {
      cs := [];
      var todo := clients.Keys;
      while todo != {}
        invariant todo <= clients.Keys && Ascending(cs)
        invariant forall c :: c in cs <==> c.id !in todo && Shown(c, clients, online)
        decreases todo
      {
        var id: nat :| id in todo;
        todo := todo - {id};
        cs := Place(cs, clients[id].(online := online(id)));
      }
    }

    method Flush(o: Outcome) returns (msgs: seq<Message>, cs: seq<Client>)
      requires Filed(pending.clients)
      modifies this`pending
      ensures pending == NOTHING
      ensures msgs == Refresh(old(pending), sub, o, cs) && IsDelta(cs, old(pending).clients, o.online)
    {
      msgs, cs := [], [];
      var taken := TakePending();
      if taken.None? {
        return;
      }
      var p := taken.value;
      if p.summary && o.summaryOk { msgs := msgs + [Summary(sub.windowMinutes, sub.product)]; }
      cs := Upserted(p.clients, o.online);
      if p.snapshot {
        msgs := msgs + [if o.rows.Some? then Snapshot(o.rows.value) else Failure];
      } else if |p.clients| > 0 {
        msgs := msgs + [Delta(cs)];
      }
      if p.events && o.eventsOk { msgs := msgs + [Events(QueryOf(sub))]; }
    }
  }
}
