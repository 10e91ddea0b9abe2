/** Coalescing loses no mark and repeats none. */
module StreamTheorems {
  import opened Prelude
  import opened EventRollup
  import opened EventQuery
  import opened StreamCoalescer

  // ---------------------------------------------------------------------
  // Runs
  // ---------------------------------------------------------------------

  /** shown: the clients snapshot a subscribe message is answered with, if it asks for one and the query succeeds. */
  datatype Step =
    | Note(event: HubEvent)
    | Flushing(outcome: Outcome)
    | Subscribing(sub: Subscription, shown: Option<Rows>)

  datatype State = State(sub: Subscription, pending: Pending)

  function Next(s: State, st: Step): State {
    match st
    case Note(ev) => s.(pending := Noted(s.pending, s.sub, ev))
    case Flushing(_) => s.(pending := NOTHING)
    case Subscribing(sub, _) => s.(sub := sub)
  }

  function Run(sub: Subscription, steps: seq<Step>): State {
    if steps == [] then State(sub, NOTHING) else Next(Run(sub, steps[..|steps| - 1]), steps[|steps| - 1])
  }

  lemma {:induction false} RunFiled(sub: Subscription, steps: seq<Step>)
    ensures Filed(Run(sub, steps).pending.clients)
  {
    if steps != [] { RunFiled(sub, steps[..|steps| - 1]); }
  }

  lemma RunPrefix(sub: Subscription, steps: seq<Step>, n: nat)
    requires n < |steps|
    ensures Run(sub, steps[..n + 1]) == Next(Run(sub, steps[..n]), steps[n])
  {
    assert steps[..n + 1][..n] == steps[..n];
  }

  /** The subscription under which step i is taken. */
  function SubAt(sub: Subscription, steps: seq<Step>, i: nat): Subscription
    requires i <= |steps|
  {
    Run(sub, steps[..i]).sub
  }

  // ---------------------------------------------------------------------
  // Every mark goes to exactly one flush
  // ---------------------------------------------------------------------

  /** A kind of mark; a client mark is for one client. */
  datatype Mark = SummaryMark | EventsMark | SnapshotMark | ClientMark(id: nat)

  /** The event is one that the subscription's events query asks for, by its own time. */
  predicate Wanted(s: Subscription, e: Event) {
    (s.kind == "" || s.kind == e.kind) && s.product in {"all", e.product} && s.from <= e.created && e.created <= s.to
  }

  /** Which hub events mark a channel stale for a connection that subscribes to it. */
  predicate Marks(s: Subscription, st: Step, m: Mark) {
    match m
    case SummaryMark => s.summary && st.Note?
    case EventsMark =>
      s.events && st.Note? && st.event.Ingested? && st.event.entry.Some? && Wanted(s, st.event.entry.value)
    case SnapshotMark => s.clients && st == Note(Tick)
    case ClientMark(id) =>
      s.clients && st.Note? && st.event.Ingested? && st.event.client.Some? && st.event.client.value.id == id
  }

  predicate Has(p: Pending, m: Mark) {
    match m
    case SummaryMark => p.summary
    case EventsMark => p.events
    case SnapshotMark => p.snapshot
    case ClientMark(id) => id in p.clients
  }

  /** Steps i up to n, with no flush among them. */
  ghost predicate Unflushed(steps: seq<Step>, i: nat, n: nat)
    requires n <= |steps|
  {
    forall j :: i <= j < n ==> !steps[j].Flushing?
  }

  ghost predicate Owed(sub: Subscription, steps: seq<Step>, m: Mark, i: nat, n: nat)
    requires i < n <= |steps|
  {
    Marks(SubAt(sub, steps, i), steps[i], m) && Unflushed(steps, i, n)
  }

  lemma HasAfter(s: State, st: Step, m: Mark)
    ensures Has(Next(s, st).pending, m) <==> !st.Flushing? && (Has(s.pending, m) || Marks(s.sub, st, m))
  {}

  /** A mark is pending exactly when some step made it and no flush has happened since. */
  lemma {:induction false} PendingIff(sub: Subscription, steps: seq<Step>, m: Mark, n: nat)
    requires n <= |steps|
    ensures Has(Run(sub, steps[..n]).pending, m) <==> exists i: nat :: i < n && Owed(sub, steps, m, i, n)
  {
    if n > 0 {
      PendingIff(sub, steps, m, n - 1);
      RunPrefix(sub, steps, n - 1);
      var st := steps[n - 1];
      HasAfter(Run(sub, steps[..n - 1]), st, m);
      if st.Flushing? {
        forall i: nat | i < n ensures !Owed(sub, steps, m, i, n) { assert steps[n - 1].Flushing?; }
      } else {
        forall i: nat | i < n - 1 ensures Owed(sub, steps, m, i, n - 1) <==> Owed(sub, steps, m, i, n) {
          assert Unflushed(steps, i, n - 1) <==> Unflushed(steps, i, n);
        }
        assert Owed(sub, steps, m, n - 1, n) <==> Marks(SubAt(sub, steps, n - 1), st, m);
        if i: nat :| i < n && Owed(sub, steps, m, i, n) {
          assert i < n - 1 ==> Owed(sub, steps, m, i, n - 1);
        }
        var before := n - 1;
        if i: nat :| i < before && Owed(sub, steps, m, i, before) {
          assert Owed(sub, steps, m, i, n);
        }
      }
    }
  }

  /**
    pending with the marks told apart: the steps whose mark m has been added and not taken
    when n steps are done. Adding puts a step in, and a flush takes everything.
   */
  ghost function Holding(sub: Subscription, steps: seq<Step>, m: Mark, n: nat): set<nat>
    requires n <= |steps|
  {
    if n == 0 || steps[n - 1].Flushing? then {}
    else
      Holding(sub, steps, m, n - 1) + if Marks(SubAt(sub, steps, n - 1), steps[n - 1], m) then {n - 1} else {}
  }

  /** What pending shows is whether it holds any. */
  lemma {:induction false} PendingHolds(sub: Subscription, steps: seq<Step>, m: Mark, n: nat)
    requires n <= |steps|
    ensures Has(Run(sub, steps[..n]).pending, m) <==> Holding(sub, steps, m, n) != {}
  {
    if n > 0 {
      PendingHolds(sub, steps, m, n - 1);
      RunPrefix(sub, steps, n - 1);
      HasAfter(Run(sub, steps[..n - 1]), steps[n - 1], m);
    }
  }

  lemma {:induction false} HoldingIff(sub: Subscription, steps: seq<Step>, m: Mark, i: nat, n: nat)
    requires n <= |steps|
    ensures i in Holding(sub, steps, m, n) <==> i < n && Owed(sub, steps, m, i, n)
  {
    if n > 0 {
      HoldingIff(sub, steps, m, i, n - 1);
      if i < n {
        assert Unflushed(steps, i, n) <==> !steps[n - 1].Flushing? && Unflushed(steps, i, n - 1);
      }
    }
  }

  /** The flush at step f takes, among what pending holds, the mark that step i made. */
  ghost predicate HandedTo(sub: Subscription, steps: seq<Step>, m: Mark, i: nat, f: nat)
    requires f < |steps|
  {
    steps[f].Flushing? && i in Holding(sub, steps, m, f)
  }

  lemma {:induction false} FirstFlush(steps: seq<Step>, i: nat, g: nat) returns (f: nat)
    requires i < g < |steps| && steps[g].Flushing?
    ensures i < f <= g && steps[f].Flushing? && Unflushed(steps, i + 1, f)
  {
    if Unflushed(steps, i + 1, g) {
      f := g;
    } else {
      var h: nat :| i + 1 <= h < g && steps[h].Flushing?;
      f := FirstFlush(steps, i, h);
    }
  }

  /**
    A mark with any flush after it is handed to exactly one flush, and that one has it pending;
    a flush that has a mark pending was handed one that some step made.
   */
  lemma EachMarkToOneFlush(sub: Subscription, steps: seq<Step>, m: Mark, i: nat, g: nat) returns (f: nat)
    requires i < g < |steps| && steps[g].Flushing? && Marks(SubAt(sub, steps, i), steps[i], m)
    ensures f < |steps| && HandedTo(sub, steps, m, i, f) && Has(Run(sub, steps[..f]).pending, m)
    ensures forall h: nat :: h < |steps| && HandedTo(sub, steps, m, i, h) ==> h == f
    ensures Has(Run(sub, steps[..g]).pending, m) <==> exists j :: HandedTo(sub, steps, m, j, g)
  {
    f := FirstFlush(steps, i, g);
    assert !steps[i].Flushing?;
    assert Unflushed(steps, i, f);
    HoldingIff(sub, steps, m, i, f);
    PendingHolds(sub, steps, m, f);
    PendingHolds(sub, steps, m, g);
    if Holding(sub, steps, m, g) != {} {
      var j :| j in Holding(sub, steps, m, g);
      assert HandedTo(sub, steps, m, j, g);
    }
    forall h: nat | h < |steps| && HandedTo(sub, steps, m, i, h) ensures h == f {
      HoldingIff(sub, steps, m, i, h);
      assert Unflushed(steps, i, h);
    }
  }

  /** The row of the latest mark for a client, among steps i up to n. */
  ghost predicate LatestMark(sub: Subscription, steps: seq<Step>, i: nat, n: nat, id: nat)
    requires i < n <= |steps|
  {
    && Owed(sub, steps, ClientMark(id), i, n)
    && forall j: nat :: i < j < n ==> !Marks(SubAt(sub, steps, j), steps[j], ClientMark(id))
  }

  predicate RowPending(s: State, id: nat, c: Option<Client>) {
    id in s.pending.clients && Some(s.pending.clients[id]) == c
  }

  lemma LatestMarkShorter(sub: Subscription, steps: seq<Step>, i: nat, n: nat, id: nat)
    requires i < n < |steps| && LatestMark(sub, steps, i, n + 1, id)
    ensures LatestMark(sub, steps, i, n, id) && !steps[n].Flushing?
      && !Marks(SubAt(sub, steps, n), steps[n], ClientMark(id))
  {
    assert Unflushed(steps, i, n + 1);
  }

  lemma RowMarked(sub: Subscription, steps: seq<Step>, i: nat, id: nat)
    requires i < |steps| && Marks(SubAt(sub, steps, i), steps[i], ClientMark(id))
    ensures RowPending(Run(sub, steps[..i + 1]), id, steps[i].event.client)
  {
    RunPrefix(sub, steps, i);
  }

  lemma RowStays(sub: Subscription, steps: seq<Step>, n: nat, id: nat, row: Option<Client>)
    requires n < |steps| && RowPending(Run(sub, steps[..n]), id, row)
    requires !steps[n].Flushing? && !Marks(SubAt(sub, steps, n), steps[n], ClientMark(id))
    ensures RowPending(Run(sub, steps[..n + 1]), id, row)
  {
    RunPrefix(sub, steps, n);
  }

  /** The pending row of a client is the one its latest mark carried. */
  lemma {:induction false} LatestRowIsPending(sub: Subscription, steps: seq<Step>, i: nat, n: nat, id: nat)
    requires i < n <= |steps| && LatestMark(sub, steps, i, n, id)
    ensures RowPending(Run(sub, steps[..n]), id, steps[i].event.client)
  {
    if i < n - 1 {
      LatestMarkShorter(sub, steps, i, n - 1, id);
      LatestRowIsPending(sub, steps, i, n - 1, id);
      RowStays(sub, steps, n - 1, id, steps[i].event.client);
    } else {
      RowMarked(sub, steps, i, id);
    }
  }

  /**
    A flush sends at most one message on each channel, and one for each stale channel whose query
    succeeds; the queries are the ones the subscription asks for.
   */
  lemma OneMessagePerChannel(p: Pending, s: Subscription, o: Outcome, cs: seq<Client>)
    ensures var msgs := Refresh(p, s, o, cs);
      && (forall i, j :: 0 <= i < j < |msgs| ==> ChannelOf(msgs[i]) != ChannelOf(msgs[j]))
      && (forall m :: m in msgs && m.Summary? ==> m == Summary(s.windowMinutes, s.product))
      && (forall q :: Events(q) in msgs ==> q == Query(s.daily, s.kind, s.product, s.from, s.to))
      && (Summary(s.windowMinutes, s.product) in msgs <==> p.summary && o.summaryOk)
      && (Events(QueryOf(s)) in msgs <==> p.events && o.eventsOk)
      && (forall rows :: Snapshot(rows) in msgs <==> p.snapshot && o.rows == Some(rows))
      && (Failure in msgs <==> p.snapshot && o.rows.None?)
      && (forall sent :: Delta(sent) in msgs <==> sent == cs && !p.snapshot && p.clients != map[])
  {}

  // ---------------------------------------------------------------------
  // Which events refresh the events channel
  // ---------------------------------------------------------------------

  /**
    An event that refreshes the channel is one the channel's query counts. The query also counts
    events that do not refresh it: exactly those in the first or last hour of the range, but outside the range.
   */
  lemma RefreshedIffInRange(s: Subscription, e: Event)
    requires s.product in {"emly", "updater", "all"} && s.from <= s.to
    ensures Matches(e, s) ==> Asked(QueryOf(s), e)
    ensures Asked(QueryOf(s), e) && !Matches(e, s) <==>
            && (s.kind == "" || e.kind == s.kind) && (s.product == "all" || e.product == s.product)
            && (FloorTo(HOUR, s.from) <= e.created < s.from || s.to < e.created < FloorTo(HOUR, s.to) + HOUR)
  {}

  /** Every noted event is later than the end of the range it is noted under. */
  ghost predicate AllLater(sub: Subscription, steps: seq<Step>) {
    forall i :: 0 <= i < |steps| && steps[i].Note? && steps[i].event.Ingested? && steps[i].event.entry.Some? ==>
      steps[i].event.entry.value.created > SubAt(sub, steps, i).to
  }

  /**
    A new connection's range ends when it connects. Until it asks for a later end, no event that
    comes in refreshes its events channel.
   */
  lemma LiveEventsDoNotRefresh(sub: Subscription, steps: seq<Step>)
    requires AllLater(sub, steps)
    ensures !Run(sub, steps).pending.events
  {
    PendingIff(sub, steps, EventsMark, |steps|);
    assert steps[..|steps|] == steps;
  }
}
