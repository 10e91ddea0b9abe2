/** A reader of the coalesced stream against one that is told of every event at once. */
module StreamReader {
  import opened Prelude
  import opened StreamCoalescer
  import opened StreamTheorems

  function Applied(rows: Rows, cs: seq<Client>): Rows {
    if cs == [] then rows else Applied(rows, cs[..|cs| - 1])[cs[|cs| - 1].id := cs[|cs| - 1]]
  }

  /** The same rows, the online field aside. */
  ghost predicate SameRows(a: Rows, b: Rows) {
    a.Keys == b.Keys && forall id :: id in a ==> a[id].(online := false) == b[id].(online := false)
  }

  lemma LastIsNew(cs: seq<Client>)
    requires Ascending(cs) && cs != []
    ensures var front, last := cs[..|cs| - 1], cs[|cs| - 1];
      && Ascending(front) && (forall c :: c in cs <==> c in front || c == last)
      && (forall c :: c in front ==> c.id < last.id)
  {
    assert cs == cs[..|cs| - 1] + [cs[|cs| - 1]];
  }

  lemma {:induction false} AppliedAt(rows: Rows, cs: seq<Client>, id: nat)
    requires Ascending(cs)
    ensures id in Applied(rows, cs) <==> id in rows || exists c :: c in cs && c.id == id
    ensures forall c :: c in cs && c.id == id ==> Applied(rows, cs)[id] == c
    ensures id in rows && (forall c :: c in cs ==> c.id != id) ==> Applied(rows, cs)[id] == rows[id]
  {
    if cs != [] {
      var front, last := cs[..|cs| - 1], cs[|cs| - 1];
      LastIsNew(cs);
      AppliedAt(rows, front, id);
    }
  }

  /** Applying a delta is filing the pending rows. */
  lemma DeltaFilesPending(rows: Rows, cs: seq<Client>, clients: Rows, online: nat -> bool)
    requires Filed(clients) && IsDelta(cs, clients, online)
    ensures SameRows(Applied(rows, cs), rows + clients)
  {
    forall id: nat
      ensures id in Applied(rows, cs) <==> id in rows + clients
      ensures id in Applied(rows, cs) ==>
        Applied(rows, cs)[id].(online := false) == (rows + clients)[id].(online := false)
    {
      AppliedAt(rows, cs, id);
      if id in clients {
        assert Shown(clients[id].(online := online(id)), clients, online);
      }
    }
  }

  /** A reader's rows after one message: a snapshot replaces them, a delta is applied to them. */
  function AfterMessage(rows: Rows, m: Message): Rows {
    match m
    case Snapshot(shown) => shown
    case Delta(cs) => Applied(rows, cs)
    case _ => rows
  }

  function AfterMessages(rows: Rows, msgs: seq<Message>): Rows {
    if msgs == [] then rows else AfterMessage(AfterMessages(rows, msgs[..|msgs| - 1]), msgs[|msgs| - 1])
  }

  lemma AfterThen(rows: Rows, msgs: seq<Message>, m: Message)
    ensures AfterMessages(rows, msgs + [m]) == AfterMessage(AfterMessages(rows, msgs), m)
  {
    assert (msgs + [m])[..|msgs|] == msgs;
  }

  lemma AfterNone(rows: Rows, msgs: seq<Message>, more: seq<Message>)
    requires more == []
    ensures AfterMessages(rows, msgs + more) == AfterMessages(rows, msgs)
  {
    assert msgs + more == msgs;
  }

  /** A message for another channel, if it is sent, does nothing to the rows. */
  lemma OtherMessage(rows: Rows, msgs: seq<Message>, sent: bool, m: Message)
    requires !m.Snapshot? && !m.Delta?
    ensures AfterMessages(rows, msgs + When(sent, m)) == AfterMessages(rows, msgs)
  {
    if sent { AfterThen(rows, msgs, m); } else { AfterNone(rows, msgs, When(sent, m)); }
  }

  lemma FirstMessage(rows: Rows, sent: bool, m: Message)
    requires !m.Snapshot? && !m.Delta?
    ensures AfterMessages(rows, When(sent, m)) == rows
  {
    OtherMessage(rows, [], sent, m);
    assert [] + When(sent, m) == When(sent, m);
  }

  lemma OneAfter(rows: Rows, msgs: seq<Message>, clients: seq<Message>)
    requires |clients| <= 1 && AfterMessages(rows, msgs) == rows
    ensures AfterMessages(rows, msgs + clients) == if clients == [] then rows else AfterMessage(rows, clients[0])
  {
    if clients == [] {
      AfterNone(rows, msgs, clients);
    } else {
      assert clients == [clients[0]];
      AfterThen(rows, msgs, clients[0]);
    }
  }

  /** At most one message for the rows, with others around it. */
  lemma AroundOne(rows: Rows, a: bool, x: Message, clients: seq<Message>, b: bool, y: Message)
    requires !x.Snapshot? && !x.Delta? && !y.Snapshot? && !y.Delta? && |clients| <= 1
    ensures AfterMessages(rows, When(a, x) + clients + When(b, y)) ==
            if clients == [] then rows else AfterMessage(rows, clients[0])
  {
    FirstMessage(rows, a, x);
    OneAfter(rows, When(a, x), clients);
    OtherMessage(rows, When(a, x) + clients, b, y);
  }

  /** What a flush does to a reader's rows, whatever else it sends. */
  lemma FlushedRows(rows: Rows, p: Pending, s: Subscription, o: Outcome, cs: seq<Client>)
    ensures AfterMessages(rows, Refresh(p, s, o, cs)) ==
            if p.snapshot then (if o.rows.Some? then o.rows.value else rows)
            else if p.clients != map[] then Applied(rows, cs) else rows
  {
    var clients := if p.snapshot then [if o.rows.Some? then Snapshot(o.rows.value) else Failure]
                   else When(p.clients != map[], Delta(cs));
    AroundOne(rows, p.summary && o.summaryOk, Summary(s.windowMinutes, s.product), clients,
              p.events && o.eventsOk, Events(QueryOf(s)));
  }

  /** The rows of a reader that is told of every noted client at once, and shown the same snapshots. */
  function Direct(sub: Subscription, steps: seq<Step>): Rows {
    if steps == [] then map[]
    else
      var front, last := steps[..|steps| - 1], steps[|steps| - 1];
      var rows, s := Direct(sub, front), Run(sub, front);
      match last
      case Note(ev) => (var c := MarkedClient(s.sub, ev); if c.Some? then rows[c.value.id := c.value] else rows)
      case Flushing(o) => if s.pending.snapshot && o.rows.Some? then o.rows.value else rows
      case Subscribing(_, shown) => if shown.Some? then shown.value else rows
  }

  /** What a reader of the stream may hold after the messages of every flush and the snapshots it asked for. */
  ghost predicate Reader(sub: Subscription, steps: seq<Step>, rows: Rows)
    decreases |steps|, 0
  {
    if steps == [] then rows == map[]
    else
      var front, last := steps[..|steps| - 1], steps[|steps| - 1];
      match last
      case Note(_) => Reader(sub, front, rows)
      case Flushing(o) => exists before, cs :: FlushTo(sub, front, o, before, cs, rows)
      case Subscribing(_, shown) =>
        if shown.Some? then rows == shown.value && HasReader(sub, front) else Reader(sub, front, rows)
  }

  ghost predicate HasReader(sub: Subscription, front: seq<Step>)
    decreases |front|, 1
  {
    exists before :: Reader(sub, front, before)
  }

  ghost predicate FlushTo(sub: Subscription, front: seq<Step>, o: Outcome, before: Rows, cs: seq<Client>, rows: Rows)
    decreases |front|, 1
  {
    var s := Run(sub, front);
    && Reader(sub, front, before) && IsDelta(cs, s.pending.clients, o.online)
    && rows == AfterMessages(before, Refresh(s.pending, s.sub, o, cs))
  }

  /** The snapshot already has what is pending. */
  ghost predicate Covers(shown: Rows, pending: Rows) { SameRows(shown + pending, shown) }

  /**
    Nothing pending is overtaken: a flush that owes a snapshot and a delta gets its snapshot, and
    a subscribe message is answered with rows that have what is pending.
   */
  ghost predicate Keeps(s: State, st: Step) {
    match st
    case Note(_) => true
    case Flushing(o) => s.pending.snapshot && o.rows.None? ==> s.pending.clients == map[]
    case Subscribing(_, shown) => shown.Some? ==> Covers(shown.value, s.pending.clients)
  }

  /** The run from step k on keeps what is pending. */
  ghost predicate Undisturbed(sub: Subscription, steps: seq<Step>, k: nat) {
    forall i :: k <= i < |steps| ==> Keeps(Run(sub, steps[..i]), steps[i])
  }

  /** After k steps both readers have just been shown the same rows, and nothing is pending; or the run begins. */
  ghost predicate Levelled(sub: Subscription, steps: seq<Step>, k: nat)
    requires k <= |steps|
  {
    k == 0 ||
    var s := Run(sub, steps[..k - 1]);
    match steps[k - 1]
    case Note(_) => false
    case Flushing(o) => s.pending.snapshot && o.rows.Some?
    case Subscribing(_, shown) => shown.Some? && s.pending.clients == map[]
  }

  lemma UndisturbedFront(sub: Subscription, steps: seq<Step>, k: nat)
    requires k < |steps| && Levelled(sub, steps, k) && Undisturbed(sub, steps, k)
    ensures var front := steps[..|steps| - 1];
      && Levelled(sub, front, k) && Undisturbed(sub, front, k) && Keeps(Run(sub, front), steps[|steps| - 1])
  {
    var front := steps[..|steps| - 1];
    if k > 0 { assert front[..k - 1] == steps[..k - 1]; }
    forall i | k <= i < |front| ensures Keeps(Run(sub, front[..i]), front[i]) { assert front[..i] == steps[..i]; }
  }

  lemma LevelledIsDirect(sub: Subscription, steps: seq<Step>, rows: Rows)
    requires Levelled(sub, steps, |steps|) && Reader(sub, steps, rows)
    ensures SameRows(rows + Run(sub, steps).pending.clients, Direct(sub, steps))
  {
    if steps != [] {
      var front, last := steps[..|steps| - 1], steps[|steps| - 1];
      if last.Flushing? {
        var before, cs :| FlushTo(sub, front, last.outcome, before, cs, rows);
        var s := Run(sub, front);
        FlushedRows(before, s.pending, s.sub, last.outcome, cs);
      }
      assert rows + map[] == rows;
    }
  }

  lemma NoteKeeps(s: State, ev: HubEvent, rows: Rows, direct: Rows)
    requires SameRows(rows + s.pending.clients, direct)
    ensures var c := MarkedClient(s.sub, ev);
      SameRows(rows + Noted(s.pending, s.sub, ev).clients, if c.Some? then direct[c.value.id := c.value] else direct)
  {}

  lemma FlushKeeps(s: State, o: Outcome, before: Rows, cs: seq<Client>, direct: Rows)
    requires SameRows(before + s.pending.clients, direct) && Keeps(s, Flushing(o))
    requires Filed(s.pending.clients) && IsDelta(cs, s.pending.clients, o.online)
    ensures SameRows(AfterMessages(before, Refresh(s.pending, s.sub, o, cs)),
                     if s.pending.snapshot && o.rows.Some? then o.rows.value else direct)
  {
    FlushedRows(before, s.pending, s.sub, o, cs);
    DeltaFilesPending(before, cs, s.pending.clients, o.online);
    if s.pending.clients == map[] { assert before + s.pending.clients == before; }
  }

  lemma FlushedReader(sub: Subscription, front: seq<Step>, o: Outcome, before: Rows, cs: seq<Client>, rows: Rows)
    requires FlushTo(sub, front, o, before, cs, rows) && Keeps(Run(sub, front), Flushing(o))
    requires SameRows(before + Run(sub, front).pending.clients, Direct(sub, front))
    ensures SameRows(rows + map[],
                     if Run(sub, front).pending.snapshot && o.rows.Some? then o.rows.value else Direct(sub, front))
  {
    RunFiled(sub, front);
    FlushKeeps(Run(sub, front), o, before, cs, Direct(sub, front));
    assert rows + map[] == rows;
  }

  /**
    Since the last moment that levelled the readers, and with no pending delta dropped or overtaken
    after it: what the reader holds and what it is still owed make up what a direct reader holds.
   */
  lemma {:induction false} CoalescedIsDirect(sub: Subscription, steps: seq<Step>, k: nat, rows: Rows)
    requires k <= |steps| && Levelled(sub, steps, k) && Undisturbed(sub, steps, k) && Reader(sub, steps, rows)
    ensures SameRows(rows + Run(sub, steps).pending.clients, Direct(sub, steps))
  {
    if k == |steps| {
      LevelledIsDirect(sub, steps, rows);
    } else {
      var front, last := steps[..|steps| - 1], steps[|steps| - 1];
      UndisturbedFront(sub, steps, k);
      match last
      case Note(ev) =>
        CoalescedIsDirect(sub, front, k, rows);
        NoteKeeps(Run(sub, front), ev, rows, Direct(sub, front));
      case Flushing(o) =>
        var before, cs :| FlushTo(sub, front, o, before, cs, rows);
        CoalescedIsDirect(sub, front, k, before);
        FlushedReader(sub, front, o, before, cs, rows);
      case Subscribing(_, shown) =>
        if shown.None? { CoalescedIsDirect(sub, front, k, rows); }
    }
  }

  /** Right after a flush, the reader holds exactly the rows of a reader told of every event. */
  lemma CaughtUpAfterFlush(sub: Subscription, steps: seq<Step>, k: nat, rows: Rows)
    requires k <= |steps| && Levelled(sub, steps, k) && Undisturbed(sub, steps, k) && Reader(sub, steps, rows)
    requires steps != [] && steps[|steps| - 1].Flushing?
    ensures SameRows(rows, Direct(sub, steps))
  {
    CoalescedIsDirect(sub, steps, k, rows);
    assert rows + map[] == rows;
  }

  // ---------------------------------------------------------------------
  // One client: exactly when the readers agree on it
  // ---------------------------------------------------------------------

  /** The row of a client, the online field aside. */
  function Seen(rows: Rows, id: nat): Option<Client> {
    if id in rows then Some(rows[id].(online := false)) else None
  }

  /** What the reader holds, what it is owed and what a direct reader holds of one client. */
  datatype View = View(held: Option<Client>, owed: Option<Client>, direct: Option<Client>)

  /** What a step does about one client. */
  datatype Effect =
    | Marks(row: Client)
    | Delivers
    | Sends(shown: Option<Client>)
    | Loses
    | Answers(shown: Option<Client>)
    | Nothing

  function EffectOf(s: State, st: Step, id: nat): Effect {
    match st
    case Note(ev) =>
      var c := MarkedClient(s.sub, ev);
      if c.Some? && c.value.id == id then Effect.Marks(c.value.(online := false)) else Nothing
    case Flushing(o) =>
      if !s.pending.snapshot then Delivers else if o.rows.Some? then Sends(Seen(o.rows.value, id)) else Loses
    case Subscribing(_, shown) => if shown.Some? then Answers(Seen(shown.value, id)) else Nothing
  }

  function Moved(v: View, e: Effect): View {
    match e
    case Marks(row) => View(v.held, Some(row), Some(row))
    case Delivers => View(if v.owed.Some? then v.owed else v.held, None, v.direct)
    case Sends(row) => View(row, None, row)
    case Loses => View(v.held, None, v.direct)
    case Answers(row) => View(row, v.owed, row)
    case Nothing => v
  }

  function Fold(es: seq<Effect>): View {
    if es == [] then View(None, None, None) else Moved(Fold(es[..|es| - 1]), es[|es| - 1])
  }

  predicate Agree(v: View) { (if v.owed.Some? then v.owed else v.held) == v.direct }

  /** A step after which the readers' agreement on the client does not depend on the one before it. */
  predicate Decides(v: View, e: Effect) { e.Marks? || e.Sends? || e.Answers? || (e.Loses? && v.owed.Some?) }

  /** The last step that decides. */
  function LastDecision(es: seq<Effect>): (r: Option<nat>)
    ensures r.Some? ==> r.value < |es|
  {
    if es == [] then None
    else
      var n := |es| - 1;
      if Decides(Fold(es[..n]), es[n]) then Some(n) else LastDecision(es[..n])
  }

  /**
    A mark and a snapshot that is sent settle the client. An answer does unless it overtakes an owed
    row that it lacks. A lost delta does if the reader already had its row, or was answered since the mark.
   */
  predicate Settles(es: seq<Effect>, i: nat)
    requires i < |es|
  {
    var v := Fold(es[..i]);
    match es[i]
    case Answers(row) => v.owed.Some? ==> v.owed == row
    case Loses => v.held == v.owed || (var d := LastDecision(es[..i]); d.Some? && es[d.value].Answers?)
    case _ => true
  }

  predicate Settled(es: seq<Effect>) { var d := LastDecision(es); d.Some? ==> Settles(es, d.value) }

  /** What is known of the view by the last decision. */
  predicate Known(es: seq<Effect>) {
    var v, d := Fold(es), LastDecision(es);
    && (v.owed.Some? ==> d.Some? && (es[d.value].Marks? || es[d.value].Answers?))
    && (v.owed.Some? && es[d.value].Marks? ==> v.direct == v.owed)
    && (v.owed.Some? && es[d.value].Answers? ==> v.held == v.direct)
  }

  lemma {:induction false} AgreeIffSettled(es: seq<Effect>)
    ensures Known(es) && (Agree(Fold(es)) <==> Settled(es))
  {
    if es != [] {
      var n := |es| - 1;
      var front, e := es[..n], es[n];
      AgreeIffSettled(front);
      if !Decides(Fold(front), e) { SettlesBefore(es); }
    }
  }

  lemma SettlesBefore(es: seq<Effect>)
    requires es != [] && !Decides(Fold(es[..|es| - 1]), es[|es| - 1])
    ensures Settled(es) <==> Settled(es[..|es| - 1])
  {
    var front := es[..|es| - 1];
    var d := LastDecision(front);
    if d.Some? { assert es[..d.value] == front[..d.value]; }
  }

  /** The effects of a run's steps on one client. */
  function Effects(sub: Subscription, steps: seq<Step>, id: nat): (es: seq<Effect>)
    ensures |es| == |steps|
  {
    if steps == [] then []
    else
      var front, last := steps[..|steps| - 1], steps[|steps| - 1];
      Effects(sub, front, id) + [EffectOf(Run(sub, front), last, id)]
  }

  /** The rows of a reader of the stream, the online field aside. */
  function Stream(sub: Subscription, steps: seq<Step>): Rows {
    if steps == [] then map[]
    else
      var front, last := steps[..|steps| - 1], steps[|steps| - 1];
      var rows, p := Stream(sub, front), Run(sub, front).pending;
      match last
      case Note(_) => rows
      case Flushing(o) =>
        if !p.snapshot then rows + p.clients else if o.rows.Some? then o.rows.value else rows
      case Subscribing(_, shown) => if shown.Some? then shown.value else rows
  }

  lemma FlushIsStream(rows: Rows, before: Rows, s: State, o: Outcome, cs: seq<Client>)
    requires SameRows(before, rows) && Filed(s.pending.clients) && IsDelta(cs, s.pending.clients, o.online)
    ensures SameRows(AfterMessages(before, Refresh(s.pending, s.sub, o, cs)),
                     if !s.pending.snapshot then rows + s.pending.clients
                     else if o.rows.Some? then o.rows.value else rows)
  {
    FlushedRows(before, s.pending, s.sub, o, cs);
    DeltaFilesPending(before, cs, s.pending.clients, o.online);
    if s.pending.clients == map[] { assert rows + s.pending.clients == rows; }
  }

  lemma {:induction false} ReaderIsStream(sub: Subscription, steps: seq<Step>, rows: Rows)
    requires Reader(sub, steps, rows)
    ensures SameRows(rows, Stream(sub, steps))
  {
    if steps != [] {
      var front, last := steps[..|steps| - 1], steps[|steps| - 1];
      match last
      case Note(_) => ReaderIsStream(sub, front, rows);
      case Flushing(o) =>
        var before, cs :| FlushTo(sub, front, o, before, cs, rows);
        ReaderIsStream(sub, front, before);
        RunFiled(sub, front);
        FlushIsStream(Stream(sub, front), before, Run(sub, front), o, cs);
      case Subscribing(_, shown) =>
        if shown.None? { ReaderIsStream(sub, front, rows); }
    }
  }

  function ViewOf(sub: Subscription, steps: seq<Step>, id: nat): View {
    View(Seen(Stream(sub, steps), id), Seen(Run(sub, steps).pending.clients, id), Seen(Direct(sub, steps), id))
  }

  lemma ViewAfter(sub: Subscription, steps: seq<Step>, id: nat)
    requires steps != []
    ensures var front := steps[..|steps| - 1];
      ViewOf(sub, steps, id) == Moved(ViewOf(sub, front, id), EffectOf(Run(sub, front), steps[|steps| - 1], id))
  {}

  lemma {:induction false} ViewIsFold(sub: Subscription, steps: seq<Step>, id: nat)
    ensures ViewOf(sub, steps, id) == Fold(Effects(sub, steps, id))
  {
    if steps != [] {
      var n := |steps| - 1;
      ViewIsFold(sub, steps[..n], id);
      ViewAfter(sub, steps, id);
      assert Effects(sub, steps, id)[..n] == Effects(sub, steps[..n], id);
    }
  }

  lemma SameRowsIff(a: Rows, b: Rows)
    ensures SameRows(a, b) <==> forall id: nat :: Seen(a, id) == Seen(b, id)
  {
    if forall id: nat :: Seen(a, id) == Seen(b, id) {
      forall id: nat ensures id in a <==> id in b { assert Seen(a, id) == Seen(b, id); }
      forall id: nat | id in a ensures a[id].(online := false) == b[id].(online := false) {
        assert Seen(a, id) == Seen(b, id);
      }
    }
  }

  /**
    In every run, what the reader holds and is owed of a client is what a direct reader holds of it
    exactly when the last step that decides about the client settles it.
   */
  lemma AgreeOnClientIff(sub: Subscription, steps: seq<Step>, rows: Rows, id: nat)
    requires Reader(sub, steps, rows)
    ensures Seen(rows + Run(sub, steps).pending.clients, id) == Seen(Direct(sub, steps), id) <==>
            Settled(Effects(sub, steps, id))
  {
    ReaderIsStream(sub, steps, rows);
    SameRowsIff(rows, Stream(sub, steps));
    assert Seen(rows, id) == Seen(Stream(sub, steps), id);
    ViewIsFold(sub, steps, id);
    AgreeIffSettled(Effects(sub, steps, id));
  }

  /** The readers agree on all rows exactly when every client is settled. */
  lemma AgreeIff(sub: Subscription, steps: seq<Step>, rows: Rows)
    requires Reader(sub, steps, rows)
    ensures SameRows(rows + Run(sub, steps).pending.clients, Direct(sub, steps)) <==>
            forall id: nat :: Settled(Effects(sub, steps, id))
  {
    var owed, direct := rows + Run(sub, steps).pending.clients, Direct(sub, steps);
    SameRowsIff(owed, direct);
    if SameRows(owed, direct) {
      forall id: nat ensures Settled(Effects(sub, steps, id)) {
        AgreeOnClientIff(sub, steps, rows, id);
        assert Seen(owed, id) == Seen(direct, id);
      }
    } else {
      var id: nat :| Seen(owed, id) != Seen(direct, id);
      AgreeOnClientIff(sub, steps, rows, id);
    }
  }

  // ---------------------------------------------------------------------
  // A delta that is lost and one that overtakes
  // ---------------------------------------------------------------------

  const LISTENER := Subscription(false, true, false, 15, true, "emly", "", 0, 0)

  /** A tick whose snapshot query fails takes the deltas of its window with it. */
  lemma FailedSnapshotLosesDelta(c: Client, o: Outcome) returns (steps: seq<Step>, rows: Rows)
    requires o.rows.None?
    ensures steps == [Note(Ingested(Some(c), None)), Note(Tick), Flushing(o)]
    ensures Reader(LISTENER, steps, rows) && Run(LISTENER, steps).pending == NOTHING
      && !SameRows(rows, Direct(LISTENER, steps))
  {
    var one := [Note(Ingested(Some(c), None))];
    var two := one + [Note(Tick)];
    steps, rows := two + [Flushing(o)], map[];
    assert one[..0] == [] && two[..1] == one && steps[..2] == two;
    assert Reader(LISTENER, one, map[]) && Reader(LISTENER, two, map[]);
    assert Run(LISTENER, one[..0]) == State(LISTENER, NOTHING);
    assert Run(LISTENER, one).pending == Pending(false, false, false, map[c.id := c]);
    var s := Run(LISTENER, two);
    assert s.pending == Pending(false, false, true, map[c.id := c]);
    var cs := [c.(online := o.online(c.id))];
    assert IsDelta(cs, s.pending.clients, o.online);
    FlushedRows(map[], s.pending, s.sub, o, cs);
    assert FlushTo(LISTENER, two, o, map[], cs, rows);
    assert c.id in Direct(LISTENER, one) && Direct(LISTENER, two) == Direct(LISTENER, one);
    assert Direct(LISTENER, steps) == Direct(LISTENER, two);
  }

  lemma AnsweredWhileOwed(c: Client, shown: Rows) returns (steps: seq<Step>)
    ensures steps == [Note(Ingested(Some(c), None)), Subscribing(LISTENER, Some(shown))]
    ensures Run(LISTENER, steps) == State(LISTENER, Pending(false, false, false, map[c.id := c]))
    ensures Reader(LISTENER, steps, shown) && Direct(LISTENER, steps) == shown
  {
    var one := [Note(Ingested(Some(c), None))];
    steps := one + [Subscribing(LISTENER, Some(shown))];
    assert one[..0] == [] && steps[..1] == one;
    assert Run(LISTENER, one[..0]) == State(LISTENER, NOTHING);
    assert Run(LISTENER, one).pending == Pending(false, false, false, map[c.id := c]);
    assert Reader(LISTENER, one, map[]);
    assert HasReader(LISTENER, one);
  }

  /** A subscribe answered while an older row is owed: the next flush puts the older row back. */
  lemma OlderRowOvertakes(c: Client, newer: Client, o: Outcome) returns (steps: seq<Step>, rows: Rows)
    requires newer.id == c.id && newer.details != c.details
    ensures steps == [Note(Ingested(Some(c), None)), Subscribing(LISTENER, Some(map[c.id := newer])), Flushing(o)]
    ensures Reader(LISTENER, steps, rows) && Run(LISTENER, steps).pending == NOTHING
      && !SameRows(rows, Direct(LISTENER, steps))
  {
    var shown: Rows := map[c.id := newer];
    var two := AnsweredWhileOwed(c, shown);
    steps := two + [Flushing(o)];
    assert steps[..2] == two;
    var s := Run(LISTENER, two);
    var cs := [c.(online := o.online(c.id))];
    assert IsDelta(cs, s.pending.clients, o.online);
    rows := AfterMessages(shown, Refresh(s.pending, s.sub, o, cs));
    assert FlushTo(LISTENER, two, o, shown, cs, rows);
    FlushedRows(shown, s.pending, s.sub, o, cs);
    assert c.id in s.pending.clients && Direct(LISTENER, steps) == Direct(LISTENER, two);
    OlderRowBack(shown, cs, c, newer, o);
  }

  lemma OlderRowBack(shown: Rows, cs: seq<Client>, c: Client, newer: Client, o: Outcome)
    requires shown == map[c.id := newer] && newer.details != c.details && IsDelta(cs, map[c.id := c], o.online)
    ensures !SameRows(Applied(shown, cs), shown)
  {
    DeltaFilesPending(shown, cs, map[c.id := c], o.online);
    assert (shown + map[c.id := c])[c.id] == c;
    assert Applied(shown, cs)[c.id].(online := false).details == c.details;
  }
}
