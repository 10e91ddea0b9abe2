/**
  The client upsert taken apart: its lookups, its DELETE and its UPDATE or INSERT are statements
  of their own, with no transaction around them, and the statements of other calls come in between.
 */
module UpsertSteps {
  import opened Prelude
  import opened ClientUpsert
  import opened UpsertTheorems

  /** How far a call has come. Done carries the returned id, or None when the database refused the write. */
  datatype Phase = LookedUp | Found | Purged | Done(result: Option<nat>)

  datatype Call = Call(id: Identity, target: Option<nat>, phase: Phase)

  datatype World = World(t: Table, calls: map<nat, Call>)

  const START := World(NEW, map[])

  /** Remove: a client deleted by another route. */
  datatype Step =
    | SelectHwid(c: nat, id: Identity)
    | SelectPair(c: nat)
    | Purge(c: nat)
    | WriteRow(c: nat, now: int)
    | Remove(k: nat)

  predicate InPhase(w: World, c: nat, phase: Phase) { c in w.calls && w.calls[c].phase == phase }

  ghost function ByHwid(rows: Rows, id: Identity): Option<nat> {
    if id.hwid != "" then FindHwid(rows, id.hwid) else None
  }

  ghost function ByPair(rows: Rows, id: Identity, target: Option<nat>): Option<nat> {
    if target.Some? then target
    else if id.hostname != "" then FindPair(rows, id.hostname, id.adDomain)
    else None
  }

  /** What the last statement writes and where; nothing when the row to update is gone. */
  ghost function Writing(t: Table, call: Call, now: int): Option<(nat, Row)> {
    if call.target.None? then Some((t.nextId, InsertedRow(call.id, now)))
    else if call.target.value in t.rows
    then Some((call.target.value, UpdatedRow(call.id, t.rows[call.target.value], now)))
    else None
  }

  ghost predicate Refused(t: Table, call: Call, now: int) {
    var x := Writing(t, call, now);
    x.Some? && Collides(t.rows, x.value.0, x.value.1)
  }

  ghost function AfterWrite(t: Table, call: Call, now: int): Table {
    var x := Writing(t, call, now);
    if x.None? || Refused(t, call, now) then t
    else Table(t.rows[x.value.0 := x.value.1], if call.target.None? then t.nextId + 1 else t.nextId)
  }

  ghost function Returned(t: Table, call: Call, now: int): Option<nat> {
    if Refused(t, call, now) then None else if call.target.Some? then call.target else Some(t.nextId)
  }

  /** One statement. A step that cannot happen changes nothing. */
  ghost function Take(w: World, st: Step): World {
    match st
    case SelectHwid(c, id) =>
      if c in w.calls then w else w.(calls := w.calls[c := Call(id, ByHwid(w.t.rows, id), LookedUp)])
    case SelectPair(c) =>
      if !InPhase(w, c, LookedUp) then w
      else
        var call := w.calls[c];
        w.(calls := w.calls[c := call.(target := ByPair(w.t.rows, call.id, call.target), phase := Found)])
    case Purge(c) =>
      if !InPhase(w, c, Found) then w
      else
        var call := w.calls[c];
        World(w.t.(rows := WithoutSquatters(w.t.rows, call.id, call.target)), w.calls[c := call.(phase := Purged)])
    case WriteRow(c, now) =>
      if !InPhase(w, c, Purged) then w
      else
        var call := w.calls[c];
        World(AfterWrite(w.t, call, now), w.calls[c := call.(phase := Done(Returned(w.t, call, now)))])
    case Remove(k) => w.(t := w.t.(rows := w.t.rows - {k}))
  }

  ghost function Run(steps: seq<Step>): World {
    if steps == [] then START else Take(Run(steps[..|steps| - 1]), steps[|steps| - 1])
  }

  lemma RunPrefix(steps: seq<Step>, n: nat)
    requires n < |steps|
    ensures Run(steps[..n + 1]) == Take(Run(steps[..n]), steps[n])
  {
    assert steps[..n + 1][..n] == steps[..n];
  }

  // ---------------------------------------------------------------------
  // One call alone
  // ---------------------------------------------------------------------

  /** The statements of a call with nothing in between. */
  ghost function AloneRun(w: World, c: nat, id: Identity, now: int): World {
    Take(Take(Take(Take(w, SelectHwid(c, id)), SelectPair(c)), Purge(c)), WriteRow(c, now))
  }

  lemma AloneBeforeWrite(w: World, c: nat, id: Identity)
    requires c !in w.calls
    ensures var target := Target(w.t.rows, id);
      Take(Take(Take(w, SelectHwid(c, id)), SelectPair(c)), Purge(c))
      == World(w.t.(rows := WithoutSquatters(w.t.rows, id, target)), w.calls[c := Call(id, target, Purged)])
  {
    var one := Take(w, SelectHwid(c, id));
    var two := Take(one, SelectPair(c));
    assert two.calls == w.calls[c := Call(id, Target(w.t.rows, id), Found)];
    assert w.calls[c := Call(id, Target(w.t.rows, id), Found)][c := Call(id, Target(w.t.rows, id), Purged)]
        == w.calls[c := Call(id, Target(w.t.rows, id), Purged)];
  }

  /** They come to the sighting as one step. */
  lemma AloneIsUpsert(w: World, c: nat, id: Identity, now: int)
    requires c !in w.calls && Sound(w.t)
    ensures AloneRun(w, c, id, now)
         == World(Upserted(w.t, id, now), w.calls[c := Call(id, Target(w.t.rows, id), Done(Outcome(w.t, id, now)))])
  {
    AloneBeforeWrite(w, c, id);
    AloneWrite(w.t, id, now);
    var call := Call(id, Target(w.t.rows, id), Purged);
    assert w.calls[c := call][c := call.(phase := Done(Outcome(w.t, id, now)))]
        == w.calls[c := call.(phase := Done(Outcome(w.t, id, now)))];
  }

  lemma AloneWrite(t: Table, id: Identity, now: int)
    requires Sound(t)
    ensures var call := Call(id, Target(t.rows, id), Purged);
      var purged := t.(rows := WithoutSquatters(t.rows, id, call.target));
      AfterWrite(purged, call, now) == Upserted(t, id, now) && Returned(purged, call, now) == Outcome(t, id, now)
  {
    var target := Target(t.rows, id);
    var purged := t.(rows := WithoutSquatters(t.rows, id, target));
    if target.Some? { assert purged.rows[target.value] == t.rows[target.value]; }
    assert Writing(purged, Call(id, target, Purged), now) == Some(Written(t, id, now));
  }

  // ---------------------------------------------------------------------
  // What every interleaving keeps
  // ---------------------------------------------------------------------

  lemma TakeSound(w: World, st: Step)
    requires Sound(w.t)
    ensures Sound(Take(w, st).t) && w.t.nextId <= Take(w, st).t.nextId
  {
    if st.WriteRow? && InPhase(w, st.c, Purged) {
      var x := Writing(w.t, w.calls[st.c], st.now);
      if x.Some? { WriteKeepsUnique(w.t.rows, x.value.0, x.value.1); }
    }
  }

  /** Both keys are unique in every interleaving. */
  lemma {:induction false} InterleavedSound(steps: seq<Step>)
    ensures Sound(Run(steps).t)
  {
    if steps != [] {
      InterleavedSound(steps[..|steps| - 1]);
      TakeSound(Run(steps[..|steps| - 1]), steps[|steps| - 1]);
    }
  }

  /** A step writes this row under k. */
  ghost predicate Writes(w: World, st: Step, k: nat, row: Row) {
    && st.WriteRow? && InPhase(w, st.c, Purged)
    && Writing(w.t, w.calls[st.c], st.now) == Some((k, row)) && !Refused(w.t, w.calls[st.c], st.now)
  }

  /** A step deletes the row of k. */
  ghost predicate Drops(w: World, st: Step, k: nat) { k in w.t.rows && k !in Take(w, st).t.rows }

  ghost predicate Touches(w: World, st: Step, k: nat) { Drops(w, st, k) || (exists row :: Writes(w, st, k, row)) }

  ghost predicate HasRow(w: World, k: nat, row: Row) { k in w.t.rows && w.t.rows[k] == row }

  lemma HasRowAfter(w: World, st: Step, k: nat, row: Row)
    ensures HasRow(Take(w, st), k, row) <==> Writes(w, st, k, row) || (HasRow(w, k, row) && !Touches(w, st, k))
  {
    if st.WriteRow? && InPhase(w, st.c, Purged) {
      var x := Writing(w.t, w.calls[st.c], st.now);
      if x.Some? && !Refused(w.t, w.calls[st.c], st.now) {
        assert Writes(w, st, x.value.0, x.value.1);
      }
    }
  }

  /**
    A call writes its pair and its hwid, if it has one, in one row and nothing else; what it deletes
    is at most one row with its pair, and never its target.
   */
  lemma StatementEffect(w: World, st: Step)
    requires Sound(w.t)
    ensures forall k: nat, row :: Writes(w, st, k, row) ==>
      && SamePair(row, w.calls[st.c].id.hostname, w.calls[st.c].id.adDomain)
      && (w.calls[st.c].id.hwid != "" ==> SameHwid(row, w.calls[st.c].id.hwid))
      && (w.calls[st.c].target.Some? ==> w.calls[st.c].target == Some(k))
    ensures forall k :: Drops(w, st, k) && !st.Remove? ==>
      st.Purge? && InPhase(w, st.c, Found) && Squats(w.t.rows, w.calls[st.c].id, w.calls[st.c].target, k)
    ensures forall j, k :: Drops(w, st, j) && Drops(w, st, k) ==> j == k
    ensures forall k :: k in w.t.rows && !Touches(w, st, k) ==> HasRow(Take(w, st), k, w.t.rows[k])
  {
    forall k | k in w.t.rows && !Touches(w, st, k) ensures HasRow(Take(w, st), k, w.t.rows[k]) {
      HasRowAfter(w, st, k, w.t.rows[k]);
    }
    forall j, k | Drops(w, st, j) && Drops(w, st, k) ensures j == k {
      if st.Purge? { assert Clash(w.t.rows[j], w.t.rows[k]); }
    }
  }

  // ---------------------------------------------------------------------
  // The history of a row
  // ---------------------------------------------------------------------

  ghost predicate WritesAt(steps: seq<Step>, j: nat, k: nat, row: Row)
    requires j < |steps|
  {
    Writes(Run(steps[..j]), steps[j], k, row)
  }

  ghost predicate TouchesAt(steps: seq<Step>, j: nat, k: nat)
    requires j < |steps|
  {
    Touches(Run(steps[..j]), steps[j], k)
  }

  ghost predicate DropsAt(steps: seq<Step>, j: nat, k: nat)
    requires j < |steps|
  {
    Drops(Run(steps[..j]), steps[j], k)
  }

  /** The row that step j wrote under k is still there before step n. */
  ghost predicate Stands(steps: seq<Step>, j: nat, n: nat, k: nat, row: Row)
    requires j < n <= |steps|
  {
    WritesAt(steps, j, k, row) && forall i :: j < i < n ==> !TouchesAt(steps, i, k)
  }

  ghost predicate SomeStands(steps: seq<Step>, n: nat, k: nat, row: Row)
    requires n <= |steps|
  {
    exists j: nat :: j < n && Stands(steps, j, n, k, row)
  }

  lemma StandsLonger(steps: seq<Step>, j: nat, n: nat, k: nat, row: Row)
    requires j < n < |steps|
    ensures Stands(steps, j, n + 1, k, row) <==> Stands(steps, j, n, k, row) && !TouchesAt(steps, n, k)
  {}

  lemma StandsAtOnce(steps: seq<Step>, n: nat, k: nat, row: Row)
    requires n < |steps|
    ensures Stands(steps, n, n + 1, k, row) <==> WritesAt(steps, n, k, row)
  {}

  lemma SomeStandsOn(steps: seq<Step>, n: nat, k: nat, row: Row)
    requires n < |steps| && SomeStands(steps, n, k, row) && !TouchesAt(steps, n, k)
    ensures SomeStands(steps, n + 1, k, row)
  {
    var j: nat :| j < n && Stands(steps, j, n, k, row);
    StandsLonger(steps, j, n, k, row);
  }

  lemma SomeStandsBefore(steps: seq<Step>, n: nat, k: nat, row: Row)
    requires n < |steps| && SomeStands(steps, n + 1, k, row) && !WritesAt(steps, n, k, row)
    ensures SomeStands(steps, n, k, row) && !TouchesAt(steps, n, k)
  {
    var j: nat :| j < n + 1 && Stands(steps, j, n + 1, k, row);
    StandsAtOnce(steps, n, k, row);
    StandsLonger(steps, j, n, k, row);
  }

  /** A row is in the table exactly when some step wrote it and no later one wrote or deleted under its id. */
  lemma {:induction false} RowStandsIff(steps: seq<Step>, n: nat, k: nat, row: Row)
    requires n <= |steps|
    ensures HasRow(Run(steps[..n]), k, row) <==> SomeStands(steps, n, k, row)
  {
    if n > 0 {
      RowStandsIff(steps, n - 1, k, row);
      RunPrefix(steps, n - 1);
      HasRowAfter(Run(steps[..n - 1]), steps[n - 1], k, row);
      StandsAtOnce(steps, n - 1, k, row);
      if SomeStands(steps, n - 1, k, row) && !TouchesAt(steps, n - 1, k) {
        SomeStandsOn(steps, n - 1, k, row);
      }
      if SomeStands(steps, n, k, row) && !WritesAt(steps, n - 1, k, row) {
        SomeStandsBefore(steps, n - 1, k, row);
      }
    }
  }

  /** A row that stands from step j was there before every later step. */
  lemma StandsThroughout(steps: seq<Step>, j: nat, i: nat, n: nat, k: nat, row: Row)
    requires j < i <= n <= |steps| && Stands(steps, j, n, k, row)
    ensures HasRow(Run(steps[..i]), k, row)
  {
    assert Stands(steps, j, i, k, row);
    RowStandsIff(steps, i, k, row);
  }

  // ---------------------------------------------------------------------
  // The course of a call
  // ---------------------------------------------------------------------

  function Rank(phase: Phase): nat {
    match phase
    case LookedUp => 0
    case Found => 1
    case Purged => 2
    case Done(_) => 3
  }

  ghost predicate Course(before: World, after: World, c: nat) {
    c in before.calls ==>
      && c in after.calls && after.calls[c].id == before.calls[c].id
      && Rank(before.calls[c].phase) <= Rank(after.calls[c].phase)
      && (before.calls[c].target.Some? || before.calls[c].phase != LookedUp ==>
            after.calls[c].target == before.calls[c].target)
  }

  lemma TakeCourse(w: World, st: Step, c: nat)
    ensures Course(w, Take(w, st), c)
  {}

  lemma CourseOn(a: World, b: World, d: World, c: nat)
    requires Course(a, b, c) && Course(b, d, c)
    ensures Course(a, d, c)
  {}

  lemma {:induction false} RunCourse(steps: seq<Step>, i: nat, n: nat, c: nat)
    requires i <= n <= |steps|
    ensures Course(Run(steps[..i]), Run(steps[..n]), c)
  {
    if i < n {
      RunCourse(steps, i, n - 1, c);
      RunPrefix(steps, n - 1);
      TakeCourse(Run(steps[..n - 1]), steps[n - 1], c);
      CourseOn(Run(steps[..i]), Run(steps[..n - 1]), Run(steps[..n]), c);
    }
  }

  /** Step l starts call c, step s looks for its pair, step p deletes for it, step n writes for it. */
  ghost predicate CallAt(steps: seq<Step>, c: nat, id: Identity, l: nat, s: nat, p: nat, n: nat) {
    && l < |steps| && s < |steps| && p < |steps| && n < |steps|
    && steps[l] == SelectHwid(c, id) && c !in Run(steps[..l]).calls
    && steps[s] == SelectPair(c) && InPhase(Run(steps[..s]), c, LookedUp)
    && steps[p] == Purge(c) && InPhase(Run(steps[..p]), c, Found)
    && steps[n].WriteRow? && steps[n].c == c && InPhase(Run(steps[..n]), c, Purged)
  }

  lemma Precedes(steps: seq<Step>, i: nat, j: nat, c: nat)
    requires i < |steps| && j < |steps| && c in Run(steps[..j]).calls
    requires c !in Run(steps[..i]).calls || Rank(Run(steps[..i]).calls[c].phase) < Rank(Run(steps[..j]).calls[c].phase)
    ensures i < j
  {
    if j <= i { RunCourse(steps, j, i, c); }
  }

  /** A call's statements come in order, and its target is what its lookups found. */
  lemma CallInOrder(steps: seq<Step>, c: nat, id: Identity, l: nat, s: nat, p: nat, n: nat)
    requires CallAt(steps, c, id, l, s, p, n)
    ensures l < s < p < n
    ensures var byHwid := ByHwid(Run(steps[..l]).t.rows, id);
      var target := ByPair(Run(steps[..s]).t.rows, id, byHwid);
      && Run(steps[..p]).calls[c] == Call(id, target, Found)
      && Run(steps[..n]).calls[c] == Call(id, target, Purged)
  {
    Precedes(steps, l, s, c);
    Precedes(steps, s, p, c);
    Precedes(steps, p, n, c);
    RunPrefix(steps, l);
    RunCourse(steps, l + 1, s, c);
    StillLookedUp(steps, l, s, c);
    RunPrefix(steps, s);
    RunCourse(steps, s + 1, p, c);
    RunCourse(steps, s + 1, n, c);
  }

  /** A call that has only made its first lookup has the target of that lookup. */
  lemma {:induction false} StillLookedUp(steps: seq<Step>, l: nat, s: nat, c: nat)
    requires l < s < |steps| && c in Run(steps[..l + 1]).calls && InPhase(Run(steps[..s]), c, LookedUp)
    ensures Run(steps[..s]).calls[c] == Run(steps[..l + 1]).calls[c]
  {
    if s > l + 1 {
      RunPrefix(steps, s - 1);
      RunCourse(steps, l + 1, s - 1, c);
      TakeCourse(Run(steps[..s - 1]), steps[s - 1], c);
      StillLookedUp(steps, l, s - 1, c);
    }
  }

  // ---------------------------------------------------------------------
  // Lost targets
  // ---------------------------------------------------------------------

  ghost predicate Gone(w: World, k: nat) { k !in w.t.rows && k < w.t.nextId }

  lemma TakeGone(w: World, st: Step, k: nat)
    requires Gone(w, k)
    ensures Gone(Take(w, st), k)
  {}

  /** Ids are not handed out again: a deleted row stays away. */
  lemma {:induction false} GoneForGood(steps: seq<Step>, i: nat, n: nat, k: nat)
    requires i <= n <= |steps| && Gone(Run(steps[..i]), k)
    ensures Gone(Run(steps[..n]), k)
  {
    if i < n {
      GoneForGood(steps, i, n - 1, k);
      RunPrefix(steps, n - 1);
      TakeGone(Run(steps[..n - 1]), steps[n - 1], k);
    }
  }

  lemma {:induction false} SomeStepDropped(steps: seq<Step>, i: nat, n: nat, k: nat) returns (j: nat)
    requires i <= n <= |steps| && k in Run(steps[..i]).t.rows && k !in Run(steps[..n]).t.rows
    ensures i <= j < n && DropsAt(steps, j, k)
  {
    RunPrefix(steps, n - 1);
    if k in Run(steps[..n - 1]).t.rows { j := n - 1; } else { j := SomeStepDropped(steps, i, n - 1, k); }
  }

  predicate ByAnother(st: Step, c: nat, k: nat) { st == Remove(k) || (st.Purge? && st.c != c) }

  /** Between the lookups and the write of a call, its target was deleted by another call or another route. */
  ghost predicate TargetLost(steps: seq<Step>, c: nat, l: nat, n: nat)
    requires n < |steps| && c in Run(steps[..n]).calls
  {
    var target := Run(steps[..n]).calls[c].target;
    && target.Some?
    && exists j: nat :: l < j < n && DropsAt(steps, j, target.value) && ByAnother(steps[j], c, target.value)
  }

  lemma TargetWasThere(steps: seq<Step>, c: nat, id: Identity, l: nat, s: nat, p: nat, n: nat) returns (i: nat)
    requires CallAt(steps, c, id, l, s, p, n) && Run(steps[..n]).calls[c].target.Some?
    ensures l < i <= p && Run(steps[..n]).calls[c].target.value in Run(steps[..i]).t.rows
  {
    CallInOrder(steps, c, id, l, s, p, n);
    RunPrefix(steps, l);
    RunPrefix(steps, s);
    i := if ByHwid(Run(steps[..l]).t.rows, id).Some? then l + 1 else s + 1;
  }

  /** A call's own statements never delete its target. */
  lemma DroppedByOthers(steps: seq<Step>, c: nat, id: Identity, l: nat, s: nat, p: nat, n: nat, j: nat, k: nat)
    requires CallAt(steps, c, id, l, s, p, n) && Run(steps[..n]).calls[c].target == Some(k)
    requires l < j < n && DropsAt(steps, j, k)
    ensures ByAnother(steps[j], c, k)
  {
    CallInOrder(steps, c, id, l, s, p, n);
    InterleavedSound(steps[..j]);
    StatementEffect(Run(steps[..j]), steps[j]);
    if steps[j].Purge? && steps[j].c == c {
      RunCourse(steps, j, n, c);
    }
  }

  /** The row to update is gone exactly when someone else deleted it since it was looked up. */
  lemma TargetLostIff(steps: seq<Step>, c: nat, id: Identity, l: nat, s: nat, p: nat, n: nat)
    requires CallAt(steps, c, id, l, s, p, n)
    ensures var w := Run(steps[..n]);
      TargetLost(steps, c, l, n) <==> w.calls[c].target.Some? && w.calls[c].target.value !in w.t.rows
  {
    CallInOrder(steps, c, id, l, s, p, n);
    var w := Run(steps[..n]);
    if w.calls[c].target.Some? && w.calls[c].target.value !in w.t.rows {
      GoneIsLost(steps, c, id, l, s, p, n);
    }
    if TargetLost(steps, c, l, n) {
      var k := w.calls[c].target.value;
      var j: nat :| l < j < n && DropsAt(steps, j, k);
      DroppedIsGone(steps, j, n, k);
    }
  }

  lemma GoneIsLost(steps: seq<Step>, c: nat, id: Identity, l: nat, s: nat, p: nat, n: nat)
    requires CallAt(steps, c, id, l, s, p, n)
    requires var w := Run(steps[..n]); w.calls[c].target.Some? && w.calls[c].target.value !in w.t.rows
    ensures TargetLost(steps, c, l, n)
  {
    var k := Run(steps[..n]).calls[c].target.value;
    CallInOrder(steps, c, id, l, s, p, n);
    var i := TargetWasThere(steps, c, id, l, s, p, n);
    var j := SomeStepDropped(steps, i, n, k);
    DroppedByOthers(steps, c, id, l, s, p, n, j, k);
  }

  lemma DroppedIsGone(steps: seq<Step>, j: nat, n: nat, k: nat)
    requires j < n <= |steps| && DropsAt(steps, j, k)
    ensures k !in Run(steps[..n]).t.rows
  {
    RunPrefix(steps, j);
    InterleavedSound(steps[..j]);
    TakeSound(Run(steps[..j]), steps[j]);
    assert Gone(Run(steps[..j + 1]), k);
    GoneForGood(steps, j + 1, n, k);
  }

  /** In every interleaving, a call that is not refused returns an id without a row exactly when its target was lost. */
  lemma ReturnedIdIsDeadIff(steps: seq<Step>, c: nat, id: Identity, l: nat, s: nat, p: nat, n: nat)
    requires CallAt(steps, c, id, l, s, p, n)
    ensures var w := Run(steps[..n + 1]);
      && c in w.calls && w.calls[c].phase.Done?
      && (w.calls[c].phase.result.Some? ==>
            (w.calls[c].phase.result.value !in w.t.rows <==> TargetLost(steps, c, l, n)))
  {
    TargetLostIff(steps, c, id, l, s, p, n);
    RunPrefix(steps, n);
  }

  // ---------------------------------------------------------------------
  // Refused writes
  // ---------------------------------------------------------------------

  /**
    A row that stands and is not the call's own: with its pair, written since its delete if it names a
    host and so deletes, or with its hwid, written since its lookup.
   */
  ghost predicate Rival(steps: seq<Step>, c: nat, id: Identity, l: nat, p: nat, n: nat, j: nat, k: nat, row: Row)
    requires j < n < |steps| && c in Run(steps[..n]).calls
  {
    && Run(steps[..n]).calls[c].target != Some(k) && Stands(steps, j, n, k, row)
    && (|| ((id.hostname == "" || p < j) && SamePair(row, id.hostname, id.adDomain))
        || (l < j && id.hwid != "" && SameHwid(row, id.hwid)))
  }

  ghost predicate HasRival(steps: seq<Step>, c: nat, id: Identity, l: nat, p: nat, n: nat)
    requires n < |steps| && c in Run(steps[..n]).calls
  {
    exists j: nat, k: nat, row :: j < n && Rival(steps, c, id, l, p, n, j, k, row)
  }

  /** A row with the pair that stands at the write was written after the delete. */
  lemma PairRivalIsNew(steps: seq<Step>, c: nat, id: Identity, l: nat, s: nat, p: nat, n: nat, j: nat, k: nat, row: Row)
    requires CallAt(steps, c, id, l, s, p, n) && id.hostname != "" && j < n && Stands(steps, j, n, k, row)
    requires Run(steps[..n]).calls[c].target != Some(k) && SamePair(row, id.hostname, id.adDomain)
    ensures p < j
  {
    CallInOrder(steps, c, id, l, s, p, n);
    assert !steps[p].WriteRow?;
    if j < p {
      StandsThroughout(steps, j, p + 1, n, k, row);
      RunPrefix(steps, p);
    }
  }

  /** A row with the hwid that stands at the write was written after the first lookup. */
  lemma HwidRivalIsNew(steps: seq<Step>, c: nat, id: Identity, l: nat, s: nat, p: nat, n: nat, j: nat, k: nat, row: Row)
    requires CallAt(steps, c, id, l, s, p, n) && id.hwid != "" && j < n && Stands(steps, j, n, k, row)
    requires Run(steps[..n]).calls[c].target != Some(k) && SameHwid(row, id.hwid)
    ensures l < j
  {
    CallInOrder(steps, c, id, l, s, p, n);
    assert !steps[l].WriteRow?;
    if j < l {
      StandsThroughout(steps, j, l, n, k, row);
      InterleavedSound(steps[..l]);
      var rows := Run(steps[..l]).t.rows;
      assert k in rows && SameHwid(rows[k], id.hwid);
      var found := FindHwid(rows, id.hwid);
      assert found.Some? && Clash(rows[found.value], rows[k]);
    }
  }

  /** The rows that clash with what a call writes have its pair or its hwid. */
  lemma ClashIsRival(t: Table, call: Call, now: int, k: nat)
    requires Sound(t) && Writing(t, call, now).Some? && k in t.rows && call.target != Some(k)
    ensures k != Writing(t, call, now).value.0
    ensures Clash(t.rows[k], Writing(t, call, now).value.1) <==>
            || SamePair(t.rows[k], call.id.hostname, call.id.adDomain)
            || (call.id.hwid != "" && SameHwid(t.rows[k], call.id.hwid))
  {
    if call.target.Some? { assert !Clash(t.rows[k], t.rows[call.target.value]); }
  }

  /**
    In every interleaving, a sighting is refused exactly when its target was not lost and it has a rival:
    if it names its host, a row given its pair after its delete, or one given its hwid after its lookup.
   */
  lemma InterleavedRefusedIff(steps: seq<Step>, c: nat, id: Identity, l: nat, s: nat, p: nat, n: nat)
    requires CallAt(steps, c, id, l, s, p, n)
    ensures InPhase(Run(steps[..n + 1]), c, Done(None)) <==>
            !TargetLost(steps, c, l, n) && HasRival(steps, c, id, l, p, n)
  {
    CallInOrder(steps, c, id, l, s, p, n);
    TargetLostIff(steps, c, id, l, s, p, n);
    RunPrefix(steps, n);
    if Refused(Run(steps[..n]).t, Run(steps[..n]).calls[c], steps[n].now) {
      RefusedHasRival(steps, c, id, l, s, p, n);
    }
    if !TargetLost(steps, c, l, n) && HasRival(steps, c, id, l, p, n) {
      RivalRefuses(steps, c, id, l, s, p, n);
    }
  }

  lemma RivalRefuses(steps: seq<Step>, c: nat, id: Identity, l: nat, s: nat, p: nat, n: nat)
    requires CallAt(steps, c, id, l, s, p, n) && HasRival(steps, c, id, l, p, n)
    requires Writing(Run(steps[..n]).t, Run(steps[..n]).calls[c], steps[n].now).Some?
    ensures Refused(Run(steps[..n]).t, Run(steps[..n]).calls[c], steps[n].now)
  {
    CallInOrder(steps, c, id, l, s, p, n);
    InterleavedSound(steps[..n]);
    var j: nat, k: nat, row :| j < n && Rival(steps, c, id, l, p, n, j, k, row);
    StandsThroughout(steps, j, n, n, k, row);
    ClashIsRival(Run(steps[..n]).t, Run(steps[..n]).calls[c], steps[n].now, k);
  }

  lemma RefusedHasRival(steps: seq<Step>, c: nat, id: Identity, l: nat, s: nat, p: nat, n: nat)
    requires CallAt(steps, c, id, l, s, p, n)
    requires Refused(Run(steps[..n]).t, Run(steps[..n]).calls[c], steps[n].now)
    ensures HasRival(steps, c, id, l, p, n)
  {
    CallInOrder(steps, c, id, l, s, p, n);
    InterleavedSound(steps[..n]);
    var w, now := Run(steps[..n]), steps[n].now;
    var x := Writing(w.t, w.calls[c], now).value;
    var k :| k in w.t.rows && k != x.0 && Clash(w.t.rows[k], x.1);
    ClashIsRival(w.t, w.calls[c], now, k);
    RowStandsIff(steps, n, k, w.t.rows[k]);
    var j: nat :| j < n && Stands(steps, j, n, k, w.t.rows[k]);
    if SamePair(w.t.rows[k], id.hostname, id.adDomain) {
      if id.hostname != "" { PairRivalIsNew(steps, c, id, l, s, p, n, j, k, w.t.rows[k]); }
    } else {
      HwidRivalIsNew(steps, c, id, l, s, p, n, j, k, w.t.rows[k]);
    }
    assert Rival(steps, c, id, l, p, n, j, k, w.t.rows[k]);
  }

  // ---------------------------------------------------------------------
  // Two runs in which calls get in each other's way
  // ---------------------------------------------------------------------

  lemma RunThen(steps: seq<Step>, st: Step)
    ensures Run(steps + [st]) == Take(Run(steps), st)
  {
    assert (steps + [st])[..|steps|] == steps;
  }

  /** The lookups and the delete of a call. */
  lemma PrepareRun(steps: seq<Step>, c: nat, id: Identity)
    ensures Run(steps + [SelectHwid(c, id)] + [SelectPair(c)] + [Purge(c)])
         == Take(Take(Take(Run(steps), SelectHwid(c, id)), SelectPair(c)), Purge(c))
  {
    RunThen(steps, SelectHwid(c, id));
    RunThen(steps + [SelectHwid(c, id)], SelectPair(c));
    RunThen(steps + [SelectHwid(c, id)] + [SelectPair(c)], Purge(c));
  }

  lemma PrepareOnEmpty(w: World, c: nat, id: Identity)
    requires w.t == NEW && c !in w.calls
    ensures Take(Take(Take(w, SelectHwid(c, id)), SelectPair(c)), Purge(c))
         == World(NEW, w.calls[c := Call(id, None, Purged)])
  {
    AloneBeforeWrite(w, c, id);
    assert Target(NEW.rows, id) == None;
    assert WithoutSquatters(NEW.rows, id, None) == map[];
  }

  /** Two calls of one new machine both find nothing and delete nothing; then only one of them can insert. */
  lemma NewMachineRefused(id: Identity) returns (steps: seq<Step>)
    requires id.hostname != ""
    ensures Run(steps).calls == map[0 := Call(id, None, Done(Some(1))), 1 := Call(id, None, Done(None))]
  {
    steps := [] + [SelectHwid(0, id)] + [SelectPair(0)] + [Purge(0)];
    PrepareRun([], 0, id);
    PrepareOnEmpty(START, 0, id);
    PrepareRun(steps, 1, id);
    PrepareOnEmpty(Run(steps), 1, id);
    steps := steps + [SelectHwid(1, id)] + [SelectPair(1)] + [Purge(1)];
    var call := Call(id, None, Purged);
    assert Run(steps) == World(NEW, map[0 := call, 1 := call]);
    RunThen(steps, WriteRow(0, 0));
    RunThen(steps + [WriteRow(0, 0)], WriteRow(1, 0));
    SecondInsertRefused(id);
    steps := steps + [WriteRow(0, 0)] + [WriteRow(1, 0)];
  }

  lemma SecondInsertRefused(id: Identity)
    ensures var call := Call(id, None, Purged);
      Take(Take(World(NEW, map[0 := call, 1 := call]), WriteRow(0, 0)), WriteRow(1, 0)).calls
      == map[0 := call.(phase := Done(Some(1))), 1 := call.(phase := Done(None))]
  {
    var call := Call(id, None, Purged);
    var w := Take(World(NEW, map[0 := call, 1 := call]), WriteRow(0, 0));
    assert w == World(Table(map[1 := InsertedRow(id, 0)], 2), map[0 := call.(phase := Done(Some(1))), 1 := call]);
    assert Clash(w.t.rows[1], InsertedRow(id, 0));
    assert Collides(w.t.rows, 2, InsertedRow(id, 0));
  }

  function Machine(hwid: string, hostname: string): Identity {
    Identity(hwid, hostname, "", "", "", None, false, "", "", "", "", "", "", "")
  }

  lemma AloneSteps(steps: seq<Step>, c: nat, id: Identity, now: int) returns (more: seq<Step>)
    ensures Run(more) == AloneRun(Run(steps), c, id, now)
  {
    PrepareRun(steps, c, id);
    more := steps + [SelectHwid(c, id)] + [SelectPair(c)] + [Purge(c)];
    RunThen(more, WriteRow(c, now));
    more := more + [WriteRow(c, now)];
  }

  /** Two machines with different hwids and hostnames. */
  function TwoMachines(): Table {
    Table(map[1 := InsertedRow(Machine("h1", "pc"), 0), 2 := InsertedRow(Machine("h2", "old"), 0)], 3)
  }

  lemma FirstMachine()
    ensures Upserted(NEW, Machine("h1", "pc"), 0) == Table(map[1 := InsertedRow(Machine("h1", "pc"), 0)], 2)
  {
    assert Target(NEW.rows, Machine("h1", "pc")) == None;
  }

  lemma SecondMachine()
    ensures Upserted(Table(map[1 := InsertedRow(Machine("h1", "pc"), 0)], 2), Machine("h2", "old"), 0) == TwoMachines()
  {
    var t, id := Table(map[1 := InsertedRow(Machine("h1", "pc"), 0)], 2), Machine("h2", "old");
    assert Target(t.rows, id) == None;
    assert WithoutSquatters(t.rows, id, None) == t.rows;
    assert t.rows[2 := InsertedRow(id, 0)] == TwoMachines().rows;
  }

  lemma ReachTwoMachines() returns (steps: seq<Step>)
    ensures Run(steps).t == TwoMachines() && Run(steps).calls.Keys == {0, 1}
  {
    steps := AloneSteps([], 0, Machine("h1", "pc"), 0);
    AloneIsUpsert(START, 0, Machine("h1", "pc"), 0);
    FirstMachine();
    var before := steps;
    InterleavedSound(before);
    steps := AloneSteps(before, 1, Machine("h2", "old"), 0);
    AloneIsUpsert(Run(before), 1, Machine("h2", "old"), 0);
    SecondMachine();
  }

  /** The second machine reports the first one's hostname: the first row goes, the second moves. */
  lemma MachineMoves()
    ensures Upserted(TwoMachines(), Machine("h2", "pc"), 1)
         == Table(map[2 := UpdatedRow(Machine("h2", "pc"), TwoMachines().rows[2], 1)], 3)
  {
    var t, id := TwoMachines(), Machine("h2", "pc");
    assert SameHwid(t.rows[2], "h2") && !SameHwid(t.rows[1], "h2");
    assert Target(t.rows, id) == Some(2);
    assert WithoutSquatters(t.rows, id, Some(2)) == map[2 := t.rows[2]];
  }

  lemma FindsFirst()
    ensures FindPair(TwoMachines().rows, "pc", "") == Some(1)
  {
    assert SamePair(TwoMachines().rows[1], "pc", "") && !SamePair(TwoMachines().rows[2], "pc", "");
  }

  /** The delete of the first caller takes the moved row, and its update then finds no row. */
  lemma DeleteTakesMoved(w: World)
    requires w.t == Table(map[2 := UpdatedRow(Machine("h2", "pc"), TwoMachines().rows[2], 1)], 3)
    requires 2 in w.calls && w.calls[2] == Call(Machine("", "pc"), Some(1), Found)
    ensures var v := Take(Take(w, Purge(2)), WriteRow(2, 1)); v.t.rows == map[] && InPhase(v, 2, Done(Some(1)))
  {
    assert Squats(w.t.rows, Machine("", "pc"), Some(1), 2);
    assert Take(w, Purge(2)).t.rows == map[];
  }

  /**
    A call without a hwid has found row 1 by its hostname when another call, whose hwid is that of row
    2, takes the hostname over and deletes row 1. The first call's delete then takes row 2: both rows
    are lost, and it returns the id of a row that is gone.
   */
  lemma BothRowsLost() returns (steps: seq<Step>)
    ensures Run(steps).t.rows == map[] && InPhase(Run(steps), 2, Done(Some(1))) && Run(steps).calls[2].id.hostname != ""
  {
    var a, b := Machine("", "pc"), Machine("h2", "pc");
    var looked := ReachLooked();
    InterleavedSound(looked);
    var moved := AloneSteps(looked, 3, b, 1);
    AloneIsUpsert(Run(looked), 3, b, 1);
    MachineMoves();
    DeleteTakesMoved(Run(moved));
    RunThen(moved, Purge(2));
    RunThen(moved + [Purge(2)], WriteRow(2, 1));
    steps := moved + [Purge(2)] + [WriteRow(2, 1)];
  }

  /** The first caller has looked its row up. */
  lemma ReachLooked() returns (steps: seq<Step>)
    ensures Run(steps).t == TwoMachines() && Run(steps).calls.Keys == {0, 1, 2}
    ensures Run(steps).calls[2] == Call(Machine("", "pc"), Some(1), Found)
  {
    var a := Machine("", "pc");
    var begin := ReachTwoMachines();
    RunThen(begin, SelectHwid(2, a));
    RunThen(begin + [SelectHwid(2, a)], SelectPair(2));
    steps := begin + [SelectHwid(2, a)] + [SelectPair(2)];
    FindsFirst();
  }
}
