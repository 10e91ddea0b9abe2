/**
  The retention pass: one query finds the first id to keep, then batches of lower ids are
  deleted while other requests insert events and delete clients.
 */
module EventPrune {
  import opened Prelude
  import opened EventRollup

  const BATCH: nat := 5000

  // ---------------------------------------------------------------------
  // The boundary
  // ---------------------------------------------------------------------

  ghost function InWindow(events: map<nat, Event>, cutoff: int): set<nat> {
    set k | k in events && events[k].created >= cutoff
  }

  /** The lowest id inside the window, or the one after the last id. */
  ghost function Boundary(events: map<nat, Event>, cutoff: int): (b: nat)
    ensures forall k :: k in events && k < b ==> events[k].created < cutoff
  {
    if InWindow(events, cutoff) != {} then
      var b := MinOf(InWindow(events, cutoff));
      assert forall k :: k in events && k < b ==> k !in InWindow(events, cutoff);
      b
    else
      assert forall k :: k in events ==> k !in InWindow(events, cutoff);
      if events.Keys == {} then 1 else MaxOf(events.Keys) + 1
  }

  /** No expired row has a higher id than a row inside the window. */
  ghost predicate IdsFollowWindow(events: map<nat, Event>, cutoff: int) {
    forall i, j :: i in events && j in events && i < j && events[i].created >= cutoff ==> events[j].created >= cutoff
  }

  /** The boundary separates expired rows from the others exactly when ids follow the window. */
  lemma BoundaryExactIff(events: map<nat, Event>, cutoff: int)
    ensures (forall k :: k in events ==> (k >= Boundary(events, cutoff) <==> events[k].created >= cutoff))
       <==> IdsFollowWindow(events, cutoff)
  {
    if IdsFollowWindow(events, cutoff) {
      forall k | k in events && k >= Boundary(events, cutoff) ensures events[k].created >= cutoff {
        if InWindow(events, cutoff) != {} {
          var b := MinOf(InWindow(events, cutoff));
          assert b in events && events[b].created >= cutoff;
        }
      }
    }
  }

  // ---------------------------------------------------------------------
  // Passes
  // ---------------------------------------------------------------------

  ghost function After(s: Store, ops: seq<Op>): Store {
    if ops == [] then s else Next(After(s, ops[..|ops| - 1]), ops[|ops| - 1])
  }

  lemma {:induction false} AfterRun(before: seq<Op>, ops: seq<Op>)
    ensures After(Run(before), ops) == Run(before + ops)
  {
    if ops == [] {
      assert before + ops == before;
    } else {
      AfterRun(before, ops[..|ops| - 1]);
      assert (before + ops)[..|before + ops| - 1] == before + ops[..|ops| - 1];
    }
  }

  ghost function Below(events: map<nat, Event>, b: nat): set<nat> { set k | k in events && k < b }

  /** Some rows below the boundary, as many as a batch takes. */
  ghost predicate IsBatch(s: Store, b: nat, batch: set<nat>) {
    batch <= Below(s.events, b) && |batch| == Min(BATCH, |Below(s.events, b)|)
  }

  /** A pass, possibly interrupted, among the steps of others. */
  ghost predicate Pass(s: Store, b: nat, ops: seq<Op>) {
    ops == [] ||
    var front, last := ops[..|ops| - 1], ops[|ops| - 1];
    Pass(s, b, front) && (last.Prune? ==> IsBatch(After(s, front), b, last.batch))
  }

  /** The pass ends when nothing can be below the boundary or after a batch that is not full. */
  predicate Completed(b: nat, ops: seq<Op>) {
    if ops == [] then b <= 1 else ops[|ops| - 1].Prune? && |ops[|ops| - 1].batch| < BATCH
  }

  function Total(ops: seq<Op>): nat {
    if ops == [] then 0
    else Total(ops[..|ops| - 1]) + (if ops[|ops| - 1].Prune? then |ops[|ops| - 1].batch| else 0)
  }

  /** How many batches were deleted. */
  function Batches(ops: seq<Op>): nat {
    if ops == [] then 0 else Batches(ops[..|ops| - 1]) + if ops[|ops| - 1].Prune? then 1 else 0
  }

  ghost predicate AllFull(ops: seq<Op>) {
    forall i :: 0 <= i < |ops| && ops[i].Prune? ==> |ops[i].batch| == BATCH
  }

  function Removed(ops: seq<Op>): set<nat> {
    if ops == [] then {}
    else Removed(ops[..|ops| - 1]) + (if ops[|ops| - 1].Prune? then ops[|ops| - 1].batch else {})
  }

  /** The rows that went with a deleted client. */
  ghost function Dropped(s: Store, ops: seq<Op>): set<nat> {
    if ops == [] then {}
    else
      var front, last := ops[..|ops| - 1], ops[|ops| - 1];
      Dropped(s, front) + (if last.DeleteClient? then After(s, front).events.Keys - After(s, ops).events.Keys else {})
  }

  /** Ids are handed out upwards, and a row is either seen or still open. */
  ghost predicate IdsBelowNext(s: Store) {
    && s.nextId >= 1
    && (forall k :: k in s.events ==> 1 <= k < s.nextId && k !in s.open)
    && (forall k :: k in s.open ==> 1 <= k < s.nextId)
  }

  /** What is under an id below n was seen under it or open under it before. */
  ghost predicate OnlyOld(s: Store, t: Store, n: nat) {
    && (forall k :: k in t.open && k < n ==> k in s.open && t.open[k] == s.open[k])
    && (forall k :: k in t.events && k < n ==>
          (k in s.events && t.events[k] == s.events[k]) || (k in s.open && t.events[k] == s.open[k]))
  }

  lemma NextIds(s: Store, op: Op)
    requires IdsBelowNext(s)
    ensures var t := Next(s, op); IdsBelowNext(t) && s.nextId <= t.nextId && OnlyOld(s, t, s.nextId)
  {}

  lemma OnlyOldOn(s: Store, t: Store, u: Store, n: nat, m: nat)
    requires OnlyOld(s, t, n) && OnlyOld(t, u, m) && n <= m
    ensures OnlyOld(s, u, n)
  {}

  /** Ids are never handed out again. */
  lemma {:induction false} OldIds(s: Store, ops: seq<Op>)
    requires IdsBelowNext(s)
    ensures var t := After(s, ops); IdsBelowNext(t) && s.nextId <= t.nextId && OnlyOld(s, t, s.nextId)
  {
    if ops != [] {
      var front := ops[..|ops| - 1];
      OldIds(s, front);
      NextIds(After(s, front), ops[|ops| - 1]);
      OnlyOldOn(s, After(s, front), After(s, ops), s.nextId, After(s, front).nextId);
    }
  }

  /** Every table that a run can reach has its ids below the next one. */
  lemma RunIdsBelowNext(ops: seq<Op>)
    ensures IdsBelowNext(Run(ops))
  {
    assert Run([]) == NEW && [] + ops == ops;
    AfterRun([], ops);
    OldIds(NEW, ops);
  }

  lemma BoundaryIsOld(s: Store, cutoff: int)
    requires IdsBelowNext(s)
    ensures Boundary(s.events, cutoff) <= s.nextId
  {}

  /**
    Whatever happens meanwhile, and wherever it stops, a pass removes rows that it could see and that had
    expired, and rows of inserts that were open below the boundary when it was read.
   */
  lemma {:induction false} PassRemovesExpiredOrOpen(s: Store, cutoff: int, ops: seq<Op>, k: nat)
    requires IdsBelowNext(s) && Pass(s, Boundary(s.events, cutoff), ops) && k in Removed(ops)
    ensures k < Boundary(s.events, cutoff) && (k in s.events <==> k !in s.open)
    ensures k in s.events ==> s.events[k].created < cutoff
  {
    var front, last := ops[..|ops| - 1], ops[|ops| - 1];
    if k in Removed(front) {
      PassRemovesExpiredOrOpen(s, cutoff, front, k);
    } else {
      assert k in last.batch && k in Below(After(s, front).events, Boundary(s.events, cutoff));
      OldIds(s, front);
      BoundaryIsOld(s, cutoff);
    }
  }

  /** No insert that is open below the boundary is of an event inside the window. */
  ghost predicate NoLateRow(s: Store, cutoff: int) {
    forall k :: k in s.open && k < Boundary(s.events, cutoff) ==> s.open[k].created < cutoff
  }

  /** The time of a row that is seen or open. */
  function CreatedOf(s: Store, k: nat): int
    requires k in s.events || k in s.open
  {
    if k in s.events then s.events[k].created else s.open[k].created
  }

  /** A pass from s removes a row inside the window. */
  ghost predicate RemovesKept(s: Store, cutoff: int, ops: seq<Op>, k: nat) {
    && Pass(s, Boundary(s.events, cutoff), ops) && k in Removed(ops)
    && (k in s.events || k in s.open) && CreatedOf(s, k) >= cutoff
  }

  /** A set of a given size around one of the ids. */
  lemma {:induction false} SetAround(ids: set<nat>, k: nat, n: nat) returns (batch: set<nat>)
    requires k in ids && 1 <= n <= |ids|
    ensures k in batch && batch <= ids && |batch| == n
    decreases |ids|
  {
    if n == |ids| {
      batch := ids;
    } else {
      assert ids != {k} && |ids - {k}| > 0;
      var j :| j in ids - {k};
      batch := SetAround(ids - {j}, k, n);
    }
  }

  /** The late row commits, and the next batch takes it. */
  lemma LateRowIsRemoved(s: Store, cutoff: int, k: nat) returns (ops: seq<Op>)
    requires IdsBelowNext(s) && k in s.open && k < Boundary(s.events, cutoff) && s.open[k].created >= cutoff
    ensures RemovesKept(s, cutoff, ops, k)
  {
    var b := Boundary(s.events, cutoff);
    var t := Next(s, Commit(k));
    assert k in Below(t.events, b);
    var size := Min(BATCH, |Below(t.events, b)|);
    assert |Below(t.events, b)| > 0;
    var batch := SetAround(Below(t.events, b), k, size);
    PassThen(s, b, [], Commit(k));
    PassThen(s, b, [Commit(k)], Prune(batch));
    assert [] + [Commit(k)] == [Commit(k)];
    ops := [Commit(k)] + [Prune(batch)];
    assert ops[..1] == [Commit(k)] && [Commit(k)][..0] == [];
    assert Removed(ops) == Removed([Commit(k)]) + batch;
  }

  /** No pass, finished or not, removes a row inside the window, exactly when no late row is open as it begins. */
  lemma PassRemovesOnlyExpiredIff(s: Store, cutoff: int)
    requires IdsBelowNext(s)
    ensures (forall ops, k :: !RemovesKept(s, cutoff, ops, k)) <==> NoLateRow(s, cutoff)
  {
    if NoLateRow(s, cutoff) {
      forall ops, k ensures !RemovesKept(s, cutoff, ops, k) {
        if RemovesKept(s, cutoff, ops, k) { PassRemovesExpiredOrOpen(s, cutoff, ops, k); }
      }
    } else {
      var k :| k in s.open && k < Boundary(s.events, cutoff) && s.open[k].created >= cutoff;
      var ops := LateRowIsRemoved(s, cutoff, k);
    }
  }

  /** A removed row stays away, and a pass counts it once. */
  lemma {:induction false} TotalIsRowsRemoved(s: Store, b: nat, ops: seq<Op>)
    requires IdsBelowNext(s) && b <= s.nextId && Pass(s, b, ops)
    ensures Total(ops) == |Removed(ops)|
    ensures Removed(ops) !! After(s, ops).events.Keys && Removed(ops) !! After(s, ops).open.Keys
    ensures forall k :: k in Removed(ops) ==> k < b
  {
    if ops != [] {
      var front, last := ops[..|ops| - 1], ops[|ops| - 1];
      TotalIsRowsRemoved(s, b, front);
      OldIds(s, front);
      RemovedStaysAway(After(s, front), Removed(front), b, last);
    }
  }

  lemma RemovedStaysAway(t: Store, removed: set<nat>, b: nat, op: Op)
    requires IdsBelowNext(t) && b <= t.nextId && (op.Prune? ==> op.batch <= Below(t.events, b))
    requires removed !! t.events.Keys && removed !! t.open.Keys && forall k :: k in removed ==> k < b
    ensures var t', removed' := Next(t, op), removed + if op.Prune? then op.batch else {};
      && removed' !! t'.events.Keys && removed' !! t'.open.Keys
      && |removed'| == |removed| + (if op.Prune? then |op.batch| else 0)
      && (forall k :: k in removed' ==> k < b)
  {
    if op.Prune? {
      assert removed !! op.batch;
      assert |removed + op.batch| == |removed| + |op.batch|;
    }
  }

  /** A row leaves the table only with a batch or with its client. */
  lemma {:induction false} RowsLeaveOnlySo(s: Store, b: nat, ops: seq<Op>, k: nat)
    requires IdsBelowNext(s) && Pass(s, b, ops) && k in s.events
    ensures k in After(s, ops).events || k in Removed(ops) || k in Dropped(s, ops)
    ensures k in Dropped(s, ops) ==> k !in After(s, ops).events
  {
    if ops != [] {
      RowsLeaveOnlySo(s, b, ops[..|ops| - 1], k);
      OldIds(s, ops[..|ops| - 1]);
    }
  }

  /** A completed pass leaves no id below the boundary. */
  lemma CompletedLeavesNone(s: Store, b: nat, ops: seq<Op>, k: nat)
    requires IdsBelowNext(s) && Pass(s, b, ops) && Completed(b, ops) && k in After(s, ops).events
    ensures k >= b
  {
    if ops != [] {
      var front, last := ops[..|ops| - 1], ops[|ops| - 1];
      var below := Below(After(s, front).events, b);
      assert last.batch <= below && |last.batch| == |below|;
      SameSizeSubset(last.batch, below);
      assert k !in below;
    }
  }

  lemma {:induction false} SameSizeSubset(a: set<nat>, b: set<nat>)
    requires a <= b && |a| == |b|
    ensures a == b
  {
    assert |b - a| == 0;
    assert b - a == {};
  }

  /**
    Of the rows a completed pass found and no client deletion took, exactly those at or above
    the boundary remain; these are exactly the rows inside the window when ids follow it.
   */
  lemma CompletedPassIsExact(s: Store, cutoff: int, ops: seq<Op>, k: nat)
    requires IdsBelowNext(s)
    requires var b := Boundary(s.events, cutoff); Pass(s, b, ops) && Completed(b, ops)
    requires k in s.events && k !in Dropped(s, ops)
    ensures k in After(s, ops).events <==> k >= Boundary(s.events, cutoff)
    ensures IdsFollowWindow(s.events, cutoff) ==> (k in After(s, ops).events <==> s.events[k].created >= cutoff)
  {
    var b := Boundary(s.events, cutoff);
    BoundaryIsOld(s, cutoff);
    TotalIsRowsRemoved(s, b, ops);
    RowsLeaveOnlySo(s, b, ops, k);
    BoundaryExactIff(s.events, cutoff);
    if k in After(s, ops).events { CompletedLeavesNone(s, b, ops, k); }
  }

  /**
    A completed pass on any table that a run can reach, among the steps of others: the rows that
    were there and whose clients stay are kept exactly from the boundary on, the ones removed had
    expired, and every counter still counts the whole history.
   */
  lemma PassAfterAnyRun(before: seq<Op>, cutoff: int, pass: seq<Op>, k: nat, b: Bucket)
    requires var s := Run(before); var from := Boundary(s.events, cutoff); Pass(s, from, pass) && Completed(from, pass)
    requires k in Run(before).events && k !in Dropped(Run(before), pass)
    ensures var s, t := Run(before), After(Run(before), pass);
      && (k in t.events <==> k >= Boundary(s.events, cutoff))
      && (k !in t.events ==> s.events[k].created < cutoff)
      && var n := CountWhere(History(before + pass), e => BucketOf(e) == b);
         (b in t.hourly <==> n > 0) && (b in t.hourly ==> t.hourly[b] == n)
  {
    RunIdsBelowNext(before);
    CompletedPassIsExact(Run(before), cutoff, pass, k);
    AfterRun(before, pass);
    CountersAreExact(before + pass, b);
  }

  // ---------------------------------------------------------------------
  // The loop
  // ---------------------------------------------------------------------

  predicate IsLowest(ids: set<nat>, k: nat) { k in ids && forall j: nat :: j in ids ==> k <= j }

  predicate IsHighest(ids: set<nat>, k: nat) { k in ids && forall j: nat :: j in ids ==> j <= k }

  lemma LowestIsMin(ids: set<nat>, k: nat)
    requires k in ids && IsLowest(ids, k)
    ensures k == MinOf(ids)
  {
    assert MinOf(ids) in ids;
  }

  lemma HighestIsMax(ids: set<nat>, k: nat)
    requires k in ids && IsHighest(ids, k)
    ensures k == MaxOf(ids)
  {
    assert MaxOf(ids) in ids;
  }

  method FirstKept(t: EventTables, cutoff: int) returns (b: nat)
    ensures b == Boundary(t.events, cutoff)
  {
    var window: set<nat> := set k | k in t.events && t.events[k].created >= cutoff;
    assert window == InWindow(t.events, cutoff);
    if window != {} {
      assert IsLowest(window, MinOf(window));
      b :| b in window && IsLowest(window, b);
      LowestIsMin(window, b);
    } else if t.events.Keys == {} {
      b := 1;
    } else {
      assert IsHighest(t.events.Keys, MaxOf(t.events.Keys));
      var k: nat :| k in t.events.Keys && IsHighest(t.events.Keys, k);
      HighestIsMax(t.events.Keys, k);
      b := k + 1;
    }
  }

  /** Any of the ids, up to a batch. */
  method TakeBatch(ids: set<nat>) returns (batch: set<nat>)
    ensures batch <= ids && |batch| == Min(BATCH, |ids|)
  {
    var rest := ids;
    batch := {};
    while |batch| < BATCH && rest != {}
      invariant batch !! rest && batch + rest == ids && |batch| <= BATCH
      decreases rest
    {
      var k: nat :| k in rest;
      batch, rest := batch + {k}, rest - {k};
    }
    assert |ids| == |batch| + |rest|;
  }

  method DeleteBatch(t: EventTables, b: nat) returns (batch: set<nat>)
    modifies t
    ensures IsBatch(old(t.Contents()), b, batch)
    ensures t.Contents() == Next(old(t.Contents()), Prune(batch))
  {
    batch := TakeBatch(set k | k in t.events && k < b);
    t.events := t.events - batch;
  }

  lemma PassThen(s: Store, b: nat, ops: seq<Op>, op: Op)
    ensures After(s, ops + [op]) == Next(After(s, ops), op)
    ensures Total(ops + [op]) == Total(ops) + if op.Prune? then |op.batch| else 0
    ensures Batches(ops + [op]) == Batches(ops) + if op.Prune? then 1 else 0
    ensures Pass(s, b, ops + [op]) <==> Pass(s, b, ops) && (op.Prune? ==> IsBatch(After(s, ops), b, op.batch))
  {
    assert (ops + [op])[..|ops|] == ops;
  }

  /** The ids below the boundary that a batch may yet take: of rows that are seen or still open. */
  ghost function Reach(s: Store, b: nat): set<nat> { Below(s.events, b) + Below(s.open, b) }

  lemma OthersReach(s: Store, b: nat, op: Op)
    requires !op.Prune? && s.nextId >= b
    ensures Reach(Next(s, op), b) <= Reach(s, b) && Next(s, op).nextId >= s.nextId
  {}

  /** One step of another request. */
  method OtherStep(t: EventTables) returns (ghost op: Op)
    modifies t
    ensures !op.Prune? && t.Contents() == Next(old(t.Contents()), op)
  {
    var choice: nat := *;
    var id: nat := *;
    if choice == 0 {
      var e: Event := *;
      var key := t.BeginInsert(e);
      op := Begin(e);
    } else if choice == 1 {
      t.CommitInsert(id);
      op := Commit(id);
    } else if choice == 2 {
      t.AbortInsert(id);
      op := Abort(id);
    } else {
      var deleted := t.DeleteStatsClient(id);
      op := DeleteClient(id);
    }
  }

  /** Any number of steps of inserts and client deletions by other requests. */
  method OthersRun(t: EventTables, ghost begin: Store, ghost b: nat, ghost ops: seq<Op>) returns (ghost ops': seq<Op>)
    requires t.Contents() == After(begin, ops) && Pass(begin, b, ops) && AllFull(ops) && t.nextId >= b
    modifies t
    ensures t.Contents() == After(begin, ops') && Pass(begin, b, ops') && AllFull(ops') && t.nextId >= b
    ensures Total(ops') == Total(ops) && Batches(ops') == Batches(ops)
    ensures Reach(t.Contents(), b) <= Reach(old(t.Contents()), b)
  {
    ops' := ops;
    var n: nat := *;
    while n > 0
      invariant t.Contents() == After(begin, ops') && Pass(begin, b, ops') && AllFull(ops')
      invariant Total(ops') == Total(ops) && Batches(ops') == Batches(ops)
      invariant t.nextId >= b && Reach(t.Contents(), b) <= Reach(old(t.Contents()), b)
    {
      ghost var before := t.Contents();
      ghost var op := OtherStep(t);
      OthersReach(before, b, op);
      PassThen(begin, b, ops', op);
      ops' := ops' + [op];
      n := n - 1;
    }
  }

  /** Others run, then one batch is deleted unless the database fails. */
  method NextBatch(t: EventTables, fails: bool, ghost begin: Store, b: nat, ghost ops: seq<Op>)
    returns (n: Option<nat>, ghost ops': seq<Op>)
    requires IdsBelowNext(begin) && t.Contents() == After(begin, ops) && Pass(begin, b, ops) && AllFull(ops)
    requires t.nextId >= b
    modifies t
    ensures n.None? <==> fails
    ensures t.Contents() == After(begin, ops') && Pass(begin, b, ops') && t.nextId >= b
    ensures Total(ops') == Total(ops) + (if fails then 0 else n.value)
    ensures Batches(ops') == Batches(ops) + if fails then 0 else 1
    ensures if fails then AllFull(ops') else EndsWith(ops', n.value)
    ensures n.Some? && n.value > 0 ==> Reach(t.Contents(), b) < Reach(old(t.Contents()), b)
  {
    ops' := OthersRun(t, begin, b, ops);
    if fails {
      return None, ops';
    }
    ghost var before := t.Contents();
    assert IdsBelowNext(before) by { OldIds(begin, ops'); }
    var batch := DeleteBatch(t, b);
    PassThen(begin, b, ops', Prune(batch));
    if |batch| > 0 { BatchShrinks(before, b, batch); }
    assert (ops' + [Prune(batch)])[..|ops'|] == ops';
    n, ops' := Some(|batch|), ops' + [Prune(batch)];
  }

  /** The last step deleted a batch of n rows; every batch before it was full. */
  ghost predicate EndsWith(ops: seq<Op>, n: nat) {
    && ops != [] && AllFull(ops[..|ops| - 1])
    && ops[|ops| - 1].Prune? && |ops[|ops| - 1].batch| == n <= BATCH
  }

  lemma FullEnd(ops: seq<Op>)
    requires EndsWith(ops, BATCH)
    ensures AllFull(ops)
  {
    var front := ops[..|ops| - 1];
    forall i | 0 <= i < |ops| - 1 && ops[i].Prune? ensures |ops[i].batch| == BATCH { assert front[i] == ops[i]; }
  }

  /** The first n deletions succeed, and no pause between two of them is cut short. */
  ghost predicate Undisturbed(n: nat, fails: nat -> bool, cancels: nat -> bool) {
    forall k: nat :: k < n ==> !fails(k) && !cancels(k)
  }

  lemma UndisturbedOn(n: nat, fails: nat -> bool, cancels: nat -> bool)
    requires Undisturbed(n, fails, cancels) && !fails(n) && !cancels(n)
    ensures Undisturbed(n + 1, fails, cancels)
  {}

  /** Why a pass ends: nothing to do, a batch that is not full, a failure, or a cancellation after a full batch. */
  ghost predicate EndsFor(b: nat, steps: seq<Op>, interrupted: bool, fails: nat -> bool, cancels: nat -> bool) {
    var n := Batches(steps);
    && (n > 0 ==> Undisturbed(n - 1, fails, cancels) && !fails(n - 1))
    && if interrupted then b > 1 && AllFull(steps) && (fails(n) || (n > 0 && cancels(n - 1)))
       else (b <= 1 && steps == []) || exists rows: nat :: rows < BATCH && EndsWith(steps, rows)
  }

  /**
    One pass. `steps` is what happened to the tables, in order: the pass's own batches and the steps of
    others between them. fails(k) says that the deletion after k batches fails, cancels(k) that the pass is
    cancelled in the pause after batch k, counted from 0.
   */
  method RunPrune(t: EventTables, cutoff: int, fails: nat -> bool, cancels: nat -> bool)
    returns (total: nat, interrupted: bool, ghost steps: seq<Op>)
    requires IdsBelowNext(t.Contents())
    modifies t
    ensures t.Contents() == After(old(t.Contents()), steps)
    ensures var b := Boundary(old(t.events), cutoff);
      && Pass(old(t.Contents()), b, steps) && (!interrupted ==> Completed(b, steps))
      && EndsFor(b, steps, interrupted, fails, cancels)
    ensures total == Total(steps)
  {
    ghost var begin := t.Contents();
    steps, total := [], 0;
    var b := FirstKept(t, cutoff);
    BoundaryIsOld(begin, cutoff);
    if b <= 1 {
      return 0, false, steps;
    }
    var k: nat := 0;
    while true
      invariant t.Contents() == After(begin, steps) && Pass(begin, b, steps) && total == Total(steps)
      invariant AllFull(steps) && k == Batches(steps) && Undisturbed(k, fails, cancels)
      invariant t.nextId >= b
      decreases Reach(t.Contents(), b)
    {
      var n;
      n, steps := NextBatch(t, fails(k), begin, b, steps);
      if n.None? {
        return total, true, steps;
      }
      total := total + n.value;
      if n.value < BATCH {
        return total, false, steps;
      }
      FullEnd(steps);
      if cancels(k) {
        return total, true, steps;
      }
      UndisturbedOn(k, fails, cancels);
      k := k + 1;
    }
  }

  lemma BatchShrinks(s: Store, b: nat, batch: set<nat>)
    requires IsBatch(s, b, batch) && |batch| > 0 && IdsBelowNext(s)
    ensures Reach(Next(s, Prune(batch)), b) < Reach(s, b)
  {
    var k :| k in batch;
    assert k in Reach(s, b) && k !in Reach(Next(s, Prune(batch)), b);
  }
}
