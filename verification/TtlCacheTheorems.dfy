/** What every interleaving of Get calls keeps. */
module TtlCacheTheorems {
  import opened Prelude
  import opened TtlCache

  // ---------------------------------------------------------------------
  // The invariant
  // ---------------------------------------------------------------------

  ghost predicate MapSound<V>(s: State<V>) {
    && |s.entries| <= MAX_ENTRIES
    && forall k :: k in s.entries ==> s.entries[k] < |s.heap| && s.heap[s.entries[k]].key == k
  }

  /** A finished build put the stored value there, one TTL before it expires. */
  ghost predicate EntrySound<V>(ttl: int, e: Entry<V>, builds: seq<Build<V>>, clock: int) {
    e.stored.Some? ==>
      && e.stored.value.expiresAt - ttl <= clock
      && Build(e.key, e.stored.value.value, e.stored.value.expiresAt - ttl) in builds
  }

  /** A call builds only what had expired, and holds the lock while it does. */
  ghost predicate CallSound<V>(ttl: int, s: State<V>, id: nat, c: Call<V>, clock: int) {
    match c
    case Waiting(key, e) => e < |s.heap| && s.heap[e].key == key
    case Building(key, e) =>
      e < |s.heap| && s.heap[e].key == key && s.heap[e].holder == Some(id) && !Usable(s.heap[e], clock)
    case Served(key, value, at) => exists t :: Build(key, value, t) in s.builds && t <= at < t + ttl
    case Built(key, value, at) => Build(key, value, at) in s.builds
    case Failed(_) => true
  }

  ghost predicate Sound<V>(ttl: int, s: State<V>, clock: int) {
    && MapSound(s)
    && (forall i :: 0 <= i < |s.heap| ==> EntrySound(ttl, s.heap[i], s.builds, clock))
    && (forall id :: id in s.calls ==> CallSound(ttl, s, id, s.calls[id], clock))
  }

  lemma LookupSound<V>(ttl: int, s: State<V>, call: nat, key: string, clock: int)
    requires Sound(ttl, s, clock) && call !in s.calls
    ensures Sound(ttl, LookupStep(s, call, key), clock)
  {
    var s' := LookupStep(s, call, key);
    LookupMapSound(s, call, key);
    forall i | 0 <= i < |s'.heap| ensures EntrySound(ttl, s'.heap[i], s'.builds, clock) {
      if i < |s.heap| { assert EntrySound(ttl, s.heap[i], s.builds, clock); }
    }
    forall id | id in s'.calls ensures CallSound(ttl, s', id, s'.calls[id], clock) {
      if id != call { assert CallSound(ttl, s, id, s.calls[id], clock); }
    }
  }

  lemma LookupMapSound<V>(s: State<V>, call: nat, key: string)
    requires MapSound(s)
    ensures MapSound(LookupStep(s, call, key))
  {
    DropSmall(s.entries, key, |s.heap|);
  }

  lemma DropSmall(entries: map<string, nat>, key: string, e: nat)
    ensures |Drop(entries)[key := e]| <= MAX_ENTRIES
  {
    assert Drop(entries)[key := e].Keys == Drop(entries).Keys + {key};
  }

  /** A call keeps its standing when another call's step changes one entry's lock or value. */
  lemma CallKept<V>(ttl: int, s: State<V>, s': State<V>, id: nat, call: nat, e: nat, clock: int, now: int)
    requires e < |s.heap| == |s'.heap| && s.builds <= s'.builds && clock <= now
    requires id in s.calls && id != call && CallSound(ttl, s, id, s.calls[id], clock)
    requires s'.heap[e].key == s.heap[e].key && (s.heap[e].holder.None? || s.heap[e].holder == Some(call))
    requires forall i :: 0 <= i < |s.heap| && i != e ==> s'.heap[i] == s.heap[i]
    ensures CallSound(ttl, s', id, s.calls[id], now)
  {
    match s.calls[id]
    case Served(key, value, at) =>
      var t :| Build(key, value, t) in s.builds && t <= at < t + ttl;
      assert Build(key, value, t) in s'.builds;
    case _ =>
  }

  lemma EnterSound<V>(ttl: int, s: State<V>, call: nat, now: int, clock: int)
    requires Sound(ttl, s, clock) && Enabled(s, Enter(call, now)) && clock <= now
    ensures Sound(ttl, EnterStep(s, call, now), now)
  {
    var s' := EnterStep(s, call, now);
    var e := s.calls[call].e;
    assert CallSound(ttl, s, call, s.calls[call], clock) && EntrySound(ttl, s.heap[e], s.builds, clock);
    forall id | id in s'.calls && id != call ensures CallSound(ttl, s', id, s'.calls[id], now) {
      CallKept(ttl, s, s', id, call, e, clock, now);
    }
    if Usable(s.heap[e], now) {
      var t := s.heap[e].stored.value.expiresAt - ttl;
      assert Build(s.heap[e].key, s.heap[e].stored.value.value, t) in s'.builds && t <= now < t + ttl;
    }
    assert CallSound(ttl, s', call, s'.calls[call], now);
  }

  lemma FinishSound<V>(ttl: int, s: State<V>, call: nat, value: V, now: int, clock: int)
    requires Sound(ttl, s, clock) && Enabled(s, Finish(call, value, now)) && clock <= now
    ensures Sound(ttl, FinishStep(ttl, s, call, value, now), now)
  {
    var s' := FinishStep(ttl, s, call, value, now);
    var e := s.calls[call].e;
    assert CallSound(ttl, s, call, s.calls[call], clock);
    forall id | id in s'.calls && id != call ensures CallSound(ttl, s', id, s'.calls[id], now) {
      CallKept(ttl, s, s', id, call, e, clock, now);
    }
    forall i | 0 <= i < |s'.heap| ensures EntrySound(ttl, s'.heap[i], s'.builds, now) {
      assert EntrySound(ttl, s.heap[i], s.builds, clock);
    }
  }

  lemma FailSound<V>(ttl: int, s: State<V>, call: nat, clock: int)
    requires Sound(ttl, s, clock) && Enabled(s, Event<V>.Fail(call))
    ensures Sound(ttl, FailStep(s, call), clock)
  {
    var s' := FailStep(s, call);
    var e := s.calls[call].e;
    assert CallSound(ttl, s, call, s.calls[call], clock);
    forall id | id in s'.calls && id != call ensures CallSound(ttl, s', id, s'.calls[id], clock) {
      CallKept(ttl, s, s', id, call, e, clock, clock);
    }
    forall i | 0 <= i < |s'.heap| ensures EntrySound(ttl, s'.heap[i], s'.builds, clock) {
      assert EntrySound(ttl, s.heap[i], s.builds, clock);
    }
  }

  // ---------------------------------------------------------------------
  // Runs
  // ---------------------------------------------------------------------

  predicate Reads<V>(ev: Event<V>) { ev.Enter? || ev.Finish? }

  /** The clock never goes back between reads. */
  ghost predicate Timed<V>(evs: seq<Event<V>>) {
    forall i, j :: 0 <= i < j < |evs| && Reads(evs[i]) && Reads(evs[j]) ==> evs[i].now <= evs[j].now
  }

  ghost predicate ReadsBy<V>(evs: seq<Event<V>>, clock: int) {
    forall i :: 0 <= i < |evs| && Reads(evs[i]) ==> evs[i].now <= clock
  }

  lemma {:induction false} RunSound<V>(ttl: int, evs: seq<Event<V>>, clock: int)
    requires Timed(evs) && ReadsBy(evs, clock)
    ensures Sound(ttl, Run(ttl, evs), clock)
  {
    if evs != [] {
      var front, last := evs[..|evs| - 1], evs[|evs| - 1];
      var earlier := if Reads(last) then last.now else clock;
      assert Timed(front) && ReadsBy(front, earlier);
      RunSound(ttl, front, earlier);
      var s := Run(ttl, front);
      if Enabled(s, last) {
        match last
        case Lookup(call, key) => LookupSound(ttl, s, call, key, clock);
        case Enter(call, now) => EnterSound(ttl, s, call, now, now); SoundLater(ttl, Run(ttl, evs), now, clock);
        case Finish(call, value, now) =>
          FinishSound(ttl, s, call, value, now, now);
          SoundLater(ttl, Run(ttl, evs), now, clock);
        case Fail(call) => FailSound(ttl, s, call, clock);
      } else {
        SoundLater(ttl, s, earlier, clock);
      }
    }
  }

  lemma SoundLater<V>(ttl: int, s: State<V>, clock: int, later: int)
    requires Sound(ttl, s, clock) && clock <= later
    ensures Sound(ttl, s, later)
  {
    forall i | 0 <= i < |s.heap| ensures EntrySound(ttl, s.heap[i], s.builds, later) {
      assert EntrySound(ttl, s.heap[i], s.builds, clock);
    }
    forall id | id in s.calls ensures CallSound(ttl, s, id, s.calls[id], later) {
      assert CallSound(ttl, s, id, s.calls[id], clock);
    }
  }

  lemma {:induction false} SomeClock<V>(evs: seq<Event<V>>) returns (clock: int)
    ensures ReadsBy(evs, clock)
  {
    if evs == [] {
      clock := 0;
    } else {
      clock := SomeClock(evs[..|evs| - 1]);
      var last := evs[|evs| - 1];
      if Reads(last) { clock := Max(clock, last.now); }
    }
  }

  /**
    A value served without building came from a successful build of the same key that finished
    less than one TTL before.
   */
  lemma ServedIsFresh<V>(ttl: int, evs: seq<Event<V>>, call: nat)
    requires Timed(evs) && call in Run(ttl, evs).calls && Run(ttl, evs).calls[call].Served?
    ensures var s := Run(ttl, evs); var Served(key, value, at) := s.calls[call];
      exists t :: Build(key, value, t) in s.builds && t <= at < t + ttl
  {
    var clock := SomeClock(evs);
    RunSound(ttl, evs, clock);
    assert CallSound(ttl, Run(ttl, evs), call, Run(ttl, evs).calls[call], clock);
  }

  predicate Builds<V>(s: State<V>, call: nat) { call in s.calls && s.calls[call].Building? }

  /** Callers that share an entry never build at the same time, and the map stays within its bound. */
  lemma BuildsExclude<V>(ttl: int, evs: seq<Event<V>>, a: nat, b: nat)
    requires Timed(evs)
    ensures var s := Run(ttl, evs);
      && |s.entries| <= MAX_ENTRIES
      && (Builds(s, a) && Builds(s, b) && s.calls[a].e == s.calls[b].e ==> a == b)
  {
    var clock := SomeClock(evs);
    var s := Run(ttl, evs);
    RunSound(ttl, evs, clock);
    if a in s.calls && b in s.calls {
      assert CallSound(ttl, s, a, s.calls[a], clock) && CallSound(ttl, s, b, s.calls[b], clock);
    }
  }

  // ---------------------------------------------------------------------
  // Failures
  // ---------------------------------------------------------------------

  /** Step i finished a build of this key on this entry, with this value. */
  ghost predicate FinishedAt<V>(ttl: int, evs: seq<Event<V>>, i: nat, key: string, e: nat, value: V, at: int)
    requires i < |evs|
  {
    && evs[i].Finish? && evs[i].value == value && evs[i].now == at
    && var s := Run(ttl, evs[..i]); evs[i].call in s.calls && s.calls[evs[i].call] == Building(key, e)
  }

  ghost predicate Finished<V>(ttl: int, evs: seq<Event<V>>, key: string, e: nat, value: V, at: int) {
    exists i: nat :: i < |evs| && FinishedAt(ttl, evs, i, key, e, value, at)
  }

  lemma FinishedLonger<V>(ttl: int, evs: seq<Event<V>>, key: string, e: nat, value: V, at: int)
    requires evs != [] && Finished(ttl, evs[..|evs| - 1], key, e, value, at)
    ensures Finished(ttl, evs, key, e, value, at)
  {
    var front := evs[..|evs| - 1];
    var i: nat :| i < |front| && FinishedAt(ttl, front, i, key, e, value, at);
    assert front[..i] == evs[..i];
    assert FinishedAt(ttl, evs, i, key, e, value, at);
  }

  /** What one step stores: only a finishing build stores anything, in its own entry. */
  lemma StoredAfter<V>(ttl: int, s: State<V>, ev: Event<V>, e: nat)
    requires e < |Next(ttl, s, ev).heap| && Next(ttl, s, ev).heap[e].stored.Some?
    ensures var x := Next(ttl, s, ev).heap[e];
      || (e < |s.heap| && s.heap[e].stored == x.stored && s.heap[e].key == x.key)
      || (ev.Finish? && ev.call in s.calls && s.calls[ev.call].Building? && s.calls[ev.call].e == e
          && x.stored.value == Stored(ev.value, ev.now + ttl))
  {}

  /**
    Every value in an entry was stored by a call that was building on that entry and finished
    with it, one TTL before it expires; so no failed build ever stores anything.
   */
  lemma {:induction false} OnlySuccessIsStored<V>(ttl: int, evs: seq<Event<V>>, e: nat)
    requires Timed(evs) && e < |Run(ttl, evs).heap| && Run(ttl, evs).heap[e].stored.Some?
    ensures var x := Run(ttl, evs).heap[e];
      Finished(ttl, evs, x.key, e, x.stored.value.value, x.stored.value.expiresAt - ttl)
  {
    var n := |evs| - 1;
    var front, last := evs[..n], evs[n];
    var s, x := Run(ttl, front), Run(ttl, evs).heap[e];
    StoredAfter(ttl, s, last, e);
    if e < |s.heap| && s.heap[e].stored == x.stored && s.heap[e].key == x.key {
      OnlySuccessIsStored(ttl, front, e);
      FinishedLonger(ttl, evs, x.key, e, x.stored.value.value, x.stored.value.expiresAt - ttl);
    } else {
      var clock := SomeClock(front);
      RunSound(ttl, front, clock);
      assert CallSound(ttl, s, last.call, s.calls[last.call], clock);
      assert FinishedAt(ttl, evs, n, x.key, e, x.stored.value.value, x.stored.value.expiresAt - ttl);
    }
  }

  /** A call has failed exactly when its own build failed, whatever the builds of others did. */
  lemma {:induction false} FailedIff<V>(ttl: int, evs: seq<Event<V>>, call: nat)
    ensures call in Run(ttl, evs).calls && Run(ttl, evs).calls[call].Failed? <==>
            exists i: nat :: i < |evs| && FailsAt(ttl, evs, i, call)
  {
    if evs != [] {
      var n := |evs| - 1;
      var front, last := evs[..n], evs[n];
      FailedIff(ttl, front, call);
      FailedAfter(ttl, Run(ttl, front), last, call);
      forall i: nat | i < n ensures FailsAt(ttl, front, i, call) <==> FailsAt(ttl, evs, i, call) {
        assert front[..i] == evs[..i];
      }
      if i: nat :| i < |front| && FailsAt(ttl, front, i, call) { assert FailsAt(ttl, evs, i, call); }
      if i: nat :| i < |evs| && FailsAt(ttl, evs, i, call) { assert i < n ==> FailsAt(ttl, front, i, call); }
      assert FailsAt(ttl, evs, n, call) <==> last == Fail(call) && Enabled(Run(ttl, front), last);
    }
  }

  ghost predicate FailsAt<V>(ttl: int, evs: seq<Event<V>>, i: nat, call: nat)
    requires i < |evs|
  {
    evs[i] == Fail(call) && Enabled(Run(ttl, evs[..i]), evs[i])
  }

  lemma FailedAfter<V>(ttl: int, s: State<V>, ev: Event<V>, call: nat)
    ensures call in Next(ttl, s, ev).calls && Next(ttl, s, ev).calls[call].Failed? <==>
            || (call in s.calls && s.calls[call].Failed?)
            || (ev == Fail(call) && Enabled(s, ev))
  {}

  lemma RunThen<V>(ttl: int, evs: seq<Event<V>>, ev: Event<V>)
    ensures Run(ttl, evs + [ev]) == Next(ttl, Run(ttl, evs), ev)
  {
    assert (evs + [ev])[..|evs|] == evs;
  }

  /**
    In every run, a caller that waits for an entry while its build fails is not failed with it:
    it goes on waiting, can enter at once, and then builds for itself.
   */
  lemma WaiterRebuildsAfterFailure<V>(ttl: int, evs: seq<Event<V>>, call: nat, waiter: nat, now: int)
    requires Timed(evs) && ReadsBy(evs, now)
    requires var s := Run(ttl, evs);
      && call in s.calls && s.calls[call].Building?
      && waiter in s.calls && s.calls[waiter].Waiting? && s.calls[waiter].e == s.calls[call].e
    ensures var failed := Run(ttl, evs + [Fail(call)]); var s := Run(ttl, evs + [Fail(call)] + [Enter(waiter, now)]);
      && failed.calls[call].Failed? && failed.calls[waiter] == Run(ttl, evs).calls[waiter]
      && waiter in s.calls && s.calls[waiter]
        == Building(Run(ttl, evs).calls[waiter].key, Run(ttl, evs).calls[waiter].e)
  {
    var s := Run(ttl, evs);
    RunSound(ttl, evs, now);
    assert CallSound(ttl, s, call, s.calls[call], now);
    RunThen(ttl, evs, Fail(call));
    RunThen(ttl, evs + [Fail(call)], Enter(waiter, now));
  }

  /** Caller 0 builds on an entry that caller 1 waits for. */
  function BuilderAndWaiter<V>(key: string): State<V> {
    State(map[key := 0], [Entry(key, Some(0), None)], map[0 := Building(key, 0), 1 := Waiting(key, 0)], [])
  }

  lemma ReachBuilderAndWaiter<V>(ttl: int, key: string) returns (evs: seq<Event<V>>)
    ensures Run(ttl, evs) == BuilderAndWaiter<V>(key)
    ensures forall i :: 0 <= i < |evs| && Reads(evs[i]) ==> evs[i].now == 0
  {
    var waiting: Entry<V>, none: seq<Event<V>> := Entry(key, None, None), [];
    RunThen(ttl, none, Lookup(0, key));
    assert Run(ttl, none + [Lookup(0, key)]) == State(map[key := 0], [waiting], map[0 := Waiting(key, 0)], []);
    evs := none + [Lookup(0, key)];
    RunThen(ttl, evs, Lookup(1, key));
    evs := evs + [Lookup(1, key)];
    assert Run(ttl, evs) == State(map[key := 0], [waiting], map[0 := Waiting(key, 0), 1 := Waiting(key, 0)], []);
    RunThen(ttl, evs, Enter(0, 0));
    evs := evs + [Enter(0, 0)];
  }

  /** From there, the build fails, and the waiter builds and gets its own value. */
  lemma FailThenBuild<V>(ttl: int, key: string, value: V)
    ensures var s := Next(ttl, Next(ttl, Next(ttl, BuilderAndWaiter(key), Fail(0)), Enter(1, 0)), Finish(1, value, 0));
      0 in s.calls && 1 in s.calls && s.calls[0] == Failed(key) && s.calls[1] == Built(key, value, 0)
  {
    var failed: State<V> := Next(ttl, BuilderAndWaiter(key), Fail(0));
    assert failed == State(map[key := 0], [Entry(key, None, None)], map[0 := Failed(key), 1 := Waiting(key, 0)], []);
    assert Next(ttl, failed, Enter(1, 0)).calls[1] == Building(key, 0);
  }

  /** One caller builds and fails while another waits; the other builds and gets its own value. */
  lemma FailureThenSuccess<V>(ttl: int, key: string, value: V) returns (evs: seq<Event<V>>)
    ensures Timed(evs)
    ensures var s := Run(ttl, evs);
      0 in s.calls && 1 in s.calls && s.calls[0] == Failed(key) && s.calls[1] == Built(key, value, 0)
  {
    var start := ReachBuilderAndWaiter<V>(ttl, key);
    evs := start + [Fail(0)] + [Enter(1, 0)] + [Finish(1, value, 0)];
    RunThen(ttl, start, Fail(0));
    RunThen(ttl, start + [Fail(0)], Enter(1, 0));
    RunThen(ttl, start + [Fail(0)] + [Enter(1, 0)], Finish(1, value, 0));
    FailThenBuild(ttl, key, value);
    assert forall i :: 0 <= i < |evs| && Reads(evs[i]) ==> evs[i].now == 0;
  }

  // ---------------------------------------------------------------------
  // One build for each key
  // ---------------------------------------------------------------------

  /** A new caller joins the build of a key under way exactly when the map is not full and still has that entry. */
  lemma JoinsBuildIff<V>(ttl: int, s: State<V>, clock: int, a: nat, b: nat)
    requires Sound(ttl, s, clock) && a in s.calls && s.calls[a].Building? && b !in s.calls
    ensures var Building(key, e) := s.calls[a];
      Next(ttl, s, Lookup(b, key)).calls[b].e == e <==>
          |s.entries| < MAX_ENTRIES && key in s.entries && s.entries[key] == e
  {
    assert CallSound(ttl, s, a, s.calls[a], clock);
  }

  /** No lookup of the run found the map full. */
  ghost predicate NeverFull<V>(ttl: int, evs: seq<Event<V>>) {
    forall i :: 0 <= i < |evs| && evs[i].Lookup? ==> |Run(ttl, evs[..i]).entries| < MAX_ENTRIES
  }

  ghost predicate OneEntryPerKey<V>(s: State<V>) {
    forall i :: 0 <= i < |s.heap| ==> s.heap[i].key in s.entries && s.entries[s.heap[i].key] == i
  }

  lemma {:induction false} NeverFullOneEntry<V>(ttl: int, evs: seq<Event<V>>)
    requires NeverFull(ttl, evs)
    ensures OneEntryPerKey(Run(ttl, evs))
  {
    if evs != [] {
      var front, last := evs[..|evs| - 1], evs[|evs| - 1];
      assert NeverFull(ttl, front) by {
        forall i | 0 <= i < |front| && front[i].Lookup? ensures |Run(ttl, front[..i]).entries| < MAX_ENTRIES {
          assert front[..i] == evs[..i] && evs[i].Lookup?;
        }
      }
      NeverFullOneEntry(ttl, front);
    }
  }

  /** While no lookup finds the map full, a key is built by one caller at a time. */
  lemma SingleFlight<V>(ttl: int, evs: seq<Event<V>>, a: nat, b: nat)
    requires Timed(evs) && NeverFull(ttl, evs)
    requires var s := Run(ttl, evs);
      a in s.calls && b in s.calls && s.calls[a].Building? && s.calls[b].Building? && s.calls[a].key == s.calls[b].key
    ensures a == b
  {
    var clock := SomeClock(evs);
    var s := Run(ttl, evs);
    RunSound(ttl, evs, clock);
    NeverFullOneEntry(ttl, evs);
    assert CallSound(ttl, s, a, s.calls[a], clock) && CallSound(ttl, s, b, s.calls[b], clock);
  }

  // ---------------------------------------------------------------------
  // A full map lets one key be built twice at once
  // ---------------------------------------------------------------------

  function Name(i: nat): string { seq(i, _ => 'x') }

  function Fill<V>(n: nat): seq<Event<V>> { if n == 0 then [] else Fill<V>(n - 1) + [Lookup(n - 1, Name(n - 1))] }

  ghost predicate Filled<V>(s: State<V>, n: nat) {
    && |s.entries| == |s.heap| == n
    && (forall k :: k in s.entries ==> |k| < n)
    && (forall i: nat :: i in s.calls <==> i < n)
    && (n > 0 ==> s.calls[0] == Waiting(Name(0), 0) && s.heap[0] == Entry(Name(0), None, None))
  }

  lemma FillOne<V>(s: State<V>, n: nat)
    requires Filled(s, n) && n < MAX_ENTRIES
    ensures Filled(LookupStep(s, n, Name(n)), n + 1)
  {
    assert Name(n) !in s.entries && Drop(s.entries) == s.entries;
    var s' := LookupStep(s, n, Name(n));
    assert s' == s.(entries := s.entries[Name(n) := n], heap := s.heap + [Entry(Name(n), None, None)],
                    calls := s.calls[n := Waiting(Name(n), n)]);
    assert s'.entries.Keys == s.entries.Keys + {Name(n)};
    assert |Name(n)| == n && |s'.entries| == |s'.heap| == n + 1;
    assert forall i: nat :: i in s'.calls <==> i < n + 1;
  }

  lemma {:induction false} FillFills<V>(ttl: int, n: nat)
    requires n <= MAX_ENTRIES
    ensures Filled(Run(ttl, Fill<V>(n)), n)
  {
    if n > 0 {
      FillFills<V>(ttl, n - 1);
      var before: seq<Event<V>>, last: Event<V> := Fill(n - 1), Lookup(n - 1, Name(n - 1));
      RunThen(ttl, before, last);
      FillOne(Run(ttl, before), n - 1);
      assert Next(ttl, Run(ttl, before), last) == LookupStep(Run(ttl, before), n - 1, Name(n - 1));
      assert Fill<V>(n) == before + [last];
    } else {
      assert Run(ttl, Fill<V>(0)) == New<V>();
    }
  }

  lemma {:induction false} FillOnlyLooksUp<V>(n: nat)
    ensures forall i :: 0 <= i < |Fill<V>(n)| ==> Fill<V>(n)[i].Lookup?
  {
    if n > 0 { FillOnlyLooksUp<V>(n - 1); }
  }

  /** From a full map: caller 0 builds, the next caller of its key drops the map and builds too. */
  lemma TwoBuilders<V>(ttl: int, s: State<V>, m: nat)
    requires Filled(s, m) && m == MAX_ENTRIES
    ensures var s1 := Next(ttl, s, Enter(0, 0)); var s2 := Next(ttl, s1, Lookup(m, Name(0)));
      var s3 := Next(ttl, s2, Enter(m, 0));
      0 in s3.calls && m in s3.calls && s3.calls[0] == Building(Name(0), 0) && s3.calls[m] == Building(Name(0), m)
  {
    var s1 := Next(ttl, s, Enter(0, 0));
    assert s1.calls[0] == Building(Name(0), 0) && |s1.entries| == m && |s1.heap| == m;
    var s2 := Next(ttl, s1, Lookup(m, Name(0)));
    assert s2.calls[m] == Waiting(Name(0), m) && s2.heap[m] == Entry(Name(0), None, None);
  }

  /** Distinct callers can build the same key at once after a lookup that dropped the full map. */
  lemma FullMapBuildsTwice<V>(ttl: int) returns (evs: seq<Event<V>>, a: nat, b: nat)
    ensures Timed(evs) && a != b
    ensures var s := Run(ttl, evs);
      && a in s.calls && b in s.calls && s.calls[a].Building? && s.calls[b].Building?
        && s.calls[a].key == s.calls[b].key
  {
    a, b := 0, MAX_ENTRIES;
    evs := FilledTwice<V>(ttl, MAX_ENTRIES);
  }

  lemma FilledTwice<V>(ttl: int, m: nat) returns (evs: seq<Event<V>>)
    requires m == MAX_ENTRIES
    ensures Timed(evs)
    ensures var s := Run(ttl, evs);
      && 0 in s.calls && m in s.calls && s.calls[0].Building? && s.calls[m].Building?
        && s.calls[0].key == s.calls[m].key
  {
    FillFills<V>(ttl, m);
    FillOnlyLooksUp<V>(m);
    var fill: seq<Event<V>> := Fill(m);
    TwoBuilders(ttl, Run(ttl, fill), m);
    RunThen(ttl, fill, Enter(0, 0));
    RunThen(ttl, fill + [Enter(0, 0)], Lookup(m, Name(0)));
    RunThen(ttl, fill + [Enter(0, 0)] + [Lookup(m, Name(0))], Enter(m, 0));
    evs := fill + [Enter(0, 0)] + [Lookup(m, Name(0))] + [Enter(m, 0)];
    StartsAtZero(fill, m);
  }

  lemma StartsAtZero<V>(fill: seq<Event<V>>, m: nat)
    requires forall i :: 0 <= i < |fill| ==> fill[i].Lookup?
    ensures Timed(fill + [Enter(0, 0)] + [Lookup(m, Name(0))] + [Enter(m, 0)])
  {
    var evs := fill + [Enter(0, 0)] + [Lookup(m, Name(0))] + [Enter(m, 0)];
    assert forall i :: 0 <= i < |evs| && Reads(evs[i]) ==> evs[i].now == 0;
  }
}
