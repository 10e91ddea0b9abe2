/** When a caller of the cache is served, waits or builds, in terms of the builds that finished before it. */
module TtlCacheFreshness {
  import opened Prelude
  import opened TtlCache
  import opened TtlCacheTheorems

  predicate BuildsOn<V>(s: State<V>, call: nat, e: nat) {
    call in s.calls && s.calls[call].Building? && s.calls[call].e == e
  }

  /** Step i finished a build on entry e. */
  ghost predicate FinishOn<V>(ttl: int, evs: seq<Event<V>>, i: nat, e: nat)
    requires i < |evs|
  {
    evs[i].Finish? && BuildsOn(Run(ttl, evs[..i]), evs[i].call, e)
  }

  ghost predicate LastFinishOn<V>(ttl: int, evs: seq<Event<V>>, i: nat, e: nat)
    requires i < |evs|
  {
    FinishOn(ttl, evs, i, e) && forall j: nat :: i < j < |evs| ==> !FinishOn(ttl, evs, j, e)
  }

  /** A build on e finished less than one TTL before. */
  ghost predicate FreshOn<V>(ttl: int, evs: seq<Event<V>>, e: nat, now: int) {
    exists i: nat :: i < |evs| && FinishOn(ttl, evs, i, e) && now < evs[i].now + ttl
  }

  ghost predicate BusyOn<V>(s: State<V>, e: nat) { exists id: nat :: BuildsOn(s, id, e) }

  lemma SoundClock<V>(ttl: int, evs: seq<Event<V>>) returns (clock: int)
    requires Timed(evs)
    ensures Sound(ttl, Run(ttl, evs), clock)
  {
    clock := SomeClock(evs);
    RunSound(ttl, evs, clock);
  }

  // ---------------------------------------------------------------------
  // Locks and stored values
  // ---------------------------------------------------------------------

  /** A lock is held only by a caller that builds. */
  ghost predicate HoldersBuild<V>(s: State<V>) {
    forall e: nat :: e < |s.heap| && s.heap[e].holder.Some? ==> BuildsOn(s, s.heap[e].holder.value, e)
  }

  lemma {:induction false} RunHoldersBuild<V>(ttl: int, evs: seq<Event<V>>)
    requires Timed(evs)
    ensures HoldersBuild(Run(ttl, evs))
  {
    if evs != [] {
      var front, last := evs[..|evs| - 1], evs[|evs| - 1];
      RunHoldersBuild(ttl, front);
      var clock := SoundClock(ttl, front);
      NextHoldersBuild(ttl, Run(ttl, front), last, clock);
    }
  }

  lemma NextHoldersBuild<V>(ttl: int, s: State<V>, ev: Event<V>, clock: int)
    requires HoldersBuild(s) && Sound(ttl, s, clock)
    ensures HoldersBuild(Next(ttl, s, ev))
  {
    var s' := Next(ttl, s, ev);
    if Enabled(s, ev) && ev.call in s.calls {
      assert CallSound(ttl, s, ev.call, s.calls[ev.call], clock);
    }
    forall e: nat | e < |s'.heap| && s'.heap[e].holder.Some? ensures BuildsOn(s', s'.heap[e].holder.value, e) {
      if e < |s.heap| && s.heap[e].holder.Some? { assert BuildsOn(s, s.heap[e].holder.value, e); }
    }
  }

  /** A lock is free exactly while nobody builds on its entry. */
  lemma FreeIffNotBusy<V>(ttl: int, evs: seq<Event<V>>, e: nat)
    requires Timed(evs) && e < |Run(ttl, evs).heap|
    ensures Run(ttl, evs).heap[e].holder.None? <==> !BusyOn(Run(ttl, evs), e)
  {
    var s := Run(ttl, evs);
    RunHoldersBuild(ttl, evs);
    var clock := SoundClock(ttl, evs);
    forall id: nat | BuildsOn(s, id, e) ensures s.heap[e].holder.Some? {
      assert CallSound(ttl, s, id, s.calls[id], clock);
    }
  }

  ghost predicate StoresLast<V>(ttl: int, evs: seq<Event<V>>, e: nat, stored: Option<Stored<V>>) {
    if stored.None? then forall i: nat :: i < |evs| ==> !FinishOn(ttl, evs, i, e)
    else exists i: nat :: i < |evs| && LastFinishOn(ttl, evs, i, e)
                          && stored.value == Stored(evs[i].value, evs[i].now + ttl)
  }

  /** A step that finishes no build on e leaves the last one the last. */
  lemma StillLast<V>(ttl: int, evs: seq<Event<V>>, e: nat, stored: Option<Stored<V>>)
    requires evs != [] && StoresLast(ttl, evs[..|evs| - 1], e, stored) && !FinishOn(ttl, evs, |evs| - 1, e)
    ensures StoresLast(ttl, evs, e, stored)
  {
    var n := |evs| - 1;
    var front := evs[..n];
    forall i: nat | i < n ensures FinishOn(ttl, front, i, e) <==> FinishOn(ttl, evs, i, e) {
      assert front[..i] == evs[..i];
    }
    if stored.Some? {
      var i: nat :| i < n && LastFinishOn(ttl, front, i, e)
                    && stored.value == Stored(front[i].value, front[i].now + ttl);
      assert LastFinishOn(ttl, evs, i, e);
    }
  }

  /** An entry holds the value of the last build that finished on it, and none before the first. */
  lemma {:induction false} RunStoresLast<V>(ttl: int, evs: seq<Event<V>>, e: nat)
    requires Timed(evs) && e < |Run(ttl, evs).heap|
    ensures StoresLast(ttl, evs, e, Run(ttl, evs).heap[e].stored)
  {
    if evs != [] {
      var n := |evs| - 1;
      var front := evs[..n];
      var s := Run(ttl, front);
      BuildersBelow(ttl, front, e);
      if e < |s.heap| { RunStoresLast(ttl, front, e); } else { NeverFinishedOn(ttl, front, e); }
      if FinishOn(ttl, evs, n, e) {
        assert LastFinishOn(ttl, evs, n, e);
      } else {
        StoredStays(ttl, s, evs[n], e);
        StillLast(ttl, evs, e, Run(ttl, evs).heap[e].stored);
      }
    }
  }

  lemma BuildersBelow<V>(ttl: int, evs: seq<Event<V>>, e: nat)
    requires Timed(evs)
    ensures forall id: nat :: BuildsOn(Run(ttl, evs), id, e) ==> e < |Run(ttl, evs).heap|
  {
    var s := Run(ttl, evs);
    var clock := SoundClock(ttl, evs);
    forall id: nat | BuildsOn(s, id, e) ensures e < |s.heap| {
      assert CallSound(ttl, s, id, s.calls[id], clock);
    }
  }

  lemma StoredStays<V>(ttl: int, s: State<V>, ev: Event<V>, e: nat)
    requires e < |Next(ttl, s, ev).heap| && !(ev.Finish? && BuildsOn(s, ev.call, e))
    ensures Next(ttl, s, ev).heap[e].stored == if e < |s.heap| then s.heap[e].stored else None
  {}

  /** No build finished on an entry that is not there yet. */
  lemma NeverFinishedOn<V>(ttl: int, evs: seq<Event<V>>, e: nat)
    requires Timed(evs) && e >= |Run(ttl, evs).heap|
    ensures forall i: nat :: i < |evs| ==> !FinishOn(ttl, evs, i, e)
  {
    forall i: nat | i < |evs| ensures !FinishOn(ttl, evs, i, e) {
      BuildersBelow(ttl, evs[..i], e);
      HeapGrows(ttl, evs, i);
    }
  }

  /** Entries keep their key. */
  lemma {:induction false} HeapGrows<V>(ttl: int, evs: seq<Event<V>>, i: nat)
    requires i <= |evs|
    ensures var s, t := Run(ttl, evs[..i]), Run(ttl, evs);
      |s.heap| <= |t.heap| && forall e: nat :: e < |s.heap| ==> t.heap[e].key == s.heap[e].key
  {
    if i < |evs| {
      var front := evs[..|evs| - 1];
      HeapGrows(ttl, front, i);
      assert front[..i] == evs[..i];
    } else {
      assert evs[..i] == evs;
    }
  }

  // ---------------------------------------------------------------------
  // Served, waiting or building
  // ---------------------------------------------------------------------

  /**
    A caller that tries to enter at `now` goes on waiting exactly while somebody builds on its entry.
    Otherwise it is served exactly when a build on that entry finished less than one TTL before,
    with the value of the last one; and else it builds.
   */
  lemma ServedIffFresh<V>(ttl: int, evs: seq<Event<V>>, call: nat, now: int)
    requires Timed(evs) && ReadsBy(evs, now)
    requires call in Run(ttl, evs).calls && Run(ttl, evs).calls[call].Waiting?
    ensures var s, t := Run(ttl, evs), Run(ttl, evs + [Enter(call, now)]); var Waiting(key, e) := s.calls[call];
      && call in t.calls
      && (BusyOn(s, e) ==> t == s)
      && (!BusyOn(s, e) && FreshOn(ttl, evs, e, now) ==>
          exists i: nat :: i < |evs| && LastFinishOn(ttl, evs, i, e) && t.calls[call] == Served(key, evs[i].value, now))
      && (!BusyOn(s, e) && !FreshOn(ttl, evs, e, now) ==> t.calls[call] == Building(key, e))
  {
    var s := Run(ttl, evs);
    var Waiting(key, e) := s.calls[call];
    RunSound(ttl, evs, now);
    assert CallSound(ttl, s, call, s.calls[call], now);
    RunThen(ttl, evs, Enter(call, now));
    FreeIffNotBusy(ttl, evs, e);
    RunStoresLast(ttl, evs, e);
    FreshIffLast(ttl, evs, e, now);
  }

  /** As time does not go back, some finished build is fresh exactly when the last one is. */
  lemma FreshIffLast<V>(ttl: int, evs: seq<Event<V>>, e: nat, now: int)
    requires Timed(evs)
    ensures forall i: nat :: i < |evs| && LastFinishOn(ttl, evs, i, e) ==>
              (FreshOn(ttl, evs, e, now) <==> now < evs[i].now + ttl)
  {
    forall i: nat | i < |evs| && LastFinishOn(ttl, evs, i, e)
      ensures FreshOn(ttl, evs, e, now) <==> now < evs[i].now + ttl
    {
      if FreshOn(ttl, evs, e, now) {
        var j: nat :| j < |evs| && FinishOn(ttl, evs, j, e) && now < evs[j].now + ttl;
        assert j <= i;
        assert Reads(evs[i]) && Reads(evs[j]);
      }
    }
  }

  // ---------------------------------------------------------------------
  // By key
  // ---------------------------------------------------------------------

  /** Step i finished a build of this key. */
  ghost predicate FinishOf<V>(ttl: int, evs: seq<Event<V>>, i: nat, key: string)
    requires i < |evs|
  {
    var s := Run(ttl, evs[..i]);
    evs[i].Finish? && evs[i].call in s.calls && s.calls[evs[i].call].Building? && s.calls[evs[i].call].key == key
  }

  /** While no lookup finds the map full, the builds of a key are the builds on the entry of any of its callers. */
  lemma OneEntryFinishes<V>(ttl: int, evs: seq<Event<V>>, call: nat)
    requires Timed(evs) && NeverFull(ttl, evs)
    requires call in Run(ttl, evs).calls && Run(ttl, evs).calls[call].Waiting?
    ensures var Waiting(key, e) := Run(ttl, evs).calls[call];
      forall i: nat :: i < |evs| ==> (FinishOn(ttl, evs, i, e) <==> FinishOf(ttl, evs, i, key))
  {
    var s := Run(ttl, evs);
    var Waiting(key, e) := s.calls[call];
    var clock := SoundClock(ttl, evs);
    assert CallSound(ttl, s, call, s.calls[call], clock);
    NeverFullOneEntry(ttl, evs);
    forall i: nat | i < |evs| ensures FinishOn(ttl, evs, i, e) <==> FinishOf(ttl, evs, i, key) {
      var u := Run(ttl, evs[..i]);
      var earlier := SoundClock(ttl, evs[..i]);
      HeapGrows(ttl, evs, i);
      if evs[i].call in u.calls {
        assert CallSound(ttl, u, evs[i].call, u.calls[evs[i].call], earlier);
      }
    }
  }

  /**
    Then a caller that finds the lock free is served exactly when a build of its key finished less
    than one TTL before.
   */
  lemma ServedIffKeyIsFresh<V>(ttl: int, evs: seq<Event<V>>, call: nat, now: int)
    requires Timed(evs) && ReadsBy(evs, now) && NeverFull(ttl, evs)
    requires call in Run(ttl, evs).calls && Run(ttl, evs).calls[call].Waiting?
    requires !BusyOn(Run(ttl, evs), Run(ttl, evs).calls[call].e)
    ensures var key, t := Run(ttl, evs).calls[call].key, Run(ttl, evs + [Enter(call, now)]);
      call in t.calls && (t.calls[call].Served? <==>
        exists i: nat :: i < |evs| && FinishOf(ttl, evs, i, key) && now < evs[i].now + ttl)
  {
    OneEntryFinishes(ttl, evs, call);
    ServedIffFresh(ttl, evs, call, now);
  }

  // ---------------------------------------------------------------------
  // The result of Get
  // ---------------------------------------------------------------------

  /** How a Get ends shows in its attempt to enter. */
  lemma EndShows<V>(ttl: int, evs: seq<Event<V>>, call: nat, during: seq<Event<V>>, now: int, tail: Event<V>)
    requires call in Run(ttl, evs + [Enter(call, now)]).calls && ByOthers(during, call)
    requires tail.call == call && (tail.Finish? || tail.Fail?)
    ensures var x, t := Run(ttl, evs + [Enter(call, now)]), Run(ttl, evs + [Enter(call, now)] + during + [tail]);
      call in t.calls && (!x.calls[call].Building? ==> t.calls[call] == x.calls[call])
  {
    var entered := evs + [Enter(call, now)];
    RunFromConcat(ttl, New(), entered, during);
    OthersLeaveAlone(ttl, Run(ttl, entered), during, call);
    RunThen(ttl, entered + during, tail);
  }

  /**
    What a Get of a cache with any history returns: nothing yet while somebody builds on its entry, else the
    value of the last build that finished there, if less than one TTL ago, else what its own build returns.
   */
  method GetAfter<V>(c: Cache<V>, ghost past: seq<Event<V>>, call: nat, key: string, build: () -> Option<V>,
                     before: seq<Event<V>>, during: seq<Event<V>>, now: int, later: int) returns (r: Result<V>)
    requires c.ttl > 0 && c.Now() == Run(c.ttl, past) && call !in c.calls
    requires ByOthers(before, call) && ByOthers(during, call)
    requires var evs := past + [Lookup(call, key)] + before; Timed(evs) && ReadsBy(evs, now)
    modifies c
    ensures var evs := past + [Lookup(call, key)] + before; var s := Run(c.ttl, evs);
      && call in s.calls && s.calls[call].Waiting? && s.calls[call].key == key
      && var e := s.calls[call].e;
         && (BusyOn(s, e) ==> r == StillWaiting)
         && (!BusyOn(s, e) && FreshOn(c.ttl, evs, e, now) ==>
             exists i: nat :: i < |evs| && LastFinishOn(c.ttl, evs, i, e) && r == Value(evs[i].value))
         && (!BusyOn(s, e) && !FreshOn(c.ttl, evs, e, now) ==>
             r == if build().Some? then Value(build().value) else BuildError)
  {
    ghost var begin := c.Now();
    ghost var evs := past + [Lookup(call, key)] + before;
    assert evs == past + ([Lookup(call, key)] + before);
    PastSound(c.ttl, past, [Lookup(call, key)] + before);
    r := Get(c, call, key, build, begin, before, during, now, later);
    FoundEntry(c.ttl, past, call, key, before);
    ServedIffFresh(c.ttl, evs, call, now);
    ResultShows(c.ttl, past, call, key, before, during, now, c.calls[call], c.Now());
  }

  lemma PastSound<V>(ttl: int, past: seq<Event<V>>, more: seq<Event<V>>)
    requires Timed(past + more)
    ensures var s := Run(ttl, past); forall k :: k in s.entries ==> s.entries[k] < |s.heap|
  {
    assert past == (past + more)[..|past|];
    assert forall i :: 0 <= i < |past| ==> past[i] == (past + more)[i];
    var clock := SoundClock(ttl, past);
  }

  lemma FoundEntry<V>(ttl: int, past: seq<Event<V>>, call: nat, key: string, before: seq<Event<V>>)
    requires call !in Run(ttl, past).calls && ByOthers(before, call)
    ensures var s := Run(ttl, past + [Lookup(call, key)] + before);
      call in s.calls && s.calls[call].Waiting? && s.calls[call].key == key
  {
    RunThen(ttl, past, Lookup(call, key));
    RunFromConcat(ttl, New(), past + [Lookup(call, key)], before);
    OthersLeaveAlone(ttl, Run(ttl, past + [Lookup(call, key)]), before, call);
  }

  lemma StepsFollow<V>(ttl: int, past: seq<Event<V>>, entry: seq<Event<V>>, tail: seq<Event<V>>)
    ensures RunFrom(ttl, Run(ttl, past), entry + tail) == Run(ttl, past + entry + tail)
  {
    RunFromConcat(ttl, New(), past, entry + tail);
    assert past + (entry + tail) == past + entry + tail;
  }

  lemma ServedShows<V>(ttl: int, past: seq<Event<V>>, call: nat, entry: seq<Event<V>>, now: int, final: State<V>)
    requires final == RunFrom(ttl, Run(ttl, past), entry + [Enter(call, now)])
    ensures final == Run(ttl, past + entry + [Enter(call, now)])
  {
    StepsFollow(ttl, past, entry, [Enter(call, now)]);
  }

  lemma BuiltShows<V>(ttl: int, past: seq<Event<V>>, call: nat, entry: seq<Event<V>>, during: seq<Event<V>>, now: int,
                      tail: Event<V>, final: State<V>)
    requires ByOthers(during, call) && tail.call == call && (tail.Finish? || tail.Fail?)
    requires final == RunFrom(ttl, Run(ttl, past), entry + [Enter(call, now)] + during + [tail])
    requires call in Run(ttl, past + entry + [Enter(call, now)]).calls
    ensures var x := Run(ttl, past + entry + [Enter(call, now)]);
      call in final.calls && (!x.calls[call].Building? ==> final.calls[call] == x.calls[call])
  {
    var end := [Enter(call, now)] + during + [tail];
    assert entry + [Enter(call, now)] + during + [tail] == entry + end;
    StepsFollow(ttl, past, entry, end);
    assert past + entry + end == past + entry + [Enter(call, now)] + during + [tail];
    EndShows(ttl, past + entry, call, during, now, tail);
  }

  lemma ResultShows<V>(ttl: int, past: seq<Event<V>>, call: nat, key: string, before: seq<Event<V>>,
                       during: seq<Event<V>>, now: int, end: Call<V>, final: State<V>)
    requires ByOthers(during, call) && call in final.calls && final.calls[call] == end && !end.Building?
    requires final == RunFrom(ttl, Run(ttl, past), GetSteps(call, key, before, during, now, end))
    requires call in Run(ttl, past + ([Lookup(call, key)] + before) + [Enter(call, now)]).calls
    ensures var evs := past + ([Lookup(call, key)] + before); var x := Run(ttl, evs + [Enter(call, now)]);
      && (end.Waiting? ==> final == Run(ttl, evs))
      && (!end.Waiting? ==> end == x.calls[call] || x.calls[call].Building?)
      && (end.Served? ==> end == x.calls[call])
  {
    var entry := [Lookup(call, key)] + before;
    match end
    case Waiting(_, _) => RunFromConcat(ttl, New(), past, entry);
    case Served(_, _, _) => ServedShows(ttl, past, call, entry, now, final);
    case Built(_, value, at) => BuiltShows(ttl, past, call, entry, during, now, Finish(call, value, at), final);
    case Failed(_) => BuiltShows(ttl, past, call, entry, during, now, Event<V>.Fail(call), final);
  }
}
