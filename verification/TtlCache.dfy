/**
  The TTL cache. A Get call looks its entry up under the cache's lock, then holds the entry's
  lock while it serves or rebuilds the value. Each locked section is one step; calls
  interleave freely, and the map may be dropped while its entries are still held.
 */
module TtlCache {
  import opened Prelude

  const MAX_ENTRIES: nat := 512

  datatype Stored<+V> = Stored(value: V, expiresAt: int)

  /** An entry. It knows its key only so that the key can be spoken about; holder owns its lock. */
  datatype Entry<+V> = Entry(key: string, holder: Option<nat>, stored: Option<Stored<V>>)

  /** How far a Get call has come; e is the index of its entry. */
  datatype Call<+V> =
    | Waiting(key: string, e: nat)
    | Building(key: string, e: nat)
    | Served(key: string, value: V, at: int)
    | Built(key: string, value: V, at: int)
    | Failed(key: string)

  /** A successful build and the time it finished. */
  datatype Build<+V> = Build(key: string, value: V, at: int)

  /** heap holds every entry ever made, entries those still in the map. */
  datatype State<+V> = State(entries: map<string, nat>, heap: seq<Entry<V>>, calls: map<nat, Call<V>>,
                             builds: seq<Build<V>>)

  datatype Event<+V> =
    | Lookup(call: nat, key: string)
    | Enter(call: nat, now: int)
    | Finish(call: nat, value: V, now: int)
    | Fail(call: nat)

  function Drop(entries: map<string, nat>): map<string, nat> { if |entries| >= MAX_ENTRIES then map[] else entries }

  function LookupStep<V>(s: State<V>, call: nat, key: string): State<V> {
    var kept := Drop(s.entries);
    if key in kept then s.(entries := kept, calls := s.calls[call := Waiting(key, kept[key])])
    else s.(entries := kept[key := |s.heap|], heap := s.heap + [Entry(key, None, None)],
            calls := s.calls[call := Waiting(key, |s.heap|)])
  }

  predicate Usable<V>(e: Entry<V>, now: int) { e.stored.Some? && now < e.stored.value.expiresAt }

  function EnterStep<V>(s: State<V>, call: nat, now: int): State<V>
    requires call in s.calls && s.calls[call].Waiting? && s.calls[call].e < |s.heap|
  {
    var Waiting(key, e) := s.calls[call];
    if Usable(s.heap[e], now) then s.(calls := s.calls[call := Served(key, s.heap[e].stored.value.value, now)])
    else s.(heap := s.heap[e := s.heap[e].(holder := Some(call))], calls := s.calls[call := Building(key, e)])
  }

  function FinishStep<V>(ttl: int, s: State<V>, call: nat, value: V, now: int): State<V>
    requires call in s.calls && s.calls[call].Building? && s.calls[call].e < |s.heap|
  {
    var Building(key, e) := s.calls[call];
    s.(heap := s.heap[e := s.heap[e].(holder := None, stored := Some(Stored(value, now + ttl)))],
       calls := s.calls[call := Built(key, value, now)], builds := s.builds + [Build(key, value, now)])
  }

  function FailStep<V>(s: State<V>, call: nat): State<V>
    requires call in s.calls && s.calls[call].Building? && s.calls[call].e < |s.heap|
  {
    var Building(key, e) := s.calls[call];
    s.(heap := s.heap[e := s.heap[e].(holder := None)], calls := s.calls[call := Failed(key)])
  }

  /** Whether the step can happen: a lock that is held makes its callers wait. */
  predicate Enabled<V>(s: State<V>, ev: Event<V>) {
    match ev
    case Lookup(call, _) => call !in s.calls
    case Enter(call, _) =>
      call in s.calls && s.calls[call].Waiting? && s.calls[call].e < |s.heap| && s.heap[s.calls[call].e].holder.None?
    case Finish(call, _, _) => call in s.calls && s.calls[call].Building? && s.calls[call].e < |s.heap|
    case Fail(call) => call in s.calls && s.calls[call].Building? && s.calls[call].e < |s.heap|
  }

  function Next<V>(ttl: int, s: State<V>, ev: Event<V>): State<V> {
    if !Enabled(s, ev) then s
    else match ev
      case Lookup(call, key) => LookupStep(s, call, key)
      case Enter(call, now) => EnterStep(s, call, now)
      case Finish(call, value, now) => FinishStep(ttl, s, call, value, now)
      case Fail(call) => FailStep(s, call)
  }

  function New<V>(): State<V> { State(map[], [], map[], []) }

  function RunFrom<V>(ttl: int, s: State<V>, evs: seq<Event<V>>): State<V> {
    if evs == [] then s else Next(ttl, RunFrom(ttl, s, evs[..|evs| - 1]), evs[|evs| - 1])
  }

  function Run<V>(ttl: int, evs: seq<Event<V>>): State<V> { RunFrom(ttl, New(), evs) }

  /** The cache of a positive TTL; its steps are the locked sections of Get. */
  class Cache<V> {
    const ttl: int
    var entries: map<string, nat>
    var heap: seq<Entry<V>>
    var calls: map<nat, Call<V>>
    ghost var builds: seq<Build<V>>

    ghost function Now(): State<V> reads this { State(entries, heap, calls, builds) }

    constructor (ttl: int)
      ensures Now() == New() && this.ttl == ttl
    {
      this.ttl := ttl;
      entries, heap, calls, builds := map[], [], map[], [];
    }

    method LookUp(call: nat, key: string)
      requires Enabled(Now(), Lookup(call, key))
      modifies this
      ensures Now() == Next(ttl, old(Now()), Lookup(call, key))
    {
      if |entries| >= MAX_ENTRIES { entries := map[]; }
      if key !in entries {
        entries := entries[key := |heap|];
        heap := heap + [Entry(key, None, None)];
      }
      calls := calls[call := Waiting(key, entries[key])];
    }

    /** Some value when the stored one can be served; otherwise the call must build while it holds the lock. */
    method EnterEntry(call: nat, now: int) returns (hit: Option<V>)
      requires Enabled(Now(), Enter(call, now))
      modifies this
      ensures Now() == Next(ttl, old(Now()), Enter(call, now))
      ensures hit == if calls[call].Served? then Some(calls[call].value) else None
    {
      var Waiting(key, e) := calls[call];
      var entry := heap[e];
      if entry.stored.Some? && now < entry.stored.value.expiresAt {
        calls := calls[call := Served(key, entry.stored.value.value, now)];
        return Some(entry.stored.value.value);
      }
      heap := heap[e := entry.(holder := Some(call))];
      calls := calls[call := Building(key, e)];
      return None;
    }

    method FinishBuild(call: nat, value: V, now: int)
      requires Enabled(Now(), Finish(call, value, now))
      modifies this
      ensures Now() == Next(ttl, old(Now()), Finish(call, value, now))
    {
      var Building(key, e) := calls[call];
      heap := heap[e := heap[e].(stored := Some(Stored(value, now + ttl)), holder := None)];
      calls := calls[call := Built(key, value, now)];
      builds := builds + [Build(key, value, now)];
    }

    method FailBuild(call: nat)
      requires Enabled(Now(), Fail(call))
      modifies this
      ensures Now() == Next(ttl, old(Now()), Fail(call))
    {
      var Building(key, e) := calls[call];
      heap := heap[e := heap[e].(holder := None)];
      calls := calls[call := Failed(key)];
    }

    /** One step of any caller, if it can happen. */
    method TakeStep(ev: Event<V>)
      modifies this
      ensures Now() == Next(ttl, old(Now()), ev)
    {
      match ev
      case Lookup(call, key) =>
        if call !in calls { LookUp(call, key); }
      case Enter(call, now) =>
        if call in calls && calls[call].Waiting? && calls[call].e < |heap| && heap[calls[call].e].holder.None? {
          var hit := EnterEntry(call, now);
        }
      case Finish(call, value, now) =>
        if call in calls && calls[call].Building? && calls[call].e < |heap| { FinishBuild(call, value, now); }
      case Fail(call) =>
        if call in calls && calls[call].Building? && calls[call].e < |heap| { FailBuild(call); }
    }
  }

  // ---------------------------------------------------------------------
  // Get, among the steps of other callers
  // ---------------------------------------------------------------------

  lemma RunFromThen<V>(ttl: int, s: State<V>, evs: seq<Event<V>>, ev: Event<V>)
    ensures RunFrom(ttl, s, evs + [ev]) == Next(ttl, RunFrom(ttl, s, evs), ev)
  {
    assert (evs + [ev])[..|evs|] == evs;
  }

  lemma {:induction false} RunFromConcat<V>(ttl: int, s: State<V>, a: seq<Event<V>>, b: seq<Event<V>>)
    ensures RunFrom(ttl, s, a + b) == RunFrom(ttl, RunFrom(ttl, s, a), b)
  {
    if b == [] {
      assert a + b == a;
    } else {
      RunFromConcat(ttl, s, a, b[..|b| - 1]);
      assert (a + b)[..|a + b| - 1] == a + b[..|b| - 1];
    }
  }

  predicate ByOthers<V>(evs: seq<Event<V>>, call: nat) { forall i :: 0 <= i < |evs| ==> evs[i].call != call }

  /** Steps of other callers leave a caller where it is, and forget no entry. */
  lemma {:induction false} OthersLeaveAlone<V>(ttl: int, s: State<V>, evs: seq<Event<V>>, call: nat)
    requires ByOthers(evs, call)
    ensures var t := RunFrom(ttl, s, evs);
      && |s.heap| <= |t.heap|
      && (call in t.calls <==> call in s.calls) && (call in s.calls ==> t.calls[call] == s.calls[call])
  {
    if evs != [] {
      OthersLeaveAlone(ttl, s, evs[..|evs| - 1], call);
    }
  }

  /** Other callers take these steps, each if its lock lets it. */
  method OthersRun<V>(c: Cache<V>, evs: seq<Event<V>>)
    modifies c
    ensures c.Now() == RunFrom(c.ttl, old(c.Now()), evs)
  {
    for i := 0 to |evs|
      invariant c.Now() == RunFrom(c.ttl, old(c.Now()), evs[..i])
    {
      RunFromThen(c.ttl, old(c.Now()), evs[..i], evs[i]);
      assert evs[..i] + [evs[i]] == evs[..i + 1];
      c.TakeStep(evs[i]);
    }
    assert evs[..|evs|] == evs;
  }

  datatype Result<+V> = Value(value: V) | BuildError | StillWaiting

  function Report<V>(c: Call<V>): Result<V> {
    match c
    case Served(_, value, _) => Value(value)
    case Built(_, value, _) => Value(value)
    case Failed(_) => BuildError
    case _ => StillWaiting
  }

  /** The steps of a Get that ends as `end`, with those others take before it gets the lock and while it builds. */
  function GetSteps<V>(call: nat, key: string, before: seq<Event<V>>, during: seq<Event<V>>, now: int,
                       end: Call<V>): seq<Event<V>> {
    var entry := [Lookup(call, key)] + before;
    match end
    case Served(_, _, _) => entry + [Enter(call, now)]
    case Built(_, value, at) => entry + [Enter(call, now)] + during + [Finish(call, value, at)]
    case Failed(_) => entry + [Enter(call, now)] + during + [Fail(call)]
    case _ => entry
  }

  /**
    Get, whatever other callers do before it gets the entry's lock and while it builds. It goes on
    waiting only for a lock that is held. Without a positive TTL it builds and leaves the cache alone.
   */
  method Get<V>(c: Cache<V>, call: nat, key: string, build: () -> Option<V>, ghost begin: State<V>,
                before: seq<Event<V>>, during: seq<Event<V>>, now: int, later: int) returns (r: Result<V>)
    requires begin == c.Now() && call !in c.calls && ByOthers(before, call) && ByOthers(during, call)
    requires forall k :: k in c.entries ==> c.entries[k] < |c.heap|
    modifies c
    ensures c.ttl <= 0 ==> c.Now() == begin && r == if build().Some? then Value(build().value) else BuildError
    ensures c.ttl > 0 ==> call in c.calls && r == Report(c.calls[call])
    ensures c.ttl > 0 ==> c.Now() == RunFrom(c.ttl, begin, GetSteps(call, key, before, during, now, c.calls[call]))
    ensures c.ttl > 0 ==>
      match c.calls[call]
      case Waiting(k, e) => k == key && e < |c.heap| && c.heap[e].holder.Some?
      case Building(_, _) => false
      case Served(k, _, at) => k == key && at == now
      case Built(k, value, at) => k == key && at == later && build() == Some(value)
      case Failed(k) => k == key && build() == None
  {
    if c.ttl <= 0 {
      var built := build();
      return if built.Some? then Value(built.value) else BuildError;
    }
    FindEntry(c, call, key, begin, before);
    ghost var steps: seq<Event<V>> := [Lookup(call, key)] + before;
    if c.heap[c.calls[call].e].holder.Some? {
      return StillWaiting;
    }
    RunFromThen(c.ttl, begin, steps, Enter(call, now));
    var hit := c.EnterEntry(call, now);
    steps := steps + [Enter(call, now)];
    if hit.Some? {
      return Value(hit.value);
    }
    var built := build();
    OthersLeaveAlone(c.ttl, c.Now(), during, call);
    RunFromConcat(c.ttl, begin, steps, during);
    OthersRun(c, during);
    steps := steps + during;
    r := EndBuild(c, call, built, later, begin, steps);
  }

  method FindEntry<V>(c: Cache<V>, call: nat, key: string, ghost begin: State<V>, before: seq<Event<V>>)
    requires begin == c.Now() && call !in c.calls && ByOthers(before, call)
    requires forall k :: k in c.entries ==> c.entries[k] < |c.heap|
    modifies c
    ensures c.Now() == RunFrom(c.ttl, begin, [Lookup(call, key)] + before)
    ensures call in c.calls && c.calls[call].Waiting? && c.calls[call].key == key && c.calls[call].e < |c.heap|
  {
    ghost var first: seq<Event<V>> := [Lookup(call, key)];
    RunFromThen(c.ttl, begin, [], Lookup(call, key));
    assert [] + first == first;
    c.LookUp(call, key);
    OthersLeaveAlone(c.ttl, c.Now(), before, call);
    RunFromConcat(c.ttl, begin, first, before);
    OthersRun(c, before);
  }

  method EndBuild<V>(c: Cache<V>, call: nat, built: Option<V>, later: int, ghost begin: State<V>,
                     ghost steps: seq<Event<V>>)
    returns (r: Result<V>)
    requires Enabled(c.Now(), Event<V>.Fail(call)) && c.Now() == RunFrom(c.ttl, begin, steps)
    modifies c
    ensures var key := old(c.calls[call].key);
      && call in c.calls && r == Report(c.calls[call])
      && c.calls[call] == (if built.Some? then Built(key, built.value, later) else Failed(key))
      && c.Now() == RunFrom(c.ttl, begin,
                            steps + [if built.Some? then Finish(call, built.value, later) else Fail(call)])
  {
    if built.Some? {
      RunFromThen(c.ttl, begin, steps, Finish(call, built.value, later));
      c.FinishBuild(call, built.value, later);
      r := Value(built.value);
    } else {
      RunFromThen(c.ttl, begin, steps, Event<V>.Fail(call));
      c.FailBuild(call);
      r := BuildError;
    }
  }
}
