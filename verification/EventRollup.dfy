/**
  The event table and its hourly counters. Inserting an event counts it in the same
  transaction; pruning and client deletion remove raw rows only. An id is taken when the row is
  inserted and seen by others when the transaction commits. Times are whole seconds.
 */
module EventRollup {
  import opened Prelude

  datatype Event = Event(client: nat, kind: string, product: string, created: int)

  datatype Bucket = Bucket(hour: int, product: string, kind: string)

  const HOUR := 3600
  const DAY := 86400

  function FloorTo(unit: int, t: int): int
    requires unit > 0
  {
    t - t % unit
  }

  function BucketOf(e: Event): Bucket { Bucket(FloorTo(HOUR, e.created), e.product, e.kind) }

  /** open holds the rows of transactions that have not ended. */
  datatype Store = Store(events: map<nat, Event>, open: map<nat, Event>, nextId: nat, hourly: map<Bucket, nat>)

  const NEW := Store(map[], map[], 1, map[])

  function Counted(hourly: map<Bucket, nat>, b: Bucket): map<Bucket, nat> {
    hourly[b := (if b in hourly then hourly[b] else 0) + 1]
  }

  // ---------------------------------------------------------------------
  // Runs
  // ---------------------------------------------------------------------

  /** An insert begins and then commits or is rolled back; Prune is one batch of a prune pass. */
  datatype Op =
    | Begin(event: Event)
    | Commit(id: nat)
    | Abort(id: nat)
    | DeleteClient(client: nat)
    | Prune(batch: set<nat>)

  function Next(s: Store, op: Op): Store {
    match op
    case Begin(e) => s.(open := s.open[s.nextId := e], nextId := s.nextId + 1)
    case Commit(id) =>
      if id !in s.open then s
      else
        var e := s.open[id];
        s.(events := s.events[id := e], open := s.open - {id}, hourly := Counted(s.hourly, BucketOf(e)))
    case Abort(id) => s.(open := s.open - {id})
    case DeleteClient(c) => s.(events := map k | k in s.events && s.events[k].client != c :: s.events[k])
    case Prune(batch) => s.(events := s.events - batch)
  }

  function Run(ops: seq<Op>): Store {
    if ops == [] then NEW else Next(Run(ops[..|ops| - 1]), ops[|ops| - 1])
  }

  /** The event a step commits. */
  function Committed(s: Store, op: Op): Option<Event> {
    if op.Commit? && op.id in s.open then Some(s.open[op.id]) else None
  }

  /** Every event ever inserted, in the order of the commits, whether or not its row is still there. */
  function History(ops: seq<Op>): seq<Event> {
    if ops == [] then []
    else
      var front, last := ops[..|ops| - 1], ops[|ops| - 1];
      var e := Committed(Run(front), last);
      if e.Some? then History(front) + [e.value] else History(front)
  }

  class EventTables {
    var events: map<nat, Event>
    var open: map<nat, Event>
    var nextId: nat
    var hourly: map<Bucket, nat>

    ghost function Contents(): Store reads this { Store(events, open, nextId, hourly) }

    constructor ()
      ensures Contents() == NEW
    {
      events, open, nextId, hourly := map[], map[], 1, map[];
    }

    method BeginInsert(e: Event) returns (id: nat)
      modifies this
      ensures Contents() == Next(old(Contents()), Begin(e)) && id == old(nextId)
    {
      id := nextId;
      open, nextId := open[id := e], nextId + 1;
    }

    /** The row and its counter become visible together. */
    method CommitInsert(id: nat)
      modifies this
      ensures Contents() == Next(old(Contents()), Commit(id))
    {
      if id in open {
        var bucket := BucketOf(open[id]);
        hourly := if bucket in hourly then hourly[bucket := hourly[bucket] + 1] else hourly[bucket := 1];
        events, open := events[id := open[id]], open - {id};
      }
    }

    method AbortInsert(id: nat)
      modifies this
      ensures Contents() == Next(old(Contents()), Abort(id))
    {
      open := open - {id};
    }

    /** One insert with nothing in between: both the row and its count, or neither when something fails. */
    method InsertEvent(e: Event, fails: bool) returns (id: Option<nat>)
      modifies this
      ensures old(nextId) !in old(open) ==>
        && id == (if fails then None else Some(old(nextId)))
        && events == (if fails then old(events) else old(events)[old(nextId) := e])
        && hourly == (if fails then old(hourly) else Counted(old(hourly), BucketOf(e)))
        && open == old(open) && nextId == old(nextId) + 1
      ensures Contents() ==
              Next(Next(old(Contents()), Begin(e)), if fails then Abort(old(nextId)) else Commit(old(nextId)))
    {
      var key := BeginInsert(e);
      if fails {
        AbortInsert(key);
        return None;
      }
      CommitInsert(key);
      id := Some(key);
    }

    /** Exactly the client's rows go, and are counted; the hourly counters keep its events. */
    method DeleteStatsClient(client: nat) returns (deleted: nat)
      modifies this
      ensures forall k :: k in events <==> k in old(events) && old(events)[k].client != client
      ensures forall k :: k in events ==> events[k] == old(events)[k]
      ensures deleted == |old(events).Keys| - |events.Keys|
      ensures hourly == old(hourly) && nextId == old(nextId) && open == old(open)
      ensures Contents() == Next(old(Contents()), DeleteClient(client))
    {
      var gone := set k | k in events && events[k].client == client;
      deleted := |gone|;
      events := map k | k in events && events[k].client != client :: events[k];
      assert events.Keys == old(events).Keys - gone;
    }
  }

  // ---------------------------------------------------------------------
  // Counting and summing
  // ---------------------------------------------------------------------

  function CountWhere(h: seq<Event>, p: Event -> bool): nat {
    if h == [] then 0 else CountWhere(h[..|h| - 1], p) + (if p(h[|h| - 1]) then 1 else 0)
  }

  /** A choice of buckets as a choice of events. */
  function Within(p: Bucket -> bool): Event -> bool { e => p(BucketOf(e)) }

  ghost function SumOver(keys: set<Bucket>, hourly: map<Bucket, nat>): nat
    requires keys <= hourly.Keys
  {
    if keys == {} then 0
    else
      var k :| k in keys;
      hourly[k] + SumOver(keys - {k}, hourly)
  }

  /** The sum does not depend on the order in which the rows are read. */
  lemma {:induction false} SumTakesAny(keys: set<Bucket>, hourly: map<Bucket, nat>, b: Bucket)
    requires b in keys && keys <= hourly.Keys
    ensures SumOver(keys, hourly) == hourly[b] + SumOver(keys - {b}, hourly)
    decreases keys
  {
    var k :| k in keys && SumOver(keys, hourly) == hourly[k] + SumOver(keys - {k}, hourly);
    if k != b {
      SumTakesAny(keys - {k}, hourly, b);
      SumTakesAny(keys - {b}, hourly, k);
      assert keys - {k} - {b} == keys - {b} - {k};
    }
  }

  lemma {:induction false} SumSame(keys: set<Bucket>, hourly: map<Bucket, nat>, other: map<Bucket, nat>)
    requires keys <= hourly.Keys && keys <= other.Keys && forall k :: k in keys ==> hourly[k] == other[k]
    ensures SumOver(keys, hourly) == SumOver(keys, other)
    decreases keys
  {
    if keys != {} {
      var k :| k in keys;
      SumTakesAny(keys, hourly, k);
      SumTakesAny(keys, other, k);
      SumSame(keys - {k}, hourly, other);
    }
  }

  ghost function Matching(hourly: map<Bucket, nat>, p: Bucket -> bool): set<Bucket> {
    set b | b in hourly && p(b)
  }

  ghost function SumWhere(hourly: map<Bucket, nat>, p: Bucket -> bool): nat { SumOver(Matching(hourly, p), hourly) }

  lemma SumAfterCount(hourly: map<Bucket, nat>, b: Bucket, p: Bucket -> bool)
    ensures SumWhere(Counted(hourly, b), p) == SumWhere(hourly, p) + (if p(b) then 1 else 0)
  {
    var counted := Counted(hourly, b);
    var keys := Matching(hourly, p) - {b};
    SumSame(keys, hourly, counted);
    if p(b) {
      assert Matching(counted, p) - {b} == keys;
      SumTakesAny(Matching(counted, p), counted, b);
      if b in hourly {
        SumTakesAny(Matching(hourly, p), hourly, b);
      } else {
        assert keys == Matching(hourly, p);
      }
    } else {
      assert Matching(counted, p) == keys && Matching(hourly, p) == keys;
    }
  }

  // ---------------------------------------------------------------------
  // The counters and the history
  // ---------------------------------------------------------------------

  lemma HourlyAfter(s: Store, op: Op)
    ensures var e := Committed(s, op);
      Next(s, op).hourly == if e.Some? then Counted(s.hourly, BucketOf(e.value)) else s.hourly
  {}

  lemma CountThen(h: seq<Event>, e: Event, p: Event -> bool)
    ensures CountWhere(h + [e], p) == CountWhere(h, p) + if p(e) then 1 else 0
  {
    assert (h + [e])[..|h|] == h;
  }

  /** Whatever rows are chosen, their counters sum to the number of events ever inserted in them. */
  lemma {:induction false} SumsMatchHistory(ops: seq<Op>, p: Bucket -> bool)
    ensures SumWhere(Run(ops).hourly, p) == CountWhere(History(ops), Within(p))
  {
    if ops == [] {
      assert Matching(map[], p) == {};
    } else {
      var front, last := ops[..|ops| - 1], ops[|ops| - 1];
      var e := Committed(Run(front), last);
      SumsMatchHistory(front, p);
      HourlyAfter(Run(front), last);
      if e.Some? {
        SumAfterCount(Run(front).hourly, BucketOf(e.value), p);
        CountThen(History(front), e.value, Within(p));
      }
    }
  }

  /** Each counter is the number of events ever inserted in its bucket, and only buckets with events have one. */
  lemma {:induction false} CountersAreExact(ops: seq<Op>, b: Bucket)
    ensures var n, hourly := CountWhere(History(ops), e => BucketOf(e) == b), Run(ops).hourly;
      (b in hourly <==> n > 0) && (b in hourly ==> hourly[b] == n)
  {
    if ops != [] {
      var front, last := ops[..|ops| - 1], ops[|ops| - 1];
      var e := Committed(Run(front), last);
      CountersAreExact(front, b);
      HourlyAfter(Run(front), last);
      if e.Some? { CountThen(History(front), e.value, x => BucketOf(x) == b); }
    }
  }

  lemma {:induction false} CountsAlike(h: seq<Event>, p: Event -> bool, q: Event -> bool)
    requires forall e :: p(e) == q(e)
    ensures CountWhere(h, p) == CountWhere(h, q)
  {
    if h != [] { CountsAlike(h[..|h| - 1], p, q); }
  }
}
