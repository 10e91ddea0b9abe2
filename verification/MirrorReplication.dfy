/**
  Site mirrors that poll an upstream (the primary or another mirror) and store what they
  get. Every interleaving of primary writes, fetches, deliveries and lost replies is a run.
 */
module MirrorReplication {
  import opened Prelude
  import opened RevisionStore

  const PRIMARY: nat := 0

  /** Node n polls up[n]; the primary polls nobody. Replies on their way are keyed by the mirror. */
  datatype Cluster = Cluster(tables: map<nat, Table>, replies: map<nat, Content>)

  type Upstreams = map<nat, nat>

  datatype Event = Write(op: Op) | Fetch(mirror: nat) | Deliver(mirror: nat) | Lose(mirror: nat)

  function TableOf(c: Cluster, n: nat): Table { if n in c.tables then c.tables[n] else map[] }

  /** The published revision, 0 when nothing is published. */
  ghost function PublishedOf(t: Table): nat {
    if exists r: nat :: IsPublished(t, r) then (var r: nat :| IsPublished(t, r); r) else 0
  }

  // ---------------------------------------------------------------------
  // The mirror's own store
  // ---------------------------------------------------------------------

  /** Supersede what is published and put the replicated row in its place, unless it is current already. */
  function StoreStep(t: Table, r: nat, content: Content): Table {
    if IsPublished(t, r) then t else Supersede(t)[r := Row(Published, content)]
  }

  class MirrorTable {
    var rows: Table

    constructor ()
      ensures rows == map[]
    {
      rows := map[];
    }

    method StoreReplicated(r: nat, content: Content)
      modifies this
      ensures rows == StoreStep(old(rows), r, content)
    {
      if r in rows && rows[r].status == Published {
        return;
      }
      rows := Supersede(rows);
      rows := rows[r := Row(Published, content)];
    }

    /** What syncOnce does with a 200 reply: reject it, or store it under the revision it carries. */
    method Receive(c: Codec, reply: Content) returns (stored: Option<Received>)
      modifies this
      ensures stored == c.read(reply)
      ensures rows == if stored.None? then old(rows)
                      else StoreStep(old(rows), stored.value.revision, stored.value.content)
    {
      stored := c.read(reply);
      if stored.Some? { StoreReplicated(stored.value.revision, stored.value.content); }
    }
  }

  // ---------------------------------------------------------------------
  // The steps of the cluster
  // ---------------------------------------------------------------------

  /** GET on the upstream: 204 when nothing is published, 304 when the etag is the mirror's own, else the row. */
  ghost function FetchStep(up: Upstreams, c: Cluster, m: nat): Cluster {
    if m == PRIMARY || m !in up then c
    else
      var there, here := TableOf(c, up[m]), TableOf(c, m);
      var r := PublishedOf(there);
      if !IsPublished(there, r) then c
      else if IsPublished(here, PublishedOf(here)) && here[PublishedOf(here)].content.etag == there[r].content.etag
      then c
      else c.(replies := c.replies[m := there[r].content])
  }

  function DeliverStep(k: Codec, up: Upstreams, c: Cluster, m: nat): Cluster {
    if m == PRIMARY || m !in up || m !in c.replies then c
    else
      var rest := c.(replies := c.replies - {m});
      var r := k.read(c.replies[m]);
      if r.None? then rest
      else rest.(tables := c.tables[m := StoreStep(TableOf(c, m), r.value.revision, r.value.content)])
  }

  ghost function Next(k: Codec, up: Upstreams, c: Cluster, ev: Event): Cluster {
    match ev
    case Write(op) => c.(tables := c.tables[PRIMARY := Step(k, TableOf(c, PRIMARY), op)])
    case Fetch(m) => FetchStep(up, c, m)
    case Deliver(m) => DeliverStep(k, up, c, m)
    case Lose(m) => c.(replies := c.replies - {m})
  }

  ghost function RunCluster(k: Codec, up: Upstreams, c: Cluster, evs: seq<Event>): Cluster {
    if evs == [] then c else Next(k, up, RunCluster(k, up, c, evs[..|evs| - 1]), evs[|evs| - 1])
  }

  const EMPTY: Cluster := Cluster(map[], map[])

  // ---------------------------------------------------------------------
  // The invariant
  // ---------------------------------------------------------------------

  /** A reply with a prepared row is rejected, or stored as it is under the row's own revision. */
  ghost predicate Faithful(k: Codec) {
    forall raw, r: nat, at :: k.clock(at) && k.prepare(raw, r, at).Some? ==>
      var sent := k.prepare(raw, r, at).value; k.read(sent).None? || k.read(sent).value == Received(r, sent)
  }

  /** A mirror that accepts a prepared row stores it under its own revision. */
  lemma PreparedIsRead(k: Codec, r: nat, content: Content)
    requires Faithful(k) && PreparedAs(k, r, content)
    ensures k.read(content).None? || k.read(content).value == Received(r, content)
  {
    var raw, at :| k.clock(at) && k.prepare(raw, r, at) == Some(content);
  }

  /** This content is the primary's row r, which was published at some time. */
  predicate FromPrimary(c: Cluster, r: nat, content: Content) {
    EverPublished(TableOf(c, PRIMARY), r) && TableOf(c, PRIMARY)[r].content == content
  }

  /** Only rows of the primary, one of them published and none above it. */
  ghost predicate RowsOk(c: Cluster, m: nat) {
    var t := TableOf(c, m);
    Orderly(t) && forall r: nat :: r in t ==> t[r].status != Draft && FromPrimary(c, r, t[r].content)
  }

  /** The reply on its way to m is the primary's row r, which m's upstream has reached and m has not passed. */
  ghost predicate ReplyIs(up: Upstreams, c: Cluster, m: nat, r: nat)
    requires m in up && m in c.replies
  {
    FromPrimary(c, r, c.replies[m]) && PublishedOf(TableOf(c, m)) <= r <= PublishedOf(TableOf(c, up[m]))
  }

  ghost predicate MirrorOk(up: Upstreams, c: Cluster, m: nat)
    requires m in up
  {
    && RowsOk(c, m)
    && PublishedOf(TableOf(c, m)) <= PublishedOf(TableOf(c, up[m]))
    && (m in c.replies ==> exists r: nat :: ReplyIs(up, c, m, r))
  }

  ghost predicate Consistent(k: Codec, up: Upstreams, c: Cluster) {
    && Orderly(TableOf(c, PRIMARY)) && AllPrepared(k, TableOf(c, PRIMARY))
    && forall m: nat :: m in up ==> MirrorOk(up, c, m)
  }

  /** Node n has lost or changed nothing it ever published, and its published revision has not gone down. */
  ghost predicate Advanced(before: Cluster, after: Cluster, n: nat) {
    Keeps(TableOf(before, n), TableOf(after, n)) && PublishedOf(TableOf(before, n)) <= PublishedOf(TableOf(after, n))
  }

  // ---------------------------------------------------------------------
  // Every step keeps it
  // ---------------------------------------------------------------------

  lemma PublishedIsTop(t: Table)
    requires Orderly(t)
    ensures forall r: nat :: EverPublished(t, r) ==> r <= PublishedOf(t)
    ensures forall r: nat :: IsPublished(t, r) ==> r == PublishedOf(t)
    ensures PublishedOf(t) > 0 ==> IsPublished(t, PublishedOf(t))
  {}

  lemma KeepsAdvances(before: Table, after: Table)
    requires Orderly(before) && Orderly(after) && Keeps(before, after)
    ensures PublishedOf(before) <= PublishedOf(after)
  {
    PublishedIsTop(before);
    PublishedIsTop(after);
  }

  /** A mirror whose own table and reply did not change stays fine when the primary and its upstream only advance. */
  lemma MirrorStays(up: Upstreams, c: Cluster, d: Cluster, m: nat)
    requires m in up && MirrorOk(up, c, m)
    requires TableOf(d, m) == TableOf(c, m)
    requires m in d.replies ==> m in c.replies && d.replies[m] == c.replies[m]
    requires Keeps(TableOf(c, PRIMARY), TableOf(d, PRIMARY))
    requires PublishedOf(TableOf(c, up[m])) <= PublishedOf(TableOf(d, up[m]))
    ensures MirrorOk(up, d, m)
  {
    assert RowsOk(d, m) by {
      forall r: nat | r in TableOf(d, m) ensures FromPrimary(d, r, TableOf(d, m)[r].content) {
        assert FromPrimary(c, r, TableOf(c, m)[r].content);
      }
    }
    if m in d.replies {
      var r: nat :| ReplyIs(up, c, m, r);
      assert ReplyIs(up, d, m, r);
    }
  }

  lemma WriteStep(k: Codec, up: Upstreams, c: Cluster, op: Op)
    requires PRIMARY !in up && Consistent(k, up, c) && ClockOk(k, op)
    ensures Consistent(k, up, Next(k, up, c, Write(op)))
    ensures forall n: nat :: Advanced(c, Next(k, up, c, Write(op)), n)
  {
    var d := Next(k, up, c, Write(op));
    StepOrderly(k, TableOf(c, PRIMARY), op);
    StepPrepared(k, TableOf(c, PRIMARY), op);
    KeepsAdvances(TableOf(c, PRIMARY), TableOf(d, PRIMARY));
    forall n: nat ensures Advanced(c, d, n) {
      assert n != PRIMARY ==> TableOf(d, n) == TableOf(c, n);
    }
    forall m: nat | m in up ensures MirrorOk(up, d, m) {
      assert Advanced(c, d, up[m]);
      MirrorStays(up, c, d, m);
    }
  }

  /** The published row of any node is the primary's row of that revision. */
  lemma PublishedFromPrimary(k: Codec, up: Upstreams, c: Cluster, n: nat)
    requires Consistent(k, up, c) && (n == PRIMARY || n in up)
    requires IsPublished(TableOf(c, n), PublishedOf(TableOf(c, n)))
    ensures FromPrimary(c, PublishedOf(TableOf(c, n)), TableOf(c, n)[PublishedOf(TableOf(c, n))].content)
  {
    if n in up { assert MirrorOk(up, c, n); }
  }

  lemma FetchKeeps(k: Codec, up: Upstreams, c: Cluster, m: nat)
    requires PRIMARY !in up && Consistent(k, up, c)
    requires forall n: nat :: n in up ==> up[n] == PRIMARY || up[n] in up
    ensures Consistent(k, up, FetchStep(up, c, m))
    ensures forall n: nat :: Advanced(c, FetchStep(up, c, m), n)
  {
    var d := FetchStep(up, c, m);
    if d != c {
      var there := TableOf(c, up[m]);
      assert MirrorOk(up, c, m);
      PublishedFromPrimary(k, up, c, up[m]);
      assert ReplyIs(up, d, m, PublishedOf(there));
      forall n: nat | n in up ensures MirrorOk(up, d, n) {
        if n != m { MirrorStays(up, c, d, n); } else { assert RowsOk(d, m); }
      }
    }
  }

  /** Storing a row above everything the mirror has. */
  lemma StoreAbove(t: Table, r: nat, content: Content)
    requires Orderly(t) && PublishedOf(t) <= r && 0 < r
    requires forall q: nat :: q in t ==> t[q].status != Draft
    ensures var u := StoreStep(t, r, content);
      && Orderly(u) && IsPublished(u, r) && Keeps(t, u) && PublishedOf(u) == r
      && (forall q: nat :: q in u ==> u[q].status != Draft && (q in t || q == r))
      && (r !in t ==> u[r].content == content)
  {
    PublishedIsTop(t);
    var u := StoreStep(t, r, content);
    if !IsPublished(t, r) {
      assert PublishedOf(t) < r;
      forall q: nat | q in t ensures q < r { assert EverPublished(t, q); }
      assert IsPublished(u, r);
      forall q: nat | EverPublished(u, q) ensures q <= r {}
      forall q: nat ensures IsPublished(u, q) ==> q == r {}
    }
    PublishedIsTop(u);
  }

  lemma ReplyIsRead(k: Codec, up: Upstreams, c: Cluster, m: nat) returns (r: nat)
    requires Consistent(k, up, c) && Faithful(k) && m in up && m in c.replies
    ensures ReplyIs(up, c, m, r) && 0 < r
    ensures k.read(c.replies[m]).None? || k.read(c.replies[m]).value == Received(r, c.replies[m])
  {
    assert MirrorOk(up, c, m);
    r :| ReplyIs(up, c, m, r);
    PreparedIsRead(k, r, c.replies[m]);
  }

  lemma DeliverKeeps(k: Codec, up: Upstreams, c: Cluster, m: nat)
    requires PRIMARY !in up && Consistent(k, up, c) && Faithful(k)
    ensures Consistent(k, up, DeliverStep(k, up, c, m))
    ensures forall n: nat :: Advanced(c, DeliverStep(k, up, c, m), n)
  {
    if m in up && m in c.replies {
      var d := DeliverStep(k, up, c, m);
      if k.read(c.replies[m]).Some? {
        var r := ReplyIsRead(k, up, c, m);
        DeliverStores(k, up, c, m, r, d);
      } else {
        assert d == Next(k, up, c, Lose(m));
        LoseKeeps(k, up, c, m);
      }
    }
  }

  lemma DeliverStores(k: Codec, up: Upstreams, c: Cluster, m: nat, r: nat, d: Cluster)
    requires PRIMARY !in up && Consistent(k, up, c) && m in up && m in c.replies && ReplyIs(up, c, m, r) && 0 < r
    requires d == Cluster(c.tables[m := StoreStep(TableOf(c, m), r, c.replies[m])], c.replies - {m})
    ensures Consistent(k, up, d)
    ensures forall n: nat :: Advanced(c, d, n)
  {
    assert MirrorOk(up, c, m);
    StoreAdvances(c, m, r, c.replies[m], d);
    DeliveredRows(up, c, d, m, r);
    assert TableOf(d, PRIMARY) == TableOf(c, PRIMARY);
    forall n: nat | n in up ensures MirrorOk(up, d, n) {
      assert MirrorOk(up, c, n);
      if n != m { OthersStay(up, c, d, m, n); }
    }
  }

  lemma OthersStay(up: Upstreams, c: Cluster, d: Cluster, m: nat, n: nat)
    requires n in up && n != m && MirrorOk(up, c, n) && Advanced(c, d, up[n])
    requires TableOf(d, PRIMARY) == TableOf(c, PRIMARY) && TableOf(d, n) == TableOf(c, n)
      && d.replies == c.replies - {m}
    ensures MirrorOk(up, d, n)
  {
    MirrorStays(up, c, d, n);
  }

  lemma StoreAdvances(c: Cluster, m: nat, r: nat, content: Content, d: Cluster)
    requires RowsOk(c, m) && PublishedOf(TableOf(c, m)) <= r && 0 < r
    requires d.tables == c.tables[m := StoreStep(TableOf(c, m), r, content)]
    ensures forall n: nat :: Advanced(c, d, n)
  {
    StoreAbove(TableOf(c, m), r, content);
    forall n: nat ensures Advanced(c, d, n) {
      assert n != m ==> TableOf(d, n) == TableOf(c, n);
    }
  }

  lemma DeliveredRows(up: Upstreams, c: Cluster, d: Cluster, m: nat, r: nat)
    requires m in up && m != PRIMARY && MirrorOk(up, c, m) && m in c.replies && ReplyIs(up, c, m, r) && 0 < r
    requires d == Cluster(c.tables[m := StoreStep(TableOf(c, m), r, c.replies[m])], c.replies - {m})
    ensures MirrorOk(up, d, m)
  {
    var t, u := TableOf(c, m), TableOf(d, m);
    StoreAbove(t, r, c.replies[m]);
    assert TableOf(d, PRIMARY) == TableOf(c, PRIMARY);
    forall q: nat | q in u ensures FromPrimary(d, q, u[q].content) {
      if q in t {
        assert FromPrimary(c, q, t[q].content);
        assert EverPublished(t, q);
      }
    }
    assert RowsOk(d, m);
    assert up[m] != m ==> TableOf(d, up[m]) == TableOf(c, up[m]);
  }

  lemma LoseKeeps(k: Codec, up: Upstreams, c: Cluster, m: nat)
    requires Consistent(k, up, c)
    ensures Consistent(k, up, Next(k, up, c, Lose(m)))
    ensures forall n: nat :: Advanced(c, Next(k, up, c, Lose(m)), n)
  {
    var d := Next(k, up, c, Lose(m));
    forall n: nat ensures TableOf(d, n) == TableOf(c, n) {}
    forall n: nat | n in up ensures MirrorOk(up, d, n) {
      MirrorStays(up, c, d, n);
    }
  }

  // ---------------------------------------------------------------------
  // Whole runs
  // ---------------------------------------------------------------------

  /** Every mirror polls the primary or another mirror, and the primary polls nobody. */
  predicate Wired(up: Upstreams) {
    PRIMARY !in up && forall n :: n in up ==> up[n] == PRIMARY || up[n] in up
  }

  predicate EventOk(k: Codec, ev: Event) { ev.Write? ==> ClockOk(k, ev.op) }

  lemma NextKeeps(k: Codec, up: Upstreams, c: Cluster, ev: Event)
    requires Wired(up) && Consistent(k, up, c) && Faithful(k) && EventOk(k, ev)
    ensures Consistent(k, up, Next(k, up, c, ev))
    ensures forall n: nat :: Advanced(c, Next(k, up, c, ev), n)
  {
    match ev
    case Write(op) => WriteStep(k, up, c, op);
    case Fetch(m) => FetchKeeps(k, up, c, m);
    case Deliver(m) => DeliverKeeps(k, up, c, m);
    case Lose(m) => LoseKeeps(k, up, c, m);
  }

  lemma {:induction false} RunKeeps(k: Codec, up: Upstreams, c: Cluster, evs: seq<Event>)
    requires Wired(up) && Consistent(k, up, c) && Faithful(k)
    requires forall i :: 0 <= i < |evs| ==> EventOk(k, evs[i])
    ensures Consistent(k, up, RunCluster(k, up, c, evs))
    ensures forall n: nat :: Advanced(c, RunCluster(k, up, c, evs), n)
  {
    if evs != [] {
      var front, last := evs[..|evs| - 1], evs[|evs| - 1];
      RunKeeps(k, up, c, front);
      var m, d := RunCluster(k, up, c, front), RunCluster(k, up, c, evs);
      NextKeeps(k, up, m, last);
      forall n: nat ensures Advanced(c, d, n) {
        assert Advanced(c, m, n) && Advanced(m, d, n);
      }
    }
  }

  lemma EmptyIsConsistent(k: Codec, up: Upstreams)
    ensures Consistent(k, up, EMPTY)
  {
    forall m: nat | m in up ensures MirrorOk(up, EMPTY, m) {}
  }

  /**
    Every row of mirror m is the primary's row of that revision, byte for byte and with its
    etag; m and the primary have at most one row published; m has published no more than its
    upstream; and continuing the run takes nothing back.
   */
  ghost predicate Safe(k: Codec, up: Upstreams, c: Cluster, more: seq<Event>, m: nat, r: nat)
    requires m in up
  {
    && (r in TableOf(c, m) ==> r in TableOf(c, PRIMARY) && TableOf(c, m)[r].content == TableOf(c, PRIMARY)[r].content)
    && OnePublished(TableOf(c, m)) && OnePublished(TableOf(c, PRIMARY))
    && PublishedOf(TableOf(c, m)) <= PublishedOf(TableOf(c, up[m]))
    && Advanced(c, RunCluster(k, up, c, more), m)
  }

  /** Replication is safe after any run from empty tables. */
  lemma ReplicationIsSafe(k: Codec, up: Upstreams, evs: seq<Event>, more: seq<Event>, m: nat, r: nat)
    requires Wired(up) && Faithful(k) && m in up
    requires forall i :: 0 <= i < |evs| ==> EventOk(k, evs[i])
    requires forall i :: 0 <= i < |more| ==> EventOk(k, more[i])
    ensures Safe(k, up, RunCluster(k, up, EMPTY, evs), more, m, r)
  {
    EmptyIsConsistent(k, up);
    RunKeeps(k, up, EMPTY, evs);
    var c := RunCluster(k, up, EMPTY, evs);
    assert MirrorOk(up, c, m);
    RunKeeps(k, up, c, more);
  }

  // ---------------------------------------------------------------------
  // Catching up
  // ---------------------------------------------------------------------

  /** No two revisions can be prepared with the same etag. */
  ghost predicate TagsTell(k: Codec) {
    forall q, r, a, b :: PreparedAs(k, q, a) && PreparedAs(k, r, b) && a.etag == b.etag ==> q == r
  }

  lemma RunTwo(k: Codec, up: Upstreams, c: Cluster, a: Event, b: Event)
    ensures RunCluster(k, up, c, [a, b]) == Next(k, up, Next(k, up, c, a), b)
  {
    assert [a, b][..1] == [a] && [a][..0] == [];
    assert RunCluster(k, up, c, []) == c;
    assert RunCluster(k, up, c, [a]) == Next(k, up, c, a);
  }

  /** A node's published row, prepared by the primary under that number. */
  lemma PublishedIsPrepared(k: Codec, up: Upstreams, c: Cluster, n: nat, r: nat)
    requires Consistent(k, up, c) && (n == PRIMARY || n in up) && IsPublished(TableOf(c, n), r)
    ensures r > 0 && PublishedOf(TableOf(c, n)) == r && PreparedAs(k, r, TableOf(c, n)[r].content)
  {
    if n in up { assert MirrorOk(up, c, n); }
    PublishedIsTop(TableOf(c, n));
    PublishedFromPrimary(k, up, c, n);
  }

  /** Where the etag is the mirror's own, the mirror is level already. */
  lemma SameTagIsLevel(k: Codec, up: Upstreams, c: Cluster, m: nat, q: nat, r: nat)
    requires Wired(up) && Consistent(k, up, c) && TagsTell(k) && m in up
    requires IsPublished(TableOf(c, m), q) && IsPublished(TableOf(c, up[m]), r)
    requires TableOf(c, m)[q].content.etag == TableOf(c, up[m])[r].content.etag
    ensures q == r
  {
    PublishedIsPrepared(k, up, c, m, q);
    PublishedIsPrepared(k, up, c, up[m], r);
  }

  /** A reply that is delivered: the mirror publishes its revision when it accepts the row, else nothing changes. */
  lemma DeliveredIsLevel(k: Codec, up: Upstreams, c: Cluster, m: nat, r: nat, f: Cluster)
    requires Wired(up) && Consistent(k, up, c) && Faithful(k) && m in up && IsPublished(TableOf(c, up[m]), r)
    requires f == c.(replies := c.replies[m := TableOf(c, up[m])[r].content])
    ensures var here, after := TableOf(c, m), TableOf(DeliverStep(k, up, f, m), m);
      PublishedOf(after) == if k.read(TableOf(c, up[m])[r].content).Some? then r else PublishedOf(here)
  {
    var content := TableOf(c, up[m])[r].content;
    PublishedIsPrepared(k, up, c, up[m], r);
    PreparedIsRead(k, r, content);
    assert MirrorOk(up, c, m);
    if k.read(content).Some? {
      StoreAbove(TableOf(c, m), r, content);
    }
  }

  /** The mirror is level with its upstream. */
  ghost predicate Level(up: Upstreams, c: Cluster, d: Cluster, m: nat)
    requires m in up
  {
    PublishedOf(TableOf(d, m)) == PublishedOf(TableOf(c, up[m]))
  }

  /** The row a mirror is sent would be accepted by it. */
  ghost predicate Acceptable(k: Codec, t: Table) {
    forall r :: IsPublished(t, r) ==> k.read(t[r].content).Some?
  }

  lemma QuietFetch(k: Codec, up: Upstreams, c: Cluster, m: nat)
    requires Wired(up) && Consistent(k, up, c) && TagsTell(k) && m in up && m !in c.replies && FetchStep(up, c, m) == c
    ensures Level(up, c, c, m) && DeliverStep(k, up, c, m) == c
  {
    var there, here := TableOf(c, up[m]), TableOf(c, m);
    var r, q := PublishedOf(there), PublishedOf(here);
    assert MirrorOk(up, c, m);
    if IsPublished(there, r) {
      assert c.replies[m := there[r].content] != c.replies;
      SameTagIsLevel(k, up, c, m, q, r);
    }
  }

  lemma AnsweredFetch(k: Codec, up: Upstreams, c: Cluster, m: nat)
    requires Wired(up) && Consistent(k, up, c) && Faithful(k) && m in up && FetchStep(up, c, m) != c
    ensures Level(up, c, DeliverStep(k, up, FetchStep(up, c, m), m), m) <==>
            Acceptable(k, TableOf(c, up[m])) || Level(up, c, c, m)
  {
    var there := TableOf(c, up[m]);
    var r := PublishedOf(there);
    PublishedIsPrepared(k, up, c, up[m], r);
    DeliveredIsLevel(k, up, c, m, r, FetchStep(up, c, m));
    forall q | IsPublished(there, q) ensures q == r { PublishedIsPrepared(k, up, c, up[m], q); }
  }

  /**
    A fetch and a delivery with nothing in between bring the mirror level with its upstream
    exactly when it accepts the upstream's published row, or was level before.
   */
  lemma SyncCatchesUpIff(k: Codec, up: Upstreams, c: Cluster, m: nat)
    requires Wired(up) && Consistent(k, up, c) && Faithful(k) && TagsTell(k) && m in up && m !in c.replies
    ensures Level(up, c, RunCluster(k, up, c, [Fetch(m), Deliver(m)]), m) <==>
            Acceptable(k, TableOf(c, up[m])) || Level(up, c, c, m)
  {
    RunTwo(k, up, c, Fetch(m), Deliver(m));
    if FetchStep(up, c, m) == c {
      QuietFetch(k, up, c, m);
    } else {
      AnsweredFetch(k, up, c, m);
    }
  }

  // ---------------------------------------------------------------------
  // Polling down a path of mirrors
  // ---------------------------------------------------------------------

  /** Every row of a mirror is one that mirrors accept. */
  ghost predicate MirrorsAccepted(k: Codec, up: Upstreams, c: Cluster) {
    forall m: nat, r: nat :: m in up && r in TableOf(c, m) ==> k.read(TableOf(c, m)[r].content).Some?
  }

  lemma NextAccepted(k: Codec, up: Upstreams, c: Cluster, ev: Event)
    requires PRIMARY !in up && Consistent(k, up, c) && Faithful(k) && MirrorsAccepted(k, up, c)
    ensures MirrorsAccepted(k, up, Next(k, up, c, ev))
  {
    var d := Next(k, up, c, ev);
    if ev.Deliver? && ev.mirror in up && ev.mirror in c.replies {
      var r := ReplyIsRead(k, up, c, ev.mirror);
    }
    forall m: nat, r: nat | m in up && r in TableOf(d, m) ensures k.read(TableOf(d, m)[r].content).Some? {
      assert r in TableOf(c, m) ==> k.read(TableOf(c, m)[r].content).Some?;
    }
  }

  lemma {:induction false} RunAccepted(k: Codec, up: Upstreams, c: Cluster, evs: seq<Event>)
    requires Wired(up) && Consistent(k, up, c) && Faithful(k) && MirrorsAccepted(k, up, c)
    requires forall i :: 0 <= i < |evs| ==> EventOk(k, evs[i])
    ensures MirrorsAccepted(k, up, RunCluster(k, up, c, evs))
  {
    if evs != [] {
      RunKeeps(k, up, c, evs[..|evs| - 1]);
      RunAccepted(k, up, c, evs[..|evs| - 1]);
      NextAccepted(k, up, RunCluster(k, up, c, evs[..|evs| - 1]), evs[|evs| - 1]);
    }
  }

  /** One undisturbed poll. */
  ghost function Polled(k: Codec, up: Upstreams, c: Cluster, m: nat): Cluster {
    Next(k, up, Next(k, up, c, Fetch(m)), Deliver(m))
  }

  function Polls(path: seq<nat>): seq<Event> {
    if path == [] then [] else Polls(path[..|path| - 1]) + [Fetch(path[|path| - 1]), Deliver(path[|path| - 1])]
  }

  lemma PollsThen(k: Codec, up: Upstreams, c: Cluster, evs: seq<Event>, m: nat)
    ensures RunCluster(k, up, c, evs + [Fetch(m), Deliver(m)]) == Polled(k, up, RunCluster(k, up, c, evs), m)
  {
    var all := evs + [Fetch(m), Deliver(m)];
    assert all[..|all| - 1] == evs + [Fetch(m)];
    assert (evs + [Fetch(m)])[..|evs|] == evs;
  }

  /** A poll changes the mirror's own table only, and leaves no reply of its own behind. */
  lemma PollEffect(k: Codec, up: Upstreams, c: Cluster, m: nat)
    requires PRIMARY !in up && m in up
    ensures var d := Polled(k, up, c, m);
      && (forall n: nat :: n != m ==> TableOf(d, n) == TableOf(c, n))
      && (forall n: nat :: n in d.replies ==> n in c.replies)
  {}

  lemma PollKeeps(k: Codec, up: Upstreams, c: Cluster, m: nat)
    requires Wired(up) && Consistent(k, up, c) && Faithful(k) && MirrorsAccepted(k, up, c)
    ensures Consistent(k, up, Polled(k, up, c, m)) && MirrorsAccepted(k, up, Polled(k, up, c, m))
  {
    NextKeeps(k, up, c, Fetch(m));
    NextAccepted(k, up, c, Fetch(m));
    NextKeeps(k, up, Next(k, up, c, Fetch(m)), Deliver(m));
    NextAccepted(k, up, Next(k, up, c, Fetch(m)), Deliver(m));
  }

  /** The i-th mirror of the path polls the one before it, the first the primary. */
  predicate Hop(up: Upstreams, path: seq<nat>, i: nat)
    requires i < |path|
  {
    path[i] in up && up[path[i]] == if i == 0 then PRIMARY else path[i - 1]
  }

  ghost predicate PollPath(up: Upstreams, path: seq<nat>) { forall i: nat :: i < |path| ==> Hop(up, path, i) }

  /** All mirrors of the path publish this revision. */
  ghost predicate AllPublish(c: Cluster, path: seq<nat>, r: nat) {
    forall i :: 0 <= i < |path| ==> PublishedOf(TableOf(c, path[i])) == r
  }

  /** What polling relies on and keeps. */
  ghost predicate Ready(k: Codec, up: Upstreams, c: Cluster) {
    Wired(up) && Consistent(k, up, c) && Faithful(k) && TagsTell(k) && MirrorsAccepted(k, up, c)
  }

  /** A poll of a mirror whose upstream is a mirror brings it level. */
  lemma PollOfMirror(k: Codec, up: Upstreams, c: Cluster, m: nat)
    requires Ready(k, up, c) && m in up && up[m] in up && m !in c.replies
    ensures PublishedOf(TableOf(Polled(k, up, c, m), m)) == PublishedOf(TableOf(c, up[m]))
  {
    RunTwo(k, up, c, Fetch(m), Deliver(m));
    SyncCatchesUpIff(k, up, c, m);
    assert Acceptable(k, TableOf(c, up[m]));
  }

  lemma FirstPollIff(k: Codec, up: Upstreams, c: Cluster, m: nat)
    requires Ready(k, up, c) && m in up && up[m] == PRIMARY && m !in c.replies
    ensures PublishedOf(TableOf(Polled(k, up, c, m), m)) == PublishedOf(TableOf(c, PRIMARY)) <==>
            Acceptable(k, TableOf(c, PRIMARY)) || PublishedOf(TableOf(c, m)) == PublishedOf(TableOf(c, PRIMARY))
  {
    RunTwo(k, up, c, Fetch(m), Deliver(m));
    SyncCatchesUpIff(k, up, c, m);
  }

  /** The cluster after polls one after the other, for any way of polling. */
  function After(poll: (Cluster, nat) -> Cluster, c: Cluster, path: seq<nat>): Cluster {
    if path == [] then c else poll(After(poll, c, path[..|path| - 1]), path[|path| - 1])
  }

  /**
    A poll of m keeps what polling relies on, and changes what m publishes only: to what its
    upstream publishes, if that is a mirror.
   */
  ghost predicate GoodPoll(poll: (Cluster, nat) -> Cluster, pub: (Cluster, nat) -> nat, ok: Cluster -> bool,
                           up: Upstreams, e: Cluster, m: nat)
    requires m in up
  {
    ok(e) ==>
      && ok(poll(e, m)) && (forall n: nat :: n != m ==> pub(poll(e, m), n) == pub(e, n))
      && (up[m] in up ==> pub(poll(e, m), m) == pub(e, up[m]))
  }

  /** Polling down a path, every mirror ends with what the first one got. */
  lemma {:induction false} PollDown(poll: (Cluster, nat) -> Cluster, pub: (Cluster, nat) -> nat, ok: Cluster -> bool,
                                    up: Upstreams, c: Cluster, path: seq<nat>)
    requires path != [] && PollPath(up, path) && ok(c)
    requires forall e, i: nat :: i < |path| ==> Hop(up, path, i) && GoodPoll(poll, pub, ok, up, e, path[i])
    ensures ok(After(poll, c, path))
    ensures forall i :: 0 <= i < |path| ==> pub(After(poll, c, path), path[i]) == pub(poll(c, path[0]), path[0])
  {
    var n := |path| - 1;
    var front, last := path[..n], path[n];
    assert Hop(up, path, n);
    if n == 0 {
      assert After(poll, c, front) == c;
      assert GoodPoll(poll, pub, ok, up, c, path[0]);
    } else {
      assert Hop(up, path, n - 1);
      forall i: nat | i < n ensures Hop(up, front, i) { assert Hop(up, path, i); }
      forall e, i: nat | i < n ensures Hop(up, front, i) && GoodPoll(poll, pub, ok, up, e, front[i]) {
        assert Hop(up, path, i) && GoodPoll(poll, pub, ok, up, e, path[i]);
      }
      PollDown(poll, pub, ok, up, c, front);
      var e := After(poll, c, front);
      assert GoodPoll(poll, pub, ok, up, e, path[n]);
      forall i | 0 <= i < |path| ensures pub(poll(e, last), path[i]) == pub(poll(c, path[0]), path[0]) {
        if path[i] != last {
          assert path[i] == front[i];
        } else {
          assert pub(e, front[n - 1]) == pub(poll(c, path[0]), path[0]);
        }
      }
    }
  }

  /** Ready, and no reply on its way that was not on its way in c. */
  ghost function ReadySince(k: Codec, up: Upstreams, c: Cluster): Cluster -> bool {
    e => Ready(k, up, e) && forall n: nat :: n in e.replies ==> n in c.replies
  }

  ghost function PollStep(k: Codec, up: Upstreams): (Cluster, nat) -> Cluster {
    (e: Cluster, m: nat) => Polled(k, up, e, m)
  }

  ghost function Publishes(): (Cluster, nat) -> nat { (e: Cluster, n: nat) => PublishedOf(TableOf(e, n)) }

  lemma PollIsGood(k: Codec, up: Upstreams, c: Cluster, e: Cluster, m: nat)
    requires PRIMARY !in up && m in up && m !in c.replies
    ensures GoodPoll(PollStep(k, up), Publishes(), ReadySince(k, up, c), up, e, m)
  {
    if ReadySince(k, up, c)(e) {
      PollEffect(k, up, e, m);
      PollKeeps(k, up, e, m);
      if up[m] in up { PollOfMirror(k, up, e, m); }
    }
  }

  lemma {:induction false} PollsAfter(k: Codec, up: Upstreams, c: Cluster, path: seq<nat>)
    ensures RunCluster(k, up, c, Polls(path)) == After(PollStep(k, up), c, path)
  {
    if path != [] {
      PollsAfter(k, up, c, path[..|path| - 1]);
      PollsThen(k, up, c, Polls(path[..|path| - 1]), path[|path| - 1]);
    }
  }

  lemma PathPublishes(k: Codec, up: Upstreams, c: Cluster, path: seq<nat>)
    requires Ready(k, up, c) && path != [] && PollPath(up, path)
    requires forall i :: 0 <= i < |path| ==> path[i] !in c.replies
    ensures AllPublish(RunCluster(k, up, c, Polls(path)), path,
                       PublishedOf(TableOf(Polled(k, up, c, path[0]), path[0])))
  {
    var poll, pub, ok := PollStep(k, up), Publishes(), ReadySince(k, up, c);
    forall e, i: nat | i < |path| ensures Hop(up, path, i) && GoodPoll(poll, pub, ok, up, e, path[i]) {
      assert Hop(up, path, i);
      PollIsGood(k, up, c, e, path[i]);
    }
    PollDown(poll, pub, ok, up, c, path);
    PollsAfter(k, up, c, path);
    forall i | 0 <= i < |path|
      ensures PublishedOf(TableOf(After(poll, c, path), path[i])) == PublishedOf(TableOf(poll(c, path[0]), path[0]))
    {
      assert pub(After(poll, c, path), path[i]) == pub(poll(c, path[0]), path[0]);
    }
  }

  lemma AllPublishOne(d: Cluster, path: seq<nat>, r: nat)
    requires path != [] && AllPublish(d, path, r)
    ensures forall q: nat :: AllPublish(d, path, q) <==> q == r
  {
    assert PublishedOf(TableOf(d, path[0])) == r;
  }

  lemma FirstGets(k: Codec, up: Upstreams, c: Cluster, path: seq<nat>) returns (r: nat)
    requires Ready(k, up, c) && path != [] && PollPath(up, path)
    requires forall i :: 0 <= i < |path| ==> path[i] !in c.replies
    ensures AllPublish(RunCluster(k, up, c, Polls(path)), path, r)
    ensures r == PublishedOf(TableOf(c, PRIMARY)) <==>
            Acceptable(k, TableOf(c, PRIMARY)) || PublishedOf(TableOf(c, path[0])) == PublishedOf(TableOf(c, PRIMARY))
  {
    PathPublishes(k, up, c, path);
    assert Hop(up, path, 0);
    FirstPollIff(k, up, c, path[0]);
    r := PublishedOf(TableOf(Polled(k, up, c, path[0]), path[0]));
  }

  /**
    Polling down a path from the primary leaves every mirror on it level with the primary exactly
    when mirrors accept the row that the primary publishes, or the first mirror was level before.
   */
  lemma ChainCatchesUpIff(k: Codec, up: Upstreams, c: Cluster, path: seq<nat>)
    requires Ready(k, up, c) && path != [] && PollPath(up, path)
    requires forall i :: 0 <= i < |path| ==> path[i] !in c.replies
    ensures AllPublish(RunCluster(k, up, c, Polls(path)), path, PublishedOf(TableOf(c, PRIMARY))) <==>
            Acceptable(k, TableOf(c, PRIMARY)) || PublishedOf(TableOf(c, path[0])) == PublishedOf(TableOf(c, PRIMARY))
  {
    var r := FirstGets(k, up, c, path);
    AllPublishOne(RunCluster(k, up, c, Polls(path)), path, r);
  }
}
