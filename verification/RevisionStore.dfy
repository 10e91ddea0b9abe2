/**
  The table of config revisions on the primary: create, publish, rollback and delete,
  each transaction one atomic step. What the handlers take from the document engine
  (validate, stamp, serialise, hash) is a Codec.
 */
module RevisionStore {
  import opened Prelude
  import opened MergePatch

  datatype Status = Draft | Published | Superseded

  /** The stored bytes with their etag. */
  datatype Content = Content(document: Json, etag: string)

  datatype Row = Row(status: Status, content: Content)

  /** What a mirror takes from a reply: the revision it carries, its bytes and their etag. */
  datatype Received = Received(revision: nat, content: Content)

  type Table = map<nat, Row>

  /**
    prepare: validate a submitted document, assign revision and time, serialise and hash;
    none when validation fails. read: what a mirror stores of a reply, none when it rejects
    the reply. clock: the texts the server's clock produces.
   */
  datatype Codec = Codec(
    prepare: (Json, nat, string) -> Option<Content>,
    read: Content -> Option<Received>,
    clock: string -> bool)

  datatype Op =
    | Create(raw: Json, publish: bool, at: string)
    | Publish(revision: nat)
    | Rollback(to: nat, at: string)
    | Delete(revision: nat)

  predicate IsPublished(t: Table, r: nat) { r in t && t[r].status == Published }

  /** Published now or at some time before: a draft never comes back. */
  predicate EverPublished(t: Table, r: nat) { r in t && t[r].status != Draft }

  ghost function NextRevision(t: Table): nat { MaxOf(t.Keys) + 1 }

  function Supersede(t: Table): Table {
    map r | r in t :: if t[r].status == Published then t[r].(status := Superseded) else t[r]
  }

  /** The two updates of the publishing transaction; the second one must hit a draft. */
  function PublishTx(t: Table, r: nat): Option<Table> {
    var s := Supersede(t);
    if r in s && s[r].status == Draft then Some(s[r := s[r].(status := Published)]) else None
  }

  function Commit(before: Table, after: Option<Table>): Table { if after.None? then before else after.value }

  // ---------------------------------------------------------------------
  // The steps
  // ---------------------------------------------------------------------

  ghost function CreateStep(c: Codec, t: Table, raw: Json, publish: bool, at: string): Table {
    var r := NextRevision(t);
    var content := c.prepare(raw, r, at);
    if content.None? then t
    else
      var inserted := t[r := Row(Draft, content.value)];
      if publish then Commit(t, PublishTx(inserted, r)) else inserted
  }

  ghost predicate NewerPublished(t: Table, r: nat) { exists q :: IsPublished(t, q) && r <= q }

  ghost function PublishStep(t: Table, r: nat): Table {
    if r !in t || t[r].status != Draft || NewerPublished(t, r) then t else Commit(t, PublishTx(t, r))
  }

  ghost function RollbackStep(c: Codec, t: Table, to: nat, at: string): Table {
    if to == 0 || !EverPublished(t, to) then t
    else CreateStep(c, t, t[to].content.document, true, at)
  }

  function DeleteStep(t: Table, r: nat): Table {
    if r in t && t[r].status == Draft then t - {r} else t
  }

  ghost function Step(c: Codec, t: Table, op: Op): Table {
    match op
    case Create(raw, publish, at) => CreateStep(c, t, raw, publish, at)
    case Publish(r) => PublishStep(t, r)
    case Rollback(to, at) => RollbackStep(c, t, to, at)
    case Delete(r) => DeleteStep(t, r)
  }

  ghost function Run(c: Codec, t: Table, ops: seq<Op>): Table {
    if ops == [] then t else Step(c, Run(c, t, ops[..|ops| - 1]), ops[|ops| - 1])
  }

  // ---------------------------------------------------------------------
  // The handlers over the table, step by step
  // ---------------------------------------------------------------------

  ghost predicate OnePublished(t: Table) {
    forall q, r :: IsPublished(t, q) && IsPublished(t, r) ==> q == r
  }

  class RevisionTable {
    var rows: Table

    constructor ()
      ensures rows == map[]
    {
      rows := map[];
    }

    /** SELECT MAX(revision), plus one. */
    method AllocateRevision() returns (r: nat)
      ensures r == NextRevision(rows)
    {
      var max, todo := 0, rows.Keys;
      while todo != {}
        invariant todo <= rows.Keys
        invariant forall k :: k in rows && k !in todo ==> k <= max
        invariant max == 0 || max in rows
        decreases todo
      {
        var k :| k in todo;
        todo := todo - {k};
        if k > max { max := k; }
      }
      r := max + 1;
    }

    method PublishRevision(r: nat) returns (ok: bool)
      modifies this
      ensures ok <==> PublishTx(old(rows), r).Some?
      ensures rows == Commit(old(rows), PublishTx(old(rows), r))
    {
      var before := rows;
      rows := Supersede(rows);
      if r !in rows || rows[r].status != Draft {
        rows := before;
        return false;
      }
      rows := rows[r := rows[r].(status := Published)];
      ok := true;
    }

    method CreateRevision(c: Codec, raw: Json, publish: bool, at: string) returns (r: Option<nat>)
      modifies this
      ensures rows == CreateStep(c, old(rows), raw, publish, at)
      ensures r == if c.prepare(raw, NextRevision(old(rows)), at).Some? then Some(NextRevision(old(rows))) else None
    {
      var revision := AllocateRevision();
      var content := c.prepare(raw, revision, at);
      if content.None? {
        return None;
      }
      rows := rows[revision := Row(Draft, content.value)];
      if publish {
        var ok := PublishRevision(revision);
        assert ok;
      }
      r := Some(revision);
    }

    method PublishDraft(r: nat) returns (ok: bool)
      requires OnePublished(rows)
      modifies this
      ensures rows == PublishStep(old(rows), r)
      ensures ok <==> rows != old(rows)
    {
      if r !in rows || rows[r].status != Draft {
        return false;
      }
      var current := CurrentPublished();
      if current.Some? && r <= current.value {
        return false;
      }
      ok := PublishRevision(r);
      assert rows[r].status == Published;
    }

    /** SELECT ... WHERE status = 'published' LIMIT 1. */
    method CurrentPublished() returns (q: Option<nat>)
      ensures q.Some? ==> IsPublished(rows, q.value)
      ensures q.None? ==> forall r :: !IsPublished(rows, r)
    {
      var todo := rows.Keys;
      while todo != {}
        invariant todo <= rows.Keys
        invariant forall r :: r in rows && r !in todo ==> rows[r].status != Published
        decreases todo
      {
        var k :| k in todo;
        todo := todo - {k};
        if rows[k].status == Published {
          return Some(k);
        }
      }
      q := None;
    }

    method RollbackTo(c: Codec, to: nat, at: string) returns (r: Option<nat>)
      modifies this
      ensures rows == RollbackStep(c, old(rows), to, at)
      ensures r.Some? <==> rows != old(rows)
      ensures r.Some? ==> IsPublished(rows, r.value) && forall q :: q in old(rows) ==> q < r.value
    {
      if to == 0 || to !in rows || rows[to].status == Draft {
        return None;
      }
      r := CreateRevision(c, rows[to].content.document, true, at);
      assert r.Some? ==> r.value !in old(rows) && r.value in rows;
    }

    method DeleteDraft(r: nat) returns (ok: bool)
      modifies this
      ensures rows == DeleteStep(old(rows), r)
      ensures ok <==> r in old(rows) && old(rows)[r].status == Draft
    {
      ok := r in rows && rows[r].status == Draft;
      if ok { rows := rows - {r}; }
    }
  }

  // ---------------------------------------------------------------------
  // What every run keeps
  // ---------------------------------------------------------------------

  /** At most one row is published, and every row that ever was is at or below it. */
  ghost predicate Orderly(t: Table) {
    && OnePublished(t)
    && forall r :: EverPublished(t, r) ==> exists q :: IsPublished(t, q) && r <= q
  }

  /** No row that was ever published is lost, changed, or put back to draft. */
  ghost predicate Keeps(before: Table, after: Table) {
    forall r :: EverPublished(before, r) ==> EverPublished(after, r) && after[r].content == before[r].content
  }

  /** A row published now and not before is above every row ever published before. */
  ghost predicate OnlyForward(before: Table, after: Table) {
    forall r, q :: IsPublished(after, r) && !IsPublished(before, r) && EverPublished(before, q) ==> q < r
  }

  lemma PublishTxOrderly(t: Table, r: nat)
    requires Orderly(t)
    requires forall q: nat :: EverPublished(t, q) ==> q < r
    requires PublishTx(t, r).Some?
    ensures var u := PublishTx(t, r).value; Orderly(u) && Keeps(t, u) && OnlyForward(t, u) && IsPublished(u, r)
  {
    var u := PublishTx(t, r).value;
    assert IsPublished(u, r);
    forall q ensures IsPublished(u, q) ==> q == r {}
    forall q: nat | EverPublished(u, q) ensures q <= r {
      assert q == r || EverPublished(t, q);
    }
  }

  lemma InsertDraftOrderly(t: Table, r: nat, content: Content)
    requires Orderly(t) && r !in t
    ensures var u := t[r := Row(Draft, content)]; Orderly(u) && Keeps(t, u) && OnlyForward(t, u)
  {
    var u := t[r := Row(Draft, content)];
    forall q ensures IsPublished(u, q) <==> IsPublished(t, q) {}
    forall q ensures EverPublished(u, q) <==> EverPublished(t, q) {}
  }

  lemma CreateStepOrderly(c: Codec, t: Table, raw: Json, publish: bool, at: string)
    requires Orderly(t)
    ensures var u := CreateStep(c, t, raw, publish, at); Orderly(u) && Keeps(t, u) && OnlyForward(t, u)
  {
    var r := NextRevision(t);
    var content := c.prepare(raw, r, at);
    if content.Some? {
      InsertDraftOrderly(t, r, content.value);
      if publish {
        var inserted := t[r := Row(Draft, content.value)];
        PublishTxOrderly(inserted, r);
      }
    }
  }

  lemma PublishStepOrderly(t: Table, r: nat)
    requires Orderly(t)
    ensures var u := PublishStep(t, r); Orderly(u) && Keeps(t, u) && OnlyForward(t, u)
  {
    if r in t && t[r].status == Draft && !NewerPublished(t, r) {
      forall q: nat | EverPublished(t, q) ensures q < r {
        var top :| IsPublished(t, top) && q <= top;
      }
      PublishTxOrderly(t, r);
    }
  }

  lemma DeleteStepOrderly(t: Table, r: nat)
    requires Orderly(t)
    ensures var u := DeleteStep(t, r); Orderly(u) && Keeps(t, u) && OnlyForward(t, u)
  {
    var u := DeleteStep(t, r);
    forall q ensures IsPublished(u, q) <==> IsPublished(t, q) {}
    forall q ensures EverPublished(u, q) <==> EverPublished(t, q) {}
  }

  lemma StepOrderly(c: Codec, t: Table, op: Op)
    requires Orderly(t)
    ensures var u := Step(c, t, op); Orderly(u) && Keeps(t, u) && OnlyForward(t, u)
  {
    match op
    case Create(raw, publish, at) => CreateStepOrderly(c, t, raw, publish, at);
    case Publish(r) => PublishStepOrderly(t, r);
    case Rollback(to, at) =>
      if to != 0 && EverPublished(t, to) { CreateStepOrderly(c, t, t[to].content.document, true, at); }
    case Delete(r) => DeleteStepOrderly(t, r);
  }

  /**
    From an orderly table, every run of operations keeps at most one row published and
    every other once-published row below it, loses or changes no such row, and publishes
    only revisions above all that were ever published.
   */
  lemma {:induction false} RunOrderly(c: Codec, t: Table, ops: seq<Op>)
    requires Orderly(t)
    ensures var u := Run(c, t, ops); Orderly(u) && Keeps(t, u) && OnlyForward(t, u)
  {
    if ops != [] {
      var front := ops[..|ops| - 1];
      RunOrderly(c, t, front);
      StepOrderly(c, Run(c, t, front), ops[|ops| - 1]);
      var m, u := Run(c, t, front), Run(c, t, ops);
      forall r, q | IsPublished(u, r) && !IsPublished(t, r) && EverPublished(t, q) ensures q < r {
        assert EverPublished(m, q);
        if IsPublished(m, r) {}
      }
    }
  }

  // ---------------------------------------------------------------------
  // Every stored row was prepared under its own number
  // ---------------------------------------------------------------------

  ghost predicate PreparedAs(c: Codec, r: nat, content: Content) {
    exists raw, at :: c.clock(at) && c.prepare(raw, r, at) == Some(content)
  }

  ghost predicate AllPrepared(c: Codec, t: Table) { forall r :: r in t ==> r > 0 && PreparedAs(c, r, t[r].content) }

  /** The clock texts of an operation are ones the server's clock can produce. */
  predicate ClockOk(c: Codec, op: Op) {
    match op
    case Create(_, _, at) => c.clock(at)
    case Rollback(_, at) => c.clock(at)
    case _ => true
  }

  lemma CreatePrepared(c: Codec, t: Table, raw: Json, publish: bool, at: string)
    requires AllPrepared(c, t) && c.clock(at)
    ensures AllPrepared(c, CreateStep(c, t, raw, publish, at))
  {
    var r := NextRevision(t);
    var content := c.prepare(raw, r, at);
    if content.Some? { assert PreparedAs(c, r, content.value); }
  }

  lemma StepPrepared(c: Codec, t: Table, op: Op)
    requires AllPrepared(c, t) && ClockOk(c, op)
    ensures AllPrepared(c, Step(c, t, op))
  {
    match op
    case Create(raw, publish, at) => CreatePrepared(c, t, raw, publish, at);
    case Publish(r) =>
    case Rollback(to, at) =>
      if to != 0 && EverPublished(t, to) { CreatePrepared(c, t, t[to].content.document, true, at); }
    case Delete(r) =>
  }

  /** Deleting a draft frees its number exactly when it is the largest in the table. */
  lemma DeleteFreesNumberIff(t: Table, r: nat)
    requires 0 < r && r in t && t[r].status == Draft
    ensures NextRevision(DeleteStep(t, r)) <= r <==> r == MaxOf(t.Keys)
  {
    var u := DeleteStep(t, r);
    assert u.Keys == t.Keys - {r};
    if r != MaxOf(t.Keys) {
      assert MaxOf(t.Keys) in u.Keys;
    } else if u.Keys != {} {
      assert MaxOf(u.Keys) in t.Keys;
    }
  }
}
