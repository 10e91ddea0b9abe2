/** What create, publish, rollback and delete do to the table, row by row, and exactly when they succeed. */
module RevisionEffects {
  import opened Prelude
  import opened MergePatch
  import opened RevisionStore

  /** One more than every number in the table, and no larger than needed. */
  ghost predicate IsNextNumber(t: Table, n: nat) {
    n >= 1 && (forall q :: q in t ==> q < n) && (n == 1 || n - 1 in t)
  }

  /** Row r is published with this content; what was published is superseded; nothing else changes. */
  ghost predicate PublishesRow(before: Table, after: Table, r: nat, content: Content) {
    && after.Keys == before.Keys + {r} && after[r] == Row(Published, content)
    && forall q :: q in before && q != r ==>
         && after[q].content == before[q].content
         && after[q].status == if before[q].status == Published then Superseded else before[q].status
  }

  /** A draft that may be published: above every published revision. */
  ghost predicate Publishable(t: Table, r: nat) {
    r in t && t[r].status == Draft && forall q :: q in t && t[q].status == Published ==> q < r
  }

  ghost predicate AddsDraft(before: Table, after: Table, r: nat, content: Content) {
    after == before[r := Row(Draft, content)]
  }

  lemma NextIsNext(t: Table)
    ensures IsNextNumber(t, NextRevision(t))
    ensures forall n: nat :: IsNextNumber(t, n) ==> n == NextRevision(t)
  {
    var top := MaxOf(t.Keys);
    forall n: nat | IsNextNumber(t, n) ensures n == top + 1 {
      if n > 1 { assert n - 1 in t.Keys; }
      if t.Keys != {} { assert top in t; }
    }
  }

  lemma PublishTxPublishes(t: Table, r: nat)
    requires r in t && t[r].status == Draft
    ensures PublishTx(t, r).Some? && PublishesRow(t, PublishTx(t, r).value, r, t[r].content)
  {}

  /** A publish succeeds exactly for a draft above every published revision, and otherwise changes nothing. */
  lemma PublishExactly(c: Codec, t: Table, r: nat)
    ensures Publishable(t, r) ==> PublishesRow(t, Step(c, t, Publish(r)), r, t[r].content)
    ensures !Publishable(t, r) ==> Step(c, t, Publish(r)) == t
  {
    if Publishable(t, r) {
      assert !NewerPublished(t, r);
      PublishTxPublishes(t, r);
    } else if r in t && t[r].status == Draft {
      var q :| q in t && t[q].status == Published && q >= r;
      assert IsPublished(t, q);
    }
  }

  /** A create takes the next number, as a draft or published at once; a document that is refused changes nothing. */
  lemma CreateExactly(c: Codec, t: Table, raw: Json, publish: bool, at: string, n: nat)
    requires IsNextNumber(t, n)
    ensures var content, u := c.prepare(raw, n, at), Step(c, t, Create(raw, publish, at));
      && (content.None? ==> u == t)
      && (content.Some? && !publish ==> AddsDraft(t, u, n, content.value))
      && (content.Some? && publish ==> PublishesRow(t, u, n, content.value))
  {
    NextIsNext(t);
    var content := c.prepare(raw, n, at);
    if content.Some? && publish {
      var inserted := t[n := Row(Draft, content.value)];
      PublishTxPublishes(inserted, n);
    }
  }

  /** What a rollback may go back to: a revision that was published at some time. */
  predicate Restorable(t: Table, to: nat) { to > 0 && to in t && t[to].status != Draft }

  /** A rollback publishes the old document, prepared anew, under the next number; otherwise it changes nothing. */
  lemma RollbackExactly(c: Codec, t: Table, to: nat, at: string, n: nat)
    requires IsNextNumber(t, n)
    ensures var u := Step(c, t, Rollback(to, at));
      if Restorable(t, to) && c.prepare(t[to].content.document, n, at).Some?
      then PublishesRow(t, u, n, c.prepare(t[to].content.document, n, at).value)
      else u == t
  {
    if Restorable(t, to) { CreateExactly(c, t, t[to].content.document, true, at, n); }
  }

  lemma DeleteExactly(c: Codec, t: Table, r: nat)
    ensures Step(c, t, Delete(r)) == if r in t && t[r].status == Draft then t - {r} else t
  {}

  // ---------------------------------------------------------------------
  // The handlers
  // ---------------------------------------------------------------------

  /** The publish handler does so, and reports it. */
  method PublishHandler(s: RevisionTable, r: nat) returns (ok: bool)
    requires Orderly(s.rows)
    modifies s
    ensures ok <==> Publishable(old(s.rows), r)
    ensures ok ==> PublishesRow(old(s.rows), s.rows, r, old(s.rows)[r].content)
    ensures !ok ==> s.rows == old(s.rows)
  {
    ghost var c := Codec((x, y, z) => None, x => None, x => false);
    PublishExactly(c, s.rows, r);
    ok := s.PublishDraft(r);
  }

  method CreateHandler(s: RevisionTable, c: Codec, raw: Json, publish: bool, at: string, ghost n: nat)
    returns (r: Option<nat>)
    requires IsNextNumber(s.rows, n)
    modifies s
    ensures r == if c.prepare(raw, n, at).Some? then Some(n) else None
    ensures r.None? ==> s.rows == old(s.rows)
    ensures r.Some? && !publish ==> AddsDraft(old(s.rows), s.rows, n, c.prepare(raw, n, at).value)
    ensures r.Some? && publish ==> PublishesRow(old(s.rows), s.rows, n, c.prepare(raw, n, at).value)
  {
    NextIsNext(s.rows);
    CreateExactly(c, s.rows, raw, publish, at, n);
    r := s.CreateRevision(c, raw, publish, at);
  }

  method RollbackHandler(s: RevisionTable, c: Codec, to: nat, at: string, ghost n: nat) returns (r: Option<nat>)
    requires IsNextNumber(s.rows, n)
    modifies s
    ensures r.Some? <==> Restorable(old(s.rows), to) && c.prepare(old(s.rows)[to].content.document, n, at).Some?
    ensures r.Some? ==> PublishesRow(old(s.rows), s.rows, n, c.prepare(old(s.rows)[to].content.document, n, at).value)
    ensures r.None? ==> s.rows == old(s.rows)
  {
    RollbackExactly(c, s.rows, to, at, n);
    r := s.RollbackTo(c, to, at);
  }
}
