/**
  What checking each override alone guarantees about applying many in sequence.
 */
module OverrideTheorems {
  import opened Prelude
  import opened MergePatch
  import opened Schema
  import opened JsonCodec
  import opened ConfigDocument
  import opened PatchDocument
  import opened Validation

  // ---------------------------------------------------------------------
  // Where a scalar of a patched tree comes from
  // ---------------------------------------------------------------------

  /** A patched scalar is the old one, or the one the same patch gives any other tree, or gone. */
  lemma LeafOrigin(t: Json, other: Json, p: Json, k: string)
    requires !Field(Merge(other, p), k).Obj?
    ensures var x := Field(Merge(t, p), k); x == Field(t, k) || x == Field(Merge(other, p), k) || x == Null
  {
    if p.Obj? {
      MergeAt(t, p, k);
      MergeAt(other, p, k);
    }
  }

  lemma NestedLeafOrigin(t: Json, other: Json, p: Json, k: string, l: string)
    requires !Field(Field(Merge(other, p), k), l).Obj?
    ensures var x := Field(Field(Merge(t, p), k), l);
      x == Field(Field(t, k), l) || x == Field(Field(Merge(other, p), k), l) || x == Null
  {
    if p.Obj? {
      MergeAt(t, p, k);
      MergeAt(other, p, k);
      if k in p.fields && p.fields[k] != Null { LeafOrigin(Field(t, k), Field(other, k), p.fields[k], l); }
    }
  }

  predicate Scalar(j: Json) { !j.Obj? }

  predicate ScalarSchema(s: Schema) { s.TInt? || s.TBool? || s.TStr? }

  lemma LeafIsScalar(fs: map<string, Schema>, j: Json, k: string)
    requires Conforms(TStruct(fs), j) && k in fs && ScalarSchema(fs[k])
    ensures Scalar(Field(j, k))
  {}

  lemma NestedLeafIsScalar(fs: map<string, Schema>, gs: map<string, Schema>, j: Json, k: string, l: string)
    requires Conforms(TStruct(fs), j) && k in fs && fs[k] == TStruct(gs) && l in gs && ScalarSchema(gs[l])
    ensures Scalar(Field(Field(j, k), l))
  {
    assert Conforms(TStruct(gs), Field(j, k));
  }

  // ---------------------------------------------------------------------
  // Sections whose zero values are valid stay valid
  // ---------------------------------------------------------------------

  predicate UntilLeaf(p: Platform, j: Json) { ValidUntil(p, ReadPtr(ReadStr, j)) }

  lemma ControlByLeaves(p: Platform, j: Json)
    ensures ValidControl(p, ReadPtr(ReadControl, j)) <==>
      && UntilLeaf(p, Field(Field(j, "updater"), "until"))
      && UntilLeaf(p, Field(Field(j, "app"), "until"))
      && ValidMode(ReadStr(Field(Field(j, "app"), "mode")))
  {}

  lemma ControlLeavesScalar(j: Json)
    requires Conforms(CONTROL, j)
    ensures Scalar(Field(Field(j, "updater"), "until"))
    ensures Scalar(Field(Field(j, "app"), "until"))
    ensures Scalar(Field(Field(j, "app"), "mode"))
  {
    NestedLeafIsScalar(CONTROL.fields, GATE.fields, j, "updater", "until");
    NestedLeafIsScalar(CONTROL.fields, APPGATE.fields, j, "app", "until");
    NestedLeafIsScalar(CONTROL.fields, APPGATE.fields, j, "app", "mode");
  }

  lemma ControlStaysValid(p: Platform, t: Json, other: Json, v: Json)
    requires Conforms(CONTROL, Merge(other, v))
    requires ValidControl(p, ReadPtr(ReadControl, t)) && ValidControl(p, ReadPtr(ReadControl, Merge(other, v)))
    ensures ValidControl(p, ReadPtr(ReadControl, Merge(t, v)))
  {
    ControlLeavesScalar(Merge(other, v));
    ControlByLeaves(p, t);
    ControlByLeaves(p, Merge(other, v));
    ControlByLeaves(p, Merge(t, v));
    NestedLeafOrigin(t, other, v, "updater", "until");
    NestedLeafOrigin(t, other, v, "app", "until");
    NestedLeafOrigin(t, other, v, "app", "mode");
  }

  predicate LevelLeaf(j: Json) { ReadStr(j) in {"", "debug", "info", "warn", "error"} }
  predicate SizeLeaf(j: Json) { ReadInt(j) == 0 || 1 <= ReadInt(j) <= 100 }
  predicate BackupsLeaf(j: Json) { 0 <= ReadInt(j) <= 50 }

  lemma LoggingByLeaves(j: Json)
    ensures ValidLogging(ReadPtr(ReadLogging, j)) <==>
      LevelLeaf(Field(j, "level")) && SizeLeaf(Field(j, "maxSizeMB")) && BackupsLeaf(Field(j, "backups"))
  {}

  lemma LoggingLeavesScalar(j: Json)
    requires Conforms(LOGGING, j)
    ensures Scalar(Field(j, "level")) && Scalar(Field(j, "maxSizeMB")) && Scalar(Field(j, "backups"))
  {
    LeafIsScalar(LOGGING.fields, j, "level");
    LeafIsScalar(LOGGING.fields, j, "maxSizeMB");
    LeafIsScalar(LOGGING.fields, j, "backups");
  }

  lemma LoggingStaysValid(t: Json, other: Json, v: Json)
    requires Conforms(LOGGING, Merge(other, v))
    requires ValidLogging(ReadPtr(ReadLogging, t)) && ValidLogging(ReadPtr(ReadLogging, Merge(other, v)))
    ensures ValidLogging(ReadPtr(ReadLogging, Merge(t, v)))
  {
    LoggingLeavesScalar(Merge(other, v));
    LoggingByLeaves(t);
    LoggingByLeaves(Merge(other, v));
    LoggingByLeaves(Merge(t, v));
    LeafOrigin(t, other, v, "level");
    LeafOrigin(t, other, v, "maxSizeMB");
    LeafOrigin(t, other, v, "backups");
  }

  predicate PollLeaf(j: Json) { j.Null? || ReadInt(j) >= 1 }
  predicate ChannelLeaf(j: Json) { ReadStr(j) in {"", "stable", "beta"} }
  predicate NonNegative(j: Json) { ReadInt(j) >= 0 }

  /** Every check on the updater section but the one on resolver.attempts. */
  predicate UpdaterBesidesAttempts(j: Json) {
    && PollLeaf(Field(j, "pollIntervalMinutes"))
    && ChannelLeaf(Field(j, "channelOverride"))
    && NonNegative(Field(Field(j, "criticalWarning"), "seconds"))
    && NonNegative(Field(Field(j, "dcLookupRetry"), "attempts"))
    && NonNegative(Field(Field(j, "dcLookupRetry"), "delaySeconds"))
    && NonNegative(Field(Field(j, "resolver"), "baseBackoffSeconds"))
  }

  predicate AttemptsLeaf(j: Json) {
    Field(j, "resolver").Null? || ReadInt(Field(Field(j, "resolver"), "attempts")) >= 1
  }

  lemma UpdaterByLeaves(j: Json)
    ensures ValidUpdater(ReadPtr(ReadUpdater, j)) <==> UpdaterBesidesAttempts(j) && AttemptsLeaf(j)
  {}

  lemma UpdaterLeavesScalar(j: Json)
    requires Conforms(UPDATER, j)
    ensures Scalar(Field(j, "pollIntervalMinutes")) && Scalar(Field(j, "channelOverride"))
    ensures Scalar(Field(Field(j, "criticalWarning"), "seconds"))
    ensures Scalar(Field(Field(j, "dcLookupRetry"), "attempts"))
      && Scalar(Field(Field(j, "dcLookupRetry"), "delaySeconds"))
  {
    LeafIsScalar(UPDATER.fields, j, "pollIntervalMinutes");
    LeafIsScalar(UPDATER.fields, j, "channelOverride");
    NestedLeafIsScalar(UPDATER.fields, WARNING.fields, j, "criticalWarning", "seconds");
    NestedLeafIsScalar(UPDATER.fields, RETRY.fields, j, "dcLookupRetry", "attempts");
    NestedLeafIsScalar(UPDATER.fields, RETRY.fields, j, "dcLookupRetry", "delaySeconds");
  }

  lemma ResolverLeavesScalar(j: Json)
    requires Conforms(UPDATER, j)
    ensures Scalar(Field(Field(j, "resolver"), "baseBackoffSeconds")) && Scalar(Field(Field(j, "resolver"), "attempts"))
    ensures Field(j, "resolver").Null? || Field(j, "resolver").Obj?
  {
    NestedLeafIsScalar(UPDATER.fields, RESOLVER.fields, j, "resolver", "baseBackoffSeconds");
    NestedLeafIsScalar(UPDATER.fields, RESOLVER.fields, j, "resolver", "attempts");
  }

  lemma UpdaterBesidesAttemptsStays(t: Json, other: Json, v: Json)
    requires Conforms(UPDATER, Merge(other, v))
    requires UpdaterBesidesAttempts(t) && UpdaterBesidesAttempts(Merge(other, v))
    ensures UpdaterBesidesAttempts(Merge(t, v))
  {
    UpdaterLeavesScalar(Merge(other, v));
    ResolverLeavesScalar(Merge(other, v));
    LeafOrigin(t, other, v, "pollIntervalMinutes");
    LeafOrigin(t, other, v, "channelOverride");
    NestedLeafOrigin(t, other, v, "criticalWarning", "seconds");
    NestedLeafOrigin(t, other, v, "dcLookupRetry", "attempts");
    NestedLeafOrigin(t, other, v, "dcLookupRetry", "delaySeconds");
    NestedLeafOrigin(t, other, v, "resolver", "baseBackoffSeconds");
  }

  // ---------------------------------------------------------------------
  // From trees back to documents
  // ---------------------------------------------------------------------

  function ResolverOf(u: Option<UpdaterTuning>): Option<ResolverTuning> {
    if u.None? then None else u.value.resolver
  }

  predicate AttemptsValid(u: Option<UpdaterTuning>) {
    ResolverOf(u).Some? ==> ResolverOf(u).value.attempts >= 1
  }

  /** Every check on the three patchable sections but the one on resolver.attempts. */
  predicate ValidBesidesAttempts(p: Platform, d: Document) {
    && ValidControl(p, d.control)
    && ValidLogging(d.logging)
    && UpdaterBesidesAttempts(WritePtr(WriteUpdater, d.updater))
  }

  lemma PatchableByParts(p: Platform, d: Document)
    ensures ValidPatchable(p, d) <==> ValidBesidesAttempts(p, d) && AttemptsValid(d.updater)
  {
    ControlBack(d.control);
    UpdaterBack(d.updater);
    LoggingBack(d.logging);
    UpdaterByLeaves(WritePtr(WriteUpdater, d.updater));
    AttemptsByLeaf(WritePtr(WriteUpdater, d.updater));
  }

  lemma AttemptsByLeaf(j: Json)
    ensures AttemptsValid(ReadPtr(ReadUpdater, j)) <==> AttemptsLeaf(j)
  {}

  /** Reading drops unknown keys and fills in zeros; no check tells the difference. */
  lemma NormalizingKeepsLeaves(j: Json)
    requires Conforms(UPDATER, j)
    ensures UpdaterBesidesAttempts(WritePtr(WriteUpdater, ReadPtr(ReadUpdater, j))) <==> UpdaterBesidesAttempts(j)
  {
    var u := ReadPtr(ReadUpdater, j);
    if u.Some? {
      UpdaterRoundTrip(u.value);
      assert WriteUpdater(u.value) != Null;
      SameTuningSameLeaves(j, WriteUpdater(u.value));
    }
  }

  lemma SameTuningSameLeaves(j: Json, k: Json)
    requires j != Null && k != Null && ReadUpdater(j) == ReadUpdater(k)
    ensures UpdaterBesidesAttempts(j) <==> UpdaterBesidesAttempts(k)
  {}

  // ---------------------------------------------------------------------
  // One override on top of others
  // ---------------------------------------------------------------------

  lemma ControlAfterPatch(p: Platform, d: Document, e: Document, patch: PatchDoc)
    requires ValidControl(p, e.control)
    requires var m := MergeUnder(patch, "control", WritePtr(WriteControl, d.control));
      Conforms(CONTROL, m) && ValidControl(p, ReadPtr(ReadControl, m))
    ensures ValidControl(p, ReadPtr(ReadControl, MergeUnder(patch, "control", WritePtr(WriteControl, e.control))))
  {
    ControlBack(e.control);
    UpdaterBack(e.updater);
    LoggingBack(e.logging);
    if "control" in patch {
      ControlStaysValid(p, WritePtr(WriteControl, e.control), WritePtr(WriteControl, d.control), patch["control"]);
    }
  }

  lemma LoggingAfterPatch(d: Document, e: Document, patch: PatchDoc)
    requires ValidLogging(e.logging)
    requires var m := MergeUnder(patch, "logging", WritePtr(WriteLogging, d.logging));
      Conforms(LOGGING, m) && ValidLogging(ReadPtr(ReadLogging, m))
    ensures ValidLogging(ReadPtr(ReadLogging, MergeUnder(patch, "logging", WritePtr(WriteLogging, e.logging))))
  {
    ControlBack(e.control);
    UpdaterBack(e.updater);
    LoggingBack(e.logging);
    if "logging" in patch {
      LoggingStaysValid(WritePtr(WriteLogging, e.logging), WritePtr(WriteLogging, d.logging), patch["logging"]);
    }
  }

  lemma UpdaterAfterPatch(d: Document, e: Document, patch: PatchDoc)
    requires UpdaterBesidesAttempts(WritePtr(WriteUpdater, e.updater))
    requires var m := MergeUnder(patch, "updater", WritePtr(WriteUpdater, d.updater));
      Conforms(UPDATER, m) && UpdaterBesidesAttempts(m)
    ensures UpdaterBesidesAttempts(MergeUnder(patch, "updater", WritePtr(WriteUpdater, e.updater)))
  {
    if "updater" in patch {
      UpdaterBesidesAttemptsStays(WritePtr(WriteUpdater, e.updater), WritePtr(WriteUpdater, d.updater),
                                  patch["updater"]);
    }
  }

  /**
    A patch that passed alone on d applies to any document e, and keeps every check
    but the one on resolver.attempts.
   */
  lemma PatchKeepsOtherChecks(p: Platform, d: Document, e: Document, patch: PatchDoc)
    requires DryRunPasses(p, d, patch) && ValidBesidesAttempts(p, e)
    ensures ApplyPatch(e, patch).Some? && ValidBesidesAttempts(p, ApplyPatch(e, patch).value)
  {
    PatchOutcomeIgnoresDocument(e, d, patch);
    ControlAfterPatch(p, d, e, patch);
    LoggingAfterPatch(d, e, patch);
    var md := MergeUnder(patch, "updater", WritePtr(WriteUpdater, d.updater));
    var me := MergeUnder(patch, "updater", WritePtr(WriteUpdater, e.updater));
    UpdaterByLeaves(md);
    UpdaterAfterPatch(d, e, patch);
    NormalizingKeepsLeaves(me);
  }

  // ---------------------------------------------------------------------
  // resolver.attempts, the one checked field whose zero value is invalid
  // ---------------------------------------------------------------------

  /** What a patch does to the resolver tuning. */
  datatype Touch = Keeps | Clears | SetsAttempts | Opens

  /** Opens: the patch has a resolver object that does not say how many attempts. */
  function ResolverTouch(patch: PatchDoc): Touch {
    if "updater" !in patch then Keeps
    else
      var u := patch["updater"];
      if !u.Obj? then Clears
      else if "resolver" !in u.fields then Keeps
      else if !u.fields["resolver"].Obj? then Clears
      else if "attempts" in u.fields["resolver"].fields then SetsAttempts else Opens
  }

  function AttemptsIn(patch: PatchDoc): int {
    if "updater" in patch then ReadInt(Field(Field(patch["updater"], "resolver"), "attempts")) else 0
  }

  lemma ResolverInTree(u: Option<UpdaterTuning>)
    ensures Field(WritePtr(WriteUpdater, u), "resolver") == WritePtr(WriteResolver, ResolverOf(u))
  {}

  lemma AttemptsInTree(r: Option<ResolverTuning>)
    ensures ReadInt(Field(WritePtr(WriteResolver, r), "attempts")) == if r.Some? then r.value.attempts else 0
  {}

  /** The resolver subtree after merging a patch of the updater section. */
  lemma ResolverInMerge(w: Json, patch: PatchDoc)
    requires var m := MergeUnder(patch, "updater", w);
      && (m.Null? || m.Obj?) && (Field(m, "resolver").Null? || Field(m, "resolver").Obj?)
      && Scalar(Field(Field(m, "resolver"), "attempts"))
    ensures var before, after := Field(w, "resolver"), Field(MergeUnder(patch, "updater", w), "resolver");
      match ResolverTouch(patch)
      case Keeps => after == before
      case Clears => after == Null
      case SetsAttempts => after != Null && ReadInt(Field(after, "attempts")) == AttemptsIn(patch)
      case Opens => after != Null && Field(after, "attempts") == Field(before, "attempts")
  {
    if "updater" in patch {
      var u := patch["updater"];
      if u.Obj? {
        MergeAt(w, u, "resolver");
        if "resolver" in u.fields && u.fields["resolver"].Obj? {
          MergeAt(Field(w, "resolver"), u.fields["resolver"], "attempts");
        }
      }
    }
  }

  /** How a patch of each kind moves the resolver tuning. */
  predicate Moves(touch: Touch, attempts: int, before: Option<ResolverTuning>, after: Option<ResolverTuning>) {
    match touch
    case Keeps => after == before
    case Clears => after == None
    case SetsAttempts => after.Some? && after.value.attempts == attempts
    case Opens => after.Some? && after.value.attempts == if before.Some? then before.value.attempts else 0
  }

  /** The resolver tuning after a patch, by what the patch does to it. */
  lemma ResolverAfterPatch(e: Document, patch: PatchDoc)
    requires ApplyPatch(e, patch).Some?
    ensures Moves(ResolverTouch(patch), AttemptsIn(patch), ResolverOf(e.updater),
                  ResolverOf(ApplyPatch(e, patch).value.updater))
  {
    var w := WritePtr(WriteUpdater, e.updater);
    var m := MergeUnder(patch, "updater", w);
    ResolverLeavesScalar(m);
    ResolverInMerge(w, patch);
    ResolverFromTrees(e.updater, m);
  }

  /** Reading the resolver of a merged tree against the one that was written. */
  lemma ResolverFromTrees(u: Option<UpdaterTuning>, m: Json)
    requires m.Null? || m.Obj?
    ensures var before, after := Field(WritePtr(WriteUpdater, u), "resolver"), Field(m, "resolver");
      var x := ResolverOf(ReadPtr(ReadUpdater, m));
      && (after == Null <==> x == None)
      && (after == before ==> x == ResolverOf(u))
      && (after != Null ==> x.value.attempts == ReadInt(Field(after, "attempts")))
      && ReadInt(Field(before, "attempts")) == if ResolverOf(u).Some? then ResolverOf(u).value.attempts else 0
  {
    ResolverInTree(u);
    AttemptsInTree(ResolverOf(u));
    if u.Some? { ResolverRoundTrip(u.value.resolver); }
  }
}
