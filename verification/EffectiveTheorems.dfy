/**
  Parse checks every override alone, Effective applies many in sequence. Here is
  exactly when the second is covered by the first.
 */
module EffectiveTheorems {
  import opened Prelude
  import opened MergePatch
  import opened Schema
  import opened JsonCodec
  import opened ConfigDocument
  import opened PatchDocument
  import opened Validation
  import opened Effective
  import opened OverrideTheorems

  function Touches(ps: seq<PatchDoc>): seq<Touch> {
    seq(|ps|, i requires 0 <= i < |ps| => ResolverTouch(ps[i]))
  }

  /**
    Some patch clears the resolver tuning, a later one opens it again without saying
    how many attempts, and none after the clearing clears it or sets the attempts.
   */
  ghost predicate ResolverGap(ts: seq<Touch>) {
    exists i, j :: 0 <= i < j < |ts| && ts[i] == Clears && ts[j] == Opens
      && forall m :: i < m < |ts| ==> ts[m] == Keeps || ts[m] == Opens
  }

  /** The state of the resolver tuning after a sequence of patches. */
  datatype Trail = Intact | Cleared | Broken

  function NextTrail(before: Trail, t: Touch): Trail {
    match t
    case Keeps => before
    case Clears => Cleared
    case SetsAttempts => Intact
    case Opens => if before == Cleared then Broken else before
  }

  function TrailOf(ts: seq<Touch>): Trail {
    if ts == [] then Intact else NextTrail(TrailOf(ts[..|ts| - 1]), ts[|ts| - 1])
  }

  ghost predicate ClearedAt(ts: seq<Touch>, i: int) {
    0 <= i < |ts| && ts[i] == Clears && forall m :: i < m < |ts| ==> ts[m] == Keeps
  }

  ghost predicate BrokenAt(ts: seq<Touch>, i: int, j: int) {
    && 0 <= i < j < |ts| && ts[i] == Clears && ts[j] == Opens
    && forall m :: i < m < |ts| ==> ts[m] == Keeps || ts[m] == Opens
  }

  lemma {:induction false} TrailIsGap(ts: seq<Touch>)
    ensures TrailOf(ts) == Cleared <==> exists i :: ClearedAt(ts, i)
    ensures TrailOf(ts) == Broken <==> exists i, j :: BrokenAt(ts, i, j)
  {
    if ts != [] {
      var n := |ts| - 1;
      var front, last := ts[..n], ts[n];
      TrailIsGap(front);
      match last
      case Keeps =>
        forall i ensures ClearedAt(ts, i) <==> ClearedAt(front, i) {}
        forall i, j ensures BrokenAt(ts, i, j) <==> BrokenAt(front, i, j) {}
      case Clears =>
        assert ClearedAt(ts, n);
      case SetsAttempts =>
      case Opens =>
        forall i, j
          ensures BrokenAt(ts, i, j) ==>
            BrokenAt(front, i, j) || (j == n && (ClearedAt(front, i) || exists k :: BrokenAt(front, i, k)))
        {
          if BrokenAt(ts, i, j) && j == n && !ClearedAt(front, i) {
            var k :| i < k < n && ts[k] != Keeps;
            assert BrokenAt(front, i, k);
          }
        }
        forall i, j ensures BrokenAt(front, i, j) ==> BrokenAt(ts, i, j) {}
        forall i ensures ClearedAt(front, i) ==> BrokenAt(ts, i, n) {}
    }
  }

  // ---------------------------------------------------------------------
  // Sequences of patches that each passed alone
  // ---------------------------------------------------------------------

  /** Each patch of the sequence passed its dry run on d. */
  ghost predicate AllPassAlone(p: Platform, d: Document, ps: seq<PatchDoc>) {
    forall i :: 0 <= i < |ps| ==> DryRunPasses(p, d, ps[i])
  }

  predicate Follows(start: Option<ResolverTuning>, now: Option<ResolverTuning>, trail: Trail) {
    match trail
    case Intact => (now.Some? ==> now.value.attempts >= 1) && (now.None? ==> start.None?)
    case Cleared => now.None?
    case Broken => now.Some? && now.value.attempts < 1
  }

  /** What passing alone on d says about the patch's effect on the resolver tuning. */
  lemma PassingAloneConstrains(p: Platform, d: Document, patch: PatchDoc)
    requires DryRunPasses(p, d, patch)
    ensures ResolverTouch(patch) == SetsAttempts ==> AttemptsIn(patch) >= 1
    ensures ResolverTouch(patch) == Opens ==> ResolverOf(d.updater).Some?
  {
    var x := ApplyPatch(d, patch).value;
    ResolverAfterPatch(d, patch);
    PatchableByParts(p, x);
  }

  /** A move of the resolver tuning that passing alone allows is a step of the trail. */
  lemma MoveIsTrailStep(start: Option<ResolverTuning>, before: Option<ResolverTuning>, after: Option<ResolverTuning>,
                        trail: Trail, touch: Touch, attempts: int)
    requires Follows(start, before, trail) && Moves(touch, attempts, before, after)
    requires (touch == SetsAttempts ==> attempts >= 1) && (touch == Opens ==> start.Some?)
    ensures Follows(start, after, NextTrail(trail, touch))
  {}

  /** What holds of every document on the way: all checks but one, and the resolver tuning on its trail. */
  ghost function OnTrail(p: Platform, start: Option<ResolverTuning>): (Document, Trail) -> bool {
    (e, trail) => ValidBesidesAttempts(p, e) && Follows(start, ResolverOf(e.updater), trail)
  }

  lemma OneMorePatch(p: Platform, d: Document, e: Document, patch: PatchDoc, trail: Trail)
    requires DryRunPasses(p, d, patch) && OnTrail(p, ResolverOf(d.updater))(e, trail)
    ensures var x := ApplyPatch(e, patch);
      x.Some? && OnTrail(p, ResolverOf(d.updater))(x.value, NextTrail(trail, ResolverTouch(patch)))
  {
    PatchKeepsOtherChecks(p, d, e, patch);
    var x := ApplyPatch(e, patch).value;
    PassingAloneConstrains(p, d, patch);
    ResolverAfterPatch(e, patch);
    MoveIsTrailStep(ResolverOf(d.updater), ResolverOf(e.updater), ResolverOf(x.updater), trail, ResolverTouch(patch),
                    AttemptsIn(patch));
  }

  /** One patch that passes takes a document on its trail to the next one. */
  ghost predicate Carries(apply: Patcher, inv: (Document, Trail) -> bool, e: Document, trail: Trail, patch: PatchDoc) {
    inv(e, trail) ==> apply(e, patch).Some? && inv(apply(e, patch).value, NextTrail(trail, ResolverTouch(patch)))
  }

  /** What each patch keeps is kept along a whole sequence, and none of its patches fails. */
  lemma {:induction false} SequenceCarries(apply: Patcher, inv: (Document, Trail) -> bool, d: Document,
                                           ps: seq<PatchDoc>)
    requires inv(d, Intact)
    requires forall i, e, t :: 0 <= i < |ps| ==> Carries(apply, inv, e, t, ps[i])
    ensures inv(PatchAllWith(apply, d, ps), TrailOf(Touches(ps)))
    ensures NoneFails(apply, d, ps)
  {
    if ps != [] {
      var n := |ps| - 1;
      var front := ps[..n];
      assert forall i :: 0 <= i < n ==> front[i] == ps[i];
      SequenceCarries(apply, inv, d, front);
      assert Touches(ps)[..n] == Touches(front);
      assert Carries(apply, inv, PatchAllWith(apply, d, front), TrailOf(Touches(front)), ps[n]);
      forall i | 0 <= i < |ps| ensures apply(PatchAllWith(apply, d, ps[..i]), ps[i]).Some? {
        if i < n { assert ps[..i] == front[..i] && ps[i] == front[i]; }
      }
    }
  }

  /** Patches that pass alone, applied in sequence: none fails, and the result is valid but for the resolver's trail. */
  lemma SequenceFollows(p: Platform, d: Document, ps: seq<PatchDoc>)
    requires ValidPatchable(p, d) && AllPassAlone(p, d, ps)
    ensures NoneFails(ApplyPatch, d, ps)
    ensures OnTrail(p, ResolverOf(d.updater))(PatchAll(d, ps), TrailOf(Touches(ps)))
  {
    var inv := OnTrail(p, ResolverOf(d.updater));
    PatchableByParts(p, d);
    forall i, e, t | 0 <= i < |ps| ensures Carries(ApplyPatch, inv, e, t, ps[i]) {
      if inv(e, t) { OneMorePatch(p, d, e, ps[i], t); }
    }
    SequenceCarries(ApplyPatch, inv, d, ps);
  }

  // ---------------------------------------------------------------------
  // Effective on an accepted document
  // ---------------------------------------------------------------------

  lemma {:induction false} FilterIsListed(hit: Override -> bool, ovs: seq<Override>)
    ensures forall i :: 0 <= i < |Filter(hit, ovs)| ==> Filter(hit, ovs)[i] in ovs
  {
    if ovs != [] { FilterIsListed(hit, ovs[..|ovs| - 1]); }
  }

  lemma ApplicablePassAlone(p: Platform, d: Document, ovs: seq<Override>, h: Host)
    requires forall i :: 0 <= i < |ovs| ==> DryRunPasses(p, d, PatchOf(ovs[i]))
    ensures AllPassAlone(p, d, Patches(Applicable(p, ovs, h)))
  {
    FilterIsListed(Hits(p, h), ovs);
  }

  /** On an accepted document no applicable override is ever skipped by the error branch. */
  lemma NoOverrideSkipped(p: Platform, d: Document, h: Host)
    requires Accepted(p, d)
    ensures var hits := Applicable(p, Items(d.overrides), h);
      FoldOverrides(p, d, Items(d.overrides), h) == Outcome(PatchAll(d, Patches(hits)), Ids(hits))
  {
    ApplicablePassAlone(p, d, Items(d.overrides), h);
    SequenceFollows(p, d, Patches(Applicable(p, Items(d.overrides), h)));
    FoldIsPatchAll(ApplyPatch, Hits(p, h), d, Items(d.overrides));
  }

  /**
    Every patch passed alone, yet the effective document passes the validators exactly
    when the patches applied to this host leave no resolver gap.
   */
  lemma EffectiveValidIff(p: Platform, d: Document, h: Host)
    requires Accepted(p, d)
    ensures ValidPatchable(p, FoldOverrides(p, d, Items(d.overrides), h).doc)
      <==> !ResolverGap(Touches(Patches(Applicable(p, Items(d.overrides), h))))
  {
    var ps := Patches(Applicable(p, Items(d.overrides), h));
    NoOverrideSkipped(p, d, h);
    ApplicablePassAlone(p, d, Items(d.overrides), h);
    SequenceFollows(p, d, ps);
    PatchableByParts(p, PatchAll(d, ps));
    GapIsBroken(Touches(ps));
  }

  lemma GapIsBroken(ts: seq<Touch>)
    ensures ResolverGap(ts) <==> TrailOf(ts) == Broken
  {
    TrailIsGap(ts);
    if ResolverGap(ts) {
      var i, j :| 0 <= i < j < |ts| && ts[i] == Clears && ts[j] == Opens
        && forall m :: i < m < |ts| ==> ts[m] == Keeps || ts[m] == Opens;
      assert BrokenAt(ts, i, j);
    }
  }

  lemma NoClearingNoGap(hit: Override -> bool, ovs: seq<Override>)
    requires forall i :: 0 <= i < |ovs| ==> ResolverTouch(PatchOf(ovs[i])) != Clears
    ensures !ResolverGap(Touches(Patches(Filter(hit, ovs))))
  {
    var hits := Filter(hit, ovs);
    FilterIsListed(hit, ovs);
    forall i | 0 <= i < |hits| ensures Touches(Patches(hits))[i] != Clears {}
  }

  /** With no override that clears updater or updater.resolver, every host gets a valid effective document. */
  lemma NoClearingAlwaysValid(p: Platform, d: Document, h: Host)
    requires Accepted(p, d)
    requires forall i :: 0 <= i < |Items(d.overrides)| ==> ResolverTouch(PatchOf(Items(d.overrides)[i])) != Clears
    ensures ValidPatchable(p, FoldOverrides(p, d, Items(d.overrides), h).doc)
  {
    NoClearingNoGap(Hits(p, h), Items(d.overrides));
    EffectiveValidIff(p, d, h);
  }

  // ---------------------------------------------------------------------
  // A document that is accepted although its effective form is invalid
  // ---------------------------------------------------------------------

  /** A patch of the updater section alone. */
  lemma UpdaterPatchApplies(d: Document, v: Json)
    requires Conforms(UPDATER, Merge(WritePtr(WriteUpdater, d.updater), v))
    ensures ApplyPatch(d, map["updater" := v])
      == Some(d.(updater := ReadPtr(ReadUpdater, Merge(WritePtr(WriteUpdater, d.updater), v))))
  {
    SectionsRoundTrip(d);
    var m := Merge(WritePtr(WriteUpdater, d.updater), v);
    assert PatchSections(WriteSections(d), map["updater" := v]) == WriteSections(d).(updater := m);
  }

  /** A small patch of the updater section passes alone, if it can be checked on the empty tree. */
  lemma UpdaterPatchPasses(p: Platform, d: Document, v: Json)
    requires ValidPatchable(p, d) && d.defaultServer in Entries(d.servers)
    requires Conforms(UPDATER, Merge(Null, v)) && UpdaterBesidesAttempts(Merge(Null, v))
    requires var touch := ResolverTouch(map["updater" := v]);
      touch == Keeps || touch == Clears || (touch == Opens && ResolverOf(d.updater).Some?)
    ensures DryRunPasses(p, d, map["updater" := v])
  {
    var w := WritePtr(WriteUpdater, d.updater);
    PatchableByParts(p, d);
    UpdaterBack(d.updater);
    MergeConforms(UPDATER, w, Null, v);
    UpdaterBesidesAttemptsStays(w, Null, v);
    NormalizingKeepsLeaves(Merge(w, v));
    UpdaterPatchApplies(d, v);
    ResolverAfterPatch(d, map["updater" := v]);
    PatchableByParts(p, d.(updater := ReadPtr(ReadUpdater, Merge(w, v))));
  }

  const CLEAR_RESOLVER := Obj(map["resolver" := Null])
  const BACKOFF_ONLY := Obj(map["resolver" := Obj(map["baseBackoffSeconds" := Num(5)])])

  lemma ClearIsSmall()
    ensures Conforms(UPDATER, Merge(Null, CLEAR_RESOLVER)) && UpdaterBesidesAttempts(Merge(Null, CLEAR_RESOLVER))
    ensures ResolverTouch(map["updater" := CLEAR_RESOLVER]) == Clears
  {
    assert Merge(Null, CLEAR_RESOLVER) == Obj(map[]);
  }

  lemma BackoffConforms(v: Json, r: map<string, Schema>, u: map<string, Schema>)
    requires v == Obj(map["baseBackoffSeconds" := Num(5)])
    requires "baseBackoffSeconds" in r && r["baseBackoffSeconds"] == TInt && "resolver" in u
      && u["resolver"] == TStruct(r)
    ensures Conforms(TStruct(u), Obj(map["resolver" := v]))
  {
    assert Conforms(TStruct(r), v);
  }

  lemma BackoffLeaves()
    ensures UpdaterBesidesAttempts(BACKOFF_ONLY)
    ensures ResolverTouch(map["updater" := BACKOFF_ONLY]) == Opens
  {}

  lemma BackoffIsSmall()
    ensures Conforms(UPDATER, Merge(Null, BACKOFF_ONLY)) && UpdaterBesidesAttempts(Merge(Null, BACKOFF_ONLY))
    ensures ResolverTouch(map["updater" := BACKOFF_ONLY]) == Opens
  {
    BackoffLeaves();
    BackoffConforms(BACKOFF_ONLY.fields["resolver"], RESOLVER.fields, UPDATER.fields);
    assert NullFree(BACKOFF_ONLY.fields["resolver"]);
    MergeIntoNothing(Null, BACKOFF_ONLY);
  }

  function ForEveryone(id: string, v: Json): Override {
    Override(id, Selector(Some(true), None, None, None, None, None), None, None, Some(map["updater" := v]))
  }

  const GAP_DOCUMENT := Document(
    1, 0, "", None, Some(map["main" := "http://main"]), "main", None, None, None, None,
    Some(UpdaterTuning(None, None, None, None, Some(ResolverTuning(3, 1)), None, None)), None, None,
    Some([ForEveryone("a", CLEAR_RESOLVER), ForEveryone("b", BACKOFF_ONLY)]))

  lemma GapDocumentOverrides(p: Platform)
    ensures ValidOverrides(p, GAP_DOCUMENT)
  {}

  lemma GapDocumentShape(p: Platform)
    requires p.validServerURL("http://main")
    ensures ValidShape(p, GAP_DOCUMENT)
  {
    GapDocumentOverrides(p);
    assert "main" in Entries(GAP_DOCUMENT.servers);
  }

  lemma ClearPassesAlone(p: Platform, d: Document)
    requires ValidPatchable(p, d) && d.defaultServer in Entries(d.servers)
    ensures DryRunPasses(p, d, map["updater" := CLEAR_RESOLVER])
  {
    ClearIsSmall();
    UpdaterPatchPasses(p, d, CLEAR_RESOLVER);
  }

  lemma BackoffPassesAlone(p: Platform, d: Document)
    requires ValidPatchable(p, d) && d.defaultServer in Entries(d.servers) && ResolverOf(d.updater).Some?
    ensures DryRunPasses(p, d, map["updater" := BACKOFF_ONLY])
  {
    BackoffIsSmall();
    UpdaterPatchPasses(p, d, BACKOFF_ONLY);
  }

  lemma TwoDryRuns(p: Platform, d: Document, a: PatchDoc, b: PatchDoc)
    requires |Items(d.overrides)| == 2 && PatchOf(Items(d.overrides)[0]) == a && PatchOf(Items(d.overrides)[1]) == b
    requires DryRunPasses(p, d, a) && DryRunPasses(p, d, b)
    ensures ValidDryRuns(p, d)
  {
    var ovs := Items(d.overrides);
    forall i | 0 <= i < |ovs| ensures DryRunPasses(p, d, PatchOf(ovs[i])) {
      if i == 0 { assert PatchOf(ovs[i]) == a; } else { assert PatchOf(ovs[i]) == b; }
    }
  }

  lemma GapDryRuns(p: Platform, d: Document)
    requires ValidPatchable(p, d) && d.defaultServer in Entries(d.servers) && ResolverOf(d.updater).Some?
    requires |Items(d.overrides)| == 2 && PatchOf(Items(d.overrides)[0]) == map["updater" := CLEAR_RESOLVER]
    requires PatchOf(Items(d.overrides)[1]) == map["updater" := BACKOFF_ONLY]
    ensures ValidDryRuns(p, d)
  {
    ClearPassesAlone(p, d);
    BackoffPassesAlone(p, d);
    TwoDryRuns(p, d, PatchOf(Items(d.overrides)[0]), PatchOf(Items(d.overrides)[1]));
  }

  lemma GapTouches(p: Platform, ovs: seq<Override>, h: Host)
    requires |ovs| == 2 && Applies(p, ovs[0], h) && Applies(p, ovs[1], h)
    requires ResolverTouch(PatchOf(ovs[0])) == Clears && ResolverTouch(PatchOf(ovs[1])) == Opens
    ensures ResolverGap(Touches(Patches(Applicable(p, ovs, h))))
  {
    BothHit(Hits(p, h), ovs);
    var ts := Touches(Patches(ovs));
    assert ts[0] == Clears && ts[1] == Opens;
  }

  /**
    Clearing the resolver for everyone, then setting only its backoff: both pass
    alone, and every host ends with an effective document the validators reject.
   */
  lemma CheckedAloneIsNotEnough(p: Platform, h: Host)
    requires p.validServerURL("http://main")
    ensures Accepted(p, GAP_DOCUMENT)
    ensures !ValidPatchable(p, FoldOverrides(p, GAP_DOCUMENT, Items(GAP_DOCUMENT.overrides), h).doc)
  {
    GapDocumentAccepted(p);
    ClearIsSmall();
    BackoffLeaves();
    GapTouches(p, Items(GAP_DOCUMENT.overrides), h);
    EffectiveValidIff(p, GAP_DOCUMENT, h);
  }

  lemma GapDocumentAccepted(p: Platform)
    requires p.validServerURL("http://main")
    ensures Accepted(p, GAP_DOCUMENT)
  {
    GapDocumentShape(p);
    GapDryRuns(p, GAP_DOCUMENT);
  }

  lemma BothHit(hit: Override -> bool, ovs: seq<Override>)
    requires |ovs| == 2 && hit(ovs[0]) && hit(ovs[1])
    ensures Filter(hit, ovs) == ovs
  {
    assert ovs[..1] == [ovs[0]] && ovs[..1][..0] == [];
    assert Filter(hit, ovs[..1]) == [ovs[0]];
  }
}
