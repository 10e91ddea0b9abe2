/** Whether the servers a host is sent to exist, on the effective document. */
module SiteTheorems {
  import opened Prelude
  import opened MergePatch
  import opened Schema
  import opened JsonCodec
  import opened ConfigDocument
  import opened PatchDocument
  import opened Validation
  import opened Effective
  import opened EffectiveTheorems

  function DefaultAfter(before: string, patch: PatchDoc): string {
    if "defaultServer" in patch then ReadStr(patch["defaultServer"]) else before
  }

  lemma DefaultAfterPatch(e: Document, patch: PatchDoc)
    requires ApplyPatch(e, patch).Some?
    ensures FieldsStep(e, patch, ApplyPatch(e, patch).value)
  {
    PatchKeepsOtherFields(e, patch);
    assert Conforms(TStr, MergeUnder(patch, "defaultServer", Str(e.defaultServer)));
  }

  function DefaultAfterAll(before: string, ps: seq<PatchDoc>): string {
    if ps == [] then before else DefaultAfter(DefaultAfterAll(before, ps[..|ps| - 1]), ps[|ps| - 1])
  }

  /** The fields a host's servers depend on, after one patch. */
  predicate FieldsStep(e: Document, patch: PatchDoc, x: Document) {
    x.defaultServer == DefaultAfter(e.defaultServer, patch) && x.servers == e.servers && x.dcLookupMap == e.dcLookupMap
  }

  lemma {:induction false} SequenceFields(apply: Patcher, d: Document, ps: seq<PatchDoc>)
    requires NoneFails(apply, d, ps)
    requires forall e, patch :: apply(e, patch).Some? ==> FieldsStep(e, patch, apply(e, patch).value)
    ensures var x := PatchAllWith(apply, d, ps);
      && x.defaultServer == DefaultAfterAll(d.defaultServer, ps) && x.servers == d.servers
      && x.dcLookupMap == d.dcLookupMap
  {
    if ps != [] {
      var front, last := ps[..|ps| - 1], ps[|ps| - 1];
      forall i | 0 <= i < |front| ensures apply(PatchAllWith(apply, d, front[..i]), front[i]).Some? {
        assert front[..i] == ps[..i];
      }
      SequenceFields(apply, d, front);
    }
  }

  /** The last patch that names defaultServer sets it to null or to the empty string. */
  ghost predicate BlanksDefault(ps: seq<PatchDoc>) {
    exists i :: 0 <= i < |ps| && "defaultServer" in ps[i] && ReadStr(ps[i]["defaultServer"]) == ""
      && forall m :: i < m < |ps| ==> "defaultServer" !in ps[m]
  }

  /** The patch names no default server, or a known one, or blanks it. */
  predicate NamesKnown(servers: map<string, string>, patch: PatchDoc) {
    "defaultServer" in patch ==> ReadStr(patch["defaultServer"]) == "" || ReadStr(patch["defaultServer"]) in servers
  }

  lemma {:induction false} DefaultIsKnown(servers: map<string, string>, before: string, ps: seq<PatchDoc>)
    requires before != "" && before in servers
    requires forall i :: 0 <= i < |ps| ==> NamesKnown(servers, ps[i])
    ensures DefaultAfterAll(before, ps) == "" <==> BlanksDefault(ps)
    ensures DefaultAfterAll(before, ps) != "" ==> DefaultAfterAll(before, ps) in servers
  {
    if ps != [] {
      var n := |ps| - 1;
      var front, last := ps[..n], ps[n];
      DefaultIsKnown(servers, before, front);
      if "defaultServer" in last {
        assert NamesKnown(servers, last);
        if ReadStr(last["defaultServer"]) == "" {
          assert BlanksDefault(ps);
        }
      } else if BlanksDefault(front) {
        var i :| 0 <= i < |front| && "defaultServer" in front[i] && ReadStr(front[i]["defaultServer"]) == ""
          && forall m :: i < m < |front| ==> "defaultServer" !in front[m];
        assert ps[i] == front[i];
        assert forall m :: i < m < |ps| ==> m == n || ps[m] == front[m];
        assert BlanksDefault(ps);
      }
    }
  }

  lemma PassingAloneNamesKnown(p: Platform, d: Document, patch: PatchDoc)
    requires DryRunPasses(p, d, patch)
    ensures NamesKnown(Entries(d.servers), patch)
  {
    DefaultAfterPatch(d, patch);
  }

  /** The effective document of an accepted one: same servers and sites, default server as the patches leave it. */
  lemma EffectiveServers(p: Platform, d: Document, h: Host) returns (e: Document, ps: seq<PatchDoc>)
    requires Accepted(p, d)
    ensures e == FoldOverrides(p, d, Items(d.overrides), h).doc && ps == Patches(Applicable(p, Items(d.overrides), h))
    ensures e.servers == d.servers && e.dcLookupMap == d.dcLookupMap
    ensures e.defaultServer == "" <==> BlanksDefault(ps)
    ensures e.defaultServer != "" ==> e.defaultServer in Entries(d.servers)
  {
    ps := Patches(Applicable(p, Items(d.overrides), h));
    NoOverrideSkipped(p, d, h);
    ApplicablePassAlone(p, d, Items(d.overrides), h);
    SequenceFollows(p, d, ps);
    forall x, patch | ApplyPatch(x, patch).Some? ensures FieldsStep(x, patch, ApplyPatch(x, patch).value) {
      DefaultAfterPatch(x, patch);
    }
    SequenceFields(ApplyPatch, d, ps);
    e := PatchAll(d, ps);
    forall i | 0 <= i < |ps| ensures NamesKnown(Entries(d.servers), ps[i]) { PassingAloneNamesKnown(p, d, ps[i]); }
    DefaultIsKnown(Entries(d.servers), d.defaultServer, ps);
  }

  /**
    Every server a host is sent to is a key of servers exactly when a site matched, or the
    applied patches do not blank the default server (or the empty name is itself a server).
   */
  lemma ChainIsKnownIff(p: Platform, d: Document, h: Host, site: Option<string>, chain: seq<string>)
    requires Accepted(p, d)
    requires ResolvesTo(p, FoldOverrides(p, d, Items(d.overrides), h).doc, h, site, chain)
    ensures (forall n :: n in chain ==> n in Entries(FoldOverrides(p, d, Items(d.overrides), h).doc.servers))
      <==> site.Some? || "" in Entries(d.servers) || !BlanksDefault(Patches(Applicable(p, Items(d.overrides), h)))
  {
    var e, ps := EffectiveServers(p, d, h);
    if site.Some? {
      assert ValidSite(p, Entries(d.servers), Entries(d.dcLookupMap)[site.value]);
    } else {
      assert e.defaultServer in chain;
    }
  }
}
