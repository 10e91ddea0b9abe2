/** What Effective and ResolveSite mean, in terms of times, names and addresses alone. */
module EffectiveMeaning {
  import opened Prelude
  import opened ConfigDocument
  import opened PatchDocument
  import opened Validation
  import opened Effective
  import opened EffectiveTheorems

  // ---------------------------------------------------------------------
  // Which overrides apply
  // ---------------------------------------------------------------------

  /** The time limit is absent, empty, not a time, or not yet past. */
  predicate InForce(p: Platform, until: Option<string>, now: int) {
    until.None? || until.value == "" || p.rfc3339(until.value).None? || now <= p.rfc3339(until.value).value
  }

  /** The name without its DNS suffix. */
  predicate IsBare(name: string, bare: string) {
    |bare| <= |name| && name[..|bare|] == bare && '.' !in bare && (|bare| == |name| || name[|bare|] == '.')
  }

  /** Equal names, their DNS suffixes aside. */
  ghost predicate SameDC(p: Platform, a: string, b: string) {
    exists x, y :: IsBare(a, x) && IsBare(b, y) && p.equalFold(x, y)
  }

  /** A list that is present has an entry for the host; an empty name of the host matches no list. */
  ghost predicate NameListed(p: Platform, list: seq<string>, name: string) {
    list == [] || (name != "" && exists i :: 0 <= i < |list| && p.equalFold(list[i], name))
  }

  ghost predicate DCListed(p: Platform, dcs: seq<string>, dc: string) {
    dc != "" && exists i :: 0 <= i < |dcs| && SameDC(p, dcs[i], dc)
  }

  /** One of the addresses is in one of the subnets. */
  ghost predicate AddressIn(p: Platform, nets: seq<string>, ips: seq<string>) {
    exists i, j :: 0 <= i < |nets| && 0 <= j < |ips| && p.inSubnet(nets[i], ips[j])
  }

  ghost predicate SelectorHits(p: Platform, sel: Selector, h: Host) {
    sel.all == Some(true) ||
    (&& (Items(sel.hwids) + Items(sel.hostnames) + Items(sel.dcs) + Items(sel.subnets) + Items(sel.domains) != [])
     && NameListed(p, Items(sel.hwids), h.hwid)
     && NameListed(p, Items(sel.hostnames), h.hostname)
     && NameListed(p, Items(sel.domains), h.domain)
     && (Items(sel.dcs) == [] || DCListed(p, Items(sel.dcs), h.dc))
     && (Items(sel.subnets) == [] || AddressIn(p, Items(sel.subnets), h.ips)))
  }

  ghost predicate Meets(p: Platform, ov: Override, h: Host) {
    && InForce(p, ov.until, h.now) && SelectorHits(p, ov.matches, h)
    && (ov.except.Some? ==> !SelectorHits(p, ov.except.value, h))
  }

  lemma {:induction false} ShortIsBare(name: string)
    ensures IsBare(name, ShortName(name))
  {
    if name != "" && name[0] != '.' {
      ShortIsBare(name[1..]);
      assert ShortName(name)[1..] == ShortName(name[1..]);
      assert name == [name[0]] + name[1..];
    }
  }

  lemma BareIsUnique(name: string, x: string, y: string)
    requires IsBare(name, x) && IsBare(name, y)
    ensures x == y
  {
    assert forall k :: 0 <= k < |y| ==> name[k] == y[k] && y[k] in y;
    assert forall k :: 0 <= k < |x| ==> name[k] == x[k] && x[k] in x;
  }

  lemma SameDCIsShort(p: Platform, a: string, b: string)
    ensures SameDC(p, a, b) <==> p.equalFold(ShortName(a), ShortName(b))
  {
    ShortIsBare(a);
    ShortIsBare(b);
    if SameDC(p, a, b) {
      var x, y :| IsBare(a, x) && IsBare(b, y) && p.equalFold(x, y);
      BareIsUnique(a, x, ShortName(a));
      BareIsUnique(b, y, ShortName(b));
    }
  }

  lemma SelectsExactly(p: Platform, sel: Selector, h: Host)
    ensures Selects(p, sel, h) <==> SelectorHits(p, sel, h)
  {
    forall i | 0 <= i < |Items(sel.dcs)|
      ensures SameDC(p, Items(sel.dcs)[i], h.dc) <==> p.equalFold(ShortName(Items(sel.dcs)[i]), ShortName(h.dc))
    {
      SameDCIsShort(p, Items(sel.dcs)[i], h.dc);
    }
  }

  /** The ids of the overrides that meet the conditions, in list order. */
  ghost function IdsMeeting(p: Platform, ovs: seq<Override>, h: Host): seq<string> {
    if ovs == [] then []
    else
      var last := ovs[|ovs| - 1];
      IdsMeeting(p, ovs[..|ovs| - 1], h) + if Meets(p, last, h) then [last.id] else []
  }

  lemma HitsMeets(p: Platform, ov: Override, h: Host)
    ensures Hits(p, h)(ov) <==> Meets(p, ov, h)
  {
    SelectsExactly(p, ov.matches, h);
    if ov.except.Some? { SelectsExactly(p, ov.except.value, h); }
  }

  lemma {:induction false} ApplicableMeets(p: Platform, ovs: seq<Override>, h: Host)
    ensures Ids(Applicable(p, ovs, h)) == IdsMeeting(p, ovs, h)
  {
    if ovs != [] {
      var front, last := ovs[..|ovs| - 1], ovs[|ovs| - 1];
      ApplicableMeets(p, front, h);
      HitsMeets(p, last, h);
      IdsThen(Applicable(p, front, h), last);
    }
  }

  lemma IdsThen(ovs: seq<Override>, ov: Override)
    ensures Ids(ovs + [ov]) == Ids(ovs) + [ov.id]
  {}

  /**
    On an accepted document the applied ids are, in list order, exactly those of the overrides in
    force whose selector hits the host and whose exception does not.
   */
  lemma AppliedExactly(p: Platform, d: Document, h: Host)
    requires Accepted(p, d)
    ensures FoldOverrides(p, d, Items(d.overrides), h).applied == IdsMeeting(p, Items(d.overrides), h)
  {
    NoOverrideSkipped(p, d, h);
    ApplicableMeets(p, Items(d.overrides), h);
  }

  /** The documents from one override to the next: the patches of those that hit are applied, and none fails. */
  ghost predicate IsTrail(apply: Patcher, hit: Override -> bool, ovs: seq<Override>, docs: seq<Document>) {
    && |docs| == |ovs| + 1
    && forall i :: 0 <= i < |ovs| ==> StepsTo(apply, hit(ovs[i]), PatchOf(ovs[i]), docs[i], docs[i + 1])
  }

  predicate StepsTo(apply: Patcher, hits: bool, patch: PatchDoc, before: Document, after: Document) {
    if hits then apply(before, patch) == Some(after) else after == before
  }

  lemma TrailThen(apply: Patcher, hit: Override -> bool, ovs: seq<Override>, docs: seq<Document>, next: Document)
    requires ovs != [] && IsTrail(apply, hit, ovs[..|ovs| - 1], docs)
    requires var last := ovs[|ovs| - 1]; StepsTo(apply, hit(last), PatchOf(last), docs[|ovs| - 1], next)
    ensures IsTrail(apply, hit, ovs, docs + [next])
  {
    var front := ovs[..|ovs| - 1];
    forall i | 0 <= i < |front| ensures StepsTo(apply, hit(ovs[i]), PatchOf(ovs[i]), docs[i], docs[i + 1]) {
      assert front[i] == ovs[i];
    }
  }

  lemma FoldSteps(apply: Patcher, hit: Override -> bool, d: Document, ovs: seq<Override>)
    requires ovs != [] && NoneFails(apply, d, Patches(Filter(hit, ovs)))
    ensures var front, last := ovs[..|ovs| - 1], ovs[|ovs| - 1];
      && NoneFails(apply, d, Patches(Filter(hit, front)))
      && StepsTo(apply, hit(last), PatchOf(last), FoldWith(apply, hit, d, front).doc, FoldWith(apply, hit, d, ovs).doc)
  {
    var front, last := ovs[..|ovs| - 1], ovs[|ovs| - 1];
    if hit(last) {
      NoneFailsBefore(apply, d, Filter(hit, front), last);
    } else {
      assert Filter(hit, ovs) == Filter(hit, front);
    }
    FoldIsPatchAll(apply, hit, d, front);
  }

  lemma {:induction false} FoldTrail(apply: Patcher, hit: Override -> bool, d: Document, ovs: seq<Override>)
    returns (docs: seq<Document>)
    requires NoneFails(apply, d, Patches(Filter(hit, ovs)))
    ensures IsTrail(apply, hit, ovs, docs) && docs[0] == d && docs[|ovs|] == FoldWith(apply, hit, d, ovs).doc
  {
    if ovs == [] {
      docs := [d];
    } else {
      FoldSteps(apply, hit, d, ovs);
      var front := FoldTrail(apply, hit, d, ovs[..|ovs| - 1]);
      var next := FoldWith(apply, hit, d, ovs).doc;
      TrailThen(apply, hit, ovs, front, next);
      docs := front + [next];
    }
  }

  lemma TrailAlike(apply: Patcher, hit: Override -> bool, meets: Override -> bool, ovs: seq<Override>,
                   docs: seq<Document>)
    requires IsTrail(apply, hit, ovs, docs) && forall ov :: hit(ov) == meets(ov)
    ensures IsTrail(apply, meets, ovs, docs)
  {}

  /** The effective document is what applying the patches of those overrides, in list order, leaves of the document. */
  lemma DocumentExactly(p: Platform, d: Document, h: Host) returns (docs: seq<Document>)
    requires Accepted(p, d)
    ensures var ovs := Items(d.overrides);
      && IsTrail(ApplyPatch, ov => Meets(p, ov, h), ovs, docs)
      && docs[0] == d && docs[|ovs|] == FoldOverrides(p, d, ovs, h).doc
  {
    var ovs := Items(d.overrides);
    ApplicablePassAlone(p, d, ovs, h);
    SequenceFollows(p, d, Patches(Applicable(p, ovs, h)));
    docs := FoldTrail(ApplyPatch, Hits(p, h), d, ovs);
    forall ov ensures Hits(p, h)(ov) == Meets(p, ov, h) { HitsMeets(p, ov, h); }
    TrailAlike(ApplyPatch, Hits(p, h), ov => Meets(p, ov, h), ovs, docs);
  }

  // ---------------------------------------------------------------------
  // Which site
  // ---------------------------------------------------------------------

  /** An enabled site with the host's DC name and one of its addresses. */
  ghost predicate IsSite(p: Platform, d: Document, dc: string, h: Host) {
    && dc in Entries(d.dcLookupMap) && Entries(d.dcLookupMap)[dc].enabled && h.dc != "" && SameDC(p, dc, h.dc)
    && AddressIn(p, Items(Entries(d.dcLookupMap)[dc].internalSubnets), h.ips)
  }

  lemma SiteExactly(p: Platform, d: Document, dc: string, h: Host)
    ensures SiteMatches(p, d, dc, h) <==> IsSite(p, d, dc, h)
  {
    SameDCIsShort(p, dc, h.dc);
    assert [dc][0] == dc;
  }

  /** A site answers with its base server followed by its backups; without a site the default server does. */
  lemma ResolvesExactly(p: Platform, d: Document, h: Host, site: Option<string>, chain: seq<string>)
    requires ResolvesTo(p, d, h, site, chain)
    ensures site.Some? ==>
      && IsSite(p, d, site.value, h) && |chain| >= 1 && chain[0] == Entries(d.dcLookupMap)[site.value].baseServer
      && chain[1..] == Items(Entries(d.dcLookupMap)[site.value].backupServer)
    ensures site.None? <==> forall dc :: !IsSite(p, d, dc, h)
    ensures site.None? ==> chain == [d.defaultServer]
  {
    forall dc ensures SiteMatches(p, d, dc, h) <==> IsSite(p, d, dc, h) { SiteExactly(p, d, dc, h); }
  }
}
