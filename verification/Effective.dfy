/** Selecting overrides for a host, folding their patches, and resolving the host's servers. */
module Effective {
  import opened Prelude
  import opened ConfigDocument
  import opened PatchDocument
  import opened Validation

  datatype Host = Host(hwid: string, hostname: string, dc: string, domain: string, ips: seq<string>, now: int)

  // ---------------------------------------------------------------------
  // Which overrides apply
  // ---------------------------------------------------------------------

  predicate ContainsFold(p: Platform, list: seq<string>, s: string) {
    s != "" && exists i :: 0 <= i < |list| && p.equalFold(list[i], s)
  }

  /** The name up to its first dot. */
  function ShortName(name: string): string {
    if name == "" || name[0] == '.' then "" else [name[0]] + ShortName(name[1..])
  }

  predicate DCMatchesAny(p: Platform, list: seq<string>, dc: string) {
    dc != "" && exists i :: 0 <= i < |list| && p.equalFold(ShortName(list[i]), ShortName(dc))
  }

  predicate SubnetsContainAny(p: Platform, cidrs: seq<string>, ips: seq<string>) {
    exists i, j :: 0 <= i < |cidrs| && 0 <= j < |ips| && p.inSubnet(cidrs[i], ips[j])
  }

  predicate Selects(p: Platform, sel: Selector, h: Host) {
    if sel.all == Some(true) then true
    else
      && (Items(sel.hwids) != [] ==> ContainsFold(p, Items(sel.hwids), h.hwid))
      && (Items(sel.hostnames) != [] ==> ContainsFold(p, Items(sel.hostnames), h.hostname))
      && (Items(sel.dcs) != [] ==> DCMatchesAny(p, Items(sel.dcs), h.dc))
      && (Items(sel.subnets) != [] ==> SubnetsContainAny(p, Items(sel.subnets), h.ips))
      && (Items(sel.domains) != [] ==> ContainsFold(p, Items(sel.domains), h.domain))
      && HasList(sel)
  }

  method SearchFold(p: Platform, list: seq<string>, s: string) returns (found: bool)
    ensures found == ContainsFold(p, list, s)
  {
    if s == "" {
      return false;
    }
    for i := 0 to |list|
      invariant forall j :: 0 <= j < i ==> !p.equalFold(list[j], s)
    {
      if p.equalFold(list[i], s) { return true; }
    }
    return false;
  }

  method SearchDC(p: Platform, list: seq<string>, dc: string) returns (found: bool)
    ensures found == DCMatchesAny(p, list, dc)
  {
    if dc == "" {
      return false;
    }
    for i := 0 to |list|
      invariant forall j :: 0 <= j < i ==> !p.equalFold(ShortName(list[j]), ShortName(dc))
    {
      if p.equalFold(ShortName(list[i]), ShortName(dc)) { return true; }
    }
    return false;
  }

  method SearchSubnets(p: Platform, cidrs: seq<string>, ips: seq<string>) returns (found: bool)
    ensures found == SubnetsContainAny(p, cidrs, ips)
  {
    for i := 0 to |cidrs|
      invariant forall k, j :: 0 <= k < i && 0 <= j < |ips| ==> !p.inSubnet(cidrs[k], ips[j])
    {
      for j := 0 to |ips|
        invariant forall k :: 0 <= k < j ==> !p.inSubnet(cidrs[i], ips[k])
      {
        if p.inSubnet(cidrs[i], ips[j]) { return true; }
      }
    }
    return false;
  }

  /** The code's test, key by key: every list that is present must match, and one must be present. */
  method Match(p: Platform, sel: Selector, h: Host) returns (r: bool)
    ensures r == Selects(p, sel, h)
  {
    if sel.all == Some(true) {
      return true;
    }
    var matchedAnyKey, found := false, false;
    if Items(sel.hwids) != [] {
      matchedAnyKey := true;
      found := SearchFold(p, Items(sel.hwids), h.hwid);
      if !found { return false; }
    }
    if Items(sel.hostnames) != [] {
      matchedAnyKey := true;
      found := SearchFold(p, Items(sel.hostnames), h.hostname);
      if !found { return false; }
    }
    if Items(sel.dcs) != [] {
      matchedAnyKey := true;
      found := SearchDC(p, Items(sel.dcs), h.dc);
      if !found { return false; }
    }
    if Items(sel.subnets) != [] {
      matchedAnyKey := true;
      found := SearchSubnets(p, Items(sel.subnets), h.ips);
      if !found { return false; }
    }
    if Items(sel.domains) != [] {
      matchedAnyKey := true;
      found := SearchFold(p, Items(sel.domains), h.domain);
      if !found { return false; }
    }
    return matchedAnyKey;
  }

  predicate UntilExpired(p: Platform, until: Option<string>, now: int) {
    && until.Some? && until.value != ""
    && p.rfc3339(until.value).Some? && now > p.rfc3339(until.value).value
  }

  predicate Applies(p: Platform, ov: Override, h: Host) {
    && !UntilExpired(p, ov.until, h.now)
    && Selects(p, ov.matches, h)
    && !(ov.except.Some? && Selects(p, ov.except.value, h))
  }

  // ---------------------------------------------------------------------
  // The effective document
  // ---------------------------------------------------------------------

  datatype Outcome = Outcome(doc: Document, applied: seq<string>)

  type Patcher = (Document, PatchDoc) -> Option<Document>

  /** The test an override has to pass for this host. */
  function Hits(p: Platform, h: Host): Override -> bool { ov => Applies(p, ov, h) }

  /** The fold over the overrides that apply, one whose patch fails being skipped. */
  function FoldWith(apply: Patcher, hit: Override -> bool, d: Document, ovs: seq<Override>): Outcome {
    if ovs == [] then Outcome(d, [])
    else
      var before := FoldWith(apply, hit, d, ovs[..|ovs| - 1]);
      var last := ovs[|ovs| - 1];
      if !hit(last) then before
      else
        var x := apply(before.doc, PatchOf(last));
        if x.None? then before else Outcome(x.value, before.applied + [last.id])
  }

  function FoldOverrides(p: Platform, d: Document, ovs: seq<Override>, h: Host): Outcome {
    FoldWith(ApplyPatch, Hits(p, h), d, ovs)
  }

  method Effective(p: Platform, d: Document, h: Host) returns (r: Outcome)
    ensures r == FoldOverrides(p, d, Items(d.overrides), h)
  {
    var ovs := Items(d.overrides);
    r := Outcome(d, []);
    for i := 0 to |ovs|
      invariant r == FoldOverrides(p, d, ovs[..i], h)
    {
      assert ovs[..i + 1][..i] == ovs[..i];
      if UntilExpired(p, ovs[i].until, h.now) { continue; }
      var matched := Match(p, ovs[i].matches, h);
      if !matched { continue; }
      if ovs[i].except.Some? {
        var excepted := Match(p, ovs[i].except.value, h);
        if excepted { continue; }
      }
      var patched := ApplyPatchToDocument(r.doc, PatchOf(ovs[i]));
      if patched.None? { continue; }
      r := Outcome(patched.value, r.applied + [ovs[i].id]);
    }
    assert ovs[..|ovs|] == ovs;
  }

  /** The overrides that pass the test, in list order. */
  function Filter(hit: Override -> bool, ovs: seq<Override>): seq<Override> {
    if ovs == [] then []
    else Filter(hit, ovs[..|ovs| - 1]) + (if hit(ovs[|ovs| - 1]) then [ovs[|ovs| - 1]] else [])
  }

  /** The overrides that apply to the host, in list order. */
  function Applicable(p: Platform, ovs: seq<Override>, h: Host): seq<Override> { Filter(Hits(p, h), ovs) }

  function Ids(ovs: seq<Override>): seq<string> { seq(|ovs|, i requires 0 <= i < |ovs| => ovs[i].id) }

  function Patches(ovs: seq<Override>): seq<PatchDoc> { seq(|ovs|, i requires 0 <= i < |ovs| => PatchOf(ovs[i])) }

  /** The patches applied one after the other, a failing one being skipped. */
  function PatchAllWith(apply: Patcher, d: Document, ps: seq<PatchDoc>): Document {
    if ps == [] then d
    else
      var before := PatchAllWith(apply, d, ps[..|ps| - 1]);
      var x := apply(before, ps[|ps| - 1]);
      if x.None? then before else x.value
  }

  function PatchAll(d: Document, ps: seq<PatchDoc>): Document { PatchAllWith(ApplyPatch, d, ps) }

  /** No patch of the sequence fails where it is applied. */
  ghost predicate NoneFails(apply: Patcher, d: Document, ps: seq<PatchDoc>) {
    forall i :: 0 <= i < |ps| ==> apply(PatchAllWith(apply, d, ps[..i]), ps[i]).Some?
  }

  lemma {:induction false} FoldIsPatchAll(apply: Patcher, hit: Override -> bool, d: Document, ovs: seq<Override>)
    requires NoneFails(apply, d, Patches(Filter(hit, ovs)))
    ensures var hits := Filter(hit, ovs);
      FoldWith(apply, hit, d, ovs) == Outcome(PatchAllWith(apply, d, Patches(hits)), Ids(hits))
  {
    if ovs != [] {
      var front, last := ovs[..|ovs| - 1], ovs[|ovs| - 1];
      var before, hits := Filter(hit, front), Filter(hit, ovs);
      if hit(last) {
        NoneFailsBefore(apply, d, before, last);
        FoldIsPatchAll(apply, hit, d, front);
      } else {
        assert hits == before;
        FoldIsPatchAll(apply, hit, d, front);
      }
    }
  }

  lemma NoneFailsBefore(apply: Patcher, d: Document, before: seq<Override>, last: Override)
    requires NoneFails(apply, d, Patches(before + [last]))
    ensures NoneFails(apply, d, Patches(before))
    ensures var x := apply(PatchAllWith(apply, d, Patches(before)), PatchOf(last));
      x.Some? && PatchAllWith(apply, d, Patches(before + [last])) == x.value
    ensures Ids(before + [last]) == Ids(before) + [last.id]
  {
    var ps, qs := Patches(before), Patches(before + [last]);
    assert qs == ps + [PatchOf(last)];
    assert qs[..|ps|] == ps;
    forall i | 0 <= i < |ps| ensures apply(PatchAllWith(apply, d, ps[..i]), ps[i]).Some? {
      assert ps[..i] == qs[..i];
    }
  }

  predicate SiteMatches(p: Platform, d: Document, dc: string, h: Host) {
    && dc in Entries(d.dcLookupMap)
    && Entries(d.dcLookupMap)[dc].enabled
    && DCMatchesAny(p, [dc], h.dc)
    && SubnetsContainAny(p, Items(Entries(d.dcLookupMap)[dc].internalSubnets), h.ips)
  }

  function SiteChain(s: Site): seq<string> { [s.baseServer] + Items(s.backupServer) }

  /** A possible answer: some matching site with its chain, or no site and the default server when none matches. */
  ghost predicate ResolvesTo(p: Platform, d: Document, h: Host, site: Option<string>, chain: seq<string>) {
    if site.Some? then SiteMatches(p, d, site.value, h) && chain == SiteChain(Entries(d.dcLookupMap)[site.value])
    else (forall dc :: !SiteMatches(p, d, dc, h)) && chain == [d.defaultServer]
  }

  /** The first matching site in any iteration order of the map, or the default server. */
  method ResolveSite(p: Platform, d: Document, h: Host) returns (site: Option<string>, chain: seq<string>)
    ensures ResolvesTo(p, d, h, site, chain)
  {
    var sites := Entries(d.dcLookupMap);
    var todo := sites.Keys;
    while todo != {}
      invariant todo <= sites.Keys
      invariant forall dc :: dc in sites && dc !in todo ==> !SiteMatches(p, d, dc, h)
      decreases todo
    {
      var dc :| dc in todo;
      todo := todo - {dc};
      var near := SearchDC(p, [dc], h.dc);
      var inside := SearchSubnets(p, Items(sites[dc].internalSubnets), h.ips);
      if sites[dc].enabled && near && inside {
        return Some(dc), [sites[dc].baseServer] + Items(sites[dc].backupServer);
      }
    }
    return None, [d.defaultServer];
  }
}
