/**
  Validation of a decoded document, the dry run of its overrides, and Parse.
  Parsers the code takes from libraries are the fields of a Platform.
 */
module Validation {
  import opened Prelude
  import opened MergePatch
  import opened FixedSections
  import opened ConfigDocument
  import opened PatchDocument

  /**
    What the code asks of time, net, url, strconv, regexp, strings.EqualFold, SHA-256 and the
    encoder's output length.
   */
  datatype Platform = Platform(
    rfc3339: string -> Option<int>,
    equalFold: (string, string) -> bool,
    validCIDR: string -> bool,
    inSubnet: (string, string) -> bool,
    validServerURL: string -> bool,
    isDecimal: string -> bool,
    decimal: int -> string,
    semver: string -> bool,
    byteLength: Json -> nat,
    sha256: Json -> string)

  const MAX_DOCUMENT_BYTES := 0x10_0000

  /** The place a problem is reported at, as a sequence of keys. */
  type Path = seq<string>

  function Items<T>(o: Option<seq<T>>): seq<T> { if o.None? then [] else o.value }

  function Entries<T>(o: Option<map<string, T>>): map<string, T> { if o.None? then map[] else o.value }

  function PatchOf(ov: Override): PatchDoc { if ov.patch.None? then map[] else ov.patch.value }

  // ---------------------------------------------------------------------
  // What a valid document is
  // ---------------------------------------------------------------------

  predicate ValidTop(p: Platform, d: Document) {
    && d.schemaVersion == 1
    && d.revision >= 0
    && (d.generatedAt == "" || p.rfc3339(d.generatedAt).Some?)
  }

  predicate ValidServers(p: Platform, d: Document) {
    var servers := Entries(d.servers);
    && servers != map[]
    && (forall name :: name in servers ==> p.validServerURL(servers[name]))
    && d.defaultServer != ""
    && d.defaultServer in servers
  }

  predicate ValidBound(p: Platform, v: Option<string>) { v.None? || v.value == "" || p.semver(v.value) }

  predicate ValidRange(p: Platform, r: VersionRange) { ValidBound(p, r.min) && ValidBound(p, r.max) }

  predicate ValidVersion(p: Platform, key: string, v: IPCVersion) {
    p.isDecimal(key) && ValidRange(p, v.updater) && ValidRange(p, v.emly)
  }

  predicate ValidIPC(p: Platform, o: Option<IPCProtocol>) {
    o.Some? ==>
      var versions := Entries(o.value.versions);
      var default := p.decimal(o.value.defaultVersion);
      && (forall k :: k in versions ==> ValidVersion(p, k, versions[k]))
      && default in versions && versions[default].enabled
  }

  predicate ValidSite(p: Platform, servers: map<string, string>, s: Site) {
    && Items(s.internalSubnets) != []
    && (forall c :: c in Items(s.internalSubnets) ==> p.validCIDR(c))
    && s.baseServer != "" && s.baseServer in servers
    && (forall r :: r in Items(s.backupServer) ==> r in servers)
  }

  predicate ValidSites(p: Platform, d: Document) {
    forall dc :: dc in Entries(d.dcLookupMap) ==> ValidSite(p, Entries(d.servers), Entries(d.dcLookupMap)[dc])
  }

  predicate ValidUntil(p: Platform, until: Option<string>) {
    until.None? || until.value == "" || p.rfc3339(until.value).Some?
  }

  predicate ValidMode(mode: string) { mode in {"", "normal", "readonly", "maintenance"} }

  predicate ValidControl(p: Platform, c: Option<Control>) {
    c.Some? ==>
      && ValidUntil(p, c.value.updater.until)
      && ValidUntil(p, c.value.app.until)
      && ValidMode(c.value.app.mode)
  }

  predicate ValidUpdater(u: Option<UpdaterTuning>) {
    u.Some? ==>
      && (u.value.pollIntervalMinutes.Some? ==> u.value.pollIntervalMinutes.value >= 1)
      && (u.value.channelOverride.Some? ==> u.value.channelOverride.value in {"", "stable", "beta"})
      && (u.value.criticalWarning.Some? ==> u.value.criticalWarning.value.seconds >= 0)
      && (u.value.dcLookupRetry.Some? ==>
            u.value.dcLookupRetry.value.attempts >= 0 && u.value.dcLookupRetry.value.delaySeconds >= 0)
      && (u.value.resolver.Some? ==>
            u.value.resolver.value.attempts >= 1 && u.value.resolver.value.baseBackoffSeconds >= 0)
  }

  predicate ValidLogging(l: Option<Logging>) {
    l.Some? ==>
      && l.value.level in {"", "debug", "info", "warn", "error"}
      && (l.value.maxSizeMB == 0 || 1 <= l.value.maxSizeMB <= 100)
      && 0 <= l.value.backups <= 50
  }

  predicate HasList(sel: Selector) {
    Items(sel.hwids) != [] || Items(sel.hostnames) != [] || Items(sel.dcs) != []
    || Items(sel.domains) != [] || Items(sel.subnets) != []
  }

  predicate ValidSelector(p: Platform, sel: Selector, allowAll: bool) {
    && (forall c :: c in Items(sel.subnets) ==> p.validCIDR(c))
    && (if sel.all.Some? then allowAll && sel.all.value && !HasList(sel) else HasList(sel))
  }

  predicate ValidOverride(p: Platform, ov: Override) {
    && ov.id != ""
    && ValidSelector(p, ov.matches, true)
    && (ov.except.Some? ==> ValidSelector(p, ov.except.value, false))
    && ValidUntil(p, ov.until)
    && PatchOf(ov).Keys <= ALLOWED
  }

  predicate DistinctIds(ovs: seq<Override>) {
    forall i, j :: 0 <= i < j < |ovs| ==> ovs[i].id != ovs[j].id
  }

  predicate ValidOverrides(p: Platform, d: Document) {
    && (forall i :: 0 <= i < |Items(d.overrides)| ==> ValidOverride(p, Items(d.overrides)[i]))
    && DistinctIds(Items(d.overrides))
  }

  /** The three sections that are validated again after a patch. */
  predicate ValidPatchable(p: Platform, d: Document) {
    ValidControl(p, d.control) && ValidUpdater(d.updater) && ValidLogging(d.logging)
  }

  /** The patch, applied alone to the document, gives valid sections and a known default server. */
  predicate DryRunPasses(p: Platform, d: Document, patch: PatchDoc) {
    var x := ApplyPatch(d, patch);
    && x.Some?
    && (x.value.defaultServer != "" ==> x.value.defaultServer in Entries(d.servers))
    && ValidPatchable(p, x.value)
  }

  predicate ValidShape(p: Platform, d: Document) {
    && ValidTop(p, d) && ValidServers(p, d) && ValidIPC(p, d.ipcProtocol) && ValidSites(p, d)
    && ValidPatchable(p, d) && ValidOverrides(p, d)
  }

  predicate ValidDryRuns(p: Platform, d: Document) {
    forall i :: 0 <= i < |Items(d.overrides)| ==> DryRunPasses(p, d, PatchOf(Items(d.overrides)[i]))
  }

  predicate Accepted(p: Platform, d: Document) { ValidShape(p, d) && ValidDryRuns(p, d) }

  // ---------------------------------------------------------------------
  // The validators, as the code runs them
  // ---------------------------------------------------------------------

  function When(bad: bool, path: Path): seq<Path> { if bad then [path] else [] }

  function TopProblems(p: Platform, d: Document): (ps: seq<Path>)
    ensures ps == [] <==> ValidTop(p, d)
  {
    When(d.schemaVersion != 1, ["schemaVersion"])
    + When(d.revision < 0, ["revision"])
    + When(d.generatedAt != "" && p.rfc3339(d.generatedAt).None?, ["generatedAt"])
  }

  function UntilProblems(p: Platform, path: Path, until: Option<string>): (ps: seq<Path>)
    ensures ps == [] <==> ValidUntil(p, until)
  {
    When(until.Some? && until.value != "" && p.rfc3339(until.value).None?, path)
  }

  function ControlProblems(p: Platform, c: Option<Control>): (ps: seq<Path>)
    ensures ps == [] <==> ValidControl(p, c)
  {
    if c.None? then []
    else
      UntilProblems(p, ["control", "updater", "until"], c.value.updater.until)
      + UntilProblems(p, ["control", "app", "until"], c.value.app.until)
      + When(c.value.app.mode != "" && c.value.app.mode !in {"normal", "readonly", "maintenance"},
             ["control", "app", "mode"])
  }

  function UpdaterProblems(o: Option<UpdaterTuning>): (ps: seq<Path>)
    ensures ps == [] <==> ValidUpdater(o)
  {
    if o.None? then []
    else
      var u := o.value;
      When(u.pollIntervalMinutes.Some? && u.pollIntervalMinutes.value < 1, ["updater", "pollIntervalMinutes"])
      + When(u.channelOverride.Some? && u.channelOverride.value != "" && u.channelOverride.value !in {"stable", "beta"},
             ["updater", "channelOverride"])
      + When(u.criticalWarning.Some? && u.criticalWarning.value.seconds < 0, ["updater", "criticalWarning", "seconds"])
      + When(u.dcLookupRetry.Some? && u.dcLookupRetry.value.attempts < 0, ["updater", "dcLookupRetry", "attempts"])
      + When(u.dcLookupRetry.Some? && u.dcLookupRetry.value.delaySeconds < 0,
             ["updater", "dcLookupRetry", "delaySeconds"])
      + When(u.resolver.Some? && u.resolver.value.attempts < 1, ["updater", "resolver", "attempts"])
      + When(u.resolver.Some? && u.resolver.value.baseBackoffSeconds < 0, ["updater", "resolver", "baseBackoffSeconds"])
  }

  function LoggingProblems(o: Option<Logging>): (ps: seq<Path>)
    ensures ps == [] <==> ValidLogging(o)
  {
    if o.None? then []
    else
      var l := o.value;
      When(l.level != "" && l.level !in {"debug", "info", "warn", "error"}, ["logging", "level"])
      + When(l.maxSizeMB != 0 && (l.maxSizeMB < 1 || l.maxSizeMB > 100), ["logging", "maxSizeMB"])
      + When(l.backups < 0 || l.backups > 50, ["logging", "backups"])
  }

  method ServersProblems(p: Platform, d: Document) returns (ps: seq<Path>)
    ensures ps == [] <==> ValidServers(p, d)
  {
    var servers := Entries(d.servers);
    ps := When(|servers| == 0, ["servers"]);
    var todo := servers.Keys;
    while todo != {}
      invariant todo <= servers.Keys
      invariant ps == [] <==> servers != map[] && forall n :: n in servers && n !in todo ==>
        p.validServerURL(servers[n])
      decreases todo
    {
      var name :| name in todo;
      todo := todo - {name};
      ps := ps + When(!p.validServerURL(servers[name]), ["servers", name]);
    }
    ps := ps + When(d.defaultServer == "" || d.defaultServer !in servers, ["defaultServer"]);
  }

  function BoundProblems(p: Platform, path: Path, v: Option<string>): (ps: seq<Path>)
    ensures ps == [] <==> ValidBound(p, v)
  {
    if v.None? || v.value == "" then [] else When(!p.semver(v.value), path)
  }

  function RangeProblems(p: Platform, path: Path, r: VersionRange): (ps: seq<Path>)
    ensures ps == [] <==> ValidRange(p, r)
  {
    BoundProblems(p, path + ["min"], r.min) + BoundProblems(p, path + ["max"], r.max)
  }

  method IPCProblems(p: Platform, o: Option<IPCProtocol>) returns (ps: seq<Path>)
    ensures ps == [] <==> ValidIPC(p, o)
  {
    if o.None? {
      return [];
    }
    var versions := Entries(o.value.versions);
    ps := [];
    var todo := versions.Keys;
    while todo != {}
      invariant todo <= versions.Keys
      invariant ps == [] <==> forall k :: k in versions && k !in todo ==> ValidVersion(p, k, versions[k])
      decreases todo
    {
      var key :| key in todo;
      todo := todo - {key};
      var path := ["ipcProtocol", "versions", key];
      ps := ps + When(!p.isDecimal(key), path)
        + RangeProblems(p, path + ["updater"], versions[key].updater)
        + RangeProblems(p, path + ["emly"], versions[key].emly);
    }
    var default := p.decimal(o.value.defaultVersion);
    ps := ps + When(default !in versions || !versions[default].enabled, ["ipcProtocol", "defaultVersion"]);
  }

  method SiteProblems(p: Platform, dc: string, servers: map<string, string>, s: Site) returns (ps: seq<Path>)
    ensures ps == [] <==> ValidSite(p, servers, s)
  {
    var path := ["dcLookupMap", dc];
    var subnets, backups := Items(s.internalSubnets), Items(s.backupServer);
    ps := When(|subnets| == 0, path + ["internalSubnets"]);
    for i := 0 to |subnets|
      invariant ps == [] <==> subnets != [] && forall c :: c in subnets[..i] ==> p.validCIDR(c)
    {
      assert subnets[..i + 1] == subnets[..i] + [subnets[i]];
      ps := ps + When(!p.validCIDR(subnets[i]), path + ["internalSubnets"]);
    }
    assert subnets[..|subnets|] == subnets;
    ps := ps + When(s.baseServer == "" || s.baseServer !in servers, path + ["baseServer"]);
    ghost var before := ps;
    for i := 0 to |backups|
      invariant ps == [] <==> before == [] && forall r :: r in backups[..i] ==> r in servers
    {
      assert backups[..i + 1] == backups[..i] + [backups[i]];
      ps := ps + When(backups[i] !in servers, path + ["backupServer"]);
    }
    assert backups[..|backups|] == backups;
  }

  method SitesProblems(p: Platform, d: Document) returns (ps: seq<Path>)
    ensures ps == [] <==> ValidSites(p, d)
  {
    var sites := Entries(d.dcLookupMap);
    ps := [];
    var todo := sites.Keys;
    while todo != {}
      invariant todo <= sites.Keys
      invariant ps == [] <==> forall dc :: dc in sites && dc !in todo ==> ValidSite(p, Entries(d.servers), sites[dc])
      decreases todo
    {
      var dc :| dc in todo;
      todo := todo - {dc};
      var more := SiteProblems(p, dc, Entries(d.servers), sites[dc]);
      ps := ps + more;
    }
  }

  method SelectorProblems(p: Platform, path: Path, sel: Selector, allowAll: bool) returns (ps: seq<Path>)
    ensures ps == [] <==> ValidSelector(p, sel, allowAll)
  {
    var nonEmptyLists := 0;
    if |Items(sel.hwids)| > 0 { nonEmptyLists := nonEmptyLists + 1; }
    if |Items(sel.hostnames)| > 0 { nonEmptyLists := nonEmptyLists + 1; }
    if |Items(sel.dcs)| > 0 { nonEmptyLists := nonEmptyLists + 1; }
    if |Items(sel.domains)| > 0 { nonEmptyLists := nonEmptyLists + 1; }
    if |Items(sel.subnets)| > 0 { nonEmptyLists := nonEmptyLists + 1; }
    assert HasList(sel) <==> nonEmptyLists > 0;
    var subnets := Items(sel.subnets);
    ps := [];
    for i := 0 to |subnets|
      invariant ps == [] <==> forall c :: c in subnets[..i] ==> p.validCIDR(c)
    {
      assert subnets[..i + 1] == subnets[..i] + [subnets[i]];
      ps := ps + When(!p.validCIDR(subnets[i]), path + ["subnets"]);
    }
    assert subnets[..|subnets|] == subnets;
    if sel.all.Some? {
      if !allowAll {
        return ps + [path + ["all"]];
      }
      return ps + When(!sel.all.value, path + ["all"]) + When(nonEmptyLists > 0, path);
    }
    ps := ps + When(nonEmptyLists == 0, path);
  }

  /** The patch keys outside the allowed set, one problem each, in any order. */
  method PatchKeyProblems(path: Path, patch: PatchDoc) returns (ps: seq<Path>)
    ensures ps == [] <==> patch.Keys <= ALLOWED
  {
    ps := [];
    var todo := patch.Keys;
    while todo != {}
      invariant todo <= patch.Keys
      invariant ps == [] <==> forall k :: k in patch && k !in todo ==> k in ALLOWED
      decreases todo
    {
      var key :| key in todo;
      todo := todo - {key};
      ps := ps + When(key !in ALLOWED, path + ["patch", key]);
    }
  }

  /** One override's shape, its id aside. */
  method OverrideProblems(p: Platform, ov: Override) returns (ps: seq<Path>)
    ensures ps == [] && ov.id != "" <==> ValidOverride(p, ov)
  {
    var path := ["overrides"];
    ps := SelectorProblems(p, path + ["match"], ov.matches, true);
    if ov.except.Some? {
      var more := SelectorProblems(p, path + ["except"], ov.except.value, false);
      ps := ps + more;
    }
    var keys := PatchKeyProblems(path, PatchOf(ov));
    ps := ps + UntilProblems(p, path + ["until"], ov.until) + keys;
  }

  /** The first n overrides are valid and have distinct ids. */
  ghost predicate ShapeUpTo(p: Platform, ovs: seq<Override>, n: nat)
    requires n <= |ovs|
  {
    n == 0 || (ShapeUpTo(p, ovs, n - 1) && ValidOverride(p, ovs[n - 1]) && !Listed(ovs, n - 1, ovs[n - 1].id))
  }

  predicate Listed(ovs: seq<Override>, n: nat, id: string)
    requires n <= |ovs|
  {
    exists j :: 0 <= j < n && ovs[j].id == id
  }

  lemma {:induction false} ShapeUpToIff(p: Platform, ovs: seq<Override>, n: nat)
    requires n <= |ovs|
    ensures ShapeUpTo(p, ovs, n) <==>
            && (forall j :: 0 <= j < n ==> ValidOverride(p, ovs[j]))
            && (forall i, j :: 0 <= i < j < n ==> ovs[i].id != ovs[j].id)
  {
    if n > 0 { ShapeUpToIff(p, ovs, n - 1); }
  }

  method OverridesShapeProblems(p: Platform, d: Document) returns (ps: seq<Path>)
    ensures ps == [] <==> ValidOverrides(p, d)
  {
    var ovs := Items(d.overrides);
    var seen: set<string> := {};
    ps := [];
    for i := 0 to |ovs|
      invariant ps == [] <==> ShapeUpTo(p, ovs, i)
      invariant forall s :: s in seen <==> s != "" && Listed(ovs, i, s)
    {
      var id := ovs[i].id;
      var more := OverrideProblems(p, ovs[i]);
      ps := ps + When(id == "" || id in seen, ["overrides", "id"]) + more;
      if id != "" && id !in seen {
        seen := seen + {id};
      }
    }
    ShapeUpToIff(p, ovs, |ovs|);
  }

  method DryRunOneProblems(p: Platform, d: Document, patch: PatchDoc) returns (ps: seq<Path>)
    ensures ps == [] <==> DryRunPasses(p, d, patch)
  {
    var path := ["overrides", "patch"];
    var patched := ApplyPatchToDocument(d, patch);
    if patched.None? {
      return [path];
    }
    var x := patched.value;
    ps := When(x.defaultServer != "" && x.defaultServer !in Entries(d.servers), path + ["defaultServer"])
      + ControlProblems(p, x.control) + UpdaterProblems(x.updater) + LoggingProblems(x.logging);
  }

  /** The first n overrides pass. */
  ghost predicate PassUpTo(passes: PatchDoc -> bool, ovs: seq<Override>, n: nat)
    requires n <= |ovs|
  {
    n == 0 || (PassUpTo(passes, ovs, n - 1) && passes(PatchOf(ovs[n - 1])))
  }

  lemma {:induction false} PassUpToIff(passes: PatchDoc -> bool, ovs: seq<Override>, n: nat)
    requires n <= |ovs|
    ensures PassUpTo(passes, ovs, n) <==> forall j :: 0 <= j < n ==> passes(PatchOf(ovs[j]))
  {
    if n > 0 { PassUpToIff(passes, ovs, n - 1); }
  }

  method DryRunProblems(p: Platform, d: Document) returns (ps: seq<Path>)
    ensures ps == [] <==> ValidDryRuns(p, d)
  {
    var ovs := Items(d.overrides);
    ghost var passes := patch => DryRunPasses(p, d, patch);
    ps := [];
    for i := 0 to |ovs|
      invariant ps == [] <==> PassUpTo(passes, ovs, i)
    {
      var more := DryRunOneProblems(p, d, PatchOf(ovs[i]));
      ps := ps + more;
    }
    PassUpToIff(passes, ovs, |ovs|);
  }

  /** No problem is reported exactly for the trees within the cap that decode to an accepted document. */
  method Parse(p: Platform, data: Json) returns (doc: Option<Document>, problems: seq<Path>)
    ensures problems == [] <==>
            p.byteLength(data) <= MAX_DOCUMENT_BYTES && Decode(data).Some? && Accepted(p, Decode(data).value)
    ensures problems == [] ==> doc == Decode(data)
  {
    if p.byteLength(data) > MAX_DOCUMENT_BYTES {
      return None, [[]];
    }
    doc := Decode(data);
    if doc.None? {
      return None, [[]];
    }
    var d := doc.value;
    var servers := ServersProblems(p, d);
    var ipc := IPCProblems(p, d.ipcProtocol);
    var sites := SitesProblems(p, d);
    var shape := OverridesShapeProblems(p, d);
    problems := TopProblems(p, d) + servers + ipc + sites
      + ControlProblems(p, d.control) + UpdaterProblems(d.updater) + LoggingProblems(d.logging) + shape;
    assert problems == [] <==> ValidShape(p, d);
    if problems == [] {
      problems := DryRunProblems(p, d);
    }
  }
}
