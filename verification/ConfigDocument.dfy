/**
  The remote-config document, the JSON it is written as and how JSON is read
  back into it. A Go pointer, slice or map that may be nil is an Option.
 */
module ConfigDocument {
  import opened Prelude
  import opened MergePatch
  import opened Schema
  import opened JsonCodec
  import opened FixedSections

  datatype Site = Site(internalSubnets: Option<seq<string>>, baseServer: string, backupServer: Option<seq<string>>,
                       enabled: bool)

  datatype ControlGate = ControlGate(enabled: bool, reason: Option<string>, until: Option<string>)
  datatype AppGate = AppGate(enabled: bool, mode: string, reason: Option<string>, until: Option<string>)
  datatype Control = Control(updater: ControlGate, app: AppGate)

  datatype CriticalWarning = CriticalWarning(enabled: bool, seconds: int)
  datatype LookupRetry = LookupRetry(attempts: int, delaySeconds: int)
  datatype ResolverTuning = ResolverTuning(attempts: int, baseBackoffSeconds: int)
  datatype Toggle = Toggle(enabled: bool)
  datatype UpdaterTuning = UpdaterTuning(
    pollIntervalMinutes: Option<int>, channelOverride: Option<string>,
    criticalWarning: Option<CriticalWarning>, dcLookupRetry: Option<LookupRetry>,
    resolver: Option<ResolverTuning>, selfUpdate: Option<Toggle>, installCertificate: Option<Toggle>)

  datatype Logging = Logging(level: string, maxSizeMB: int, backups: int, compress: bool, eventLog: bool)

  datatype Selector = Selector(
    all: Option<bool>, hwids: Option<seq<string>>, hostnames: Option<seq<string>>,
    dcs: Option<seq<string>>, subnets: Option<seq<string>>, domains: Option<seq<string>>)

  type PatchDoc = map<string, Json>

  datatype Override = Override(
    id: string, matches: Selector, except: Option<Selector>, until: Option<string>, patch: Option<PatchDoc>)

  datatype Document = Document(
    schemaVersion: int, revision: int, generatedAt: string, refresh: Option<Refresh>,
    servers: Option<map<string, string>>, defaultServer: string, ipcProtocol: Option<IPCProtocol>,
    dcLookupMap: Option<map<string, Site>>, hostIntegrity: Option<HostIntegrity>,
    control: Option<Control>, updater: Option<UpdaterTuning>, logging: Option<Logging>,
    clientWs: Option<Toggle>, overrides: Option<seq<Override>>)

  // ---------------------------------------------------------------------
  // Schemas
  // ---------------------------------------------------------------------

  const TOGGLE := TStruct(map["enabled" := TBool])
  const SITE := TStruct(map["internalSubnets" := STRINGS, "baseServer" := TStr, "backupServer" := STRINGS,
                            "enabled" := TBool])
  const GATE := TStruct(map["enabled" := TBool, "reason" := TStr, "until" := TStr])
  const APPGATE := TStruct(map["enabled" := TBool, "mode" := TStr, "reason" := TStr, "until" := TStr])
  const CONTROL := TStruct(map["updater" := GATE, "app" := APPGATE])
  const WARNING := TStruct(map["enabled" := TBool, "seconds" := TInt])
  const RETRY := TStruct(map["attempts" := TInt, "delaySeconds" := TInt])
  const RESOLVER := TStruct(map["attempts" := TInt, "baseBackoffSeconds" := TInt])
  const UPDATER := TStruct(map[
    "pollIntervalMinutes" := TInt, "channelOverride" := TStr, "criticalWarning" := WARNING,
    "dcLookupRetry" := RETRY, "resolver" := RESOLVER, "selfUpdate" := TOGGLE, "installCertificate" := TOGGLE])
  const LOGGING := TStruct(map["level" := TStr, "maxSizeMB" := TInt, "backups" := TInt, "compress" := TBool,
                               "eventLog" := TBool])
  const SELECTOR := TStruct(map[
    "all" := TBool, "hwids" := STRINGS, "hostnames" := STRINGS,
    "dcs" := STRINGS, "subnets" := STRINGS, "domains" := STRINGS])
  const OVERRIDE := TStruct(map["id" := TStr, "match" := SELECTOR, "except" := SELECTOR, "until" := TStr,
                                "patch" := TMap(TAny)])
  // ---------------------------------------------------------------------
  // Writing
  // ---------------------------------------------------------------------

  function WriteToggle(t: Toggle): Json { Obj(map["enabled" := Bool(t.enabled)]) }

  function WriteSite(s: Site): Json {
    Obj(map["internalSubnets" := WriteList(WriteStr, s.internalSubnets), "baseServer" := Str(s.baseServer),
            "backupServer" := WriteList(WriteStr, s.backupServer), "enabled" := Bool(s.enabled)])
  }

  function WriteGate(g: ControlGate): Json {
    Obj(map["enabled" := Bool(g.enabled), "reason" := WritePtr(WriteStr, g.reason),
            "until" := WritePtr(WriteStr, g.until)])
  }

  function WriteAppGate(g: AppGate): Json {
    Obj(map["enabled" := Bool(g.enabled), "mode" := Str(g.mode),
            "reason" := WritePtr(WriteStr, g.reason), "until" := WritePtr(WriteStr, g.until)])
  }

  function WriteControl(c: Control): Json {
    Obj(map["updater" := WriteGate(c.updater), "app" := WriteAppGate(c.app)])
  }

  function WriteWarning(w: CriticalWarning): Json {
    Obj(map["enabled" := Bool(w.enabled), "seconds" := Num(w.seconds)])
  }

  function WriteRetry(r: LookupRetry): Json {
    Obj(map["attempts" := Num(r.attempts), "delaySeconds" := Num(r.delaySeconds)])
  }

  function WriteResolver(r: ResolverTuning): Json {
    Obj(map["attempts" := Num(r.attempts), "baseBackoffSeconds" := Num(r.baseBackoffSeconds)])
  }

  function UpdaterTree(poll: Json, channel: Json, warning: Json, retry: Json, resolver: Json, self: Json,
                       cert: Json): Json {
    Obj(map["pollIntervalMinutes" := poll, "channelOverride" := channel, "criticalWarning" := warning,
            "dcLookupRetry" := retry, "resolver" := resolver, "selfUpdate" := self, "installCertificate" := cert])
  }

  function WriteUpdater(u: UpdaterTuning): Json {
    UpdaterTree(WritePtr(WriteInt, u.pollIntervalMinutes), WritePtr(WriteStr, u.channelOverride),
                WritePtr(WriteWarning, u.criticalWarning), WritePtr(WriteRetry, u.dcLookupRetry),
                WritePtr(WriteResolver, u.resolver), WritePtr(WriteToggle, u.selfUpdate),
                WritePtr(WriteToggle, u.installCertificate))
  }

  function WriteLogging(l: Logging): Json {
    Obj(map["level" := Str(l.level), "maxSizeMB" := Num(l.maxSizeMB), "backups" := Num(l.backups),
            "compress" := Bool(l.compress), "eventLog" := Bool(l.eventLog)])
  }

  function SelectorTree(all: Json, hwids: Json, hostnames: Json, dcs: Json, subnets: Json, domains: Json): Json {
    Obj(map["all" := all, "hwids" := hwids, "hostnames" := hostnames, "dcs" := dcs, "subnets" := subnets,
            "domains" := domains])
  }

  function WriteSelector(s: Selector): Json {
    SelectorTree(WritePtr(WriteBool, s.all), WriteList(WriteStr, s.hwids), WriteList(WriteStr, s.hostnames),
                 WriteList(WriteStr, s.dcs), WriteList(WriteStr, s.subnets), WriteList(WriteStr, s.domains))
  }

  function OverrideTree(id: Json, matches: Json, except: Json, until: Json, patch: Json): Json {
    Obj(map["id" := id, "match" := matches, "except" := except, "until" := until, "patch" := patch])
  }

  function WriteOverride(o: Override): Json {
    OverrideTree(Str(o.id), WriteSelector(o.matches), WritePtr(WriteSelector, o.except), WritePtr(WriteStr, o.until),
                 if o.patch.None? then Null else Obj(o.patch.value))
  }

  /** The trees under the document's top-level keys; an absent key is null here. */
  datatype Sections = Sections(
    schemaVersion: Json, revision: Json, generatedAt: Json, refresh: Json, servers: Json, defaultServer: Json,
    ipcProtocol: Json, dcLookupMap: Json, hostIntegrity: Json, control: Json, updater: Json, logging: Json,
    clientWs: Json, overrides: Json)

  /** The object with these sections. Only clientWs is omitted when unset. */
  function ToObject(s: Sections): Json {
    var always := map[
      "schemaVersion" := s.schemaVersion, "revision" := s.revision, "generatedAt" := s.generatedAt,
      "refresh" := s.refresh, "servers" := s.servers, "defaultServer" := s.defaultServer,
      "ipcProtocol" := s.ipcProtocol, "dcLookupMap" := s.dcLookupMap, "hostIntegrity" := s.hostIntegrity,
      "control" := s.control, "updater" := s.updater, "logging" := s.logging, "overrides" := s.overrides];
    Obj(if s.clientWs.Null? then always else always["clientWs" := s.clientWs])
  }

  function WriteSections(d: Document): Sections {
    Sections(
      Num(d.schemaVersion), Num(d.revision), Str(d.generatedAt), WritePtr(WriteRefresh, d.refresh),
      WriteMap(WriteStr, d.servers), Str(d.defaultServer), WritePtr(WriteIPC, d.ipcProtocol),
      WriteMap(WriteSite, d.dcLookupMap), WritePtr(WriteIntegrity, d.hostIntegrity),
      WritePtr(WriteControl, d.control), WritePtr(WriteUpdater, d.updater), WritePtr(WriteLogging, d.logging),
      WritePtr(WriteToggle, d.clientWs), WriteList(WriteOverride, d.overrides))
  }

  /** json.Marshal of a document. */
  function Write(d: Document): Json { ToObject(WriteSections(d)) }

  // ---------------------------------------------------------------------
  // Reading: null and absent keys leave the zero value
  // ---------------------------------------------------------------------

  function ReadToggle(j: Json): Toggle { Toggle(ReadBool(Field(j, "enabled"))) }

  function ReadSite(j: Json): Site {
    Site(ReadList(ReadStr, Field(j, "internalSubnets")), ReadStr(Field(j, "baseServer")),
         ReadList(ReadStr, Field(j, "backupServer")), ReadBool(Field(j, "enabled")))
  }

  function ReadGate(j: Json): ControlGate {
    ControlGate(ReadBool(Field(j, "enabled")), ReadPtr(ReadStr, Field(j, "reason")),
                ReadPtr(ReadStr, Field(j, "until")))
  }

  function ReadAppGate(j: Json): AppGate {
    AppGate(ReadBool(Field(j, "enabled")), ReadStr(Field(j, "mode")),
            ReadPtr(ReadStr, Field(j, "reason")), ReadPtr(ReadStr, Field(j, "until")))
  }

  function ReadControl(j: Json): Control {
    Control(ReadGate(Field(j, "updater")), ReadAppGate(Field(j, "app")))
  }

  function ReadWarning(j: Json): CriticalWarning {
    CriticalWarning(ReadBool(Field(j, "enabled")), ReadInt(Field(j, "seconds")))
  }

  function ReadRetry(j: Json): LookupRetry {
    LookupRetry(ReadInt(Field(j, "attempts")), ReadInt(Field(j, "delaySeconds")))
  }

  function ReadResolver(j: Json): ResolverTuning {
    ResolverTuning(ReadInt(Field(j, "attempts")), ReadInt(Field(j, "baseBackoffSeconds")))
  }

  function ReadUpdater(j: Json): UpdaterTuning {
    UpdaterTuning(
      ReadPtr(ReadInt, Field(j, "pollIntervalMinutes")), ReadPtr(ReadStr, Field(j, "channelOverride")),
      ReadPtr(ReadWarning, Field(j, "criticalWarning")), ReadPtr(ReadRetry, Field(j, "dcLookupRetry")),
      ReadPtr(ReadResolver, Field(j, "resolver")), ReadPtr(ReadToggle, Field(j, "selfUpdate")),
      ReadPtr(ReadToggle, Field(j, "installCertificate")))
  }

  function ReadLogging(j: Json): Logging {
    Logging(ReadStr(Field(j, "level")), ReadInt(Field(j, "maxSizeMB")), ReadInt(Field(j, "backups")),
            ReadBool(Field(j, "compress")), ReadBool(Field(j, "eventLog")))
  }

  function ReadSelector(j: Json): Selector {
    Selector(
      ReadPtr(ReadBool, Field(j, "all")), ReadList(ReadStr, Field(j, "hwids")),
      ReadList(ReadStr, Field(j, "hostnames")), ReadList(ReadStr, Field(j, "dcs")),
      ReadList(ReadStr, Field(j, "subnets")), ReadList(ReadStr, Field(j, "domains")))
  }

  function ReadOverride(j: Json): Override {
    Override(
      ReadStr(Field(j, "id")), ReadSelector(Field(j, "match")), ReadPtr(ReadSelector, Field(j, "except")),
      ReadPtr(ReadStr, Field(j, "until")), if Field(j, "patch").Obj? then Some(Field(j, "patch").fields) else None)
  }

  function ToSections(j: Json): Sections {
    Sections(
      Field(j, "schemaVersion"),
      Field(j, "revision"),
      Field(j, "generatedAt"),
      Field(j, "refresh"),
      Field(j, "servers"),
      Field(j, "defaultServer"),
      Field(j, "ipcProtocol"),
      Field(j, "dcLookupMap"),
      Field(j, "hostIntegrity"),
      Field(j, "control"),
      Field(j, "updater"),
      Field(j, "logging"),
      Field(j, "clientWs"),
      Field(j, "overrides"))
  }

  function ReadSections(s: Sections): Document {
    Document(
      ReadInt(s.schemaVersion), ReadInt(s.revision), ReadStr(s.generatedAt), ReadPtr(ReadRefresh, s.refresh),
      ReadMap(ReadStr, s.servers), ReadStr(s.defaultServer), ReadPtr(ReadIPC, s.ipcProtocol),
      ReadMap(ReadSite, s.dcLookupMap), ReadPtr(ReadIntegrity, s.hostIntegrity),
      ReadPtr(ReadControl, s.control), ReadPtr(ReadUpdater, s.updater), ReadPtr(ReadLogging, s.logging),
      ReadPtr(ReadToggle, s.clientWs), ReadList(ReadOverride, s.overrides))
  }

  /** Every section has the type of its field. */
  predicate SectionsConform(s: Sections) {
    && Conforms(TInt, s.schemaVersion) && Conforms(TInt, s.revision) && Conforms(TStr, s.generatedAt)
    && Conforms(TMap(TStr), s.servers) && Conforms(TStr, s.defaultServer) && Conforms(TMap(SITE), s.dcLookupMap)
    && Conforms(REFRESH, s.refresh) && Conforms(IPC, s.ipcProtocol) && Conforms(INTEGRITY, s.hostIntegrity)
    && Conforms(CONTROL, s.control) && Conforms(UPDATER, s.updater) && Conforms(LOGGING, s.logging)
    && Conforms(TOGGLE, s.clientWs) && Conforms(TList(OVERRIDE), s.overrides)
  }

  /** json.Unmarshal into a fresh document: a type error anywhere rejects the whole tree. */
  function Decode(j: Json): Option<Document> {
    if (j.Null? || j.Obj?) && SectionsConform(ToSections(j)) then Some(ReadSections(ToSections(j))) else None
  }

  // ---------------------------------------------------------------------
  // Round trip
  // ---------------------------------------------------------------------

  lemma GateRoundTrip(g: ControlGate)
    ensures Conforms(GATE, WriteGate(g)) && ReadGate(WriteGate(g)) == g
  {
    StringRoundTrip(g.reason);
    StringRoundTrip(g.until);
  }

  lemma AppGateRoundTrip(g: AppGate)
    ensures Conforms(APPGATE, WriteAppGate(g)) && ReadAppGate(WriteAppGate(g)) == g
  {
    StringRoundTrip(g.reason);
    StringRoundTrip(g.until);
  }

  lemma ControlRoundTrip(c: Control)
    ensures Conforms(CONTROL, WriteControl(c)) && ReadControl(WriteControl(c)) == c
  {
    GateRoundTrip(c.updater);
    AppGateRoundTrip(c.app);
  }

  lemma LoggingConforms(l: Logging)
    ensures Conforms(LOGGING, WriteLogging(l))
  {}

  lemma LoggingReadBack(l: Logging)
    ensures ReadLogging(WriteLogging(l)) == l
  {}

  /** The updater section, with the schemas of its parts left open. */
  lemma UpdaterTreeConforms(poll: Json, channel: Json, warning: Json, retry: Json, resolver: Json, self: Json,
                            cert: Json, w: Schema, y: Schema, r: Schema, t: Schema)
    requires Conforms(TInt, poll) && Conforms(TStr, channel) && Conforms(w, warning) && Conforms(y, retry)
    requires Conforms(r, resolver) && Conforms(t, self) && Conforms(t, cert)
    ensures Conforms(
      TStruct(map["pollIntervalMinutes" := TInt, "channelOverride" := TStr, "criticalWarning" := w,
                  "dcLookupRetry" := y, "resolver" := r, "selfUpdate" := t, "installCertificate" := t]),
      UpdaterTree(poll, channel, warning, retry, resolver, self, cert))
  {}

  lemma UpdaterTreeRead(poll: Json, channel: Json, warning: Json, retry: Json, resolver: Json, self: Json, cert: Json)
    ensures ReadUpdater(UpdaterTree(poll, channel, warning, retry, resolver, self, cert))
      == UpdaterTuning(ReadPtr(ReadInt, poll), ReadPtr(ReadStr, channel), ReadPtr(ReadWarning, warning),
                       ReadPtr(ReadRetry, retry), ReadPtr(ReadResolver, resolver), ReadPtr(ReadToggle, self),
                       ReadPtr(ReadToggle, cert))
  {}

  lemma ToggleRoundTrip(o: Option<Toggle>)
    ensures Conforms(TOGGLE, WritePtr(WriteToggle, o)) && ReadPtr(ReadToggle, WritePtr(WriteToggle, o)) == o
  {}

  lemma IntRoundTrip(o: Option<int>)
    ensures Conforms(TInt, WritePtr(WriteInt, o)) && ReadPtr(ReadInt, WritePtr(WriteInt, o)) == o
  {}

  lemma WarningRoundTrip(o: Option<CriticalWarning>)
    ensures Conforms(WARNING, WritePtr(WriteWarning, o)) && ReadPtr(ReadWarning, WritePtr(WriteWarning, o)) == o
  {}

  lemma RetryRoundTrip(o: Option<LookupRetry>)
    ensures Conforms(RETRY, WritePtr(WriteRetry, o)) && ReadPtr(ReadRetry, WritePtr(WriteRetry, o)) == o
  {}

  lemma ResolverRoundTrip(o: Option<ResolverTuning>)
    ensures Conforms(RESOLVER, WritePtr(WriteResolver, o)) && ReadPtr(ReadResolver, WritePtr(WriteResolver, o)) == o
  {}

  lemma UpdaterRoundTrip(u: UpdaterTuning)
    ensures Conforms(UPDATER, WriteUpdater(u)) && ReadUpdater(WriteUpdater(u)) == u
  {
    IntRoundTrip(u.pollIntervalMinutes);
    WarningRoundTrip(u.criticalWarning);
    RetryRoundTrip(u.dcLookupRetry);
    ResolverRoundTrip(u.resolver);
    StringRoundTrip(u.channelOverride);
    ToggleRoundTrip(u.selfUpdate);
    ToggleRoundTrip(u.installCertificate);
    var p, c := WritePtr(WriteInt, u.pollIntervalMinutes), WritePtr(WriteStr, u.channelOverride);
    var w, y := WritePtr(WriteWarning, u.criticalWarning), WritePtr(WriteRetry, u.dcLookupRetry);
    var r, s := WritePtr(WriteResolver, u.resolver), WritePtr(WriteToggle, u.selfUpdate);
    var i := WritePtr(WriteToggle, u.installCertificate);
    UpdaterTreeConforms(p, c, w, y, r, s, i, WARNING, RETRY, RESOLVER, TOGGLE);
    UpdaterTreeRead(p, c, w, y, r, s, i);
  }

  lemma SiteRoundTrip(s: Site)
    ensures Conforms(SITE, WriteSite(s)) && ReadSite(WriteSite(s)) == s
  {
    StringsRoundTrip(s.internalSubnets);
    StringsRoundTrip(s.backupServer);
  }

  lemma SelectorTreeConforms(all: Json, hwids: Json, hostnames: Json, dcs: Json, subnets: Json, domains: Json)
    requires Conforms(TBool, all) && Conforms(STRINGS, hwids) && Conforms(STRINGS, hostnames)
    requires Conforms(STRINGS, dcs) && Conforms(STRINGS, subnets) && Conforms(STRINGS, domains)
    ensures Conforms(SELECTOR, SelectorTree(all, hwids, hostnames, dcs, subnets, domains))
  {}

  lemma SelectorTreeRead(all: Json, hwids: Json, hostnames: Json, dcs: Json, subnets: Json, domains: Json)
    ensures ReadSelector(SelectorTree(all, hwids, hostnames, dcs, subnets, domains))
      == Selector(ReadPtr(ReadBool, all), ReadList(ReadStr, hwids), ReadList(ReadStr, hostnames),
                  ReadList(ReadStr, dcs), ReadList(ReadStr, subnets), ReadList(ReadStr, domains))
  {}

  lemma SelectorConforms(s: Selector)
    ensures Conforms(SELECTOR, WriteSelector(s))
  {
    StringsRoundTrip(s.hwids);
    StringsRoundTrip(s.hostnames);
    StringsRoundTrip(s.dcs);
    StringsRoundTrip(s.subnets);
    StringsRoundTrip(s.domains);
    SelectorTreeConforms(
      WritePtr(WriteBool, s.all), WriteList(WriteStr, s.hwids), WriteList(WriteStr, s.hostnames),
      WriteList(WriteStr, s.dcs), WriteList(WriteStr, s.subnets), WriteList(WriteStr, s.domains));
  }

  lemma SelectorReadBack(s: Selector)
    ensures ReadSelector(WriteSelector(s)) == s
  {
    StringsRoundTrip(s.hwids);
    StringsRoundTrip(s.hostnames);
    StringsRoundTrip(s.dcs);
    StringsRoundTrip(s.subnets);
    StringsRoundTrip(s.domains);
    SelectorTreeRead(
      WritePtr(WriteBool, s.all), WriteList(WriteStr, s.hwids), WriteList(WriteStr, s.hostnames),
      WriteList(WriteStr, s.dcs), WriteList(WriteStr, s.subnets), WriteList(WriteStr, s.domains));
  }

  lemma SelectorRoundTrip(s: Selector)
    ensures Conforms(SELECTOR, WriteSelector(s)) && ReadSelector(WriteSelector(s)) == s
  {
    SelectorConforms(s);
    SelectorReadBack(s);
  }

  lemma OverrideTreeConforms(id: Json, matches: Json, except: Json, until: Json, patch: Json, sel: Schema)
    requires Conforms(TStr, id) && Conforms(sel, matches) && Conforms(sel, except)
    requires Conforms(TStr, until) && Conforms(TMap(TAny), patch)
    ensures Conforms(
      TStruct(map["id" := TStr, "match" := sel, "except" := sel, "until" := TStr, "patch" := TMap(TAny)]),
      OverrideTree(id, matches, except, until, patch))
  {}

  lemma OverrideTreeRead(id: Json, matches: Json, except: Json, until: Json, patch: Json)
    ensures ReadOverride(OverrideTree(id, matches, except, until, patch))
      == Override(ReadStr(id), ReadSelector(matches), ReadPtr(ReadSelector, except), ReadPtr(ReadStr, until),
                  if patch.Obj? then Some(patch.fields) else None)
  {}

  lemma OverrideRoundTrip(o: Override)
    ensures Conforms(OVERRIDE, WriteOverride(o)) && ReadOverride(WriteOverride(o)) == o
  {
    SelectorRoundTrip(o.matches);
    if o.except.Some? { SelectorRoundTrip(o.except.value); }
    PtrRoundTrip(SELECTOR, WriteSelector, ReadSelector, o.except);
    StringRoundTrip(o.until);
    var m, e, u := WriteSelector(o.matches), WritePtr(WriteSelector, o.except), WritePtr(WriteStr, o.until);
    var p := if o.patch.None? then Null else Obj(o.patch.value);
    OverrideTreeConforms(Str(o.id), m, e, u, p, SELECTOR);
    OverrideTreeRead(Str(o.id), m, e, u, p);
  }

  lemma SectionsBack1(s: Sections)
    ensures var j := ToObject(s);
      && Field(j, "schemaVersion") == s.schemaVersion
      && Field(j, "revision") == s.revision
      && Field(j, "generatedAt") == s.generatedAt
      && Field(j, "refresh") == s.refresh
      && Field(j, "servers") == s.servers
  {}

  lemma SectionsBack2(s: Sections)
    ensures var j := ToObject(s);
      && Field(j, "defaultServer") == s.defaultServer
      && Field(j, "ipcProtocol") == s.ipcProtocol
      && Field(j, "dcLookupMap") == s.dcLookupMap
      && Field(j, "hostIntegrity") == s.hostIntegrity
      && Field(j, "control") == s.control
  {}

  lemma SectionsBack3(s: Sections)
    ensures var j := ToObject(s);
      && Field(j, "updater") == s.updater
      && Field(j, "logging") == s.logging
      && Field(j, "clientWs") == s.clientWs
      && Field(j, "overrides") == s.overrides
  {}

  lemma SectionsBack(s: Sections)
    ensures ToSections(ToObject(s)) == s
  {
    SectionsBack1(s);
    SectionsBack2(s);
    SectionsBack3(s);
  }

  lemma MapsRoundTrip(d: Document)
    ensures Conforms(TMap(TStr), WriteMap(WriteStr, d.servers))
      && ReadMap(ReadStr, WriteMap(WriteStr, d.servers)) == d.servers
    ensures Conforms(TMap(SITE), WriteMap(WriteSite, d.dcLookupMap))
    ensures ReadMap(ReadSite, WriteMap(WriteSite, d.dcLookupMap)) == d.dcLookupMap
  {
    forall x ensures RoundTrip(TStr, WriteStr, ReadStr, x) {}
    MapRoundTrip(TStr, WriteStr, ReadStr, d.servers);
    forall x ensures RoundTrip(SITE, WriteSite, ReadSite, x) { SiteRoundTrip(x); }
    MapRoundTrip(SITE, WriteSite, ReadSite, d.dcLookupMap);
  }

  lemma OverridesRoundTrip(d: Document)
    ensures Conforms(TList(OVERRIDE), WriteList(WriteOverride, d.overrides))
    ensures ReadList(ReadOverride, WriteList(WriteOverride, d.overrides)) == d.overrides
  {
    forall x ensures RoundTrip(OVERRIDE, WriteOverride, ReadOverride, x) { OverrideRoundTrip(x); }
    ListRoundTrip(OVERRIDE, WriteOverride, ReadOverride, d.overrides);
  }

  lemma ControlBack(o: Option<Control>)
    ensures Conforms(CONTROL, WritePtr(WriteControl, o)) && ReadPtr(ReadControl, WritePtr(WriteControl, o)) == o
  {
    if o.Some? { ControlRoundTrip(o.value); }
  }

  lemma UpdaterBack(o: Option<UpdaterTuning>)
    ensures Conforms(UPDATER, WritePtr(WriteUpdater, o)) && ReadPtr(ReadUpdater, WritePtr(WriteUpdater, o)) == o
  {
    if o.Some? { UpdaterRoundTrip(o.value); }
  }

  lemma LoggingBack(o: Option<Logging>)
    ensures Conforms(LOGGING, WritePtr(WriteLogging, o)) && ReadPtr(ReadLogging, WritePtr(WriteLogging, o)) == o
  {
    if o.Some? {
      LoggingConforms(o.value);
      LoggingReadBack(o.value);
    }
  }

  lemma SectionsRoundTrip(d: Document)
    ensures SectionsConform(WriteSections(d)) && ReadSections(WriteSections(d)) == d
  {
    MapsRoundTrip(d);
    FixedRoundTrip(d.refresh, d.ipcProtocol, d.hostIntegrity);
    OverridesRoundTrip(d);
    ControlBack(d.control);
    UpdaterBack(d.updater);
    LoggingBack(d.logging);
    ToggleRoundTrip(d.clientWs);
  }

  /** Decoding an encoded document gives it back. */
  lemma DecodeWrite(d: Document)
    ensures Decode(Write(d)) == Some(d)
  {
    SectionsBack(WriteSections(d));
    SectionsRoundTrip(d);
  }
}
