/** The document sections that no override can touch: refresh, ipcProtocol and hostIntegrity. */
module FixedSections {
  import opened Prelude
  import opened MergePatch
  import opened Schema
  import opened JsonCodec

  datatype Refresh = Refresh(intervalMinutes: int, staleAfterDays: Option<int>)

  datatype VersionRange = VersionRange(min: Option<string>, max: Option<string>)
  datatype IPCVersion = IPCVersion(updater: VersionRange, emly: VersionRange, enabled: bool)
  datatype IPCProtocol = IPCProtocol(versions: Option<map<string, IPCVersion>>, defaultVersion: int)

  datatype Whitelist = Whitelist(hostnames: Option<seq<string>>, hwids: Option<seq<string>>)
  datatype HostIntegrity = HostIntegrity(enabled: bool, whitelist: Whitelist)

  const REFRESH := TStruct(map["intervalMinutes" := TInt, "staleAfterDays" := TInt])
  const RANGE := TStruct(map["min" := TStr, "max" := TStr])
  const VERSION := TStruct(map["updater" := RANGE, "emly" := RANGE, "enabled" := TBool])
  const IPC := TStruct(map["versions" := TMap(VERSION), "defaultVersion" := TInt])
  const WHITELIST := TStruct(map["hostnames" := STRINGS, "hwids" := STRINGS])
  const INTEGRITY := TStruct(map["enabled" := TBool, "whitelist" := WHITELIST])

  // ---------------------------------------------------------------------
  // Writing and reading
  // ---------------------------------------------------------------------

  function WriteRefresh(r: Refresh): Json {
    Obj(map["intervalMinutes" := Num(r.intervalMinutes), "staleAfterDays" := WritePtr(WriteInt, r.staleAfterDays)])
  }

  function WriteRange(r: VersionRange): Json {
    Obj(map["min" := WritePtr(WriteStr, r.min), "max" := WritePtr(WriteStr, r.max)])
  }

  function WriteVersion(v: IPCVersion): Json {
    Obj(map["updater" := WriteRange(v.updater), "emly" := WriteRange(v.emly), "enabled" := Bool(v.enabled)])
  }

  function WriteIPC(i: IPCProtocol): Json {
    Obj(map["versions" := WriteMap(WriteVersion, i.versions), "defaultVersion" := Num(i.defaultVersion)])
  }

  function WriteWhitelist(w: Whitelist): Json {
    Obj(map["hostnames" := WriteList(WriteStr, w.hostnames), "hwids" := WriteList(WriteStr, w.hwids)])
  }

  function WriteIntegrity(h: HostIntegrity): Json {
    Obj(map["enabled" := Bool(h.enabled), "whitelist" := WriteWhitelist(h.whitelist)])
  }

  function ReadRefresh(j: Json): Refresh {
    Refresh(ReadInt(Field(j, "intervalMinutes")), ReadPtr(ReadInt, Field(j, "staleAfterDays")))
  }

  function ReadRange(j: Json): VersionRange {
    VersionRange(ReadPtr(ReadStr, Field(j, "min")), ReadPtr(ReadStr, Field(j, "max")))
  }

  function ReadVersion(j: Json): IPCVersion {
    IPCVersion(ReadRange(Field(j, "updater")), ReadRange(Field(j, "emly")), ReadBool(Field(j, "enabled")))
  }

  function ReadIPC(j: Json): IPCProtocol {
    IPCProtocol(ReadMap(ReadVersion, Field(j, "versions")), ReadInt(Field(j, "defaultVersion")))
  }

  function ReadWhitelist(j: Json): Whitelist {
    Whitelist(ReadList(ReadStr, Field(j, "hostnames")), ReadList(ReadStr, Field(j, "hwids")))
  }

  function ReadIntegrity(j: Json): HostIntegrity {
    HostIntegrity(ReadBool(Field(j, "enabled")), ReadWhitelist(Field(j, "whitelist")))
  }

  // ---------------------------------------------------------------------
  // Round trip
  // ---------------------------------------------------------------------

  lemma RefreshRoundTrip(r: Refresh)
    ensures RoundTrip(REFRESH, WriteRefresh, ReadRefresh, r)
  {
    forall x ensures RoundTrip(TInt, WriteInt, ReadInt, x) {}
    PtrRoundTrip(TInt, WriteInt, ReadInt, r.staleAfterDays);
  }

  lemma RangeRoundTrip(r: VersionRange)
    ensures RoundTrip(RANGE, WriteRange, ReadRange, r)
  {
    StringRoundTrip(r.min);
    StringRoundTrip(r.max);
  }

  lemma VersionRoundTrip(v: IPCVersion)
    ensures RoundTrip(VERSION, WriteVersion, ReadVersion, v)
  {
    RangeRoundTrip(v.updater);
    RangeRoundTrip(v.emly);
  }

  lemma IPCRoundTrip(i: IPCProtocol)
    ensures RoundTrip(IPC, WriteIPC, ReadIPC, i)
  {
    forall x ensures RoundTrip(VERSION, WriteVersion, ReadVersion, x) { VersionRoundTrip(x); }
    MapRoundTrip(VERSION, WriteVersion, ReadVersion, i.versions);
  }

  lemma IntegrityRoundTrip(h: HostIntegrity)
    ensures RoundTrip(INTEGRITY, WriteIntegrity, ReadIntegrity, h)
  {
    StringsRoundTrip(h.whitelist.hostnames);
    StringsRoundTrip(h.whitelist.hwids);
    assert Conforms(WHITELIST, WriteWhitelist(h.whitelist))
      && ReadWhitelist(WriteWhitelist(h.whitelist)) == h.whitelist;
  }

  lemma FixedRoundTrip(r: Option<Refresh>, i: Option<IPCProtocol>, h: Option<HostIntegrity>)
    ensures Conforms(REFRESH, WritePtr(WriteRefresh, r)) && ReadPtr(ReadRefresh, WritePtr(WriteRefresh, r)) == r
    ensures Conforms(IPC, WritePtr(WriteIPC, i)) && ReadPtr(ReadIPC, WritePtr(WriteIPC, i)) == i
    ensures Conforms(INTEGRITY, WritePtr(WriteIntegrity, h)) && ReadPtr(ReadIntegrity, WritePtr(WriteIntegrity, h)) == h
  {
    if r.Some? { RefreshRoundTrip(r.value); }
    PtrRoundTrip(REFRESH, WriteRefresh, ReadRefresh, r);
    if i.Some? { IPCRoundTrip(i.value); }
    PtrRoundTrip(IPC, WriteIPC, ReadIPC, i);
    if h.Some? { IntegrityRoundTrip(h.value); }
    PtrRoundTrip(INTEGRITY, WriteIntegrity, ReadIntegrity, h);
  }
}
