/** What decoding accepts, and that it loses nothing: the document says what the tree says. */
module DecodeMeaning {
  import opened MergePatch
  import opened Schema
  import opened JsonCodec
  import opened FixedSections
  import opened ConfigDocument

  /**
    Tree a says, for a value of this type, what b says: the same scalars, the same entries of lists and maps,
    and the same under every field of a struct. What a does not say, b leaves null or zero. Keys of a that the
    struct does not have are free.
   */
  predicate Spells(s: Schema, a: Json, b: Json)
    decreases b
  {
    match s
    case TInt => if a.Null? then b in {Null, Num(0)} else a.Num? && a == b
    case TBool => if a.Null? then b in {Null, Bool(false)} else a.Bool? && a == b
    case TStr => if a.Null? then b in {Null, Str("")} else a.Str? && a == b
    case TAny => a == b
    case TList(e) =>
      (a.Null? && b.Null?) ||
      (a.Arr? && b.Arr? && |a.items| == |b.items|
       && forall i :: 0 <= i < |b.items| ==> Spells(e, a.items[i], b.items[i]))
    case TMap(e) =>
      (a.Null? && b.Null?) ||
      (a.Obj? && b.Obj? && a.fields.Keys == b.fields.Keys
       && forall k :: k in b.fields ==> Spells(e, a.fields[k], b.fields[k]))
    case TStruct(fs) =>
      (a.Null? && b.Null?) ||
      ((a.Null? || a.Obj?) && b.Obj? && b.fields.Keys == fs.Keys
       && forall k :: k in b.fields ==> Spells(fs[k], Field(a, k), b.fields[k]))
  }

  /** Only trees of the type can say anything. */
  lemma {:induction false} SpellsConforms(s: Schema, a: Json, b: Json)
    requires Spells(s, a, b)
    ensures Conforms(s, a)
    decreases b
  {
    match s
    case TList(e) =>
      if a.Arr? { forall i | 0 <= i < |a.items| ensures Conforms(e, a.items[i]) {
        SpellsConforms(e, a.items[i], b.items[i]);
      } }
    case TMap(e) =>
      if a.Obj? { forall k | k in a.fields ensures Conforms(e, a.fields[k]) {
        SpellsConforms(e, a.fields[k], b.fields[k]);
      } }
    case TStruct(fs) =>
      if a.Obj? { forall k | k in a.fields && k in fs ensures Conforms(fs[k], a.fields[k]) {
        SpellsConforms(fs[k], Field(a, k), b.fields[k]);
      } }
    case _ =>
  }

  // ---------------------------------------------------------------------
  // Reading keeps what the tree says
  // ---------------------------------------------------------------------

  /** What is read from a tree of the type and written again is what the tree says. */
  ghost predicate Keeps<T>(s: Schema, write: T -> Json, read: Json -> T, j: Json) {
    Conforms(s, j) ==> Spells(s, j, write(read(j)))
  }

  lemma PtrKeeps<T>(s: Schema, write: T -> Json, read: Json -> T, j: Json)
    requires Keeps(s, write, read, j) && !s.TAny?
    ensures Conforms(s, j) ==> Spells(s, j, WritePtr(write, ReadPtr(read, j)))
  {}

  lemma ListKeeps<T>(s: Schema, write: T -> Json, read: Json -> T, j: Json)
    requires forall x :: Keeps(s, write, read, x)
    ensures Conforms(TList(s), j) ==> Spells(TList(s), j, WriteList(write, ReadList(read, j)))
  {
    if Conforms(TList(s), j) && j.Arr? {
      forall i | 0 <= i < |j.items| ensures Spells(s, j.items[i], write(read(j.items[i]))) {
        assert Keeps(s, write, read, j.items[i]);
      }
    }
  }

  lemma MapKeeps<T>(s: Schema, write: T -> Json, read: Json -> T, j: Json)
    requires forall x :: Keeps(s, write, read, x)
    ensures Conforms(TMap(s), j) ==> Spells(TMap(s), j, WriteMap(write, ReadMap(read, j)))
  {
    if Conforms(TMap(s), j) && j.Obj? {
      forall k | k in j.fields ensures Spells(s, j.fields[k], write(read(j.fields[k]))) {
        assert Keeps(s, write, read, j.fields[k]);
      }
    }
  }

  lemma ScalarsKeep(j: Json)
    ensures Keeps(TInt, WriteInt, ReadInt, j) && Keeps(TStr, WriteStr, ReadStr, j)
    ensures Keeps(TBool, WriteBool, ReadBool, j)
    ensures Conforms(TInt, j) ==> Spells(TInt, j, WritePtr(WriteInt, ReadPtr(ReadInt, j)))
    ensures Conforms(TStr, j) ==> Spells(TStr, j, WritePtr(WriteStr, ReadPtr(ReadStr, j)))
    ensures Conforms(TBool, j) ==> Spells(TBool, j, WritePtr(WriteBool, ReadPtr(ReadBool, j)))
  {}

  lemma StringsKeep(j: Json)
    ensures Conforms(STRINGS, j) ==> Spells(STRINGS, j, WriteList(WriteStr, ReadList(ReadStr, j)))
  {
    forall x ensures Keeps(TStr, WriteStr, ReadStr, x) { ScalarsKeep(x); }
    ListKeeps(TStr, WriteStr, ReadStr, j);
  }

  // ---------------------------------------------------------------------
  // Structs
  // ---------------------------------------------------------------------

  /** A field of a struct: its key, its type and the tree that is written for it. */
  datatype Slot = Slot(key: string, schema: Schema, tree: Json)

  ghost predicate Kept(j: Json, x: Slot) {
    Conforms(x.schema, Field(j, x.key)) ==> Spells(x.schema, Field(j, x.key), x.tree)
  }

  /** Every field that has its type is kept, so the struct is. */
  ghost predicate Struct(fs: map<string, Schema>, j: Json, out: map<string, Json>) {
    && out.Keys == fs.Keys && (forall k :: k in fs ==> Kept(j, Slot(k, fs[k], out[k])))
    && (Conforms(TStruct(fs), j) ==> Spells(TStruct(fs), j, Obj(out)))
  }

  lemma OneMore(fs: map<string, Schema>, j: Json, out: map<string, Json>, x: Slot)
    requires out.Keys == fs.Keys && (forall k :: k in fs ==> Kept(j, Slot(k, fs[k], out[k]))) && Kept(j, x)
    ensures Struct(fs[x.key := x.schema], j, out[x.key := x.tree])
  {
    var more, trees := fs[x.key := x.schema], out[x.key := x.tree];
    forall k | k in more ensures Kept(j, Slot(k, more[k], trees[k])) {}
  }

  lemma Keep1(j: Json, a: Slot)
    requires Kept(j, a)
    ensures Struct(map[a.key := a.schema], j, map[a.key := a.tree])
  {
    OneMore(map[], j, map[], a);
  }

  lemma Keep2(j: Json, a: Slot, b: Slot)
    requires Kept(j, a) && Kept(j, b)
    ensures Struct(map[a.key := a.schema, b.key := b.schema], j, map[a.key := a.tree, b.key := b.tree])
  {
    Keep1(j, a);
    OneMore(map[a.key := a.schema], j, map[a.key := a.tree], b);
  }

  lemma Keep3(j: Json, a: Slot, b: Slot, c: Slot)
    requires Kept(j, a) && Kept(j, b) && Kept(j, c)
    ensures Struct(map[a.key := a.schema, b.key := b.schema, c.key := c.schema],
                   j, map[a.key := a.tree, b.key := b.tree, c.key := c.tree])
  {
    Keep2(j, a, b);
    OneMore(map[a.key := a.schema, b.key := b.schema], j, map[a.key := a.tree, b.key := b.tree], c);
  }

  lemma Keep4(j: Json, a: Slot, b: Slot, c: Slot, d: Slot)
    requires Kept(j, a) && Kept(j, b) && Kept(j, c) && Kept(j, d)
    ensures Struct(map[a.key := a.schema, b.key := b.schema, c.key := c.schema, d.key := d.schema],
                   j, map[a.key := a.tree, b.key := b.tree, c.key := c.tree, d.key := d.tree])
  {
    Keep3(j, a, b, c);
    OneMore(map[a.key := a.schema, b.key := b.schema, c.key := c.schema],
            j, map[a.key := a.tree, b.key := b.tree, c.key := c.tree], d);
  }

  lemma Keep5(j: Json, a: Slot, b: Slot, c: Slot, d: Slot, e: Slot)
    requires Kept(j, a) && Kept(j, b) && Kept(j, c) && Kept(j, d) && Kept(j, e)
    ensures Struct(map[a.key := a.schema, b.key := b.schema, c.key := c.schema, d.key := d.schema,
                       e.key := e.schema],
                   j, map[a.key := a.tree, b.key := b.tree, c.key := c.tree, d.key := d.tree, e.key := e.tree])
  {
    Keep4(j, a, b, c, d);
    OneMore(map[a.key := a.schema, b.key := b.schema, c.key := c.schema, d.key := d.schema],
            j, map[a.key := a.tree, b.key := b.tree, c.key := c.tree, d.key := d.tree], e);
  }

  lemma Keep6(j: Json, a: Slot, b: Slot, c: Slot, d: Slot, e: Slot, f: Slot)
    requires Kept(j, a) && Kept(j, b) && Kept(j, c) && Kept(j, d) && Kept(j, e) && Kept(j, f)
    ensures Struct(map[a.key := a.schema, b.key := b.schema, c.key := c.schema, d.key := d.schema,
                       e.key := e.schema, f.key := f.schema],
                   j, map[a.key := a.tree, b.key := b.tree, c.key := c.tree, d.key := d.tree,
                          e.key := e.tree, f.key := f.tree])
  {
    Keep5(j, a, b, c, d, e);
    OneMore(map[a.key := a.schema, b.key := b.schema, c.key := c.schema, d.key := d.schema, e.key := e.schema],
            j, map[a.key := a.tree, b.key := b.tree, c.key := c.tree, d.key := d.tree, e.key := e.tree], f);
  }

  lemma Keep7(j: Json, a: Slot, b: Slot, c: Slot, d: Slot, e: Slot, f: Slot, g: Slot)
    requires Kept(j, a) && Kept(j, b) && Kept(j, c) && Kept(j, d) && Kept(j, e) && Kept(j, f) && Kept(j, g)
    ensures Struct(map[a.key := a.schema, b.key := b.schema, c.key := c.schema, d.key := d.schema,
                       e.key := e.schema, f.key := f.schema, g.key := g.schema],
                   j, map[a.key := a.tree, b.key := b.tree, c.key := c.tree, d.key := d.tree,
                          e.key := e.tree, f.key := f.tree, g.key := g.tree])
  {
    Keep6(j, a, b, c, d, e, f);
    OneMore(map[a.key := a.schema, b.key := b.schema, c.key := c.schema, d.key := d.schema,
                e.key := e.schema, f.key := f.schema],
            j, map[a.key := a.tree, b.key := b.tree, c.key := c.tree, d.key := d.tree,
                   e.key := e.tree, f.key := f.tree], g);
  }

  lemma ToggleKeeps(j: Json)
    ensures Keeps(TOGGLE, WriteToggle, ReadToggle, j)
  {
    var x := ReadToggle(j);
    ScalarsKeep(Field(j, "enabled"));
    Keep1(j, Slot("enabled", TBool, Bool(x.enabled)));
  }

  lemma GateKeeps(j: Json)
    ensures Keeps(GATE, WriteGate, ReadGate, j)
  {
    var x := ReadGate(j);
    ScalarsKeep(Field(j, "enabled"));
    ScalarsKeep(Field(j, "reason"));
    ScalarsKeep(Field(j, "until"));
    Keep3(j, Slot("enabled", TBool, Bool(x.enabled)),
          Slot("reason", TStr, WritePtr(WriteStr, x.reason)),
          Slot("until", TStr, WritePtr(WriteStr, x.until)));
  }

  lemma AppGateKeeps(j: Json)
    ensures Keeps(APPGATE, WriteAppGate, ReadAppGate, j)
  {
    var x := ReadAppGate(j);
    ScalarsKeep(Field(j, "enabled"));
    ScalarsKeep(Field(j, "mode"));
    ScalarsKeep(Field(j, "reason"));
    ScalarsKeep(Field(j, "until"));
    Keep4(j, Slot("enabled", TBool, Bool(x.enabled)),
          Slot("mode", TStr, Str(x.mode)),
          Slot("reason", TStr, WritePtr(WriteStr, x.reason)),
          Slot("until", TStr, WritePtr(WriteStr, x.until)));
  }

  lemma ControlKeeps(j: Json)
    ensures Keeps(CONTROL, WriteControl, ReadControl, j)
  {
    var x := ReadControl(j);
    GateKeeps(Field(j, "updater"));
    AppGateKeeps(Field(j, "app"));
    Keep2(j, Slot("updater", GATE, WriteGate(x.updater)),
          Slot("app", APPGATE, WriteAppGate(x.app)));
  }

  lemma WarningKeeps(j: Json)
    ensures Keeps(WARNING, WriteWarning, ReadWarning, j)
  {
    var x := ReadWarning(j);
    ScalarsKeep(Field(j, "enabled"));
    ScalarsKeep(Field(j, "seconds"));
    Keep2(j, Slot("enabled", TBool, Bool(x.enabled)),
          Slot("seconds", TInt, Num(x.seconds)));
  }

  lemma RetryKeeps(j: Json)
    ensures Keeps(RETRY, WriteRetry, ReadRetry, j)
  {
    var x := ReadRetry(j);
    ScalarsKeep(Field(j, "attempts"));
    ScalarsKeep(Field(j, "delaySeconds"));
    Keep2(j, Slot("attempts", TInt, Num(x.attempts)),
          Slot("delaySeconds", TInt, Num(x.delaySeconds)));
  }

  lemma ResolverKeeps(j: Json)
    ensures Keeps(RESOLVER, WriteResolver, ReadResolver, j)
  {
    var x := ReadResolver(j);
    ScalarsKeep(Field(j, "attempts"));
    ScalarsKeep(Field(j, "baseBackoffSeconds"));
    Keep2(j, Slot("attempts", TInt, Num(x.attempts)),
          Slot("baseBackoffSeconds", TInt, Num(x.baseBackoffSeconds)));
  }

  /** The updater section, with the schemas of its parts left open. */
  lemma UpdaterTreeKeeps(j: Json, poll: Json, channel: Json, warning: Json, retry: Json, resolver: Json, self: Json,
                         cert: Json, w: Schema, y: Schema, r: Schema, t: Schema)
    requires Kept(j, Slot("pollIntervalMinutes", TInt, poll)) && Kept(j, Slot("channelOverride", TStr, channel))
    requires Kept(j, Slot("criticalWarning", w, warning)) && Kept(j, Slot("dcLookupRetry", y, retry))
    requires Kept(j, Slot("resolver", r, resolver)) && Kept(j, Slot("selfUpdate", t, self))
    requires Kept(j, Slot("installCertificate", t, cert))
    ensures var s := TStruct(map["pollIntervalMinutes" := TInt, "channelOverride" := TStr, "criticalWarning" := w,
                                 "dcLookupRetry" := y, "resolver" := r, "selfUpdate" := t,
                                 "installCertificate" := t]);
      Conforms(s, j) ==> Spells(s, j, UpdaterTree(poll, channel, warning, retry, resolver, self, cert))
  {
    Keep7(j, Slot("pollIntervalMinutes", TInt, poll), Slot("channelOverride", TStr, channel),
          Slot("criticalWarning", w, warning), Slot("dcLookupRetry", y, retry), Slot("resolver", r, resolver),
          Slot("selfUpdate", t, self), Slot("installCertificate", t, cert));
  }

  lemma UpdaterPartsKeep(j: Json)
    ensures Kept(j, Slot("criticalWarning", WARNING,
                         WritePtr(WriteWarning, ReadPtr(ReadWarning, Field(j, "criticalWarning")))))
    ensures Kept(j, Slot("dcLookupRetry", RETRY,
                         WritePtr(WriteRetry, ReadPtr(ReadRetry, Field(j, "dcLookupRetry")))))
    ensures Kept(j, Slot("resolver", RESOLVER,
                         WritePtr(WriteResolver, ReadPtr(ReadResolver, Field(j, "resolver")))))
  {
    WarningKeeps(Field(j, "criticalWarning"));
    PtrKeeps(WARNING, WriteWarning, ReadWarning, Field(j, "criticalWarning"));
    RetryKeeps(Field(j, "dcLookupRetry"));
    PtrKeeps(RETRY, WriteRetry, ReadRetry, Field(j, "dcLookupRetry"));
    ResolverKeeps(Field(j, "resolver"));
    PtrKeeps(RESOLVER, WriteResolver, ReadResolver, Field(j, "resolver"));
  }

  lemma UpdaterTogglesKeep(j: Json)
    ensures Kept(j, Slot("selfUpdate", TOGGLE,
                         WritePtr(WriteToggle, ReadPtr(ReadToggle, Field(j, "selfUpdate")))))
    ensures Kept(j, Slot("installCertificate", TOGGLE,
                         WritePtr(WriteToggle, ReadPtr(ReadToggle, Field(j, "installCertificate")))))
  {
    ToggleKeeps(Field(j, "selfUpdate"));
    PtrKeeps(TOGGLE, WriteToggle, ReadToggle, Field(j, "selfUpdate"));
    ToggleKeeps(Field(j, "installCertificate"));
    PtrKeeps(TOGGLE, WriteToggle, ReadToggle, Field(j, "installCertificate"));
  }

  function UpdaterAgain(j: Json): Json {
    UpdaterTree(WritePtr(WriteInt, ReadPtr(ReadInt, Field(j, "pollIntervalMinutes"))),
                WritePtr(WriteStr, ReadPtr(ReadStr, Field(j, "channelOverride"))),
                WritePtr(WriteWarning, ReadPtr(ReadWarning, Field(j, "criticalWarning"))),
                WritePtr(WriteRetry, ReadPtr(ReadRetry, Field(j, "dcLookupRetry"))),
                WritePtr(WriteResolver, ReadPtr(ReadResolver, Field(j, "resolver"))),
                WritePtr(WriteToggle, ReadPtr(ReadToggle, Field(j, "selfUpdate"))),
                WritePtr(WriteToggle, ReadPtr(ReadToggle, Field(j, "installCertificate"))))
  }

  lemma UpdaterSpelled(j: Json)
    ensures Conforms(UPDATER, j) ==> Spells(UPDATER, j, UpdaterAgain(j))
  {
    ScalarsKeep(Field(j, "pollIntervalMinutes"));
    ScalarsKeep(Field(j, "channelOverride"));
    UpdaterPartsKeep(j);
    UpdaterTogglesKeep(j);
    UpdaterTreeKeeps(
      j, WritePtr(WriteInt, ReadPtr(ReadInt, Field(j, "pollIntervalMinutes"))),
      WritePtr(WriteStr, ReadPtr(ReadStr, Field(j, "channelOverride"))),
      WritePtr(WriteWarning, ReadPtr(ReadWarning, Field(j, "criticalWarning"))),
      WritePtr(WriteRetry, ReadPtr(ReadRetry, Field(j, "dcLookupRetry"))),
      WritePtr(WriteResolver, ReadPtr(ReadResolver, Field(j, "resolver"))),
      WritePtr(WriteToggle, ReadPtr(ReadToggle, Field(j, "selfUpdate"))),
      WritePtr(WriteToggle, ReadPtr(ReadToggle, Field(j, "installCertificate"))), WARNING, RETRY, RESOLVER, TOGGLE);
  }

  lemma UpdaterKeeps(j: Json)
    ensures Keeps(UPDATER, WriteUpdater, ReadUpdater, j)
  {
    UpdaterSpelled(j);
    assert WriteUpdater(ReadUpdater(j)) == UpdaterAgain(j);
  }

  lemma LoggingKeeps(j: Json)
    ensures Keeps(LOGGING, WriteLogging, ReadLogging, j)
  {
    var x := ReadLogging(j);
    ScalarsKeep(Field(j, "level"));
    ScalarsKeep(Field(j, "maxSizeMB"));
    ScalarsKeep(Field(j, "backups"));
    ScalarsKeep(Field(j, "compress"));
    ScalarsKeep(Field(j, "eventLog"));
    Keep5(j, Slot("level", TStr, Str(x.level)),
          Slot("maxSizeMB", TInt, Num(x.maxSizeMB)),
          Slot("backups", TInt, Num(x.backups)),
          Slot("compress", TBool, Bool(x.compress)),
          Slot("eventLog", TBool, Bool(x.eventLog)));
  }

  lemma SiteKeeps(j: Json)
    ensures Keeps(SITE, WriteSite, ReadSite, j)
  {
    var x := ReadSite(j);
    StringsKeep(Field(j, "internalSubnets"));
    ScalarsKeep(Field(j, "baseServer"));
    StringsKeep(Field(j, "backupServer"));
    ScalarsKeep(Field(j, "enabled"));
    Keep4(j, Slot("internalSubnets", STRINGS, WriteList(WriteStr, x.internalSubnets)),
          Slot("baseServer", TStr, Str(x.baseServer)),
          Slot("backupServer", STRINGS, WriteList(WriteStr, x.backupServer)),
          Slot("enabled", TBool, Bool(x.enabled)));
  }

  lemma SelectorKeeps(j: Json)
    ensures Keeps(SELECTOR, WriteSelector, ReadSelector, j)
  {
    var x := ReadSelector(j);
    ScalarsKeep(Field(j, "all"));
    StringsKeep(Field(j, "hwids"));
    StringsKeep(Field(j, "hostnames"));
    StringsKeep(Field(j, "dcs"));
    StringsKeep(Field(j, "subnets"));
    StringsKeep(Field(j, "domains"));
    Keep6(j, Slot("all", TBool, WritePtr(WriteBool, x.all)),
          Slot("hwids", STRINGS, WriteList(WriteStr, x.hwids)),
          Slot("hostnames", STRINGS, WriteList(WriteStr, x.hostnames)),
          Slot("dcs", STRINGS, WriteList(WriteStr, x.dcs)),
          Slot("subnets", STRINGS, WriteList(WriteStr, x.subnets)),
          Slot("domains", STRINGS, WriteList(WriteStr, x.domains)));
  }

  lemma RefreshKeeps(j: Json)
    ensures Keeps(REFRESH, WriteRefresh, ReadRefresh, j)
  {
    var x := ReadRefresh(j);
    ScalarsKeep(Field(j, "intervalMinutes"));
    ScalarsKeep(Field(j, "staleAfterDays"));
    Keep2(j, Slot("intervalMinutes", TInt, Num(x.intervalMinutes)),
          Slot("staleAfterDays", TInt, WritePtr(WriteInt, x.staleAfterDays)));
  }

  lemma RangeKeeps(j: Json)
    ensures Keeps(RANGE, WriteRange, ReadRange, j)
  {
    var x := ReadRange(j);
    ScalarsKeep(Field(j, "min"));
    ScalarsKeep(Field(j, "max"));
    Keep2(j, Slot("min", TStr, WritePtr(WriteStr, x.min)),
          Slot("max", TStr, WritePtr(WriteStr, x.max)));
  }

  lemma VersionKeeps(j: Json)
    ensures Keeps(VERSION, WriteVersion, ReadVersion, j)
  {
    var x := ReadVersion(j);
    RangeKeeps(Field(j, "updater"));
    RangeKeeps(Field(j, "emly"));
    ScalarsKeep(Field(j, "enabled"));
    Keep3(j, Slot("updater", RANGE, WriteRange(x.updater)),
          Slot("emly", RANGE, WriteRange(x.emly)),
          Slot("enabled", TBool, Bool(x.enabled)));
  }

  lemma WhitelistKeeps(j: Json)
    ensures Keeps(WHITELIST, WriteWhitelist, ReadWhitelist, j)
  {
    var x := ReadWhitelist(j);
    StringsKeep(Field(j, "hostnames"));
    StringsKeep(Field(j, "hwids"));
    Keep2(j, Slot("hostnames", STRINGS, WriteList(WriteStr, x.hostnames)),
          Slot("hwids", STRINGS, WriteList(WriteStr, x.hwids)));
  }

  lemma IntegrityKeeps(j: Json)
    ensures Keeps(INTEGRITY, WriteIntegrity, ReadIntegrity, j)
  {
    var x := ReadIntegrity(j);
    ScalarsKeep(Field(j, "enabled"));
    WhitelistKeeps(Field(j, "whitelist"));
    Keep2(j, Slot("enabled", TBool, Bool(x.enabled)),
          Slot("whitelist", WHITELIST, WriteWhitelist(x.whitelist)));
  }

  lemma IPCKeeps(j: Json)
    ensures Keeps(IPC, WriteIPC, ReadIPC, j)
  {
    var x := ReadIPC(j);
    forall v ensures Keeps(VERSION, WriteVersion, ReadVersion, v) { VersionKeeps(v); }
    MapKeeps(VERSION, WriteVersion, ReadVersion, Field(j, "versions"));
    ScalarsKeep(Field(j, "defaultVersion"));
    Keep2(j, Slot("versions", TMap(VERSION), WriteMap(WriteVersion, x.versions)),
          Slot("defaultVersion", TInt, Num(x.defaultVersion)));
  }

  lemma OverrideTreeKeeps(j: Json, id: Json, matches: Json, except: Json, until: Json, patch: Json, sel: Schema)
    requires Kept(j, Slot("id", TStr, id)) && Kept(j, Slot("match", sel, matches))
    requires Kept(j, Slot("except", sel, except)) && Kept(j, Slot("until", TStr, until))
    requires Kept(j, Slot("patch", TMap(TAny), patch))
    ensures var s := TStruct(map["id" := TStr, "match" := sel, "except" := sel, "until" := TStr,
                                 "patch" := TMap(TAny)]);
      Conforms(s, j) ==> Spells(s, j, OverrideTree(id, matches, except, until, patch))
  {
    Keep5(j, Slot("id", TStr, id), Slot("match", sel, matches), Slot("except", sel, except),
          Slot("until", TStr, until), Slot("patch", TMap(TAny), patch));
  }

  lemma SelectorsKeep(j: Json)
    ensures Kept(j, Slot("match", SELECTOR, WriteSelector(ReadSelector(Field(j, "match")))))
    ensures Kept(j, Slot("except", SELECTOR, WritePtr(WriteSelector, ReadPtr(ReadSelector, Field(j, "except")))))
  {
    SelectorKeeps(Field(j, "match"));
    SelectorKeeps(Field(j, "except"));
    PtrKeeps(SELECTOR, WriteSelector, ReadSelector, Field(j, "except"));
  }

  lemma PatchKept(j: Json)
    ensures Kept(j, Slot("patch", TMap(TAny), if Field(j, "patch").Obj? then Field(j, "patch") else Null))
  {
    var patch := Field(j, "patch");
    if patch.Obj? {
      forall k | k in patch.fields ensures Spells(TAny, patch.fields[k], patch.fields[k]) {}
    }
  }

  function OverrideAgain(j: Json): Json {
    OverrideTree(Str(ReadStr(Field(j, "id"))), WriteSelector(ReadSelector(Field(j, "match"))),
                 WritePtr(WriteSelector, ReadPtr(ReadSelector, Field(j, "except"))),
                 WritePtr(WriteStr, ReadPtr(ReadStr, Field(j, "until"))),
                 if Field(j, "patch").Obj? then Field(j, "patch") else Null)
  }

  lemma OverrideSpelled(j: Json)
    ensures Conforms(OVERRIDE, j) ==> Spells(OVERRIDE, j, OverrideAgain(j))
  {
    ScalarsKeep(Field(j, "id"));
    ScalarsKeep(Field(j, "until"));
    SelectorsKeep(j);
    PatchKept(j);
    OverrideTreeKeeps(
      j, Str(ReadStr(Field(j, "id"))), WriteSelector(ReadSelector(Field(j, "match"))),
      WritePtr(WriteSelector, ReadPtr(ReadSelector, Field(j, "except"))),
      WritePtr(WriteStr, ReadPtr(ReadStr, Field(j, "until"))),
      if Field(j, "patch").Obj? then Field(j, "patch") else Null, SELECTOR);
  }

  lemma OverrideKeeps(j: Json)
    ensures Keeps(OVERRIDE, WriteOverride, ReadOverride, j)
  {
    OverrideSpelled(j);
    assert WriteOverride(ReadOverride(j)) == OverrideAgain(j);
  }

  // ---------------------------------------------------------------------
  // The document
  // ---------------------------------------------------------------------

  /** Section by section, the trees say what the written sections hold. */
  predicate SaysSections(s: Sections, w: Sections) {
    && Spells(TInt, s.schemaVersion, w.schemaVersion) && Spells(TInt, s.revision, w.revision)
    && Spells(TStr, s.generatedAt, w.generatedAt) && Spells(TStr, s.defaultServer, w.defaultServer)
    && Spells(TMap(TStr), s.servers, w.servers) && Spells(TMap(SITE), s.dcLookupMap, w.dcLookupMap)
    && Spells(TList(OVERRIDE), s.overrides, w.overrides) && Spells(TOGGLE, s.clientWs, w.clientWs)
    && Spells(REFRESH, s.refresh, w.refresh) && Spells(IPC, s.ipcProtocol, w.ipcProtocol)
    && Spells(INTEGRITY, s.hostIntegrity, w.hostIntegrity) && Spells(CONTROL, s.control, w.control)
    && Spells(UPDATER, s.updater, w.updater) && Spells(LOGGING, s.logging, w.logging)
  }

  /** The object says, under the document's keys, what the document holds. */
  predicate SaysAll(j: Json, d: Document) { (j.Null? || j.Obj?) && SaysSections(ToSections(j), WriteSections(d)) }

  lemma HeadIsSaid(s: Sections)
    requires SectionsConform(s)
    ensures var w := WriteSections(ReadSections(s));
      && Spells(TInt, s.schemaVersion, w.schemaVersion) && Spells(TInt, s.revision, w.revision)
      && Spells(TStr, s.generatedAt, w.generatedAt) && Spells(TStr, s.defaultServer, w.defaultServer)
  {
    ScalarsKeep(s.schemaVersion);
    ScalarsKeep(s.revision);
    ScalarsKeep(s.generatedAt);
    ScalarsKeep(s.defaultServer);
  }

  lemma ListsAreSaid(s: Sections)
    requires SectionsConform(s)
    ensures var w := WriteSections(ReadSections(s));
      && Spells(TMap(TStr), s.servers, w.servers) && Spells(TMap(SITE), s.dcLookupMap, w.dcLookupMap)
      && Spells(TList(OVERRIDE), s.overrides, w.overrides)
  {
    forall x ensures Keeps(TStr, WriteStr, ReadStr, x) { ScalarsKeep(x); }
    MapKeeps(TStr, WriteStr, ReadStr, s.servers);
    forall x ensures Keeps(SITE, WriteSite, ReadSite, x) { SiteKeeps(x); }
    MapKeeps(SITE, WriteSite, ReadSite, s.dcLookupMap);
    forall x ensures Keeps(OVERRIDE, WriteOverride, ReadOverride, x) { OverrideKeeps(x); }
    ListKeeps(OVERRIDE, WriteOverride, ReadOverride, s.overrides);
  }

  lemma FixedIsSaid(s: Sections)
    requires SectionsConform(s)
    ensures var w := WriteSections(ReadSections(s));
      && Spells(REFRESH, s.refresh, w.refresh) && Spells(IPC, s.ipcProtocol, w.ipcProtocol)
      && Spells(INTEGRITY, s.hostIntegrity, w.hostIntegrity)
  {
    RefreshKeeps(s.refresh);
    PtrKeeps(REFRESH, WriteRefresh, ReadRefresh, s.refresh);
    IPCKeeps(s.ipcProtocol);
    PtrKeeps(IPC, WriteIPC, ReadIPC, s.ipcProtocol);
    IntegrityKeeps(s.hostIntegrity);
    PtrKeeps(INTEGRITY, WriteIntegrity, ReadIntegrity, s.hostIntegrity);
  }

  lemma PatchableIsSaid(s: Sections)
    requires SectionsConform(s)
    ensures var w := WriteSections(ReadSections(s));
      && Spells(CONTROL, s.control, w.control) && Spells(UPDATER, s.updater, w.updater)
      && Spells(LOGGING, s.logging, w.logging) && Spells(TOGGLE, s.clientWs, w.clientWs)
  {
    ControlKeeps(s.control);
    PtrKeeps(CONTROL, WriteControl, ReadControl, s.control);
    UpdaterKeeps(s.updater);
    PtrKeeps(UPDATER, WriteUpdater, ReadUpdater, s.updater);
    LoggingKeeps(s.logging);
    PtrKeeps(LOGGING, WriteLogging, ReadLogging, s.logging);
    ToggleKeeps(s.clientWs);
    PtrKeeps(TOGGLE, WriteToggle, ReadToggle, s.clientWs);
  }

  lemma ReadIsSaid(s: Sections)
    requires SectionsConform(s)
    ensures SaysSections(s, WriteSections(ReadSections(s)))
  {
    HeadIsSaid(s);
    ListsAreSaid(s);
    FixedIsSaid(s);
    PatchableIsSaid(s);
  }

  lemma SaidConforms(s: Sections, w: Sections)
    requires SaysSections(s, w)
    ensures SectionsConform(s)
  {
    SpellsConforms(TInt, s.schemaVersion, w.schemaVersion);
    SpellsConforms(TInt, s.revision, w.revision);
    SpellsConforms(TStr, s.generatedAt, w.generatedAt);
    SpellsConforms(TStr, s.defaultServer, w.defaultServer);
    SpellsConforms(TMap(TStr), s.servers, w.servers);
    SpellsConforms(TMap(SITE), s.dcLookupMap, w.dcLookupMap);
    SpellsConforms(TList(OVERRIDE), s.overrides, w.overrides);
    SpellsConforms(TOGGLE, s.clientWs, w.clientWs);
    SpellsConforms(REFRESH, s.refresh, w.refresh);
    SpellsConforms(IPC, s.ipcProtocol, w.ipcProtocol);
    SpellsConforms(INTEGRITY, s.hostIntegrity, w.hostIntegrity);
    SpellsConforms(CONTROL, s.control, w.control);
    SpellsConforms(UPDATER, s.updater, w.updater);
    SpellsConforms(LOGGING, s.logging, w.logging);
  }

  lemma DecodedIsSaid(j: Json)
    requires Decode(j).Some?
    ensures SaysAll(j, Decode(j).value)
  {
    ReadIsSaid(ToSections(j));
  }

  lemma SaidDecodes(j: Json, d: Document)
    requires SaysAll(j, d)
    ensures Decode(j).Some?
  {
    SaidConforms(ToSections(j), WriteSections(d));
  }

  /** A tree decodes exactly when it says what some document holds, and it decodes to one such document. */
  lemma DecodesIff(j: Json)
    ensures Decode(j).Some? <==> exists d :: SaysAll(j, d)
    ensures Decode(j).Some? ==> SaysAll(j, Decode(j).value)
  {
    if Decode(j).Some? { DecodedIsSaid(j); }
    forall d | SaysAll(j, d) ensures Decode(j).Some? { SaidDecodes(j, d); }
  }
}
