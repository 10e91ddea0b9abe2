/** What each write leaves in every column, exactly when it succeeds, and what the manifest says of the table. */
module ReleaseEffects {
  import opened Prelude
  import opened Releases
  import opened ReleaseTheorems

  predicate KnownSeverity(s: string) { s == "none" || s == "security" || s == "bugfix" || s == "feature" }

  // ---------------------------------------------------------------------
  // Columns
  // ---------------------------------------------------------------------

  /** A column takes the value sent, or keeps its own. */
  predicate Sets<T(==)>(sent: Option<T>, before: T, after: T) {
    match sent
    case Some(x) => after == x
    case None => after == before
  }

  /** The same for a column that can be empty. */
  predicate SetsNullable<T(==)>(sent: Option<T>, before: Option<T>, after: Option<T>) {
    if sent == None then after == before else after == sent
  }

  predicate PatchWrites(q: PatchRequest, r: Release, n: Release) {
    && Sets(q.isStable, r.isStable, n.isStable) && Sets(q.isBeta, r.isBeta, n.isBeta)
    && Sets(q.isCritical, r.isCritical, n.isCritical) && Sets(q.shortNote, r.shortNote, n.shortNote)
    && Sets(q.severity, r.severity, n.severity) && SetsNullable(q.descriptionEN, r.descriptionEN, n.descriptionEN)
    && SetsNullable(q.descriptionIT, r.descriptionIT, n.descriptionIT)
    && SetsNullable(q.criticalVersion, r.criticalVersion, n.criticalVersion)
    && SetsNullable(q.minRequired, r.minRequired, n.minRequired)
    && (q.releasedAt == None ==> n.releasedAt == r.releasedAt)
    && (q.releasedAt != None ==> q.releasedAt == Some(Some(n.releasedAt)))
    && n.version == r.version && n.filename == r.filename && n.checksum == r.checksum
  }

  predicate PutWrites(q: PutRequest, r: Release, n: Release) {
    && n.isStable == q.isStable && n.isBeta == q.isBeta && n.isCritical == q.isCritical
    && n.shortNote == q.shortNote && n.severity == (if |q.severity| > 0 then q.severity else "none")
    && n.descriptionEN == q.descriptionEN && n.descriptionIT == q.descriptionIT
    && n.criticalVersion == q.criticalVersion && n.minRequired == q.minRequired && n.releasedAt == q.releasedAt
    && n.version == r.version && n.filename == r.filename && n.checksum == r.checksum
  }

  predicate ChannelsWrite(stable: Option<bool>, beta: Option<bool>, r: Release, n: Release) {
    Sets(stable, r.isStable, n.isStable) && Sets(beta, r.isBeta, n.isBeta)
    && r.(isStable := false, isBeta := false) == n.(isStable := false, isBeta := false)
  }

  /** A release that gives up the slots another one takes, and a critical one its version with it. */
  predicate GivesUp(stable: bool, beta: bool, critical: bool, r: Release, n: Release) {
    && n.isStable == (r.isStable && !stable) && n.isBeta == (r.isBeta && !beta)
    && n.isCritical == (r.isCritical && !critical)
    && n.criticalVersion == (if critical && r.isCritical then None else r.criticalVersion)
    && n.(isStable := r.isStable, isBeta := r.isBeta, isCritical := r.isCritical, criticalVersion := r.criticalVersion)
       == r
  }

  /** Version v is in the table, and every other release gives up the slots that v takes. */
  ghost predicate Takes(t: Table, u: Table, v: string, stable: bool, beta: bool, critical: bool) {
    && u.Keys == t.Keys + {v}
    && forall o :: o in t && o != v ==> GivesUp(stable, beta, critical, t[o], u[o])
  }

  lemma OthersGiveUp(t: Table, op: Op)
    requires StatusOf(t, op) == Done && !op.Delete?
    ensures Takes(t, Next(t, op), VersionOf(op), ClaimsStable(op), ClaimsBeta(op), ClaimsCritical(op))
  {
    var v, u := VersionOf(op), Next(t, op);
    forall o | o != v
      ensures o in u <==> o in t
      ensures o in t ==> GivesUp(ClaimsStable(op), ClaimsBeta(op), ClaimsCritical(op), t[o], u[o])
    {
      OthersOnlyLoseSlots(t, op, o);
    }
    ClaimTakesSlot(t, op);
  }

  // ---------------------------------------------------------------------
  // The five writes
  // ---------------------------------------------------------------------

  lemma CreateExactly(t: Table, row: Release, fails: bool)
    ensures var s, u := StatusOf(t, Create(row, fails)), Next(t, Create(row, fails));
      var bad := |row.version| == 0 || !KnownSeverity(row.severity);
      && s == (if bad then BadRequest else if fails || row.version in t then Failed else Done)
      && (s == Done ==> Takes(t, u, row.version, row.isStable, row.isBeta, row.isCritical) && u[row.version] == row)
      && (s != Done ==> u == t)
  {
    if StatusOf(t, Create(row, fails)) == Done { OthersGiveUp(t, Create(row, fails)); }
  }

  /** What a write to a stored release answers: `changes` says whether it would change any column. */
  predicate Answers(s: Status, bad: bool, fails: bool, changes: bool) {
    s == if bad then BadRequest else if fails then Failed else if changes then Done else NotFound
  }

  lemma PutExactly(t: Table, v: string, q: PutRequest, fails: bool)
    ensures var s, u := StatusOf(t, Put(v, q, fails)), Next(t, Put(v, q, fails));
      && Answers(s, |q.severity| > 0 && !KnownSeverity(q.severity), fails, v in t && !PutWrites(q, t[v], t[v]))
      && (s == Done ==> Takes(t, u, v, q.isStable, q.isBeta, q.isCritical) && PutWrites(q, t[v], u[v]))
      && (s != Done ==> u == t)
  {
    if StatusOf(t, Put(v, q, fails)) == Done { OthersGiveUp(t, Put(v, q, fails)); }
    if v in t { assert PutWrites(q, t[v], PutRow(t[v], q)); }
  }

  predicate NothingSent(q: PatchRequest) {
    && q.isStable.None? && q.isBeta.None? && q.shortNote.None? && q.severity.None? && q.descriptionEN.None?
    && q.descriptionIT.None? && q.isCritical.None? && q.criticalVersion.None? && q.minRequired.None?
    && q.releasedAt.None?
  }

  /** A time that cannot be read, a severity that is not known, or no field at all. */
  predicate BadPatch(q: PatchRequest) {
    || NothingSent(q) || q.releasedAt == Some(None)
    || (q.severity.Some? && !KnownSeverity(q.severity.value))
  }

  lemma PatchExactly(t: Table, v: string, q: PatchRequest, fails: bool)
    ensures var s, u := StatusOf(t, Patch(v, q, fails)), Next(t, Patch(v, q, fails));
      && Answers(s, BadPatch(q), fails, v in t && !PatchWrites(q, t[v], t[v]))
      && (s == Done ==>
          && Takes(t, u, v, q.isStable == Some(true), q.isBeta == Some(true), q.isCritical == Some(true))
          && PatchWrites(q, t[v], u[v]))
      && (s != Done ==> u == t)
  {
    if StatusOf(t, Patch(v, q, fails)) == Done { OthersGiveUp(t, Patch(v, q, fails)); }
    if v in t && q.releasedAt != Some(None) { assert PatchWrites(q, t[v], PatchedRow(t[v], q)); }
  }

  lemma ChannelsExactly(t: Table, v: string, stable: Option<bool>, beta: Option<bool>, fails: bool)
    ensures var op := PatchChannels(v, stable, beta, fails); var s, u := StatusOf(t, op), Next(t, op);
      && Answers(s, stable == None && beta == None, fails, v in t && !ChannelsWrite(stable, beta, t[v], t[v]))
      && (s == Done ==>
          Takes(t, u, v, stable == Some(true), beta == Some(true), false) && ChannelsWrite(stable, beta, t[v], u[v]))
      && (s != Done ==> u == t)
  {
    var op := PatchChannels(v, stable, beta, fails);
    if StatusOf(t, op) == Done { OthersGiveUp(t, op); }
  }

  lemma DeleteExactly(t: Table, v: string, fails: bool)
    ensures var s, u := StatusOf(t, Delete(v, fails)), Next(t, Delete(v, fails));
      && s == (if v !in t then NotFound else if fails then Failed else Done)
      && u == if s == Done then map w | w in t && w != v :: t[w] else t
  {}

  // ---------------------------------------------------------------------
  // The manifest
  // ---------------------------------------------------------------------

  /** A slot's entry: its holder's, or none when nobody holds it. */
  lemma SlotSays<T>(rels: seq<Release>, t: Table, holds: Release -> bool, give: Release -> Option<T>, none: T)
    requires ListOf(rels, t) && Keyed(t) && OneHolder(t, holds) && forall r :: give(r).Some? ==> holds(r)
    ensures (forall v :: v in t ==> !holds(t[v])) ==> Last(rels, give, none) == none
    ensures forall v :: v in t && holds(t[v]) ==> Last(rels, give, none) == Given(give(t[v]), none)
  {
    LastIs(rels, give, none);
    if r :| r in rels && give(r) == Some(Last(rels, give, none)) {
      assert holds(t[r.version]);
    }
    forall v | v in t && holds(t[v]) ensures Last(rels, give, none) == Given(give(t[v]), none) {
      assert t[v] in rels;
    }
  }

  lemma CollectSays<T>(rels: seq<Release>, t: Table, give: Release -> Option<T>)
    requires ListOf(rels, t) && Keyed(t)
    ensures forall v :: v in Collect(rels, give) <==> v in t && give(t[v]).Some?
    ensures forall v :: v in t && give(t[v]).Some? ==> Collect(rels, give)[v] == give(t[v]).value
  {
    forall v
      ensures v in Collect(rels, give) <==> v in t && give(t[v]).Some?
      ensures v in t && give(t[v]).Some? ==> Collect(rels, give)[v] == give(t[v]).value
    {
      CollectedIff(rels, give, v);
      if v in t { assert t[v] in rels; }
    }
  }

  /** The manifest's entries for the stable, the beta and the critical release, empty where there is none. */
  ghost predicate SaysStable(m: Manifest, r: Release, base: string) {
    && m.stableVersion == r.version && m.stableDownload == base + "/v2/updates/releases/" + r.version + "/download"
    && m.minRequired == if r.minRequired == None then "" else r.minRequired.value
  }

  ghost predicate SaysBeta(m: Manifest, r: Release, base: string) {
    m.betaVersion == r.version && m.betaDownload == base + "/v2/updates/releases/" + r.version + "/download"
  }

  ghost predicate SaysCritical(m: Manifest, r: Release) {
    m.isCritical && m.criticalVersion == if r.criticalVersion == None then r.version else r.criticalVersion.value
  }

  lemma LinksStable(rels: seq<Release>, t: Table, base: string)
    requires ListOf(rels, t) && Sound(t)
    ensures var version, link := Last(rels, StableVersion(), ""), Last(rels, StableLink(base), "");
      && (forall v :: v in t && t[v].isStable ==>
          version == t[v].version && link == base + "/v2/updates/releases/" + t[v].version + "/download")
      && ((forall v :: v in t ==> !t[v].isStable) ==> version == "" && link == "")
  {
    SlotSays(rels, t, Stable(), StableVersion(), "");
    SlotSays(rels, t, Stable(), StableLink(base), "");
    forall v | v in t ensures Stable()(t[v]) <==> t[v].isStable {}
  }

  lemma GivesMinimum(rels: seq<Release>, t: Table)
    requires ListOf(rels, t) && Sound(t)
    ensures var minimum := Last(rels, MinRequired(), "");
      && (forall v :: v in t && t[v].isStable ==>
          minimum == if t[v].minRequired == None then "" else t[v].minRequired.value)
      && ((forall v :: v in t ==> !t[v].isStable) ==> minimum == "")
  {
    SlotSays(rels, t, Stable(), MinRequired(), "");
    forall v | v in t ensures Stable()(t[v]) <==> t[v].isStable {}
  }

  lemma NamesStable(rels: seq<Release>, t: Table, base: string)
    requires ListOf(rels, t) && Sound(t)
    ensures var m := ManifestOf(rels, base);
      && (forall v :: v in t && t[v].isStable ==> SaysStable(m, t[v], base))
      && ((forall v :: v in t ==> !t[v].isStable) ==>
          m.stableVersion == "" && m.stableDownload == "" && m.minRequired == "")
  {
    LinksStable(rels, t, base);
    GivesMinimum(rels, t);
  }

  lemma NamesBeta(rels: seq<Release>, t: Table, base: string)
    requires ListOf(rels, t) && Sound(t)
    ensures var m := ManifestOf(rels, base);
      && (forall v :: v in t && t[v].isBeta ==> SaysBeta(m, t[v], base))
      && ((forall v :: v in t ==> !t[v].isBeta) ==> m.betaVersion == "" && m.betaDownload == "")
  {
    SlotSays(rels, t, Beta(), BetaVersion(), "");
    SlotSays(rels, t, Beta(), BetaLink(base), "");
    forall v | v in t && t[v].isBeta ensures SaysBeta(ManifestOf(rels, base), t[v], base) {
      assert Beta()(t[v]);
    }
  }

  lemma NamesCritical(rels: seq<Release>, t: Table, base: string)
    requires ListOf(rels, t) && Sound(t)
    ensures var m := ManifestOf(rels, base);
      && (forall v :: v in t && t[v].isCritical ==> SaysCritical(m, t[v]))
      && ((forall v :: v in t ==> !t[v].isCritical) ==> !m.isCritical && m.criticalVersion == "")
  {
    SlotSays(rels, t, Critical(), IsCritical(), false);
    SlotSays(rels, t, Critical(), CriticalVersion(), "");
    forall v | v in t && t[v].isCritical ensures SaysCritical(ManifestOf(rels, base), t[v]) {
      assert Critical()(t[v]);
    }
  }

  /** Over every run, each slot's entry is that of the one release that holds it, and empty when none does. */
  lemma ManifestNamesSlots(ops: seq<Op>, rels: seq<Release>, base: string)
    requires ListOf(rels, Run(ops))
    ensures var m, t := ManifestOf(rels, base), Run(ops);
      && (forall v :: v in t && t[v].isStable ==> SaysStable(m, t[v], base))
      && (forall v :: v in t && t[v].isBeta ==> SaysBeta(m, t[v], base))
      && (forall v :: v in t && t[v].isCritical ==> SaysCritical(m, t[v]))
      && ((forall v :: v in t ==> !t[v].isStable) ==>
          m.stableVersion == "" && m.stableDownload == "" && m.minRequired == "")
      && ((forall v :: v in t ==> !t[v].isBeta) ==> m.betaVersion == "" && m.betaDownload == "")
      && ((forall v :: v in t ==> !t[v].isCritical) ==> !m.isCritical && m.criticalVersion == "")
  {
    OneHolderPerSlot(ops);
    NamesStable(rels, Run(ops), base);
    NamesBeta(rels, Run(ops), base);
    NamesCritical(rels, Run(ops), base);
  }

  /** The descriptions that a detailed note gives, by language. */
  ghost predicate Describes(d: DetailedNote, r: Release) {
    && d.severity == r.severity && d.description.Keys <= {"en", "it"}
    && r.descriptionEN == (if "en" in d.description then Some(d.description["en"]) else None)
    && r.descriptionIT == (if "it" in d.description then Some(d.description["it"]) else None)
  }

  lemma ListsTexts(rels: seq<Release>, t: Table, base: string)
    requires ListOf(rels, t) && Keyed(t)
    ensures var m := ManifestOf(rels, base);
      && (forall v :: v in m.checksums <==> v in t && |t[v].checksum| > 0)
      && (forall v :: v in m.checksums ==> m.checksums[v] == t[v].checksum)
      && (forall v :: v in m.notes <==> v in t && |t[v].shortNote| > 0)
      && (forall v :: v in m.notes ==> m.notes[v] == t[v].shortNote)
  {
    CollectSays(rels, t, Checksum());
    CollectSays(rels, t, Note());
  }

  lemma DetailDescribes(r: Release)
    ensures Detail(r).Some? <==> r.severity != "none"
    ensures Detail(r).Some? ==> Describes(Detail(r).value, r)
  {}

  lemma ListsDetails(rels: seq<Release>, t: Table)
    requires ListOf(rels, t) && Keyed(t)
    ensures var d := Collect(rels, Details());
      && (forall v :: v in d <==> v in t && t[v].severity != "none")
      && (forall v :: v in d ==> Describes(d[v], t[v]))
  {
    CollectSays(rels, t, Details());
    forall v | v in t
      ensures Details()(t[v]).Some? <==> t[v].severity != "none"
      ensures Details()(t[v]).Some? ==> Describes(Details()(t[v]).value, t[v])
    {
      DetailDescribes(t[v]);
    }
  }

  /** Checksums and short notes by version, where there are any; detailed notes for a severity, or none at all. */
  lemma ManifestListsReleases(ops: seq<Op>, rels: seq<Release>, base: string)
    requires ListOf(rels, Run(ops))
    ensures var m, t := ManifestOf(rels, base), Run(ops);
      && (forall v :: v in m.checksums <==> v in t && |t[v].checksum| > 0)
      && (forall v :: v in m.checksums ==> m.checksums[v] == t[v].checksum)
      && (forall v :: v in m.notes <==> v in t && |t[v].shortNote| > 0)
      && (forall v :: v in m.notes ==> m.notes[v] == t[v].shortNote)
      && (m.detailed.None? <==> forall v :: v in t ==> t[v].severity == "none")
      && (m.detailed.Some? ==>
          && (forall v :: v in m.detailed.value <==> v in t && t[v].severity != "none")
          && (forall v :: v in m.detailed.value ==> Describes(m.detailed.value[v], t[v])))
  {
    var d := Collect(rels, Details());
    OneHolderPerSlot(ops);
    ListsTexts(rels, Run(ops), base);
    ListsDetails(rels, Run(ops));
    assert ManifestOf(rels, base).detailed == if d == map[] then None else Some(d);
    assert d == map[] <==> forall v :: v !in d;
  }
}
