/** Every run leaves each slot with at most one holder, so the manifest does not depend on the order of the rows. */
module ReleaseTheorems {
  import opened Prelude
  import opened Releases

  // ---------------------------------------------------------------------
  // Slots
  // ---------------------------------------------------------------------

  ghost predicate OneHolder(t: Table, holds: Release -> bool) {
    forall v, w :: v in t && w in t && holds(t[v]) && holds(t[w]) ==> v == w
  }

  function Stable(): Release -> bool { (r: Release) => r.isStable }
  function Beta(): Release -> bool { (r: Release) => r.isBeta }
  function Critical(): Release -> bool { (r: Release) => r.isCritical }

  ghost predicate Sound(t: Table) {
    Keyed(t) && OneHolder(t, Stable()) && OneHolder(t, Beta()) && OneHolder(t, Critical())
  }

  /** The rows of other versions after an operation: they can only lose the slots it claims. */
  lemma OthersOnlyLoseSlots(t: Table, op: Op, v: string)
    requires v != VersionOf(op)
    ensures v in Next(t, op) <==> v in t
    ensures v in t && StatusOf(t, op) == Done ==>
      Next(t, op)[v] == ClearedRow(t[v], ClaimsStable(op), ClaimsBeta(op), ClaimsCritical(op))
    ensures v in t && StatusOf(t, op) != Done ==> Next(t, op)[v] == t[v]
  {
    if v in t {
      ClearedAt(t, VersionOf(op), ClaimsStable(op), ClaimsBeta(op), ClaimsCritical(op), v);
      ClearedForNewAt(t, VersionOf(op), ClaimsStable(op), ClaimsBeta(op), ClaimsCritical(op), v);
    }
  }

  /** The row of the operation's own version holds a new slot only if the operation claims it. */
  lemma OwnRow(t: Table, op: Op)
    requires Keyed(t) && VersionOf(op) in Next(t, op)
    ensures var v := VersionOf(op); var r := Next(t, op)[v];
      && r.version == v
      && (r.isStable && !(v in t && t[v].isStable) ==> StatusOf(t, op) == Done && ClaimsStable(op))
      && (r.isBeta && !(v in t && t[v].isBeta) ==> StatusOf(t, op) == Done && ClaimsBeta(op))
      && (r.isCritical && !(v in t && t[v].isCritical) ==> StatusOf(t, op) == Done && ClaimsCritical(op))
  {}

  /** A successful claim takes the slot. */
  lemma ClaimTakesSlot(t: Table, op: Op)
    requires StatusOf(t, op) == Done && !op.Delete?
    ensures VersionOf(op) in Next(t, op)
    ensures var v := VersionOf(op);
      && (ClaimsStable(op) ==> Next(t, op)[v].isStable)
      && (ClaimsBeta(op) ==> Next(t, op)[v].isBeta)
      && (ClaimsCritical(op) ==> Next(t, op)[v].isCritical)
  {}

  lemma NextKeepsHolder(t: Table, op: Op, holds: Release -> bool, claims: bool)
    requires OneHolder(t, holds)
    requires forall v :: v in Next(t, op) && v != VersionOf(op) && holds(Next(t, op)[v]) ==>
      v in t && holds(t[v]) && !claims
    requires VersionOf(op) in Next(t, op) && holds(Next(t, op)[VersionOf(op)]) ==>
      claims || (VersionOf(op) in t && holds(t[VersionOf(op)]))
    ensures OneHolder(Next(t, op), holds)
  {
    var t', own := Next(t, op), VersionOf(op);
    forall v, w | v in t' && w in t' && holds(t'[v]) && holds(t'[w]) ensures v == w {
      if v != own { assert v in t && holds(t[v]); }
      if w != own { assert w in t && holds(t[w]); }
    }
  }

  lemma NextSound(t: Table, op: Op)
    requires Sound(t)
    ensures Sound(Next(t, op))
  {
    var done := StatusOf(t, op) == Done;
    forall v | v in Next(t, op) && v != VersionOf(op)
      ensures v in t && Next(t, op)[v].version == v
      ensures Next(t, op)[v].isStable ==> t[v].isStable && !(done && ClaimsStable(op))
      ensures Next(t, op)[v].isBeta ==> t[v].isBeta && !(done && ClaimsBeta(op))
      ensures Next(t, op)[v].isCritical ==> t[v].isCritical && !(done && ClaimsCritical(op))
    {
      OthersOnlyLoseSlots(t, op, v);
    }
    if VersionOf(op) in Next(t, op) { OwnRow(t, op); }
    NextKeepsHolder(t, op, Stable(), done && ClaimsStable(op));
    NextKeepsHolder(t, op, Beta(), done && ClaimsBeta(op));
    NextKeepsHolder(t, op, Critical(), done && ClaimsCritical(op));
  }

  function Run(ops: seq<Op>): Table {
    if ops == [] then map[] else Next(Run(ops[..|ops| - 1]), ops[|ops| - 1])
  }

  /** Over every run, at most one release is stable, one beta and one critical. */
  lemma {:induction false} OneHolderPerSlot(ops: seq<Op>)
    ensures Sound(Run(ops))
  {
    if ops != [] {
      OneHolderPerSlot(ops[..|ops| - 1]);
      NextSound(Run(ops[..|ops| - 1]), ops[|ops| - 1]);
    }
  }

  // ---------------------------------------------------------------------
  // The manifest
  // ---------------------------------------------------------------------

  datatype DetailedNote = DetailedNote(severity: string, description: map<string, string>)

  datatype Manifest = Manifest(
    stableVersion: string, betaVersion: string, stableDownload: string, betaDownload: string,
    isCritical: bool, criticalVersion: string, minRequired: string,
    checksums: map<string, string>, notes: map<string, string>, detailed: Option<map<string, DetailedNote>>)

  function Download(base: string, r: Release): string { base + "/v2/updates/releases/" + r.version + "/download" }

  function Detail(r: Release): Option<DetailedNote> {
    if r.severity == "none" then None
    else
      var en: map<string, string> := if r.descriptionEN.Some? then map["en" := r.descriptionEN.value] else map[];
      Some(DetailedNote(r.severity, if r.descriptionIT.Some? then en["it" := r.descriptionIT.value] else en))
  }

  /** What the releases that give something give, by version. */
  function Collect<T>(rels: seq<Release>, give: Release -> Option<T>): map<string, T> {
    if rels == [] then map[]
    else
      var rest, r := Collect(rels[..|rels| - 1], give), rels[|rels| - 1];
      if give(r).Some? then rest[r.version := give(r).value] else rest
  }

  /** What the last release that gives something gives. */
  function Last<T>(rels: seq<Release>, give: Release -> Option<T>, none: T): T {
    if rels == [] then none
    else if give(rels[|rels| - 1]).Some? then give(rels[|rels| - 1]).value
    else Last(rels[..|rels| - 1], give, none)
  }

  function If<T>(b: bool, x: T): Option<T> { if b then Some(x) else None }

  function Checksum(): Release -> Option<string> { (r: Release) => If(r.checksum != "", r.checksum) }
  function Note(): Release -> Option<string> { (r: Release) => If(r.shortNote != "", r.shortNote) }
  function Details(): Release -> Option<DetailedNote> { (r: Release) => Detail(r) }
  function StableVersion(): Release -> Option<string> { (r: Release) => If(r.isStable, r.version) }
  function BetaVersion(): Release -> Option<string> { (r: Release) => If(r.isBeta, r.version) }
  function StableLink(base: string): Release -> Option<string> { (r: Release) => If(r.isStable, Download(base, r)) }
  function BetaLink(base: string): Release -> Option<string> { (r: Release) => If(r.isBeta, Download(base, r)) }
  function IsCritical(): Release -> Option<bool> { (r: Release) => If(r.isCritical, true) }
  function CriticalVersion(): Release -> Option<string> {
    (r: Release) => If(r.isCritical, Given(r.criticalVersion, r.version))
  }
  function MinRequired(): Release -> Option<string> { (r: Release) => if r.isStable then r.minRequired else None }

  function Draft(rels: seq<Release>, base: string): Manifest {
    Manifest(
      Last(rels, StableVersion(), ""), Last(rels, BetaVersion(), ""),
      Last(rels, StableLink(base), ""), Last(rels, BetaLink(base), ""),
      Last(rels, IsCritical(), false), Last(rels, CriticalVersion(), ""), Last(rels, MinRequired(), ""),
      Collect(rels, Checksum()), Collect(rels, Note()), Some(Collect(rels, Details())))
  }

  /** No detailed notes at all are left out of the manifest. */
  function ManifestOf(rels: seq<Release>, base: string): Manifest {
    var d := Draft(rels, base);
    if d.detailed == Some(map[]) then d.(detailed := None) else d
  }

  method AddDetails(detailed: map<string, DetailedNote>, rel: Release) returns (r: map<string, DetailedNote>)
    ensures r == if Detail(rel).Some? then detailed[rel.version := Detail(rel).value] else detailed
  {
    r := detailed;
    if rel.severity != "none" {
      var description: map<string, string> := map[];
      if rel.descriptionEN.Some? { description := description["en" := rel.descriptionEN.value]; }
      if rel.descriptionIT.Some? { description := description["it" := rel.descriptionIT.value]; }
      r := r[rel.version := DetailedNote(rel.severity, description)];
    }
  }

  /** A manifest with one more release. */
  function Extended(m: Manifest, rel: Release, base: string): Manifest
    requires m.detailed.Some?
  {
    Manifest(
      Given(StableVersion()(rel), m.stableVersion), Given(BetaVersion()(rel), m.betaVersion),
      Given(StableLink(base)(rel), m.stableDownload), Given(BetaLink(base)(rel), m.betaDownload),
      Given(IsCritical()(rel), m.isCritical), Given(CriticalVersion()(rel), m.criticalVersion),
      Given(MinRequired()(rel), m.minRequired),
      if rel.checksum != "" then m.checksums[rel.version := rel.checksum] else m.checksums,
      if rel.shortNote != "" then m.notes[rel.version := rel.shortNote] else m.notes,
      Some(if Detail(rel).Some? then m.detailed.value[rel.version := Detail(rel).value] else m.detailed.value))
  }

  lemma LastThen<T>(rels: seq<Release>, r: Release, give: Release -> Option<T>, none: T)
    ensures Last(rels + [r], give, none) == Given(give(r), Last(rels, give, none))
  {
    assert (rels + [r])[..|rels|] == rels;
  }

  lemma CollectThen<T>(rels: seq<Release>, r: Release, give: Release -> Option<T>)
    ensures Collect(rels + [r], give) ==
            if give(r).Some? then Collect(rels, give)[r.version := give(r).value] else Collect(rels, give)
  {
    assert (rels + [r])[..|rels|] == rels;
  }

  lemma DraftThen(rels: seq<Release>, r: Release, base: string)
    ensures Draft(rels + [r], base) == Extended(Draft(rels, base), r, base)
  {
    LastThen(rels, r, StableVersion(), "");
    LastThen(rels, r, BetaVersion(), "");
    LastThen(rels, r, StableLink(base), "");
    LastThen(rels, r, BetaLink(base), "");
    LastThen(rels, r, IsCritical(), false);
    LastThen(rels, r, CriticalVersion(), "");
    LastThen(rels, r, MinRequired(), "");
    CollectThen(rels, r, Checksum());
    CollectThen(rels, r, Note());
    CollectThen(rels, r, Details());
  }

  method AddRelease(m: Manifest, rel: Release, base: string) returns (r: Manifest)
    requires m.detailed.Some?
    ensures r == Extended(m, rel, base)
  {
    r := m;
    if rel.checksum != "" { r := r.(checksums := r.checksums[rel.version := rel.checksum]); }
    if rel.shortNote != "" { r := r.(notes := r.notes[rel.version := rel.shortNote]); }
    var detailed := AddDetails(m.detailed.value, rel);
    r := r.(detailed := Some(detailed));
    if rel.isCritical {
      var named := if rel.criticalVersion.Some? then rel.criticalVersion.value else rel.version;
      r := r.(isCritical := true, criticalVersion := named);
    }
    if rel.isStable {
      r := r.(stableVersion := rel.version, stableDownload := Download(base, rel));
      if rel.minRequired.Some? { r := r.(minRequired := rel.minRequired.value); }
    }
    if rel.isBeta {
      r := r.(betaVersion := rel.version, betaDownload := Download(base, rel));
    }
  }

  method BuildManifest(rels: seq<Release>, base: string) returns (m: Manifest)
    ensures m == ManifestOf(rels, base)
  {
    m := Manifest("", "", "", "", false, "", "", map[], map[], Some(map[]));
    var i := 0;
    while i < |rels|
      invariant 0 <= i <= |rels| && m == Draft(rels[..i], base)
    {
      m := AddRelease(m, rels[i], base);
      DraftThen(rels[..i], rels[i], base);
      assert rels[..i] + [rels[i]] == rels[..i + 1];
      i := i + 1;
    }
    assert rels[..|rels|] == rels;
    if m.detailed == Some(map[]) { m := m.(detailed := None); }
  }

  // ---------------------------------------------------------------------
  // The order of the rows does not matter
  // ---------------------------------------------------------------------

  /** The rows of a table in some order. */
  ghost predicate ListOf(rels: seq<Release>, t: Table) {
    && DistinctVersions(rels)
    && (forall r :: r in rels <==> r.version in t && t[r.version] == r)
  }

  ghost predicate DistinctVersions(rels: seq<Release>) {
    forall i, j :: 0 <= i < j < |rels| ==> rels[i].version != rels[j].version
  }

  lemma {:induction false} CollectedIff<T>(rels: seq<Release>, give: Release -> Option<T>, v: string)
    requires DistinctVersions(rels)
    ensures v in Collect(rels, give) <==> exists r :: r in rels && r.version == v && give(r).Some?
    ensures forall r :: r in rels && r.version == v && give(r).Some? ==> Collect(rels, give)[v] == give(r).value
  {
    if rels != [] {
      var front, last := rels[..|rels| - 1], rels[|rels| - 1];
      CollectedIff(front, give, v);
      assert rels == front + [last];
    }
  }

  /** Whatever the order, the same rows collect to the same map. */
  lemma CollectSame<T>(a: seq<Release>, b: seq<Release>, t: Table, give: Release -> Option<T>)
    requires ListOf(a, t) && ListOf(b, t)
    ensures Collect(a, give) == Collect(b, give)
  {
    forall v ensures v in Collect(a, give) <==> v in Collect(b, give)
             ensures v in Collect(a, give) && v in Collect(b, give) ==> Collect(a, give)[v] == Collect(b, give)[v]
    {
      CollectedIff(a, give, v);
      CollectedIff(b, give, v);
    }
  }

  lemma {:induction false} LastIs<T>(rels: seq<Release>, give: Release -> Option<T>, none: T)
    ensures (Last(rels, give, none) == none && forall r :: r in rels ==> give(r).None?)
         || exists r :: r in rels && give(r) == Some(Last(rels, give, none))
  {
    if rels != [] {
      var front, last := rels[..|rels| - 1], rels[|rels| - 1];
      if give(last).Some? {
        assert last in rels;
      } else {
        LastIs(front, give, none);
        assert rels == front + [last];
      }
    }
  }

  /** A slot's entry is its one holder's, wherever the holder stands. */
  lemma LastSame<T>(a: seq<Release>, b: seq<Release>, t: Table, holds: Release -> bool, give: Release -> Option<T>,
                    none: T)
    requires ListOf(a, t) && ListOf(b, t) && OneHolder(t, holds)
    requires forall r :: give(r).Some? ==> holds(r)
    ensures Last(a, give, none) == Last(b, give, none)
  {
    LastIs(a, give, none);
    LastIs(b, give, none);
    if r :| r in a && give(r) == Some(Last(a, give, none)) {
      assert r in b && holds(t[r.version]);
      var s :| s in b && give(s) == Some(Last(b, give, none));
      assert holds(t[s.version]);
    }
  }

  /** Over every run, the manifest is the same for every order in which the rows are read. */
  lemma ManifestIgnoresOrder(ops: seq<Op>, a: seq<Release>, b: seq<Release>, base: string)
    requires ListOf(a, Run(ops)) && ListOf(b, Run(ops))
    ensures ManifestOf(a, base) == ManifestOf(b, base)
  {
    var t := Run(ops);
    OneHolderPerSlot(ops);
    LastSame(a, b, t, Stable(), StableVersion(), "");
    LastSame(a, b, t, Beta(), BetaVersion(), "");
    LastSame(a, b, t, Stable(), StableLink(base), "");
    LastSame(a, b, t, Beta(), BetaLink(base), "");
    LastSame(a, b, t, Critical(), IsCritical(), false);
    LastSame(a, b, t, Critical(), CriticalVersion(), "");
    LastSame(a, b, t, Stable(), MinRequired(), "");
    CollectSame(a, b, t, Checksum());
    CollectSame(a, b, t, Note());
    CollectSame(a, b, t, Details());
  }

  /** With two holders of a slot, the order would show. */
  lemma TwoHoldersDisagree(r: Release, s: Release, base: string)
    requires r.isStable && s.isStable && r.version != s.version
    ensures ManifestOf([r, s], base) != ManifestOf([s, r], base)
  {
    assert ManifestOf([r, s], base).stableVersion == s.version;
    assert ManifestOf([s, r], base).stableVersion == r.version;
  }
}
