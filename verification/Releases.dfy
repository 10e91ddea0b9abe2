/**
  The release table: writes that move the stable, beta and critical slots between releases.
  Each handler is one transaction; a refused one leaves the table as it was. The version is
  the row key.
 */
module Releases {
  import opened Prelude

  datatype Release = Release(
    version: string, isStable: bool, isBeta: bool, filename: string, checksum: string, shortNote: string,
    severity: string, descriptionEN: Option<string>, descriptionIT: Option<string>,
    isCritical: bool, criticalVersion: Option<string>, minRequired: Option<string>, releasedAt: int)

  type Table = map<string, Release>

  const SEVERITIES := {"none", "security", "bugfix", "feature"}

  datatype PutRequest = PutRequest(
    isStable: bool, isBeta: bool, shortNote: string, severity: string,
    descriptionEN: Option<string>, descriptionIT: Option<string>,
    isCritical: bool, criticalVersion: Option<string>, minRequired: Option<string>, releasedAt: int)

  /** Only the fields sent are Some; a released_at that is not a time is Some(None). */
  datatype PatchRequest = PatchRequest(
    isStable: Option<bool>, isBeta: Option<bool>, shortNote: Option<string>, severity: Option<string>,
    descriptionEN: Option<string>, descriptionIT: Option<string>,
    isCritical: Option<bool>, criticalVersion: Option<string>, minRequired: Option<string>,
    releasedAt: Option<Option<int>>)

  const NO_FIELDS := PatchRequest(None, None, None, None, None, None, None, None, None, None)

  datatype Status = Done | BadRequest | NotFound | Failed

  // ---------------------------------------------------------------------
  // Clearing slots
  // ---------------------------------------------------------------------

  function StableCleared(t: Table, keep: string): Table {
    map v | v in t :: if v != keep then t[v].(isStable := false) else t[v]
  }

  function BetaCleared(t: Table, keep: string): Table {
    map v | v in t :: if v != keep then t[v].(isBeta := false) else t[v]
  }

  function CriticalCleared(t: Table, keep: Option<string>): Table {
    map v | v in t ::
      if t[v].isCritical && keep != Some(v) then t[v].(isCritical := false, criticalVersion := None) else t[v]
  }

  /** The table in which the slots a write claims are free for version. */
  function Cleared(t: Table, version: string, stable: bool, beta: bool, critical: bool): Table {
    var s := if stable then StableCleared(t, version) else t;
    var b := if beta then BetaCleared(s, version) else s;
    if critical then CriticalCleared(b, Some(version)) else b
  }

  /** A create clears the critical slot first, and whoever holds it. */
  function ClearedForNew(t: Table, version: string, stable: bool, beta: bool, critical: bool): Table {
    var c := if critical then CriticalCleared(t, None) else t;
    var s := if stable then StableCleared(c, version) else c;
    if beta then BetaCleared(s, version) else s
  }

  function Given<T>(o: Option<T>, stored: T): T { if o.Some? then o.value else stored }

  function PutRow(r: Release, q: PutRequest): Release {
    Release(r.version, q.isStable, q.isBeta, r.filename, r.checksum, q.shortNote,
            if q.severity == "" then "none" else q.severity,
            q.descriptionEN, q.descriptionIT, q.isCritical, q.criticalVersion, q.minRequired, q.releasedAt)
  }

  function PatchedRow(r: Release, q: PatchRequest): Release {
    Release(r.version, Given(q.isStable, r.isStable), Given(q.isBeta, r.isBeta), r.filename, r.checksum,
            Given(q.shortNote, r.shortNote), Given(q.severity, r.severity),
            if q.descriptionEN.Some? then q.descriptionEN else r.descriptionEN,
            if q.descriptionIT.Some? then q.descriptionIT else r.descriptionIT,
            Given(q.isCritical, r.isCritical),
            if q.criticalVersion.Some? then q.criticalVersion else r.criticalVersion,
            if q.minRequired.Some? then q.minRequired else r.minRequired,
            if q.releasedAt.Some? then Given(q.releasedAt.value, r.releasedAt) else r.releasedAt)
  }

  // ---------------------------------------------------------------------
  // Operations. `fails` says that a statement or the commit fails.
  // ---------------------------------------------------------------------

  datatype Op =
    | Create(row: Release, fails: bool)
    | Put(version: string, put: PutRequest, fails: bool)
    | Patch(version: string, patch: PatchRequest, fails: bool)
    | PatchChannels(version: string, stable: Option<bool>, beta: Option<bool>, fails: bool)
    | Delete(version: string, fails: bool)

  predicate Rejected(op: Op) {
    match op
    case Create(row, _) => row.version == "" || row.severity !in SEVERITIES
    case Put(_, q, _) => q.severity != "" && q.severity !in SEVERITIES
    case Patch(_, q, _) =>
      (q.severity.Some? && q.severity.value !in SEVERITIES) || q.releasedAt == Some(None) || q == NO_FIELDS
    case PatchChannels(_, stable, beta, _) => stable.None? && beta.None?
    case Delete(_, _) => false
  }

  function VersionOf(op: Op): string { if op.Create? then op.row.version else op.version }

  function ChannelPatch(stable: Option<bool>, beta: Option<bool>): PatchRequest {
    NO_FIELDS.(isStable := stable, isBeta := beta)
  }

  /** The slots an operation claims for its release. */
  function ClaimsStable(op: Op): bool {
    match op
    case Create(row, _) => row.isStable
    case Put(_, q, _) => q.isStable
    case Patch(_, q, _) => q.isStable == Some(true)
    case PatchChannels(_, stable, _, _) => stable == Some(true)
    case Delete(_, _) => false
  }

  function ClaimsBeta(op: Op): bool {
    match op
    case Create(row, _) => row.isBeta
    case Put(_, q, _) => q.isBeta
    case Patch(_, q, _) => q.isBeta == Some(true)
    case PatchChannels(_, _, beta, _) => beta == Some(true)
    case Delete(_, _) => false
  }

  function ClaimsCritical(op: Op): bool {
    match op
    case Create(row, _) => row.isCritical
    case Put(_, q, _) => q.isCritical
    case Patch(_, q, _) => q.isCritical == Some(true)
    case PatchChannels(_, _, _, _) => false
    case Delete(_, _) => false
  }

  /** The row an operation leaves, given the one there is. */
  function RowAfter(op: Op, r: Release): Release {
    match op
    case Create(row, _) => row
    case Put(_, q, _) => PutRow(r, q)
    case Patch(_, q, _) => PatchedRow(r, q)
    case PatchChannels(_, stable, beta, _) => PatchedRow(r, ChannelPatch(stable, beta))
    case Delete(_, _) => r
  }

  /** An update that changes no column counts as one that found no row. */
  function StatusOf(t: Table, op: Op): Status {
    var v := VersionOf(op);
    if Rejected(op) then BadRequest
    else if op.Delete? && v !in t then NotFound
    else if op.fails || (op.Create? && v in t) then Failed
    else if op.Create? || op.Delete? then Done
    else if v in t && RowAfter(op, t[v]) != t[v] then Done
    else NotFound
  }

  function Next(t: Table, op: Op): Table {
    var v := VersionOf(op);
    if StatusOf(t, op) != Done then t
    else if op.Delete? then t - {v}
    else if op.Create? then ClearedForNew(t, v, op.row.isStable, op.row.isBeta, op.row.isCritical)[v := op.row]
    else Cleared(t, v, ClaimsStable(op), ClaimsBeta(op), ClaimsCritical(op))[v := RowAfter(op, t[v])]
  }

  class ReleaseTable {
    var rows: Table

    constructor ()
      ensures rows == map[]
    {
      rows := map[];
    }

    /** No other version keeps the flag, and nothing else changes. */
    method ClearStableFlag(tx: Table, exceptVersion: string) returns (r: Table)
      ensures forall v :: v in r && r[v].isStable ==> v == exceptVersion
      ensures r.Keys == tx.Keys && forall v :: v in tx ==> r[v].(isStable := tx[v].isStable) == tx[v]
      ensures exceptVersion in tx ==> r[exceptVersion] == tx[exceptVersion]
      ensures r == StableCleared(tx, exceptVersion)
    {
      r := map v | v in tx :: if tx[v].isStable && v != exceptVersion then tx[v].(isStable := false) else tx[v];
    }

    /** No other version keeps the flag, and nothing else changes. */
    method ClearBetaFlag(tx: Table, exceptVersion: string) returns (r: Table)
      ensures forall v :: v in r && r[v].isBeta ==> v == exceptVersion
      ensures r.Keys == tx.Keys && forall v :: v in tx ==> r[v].(isBeta := tx[v].isBeta) == tx[v]
      ensures exceptVersion in tx ==> r[exceptVersion] == tx[exceptVersion]
      ensures r == BetaCleared(tx, exceptVersion)
    {
      r := map v | v in tx :: if tx[v].isBeta && v != exceptVersion then tx[v].(isBeta := false) else tx[v];
    }

    /** The statements that free the slots an update claims, in the order of the handlers. */
    method FreeSlots(tx: Table, version: string, stable: bool, beta: bool, critical: bool) returns (r: Table)
      ensures r == Cleared(tx, version, stable, beta, critical)
    {
      r := tx;
      if stable { r := ClearStableFlag(r, version); }
      if beta { r := ClearBetaFlag(r, version); }
      if critical { r := CriticalCleared(r, Some(version)); }
    }

    /** One UPDATE by version: how many rows it changed. */
    method UpdateRow(tx: Table, version: string, row: Release) returns (r: Table, n: nat)
      ensures n == if version in tx && row != tx[version] then 1 else 0
      ensures r == if version in tx then tx[version := row] else tx
    {
      if version in tx {
        r, n := tx[version := row], if row != tx[version] then 1 else 0;
      } else {
        r, n := tx, 0;
      }
    }

    method CreateRelease(row: Release, fails: bool) returns (s: Status)
      modifies this
      ensures s == StatusOf(old(rows), Create(row, fails)) && rows == Next(old(rows), Create(row, fails))
    {
      if row.version == "" || row.severity !in SEVERITIES { return BadRequest; }
      var tx := rows;
      if row.isCritical { tx := CriticalCleared(tx, None); }
      if row.isStable { tx := ClearStableFlag(tx, row.version); }
      if row.isBeta { tx := ClearBetaFlag(tx, row.version); }
      if row.version in tx || fails { return Failed; }
      rows := tx[row.version := row];
      return Done;
    }

    method PutRelease(version: string, q: PutRequest, fails: bool) returns (s: Status)
      modifies this
      ensures s == StatusOf(old(rows), Put(version, q, fails)) && rows == Next(old(rows), Put(version, q, fails))
    {
      var severity := if q.severity == "" then "none" else q.severity;
      if severity !in SEVERITIES { return BadRequest; }
      var tx := FreeSlots(rows, version, q.isStable, q.isBeta, q.isCritical);
      if fails { return Failed; }
      if version !in tx { return NotFound; }
      var n;
      tx, n := UpdateRow(tx, version, PutRow(tx[version], q));
      if n == 0 { return NotFound; }
      rows := tx;
      return Done;
    }

    method PatchRelease(version: string, q: PatchRequest, fails: bool) returns (s: Status)
      modifies this
      ensures s == StatusOf(old(rows), Patch(version, q, fails)) && rows == Next(old(rows), Patch(version, q, fails))
    {
      if q.severity.Some? && q.severity.value !in SEVERITIES { return BadRequest; }
      if q.releasedAt == Some(None) || q == NO_FIELDS { return BadRequest; }
      var tx := FreeSlots(rows, version, q.isStable == Some(true), q.isBeta == Some(true), q.isCritical == Some(true));
      if fails { return Failed; }
      if version !in tx { return NotFound; }
      var n;
      tx, n := UpdateRow(tx, version, PatchedRow(tx[version], q));
      if n == 0 { return NotFound; }
      rows := tx;
      return Done;
    }

    method PatchReleaseChannels(version: string, stable: Option<bool>, beta: Option<bool>, fails: bool)
      returns (s: Status)
      modifies this
      ensures s == StatusOf(old(rows), PatchChannels(version, stable, beta, fails))
      ensures rows == Next(old(rows), PatchChannels(version, stable, beta, fails))
    {
      if stable.None? && beta.None? { return BadRequest; }
      var tx := FreeSlots(rows, version, stable == Some(true), beta == Some(true), false);
      if fails { return Failed; }
      if version !in tx { return NotFound; }
      var row := tx[version].(isStable := Given(stable, tx[version].isStable),
                              isBeta := Given(beta, tx[version].isBeta));
      ChannelRow(tx[version], stable, beta);
      var n;
      tx, n := UpdateRow(tx, version, row);
      if n == 0 { return NotFound; }
      rows := tx;
      return Done;
    }

    method DeleteRelease(version: string, fails: bool) returns (s: Status)
      modifies this
      ensures s == StatusOf(old(rows), Delete(version, fails)) && rows == Next(old(rows), Delete(version, fails))
    {
      if version !in rows { return NotFound; }
      if fails { return Failed; }
      rows := rows - {version};
      return Done;
    }
  }

  lemma ChannelRow(r: Release, stable: Option<bool>, beta: Option<bool>)
    ensures PatchedRow(r, ChannelPatch(stable, beta))
      == r.(isStable := Given(stable, r.isStable), isBeta := Given(beta, r.isBeta))
  {}

  ghost predicate Keyed(t: Table) { forall v :: v in t ==> t[v].version == v }

  /** What clearing does to a row of another version. */
  function ClearedRow(r: Release, stable: bool, beta: bool, critical: bool): Release {
    r.(isStable := r.isStable && !stable, isBeta := r.isBeta && !beta, isCritical := r.isCritical && !critical,
       criticalVersion := if critical && r.isCritical then None else r.criticalVersion)
  }

  lemma ClearedForNewAt(t: Table, version: string, stable: bool, beta: bool, critical: bool, v: string)
    requires v in t && v != version
    ensures ClearedForNew(t, version, stable, beta, critical)[v] == ClearedRow(t[v], stable, beta, critical)
  {}

  lemma ClearedAt(t: Table, version: string, stable: bool, beta: bool, critical: bool, v: string)
    requires v in t
    ensures Cleared(t, version, stable, beta, critical)[v] ==
            if v == version then t[v] else ClearedRow(t[v], stable, beta, critical)
  {}
}
