/**
  The client table: one sighting finds its row by hwid or by (hostname, domain), removes the
  row that squats on the pair, then updates or inserts. The table has two unique keys; a
  write that would break one is refused, as the database refuses it.
 */
module ClientUpsert {
  import opened Prelude

  datatype Session = Session(user: Option<string>, state: Option<string>, disconnectedAt: Option<int>)

  datatype Machine = Machine(serial: Option<string>, product: Option<string>, osVersion: Option<string>,
                             emlyVersion: Option<string>)

  datatype Sighting = Sighting(updaterVersion: Option<string>, contact: Option<string>, ip: Option<string>)

  datatype Row = Row(
    hwid: Option<string>, hostname: string, adDomain: string,
    session: Session, machine: Machine, sighting: Sighting, firstSeen: int, lastSeen: int)

  type Rows = map<nat, Row>

  /** What a request says about its sender; an empty string stands for a header not sent. */
  datatype Identity = Identity(
    hwid: string, hostname: string, adDomain: string,
    loggedUser: string, loggedUserState: string, disconnectedAt: Option<int>, nobody: bool,
    serial: string, product: string, osVersion: string, emlyVersion: string,
    uaVersion: string, contact: string, ip: string)

  // ---------------------------------------------------------------------
  // Unique keys
  // ---------------------------------------------------------------------

  predicate SamePair(r: Row, hostname: string, adDomain: string) { r.hostname == hostname && r.adDomain == adDomain }

  predicate SameHwid(r: Row, hwid: string) { r.hwid == Some(hwid) }

  /** Two rows that the unique keys do not allow together; rows without a hwid never share one. */
  predicate Clash(a: Row, b: Row) {
    SamePair(a, b.hostname, b.adDomain) || (b.hwid.Some? && SameHwid(a, b.hwid.value))
  }

  ghost predicate UniqueKeys(rows: Rows) {
    forall i, j :: i in rows && j in rows && i != j ==> !Clash(rows[i], rows[j])
  }

  /** Whether the database refuses to write row under id. */
  ghost predicate Collides(rows: Rows, id: nat, row: Row) {
    exists k :: k in rows && k != id && Clash(rows[k], row)
  }

  lemma WriteKeepsUnique(rows: Rows, id: nat, row: Row)
    requires UniqueKeys(rows)
    ensures UniqueKeys(rows[id := row]) <==> !Collides(rows, id, row)
  {
    if Collides(rows, id, row) {
      var k :| k in rows && k != id && Clash(rows[k], row);
      assert Clash(rows[id := row][k], rows[id := row][id]);
    }
  }

  // ---------------------------------------------------------------------
  // The three steps
  // ---------------------------------------------------------------------

  ghost function FindHwid(rows: Rows, hwid: string): (r: Option<nat>)
    ensures r.Some? ==> r.value in rows && SameHwid(rows[r.value], hwid)
    ensures r.None? ==> forall k :: k in rows ==> !SameHwid(rows[k], hwid)
  {
    if k :| k in rows && SameHwid(rows[k], hwid) then Some(k) else None
  }

  ghost function FindPair(rows: Rows, hostname: string, adDomain: string): (r: Option<nat>)
    ensures r.Some? ==> r.value in rows && SamePair(rows[r.value], hostname, adDomain)
    ensures r.None? ==> forall k :: k in rows ==> !SamePair(rows[k], hostname, adDomain)
  {
    if k :| k in rows && SamePair(rows[k], hostname, adDomain) then Some(k) else None
  }

  ghost function Target(rows: Rows, id: Identity): (r: Option<nat>)
    ensures r.Some? ==> r.value in rows
  {
    var byHwid := if id.hwid != "" then FindHwid(rows, id.hwid) else None;
    if byHwid.Some? then byHwid
    else if id.hostname != "" then FindPair(rows, id.hostname, id.adDomain)
    else None
  }

  /** Another row holds the pair this sighting is about to write. */
  predicate Squats(rows: Rows, id: Identity, target: Option<nat>, k: nat) {
    k in rows && SamePair(rows[k], id.hostname, id.adDomain) && target != Some(k)
  }

  function WithoutSquatters(rows: Rows, id: Identity, target: Option<nat>): Rows {
    if id.hostname == "" then rows else map k | k in rows && !Squats(rows, id, target, k) :: rows[k]
  }

  function Sent(s: string): Option<string> { if s == "" then None else Some(s) }

  /** A header not sent leaves the stored value. */
  function Keep(s: string, stored: Option<string>): Option<string> { if s == "" then stored else Some(s) }

  function NewSighting(id: Identity): Sighting { Sighting(Sent(id.uaVersion), Sent(id.contact), Sent(id.ip)) }

  function UpdatedSession(id: Identity, s: Session): Session {
    Session(
      if id.nobody then None else Keep(id.loggedUser, s.user),
      if id.nobody then None else Keep(id.loggedUserState, s.state),
      if id.nobody || id.loggedUserState != "" then id.disconnectedAt else s.disconnectedAt)
  }

  function UpdatedRow(id: Identity, r: Row, now: int): Row {
    Row(Keep(id.hwid, r.hwid), id.hostname, id.adDomain,
        UpdatedSession(id, r.session),
        Machine(Keep(id.serial, r.machine.serial), Keep(id.product, r.machine.product),
                Keep(id.osVersion, r.machine.osVersion), Keep(id.emlyVersion, r.machine.emlyVersion)),
        NewSighting(id), r.firstSeen, now)
  }

  function InsertedRow(id: Identity, now: int): Row {
    Row(Sent(id.hwid), id.hostname, id.adDomain,
        Session(Sent(id.loggedUser), Sent(id.loggedUserState), id.disconnectedAt),
        Machine(Sent(id.serial), Sent(id.product), Sent(id.osVersion), Sent(id.emlyVersion)),
        NewSighting(id), now, now)
  }

  datatype Table = Table(rows: Rows, nextId: nat)

  ghost predicate Sound(t: Table) { UniqueKeys(t.rows) && forall k :: k in t.rows ==> k < t.nextId }

  /** The id a sighting writes to and the row it writes. */
  ghost function Written(t: Table, id: Identity, now: int): (nat, Row) {
    var target := Target(t.rows, id);
    if target.Some? then (target.value, UpdatedRow(id, t.rows[target.value], now)) else (t.nextId, InsertedRow(id, now))
  }

  /** None where the database refuses the write. */
  ghost function Outcome(t: Table, id: Identity, now: int): Option<nat> {
    var (k, row) := Written(t, id, now);
    if Collides(WithoutSquatters(t.rows, id, Target(t.rows, id)), k, row) then None else Some(k)
  }

  ghost function Upserted(t: Table, id: Identity, now: int): Table {
    var (k, row) := Written(t, id, now);
    var rest := WithoutSquatters(t.rows, id, Target(t.rows, id));
    if Outcome(t, id, now).None? then t.(rows := rest)
    else Table(rest[k := row], if k == t.nextId then t.nextId + 1 else t.nextId)
  }

  class ClientTable {
    var rows: Rows
    var nextId: nat

    ghost function Contents(): Table reads this { Table(rows, nextId) }

    constructor ()
      ensures Contents() == Table(map[], 1)
    {
      rows, nextId := map[], 1;
    }

    method LookupHwid(hwid: string) returns (r: Option<nat>)
      requires UniqueKeys(rows)
      ensures r == FindHwid(rows, hwid)
    {
      if exists k: nat :: k in rows && SameHwid(rows[k], hwid) {
        var k: nat :| k in rows && SameHwid(rows[k], hwid);
        return Some(k);
      }
      return None;
    }

    method LookupPair(hostname: string, adDomain: string) returns (r: Option<nat>)
      requires UniqueKeys(rows)
      ensures r == FindPair(rows, hostname, adDomain)
    {
      if exists k: nat :: k in rows && SamePair(rows[k], hostname, adDomain) {
        var k: nat :| k in rows && SamePair(rows[k], hostname, adDomain);
        return Some(k);
      }
      return None;
    }

    /** One write of the database, refused when it would break a unique key. */
    method Write(id: nat, row: Row) returns (ok: bool)
      modifies this`rows
      ensures ok == !Collides(old(rows), id, row)
      ensures rows == if ok then old(rows)[id := row] else old(rows)
    {
      ok := !exists k: nat :: k in rows && k != id && Clash(rows[k], row);
      if ok { rows := rows[id := row]; }
    }

    method Upsert(id: Identity, now: int) returns (r: Option<nat>)
      requires Sound(Contents())
      modifies this
      ensures r == Outcome(old(Contents()), id, now)
      ensures Contents() == Upserted(old(Contents()), id, now)
    {
      var target: Option<nat> := None;
      if id.hwid != "" {
        target := LookupHwid(id.hwid);
      }
      if target.None? && id.hostname != "" {
        target := LookupPair(id.hostname, id.adDomain);
      }
      assert target == Target(rows, id);
      if id.hostname != "" {
        rows := map k | k in rows && !Squats(rows, id, target, k) :: rows[k];
      }
      if target.Some? {
        var ok := Write(target.value, UpdatedRow(id, rows[target.value], now));
        return if ok then target else None;
      }
      var ok := Write(nextId, InsertedRow(id, now));
      if ok {
        nextId := nextId + 1;
        return Some(nextId - 1);
      }
      return None;
    }
  }

  // ---------------------------------------------------------------------
  // What identities requests can carry
  // ---------------------------------------------------------------------

  /** Parsing done by libraries: lower-cased and trimmed text, RFC 3339 times, dotted versions against 1.6.2. */
  datatype Parsing = Parsing(tidy: string -> string, time: string -> Option<int>, against162: string -> Option<int>)

  const STATES := {"active-console", "active-rdp", "disconnected"}

  function ParseSession(p: Parsing, state: string, disconnectedAt: string): (r: (string, Option<int>))
    ensures r.0 == if p.tidy(state) in STATES then p.tidy(state) else ""
    ensures r.1 == if r.0 == "disconnected" then p.time(disconnectedAt) else None
  {
    var s := p.tidy(state);
    if s == "active-console" || s == "active-rdp" then (s, None)
    else if s == "disconnected" then (s, p.time(disconnectedAt))
    else ("", None)
  }

  /** Only an updater that knows how to say so, version 1.6.2 or later, is believed. */
  function ReportsNobody(p: Parsing, loggedUser: string, uaVersion: string): (r: bool)
    ensures r <==> |loggedUser| == 0 < |uaVersion| && exists c :: p.against162(uaVersion) == Some(c) && c >= 0
  {
    if loggedUser != "" || uaVersion == "" then false
    else var cmp := p.against162(uaVersion); cmp.Some? && cmp.value >= 0
  }

  /** The identity a request's headers give. */
  ghost predicate FromRequest(p: Parsing, id: Identity) {
    && id.nobody == ReportsNobody(p, id.loggedUser, id.uaVersion)
    && exists state, at :: ParseSession(p, state, at) == (id.loggedUserState, id.disconnectedAt)
  }
}
