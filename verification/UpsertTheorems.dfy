/** What one sighting and every run of sightings keep in the client table, and when repeating one is harmless. */
module UpsertTheorems {
  import opened Prelude
  import opened ClientUpsert

  // ---------------------------------------------------------------------
  // One sighting
  // ---------------------------------------------------------------------

  /** A sighting without a hostname meets a row, not its own, that already holds the empty hostname in its domain. */
  ghost predicate NamelessRival(t: Table, id: Identity) {
    id.hostname == "" && exists k :: Squats(t.rows, id, Target(t.rows, id), k)
  }

  /** The hwid a sighting writes is held by no other row. */
  lemma HwidIsFree(t: Table, id: Identity, now: int, k: nat)
    requires Sound(t) && k in t.rows && k != Written(t, id, now).0
    ensures var row := Written(t, id, now).1; row.hwid.Some? ==> !SameHwid(t.rows[k], row.hwid.value)
  {
    var (w, row) := Written(t, id, now);
    if Target(t.rows, id).Some? {
      assert !Clash(t.rows[k], t.rows[w]);
      if id.hwid != "" && FindHwid(t.rows, id.hwid).Some? {
        assert !Clash(t.rows[k], t.rows[FindHwid(t.rows, id.hwid).value]);
      }
    }
  }

  /** The database refuses the write exactly when there is a nameless rival; then nothing changes at all. */
  lemma UpsertRefusedIff(t: Table, id: Identity, now: int)
    requires Sound(t)
    ensures Outcome(t, id, now).None? <==> NamelessRival(t, id)
    ensures Outcome(t, id, now).None? ==> Upserted(t, id, now) == t
  {
    var target := Target(t.rows, id);
    var (w, row) := Written(t, id, now);
    var rest := WithoutSquatters(t.rows, id, target);
    if NamelessRival(t, id) {
      var k :| Squats(t.rows, id, target, k);
      assert k in rest && k != w && Clash(rest[k], row);
    }
    if Collides(rest, w, row) {
      var k :| k in rest && k != w && Clash(rest[k], row);
      HwidIsFree(t, id, now, k);
      assert Squats(t.rows, id, target, k);
    }
  }

  lemma UpsertSound(t: Table, id: Identity, now: int)
    requires Sound(t)
    ensures Sound(Upserted(t, id, now))
  {
    var (w, row) := Written(t, id, now);
    var rest := WithoutSquatters(t.rows, id, Target(t.rows, id));
    assert UniqueKeys(rest);
    WriteKeepsUnique(rest, w, row);
  }

  /** The row that is left out: it held the pair, and the sighting's hwid led to another row. */
  ghost predicate Superseded(t: Table, id: Identity, k: nat) {
    id.hostname != "" && Squats(t.rows, id, Target(t.rows, id), k)
  }

  lemma OneSquatter(t: Table, id: Identity, j: nat, k: nat)
    requires Sound(t) && Superseded(t, id, j) && Superseded(t, id, k)
    ensures j == k
  {
    assert Clash(t.rows[j], t.rows[k]);
  }

  /** A row disappears only when the hwid identified a different row. */
  lemma SupersededByHwid(t: Table, id: Identity, k: nat)
    requires Sound(t) && Superseded(t, id, k)
    ensures id.hwid != "" && exists j :: j in t.rows && j != k && SameHwid(t.rows[j], id.hwid)
  {
    var target := Target(t.rows, id);
    assert target.Some? && target.value != k;
    assert !Clash(t.rows[k], t.rows[target.value]);
  }

  /** Everything a successful sighting does to the table. */
  lemma UpsertEffect(t: Table, id: Identity, now: int)
    requires Sound(t) && !NamelessRival(t, id)
    ensures var r, t' := Outcome(t, id, now), Upserted(t, id, now);
      && r.Some? && r.value in t'.rows
      && SamePair(t'.rows[r.value], id.hostname, id.adDomain)
      && (id.hwid != "" ==> SameHwid(t'.rows[r.value], id.hwid))
      && (forall k :: k in t.rows && k != r.value && !Superseded(t, id, k) ==> k in t'.rows && t'.rows[k] == t.rows[k])
      && (forall k :: k in t'.rows && k != r.value ==> k in t.rows)
      && (forall k :: Superseded(t, id, k) ==> k !in t'.rows)
      && |t.rows.Keys - t'.rows.Keys| <= 1
  {
    UpsertRefusedIff(t, id, now);
    var w, t' := Outcome(t, id, now).value, Upserted(t, id, now);
    forall k | k in t.rows && k !in t'.rows ensures Superseded(t, id, k) {}
    AtMostOne(t.rows.Keys - t'.rows.Keys, k => k in t.rows && k !in t'.rows) by {
      forall j, k | j in t.rows && j !in t'.rows && k in t.rows && k !in t'.rows
        ensures j == k
      {
        OneSquatter(t, id, j, k);
      }
    }
  }

  lemma AtMostOne(s: set<nat>, p: nat -> bool)
    requires forall k :: k in s ==> p(k)
    requires forall j, k :: p(j) && p(k) ==> j == k
    ensures |s| <= 1
  {
    if s != {} {
      var k :| k in s;
      assert p(k);
      forall j | j in s ensures j == k { assert p(j); }
      assert s == {k};
    }
  }

  // ---------------------------------------------------------------------
  // Runs
  // ---------------------------------------------------------------------

  datatype Report = Report(id: Identity, at: int)

  ghost function Run(t: Table, reports: seq<Report>): Table {
    if reports == [] then t
    else
      var front, last := reports[..|reports| - 1], reports[|reports| - 1];
      Upserted(Run(t, front), last.id, last.at)
  }

  const NEW := Table(map[], 1)

  lemma {:induction false} RunSound(reports: seq<Report>)
    ensures Sound(Run(NEW, reports))
  {
    if reports != [] {
      var front, last := reports[..|reports| - 1], reports[|reports| - 1];
      RunSound(front);
      UpsertSound(Run(NEW, front), last.id, last.at);
    }
  }

  /** After any run, both keys are unique and the next sighting that names its host cannot be refused. */
  lemma EveryRunIsSafe(reports: seq<Report>, next: Report)
    ensures UniqueKeys(Run(NEW, reports).rows)
    ensures next.id.hostname != "" ==> Outcome(Run(NEW, reports), next.id, next.at).Some?
  {
    RunSound(reports);
    UpsertRefusedIff(Run(NEW, reports), next.id, next.at);
  }

  // ---------------------------------------------------------------------
  // Repeating a sighting
  // ---------------------------------------------------------------------

  /** Equal but for the time of the last sighting. */
  predicate SameBut(a: Row, b: Row) { a.(lastSeen := 0) == b.(lastSeen := 0) }

  ghost predicate SameTables(a: Table, b: Table) {
    && a.nextId == b.nextId && a.rows.Keys == b.rows.Keys
    && forall k :: k in a.rows ==> SameBut(a.rows[k], b.rows[k])
  }

  /** The second of two equal sightings is accepted, goes to the same row and changes nothing but timestamps. */
  ghost predicate RepeatIsHarmless(t: Table, id: Identity, now: int, later: int) {
    var once := Upserted(t, id, now);
    && Outcome(once, id, later) == Outcome(t, id, now)
    && SameTables(once, Upserted(once, id, later))
  }

  /** A client that is new, says that nobody is logged on, and still sends a user or a session state. */
  ghost predicate ContradictsItself(t: Table, id: Identity) {
    Target(t.rows, id).None? && id.nobody && (id.loggedUser != "" || id.loggedUserState != "")
  }

  /** An identified client is found again where its sighting was written. */
  lemma TargetAgain(t: Table, id: Identity, now: int)
    requires Sound(t) && Outcome(t, id, now).Some?
    ensures Target(Upserted(t, id, now).rows, id) ==
            if id.hwid == "" && id.hostname == "" then None else Outcome(t, id, now)
  {
    UpsertSound(t, id, now);
    var t', w := Upserted(t, id, now), Outcome(t, id, now).value;
    assert w in t'.rows && SamePair(t'.rows[w], id.hostname, id.adDomain);
    forall k | k in t'.rows && k != w ensures !Clash(t'.rows[k], t'.rows[w]) {}
  }

  /** Writing the same report twice into a row. */
  lemma UpdateTwice(id: Identity, r: Row, now: int, later: int)
    ensures SameBut(UpdatedRow(id, r, now), UpdatedRow(id, UpdatedRow(id, r, now), later))
  {}

  lemma UpdateInserted(id: Identity, now: int, later: int)
    ensures SameBut(InsertedRow(id, now), UpdatedRow(id, InsertedRow(id, now), later))
       <==> !(id.nobody && (id.loggedUser != "" || id.loggedUserState != ""))
  {}

  /** No row squats on the pair that was just written. */
  lemma NoSquatterAfter(t: Table, id: Identity, now: int)
    requires Sound(t) && Outcome(t, id, now).Some? && (id.hwid != "" || id.hostname != "")
    ensures var t' := Upserted(t, id, now);
      && (forall k :: !Squats(t'.rows, id, Target(t'.rows, id), k))
      && WithoutSquatters(t'.rows, id, Target(t'.rows, id)) == t'.rows
  {
    UpsertSound(t, id, now);
    TargetAgain(t, id, now);
    var t', w := Upserted(t, id, now), Outcome(t, id, now).value;
    forall k ensures !Squats(t'.rows, id, Some(w), k) {
      assert k in t'.rows && k != w ==> !Clash(t'.rows[k], t'.rows[w]);
    }
  }

  /** The table after the second sighting: one row written again. */
  lemma SecondSighting(t: Table, id: Identity, now: int, later: int)
    requires Sound(t) && Outcome(t, id, now).Some? && (id.hwid != "" || id.hostname != "")
    ensures var once, w := Upserted(t, id, now), Outcome(t, id, now).value;
      && w in once.rows && w < once.nextId
      && Outcome(once, id, later) == Some(w)
      && Upserted(once, id, later) == once.(rows := once.rows[w := UpdatedRow(id, once.rows[w], later)])
  {
    var once := Upserted(t, id, now);
    UpsertSound(t, id, now);
    TargetAgain(t, id, now);
    NoSquatterAfter(t, id, now);
    UpsertRefusedIff(once, id, later);
  }

  /**
    Repeating a sighting that succeeded is harmless exactly when the client is identified and
    does not contradict itself.
   */
  lemma RepeatIsHarmlessIff(t: Table, id: Identity, now: int, later: int)
    requires Sound(t) && Outcome(t, id, now).Some?
    ensures RepeatIsHarmless(t, id, now, later) <==> (id.hwid != "" || id.hostname != "") && !ContradictsItself(t, id)
  {
    var once, w := Upserted(t, id, now), Outcome(t, id, now).value;
    if id.hwid == "" && id.hostname == "" {
      TargetAgain(t, id, now);
      UpsertSound(t, id, now);
      assert Squats(once.rows, id, None, w);
      UpsertRefusedIff(once, id, later);
    } else {
      SecondSighting(t, id, now, later);
      UpdateInserted(id, now, later);
      if Target(t.rows, id).Some? {
        UpdateTwice(id, t.rows[w], now, later);
      }
      assert RepeatIsHarmless(t, id, now, later) <==> SameBut(once.rows[w], UpdatedRow(id, once.rows[w], later));
    }
  }

  /** For the identities that requests give, only a session state sent without a user makes a repeat visible. */
  lemma RequestsRepeatHarmlessly(p: Parsing, t: Table, id: Identity, now: int, later: int)
    requires Sound(t) && FromRequest(p, id) && Outcome(t, id, now).Some? && (id.hwid != "" || id.hostname != "")
    ensures id.nobody ==> id.loggedUser == ""
    ensures (id.loggedUserState != "" ==> id.loggedUser != "") ==> RepeatIsHarmless(t, id, now, later)
  {
    RepeatIsHarmlessIff(t, id, now, later);
  }

  // ---------------------------------------------------------------------
  // What the written row holds
  // ---------------------------------------------------------------------

  /** The column takes what was sent, and keeps what it held when nothing was. */
  predicate Column(sent: string, held: Option<string>, stored: Option<string>) {
    stored == if |sent| > 0 then Some(sent) else held
  }

  /** The columns that the report decides, over a row with this hwid and machine. */
  predicate HoldsReport(id: Identity, hwid: Option<string>, was: Machine, row: Row, now: int) {
    && row.hostname == id.hostname && row.adDomain == id.adDomain && row.lastSeen == now
    && Column(id.hwid, hwid, row.hwid)
    && Column(id.serial, was.serial, row.machine.serial) && Column(id.product, was.product, row.machine.product)
    && Column(id.osVersion, was.osVersion, row.machine.osVersion)
    && Column(id.emlyVersion, was.emlyVersion, row.machine.emlyVersion)
    // what the last report carried, and nothing older
    && Column(id.uaVersion, None, row.sighting.updaterVersion) && Column(id.contact, None, row.sighting.contact)
    && Column(id.ip, None, row.sighting.ip)
  }

  /** The session of a client seen before. */
  predicate HoldsSession(id: Identity, was: Session, session: Session) {
    if id.nobody then session == Session(None, None, id.disconnectedAt)
    else
      && Column(id.loggedUser, was.user, session.user) && Column(id.loggedUserState, was.state, session.state)
      && session.disconnectedAt == if |id.loggedUserState| > 0 then id.disconnectedAt else was.disconnectedAt
  }

  /** The row that the report is about: the one with its hwid, else, if no row has that, the one with its pair. */
  ghost predicate IsAbout(rows: Rows, id: Identity, k: nat) {
    && k in rows
    && if |id.hwid| > 0 && exists j :: j in rows && rows[j].hwid == Some(id.hwid) then rows[k].hwid == Some(id.hwid)
       else |id.hostname| > 0 && rows[k].hostname == id.hostname && rows[k].adDomain == id.adDomain
  }

  lemma TargetIsAbout(rows: Rows, id: Identity)
    ensures var target := Target(rows, id);
      if target.Some? then IsAbout(rows, id, target.value) else forall j :: !IsAbout(rows, id, j)
  {
    var target := Target(rows, id);
    if id.hwid != "" && FindHwid(rows, id.hwid).Some? {
      assert rows[target.value].hwid == Some(id.hwid);
    } else {
      assert id.hwid != "" ==> forall j :: j in rows ==> !SameHwid(rows[j], id.hwid);
      assert target.None? && id.hostname != "" ==>
        forall j :: j in rows ==> !SamePair(rows[j], id.hostname, id.adDomain);
    }
  }

  lemma UpdateHoldsReport(id: Identity, r: Row, now: int)
    ensures var row := UpdatedRow(id, r, now);
      && HoldsReport(id, r.hwid, r.machine, row, now) && HoldsSession(id, r.session, row.session)
      && row.firstSeen == r.firstSeen
  {}

  lemma InsertHoldsReport(id: Identity, now: int)
    ensures var row := InsertedRow(id, now);
      && HoldsReport(id, None, Machine(None, None, None, None), row, now)
      && HoldsSession(id.(nobody := false), Session(None, None, id.disconnectedAt), row.session) && row.firstSeen == now
  {}

  /** A sighting updates the row it is about, column by column, or inserts a new row when there is none. */
  lemma UpsertWrites(t: Table, id: Identity, now: int)
    requires Sound(t) && Outcome(t, id, now).Some?
    ensures var k, rows := Outcome(t, id, now).value, Upserted(t, id, now).rows;
      && k in rows
      && if k in t.rows
         then
           && IsAbout(t.rows, id, k)
           && HoldsReport(id, t.rows[k].hwid, t.rows[k].machine, rows[k], now)
           && HoldsSession(id, t.rows[k].session, rows[k].session) && rows[k].firstSeen == t.rows[k].firstSeen
         else
           && (forall j :: !IsAbout(t.rows, id, j)) && k == t.nextId
           && HoldsReport(id, None, Machine(None, None, None, None), rows[k], now)
           && HoldsSession(id.(nobody := false), Session(None, None, id.disconnectedAt), rows[k].session)
           && rows[k].firstSeen == now
  {
    TargetIsAbout(t.rows, id);
    var target := Target(t.rows, id);
    InsertHoldsReport(id, now);
    if target.Some? { UpdateHoldsReport(id, t.rows[target.value], now); }
  }

  // ---------------------------------------------------------------------
  // Signing out
  // ---------------------------------------------------------------------

  /**
    A report that nobody is logged on clears the user and the state. It clears the time of
    disconnection exactly when the report carries no such time of its own.
   */
  lemma NobodyClearsSessionIff(t: Table, id: Identity, now: int)
    requires Sound(t) && Target(t.rows, id).Some? && Outcome(t, id, now).Some? && id.nobody
    ensures var s := Upserted(t, id, now).rows[Target(t.rows, id).value].session;
      && s.user.None? && s.state.None?
      && (s == Session(None, None, None) <==> id.disconnectedAt.None?)
  {}

  /** An updater that reads header text as it is and knows one time. */
  const PLAIN := Parsing(
    s => s,
    s => if s == "noon" then Some(12) else None,
    v => if v == "1.6.2" then Some(0) else None)

  /** A request that nobody is logged on, with a disconnection time of its own, and the row it leaves. */
  lemma NobodyCanKeepTime() returns (t: Table, id: Identity)
    ensures Sound(t) && FromRequest(PLAIN, id) && id.nobody && Target(t.rows, id).Some? && Outcome(t, id, 1).Some?
    ensures Upserted(t, id, 1).rows[Target(t.rows, id).value].session == Session(None, None, Some(12))
  {
    id := Identity("", "pc", "", "", "disconnected", Some(12), true, "", "", "", "", "1.6.2", "", "");
    t := Table(map[1 := InsertedRow(id.(loggedUser := "ann", nobody := false), 0)], 2);
    assert ParseSession(PLAIN, "disconnected", "noon") == ("disconnected", Some(12));
    assert SamePair(t.rows[1], "pc", "");
    UpsertRefusedIff(t, id, 1);
  }
}
