/**
  The handler taken apart: reading the ban table, deleting an expired ban, counting under the
  lock and storing a ban are steps of their own, and those of other requests come in between.
 */
module RateLimitSteps {
  import opened RateLimiter
  import opened RateLimitBounds

  /** How far a request has come. Doomed: the cleanup pass has seen this ban expired; Swept: it has deleted it. */
  datatype Phase =
    | Checked(ip: string, expired: bool)
    | Banning(ip: string, banDur: int)
    | Doomed(ip: string)
    | Swept
    | Done(verdict: Verdict)

  datatype World = World(s: State, flights: map<nat, Phase>)

  const START := World(EMPTY, map[])

  datatype Step =
    | Arrive(id: nat, ip: string, exempt: bool, check: int)
    | Unban(id: nat)
    | Tally(id: nat, auth: bool, created: int, now: int)
    | Ban(id: nat, banAt: int)
    | Sweeping(pass: Reads)
    | LookAt(id: nat, ip: string, t: int)

  predicate Unbans(w: World, st: Step) {
    st.Unban? && st.id in w.flights
    && (w.flights[st.id].Doomed? || (w.flights[st.id].Checked? && w.flights[st.id].expired))
  }

  predicate Tallies(w: World, st: Step) {
    st.Tally? && st.id in w.flights && w.flights[st.id].Checked? && !w.flights[st.id].expired
  }

  predicate StoresBan(w: World, st: Step) { st.Ban? && st.id in w.flights && w.flights[st.id].Banning? }

  /** The visitor a Tally step leaves. */
  function Tallied(l: Limits, w: World, st: Step): Visitor
    requires Tallies(w, st)
  {
    Count(LimitOf(l, st.auth), Seen(w.s, w.flights[st.id].ip, st.auth), st.created, st.now)
  }

  function VerdictOfTally(l: Limits, w: World, st: Step): Verdict
    requires Tallies(w, st)
  {
    VerdictOf(AnswerFor(LimitOf(l, st.auth), Tallied(l, w, st)))
  }

  /** A step that cannot happen changes nothing. */
  function Take(l: Limits, w: World, st: Step): World {
    match st
    case Arrive(id, ip, exempt, check) =>
      if id in w.flights then w
      else w.(flights := w.flights[id :=
        if exempt then Done(Passed)
        else if BanRuns(w.s, ip, check) then Done(Dropped)
        else Checked(ip, ip in w.s.banned)])
    case Unban(id) =>
      if !Unbans(w, st) then w
      else
        var ip := w.flights[id].ip;
        World(w.s.(banned := w.s.banned - {ip}),
              w.flights[id := if w.flights[id].Doomed? then Swept else Checked(ip, false)])
    case Tally(id, auth, created, now) =>
      if !Tallies(w, st) then w
      else
        var ip, v := w.flights[id].ip, VerdictOfTally(l, w, st);
        World(WithVisitor(w.s, ip, auth, Tallied(l, w, st)),
              w.flights[id := if v == BannedNow then Banning(ip, LimitOf(l, auth).banDur) else Done(v)])
    case Ban(id, banAt) =>
      if !StoresBan(w, st) then w
      else
        var Banning(ip, banDur) := w.flights[id];
        World(w.s.(banned := w.s.banned[ip := banAt + banDur]), w.flights[id := Done(BannedNow)])
    case Sweeping(r) =>
      w.(s := State(Sweep(l.unauth, w.s.unauth, VisitorReads(r, false)),
                    Sweep(l.auth, w.s.auth, VisitorReads(r, true)), w.s.banned))
    case LookAt(id, ip, t) =>
      if id in w.flights || ip !in w.s.banned || t <= w.s.banned[ip] then w
      else w.(flights := w.flights[id := Doomed(ip)])
  }

  function RunSteps(l: Limits, steps: seq<Step>): World {
    if steps == [] then START else Take(l, RunSteps(l, steps[..|steps| - 1]), steps[|steps| - 1])
  }

  // ---------------------------------------------------------------------
  // Clocks
  // ---------------------------------------------------------------------

  /** Whether a step reads the clock, its first read and its last. */
  predicate ReadsClock(st: Step) { !st.Unban? }

  function FirstRead(st: Step): int
    requires ReadsClock(st)
  {
    match st
    case Arrive(_, _, _, check) => check
    case Tally(_, _, created, _) => created
    case Ban(_, banAt) => banAt
    case Sweeping(r) => r.begin
    case LookAt(_, _, t) => t
  }

  function LastRead(st: Step): int
    requires ReadsClock(st)
  {
    match st
    case Arrive(_, _, _, check) => check
    case Tally(_, _, _, now) => now
    case Ban(_, banAt) => banAt
    case Sweeping(r) => r.end
    case LookAt(_, _, t) => t
  }

  /** The clock after a run that begins at a given time. */
  function Clock(begin: int, steps: seq<Step>): int {
    if steps == [] then begin
    else
      var last := steps[|steps| - 1];
      if ReadsClock(last) then LastRead(last) else Clock(begin, steps[..|steps| - 1])
  }

  ghost predicate ReadsForward(st: Step) {
    match st
    case Tally(_, _, created, now) => created <= now
    case Sweeping(r) => InOrder(Cleanup(r))
    case _ => true
  }

  /** The clock never goes back, within a step or between steps of any kind. */
  ghost predicate Forward(begin: int, steps: seq<Step>) {
    steps == [] ||
    var front, last := steps[..|steps| - 1], steps[|steps| - 1];
    Forward(begin, front) && ReadsForward(last) && (ReadsClock(last) ==> Clock(begin, front) <= FirstRead(last))
  }

  // ---------------------------------------------------------------------
  // One request alone
  // ---------------------------------------------------------------------

  /** The steps of a request with nothing in between. */
  function Alone(id: nat, ev: Event): seq<Step>
    requires ev.Request?
  {
    [Arrive(id, ev.ip, ev.exempt, ev.check), Unban(id), Tally(id, ev.auth, ev.created, ev.now), Ban(id, ev.banAt)]
  }

  lemma ArriveThenUnban(l: Limits, w: World, id: nat, ev: Event)
    requires ev.Request? && id !in w.flights && !ev.exempt && !BanRuns(w.s, ev.ip, ev.check)
    ensures Take(l, Take(l, w, Alone(id, ev)[0]), Alone(id, ev)[1])
         == World(w.s.(banned := w.s.banned - {ev.ip}), w.flights[id := Checked(ev.ip, false)])
  {
    if ev.ip !in w.s.banned { assert w.s.banned - {ev.ip} == w.s.banned; }
  }

  lemma TallyThenBan(l: Limits, w: World, id: nat, ev: Event)
    requires ev.Request? && id in w.flights && w.flights[id] == Checked(ev.ip, false)
    requires !ev.exempt && ev.ip !in w.s.banned
    ensures var t := Take(l, Take(l, w, Alone(id, ev)[2]), Alone(id, ev)[3]);
      t.s == HandleStep(l, w.s, ev) && t.flights == w.flights[id := Done(HandleVerdict(l, w.s, ev))]
  {
    assert w.s.banned - {ev.ip} == w.s.banned;
  }

  /** An exempt or banned request ends where it arrives. */
  lemma AloneStops(l: Limits, w: World, id: nat, ev: Event)
    requires ev.Request? && id !in w.flights && (ev.exempt || BanRuns(w.s, ev.ip, ev.check))
    ensures var a := Alone(id, ev);
      Take(l, Take(l, Take(l, Take(l, w, a[0]), a[1]), a[2]), a[3])
      == World(w.s, w.flights[id := Done(HandleVerdict(l, w.s, ev))])
  {
    var a := Alone(id, ev);
    var t := Take(l, w, a[0]);
    assert t.flights[id].Done?;
    assert Take(l, t, a[1]) == t && Take(l, t, a[2]) == t && Take(l, t, a[3]) == t;
  }

  lemma HandleUnbanned(l: Limits, s: State, ev: Event)
    requires ev.Request? && !ev.exempt && !BanRuns(s, ev.ip, ev.check)
    ensures var u := s.(banned := s.banned - {ev.ip});
      HandleStep(l, u, ev) == HandleStep(l, s, ev) && HandleVerdict(l, u, ev) == HandleVerdict(l, s, ev)
  {
    assert s.banned - {ev.ip} - {ev.ip} == s.banned - {ev.ip};
  }

  /** They come to the handler as one step. */
  lemma AloneIsHandle(l: Limits, w: World, id: nat, ev: Event)
    requires ev.Request? && id !in w.flights
    ensures var a := Alone(id, ev);
      Take(l, Take(l, Take(l, Take(l, w, a[0]), a[1]), a[2]), a[3])
      == World(HandleStep(l, w.s, ev), w.flights[id := Done(HandleVerdict(l, w.s, ev))])
  {
    if ev.exempt || BanRuns(w.s, ev.ip, ev.check) {
      AloneStops(l, w, id, ev);
    } else {
      ArriveThenUnban(l, w, id, ev);
      HandleUnbanned(l, w.s, ev);
      TallyThenBan(l, World(w.s.(banned := w.s.banned - {ev.ip}), w.flights[id := Checked(ev.ip, false)]), id, ev);
      OverwriteTwice(w.flights, id, Checked(ev.ip, false), Done(HandleVerdict(l, w.s, ev)));
    }
  }

  lemma OverwriteTwice(flights: map<nat, Phase>, id: nat, a: Phase, b: Phase)
    ensures flights[id := a][id := b] == flights[id := b]
  {}

  // ---------------------------------------------------------------------
  // The bound on admissions
  // ---------------------------------------------------------------------

  /** A counting step as an event of its own, the request alone. */
  function EventOf(w: World, st: Step): seq<Event> {
    if st.Sweeping? then [Cleanup(st.pass)]
    else if Tallies(w, st)
    then [Request(w.flights[st.id].ip, st.auth, false, st.created, st.created, st.now, st.now)]
    else []
  }

  /** The counting steps of an interleaving as a run of the atomic handler. */
  function Serial(l: Limits, steps: seq<Step>): seq<Event> {
    if steps == [] then []
    else
      var front, last := steps[..|steps| - 1], steps[|steps| - 1];
      Serial(l, front) + EventOf(RunSteps(l, front), last)
  }

  /** The same limits with bans out of reach. */
  function NoBans(l: Limits, n: nat): Limits {
    Limits(l.unauth.(maxFails := n + 1), l.auth.(maxFails := n + 1))
  }

  predicate AdmittedAt(l: Limits, w: World, st: Step, ip: string, auth: bool) {
    Tallies(w, st) && w.flights[st.id].ip == ip && st.auth == auth && VerdictOfTally(l, w, st) == Admitted
  }

  /** The times at which requests of one IP and tier were admitted. */
  function AdmittedTimes(l: Limits, steps: seq<Step>, ip: string, auth: bool): seq<int> {
    if steps == [] then []
    else
      var front, last := steps[..|steps| - 1], steps[|steps| - 1];
      AdmittedTimes(l, front, ip, auth) + if AdmittedAt(l, RunSteps(l, front), last, ip, auth) then [last.now] else []
  }

  /** The serial run counts the same visitors, and bans nobody. */
  ghost predicate SameVisitors(n: nat, s: State, t: State) {
    && t.banned == map[] && s.unauth == t.unauth && s.auth == t.auth
    && (forall ip, auth :: ip in Tier(t, auth) ==> Tier(t, auth)[ip].failures <= n)
  }

  lemma SweepSame(l: Limits, n: nat, m: nat, w: World, t: State, r: Reads)
    requires SameVisitors(n, w.s, t)
    ensures SameVisitors(n, Take(l, w, Sweeping(r)).s, CleanupStep(NoBans(l, m), t, r))
  {
    var t' := CleanupStep(NoBans(l, m), t, r);
    forall ip, auth | ip in Tier(t', auth) ensures Tier(t', auth)[ip].failures <= n {
      assert ip in Tier(t, auth);
    }
  }

  lemma TallySame(l: Limits, n: nat, m: nat, w: World, t: State, st: Step)
    requires SameVisitors(n, w.s, t) && Tallies(w, st) && n < m
    ensures var ev := Request(w.flights[st.id].ip, st.auth, false, st.created, st.created, st.now, st.now);
      && SameVisitors(n + 1, Take(l, w, st).s, HandleStep(NoBans(l, m), t, ev))
      && (HandleVerdict(NoBans(l, m), t, ev) == Admitted <==> VerdictOfTally(l, w, st) == Admitted)
  {
    var ip := w.flights[st.id].ip;
    var ev := Request(ip, st.auth, false, st.created, st.created, st.now, st.now);
    assert Seen(w.s, ip, st.auth) == Seen(t, ip, st.auth);
    var v := Tallied(l, w, st);
    assert v == Count(LimitOf(NoBans(l, m), st.auth), Seen(t, ip, st.auth), st.created, st.now);
    assert v.failures <= n + 1;
    assert HandleStep(NoBans(l, m), t, ev) == WithVisitor(t, ip, st.auth, v);
    var t' := WithVisitor(t, ip, st.auth, v);
    forall q, auth | q in Tier(t', auth) ensures Tier(t', auth)[q].failures <= n + 1 {
      if !(q == ip && auth == st.auth) { assert q in Tier(t, auth); }
    }
  }

  lemma OtherStepSame(l: Limits, n: nat, w: World, t: State, st: Step)
    requires SameVisitors(n, w.s, t) && !st.Sweeping? && !Tallies(w, st)
    ensures SameVisitors(n, Take(l, w, st).s, t)
  {}

  lemma MoreFailures(n: nat, s: State, t: State)
    requires SameVisitors(n, s, t)
    ensures SameVisitors(n + 1, s, t)
  {
    forall ip, auth | ip in Tier(t, auth) ensures Tier(t, auth)[ip].failures <= n + 1 {
      assert Tier(t, auth)[ip].failures <= n;
    }
  }

  lemma SerialThen(l: Limits, evs: seq<Event>, ev: Event, ip: string, auth: bool)
    ensures Run(l, EMPTY, evs + [ev]) == Next(l, Run(l, EMPTY, evs), ev)
    ensures Admissions(l, evs + [ev], ip, auth) == Admissions(l, evs, ip, auth)
         + if AdmittedBy(l, Run(l, EMPTY, evs), ev, ip, auth) then [ev.now] else []
  {
    assert (evs + [ev])[..|evs|] == evs;
  }

  /** One more step, on the interleaving and on the serial run. */
  lemma SerialStep(l: Limits, m: nat, n: nat, w: World, evs: seq<Event>, st: Step, ip: string, auth: bool)
    requires n < m && SameVisitors(n, w.s, Run(NoBans(l, m), EMPTY, evs))
    ensures SameVisitors(n + 1, Take(l, w, st).s, Run(NoBans(l, m), EMPTY, evs + EventOf(w, st)))
    ensures Admissions(NoBans(l, m), evs + EventOf(w, st), ip, auth)
         == Admissions(NoBans(l, m), evs, ip, auth) + if AdmittedAt(l, w, st, ip, auth) then [st.now] else []
  {
    var k := NoBans(l, m);
    var t := Run(k, EMPTY, evs);
    if st.Sweeping? {
      SerialThen(k, evs, Cleanup(st.pass), ip, auth);
      SweepSame(l, n, m, w, t, st.pass);
      MoreFailures(n, Take(l, w, st).s, CleanupStep(k, t, st.pass));
    } else if Tallies(w, st) {
      var ev := Request(w.flights[st.id].ip, st.auth, false, st.created, st.created, st.now, st.now);
      SerialThen(k, evs, ev, ip, auth);
      TallySame(l, n, m, w, t, st);
    } else {
      assert evs + EventOf(w, st) == evs;
      OtherStepSame(l, n, w, t, st);
      MoreFailures(n, Take(l, w, st).s, t);
    }
  }

  lemma {:induction false} SerialSame(l: Limits, m: nat, steps: seq<Step>, ip: string, auth: bool)
    requires |steps| < m
    ensures SameVisitors(|steps|, RunSteps(l, steps).s, Run(NoBans(l, m), EMPTY, Serial(l, steps)))
    ensures Admissions(NoBans(l, m), Serial(l, steps), ip, auth) == AdmittedTimes(l, steps, ip, auth)
  {
    if steps != [] {
      var n := |steps| - 1;
      SerialSame(l, m, steps[..n], ip, auth);
      SerialStep(l, m, n, RunSteps(l, steps[..n]), Serial(l, steps[..n]), steps[n], ip, auth);
    }
  }

  predicate Locked(st: Step) { st.Tally? || st.Sweeping? }

  function Begins(st: Step): int
    requires Locked(st)
  {
    if st.Tally? then st.created else st.pass.begin
  }

  function Ends(st: Step): int
    requires Locked(st)
  {
    if st.Tally? then st.now else st.pass.end
  }

  /** The clock as read under the lock never goes back; other reads are free. */
  ghost predicate LockTimed(steps: seq<Step>) {
    && (forall i :: 0 <= i < |steps| && steps[i].Tally? ==> steps[i].created <= steps[i].now)
    && (forall i :: 0 <= i < |steps| && steps[i].Sweeping? ==> InOrder(Cleanup(steps[i].pass)))
    && (forall i, j :: 0 <= i < j < |steps| && Locked(steps[i]) && Locked(steps[j]) ==>
        Ends(steps[i]) <= Begins(steps[j]))
  }

  /** Some step under the lock ended at or after the event. */
  ghost predicate EndedBy(steps: seq<Step>, ev: Event) {
    exists i :: 0 <= i < |steps| && Locked(steps[i]) && End(ev) <= Ends(steps[i])
  }

  lemma EndedByMore(steps: seq<Step>, ev: Event)
    requires steps != [] && EndedBy(steps[..|steps| - 1], ev)
    ensures EndedBy(steps, ev)
    ensures LockTimed(steps) && Locked(steps[|steps| - 1]) ==> End(ev) <= Begins(steps[|steps| - 1])
  {
    var front := steps[..|steps| - 1];
    var i :| 0 <= i < |front| && Locked(front[i]) && End(ev) <= Ends(front[i]);
    assert Locked(steps[i]);
  }

  lemma TimedThen(evs: seq<Event>, ev: Event)
    requires Timed(evs) && InOrder(ev) && forall k :: 0 <= k < |evs| ==> End(evs[k]) <= Start(ev)
    ensures Timed(evs + [ev])
  {}

  lemma {:induction false} SerialTimed(l: Limits, steps: seq<Step>)
    requires LockTimed(steps)
    ensures Timed(Serial(l, steps)) && forall ev :: ev in Serial(l, steps) ==> EndedBy(steps, ev)
  {
    if steps != [] {
      var n := |steps| - 1;
      var front, last := steps[..n], steps[n];
      assert forall i :: 0 <= i < n ==> front[i] == steps[i];
      SerialTimed(l, front);
      var evs, more := Serial(l, front), EventOf(RunSteps(l, front), last);
      forall ev | ev in evs ensures EndedBy(steps, ev) { EndedByMore(steps, ev); }
      if more == [] {
        assert evs + more == evs;
      } else {
        assert more == [more[0]] && Start(more[0]) == Begins(last) && End(more[0]) == Ends(last);
        forall k | 0 <= k < |evs| ensures End(evs[k]) <= Start(more[0]) {
          assert evs[k] in evs;
          EndedByMore(steps, evs[k]);
        }
        TimedThen(evs, more[0]);
        assert Locked(steps[n]);
      }
    }
  }

  /**
    In every interleaving of requests, bans and cleanup passes, the counter admits at most
    2 * maxReqs requests of one IP and tier in any half-open interval of one window length.
   */
  lemma InterleavedAtMostTwice(l: Limits, steps: seq<Step>, ip: string, auth: bool, a: int)
    requires LockTimed(steps) && LimitOf(l, auth).maxReqs >= 0
    ensures InInterval(LimitOf(l, auth), AdmittedTimes(l, steps, ip, auth), a) <= 2 * LimitOf(l, auth).maxReqs
  {
    var m := |steps| + 1;
    SerialSame(l, m, steps, ip, auth);
    SerialTimed(l, steps);
    SerialBound(l, m, Serial(l, steps), AdmittedTimes(l, steps, ip, auth), ip, auth, a);
  }

  lemma SerialBound(l: Limits, m: nat, evs: seq<Event>, log: seq<int>, ip: string, auth: bool, a: int)
    requires Timed(evs) && LimitOf(l, auth).maxReqs >= 0 && log == Admissions(NoBans(l, m), evs, ip, auth)
    ensures InInterval(LimitOf(l, auth), log, a) <= 2 * LimitOf(l, auth).maxReqs
  {
    AtMostTwiceTheLimit(NoBans(l, m), evs, ip, auth, a);
  }

  // ---------------------------------------------------------------------
  // Bans
  // ---------------------------------------------------------------------

  /** Step i stores a ban of the address until this time. */
  ghost predicate BanSetAt(l: Limits, steps: seq<Step>, i: nat, ip: string, until: int)
    requires i < |steps|
  {
    var w := RunSteps(l, steps[..i]);
    StoresBan(w, steps[i]) && w.flights[steps[i].id].ip == ip && until == steps[i].banAt + w.flights[steps[i].id].banDur
  }

  /** Step i stores or deletes a ban of the address. */
  ghost predicate TouchesBan(l: Limits, steps: seq<Step>, i: nat, ip: string)
    requires i < |steps|
  {
    var w := RunSteps(l, steps[..i]);
    (StoresBan(w, steps[i]) || Unbans(w, steps[i])) && w.flights[steps[i].id].ip == ip
  }

  /** The ban that step i stored is the one in the table before step n. */
  ghost predicate Stands(l: Limits, steps: seq<Step>, i: nat, n: nat, ip: string, until: int)
    requires i < n <= |steps|
  {
    BanSetAt(l, steps, i, ip, until) && forall k :: i < k < n ==> !TouchesBan(l, steps, k, ip)
  }

  predicate HasBan(w: World, ip: string, until: int) { ip in w.s.banned && w.s.banned[ip] == until }

  lemma HasBanAfter(l: Limits, w: World, st: Step, ip: string, until: int)
    ensures HasBan(Take(l, w, st), ip, until) <==>
            if StoresBan(w, st) && w.flights[st.id].ip == ip then until == st.banAt + w.flights[st.id].banDur
            else HasBan(w, ip, until) && !(Unbans(w, st) && w.flights[st.id].ip == ip)
  {}

  lemma StepsPrefix(l: Limits, steps: seq<Step>, n: nat)
    requires n < |steps|
    ensures RunSteps(l, steps[..n + 1]) == Take(l, RunSteps(l, steps[..n]), steps[n])
  {
    assert steps[..n + 1][..n] == steps[..n];
  }

  lemma StandsLonger(l: Limits, steps: seq<Step>, i: nat, n: nat, ip: string, until: int)
    requires i < n < |steps|
    ensures Stands(l, steps, i, n + 1, ip, until) <==> Stands(l, steps, i, n, ip, until) && !TouchesBan(l, steps, n, ip)
  {}

  lemma StandsAtOnce(l: Limits, steps: seq<Step>, n: nat, ip: string, until: int)
    requires n < |steps|
    ensures Stands(l, steps, n, n + 1, ip, until) <==> BanSetAt(l, steps, n, ip, until)
    ensures HasBan(RunSteps(l, steps[..n + 1]), ip, until) <==>
            || BanSetAt(l, steps, n, ip, until)
            || (HasBan(RunSteps(l, steps[..n]), ip, until) && !TouchesBan(l, steps, n, ip))
  {
    StepsPrefix(l, steps, n);
    HasBanAfter(l, RunSteps(l, steps[..n]), steps[n], ip, until);
  }

  ghost predicate SomeStands(l: Limits, steps: seq<Step>, n: nat, ip: string, until: int)
    requires n <= |steps|
  {
    exists i: nat :: i < n && Stands(l, steps, i, n, ip, until)
  }

  lemma SomeStandsAfter(l: Limits, steps: seq<Step>, n: nat, ip: string, until: int)
    requires n < |steps|
    ensures SomeStands(l, steps, n + 1, ip, until) <==>
            BanSetAt(l, steps, n, ip, until) || (SomeStands(l, steps, n, ip, until) && !TouchesBan(l, steps, n, ip))
  {
    StandsAtOnce(l, steps, n, ip, until);
    if SomeStands(l, steps, n, ip, until) {
      var i: nat :| i < n && Stands(l, steps, i, n, ip, until);
      StandsLonger(l, steps, i, n, ip, until);
    }
    if SomeStands(l, steps, n + 1, ip, until) {
      var i: nat :| i < n + 1 && Stands(l, steps, i, n + 1, ip, until);
      if i < n { StandsLonger(l, steps, i, n, ip, until); }
    }
  }

  /** A ban is in the table exactly when some step stored it and no later one stored or deleted one of its address. */
  lemma {:induction false} BanStandsIff(l: Limits, steps: seq<Step>, n: nat, ip: string, until: int)
    requires n <= |steps|
    ensures HasBan(RunSteps(l, steps[..n]), ip, until) <==> SomeStands(l, steps, n, ip, until)
  {
    if n > 0 {
      BanStandsIff(l, steps, n - 1, ip, until);
      StandsAtOnce(l, steps, n - 1, ip, until);
      SomeStandsAfter(l, steps, n - 1, ip, until);
    }
  }

  /**
    In every interleaving, a request that comes in is dropped exactly when a ban of its address was
    stored, has not been replaced or deleted by then, and is still running.
   */
  lemma DroppedIffBanStands(l: Limits, steps: seq<Step>, j: nat)
    requires j < |steps| && steps[j].Arrive? && !steps[j].exempt && steps[j].id !in RunSteps(l, steps[..j]).flights
    ensures RunSteps(l, steps[..j + 1]).flights[steps[j].id] == Done(Dropped) <==>
            exists until :: SomeStands(l, steps, j, steps[j].ip, until) && steps[j].check < until
  {
    var w, ip := RunSteps(l, steps[..j]), steps[j].ip;
    StepsPrefix(l, steps, j);
    if ip in w.s.banned { BanStandsIff(l, steps, j, ip, w.s.banned[ip]); }
    if until :| SomeStands(l, steps, j, ip, until) && steps[j].check < until {
      BanStandsIff(l, steps, j, ip, until);
    }
  }
}
