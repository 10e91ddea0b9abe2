/** The cleanup pass among the steps of requests: exactly when verdicts cannot tell it was there. */
module RateLimitSweeps {
  import opened Prelude
  import opened RateLimiter
  import opened RateLimitCleanup
  import opened RateLimitSteps

  // ---------------------------------------------------------------------
  // The run without the cleanup steps
  // ---------------------------------------------------------------------

  predicate Cleaning(ph: Phase) { ph.Doomed? || ph.Swept? }

  /**
    What is left of a step when the cleanup pass is taken out. A request that finds no ban, where
    without the pass it would find an expired one, deletes that at once.
   */
  function Kept(l: Limits, w: World, st: Step): seq<Step> {
    match st
    case Arrive(id, ip, exempt, check) =>
      if id in w.flights then []
      else if Take(l, w, st).flights[id] == Checked(ip, false) then [st, Unban(id)] else [st]
    case Unban(id) => if Unbans(w, st) && w.flights[id].Checked? then [st] else []
    case Tally(_, _, _, _) => if Tallies(w, st) then [st] else []
    case Ban(_, _) => if StoresBan(w, st) then [st] else []
    case Sweeping(_) => []
    case LookAt(_, _, _) => []
  }

  function Unswept(l: Limits, steps: seq<Step>): seq<Step> {
    if steps == [] then []
    else
      var front, last := steps[..|steps| - 1], steps[|steps| - 1];
      Unswept(l, front) + Kept(l, RunSteps(l, front), last)
  }

  function TakeAll(l: Limits, v: World, more: seq<Step>): World
    decreases |more|
  {
    if more == [] then v else TakeAll(l, Take(l, v, more[0]), more[1..])
  }

  lemma {:induction false} RunThenAll(l: Limits, steps: seq<Step>, more: seq<Step>)
    ensures RunSteps(l, steps + more) == TakeAll(l, RunSteps(l, steps), more)
    decreases |more|
  {
    if more == [] {
      assert steps + more == steps;
    } else {
      assert (steps + [more[0]])[..|steps|] == steps;
      RunThenAll(l, steps + [more[0]], more[1..]);
      assert steps + more == steps + [more[0]] + more[1..];
    }
  }

  // ---------------------------------------------------------------------
  // The two runs side by side
  // ---------------------------------------------------------------------

  predicate SimFlight(w: World, v: World, id: nat) {
    && (id in v.flights <==> id in w.flights && !Cleaning(w.flights[id]))
    && (id in v.flights ==> v.flights[id] == w.flights[id])
  }

  /** The ban is the same, or gone from the swept table when it no longer runs. */
  predicate SimEnd(swept: Option<int>, whole: Option<int>, clock: int) {
    swept == whole || (swept.None? && whole.value <= clock)
  }

  ghost predicate SimVisitors(l: Limits, w: World, v: World, clock: int) {
    forall ip, auth :: SimVisitor(LimitOf(l, auth), Seen(w.s, ip, auth), Seen(v.s, ip, auth), clock)
  }

  ghost predicate SimBans(w: World, v: World, clock: int) {
    forall ip :: SimEnd(BanEnd(w.s, ip), BanEnd(v.s, ip), clock)
  }

  ghost predicate SimFlights(w: World, v: World) { forall id: nat :: SimFlight(w, v, id) }

  ghost predicate SimWorld(l: Limits, w: World, v: World, clock: int) {
    SimVisitors(l, w, v, clock) && SimBans(w, v, clock) && SimFlights(w, v)
  }

  lemma SimWorldLater(l: Limits, w: World, v: World, clock: int, later: int)
    requires SimWorld(l, w, v, clock) && clock <= later
    ensures SimWorld(l, w, v, later)
  {
    forall ip, auth ensures SimVisitor(LimitOf(l, auth), Seen(w.s, ip, auth), Seen(v.s, ip, auth), later) {
      assert SimVisitor(LimitOf(l, auth), Seen(w.s, ip, auth), Seen(v.s, ip, auth), clock);
    }
    forall ip ensures SimEnd(BanEnd(w.s, ip), BanEnd(v.s, ip), later) {
      assert SimEnd(BanEnd(w.s, ip), BanEnd(v.s, ip), clock);
    }
  }

  lemma SameVisitorsSim(l: Limits, w: World, v: World, w': World, v': World, clock: int)
    requires SimVisitors(l, w, v, clock)
    requires w'.s.unauth == w.s.unauth && w'.s.auth == w.s.auth && v'.s.unauth == v.s.unauth && v'.s.auth == v.s.auth
    ensures SimVisitors(l, w', v', clock)
  {
    forall ip, auth ensures SimVisitor(LimitOf(l, auth), Seen(w'.s, ip, auth), Seen(v'.s, ip, auth), clock) {
      assert SimVisitor(LimitOf(l, auth), Seen(w.s, ip, auth), Seen(v.s, ip, auth), clock);
    }
  }

  /** The verdict at the door is the same, and a ban that only one table still has does not run. */
  lemma SimArrive(l: Limits, w: World, v: World, st: Step)
    requires st.Arrive? && SimWorld(l, w, v, st.check)
    ensures SimWorld(l, Take(l, w, st), TakeAll(l, v, Kept(l, w, st)), st.check)
  {
    var w', v' := Take(l, w, st), TakeAll(l, v, Kept(l, w, st));
    assert SimEnd(BanEnd(w.s, st.ip), BanEnd(v.s, st.ip), st.check) && SimFlight(w, v, st.id);
    if st.id !in w.flights {
      assert BanRuns(w.s, st.ip, st.check) == BanRuns(v.s, st.ip, st.check);
      ArriveBoth(l, w, v, st);
      SameVisitorsSim(l, w, v, w', v', st.check);
      forall ip ensures SimEnd(BanEnd(w'.s, ip), BanEnd(v'.s, ip), st.check) {
        assert SimEnd(BanEnd(w.s, ip), BanEnd(v.s, ip), st.check);
      }
      forall id: nat ensures SimFlight(w', v', id) { assert SimFlight(w, v, id); }
    }
  }

  lemma ArriveBoth(l: Limits, w: World, v: World, st: Step)
    requires st.Arrive? && st.id !in w.flights && st.id !in v.flights
    requires BanRuns(w.s, st.ip, st.check) == BanRuns(v.s, st.ip, st.check)
    requires st.ip in w.s.banned ==> st.ip in v.s.banned
    ensures var w', v' := Take(l, w, st), TakeAll(l, v, Kept(l, w, st));
      && w'.s == w.s && w'.flights.Keys == w.flights.Keys + {st.id}
      && v'.flights == v.flights[st.id := w'.flights[st.id]] && w'.flights == w.flights[st.id := w'.flights[st.id]]
      && !Cleaning(w'.flights[st.id])
      && v'.s == (if w'.flights[st.id] == Checked(st.ip, false) then v.s.(banned := v.s.banned - {st.ip}) else v.s)
      && (w'.flights[st.id] == Checked(st.ip, false) ==> st.ip !in w.s.banned)
  {
    var w', u := Take(l, w, st), Take(l, v, st);
    var kept := Kept(l, w, st);
    if w'.flights[st.id] == Checked(st.ip, false) {
      assert kept[1..] == [Unban(st.id)];
      TakeOne(l, u, Unban(st.id));
      assert TakeAll(l, v, kept) == Take(l, u, Unban(st.id));
      assert u.flights[st.id] == Checked(st.ip, st.ip in v.s.banned);
      assert u.flights[st.id := Checked(st.ip, false)] == v.flights[st.id := Checked(st.ip, false)];
      if st.ip !in v.s.banned { assert v.s.banned - {st.ip} == v.s.banned; }
    } else {
      assert kept[1..] == [];
      assert TakeAll(l, v, kept) == u;
    }
  }

  /** A pass that deletes a ban it has seen expired finds that it still does not run. */
  predicate SafeDelete(w: World, st: Step, clock: int) {
    st.Unban? && Unbans(w, st) && w.flights[st.id].Doomed? ==>
      var ip := w.flights[st.id].ip; ip in w.s.banned ==> w.s.banned[ip] <= clock
  }

  lemma TakeOne(l: Limits, v: World, st: Step)
    ensures TakeAll(l, v, [st]) == Take(l, v, st) && TakeAll(l, v, []) == v
  {
    assert [st][1..] == [];
  }

  lemma SimUnban(l: Limits, w: World, v: World, st: Step, clock: int)
    requires st.Unban? && SimWorld(l, w, v, clock) && SafeDelete(w, st, clock)
    ensures SimWorld(l, Take(l, w, st), TakeAll(l, v, Kept(l, w, st)), clock)
  {
    var w', v' := Take(l, w, st), TakeAll(l, v, Kept(l, w, st));
    TakeOne(l, v, st);
    assert SimFlight(w, v, st.id);
    SameVisitorsSim(l, w, v, w', v', clock);
    forall ip ensures SimEnd(BanEnd(w'.s, ip), BanEnd(v'.s, ip), clock) {
      assert SimEnd(BanEnd(w.s, ip), BanEnd(v.s, ip), clock);
    }
    forall id: nat ensures SimFlight(w', v', id) { assert SimFlight(w, v, id); }
  }

  lemma SimTally(l: Limits, w: World, v: World, st: Step)
    requires st.Tally? && SimWorld(l, w, v, st.created) && st.created <= st.now
    requires LimitOf(l, st.auth).maxReqs >= 1 && SharpReads(LimitOf(l, st.auth), st.created, st.now)
    ensures SimWorld(l, Take(l, w, st), TakeAll(l, v, Kept(l, w, st)), st.now)
  {
    var w', v' := Take(l, w, st), TakeAll(l, v, Kept(l, w, st));
    TakeOne(l, v, st);
    assert SimFlight(w, v, st.id);
    if Tallies(w, st) {
      var lim, ip := LimitOf(l, st.auth), w.flights[st.id].ip;
      assert SimVisitor(lim, Seen(w.s, ip, st.auth), Seen(v.s, ip, st.auth), st.created);
      SimCount(lim, Seen(w.s, ip, st.auth), Seen(v.s, ip, st.auth), st.created, st.created, st.now);
      assert Tallied(l, w, st) == Tallied(l, v, st);
      forall q, auth ensures SimVisitor(LimitOf(l, auth), Seen(w'.s, q, auth), Seen(v'.s, q, auth), st.now) {
        assert SimVisitor(LimitOf(l, auth), Seen(w.s, q, auth), Seen(v.s, q, auth), st.created);
      }
      forall q ensures SimEnd(BanEnd(w'.s, q), BanEnd(v'.s, q), st.now) {
        assert SimEnd(BanEnd(w.s, q), BanEnd(v.s, q), st.created);
      }
      forall id: nat ensures SimFlight(w', v', id) { assert SimFlight(w, v, id); }
    } else {
      SimWorldLater(l, w, v, st.created, st.now);
    }
  }

  lemma SimBanStep(l: Limits, w: World, v: World, st: Step, clock: int)
    requires st.Ban? && SimWorld(l, w, v, clock)
    ensures SimWorld(l, Take(l, w, st), TakeAll(l, v, Kept(l, w, st)), clock)
  {
    var w', v' := Take(l, w, st), TakeAll(l, v, Kept(l, w, st));
    TakeOne(l, v, st);
    assert SimFlight(w, v, st.id);
    SameVisitorsSim(l, w, v, w', v', clock);
    forall ip ensures SimEnd(BanEnd(w'.s, ip), BanEnd(v'.s, ip), clock) {
      assert SimEnd(BanEnd(w.s, ip), BanEnd(v.s, ip), clock);
    }
    forall id: nat ensures SimFlight(w', v', id) { assert SimFlight(w, v, id); }
  }

  lemma SimSweep(l: Limits, w: World, v: World, r: Reads)
    requires SimWorld(l, w, v, r.begin) && InOrder(Cleanup(r))
    ensures SimWorld(l, Take(l, w, Sweeping(r)), v, r.end)
  {
    var w' := Take(l, w, Sweeping(r));
    SimWorldLater(l, w, v, r.begin, r.end);
    forall ip, auth ensures SimVisitor(LimitOf(l, auth), Seen(w'.s, ip, auth), Seen(v.s, ip, auth), r.end) {
      assert SimVisitor(LimitOf(l, auth), Seen(w.s, ip, auth), Seen(v.s, ip, auth), r.begin);
      assert r.begin <= r.visitor(ip, auth) <= r.end;
    }
    forall ip ensures SimEnd(BanEnd(w'.s, ip), BanEnd(v.s, ip), r.end) {
      assert SimEnd(BanEnd(w.s, ip), BanEnd(v.s, ip), r.end);
    }
    forall id: nat ensures SimFlight(w', v, id) { assert SimFlight(w, v, id); }
  }

  lemma SimLook(l: Limits, w: World, v: World, st: Step, clock: int)
    requires st.LookAt? && SimWorld(l, w, v, clock)
    ensures SimWorld(l, Take(l, w, st), v, clock)
  {
    var w' := Take(l, w, st);
    SameVisitorsSim(l, w, v, w', v, clock);
    forall ip ensures SimEnd(BanEnd(w'.s, ip), BanEnd(v.s, ip), clock) {
      assert SimEnd(BanEnd(w.s, ip), BanEnd(v.s, ip), clock);
    }
    forall id: nat ensures SimFlight(w', v, id) { assert SimFlight(w, v, id) && SimFlight(w, v, st.id); }
  }

  // ---------------------------------------------------------------------
  // Runs
  // ---------------------------------------------------------------------

  predicate SharpStep(l: Limits, st: Step) { st.Tally? ==> SharpReads(LimitOf(l, st.auth), st.created, st.now) }

  /** Every delete of a pass is safe, and no request reads two different times inside one window. */
  ghost predicate Harmless(l: Limits, begin: int, steps: seq<Step>) {
    steps == [] ||
    var front, last := steps[..|steps| - 1], steps[|steps| - 1];
    Harmless(l, begin, front) && SharpStep(l, last) && SafeDelete(RunSteps(l, front), last, Clock(begin, front))
  }

  lemma SimStep(l: Limits, w: World, v: World, st: Step, clock: int)
    requires SimWorld(l, w, v, clock) && l.unauth.maxReqs >= 1 && l.auth.maxReqs >= 1
    requires ReadsForward(st) && SharpStep(l, st) && SafeDelete(w, st, clock)
    requires ReadsClock(st) ==> clock <= FirstRead(st)
    ensures SimWorld(l, Take(l, w, st), TakeAll(l, v, Kept(l, w, st)), if ReadsClock(st) then LastRead(st) else clock)
  {
    if ReadsClock(st) { SimWorldLater(l, w, v, clock, FirstRead(st)); }
    match st
    case Arrive(_, _, _, _) => SimArrive(l, w, v, st);
    case Unban(_) => SimUnban(l, w, v, st, clock);
    case Tally(_, _, _, _) => SimTally(l, w, v, st);
    case Ban(_, banAt) => SimBanStep(l, w, v, st, banAt);
    case Sweeping(r) =>
      TakeOne(l, v, st);
      SimSweep(l, w, v, r);
    case LookAt(_, _, t) =>
      TakeOne(l, v, st);
      SimLook(l, w, v, st, t);
  }

  lemma {:induction false} SimSteps(l: Limits, begin: int, steps: seq<Step>)
    requires Forward(begin, steps) && Harmless(l, begin, steps) && l.unauth.maxReqs >= 1 && l.auth.maxReqs >= 1
    ensures SimWorld(l, RunSteps(l, steps), RunSteps(l, Unswept(l, steps)), Clock(begin, steps))
  {
    if steps != [] {
      var front, last := steps[..|steps| - 1], steps[|steps| - 1];
      SimSteps(l, begin, front);
      var w, v := RunSteps(l, front), RunSteps(l, Unswept(l, front));
      SimStep(l, w, v, last, Clock(begin, front));
      RunThenAll(l, Unswept(l, front), Kept(l, w, last));
    }
  }

  /**
    In every interleaving whose cleanup deletes only bans that no longer run, each request has come as
    far, and with the same verdict, as in the run without the cleanup steps.
   */
  lemma InterleavedCleanupIsInvisible(l: Limits, begin: int, steps: seq<Step>, id: nat)
    requires Forward(begin, steps) && Harmless(l, begin, steps) && l.unauth.maxReqs >= 1 && l.auth.maxReqs >= 1
    ensures var w, v := RunSteps(l, steps), RunSteps(l, Unswept(l, steps));
      && (id in v.flights <==> id in w.flights && !Cleaning(w.flights[id]))
      && (id in v.flights ==> v.flights[id] == w.flights[id])
  {
    SimSteps(l, begin, steps);
    assert SimFlight(RunSteps(l, steps), RunSteps(l, Unswept(l, steps)), id);
  }

  // ---------------------------------------------------------------------
  // The exception
  // ---------------------------------------------------------------------

  /** A request of the address that comes in next is dropped. */
  predicate DropsNext(l: Limits, w: World, f: nat, ip: string, check: int)
    requires f !in w.flights
  {
    Take(l, w, Arrive(f, ip, false, check)).flights[f] == Done(Dropped)
  }

  /**
    A delete of the pass shows in the next request of its address, at some time from now on, exactly
    when it is not safe.
   */
  lemma DeleteShowsIff(l: Limits, w: World, id: nat, clock: int)
    requires id in w.flights && w.flights[id].Doomed?
    ensures var ip, w' := w.flights[id].ip, Take(l, w, Unban(id));
      (forall f: nat, check :: f !in w.flights && check >= clock ==>
         (DropsNext(l, w, f, ip, check) <==> DropsNext(l, w', f, ip, check)))
      <==> SafeDelete(w, Unban(id), clock)
  {
    var ip, w' := w.flights[id].ip, Take(l, w, Unban(id));
    if !SafeDelete(w, Unban(id), clock) {
      var f := MaxOf(w.flights.Keys) + 1;
      assert f !in w.flights;
      assert DropsNext(l, w, f, ip, clock) && !DropsNext(l, w', f, ip, clock);
    }
  }

  lemma {:induction false} ClockGrows(begin: int, steps: seq<Step>, m: nat, n: nat)
    requires m <= n <= |steps| && Forward(begin, steps)
    ensures Clock(begin, steps[..m]) <= Clock(begin, steps[..n]) && Forward(begin, steps[..n])
    decreases |steps| - n, n
  {
    if n < |steps| {
      var front := steps[..|steps| - 1];
      assert front[..m] == steps[..m] && front[..n] == steps[..n];
      ClockGrows(begin, front, m, n);
    } else if m < n {
      var front := steps[..n - 1];
      assert steps[..n] == steps && front[..m] == steps[..m] && front[..n - 1] == front;
      ClockGrows(begin, front, m, n - 1);
      if ReadsClock(steps[n - 1]) { FirstBeforeLast(steps[n - 1]); }
    } else {
      assert steps[..n] == steps;
    }
  }

  lemma FirstBeforeLast(st: Step)
    requires ReadsForward(st) && ReadsClock(st)
    ensures FirstRead(st) <= LastRead(st)
  {}

  /** At step m the pass looks at the ban of the address and sees that it has expired. */
  ghost predicate SeesExpired(l: Limits, steps: seq<Step>, m: nat, id: nat, ip: string, t: int)
    requires m < |steps|
  {
    var w := RunSteps(l, steps[..m]);
    steps[m] == LookAt(id, ip, t) && id !in w.flights && ip in w.s.banned && w.s.banned[ip] < t
  }

  /**
    A delete of the pass is not safe exactly when, between the look at the ban and the delete, a ban of
    the address was stored that stands and still runs.
   */
  lemma UnsafeIffReplaced(l: Limits, begin: int, steps: seq<Step>, m: nat, n: nat, id: nat, ip: string, t: int)
    requires m < n < |steps| && Forward(begin, steps) && SeesExpired(l, steps, m, id, ip, t)
    requires steps[n] == Unban(id)
    requires var w := RunSteps(l, steps[..n]); id in w.flights && w.flights[id] == Doomed(ip)
    ensures var w, clock := RunSteps(l, steps[..n]), Clock(begin, steps[..n]);
      !SafeDelete(w, steps[n], clock) <==>
      exists i: nat, until: int :: m < i < n && Stands(l, steps, i, n, ip, until) && until > clock
  {
    var w, clock := RunSteps(l, steps[..n]), Clock(begin, steps[..n]);
    LookedBefore(l, begin, steps, m, n, id, ip, t);
    if ip in w.s.banned && w.s.banned[ip] > clock {
      BanSinceLook(l, steps, m, n, id, ip, t, w.s.banned[ip]);
    }
    if i: nat, until: int :| m < i < n && Stands(l, steps, i, n, ip, until) && until > clock {
      BanStandsIff(l, steps, n, ip, until);
    }
  }

  lemma LookedBefore(l: Limits, begin: int, steps: seq<Step>, m: nat, n: nat, id: nat, ip: string, t: int)
    requires m < n < |steps| && Forward(begin, steps) && SeesExpired(l, steps, m, id, ip, t)
    ensures t <= Clock(begin, steps[..n])
  {
    ClockGrows(begin, steps, m + 1, n);
    assert steps[..m + 1][..m] == steps[..m];
  }

  /** A ban that runs beyond the look was stored after it. */
  lemma BanSinceLook(l: Limits, steps: seq<Step>, m: nat, n: nat, id: nat, ip: string, t: int, until: int)
    requires m < n < |steps| && SeesExpired(l, steps, m, id, ip, t) && until >= t
    requires HasBan(RunSteps(l, steps[..n]), ip, until)
    ensures exists i: nat :: m < i < n && Stands(l, steps, i, n, ip, until)
  {
    BanStandsIff(l, steps, n, ip, until);
    var i: nat :| i < n && Stands(l, steps, i, n, ip, until);
    assert steps[i].Ban? && steps[m].LookAt?;
    if i < m {
      assert Stands(l, steps, i, m, ip, until);
      BanStandsIff(l, steps, m, ip, until);
    }
  }
}
