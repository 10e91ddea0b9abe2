/** What the counters mean: violations, the verdict of the k-th request of a window, and how long bans hold. */
module RateLimitCounters {
  import opened Prelude
  import opened RateLimiter
  import opened RateLimitBounds

  // ---------------------------------------------------------------------
  // Violations are the requests over the limit
  // ---------------------------------------------------------------------

  predicate Balanced(l: Limit, v: Visitor) { v.failures == Max(0, v.count - l.maxReqs) }

  predicate BalancedIn(l: Limits, s: State, ip: string, auth: bool) {
    Seen(s, ip, auth).Some? ==> Balanced(LimitOf(l, auth), Seen(s, ip, auth).value)
  }

  lemma {:induction false} RunBalanced(l: Limits, evs: seq<Event>, ip: string, auth: bool)
    requires LimitOf(l, auth).maxReqs >= 1
    ensures BalancedIn(l, Run(l, EMPTY, evs), ip, auth)
  {
    if evs != [] {
      var front, last := evs[..|evs| - 1], evs[|evs| - 1];
      RunBalanced(l, front, ip, auth);
      SeenAfter(l, Run(l, EMPTY, front), last, ip, auth);
    }
  }

  /** Two requests, one window apart, by an address that may make none. */
  lemma OverLimitFromTheStart(l: Limits, ip: string, auth: bool) returns (evs: seq<Event>)
    requires LimitOf(l, auth).maxReqs < 1
    ensures Timed(evs) && !BalancedIn(l, Run(l, EMPTY, evs), ip, auth)
  {
    var lim := LimitOf(l, auth);
    evs := [HitAt(ip, auth, 0)];
    FirstHit(l, ip, auth);
    if lim.maxReqs == 0 {
      var later := Max(Max(0, lim.window), lim.banDur);
      evs := [HitAt(ip, auth, 0), HitAt(ip, auth, later)];
      var s := Run(l, EMPTY, [HitAt(ip, auth, 0)]);
      assert evs[..1] == [HitAt(ip, auth, 0)];
      SeenAfter(l, s, evs[1], ip, auth);
      assert Run(l, EMPTY, evs) == Next(l, s, evs[1]);
    }
  }

  lemma FirstHit(l: Limits, ip: string, auth: bool)
    ensures var s := Run(l, EMPTY, [HitAt(ip, auth, 0)]);
      && Seen(s, ip, auth) == Some(Count(LimitOf(l, auth), None, 0, 0))
      && (ip in s.banned ==> s.banned[ip] == LimitOf(l, auth).banDur)
  {
    assert [HitAt(ip, auth, 0)][..0] == [];
    assert Run(l, EMPTY, [HitAt(ip, auth, 0)]) == Next(l, EMPTY, HitAt(ip, auth, 0));
  }

  /** The violation counter is exact in every run just when the limit allows at least one request. */
  lemma ViolationsAreExactIff(l: Limits, ip: string, auth: bool)
    ensures (forall evs :: Timed(evs) ==> BalancedIn(l, Run(l, EMPTY, evs), ip, auth)) <==>
              LimitOf(l, auth).maxReqs >= 1
  {
    if LimitOf(l, auth).maxReqs >= 1 {
      forall evs ensures BalancedIn(l, Run(l, EMPTY, evs), ip, auth) { RunBalanced(l, evs, ip, auth); }
    } else {
      var evs := OverLimitFromTheStart(l, ip, auth);
    }
  }

  // ---------------------------------------------------------------------
  // The k-th request of a window
  // ---------------------------------------------------------------------

  /** The times of the requests of one IP and tier that reached the counter. */
  function Recordings(l: Limits, evs: seq<Event>, ip: string, auth: bool): seq<int> {
    if evs == [] then []
    else
      var front, last := evs[..|evs| - 1], evs[|evs| - 1];
      Recordings(l, front, ip, auth) + (if Recorded(Run(l, EMPTY, front), last, ip, auth) then [last.now] else [])
  }

  ghost predicate Counted(l: Limit, seen: Option<Visitor>, log: seq<int>, clock: int) {
    match seen
    case None => forall i :: 0 <= i < |log| ==> log[i] < clock
    case Some(v) =>
      && v.windowStart <= v.lastSeen <= clock && v.lastSeen < v.windowStart + l.window
      && (forall i :: 0 <= i < |log| ==> log[i] <= v.lastSeen)
      && v.count == CountIn(log, v.windowStart, v.windowStart + l.window)
  }

  lemma CountedRecord(l: Limit, seen: Option<Visitor>, log: seq<int>, clock: int, created: int, now: int)
    requires l.window > 0 && Counted(l, seen, log, clock) && clock <= created <= now
    ensures Counted(l, Some(Count(l, seen, created, now)), log + [now], now)
  {
    var v := Count(l, seen, created, now);
    assert (log + [now])[..|log|] == log;
    if seen.None? || now - seen.value.windowStart >= l.window {
      CountNone(log, v.windowStart, v.windowStart + l.window);
    }
  }

  lemma {:induction false} RunCounted(l: Limits, evs: seq<Event>, ip: string, auth: bool, clock: int)
    requires LimitOf(l, auth).window > 0 && Timed(evs)
    requires forall i :: 0 <= i < |evs| ==> End(evs[i]) <= clock
    ensures Counted(LimitOf(l, auth), Seen(Run(l, EMPTY, evs), ip, auth), Recordings(l, evs, ip, auth), clock)
  {
    if evs != [] {
      var front, last := evs[..|evs| - 1], evs[|evs| - 1];
      var s, log, lim := Run(l, EMPTY, front), Recordings(l, front, ip, auth), LimitOf(l, auth);
      TimedFront(evs);
      RunCounted(l, front, ip, auth, Start(last));
      SeenAfter(l, s, last, ip, auth);
      if Recorded(s, last, ip, auth) {
        CountedRecord(lim, Seen(s, ip, auth), log, last.check, last.created, last.now);
      } else {
        assert Recordings(l, evs, ip, auth) == log;
      }
    }
  }

  /** The verdict on the k-th request of a window. */
  function VerdictAt(l: Limit, k: int): Verdict {
    if k <= l.maxReqs then Admitted else if k < l.maxReqs + l.maxFails then Refused else BannedNow
  }

  /** How many requests its window holds once ev is counted; a window of no length holds ev alone. */
  function Rank(l: Limits, evs: seq<Event>, ev: Event): int
    requires ev.Request? && Recorded(Run(l, EMPTY, evs), ev, ev.ip, ev.auth)
  {
    var lim := LimitOf(l, ev.auth);
    var start := Count(lim, Seen(Run(l, EMPTY, evs), ev.ip, ev.auth), ev.created, ev.now).windowStart;
    if lim.window <= 0 then 1 else CountIn(Recordings(l, evs, ev.ip, ev.auth) + [ev.now], start, start + lim.window)
  }

  lemma KthRequest(l: Limits, evs: seq<Event>, ev: Event)
    requires Timed(evs + [ev]) && ev.Request? && LimitOf(l, ev.auth).maxReqs >= 1
    requires Recorded(Run(l, EMPTY, evs), ev, ev.ip, ev.auth)
    ensures HandleVerdict(l, Run(l, EMPTY, evs), ev) == VerdictAt(LimitOf(l, ev.auth), Rank(l, evs, ev))
  {
    var lim, s, ip, auth := LimitOf(l, ev.auth), Run(l, EMPTY, evs), ev.ip, ev.auth;
    var seen := Seen(s, ip, auth);
    RunBalanced(l, evs, ip, auth);
    TimedSnoc(evs, ev);
    if lim.window > 0 {
      RunCounted(l, evs, ip, auth, ev.check);
      CountedRecord(lim, seen, Recordings(l, evs, ip, auth), ev.check, ev.created, ev.now);
    } else {
      WindowStartsPast(l, evs, ip, auth, ev.check);
    }
    VerdictByCount(lim, seen, ev.created, ev.now);
  }

  lemma VerdictByCount(l: Limit, seen: Option<Visitor>, created: int, now: int)
    requires l.maxReqs >= 1 && (seen.Some? ==> Balanced(l, seen.value))
    ensures var v := Count(l, seen, created, now);
      Balanced(l, v) && VerdictOf(AnswerFor(l, v)) == VerdictAt(l, v.count)
  {}

  lemma TimedSnoc(evs: seq<Event>, ev: Event)
    requires Timed(evs + [ev])
    ensures Timed(evs) && forall i :: 0 <= i < |evs| ==> End(evs[i]) <= Start(ev)
    ensures ev.Request? ==> ev.check <= ev.created <= ev.now <= ev.banAt
  {
    TimedFront(evs + [ev]);
    assert (evs + [ev])[..|evs|] == evs;
    assert (evs + [ev])[|evs|] == ev;
    forall i | 0 <= i < |evs| ensures End(evs[i]) <= Start(ev) { assert (evs + [ev])[i] == evs[i]; }
  }

  lemma {:induction false} WindowStartsPast(l: Limits, evs: seq<Event>, ip: string, auth: bool, clock: int)
    requires Timed(evs) && forall i :: 0 <= i < |evs| ==> End(evs[i]) <= clock
    ensures var seen := Seen(Run(l, EMPTY, evs), ip, auth);
      seen.Some? ==> seen.value.windowStart <= seen.value.lastSeen <= clock
  {
    if evs != [] {
      var front, last := evs[..|evs| - 1], evs[|evs| - 1];
      TimedFront(evs);
      WindowStartsPast(l, front, ip, auth, Start(last));
      SeenAfter(l, Run(l, EMPTY, front), last, ip, auth);
    }
  }

  // ---------------------------------------------------------------------
  // Bans
  // ---------------------------------------------------------------------

  function VerdictOn(l: Limits, evs: seq<Event>, i: nat): Verdict
    requires i < |evs| && evs[i].Request?
  {
    HandleVerdict(l, Run(l, EMPTY, evs[..i]), evs[i])
  }

  /** Request i banned the address of request j until after j came in. */
  ghost predicate Bans(l: Limits, evs: seq<Event>, i: nat, j: nat)
    requires i < j < |evs| && evs[j].Request?
  {
    && evs[i].Request? && evs[i].ip == evs[j].ip && VerdictOn(l, evs, i) == BannedNow
    && evs[j].check < evs[i].banAt + LimitOf(l, evs[i].auth).banDur
  }

  lemma RunPrefix(l: Limits, evs: seq<Event>, n: nat)
    requires n < |evs|
    ensures Run(l, EMPTY, evs[..n + 1]) == Next(l, Run(l, EMPTY, evs[..n]), evs[n])
  {
    assert evs[..n + 1][..n] == evs[..n];
  }

  lemma BanSurvives(l: Limits, s: State, ev: Event, ip: string)
    requires BanRuns(s, ip, End(ev)) && InOrder(ev)
    ensures ip in Next(l, s, ev).banned && Next(l, s, ev).banned[ip] == s.banned[ip]
  {}

  /** A ban stays in place through every event that is over before it ends. */
  lemma {:induction false} BanStays(l: Limits, evs: seq<Event>, from: nat, to: nat, ip: string, until: int)
    requires from <= to <= |evs|
    requires var s := Run(l, EMPTY, evs[..from]); ip in s.banned && s.banned[ip] == until
    requires forall n :: from <= n < to ==> InOrder(evs[n]) && End(evs[n]) < until
    ensures var s := Run(l, EMPTY, evs[..to]); ip in s.banned && s.banned[ip] == until
  {
    if from < to {
      BanStays(l, evs, from, to - 1, ip, until);
      RunPrefix(l, evs, to - 1);
      BanSurvives(l, Run(l, EMPTY, evs[..to - 1]), evs[to - 1], ip);
    }
  }

  /** Every entry of the ban table was put there by a request that exceeded its limit. */
  lemma {:induction false} BanHasCause(l: Limits, evs: seq<Event>, n: nat, ip: string) returns (i: nat)
    requires n <= |evs| && ip in Run(l, EMPTY, evs[..n]).banned
    ensures i < n && evs[i].Request? && evs[i].ip == ip && VerdictOn(l, evs, i) == BannedNow
    ensures Run(l, EMPTY, evs[..n]).banned[ip] == evs[i].banAt + LimitOf(l, evs[i].auth).banDur
  {
    assert n > 0 by { assert evs[..0] == []; }
    RunPrefix(l, evs, n - 1);
    var s, ev := Run(l, EMPTY, evs[..n - 1]), evs[n - 1];
    if ev.Request? && ev.ip == ip && HandleVerdict(l, s, ev) == BannedNow {
      i := n - 1;
    } else {
      BanKeptFrom(l, s, ev, ip);
      i := BanHasCause(l, evs, n - 1, ip);
    }
  }

  lemma BanKeptFrom(l: Limits, s: State, ev: Event, ip: string)
    requires ip in Next(l, s, ev).banned
    requires !(ev.Request? && ev.ip == ip && HandleVerdict(l, s, ev) == BannedNow)
    ensures ip in s.banned && Next(l, s, ev).banned[ip] == s.banned[ip]
  {}

  lemma BanIsEntered(l: Limits, s: State, ev: Event)
    requires ev.Request? && HandleVerdict(l, s, ev) == BannedNow
    ensures var s' := Next(l, s, ev); ev.ip in s'.banned && s'.banned[ev.ip] == ev.banAt + LimitOf(l, ev.auth).banDur
  {}

  /**
    A request is dropped, whichever tier it is on, exactly while a ban that an earlier request
    of its address earned is running; so nothing is admitted during a ban.
   */
  lemma DroppedIffBanned(l: Limits, evs: seq<Event>, j: nat)
    requires Timed(evs) && j < |evs| && evs[j].Request? && !evs[j].exempt
    ensures VerdictOn(l, evs, j) == Dropped <==> exists i: nat :: i < j && Bans(l, evs, i, j)
  {
    var ip := evs[j].ip;
    if VerdictOn(l, evs, j) == Dropped {
      var i := BanHasCause(l, evs, j, ip);
      assert Bans(l, evs, i, j);
    }
    if i: nat :| i < j && Bans(l, evs, i, j) {
      var until := evs[i].banAt + LimitOf(l, evs[i].auth).banDur;
      RunPrefix(l, evs, i);
      BanIsEntered(l, Run(l, EMPTY, evs[..i]), evs[i]);
      assert forall n :: i < n < j ==> InOrder(evs[n]) && End(evs[n]) <= Start(evs[j]);
      BanStays(l, evs, i + 1, j, ip, until);
    }
  }

  // ---------------------------------------------------------------------
  // Requests that are not counted, and visitors that are forgotten
  // ---------------------------------------------------------------------

  /** Exempt requests, and only those, pass unchecked; they leave no trace. */
  lemma PassedIffExempt(l: Limits, s: State, ev: Event)
    requires ev.Request?
    ensures HandleVerdict(l, s, ev) == Passed <==> ev.exempt
    ensures ev.exempt ==> Next(l, s, ev) == s
  {}

  /** The visitor remembers its last counted request, and is gone only two windows after that. */
  ghost predicate Remembers(l: Limit, seen: Option<Visitor>, log: seq<int>, clock: int) {
    match seen
    case None => log == [] || clock - log[|log| - 1] > 2 * l.window
    case Some(v) => log != [] && v.lastSeen == log[|log| - 1]
  }

  lemma {:induction false} RunRemembers(l: Limits, evs: seq<Event>, ip: string, auth: bool, clock: int)
    requires Timed(evs) && forall i :: 0 <= i < |evs| ==> End(evs[i]) <= clock
    ensures Remembers(LimitOf(l, auth), Seen(Run(l, EMPTY, evs), ip, auth), Recordings(l, evs, ip, auth), clock)
  {
    if evs != [] {
      var front, last := evs[..|evs| - 1], evs[|evs| - 1];
      TimedFront(evs);
      RunRemembers(l, front, ip, auth, Start(last));
      SeenAfter(l, Run(l, EMPTY, front), last, ip, auth);
    }
  }

  /** A cleanup pass keeps a visitor exactly if its last counted request is at most two windows old. */
  lemma RememberedIff(l: Limits, evs: seq<Event>, pass: Reads, ip: string, auth: bool)
    requires Timed(evs + [Cleanup(pass)])
    ensures var log := Recordings(l, evs, ip, auth); var window := if auth then l.auth.window else l.unauth.window;
      Seen(Next(l, Run(l, EMPTY, evs), Cleanup(pass)), ip, auth).Some? <==>
        log != [] && pass.visitor(ip, auth) - log[|log| - 1] <= 2 * window
  {
    TimedSnoc(evs, Cleanup(pass));
    assert InOrder(Cleanup(pass)) by { assert (evs + [Cleanup(pass)])[|evs|] == Cleanup(pass); }
    RunRemembers(l, evs, ip, auth, pass.begin);
    SeenAfter(l, Run(l, EMPTY, evs), Cleanup(pass), ip, auth);
  }

  /** It keeps a ban exactly if that has not ended, and changes nothing that it keeps. */
  lemma CleanupKeeps(l: Limits, s: State, pass: Reads, ip: string)
    ensures var t := Next(l, s, Cleanup(pass));
      && (ip in t.banned <==> ip in s.banned && pass.ban(ip) <= s.banned[ip])
      && (ip in t.banned ==> t.banned[ip] == s.banned[ip])
      && (ip in t.auth ==> ip in s.auth && t.auth[ip] == s.auth[ip])
      && (ip in t.unauth ==> ip in s.unauth && t.unauth[ip] == s.unauth[ip])
  {}
}
