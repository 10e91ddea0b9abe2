/** Cleanup deletes idle visitors and expired bans: when later answers cannot tell. */
module RateLimitCleanup {
  import opened Prelude
  import opened RateLimiter

  // ---------------------------------------------------------------------
  // A run and the same run without its cleanup passes
  // ---------------------------------------------------------------------

  function WithoutCleanup(evs: seq<Event>): seq<Event> {
    if evs == [] then []
    else
      var front, last := evs[..|evs| - 1], evs[|evs| - 1];
      WithoutCleanup(front) + (if last.Request? then [last] else [])
  }

  /** The verdicts of a run, one for each request. */
  function Verdicts(l: Limits, evs: seq<Event>): seq<Verdict> {
    if evs == [] then []
    else
      var front, last := evs[..|evs| - 1], evs[|evs| - 1];
      Verdicts(l, front) + (if last.Request? then [HandleVerdict(l, Run(l, EMPTY, front), last)] else [])
  }

  /** A visitor that cleanup may have deleted by now. */
  predicate Forgettable(l: Limit, v: Visitor, clock: int) {
    v.windowStart <= v.lastSeen && clock - v.lastSeen > l.window * 2
  }

  predicate SimVisitor(l: Limit, swept: Option<Visitor>, whole: Option<Visitor>, clock: int) {
    && (whole.Some? ==> whole.value.windowStart <= whole.value.lastSeen <= clock)
    && (swept == whole || (swept.None? && Forgettable(l, whole.value, clock)))
  }

  function BanEnd(s: State, ip: string): Option<int> {
    if ip in s.banned then Some(s.banned[ip]) else None
  }

  predicate SimBan(swept: Option<int>, whole: Option<int>, clock: int) {
    swept == whole || (swept.None? && whole.value < clock)
  }

  ghost predicate Sim(l: Limits, swept: State, whole: State, clock: int) {
    && (forall ip, auth :: SimVisitor(LimitOf(l, auth), Seen(swept, ip, auth), Seen(whole, ip, auth), clock))
    && (forall ip :: SimBan(BanEnd(swept, ip), BanEnd(whole, ip), clock))
  }

  lemma SimLater(l: Limits, swept: State, whole: State, clock: int, later: int)
    requires Sim(l, swept, whole, clock) && clock <= later
    ensures Sim(l, swept, whole, later)
  {
    forall ip, auth ensures SimVisitor(LimitOf(l, auth), Seen(swept, ip, auth), Seen(whole, ip, auth), later) {
      assert SimVisitor(LimitOf(l, auth), Seen(swept, ip, auth), Seen(whole, ip, auth), clock);
    }
  }

  /** A request counts the same for a forgotten visitor as for a remembered one. */
  lemma SimCount(l: Limit, swept: Option<Visitor>, whole: Option<Visitor>, clock: int, created: int, now: int)
    requires SimVisitor(l, swept, whole, clock) && clock <= created <= now
    requires l.maxReqs >= 1 && SharpReads(l, created, now)
    ensures Count(l, swept, created, now) == Count(l, whole, created, now)
  {}

  lemma BanEndAfter(l: Limits, s: State, ev: Event, ip: string)
    ensures BanEnd(Next(l, s, ev), ip) ==
            if ev.Cleanup? then (if ip in s.banned && s.banned[ip] < ev.pass.ban(ip) then None else BanEnd(s, ip))
            else if ev.ip != ip || ev.exempt || BanRuns(s, ip, ev.check) then BanEnd(s, ip)
            else if HandleVerdict(l, s, ev) == BannedNow then Some(ev.banAt + LimitOf(l, ev.auth).banDur)
            else None
  {}

  lemma SimVerdict(l: Limits, swept: State, whole: State, ev: Event)
    requires ev.Request? && Sim(l, swept, whole, ev.check) && ev.check <= ev.created <= ev.now
    requires LimitOf(l, ev.auth).maxReqs >= 1 && SharpReads(LimitOf(l, ev.auth), ev.created, ev.now)
    ensures HandleVerdict(l, swept, ev) == HandleVerdict(l, whole, ev)
    ensures BanRuns(swept, ev.ip, ev.check) == BanRuns(whole, ev.ip, ev.check)
    ensures Count(LimitOf(l, ev.auth), Seen(swept, ev.ip, ev.auth), ev.created, ev.now)
         == Count(LimitOf(l, ev.auth), Seen(whole, ev.ip, ev.auth), ev.created, ev.now)
  {
    SimCount(LimitOf(l, ev.auth), Seen(swept, ev.ip, ev.auth), Seen(whole, ev.ip, ev.auth), ev.check, ev.created,
             ev.now);
    assert SimBan(BanEnd(swept, ev.ip), BanEnd(whole, ev.ip), ev.check);
  }

  lemma SimRequest(l: Limits, swept: State, whole: State, ev: Event)
    requires ev.Request? && Sim(l, swept, whole, ev.check) && ev.check <= ev.created <= ev.now <= ev.banAt
    requires LimitOf(l, ev.auth).maxReqs >= 1 && SharpReads(LimitOf(l, ev.auth), ev.created, ev.now)
    ensures Sim(l, Next(l, swept, ev), Next(l, whole, ev), ev.banAt)
  {
    SimVerdict(l, swept, whole, ev);
    forall ip, auth
      ensures SimVisitor(LimitOf(l, auth), Seen(Next(l, swept, ev), ip, auth), Seen(Next(l, whole, ev), ip, auth),
                         ev.banAt)
    {
      assert SimVisitor(LimitOf(l, auth), Seen(swept, ip, auth), Seen(whole, ip, auth), ev.check);
      SeenAfter(l, swept, ev, ip, auth);
      SeenAfter(l, whole, ev, ip, auth);
    }
    forall ip ensures SimBan(BanEnd(Next(l, swept, ev), ip), BanEnd(Next(l, whole, ev), ip), ev.banAt) {
      assert SimBan(BanEnd(swept, ip), BanEnd(whole, ip), ev.check);
      BanEndAfter(l, swept, ev, ip);
      BanEndAfter(l, whole, ev, ip);
    }
  }

  lemma SimCleanup(l: Limits, swept: State, whole: State, r: Reads)
    requires Sim(l, swept, whole, r.begin) && InOrder(Cleanup(r))
    ensures Sim(l, Next(l, swept, Cleanup(r)), whole, r.end)
  {
    forall ip, auth
      ensures SimVisitor(LimitOf(l, auth), Seen(Next(l, swept, Cleanup(r)), ip, auth), Seen(whole, ip, auth), r.end)
    {
      assert SimVisitor(LimitOf(l, auth), Seen(swept, ip, auth), Seen(whole, ip, auth), r.begin);
      assert r.begin <= r.visitor(ip, auth) <= r.end;
      SeenAfter(l, swept, Cleanup(r), ip, auth);
    }
    forall ip ensures SimBan(BanEnd(Next(l, swept, Cleanup(r)), ip), BanEnd(whole, ip), r.end) {
      assert SimBan(BanEnd(swept, ip), BanEnd(whole, ip), r.begin);
      assert r.begin <= r.ban(ip) <= r.end;
      BanEndAfter(l, swept, Cleanup(r), ip);
    }
  }

  lemma RunSnoc(l: Limits, evs: seq<Event>, ev: Event)
    ensures Run(l, EMPTY, evs + [ev]) == Next(l, Run(l, EMPTY, evs), ev)
    ensures Verdicts(l, evs + [ev]) == Verdicts(l, evs)
      + (if ev.Request? then [HandleVerdict(l, Run(l, EMPTY, evs), ev)] else [])
  {
    assert (evs + [ev])[..|evs|] == evs;
  }

  lemma {:induction false} SimRun(l: Limits, evs: seq<Event>, clock: int)
    requires Timed(evs) && AllSharp(l, evs) && l.unauth.maxReqs >= 1 && l.auth.maxReqs >= 1
    requires forall i :: 0 <= i < |evs| ==> End(evs[i]) <= clock
    ensures Sim(l, Run(l, EMPTY, evs), Run(l, EMPTY, WithoutCleanup(evs)), clock)
    ensures Verdicts(l, evs) == Verdicts(l, WithoutCleanup(evs))
  {
    if evs != [] {
      var front, last := evs[..|evs| - 1], evs[|evs| - 1];
      var swept, whole := Run(l, EMPTY, front), Run(l, EMPTY, WithoutCleanup(front));
      TimedFront(evs);
      SimRun(l, front, Start(last));
      if last.Request? {
        RunSnoc(l, WithoutCleanup(front), last);
        SimVerdict(l, swept, whole, last);
        SimRequest(l, swept, whole, last);
        SimLater(l, Next(l, swept, last), Next(l, whole, last), last.banAt, clock);
      } else {
        SimCleanup(l, swept, whole, last.pass);
        SimLater(l, Next(l, swept, last), whole, last.pass.end, clock);
        assert WithoutCleanup(evs) == WithoutCleanup(front);
      }
    }
  }

  /** Cleanup passes at any moments leave every verdict of the run as it would be without them. */
  lemma CleanupIsInvisible(l: Limits, evs: seq<Event>)
    requires Timed(evs) && AllSharp(l, evs) && l.unauth.maxReqs >= 1 && l.auth.maxReqs >= 1
    ensures Verdicts(l, evs) == Verdicts(l, WithoutCleanup(evs))
  {
    var clock := if evs == [] then 0 else End(evs[|evs| - 1]);
    EndsBy(evs, clock);
    SimRun(l, evs, clock);
  }

  // ---------------------------------------------------------------------
  // Exactly when forgetting an idle visitor can be noticed
  // ---------------------------------------------------------------------

  function After(l: Limit, v: Visitor, times: seq<int>): Visitor {
    if times == [] then v
    else Count(l, Some(After(l, v, times[..|times| - 1])), times[|times| - 1], times[|times| - 1])
  }

  /** The answer to the last of a series of requests that follow v's. */
  function LastAnswer(l: Limit, v: Visitor, times: seq<int>): Answer { AnswerFor(l, After(l, v, times)) }

  ghost predicate Ascending(times: seq<int>, from: int) {
    && (forall i :: 0 <= i < |times| ==> from <= times[i])
    && (forall i, j :: 0 <= i < j < |times| ==> times[i] <= times[j])
  }

  /** The same time k times over. */
  function Burst(t: int, k: nat): seq<int> { seq(k, _ => t) }

  lemma {:induction false} BurstCounts(l: Limit, v: Visitor, t: int, k: nat)
    requires t - v.windowStart < l.window
    ensures var w := After(l, v, Burst(t, k)); w.count == v.count + k && w.windowStart == v.windowStart
  {
    if k > 0 {
      assert Burst(t, k)[..k - 1] == Burst(t, k - 1);
      BurstCounts(l, v, t, k - 1);
    }
  }

  /**
    Forgetting an idle visitor is noticed by some later series of requests exactly when the two
    clock reads of its next request differ and fall within one window: the recreated visitor
    then starts its window at the earlier read.
   */
  lemma ForgettingIsInvisibleIff(l: Limit, v: Visitor, created: int, now: int)
    requires l.maxReqs >= 1 && created <= now && Forgettable(l, v, created) && v.lastSeen <= created
    ensures (forall times :: Ascending(times, now) ==>
               LastAnswer(l, Count(l, None, created, now), times)
                   == LastAnswer(l, Count(l, Some(v), created, now), times))
       <==> SharpReads(l, created, now)
  {
    if SharpReads(l, created, now) {
      SimCount(l, None, Some(v), created, created, now);
    } else {
      var renewed, kept := Count(l, None, created, now), Count(l, Some(v), created, now);
      var burst, last := Burst(now, l.maxReqs - 1), created + l.window;
      var times := burst + [last];
      assert times[..|burst|] == burst;
      BurstCounts(l, renewed, now, l.maxReqs - 1);
      BurstCounts(l, kept, now, l.maxReqs - 1);
      assert Ascending(times, now);
      assert LastAnswer(l, renewed, times) != LastAnswer(l, kept, times);
    }
  }
}
