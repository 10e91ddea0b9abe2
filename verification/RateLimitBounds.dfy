/** How many requests of one IP and tier can be admitted in a time of one window length. */
module RateLimitBounds {
  import opened Prelude
  import opened RateLimiter

  /** The number of entries in [lo, hi). */
  function CountIn(xs: seq<int>, lo: int, hi: int): nat {
    if xs == [] then 0
    else CountIn(xs[..|xs| - 1], lo, hi) + (if lo <= xs[|xs| - 1] < hi then 1 else 0)
  }

  lemma {:induction false} CountConcat(xs: seq<int>, ys: seq<int>, lo: int, hi: int)
    ensures CountIn(xs + ys, lo, hi) == CountIn(xs, lo, hi) + CountIn(ys, lo, hi)
  {
    if ys == [] {
      assert xs + ys == xs;
    } else {
      CountConcat(xs, ys[..|ys| - 1], lo, hi);
      assert (xs + ys)[..|xs + ys| - 1] == xs + ys[..|ys| - 1];
    }
  }

  lemma {:induction false} CountAtMostLength(xs: seq<int>, lo: int, hi: int)
    ensures CountIn(xs, lo, hi) <= |xs|
  {
    if xs != [] { CountAtMostLength(xs[..|xs| - 1], lo, hi); }
  }

  lemma {:induction false} CountWithin(xs: seq<int>, lo: int, hi: int, lo': int, hi': int)
    requires forall i :: 0 <= i < |xs| && lo <= xs[i] < hi ==> lo' <= xs[i] < hi'
    ensures CountIn(xs, lo, hi) <= CountIn(xs, lo', hi')
  {
    if xs != [] { CountWithin(xs[..|xs| - 1], lo, hi, lo', hi'); }
  }

  lemma CountNone(xs: seq<int>, lo: int, hi: int)
    requires forall i :: 0 <= i < |xs| ==> !(lo <= xs[i] < hi)
    ensures CountIn(xs, lo, hi) == 0
  {
    CountWithin(xs, lo, hi, 0, 0);
    CountEmptyRange(xs);
  }

  lemma {:induction false} CountEmptyRange(xs: seq<int>)
    ensures CountIn(xs, 0, 0) == 0
  {
    if xs != [] { CountEmptyRange(xs[..|xs| - 1]); }
  }

  /** The admissions in the half-open interval of one window length that begins at a. */
  function InInterval(l: Limit, log: seq<int>, a: int): nat { CountIn(log, a, a + l.window) }

  /** Every interval of one window length holds at most twice the limit, less the slack. */
  ghost predicate Bounded(l: Limit, slack: int, log: seq<int>) {
    forall a :: InInterval(l, log, a) <= 2 * l.maxReqs - slack
  }

  // ---------------------------------------------------------------------
  // What is known about a visitor and the admissions it has had
  // ---------------------------------------------------------------------

  /**
    The admissions so far are the older ones followed by those of the current window. With slack
    1 a window starts with its first admission.
   */
  ghost predicate Tracked(l: Limit, slack: int, seen: Option<Visitor>, older: seq<int>, current: seq<int>, clock: int) {
    && Bounded(l, slack, older)
    && match seen
       case None =>
         current == [] && forall i :: 0 <= i < |older| ==> older[i] + 2 * l.window < clock
       case Some(v) =>
         && v.windowStart <= v.lastSeen <= clock
         && v.count >= 1 && |current| == Min(v.count, l.maxReqs)
         && (forall i :: 0 <= i < |older| ==> older[i] < v.windowStart)
         && (forall i :: 0 <= i < |current| ==>
               v.windowStart <= current[i] <= v.lastSeen && current[i] < v.windowStart + l.window)
         && (slack == 1 ==> current != [] && current[0] == v.windowStart)
         && CountIn(older, v.windowStart - l.window + 1, v.windowStart) <= l.maxReqs - slack
  }

  /** Slack 0 is for any clock reads, slack 1 for reads that fix where a window starts. */
  predicate Slack(l: Limit, slack: int) {
    l.window > 0 && (slack == 0 || slack == 1) && l.maxReqs >= slack
  }

  /** The current window and the one before it cannot both fill the same interval more than once each. */
  lemma TrackedIsBounded(l: Limit, slack: int, seen: Option<Visitor>, older: seq<int>, current: seq<int>, clock: int)
    requires Slack(l, slack) && Tracked(l, slack, seen, older, current, clock)
    ensures Bounded(l, slack, older + current)
  {
    forall a ensures InInterval(l, older + current, a) <= 2 * l.maxReqs - slack {
      CountConcat(older, current, a, a + l.window);
      assert CountIn(older, a, a + l.window) == InInterval(l, older, a);
      if seen.None? {
      } else if a <= seen.value.windowStart - l.window {
        CountNone(current, a, a + l.window);
      } else {
        CountWithin(older, a, a + l.window, seen.value.windowStart - l.window + 1, seen.value.windowStart);
        CountAtMostLength(current, a, a + l.window);
      }
    }
  }

  lemma TrackNewVisitor(l: Limit, slack: int, older: seq<int>, clock: int, created: int, now: int)
    returns (current: seq<int>)
    requires Slack(l, slack) && clock <= created <= now && (slack == 1 ==> SharpReads(l, created, now))
    requires Tracked(l, slack, None, older, [], clock)
    ensures var v := Count(l, None, created, now);
      Tracked(l, slack, Some(v), older, current, now) && current == if v.count <= l.maxReqs then [now] else []
  {
    var v := Count(l, None, created, now);
    current := if v.count <= l.maxReqs then [now] else [];
    CountNone(older, v.windowStart - l.window + 1, v.windowStart);
  }

  lemma TrackSameWindow(l: Limit, slack: int, u: Visitor, older: seq<int>, current: seq<int>, clock: int,
                        created: int, now: int)
    requires Slack(l, slack) && clock <= now && now - u.windowStart < l.window
    requires Tracked(l, slack, Some(u), older, current, clock)
    ensures var v := Count(l, Some(u), created, now);
      Tracked(l, slack, Some(v), older, current + (if v.count <= l.maxReqs then [now] else []), now)
  {}

  /** A first entry before the interval leaves one entry less in it. */
  lemma CountWithoutFirst(xs: seq<int>, lo: int, hi: int)
    requires xs != [] && xs[0] < lo
    ensures CountIn(xs, lo, hi) <= |xs| - 1
  {
    assert xs == xs[..1] + xs[1..] && xs[..1][..0] == [];
    CountConcat(xs[..1], xs[1..], lo, hi);
    CountAtMostLength(xs[1..], lo, hi);
  }

  lemma TrackNewWindow(l: Limit, slack: int, u: Visitor, older: seq<int>, current: seq<int>, clock: int,
                       created: int, now: int)
    requires Slack(l, slack) && clock <= now && now - u.windowStart >= l.window
    requires Tracked(l, slack, Some(u), older, current, clock)
    ensures var v := Count(l, Some(u), created, now);
      Tracked(l, slack, Some(v), older + current, if v.count <= l.maxReqs then [now] else [], now)
  {
    TrackedIsBounded(l, slack, Some(u), older, current, clock);
    CountConcat(older, current, now - l.window + 1, now);
    CountNone(older, now - l.window + 1, now);
    CountAtMostLength(current, now - l.window + 1, now);
    if slack == 1 { CountWithoutFirst(current, now - l.window + 1, now); }
  }

  lemma TrackSweep(l: Limit, slack: int, u: Visitor, older: seq<int>, current: seq<int>, clock: int, at: int)
    requires Slack(l, slack) && clock <= at && Stale(l, u, at)
    requires Tracked(l, slack, Some(u), older, current, clock)
    ensures Tracked(l, slack, None, older + current, [], at)
  {
    TrackedIsBounded(l, slack, Some(u), older, current, clock);
  }

  lemma TrackLater(l: Limit, slack: int, seen: Option<Visitor>, older: seq<int>, current: seq<int>, clock: int,
                   later: int)
    requires Tracked(l, slack, seen, older, current, clock) && clock <= later
    ensures Tracked(l, slack, seen, older, current, later)
  {}

  // ---------------------------------------------------------------------
  // Whole runs
  // ---------------------------------------------------------------------

  lemma TrackRecord(l: Limit, slack: int, seen: Option<Visitor>, older: seq<int>, current: seq<int>, clock: int,
                    created: int, now: int)
    returns (older': seq<int>, current': seq<int>)
    requires Slack(l, slack) && clock <= created <= now && (slack == 1 ==> SharpReads(l, created, now))
    requires Tracked(l, slack, seen, older, current, clock)
    ensures var v := Count(l, seen, created, now);
      && Tracked(l, slack, Some(v), older', current', now)
      && older' + current' == older + current + (if v.count <= l.maxReqs then [now] else [])
  {
    var v := Count(l, seen, created, now);
    var more := if v.count <= l.maxReqs then [now] else [];
    if seen.None? {
      current' := TrackNewVisitor(l, slack, older, clock, created, now);
      older' := older;
    } else if now - seen.value.windowStart < l.window {
      TrackSameWindow(l, slack, seen.value, older, current, clock, created, now);
      older', current' := older, current + more;
    } else {
      TrackNewWindow(l, slack, seen.value, older, current, clock, created, now);
      older', current' := older + current, more;
    }
  }

  /** What a run that is tracked with this slack must provide. */
  predicate Fits(l: Limits, slack: int, auth: bool, evs: seq<Event>) {
    Slack(LimitOf(l, auth), slack) && (slack == 1 ==> AllSharp(l, evs))
  }

  lemma {:induction false} TrackRun(l: Limits, slack: int, evs: seq<Event>, ip: string, auth: bool, clock: int)
    returns (older: seq<int>, current: seq<int>)
    requires Fits(l, slack, auth, evs)
    requires Timed(evs) && forall i :: 0 <= i < |evs| ==> End(evs[i]) <= clock
    ensures Tracked(LimitOf(l, auth), slack, Seen(Run(l, EMPTY, evs), ip, auth), older, current, clock)
    ensures older + current == Admissions(l, evs, ip, auth)
  {
    var lim := LimitOf(l, auth);
    if evs == [] {
      older, current := [], [];
      assert forall a :: InInterval(lim, [], a) == 0;
    } else {
      var front, last := evs[..|evs| - 1], evs[|evs| - 1];
      TimedFront(evs);
      older, current := TrackRun(l, slack, front, ip, auth, Start(last));
      var s := Run(l, EMPTY, front);
      older, current := TrackEvent(l, slack, s, last, ip, auth, older, current);
      TrackLater(lim, slack, Seen(Next(l, s, last), ip, auth), older, current, End(last), clock);
    }
  }

  lemma TrackEvent(l: Limits, slack: int, s: State, ev: Event, ip: string, auth: bool, older: seq<int>,
                   current: seq<int>)
    returns (older': seq<int>, current': seq<int>)
    requires Slack(LimitOf(l, auth), slack)
    requires slack == 1 && ev.Request? ==> SharpReads(LimitOf(l, ev.auth), ev.created, ev.now)
    requires InOrder(ev)
    requires Tracked(LimitOf(l, auth), slack, Seen(s, ip, auth), older, current, Start(ev))
    ensures Tracked(LimitOf(l, auth), slack, Seen(Next(l, s, ev), ip, auth), older', current', End(ev))
    ensures older' + current' == older + current + (if AdmittedBy(l, s, ev, ip, auth) then [ev.now] else [])
  {
    var lim, seen := LimitOf(l, auth), Seen(s, ip, auth);
    SeenAfter(l, s, ev, ip, auth);
    AdmittedWhenRecorded(l, s, ev, ip, auth);
    var at := if ev.Cleanup? then ev.pass.visitor(ip, auth) else 0;
    var swept := ev.Cleanup? && seen.Some? && Stale(lim, seen.value, at);
    older', current' := TrackSeen(lim, slack, seen, ev, Recorded(s, ev, ip, auth), swept, at, older, current);
  }

  lemma TrackSeen(lim: Limit, slack: int, seen: Option<Visitor>, ev: Event, recorded: bool, swept: bool, at: int,
                  older: seq<int>, current: seq<int>)
    returns (older': seq<int>, current': seq<int>)
    requires Slack(lim, slack) && (recorded ==> ev.Request?)
    requires recorded && slack == 1 ==> SharpReads(lim, ev.created, ev.now)
    requires swept ==> !recorded && seen.Some? && Start(ev) <= at <= End(ev) && Stale(lim, seen.value, at)
    requires InOrder(ev)
    requires Tracked(lim, slack, seen, older, current, Start(ev))
    ensures recorded ==> var v := Count(lim, seen, ev.created, ev.now);
      && Tracked(lim, slack, Some(v), older', current', End(ev))
      && older' + current' == older + current + (if v.count <= lim.maxReqs then [ev.now] else [])
    ensures !recorded ==>
      && older' + current' == older + current
      && Tracked(lim, slack, if swept then None else seen, older', current', End(ev))
  {
    older', current' := older, current;
    if recorded {
      TrackLater(lim, slack, seen, older, current, ev.check, ev.created);
      older', current' := TrackRecord(lim, slack, seen, older, current, ev.created, ev.created, ev.now);
      TrackLater(lim, slack, Some(Count(lim, seen, ev.created, ev.now)), older', current', ev.now, ev.banAt);
    } else if swept {
      TrackSweep(lim, slack, seen.value, older, current, Start(ev), at);
      older', current' := older + current, [];
      TrackLater(lim, slack, None, older', current', at, End(ev));
    } else {
      TrackLater(lim, slack, seen, older, current, Start(ev), End(ev));
    }
  }

  lemma RunIsBounded(l: Limits, slack: int, evs: seq<Event>, ip: string, auth: bool, a: int)
    requires Timed(evs) && Fits(l, slack, auth, evs)
    ensures InInterval(LimitOf(l, auth), Admissions(l, evs, ip, auth), a) <= 2 * LimitOf(l, auth).maxReqs - slack
  {
    var clock := if evs == [] then 0 else End(evs[|evs| - 1]);
    EndsBy(evs, clock);
    var older, current := TrackRun(l, slack, evs, ip, auth, clock);
    TrackedIsBounded(LimitOf(l, auth), slack, Seen(Run(l, EMPTY, evs), ip, auth), older, current, clock);
  }

  /**
    In every run with a clock that never goes back and cleanup passes at any moment, at most
    2 * maxReqs requests of one IP and tier are admitted in any half-open interval of one window length.
   */
  lemma AtMostTwiceTheLimit(l: Limits, evs: seq<Event>, ip: string, auth: bool, a: int)
    requires Timed(evs) && LimitOf(l, auth).maxReqs >= 0
    ensures InInterval(LimitOf(l, auth), Admissions(l, evs, ip, auth), a) <= 2 * LimitOf(l, auth).maxReqs
  {
    if LimitOf(l, auth).window <= 0 {
      CountNone(Admissions(l, evs, ip, auth), a, a + LimitOf(l, auth).window);
    } else {
      RunIsBounded(l, 0, evs, ip, auth, a);
    }
  }

  /** When no request reads two different times inside one window, it is one less. */
  lemma OneLessWithSharpReads(l: Limits, evs: seq<Event>, ip: string, auth: bool, a: int)
    requires Timed(evs) && AllSharp(l, evs) && LimitOf(l, auth).maxReqs >= 1
    ensures InInterval(LimitOf(l, auth), Admissions(l, evs, ip, auth), a) <= 2 * LimitOf(l, auth).maxReqs - 1
  {
    if LimitOf(l, auth).window <= 0 {
      CountNone(Admissions(l, evs, ip, auth), a, a + LimitOf(l, auth).window);
    } else {
      RunIsBounded(l, 1, evs, ip, auth, a);
    }
  }

  /** Each tier is held to its own limit, in its own window. */
  lemma EachTierItsOwnLimit(l: Limits, evs: seq<Event>, ip: string, a: int)
    requires Timed(evs)
    ensures l.auth.maxReqs >= 0 ==> CountIn(Admissions(l, evs, ip, true), a, a + l.auth.window) <= 2 * l.auth.maxReqs
    ensures l.unauth.maxReqs >= 0 ==>
      CountIn(Admissions(l, evs, ip, false), a, a + l.unauth.window) <= 2 * l.unauth.maxReqs
  {
    if l.auth.maxReqs >= 0 { AtMostTwiceTheLimit(l, evs, ip, true, a); }
    if l.unauth.maxReqs >= 0 { AtMostTwiceTheLimit(l, evs, ip, false, a); }
  }
}
