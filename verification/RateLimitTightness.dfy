/** Both bounds are reached, so no smaller ones hold. */
module RateLimitTightness {
  import opened RateLimiter
  import opened RateLimitBounds

  function Hits(ip: string, auth: bool, t: int, k: nat): seq<Event> {
    if k == 0 then [] else Hits(ip, auth, t, k - 1) + [HitAt(ip, auth, t)]
  }

  function Times(t: int, k: nat): seq<int> { if k == 0 then [] else Times(t, k - 1) + [t] }

  /** The address is known, not banned, and has had `used` requests of its window counted. */
  predicate Open(s: State, ip: string, auth: bool, start: int, used: int) {
    ip !in s.banned && Seen(s, ip, auth).Some?
    && Seen(s, ip, auth).value.windowStart == start && Seen(s, ip, auth).value.count == used
  }

  lemma RunThen(l: Limits, evs: seq<Event>, ev: Event, ip: string, auth: bool)
    ensures Run(l, EMPTY, evs + [ev]) == Next(l, Run(l, EMPTY, evs), ev)
    ensures Admissions(l, evs + [ev], ip, auth)
         == Admissions(l, evs, ip, auth) + (if AdmittedBy(l, Run(l, EMPTY, evs), ev, ip, auth) then [ev.now] else [])
  {
    assert (evs + [ev])[..|evs|] == evs;
  }

  lemma OneHit(l: Limits, s: State, ip: string, auth: bool, t: int, start: int, used: int)
    requires Open(s, ip, auth, start, used)
    ensures var lim, ev := LimitOf(l, auth), HitAt(ip, auth, t);
      var used' := if t - start >= lim.window then 1 else used + 1;
      used' <= lim.maxReqs ==>
        && AdmittedBy(l, s, ev, ip, auth)
        && Open(Next(l, s, ev), ip, auth, if t - start >= lim.window then t else start, used')
  {}

  /** The run leaves the address open, having admitted its requests at these times. */
  predicate Reached(l: Limits, evs: seq<Event>, ip: string, auth: bool, start: int, used: int, log: seq<int>) {
    Open(Run(l, EMPTY, evs), ip, auth, start, used) && Admissions(l, evs, ip, auth) == log
  }

  lemma NextHit(l: Limits, evs: seq<Event>, ip: string, auth: bool, t: int, start: int, used: int, log: seq<int>)
    requires Reached(l, evs, ip, auth, start, used, log)
    ensures var lim := LimitOf(l, auth);
      var used' := if t - start >= lim.window then 1 else used + 1;
      used' <= lim.maxReqs ==>
        Reached(l, evs + [HitAt(ip, auth, t)], ip, auth, if t - start >= lim.window then t else start, used', log + [t])
  {
    OneHit(l, Run(l, EMPTY, evs), ip, auth, t, start, used);
    RunThen(l, evs, HitAt(ip, auth, t), ip, auth);
  }

  /** Reached as a value: the events, the window's start, its count and the admissions so far. */
  type Reach = (seq<Event>, int, int, seq<int>) -> bool

  predicate TakesHit(reach: Reach, lim: Limit, ev: Event, evs: seq<Event>, start: int, used: int, log: seq<int>)
    requires ev.Request?
  {
    reach(evs, start, used, log) ==>
      if ev.now - start >= lim.window
      then 1 <= lim.maxReqs ==> reach(evs + [ev], ev.now, 1, log + [ev.now])
      else used + 1 <= lim.maxReqs ==> reach(evs + [ev], start, used + 1, log + [ev.now])
  }

  ghost predicate TakesHits(reach: Reach, lim: Limit, ip: string, auth: bool, t: int) {
    forall evs, start, used, log :: TakesHit(reach, lim, HitAt(ip, auth, t), evs, start, used, log)
  }

  lemma {:induction false} MoreHits(reach: Reach, lim: Limit, evs: seq<Event>, ip: string, auth: bool, t: int,
                                    k: nat, start: int, used: int, log: seq<int>)
    requires TakesHits(reach, lim, ip, auth, t) && reach(evs, start, used, log)
    requires t - start < lim.window && used + k <= lim.maxReqs
    ensures reach(evs + Hits(ip, auth, t, k), start, used + k, log + Times(t, k))
  {
    if k == 0 {
      assert evs + [] == evs && log + [] == log;
    } else {
      MoreHits(reach, lim, evs, ip, auth, t, k - 1, start, used, log);
      assert TakesHit(reach, lim, HitAt(ip, auth, t), evs + Hits(ip, auth, t, k - 1), start, used + k - 1,
                      log + Times(t, k - 1));
      assert evs + Hits(ip, auth, t, k) == evs + Hits(ip, auth, t, k - 1) + [HitAt(ip, auth, t)];
      assert log + Times(t, k) == log + Times(t, k - 1) + [t];
    }
  }

  lemma {:induction false} HitsTimed(evs: seq<Event>, ip: string, auth: bool, t: int, k: nat)
    requires Timed(evs) && forall i :: 0 <= i < |evs| ==> End(evs[i]) <= t
    ensures var all := evs + Hits(ip, auth, t, k); Timed(all) && forall i :: 0 <= i < |all| ==> End(all[i]) <= t
  {
    if k > 0 {
      HitsTimed(evs, ip, auth, t, k - 1);
      assert evs + Hits(ip, auth, t, k) == evs + Hits(ip, auth, t, k - 1) + [HitAt(ip, auth, t)];
    } else {
      assert evs + Hits(ip, auth, t, 0) == evs;
    }
  }

  lemma {:induction false} TimesCount(t: int, k: nat, lo: int, hi: int)
    requires lo <= t < hi
    ensures CountIn(Times(t, k), lo, hi) == k
  {
    if k > 0 {
      TimesCount(t, k - 1, lo, hi);
      assert Times(t, k)[..k - 1] == Times(t, k - 1) by { TimesLength(t, k - 1); }
      TimesLength(t, k);
    }
  }

  lemma {:induction false} TimesLength(t: int, k: nat)
    ensures |Times(t, k)| == k
  {
    if k > 0 { TimesLength(t, k - 1); }
  }

  /** The first request of an address: its visitor is created at 0 and counted at t. */
  function FirstAt(ip: string, auth: bool, t: int): Event { Request(ip, auth, false, 0, 0, t, t) }

  lemma Opening(l: Limits, ip: string, auth: bool, t: int)
    requires 0 <= t < LimitOf(l, auth).window && LimitOf(l, auth).maxReqs >= 1
    ensures Reached(l, [FirstAt(ip, auth, t)], ip, auth, 0, 1, [t])
  {
    RunThen(l, [], FirstAt(ip, auth, t), ip, auth);
    assert [] + [FirstAt(ip, auth, t)] == [FirstAt(ip, auth, t)];
  }

  /** A full window, its first request counted at t0 and the others at t, and another full one when it has ended. */
  function DoubleBurst(ip: string, auth: bool, t0: int, t: int, w: int, m: nat): seq<Event>
    requires m >= 1
  {
    [FirstAt(ip, auth, t0)] + Hits(ip, auth, t, m - 1) + [HitAt(ip, auth, w)] + Hits(ip, auth, w, m - 1)
  }

  function DoubleLog(t0: int, t: int, w: int, m: nat): seq<int>
    requires m >= 1
  {
    [t0] + Times(t, m - 1) + [w] + Times(w, m - 1)
  }

  lemma DoubleBurstReached(reach: Reach, lim: Limit, ip: string, auth: bool, t0: int, t: int, w: int, m: nat)
    requires lim.window == w > t >= 0 && lim.maxReqs == m >= 1
    requires TakesHits(reach, lim, ip, auth, t) && TakesHits(reach, lim, ip, auth, w)
    requires reach([FirstAt(ip, auth, t0)], 0, 1, [t0])
    ensures reach(DoubleBurst(ip, auth, t0, t, w, m), w, m, DoubleLog(t0, t, w, m))
  {
    var first := [FirstAt(ip, auth, t0)];
    var full, fullLog := first + Hits(ip, auth, t, m - 1), [t0] + Times(t, m - 1);
    MoreHits(reach, lim, first, ip, auth, t, m - 1, 0, 1, [t0]);
    assert reach(full, 0, m, fullLog);
    assert TakesHit(reach, lim, HitAt(ip, auth, w), full, 0, m, fullLog);
    MoreHits(reach, lim, full + [HitAt(ip, auth, w)], ip, auth, w, m - 1, w, 1, fullLog + [w]);
  }

  lemma RunTakesHits(l: Limits, ip: string, auth: bool, t: int, reach: Reach)
    requires forall evs, start, used, log :: reach(evs, start, used, log) == Reached(l, evs, ip, auth, start, used, log)
    ensures TakesHits(reach, LimitOf(l, auth), ip, auth, t)
  {
    forall evs, start, used, log ensures TakesHit(reach, LimitOf(l, auth), HitAt(ip, auth, t), evs, start, used, log) {
      if reach(evs, start, used, log) {
        NextHit(l, evs, ip, auth, t, start, used, log);
      }
    }
  }

  lemma BothWindowsFill(l: Limits, ip: string, auth: bool, t0: int, t: int, w: int, m: nat)
    requires LimitOf(l, auth).window == w && 0 <= t0 <= t < w && LimitOf(l, auth).maxReqs == m >= 1
    ensures Admissions(l, DoubleBurst(ip, auth, t0, t, w, m), ip, auth) == DoubleLog(t0, t, w, m)
  {
    var reach: Reach := (evs, start, used, log) => Reached(l, evs, ip, auth, start, used, log);
    RunTakesHits(l, ip, auth, t, reach);
    RunTakesHits(l, ip, auth, w, reach);
    Opening(l, ip, auth, t0);
    DoubleBurstReached(reach, LimitOf(l, auth), ip, auth, t0, t, w, m);
  }

  lemma DoubleBurstTimed(ip: string, auth: bool, t0: int, t: int, w: int, m: nat)
    requires 0 <= t0 <= t < w && m >= 1
    ensures Timed(DoubleBurst(ip, auth, t0, t, w, m))
  {
    var first := [FirstAt(ip, auth, t0)];
    var full := first + Hits(ip, auth, t, m - 1);
    HitsTimed(first, ip, auth, t, m - 1);
    HitsTimed(full, ip, auth, w, 1);
    assert Hits(ip, auth, w, 1) == [HitAt(ip, auth, w)];
    HitsTimed(full + [HitAt(ip, auth, w)], ip, auth, w, m - 1);
  }

  /** How many of them fall in the interval of one window that begins at t. */
  lemma {:induction false} BothBursts(t0: int, t: int, w: int, m: int)
    requires 0 <= t0 <= t < w && t > 0 && m >= 1
    ensures CountIn(DoubleLog(t0, t, w, m), t, t + w) == 2 * m - if t0 == t then 0 else 1
  {
    var early, late := Times(t, m - 1), Times(w, m - 1);
    TimesCount(t, m - 1, t, t + w);
    TimesCount(w, m - 1, t, t + w);
    CountAround(DoubleLog(t0, t, w, m), t0, early, w, late, t, t + w, m);
  }

  lemma CountAround(log: seq<int>, x: int, b: seq<int>, y: int, d: seq<int>, lo: int, hi: int, k: int)
    requires log == [x] + b + [y] + d && x <= lo <= y < hi && CountIn(b, lo, hi) == k - 1 && CountIn(d, lo, hi) == k - 1
    ensures CountIn(log, lo, hi) == 2 * k - if x == lo then 0 else 1
  {
    CountFour([x], b, [y], d, lo, hi);
    CountOne(x, lo, hi);
    CountOne(y, lo, hi);
  }

  lemma CountFour(a: seq<int>, b: seq<int>, c: seq<int>, d: seq<int>, lo: int, hi: int)
    ensures CountIn(a + b + c + d, lo, hi) == CountIn(a, lo, hi) + CountIn(b, lo, hi) + CountIn(c, lo, hi)
      + CountIn(d, lo, hi)
  {
    CountConcat(a + b + c, d, lo, hi);
    CountConcat(a + b, c, lo, hi);
    CountConcat(a, b, lo, hi);
  }

  lemma CountOne(x: int, lo: int, hi: int)
    ensures CountIn([x], lo, hi) == if lo <= x < hi then 1 else 0
  {
    assert [x][..0] == [];
  }

  lemma BurstAdmits(l: Limits, ip: string, auth: bool, t0: int, t: int, w: int, m: nat)
    requires LimitOf(l, auth).window == w && 0 <= t0 <= t < w && t > 0 && LimitOf(l, auth).maxReqs == m >= 1
    ensures var evs := DoubleBurst(ip, auth, t0, t, w, m);
      Timed(evs) && InInterval(LimitOf(l, auth), Admissions(l, evs, ip, auth), t) == 2 * m - if t0 == t then 0 else 1
  {
    BothWindowsFill(l, ip, auth, t0, t, w, m);
    DoubleBurstTimed(ip, auth, t0, t, w, m);
    BothBursts(t0, t, w, m);
  }

  /** Twice the limit, with a single tick between the two clock reads of one request. */
  lemma TwiceTheLimitIsReached(l: Limits, ip: string, auth: bool) returns (evs: seq<Event>, a: int)
    requires LimitOf(l, auth).window >= 2 && LimitOf(l, auth).maxReqs >= 1
    ensures Timed(evs) && InInterval(LimitOf(l, auth), Admissions(l, evs, ip, auth), a) == 2 * LimitOf(l, auth).maxReqs
  {
    var w, m := LimitOf(l, auth).window, LimitOf(l, auth).maxReqs;
    a, evs := 1, DoubleBurst(ip, auth, 1, 1, w, m);
    BurstAdmits(l, ip, auth, 1, 1, w, m);
  }

  lemma {:induction false} HitsSharp(l: Limits, ip: string, auth: bool, t: int, k: nat)
    requires LimitOf(l, auth).window > 0
    ensures AllSharp(l, Hits(ip, auth, t, k))
  {
    if k > 0 { HitsSharp(l, ip, auth, t, k - 1); }
  }

  lemma BurstSharp(l: Limits, ip: string, auth: bool, w: int, m: nat)
    requires w >= 2 && m >= 1 && LimitOf(l, auth).window > 0
    ensures AllSharp(l, DoubleBurst(ip, auth, 0, w - 1, w, m))
  {
    var a, b := [FirstAt(ip, auth, 0)], Hits(ip, auth, w - 1, m - 1);
    var c, d := [HitAt(ip, auth, w)], Hits(ip, auth, w, m - 1);
    HitsSharp(l, ip, auth, w - 1, m - 1);
    HitsSharp(l, ip, auth, w, m - 1);
    SharpConcat(l, a, b);
    SharpConcat(l, a + b, c);
    SharpConcat(l, a + b + c, d);
  }

  lemma SharpConcat(l: Limits, a: seq<Event>, b: seq<Event>)
    requires AllSharp(l, a) && AllSharp(l, b)
    ensures AllSharp(l, a + b)
  {}

  /** One less, when every request reads the same time twice. */
  lemma OneLessIsReached(l: Limits, ip: string, auth: bool) returns (evs: seq<Event>, a: int)
    requires LimitOf(l, auth).window >= 2 && LimitOf(l, auth).maxReqs >= 1
    ensures Timed(evs) && AllSharp(l, evs)
    ensures InInterval(LimitOf(l, auth), Admissions(l, evs, ip, auth), a) == 2 * LimitOf(l, auth).maxReqs - 1
  {
    var w, m := LimitOf(l, auth).window, LimitOf(l, auth).maxReqs;
    a, evs := w - 1, DoubleBurst(ip, auth, 0, w - 1, w, m);
    BurstAdmits(l, ip, auth, 0, w - 1, w, m);
    BurstSharp(l, ip, auth, w, m);
  }
}
