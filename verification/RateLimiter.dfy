/**
  The two-tier rate limiter: fixed windows per IP and tier, violation counts, bans shared
  by both tiers, and the cleanup pass. Times are integers; every clock read of the code is
  a parameter of its own.
 */
module RateLimiter {
  import opened Prelude

  datatype Limit = Limit(maxReqs: int, window: int, maxFails: int, banDur: int)

  datatype Limits = Limits(unauth: Limit, auth: Limit)

  datatype Visitor = Visitor(count: int, windowStart: int, failures: int, lastSeen: int)

  datatype Answer = Answer(exceeded: bool, failures: int, shouldBan: bool, banDur: int)

  datatype State = State(unauth: map<string, Visitor>, auth: map<string, Visitor>, banned: map<string, int>)

  const EMPTY := State(map[], map[], map[])

  function LimitOf(l: Limits, auth: bool): Limit { if auth then l.auth else l.unauth }

  function Tier(s: State, auth: bool): map<string, Visitor> { if auth then s.auth else s.unauth }

  function Seen(s: State, ip: string, auth: bool): Option<Visitor> {
    if ip in Tier(s, auth) then Some(Tier(s, auth)[ip]) else None
  }

  function WithVisitor(s: State, ip: string, auth: bool, v: Visitor): State {
    if auth then s.(auth := s.auth[ip := v]) else s.(unauth := s.unauth[ip := v])
  }

  // ---------------------------------------------------------------------
  // One request on one visitor
  // ---------------------------------------------------------------------

  /** The visitor after a request: `created` is read when the visitor is new, `now` after it. */
  function Count(l: Limit, seen: Option<Visitor>, created: int, now: int): Visitor {
    var v := if seen.None? then Visitor(0, created, 0, now) else seen.value;
    var rolled := now - v.windowStart >= l.window;
    var count := (if rolled then 0 else v.count) + 1;
    Visitor(count, if rolled then now else v.windowStart, if count > l.maxReqs then v.failures + 1 else 0, now)
  }

  function AnswerFor(l: Limit, v: Visitor): Answer {
    if v.count > l.maxReqs then Answer(true, v.failures, v.failures >= l.maxFails, l.banDur)
    else Answer(false, 0, false, 0)
  }

  datatype Verdict = Passed | Dropped | BannedNow | Refused | Admitted

  function VerdictOf(a: Answer): Verdict {
    if !a.exceeded then Admitted else if a.shouldBan then BannedNow else Refused
  }

  // ---------------------------------------------------------------------
  // Requests and cleanup passes
  // ---------------------------------------------------------------------

  /** exempt: a dashboard key or a private address. The four times are the handler's clock reads. */
  datatype Event =
    | Request(ip: string, auth: bool, exempt: bool, check: int, created: int, now: int, banAt: int)
    | Cleanup(pass: Reads)

  /** The clock reads of a cleanup pass: one for each visitor of each tier, then one for each ban. */
  datatype Reads = Reads(begin: int, visitor: (string, bool) -> int, ban: string -> int, end: int)

  /** A request that is not exempt and whose clock reads all give the same time. */
  function HitAt(ip: string, auth: bool, t: int): Event { Request(ip, auth, false, t, t, t, t) }

  function BanRuns(s: State, ip: string, t: int): bool { ip in s.banned && t < s.banned[ip] }

  function HandleVerdict(l: Limits, s: State, ev: Event): Verdict
    requires ev.Request?
  {
    if ev.exempt then Passed
    else if BanRuns(s, ev.ip, ev.check) then Dropped
    else VerdictOf(AnswerFor(LimitOf(l, ev.auth),
                             Count(LimitOf(l, ev.auth), Seen(s, ev.ip, ev.auth), ev.created, ev.now)))
  }

  function HandleStep(l: Limits, s: State, ev: Event): State
    requires ev.Request?
  {
    if ev.exempt || BanRuns(s, ev.ip, ev.check) then s
    else
      var lim := LimitOf(l, ev.auth);
      var v := Count(lim, Seen(s, ev.ip, ev.auth), ev.created, ev.now);
      var unbanned := s.(banned := s.banned - {ev.ip});
      var recorded := WithVisitor(unbanned, ev.ip, ev.auth, v);
      if VerdictOf(AnswerFor(lim, v)) == BannedNow
      then recorded.(banned := recorded.banned[ev.ip := ev.banAt + lim.banDur])
      else recorded
  }

  predicate Stale(l: Limit, v: Visitor, at: int) { at - v.lastSeen > l.window * 2 }

  function Sweep(l: Limit, vs: map<string, Visitor>, at: string -> int): map<string, Visitor> {
    map ip | ip in vs && !Stale(l, vs[ip], at(ip)) :: vs[ip]
  }

  function SweepBans(banned: map<string, int>, at: string -> int): map<string, int> {
    map ip | ip in banned && at(ip) <= banned[ip] :: banned[ip]
  }

  function VisitorReads(r: Reads, auth: bool): string -> int { ip => r.visitor(ip, auth) }

  function CleanupStep(l: Limits, s: State, r: Reads): State {
    State(Sweep(l.unauth, s.unauth, VisitorReads(r, false)), Sweep(l.auth, s.auth, VisitorReads(r, true)),
          SweepBans(s.banned, r.ban))
  }

  class RateLimiter {
    const limits: Limits
    var unauth: map<string, Visitor>
    var auth: map<string, Visitor>
    var banned: map<string, int>

    ghost function Now(): State reads this { State(unauth, auth, banned) }

    constructor (limits: Limits)
      ensures Now() == EMPTY && this.limits == limits
    {
      this.limits := limits;
      unauth, auth, banned := map[], map[], map[];
    }

    method Record(ip: string, isAuth: bool, created: int, now: int) returns (a: Answer)
      modifies this
      ensures var l := LimitOf(limits, isAuth); var v := Count(l, Seen(old(Now()), ip, isAuth), created, now);
        a == AnswerFor(l, v) && Now() == WithVisitor(old(Now()), ip, isAuth, v)
    {
      var visitors := if isAuth then auth else unauth;
      var cfg := LimitOf(limits, isAuth);
      var v := if ip in visitors then visitors[ip] else Visitor(0, created, 0, now);
      v := v.(lastSeen := now);
      if now - v.windowStart >= cfg.window {
        v := v.(count := 0, windowStart := now);
      }
      v := v.(count := v.count + 1);
      if v.count > cfg.maxReqs {
        v := v.(failures := v.failures + 1);
        a := Answer(true, v.failures, v.failures >= cfg.maxFails, cfg.banDur);
      } else {
        v := v.(failures := 0);
        a := Answer(false, 0, false, 0);
      }
      if isAuth { auth := auth[ip := v]; } else { unauth := unauth[ip := v]; }
    }

    method Handle(ev: Event) returns (r: Verdict)
      requires ev.Request?
      modifies this
      ensures r == HandleVerdict(limits, old(Now()), ev)
      ensures Now() == HandleStep(limits, old(Now()), ev)
    {
      if ev.exempt {
        return Passed;
      }
      if ev.ip in banned && ev.check < banned[ev.ip] {
        return Dropped;
      }
      banned := banned - {ev.ip};
      var a := Record(ev.ip, ev.auth, ev.created, ev.now);
      if a.exceeded && a.shouldBan {
        banned := banned[ev.ip := ev.banAt + a.banDur];
        return BannedNow;
      }
      r := if a.exceeded then Refused else Admitted;
    }

    method CleanTier(l: Limit, visitors: map<string, Visitor>, at: string -> int) returns (kept: map<string, Visitor>)
      ensures kept == Sweep(l, visitors, at)
    {
      kept := visitors;
      var todo := visitors.Keys;
      while todo != {}
        invariant todo <= visitors.Keys
        invariant forall ip :: ip in kept <==> ip in visitors && (ip in todo || !Stale(l, visitors[ip], at(ip)))
        invariant forall ip :: ip in kept ==> kept[ip] == visitors[ip]
        decreases todo
      {
        var ip :| ip in todo;
        todo := todo - {ip};
        if at(ip) - visitors[ip].lastSeen > l.window * 2 { kept := kept - {ip}; }
      }
      assert kept == Sweep(l, visitors, at);
    }

    method CleanUp(r: Reads)
      modifies this
      ensures Now() == CleanupStep(limits, old(Now()), r)
    {
      unauth := CleanTier(limits.unauth, unauth, VisitorReads(r, false));
      auth := CleanTier(limits.auth, auth, VisitorReads(r, true));
      banned := map ip | ip in banned && !(r.ban(ip) > banned[ip]) :: banned[ip];
    }
  }

  // ---------------------------------------------------------------------
  // Runs
  // ---------------------------------------------------------------------

  function Next(l: Limits, s: State, ev: Event): State {
    match ev
    case Request(_, _, _, _, _, _, _) => HandleStep(l, s, ev)
    case Cleanup(r) => CleanupStep(l, s, r)
  }

  function Run(l: Limits, s: State, evs: seq<Event>): State {
    if evs == [] then s else Next(l, Run(l, s, evs[..|evs| - 1]), evs[|evs| - 1])
  }

  function Start(ev: Event): int { if ev.Request? then ev.check else ev.pass.begin }

  function End(ev: Event): int { if ev.Request? then ev.banAt else ev.pass.end }

  /** The clock does not go back within an event. */
  ghost predicate InOrder(ev: Event) {
    match ev
    case Request(_, _, _, check, created, now, banAt) => check <= created <= now <= banAt
    case Cleanup(r) =>
      && r.begin <= r.end
      && (forall ip, auth :: r.begin <= r.visitor(ip, auth) <= r.end)
      && (forall ip :: r.begin <= r.ban(ip) <= r.end)
  }

  /** The clock never goes back, within an event or between events. */
  ghost predicate Timed(evs: seq<Event>) {
    && (forall i :: 0 <= i < |evs| ==> InOrder(evs[i]))
    && (forall i, j :: 0 <= i < j < |evs| ==> End(evs[i]) <= Start(evs[j]))
  }

  /** The two clock reads of a request do not fall inside one window at different times. */
  predicate SharpReads(l: Limit, created: int, now: int) { created == now || now - created >= l.window }

  predicate AllSharp(l: Limits, evs: seq<Event>) {
    forall i :: 0 <= i < |evs| && evs[i].Request? ==> SharpReads(LimitOf(l, evs[i].auth), evs[i].created, evs[i].now)
  }

  predicate AdmittedBy(l: Limits, s: State, ev: Event, ip: string, auth: bool) {
    ev.Request? && ev.ip == ip && ev.auth == auth && HandleVerdict(l, s, ev) == Admitted
  }

  /** The times at which requests of one IP and tier were admitted. */
  function Admissions(l: Limits, evs: seq<Event>, ip: string, auth: bool): seq<int> {
    if evs == [] then []
    else
      var front, last := evs[..|evs| - 1], evs[|evs| - 1];
      Admissions(l, front, ip, auth) + (if AdmittedBy(l, Run(l, EMPTY, front), last, ip, auth) then [last.now] else [])
  }

  /** The event counts a request of this IP and tier. */
  predicate Recorded(s: State, ev: Event, ip: string, auth: bool) {
    ev.Request? && ev.ip == ip && ev.auth == auth && !ev.exempt && !BanRuns(s, ip, ev.check)
  }

  /** The visitor of one IP and tier after any event. */
  lemma SeenAfter(l: Limits, s: State, ev: Event, ip: string, auth: bool)
    ensures Seen(Next(l, s, ev), ip, auth) ==
            if Recorded(s, ev, ip, auth) then Some(Count(LimitOf(l, auth), Seen(s, ip, auth), ev.created, ev.now))
            else if && ev.Cleanup? && Seen(s, ip, auth).Some?
                    && Stale(LimitOf(l, auth), Seen(s, ip, auth).value, ev.pass.visitor(ip, auth))
            then None
            else Seen(s, ip, auth)
  {}

  lemma AdmittedWhenRecorded(l: Limits, s: State, ev: Event, ip: string, auth: bool)
    ensures AdmittedBy(l, s, ev, ip, auth) <==>
            Recorded(s, ev, ip, auth)
            && Count(LimitOf(l, auth), Seen(s, ip, auth), ev.created, ev.now).count <= LimitOf(l, auth).maxReqs
  {}

  lemma TimedFront(evs: seq<Event>)
    requires Timed(evs) && evs != []
    ensures Timed(evs[..|evs| - 1])
    ensures forall i :: 0 <= i < |evs| - 1 ==> End(evs[i]) <= Start(evs[|evs| - 1])
  {}

  lemma EndsBy(evs: seq<Event>, clock: int)
    requires Timed(evs) && (evs != [] ==> clock == End(evs[|evs| - 1]))
    ensures forall i :: 0 <= i < |evs| ==> End(evs[i]) <= clock
  {}
}
