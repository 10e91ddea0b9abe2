/** A run in which deleting an expired ban takes a newer one with it. */
module RateLimitRace {
  import opened RateLimiter
  import opened RateLimitSteps

  const TIGHT := Limits(Limit(1, 10, 1, 5), Limit(1, 10, 1, 5))

  /** Requests 2 and 3 both found the ban of "x" expired; 3 has deleted it and earned a new one, until 11. */
  const RACE := World(
    State(map["x" := Visitor(3, 0, 2, 6)], map[], map["x" := 11]),
    map[0 := Done(Admitted), 1 := Done(BannedNow), 2 := Checked("x", true), 3 := Done(BannedNow)])

  /** A run under TIGHT whose clock starts at 0 and never goes back. */
  ghost predicate Runs(steps: seq<Step>, w: World, clock: int) {
    RunSteps(TIGHT, steps) == w && Forward(0, steps) && Clock(0, steps) == clock
  }

  function ClockAfter(st: Step, clock: int): int { if ReadsClock(st) then LastRead(st) else clock }

  ghost predicate Fits(st: Step, clock: int) { ReadsForward(st) && (ReadsClock(st) ==> clock <= FirstRead(st)) }

  lemma OneStep(w: World, t: int, a: Step, before: seq<Step>)
    requires Runs(before, w, t) && Fits(a, t)
    ensures Runs(before + [a], Take(TIGHT, w, a), ClockAfter(a, t))
  {
    assert (before + [a])[..|before|] == before;
  }

  lemma TwoSteps(w: World, t: int, a: Step, b: Step, before: seq<Step>)
    requires Runs(before, w, t) && Fits(a, t) && Fits(b, ClockAfter(a, t))
    ensures Runs(before + [a] + [b], Take(TIGHT, Take(TIGHT, w, a), b), ClockAfter(b, ClockAfter(a, t)))
  {
    OneStep(w, t, a, before);
    OneStep(Take(TIGHT, w, a), ClockAfter(a, t), b, before + [a]);
  }

  lemma ThreeSteps(w: World, t: int, a: Step, b: Step, c: Step, before: seq<Step>)
    requires Runs(before, w, t) && Fits(a, t) && Fits(b, ClockAfter(a, t)) && Fits(c, ClockAfter(b, ClockAfter(a, t)))
    ensures Runs(before + [a] + [b] + [c], Take(TIGHT, Take(TIGHT, Take(TIGHT, w, a), b), c),
                 ClockAfter(c, ClockAfter(b, ClockAfter(a, t))))
  {
    TwoSteps(w, t, a, b, before);
    OneStep(Take(TIGHT, Take(TIGHT, w, a), b), ClockAfter(b, ClockAfter(a, t)), c, before + [a] + [b]);
  }

  const BANNED := World(
    State(map["x" := Visitor(2, 0, 1, 0)], map[], map["x" := 5]), map[0 := Done(Admitted), 1 := Done(BannedNow)])

  const ONCE := World(State(map["x" := Visitor(1, 0, 0, 0)], map[], map[]), map[0 := Done(Admitted)])

  lemma FirstAdmitted()
    ensures Take(TIGHT, Take(TIGHT, START, Arrive(0, "x", false, 0)), Tally(0, false, 0, 0)) == ONCE
  {
    assert Take(TIGHT, START, Arrive(0, "x", false, 0)) == World(EMPTY, map[0 := Checked("x", false)]);
  }

  lemma SecondBanned()
    ensures Take(TIGHT, Take(TIGHT, Take(TIGHT, ONCE, Arrive(1, "x", false, 0)), Tally(1, false, 0, 0)), Ban(1, 0))
         == BANNED
  {
    var a := Take(TIGHT, ONCE, Arrive(1, "x", false, 0));
    assert a == ONCE.(flights := ONCE.flights[1 := Checked("x", false)]);
    var b := Take(TIGHT, a, Tally(1, false, 0, 0));
    assert b == World(State(map["x" := Visitor(2, 0, 1, 0)], map[], map[]), ONCE.flights[1 := Banning("x", 5)]);
  }

  /** The second request of "x" at 0 earns a ban until 5. */
  lemma ReachBanned() returns (steps: seq<Step>)
    ensures Runs(steps, BANNED, 0)
  {
    steps := [];
    TwoSteps(START, 0, Arrive(0, "x", false, 0), Tally(0, false, 0, 0), steps);
    steps := steps + [Arrive(0, "x", false, 0)] + [Tally(0, false, 0, 0)];
    FirstAdmitted();
    ThreeSteps(ONCE, 0, Arrive(1, "x", false, 0), Tally(1, false, 0, 0), Ban(1, 0), steps);
    steps := steps + [Arrive(1, "x", false, 0)] + [Tally(1, false, 0, 0)] + [Ban(1, 0)];
    SecondBanned();
  }

  const BOTH_SEE := BANNED.(flights := BANNED.flights[2 := Checked("x", true)][3 := Checked("x", true)])

  const EARNED := World(
    State(map["x" := Visitor(3, 0, 2, 6)], map[], map[]), BOTH_SEE.flights[3 := Banning("x", 5)])

  lemma BothFindIt()
    ensures Take(TIGHT, Take(TIGHT, BANNED, Arrive(2, "x", false, 6)), Arrive(3, "x", false, 6)) == BOTH_SEE
  {
    assert Take(TIGHT, BANNED, Arrive(2, "x", false, 6)) == BANNED.(flights := BANNED.flights[2 := Checked("x", true)]);
  }

  lemma SecondEarns()
    ensures Take(TIGHT, Take(TIGHT, BOTH_SEE, Unban(3)), Tally(3, false, 6, 6)) == EARNED
  {
    assert Take(TIGHT, BOTH_SEE, Unban(3))
        == World(State(BOTH_SEE.s.unauth, map[], map[]), BOTH_SEE.flights[3 := Checked("x", false)]);
  }

  /** At 6, two requests find that ban expired; the second deletes it and goes over the limit again. */
  lemma ReachEarned() returns (steps: seq<Step>)
    ensures Runs(steps, EARNED, 6)
  {
    steps := ReachBanned();
    TwoSteps(BANNED, 0, Arrive(2, "x", false, 6), Arrive(3, "x", false, 6), steps);
    steps := steps + [Arrive(2, "x", false, 6)] + [Arrive(3, "x", false, 6)];
    BothFindIt();
    TwoSteps(BOTH_SEE, 6, Unban(3), Tally(3, false, 6, 6), steps);
    steps := steps + [Unban(3)] + [Tally(3, false, 6, 6)];
    SecondEarns();
  }

  lemma FromRace()
    ensures Take(TIGHT, EARNED, Ban(3, 6)) == RACE
    ensures Take(TIGHT, Take(TIGHT, Take(TIGHT, RACE, Unban(2)), Arrive(4, "x", false, 10)),
                 Tally(4, false, 10, 10)).flights[4]
         == Done(Admitted)
  {
    var lifted := Take(TIGHT, RACE, Unban(2));
    assert lifted.s.banned == map[];
    assert Take(TIGHT, lifted, Arrive(4, "x", false, 10)).flights[4] == Checked("x", false);
  }

  /**
    A request that found an expired ban deletes the one stored since: the ban of "x" until 11 is
    gone, and a request that comes in at 10 is admitted.
   */
  lemma StaleDeleteLiftsBan() returns (steps: seq<Step>, i: nat, j: nat)
    ensures Forward(0, steps)
    ensures i < j < |steps| && BanSetAt(TIGHT, steps, i, "x", 11) && steps[j] == Arrive(4, "x", false, 10)
    ensures 4 in RunSteps(TIGHT, steps).flights && RunSteps(TIGHT, steps).flights[4] == Done(Admitted)
  {
    var before := ReachEarned();
    var race := before + [Ban(3, 6)];
    OneStep(EARNED, 6, Ban(3, 6), before);
    FromRace();
    ThreeSteps(RACE, 6, Unban(2), Arrive(4, "x", false, 10), Tally(4, false, 10, 10), race);
    steps := race + [Unban(2)] + [Arrive(4, "x", false, 10)] + [Tally(4, false, 10, 10)];
    i, j := |before|, |before| + 2;
    assert steps[..i] == before;
  }
}
