/** The time-bucketed event counts of the dashboard, read from the hourly counters. */
module EventQuery {
  import opened EventRollup

  datatype Query = Query(daily: bool, kind: string, product: string, from: int, to: int)

  /** An absent product means "emly"; "all" and a product that is not known filter nothing. */
  function ProductMatches(wanted: string, product: string): (r: bool)
    ensures wanted == "" ==> (r <==> product == "emly")
    ensures wanted == "emly" || wanted == "updater" ==> (r <==> product == wanted)
    ensures wanted !in {"", "emly", "updater"} ==> r
  {
    var resolved := if wanted == "" then "emly" else wanted;
    resolved !in {"emly", "updater"} || product == resolved
  }

  predicate Selected(q: Query, b: Bucket) {
    && FloorTo(HOUR, q.from) <= b.hour <= q.to
    && ProductMatches(q.product, b.product) && (q.kind == "" || b.kind == q.kind)
  }

  /** A row of the answer: the start of its day or hour, and the event type. */
  datatype Group = Group(start: int, kind: string)

  function GroupOf(q: Query, b: Bucket): Group { Group(FloorTo(if q.daily then DAY else HOUR, b.hour), b.kind) }

  function InGroup(q: Query, g: Group): Bucket -> bool { b => Selected(q, b) && GroupOf(q, b) == g }

  ghost function Chosen(keys: set<Bucket>, p: Bucket -> bool): set<Bucket> { set b | b in keys && p(b) }

  /** One row of the answer is right for the counters read so far. */
  ghost predicate RowIs(data: map<Group, nat>, hourly: map<Bucket, nat>, done: set<Bucket>, p: Bucket -> bool, g: Group)
    requires done <= hourly.Keys
  {
    var keys := Chosen(done, p);
    (g in data <==> keys != {}) && (g in data ==> data[g] == SumOver(keys, hourly))
  }

  ghost predicate Answers(data: map<Group, nat>, hourly: map<Bucket, nat>, done: set<Bucket>, q: Query)
    requires done <= hourly.Keys
  {
    forall g :: RowIs(data, hourly, done, InGroup(q, g), g)
  }

  function Added(data: map<Group, nat>, q: Query, b: Bucket, n: nat): map<Group, nat> {
    var g := GroupOf(q, b);
    if Selected(q, b) then data[g := (if g in data then data[g] else 0) + n] else data
  }

  lemma RowStep(data: map<Group, nat>, data': map<Group, nat>, hourly: map<Bucket, nat>, done: set<Bucket>,
                p: Bucket -> bool, g: Group, b: Bucket)
    requires done <= hourly.Keys && b in hourly && b !in done && RowIs(data, hourly, done, p, g)
    requires g in data' <==> g in data || p(b)
    requires g in data' ==> data'[g] == (if g in data then data[g] else 0) + (if p(b) then hourly[b] else 0)
    ensures RowIs(data', hourly, done + {b}, p, g)
  {
    var keys, more := Chosen(done, p), Chosen(done + {b}, p);
    if p(b) {
      assert b in more && more - {b} == keys;
      SumTakesAny(more, hourly, b);
    } else {
      assert more == keys;
    }
  }

  lemma AnswersStep(data: map<Group, nat>, hourly: map<Bucket, nat>, done: set<Bucket>, q: Query, b: Bucket)
    requires done <= hourly.Keys && b in hourly && b !in done && Answers(data, hourly, done, q)
    ensures Answers(Added(data, q, b, hourly[b]), hourly, done + {b}, q)
  {
    forall g ensures RowIs(Added(data, q, b, hourly[b]), hourly, done + {b}, InGroup(q, g), g) {
      assert RowIs(data, hourly, done, InGroup(q, g), g);
      RowStep(data, Added(data, q, b, hourly[b]), hourly, done, InGroup(q, g), g, b);
    }
  }

  /** The counters added up by group, read in any order. */
  method SumByGroup(hourly: map<Bucket, nat>, q: Query) returns (data: map<Group, nat>)
    ensures forall g :: g in data <==> Matching(hourly, InGroup(q, g)) != {}
    ensures forall g :: g in data ==> data[g] == SumWhere(hourly, InGroup(q, g))
  {
    data := map[];
    var todo := hourly.Keys;
    AnswersAtStart(hourly, q);
    assert hourly.Keys - todo == {};
    while todo != {}
      invariant todo <= hourly.Keys && Answers(data, hourly, hourly.Keys - todo, q)
      decreases todo
    {
      var b: Bucket :| b in todo;
      AnswersStep(data, hourly, hourly.Keys - todo, q, b);
      assert hourly.Keys - (todo - {b}) == hourly.Keys - todo + {b};
      todo := todo - {b};
      if Selected(q, b) {
        var g := GroupOf(q, b);
        data := data[g := (if g in data then data[g] else 0) + hourly[b]];
      }
    }
    assert hourly.Keys - todo == hourly.Keys;
    AnswersAtEnd(data, hourly, q);
  }

  datatype Row = Row(group: Group, count: nat)

  /** Ordered by the start of the bucket; rows of one start come in any order. */
  ghost predicate Ordered(rows: seq<Row>) {
    forall i, j :: 0 <= i < j < |rows| ==> rows[i].group.start <= rows[j].group.start
  }

  ghost predicate DistinctGroups(rows: seq<Row>) {
    forall i, j :: 0 <= i < j < |rows| ==> rows[i].group != rows[j].group
  }

  /** One insertion of a sort by start. */
  method PlaceRow(rows: seq<Row>, r: Row) returns (placed: seq<Row>)
    requires Ordered(rows) && DistinctGroups(rows) && forall x :: x in rows ==> x.group != r.group
    ensures Ordered(placed) && DistinctGroups(placed) && forall x :: x in placed <==> x in rows || x == r
  {
    var k := 0;
    while k < |rows| && rows[k].group.start < r.group.start
      invariant 0 <= k <= |rows| && forall i :: 0 <= i < k ==> rows[i].group.start < r.group.start
    {
      k := k + 1;
    }
    placed := rows[..k] + [r] + rows[k..];
    PlacedOrdered(rows, r, k);
    forall i | 0 <= i < |rows| ensures rows[i].group != r.group { assert rows[i] in rows; }
    PlacedDistinct(rows, r, k);
    assert rows == rows[..k] + rows[k..];
  }

  lemma PlacedOrdered(rows: seq<Row>, r: Row, k: nat)
    requires Ordered(rows) && k <= |rows|
    requires forall i :: 0 <= i < k ==> rows[i].group.start < r.group.start
    requires k < |rows| ==> r.group.start <= rows[k].group.start
    ensures Ordered(rows[..k] + [r] + rows[k..])
  {}

  lemma PlacedDistinct(rows: seq<Row>, r: Row, k: nat)
    requires DistinctGroups(rows) && k <= |rows| && forall i :: 0 <= i < |rows| ==> rows[i].group != r.group
    ensures DistinctGroups(rows[..k] + [r] + rows[k..])
  {}

  /** The sums in the order of their buckets. */
  method SortRows(data: map<Group, nat>) returns (rows: seq<Row>)
    ensures Ordered(rows) && DistinctGroups(rows)
    ensures forall r :: r in rows <==> r.group in data && r.count == data[r.group]
  {
    rows := [];
    var todo := data.Keys;
    while todo != {}
      invariant todo <= data.Keys && Ordered(rows) && DistinctGroups(rows)
      invariant forall r :: r in rows <==> r.group in data && r.group !in todo && r.count == data[r.group]
      decreases todo
    {
      var g: Group :| g in todo;
      todo := todo - {g};
      rows := PlaceRow(rows, Row(g, data[g]));
    }
  }

  /**
    The answer, ordered by bucket: one row for each group with a counter in it, and its number
    is the sum of them.
   */
  method FetchStatsEvents(hourly: map<Bucket, nat>, q: Query) returns (rows: seq<Row>)
    ensures Ordered(rows) && DistinctGroups(rows)
    ensures forall r :: r in rows <==>
      Matching(hourly, InGroup(q, r.group)) != {} && r.count == SumWhere(hourly, InGroup(q, r.group))
  {
    var data := SumByGroup(hourly, q);
    rows := SortRows(data);
  }

  lemma AnswersAtStart(hourly: map<Bucket, nat>, q: Query)
    ensures Answers(map[], hourly, {}, q)
  {
    forall g ensures RowIs(map[], hourly, {}, InGroup(q, g), g) { assert Chosen({}, InGroup(q, g)) == {}; }
  }

  lemma AnswersAtEnd(data: map<Group, nat>, hourly: map<Bucket, nat>, q: Query)
    requires Answers(data, hourly, hourly.Keys, q)
    ensures forall g :: g in data <==> Matching(hourly, InGroup(q, g)) != {}
    ensures forall g :: g in data ==> data[g] == SumWhere(hourly, InGroup(q, g))
  {
    forall g ensures (g in data <==> Matching(hourly, InGroup(q, g)) != {})
                     && (g in data ==> data[g] == SumWhere(hourly, InGroup(q, g)))
    {
      assert RowIs(data, hourly, hourly.Keys, InGroup(q, g), g);
      assert Chosen(hourly.Keys, InGroup(q, g)) == Matching(hourly, InGroup(q, g));
    }
  }

  // ---------------------------------------------------------------------
  // What the answer counts
  // ---------------------------------------------------------------------

  /** The events a query is about, by their own times. */
  predicate Asked(q: Query, e: Event) {
    && FloorTo(HOUR, q.from) <= e.created < FloorTo(HOUR, q.to) + HOUR
    && ProductMatches(q.product, e.product) && (q.kind == "" || e.kind == q.kind)
  }

  lemma SelectedIffAsked(q: Query, e: Event)
    ensures Selected(q, BucketOf(e)) <==> Asked(q, e)
  {}

  lemma FloorTwice(t: int)
    ensures FloorTo(DAY, FloorTo(HOUR, t)) == FloorTo(DAY, t)
    ensures FloorTo(HOUR, FloorTo(HOUR, t)) == FloorTo(HOUR, t)
  {
    FloorTwiceInSeconds(t);
  }

  lemma FloorTwiceInSeconds(t: int)
    ensures var h := t - t % 3600; h - h % 86400 == t - t % 86400 && h - h % 3600 == h
  {
    var d, h := t / 86400, t - t % 3600;
    HourAtLeast(24 * d, t);
    DayOf(t, d);
    DayOf(h, d);
    HourOf(h, t / 3600);
  }

  lemma DayOf(x: int, d: int)
    requires 86400 * d <= x < 86400 * d + 86400
    ensures x - x % 86400 == 86400 * d
  {}

  lemma HourOf(x: int, h: int)
    requires 3600 * h <= x < 3600 * h + 3600
    ensures x - x % 3600 == 3600 * h
  {}

  function InAnswer(q: Query, g: Group): Event -> bool {
    e => Asked(q, e) && FloorTo(if q.daily then DAY else HOUR, e.created) == g.start && e.kind == g.kind
  }

  /** In every run, each row of the answer counts every event ever inserted in its day or hour of the asked range. */
  lemma AnswerCountsHistory(ops: seq<Op>, q: Query, g: Group)
    ensures SumWhere(Run(ops).hourly, InGroup(q, g)) == CountWhere(History(ops), InAnswer(q, g))
  {
    SumsMatchHistory(ops, InGroup(q, g));
    forall e ensures Within(InGroup(q, g))(e) == InAnswer(q, g)(e) {
      SelectedIffAsked(q, e);
      FloorTwice(e.created);
    }
    CountsAlike(History(ops), Within(InGroup(q, g)), InAnswer(q, g));
  }

  /** The whole answer counts every event ever inserted in [floorHour(from), floorHour(to) + 1h). */
  lemma RangeCountsHistory(ops: seq<Op>, q: Query)
    ensures SumWhere(Run(ops).hourly, b => Selected(q, b)) == CountWhere(History(ops), e => Asked(q, e))
  {
    SumsMatchHistory(ops, b => Selected(q, b));
    forall e ensures Within(b => Selected(q, b))(e) == Asked(q, e) { SelectedIffAsked(q, e); }
    CountsAlike(History(ops), Within(b => Selected(q, b)), e => Asked(q, e));
  }

  /** Asked without a product or a type, the answer counts every "emly" event of the range, and no other. */
  lemma DefaultIsEmly(ops: seq<Op>, daily: bool, from: int, to: int)
    ensures SumWhere(Run(ops).hourly, b => Selected(Query(daily, "", "", from, to), b))
      == CountWhere(History(ops), (e: Event) =>
           e.product == "emly" && from - from % 3600 <= e.created < to - to % 3600 + 3600)
  {
    var q := Query(daily, "", "", from, to);
    RangeCountsHistory(ops, q);
    CountsAlike(History(ops), e => Asked(q, e), (e: Event) =>
      e.product == "emly" && from - from % 3600 <= e.created < to - to % 3600 + 3600);
  }

  // ---------------------------------------------------------------------
  // Days and hours
  // ---------------------------------------------------------------------

  lemma {:induction false} CountSplits(h: seq<Event>, p: Event -> bool, q: Event -> bool, both: Event -> bool)
    requires forall e :: both(e) == (p(e) || q(e)) && !(p(e) && q(e))
    ensures CountWhere(h, both) == CountWhere(h, p) + CountWhere(h, q)
  {
    if h != [] { CountSplits(h[..|h| - 1], p, q, both); }
  }

  /** The answer's rows for n hours from a start, added up. */
  ghost function HoursSum(hourly: map<Bucket, nat>, q: Query, start: int, kind: string, n: nat): nat {
    if n == 0 then 0
    else HoursSum(hourly, q, start, kind, n - 1) + SumWhere(hourly, InGroup(q, Group(start + (n - 1) * HOUR, kind)))
  }

  function InHours(q: Query, start: int, kind: string, n: nat): Event -> bool {
    e => Asked(q, e) && start <= FloorTo(HOUR, e.created) < start + n * HOUR && e.kind == kind
  }

  lemma {:induction false} HoursAddUp(ops: seq<Op>, q: Query, start: int, kind: string, n: nat)
    requires !q.daily && start % HOUR == 0
    ensures HoursSum(Run(ops).hourly, q, start, kind, n) == CountWhere(History(ops), InHours(q, start, kind, n))
  {
    if n == 0 {
      CountNothing(History(ops), InHours(q, start, kind, 0));
    } else {
      HoursAddUp(ops, q, start, kind, n - 1);
      AnswerCountsHistory(ops, q, Group(start + (n - 1) * HOUR, kind));
      var hour := InAnswer(q, Group(start + (n - 1) * HOUR, kind));
      forall e ensures (InHours(q, start, kind, n)(e) == (InHours(q, start, kind, n - 1)(e) || hour(e)))
                       && !(InHours(q, start, kind, n - 1)(e) && hour(e))
      {
        HourStep(start, n, FloorTo(HOUR, e.created), e.created);
      }
      CountSplits(History(ops), InHours(q, start, kind, n - 1), hour, InHours(q, start, kind, n));
    }
  }

  lemma HourStep(start: int, n: nat, t: int, created: int)
    requires n > 0 && start % HOUR == 0 && t == FloorTo(HOUR, created)
    ensures start + (n - 1) * HOUR <= t < start + n * HOUR <==> t == start + (n - 1) * HOUR
  {
    HourStepInSeconds(start, n, t, created);
  }

  lemma HourStepInSeconds(start: int, n: nat, t: int, created: int)
    requires n > 0 && start % 3600 == 0 && t == created - created % 3600
    ensures start + (n - 1) * 3600 <= t < start + n * 3600 <==> t == start + (n - 1) * 3600
  {
    var a, b := start / 3600, created / 3600;
    assert start == 3600 * a && t == 3600 * b;
  }

  lemma {:induction false} CountNothing(h: seq<Event>, p: Event -> bool)
    requires forall e :: !p(e)
    ensures CountWhere(h, p) == 0
  {
    if h != [] { CountNothing(h[..|h| - 1], p); }
  }

  /** A day of the daily answer is the sum of the 24 hours of the hourly answer to the same query. */
  lemma DayIsSumOfHours(ops: seq<Op>, q: Query, day: int, kind: string)
    requires q.daily && day % DAY == 0
    ensures SumWhere(Run(ops).hourly, InGroup(q, Group(day, kind)))
         == HoursSum(Run(ops).hourly, q.(daily := false), day, kind, DAY / HOUR)
  {
    HoursMakeDay(ops, q, day, kind, DAY / HOUR);
  }

  lemma HoursMakeDay(ops: seq<Op>, q: Query, day: int, kind: string, hours: nat)
    requires q.daily && day % DAY == 0 && hours == DAY / HOUR
    ensures SumWhere(Run(ops).hourly, InGroup(q, Group(day, kind)))
         == HoursSum(Run(ops).hourly, q.(daily := false), day, kind, hours)
  {
    AnswerCountsHistory(ops, q, Group(day, kind));
    HoursAddUp(ops, q.(daily := false), day, kind, hours);
    var p, r := InAnswer(q, Group(day, kind)), InHours(q.(daily := false), day, kind, hours);
    forall e ensures p(e) == r(e) { DayEvent(q, day, kind, e); }
    CountsAlike(History(ops), p, r);
  }

  lemma DayEvent(q: Query, day: int, kind: string, e: Event)
    requires q.daily && day % DAY == 0
    ensures InAnswer(q, Group(day, kind))(e) == InHours(q.(daily := false), day, kind, 24)(e)
  {
    DaySpan(day, e.created);
  }

  lemma DaySpan(day: int, t: int)
    requires day % DAY == 0
    ensures FloorTo(DAY, t) == day <==> day <= FloorTo(HOUR, t) < day + 24 * HOUR
  {
    DaySpanInSeconds(day, t);
  }

  lemma DaySpanInSeconds(day: int, t: int)
    requires day % 86400 == 0
    ensures t - t % 86400 == day <==> day <= t - t % 3600 < day + 86400
  {
    var k := day / 86400;
    var n := 24 * k;
    assert day == 86400 * k == 3600 * n;
    HourAtLeast(n, t);
    HourAtLeast(n + 24, t);
  }

  lemma HourAtLeast(n: int, t: int)
    ensures 3600 * n <= t - t % 3600 <==> 3600 * n <= t
  {}
}
