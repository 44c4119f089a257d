/** Daily usage counters: one row per organisation, UTC day and metric. Times are milliseconds. */
module UsageCounter {
  import opened Outcomes
  import opened UtcDay

  datatype Row = Row(organizationId: string, date: int, metric: string, count: int)

  predicate HasKey(r: Row, org: string, day: int, metric: string) {
    r.organizationId == org && Day(r.date) == day && r.metric == metric
  }

  /** The row under a key. */
  function Position(rows: seq<Row>, org: string, day: int, metric: string): (i: Option<nat>)
    ensures i.Some? ==> i.value < |rows| && HasKey(rows[i.value], org, day, metric)
    ensures i.None? ==> forall r :: r in rows ==> !HasKey(r, org, day, metric)
  {
    if rows == [] then None
    else
      var n := |rows| - 1;
      if HasKey(rows[n], org, day, metric) then Some(n) else Position(rows[..n], org, day, metric)
  }

  function CountOf(rows: seq<Row>, org: string, day: int, metric: string): int {
    var i := Position(rows, org, day, metric);
    if i.Some? then rows[i.value].count else 0
  }

  function Bumped(rows: seq<Row>, org: string, date: int, metric: string, delta: int): seq<Row> {
    var row := Row(org, date, metric, CountOf(rows, org, Day(date), metric) + delta);
    var i := Position(rows, org, Day(date), metric);
    if i.Some? then rows[i.value := row] else rows + [row]
  }

  lemma CountWithNext(rows: seq<Row>, i: nat, org: string, day: int, metric: string)
    requires i < |rows|
    ensures CountOf(rows[..i + 1], org, day, metric)
         == if HasKey(rows[i], org, day, metric) then rows[i].count else CountOf(rows[..i], org, day, metric)
  {
    assert rows[..i + 1][..i] == rows[..i];
  }

  predicate InWindow(r: Row, org: string, since: int, until: int) {
    r.organizationId == org && since <= r.date < until
  }

  function SumOf(rows: seq<Row>, org: string, since: int, until: int, metric: string): int {
    if rows == [] then 0
    else
      var last := rows[|rows| - 1];
      SumOf(rows[..|rows| - 1], org, since, until, metric)
      + (if InWindow(last, org, since, until) && last.metric == metric then last.count else 0)
  }

  /** A metric that is absent from a record of totals counts as zero. */
  function Get(totals: map<string, int>, metric: string): int {
    if metric in totals then totals[metric] else 0
  }

  class UsageCounterRepository {
    var rows: seq<Row>

    constructor ()
      ensures rows == []
    {
      rows := [];
    }

    method Bump(org: string, date: int, metric: string, delta: int) returns (count: int)
      modifies this
      ensures rows == Bumped(old(rows), org, date, metric, delta)
      ensures count == CountOf(old(rows), org, Day(date), metric) + delta
    {
      var i := Position(rows, org, Day(date), metric);
      count := (if i.Some? then rows[i.value].count else 0) + delta;
      var row := Row(org, date, metric, count);
      rows := if i.Some? then rows[i.value := row] else rows + [row];
    }

    method SumRange(org: string, since: int, until: int) returns (out: map<string, int>)
      ensures forall metric :: Get(out, metric) == SumOf(rows, org, since, until, metric)
      ensures forall metric :: metric in out <==>
        exists r :: r in rows && r.metric == metric && InWindow(r, org, since, until)
    {
      out := map[];
      for i := 0 to |rows|
        invariant forall metric :: Get(out, metric) == SumOf(rows[..i], org, since, until, metric)
        invariant forall metric :: metric in out <==>
          exists r :: r in rows[..i] && r.metric == metric && InWindow(r, org, since, until)
      {
        var r := rows[i];
        assert rows[..i + 1][..i] == rows[..i] && rows[..i + 1] == rows[..i] + [r];
        if r.organizationId != org { continue; }
        if r.date < since || r.date >= until { continue; }
        out := out[r.metric := Get(out, r.metric) + r.count];
      }
      assert rows[..|rows|] == rows;
    }
  }

  ghost predicate RowsOk(rows: seq<Row>) {
    && (forall i, j :: 0 <= i < j < |rows| ==>
          !HasKey(rows[j], rows[i].organizationId, Day(rows[i].date), rows[i].metric))
    && (forall i :: 0 <= i < |rows| ==> StartOfUtcDay(rows[i].date) == rows[i].date)
  }

  lemma BumpKeepsRows(rows: seq<Row>, org: string, date: int, metric: string, delta: int)
    requires RowsOk(rows) && StartOfUtcDay(date) == date
    ensures RowsOk(Bumped(rows, org, date, metric, delta))
  {
    var i := Position(rows, org, Day(date), metric);
    if i.None? {
      assert forall k :: 0 <= k < |rows| ==> rows[k] in rows;
    }
  }

  class UsageCounterService {
    const repo: UsageCounterRepository

    constructor (repo: UsageCounterRepository)
      ensures this.repo == repo
    {
      this.repo := repo;
    }

    method Bump(org: string, metric: string, delta: int, now: int) returns (count: int)
      modifies repo
      ensures repo.rows == Bumped(old(repo.rows), org, StartOfUtcDay(now), metric, delta)
      ensures count == CountOf(old(repo.rows), org, Day(now), metric) + delta
      ensures RowsOk(old(repo.rows)) ==> RowsOk(repo.rows)
    {
      SameDay(now);
      if RowsOk(repo.rows) {
        BumpKeepsRows(repo.rows, org, StartOfUtcDay(now), metric, delta);
      }
      count := repo.Bump(org, StartOfUtcDay(now), metric, delta);
    }

    method Today(org: string, now: int) returns (byMetric: map<string, int>)
      ensures forall metric :: Get(byMetric, metric) == CountOf(repo.rows, org, Day(now), metric)
    {
      var rows := repo.rows;
      byMetric := map[];
      for i := 0 to |rows|
        invariant forall metric :: Get(byMetric, metric) == CountOf(rows[..i], org, Day(now), metric)
      {
        var r := rows[i];
        forall metric
          ensures CountOf(rows[..i + 1], org, Day(now), metric)
               == if HasKey(r, org, Day(now), metric) then r.count else CountOf(rows[..i], org, Day(now), metric)
        {
          CountWithNext(rows, i, org, Day(now), metric);
        }
        if r.organizationId == org && Day(r.date) == Day(now) {
          byMetric := byMetric[r.metric := r.count];
        }
      }
      assert rows[..|rows|] == rows;
    }
  }

  // ----- Counters against the bumps they were made of -----

  datatype BumpCall = BumpCall(organizationId: string, metric: string, delta: int, now: int)

  function RowsOf(calls: seq<BumpCall>): seq<Row> {
    if calls == [] then []
    else
      var c := calls[|calls| - 1];
      Bumped(RowsOf(calls[..|calls| - 1]), c.organizationId, StartOfUtcDay(c.now), c.metric, c.delta)
  }

  /** Deltas bumped on one day. */
  function DayTotal(calls: seq<BumpCall>, org: string, day: int, metric: string): int {
    if calls == [] then 0
    else
      var c := calls[|calls| - 1];
      DayTotal(calls[..|calls| - 1], org, day, metric)
      + (if c.organizationId == org && c.metric == metric && Day(c.now) == day then c.delta else 0)
  }

  /** Deltas bumped on days that start inside a half-open window. */
  function WindowTotal(calls: seq<BumpCall>, org: string, since: int, until: int, metric: string): int {
    if calls == [] then 0
    else
      var c := calls[|calls| - 1];
      WindowTotal(calls[..|calls| - 1], org, since, until, metric)
      + (if c.organizationId == org && c.metric == metric && since <= StartOfUtcDay(c.now) < until then c.delta else 0)
  }

  lemma OnlyPosition(rows: seq<Row>, i: nat, org: string, day: int, metric: string)
    requires RowsOk(rows) && i < |rows| && HasKey(rows[i], org, day, metric)
    ensures Position(rows, org, day, metric) == Some(i)
  {
    assert rows[i] in rows;
  }

  /** A bump moves the count of its own key by delta and no other. */
  lemma BumpMovesOneCount(rows: seq<Row>, org: string, date: int, metric: string, delta: int,
                          o: string, day: int, m: string)
    requires RowsOk(rows) && StartOfUtcDay(date) == date
    ensures CountOf(Bumped(rows, org, date, metric, delta), o, day, m)
         == CountOf(rows, o, day, m) + (if o == org && day == Day(date) && m == metric then delta else 0)
  {
    var rows' := Bumped(rows, org, date, metric, delta);
    var at := Position(rows, org, Day(date), metric);
    BumpKeepsRows(rows, org, date, metric, delta);
    var i := Position(rows, o, day, m);
    if o == org && day == Day(date) && m == metric {
      OnlyPosition(rows', if at.Some? then at.value else |rows|, o, day, m);
    } else if i.Some? {
      OnlyPosition(rows', i.value, o, day, m);
    } else {
      forall r | r in rows'
        ensures !HasKey(r, o, day, m)
      {}
    }
  }

  lemma {:induction false} SumUpdate(rows: seq<Row>, i: nat, row: Row, org: string, since: int, until: int,
                                     metric: string)
    requires i < |rows|
    requires row.organizationId == rows[i].organizationId && row.date == rows[i].date && row.metric == rows[i].metric
    ensures SumOf(rows[i := row], org, since, until, metric) == SumOf(rows, org, since, until, metric)
              + (if InWindow(row, org, since, until) && row.metric == metric then row.count - rows[i].count else 0)
    decreases |rows|
  {
    var n := |rows| - 1;
    if i == n {
      assert rows[i := row][..n] == rows[..n];
    } else {
      SumUpdate(rows[..n], i, row, org, since, until, metric);
      assert rows[i := row][..n] == rows[..n][i := row];
    }
  }

  /** The row is replaced in place or appended; either way the window's sum moves by delta or not at all. */
  lemma BumpMovesSum(rows: seq<Row>, org: string, date: int, metric: string, delta: int,
                     o: string, since: int, until: int, m: string)
    requires RowsOk(rows) && StartOfUtcDay(date) == date
    ensures SumOf(Bumped(rows, org, date, metric, delta), o, since, until, m)
         == SumOf(rows, o, since, until, m) + (if o == org && m == metric && since <= date < until then delta else 0)
  {
    var at := Position(rows, org, Day(date), metric);
    if at.Some? {
      SameDayStart(rows[at.value].date, date);
      SumUpdate(rows, at.value, Bumped(rows, org, date, metric, delta)[at.value], o, since, until, m);
    } else {
      assert Bumped(rows, org, date, metric, delta)[..|rows|] == rows;
    }
  }

  lemma {:induction false} RowsStayOk(calls: seq<BumpCall>)
    ensures RowsOk(RowsOf(calls))
    decreases |calls|
  {
    if calls != [] {
      var before, c := calls[..|calls| - 1], calls[|calls| - 1];
      RowsStayOk(before);
      SameDay(c.now);
      BumpKeepsRows(RowsOf(before), c.organizationId, StartOfUtcDay(c.now), c.metric, c.delta);
    }
  }

  lemma {:induction false} CountIsDayTotal(calls: seq<BumpCall>, org: string, day: int, metric: string)
    ensures CountOf(RowsOf(calls), org, day, metric) == DayTotal(calls, org, day, metric)
    decreases |calls|
  {
    if calls != [] {
      var before, c := calls[..|calls| - 1], calls[|calls| - 1];
      CountIsDayTotal(before, org, day, metric);
      RowsStayOk(before);
      SameDay(c.now);
      BumpMovesOneCount(RowsOf(before), c.organizationId, StartOfUtcDay(c.now), c.metric, c.delta, org, day, metric);
    }
  }

  lemma {:induction false} SumIsWindowTotal(calls: seq<BumpCall>, org: string, metric: string, since: int, until: int)
    ensures SumOf(RowsOf(calls), org, since, until, metric) == WindowTotal(calls, org, since, until, metric)
    decreases |calls|
  {
    if calls != [] {
      var before, c := calls[..|calls| - 1], calls[|calls| - 1];
      SumIsWindowTotal(before, org, metric, since, until);
      RowsStayOk(before);
      SameDay(c.now);
      BumpMovesSum(RowsOf(before), c.organizationId, StartOfUtcDay(c.now), c.metric, c.delta,
                   org, since, until, metric);
    }
  }

  /**
   After any sequence of bumps each count is the sum of its deltas, and a range sum is the sum of the
   deltas bumped on days that start inside the half-open window.
   */
  lemma CountsAreSums(calls: seq<BumpCall>, org: string, day: int, metric: string, since: int, until: int)
    ensures RowsOk(RowsOf(calls))
    ensures CountOf(RowsOf(calls), org, day, metric) == DayTotal(calls, org, day, metric)
    ensures SumOf(RowsOf(calls), org, since, until, metric) == WindowTotal(calls, org, since, until, metric)
  {
    RowsStayOk(calls);
    CountIsDayTotal(calls, org, day, metric);
    SumIsWindowTotal(calls, org, metric, since, until);
  }

  /** Adjacent windows add up. */
  lemma {:induction false} WindowsAddUp(rows: seq<Row>, org: string, a: int, b: int, c: int, metric: string)
    requires a <= b <= c
    ensures SumOf(rows, org, a, b, metric) + SumOf(rows, org, b, c, metric) == SumOf(rows, org, a, c, metric)
    decreases |rows|
  {
    if rows != [] {
      WindowsAddUp(rows[..|rows| - 1], org, a, b, c, metric);
    }
  }

  lemma {:induction false} SameTotals(calls: seq<BumpCall>, org: string, day: int, metric: string)
    ensures WindowTotal(calls, org, day * MS_PER_DAY, (day + 1) * MS_PER_DAY, metric)
         == DayTotal(calls, org, day, metric)
    decreases |calls|
  {
    if calls != [] {
      SameTotals(calls[..|calls| - 1], org, day, metric);
      DayOfTime(calls[|calls| - 1].now, day);
    }
  }

  /** The window of one UTC day is that day's count. */
  lemma DayWindow(calls: seq<BumpCall>, org: string, day: int, metric: string)
    ensures SumOf(RowsOf(calls), org, day * MS_PER_DAY, (day + 1) * MS_PER_DAY, metric)
         == CountOf(RowsOf(calls), org, day, metric)
  {
    CountsAreSums(calls, org, day, metric, day * MS_PER_DAY, (day + 1) * MS_PER_DAY);
    SameTotals(calls, org, day, metric);
  }
}
