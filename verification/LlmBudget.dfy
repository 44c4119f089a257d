/**
 The daily LLM budget. A `classify` call reads the day's totals, judges what it read, and only after the
 model has answered records what it used; in between any number of other calls may do the same.
 */
module LlmBudget {
  import opened Outcomes
  import opened UtcDay

  datatype UsageStatus = UsageOk | UsageError

  /** Times are milliseconds; costs are exact rationals. */
  datatype UsageRow = UsageRow(organizationId: string, status: UsageStatus, totalTokens: Option<nat>,
                               estimatedCost: Option<real>, createdAt: int)

  datatype Totals = Totals(requestCount: nat, totalTokens: nat, totalCost: real)

  predicate Counts(row: UsageRow, organizationId: string, since: int) {
    row.organizationId == organizationId && row.status == UsageOk && row.createdAt >= since
  }

  function TotalsSince(rows: seq<UsageRow>, organizationId: string, since: int): Totals {
    if rows == [] then Totals(0, 0, 0.0)
    else
      var t := TotalsSince(rows[..|rows| - 1], organizationId, since);
      var last := rows[|rows| - 1];
      if !Counts(last, organizationId, since) then t
      else Totals(t.requestCount + 1,
                  t.totalTokens + (if last.totalTokens.Some? then last.totalTokens.value else 0),
                  t.totalCost + (if last.estimatedCost.Some? then last.estimatedCost.value else 0.0))
  }

  class UsageLogRepository {
    var rows: seq<UsageRow>

    constructor ()
      ensures rows == []
    {
      rows := [];
    }

    method Create(row: UsageRow)
      modifies this
      ensures rows == old(rows) + [row]
    {
      rows := rows + [row];
    }

    method DailyTotals(organizationId: string, since: int) returns (totals: Totals)
      ensures totals == TotalsSince(rows, organizationId, since)
    {
      var count: nat, tokens: nat, cost := 0, 0, 0.0;
      for i := 0 to |rows|
        invariant Totals(count, tokens, cost) == TotalsSince(rows[..i], organizationId, since)
      {
        assert rows[..i + 1][..i] == rows[..i];
        var r := rows[i];
        if r.organizationId != organizationId { continue; }
        if r.status != UsageOk { continue; }
        if r.createdAt < since { continue; }
        count := count + 1;
        tokens := tokens + (if r.totalTokens.Some? then r.totalTokens.value else 0);
        cost := cost + (if r.estimatedCost.Some? then r.estimatedCost.value else 0.0);
      }
      assert rows[..|rows|] == rows;
      totals := Totals(count, tokens, cost);
    }
  }

  datatype Budget = Budget(maxRequestsPerDay: int, maxCostPerDayUsd: real)

  datatype Verdict = CanSpend | RequestsExceeded(limit: int, current: nat) | CostExceeded(costLimit: real, cost: real)

  function Judge(budget: Budget, totals: Totals): Verdict {
    if totals.requestCount >= budget.maxRequestsPerDay
    then RequestsExceeded(budget.maxRequestsPerDay, totals.requestCount)
    else if totals.totalCost >= budget.maxCostPerDayUsd then CostExceeded(budget.maxCostPerDayUsd, totals.totalCost)
    else CanSpend
  }

  class BudgetGuard {
    const usage: UsageLogRepository
    const budget: Budget

    constructor (usage: UsageLogRepository, budget: Budget)
      ensures this.usage == usage && this.budget == budget
    {
      this.usage := usage;
      this.budget := budget;
    }

    method AssertCanSpend(organizationId: string, now: int) returns (verdict: Verdict)
      ensures var t := TotalsSince(usage.rows, organizationId, StartOfUtcDay(now));
              && verdict == Judge(budget, t)
              && (t.requestCount >= budget.maxRequestsPerDay <==>
                    verdict == RequestsExceeded(budget.maxRequestsPerDay, t.requestCount))
              && (verdict == CostExceeded(budget.maxCostPerDayUsd, t.totalCost) <==>
                    t.requestCount < budget.maxRequestsPerDay && t.totalCost >= budget.maxCostPerDayUsd)
              && (verdict == CanSpend <==>
                    t.requestCount < budget.maxRequestsPerDay && t.totalCost < budget.maxCostPerDayUsd)
    {
      var totals := usage.DailyTotals(organizationId, StartOfUtcDay(now));
      if totals.requestCount >= budget.maxRequestsPerDay {
        return RequestsExceeded(budget.maxRequestsPerDay, totals.requestCount);
      }
      if totals.totalCost >= budget.maxCostPerDayUsd {
        return CostExceeded(budget.maxCostPerDayUsd, totals.totalCost);
      }
      return CanSpend;
    }
  }

  // ----- Concurrent calls -----

  /**
   A call of `classify`. The start of the day is fixed before the totals are read, and the totals are read before
   they are judged: other calls may run between any two of these. Over covers refused and finished calls.
   */
  datatype Phase =
    | Begun(organizationId: string, since: int)
    | HasRead(organizationId: string, totals: Totals)
    | Calling(organizationId: string)
    | Over

  /** A call's number is its place in the list. */
  datatype State = State(rows: seq<UsageRow>, calls: seq<Phase>, now: int)

  datatype Event =
    | Begin(organizationId: string)
    | Read(call: nat)
    | Judged(call: nat)
    | RecordOk(call: nat, tokens: Option<nat>, cost: Option<real>)
    | RecordError(call: nat)
    | Lose(call: nat)
    | Tick(later: int)

  predicate Enabled(s: State, e: Event) {
    match e
    case Begin(_) => true
    case Tick(later) => s.now <= later
    case Read(c) => c < |s.calls| && s.calls[c].Begun?
    case Judged(c) => c < |s.calls| && s.calls[c].HasRead?
    case RecordOk(c, _, _) => c < |s.calls| && s.calls[c].Calling?
    case RecordError(c) => c < |s.calls| && s.calls[c].Calling?
    case Lose(c) => c < |s.calls| && !s.calls[c].Over?
  }

  function Today(s: State, organizationId: string): Totals {
    TotalsSince(s.rows, organizationId, StartOfUtcDay(s.now))
  }

  function NewRow(s: State, e: Event): UsageRow
    requires Enabled(s, e) && (e.RecordOk? || e.RecordError?)
  {
    var org := s.calls[e.call].organizationId;
    if e.RecordOk? then UsageRow(org, UsageOk, e.tokens, e.cost, s.now)
    else UsageRow(org, UsageError, None, None, s.now)
  }

  function Apply(budget: Budget, s: State, e: Event): State
    requires Enabled(s, e)
  {
    match e
    case Begin(org) => s.(calls := s.calls + [Begun(org, StartOfUtcDay(s.now))])
    case Read(c) =>
      var p := s.calls[c];
      s.(calls := s.calls[c := HasRead(p.organizationId, TotalsSince(s.rows, p.organizationId, p.since))])
    case Judged(c) =>
      var p := s.calls[c];
      s.(calls := s.calls[c := if Judge(budget, p.totals).CanSpend? then Calling(p.organizationId) else Over])
    case RecordOk(c, _, _) => State(s.rows + [NewRow(s, e)], s.calls[c := Over], s.now)
    case RecordError(c) => State(s.rows + [NewRow(s, e)], s.calls[c := Over], s.now)
    case Lose(c) => s.(calls := s.calls[c := Over])
    case Tick(later) => s.(now := later)
  }

  ghost predicate Run(budget: Budget, states: seq<State>, events: seq<Event>) {
    && |states| == |events| + 1
    && states[0].rows == [] && states[0].calls == []
    && forall i :: 0 <= i < |events| ==>
         Enabled(states[i], events[i]) && states[i + 1] == Apply(budget, states[i], events[i])
  }

  // ----- Counting calls -----

  function Count(calls: seq<Phase>, counts: Phase -> bool): nat {
    if calls == [] then 0
    else Count(calls[..|calls| - 1], counts) + (if counts(calls[|calls| - 1]) then 1 else 0)
  }

  /** Calls that have read the totals and not recorded yet. */
  function UnderWay(org: string): Phase -> bool {
    (p: Phase) => (p.HasRead? || p.Calling?) && p.organizationId == org
  }

  /** Those of them that are still to be judged, and will be let through. */
  function Waiting(budget: Budget, org: string): Phase -> bool {
    (p: Phase) => p.HasRead? && p.organizationId == org && Judge(budget, p.totals).CanSpend?
  }

  /** Those of them that have been judged and let through. */
  function Admitted(org: string): Phase -> bool {
    (p: Phase) => p.Calling? && p.organizationId == org
  }

  /** Both together. */
  function Passing(budget: Budget, org: string): Phase -> bool {
    (p: Phase) => (p.HasRead? && p.organizationId == org && Judge(budget, p.totals).CanSpend?)
                  || (p.Calling? && p.organizationId == org)
  }

  lemma {:induction false} CountUpdate(calls: seq<Phase>, i: nat, p: Phase, counts: Phase -> bool)
    requires i < |calls|
    ensures Count(calls[i := p], counts) + (if counts(calls[i]) then 1 else 0)
         == Count(calls, counts) + (if counts(p) then 1 else 0)
    decreases |calls|
  {
    var last := |calls| - 1;
    if i == last {
      assert calls[i := p][..last] == calls[..last];
    } else {
      CountUpdate(calls[..last], i, p, counts);
      assert calls[i := p][..last] == calls[..last][i := p];
    }
  }

  lemma CountAdd(calls: seq<Phase>, p: Phase, counts: Phase -> bool)
    ensures Count(calls + [p], counts) == Count(calls, counts) + (if counts(p) then 1 else 0)
  {
    assert (calls + [p])[..|calls|] == calls;
  }

  lemma {:induction false} CountFewer(calls: seq<Phase>, a: Phase -> bool, b: Phase -> bool)
    requires forall p :: a(p) ==> b(p)
    ensures Count(calls, a) <= Count(calls, b)
  {
    if calls != [] {
      CountFewer(calls[..|calls| - 1], a, b);
    }
  }

  lemma {:induction false} FindCounted(calls: seq<Phase>, counts: Phase -> bool) returns (i: nat)
    requires Count(calls, counts) > 0
    ensures i < |calls| && counts(calls[i])
  {
    var last := |calls| - 1;
    if counts(calls[last]) {
      i := last;
    } else {
      i := FindCounted(calls[..last], counts);
    }
  }

  /** The event moves the count by the one call it changes. */
  predicate Shifted(budget: Budget, s: State, e: Event, counts: Phase -> bool)
    requires Enabled(s, e)
  {
    var s' := Apply(budget, s, e);
    Count(s'.calls, counts) == Count(s.calls, counts)
      - (if !e.Begin? && !e.Tick? && counts(s.calls[e.call]) then 1 else 0)
      + (if !e.Begin? && !e.Tick? && counts(s'.calls[e.call]) then 1 else 0)
  }

  lemma StepCounts(budget: Budget, s: State, e: Event, counts: Phase -> bool)
    requires Enabled(s, e) && forall org, since :: !counts(Begun(org, since))
    ensures Shifted(budget, s, e, counts)
  {
    if e.Begin? {
      CountAdd(s.calls, Begun(e.organizationId, StartOfUtcDay(s.now)), counts);
    } else if !e.Tick? {
      CountUpdate(s.calls, e.call, Apply(budget, s, e).calls[e.call], counts);
    }
  }

  /** The event records a success of the organisation at a price. */
  predicate Pays(s: State, e: Event, org: string)
    requires Enabled(s, e)
  {
    e.RecordOk? && s.calls[e.call].organizationId == org && e.cost.Some?
  }

  ghost predicate CountsWithin(states: seq<State>, counts: Phase -> bool, k: nat) {
    forall i :: 0 <= i < |states| ==> Count(states[i].calls, counts) <= k
  }

  /** The organisation's successes are priced from 0 to dearest. */
  ghost predicate PricesWithin(states: seq<State>, events: seq<Event>, org: string, dearest: real)
    requires |states| == |events| + 1
  {
    forall i :: 0 <= i < |events| && Enabled(states[i], events[i]) && Pays(states[i], events[i], org) ==>
      0.0 <= events[i].cost.value <= dearest
  }

  /** Of the organisation at most k calls at once are between their read and their record; prices are 0 to dearest. */
  ghost predicate Limited(states: seq<State>, events: seq<Event>, org: string, k: nat, dearest: real) {
    && |states| == |events| + 1
    && CountsWithin(states, UnderWay(org), k)
    && PricesWithin(states, events, org, dearest)
  }

  // ----- The bound -----

  /** n calls at the same price. */
  ghost function Times(n: nat, price: real): real {
    if n == 0 then 0.0 else Times(n - 1, price) + price
  }

  lemma {:induction false} TimesIsProduct(n: nat, price: real)
    ensures Times(n, price) == n as real * price
  {
    if n > 0 {
      TimesIsProduct(n - 1, price);
      assert n as real * price == (n - 1) as real * price + price;
    }
  }

  lemma {:induction false} TimesGrows(m: nat, n: nat, price: real)
    requires m <= n && price >= 0.0
    ensures Times(m, price) <= Times(n, price)
    decreases n
  {
    if m < n {
      TimesGrows(m, n - 1, price);
    }
  }

  /** Spent today, plus what f calls that will be let through may still spend, stays within the limits plus k calls. */
  ghost predicate Within(budget: Budget, t: Totals, f: nat, k: nat, dearest: real) {
    && t.requestCount + f <= budget.maxRequestsPerDay - 1 + k
    && t.totalCost + Times(f, dearest) < budget.maxCostPerDayUsd + Times(k, dearest)
  }

  ghost predicate WithinOvershoot(budget: Budget, s: State, org: string, k: nat, dearest: real) {
    Within(budget, Today(s, org), Count(s.calls, Passing(budget, org)), k, dearest)
  }

  lemma PassingKeepsWithin(budget: Budget, t: Totals, f: nat, k: nat, dearest: real)
    requires t.requestCount < budget.maxRequestsPerDay && t.totalCost < budget.maxCostPerDayUsd
    requires f <= k && dearest >= 0.0
    ensures Within(budget, t, f, k, dearest)
  {
    TimesGrows(f, k, dearest);
  }

  lemma RecordingKeepsWithin(budget: Budget, t: Totals, t': Totals, f: nat, k: nat, dearest: real)
    requires Within(budget, t, f + 1, k, dearest)
    requires t'.requestCount == t.requestCount + 1 && t'.totalCost <= t.totalCost + dearest
    ensures Within(budget, t', f, k, dearest)
  {}

  lemma LeavingKeepsWithin(budget: Budget, t: Totals, f: nat, k: nat, dearest: real)
    requires Within(budget, t, f + 1, k, dearest) && dearest >= 0.0
    ensures Within(budget, t, f, k, dearest)
  {}

  /** A row adds to the totals exactly when it is a success of the organisation, not older than the given time. */
  lemma Appended(rows: seq<UsageRow>, row: UsageRow, org: string, since: int)
    ensures TotalsSince([], org, since) == Totals(0, 0, 0.0)
    ensures TotalsSince(rows + [row], org, since) ==
      var t := TotalsSince(rows, org, since);
      if !(row.organizationId == org && row.status == UsageOk && row.createdAt >= since) then t
      else Totals(t.requestCount + 1,
                  t.totalTokens + (if row.totalTokens.Some? then row.totalTokens.value else 0),
                  t.totalCost + (if row.estimatedCost.Some? then row.estimatedCost.value else 0.0))
  {
    assert (rows + [row])[..|rows|] == rows;
  }

  predicate PriceOk(row: UsageRow, org: string) {
    row.organizationId == org && row.estimatedCost.Some? ==> row.estimatedCost.value >= 0.0
  }

  /** Rows and calls carry times that have come, and the organisation's rows no negative price. */
  ghost predicate TimesOk(s: State, org: string) {
    && (forall r :: r in s.rows ==> r.createdAt <= s.now && PriceOk(r, org))
    && forall c :: 0 <= c < |s.calls| && s.calls[c].Begun? ==> s.calls[c].since <= StartOfUtcDay(s.now)
  }

  lemma {:induction false} NothingYet(rows: seq<UsageRow>, org: string, since: int)
    requires forall r :: r in rows ==> r.createdAt < since
    ensures TotalsSince(rows, org, since) == Totals(0, 0, 0.0)
    decreases |rows|
  {
    if rows != [] {
      assert rows[|rows| - 1] in rows;
      NothingYet(rows[..|rows| - 1], org, since);
    }
  }

  /** Totals since an earlier time are no less. */
  lemma {:induction false} EarlierIsMore(rows: seq<UsageRow>, org: string, since: int, later: int)
    requires since <= later && forall r :: r in rows ==> PriceOk(r, org)
    ensures TotalsSince(rows, org, later).requestCount <= TotalsSince(rows, org, since).requestCount
    ensures TotalsSince(rows, org, later).totalCost <= TotalsSince(rows, org, since).totalCost
    decreases |rows|
  {
    if rows != [] {
      assert rows[|rows| - 1] in rows;
      EarlierIsMore(rows[..|rows| - 1], org, since, later);
    }
  }

  lemma StepTimes(budget: Budget, s: State, e: Event, org: string)
    requires Enabled(s, e) && TimesOk(s, org)
    requires Pays(s, e, org) ==> e.cost.value >= 0.0
    ensures TimesOk(Apply(budget, s, e), org)
  {
    DayStarts(s.now, if e.Tick? then e.later else s.now);
  }

  /** What an event does to the day's totals: a success is counted, and a new day starts from nothing. */
  lemma StepToday(budget: Budget, s: State, e: Event, org: string)
    requires Enabled(s, e) && TimesOk(s, org)
    ensures var t, t' := Today(s, org), Today(Apply(budget, s, e), org);
            if e.RecordOk? && s.calls[e.call].organizationId == org
            then && t'.requestCount == t.requestCount + 1
                 && t'.totalCost == t.totalCost + (if e.cost.Some? then e.cost.value else 0.0)
            else t' == t || (e.Tick? && t' == Totals(0, 0, 0.0))
  {
    var since := StartOfUtcDay(s.now);
    DayStarts(s.now, s.now);
    if e.RecordOk? || e.RecordError? {
      Appended(s.rows, NewRow(s, e), org, since);
    } else if e.Tick? {
      DayStarts(s.now, e.later);
      if StartOfUtcDay(e.later) != since {
        NothingYet(s.rows, org, StartOfUtcDay(e.later));
      }
    }
  }

  /** The event reads totals that still allow a call of the organisation. */
  predicate Admits(budget: Budget, s: State, e: Event, org: string)
    requires Enabled(s, e)
  {
    && e.Read? && s.calls[e.call].organizationId == org
    && Judge(budget, TotalsSince(s.rows, org, s.calls[e.call].since)).CanSpend?
  }

  /** How an event moves the calls that will be let through. */
  lemma StepPassing(budget: Budget, s: State, e: Event, org: string)
    requires Enabled(s, e)
    ensures var f, f' := Count(s.calls, Passing(budget, org)), Count(Apply(budget, s, e).calls, Passing(budget, org));
            && f - 1 <= f' <= f + 1
            && (f' == f + 1 <==> Admits(budget, s, e, org))
            && (e.RecordOk? && s.calls[e.call].organizationId == org ==> f' == f - 1)
  {
    StepCounts(budget, s, e, Passing(budget, org));
  }

  /** Totals of the day, small enough to allow a call. */
  predicate BelowLimits(budget: Budget, t: Totals) {
    t.requestCount < budget.maxRequestsPerDay && t.totalCost < budget.maxCostPerDayUsd
  }

  lemma AdmittedBelowLimits(budget: Budget, s: State, e: Event, org: string)
    requires Enabled(s, e) && TimesOk(s, org) && Admits(budget, s, e, org)
    ensures BelowLimits(budget, Today(s, org)) && Today(Apply(budget, s, e), org) == Today(s, org)
  {
    EarlierIsMore(s.rows, org, s.calls[e.call].since, StartOfUtcDay(s.now));
  }

  /** The three ways in which totals and calls let through can move together. */
  lemma MoveWithin(budget: Budget, t: Totals, t': Totals, f: nat, f': nat, k: nat, dearest: real)
    requires Within(budget, t, f, k, dearest) && f' <= k && dearest >= 0.0
    requires || BelowLimits(budget, t')
             || (f' + 1 == f && t'.requestCount == t.requestCount + 1 && t'.totalCost <= t.totalCost + dearest)
             || (t' == t && (f' == f || f' + 1 == f))
    ensures Within(budget, t', f', k, dearest)
  {
    if BelowLimits(budget, t') {
      PassingKeepsWithin(budget, t', f', k, dearest);
    } else if f' + 1 == f && t' == t {
      LeavingKeepsWithin(budget, t, f', k, dearest);
    } else if f' + 1 == f {
      RecordingKeepsWithin(budget, t, t', f', k, dearest);
    }
  }

  lemma StepWithin(budget: Budget, s: State, e: Event, org: string, k: nat, dearest: real)
    requires Enabled(s, e) && TimesOk(s, org) && WithinOvershoot(budget, s, org, k, dearest)
    requires budget.maxRequestsPerDay >= 1 && budget.maxCostPerDayUsd > 0.0 && dearest >= 0.0
    requires Count(Apply(budget, s, e).calls, UnderWay(org)) <= k
    requires Pays(s, e, org) ==> e.cost.value <= dearest
    ensures WithinOvershoot(budget, Apply(budget, s, e), org, k, dearest)
  {
    var s' := Apply(budget, s, e);
    StepToday(budget, s, e, org);
    StepPassing(budget, s, e, org);
    CountFewer(s'.calls, Passing(budget, org), UnderWay(org));
    if Admits(budget, s, e, org) {
      AdmittedBelowLimits(budget, s, e, org);
    }
    MoveWithin(budget, Today(s, org), Today(s', org), Count(s.calls, Passing(budget, org)),
               Count(s'.calls, Passing(budget, org)), k, dearest);
  }

  lemma {:induction false} TimesStayOk(budget: Budget, states: seq<State>, events: seq<Event>, org: string, k: nat,
                                       dearest: real, i: nat)
    requires Run(budget, states, events) && Limited(states, events, org, k, dearest) && i < |states|
    ensures TimesOk(states[i], org)
  {
    if i > 0 {
      TimesStayOk(budget, states, events, org, k, dearest, i - 1);
      StepTimes(budget, states[i - 1], events[i - 1], org);
    }
  }

  lemma {:induction false} AlwaysWithin(budget: Budget, states: seq<State>, events: seq<Event>, org: string, k: nat,
                                        dearest: real, i: nat)
    requires Run(budget, states, events) && Limited(states, events, org, k, dearest) && i < |states|
    requires budget.maxRequestsPerDay >= 1 && budget.maxCostPerDayUsd > 0.0 && dearest >= 0.0
    ensures WithinOvershoot(budget, states[i], org, k, dearest)
  {
    if i == 0 {
      TimesGrows(0, k, dearest);
    } else {
      var h := i - 1;
      AlwaysWithin(budget, states, events, org, k, dearest, h);
      TimesStayOk(budget, states, events, org, k, dearest, h);
      assert Count(states[i].calls, UnderWay(org)) <= k;
      StepWithin(budget, states[h], events[h], org, k, dearest);
    }
  }

  /**
   Over every interleaving and across midnight, with at most k calls at once between reading the totals and
   recording, a day's successful calls never exceed the limit by more than k - 1 and its cost never reaches
   the limit plus k times the dearest call.
   */
  lemma BoundedOvershoot(budget: Budget, states: seq<State>, events: seq<Event>, org: string, k: nat, dearest: real,
                         i: nat)
    requires Run(budget, states, events) && Limited(states, events, org, k, dearest) && i < |states|
    requires budget.maxRequestsPerDay >= 1 && budget.maxCostPerDayUsd > 0.0 && dearest >= 0.0
    ensures Today(states[i], org).requestCount <= budget.maxRequestsPerDay - 1 + k
    ensures Today(states[i], org).totalCost < budget.maxCostPerDayUsd + k as real * dearest
  {
    AlwaysWithin(budget, states, events, org, k, dearest, i);
    TimesIsProduct(k, dearest);
    TimesGrows(0, Count(states[i].calls, Passing(budget, org)), dearest);
  }

  lemma CostStep(t: Totals, t': Totals, dearest: real)
    requires t.totalCost <= Times(t.requestCount, dearest)
    requires || (t'.requestCount == t.requestCount + 1 && t'.totalCost <= t.totalCost + dearest)
             || t' == t || t' == Totals(0, 0, 0.0)
    ensures t'.totalCost <= Times(t'.requestCount, dearest)
  {}

  /** What n counted calls cost together is at most n times the dearest. */
  lemma {:induction false} CostPerCall(budget: Budget, states: seq<State>, events: seq<Event>, org: string, k: nat,
                                       dearest: real, i: nat)
    requires Run(budget, states, events) && Limited(states, events, org, k, dearest) && i < |states|
    requires dearest >= 0.0
    ensures Today(states[i], org).totalCost <= Times(Today(states[i], org).requestCount, dearest)
  {
    if i > 0 {
      var h := i - 1;
      CostPerCall(budget, states, events, org, k, dearest, h);
      TimesStayOk(budget, states, events, org, k, dearest, h);
      StepToday(budget, states[h], events[h], org);
      CostStep(Today(states[h], org), Today(states[i], org), dearest);
    }
  }

  /** What a call records: a success with its tokens and cost, or an error without either, at the time it records. */
  lemma RowRecorded(budget: Budget, s: State, e: Event)
    requires Enabled(s, e)
    ensures var s' := Apply(budget, s, e);
            if e.RecordOk?
            then s'.rows == s.rows + [UsageRow(s.calls[e.call].organizationId, UsageOk, e.tokens, e.cost, s.now)]
            else if e.RecordError?
            then s'.rows == s.rows + [UsageRow(s.calls[e.call].organizationId, UsageError, None, None, s.now)]
            else s'.rows == s.rows
  {}

  // ----- Runs that use the window -----

  /** At most j calls of the organisation at once are between their judgement and their record. */
  ghost predicate AdmittedWithin(states: seq<State>, org: string, j: nat) {
    CountsWithin(states, Admitted(org), j)
  }

  /** What may be under way, and admitted, at once, and the dearest price. */
  datatype Bounds = Bounds(k: nat, j: nat, dearest: real)

  /** c calls recorded on the day of time 0, their cost, r calls that have read good totals, and f admitted ones. */
  datatype Mark = Mark(c: nat, cost: real, r: nat, f: nat)

  ghost predicate Stands(budget: Budget, s: State, org: string, m: Mark) {
    && Today(s, org).requestCount == m.c && Today(s, org).totalCost == m.cost
    && Count(s.calls, UnderWay(org)) == m.r + m.f
    && Count(s.calls, Waiting(budget, org)) == m.r
    && Count(s.calls, Admitted(org)) == m.f
    && TimesOk(s, org)
    && s.now == 0
  }

  /** A limited run that ends at the mark. */
  ghost predicate Reached(budget: Budget, states: seq<State>, events: seq<Event>, org: string, b: Bounds, m: Mark) {
    && Run(budget, states, events) && Limited(states, events, org, b.k, b.dearest) && AdmittedWithin(states, org, b.j)
    && Stands(budget, states[|events|], org, m)
  }

  lemma CountsWithinOneMore(states: seq<State>, s: State, counts: Phase -> bool, k: nat)
    requires CountsWithin(states, counts, k) && Count(s.calls, counts) <= k
    ensures CountsWithin(states + [s], counts, k)
  {}

  lemma PricesWithinOneMore(states: seq<State>, events: seq<Event>, s: State, e: Event, org: string, dearest: real)
    requires |states| == |events| + 1 && PricesWithin(states, events, org, dearest)
    requires Enabled(states[|events|], e)
    requires Pays(states[|events|], e, org) ==> 0.0 <= e.cost.value <= dearest
    ensures PricesWithin(states + [s], events + [e], org, dearest)
  {}

  lemma RunOneMore(budget: Budget, states: seq<State>, events: seq<Event>, e: Event)
    requires Run(budget, states, events) && Enabled(states[|events|], e)
    ensures Run(budget, states + [Apply(budget, states[|events|], e)], events + [e])
  {}

  lemma Extend(budget: Budget, states: seq<State>, events: seq<Event>, org: string, b: Bounds, e: Event)
    returns (states': seq<State>, events': seq<Event>)
    requires Run(budget, states, events) && Limited(states, events, org, b.k, b.dearest)
    requires AdmittedWithin(states, org, b.j) && Enabled(states[|events|], e)
    requires Count(Apply(budget, states[|events|], e).calls, UnderWay(org)) <= b.k
    requires Count(Apply(budget, states[|events|], e).calls, Admitted(org)) <= b.j
    requires Pays(states[|events|], e, org) ==> 0.0 <= e.cost.value <= b.dearest
    ensures events' == events + [e] && states' == states + [Apply(budget, states[|events|], e)]
    ensures Run(budget, states', events') && Limited(states', events', org, b.k, b.dearest)
    ensures AdmittedWithin(states', org, b.j)
  {
    var s := Apply(budget, states[|events|], e);
    RunOneMore(budget, states, events, e);
    CountsWithinOneMore(states, s, UnderWay(org), b.k);
    CountsWithinOneMore(states, s, Admitted(org), b.j);
    PricesWithinOneMore(states, events, s, e, org, b.dearest);
    events' := events + [e];
    states' := states + [s];
  }

  lemma Start(budget: Budget, org: string, b: Bounds) returns (states: seq<State>, events: seq<Event>)
    ensures Reached(budget, states, events, org, b, Mark(0, 0.0, 0, 0))
  {
    states, events := [State([], [], 0)], [];
  }

  /** An event that leaves the rows of the day alone. */
  lemma StepQuietly(budget: Budget, s: State, e: Event, org: string, m: Mark)
    requires Enabled(s, e) && Stands(budget, s, org, m) && (e.Begin? || e.Read? || e.Judged?)
    ensures var s' := Apply(budget, s, e);
            && Today(s', org) == Today(s, org) && TimesOk(s', org) && s'.now == 0
  {
    StepTimes(budget, s, e, org);
  }

  /** The three counts after an event, from those before it. */
  lemma AllCounts(budget: Budget, s: State, e: Event, org: string)
    requires Enabled(s, e)
    ensures Shifted(budget, s, e, UnderWay(org))
    ensures Shifted(budget, s, e, Waiting(budget, org))
    ensures Shifted(budget, s, e, Admitted(org))
  {
    StepCounts(budget, s, e, UnderWay(org));
    StepCounts(budget, s, e, Waiting(budget, org));
    StepCounts(budget, s, e, Admitted(org));
  }

  lemma BeginOnce(budget: Budget, states: seq<State>, events: seq<Event>, org: string, b: Bounds, m: Mark)
    returns (states': seq<State>, events': seq<Event>)
    requires Reached(budget, states, events, org, b, m) && m.r + m.f <= b.k && m.f <= b.j
    ensures Reached(budget, states', events', org, b, m)
    ensures var calls := states'[|events'|].calls; calls != [] && calls[|calls| - 1] == Begun(org, StartOfUtcDay(0))
  {
    var s := states[|events|];
    AllCounts(budget, s, Begin(org), org);
    StepQuietly(budget, s, Begin(org), org, m);
    states', events' := Extend(budget, states, events, org, b, Begin(org));
  }

  /** A call begins and reads totals that still allow it. */
  lemma ReadOnce(budget: Budget, states: seq<State>, events: seq<Event>, org: string, b: Bounds, m: Mark)
    returns (states': seq<State>, events': seq<Event>)
    requires Reached(budget, states, events, org, b, m) && m.f <= b.j
    requires m.c < budget.maxRequestsPerDay && m.cost < budget.maxCostPerDayUsd && m.r + m.f < b.k
    ensures Reached(budget, states', events', org, b, m.(r := m.r + 1))
  {
    states', events' := BeginOnce(budget, states, events, org, b, m);
    var s := states'[|events'|];
    var read := Read(|s.calls| - 1);
    AllCounts(budget, s, read, org);
    StepQuietly(budget, s, read, org, m);
    states', events' := Extend(budget, states', events', org, b, read);
  }

  /** A call that has read good totals is judged. */
  lemma JudgeOnce(budget: Budget, states: seq<State>, events: seq<Event>, org: string, b: Bounds, m: Mark)
    returns (states': seq<State>, events': seq<Event>)
    requires Reached(budget, states, events, org, b, m) && m.r > 0 && m.f < b.j && m.r + m.f <= b.k
    ensures Reached(budget, states', events', org, b, m.(r := m.r - 1, f := m.f + 1))
  {
    var s := states[|events|];
    var c := FindCounted(s.calls, Waiting(budget, org));
    AllCounts(budget, s, Judged(c), org);
    StepQuietly(budget, s, Judged(c), org, m);
    states', events' := Extend(budget, states, events, org, b, Judged(c));
  }

  lemma RecordOnce(budget: Budget, states: seq<State>, events: seq<Event>, org: string, b: Bounds, m: Mark, price: real)
    returns (states': seq<State>, events': seq<Event>)
    requires Reached(budget, states, events, org, b, m) && m.f > 0 && 0.0 <= price <= b.dearest
    requires m.r + m.f <= b.k && m.f <= b.j
    ensures Reached(budget, states', events', org, b, m.(c := m.c + 1, cost := m.cost + price, f := m.f - 1))
  {
    var s := states[|events|];
    var c := FindCounted(s.calls, Admitted(org));
    var record := RecordOk(c, None, Some(price));
    AllCounts(budget, s, record, org);
    StepTimes(budget, s, record, org);
    StepToday(budget, s, record, org);
    states', events' := Extend(budget, states, events, org, b, record);
  }

  /** One call from beginning to record, with no other in between. */
  lemma CallOnce(budget: Budget, states: seq<State>, events: seq<Event>, org: string, b: Bounds, c: nat, cost: real,
                 price: real)
    returns (states': seq<State>, events': seq<Event>)
    requires Reached(budget, states, events, org, b, Mark(c, cost, 0, 0)) && b.k >= 1 && b.j >= 1
    requires 0.0 <= price <= b.dearest && c < budget.maxRequestsPerDay && cost < budget.maxCostPerDayUsd
    ensures Reached(budget, states', events', org, b, Mark(c + 1, cost + price, 0, 0))
  {
    states', events' := ReadOnce(budget, states, events, org, b, Mark(c, cost, 0, 0));
    states', events' := JudgeOnce(budget, states', events', org, b, Mark(c, cost, 1, 0));
    states', events' := RecordOnce(budget, states', events', org, b, Mark(c, cost, 0, 1), price);
  }

  /** n calls that all read the totals before any of them is judged. */
  lemma ReadTogether(budget: Budget, states: seq<State>, events: seq<Event>, org: string, b: Bounds, c: nat, cost: real,
                     n: nat)
    returns (states': seq<State>, events': seq<Event>)
    requires Reached(budget, states, events, org, b, Mark(c, cost, 0, 0)) && n <= b.k
    requires c < budget.maxRequestsPerDay && cost < budget.maxCostPerDayUsd
    ensures Reached(budget, states', events', org, b, Mark(c, cost, n, 0))
  {
    states', events' := states, events;
    for r := 0 to n
      invariant Reached(budget, states', events', org, b, Mark(c, cost, r, 0))
    {
      states', events' := ReadOnce(budget, states', events', org, b, Mark(c, cost, r, 0));
    }
  }

  /** Once they have read, judging and recording them one by one lets them all through. */
  lemma FinishOneByOne(budget: Budget, states: seq<State>, events: seq<Event>, org: string, b: Bounds, c: nat,
                       cost: real, n: nat, price: real)
    returns (states': seq<State>, events': seq<Event>)
    requires Reached(budget, states, events, org, b, Mark(c, cost, n, 0)) && n <= b.k && b.j >= 1
    requires 0.0 <= price <= b.dearest
    ensures Reached(budget, states', events', org, b, Mark(c + n, cost + Times(n, price), 0, 0))
  {
    states', events' := states, events;
    for d := 0 to n
      invariant Reached(budget, states', events', org, b, Mark(c + d, cost + Times(d, price), n - d, 0))
    {
      var m := Mark(c + d, cost + Times(d, price), n - d, 0);
      states', events' := JudgeOnce(budget, states', events', org, b, m);
      states', events' := RecordOnce(budget, states', events', org, b, m.(r := n - d - 1, f := 1), price);
      assert cost + Times(d, price) + price == cost + Times(d + 1, price);
    }
  }

  /** Bounds on the window alone: no more are admitted than are under way. */
  function Window(k: nat, dearest: real): Bounds {
    Bounds(k, k, dearest)
  }

  /** The overshoot is real: k calls that read together before any records reach maxRequests - 1 + k. */
  lemma OvershootIsReached(budget: Budget, org: string, k: nat, dearest: real)
    returns (states: seq<State>, events: seq<Event>)
    requires k >= 1 && budget.maxRequestsPerDay >= 1 && budget.maxCostPerDayUsd > 0.0 && dearest >= 0.0
    ensures Reached(budget, states, events, org, Window(k, dearest), Mark(budget.maxRequestsPerDay - 1 + k, 0.0, 0, 0))
  {
    var b := Window(k, dearest);
    states, events := Start(budget, org, b);
    for c := 0 to budget.maxRequestsPerDay - 1
      invariant Reached(budget, states, events, org, b, Mark(c, 0.0, 0, 0))
    {
      states, events := CallOnce(budget, states, events, org, b, c, 0.0, 0.0);
    }
    states, events := ReadTogether(budget, states, events, org, b, budget.maxRequestsPerDay - 1, 0.0, k);
    states, events := FinishOneByOne(budget, states, events, org, b, budget.maxRequestsPerDay - 1, 0.0, k, 0.0);
    TimesIsProduct(k, 0.0);
  }

  /**
   The window has to open at the read. With never more than one call between its judgement and its record, any
   number of calls get through, whatever the limit.
   */
  lemma OneAdmittedBoundsNothing(budget: Budget, org: string, n: nat) returns (states: seq<State>, events: seq<Event>)
    requires budget.maxRequestsPerDay >= 1 && budget.maxCostPerDayUsd > 0.0
    ensures Run(budget, states, events) && AdmittedWithin(states, org, 1)
    ensures Today(states[|events|], org).requestCount == n
  {
    var b := Bounds(n, 1, 0.0);
    states, events := Start(budget, org, b);
    states, events := ReadTogether(budget, states, events, org, b, 0, 0.0, n);
    states, events := FinishOneByOne(budget, states, events, org, b, 0, 0.0, n, 0.0);
  }

  lemma {:induction false} TimesAdd(m: nat, n: nat, price: real)
    ensures Times(m + n, price) == Times(m, price) + Times(n, price)
  {
    if n > 0 {
      TimesAdd(m, n - 1, price);
    }
  }

  /**
   So is the overspending: whenever the dearest calls, one for each request that can get through, add up to
   more than the cost limit, some run spends more than the limit, even with calls that never overlap.
   */
  lemma OverspendIsReached(budget: Budget, org: string, k: nat, dearest: real)
    returns (states: seq<State>, events: seq<Event>, c: nat, cost: real)
    requires k >= 1 && budget.maxRequestsPerDay >= 1 && budget.maxCostPerDayUsd > 0.0 && dearest >= 0.0
    requires Times(budget.maxRequestsPerDay - 1 + k, dearest) > budget.maxCostPerDayUsd
    ensures Reached(budget, states, events, org, Window(k, dearest), Mark(c, cost, 0, 0))
    ensures cost > budget.maxCostPerDayUsd
  {
    var b := Window(k, dearest);
    states, events := Start(budget, org, b);
    c, cost := 0, 0.0;
    while c < budget.maxRequestsPerDay - 1 && cost + dearest < budget.maxCostPerDayUsd
      invariant 0 <= c <= budget.maxRequestsPerDay - 1
      invariant cost == Times(c, dearest) < budget.maxCostPerDayUsd
      invariant Reached(budget, states, events, org, b, Mark(c, cost, 0, 0))
    {
      states, events := CallOnce(budget, states, events, org, b, c, cost, dearest);
      c, cost := c + 1, cost + dearest;
    }
    if c < budget.maxRequestsPerDay - 1 && cost + dearest / 2.0 < budget.maxCostPerDayUsd {
      states, events := CallOnce(budget, states, events, org, b, c, cost, dearest / 2.0);
      c, cost := c + 1, cost + dearest / 2.0;
      TimesGrows(1, k, dearest);
    } else if c < budget.maxRequestsPerDay - 1 {
      TimesGrows(1, k, dearest);
    } else {
      TimesAdd(c, k, dearest);
    }
    states, events := ReadTogether(budget, states, events, org, b, c, cost, k);
    states, events := FinishOneByOne(budget, states, events, org, b, c, cost, k, dearest);
    c, cost := c + k, cost + Times(k, dearest);
  }

  /** One call of five dollars against a limit of one: no overlap is needed. */
  lemma OneDearCall(org: string) returns (states: seq<State>, events: seq<Event>)
    ensures Reached(Budget(1000, 1.0), states, events, org, Window(1, 5.0), Mark(1, 5.0, 0, 0))
  {
    var budget := Budget(1000, 1.0);
    states, events := Start(budget, org, Window(1, 5.0));
    states, events := CallOnce(budget, states, events, org, Window(1, 5.0), 0, 0.0, 5.0);
  }

  // ----- A new day -----

  /** What a call reads are the totals since the start of the UTC day it began on. */
  lemma {:induction false} ReadsItsDay(budget: Budget, states: seq<State>, events: seq<Event>, b: nat, i: nat)
    requires Run(budget, states, events) && b < i < |states| && events[b].Begin?
    ensures var c := |states[b].calls|;
            && c < |states[i].calls|
            && (states[i].calls[c].Begun? ==>
                  states[i].calls[c] == Begun(events[b].organizationId, StartOfUtcDay(states[b].now)))
    ensures i < |events| && events[i] == Read(|states[b].calls|) ==>
      states[i + 1].calls[|states[b].calls|] == HasRead(events[b].organizationId,
        TotalsSince(states[i].rows, events[b].organizationId, StartOfUtcDay(states[b].now)))
    decreases i
  {
    if b + 1 < i {
      ReadsItsDay(budget, states, events, b, i - 1);
    }
  }

  /** Whatever was spent on days before, the first call of a day is let through. */
  lemma NewDayAllows(budget: Budget, rows: seq<UsageRow>, org: string, now: int)
    requires budget.maxRequestsPerDay >= 1 && budget.maxCostPerDayUsd > 0.0
    requires forall r :: r in rows ==> Day(r.createdAt) < Day(now)
    ensures Judge(budget, TotalsSince(rows, org, StartOfUtcDay(now))) == CanSpend
  {
    NothingYet(rows, org, StartOfUtcDay(now));
  }

  // ----- How far the documented caps hold -----

  /** In all runs limited by k and dearest, the day's requests stay within the configured number. */
  ghost predicate RequestCapHolds(budget: Budget, org: string, k: nat, dearest: real) {
    forall states: seq<State>, events: seq<Event>, i: nat ::
      Run(budget, states, events) && Limited(states, events, org, k, dearest) && i < |states|
      ==> Today(states[i], org).requestCount <= budget.maxRequestsPerDay
  }

  /** In all runs limited by k and dearest, the day's cost stays within the configured amount. */
  ghost predicate CostCapHolds(budget: Budget, org: string, k: nat, dearest: real) {
    forall states: seq<State>, events: seq<Event>, i: nat ::
      Run(budget, states, events) && Limited(states, events, org, k, dearest) && i < |states|
      ==> Today(states[i], org).totalCost <= budget.maxCostPerDayUsd
  }

  /** Limits of zero or less let no call through. */
  predicate Shut(budget: Budget) {
    budget.maxRequestsPerDay <= 0 || budget.maxCostPerDayUsd <= 0.0
  }

  /** No success of the organisation is recorded, read or under way. */
  ghost predicate Idle(s: State, org: string) {
    && (forall r :: r in s.rows ==> !(r.organizationId == org && r.status == UsageOk))
    && forall c :: 0 <= c < |s.calls| ==>
         && !Admitted(org)(s.calls[c])
         && (UnderWay(org)(s.calls[c]) ==> s.calls[c].totals == Totals(0, 0, 0.0))
  }

  lemma {:induction false} NoneCounted(rows: seq<UsageRow>, org: string, since: int)
    requires forall r :: r in rows ==> !(r.organizationId == org && r.status == UsageOk)
    ensures TotalsSince(rows, org, since) == Totals(0, 0, 0.0)
    decreases |rows|
  {
    if rows != [] {
      assert rows[|rows| - 1] in rows;
      NoneCounted(rows[..|rows| - 1], org, since);
    }
  }

  lemma StepStaysIdle(budget: Budget, s: State, e: Event, org: string)
    requires Enabled(s, e) && Shut(budget) && Idle(s, org)
    ensures Idle(Apply(budget, s, e), org)
  {
    if e.Read? {
      NoneCounted(s.rows, org, s.calls[e.call].since);
    }
  }

  /** Then no call is ever let through and nothing is spent. */
  lemma {:induction false} NothingSpent(budget: Budget, states: seq<State>, events: seq<Event>, org: string, i: nat)
    requires Run(budget, states, events) && i < |states| && Shut(budget)
    ensures Idle(states[i], org) && Today(states[i], org) == Totals(0, 0, 0.0)
  {
    if i > 0 {
      NothingSpent(budget, states, events, org, i - 1);
      StepStaysIdle(budget, states[i - 1], events[i - 1], org);
    }
    NoneCounted(states[i].rows, org, StartOfUtcDay(states[i].now));
  }

  /**
   The request cap holds in all runs exactly when an organisation's calls never overlap between reading the
   totals and recording, or none get through.
   */
  lemma RequestCapExactly(budget: Budget, org: string, k: nat, dearest: real)
    requires dearest >= 0.0
    ensures RequestCapHolds(budget, org, k, dearest) <==>
      budget.maxRequestsPerDay >= 0 && (Shut(budget) || k <= 1)
  {
    var first, none := Start(budget, org, Window(k, dearest));
    assert Today(first[|none|], org).requestCount == 0;
    if !Shut(budget) && k > 1 {
      var states, events := OvershootIsReached(budget, org, k, dearest);
      assert Today(states[|events|], org).requestCount > budget.maxRequestsPerDay;
    } else if budget.maxRequestsPerDay >= 0 {
      forall states: seq<State>, events: seq<Event>, i: nat
        | Run(budget, states, events) && Limited(states, events, org, k, dearest) && i < |states|
        ensures Today(states[i], org).requestCount <= budget.maxRequestsPerDay
      {
        if Shut(budget) {
          NothingSpent(budget, states, events, org, i);
        } else {
          BoundedOvershoot(budget, states, events, org, k, dearest, i);
        }
      }
    }
  }

  lemma LittleSpent(budget: Budget, org: string, k: nat, dearest: real)
    requires dearest >= 0.0 && budget.maxCostPerDayUsd >= 0.0 && (Shut(budget) || k == 0)
    ensures CostCapHolds(budget, org, k, dearest)
  {
    forall states: seq<State>, events: seq<Event>, i: nat
      | Run(budget, states, events) && Limited(states, events, org, k, dearest) && i < |states|
      ensures Today(states[i], org).totalCost <= budget.maxCostPerDayUsd
    {
      if Shut(budget) {
        NothingSpent(budget, states, events, org, i);
      } else {
        BoundedOvershoot(budget, states, events, org, k, dearest, i);
      }
    }
  }

  lemma Affordable(budget: Budget, org: string, k: nat, dearest: real)
    requires dearest >= 0.0 && !Shut(budget)
    requires Times(budget.maxRequestsPerDay - 1 + k, dearest) <= budget.maxCostPerDayUsd
    ensures CostCapHolds(budget, org, k, dearest)
  {
    forall states: seq<State>, events: seq<Event>, i: nat
      | Run(budget, states, events) && Limited(states, events, org, k, dearest) && i < |states|
      ensures Today(states[i], org).totalCost <= budget.maxCostPerDayUsd
    {
      BoundedOvershoot(budget, states, events, org, k, dearest, i);
      CostPerCall(budget, states, events, org, k, dearest, i);
      TimesGrows(Today(states[i], org).requestCount, budget.maxRequestsPerDay - 1 + k, dearest);
    }
  }

  /**
   The cost cap holds in all runs exactly when no call gets through, or as many calls as the request limit
   can let through are affordable even at the dearest price.
   */
  lemma CostCapExactly(budget: Budget, org: string, k: nat, dearest: real)
    requires dearest >= 0.0
    ensures CostCapHolds(budget, org, k, dearest) <==>
      && budget.maxCostPerDayUsd >= 0.0
      && (Shut(budget) || k == 0 || (budget.maxRequestsPerDay - 1 + k) as real * dearest <= budget.maxCostPerDayUsd)
  {
    var first, none := Start(budget, org, Window(k, dearest));
    assert Today(first[|none|], org).totalCost == 0.0;
    if Shut(budget) || k == 0 {
      if budget.maxCostPerDayUsd >= 0.0 {
        LittleSpent(budget, org, k, dearest);
      }
    } else {
      var n := budget.maxRequestsPerDay - 1 + k;
      TimesIsProduct(n, dearest);
      if Times(n, dearest) <= budget.maxCostPerDayUsd {
        Affordable(budget, org, k, dearest);
      } else {
        var states, events, c, cost := OverspendIsReached(budget, org, k, dearest);
        assert Today(states[|events|], org).totalCost > budget.maxCostPerDayUsd;
      }
    }
  }
}
