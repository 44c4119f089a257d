/**
 The in-process job queue. A job is a closure held by a timer; it is modelled by its place in the
 list of accepted jobs. `run` is cut at its `await` into the part before the handler and the part
 after it, and timers fire in any order, so every schedule of the event loop is covered.
 */
module InMemoryQueue {
  import opened Outcomes

  datatype EnqueueOptions = EnqueueOptions(
    delayMs: Option<int>, maxAttempts: Option<int>, backoffMs: Option<int>, dedupeKey: Option<string>)

  /** Dropped: its timer fired after close, or with no handler for its queue. */
  datatype JobStatus = Scheduled | Running | Done | Exhausted | Dropped

  datatype Job = Job(
    queue: string, name: string, payload: string, opts: EnqueueOptions, attemptsMade: nat, status: JobStatus)

  datatype Reply = Accepted(job: nat) | Deduplicated(key: string) | ProviderClosed

  datatype State = State(handlers: set<string>, seenDedupe: map<string, set<string>>, closed: bool, jobs: seq<Job>)

  const INIT := State({}, map[], false, [])

  /** An absent or empty key does not deduplicate. */
  predicate HasKey(opts: EnqueueOptions) {
    opts.dedupeKey.Some? && opts.dedupeKey.value != ""
  }

  function Seen(s: State, queue: string): set<string> {
    if queue in s.seenDedupe then s.seenDedupe[queue] else {}
  }

  function EnqueueReply(s: State, queue: string, opts: EnqueueOptions): Reply {
    if s.closed then ProviderClosed
    else if HasKey(opts) && opts.dedupeKey.value in Seen(s, queue) then Deduplicated(opts.dedupeKey.value)
    else Accepted(|s.jobs|)
  }

  function Enqueued(s: State, queue: string, name: string, payload: string, opts: EnqueueOptions): State {
    if !EnqueueReply(s, queue, opts).Accepted? then s
    else
      var seen := if HasKey(opts) then s.seenDedupe[queue := Seen(s, queue) + {opts.dedupeKey.value}] else s.seenDedupe;
      s.(seenDedupe := seen, jobs := s.jobs + [Job(queue, name, payload, opts, 0, Scheduled)])
  }

  function Closed(s: State): State {
    State({}, map[], true, s.jobs)
  }

  /** The timer of job i fires: the part of `run` up to the handler call. */
  function Fired(s: State, i: nat): State
    requires i < |s.jobs|
  {
    var job := s.jobs[i];
    s.(jobs := s.jobs[i :=
      if s.closed || job.queue !in s.handlers then job.(status := Dropped)
      else job.(status := Running, attemptsMade := job.attemptsMade + 1)])
  }

  /** The handler of job i has returned, or thrown: the part of `run` after it. */
  function Finished(s: State, i: nat, ok: bool): State
    requires i < |s.jobs|
  {
    var job := s.jobs[i];
    var max := if job.opts.maxAttempts.Some? then job.opts.maxAttempts.value else 1;
    var status := if ok then Done else if job.attemptsMade < max then Scheduled else Exhausted;
    s.(jobs := s.jobs[i := job.(status := status)])
  }

  class InMemoryQueueProvider {
    var handlers: set<string>
    var seenDedupe: map<string, set<string>>
    var closed: bool
    var jobs: seq<Job>

    ghost function Model(): State
      reads this
    {
      State(handlers, seenDedupe, closed, jobs)
    }

    constructor ()
      ensures Model() == INIT
    {
      handlers, seenDedupe, closed, jobs := {}, map[], false, [];
    }

    method Enqueue(queue: string, name: string, payload: string, opts: EnqueueOptions) returns (reply: Reply)
      modifies this
      ensures reply == EnqueueReply(old(Model()), queue, opts)
      ensures Model() == Enqueued(old(Model()), queue, name, payload, opts)
    {
      if closed {
        return ProviderClosed;
      }
      if opts.dedupeKey.Some? && opts.dedupeKey.value != "" {
        var seen := if queue in seenDedupe then seenDedupe[queue] else {};
        if opts.dedupeKey.value in seen {
          return Deduplicated(opts.dedupeKey.value);
        }
        seenDedupe := seenDedupe[queue := seen + {opts.dedupeKey.value}];
      }
      reply := Accepted(|jobs|);
      jobs := jobs + [Job(queue, name, payload, opts, 0, Scheduled)];
    }

    method Process(queue: string)
      modifies this
      ensures Model() == old(Model()).(handlers := old(handlers) + {queue})
    {
      handlers := handlers + {queue};
    }

    method Close()
      modifies this
      ensures Model() == Closed(old(Model()))
      ensures closed && handlers == {} && seenDedupe == map[] && jobs == old(jobs)
    {
      closed := true;
      handlers := {};
      seenDedupe := map[];
    }

    method RunUntilHandler(i: nat) returns (started: bool)
      requires i < |jobs| && jobs[i].status == Scheduled
      modifies this`jobs
      ensures Model() == Fired(old(Model()), i)
      ensures started <==> jobs[i].status == Running
    {
      if closed {
        jobs := jobs[i := jobs[i].(status := Dropped)];
        return false;
      }
      if jobs[i].queue !in handlers {
        jobs := jobs[i := jobs[i].(status := Dropped)];
        return false;
      }
      jobs := jobs[i := jobs[i].(attemptsMade := jobs[i].attemptsMade + 1, status := Running)];
      return true;
    }

    method RunAfterHandler(i: nat, ok: bool)
      requires i < |jobs| && jobs[i].status == Running
      modifies this`jobs
      ensures Model() == Finished(old(Model()), i, ok)
    {
      if ok {
        jobs := jobs[i := jobs[i].(status := Done)];
      } else {
        var max := if jobs[i].opts.maxAttempts.Some? then jobs[i].opts.maxAttempts.value else 1;
        if jobs[i].attemptsMade < max {
          jobs := jobs[i := jobs[i].(status := Scheduled)];
        } else {
          jobs := jobs[i := jobs[i].(status := Exhausted)];
        }
      }
    }
  }

  // ----- Schedules -----

  datatype Event =
    | Enqueue(queue: string, name: string, payload: string, opts: EnqueueOptions)
    | Process(queue: string)
    | Close
    | Fire(job: nat)
    | Finish(job: nat, ok: bool)

  predicate Enabled(s: State, e: Event) {
    match e
    case Fire(i) => i < |s.jobs| && s.jobs[i].status == Scheduled
    case Finish(i, _) => i < |s.jobs| && s.jobs[i].status == Running
    case _ => true
  }

  function Apply(s: State, e: Event): State
    requires Enabled(s, e)
  {
    match e
    case Enqueue(queue, name, payload, opts) => Enqueued(s, queue, name, payload, opts)
    case Process(queue) => s.(handlers := s.handlers + {queue})
    case Close => Closed(s)
    case Fire(i) => Fired(s, i)
    case Finish(i, ok) => Finished(s, i, ok)
  }

  /** A schedule from any state: the i-th event takes the i-th state to the next. */
  ghost predicate Schedule(states: seq<State>, events: seq<Event>) {
    && |states| == |events| + 1
    && forall i :: 0 <= i < |events| ==> Enabled(states[i], events[i]) && states[i + 1] == Apply(states[i], events[i])
  }

  ghost predicate Run(states: seq<State>, events: seq<Event>) {
    Schedule(states, events) && states[0] == INIT
  }

  // ----- Attempts -----

  /** How often a job's handler may start. */
  function Bound(job: Job): nat {
    if job.opts.maxAttempts.Some? && job.opts.maxAttempts.value > 1 then job.opts.maxAttempts.value else 1
  }

  predicate JobOk(job: Job) {
    match job.status
    case Scheduled => job.attemptsMade < Bound(job)
    case Running => 1 <= job.attemptsMade <= Bound(job)
    case Done => 1 <= job.attemptsMade <= Bound(job)
    case Exhausted => job.attemptsMade == Bound(job)
    case Dropped => job.attemptsMade < Bound(job)
  }

  predicate KeyedJob(s: State, i: int, queue: string, key: string) {
    0 <= i < |s.jobs| && s.jobs[i].queue == queue && s.jobs[i].opts.dedupeKey == Some(key)
  }

  /** No two jobs share queue and key, each keyed job is remembered, and each remembered key has a job. */
  ghost predicate DedupeOk(s: State) {
    && (forall i, j, queue, key ::
          key != "" && KeyedJob(s, i, queue, key) && KeyedJob(s, j, queue, key) ==> i == j)
    && (forall i, queue, key ::
          !s.closed && key != "" && KeyedJob(s, i, queue, key) ==> key in Seen(s, queue))
    && (forall queue, key :: key in Seen(s, queue) ==> exists i :: KeyedJob(s, i, queue, key))
  }

  ghost predicate Inv(s: State) {
    && (forall i :: 0 <= i < |s.jobs| ==> JobOk(s.jobs[i]))
    && DedupeOk(s)
    && (s.closed ==> s.seenDedupe == map[])
  }

  lemma StepKeepsInv(s: State, e: Event)
    requires Inv(s) && Enabled(s, e)
    ensures Inv(Apply(s, e))
  {
    var s' := Apply(s, e);
    forall i, queue, key | KeyedJob(s', i, queue, key) && i < |s.jobs|
      ensures KeyedJob(s, i, queue, key)
    {}
    forall queue, key | key in Seen(s', queue)
      ensures exists i :: KeyedJob(s', i, queue, key)
    {
      if key in Seen(s, queue) {
        var i :| KeyedJob(s, i, queue, key);
        assert KeyedJob(s', i, queue, key);
      } else {
        assert KeyedJob(s', |s.jobs|, queue, key);
      }
    }
  }

  /** Attempt limits and deduplication hold in every reachable state of every schedule. */
  lemma {:induction false} RunKeepsInv(states: seq<State>, events: seq<Event>, i: nat)
    requires Run(states, events) && i < |states|
    ensures Inv(states[i])
  {
    if i > 0 {
      RunKeepsInv(states, events, i - 1);
      StepKeepsInv(states[i - 1], events[i - 1]);
    }
  }

  // ----- What every schedule keeps -----

  predicate Terminal(status: JobStatus) {
    status.Done? || status.Exhausted? || status.Dropped?
  }

  /** Accepted jobs are never lost, keep their identity, and settled jobs never change. */
  ghost predicate JobsEvolve(s: State, s': State) {
    && |s.jobs| <= |s'.jobs|
    && (s.closed ==> s'.closed)
    && forall i :: 0 <= i < |s.jobs| ==>
         && s'.jobs[i].queue == s.jobs[i].queue && s'.jobs[i].name == s.jobs[i].name
         && s'.jobs[i].payload == s.jobs[i].payload && s'.jobs[i].opts == s.jobs[i].opts
         && s.jobs[i].attemptsMade <= s'.jobs[i].attemptsMade
         && (Terminal(s.jobs[i].status) ==> s'.jobs[i] == s.jobs[i])
         && (s.closed ==> s'.jobs[i].attemptsMade == s.jobs[i].attemptsMade)
  }

  lemma StepEvolves(s: State, e: Event)
    requires Enabled(s, e)
    ensures JobsEvolve(s, Apply(s, e))
    ensures s.closed ==> |Apply(s, e).jobs| == |s.jobs|
  {}

  /** Settled jobs stay as they are, and once closed no handler starts and no job is accepted. */
  lemma {:induction false} ScheduleEvolves(states: seq<State>, events: seq<Event>, i: nat, j: nat)
    requires Schedule(states, events) && i <= j < |states|
    ensures JobsEvolve(states[i], states[j])
    ensures states[i].closed ==> |states[j].jobs| == |states[i].jobs|
    decreases j
  {
    if i < j {
      ScheduleEvolves(states, events, i, j - 1);
      StepEvolves(states[j - 1], events[j - 1]);
    }
  }

  /** Handler starts of job i among the first n events. */
  ghost function Starts(states: seq<State>, events: seq<Event>, n: nat, i: nat): nat
    requires Schedule(states, events) && n <= |events|
  {
    if n == 0 then 0
    else Starts(states, events, n - 1, i)
         + (if events[n - 1] == Fire(i) && states[n].jobs[i].status == Running then 1 else 0)
  }

  /** A job's handler starts as often as its counter says, so at most max(1, maxAttempts) times. */
  lemma {:induction false} StartsAreCounted(states: seq<State>, events: seq<Event>, n: nat, i: nat)
    requires Run(states, events) && n <= |events|
    ensures Starts(states, events, n, i) == (if i < |states[n].jobs| then states[n].jobs[i].attemptsMade else 0)
    ensures i < |states[n].jobs| ==> Starts(states, events, n, i) <= Bound(states[n].jobs[i])
  {
    RunKeepsInv(states, events, n);
    if n > 0 {
      StartsAreCounted(states, events, n - 1, i);
    }
  }

  /** Handler outcomes of job i, good or bad, among the first events. */
  function Finishes(events: seq<Event>, i: nat, ok: bool): nat {
    if events == [] then 0
    else Finishes(events[..|events| - 1], i, ok) + (if events[|events| - 1] == Finish(i, ok) then 1 else 0)
  }

  lemma {:induction false} NoOutcomesYet(states: seq<State>, events: seq<Event>, n: nat, i: nat)
    requires Run(states, events) && n <= |events| && i >= |states[n].jobs|
    ensures Finishes(events[..n], i, true) == Finishes(events[..n], i, false) == 0
    decreases n
  {
    if n > 0 {
      assert events[..n][..n - 1] == events[..n - 1];
      StepEvolves(states[n - 1], events[n - 1]);
      NoOutcomesYet(states, events, n - 1, i);
    }
  }

  /**
   A job is done exactly when its handler has succeeded, which happens at most once, and every other
   finished attempt failed; so an exhausted job has failed all its max(1, maxAttempts) times.
   */
  lemma {:induction false} OutcomesAreCounted(states: seq<State>, events: seq<Event>, n: nat, i: nat)
    requires Run(states, events) && n <= |events| && i < |states[n].jobs|
    ensures var job := states[n].jobs[i];
            && Finishes(events[..n], i, true) == (if job.status.Done? then 1 else 0)
            && Finishes(events[..n], i, false)
               == job.attemptsMade - (if job.status.Done? || job.status.Running? then 1 else 0)
            && (job.status.Exhausted? ==> Finishes(events[..n], i, false) == Bound(job))
    decreases n
  {
    RunKeepsInv(states, events, n);
    assert JobOk(states[n].jobs[i]);
    if n > 0 {
      assert events[..n][..n - 1] == events[..n - 1];
      if i < |states[n - 1].jobs| {
        OutcomesAreCounted(states, events, n - 1, i);
      } else {
        NoOutcomesYet(states, events, n - 1, i);
      }
    }
  }

  // ----- What each event does, by the events before it -----

  /** The provider is closed once an event closed it, and until then has a handler for each queue given one. */
  lemma {:induction false} ProviderByEvents(states: seq<State>, events: seq<Event>, n: nat)
    requires Run(states, events) && n <= |events|
    ensures states[n].closed <==> Close in events[..n]
    ensures !states[n].closed ==> forall queue :: queue in states[n].handlers <==> Process(queue) in events[..n]
  {
    if n > 0 {
      ProviderByEvents(states, events, n - 1);
      assert events[..n] == events[..n - 1] + [events[n - 1]];
    }
  }

  /**
   When a job's timer fires its handler starts, with one attempt more, exactly when its queue has been given a
   handler and nothing has closed the provider; otherwise the job is dropped, its attempts kept. No other job
   changes.
   */
  lemma FireMeaning(states: seq<State>, events: seq<Event>, n: nat)
    requires Run(states, events) && n < |events| && events[n].Fire?
    ensures var i := events[n].job;
            var before, after := states[n].jobs, states[n + 1].jobs;
            var starts := Process(before[i].queue) in events[..n] && Close !in events[..n];
            && |after| == |before| && (forall k :: 0 <= k < |before| && k != i ==> after[k] == before[k])
            && after[i] == if starts then before[i].(status := Running, attemptsMade := before[i].attemptsMade + 1)
                           else before[i].(status := Dropped)
  {
    ProviderByEvents(states, events, n);
  }

  /**
   An enqueue fails once an event has closed the provider; it is a no-op answering the key exactly when an
   accepted job of the queue already has that non-empty key; otherwise it adds one scheduled job, answering its
   place.
   */
  lemma EnqueueMeaning(states: seq<State>, events: seq<Event>, n: nat)
    requires Run(states, events) && n < |events| && events[n].Enqueue?
    ensures var e, before, after := events[n], states[n].jobs, states[n + 1].jobs;
            var reply := EnqueueReply(states[n], e.queue, e.opts);
            var key := e.opts.dedupeKey;
            if Close in events[..n] then reply == ProviderClosed && after == before
            else if key.Some? && key.value != "" && exists i :: KeyedJob(states[n], i, e.queue, key.value)
            then reply == Deduplicated(key.value) && after == before
            else && reply == Accepted(|before|)
                 && after == before + [Job(e.queue, e.name, e.payload, e.opts, 0, Scheduled)]
  {
    ProviderByEvents(states, events, n);
    RunKeepsInv(states, events, n);
  }

  // ----- Every schedule ends -----

  function Remaining(job: Job): nat {
    if job.attemptsMade < Bound(job) then Bound(job) - job.attemptsMade else 0
  }

  function Weight(job: Job): nat {
    match job.status
    case Scheduled => 2 * Remaining(job)
    case Running => 2 * Remaining(job) + 1
    case _ => 0
  }

  function Measure(jobs: seq<Job>): nat {
    if jobs == [] then 0 else Measure(jobs[..|jobs| - 1]) + Weight(jobs[|jobs| - 1])
  }

  lemma {:induction false} MeasureUpdate(jobs: seq<Job>, i: nat, job: Job)
    requires i < |jobs|
    ensures Measure(jobs[i := job]) == Measure(jobs) - Weight(jobs[i]) + Weight(job)
    decreases |jobs|
  {
    var last := |jobs| - 1;
    if i == last {
      assert jobs[i := job][..last] == jobs[..last];
    } else {
      MeasureUpdate(jobs[..last], i, job);
      assert jobs[i := job][..last] == jobs[..last][i := job];
    }
  }

  predicate WorkEvent(e: Event) {
    e.Fire? || e.Finish?
  }

  lemma StepUsesMeasure(s: State, e: Event)
    requires Inv(s) && Enabled(s, e) && !e.Enqueue?
    ensures Measure(Apply(s, e).jobs) + (if WorkEvent(e) then 1 else 0) <= Measure(s.jobs)
  {
    if WorkEvent(e) {
      assert JobOk(s.jobs[e.job]);
      MeasureUpdate(s.jobs, e.job, Apply(s, e).jobs[e.job]);
    }
  }

  function WorkEvents(events: seq<Event>): nat {
    if events == [] then 0
    else WorkEvents(events[..|events| - 1]) + (if WorkEvent(events[|events| - 1]) then 1 else 0)
  }

  lemma {:induction false} MeasureSoFar(states: seq<State>, events: seq<Event>, n: nat)
    requires Schedule(states, events) && Inv(states[0]) && n <= |events|
    requires forall i :: 0 <= i < |events| ==> !events[i].Enqueue?
    ensures Inv(states[n])
    ensures WorkEvents(events[..n]) + Measure(states[n].jobs) <= Measure(states[0].jobs)
  {
    if n > 0 {
      MeasureSoFar(states, events, n - 1);
      StepKeepsInv(states[n - 1], events[n - 1]);
      StepUsesMeasure(states[n - 1], events[n - 1]);
      assert events[..n][..n - 1] == events[..n - 1];
    }
  }

  /** With no new jobs the event loop has only so many timer and handler events left, whatever their order. */
  lemma SchedulesEnd(states: seq<State>, events: seq<Event>)
    requires Schedule(states, events) && Inv(states[0])
    requires forall e :: e in events ==> !e.Enqueue?
    ensures Inv(states[|events|])
    ensures WorkEvents(events) + Measure(states[|events|].jobs) <= Measure(states[0].jobs)
  {
    MeasureSoFar(states, events, |events|);
    assert events[..|events|] == events;
  }

  /** When the measure is used up every accepted job is done, exhausted or dropped. */
  lemma {:induction false} Quiescent(jobs: seq<Job>)
    requires forall i :: 0 <= i < |jobs| ==> JobOk(jobs[i])
    ensures Measure(jobs) == 0 <==> forall i :: 0 <= i < |jobs| ==> Terminal(jobs[i].status)
    decreases |jobs|
  {
    if jobs != [] {
      var last := |jobs| - 1;
      Quiescent(jobs[..last]);
      assert JobOk(jobs[last]);
      if Measure(jobs) == 0 {
        forall i | 0 <= i < |jobs|
          ensures Terminal(jobs[i].status)
        {
          assert i < last ==> jobs[..last][i] == jobs[i];
        }
      }
    }
  }
}
