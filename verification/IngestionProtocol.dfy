/**
 Any number of workers against one job table. Each session is one `process_one` of the worker: it
 claims, runs its handler, and has the API complete or fail the job. A claim is a transaction that first
 locks the oldest pending row no other open transaction has locked, and only later writes it; the API
 first reads and checks the row and only later writes it. Every step of every session may fall between.
 */
module IngestionProtocol {
  import opened Outcomes
  import opened Ingestion

  datatype Outcome = Succeed(result: string) | GiveUp(message: string)

  /** Over covers a finished session, a dead worker, a claim rolled back and a request the API turned down. */
  datatype Phase =
    | Locking(id: Id, organizationId: string, workerId: string)
    | Holding(id: Id, organizationId: string)
    | Checked(id: Id, organizationId: string, outcome: Outcome)
    | Over

  type Session = nat

  datatype State = State(jobs: map<Id, Job>, sessions: map<Session, Phase>)

  datatype Event =
    | Enqueue(id: Id, organizationId: string, kind: string, payload: string, createdBy: Option<string>, now: int)
    | Lock(session: Session, workerId: string, wanted: Option<string>, id: Id)
    | Claim(session: Session, id: Id, now: int)
    | Check(session: Session, outcome: Outcome)
    | Write(session: Session, now: int)
    | Die(session: Session)

  const INIT := State(map[], map[])

  function PatchOf(outcome: Outcome, now: int): Patch {
    match outcome
    case Succeed(result) => CompletedPatch(result, now)
    case GiveUp(message) => FailedPatch(message, now)
  }

  predicate LockedBy(s: State, k: Session, id: Id) {
    k in s.sessions && s.sessions[k].Locking? && s.sessions[k].id == id
  }

  ghost predicate Locked(s: State, id: Id) {
    exists k :: LockedBy(s, k, id)
  }

  /** What the ordered query that skips locked rows returns. */
  ghost predicate OldestUnlocked(s: State, wanted: Option<string>, id: Id) {
    && id in s.jobs && Claimable(s.jobs[id], wanted) && !Locked(s, id)
    && forall other :: other in s.jobs && Claimable(s.jobs[other], wanted) && !Locked(s, other) ==>
         s.jobs[id].createdAt <= s.jobs[other].createdAt
  }

  ghost predicate Enabled(s: State, e: Event) {
    match e
    case Enqueue(id, _, _, _, _, _) => id !in s.jobs
    case Lock(session, _, wanted, id) => session !in s.sessions && OldestUnlocked(s, wanted, id)
    case Claim(session, id, _) => LockedBy(s, session, id) && id in s.jobs
    case Check(session, _) => session in s.sessions && s.sessions[session].Holding?
    case Write(session, _) => session in s.sessions && s.sessions[session].Checked?
    case Die(session) => session in s.sessions && (s.sessions[session].Locking? || s.sessions[session].Holding?)
  }

  ghost function Apply(s: State, e: Event): State
    requires Enabled(s, e)
  {
    match e
    case Enqueue(id, org, kind, payload, creator, now) =>
      s.(jobs := s.jobs[id := NewJob(org, kind, payload, creator, now)])
    case Lock(session, worker, _, id) =>
      s.(sessions := s.sessions[session := Locking(id, s.jobs[id].organizationId, worker)])
    case Claim(session, id, now) =>
      State(s.jobs[id := Claimed(s.jobs[id], s.sessions[session].workerId, now)],
            s.sessions[session := Holding(id, s.jobs[id].organizationId)])
    case Check(session, outcome) =>
      var held := s.sessions[session];
      var found := Lookup(s.jobs, held.id, held.organizationId);
      s.(sessions := s.sessions[session :=
        if found.Some? && found.value.status == Processing then Checked(held.id, held.organizationId, outcome)
        else Over])
    case Write(session, now) =>
      var c := s.sessions[session];
      var found := Lookup(s.jobs, c.id, c.organizationId);
      State(if found.Some? then s.jobs[c.id := Patched(found.value, PatchOf(c.outcome, now))] else s.jobs,
            s.sessions[session := Over])
    case Die(session) => s.(sessions := s.sessions[session := Over])
  }

  /** A run: the i-th event takes the i-th state to the next. */
  ghost predicate Run(states: seq<State>, events: seq<Event>) {
    && |states| == |events| + 1
    && states[0] == INIT
    && forall i :: 0 <= i < |events| ==> Enabled(states[i], events[i]) && states[i + 1] == Apply(states[i], events[i])
  }

  // ----- The invariant -----

  predicate Terminal(job: Job) {
    job.status == Completed || job.status == Failed
  }

  predicate JobOk(job: Job) {
    && job.attempts == (if job.status == Pending then 0 else 1)
    && (job.claimedBy.None? <==> job.status == Pending)
    && (job.completedAt.Some? <==> Terminal(job))
    && (job.result.Some? <==> job.status == Completed)
    && (job.errorMessage.Some? <==> job.status == Failed)
  }

  predicate Active(p: Phase) {
    p.Locking? || p.Holding? || p.Checked?
  }

  predicate Holds(s: State, k: Session, id: Id) {
    k in s.sessions && Active(s.sessions[k]) && s.sessions[k].id == id
  }

  /** Session k has locked a job still pending, or holds one that is in processing. */
  predicate HoldsOwn(s: State, k: Session)
    requires k in s.sessions
  {
    Active(s.sessions[k]) ==>
      && s.sessions[k].id in s.jobs
      && s.jobs[s.sessions[k].id].organizationId == s.sessions[k].organizationId
      && s.jobs[s.sessions[k].id].status == (if s.sessions[k].Locking? then Pending else Processing)
  }

  ghost predicate Inv(s: State) {
    && (forall id :: id in s.jobs ==> JobOk(s.jobs[id]))
    && (forall k :: k in s.sessions ==> HoldsOwn(s, k))
    && (forall k, l :: k in s.sessions && l in s.sessions && k != l && Active(s.sessions[k]) && Active(s.sessions[l])
          ==> s.sessions[k].id != s.sessions[l].id)
  }

  /** What a claim locks is nobody's yet. */
  lemma LockIsFree(s: State, e: Event)
    requires Inv(s) && Enabled(s, e) && e.Lock?
    ensures forall k :: k in s.sessions && Active(s.sessions[k]) ==> s.sessions[k].id != e.id
  {
    forall k | k in s.sessions && Active(s.sessions[k])
      ensures s.sessions[k].id != e.id
    {
      assert HoldsOwn(s, k) && !LockedBy(s, k, e.id);
    }
  }

  lemma StepKeepsInv(s: State, e: Event)
    requires Inv(s) && Enabled(s, e)
    ensures Inv(Apply(s, e))
  {
    var s' := Apply(s, e);
    if e.Lock? {
      LockIsFree(s, e);
    }
    forall k | k in s'.sessions
      ensures HoldsOwn(s', k)
    {
      if k in s.sessions {
        assert HoldsOwn(s, k);
      }
    }
  }

  lemma {:induction false} InvHolds(states: seq<State>, events: seq<Event>, i: nat)
    requires Run(states, events) && i < |states|
    ensures Inv(states[i])
  {
    if i > 0 {
      InvHolds(states, events, i - 1);
      StepKeepsInv(states[i - 1], events[i - 1]);
    }
  }

  /** In every reachable state no job is held by two sessions and every row is in a consistent status. */
  lemma RunKeepsInv(states: seq<State>, events: seq<Event>, i: nat)
    requires Run(states, events) && i < |states|
    ensures Inv(states[i])
    ensures forall id, k, l :: Holds(states[i], k, id) && Holds(states[i], l, id) ==> k == l
    ensures forall id :: id in states[i].jobs ==>
              states[i].jobs[id].attempts == (if states[i].jobs[id].status == Pending then 0 else 1)
  {
    InvHolds(states, events, i);
    assert forall id :: id in states[i].jobs ==> JobOk(states[i].jobs[id]);
  }

  /**
   Nothing a session has checked goes stale: a claim still finds its row pending, the API's check always
   passes, and its write always finds the row in processing.
   */
  lemma NeverRejected(states: seq<State>, events: seq<Event>, i: nat)
    requires Run(states, events) && i < |events|
    ensures events[i].Claim? ==> states[i].jobs[events[i].id].status == Pending
    ensures events[i].Check? ==> states[i + 1].sessions[events[i].session].Checked?
    ensures events[i].Write? ==>
      var c := states[i].sessions[events[i].session];
      && c.id in states[i].jobs && states[i].jobs[c.id].status == Processing
      && states[i + 1].jobs == states[i].jobs[c.id := Patched(states[i].jobs[c.id], PatchOf(c.outcome, events[i].now))]
  {
    InvHolds(states, events, i);
    if events[i].Claim? || events[i].Check? || events[i].Write? {
      assert HoldsOwn(states[i], events[i].session);
    }
  }

  // ----- The life of a row -----

  function Rank(status: Status): nat {
    match status
    case Pending => 0
    case Processing => 1
    case Completed => 2
    case Failed => 2
  }

  /** What a later row may differ from an earlier one in. */
  ghost predicate Evolves(before: Job, after: Job) {
    && Rank(before.status) <= Rank(after.status)
    && (Terminal(before) ==> after == before)
    && (before.status == Processing ==> after.claimedBy == before.claimedBy && after.claimedAt == before.claimedAt)
    && after.organizationId == before.organizationId && after.kind == before.kind && after.payload == before.payload
    && after.createdBy == before.createdBy && after.createdAt == before.createdAt
  }

  ghost predicate JobsEvolve(s: State, s': State) {
    forall id :: id in s.jobs ==> id in s'.jobs && Evolves(s.jobs[id], s'.jobs[id])
  }

  lemma StepEvolves(s: State, e: Event)
    requires Inv(s) && Enabled(s, e)
    ensures JobsEvolve(s, Apply(s, e))
  {
    if e.Claim? || e.Write? {
      assert HoldsOwn(s, e.session);
    }
  }

  lemma RunEvolves(states: seq<State>, events: seq<Event>, i: nat)
    requires Run(states, events) && i < |events|
    ensures JobsEvolve(states[i], states[i + 1])
  {
    InvHolds(states, events, i);
    StepEvolves(states[i], events[i]);
  }

  lemma EvolvesReflexive(s: State)
    ensures JobsEvolve(s, s)
  {}

  lemma EvolvesTransitive(a: State, b: State, c: State)
    requires JobsEvolve(a, b) && JobsEvolve(b, c)
    ensures JobsEvolve(a, c)
  {
    forall id | id in a.jobs
      ensures id in c.jobs && Evolves(a.jobs[id], c.jobs[id])
    {
      assert Evolves(a.jobs[id], b.jobs[id]) && Evolves(b.jobs[id], c.jobs[id]);
    }
  }

  ghost predicate Stepwise(states: seq<State>) {
    forall m, n :: 0 <= m < n < |states| && n == m + 1 ==> JobsEvolve(states[m], states[n])
  }

  lemma {:induction false} Chain(states: seq<State>, i: nat, j: nat)
    requires Stepwise(states) && i <= j < |states|
    ensures JobsEvolve(states[i], states[j])
    decreases j
  {
    if i == j {
      EvolvesReflexive(states[i]);
    } else {
      Chain(states, i, j - 1);
      EvolvesTransitive(states[i], states[j - 1], states[j]);
    }
  }

  /**
   Over any stretch of any run rows are never lost, statuses only move forward, a claim keeps its
   worker, and a completed or failed row never changes again.
   */
  lemma RowsOnlyAdvance(states: seq<State>, events: seq<Event>, i: nat, j: nat)
    requires Run(states, events) && i <= j < |states|
    ensures JobsEvolve(states[i], states[j])
  {
    forall m, n | 0 <= m < n < |states| && n == m + 1
      ensures JobsEvolve(states[m], states[n])
    {
      RunEvolves(states, events, m);
    }
    Chain(states, i, j);
  }

  function ClaimsOf(events: seq<Event>, id: Id): nat {
    if events == [] then 0
    else ClaimsOf(events[..|events| - 1], id)
         + (if events[|events| - 1].Claim? && events[|events| - 1].id == id then 1 else 0)
  }

  /** `attempts` counts the claims of a job, and there is never a second one. */
  lemma {:induction false} AttemptsCountClaims(states: seq<State>, events: seq<Event>, i: nat, id: Id)
    requires Run(states, events) && i < |states|
    ensures ClaimsOf(events[..i], id) == (if id in states[i].jobs then states[i].jobs[id].attempts else 0) <= 1
    decreases i
  {
    InvHolds(states, events, i);
    if i > 0 {
      AttemptsCountClaims(states, events, i - 1, id);
      InvHolds(states, events, i - 1);
      assert events[..i][..i - 1] == events[..i - 1];
      if events[i - 1].Claim? || events[i - 1].Write? {
        assert HoldsOwn(states[i - 1], events[i - 1].session);
      }
    }
  }

  // ----- First come, first served -----

  /** A job is taken from the moment a claim locks it. */
  ghost predicate Taken(s: State, id: Id)
    requires id in s.jobs
  {
    s.jobs[id].status != Pending || Locked(s, id)
  }

  /** Two jobs of one kind, the older of which is not overtaken: while it is free, so is the younger. */
  ghost predicate InOrder(s: State, older: Id, younger: Id) {
    && older in s.jobs && younger in s.jobs
    && s.jobs[older].kind == s.jobs[younger].kind
    && s.jobs[older].createdAt < s.jobs[younger].createdAt
    && (Taken(s, younger) ==> Taken(s, older))
  }

  predicate RollsBack(s: State, e: Event, id: Id) {
    e.Die? && LockedBy(s, e.session, id)
  }

  lemma StepKeepsTaken(s: State, e: Event, id: Id)
    requires Inv(s) && Enabled(s, e) && id in s.jobs
    ensures id in Apply(s, e).jobs
    ensures Taken(s, id) && !RollsBack(s, e, id) ==> Taken(Apply(s, e), id)
    ensures !Taken(s, id) && !(e.Lock? && e.id == id) ==> !Taken(Apply(s, e), id)
  {
    var s' := Apply(s, e);
    if e.Write? {
      assert HoldsOwn(s, e.session);
    }
    if Taken(s, id) && s.jobs[id].status == Pending {
      var k :| LockedBy(s, k, id);
      assert s'.jobs[id].status == Pending && !RollsBack(s, e, id) ==> LockedBy(s', k, id);
    }
    if !Taken(s, id) && !(e.Lock? && e.id == id) {
      forall k
        ensures !LockedBy(s', k, id)
      {
        assert !LockedBy(s, k, id);
      }
    }
  }

  /** The older job's claim rolls back after the younger job has been taken. */
  ghost predicate GivesWay(s: State, e: Event, older: Id, younger: Id) {
    older in s.jobs && younger in s.jobs && RollsBack(s, e, older) && Taken(s, younger)
  }

  lemma RollbackFrees(s: State, e: Event, id: Id)
    requires Inv(s) && Enabled(s, e) && RollsBack(s, e, id)
    ensures id in Apply(s, e).jobs && !Taken(Apply(s, e), id)
  {
    assert HoldsOwn(s, e.session);
  }

  lemma StepKeepsOrder(s: State, e: Event, older: Id, younger: Id)
    requires Inv(s) && Enabled(s, e) && InOrder(s, older, younger)
    ensures InOrder(Apply(s, e), older, younger) <==> !GivesWay(s, e, older, younger)
  {
    StepKeepsTaken(s, e, older);
    StepKeepsTaken(s, e, younger);
    StepEvolves(s, e);
    assert Evolves(s.jobs[older], Apply(s, e).jobs[older]) && Evolves(s.jobs[younger], Apply(s, e).jobs[younger]);
    if e.Lock? && e.id == younger {
      assert Claimable(s.jobs[older], e.wanted) ==> Locked(s, older);
    }
    if RollsBack(s, e, older) {
      RollbackFrees(s, e, older);
      assert HoldsOwn(s, e.session);
    }
  }

  lemma {:induction false} OrderKept(states: seq<State>, events: seq<Event>, i: nat, j: nat, older: Id, younger: Id)
    requires Run(states, events) && i <= j < |states|
    requires InOrder(states[i], older, younger)
    requires forall k :: i <= k < j ==> !GivesWay(states[k], events[k], older, younger)
    ensures InOrder(states[j], older, younger)
    decreases j
  {
    if i < j {
      OrderKept(states, events, i, j - 1, older, younger);
      InvHolds(states, events, j - 1);
      StepKeepsOrder(states[j - 1], events[j - 1], older, younger);
    }
  }

  /**
   Of two jobs of one kind that are free together, the older is taken first and stays ahead through the rest of
   the run, exactly when no claim of the older rolls back after the younger has been taken.
   */
  lemma OlderFirst(states: seq<State>, events: seq<Event>, i: nat, older: Id, younger: Id)
    requires Run(states, events) && i < |states| && InOrder(states[i], older, younger)
    ensures (forall j :: i <= j < |states| ==> InOrder(states[j], older, younger))
       <==> (forall k :: i <= k < |events| ==> !GivesWay(states[k], events[k], older, younger))
  {
    if forall k :: i <= k < |events| ==> !GivesWay(states[k], events[k], older, younger) {
      forall j | i <= j < |states|
        ensures InOrder(states[j], older, younger)
      {
        OrderKept(states, events, i, j, older, younger);
      }
    } else {
      var k :| i <= k < |events| && GivesWay(states[k], events[k], older, younger);
      if InOrder(states[k], older, younger) {
        InvHolds(states, events, k);
        StepKeepsOrder(states[k], events[k], older, younger);
        assert !InOrder(states[k + 1], older, younger);
      }
    }
  }

  // ----- Which claims take the oldest job -----

  /** No job is enqueued with a time before that of a job already there. */
  ghost predicate EnqueuesAdvance(states: seq<State>, events: seq<Event>)
    requires |states| == |events| + 1
  {
    forall m, id :: 0 <= m < |events| && events[m].Enqueue? && id in states[m].jobs ==>
      states[m].jobs[id].createdAt <= events[m].now
  }

  lemma {:induction false} AddedLater(states: seq<State>, events: seq<Event>, l: nat, i: nat, id: Id, other: Id)
    requires Run(states, events) && EnqueuesAdvance(states, events) && l <= i < |states|
    requires id in states[l].jobs && other !in states[l].jobs && other in states[i].jobs
    ensures states[l].jobs[id].createdAt <= states[i].jobs[other].createdAt
    decreases i
  {
    var h := i - 1;
    RunEvolves(states, events, h);
    RowsOnlyAdvance(states, events, l, h);
    if other in states[h].jobs {
      AddedLater(states, events, l, h, id, other);
    }
  }

  /** A session locks at most one row, once. */
  lemma {:induction false} LocksOnce(states: seq<State>, events: seq<Event>, l: nat, i: nat)
    requires Run(states, events) && l < i < |states| && l < |events| && events[l].Lock?
    ensures var k := events[l].session;
            && k in states[i].sessions
            && (states[i].sessions[k].Locking? ==>
                  states[i].sessions[k].id == events[l].id && states[i].sessions[k].workerId == events[l].workerId)
    decreases i
  {
    if l + 1 < i {
      LocksOnce(states, events, l, i - 1);
    }
  }

  /** The older jobs the lock had to skip are no longer pending. */
  ghost predicate SkippedAreTaken(s: State, s': State, wanted: Option<string>, id: Id)
    requires id in s.jobs
  {
    forall other :: other in s.jobs && Claimable(s.jobs[other], wanted) && Locked(s, other)
        && s.jobs[other].createdAt < s.jobs[id].createdAt
      ==> other in s'.jobs && s'.jobs[other].status != Pending
  }

  /**
   A claim that locked its row at event l and is written at event i takes the oldest pending job exactly when
   every older one that was locked at l has stopped being pending by i.
   */
  lemma ClaimTakesOldest(states: seq<State>, events: seq<Event>, l: nat, i: nat)
    requires Run(states, events) && EnqueuesAdvance(states, events) && l < i < |events|
    requires events[l].Lock? && events[i].Claim? && events[l].session == events[i].session
    ensures events[i].id == events[l].id
    ensures OldestClaimable(states[i].jobs, events[l].wanted, events[i].id)
       <==> SkippedAreTaken(states[l], states[i], events[l].wanted, events[l].id)
  {
    LocksOnce(states, events, l, i);
    NeverRejected(states, events, i);
    RowsOnlyAdvance(states, events, l, i);
    var id, wanted, s, s' := events[l].id, events[l].wanted, states[l], states[i];
    assert Evolves(s.jobs[id], s'.jobs[id]);
    if SkippedAreTaken(s, s', wanted, id) {
      forall other | other in s'.jobs && Claimable(s'.jobs[other], wanted)
        ensures s'.jobs[id].createdAt <= s'.jobs[other].createdAt
      {
        if other in s.jobs {
          assert Evolves(s.jobs[other], s'.jobs[other]);
        } else {
          AddedLater(states, events, l, i, id, other);
        }
      }
    } else {
      var other :| other in s.jobs && Claimable(s.jobs[other], wanted) && Locked(s, other)
        && s.jobs[other].createdAt < s.jobs[id].createdAt
        && !(other in s'.jobs && s'.jobs[other].status != Pending);
      assert Evolves(s.jobs[other], s'.jobs[other]);
    }
  }

  /** Locked first is not claimed first: while the older job's claim is open, the younger's can commit. */
  lemma YoungerOvertakes(org: string, kind: string) returns (states: seq<State>, events: seq<Event>)
    ensures Run(states, events) && |events| == 5
    ensures "a" in states[5].jobs && "b" in states[5].jobs
    ensures states[5].jobs["a"].createdAt < states[5].jobs["b"].createdAt
    ensures states[5].jobs["a"].status == Pending && states[5].jobs["b"].status == Processing
  {
    events := [Enqueue("a", org, kind, "", None, 1), Enqueue("b", org, kind, "", None, 2),
               Lock(0, "v", Some(kind), "a"), Lock(1, "w", Some(kind), "b"), Claim(1, "b", 3)];
    var s1 := Apply(INIT, events[0]);
    var s2 := Apply(s1, events[1]);
    assert forall k, id :: !LockedBy(s2, k, id);
    var s3 := Apply(s2, events[2]);
    assert LockedBy(s3, 0, "a");
    var s4 := Apply(s3, events[3]);
    var s5 := Apply(s4, events[4]);
    states := [INIT, s1, s2, s3, s4, s5];
  }

  /** A written claim names the worker that locked the row, and its time. */
  lemma ClaimNamesWorker(states: seq<State>, events: seq<Event>, l: nat, i: nat)
    requires Run(states, events) && l < i < |events|
    requires events[l].Lock? && events[i].Claim? && events[l].session == events[i].session
    ensures var id := events[l].id;
            && id in states[i].jobs && id in states[i + 1].jobs
            && states[i + 1].jobs[id] == states[i].jobs[id].(
                 status := Processing, claimedBy := Some(events[l].workerId), claimedAt := Some(events[i].now),
                 attempts := 1)
  {
    LocksOnce(states, events, l, i);
    NeverRejected(states, events, i);
    RunKeepsInv(states, events, i);
  }

  /** A session's write ends its job as its handler did: completed with the result, or failed with the message. */
  lemma WriteSettles(states: seq<State>, events: seq<Event>, i: nat)
    requires Run(states, events) && i < |events| && events[i].Write?
    ensures var c := states[i].sessions[events[i].session];
            && c.id in states[i].jobs
            && states[i + 1].jobs == states[i].jobs[c.id :=
                 match c.outcome
                 case Succeed(result) => states[i].jobs[c.id].(
                   status := Completed, result := Some(result), completedAt := Some(events[i].now))
                 case GiveUp(message) => states[i].jobs[c.id].(
                   status := Failed, errorMessage := Some(message), completedAt := Some(events[i].now))]
  {
    NeverRejected(states, events, i);
  }

  /** Sessions run to the end undisturbed: once a job is held, only its holder's write ends its processing. */
  lemma OnlyTheHolderFinishes(states: seq<State>, events: seq<Event>, i: nat, id: Id)
    requires Run(states, events) && i < |events|
    requires id in states[i].jobs && states[i].jobs[id].status == Processing
    requires states[i + 1].jobs[id] != states[i].jobs[id]
    ensures events[i].Write? && states[i].sessions[events[i].session].Checked?
    ensures states[i].sessions[events[i].session].id == id
    ensures forall k :: k in states[i].sessions && Active(states[i].sessions[k]) && states[i].sessions[k].id == id
              ==> k == events[i].session
  {
    InvHolds(states, events, i);
  }
}
