/**
 Data-subject requests under concurrency. Deciding and executing read the row, check what they read, and
 write it in later steps; an erasure awaits between its tables too. Any other call may run in between, and so
 may other services, which can change every table but the requests.
 */
module DataSubjectProtocol {
  import opened Outcomes
  import opened Sequences
  import C = Consent
  import opened DataSubject

  type Call = nat

  /** How far an execution has come; a stage carries what later steps need. */
  datatype Stage =
    | Checked
    | Found(user: User, pseudonym: string)
    | Detached(user: User, pseudonym: string, auditCount: nat)
    | Rewritten(pseudonym: string, auditCount: nat, userAnonymised: bool)
    | Ready(payload: Option<Payload>)

  /** A call, from its read on, that passes its checks and is still to write the request row. */
  datatype Phase =
    | Deciding(id: Id, organizationId: string, who: string, approve: bool, notes: Option<string>)
    | Executing(id: Id, organizationId: string, who: string, stage: Stage)

  datatype State = State(store: Store, calls: map<Call, Phase>)

  datatype Event =
    | Raise(
        organizationId: string, kind: RequestType, email: string, requestedBy: Option<string>, notes: Option<string>)
    | ReadDecision(call: Call, id: Id, organizationId: string, approve: bool, who: string, notes: Option<string>)
    | ReadExecution(call: Call, id: Id, organizationId: string, who: string)
    | Look(call: Call, pseudonym: string)
    | DetachAudit(call: Call)
    | RewriteUser(call: Call)
    | RewriteConsents(call: Call)
    | Write(call: Call, now: int)
    | Elsewhere(users: seq<User>, audit: seq<AuditEvent>, consents: seq<C.ConsentEvent>)

  predicate At(s: State, call: Call, wanted: Stage -> bool) {
    call in s.calls && s.calls[call].Executing? && wanted(s.calls[call].stage)
  }

  predicate Writable(p: Phase) {
    p.Executing? ==> p.stage.Ready?
  }

  predicate Enabled(s: State, e: Event) {
    match e
    case Raise(_, _, email, _, _) => '@' in email
    case ReadDecision(call, _, _, _, _, _) => call !in s.calls
    case ReadExecution(call, _, _, _) => call !in s.calls
    case Look(call, _) => At(s, call, (g: Stage) => g.Checked?)
    case DetachAudit(call) => At(s, call, (g: Stage) => g.Found?)
    case RewriteUser(call) => At(s, call, (g: Stage) => g.Detached?)
    case RewriteConsents(call) => At(s, call, (g: Stage) => g.Rewritten?)
    case Write(call, _) => call in s.calls && Writable(s.calls[call])
    case Elsewhere(_, _, _) => true
  }

  // ----- The steps of an execution -----

  /** The first read after the checks: the snapshot of an access, the user of an erasure. */
  function Looked(store: Store, p: Phase, pseudonym: string): Stage
    requires p.id < |store.requests|
  {
    var r := store.requests[p.id];
    match r.kind
    case Access => Ready(Some(SnapshotPayload(TakeSnapshot(store, r.subjectEmail, p.organizationId))))
    case Erasure =>
      var user := FindByEmail(store.users, r.subjectEmail);
      if user.Some? then Found(user.value, pseudonym) else Rewritten(pseudonym, 0, false)
    case Rectification => Ready(None)
  }

  function AfterLook(s: State, call: Call, pseudonym: string): State
    requires Enabled(s, Look(call, pseudonym))
  {
    var p := s.calls[call];
    if p.id < |s.store.requests|
    then s.(calls := s.calls[call := p.(stage := Looked(s.store, p, pseudonym))])
    else s.(calls := s.calls - {call})
  }

  function AfterDetach(s: State, call: Call): State
    requires Enabled(s, DetachAudit(call))
  {
    var p := s.calls[call];
    var userId := p.stage.user.id;
    var count := |Filter(s.store.audit, (e: AuditEvent) => ByUser(e, userId, p.organizationId))|;
    State(s.store.(audit := DetachedAll(s.store.audit, userId, p.organizationId)),
          s.calls[call := p.(stage := Detached(p.stage.user, p.stage.pseudonym, count))])
  }

  /** Rewriting fails for a user of another organisation, or one gone since: the call ends there. */
  function AfterRewriteUser(s: State, call: Call): State
    requires Enabled(s, RewriteUser(call))
  {
    var p := s.calls[call];
    var users := s.store.users;
    var at := Position(users, p.stage.user.id);
    if at.None? || users[at.value].organizationId != p.organizationId then s.(calls := s.calls - {call})
    else
      State(s.store.(users := users[at.value := ErasedUser(users[at.value], p.stage.pseudonym)]),
            s.calls[call := p.(stage := Rewritten(p.stage.pseudonym, p.stage.auditCount, true))])
  }

  function AfterRewriteConsents(s: State, call: Call): State
    requires Enabled(s, RewriteConsents(call))
  {
    var p := s.calls[call];
    if p.id >= |s.store.requests| then s.(calls := s.calls - {call})
    else
      var email := s.store.requests[p.id].subjectEmail;
      var count := |Filter(s.store.consents, (e: C.ConsentEvent) => C.ForSubject(e, email, p.organizationId))|;
      var counts := ErasureCounts(p.stage.auditCount, count, p.stage.userAnonymised);
      State(s.store.(consents := C.AnonymisedAll(s.store.consents, email, p.organizationId, p.stage.pseudonym)),
            s.calls[call := p.(stage := Ready(Some(ErasurePayload(counts))))])
  }

  /** The repository writes the row it finds, whatever has become of it since the read. */
  function Written(store: Store, p: Phase, now: int): Store
    requires Writable(p)
  {
    if Lookup(store.requests, p.id, p.organizationId).None? then store
    else match p
      case Deciding(id, _, who, approve, notes) => DataSubject.Decided(store, id, approve, who, notes, now)
      case Executing(id, _, who, stage) => DataSubject.Finished(store, id, who, stage.payload, now)
  }

  function Step(s: State, e: Event): State
    requires Enabled(s, e)
  {
    match e
    case Raise(org, kind, email, requestedBy, notes) =>
      s.(store := DataSubject.Created(s.store, org, kind, email, requestedBy, notes))
    case ReadDecision(call, id, org, approve, who, notes) =>
      if DecisionError(s.store, id, org, approve, who).Some? then s
      else s.(calls := s.calls[call := Deciding(id, org, who, approve, notes)])
    case ReadExecution(call, id, org, who) =>
      if ExecutionError(s.store, id, org, who).Some? then s
      else s.(calls := s.calls[call := Executing(id, org, who, Checked)])
    case Look(call, pseudonym) => AfterLook(s, call, pseudonym)
    case DetachAudit(call) => AfterDetach(s, call)
    case RewriteUser(call) => AfterRewriteUser(s, call)
    case RewriteConsents(call) => AfterRewriteConsents(s, call)
    case Write(call, now) => State(Written(s.store, s.calls[call], now), s.calls - {call})
    case Elsewhere(users, audit, consents) => s.(store := Store(users, audit, consents, s.store.requests))
  }

  /** A run from any tables with no requests yet. */
  ghost predicate Run(states: seq<State>, events: seq<Event>) {
    && |states| == |events| + 1
    && states[0].store.requests == [] && states[0].calls == map[]
    && forall i :: 0 <= i < |events| ==> Enabled(states[i], events[i]) && states[i + 1] == Step(states[i], events[i])
  }

  // ----- The sequential operations are the uninterrupted calls -----

  function StagesLeft(g: Stage): nat {
    match g
    case Checked => 4
    case Found(_, _) => 3
    case Detached(_, _, _) => 2
    case Rewritten(_, _, _) => 1
    case Ready(_) => 0
  }

  /** Nothing but one execution runs until it has ended. */
  function Uninterrupted(s: State, call: Call, pseudonym: string, now: int): State
    requires call in s.calls ==> s.calls[call].Executing?
    decreases if call in s.calls then StagesLeft(s.calls[call].stage) + 1 else 0
  {
    if call !in s.calls then s
    else match s.calls[call].stage
      case Checked => Uninterrupted(AfterLook(s, call, pseudonym), call, pseudonym, now)
      case Found(_, _) => Uninterrupted(AfterDetach(s, call), call, pseudonym, now)
      case Detached(_, _, _) => Uninterrupted(AfterRewriteUser(s, call), call, pseudonym, now)
      case Rewritten(_, _, _) => Uninterrupted(AfterRewriteConsents(s, call), call, pseudonym, now)
      case Ready(_) => Step(s, Write(call, now))
  }

  lemma FromRewritten(s: State, call: Call, pseudonym: string, now: int)
    requires At(s, call, (g: Stage) => g.Rewritten?)
    requires Lookup(s.store.requests, s.calls[call].id, s.calls[call].organizationId).Some?
    ensures var p := s.calls[call];
            var email := s.store.requests[p.id].subjectEmail;
            var count := |Filter(s.store.consents, (e: C.ConsentEvent) => C.ForSubject(e, email, p.organizationId))|;
            var consents := C.AnonymisedAll(s.store.consents, email, p.organizationId, p.stage.pseudonym);
            var counts := ErasureCounts(p.stage.auditCount, count, p.stage.userAnonymised);
            Uninterrupted(s, call, pseudonym, now)
            == State(DataSubject.Finished(s.store.(consents := consents), p.id, p.who, Some(ErasurePayload(counts)),
                                          now),
                     s.calls - {call})
  {
    var t := AfterRewriteConsents(s, call);
    assert t.calls - {call} == s.calls - {call};
    assert Uninterrupted(t, call, pseudonym, now) == Step(t, Write(call, now));
  }

  lemma FromFound(u: State, call: Call, pseudonym: string, now: int)
    requires At(u, call, (g: Stage) => g.Found?)
    ensures Uninterrupted(u, call, pseudonym, now)
         == Uninterrupted(AfterRewriteUser(AfterDetach(u, call), call), call, pseudonym, now)
  {
    var v := AfterDetach(u, call);
    assert Uninterrupted(u, call, pseudonym, now) == Uninterrupted(v, call, pseudonym, now);
  }

  /** From the lookup on, an erasure nobody interrupts does what the erasure of the four tables says. */
  lemma ErasureUninterrupted(u: State, call: Call, pseudonym: string, now: int)
    requires At(u, call, (g: Stage) => true)
    requires Lookup(u.store.requests, u.calls[call].id, u.calls[call].organizationId).Some?
    requires var p := u.calls[call];
             && u.store.requests[p.id].kind == Erasure && p.stage == Looked(u.store, p, pseudonym)
    ensures var p := u.calls[call];
            var email := u.store.requests[p.id].subjectEmail;
            var (erased, counts) := ErasedTables(u.store, email, p.organizationId, pseudonym);
            Uninterrupted(u, call, pseudonym, now)
            == State(if counts.None? then erased
                     else DataSubject.Finished(erased, p.id, p.who, Some(ErasurePayload(counts.value)), now),
                     u.calls - {call})
  {
    if u.calls[call].stage.Found? {
      var v := AfterDetach(u, call);
      var w := AfterRewriteUser(v, call);
      FromFound(u, call, pseudonym, now);
      assert v.calls - {call} == u.calls - {call} == w.calls - {call};
      if call in w.calls {
        FromRewritten(w, call, pseudonym, now);
      }
    } else {
      FromRewritten(u, call, pseudonym, now);
    }
  }

  /** An execution nobody interrupts does what the sequential operation does, errors and aborts included. */
  lemma ExecutionUninterrupted(s: State, call: Call, id: Id, org: string, who: string, pseudonym: string, now: int)
    requires call !in s.calls
    ensures Uninterrupted(Step(s, ReadExecution(call, id, org, who)), call, pseudonym, now)
         == s.(store := Executed(s.store, id, org, who, pseudonym, now).0)
  {
    var t := Step(s, ReadExecution(call, id, org, who));
    if ExecutionError(s.store, id, org, who).None? {
      var u := AfterLook(t, call, pseudonym);
      assert u.calls - {call} == s.calls;
      if s.store.requests[id].kind == Erasure {
        ErasureUninterrupted(u, call, pseudonym, now);
      }
    }
  }

  // ----- What holds however the calls overlap -----

  predicate RowOk(r: Request) {
    && '@' in r.subjectEmail
    && (r.status == Pending <==> r.decidedBy.None?)
    && (r.status == Approved ==> !IsRequestor(r, r.decidedBy.value))
  }

  predicate PhaseOk(requests: seq<Request>, p: Phase) {
    && Lookup(requests, p.id, p.organizationId).Some?
    && (p.Executing? || p.approve ==> !IsRequestor(requests[p.id], p.who))
    && (p.Executing? ==> requests[p.id].status != Pending)
  }

  ghost predicate Inv(s: State) {
    && (forall i :: 0 <= i < |s.store.requests| ==> RowOk(s.store.requests[i]))
    && (forall c :: c in s.calls ==> PhaseOk(s.store.requests, s.calls[c]))
  }

  /** What no step changes in a request, and that requests are never lost. */
  ghost predicate TermsKept(a: seq<Request>, b: seq<Request>) {
    && |a| <= |b|
    && forall i :: 0 <= i < |a| ==>
         && b[i].organizationId == a[i].organizationId && b[i].kind == a[i].kind
         && b[i].subjectEmail == a[i].subjectEmail && b[i].requestedBy == a[i].requestedBy
         && (a[i].status != Pending ==> b[i].status != Pending)
  }

  function WrittenRow(r: Request, p: Phase, now: int): Request
    requires Writable(p)
  {
    match p
    case Deciding(_, _, who, approve, notes) => DecidedRow(r, approve, who, notes, now)
    case Executing(_, _, _, stage) => FinishedRow(r, stage.payload, now)
  }

  /** Only a write touches the requests, and only the row of its call. */
  lemma StepOnRequests(s: State, e: Event)
    requires Enabled(s, e)
    ensures var a, b := s.store.requests, Step(s, e).store.requests;
            if e.Raise? then b == a + [NewRequest(e.organizationId, e.kind, e.email, e.requestedBy, e.notes)]
            else if !e.Write? then b == a
            else
              var p := s.calls[e.call];
              b == if Lookup(a, p.id, p.organizationId).None? then a else a[p.id := WrittenRow(a[p.id], p, e.now)]
  {}

  lemma StepKeepsTerms(s: State, e: Event)
    requires Enabled(s, e)
    ensures TermsKept(s.store.requests, Step(s, e).store.requests)
  {
    StepOnRequests(s, e);
  }

  predicate Closed(r: Request) {
    r.status == Denied || r.status == Completed
  }

  /** A step adds at most the call it names, and leaves its id, organisation and caller alone. */
  lemma StepOnCalls(s: State, e: Event, c: Call)
    requires Enabled(s, e) && c in Step(s, e).calls
    ensures c in s.calls ==>
      var p, q := s.calls[c], Step(s, e).calls[c];
      && q.id == p.id && q.organizationId == p.organizationId && q.who == p.who
      && q.Executing? == p.Executing? && (p.Deciding? ==> q == p)
    ensures c !in s.calls ==>
      && PhaseOk(s.store.requests, Step(s, e).calls[c])
      && !Closed(s.store.requests[Step(s, e).calls[c].id])
      && Step(s, e).store == s.store
  {}

  lemma StepKeepsInv(s: State, e: Event)
    requires Inv(s) && Enabled(s, e)
    ensures Inv(Step(s, e))
  {
    var s' := Step(s, e);
    StepOnRequests(s, e);
    StepKeepsTerms(s, e);
    forall c | c in s'.calls
      ensures PhaseOk(s'.store.requests, s'.calls[c])
    {
      StepOnCalls(s, e, c);
      if c in s.calls {
        assert PhaseOk(s.store.requests, s.calls[c]);
      }
    }
    if e.Write? {
      assert PhaseOk(s.store.requests, s.calls[e.call]);
    }
  }

  /**
   In every interleaving an approved request was approved by somebody other than its requestor, and so is
   every execution under way carried out.
   */
  lemma {:induction false} SeparationOfDuties(states: seq<State>, events: seq<Event>, i: nat)
    requires Run(states, events) && i < |states|
    ensures Inv(states[i])
    ensures forall r :: r in states[i].store.requests && r.status == Approved ==>
              r.decidedBy.Some? && !IsRequestor(r, r.decidedBy.value)
    ensures forall c :: c in states[i].calls && states[i].calls[c].Executing? ==>
              PhaseOk(states[i].store.requests, states[i].calls[c])
  {
    if i > 0 {
      SeparationOfDuties(states, events, i - 1);
      StepKeepsInv(states[i - 1], events[i - 1]);
    }
  }

  /** Requests are never lost, their terms never change, and none becomes pending again. */
  lemma {:induction false} TermsNeverChange(states: seq<State>, events: seq<Event>, i: nat, j: nat)
    requires Run(states, events) && i <= j < |states|
    ensures TermsKept(states[i].store.requests, states[j].store.requests)
    decreases j
  {
    if i < j {
      TermsNeverChange(states, events, i, j - 1);
      StepKeepsTerms(states[j - 1], events[j - 1]);
    }
  }

  // ----- Exactly when closed requests never change -----

  ghost predicate ClosedFrozen(s: State, s': State) {
    && |s.store.requests| <= |s'.store.requests|
    && forall i :: 0 <= i < |s.store.requests| && Closed(s.store.requests[i]) ==>
         s'.store.requests[i] == s.store.requests[i]
  }

  ghost predicate AlwaysFrozen(states: seq<State>) {
    forall i, j :: 0 <= i <= j < |states| ==> ClosedFrozen(states[i], states[j])
  }

  /** A denial or the end of an execution. */
  predicate Closing(p: Phase) {
    p.Executing? || !p.approve
  }

  /** Call c, under way at state i, has been since event v, at which another call closed its request. */
  ghost predicate Overtaken(states: seq<State>, events: seq<Event>, c: Call, v: int, i: int) {
    && 0 <= v < i < |states| == |events| + 1
    && events[v].Write? && events[v].call != c && events[v].call in states[v].calls
    && Closing(states[v].calls[events[v].call])
    && (forall k :: v <= k <= i ==> c in states[k].calls)
    && states[v].calls[events[v].call].id == states[i].calls[c].id
  }

  /** No call closes a request between the read and the write of another call on it. */
  ghost predicate NeverOvertaken(states: seq<State>, events: seq<Event>) {
    forall v, w :: 0 <= w < |events| && events[w].Write? ==> !Overtaken(states, events, events[w].call, v, w)
  }

  predicate TargetOpen(s: State, c: Call)
    requires c in s.calls
  {
    s.calls[c].id < |s.store.requests| && !Closed(s.store.requests[s.calls[c].id])
  }

  /** A call under way that nobody has overtaken finds its request still open. */
  lemma {:induction false} OpenOrOvertaken(states: seq<State>, events: seq<Event>, c: Call, i: nat)
    requires Run(states, events) && i < |states| && c in states[i].calls
    ensures TargetOpen(states[i], c) || exists v :: Overtaken(states, events, c, v, i)
  {
    assert i > 0;
    var h := i - 1;
    var s, e := states[h], events[h];
    StepOnCalls(s, e, c);
    if c in s.calls {
      OpenOrOvertaken(states, events, c, h);
      StepOnRequests(s, e);
      if v :| Overtaken(states, events, c, v, h) {
        assert Overtaken(states, events, c, v, i);
      } else if e.Write? && s.calls[e.call].id == s.calls[c].id && Closing(s.calls[e.call]) {
        assert Overtaken(states, events, c, h, i);
      }
    }
  }

  lemma StepFreezes(s: State, e: Event)
    requires Enabled(s, e) && (e.Write? ==> TargetOpen(s, e.call))
    ensures ClosedFrozen(s, Step(s, e))
  {
    StepOnRequests(s, e);
  }

  /** Unless a call is overtaken, a denied or completed request never changes again. */
  lemma {:induction false} ClosedRowsFrozen(states: seq<State>, events: seq<Event>, i: nat, j: nat)
    requires Run(states, events) && i <= j < |states| && NeverOvertaken(states, events)
    ensures ClosedFrozen(states[i], states[j])
    decreases j
  {
    if i < j {
      ClosedRowsFrozen(states, events, i, j - 1);
      if events[j - 1].Write? {
        OpenOrOvertaken(states, events, events[j - 1].call, j - 1);
      }
      StepFreezes(states[j - 1], events[j - 1]);
    }
  }

  /** Later writes carry later times. */
  ghost predicate WritesAdvance(events: seq<Event>) {
    forall v, w :: 0 <= v < w < |events| && events[v].Write? && events[w].Write? ==> events[v].now < events[w].now
  }

  /** The row a write leaves behind carries its time: of the decision, or of the completion. */
  predicate Stamped(r: Request, p: Phase, now: int) {
    match p
    case Deciding(_, _, _, approve, _) => r.status == (if approve then Approved else Denied) && r.decidedAt == Some(now)
    case Executing(_, _, _, _) => r.status == Completed && r.completedAt == Some(now)
  }

  lemma WriteStamps(s: State, c: Call, now: int)
    requires Inv(s) && c in s.calls && Writable(s.calls[c])
    ensures var p := s.calls[c];
            && p.id < |s.store.requests|
            && |Step(s, Write(c, now)).store.requests| == |s.store.requests|
            && Stamped(Step(s, Write(c, now)).store.requests[p.id], p, now)
  {
    assert PhaseOk(s.store.requests, s.calls[c]);
    StepOnRequests(s, Write(c, now));
  }

  lemma OvertakingThaws(states: seq<State>, events: seq<Event>, v: int, w: int)
    requires Run(states, events) && WritesAdvance(events)
    requires 0 <= w < |events| && events[w].Write? && Overtaken(states, events, events[w].call, v, w)
    ensures !AlwaysFrozen(states)
  {
    SeparationOfDuties(states, events, v);
    SeparationOfDuties(states, events, w);
    WriteStamps(states[v], events[v].call, events[v].now);
    WriteStamps(states[w], events[w].call, events[w].now);
    var id := states[w].calls[events[w].call].id;
    var before, after := states[v + 1].store.requests[id], states[w + 1].store.requests[id];
    assert Closed(before) && before != after;
    assert !ClosedFrozen(states[v + 1], states[w + 1]);
  }

  /**
   In a run whose clock advances between writes, denied and completed requests never change exactly when no
   call closes a request between the read and the write of another call on it.
   */
  lemma FrozenExactly(states: seq<State>, events: seq<Event>)
    requires Run(states, events) && WritesAdvance(events)
    ensures AlwaysFrozen(states) <==> NeverOvertaken(states, events)
  {
    if NeverOvertaken(states, events) {
      forall i, j | 0 <= i <= j < |states|
        ensures ClosedFrozen(states[i], states[j])
      {
        ClosedRowsFrozen(states, events, i, j);
      }
    } else {
      var v, w :| 0 <= w < |events| && events[w].Write? && Overtaken(states, events, events[w].call, v, w);
      OvertakingThaws(states, events, v, w);
    }
  }

  // ----- Who decided what is completed -----

  /** Without overtaking, what is completed was approved by somebody other than the requestor. */
  lemma {:induction false} CompletedByTwo(states: seq<State>, events: seq<Event>, i: nat)
    requires Run(states, events) && i < |states| && NeverOvertaken(states, events)
    ensures forall r :: r in states[i].store.requests && r.status == Completed ==>
              r.decidedBy.Some? && !IsRequestor(r, r.decidedBy.value)
  {
    if i > 0 {
      CompletedByTwo(states, events, i - 1);
      SeparationOfDuties(states, events, i - 1);
      var s, e := states[i - 1], events[i - 1];
      StepOnRequests(s, e);
      if e.Write? {
        OpenOrOvertaken(states, events, e.call, i - 1);
        assert PhaseOk(s.store.requests, s.calls[e.call]);
        assert RowOk(s.store.requests[s.calls[e.call].id]);
      }
    }
  }

  /** The last of the first n events that wrote a decision on the request, as its call made it. */
  ghost function LastDecision(states: seq<State>, events: seq<Event>, n: nat, id: Id): Option<Phase>
    requires |states| == |events| + 1 && n <= |events|
  {
    if n == 0 then None
    else
      var s, e := states[n - 1], events[n - 1];
      if e.Write? && e.call in s.calls && s.calls[e.call].Deciding? && s.calls[e.call].id == id
      then Some(s.calls[e.call])
      else LastDecision(states, events, n - 1, id)
  }

  /** A request carries the decider of the last decision on it, and only a denial can be the requestor's. */
  lemma {:induction false} DecidedByLast(states: seq<State>, events: seq<Event>, n: nat, id: Id)
    requires Run(states, events) && n <= |events|
    ensures var d, requests := LastDecision(states, events, n, id), states[n].store.requests;
            if id >= |requests| then d.None?
            else && requests[id].decidedBy == (if d.Some? then Some(d.value.who) else None)
                 && (d.Some? ==> d.value.Deciding? && (d.value.approve ==> !IsRequestor(requests[id], d.value.who)))
  {
    if n > 0 {
      var s, e := states[n - 1], events[n - 1];
      DecidedByLast(states, events, n - 1, id);
      SeparationOfDuties(states, events, n - 1);
      StepOnRequests(s, e);
      if e.Write? {
        assert PhaseOk(s.store.requests, s.calls[e.call]);
      }
    }
  }

  /**
   In every run a completed request names its requestor as decider exactly when the last decision written on it
   was the requestor's own denial.
   */
  lemma CompletedByRequestor(states: seq<State>, events: seq<Event>, n: nat, id: Id)
    requires Run(states, events) && n <= |events| && id < |states[n].store.requests|
    requires states[n].store.requests[id].status == Completed
    ensures var r, d := states[n].store.requests[id], LastDecision(states, events, n, id);
            && r.decidedBy.Some?
            && (IsRequestor(r, r.decidedBy.value) <==>
                  d.Some? && d.value.Deciding? && !d.value.approve && IsRequestor(r, d.value.who))
  {
    SeparationOfDuties(states, events, n);
    assert RowOk(states[n].store.requests[id]);
    DecidedByLast(states, events, n, id);
  }

  // ----- What an interrupted erasure leaves behind -----

  /** The event adds an audit row of the user, by the one of three ways there are. */
  ghost predicate AddsAudit(s: State, e: Event, row: AuditEvent, userId: string)
    requires Enabled(s, e)
  {
    && row !in s.store.audit && row in Step(s, e).store.audit
    && (|| e.Elsewhere?
        || (e.Raise? && e.requestedBy == Some(userId))
        || (e.Write? && s.calls[e.call].who == userId))
  }

  lemma DetachAddsNone(audit: seq<AuditEvent>, userId: string, org: string, row: AuditEvent)
    requires row.userId.Some? && row in DetachedAll(audit, userId, org)
    ensures row in audit && !ByUser(row, userId, org)
  {
    var i :| 0 <= i < |audit| && DetachedAll(audit, userId, org)[i] == row;
    assert row == DataSubject.Detached(audit[i], userId, org);
    assert audit[i] in audit;
  }

  lemma StepAddsAudit(s: State, e: Event, row: AuditEvent, userId: string, org: string)
    requires Enabled(s, e) && ByUser(row, userId, org)
    requires row !in s.store.audit && row in Step(s, e).store.audit
    ensures AddsAudit(s, e, row, userId)
  {
    if e.DetachAudit? {
      var p := s.calls[e.call];
      DetachAddsNone(s.store.audit, p.stage.user.id, p.organizationId, row);
    }
  }

  /** Once an erasure has detached the subject's audit rows, those that name the subject have been added since. */
  lemma {:induction false} AuditAddedSince(states: seq<State>, events: seq<Event>, d: nat, j: nat, row: AuditEvent)
    returns (m: nat)
    requires Run(states, events) && d < j < |states| && events[d].DetachAudit?
    requires var p := states[d].calls[events[d].call];
             ByUser(row, p.stage.user.id, p.organizationId) && row in states[j].store.audit
    ensures d < m < j && AddsAudit(states[m], events[m], row, states[d].calls[events[d].call].stage.user.id)
    decreases j
  {
    var p := states[d].calls[events[d].call];
    if j == d + 1 {
      DetachAddsNone(states[d].store.audit, p.stage.user.id, p.organizationId, row);
      assert false;
    } else if row in states[j - 1].store.audit {
      m := AuditAddedSince(states, events, d, j - 1, row);
    } else {
      m := j - 1;
      StepAddsAudit(states[m], events[m], row, p.stage.user.id, p.organizationId);
    }
  }

  /** The event adds a consent row of the address: another service does, or an erasure using it as pseudonym. */
  ghost predicate AddsConsent(s: State, e: Event, row: C.ConsentEvent, email: string)
    requires Enabled(s, e)
  {
    && row !in s.store.consents && row in Step(s, e).store.consents
    && (e.Elsewhere? || (e.RewriteConsents? && s.calls[e.call].stage.pseudonym == email))
  }

  lemma RewriteAddsNone(consents: seq<C.ConsentEvent>, email: string, org: string, pseudonym: string,
                        row: C.ConsentEvent)
    requires row in C.AnonymisedAll(consents, email, org, pseudonym) && row.subjectEmail != pseudonym
    ensures row in consents && !C.ForSubject(row, email, org)
  {
    var i :| 0 <= i < |consents| && C.AnonymisedAll(consents, email, org, pseudonym)[i] == row;
    assert row == C.Anonymised(consents[i], email, org, pseudonym);
    assert consents[i] in consents;
  }

  lemma StepAddsConsent(s: State, e: Event, row: C.ConsentEvent)
    requires Enabled(s, e) && row !in s.store.consents && row in Step(s, e).store.consents
    ensures AddsConsent(s, e, row, row.subjectEmail)
  {
    if e.RewriteConsents? && s.calls[e.call].id < |s.store.requests| {
      var p := s.calls[e.call];
      if p.stage.pseudonym != row.subjectEmail {
        var email := s.store.requests[p.id].subjectEmail;
        RewriteAddsNone(s.store.consents, email, p.organizationId, p.stage.pseudonym, row);
      }
    }
  }

  /** Once an erasure has rewritten the subject's consents, those with the address have been added since. */
  lemma {:induction false} ConsentsAddedSince(states: seq<State>, events: seq<Event>, r: nat, j: nat,
                                              row: C.ConsentEvent)
    returns (m: nat)
    requires Run(states, events) && r < j < |states| && events[r].RewriteConsents?
    requires var p := states[r].calls[events[r].call];
             && p.id < |states[r].store.requests|
             && p.stage.pseudonym != states[r].store.requests[p.id].subjectEmail
             && C.ForSubject(row, states[r].store.requests[p.id].subjectEmail, p.organizationId)
    requires row in states[j].store.consents
    ensures r < m < j && AddsConsent(states[m], events[m], row, row.subjectEmail)
    decreases j
  {
    var p := states[r].calls[events[r].call];
    if j == r + 1 {
      RewriteAddsNone(states[r].store.consents, row.subjectEmail, p.organizationId, p.stage.pseudonym, row);
      assert false;
    } else if row in states[j - 1].store.consents {
      m := ConsentsAddedSince(states, events, r, j - 1, row);
    } else {
      m := j - 1;
      StepAddsConsent(states[m], events[m], row);
    }
  }

  /** The d-th, r-th and w-th event are the audit, consent and request writes of one erasure. */
  ghost predicate Erases(states: seq<State>, events: seq<Event>, d: nat, r: nat, w: nat)
    requires Run(states, events)
  {
    && d < r < w < |events|
    && events[d].DetachAudit? && events[r].RewriteConsents? && events[w].Write?
    && events[d].call == events[r].call == events[w].call
    && forall k :: d <= k <= w ==> events[d].call in states[k].calls
  }

  /**
   When an erasure writes its request, whatever ran in between, each audit row of the organisation that names
   the subject was added after the subject's were detached, and each consent row of the address after the
   subject's were rewritten.
   */
  lemma InterruptedErasure(states: seq<State>, events: seq<Event>, d: nat, r: nat, w: nat)
    requires Run(states, events) && Erases(states, events, d, r, w)
    requires var p := states[r].calls[events[d].call];
             p.id < |states[r].store.requests| ==> p.stage.pseudonym != states[r].store.requests[p.id].subjectEmail
    ensures states[r].calls[events[d].call].id < |states[r].store.requests|
    ensures var user, org := states[d].calls[events[d].call].stage.user, states[d].calls[events[d].call].organizationId;
            forall row :: row in states[w].store.audit && ByUser(row, user.id, org) ==>
              exists m :: d < m < w && AddsAudit(states[m], events[m], row, user.id)
    ensures var p := states[r].calls[events[d].call];
            var email := states[r].store.requests[p.id].subjectEmail;
            forall row :: row in states[w].store.consents && C.ForSubject(row, email, p.organizationId) ==>
              exists m :: r < m < w && AddsConsent(states[m], events[m], row, email)
  {
    SeparationOfDuties(states, events, r);
    assert PhaseOk(states[r].store.requests, states[r].calls[events[d].call]);
    var user, org := states[d].calls[events[d].call].stage.user, states[d].calls[events[d].call].organizationId;
    forall row | row in states[w].store.audit && ByUser(row, user.id, org)
      ensures exists m :: d < m < w && AddsAudit(states[m], events[m], row, user.id)
    {
      var m := AuditAddedSince(states, events, d, w, row);
    }
    var p := states[r].calls[events[d].call];
    var email := states[r].store.requests[p.id].subjectEmail;
    forall row | row in states[w].store.consents && C.ForSubject(row, email, p.organizationId)
      ensures exists m :: r < m < w && AddsConsent(states[m], events[m], row, email)
    {
      var m := ConsentsAddedSince(states, events, r, w, row);
    }
  }

  // ----- What overtaking can do -----

  lemma Extend(states: seq<State>, events: seq<Event>, e: Event) returns (states': seq<State>, events': seq<Event>)
    requires Run(states, events) && Enabled(states[|events|], e)
    ensures Run(states', events') && events' == events + [e] && states' == states + [Step(states[|events|], e)]
  {
    states', events' := states + [Step(states[|events|], e)], events + [e];
  }

  function ApprovedRequest(org: string, kind: RequestType, email: string, requestor: string, approver: string)
    : Request
  {
    DecidedRow(NewRequest(org, kind, email, Some(requestor), None), true, approver, None, 1)
  }

  /** A denial by the requestor that reads the row before somebody else's approval is written, and is written after. */
  lemma DenialAfterCheck(org: string, email: string, requestor: string, approver: string, executor: string)
    returns (states: seq<State>, events: seq<Event>)
    requires '@' in email && requestor != "" && requestor != approver && requestor != executor
    ensures Run(states, events)
    ensures events ==
      [Raise(org, Rectification, email, Some(requestor), None), ReadDecision(0, 0, org, true, approver, None),
       ReadDecision(1, 0, org, false, requestor, None), Write(0, 1), ReadExecution(2, 0, org, executor), Write(1, 2)]
    ensures states[6].store.requests
         == [DecidedRow(ApprovedRequest(org, Rectification, email, requestor, approver), false, requestor, None, 2)]
    ensures states[6].calls == map[2 := Executing(0, org, executor, Checked)]
  {
    states, events := [State(Store([], [], [], []), map[])], [];
    states, events := Extend(states, events, Raise(org, Rectification, email, Some(requestor), None));
    states, events := Extend(states, events, ReadDecision(0, 0, org, true, approver, None));
    states, events := Extend(states, events, ReadDecision(1, 0, org, false, requestor, None));
    states, events := Extend(states, events, Write(0, 1));
    assert states[4].store.requests == [ApprovedRequest(org, Rectification, email, requestor, approver)];
    states, events := Extend(states, events, ReadExecution(2, 0, org, executor));
    states, events := Extend(states, events, Write(1, 2));
  }

  /** The denial is then overtaken by the execution of the approval before it: a denied request completes. */
  lemma DenialLost(org: string, email: string, requestor: string, approver: string, executor: string)
    returns (states: seq<State>, events: seq<Event>)
    requires '@' in email && requestor != "" && requestor != approver && requestor != executor
    ensures Run(states, events) && WritesAdvance(events) && |events| == 8
    ensures |states[6].store.requests| == 1 && states[6].store.requests[0].status == Denied
    ensures |states[8].store.requests| == 1 && states[8].store.requests[0].status == Completed
    ensures states[8].store.requests[0].decidedBy == states[8].store.requests[0].requestedBy == Some(requestor)
  {
    states, events := DenialAfterCheck(org, email, requestor, approver, executor);
    states, events := Extend(states, events, Look(2, ""));
    states, events := Extend(states, events, Write(2, 3));
  }

  /** One approved erasure, read by two executions. */
  lemma CheckedTwice(org: string, email: string, requestor: string, approver: string, consents: seq<C.ConsentEvent>)
    returns (states: seq<State>, events: seq<Event>)
    requires '@' in email && requestor != approver
    ensures Run(states, events)
    ensures events ==
      [Raise(org, Erasure, email, Some(requestor), None), ReadDecision(0, 0, org, true, approver, None), Write(0, 1),
       ReadExecution(1, 0, org, approver), ReadExecution(2, 0, org, approver)]
    ensures var s := states[5];
            && s.store.requests == [ApprovedRequest(org, Erasure, email, requestor, approver)]
            && s.store.users == [] && s.store.consents == consents
            && s.calls == map[1 := Executing(0, org, approver, Checked), 2 := Executing(0, org, approver, Checked)]
  {
    states, events := [State(Store([], [], consents, []), map[])], [];
    states, events := Extend(states, events, Raise(org, Erasure, email, Some(requestor), None));
    states, events := Extend(states, events, ReadDecision(0, 0, org, true, approver, None));
    states, events := Extend(states, events, Write(0, 1));
    assert states[3].store.requests == [ApprovedRequest(org, Erasure, email, requestor, approver)];
    states, events := Extend(states, events, ReadExecution(1, 0, org, approver));
    states, events := Extend(states, events, ReadExecution(2, 0, org, approver));
  }

  lemma RewriteOnlyConsent(s: State, call: Call, e: C.ConsentEvent)
    requires Enabled(s, RewriteConsents(call))
    requires s.calls[call].id < |s.store.requests| && s.store.consents == [e]
    ensures var p, s' := s.calls[call], Step(s, RewriteConsents(call));
            var email := s.store.requests[p.id].subjectEmail;
            var n := if C.ForSubject(e, email, p.organizationId) then 1 else 0;
            var counts := ErasureCounts(p.stage.auditCount, n, p.stage.userAnonymised);
            && s'.store == s.store.(consents := [C.Anonymised(e, email, p.organizationId, p.stage.pseudonym)])
            && s'.calls == s.calls[call := p.(stage := Ready(Some(ErasurePayload(counts))))]
  {
    var p := s.calls[call];
    var email := s.store.requests[p.id].subjectEmail;
    assert [e][1..] == [];
    assert C.AnonymisedAll([e], email, p.organizationId, p.stage.pseudonym)
        == [C.Anonymised(e, email, p.organizationId, p.stage.pseudonym)];
    var isSubject := (d: C.ConsentEvent) => C.ForSubject(d, email, p.organizationId);
    assert Filter([e], isSubject) == (if isSubject(e) then [e] else []) + Filter([e][1..], isSubject);
  }

  lemma LookTwice(states: seq<State>, events: seq<Event>, org: string, who: string, r: Request)
    returns (states': seq<State>, events': seq<Event>)
    requires Run(states, events) && states[|events|].store.requests == [r] && r.kind == Erasure
    requires states[|events|].store.users == []
    requires states[|events|].calls == map[1 := Executing(0, org, who, Checked), 2 := Executing(0, org, who, Checked)]
    ensures Run(states', events') && events' == events + [Look(1, "erased"), Look(2, "erased")]
    ensures var s := states'[|events'|];
            && s.store == states[|events|].store
            && s.calls == map[1 := Executing(0, org, who, Rewritten("erased", 0, false)),
                              2 := Executing(0, org, who, Rewritten("erased", 0, false))]
  {
    states', events' := Extend(states, events, Look(1, "erased"));
    states', events' := Extend(states', events', Look(2, "erased"));
  }

  lemma WriteTwice(states: seq<State>, events: seq<Event>, org: string, who: string, r: Request, a: ErasureCounts,
                   b: ErasureCounts)
    returns (states': seq<State>, events': seq<Event>)
    requires Run(states, events) && states[|events|].store.requests == [r] && r.organizationId == org
    requires states[|events|].calls == map[1 := Executing(0, org, who, Ready(Some(ErasurePayload(a)))),
                                           2 := Executing(0, org, who, Ready(Some(ErasurePayload(b))))]
    ensures Run(states', events') && events' == events + [Write(1, 2), Write(2, 3)]
    ensures states'[|events| + 1].store.requests == [FinishedRow(r, Some(ErasurePayload(a)), 2)]
    ensures states'[|events| + 2].store.requests == [FinishedRow(r, Some(ErasurePayload(b)), 3)]
  {
    states', events' := Extend(states, events, Write(1, 2));
    states', events' := Extend(states', events', Write(2, 3));
  }

  /** One erasure executed twice at once: the counts the first reports are overwritten with the second's zeros. */
  lemma CountsLost(org: string, email: string, requestor: string, approver: string)
    returns (states: seq<State>, events: seq<Event>)
    requires '@' in email && requestor != approver
    ensures Run(states, events) && WritesAdvance(events) && |events| == 11
    ensures |states[10].store.requests| == 1
         && states[10].store.requests[0].payload == Some(ErasurePayload(ErasureCounts(0, 1, false)))
    ensures |states[11].store.requests| == 1
         && states[11].store.requests[0].payload == Some(ErasurePayload(ErasureCounts(0, 0, false)))
  {
    var grant := C.ConsentEvent(org, email, None, "news", C.Granted, "api", None, 0);
    states, events := CheckedTwice(org, email, requestor, approver, [grant]);
    var r := states[5].store.requests[0];
    states, events := LookTwice(states, events, org, approver, r);
    RewriteOnlyConsent(states[7], 1, grant);
    states, events := Extend(states, events, RewriteConsents(1));
    RewriteOnlyConsent(states[8], 2, C.Anonymised(grant, email, org, "erased"));
    states, events := Extend(states, events, RewriteConsents(2));
    states, events :=
      WriteTwice(states, events, org, approver, r, ErasureCounts(0, 1, false), ErasureCounts(0, 0, false));
  }
}
