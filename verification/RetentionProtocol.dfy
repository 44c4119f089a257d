/**
 Destruction decisions under concurrency. Approving or denying reads the row, checks what it read, and writes
 it in a later step; any other decision or request may run in between.
 */
module RetentionProtocol {
  import opened Outcomes
  import opened Retention

  type Call = nat

  datatype Decision = Decision(id: Id, organizationId: string, approve: bool, approver: string)

  /** `deciding` holds, from their read on, the decisions that pass their checks and are still to be written. */
  datatype State = State(actions: seq<Action>, deciding: map<Call, Decision>)

  datatype Event =
    | Raise(organizationId: string, documentId: string, action: string, reason: string, requestedBy: string)
    | Read(call: Call, decision: Decision)
    | Write(call: Call, now: int)

  const INIT := State([], map[])

  predicate Enabled(s: State, e: Event) {
    match e
    case Raise(_, _, _, _, _) => true
    case Read(call, _) => call !in s.deciding
    case Write(call, _) => call in s.deciding
  }

  function Apply(s: State, e: Event): State
    requires Enabled(s, e)
  {
    match e
    case Raise(org, doc, action, reason, requestedBy) =>
      s.(actions := s.actions + [NewRequest(org, doc, action, reason, requestedBy)])
    case Read(call, d) =>
      if DecisionError(s.actions, d.id, d.organizationId, d.approve, d.approver).Some? then s
      else s.(deciding := s.deciding[call := d])
    case Write(call, now) =>
      var d := s.deciding[call];
      State(if Lookup(s.actions, d.id, d.organizationId).Some?
            then s.actions[d.id := Decided(s.actions[d.id], d.approve, d.approver, now)] else s.actions,
            s.deciding - {call})
  }

  ghost predicate Run(states: seq<State>, events: seq<Event>) {
    && |states| == |events| + 1
    && states[0] == INIT
    && forall i :: 0 <= i < |events| ==> Enabled(states[i], events[i]) && states[i + 1] == Apply(states[i], events[i])
  }

  // ----- What holds however decisions overlap -----

  predicate RowOk(row: Action) {
    && (row.status == Pending <==> row.decidedBy.None?)
    && (row.status == Pending <==> row.decidedAt.None?)
    && (row.status == Approved ==> row.decidedBy != Some(row.requestedBy))
  }

  ghost predicate Inv(s: State) {
    && (forall i :: 0 <= i < |s.actions| ==> RowOk(s.actions[i]))
    && (forall c :: c in s.deciding ==>
          var d := s.deciding[c];
          && Lookup(s.actions, d.id, d.organizationId).Some?
          && (d.approve ==> d.approver != s.actions[d.id].requestedBy))
  }

  lemma StepKeepsInv(s: State, e: Event)
    requires Inv(s) && Enabled(s, e)
    ensures Inv(Apply(s, e))
  {}

  /** In every interleaving an approved row was decided by somebody other than its requestor. */
  lemma {:induction false} SeparationOfDuties(states: seq<State>, events: seq<Event>, i: nat)
    requires Run(states, events) && i < |states|
    ensures Inv(states[i])
    ensures forall r :: r in states[i].actions && r.status == Approved ==>
              r.decidedBy.Some? && r.decidedBy.value != r.requestedBy
  {
    if i > 0 {
      SeparationOfDuties(states, events, i - 1);
      StepKeepsInv(states[i - 1], events[i - 1]);
    }
  }

  ghost predicate RowsEvolve(s: State, s': State) {
    && |s.actions| <= |s'.actions|
    && forall i :: 0 <= i < |s.actions| ==>
         var before, after := s.actions[i], s'.actions[i];
         && (before.status != Pending ==> after.status != Pending)
         && after.organizationId == before.organizationId && after.documentId == before.documentId
         && after.action == before.action && after.reason == before.reason && after.requestedBy == before.requestedBy
  }

  lemma StepEvolves(s: State, e: Event)
    requires Enabled(s, e)
    ensures RowsEvolve(s, Apply(s, e))
  {}

  /** Requests are never lost or rewritten, and no decision is ever undone back to pending. */
  lemma {:induction false} RowsOnlyAdvance(states: seq<State>, events: seq<Event>, i: nat, j: nat)
    requires Run(states, events) && i <= j < |states|
    ensures RowsEvolve(states[i], states[j])
    decreases j
  {
    if i < j {
      RowsOnlyAdvance(states, events, i, j - 1);
      StepEvolves(states[j - 1], events[j - 1]);
    }
  }

  // ----- Exactly when decided rows never change -----

  ghost predicate DecidedFrozen(s: State, s': State) {
    && |s.actions| <= |s'.actions|
    && forall i :: 0 <= i < |s.actions| && s.actions[i].status != Pending ==> s'.actions[i] == s.actions[i]
  }

  /** Call c, under way at state i, has been since event v, which wrote another decision on its row. */
  ghost predicate Overtaken(states: seq<State>, events: seq<Event>, c: Call, v: int, i: int) {
    && 0 <= v < i < |states| == |events| + 1
    && events[v].Write? && events[v].call != c && events[v].call in states[v].deciding
    && (forall k :: v <= k <= i ==> c in states[k].deciding)
    && states[v].deciding[events[v].call].id == states[i].deciding[c].id
  }

  /** No decision is written between the read and the write of another decision on the same row. */
  ghost predicate NeverOvertaken(states: seq<State>, events: seq<Event>) {
    forall v, w :: 0 <= w < |events| && events[w].Write? ==> !Overtaken(states, events, events[w].call, v, w)
  }

  ghost predicate TargetPending(s: State, c: Call)
    requires c in s.deciding
  {
    var d := s.deciding[c];
    Lookup(s.actions, d.id, d.organizationId).Some? && s.actions[d.id].status == Pending
  }

  /** A call under way that nobody has overtaken still finds its row pending. */
  lemma {:induction false} PendingOrOvertaken(states: seq<State>, events: seq<Event>, c: Call, i: nat)
    requires Run(states, events) && i < |states| && c in states[i].deciding
    ensures TargetPending(states[i], c) || exists v :: Overtaken(states, events, c, v, i)
  {
    assert i > 0;
    var h := i - 1;
    var s, e := states[h], events[h];
    if c in s.deciding {
      PendingOrOvertaken(states, events, c, h);
      if v :| Overtaken(states, events, c, v, h) {
        assert Overtaken(states, events, c, v, i);
      } else if e.Write? && s.deciding[e.call].id == s.deciding[c].id {
        assert Overtaken(states, events, c, h, i);
      }
    }
  }

  lemma StepFreezes(s: State, e: Event)
    requires Enabled(s, e) && (e.Write? ==> TargetPending(s, e.call))
    ensures DecidedFrozen(s, Apply(s, e))
  {}

  /** Unless a decision is overtaken, a decided row never changes again. */
  lemma {:induction false} DecidedRowsFrozen(states: seq<State>, events: seq<Event>, i: nat, j: nat)
    requires Run(states, events) && i <= j < |states| && NeverOvertaken(states, events)
    ensures DecidedFrozen(states[i], states[j])
    decreases j
  {
    if i < j {
      DecidedRowsFrozen(states, events, i, j - 1);
      if events[j - 1].Write? {
        PendingOrOvertaken(states, events, events[j - 1].call, j - 1);
      }
      StepFreezes(states[j - 1], events[j - 1]);
    }
  }

  ghost predicate AlwaysFrozen(states: seq<State>) {
    forall i, j :: 0 <= i <= j < |states| ==> DecidedFrozen(states[i], states[j])
  }

  /** Later writes carry later times. */
  ghost predicate WritesAdvance(events: seq<Event>) {
    forall v, w :: 0 <= v < w < |events| && events[v].Write? && events[w].Write? ==> events[v].now < events[w].now
  }

  lemma WriteDecides(s: State, c: Call, now: int)
    requires Inv(s) && c in s.deciding
    ensures var id := s.deciding[c].id;
            && id < |s.actions|
            && Apply(s, Write(c, now)).actions[id].status != Pending
            && Apply(s, Write(c, now)).actions[id].decidedAt == Some(now)
  {}

  lemma OvertakingThaws(states: seq<State>, events: seq<Event>, v: int, w: int)
    requires Run(states, events) && WritesAdvance(events)
    requires 0 <= w < |events| && events[w].Write? && Overtaken(states, events, events[w].call, v, w)
    ensures !AlwaysFrozen(states)
  {
    SeparationOfDuties(states, events, v);
    SeparationOfDuties(states, events, w);
    WriteDecides(states[v], events[v].call, events[v].now);
    WriteDecides(states[w], events[w].call, events[w].now);
    var id := states[w].deciding[events[w].call].id;
    assert states[v + 1].actions[id].decidedAt == Some(events[v].now);
    assert states[w + 1].actions[id].decidedAt == Some(events[w].now);
    assert !DecidedFrozen(states[v + 1], states[w + 1]);
  }

  /**
   In a run whose clock advances between writes, decided rows never change exactly when no decision is
   written between the read and the write of another on the same row.
   */
  lemma FrozenExactly(states: seq<State>, events: seq<Event>)
    requires Run(states, events) && WritesAdvance(events)
    ensures AlwaysFrozen(states) <==> NeverOvertaken(states, events)
  {
    if NeverOvertaken(states, events) {
      forall i, j | 0 <= i <= j < |states|
        ensures DecidedFrozen(states[i], states[j])
      {
        DecidedRowsFrozen(states, events, i, j);
      }
    } else {
      var v, w :| 0 <= w < |events| && events[w].Write? && Overtaken(states, events, events[w].call, v, w);
      OvertakingThaws(states, events, v, w);
    }
  }

  /** From the start: an approval is overwritten by a denial that had read the row before. */
  lemma ApprovalOverwritten(org: string, requestor: string, approver: string, denier: string)
    returns (states: seq<State>, events: seq<Event>)
    requires requestor != approver
    ensures Run(states, events) && |events| == 5
    ensures |states[4].actions| == |states[5].actions| == 1
    ensures states[4].actions[0].status == Approved && states[5].actions[0].status == Denied
  {
    events := [Raise(org, "d", "destroy", "expired", requestor), Read(0, Decision(0, org, true, approver)),
               Read(1, Decision(0, org, false, denier)), Write(0, 1), Write(1, 2)];
    var s1 := Apply(INIT, events[0]);
    var s2 := Apply(s1, events[1]);
    var s3 := Apply(s2, events[2]);
    var s4 := Apply(s3, events[3]);
    var s5 := Apply(s4, events[4]);
    states := [INIT, s1, s2, s3, s4, s5];
  }
}
