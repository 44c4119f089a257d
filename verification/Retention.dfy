/** Retention: the expiry policy, destruction requests with two-person approval, and the sweep. */
module Retention {
  import opened Outcomes
  import opened Sequences
  import opened Text

  datatype Document = Document(id: string, organizationId: string, state: string, expiresAt: Option<int>)

  datatype Verdict = Keep | FlagExpired | EligibleForDestruction

  /** The policy over state, expiry and policy end. */
  function Evaluate(state: string, expiresAt: Option<int>, policyEndsAt: Option<int>, now: int): Verdict {
    if policyEndsAt.Some? && policyEndsAt.value <= now then EligibleForDestruction
    else if expiresAt.Some? && expiresAt.value <= now && state != "archived" then FlagExpired
    else Keep
  }

  /** The sweep passes the expiry for the policy end too. */
  function EvaluateDocument(doc: Document, now: int): Verdict {
    Evaluate(doc.state, doc.expiresAt, doc.expiresAt, now)
  }

  datatype ActionStatus = Pending | Approved | Denied

  /** A row's id is its place in the table: rows are only ever appended. */
  type Id = nat

  datatype Action = Action(
    organizationId: string, documentId: string, action: string, reason: string, requestedBy: string,
    status: ActionStatus, decidedBy: Option<string>, decidedAt: Option<int>)

  /** Written "retention.<action>.requested", "retention.approved" and "retention.denied". */
  datatype AuditAction = Requested(action: string) | ApprovalGiven | DenialGiven

  datatype AuditEntry = AuditEntry(action: AuditAction, entity: Id, userId: string, organizationId: string)

  datatype Error = ReasonRequired | NotFound | NotPending(got: ActionStatus) | SameAsRequestor

  function Lookup(actions: seq<Action>, id: Id, org: string): Option<Action> {
    if id < |actions| && actions[id].organizationId == org then Some(actions[id]) else None
  }

  function NewRequest(org: string, documentId: string, action: string, reason: string, requestedBy: string): Action {
    Action(org, documentId, action, reason, requestedBy, Pending, None, None)
  }

  function Decided(row: Action, approve: bool, approver: string, now: int): Action {
    row.(status := if approve then Approved else Denied, decidedBy := Some(approver), decidedAt := Some(now))
  }

  /** What a decision is checked for before it is written. */
  function DecisionError(actions: seq<Action>, id: Id, org: string, approve: bool, approver: string): Option<Error> {
    var row := Lookup(actions, id, org);
    if row.None? then Some(NotFound)
    else if row.value.status != Pending then Some(NotPending(row.value.status))
    else if approve && row.value.requestedBy == approver then Some(SameAsRequestor)
    else None
  }

  ghost predicate InFlight(actions: seq<Action>, documentId: string, org: string) {
    exists r :: r in actions && r.documentId == documentId && r.organizationId == org && r.status != Denied
  }

  ghost predicate IsOverdue(d: Document, actions: seq<Action>, org: string, now: int) {
    && d.organizationId == org
    && EvaluateDocument(d, now) == EligibleForDestruction
    && !InFlight(actions, d.id, org)
  }

  /** What the sweep must raise a request for, in document order. */
  ghost function Overdue(docs: seq<Document>, actions: seq<Action>, org: string, now: int): seq<Document> {
    Filter(docs, d => IsOverdue(d, actions, org, now))
  }

  const SWEEP_REASON := "auto-sweep: retention policy elapsed"

  // ----- Helpers of the sweep -----

  /** The audit log after an entry for each of n requests raised from the given id on. */
  ghost function SweptAudit(audit: seq<AuditEntry>, first: Id, n: nat, org: string, triggeredBy: string)
    : seq<AuditEntry>
  {
    if n == 0 then audit
    else SweptAudit(audit, first, n - 1, org, triggeredBy)
         + [AuditEntry(Requested("destroy"), first + n - 1, triggeredBy, org)]
  }

  ghost function Requests(docs: seq<Document>, org: string, triggeredBy: string): seq<Action> {
    Map(docs, (d: Document) => NewRequest(org, d.id, "destroy", SWEEP_REASON, triggeredBy))
  }

  /** The table as the loop grows it. */
  ghost function WithRequests(actions: seq<Action>, docs: seq<Document>, org: string, triggeredBy: string)
    : seq<Action>
  {
    if docs == [] then actions
    else WithRequests(actions, docs[..|docs| - 1], org, triggeredBy)
         + [NewRequest(org, docs[|docs| - 1].id, "destroy", SWEEP_REASON, triggeredBy)]
  }

  lemma {:induction false} WithRequestsAppends(actions: seq<Action>, docs: seq<Document>, org: string,
                                               triggeredBy: string)
    ensures WithRequests(actions, docs, org, triggeredBy) == actions + Requests(docs, org, triggeredBy)
    decreases |docs|
  {
    if docs != [] {
      WithRequestsAppends(actions, docs[..|docs| - 1], org, triggeredBy);
    }
  }

  lemma WithOneMore(actions: seq<Action>, docs: seq<Document>, doc: Document, org: string, triggeredBy: string)
    ensures WithRequests(actions, docs + [doc], org, triggeredBy)
         == WithRequests(actions, docs, org, triggeredBy)
            + [NewRequest(org, doc.id, "destroy", SWEEP_REASON, triggeredBy)]
    ensures |WithRequests(actions, docs, org, triggeredBy)| == |actions| + |docs|
  {
    WithRequestsAppends(actions, docs, org, triggeredBy);
    assert (docs + [doc])[..|docs|] == docs;
  }

  lemma SweepReasonStands()
    ensures Trim(SWEEP_REASON, IsJsSpace) == SWEEP_REASON && !IsBlank(SWEEP_REASON, IsJsSpace)
  {
    assert !IsJsSpace(SWEEP_REASON[0]) && !IsJsSpace(SWEEP_REASON[|SWEEP_REASON| - 1]);
    assert SWEEP_REASON[0] in SWEEP_REASON;
  }

  ghost predicate DistinctIds(docs: seq<Document>) {
    forall i, j :: 0 <= i < j < |docs| ==> docs[i].id != docs[j].id
  }

  lemma {:induction false} OrganizationDocuments(documents: seq<Document>, org: string)
    requires DistinctIds(documents)
    ensures var docs := Filter(documents, (d: Document) => d.organizationId == org);
            DistinctIds(docs) && forall d :: d in docs <==> d in documents && d.organizationId == org
  {
    if documents != [] {
      OrganizationDocuments(documents[1..], org);
      assert documents == [documents[0]] + documents[1..];
    }
  }

  lemma {:induction false} OverdueOfOrganization(documents: seq<Document>, actions: seq<Action>, org: string, now: int)
    ensures Overdue(Filter(documents, (d: Document) => d.organizationId == org), actions, org, now)
         == Overdue(documents, actions, org, now)
  {
    if documents != [] {
      OverdueOfOrganization(documents[1..], actions, org, now);
      var docs := Filter(documents[1..], (d: Document) => d.organizationId == org);
      assert ([documents[0]] + docs)[1..] == docs;
      assert [] + docs == docs;
    }
  }

  lemma OverdueStep(docs: seq<Document>, i: nat, actions: seq<Action>, org: string, now: int)
    requires i < |docs|
    ensures Overdue(docs[..i + 1], actions, org, now)
         == Overdue(docs[..i], actions, org, now) + (if IsOverdue(docs[i], actions, org, now) then [docs[i]] else [])
  {
    FilterSnoc(docs, i, d => IsOverdue(d, actions, org, now));
  }

  /** Requests raised for earlier documents do not hide a later one. */
  lemma SameInFlight(docs: seq<Document>, i: nat, was: seq<Action>, raised: seq<Document>, org: string, now: int,
                     triggeredBy: string)
    requires DistinctIds(docs) && i < |docs| && raised == Overdue(docs[..i], was, org, now)
    ensures InFlight(was + Requests(raised, org, triggeredBy), docs[i].id, org) <==> InFlight(was, docs[i].id, org)
  {
    var rows := was + Requests(raised, org, triggeredBy);
    FilterMembers(docs[..i], d => IsOverdue(d, was, org, now));
    forall r | r in Requests(raised, org, triggeredBy)
      ensures r.documentId != docs[i].id
    {
      var k :| 0 <= k < |raised| && r == Requests(raised, org, triggeredBy)[k];
      assert raised[k] in docs[..i];
    }
  }

  lemma SweepStep(docs: seq<Document>, i: nat, was: seq<Action>, raised: seq<Document>, org: string, now: int,
                  triggeredBy: string)
    requires DistinctIds(docs) && i < |docs| && raised == Overdue(docs[..i], was, org, now)
    ensures IsOverdue(docs[i], WithRequests(was, raised, org, triggeredBy), org, now)
       <==> IsOverdue(docs[i], was, org, now)
    ensures Overdue(docs[..i + 1], was, org, now)
         == if IsOverdue(docs[i], was, org, now) then raised + [docs[i]] else raised
  {
    OverdueStep(docs, i, was, org, now);
    SameInFlight(docs, i, was, raised, org, now, triggeredBy);
    WithRequestsAppends(was, raised, org, triggeredBy);
  }

  lemma FindInFlight(actions: seq<Action>, documentId: string, org: string)
    ensures Find(Filter(actions, (r: Action) => r.documentId == documentId && r.organizationId == org),
                 (r: Action) => r.status == Pending || r.status == Approved).Some?
            <==> InFlight(actions, documentId, org)
  {
    FilterMembers(actions, (r: Action) => r.documentId == documentId && r.organizationId == org);
  }

  // ----- The service -----

  class RetentionActionService {
    const documents: seq<Document>
    var actions: seq<Action>
    var audit: seq<AuditEntry>

    /** Document ids are the keys of the document table. */
    ghost predicate Valid() {
      DistinctIds(documents)
    }

    constructor (documents: seq<Document>)
      ensures this.documents == documents && actions == [] && audit == []
    {
      this.documents := documents;
      actions, audit := [], [];
    }

    method Request(org: string, documentId: string, action: string, reason: string, requestedBy: string)
      returns (id: Result<Id, Error>)
      modifies this
      ensures var known := exists d :: d in documents && d.id == documentId && d.organizationId == org;
              if IsBlank(reason, IsJsSpace) then id == Err(ReasonRequired)
              else if !known then id == Err(NotFound)
              else id == Ok(|old(actions)|)
      ensures if id.Err? then actions == old(actions) && audit == old(audit)
              else && actions == old(actions) + [Action(org, documentId, action, Trim(reason, IsJsSpace), requestedBy,
                                                        Pending, None, None)]
                   && audit == old(audit) + [AuditEntry(Requested(action), id.value, requestedBy, org)]
    {
      TrimBlank(reason, IsJsSpace);
      if Trim(reason, IsJsSpace) == "" {
        return Err(ReasonRequired);
      }
      var doc := Find(documents, (d: Document) => d.id == documentId && d.organizationId == org);
      if doc.None? {
        return Err(NotFound);
      }
      id := Ok(|actions|);
      actions := actions + [NewRequest(org, documentId, action, Trim(reason, IsJsSpace), requestedBy)];
      audit := audit + [AuditEntry(Requested(action), id.value, requestedBy, org)];
    }

    method Decide(id: Id, org: string, approve: bool, approver: string, now: int) returns (error: Option<Error>)
      modifies this
      ensures error == DecisionError(old(actions), id, org, approve, approver)
      ensures error == Some(NotFound) <==> !(id < |old(actions)| && old(actions)[id].organizationId == org)
      ensures error != Some(NotFound) ==>
        var row := old(actions)[id];
        && (error.None? <==> row.status == Pending && !(approve && row.requestedBy == approver))
        && (row.status != Pending <==> error == Some(NotPending(row.status)))
      ensures if error.Some? then actions == old(actions) && audit == old(audit)
              else && actions == old(actions)[id := old(actions)[id].(
                        status := if approve then Approved else Denied, decidedBy := Some(approver),
                        decidedAt := Some(now))]
                   && audit
                      == old(audit) + [AuditEntry(if approve then ApprovalGiven else DenialGiven, id, approver, org)]
    {
      var row := Lookup(actions, id, org);
      if row.None? {
        return Some(NotFound);
      }
      if row.value.status != Pending {
        return Some(NotPending(row.value.status));
      }
      if approve && row.value.requestedBy == approver {
        return Some(SameAsRequestor);
      }
      actions := actions[id := Decided(actions[id], approve, approver, now)];
      audit := audit + [AuditEntry(if approve then ApprovalGiven else DenialGiven, id, approver, org)];
      return None;
    }

    /** The body of the sweep's loop, for a document it has just listed. */
    method SweepOne(doc: Document, triggeredBy: string, now: int) returns (raised: bool)
      requires doc in documents
      modifies this
      ensures raised <==> IsOverdue(doc, old(actions), doc.organizationId, now)
      ensures var org := doc.organizationId;
              if !raised then actions == old(actions) && audit == old(audit)
              else && actions == old(actions) + [NewRequest(org, doc.id, "destroy", SWEEP_REASON, triggeredBy)]
                   && audit == old(audit) + [AuditEntry(Requested("destroy"), |old(actions)|, triggeredBy, org)]
    {
      if EvaluateDocument(doc, now) != EligibleForDestruction {
        return false;
      }
      var org := doc.organizationId;
      var existing := Filter(actions, (r: Action) => r.documentId == doc.id && r.organizationId == org);
      var inFlight := Find(existing, (r: Action) => r.status == Pending || r.status == Approved);
      FindInFlight(actions, doc.id, org);
      if inFlight.Some? {
        return false;
      }
      SweepReasonStands();
      var _ := Request(org, doc.id, "destroy", SWEEP_REASON, triggeredBy);
      return true;
    }

    method SweepAll(docs: seq<Document>, org: string, triggeredBy: string, now: int) returns (created: nat)
      requires DistinctIds(docs) && forall d :: d in docs ==> d in documents && d.organizationId == org
      modifies this
      ensures created == |Overdue(docs, old(actions), org, now)|
      ensures actions == WithRequests(old(actions), Overdue(docs, old(actions), org, now), org, triggeredBy)
      ensures audit == SweptAudit(old(audit), |old(actions)|, created, org, triggeredBy)
    {
      created := 0;
      ghost var raised: seq<Document> := [];
      for i := 0 to |docs|
        invariant raised == Overdue(docs[..i], old(actions), org, now)
        invariant created == |raised|
        invariant actions == WithRequests(old(actions), raised, org, triggeredBy)
        invariant audit == SweptAudit(old(audit), |old(actions)|, created, org, triggeredBy)
      {
        SweepStep(docs, i, old(actions), raised, org, now, triggeredBy);
        WithOneMore(old(actions), raised, docs[i], org, triggeredBy);
        var isNew := SweepOne(docs[i], triggeredBy, now);
        if isNew {
          created := created + 1;
          raised := raised + [docs[i]];
        }
      }
      assert docs[..|docs|] == docs;
    }

    /** Raises exactly one destroy request for each overdue document of the organisation, and nothing else. */
    method Sweep(org: string, triggeredBy: string, now: int) returns (docsScanned: nat, created: nat)
      requires Valid()
      modifies this
      ensures var overdue := Overdue(documents, old(actions), org, now);
              && created == |overdue|
              && actions == old(actions) + Requests(overdue, org, triggeredBy)
      ensures audit == SweptAudit(old(audit), |old(actions)|, created, org, triggeredBy)
      ensures docsScanned == |Filter(documents, (d: Document) => d.organizationId == org)|
    {
      var docs := Filter(documents, (d: Document) => d.organizationId == org);
      docsScanned := |docs|;
      OrganizationDocuments(documents, org);
      OverdueOfOrganization(documents, actions, org, now);
      WithRequestsAppends(actions, Overdue(docs, actions, org, now), org, triggeredBy);
      created := SweepAll(docs, org, triggeredBy, now);
    }
  }

  // ----- What is swept -----

  /** A document is swept exactly when it is the organisation's, has expired, and every request for it was denied. */
  lemma OverdueMeaning(docs: seq<Document>, actions: seq<Action>, org: string, now: int)
    ensures forall d :: d in Overdue(docs, actions, org, now) <==>
      && d in docs && d.organizationId == org && d.expiresAt.Some? && d.expiresAt.value <= now
      && forall r :: r in actions && r.documentId == d.id && r.organizationId == org ==> r.status == Denied
  {
    FilterMembers(docs, d => IsOverdue(d, actions, org, now));
  }

  /** The k-th request a sweep adds is a pending one to destroy the k-th document. */
  lemma RequestsMeaning(docs: seq<Document>, org: string, triggeredBy: string)
    ensures |Requests(docs, org, triggeredBy)| == |docs|
    ensures forall k :: 0 <= k < |docs| ==>
      Requests(docs, org, triggeredBy)[k]
      == Action(org, docs[k].id, "destroy", "auto-sweep: retention policy elapsed", triggeredBy, Pending, None, None)
  {}

  lemma {:induction false} SweptAuditMeaning(audit: seq<AuditEntry>, first: Id, n: nat, org: string,
                                             triggeredBy: string)
    ensures var swept := SweptAudit(audit, first, n, org, triggeredBy);
            && |swept| == |audit| + n && (forall k :: 0 <= k < |audit| ==> swept[k] == audit[k])
            && forall k :: |audit| <= k < |swept| ==>
                 swept[k] == AuditEntry(Requested("destroy"), first + (k - |audit|), triggeredBy, org)
  {
    if n > 0 {
      SweptAuditMeaning(audit, first, n - 1, org, triggeredBy);
    }
  }

  // ----- Sweeping again -----

  /** A sweep leaves nothing overdue, and a later one finds only documents that have come due since. */
  lemma SweepAgain(docs: seq<Document>, actions: seq<Action>, org: string, triggeredBy: string, now: int, later: int)
    requires now <= later
    ensures var swept := actions + Requests(Overdue(docs, actions, org, now), org, triggeredBy);
            && Overdue(docs, swept, org, now) == []
            && (forall d :: d in Overdue(docs, swept, org, later) ==>
                  EvaluateDocument(d, now) != EligibleForDestruction && !InFlight(actions, d.id, org))
            && (forall d :: d in docs && d.organizationId == org && EvaluateDocument(d, now) == EligibleForDestruction
                  ==> InFlight(swept, d.id, org))
  {
    var overdue := Overdue(docs, actions, org, now);
    var swept := actions + Requests(overdue, org, triggeredBy);
    FilterMembers(docs, d => IsOverdue(d, actions, org, now));
    FilterMembers(docs, d => IsOverdue(d, swept, org, now));
    FilterMembers(docs, d => IsOverdue(d, swept, org, later));
    forall d | d in docs && d.organizationId == org && EvaluateDocument(d, now) == EligibleForDestruction
      ensures InFlight(swept, d.id, org)
    {
      if InFlight(actions, d.id, org) {
        var r :| r in actions && r.documentId == d.id && r.organizationId == org && r.status != Denied;
        assert r in swept;
      } else {
        var k :| 0 <= k < |overdue| && overdue[k] == d;
        assert swept[|actions| + k] == Requests(overdue, org, triggeredBy)[k];
      }
    }
    FilterNone(docs, d => IsOverdue(d, swept, org, now));
  }

  /** Policy end before expiry; an archived document is not flagged. */
  lemma EvaluateMeaning(state: string, expiresAt: Option<int>, policyEndsAt: Option<int>, now: int)
    ensures var v := Evaluate(state, expiresAt, policyEndsAt, now);
            var elapsed := policyEndsAt.Some? && policyEndsAt.value <= now;
            var expired := expiresAt.Some? && expiresAt.value <= now;
            && (v == EligibleForDestruction <==> elapsed)
            && (v == FlagExpired <==> !elapsed && expired && state != "archived")
  {}

  /** Passing the expiry for the policy end, the sweep never sees a document that is merely to be flagged. */
  lemma SweepNeverFlags(doc: Document, now: int)
    ensures EvaluateDocument(doc, now) != FlagExpired
    ensures EvaluateDocument(doc, now) == EligibleForDestruction <==> doc.expiresAt.Some? && doc.expiresAt.value <= now
  {}
}
