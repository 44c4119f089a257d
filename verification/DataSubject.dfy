/** Data-subject requests: their lifecycle, and what executing an erasure does to every table. */
module DataSubject {
  import opened Outcomes
  import opened Sequences
  import C = Consent

  type Id = nat

  datatype User = User(
    id: string, email: string, name: string, role: string, password: Option<string>, organizationId: string)

  datatype RequestType = Access | Erasure | Rectification

  /** Written "data_subject.<kind>.requested", ".approved", ".denied" and ".executed"; others write their own. */
  datatype AuditAction =
    | Requested(kind: RequestType) | ApprovalGiven(kind: RequestType) | DenialGiven(kind: RequestType)
    | Carried(kind: RequestType) | OtherAction(text: string)

  /** `mentionedEmail` is the subject's address where the details of an entry repeat it. */
  datatype AuditEvent = AuditEvent(
    action: AuditAction, entityId: Id, userId: Option<string>, organizationId: string, mentionedEmail: Option<string>)

  datatype RequestStatus = Pending | Approved | Denied | Completed

  datatype ErasureCounts = ErasureCounts(auditAnonymised: nat, consentAnonymised: nat, userAnonymised: bool)

  /** What a snapshot shows of a user. */
  datatype Profile = Profile(id: string, email: string, name: string, role: string, organizationId: string)

  datatype Snapshot = Snapshot(
    subjectEmail: string, user: Option<Profile>, auditEvents: seq<AuditEvent>, consentEvents: seq<C.ConsentEvent>,
    previousRequests: seq<Request>)

  datatype Payload = SnapshotPayload(snapshot: Snapshot) | ErasurePayload(counts: ErasureCounts)

  /** A request's id is its place in the table: requests are only ever appended. */
  datatype Request = Request(
    organizationId: string, kind: RequestType, subjectEmail: string, status: RequestStatus,
    requestedBy: Option<string>, decidedBy: Option<string>, decidedAt: Option<int>, completedAt: Option<int>,
    notes: Option<string>, payload: Option<Payload>)

  datatype Error =
    | EmailRequired | NotFound | NotPending(got: RequestStatus) | NotApproved(was: RequestStatus)
    | SameAsRequestor | UserOutsideOrganisation

  /** The four tables, rows in insertion order. */
  datatype Store = Store(
    users: seq<User>, audit: seq<AuditEvent>, consents: seq<C.ConsentEvent>, requests: seq<Request>)

  // ----- Lookups and single-table effects -----

  function FindByEmail(users: seq<User>, email: string): Option<User> {
    Find(users, (u: User) => u.email == email)
  }

  /** Place of the user with the id, as a map lookup finds it. */
  function Position(users: seq<User>, id: string): (i: Option<nat>)
    ensures i.None? <==> forall u :: u in users ==> u.id != id
    ensures i.Some? ==> i.value < |users| && users[i.value].id == id
  {
    if users == [] then None
    else if users[|users| - 1].id == id then Some(|users| - 1)
    else Position(users[..|users| - 1], id)
  }

  function ErasedUser(u: User, pseudonym: string): User {
    u.(email := pseudonym, name := "[erased]", password := None)
  }

  predicate ByUser(e: AuditEvent, userId: string, org: string) {
    e.userId == Some(userId) && e.organizationId == org
  }

  function Detached(e: AuditEvent, userId: string, org: string): AuditEvent {
    if ByUser(e, userId, org) then e.(userId := None) else e
  }

  function DetachedAll(audit: seq<AuditEvent>, userId: string, org: string): (r: seq<AuditEvent>)
    ensures |r| == |audit|
  {
    Map(audit, e => Detached(e, userId, org))
  }

  function Lookup(requests: seq<Request>, id: Id, org: string): Option<Request> {
    if id < |requests| && requests[id].organizationId == org then Some(requests[id]) else None
  }

  predicate IsIn(requests: seq<Request>, id: Id, org: string) {
    id < |requests| && requests[id].organizationId == org
  }

  /** A request without a requestor has nobody to be kept apart from. */
  predicate IsRequestor(r: Request, who: string) {
    r.requestedBy.Some? && r.requestedBy.value != "" && r.requestedBy.value == who
  }

  // ----- Operations on the whole store -----

  function NewRequest(org: string, kind: RequestType, email: string, requestedBy: Option<string>, notes: Option<string>)
    : Request
  {
    Request(org, kind, email, Pending, requestedBy, None, None, None, notes, None)
  }

  function Created(s: Store, org: string, kind: RequestType, email: string, requestedBy: Option<string>,
                   notes: Option<string>): Store
  {
    s.(requests := s.requests + [NewRequest(org, kind, email, requestedBy, notes)],
       audit := s.audit + [AuditEvent(Requested(kind), |s.requests|, requestedBy, org, Some(email))])
  }

  function DecisionError(s: Store, id: Id, org: string, approve: bool, decidedBy: string): Option<Error> {
    var r := Lookup(s.requests, id, org);
    if r.None? then Some(NotFound)
    else if r.value.status != Pending then Some(NotPending(r.value.status))
    else if approve && IsRequestor(r.value, decidedBy) then Some(SameAsRequestor)
    else None
  }

  /** The row after a decision; only a denial can carry notes. */
  function DecidedRow(r: Request, approve: bool, decidedBy: string, notes: Option<string>, now: int): Request {
    r.(status := if approve then Approved else Denied, decidedBy := Some(decidedBy), decidedAt := Some(now),
       notes := if !approve && notes.Some? then notes else r.notes)
  }

  function DecisionEntry(r: Request, id: Id, approve: bool, decidedBy: string): AuditEvent {
    AuditEvent(if approve then ApprovalGiven(r.kind) else DenialGiven(r.kind), id, Some(decidedBy), r.organizationId,
               Some(r.subjectEmail))
  }

  function Decided(s: Store, id: Id, approve: bool, decidedBy: string, notes: Option<string>, now: int): Store
    requires id < |s.requests|
  {
    s.(requests := s.requests[id := DecidedRow(s.requests[id], approve, decidedBy, notes, now)],
       audit := s.audit + [DecisionEntry(s.requests[id], id, approve, decidedBy)])
  }

  /**
   The erasure proper. The audit rows are detached before the user row is rewritten, and rewriting
   fails for a user of another organisation: then the detached rows stay detached.
   */
  function ErasedTables(s: Store, email: string, org: string, pseudonym: string): (Store, Option<ErasureCounts>) {
    var user := FindByEmail(s.users, email);
    var detached := if user.Some? then s.(audit := DetachedAll(s.audit, user.value.id, org)) else s;
    var at := if user.Some? then Position(s.users, user.value.id) else None;
    if user.Some? && (at.None? || s.users[at.value].organizationId != org) then (detached, None)
    else
      (detached.(users := if at.Some? then s.users[at.value := ErasedUser(s.users[at.value], pseudonym)] else s.users,
                 consents := C.AnonymisedAll(s.consents, email, org, pseudonym)),
       Some(ErasureCounts(
         if user.Some? then |Filter(s.audit, (e: AuditEvent) => ByUser(e, user.value.id, org))| else 0,
         |Filter(s.consents, (e: C.ConsentEvent) => C.ForSubject(e, email, org))|,
         user.Some?)))
  }

  function ProfileOf(u: User): Profile {
    Profile(u.id, u.email, u.name, u.role, u.organizationId)
  }

  function TakeSnapshot(s: Store, email: string, org: string): Snapshot {
    var user := FindByEmail(s.users, email);
    Snapshot(email, if user.Some? then Some(ProfileOf(user.value)) else None,
             if user.Some? then Filter(s.audit, (e: AuditEvent) => ByUser(e, user.value.id, org)) else [],
             Filter(s.consents, (e: C.ConsentEvent) => C.ForSubject(e, email, org)),
             Filter(s.requests, (r: Request) => r.subjectEmail == email && r.organizationId == org))
  }

  function ExecutionError(s: Store, id: Id, org: string, decidedBy: string): Option<Error> {
    var r := Lookup(s.requests, id, org);
    if r.None? then Some(NotFound)
    else if r.value.status != Approved then Some(NotApproved(r.value.status))
    else if IsRequestor(r.value, decidedBy) then Some(SameAsRequestor)
    else None
  }

  function FinishedRow(r: Request, payload: Option<Payload>, now: int): Request {
    r.(status := Completed, completedAt := Some(now), payload := if payload.Some? then payload else r.payload)
  }

  function ExecutionEntry(r: Request, id: Id, decidedBy: string): AuditEvent {
    AuditEvent(Carried(r.kind), id, Some(decidedBy), r.organizationId,
               if r.kind == Erasure then None else Some(r.subjectEmail))
  }

  /** Marks the request completed and writes the one audit row of an execution. */
  function Finished(s: Store, id: Id, decidedBy: string, payload: Option<Payload>, now: int): Store
    requires id < |s.requests|
  {
    s.(requests := s.requests[id := FinishedRow(s.requests[id], payload, now)],
       audit := s.audit + [ExecutionEntry(s.requests[id], id, decidedBy)])
  }

  function Executed(s: Store, id: Id, org: string, decidedBy: string, pseudonym: string, now: int)
    : (Store, Option<Error>)
  {
    var error := ExecutionError(s, id, org, decidedBy);
    if error.Some? then (s, error)
    else
      var email := s.requests[id].subjectEmail;
      match s.requests[id].kind
      case Access => (Finished(s, id, decidedBy, Some(SnapshotPayload(TakeSnapshot(s, email, org))), now), None)
      case Erasure =>
        var (erased, counts) := ErasedTables(s, email, org, pseudonym);
        if counts.None? then (erased, Some(UserOutsideOrganisation))
        else (Finished(erased, id, decidedBy, Some(ErasurePayload(counts.value)), now), None)
      case Rectification => (Finished(s, id, decidedBy, None, now), None)
  }

  // ----- The repositories and the service -----

  class UserRepository {
    var records: seq<User>

    constructor (records: seq<User>)
      ensures this.records == records
    {
      this.records := records;
    }

    method Anonymise(id: string, org: string, pseudonym: string) returns (ok: bool)
      modifies this
      ensures var at := Position(old(records), id);
              && (ok <==> at.Some? && old(records)[at.value].organizationId == org)
              && records == if !ok then old(records)
                            else
                              var u := old(records)[at.value];
                              var erased := User(u.id, pseudonym, "[erased]", u.role, None, u.organizationId);
                              old(records)[at.value := erased]
    {
      var at := Position(records, id);
      if at.None? || records[at.value].organizationId != org {
        return false;
      }
      records := records[at.value := records[at.value].(email := pseudonym, name := "[erased]", password := None)];
      return true;
    }
  }

  class AuditEventRepository {
    var records: seq<AuditEvent>

    constructor ()
      ensures records == []
    {
      records := [];
    }

    method Create(e: AuditEvent)
      modifies this
      ensures records == old(records) + [e]
    {
      records := records + [e];
    }

    method AnonymiseUser(userId: string, org: string) returns (count: nat)
      modifies this
      ensures records == DetachedAll(old(records), userId, org)
      ensures |records| == |old(records)|
      ensures forall i :: 0 <= i < |records| ==>
        var e := old(records)[i];
        records[i] == if e.userId == Some(userId) && e.organizationId == org then e.(userId := None) else e
      ensures count == |Filter(old(records), (e: AuditEvent) => ByUser(e, userId, org))|
    {
      ghost var was := records;
      var byUser := (e: AuditEvent) => ByUser(e, userId, org);
      count := 0;
      for i := 0 to |records|
        invariant |records| == |was|
        invariant forall k :: 0 <= k < i ==> records[k] == Detached(was[k], userId, org)
        invariant forall k :: i <= k < |was| ==> records[k] == was[k]
        invariant count == |Filter(was[..i], byUser)|
      {
        FilterSnoc(was, i, byUser);
        if records[i].userId == Some(userId) && records[i].organizationId == org {
          records := records[i := records[i].(userId := None)];
          count := count + 1;
        }
      }
      assert was[..|was|] == was;
    }
  }

  class RequestRepository {
    var records: seq<Request>

    constructor ()
      ensures records == []
    {
      records := [];
    }
  }

  class DataSubjectService {
    const users: UserRepository
    const audit: AuditEventRepository
    const consents: C.ConsentEventRepository
    const requests: RequestRepository

    constructor (users: UserRepository, audit: AuditEventRepository, consents: C.ConsentEventRepository,
                 requests: RequestRepository)
      ensures this.users == users && this.audit == audit && this.consents == consents && this.requests == requests
    {
      this.users, this.audit, this.consents, this.requests := users, audit, consents, requests;
    }

    ghost function Model(): Store
      reads users, audit, consents, requests
    {
      Store(users.records, audit.records, consents.records, requests.records)
    }

    method CreateRequest(org: string, kind: RequestType, email: string, requestedBy: Option<string>,
                         notes: Option<string>)
      returns (id: Result<Id, Error>)
      modifies audit, requests
      ensures if '@' !in email then id == Err(EmailRequired) && Model() == old(Model())
              else && id == Ok(|old(requests.records)|)
                   && Model() == Created(old(Model()), org, kind, email, requestedBy, notes)
                   && requests.records == old(requests.records)
                        + [Request(org, kind, email, Pending, requestedBy, None, None, None, notes, None)]
                   && audit.records == old(audit.records)
                        + [AuditEvent(Requested(kind), id.value, requestedBy, org, Some(email))]
    {
      if email == "" || '@' !in email {
        return Err(EmailRequired);
      }
      id := Ok(|requests.records|);
      requests.records := requests.records + [NewRequest(org, kind, email, requestedBy, notes)];
      audit.Create(AuditEvent(Requested(kind), id.value, requestedBy, org, Some(email)));
    }

    method Decide(id: Id, org: string, approve: bool, decidedBy: string, notes: Option<string>, now: int)
      returns (error: Option<Error>)
      modifies audit, requests
      ensures error == DecisionError(old(Model()), id, org, approve, decidedBy)
      ensures Model() == if error.Some? then old(Model()) else Decided(old(Model()), id, approve, decidedBy, notes, now)
      ensures IsIn(old(requests.records), id, org) <==> error != Some(NotFound)
      ensures IsIn(old(requests.records), id, org) ==>
        var r := old(requests.records)[id];
        && (error.None? <==>
              r.status == Pending && !(approve && r.requestedBy == Some(decidedBy) && decidedBy != ""))
        && (r.status != Pending <==> error == Some(NotPending(r.status)))
        && (error.None? ==>
              && requests.records == old(requests.records)[id := r.(
                   status := if approve then Approved else Denied, decidedBy := Some(decidedBy), decidedAt := Some(now),
                   notes := if !approve && notes.Some? then notes else r.notes)]
              && audit.records == old(audit.records) + [AuditEvent(
                   if approve then ApprovalGiven(r.kind) else DenialGiven(r.kind), id, Some(decidedBy), org,
                   Some(r.subjectEmail))])
    {
      var r := Lookup(requests.records, id, org);
      if r.None? {
        return Some(NotFound);
      }
      if r.value.status != Pending {
        return Some(NotPending(r.value.status));
      }
      if approve && IsRequestor(r.value, decidedBy) {
        return Some(SameAsRequestor);
      }
      var row := DecidedRow(r.value, approve, decidedBy, notes, now);
      requests.records := requests.records[id := row];
      audit.Create(DecisionEntry(row, id, approve, decidedBy));
      return None;
    }

    method ExecuteErasure(email: string, org: string, pseudonym: string) returns (counts: Option<ErasureCounts>)
      modifies users, audit, consents
      ensures (Model(), counts) == ErasedTables(old(Model()), email, org, pseudonym)
    {
      var user := FindByEmail(users.records, email);
      var auditAnonymised := 0;
      if user.Some? {
        auditAnonymised := audit.AnonymiseUser(user.value.id, org);
        var ok := users.Anonymise(user.value.id, org, pseudonym);
        if !ok {
          return None;
        }
      }
      var consentAnonymised := consents.AnonymiseSubject(email, org, pseudonym);
      return Some(ErasureCounts(auditAnonymised, consentAnonymised, user.Some?));
    }

    method Execute(id: Id, org: string, decidedBy: string, pseudonym: string, now: int) returns (error: Option<Error>)
      modifies users, audit, consents, requests
      ensures (Model(), error) == Executed(old(Model()), id, org, decidedBy, pseudonym, now)
      ensures IsIn(old(requests.records), id, org) <==> error != Some(NotFound)
      ensures IsIn(old(requests.records), id, org) ==>
        var r := old(requests.records)[id];
        && (r.status != Approved <==> error == Some(NotApproved(r.status)))
        && (error == Some(SameAsRequestor) <==>
              r.status == Approved && r.requestedBy == Some(decidedBy) && decidedBy != "")
    {
      var r := Lookup(requests.records, id, org);
      if r.None? {
        return Some(NotFound);
      }
      if r.value.status != Approved {
        return Some(NotApproved(r.value.status));
      }
      if IsRequestor(r.value, decidedBy) {
        return Some(SameAsRequestor);
      }
      var payload := None;
      if r.value.kind == Access {
        payload := Some(SnapshotPayload(TakeSnapshot(
          Store(users.records, audit.records, consents.records, requests.records), r.value.subjectEmail, org)));
      } else if r.value.kind == Erasure {
        var counts := ExecuteErasure(r.value.subjectEmail, org, pseudonym);
        if counts.None? {
          return Some(UserOutsideOrganisation);
        }
        payload := Some(ErasurePayload(counts.value));
      }
      requests.records := requests.records[id := FinishedRow(r.value, payload, now)];
      audit.Create(ExecutionEntry(r.value, id, decidedBy));
      return None;
    }
  }

  // ----- What a successful erasure leaves behind -----

  ghost predicate DistinctUserIds(users: seq<User>) {
    forall i, j :: 0 <= i < j < |users| ==> users[i].id != users[j].id
  }

  /** Same rows but for those of the subject, which lose exactly their link to the subject. */
  ghost predicate AuditFrame(before: seq<AuditEvent>, after: seq<AuditEvent>, subject: Option<User>, org: string) {
    && |after| == |before| + 1
    && forall i :: 0 <= i < |before| ==>
         var e := before[i];
         after[i] == if subject.Some? && e.userId == Some(subject.value.id) && e.organizationId == org
                     then AuditEvent(e.action, e.entityId, None, e.organizationId, e.mentionedEmail)
                     else e
  }

  ghost predicate UserFrame(before: seq<User>, after: seq<User>, subject: Option<User>, pseudonym: string) {
    && |after| == |before|
    && forall i :: 0 <= i < |before| ==>
         var u := before[i];
         after[i] == if subject == Some(u) then User(u.id, pseudonym, "[erased]", u.role, None, u.organizationId) else u
  }

  /** The subject's rows get the pseudonym and lose the user id, with the rest kept; others are as before. */
  ghost predicate ConsentFrame(before: seq<C.ConsentEvent>, after: seq<C.ConsentEvent>, email: string, org: string,
                               pseudonym: string)
  {
    && |after| == |before|
    && forall i :: 0 <= i < |before| ==>
         var e := before[i];
         after[i] == if e.subjectEmail == email && e.organizationId == org
                     then C.ConsentEvent(org, pseudonym, None, e.purpose, e.state, e.source, e.recordedBy, e.recordedAt)
                     else e
  }

  ghost predicate OneHolder(users: seq<User>, email: string) {
    forall i, j :: 0 <= i < |users| && 0 <= j < |users| && users[i].email == email && users[j].email == email ==> i == j
  }

  lemma PositionOfUser(users: seq<User>, i: nat)
    requires DistinctUserIds(users) && i < |users|
    ensures Position(users, users[i].id) == Some(i)
  {}

  lemma SubjectGone(users: seq<User>, k: nat, email: string, pseudonym: string)
    requires k < |users| && users[k].email == email && pseudonym != email
    ensures FindByEmail(users[k := ErasedUser(users[k], pseudonym)], email).None? <==> OneHolder(users, email)
  {
    var after := users[k := ErasedUser(users[k], pseudonym)];
    if FindByEmail(after, email).None? {
      forall i | 0 <= i < |users| && i != k
        ensures users[i].email != email
      {
        assert after[i] in after;
      }
    }
  }

  lemma UsersAfter(users: seq<User>, users': seq<User>, email: string, org: string, pseudonym: string)
    requires DistinctUserIds(users) && pseudonym != email
    requires var subject := FindByEmail(users, email);
             if subject.None? then users' == users
             else var at := Position(users, subject.value.id);
               at.Some? && users' == users[at.value := ErasedUser(users[at.value], pseudonym)]
    ensures UserFrame(users, users', FindByEmail(users, email), pseudonym)
    ensures FindByEmail(users', email).None? <==> OneHolder(users, email)
    ensures FindByEmail(users, email).Some? ==>
      var subject := FindByEmail(users, email).value; users[Position(users, subject.id).value] == subject
  {
    if FindByEmail(users, email).Some? {
      var k := FindIsFirst(users, (u: User) => u.email == email);
      PositionOfUser(users, k);
      SubjectGone(users, k, email, pseudonym);
    } else {
      forall i | 0 <= i < |users|
        ensures users[i].email != email
      {
        assert users[i] in users;
      }
    }
  }

  lemma OnlyTheLastNames(audit: seq<AuditEvent>, userId: string, org: string, last: AuditEvent)
    requires last.organizationId == org
    ensures (exists e :: e in DetachedAll(audit, userId, org) + [last]
                           && e.userId == Some(userId) && e.organizationId == org)
       <==> last.userId == Some(userId)
  {
    assert last in DetachedAll(audit, userId, org) + [last];
  }

  lemma AuditAfter(audit: seq<AuditEvent>, audit': seq<AuditEvent>, subject: Option<User>, org: string,
                   last: AuditEvent)
    requires last.organizationId == org
    requires audit' == (if subject.Some? then DetachedAll(audit, subject.value.id, org) else audit) + [last]
    ensures AuditFrame(audit, audit', subject, org) && audit'[|audit|] == last
    ensures subject.Some? ==>
      ((exists e :: e in audit' && e.userId == Some(subject.value.id) && e.organizationId == org)
         <==> last.userId == Some(subject.value.id))
  {
    if subject.Some? {
      OnlyTheLastNames(audit, subject.value.id, org, last);
    }
  }

  /** The store after a successful erasure, table by table. */
  lemma ErasureUnfolds(s: Store, id: Id, org: string, decidedBy: string, pseudonym: string, now: int)
    requires id < |s.requests| && s.requests[id].kind == Erasure
    requires Executed(s, id, org, decidedBy, pseudonym, now).1 == None
    ensures var email := s.requests[id].subjectEmail;
            var subject := FindByEmail(s.users, email);
            var s' := Executed(s, id, org, decidedBy, pseudonym, now).0;
            var last := AuditEvent(Carried(Erasure), id, Some(decidedBy), org, None);
            && s.requests[id].organizationId == org
            && s'.consents == C.AnonymisedAll(s.consents, email, org, pseudonym)
            && s'.audit == (if subject.Some? then DetachedAll(s.audit, subject.value.id, org) else s.audit) + [last]
            && (subject.None? ==> s'.users == s.users)
            && (subject.Some? ==>
                  var at := Position(s.users, subject.value.id);
                  && at.Some? && s.users[at.value].organizationId == org
                  && s'.users == s.users[at.value := ErasedUser(s.users[at.value], pseudonym)])
            && s'.requests == s.requests[id := s.requests[id].(status := Completed, completedAt := Some(now),
                 payload := Some(ErasurePayload(ErasureCounts(
                   if subject.Some? then |Filter(s.audit, (e: AuditEvent) => ByUser(e, subject.value.id, org))| else 0,
                   |Filter(s.consents, (e: C.ConsentEvent) => C.ForSubject(e, email, org))|,
                   subject.Some?))))]
  {}

  /** How many rows name the subject, by user id and by address. */
  ghost function CountsOf(s: Store, subject: Option<User>, email: string, org: string): ErasureCounts {
    ErasureCounts(
      if subject.None? then 0
      else |Filter(s.audit, (e: AuditEvent) => e.userId == Some(subject.value.id) && e.organizationId == org)|,
      |Filter(s.consents, (e: C.ConsentEvent) => e.subjectEmail == email && e.organizationId == org)|,
      subject.Some?)
  }

  lemma CountsUnfold(s: Store, subject: Option<User>, email: string, org: string)
    ensures CountsOf(s, subject, email, org) == ErasureCounts(
      if subject.Some? then |Filter(s.audit, (e: AuditEvent) => ByUser(e, subject.value.id, org))| else 0,
      |Filter(s.consents, (e: C.ConsentEvent) => C.ForSubject(e, email, org))|,
      subject.Some?)
  {
    if subject.Some? {
      FilterAgree(s.audit, (e: AuditEvent) => ByUser(e, subject.value.id, org),
                  (e: AuditEvent) => e.userId == Some(subject.value.id) && e.organizationId == org);
    }
    FilterAgree(s.consents, (e: C.ConsentEvent) => C.ForSubject(e, email, org),
                (e: C.ConsentEvent) => e.subjectEmail == email && e.organizationId == org);
  }

  lemma ConsentsAfter(consents: seq<C.ConsentEvent>, email: string, org: string, pseudonym: string)
    requires pseudonym != email
    ensures ConsentFrame(consents, C.AnonymisedAll(consents, email, org, pseudonym), email, org, pseudonym)
    ensures forall e :: e in C.AnonymisedAll(consents, email, org, pseudonym) ==>
      !(e.subjectEmail == email && e.organizationId == org)
  {}

  /**
   After a successful erasure: no audit row of the organisation names the subject, unless the
   approver is the subject; no consent row of the organisation carries the address, and those that did carry the
   pseudonym and no user id; the subject's user row carries the pseudonym, "[erased]" and no password; the address
   finds nobody, unless another user row shared it; the counts are those of the rows changed; everything else is
   as before and one audit row, without the address, is added.
   */
  lemma ErasureIsComplete(s: Store, id: Id, org: string, decidedBy: string, pseudonym: string, now: int)
    requires DistinctUserIds(s.users)
    requires id < |s.requests| && s.requests[id].kind == Erasure && pseudonym != s.requests[id].subjectEmail
    requires Executed(s, id, org, decidedBy, pseudonym, now).1 == None
    ensures var email := s.requests[id].subjectEmail;
            var subject := FindByEmail(s.users, email);
            var s' := Executed(s, id, org, decidedBy, pseudonym, now).0;
            && (subject.Some? ==> subject.value.email == email && subject.value.organizationId == org)
            && (subject.Some? ==> ((exists e :: e in s'.audit && e.userId == Some(subject.value.id)
                                      && e.organizationId == org) <==> decidedBy == subject.value.id))
            && (forall e :: e in s'.consents ==> !(e.subjectEmail == email && e.organizationId == org))
            && (FindByEmail(s'.users, email).None? <==> OneHolder(s.users, email))
            && AuditFrame(s.audit, s'.audit, subject, org)
            && s'.audit[|s.audit|] == AuditEvent(Carried(Erasure), id, Some(decidedBy), org, None)
            && UserFrame(s.users, s'.users, subject, pseudonym)
            && ConsentFrame(s.consents, s'.consents, email, org, pseudonym)
            && s'.requests == s.requests[id := s.requests[id].(status := Completed, completedAt := Some(now),
                 payload := Some(ErasurePayload(CountsOf(s, subject, email, org))))]
  {
    var email := s.requests[id].subjectEmail;
    var subject := FindByEmail(s.users, email);
    var s' := Executed(s, id, org, decidedBy, pseudonym, now).0;
    var last := AuditEvent(Carried(Erasure), id, Some(decidedBy), org, None);
    ErasureUnfolds(s, id, org, decidedBy, pseudonym, now);
    CountsUnfold(s, subject, email, org);
    UsersAfter(s.users, s'.users, email, org, pseudonym);
    AuditAfter(s.audit, s'.audit, subject, org, last);
    ConsentsAfter(s.consents, email, org, pseudonym);
  }

  /**
   An erasure aborts exactly when the address belongs first to a user of another organisation. By then
   that user's entries in this organisation's audit log have been detached; nothing else has changed
   and the request is still approved.
   */
  lemma ErasureAborts(s: Store, id: Id, org: string, decidedBy: string, pseudonym: string, now: int)
    requires DistinctUserIds(s.users)
    requires ExecutionError(s, id, org, decidedBy) == None && s.requests[id].kind == Erasure
    ensures var subject := FindByEmail(s.users, s.requests[id].subjectEmail);
            var (s', error) := Executed(s, id, org, decidedBy, pseudonym, now);
            && (error == Some(UserOutsideOrganisation) <==> subject.Some? && subject.value.organizationId != org)
            && (error.Some? ==> error == Some(UserOutsideOrganisation))
            && (error.Some? && subject.Some? ==>
                  && s' == s.(audit := s'.audit) && |s'.audit| == |s.audit|
                  && forall i :: 0 <= i < |s.audit| ==>
                       var e := s.audit[i];
                       s'.audit[i] == if e.userId == Some(subject.value.id) && e.organizationId == org
                                      then e.(userId := None) else e)
  {
    var email := s.requests[id].subjectEmail;
    if FindByEmail(s.users, email).Some? {
      var k := FindIsFirst(s.users, (u: User) => u.email == email);
      PositionOfUser(s.users, k);
    }
  }

  /** The profile is that of user k, the first with the address. */
  predicate IsProfileOfFirst(users: seq<User>, k: int, email: string, p: Profile) {
    && 0 <= k < |users| && users[k].email == email && (forall j :: 0 <= j < k ==> users[j].email != email)
    && p == Profile(users[k].id, email, users[k].name, users[k].role, users[k].organizationId)
  }

  /** A snapshot holds exactly the rows that name the subject, the subject's user row without its password. */
  lemma SnapshotMeaning(s: Store, email: string, org: string)
    ensures var p := TakeSnapshot(s, email, org);
            && p.subjectEmail == email
            && (p.user.None? <==> forall u :: u in s.users ==> u.email != email)
            && (p.user.Some? ==> exists k :: IsProfileOfFirst(s.users, k, email, p.user.value))
            && (forall e :: e in p.auditEvents <==>
                  e in s.audit && p.user.Some? && e.userId == Some(p.user.value.id) && e.organizationId == org)
            && (forall e :: e in p.consentEvents <==>
                  e in s.consents && e.subjectEmail == email && e.organizationId == org)
            && (forall r :: r in p.previousRequests <==>
                  r in s.requests && r.subjectEmail == email && r.organizationId == org)
  {
    var user := FindByEmail(s.users, email);
    if user.Some? {
      var k := FindIsFirst(s.users, (u: User) => u.email == email);
      assert IsProfileOfFirst(s.users, k, email, TakeSnapshot(s, email, org).user.value);
      FilterMembers(s.audit, (e: AuditEvent) => ByUser(e, user.value.id, org));
    }
    FilterMembers(s.consents, (e: C.ConsentEvent) => C.ForSubject(e, email, org));
    FilterMembers(s.requests, (r: Request) => r.subjectEmail == email && r.organizationId == org);
  }

  /** Executing an access or a rectification completes the request, attaching the snapshot, and erases nothing. */
  lemma OthersEraseNothing(s: Store, id: Id, org: string, decidedBy: string, pseudonym: string, now: int)
    requires ExecutionError(s, id, org, decidedBy) == None && s.requests[id].kind != Erasure
    ensures var r, (s', error) := s.requests[id], Executed(s, id, org, decidedBy, pseudonym, now);
            && error == None && s'.users == s.users && s'.consents == s.consents
            && s'.audit == s.audit + [AuditEvent(Carried(r.kind), id, Some(decidedBy), org, Some(r.subjectEmail))]
            && s'.requests == s.requests[id := r.(status := Completed, completedAt := Some(now),
                 payload := if r.kind == Access then Some(SnapshotPayload(TakeSnapshot(s, r.subjectEmail, org)))
                            else r.payload)]
  {}

  /** A subject-access snapshot taken after the erasure finds no user, no audit rows and no consents. */
  lemma NothingToAccessAfterErasure(s: Store, id: Id, org: string, decidedBy: string, pseudonym: string, now: int)
    requires DistinctUserIds(s.users)
    requires id < |s.requests| && s.requests[id].kind == Erasure && pseudonym != s.requests[id].subjectEmail
    requires OneHolder(s.users, s.requests[id].subjectEmail)
    requires Executed(s, id, org, decidedBy, pseudonym, now).1 == None
    ensures var email := s.requests[id].subjectEmail;
            var snapshot := TakeSnapshot(Executed(s, id, org, decidedBy, pseudonym, now).0, email, org);
            && snapshot.user == None && snapshot.auditEvents == [] && snapshot.consentEvents == []
            && exists r :: r in snapshot.previousRequests && r.status == Completed
  {
    var email := s.requests[id].subjectEmail;
    var s' := Executed(s, id, org, decidedBy, pseudonym, now).0;
    ErasureIsComplete(s, id, org, decidedBy, pseudonym, now);
    ErasureUnfolds(s, id, org, decidedBy, pseudonym, now);
    FilterNone(s'.consents, (e: C.ConsentEvent) => C.ForSubject(e, email, org));
    FilterMembers(s'.requests, (r: Request) => r.subjectEmail == email && r.organizationId == org);
    assert s'.requests[id] in s'.requests;
  }

  // ----- The life of a request -----

  datatype Op =
    | Create(
        organizationId: string, kind: RequestType, email: string, requestedBy: Option<string>, notes: Option<string>)
    | Decide(id: Id, organizationId: string, approve: bool, decidedBy: string, decisionNotes: Option<string>, now: int)
    | Execute(id: Id, organizationId: string, decidedBy: string, pseudonym: string, now: int)

  function Apply(s: Store, op: Op): Store {
    match op
    case Create(org, kind, email, requestedBy, notes) =>
      if '@' in email then Created(s, org, kind, email, requestedBy, notes) else s
    case Decide(id, org, approve, decidedBy, notes, now) =>
      if DecisionError(s, id, org, approve, decidedBy).Some? then s else Decided(s, id, approve, decidedBy, notes, now)
    case Execute(id, org, decidedBy, pseudonym, now) => Executed(s, id, org, decidedBy, pseudonym, now).0
  }

  function After(s: Store, ops: seq<Op>): Store {
    if ops == [] then s else Apply(After(s, ops[..|ops| - 1]), ops[|ops| - 1])
  }

  predicate RequestOk(r: Request) {
    && '@' in r.subjectEmail
    && (r.status == Pending <==> r.decidedBy.None?)
    && (r.status in {Approved, Completed} ==> r.requestedBy != r.decidedBy || r.requestedBy == Some(""))
    && (r.status == Completed <==> r.completedAt.Some?)
    && (r.payload.Some? <==> r.status == Completed && r.kind != Rectification)
  }

  function Rank(status: RequestStatus): nat {
    match status
    case Pending => 0
    case Approved => 1
    case Denied => 2
    case Completed => 2
  }

  /** Requests only move forward, denied and completed ones never change, and their terms never do. */
  ghost predicate Advances(before: Request, after: Request) {
    && Rank(before.status) <= Rank(after.status)
    && (Rank(before.status) == 2 ==> after == before)
    && (before.status == Approved ==> after.status != Denied && after.decidedBy == before.decidedBy)
    && after.organizationId == before.organizationId && after.kind == before.kind
    && after.subjectEmail == before.subjectEmail && after.requestedBy == before.requestedBy
  }

  ghost predicate RequestsAdvance(a: seq<Request>, b: seq<Request>) {
    |a| <= |b| && forall i :: 0 <= i < |a| ==> Advances(a[i], b[i])
  }

  ghost predicate RequestsOk(requests: seq<Request>) {
    forall i :: 0 <= i < |requests| ==> RequestOk(requests[i])
  }

  /** An execution completes its own request or leaves every request alone. */
  lemma ExecutionAdvances(s: Store, id: Id, org: string, decidedBy: string, pseudonym: string, now: int)
    requires RequestsOk(s.requests)
    ensures var after := Executed(s, id, org, decidedBy, pseudonym, now).0.requests;
            || after == s.requests
            || (id < |s.requests| && after == s.requests[id := after[id]] && s.requests[id].status == Approved
                && Advances(s.requests[id], after[id]) && RequestOk(after[id]))
  {}

  lemma StepAdvances(s: Store, op: Op)
    requires RequestsOk(s.requests)
    ensures RequestsOk(Apply(s, op).requests) && RequestsAdvance(s.requests, Apply(s, op).requests)
  {
    match op
    case Create(_, _, _, _, _) =>
    case Decide(id, org, approve, decidedBy, notes, now) =>
      if DecisionError(s, id, org, approve, decidedBy).None? {
        var after := Decided(s, id, approve, decidedBy, notes, now).requests;
        assert after == s.requests[id := after[id]] && Advances(s.requests[id], after[id]) && RequestOk(after[id]);
      }
    case Execute(id, org, decidedBy, pseudonym, now) =>
      ExecutionAdvances(s, id, org, decidedBy, pseudonym, now);
  }

  lemma AdvanceTransitive(a: seq<Request>, b: seq<Request>, c: seq<Request>)
    requires RequestsAdvance(a, b) && RequestsAdvance(b, c)
    ensures RequestsAdvance(a, c)
  {
    forall i | 0 <= i < |a|
      ensures Advances(a[i], c[i])
    {
      assert Advances(a[i], b[i]) && Advances(b[i], c[i]);
    }
  }

  /**
   Over every sequence of operations a request goes from pending to denied, or through approved to
   completed, and every approval that stands was given by someone other than the requestor.
   */
  lemma {:induction false} RequestLifecycle(s: Store, ops: seq<Op>)
    requires RequestsOk(s.requests)
    ensures RequestsOk(After(s, ops).requests) && RequestsAdvance(s.requests, After(s, ops).requests)
    decreases |ops|
  {
    if ops != [] {
      var before := ops[..|ops| - 1];
      RequestLifecycle(s, before);
      StepAdvances(After(s, before), ops[|ops| - 1]);
      AdvanceTransitive(s.requests, After(s, before).requests, After(s, ops).requests);
    }
  }

  // ----- What erasure does not reach -----

  ghost predicate Mentioned(audit: seq<AuditEvent>, email: string) {
    exists e :: e in audit && e.mentionedEmail == Some(email)
  }

  ghost predicate AllMentioned(s: Store) {
    forall i :: 0 <= i < |s.requests| ==> Mentioned(s.audit, s.requests[i].subjectEmail)
  }

  lemma DetachedKeepsMentions(audit: seq<AuditEvent>, userId: string, org: string, email: string)
    requires Mentioned(audit, email)
    ensures Mentioned(DetachedAll(audit, userId, org), email)
  {
    var i :| 0 <= i < |audit| && audit[i].mentionedEmail == Some(email);
    assert DetachedAll(audit, userId, org)[i].mentionedEmail == Some(email);
  }

  lemma ErasedAudit(s: Store, subjectEmail: string, org: string, pseudonym: string, email: string)
    requires Mentioned(s.audit, email)
    ensures Mentioned(ErasedTables(s, subjectEmail, org, pseudonym).0.audit, email)
  {
    var user := FindByEmail(s.users, subjectEmail);
    if user.Some? {
      DetachedKeepsMentions(s.audit, user.value.id, org, email);
    }
  }

  /** Executing a request leaves every mention in place. */
  lemma ExecutedAudit(s: Store, id: Id, org: string, decidedBy: string, pseudonym: string, now: int, email: string)
    requires Mentioned(s.audit, email)
    ensures Mentioned(Executed(s, id, org, decidedBy, pseudonym, now).0.audit, email)
  {
    var e :| e in s.audit && e.mentionedEmail == Some(email);
    if ExecutionError(s, id, org, decidedBy).None? && s.requests[id].kind == Erasure {
      ErasedAudit(s, s.requests[id].subjectEmail, org, pseudonym, email);
    }
  }

  lemma StepKeepsMentions(s: Store, op: Op)
    requires AllMentioned(s) && RequestsOk(s.requests)
    ensures AllMentioned(Apply(s, op))
  {
    var s' := Apply(s, op);
    StepAdvances(s, op);
    forall i | 0 <= i < |s'.requests|
      ensures Mentioned(s'.audit, s'.requests[i].subjectEmail)
    {
      if i < |s.requests| {
        var email := s.requests[i].subjectEmail;
        assert Advances(s.requests[i], s'.requests[i]) && Mentioned(s.audit, email);
        match op {
          case Execute(id, org, decidedBy, pseudonym, now) =>
            ExecutedAudit(s, id, org, decidedBy, pseudonym, now, email);
          case _ =>
            var e :| e in s.audit && e.mentionedEmail == Some(email);
            assert e in s'.audit;
        }
      } else {
        assert s'.audit[|s.audit|].mentionedEmail == Some(s'.requests[i].subjectEmail);
      }
    }
  }

  /**
   Erasure detaches user ids but rewrites no details: over every sequence of operations, the address of
   each request, erased or not, is still in some entry of the audit log.
   */
  lemma {:induction false} AddressStaysInAudit(s: Store, ops: seq<Op>)
    requires AllMentioned(s) && RequestsOk(s.requests)
    ensures AllMentioned(After(s, ops))
    decreases |ops|
  {
    if ops != [] {
      var before := ops[..|ops| - 1];
      AddressStaysInAudit(s, before);
      RequestLifecycle(s, before);
      StepKeepsMentions(After(s, before), ops[|ops| - 1]);
    }
  }
}
