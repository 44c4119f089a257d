/** The consent log, the ledger service over it, and the map it stands for. */
module Consent {
  import opened Outcomes
  import opened Sequences

  datatype ConsentState = Granted | Withdrawn

  datatype ConsentEvent = ConsentEvent(
    organizationId: string, subjectEmail: string, subjectUserId: Option<string>, purpose: string,
    state: ConsentState, source: string, recordedBy: Option<string>, recordedAt: int)

  predicate ForSubject(e: ConsentEvent, email: string, org: string) {
    e.subjectEmail == email && e.organizationId == org
  }

  predicate Matches(e: ConsentEvent, email: string, purpose: string, org: string) {
    ForSubject(e, email, org) && e.purpose == purpose
  }

  /** Head of the matching events in a stable descending sort by time: the latest, and the oldest row among those. */
  function Current(records: seq<ConsentEvent>, email: string, purpose: string, org: string): (i: Option<nat>)
    ensures i.Some? ==> i.value < |records| && Matches(records[i.value], email, purpose, org)
  {
    if records == [] then None
    else
      var n := |records| - 1;
      var before := Current(records[..n], email, purpose, org);
      if Matches(records[n], email, purpose, org)
         && (before.None? || records[before.value].recordedAt < records[n].recordedAt)
      then Some(n)
      else before
  }

  function CurrentState(records: seq<ConsentEvent>, org: string, email: string, purpose: string): Option<ConsentState> {
    var i := Current(records, email, purpose, org);
    if i.Some? then Some(records[i.value].state) else None
  }

  predicate HasActiveConsent(records: seq<ConsentEvent>, org: string, email: string, purpose: string) {
    CurrentState(records, org, email, purpose) == Some(Granted)
  }

  function Anonymised(e: ConsentEvent, email: string, org: string, pseudonym: string): ConsentEvent {
    if ForSubject(e, email, org) then e.(subjectEmail := pseudonym, subjectUserId := None) else e
  }

  function AnonymisedAll(records: seq<ConsentEvent>, email: string, org: string, pseudonym: string)
    : (r: seq<ConsentEvent>)
    ensures |r| == |records|
  {
    Map(records, e => Anonymised(e, email, org, pseudonym))
  }

  // ----- What the current event is -----

  /** The matching row i is at least as late as every other and later than every earlier one. */
  predicate IsCurrent(records: seq<ConsentEvent>, i: int, email: string, purpose: string, org: string) {
    && 0 <= i < |records|
    && Matches(records[i], email, purpose, org)
    && forall j :: 0 <= j < |records| && Matches(records[j], email, purpose, org) ==>
         records[j].recordedAt <= records[i].recordedAt && (j < i ==> records[j].recordedAt < records[i].recordedAt)
  }

  lemma {:induction false} CurrentMeaning(records: seq<ConsentEvent>, email: string, purpose: string, org: string)
    ensures var i := Current(records, email, purpose, org);
            && (i.None? <==> forall e :: e in records ==> !Matches(e, email, purpose, org))
            && (i.Some? ==> IsCurrent(records, i.value, email, purpose, org))
    decreases |records|
  {
    if records != [] {
      var n := |records| - 1;
      CurrentMeaning(records[..n], email, purpose, org);
      assert records == records[..n] + [records[n]];
    }
  }

  lemma CurrentUnique(records: seq<ConsentEvent>, i: int, email: string, purpose: string, org: string)
    requires IsCurrent(records, i, email, purpose, org)
    ensures Current(records, email, purpose, org) == Some(i)
  {
    CurrentMeaning(records, email, purpose, org);
    assert records[i] in records;
  }

  /** The last recorded event is the current one exactly when every earlier event of its key is strictly older. */
  lemma LastRecordedWins(records: seq<ConsentEvent>, e: ConsentEvent)
    ensures Current(records + [e], e.subjectEmail, e.purpose, e.organizationId) == Some(|records|) <==>
      forall r :: r in records && Matches(r, e.subjectEmail, e.purpose, e.organizationId) ==>
        r.recordedAt < e.recordedAt
  {
    assert (records + [e])[..|records|] == records;
    CurrentMeaning(records, e.subjectEmail, e.purpose, e.organizationId);
    var before := Current(records, e.subjectEmail, e.purpose, e.organizationId);
    if before.Some? {
      assert records[before.value] in records;
      forall r | r in records && Matches(r, e.subjectEmail, e.purpose, e.organizationId)
        ensures r.recordedAt <= records[before.value].recordedAt
      {
        var j :| 0 <= j < |records| && records[j] == r;
      }
    }
  }

  /**
   Recorded strictly later than what the log holds under its key, an event decides: consent is active exactly when
   the text recorded was "granted".
   */
  ghost predicate RecordedDecides(records: seq<ConsentEvent>, e: ConsentEvent, state: string) {
    (forall r :: r in records && Matches(r, e.subjectEmail, e.purpose, e.organizationId) ==>
       r.recordedAt < e.recordedAt)
    ==> (HasActiveConsent(records + [e], e.organizationId, e.subjectEmail, e.purpose) <==> state == "granted")
  }

  lemma RecordDecides(records: seq<ConsentEvent>, e: ConsentEvent, state: string)
    requires e.state == Granted <==> state == "granted"
    ensures RecordedDecides(records, e, state)
  {
    LastRecordedWins(records, e);
  }

  /** A withdrawal recorded in the same millisecond as the grant leaves the consent active. */
  lemma SameMillisecondWithdrawal(org: string, email: string, purpose: string, now: int)
    ensures var grant := ConsentEvent(org, email, None, purpose, Granted, "api", None, now);
            var log := [grant, grant.(state := Withdrawn)];
            HasActiveConsent(log, org, email, purpose)
  {
    var grant := ConsentEvent(org, email, None, purpose, Granted, "api", None, now);
    var log := [grant, grant.(state := Withdrawn)];
    CurrentUnique(log, 0, email, purpose, org);
  }

  // ----- The repository and the service -----

  class ConsentEventRepository {
    var records: seq<ConsentEvent>

    constructor ()
      ensures records == []
    {
      records := [];
    }

    method Create(e: ConsentEvent)
      modifies this
      ensures records == old(records) + [e]
    {
      records := records + [e];
    }

    method FindCurrent(email: string, purpose: string, org: string) returns (e: Option<ConsentEvent>)
      ensures e.None? <==> forall r :: r in records ==> !Matches(r, email, purpose, org)
      ensures e.Some? ==> exists i :: IsCurrent(records, i, email, purpose, org) && e.value == records[i]
    {
      CurrentMeaning(records, email, purpose, org);
      var i := Current(records, email, purpose, org);
      return if i.Some? then Some(records[i.value]) else None;
    }

    method AnonymiseSubject(email: string, org: string, pseudonym: string) returns (count: nat)
      modifies this
      ensures records == AnonymisedAll(old(records), email, org, pseudonym)
      ensures |records| == |old(records)|
      ensures forall i :: 0 <= i < |records| ==>
        var e := old(records)[i];
        records[i] == if e.subjectEmail == email && e.organizationId == org
                      then e.(subjectEmail := pseudonym, subjectUserId := None) else e
      ensures count == |Filter(old(records), (e: ConsentEvent) => ForSubject(e, email, org))|
    {
      ghost var was := records;
      var isSubject := (e: ConsentEvent) => ForSubject(e, email, org);
      count := 0;
      for i := 0 to |records|
        invariant |records| == |was|
        invariant forall k :: 0 <= k < i ==> records[k] == Anonymised(was[k], email, org, pseudonym)
        invariant forall k :: i <= k < |was| ==> records[k] == was[k]
        invariant count == |Filter(was[..i], isSubject)|
      {
        FilterSnoc(was, i, isSubject);
        if records[i].subjectEmail == email && records[i].organizationId == org {
          records := records[i := records[i].(subjectEmail := pseudonym, subjectUserId := None)];
          count := count + 1;
        }
      }
      assert was[..|was|] == was;
    }
  }

  /** An event's id is its place in the log: events are only ever appended. */
  datatype AuditEntry = AuditEntry(
    action: string, entity: nat, userId: Option<string>, organizationId: string, subjectEmail: string,
    purpose: string, source: string)

  datatype Error = SubjectEmailRequired | PurposeRequired | BadState

  function StateOf(state: string): Option<ConsentState> {
    if state == "granted" then Some(Granted) else if state == "withdrawn" then Some(Withdrawn) else None
  }

  function SourceOf(source: Option<string>): string {
    if source.Some? then source.value else "api"
  }

  class ConsentLedgerService {
    const repo: ConsentEventRepository
    var audit: seq<AuditEntry>

    constructor (repo: ConsentEventRepository)
      ensures this.repo == repo && audit == []
    {
      this.repo := repo;
      audit := [];
    }

    method Record(org: string, email: string, userId: Option<string>, purpose: string, state: string,
                  source: Option<string>, recordedBy: Option<string>, now: int)
      returns (e: Result<ConsentEvent, Error>)
      modifies this, repo
      ensures e.Err? ==> e.error == if '@' !in email then SubjectEmailRequired
                                    else if purpose == "" then PurposeRequired else BadState
      ensures e.Ok? ==> RecordedDecides(old(repo.records), e.value, state)
      ensures e.Ok? <==> '@' in email && purpose != "" && state in {"granted", "withdrawn"}
      ensures e.Ok? ==>
        && e.value.organizationId == org && e.value.subjectEmail == email && e.value.subjectUserId == userId
        && e.value.purpose == purpose && e.value.recordedBy == recordedBy && e.value.recordedAt == now
        && (e.value.state == Granted <==> state == "granted")
        && (e.value.state == Withdrawn <==> state == "withdrawn")
        && e.value.source == (if source.Some? then source.value else "api")
        && repo.records == old(repo.records) + [e.value]
        && audit == old(audit)
             + [AuditEntry("consent." + state, |old(repo.records)|, recordedBy, org, email, purpose, e.value.source)]
      ensures e.Err? ==> repo.records == old(repo.records) && audit == old(audit)
    {
      if email == "" || '@' !in email {
        return Err(SubjectEmailRequired);
      }
      if purpose == "" {
        return Err(PurposeRequired);
      }
      if StateOf(state).None? {
        return Err(BadState);
      }
      var from := SourceOf(source);
      var event := ConsentEvent(org, email, userId, purpose, StateOf(state).value, from, recordedBy, now);
      var id := |repo.records|;
      RecordDecides(repo.records, event, state);
      repo.Create(event);
      audit := audit + [AuditEntry("consent." + state, id, recordedBy, org, email, purpose, from)];
      return Ok(event);
    }

    method CurrentStateOf(org: string, email: string, purpose: string) returns (state: Option<ConsentState>)
      ensures state == CurrentState(repo.records, org, email, purpose)
    {
      CurrentMeaning(repo.records, email, purpose, org);
      var latest := repo.FindCurrent(email, purpose, org);
      if latest.Some? {
        var i :| IsCurrent(repo.records, i, email, purpose, org) && latest.value == repo.records[i];
        CurrentUnique(repo.records, i, email, purpose, org);
      }
      return if latest.Some? then Some(latest.value.state) else None;
    }

    /** Default deny: only a current grant counts. */
    method MaySend(org: string, email: string, purpose: string) returns (yes: bool)
      ensures yes == HasActiveConsent(repo.records, org, email, purpose)
    {
      var state := CurrentStateOf(org, email, purpose);
      return state == Some(Granted);
    }
  }

  // ----- The map the log stands for -----

  datatype Key = Key(organizationId: string, email: string, purpose: string)

  type Ledger = map<Key, ConsentState>

  datatype Op =
    | Record(event: ConsentEvent)
    | Erase(organizationId: string, email: string, pseudonym: string)

  /** A time later than those of its key's events for each record; a pseudonym nobody has for each erasure. */
  ghost predicate Legal(records: seq<ConsentEvent>, op: Op) {
    match op
    case Record(e) =>
      forall r :: r in records && Matches(r, e.subjectEmail, e.purpose, e.organizationId) ==>
        r.recordedAt < e.recordedAt
    case Erase(_, email, pseudonym) => pseudonym != email && forall r :: r in records ==> r.subjectEmail != pseudonym
  }

  function Logged(records: seq<ConsentEvent>, op: Op): seq<ConsentEvent> {
    match op
    case Record(e) => records + [e]
    case Erase(org, email, pseudonym) => AnonymisedAll(records, email, org, pseudonym)
  }

  ghost function Moved(ledger: Ledger, org: string, email: string, pseudonym: string): (keys: set<Key>)
    ensures forall k :: k in keys ==> Key(org, email, k.purpose) in ledger
    ensures forall k :: k in keys <==>
      k.organizationId == org && k.email == pseudonym && Key(org, email, k.purpose) in ledger
  {
    set k | k in ledger && k.organizationId == org && k.email == email :: Key(org, pseudonym, k.purpose)
  }

  /** Recording sets the key's state; erasing moves the subject's entries to the pseudonym. */
  ghost function Booked(ledger: Ledger, op: Op): Ledger {
    match op
    case Record(e) => ledger[Key(e.organizationId, e.subjectEmail, e.purpose) := e.state]
    case Erase(org, email, pseudonym) =>
      (map k | k in ledger && !(k.organizationId == org && k.email == email) :: ledger[k])
      + map k: Key | k in Moved(ledger, org, email, pseudonym) :: ledger[Key(org, email, k.purpose)]
  }

  function Get(ledger: Ledger, k: Key): Option<ConsentState> {
    if k in ledger then Some(ledger[k]) else None
  }

  ghost predicate Refines(records: seq<ConsentEvent>, ledger: Ledger) {
    forall k: Key :: CurrentState(records, k.organizationId, k.email, k.purpose) == Get(ledger, k)
  }

  /** Another key's current event does not move when an event is appended. */
  lemma AppendElsewhere(records: seq<ConsentEvent>, e: ConsentEvent, k: Key)
    requires k != Key(e.organizationId, e.subjectEmail, e.purpose)
    ensures CurrentState(records + [e], k.organizationId, k.email, k.purpose)
         == CurrentState(records, k.organizationId, k.email, k.purpose)
  {
    assert (records + [e])[..|records|] == records;
    CurrentMeaning(records, k.email, k.purpose, k.organizationId);
  }

  /** Renaming rows that matched one key exactly into another keeps the current position. */
  lemma {:induction false} SamePositions(a: seq<ConsentEvent>, b: seq<ConsentEvent>, k: Key, l: Key)
    requires |a| == |b|
    requires forall i :: 0 <= i < |a| ==> a[i].recordedAt == b[i].recordedAt
    requires forall i :: 0 <= i < |a| ==>
      (Matches(a[i], k.email, k.purpose, k.organizationId) <==> Matches(b[i], l.email, l.purpose, l.organizationId))
    ensures Current(a, k.email, k.purpose, k.organizationId) == Current(b, l.email, l.purpose, l.organizationId)
    decreases |a|
  {
    if a != [] {
      SamePositions(a[..|a| - 1], b[..|b| - 1], k, l);
    }
  }

  lemma BookedErase(ledger: Ledger, org: string, email: string, pseudonym: string, k: Key)
    requires pseudonym != email
    ensures Get(Booked(ledger, Erase(org, email, pseudonym)), k) ==
      if k.organizationId == org && k.email == email then None
      else if k.organizationId == org && k.email == pseudonym && Key(org, email, k.purpose) in ledger
      then Some(ledger[Key(org, email, k.purpose)])
      else Get(ledger, k)
  {}

  lemma NoPseudonymYet(records: seq<ConsentEvent>, ledger: Ledger, pseudonym: string, k: Key)
    requires Refines(records, ledger) && k.email == pseudonym
    requires forall r :: r in records ==> r.subjectEmail != pseudonym
    ensures k !in ledger
  {
    CurrentMeaning(records, k.email, k.purpose, k.organizationId);
    assert CurrentState(records, k.organizationId, k.email, k.purpose) == Get(ledger, k);
  }

  lemma EraseRefines(records: seq<ConsentEvent>, ledger: Ledger, org: string, email: string, pseudonym: string, k: Key)
    requires Refines(records, ledger) && Legal(records, Erase(org, email, pseudonym))
    ensures CurrentState(AnonymisedAll(records, email, org, pseudonym), k.organizationId, k.email, k.purpose)
         == Get(Booked(ledger, Erase(org, email, pseudonym)), k)
  {
    var erased := AnonymisedAll(records, email, org, pseudonym);
    BookedErase(ledger, org, email, pseudonym, k);
    if k.organizationId == org && k.email == email {
      CurrentMeaning(erased, k.email, k.purpose, k.organizationId);
      assert forall e :: e in erased ==> !Matches(e, k.email, k.purpose, k.organizationId);
    } else {
      var source := if k.organizationId == org && k.email == pseudonym then Key(org, email, k.purpose) else k;
      forall i | 0 <= i < |records|
        ensures Matches(erased[i], k.email, k.purpose, k.organizationId)
           <==> Matches(records[i], source.email, source.purpose, source.organizationId)
      {
        assert records[i] in records;
      }
      SamePositions(erased, records, k, source);
      assert CurrentState(records, source.organizationId, source.email, source.purpose) == Get(ledger, source);
      if k.email == pseudonym {
        NoPseudonymYet(records, ledger, pseudonym, k);
      }
    }
  }

  lemma StepRefines(records: seq<ConsentEvent>, ledger: Ledger, op: Op)
    requires Refines(records, ledger) && Legal(records, op)
    ensures Refines(Logged(records, op), Booked(ledger, op))
  {
    forall k: Key
      ensures CurrentState(Logged(records, op), k.organizationId, k.email, k.purpose) == Get(Booked(ledger, op), k)
    {
      match op
      case Record(e) =>
        if k == Key(e.organizationId, e.subjectEmail, e.purpose) {
          LastRecordedWins(records, e);
        } else {
          AppendElsewhere(records, e, k);
        }
      case Erase(org, email, pseudonym) =>
        EraseRefines(records, ledger, org, email, pseudonym, k);
    }
  }

  // ----- Any sequence of records and erasures -----

  function LogOf(ops: seq<Op>): seq<ConsentEvent> {
    if ops == [] then [] else Logged(LogOf(ops[..|ops| - 1]), ops[|ops| - 1])
  }

  ghost function LedgerOf(ops: seq<Op>): Ledger {
    if ops == [] then map[] else Booked(LedgerOf(ops[..|ops| - 1]), ops[|ops| - 1])
  }

  ghost predicate AllLegal(ops: seq<Op>) {
    forall i :: 0 <= i < |ops| ==> Legal(LogOf(ops[..i]), ops[i])
  }

  /** The log answers every query as the map would, after every legal sequence of records and erasures. */
  lemma {:induction false} LogRefinesLedger(ops: seq<Op>)
    requires AllLegal(ops)
    ensures Refines(LogOf(ops), LedgerOf(ops))
    decreases |ops|
  {
    if ops != [] {
      var n := |ops| - 1;
      assert forall i :: 0 <= i < n ==> ops[..n][..i] == ops[..i];
      LogRefinesLedger(ops[..n]);
      StepRefines(LogOf(ops[..n]), LedgerOf(ops[..n]), ops[n]);
    }
  }

  /** Whether an operation can give the subject an active consent: a grant, or a pseudonym that is the address. */
  predicate Regrants(op: Op, org: string, email: string, purpose: string) {
    match op
    case Record(e) => Matches(e, email, purpose, org) && e.state == Granted
    case Erase(o, _, pseudonym) => o == org && pseudonym == email
  }

  ghost predicate AllWithdrawn(records: seq<ConsentEvent>, org: string, email: string, purpose: string) {
    forall e :: e in records && Matches(e, email, purpose, org) ==> e.state == Withdrawn
  }

  lemma ErasureWithdraws(records: seq<ConsentEvent>, org: string, email: string, pseudonym: string, purpose: string)
    requires pseudonym != email
    ensures AllWithdrawn(AnonymisedAll(records, email, org, pseudonym), org, email, purpose)
  {}

  lemma StepKeepsWithdrawn(records: seq<ConsentEvent>, op: Op, org: string, email: string, purpose: string)
    requires AllWithdrawn(records, org, email, purpose) && !Regrants(op, org, email, purpose)
    ensures AllWithdrawn(Logged(records, op), org, email, purpose)
  {
    if op.Erase? {
      var erased := Logged(records, op);
      forall e | e in erased && Matches(e, email, purpose, org)
        ensures e.state == Withdrawn
      {
        var i :| 0 <= i < |erased| && erased[i] == e;
        assert records[i] in records;
      }
    }
  }

  /**
   After an erasure the subject has no active consent for a purpose until a new grant for it, whatever else
   is recorded or erased, and whatever the clock does.
   */
  lemma {:induction false} ErasedStaysErased(ops: seq<Op>, at: nat, org: string, email: string, purpose: string)
    requires at < |ops| && ops[at].Erase? && ops[at].organizationId == org && ops[at].email == email
    requires ops[at].pseudonym != email
    requires forall i :: at < i < |ops| ==> !Regrants(ops[i], org, email, purpose)
    ensures AllWithdrawn(LogOf(ops), org, email, purpose)
    ensures !HasActiveConsent(LogOf(ops), org, email, purpose)
    decreases |ops|
  {
    var n := |ops| - 1;
    if at < n {
      ErasedStaysErased(ops[..n], at, org, email, purpose);
      StepKeepsWithdrawn(LogOf(ops[..n]), ops[n], org, email, purpose);
    } else {
      ErasureWithdraws(LogOf(ops[..n]), org, email, ops[n].pseudonym, purpose);
    }
    CurrentMeaning(LogOf(ops), email, purpose, org);
  }

  /** Whether an operation can give the subject consent events in the organisation. */
  predicate Touches(op: Op, org: string, email: string) {
    match op
    case Record(e) => ForSubject(e, email, org)
    case Erase(o, _, pseudonym) => o == org && pseudonym == email
  }

  /** Until something is recorded for the subject again there is no event of the subject at all. */
  lemma {:induction false} NothingUntilRecorded(ops: seq<Op>, at: nat, org: string, email: string)
    requires at < |ops| && ops[at].Erase? && ops[at].organizationId == org && ops[at].email == email
    requires ops[at].pseudonym != email
    requires forall i :: at < i < |ops| ==> !Touches(ops[i], org, email)
    ensures forall e :: e in LogOf(ops) ==> !ForSubject(e, email, org)
    decreases |ops|
  {
    var n := |ops| - 1;
    if at < n {
      NothingUntilRecorded(ops[..n], at, org, email);
    }
  }

  /** An erasure in one organisation changes no answer of another. */
  lemma OtherOrganisationsUnaffected(records: seq<ConsentEvent>, org: string, email: string, pseudonym: string,
                                     other: string, someone: string, purpose: string)
    requires other != org
    ensures CurrentState(AnonymisedAll(records, email, org, pseudonym), other, someone, purpose)
         == CurrentState(records, other, someone, purpose)
  {
    var k := Key(other, someone, purpose);
    SamePositions(AnonymisedAll(records, email, org, pseudonym), records, k, k);
    CurrentMeaning(records, someone, purpose, other);
  }
}
