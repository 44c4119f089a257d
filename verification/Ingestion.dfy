/** The ingestion job rows, their repository and the service that completes and fails them. */
module Ingestion {
  import opened Outcomes

  type Id = string

  datatype Status = Pending | Processing | Completed | Failed

  /** Times are milliseconds; JSON payloads and results are their text. */
  datatype Job = Job(
    organizationId: string, kind: string, status: Status, payload: string, result: Option<string>,
    errorMessage: Option<string>, attempts: nat, claimedBy: Option<string>, claimedAt: Option<int>,
    completedAt: Option<int>, createdBy: Option<string>, createdAt: int)

  /** A partial update: absent fields are left alone. No caller sets one to null. */
  datatype Patch = Patch(
    status: Option<Status>, result: Option<string>, errorMessage: Option<string>, claimedBy: Option<string>,
    claimedAt: Option<int>, completedAt: Option<int>, attempts: Option<nat>)

  datatype Failure = NotFound | NotInProcessing(got: Status)

  function NewJob(organizationId: string, kind: string, payload: string, createdBy: Option<string>, now: int): Job {
    Job(organizationId, kind, Pending, payload, None, None, 0, None, None, None, createdBy, now)
  }

  function Claimed(job: Job, workerId: string, now: int): Job {
    job.(status := Processing, claimedBy := Some(workerId), claimedAt := Some(now), attempts := job.attempts + 1)
  }

  function Patched(job: Job, p: Patch): Job {
    job.(status := if p.status.Some? then p.status.value else job.status,
         result := if p.result.Some? then p.result else job.result,
         errorMessage := if p.errorMessage.Some? then p.errorMessage else job.errorMessage,
         claimedBy := if p.claimedBy.Some? then p.claimedBy else job.claimedBy,
         claimedAt := if p.claimedAt.Some? then p.claimedAt else job.claimedAt,
         completedAt := if p.completedAt.Some? then p.completedAt else job.completedAt,
         attempts := if p.attempts.Some? then p.attempts.value else job.attempts)
  }

  function CompletedPatch(result: string, now: int): Patch {
    Patch(Some(Completed), Some(result), None, None, None, Some(now), None)
  }

  function FailedPatch(message: string, now: int): Patch {
    Patch(Some(Failed), None, Some(message), None, None, Some(now), None)
  }

  predicate Claimable(job: Job, kind: Option<string>) {
    job.status == Pending && (kind.None? || job.kind == kind.value)
  }

  /** No claimable job is older. */
  ghost predicate OldestClaimable(jobs: map<Id, Job>, kind: Option<string>, id: Id) {
    && id in jobs && Claimable(jobs[id], kind)
    && forall other :: other in jobs && Claimable(jobs[other], kind) ==> jobs[id].createdAt <= jobs[other].createdAt
  }

  function Lookup(jobs: map<Id, Job>, id: Id, organizationId: string): Option<Job> {
    if id in jobs && jobs[id].organizationId == organizationId then Some(jobs[id]) else None
  }

  /** Pending, and of the kind asked for, if any. */
  ghost predicate PendingOf(job: Job, kind: Option<string>) {
    job.status == Pending && kind in {None, Some(job.kind)}
  }

  /** No job of the kind that is pending is older. */
  ghost predicate OldestPending(jobs: map<Id, Job>, kind: Option<string>, id: Id) {
    && id in jobs && PendingOf(jobs[id], kind)
    && forall other :: other in jobs && PendingOf(jobs[other], kind) ==> jobs[id].createdAt <= jobs[other].createdAt
  }

  ghost function Or<T>(patch: Option<T>, was: T): T {
    if patch.Some? then patch.value else was
  }

  ghost function OrElse<T>(patch: Option<T>, was: Option<T>): Option<T> {
    if patch.Some? then patch else was
  }

  /** Row map in insertion order, as a JavaScript `Map`; a fresh id stands for `randomUUID()`. */
  class JobRepository {
    var records: map<Id, Job>
    var order: seq<Id>

    ghost predicate Valid()
      reads this
    {
      && (forall i, j :: 0 <= i < j < |order| ==> order[i] != order[j])
      && (forall id :: id in order <==> id in records)
    }

    constructor ()
      ensures Valid() && records == map[]
    {
      records, order := map[], [];
    }

    method Create(id: Id, organizationId: string, kind: string, payload: string, createdBy: Option<string>, now: int)
      returns (job: Job)
      requires Valid() && id !in records
      modifies this
      ensures Valid() && records == old(records)[id := job] && order == old(order) + [id]
      ensures job == Job(organizationId, kind, Pending, payload, None, None, 0, None, None, None, createdBy, now)
    {
      job := NewJob(organizationId, kind, payload, createdBy, now);
      records, order := records[id := job], order + [id];
    }

    method FindById(id: Id, organizationId: string) returns (job: Option<Job>)
      ensures job == Lookup(records, id, organizationId)
      ensures job.Some? <==> id in records && records[id].organizationId == organizationId
      ensures job.Some? ==> job.value == records[id]
    {
      if id in records && records[id].organizationId == organizationId {
        return Some(records[id]);
      }
      return None;
    }

    /** Place of the oldest pending job of the kind; among equally old ones that of the first inserted. */
    method OldestPlace(kind: Option<string>) returns (best: Option<nat>)
      requires Valid()
      ensures best.None? ==> forall k :: 0 <= k < |order| ==> !PendingOf(records[order[k]], kind)
      ensures best.Some? ==>
        && best.value < |order| && PendingOf(records[order[best.value]], kind)
        && (forall k :: 0 <= k < best.value && PendingOf(records[order[k]], kind) ==>
              records[order[k]].createdAt > records[order[best.value]].createdAt)
        && (forall k :: best.value <= k < |order| && PendingOf(records[order[k]], kind) ==>
              records[order[k]].createdAt >= records[order[best.value]].createdAt)
    {
      best := None;
      var i := 0;
      while i < |order|
        invariant 0 <= i <= |order|
        invariant best.None? ==> forall k :: 0 <= k < i ==> !PendingOf(records[order[k]], kind)
        invariant best.Some? ==>
          && best.value < i && PendingOf(records[order[best.value]], kind)
          && (forall k :: 0 <= k < best.value && PendingOf(records[order[k]], kind) ==>
                records[order[k]].createdAt > records[order[best.value]].createdAt)
          && (forall k :: best.value <= k < i && PendingOf(records[order[k]], kind) ==>
                records[order[k]].createdAt >= records[order[best.value]].createdAt)
      {
        if Claimable(records[order[i]], kind)
           && (best.None? || records[order[i]].createdAt < records[order[best.value]].createdAt) {
          best := Some(i);
        }
        i := i + 1;
      }
    }

    /** Claims the oldest pending job of the kind; among equally old ones the first inserted. */
    method ClaimNext(workerId: string, kind: Option<string>, now: int) returns (claimed: Option<Id>)
      requires Valid()
      modifies this`records
      ensures Valid()
      ensures claimed.None? ==> records == old(records) && forall id :: id in records ==> !PendingOf(records[id], kind)
      ensures claimed.Some? ==>
        && OldestPending(old(records), kind, claimed.value)
        && var job := old(records)[claimed.value];
        && records == old(records)[claimed.value := job.(
             status := Processing, claimedBy := Some(workerId), claimedAt := Some(now), attempts := job.attempts + 1)]
        && forall i, j :: 0 <= i < j < |order| && order[j] == claimed.value
             && PendingOf(old(records[order[i]]), kind)
             ==> old(records[order[i]].createdAt) > old(records[claimed.value].createdAt)
    {
      var best := OldestPlace(kind);
      if best.None? {
        return None;
      }
      var id := order[best.value];
      records := records[id := Claimed(records[id], workerId, now)];
      return Some(id);
    }

    method Update(id: Id, organizationId: string, p: Patch) returns (job: Result<Job, Failure>)
      requires Valid()
      modifies this`records
      ensures Valid()
      ensures var found := Lookup(old(records), id, organizationId);
              if found.None? then job == Err(NotFound) && records == old(records)
              else job == Ok(Patched(found.value, p)) && records == old(records)[id := job.value]
      ensures job.Ok? ==>
        var was := old(records)[id];
        && job.value.status == Or(p.status, was.status) && job.value.attempts == Or(p.attempts, was.attempts)
        && job.value.result == OrElse(p.result, was.result)
        && job.value.errorMessage == OrElse(p.errorMessage, was.errorMessage)
        && job.value.claimedBy == OrElse(p.claimedBy, was.claimedBy)
        && job.value.claimedAt == OrElse(p.claimedAt, was.claimedAt)
        && job.value.completedAt == OrElse(p.completedAt, was.completedAt)
        && job.value == was.(
             status := job.value.status, result := job.value.result, errorMessage := job.value.errorMessage,
             claimedBy := job.value.claimedBy, claimedAt := job.value.claimedAt,
             completedAt := job.value.completedAt, attempts := job.value.attempts)
    {
      if id !in records || records[id].organizationId != organizationId {
        return Err(NotFound);
      }
      records := records[id := Patched(records[id], p)];
      return Ok(records[id]);
    }
  }

  class IngestionService {
    const repo: JobRepository

    constructor (repo: JobRepository)
      ensures this.repo == repo
    {
      this.repo := repo;
    }

    /** Read, check, then write; what other requests do in between is the subject of IngestionProtocol. */
    method Finish(id: Id, organizationId: string, p: Patch) returns (job: Result<Job, Failure>)
      requires repo.Valid()
      modifies repo`records
      ensures repo.Valid()
      ensures var found := Lookup(old(repo.records), id, organizationId);
              && (job.Ok? <==> found.Some? && found.value.status == Processing)
              && (found.None? ==> job == Err(NotFound))
              && (found.Some? && found.value.status != Processing ==> job == Err(NotInProcessing(found.value.status)))
              && (job.Ok? ==>
                    job.value == Patched(found.value, p) && repo.records == old(repo.records)[id := job.value])
              && (job.Err? ==> repo.records == old(repo.records))
    {
      var found := repo.FindById(id, organizationId);
      if found.None? {
        return Err(NotFound);
      }
      if found.value.status != Processing {
        return Err(NotInProcessing(found.value.status));
      }
      job := repo.Update(id, organizationId, p);
    }

    method Complete(id: Id, organizationId: string, result: string, now: int) returns (job: Result<Job, Failure>)
      requires repo.Valid()
      modifies repo`records
      ensures repo.Valid()
      ensures job.Ok? <==>
        Lookup(old(repo.records), id, organizationId).Some? && old(repo.records)[id].status == Processing
      ensures if job.Ok?
              then repo.records == old(repo.records)[id := old(repo.records)[id].(
                     status := Completed, result := Some(result), completedAt := Some(now))]
              else repo.records == old(repo.records)
    {
      job := Finish(id, organizationId, CompletedPatch(result, now));
    }

    method Fail(id: Id, organizationId: string, message: string, now: int) returns (job: Result<Job, Failure>)
      requires repo.Valid()
      modifies repo`records
      ensures repo.Valid()
      ensures job.Ok? <==>
        Lookup(old(repo.records), id, organizationId).Some? && old(repo.records)[id].status == Processing
      ensures if job.Ok?
              then repo.records == old(repo.records)[id := old(repo.records)[id].(
                     status := Failed, errorMessage := Some(message), completedAt := Some(now))]
              else repo.records == old(repo.records)
    {
      job := Finish(id, organizationId, FailedPatch(message, now));
    }
  }
}
