# Verified model of the bid-compliance platform's core

A Dafny model of the stateful and arithmetical core of the tender and compliance platform: the calendar
conversions and text pipeline of the Python document worker, and the queues, budgets, approvals, consent and
erasure logic of the NestJS API. `dafny verify dfyconfig.toml` checks the whole project. There is one module per
component; classes keep the fields and methods of the source's classes, and each changing method is proved against
a function of the old state, about which the lemmas below then speak.

The protocols are state machines: IngestionProtocol, InMemoryQueue, LlmBudget, RetentionProtocol and
DataSubjectProtocol. In these five every `await` between a read and a write that relies on it is a step boundary, so
their theorems about runs hold for every interleaving of any number of callers. A check on a row that has been read
belongs to the read, because only what was read decides it; "between read and write" is counted from there. Only the
budget guard keeps read and judgement apart, because how many calls have been judged would otherwise look like a bound.
`Run(states, events)` is a sequence of states in which each event takes one state to the next. In the other modules
operations follow one another.

## Files

| file | what it models |
|---|---|
| Gregorian.dfy, Hijri.dfy | closed-form day-number conversions |
| Compliance.dfy, Export.dfy | compliance matrix, export gate, CSV printer and a reader for it |
| Ingestion.dfy, IngestionProtocol.dfy | ingestion job rows, service, and concurrent workers |
| InMemoryQueue.dfy | in-process queue with retries and deduplication |
| LlmBudget.dfy | daily budget guard under concurrent calls |
| Webhooks.dfy | fan-out and the retry loop |
| Retention.dfy, RetentionProtocol.dfy | expiry policy, sweep, two-person approval |
| Consent.dfy | consent log, the ledger service, and the map the log stands for |
| DataSubject.dfy, DataSubjectProtocol.dfy | erasure across four tables, requests in sequence and with overlapping calls |
| UsageCounter.dfy, UtcDay.dfy | daily counters |
| Parsing.dfy, Chunking.dfy, Etimad.dfy | page split, anchored chunks, requirement walk |
| FitScoring.dfy | fit score |
| Outcomes.dfy, Sequences.dfy, Text.dfy | shared datatypes, sequence functions, trimming |

## Where the code and its description part ways

Each of these is a theorem about the code as written.

- The Hijri conversion is described as the tabular Islamic calendar (workers/docpipeline/src/docpipeline/dates.py:3-6).
  It is a different calendar with an 11-year cycle (`Hijri.ElevenYearCycle`). `Hijri.AgreesWithTabular` lists the
  years and months in which the two agree, none after year 21; in 1447 it is 136 days early (`Hijri.DriftIn1447`).
- The export gate is described as letting nothing critical and unsatisfied through
  (apps/api/src/compliance/compliance.service.ts:133-136). A critical requirement whose only evidence has expired is
  rated medium and passes: `Compliance.GateVersusDocumentation` gives the exact condition, `Compliance.ExpiredEvidencePasses`
  an input.
- The budget guard is described as refusing a call that would exceed the daily cap
  (apps/api/src/providers/llm/budget-guard.service.ts:34). It compares what is already spent. With positive limits, the
  request cap holds in all runs exactly when an organisation's calls never overlap between reading the totals and
  recording (`LlmBudget.RequestCapExactly`), and the cost cap exactly when as many calls as the request limit can let
  through are affordable at the dearest price (`LlmBudget.CostCapExactly`): one dear call already breaks it
  (`LlmBudget.OneDearCall`). The overshoot is bounded by the calls between read and record; bounding those between
  judgement and record bounds nothing (`LlmBudget.OneAdmittedBoundsNothing`).
- The current consent is described as the most recent event (apps/api/src/pdpl/consent-ledger.service.ts:75-80). Of
  events in one millisecond the oldest wins: a withdrawal can lose to its grant (`Consent.SameMillisecondWithdrawal`).
  `Consent.LastRecordedWins` gives the exact condition.
- Two overlapping decisions on one retention request both take effect, the later write replacing the earlier one
  (`RetentionProtocol.ApprovalOverwritten`), although the service refuses to decide a row twice in sequence.
  `RetentionProtocol.FrozenExactly` says in which runs decided rows stay as they are.
- The same holds for data-subject requests (`DataSubjectProtocol.FrozenExactly`). A denied request can be completed
  (`DataSubjectProtocol.DenialLost`), and an erasure executed twice at once overwrites its counts with zeros
  (`DataSubjectProtocol.CountsLost`).
- The next job is described as the oldest pending one (apps/api/src/ingestion/ingestion.service.ts:64). A claim locks
  the oldest row that is not locked, so a younger job can be claimed first (`IngestionProtocol.YoungerOvertakes`).
  `IngestionProtocol.ClaimTakesOldest` says exactly when a claim takes the oldest pending job, and
  `IngestionProtocol.OlderFirst` exactly when the older of two jobs stays ahead.
- An erasure that aborts on a user of another organisation leaves the audit rows it has already detached
  (`DataSubject.ErasureAborts`). A successful one rewrites users before consents, where its comment says after
  (apps/api/src/pdpl/data-subject.service.ts:315-330), and leaves the address in the details of earlier audit rows
  (`DataSubject.AddressStaysInAudit`).
- Retrying an already delivered webhook with no attempts left marks it failed without a call
  (`Webhooks.RetryOutcome`).
- A retention sweep passes the expiry date for the policy end as well, so it never flags a document as merely expired
  (`Retention.SweepNeverFlags`).
- The fit score is promised to lie in 0..100. It is NaN for a signal that is missing or converts to no number, and for
  a sector or risk named like a member of every JavaScript object (`FitScoring.ScoreInRange`,
  `FitScoring.ConstructorSector`). An override's range test lets through what is not a number
  (`FitScoring.OverrideMeaning`). Rounding each factor separately can turn 69.04 into a recommendation to bid
  (`FitScoring.RoundingWinsABid`).

## Model

| member | source | states |
|---|---|---|
| Gregorian.DecodeEncode | workers/docpipeline/src/docpipeline/dates.py:45-70 | every calendar date survives encoding to a day number and decoding back |
| Gregorian.EncodeDecode | workers/docpipeline/src/docpipeline/dates.py:45-70 | every day number, negative ones included, decodes to a calendar date that encodes back to it |
| Gregorian.EncodeNextDay | workers/docpipeline/src/docpipeline/dates.py:45-57 | the closed form grows by exactly one per day of the calendar with the 4/100/400 leap rule |
| Gregorian.CivilNext | workers/docpipeline/src/docpipeline/dates.py:60-70 | decoding consecutive numbers walks the calendar day by day |
| Gregorian.DayNumberCountsDays | workers/docpipeline/src/docpipeline/dates.py:45-70 | the closed form against counting: a date has day number n exactly when n single calendar days lead to it from the origin |
| Gregorian.EncodeOrder | workers/docpipeline/src/docpipeline/dates.py:45-57 | calendar order and day-number order are the same |
| Gregorian.DecodableRange | workers/docpipeline/src/docpipeline/dates.py:60-70 | decoding raises ValueError exactly outside 1721426..5373484, the years 1 to 9999 of Python's `date` |
| Hijri.DecodeEncode | workers/docpipeline/src/docpipeline/dates.py:77-87 | the formula is one-to-one on the calendar its month and leap terms imply: a decoder inverts it |
| Hijri.EncodeDecode | workers/docpipeline/src/docpipeline/dates.py:77-87 | and onto: every day number is the encoding of a valid date of that calendar |
| Hijri.EpochOnwards | workers/docpipeline/src/docpipeline/dates.py:74-87 | the dates from year 1 on fill exactly the day numbers from 1948440 on |
| Hijri.EncodeNext | workers/docpipeline/src/docpipeline/dates.py:77-87 | the next date of the implied calendar has the next day number |
| Hijri.EncodeOrder | workers/docpipeline/src/docpipeline/dates.py:77-87 | Hijri order and day-number order are the same |
| Hijri.ElevenYearCycle | workers/docpipeline/src/docpipeline/dates.py:83 | eleven years span exactly 3897 days and the leap pattern repeats |
| Hijri.ElevenMonths | workers/docpipeline/src/docpipeline/dates.py:80-81 | eleven months, run on past the twelfth if need be, span exactly 325 days, for any triple |
| Hijri.ConvertsAsItsDay | workers/docpipeline/src/docpipeline/dates.py:77-87 | any triple, valid or not, converts as the one date of the implied calendar with its day number, errors included |
| Hijri.ConvertsDayByDay | workers/docpipeline/src/docpipeline/dates.py:60-87 | in any month of any year, n days after a day that converts is the Gregorian date n days later, or ValueError exactly past the year 9999 |
| Hijri.ThirtiethOfEleven | workers/docpipeline/src/docpipeline/dates.py:77-87 | 1446-11-30, which the implied calendar lacks, converts to 2025-01-13 |
| Hijri.GregorianWalk | workers/docpipeline/src/docpipeline/dates.py:60-87 | consecutive Hijri dates convert to consecutive Gregorian dates |
| Hijri.GregorianOrder | workers/docpipeline/src/docpipeline/dates.py:60-87 | conversion preserves and reflects order |
| Hijri.CountedTogether | workers/docpipeline/src/docpipeline/dates.py:60-87 | every date from year 1 on is the n-th day counted from the first, for one n, and converts to the n-th day counted from 19 July 622, or to an error past the year 9999 |
| Hijri.ConvertibleDates | workers/docpipeline/src/docpipeline/dates.py:77-87 | the first and last Hijri date that convert without an error, and every one between |
| Hijri.TabularEncodesNext | workers/docpipeline/src/docpipeline/dates.py:3-6 | the reference formula really is the 30-year tabular calendar: one day number per day |
| Hijri.Deviation | workers/docpipeline/src/docpipeline/dates.py:77-87 | code minus tabular is [month 11] minus a drift within one day of (31y - 57)/330, never negative from year 1 |
| Hijri.AgreesWithTabular | workers/docpipeline/src/docpipeline/dates.py:77-87 | the exact years and months from year 1 on in which code and tabular calendar agree |
| Hijri.DriftIn1447 | workers/docpipeline/src/docpipeline/dates.py:77-87 | in 1447 the result is 136 days early, 135 in month 11 |
| Hijri.MonotoneOnTabularDates | workers/docpipeline/src/docpipeline/dates.py:77-87 | on tabular dates the code never runs backwards; two dates collide exactly when the first is a 30th the code's month lacks and the second the day after |
| Hijri.ConversionMonotone | workers/docpipeline/src/docpipeline/dates.py:60-87 | the converted dates of tabular dates do not run backwards either, and collide under the same condition |
| Compliance.RuleMeaning | apps/api/src/compliance/compliance.service.ts:42-52 | a known category is evidenced by documents of its own name and has its own owner; the rest share one rule |
| Compliance.ItemStatusMeaning | apps/api/src/compliance/compliance.service.ts:80-131 | satisfied and missing exactly when the vault's documents say so, the risk by status and criticality; the cited document is one that counts; text, category, owner and due date are kept |
| Compliance.EvidenceIsFirst | apps/api/src/compliance/compliance.service.ts:87-110 | the cited document is the first in vault order in force, or else the first expired |
| Compliance.GateBlocksExactly | apps/api/src/compliance/compliance.service.ts:62-149 | the blocking rows are, in order, those of critical, non-overridden requirements with no covering document; allowed exactly when there is none |
| Compliance.MatrixMeaning | apps/api/src/compliance/compliance.service.ts:62-78 | one row per requirement, in order, the next version, and the time of its making |
| Compliance.GateOnAnyMatrix | apps/api/src/compliance/compliance.service.ts:137-149 | on any matrix, what blocks is critical, not satisfied and not overridden, and nothing else |
| Compliance.AllowedIsMonotone | apps/api/src/compliance/compliance.service.ts:62-149 | allowed survives adding or permuting documents, dropping requirements, adding overrides and the passing of time |
| Compliance.StatusesMoveBothWays | apps/api/src/compliance/compliance.service.ts:87-110 | item statuses are not monotone in time: expiry takes one item down and another up |
| Compliance.GateVersusDocumentation | apps/api/src/compliance/compliance.service.ts:133-149 | the exact condition under which the gate allows what its documentation would block |
| Compliance.ExpiredEvidencePasses | apps/api/src/compliance/compliance.service.ts:95-149 | a critical requirement with only expired evidence is let through |
| Compliance.TasksExactly | apps/api/src/compliance/compliance.service.ts:151-168 | the tasks are exactly, in order, title, owner, due date and severity of each requirement without evidence in force |
| Compliance.TasksOnAnyMatrix | apps/api/src/compliance/compliance.service.ts:151-168 | on any matrix, an item calls for a task exactly when it is missing or partial |
| Export.FieldRoundTrip | apps/api/src/export/export.service.ts:31-33 | reading an escaped field (RFC 4180, section 2) gives back any text and stops at its end |
| Export.QuotedExactly | apps/api/src/export/export.service.ts:31-33 | a field is changed by escaping exactly when it holds a quote, a comma or a line feed; a lone CR is not a reason |
| Export.RecordRoundTrip | apps/api/src/export/export.service.ts:66-79 | reading a printed record gives back its fields |
| Export.FileRoundTrip | apps/api/src/export/export.service.ts:66-80 | any list of records of two or more arbitrary fields comes back unchanged |
| Export.MatrixCsvRoundTrip | apps/api/src/export/export.service.ts:66-80 | reading the emitted CSV gives the header and each item's six columns, in order |
| Export.ColumnsMatchHeader | apps/api/src/export/export.service.ts:67-76 | each of the six columns holds what the header names |
| Export.NamesRead | apps/api/src/export/export.service.ts:69-77 | risks and statuses are printed by their names |
| Export.MatrixCsvInjective | apps/api/src/export/export.service.ts:66-80 | two matrices print alike exactly when all printed columns agree |
| Export.ColumnsDetermine | apps/api/src/export/export.service.ts:69-76 | the six columns determine an item but for its text, its due date and an empty evidence id |
| Export.PackOrBlocked | apps/api/src/export/export.service.ts:46-116 | a pack exactly when every critical requirement is covered or overridden, its CSV reading back as the matrix; otherwise the uncovered ids |
| Ingestion.JobRepository.ClaimNext | apps/api/src/repositories/fake/fake-ingestion-job.repository.ts:61-80 | claims the oldest pending job of the kind, the first inserted among equals, changing that row only; none exactly when nothing is pending |
| Ingestion.JobRepository.Create | apps/api/src/repositories/fake/fake-ingestion-job.repository.ts:16-36 | adds one pending row with no attempts and touches no other |
| Ingestion.JobRepository.Update | apps/api/src/repositories/fake/fake-ingestion-job.repository.ts:82-101 | a partial update of any of seven fields of one row of the organisation, without any status check |
| Ingestion.IngestionService.Finish | apps/api/src/ingestion/ingestion.service.ts:73-108 | finishes a row exactly when it exists in the organisation and is in processing; each error leaves the table alone |
| Ingestion.IngestionService.Complete | apps/api/src/ingestion/ingestion.service.ts:73-90 | completing sets status, result and time of that row and nothing else |
| Ingestion.IngestionService.Fail | apps/api/src/ingestion/ingestion.service.ts:92-108 | failing sets status, message and time of that row and nothing else |
| IngestionProtocol.RunKeepsInv | workers/docpipeline/src/docpipeline/consumer.py:84-107 | in every reachable state no job is locked or held by two sessions; attempts is 0 when pending and 1 after; result, message and times match the status |
| IngestionProtocol.NeverRejected | apps/api/src/ingestion/ingestion.service.ts:73-108 | a claim finds the row it locked still pending, the status check of a holder always passes, and its later unguarded write still finds the row in processing |
| IngestionProtocol.RowsOnlyAdvance | apps/api/src/ingestion/ingestion.service.ts:73-108 | over every stretch of every run rows are kept, statuses only advance, and terminal rows never change |
| IngestionProtocol.AttemptsCountClaims | apps/api/src/repositories/prisma/ingestion-job.prisma.repository.ts:54-83 | attempts equals the number of claims of the job in the run, which is at most one |
| IngestionProtocol.OlderFirst | apps/api/src/repositories/prisma/ingestion-job.prisma.repository.ts:54-83 | of two free jobs of a kind the older is taken first and stays ahead through the run if and only if no claim of the older rolls back after the younger was taken |
| IngestionProtocol.ClaimTakesOldest | apps/api/src/repositories/prisma/ingestion-job.prisma.repository.ts:54-83 | with enqueue times that do not go back, a claim takes the oldest pending job of its kind if and only if every older one locked when it locked has stopped being pending when it is written |
| IngestionProtocol.YoungerOvertakes | apps/api/src/repositories/prisma/ingestion-job.prisma.repository.ts:58-70 | a run in which the younger job is in processing while the older, locked, is still pending |
| IngestionProtocol.ClaimNamesWorker | apps/api/src/repositories/prisma/ingestion-job.prisma.repository.ts:72-80 | a written claim puts the row in processing with the locking worker's name, the time and one attempt, and changes nothing else in it |
| IngestionProtocol.WriteSettles | workers/docpipeline/src/docpipeline/consumer.py:94-107 | a session's write completes its job with the handler's result, or fails it with the message, and touches no other row |
| IngestionProtocol.OnlyTheHolderFinishes | workers/docpipeline/src/docpipeline/consumer.py:84-107 | a row in processing changes only by the write of the one session that holds it |
| InMemoryQueue.InMemoryQueueProvider.Enqueue | apps/api/src/providers/queue/in-memory.queue.provider.ts:23-54 | refuses when closed, returns the key when it is a duplicate, else accepts one scheduled job |
| InMemoryQueue.InMemoryQueueProvider.Close | apps/api/src/providers/queue/in-memory.queue.provider.ts:63-67 | forgets handlers and keys, keeps every job |
| InMemoryQueue.InMemoryQueueProvider.RunUntilHandler | apps/api/src/providers/queue/in-memory.queue.provider.ts:74-80 | drops the job when closed or unhandled, else starts the handler and counts the attempt |
| InMemoryQueue.InMemoryQueueProvider.RunAfterHandler | apps/api/src/providers/queue/in-memory.queue.provider.ts:81-93 | done on success; rescheduled while attempts remain; otherwise exhausted |
| InMemoryQueue.RunKeepsInv | apps/api/src/providers/queue/in-memory.queue.provider.ts:23-94 | in every schedule attempts stay within the limit and no two jobs share a queue and a key |
| InMemoryQueue.EnqueueMeaning | apps/api/src/providers/queue/in-memory.queue.provider.ts:23-54 | by the events before it, an enqueue fails after a close, answers a key already accepted, or adds one scheduled job with its queue, name, payload and options |
| InMemoryQueue.FireMeaning | apps/api/src/providers/queue/in-memory.queue.provider.ts:69-82 | when a timer fires the handler starts, with one attempt more, exactly when an event gave its queue a handler and none closed the provider; otherwise the job is dropped |
| InMemoryQueue.ScheduleEvolves | apps/api/src/providers/queue/in-memory.queue.provider.ts:63-94 | accepted jobs are never lost, settled ones never change, and once closed no handler starts and no job is accepted |
| InMemoryQueue.StartsAreCounted | apps/api/src/providers/queue/in-memory.queue.provider.ts:69-94 | a handler starts as often as attemptsMade says, at most max(1, maxAttempts) times |
| InMemoryQueue.OutcomesAreCounted | apps/api/src/providers/queue/in-memory.queue.provider.ts:81-93 | done exactly when the handler succeeded once; every other finished attempt failed; exhausted means all did |
| InMemoryQueue.DedupeMeaning | apps/api/src/providers/queue/in-memory.queue.provider.ts:32-39 | an enqueue is a no-op exactly when an accepted job of the queue already carries its non-empty key |
| InMemoryQueue.SchedulesEnd | apps/api/src/providers/queue/in-memory.queue.provider.ts:69-94 | with no new jobs, timer and handler events in any order are bounded by a measure on the remaining attempts |
| InMemoryQueue.Quiescent | apps/api/src/providers/queue/in-memory.queue.provider.ts:69-94 | the measure is used up exactly when every job is done, exhausted or dropped |
| LlmBudget.UsageLogRepository.DailyTotals | apps/api/src/repositories/fake/fake-llm-usage-log.repository.ts:38-55 | the accumulating loop computes count, tokens and cost of the organisation's ok rows since the given time |
| LlmBudget.Appended | apps/api/src/repositories/fake/fake-llm-usage-log.repository.ts:38-55 | a row adds one request, its tokens and its cost exactly when it is a success of the organisation, not older than the given time |
| LlmBudget.BudgetGuard.AssertCanSpend | apps/api/src/providers/llm/budget-guard.service.ts:35-58 | the request limit is named when reached, the cost limit only when it alone is, by the totals since the start of the UTC day |
| LlmBudget.ReadsItsDay | apps/api/src/providers/llm/budget-guard.service.ts:35-37 | in every run a call reads the totals since the start of the UTC day it began on |
| LlmBudget.NewDayAllows | apps/api/src/providers/llm/budget-guard.service.ts:35-72 | whatever was spent on days before, the first call of a day is let through |
| LlmBudget.RowRecorded | apps/api/src/sector/sector-classifier.service.ts:121-136 | the only rows a call adds: a success with its tokens and cost, or an error without either |
| LlmBudget.BoundedOvershoot | apps/api/src/sector/sector-classifier.service.ts:92-136 | with at most k calls at once between reading the totals and recording, a day's ok count never exceeds limit - 1 + k and its cost stays below limit + k times the dearest call, in every interleaving and across midnight |
| LlmBudget.OneAdmittedBoundsNothing | apps/api/src/providers/llm/budget-guard.service.ts:35-58 | for every n a run that records n calls although never more than one is between its judgement and its record |
| LlmBudget.OvershootIsReached | apps/api/src/sector/sector-classifier.service.ts:92-136 | for every k of at least 1 a run with k calls between read and record that reaches limit - 1 + k requests |
| LlmBudget.OverspendIsReached | apps/api/src/sector/sector-classifier.service.ts:92-136 | whenever limit - 1 + k calls at the dearest price would exceed the cost limit, some run does exceed it |
| LlmBudget.OneDearCall | apps/api/src/providers/llm/budget-guard.service.ts:48-57 | a single call of five dollars passes a limit of one |
| LlmBudget.NothingSpent | apps/api/src/providers/llm/budget-guard.service.ts:35-58 | with a limit of zero or less no call is ever let through and nothing is spent |
| LlmBudget.RequestCapExactly | apps/api/src/providers/llm/budget-guard.service.ts:34-47 | for any limits and prices: the request cap holds in all runs if and only if it is not negative, and either a limit of zero or less lets no call through or k, the most calls at once between reading the totals and recording, is at most 1 |
| LlmBudget.CostCapExactly | apps/api/src/providers/llm/budget-guard.service.ts:34-57 | for any limits and prices: the cost cap holds in all runs if and only if it is not negative, and either no call gets through, or k is 0, or (request limit - 1 + k) times the dearest price is within it, with the same k |
| Webhooks.WebhookDispatcher.Attempt | apps/api/src/webhooks/webhook-dispatcher.service.ts:100-157 | the retry loop brings the row to its settled value, makes as many calls as attempts it records, and changes no other row |
| Webhooks.WebhookDispatcher.Publish | apps/api/src/webhooks/webhook-dispatcher.service.ts:67-89 | one new settled delivery per subscription, in order; older rows untouched |
| Webhooks.SettledMeaning | apps/api/src/webhooks/webhook-dispatcher.service.ts:105-157 | delivered exactly when an attempt within the limit is answered with 200 to 299; attempts stop at the first such answer; the recorded status and error are those of the last attempt |
| Webhooks.PublishSettles | apps/api/src/webhooks/webhook-dispatcher.service.ts:67-157 | with a positive limit a new delivery ends delivered exactly when one of the first maxAttempts answers has a status from 200 to 299, and failed, after all of them, otherwise; it keeps subscription, organisation, event type and payload |
| Webhooks.AlwaysUnavailable | apps/api/src/webhooks/webhook-dispatcher.service.ts:121-156 | a receiver that always answers 503 is tried maxAttempts times and the delivery fails with HTTP 503 |
| Webhooks.ThreeDigits | apps/api/src/webhooks/webhook-dispatcher.service.ts:135 | a status is written as its three digits |
| Webhooks.RetryOutcome | apps/api/src/webhooks/webhook-dispatcher.service.ts:92-157 | a retry ends delivered exactly when attempts are left and one succeeds, whatever the row was before |
| Webhooks.TotalSleep | apps/api/src/webhooks/webhook-dispatcher.service.ts:153 | the doubling pauses add up to base * (2^(k-1) - 1) for k attempts |
| Retention.RetentionActionService.Request | apps/api/src/pdpl/retention-action.service.ts:32-61 | refuses a blank reason, then an unknown document; else appends one pending row and one audit row |
| Text.TrimMeaning | apps/api/src/pdpl/retention-action.service.ts:39-49 | trimming takes away exactly the white space at both ends |
| Retention.RetentionActionService.Decide | apps/api/src/pdpl/retention-action.service.ts:63-108 | decides only a pending row of the organisation, approval not by its requestor, changing that row only |
| Retention.RetentionActionService.Sweep | apps/api/src/pdpl/retention-action.service.ts:132-165 | appends exactly one destroy request and its audit entry, in document order, per eligible document of the organisation with nothing in flight |
| Retention.OverdueMeaning | apps/api/src/pdpl/retention-action.service.ts:132-154 | a document is swept exactly when it is the organisation's, has expired, and every request for it was denied |
| Retention.RequestsMeaning | apps/api/src/pdpl/retention-action.service.ts:155-161 | the requests a sweep adds are pending ones to destroy the swept documents, in order |
| Retention.SweptAuditMeaning | apps/api/src/pdpl/retention-action.service.ts:52-59 | and its audit entries name those requests, in order |
| Retention.SweepAgain | apps/api/src/pdpl/retention-action.service.ts:126-165 | an immediate second sweep finds nothing, a later one only documents that came due since |
| Retention.SweepNeverFlags | apps/api/src/pdpl/retention-action.service.ts:167-179 | through the sweep the policy never says flag-expired and destroys exactly the expired |
| Retention.EvaluateMeaning | apps/api/src/pdpl/retention.service.ts:31-45 | destruction exactly past the policy end; otherwise flagged exactly when expired and not archived |
| RetentionProtocol.SeparationOfDuties | apps/api/src/pdpl/retention-action.service.ts:63-108 | in every interleaving of reads and writes an approved row was decided by someone other than its requestor |
| RetentionProtocol.RowsOnlyAdvance | apps/api/src/pdpl/retention-action.service.ts:63-108 | requests are never lost, and a decided row never becomes pending again |
| RetentionProtocol.DecidedRowsFrozen | apps/api/src/pdpl/retention-action.service.ts:63-108 | decided rows never change in a run where no decision is written between read and write of another on the row |
| RetentionProtocol.FrozenExactly | apps/api/src/pdpl/retention-action.service.ts:63-108 | with an advancing clock, decided rows never change in a run if and only if no decision is so overtaken |
| RetentionProtocol.ApprovalOverwritten | apps/api/src/pdpl/retention-action.service.ts:63-108 | a run from the start in which an approval becomes a denial |
| Consent.ConsentEventRepository.FindCurrent | apps/api/src/repositories/fake/fake-consent-event.repository.ts:52-66 | the latest matching event, the oldest row among equals; null exactly when none matches |
| Consent.ConsentEventRepository.AnonymiseSubject | apps/api/src/repositories/fake/fake-consent-event.repository.ts:68-85 | puts the pseudonym for the address and no user id in exactly the subject's rows of the organisation, and counts them |
| Consent.ConsentLedgerService.Record | apps/api/src/pdpl/consent-ledger.service.ts:30-66 | appends one event, granted or withdrawn as the text says, and one audit row exactly when address, purpose and state are acceptable; recorded strictly later than its key's events, it makes consent active exactly when the text was "granted" |
| Consent.ConsentLedgerService.CurrentStateOf | apps/api/src/pdpl/consent-ledger.service.ts:81-93 | the state of the current event, or nothing |
| Consent.ConsentLedgerService.MaySend | apps/api/src/pdpl/consent-ledger.service.ts:99-108 | default deny: true only for a current grant |
| Consent.CurrentMeaning | apps/api/src/repositories/fake/fake-consent-event.repository.ts:52-66 | the head of the stable descending sort is at least as late as all matches and later than all earlier rows |
| Consent.LastRecordedWins | apps/api/src/pdpl/consent-ledger.service.ts:75-93 | the last recorded event is the current one if and only if all earlier ones of its key are strictly older |
| Consent.SameMillisecondWithdrawal | apps/api/src/repositories/fake/fake-consent-event.repository.ts:64-65 | a withdrawal in the same millisecond as the grant leaves consent active |
| Consent.LogRefinesLedger | apps/api/src/repositories/fake/fake-consent-event.repository.ts:11-85 | for every sequence of strictly timed records and of erasures, the log answers as a map from organisation, subject and purpose to last state |
| Consent.ErasedStaysErased | apps/api/src/repositories/fake/fake-consent-event.repository.ts:68-85 | an erased subject has no active consent for a purpose until a new grant for it, whatever else is recorded or erased |
| Consent.NothingUntilRecorded | apps/api/src/repositories/fake/fake-consent-event.repository.ts:68-85 | until anything is recorded for an erased subject there is no event of the subject |
| Consent.OtherOrganisationsUnaffected | apps/api/src/repositories/fake/fake-consent-event.repository.ts:74-83 | an erasure changes no answer of another organisation |
| DataSubject.UserRepository.Anonymise | apps/api/src/repositories/fake/fake-user.repository.ts:66-80 | that user's row gets the pseudonym, "[erased]" and no password, keeping id, role and organisation; it fails for a user elsewhere |
| DataSubject.AuditEventRepository.AnonymiseUser | apps/api/src/repositories/fake/fake-audit-event.repository.ts:49-61 | nulls the user id of exactly that user's rows in the organisation and counts them |
| DataSubject.DataSubjectService.CreateRequest | apps/api/src/pdpl/data-subject.service.ts:56-82 | one pending request and one audit row, or neither when the address has no @ |
| DataSubject.DataSubjectService.Decide | apps/api/src/pdpl/data-subject.service.ts:100-147 | decides exactly a pending request of the organisation, approval not by its requestor; the row, its notes and the audit row field by field |
| DataSubject.DataSubjectService.ExecuteErasure | apps/api/src/pdpl/data-subject.service.ts:301-333 | the three repositories end as the erasure function of the four tables says, aborts included |
| DataSubject.DataSubjectService.Execute | apps/api/src/pdpl/data-subject.service.ts:157-245 | the whole store after executing an access, erasure or rectification request, errors included |
| DataSubject.ErasureIsComplete | apps/api/src/pdpl/data-subject.service.ts:206-229 | after a success no audit row names the subject (unless as approver), the user row has the pseudonym, "[erased]" and no password, consent rows have the pseudonym and no user id, lookup finds nobody (unless shared), counts equal the rows changed, all other fields and rows are kept, one audit row is added |
| DataSubject.ErasureAborts | apps/api/src/pdpl/data-subject.service.ts:309-324 | it aborts exactly when the address first belongs to another organisation's user, leaving only the detached audit rows behind |
| DataSubject.NothingToAccessAfterErasure | apps/api/src/pdpl/data-subject.service.ts:266-299 | a subject-access snapshot taken afterwards holds no user, audit row or consent, only the completed request |
| DataSubject.SnapshotMeaning | apps/api/src/pdpl/data-subject.service.ts:266-299 | a snapshot holds exactly the audit, consent and request rows that name the subject, and the first user with the address without the password |
| DataSubject.OthersEraseNothing | apps/api/src/pdpl/data-subject.service.ts:178-204 | executing an access or a rectification completes the request, attaching the snapshot of an access, adds one audit row and changes nothing else |
| DataSubject.RequestLifecycle | apps/api/src/pdpl/data-subject.service.ts:100-262 | over every sequence of whole operations requests only go pending to denied or through approved to completed, closed ones never change, and approvals were never the requestor's own |
| DataSubjectProtocol.ExecutionUninterrupted | apps/api/src/pdpl/data-subject.service.ts:157-333 | the steps of one execution, run with nothing in between, do what the whole operation does, errors and aborts included |
| DataSubjectProtocol.SeparationOfDuties | apps/api/src/pdpl/data-subject.service.ts:100-176 | in every interleaving approved requests were approved, and are executed, by someone other than the requestor |
| DataSubjectProtocol.TermsNeverChange | apps/api/src/pdpl/data-subject.service.ts:56-245 | in every interleaving requests are kept, their terms never change, and none becomes pending again |
| DataSubjectProtocol.ClosedRowsFrozen | apps/api/src/pdpl/data-subject.service.ts:100-245 | denied and completed requests never change in a run where no call closes one between read and write of another |
| DataSubjectProtocol.FrozenExactly | apps/api/src/pdpl/data-subject.service.ts:100-245 | with an advancing clock, denied and completed requests never change in a run if and only if no call is so overtaken |
| DataSubjectProtocol.CompletedByTwo | apps/api/src/pdpl/data-subject.service.ts:100-262 | without overtaking, completed requests were approved by someone other than the requestor |
| DataSubjectProtocol.CompletedByRequestor | apps/api/src/pdpl/data-subject.service.ts:100-262 | in every run a completed request names its requestor as decider if and only if the last decision written on it was the requestor's own denial |
| DataSubjectProtocol.InterruptedErasure | apps/api/src/pdpl/data-subject.service.ts:301-333 | when an erasure writes its request, whatever ran in between, audit rows that name the subject and consent rows of the address are only those added since its own rewrites, and by which events |
| DataSubjectProtocol.DenialLost | apps/api/src/pdpl/data-subject.service.ts:124-245 | a run that completes a request denied by its requestor |
| DataSubjectProtocol.CountsLost | apps/api/src/pdpl/data-subject.service.ts:206-229 | a run in which a second execution overwrites the counts of the first with zeros |
| DataSubject.AddressStaysInAudit | apps/api/src/pdpl/data-subject.service.ts:72-80 | over every sequence of operations the address of each request stays in the details of some audit row |
| UsageCounter.UsageCounterRepository.Bump | apps/api/src/repositories/fake/fake-usage-counter.repository.ts:14-35 | replaces or appends the row of the key and returns its new count |
| UsageCounter.UsageCounterRepository.SumRange | apps/api/src/repositories/fake/fake-usage-counter.repository.ts:51-63 | per metric the sum over the half-open window, a metric present exactly when it has a row there |
| UsageCounter.UsageCounterService.Bump | apps/api/src/billing/usage-counter.service.ts:26-33 | bumps today's row and keeps one row per organisation, day and metric |
| UsageCounter.UsageCounterService.Today | apps/api/src/billing/usage-counter.service.ts:35-44 | every metric's count for the current UTC day |
| UsageCounter.BumpMovesOneCount | apps/api/src/repositories/fake/fake-usage-counter.repository.ts:14-35 | a bump moves the count of its own key by delta and no other |
| UsageCounter.BumpMovesSum | apps/api/src/repositories/fake/fake-usage-counter.repository.ts:14-63 | and the sum of exactly those windows that hold the day |
| UsageCounter.CountsAreSums | apps/api/src/repositories/fake/fake-usage-counter.repository.ts:14-63 | after any bumps each count is the sum of its deltas and each range sum the sum of the deltas of its days |
| UsageCounter.WindowsAddUp | apps/api/src/repositories/fake/fake-usage-counter.repository.ts:51-63 | adjacent windows add up |
| UsageCounter.DayWindow | apps/api/src/billing/usage-counter.service.ts:35-70 | the window of one UTC day sums to that day's count |
| Parsing.JoinSplit | workers/docpipeline/src/docpipeline/parsing.py:44-50 | joining the split pages gives back the source text |
| Parsing.SplitJoin | workers/docpipeline/src/docpipeline/parsing.py:44-50 | and splitting joined pages without breaks gives back the pages |
| Parsing.NativePages | workers/docpipeline/src/docpipeline/parsing.py:44-50 | pages are the parts between form feeds, numbered from 1 |
| Chunking.ChunkDocument | workers/docpipeline/src/docpipeline/chunking.py:18-33 | the nested loops build the list the lemmas speak of; an error exactly for max_chars of 0 or less |
| Chunking.DocumentChunks | workers/docpipeline/src/docpipeline/chunking.py:24-32 | chunk indices run 0..n-1 across pages |
| Chunking.PageAnchors | workers/docpipeline/src/docpipeline/chunking.py:27-31 | each chunk is the page slice at its offset and not blank; chunks of a page follow each other without overlap |
| Chunking.PageCoverage | workers/docpipeline/src/docpipeline/chunking.py:27-31 | every non-blank character of a page lies in exactly one of its chunks |
| Chunking.DocumentCoverage | workers/docpipeline/src/docpipeline/chunking.py:24-32 | of all chunks of a document whose pages are numbered apart, exactly one of its page holds a non-blank character |
| Chunking.DocumentAnchors | workers/docpipeline/src/docpipeline/chunking.py:25-31 | every chunk of a document quotes one of its pages |
| Chunking.DocumentInk | workers/docpipeline/src/docpipeline/chunking.py:18-33 | the non-blank characters of all chunks are the document's, in order |
| Chunking.SourceInk | workers/docpipeline/src/docpipeline/parsing.py:44-50 | from source text through pages to chunks no ink is lost, repeated or reordered |
| Chunking.OcrOnlyForBlank | workers/docpipeline/src/docpipeline/parsing.py:65-74 | the OCR fallback is taken exactly when the source is all white space |
| Etimad.ParseRequirements | workers/docpipeline/src/docpipeline/etimad.py:155-196 | the walk over a text's stripped, non-blank lines yields the declared requirements |
| Etimad.Walk | workers/docpipeline/src/docpipeline/etimad.py:177-196 | the loop and its two variables compute the declared requirements, for any line tests |
| Etimad.NeverHeaderAndBullet | workers/docpipeline/src/docpipeline/etimad.py:86-108 | no line is both a header and a bullet |
| Etimad.TestsMeaning | workers/docpipeline/src/docpipeline/etimad.py:76-108 | what is a bullet, what is its text and what is a header, by marks, item numbers, last character and length |
| Etimad.StrippedOneMore | workers/docpipeline/src/docpipeline/etimad.py:157 | each line reaches the walk stripped and in its place, unless it is blank |
| Etimad.DeclaredMeaning | workers/docpipeline/src/docpipeline/etimad.py:180-196 | in line order, exactly the bullet lines with text whose nearest preceding header mentions requirements, each with its text and that header's category |
| Etimad.SectionsIndependent | workers/docpipeline/src/docpipeline/etimad.py:180-196 | from a header on, what is emitted does not depend on the lines before it |
| FitScoring.TimelineFollowsRamp | apps/api/src/fit-scoring/fit-scoring.service.ts:74-79 | the four-decimal timeline stays within 0.00005 of a straight line from 0.1 to 1, and in that range |
| FitScoring.ClampMeaning | apps/api/src/fit-scoring/fit-scoring.service.ts:69-72 | a signal counts for itself between 0 and 1, for the nearer end outside, and NaN itself for nothing |
| FitScoring.ConversionMeaning | apps/api/src/fit-scoring/fit-scoring.service.ts:69-79 | in place of a number null counts as 0, a convertible value as its number, and what is missing or converts to none makes NaN |
| FitScoring.RiskMeaning | apps/api/src/fit-scoring/fit-scoring.service.ts:63-67 | what each risk counts for, unknown ones as high |
| FitScoring.IdealByPack | apps/api/src/fit-scoring/fit-scoring.service.ts:42-61 | the points out of 100 each sector gives for capability, timeline, evidence and risk, unknown sectors as default |
| FitScoring.ScoreExplained | apps/api/src/fit-scoring/fit-scoring.service.ts:91-127 | the four contributions are the rounded shares, in order, add up to the score, and the score decides the recommendation at 70 and 40 |
| FitScoring.ScoreInRange | apps/api/src/fit-scoring/fit-scoring.service.ts:83-127 | the score is a whole number in 6..100 exactly when the days convert to a number, capability and readiness do or are NaN itself, and neither sector nor risk is named like an inherited member; otherwise NaN, and no bid |
| FitScoring.ConstructorSector | apps/api/src/fit-scoring/fit-scoring.service.ts:84-85 | perfect signals in the sector named constructor score NaN |
| FitScoring.RangeIsTight | apps/api/src/fit-scoring/fit-scoring.service.ts:83-127 | both 6 and 100 are reached |
| FitScoring.ScoreNearIdeal | apps/api/src/fit-scoring/fit-scoring.service.ts:91-111 | four roundings move the score by at most 2 from the weighted sum, and by at most 2.001 from the one with the unrounded timeline |
| FitScoring.ScoreMonotone | apps/api/src/fit-scoring/fit-scoring.service.ts:83-127 | improving any signals in a sector never lowers score or recommendation |
| FitScoring.RecommendationSafe | apps/api/src/fit-scoring/fit-scoring.service.ts:112-117 | away from the thresholds by the rounding error the recommendation is that of the unrounded score |
| FitScoring.RoundingWinsABid | apps/api/src/fit-scoring/fit-scoring.service.ts:100-117 | signals, away from rounding ties, whose unrounded score is 69.04 and whose recommendation is to bid |
| FitScoring.OverrideMeaning | apps/api/src/fit-scoring/fit-scoring.service.ts:129-154 | accepted exactly with a non-blank reason and a score that converts to none outside 0..100; the computed score and factors are kept; a number in range exactly when a number was given |

## Left out

- Text handling around dates: `normalize_deadline` and `_looks_hijri` recognise dates with regular expressions.
- Floating point: costs, scores and weights are exact rationals. Infinite numbers are not modelled; where a fit signal is due they act as a very large or very small one.
- Fit signals whose conversion throws: a sector that is neither text nor null, a reason that is not text, an object without a usable `toString`.
- UTF-16: JavaScript strings are sequences of characters; the printer and its reader never split one.
- Wording of the JSON artifacts of a pack, artifact names, the titles of log lines and `updatedAt`, `lastTriedAt` and row-creation times that no rule reads.
- Random row ids: fresh parameters for ingestion jobs, positions or counters for tables that only grow. A pseudonym address is a parameter assumed not to be in use.
- A category, a sector or a usage metric named like a member of every JavaScript object, except in FitScoring where it decides the result. Usage keys whose parts contain the separator `|`.
- Database behaviour: isolation of transactions beyond the row locks of a claim. The class `JobRepository` claims in one step, as the fake does; the protocol locks first and claims later.
- Lengths of delays, backoffs and timeouts: timers of the in-memory queue fire in any order and the network answers anything, so the results do not depend on them. The polling loop `run_forever` of the worker is not modelled.
- In `classify`, the cache test, the prompt, the tender columns, the counters and the audit row; what is modelled is the start of the day, the read, the judgement, the call and the record, any of which may also be lost.
- Environment limits that are not numbers, which would switch the budget guard off.
- Two sweeps at once: each checks and creates in separate steps, so the sweep results are for sweeps that do not overlap.
- Reads of an access snapshot at different times: its four reads are one step. A request row and its audit row are written in one step.
- A webhook retry that overlaps a publication of the same delivery: `Attempt` runs to its end before anything else touches the row.
- In-memory destruction requests of `RetentionService`: a second, simpler copy of the approval rules, kept in one process.
- Audit rows of ingestion, which no modelled rule reads back.
- Rows handed out by the fakes that alias the stored row: methods return values.
- In `etimad.py`, the numbered-bullet pattern, the keyword tests and the category choice are parameters; title and tender number are not modelled.
- Signature headers, HTTP, authentication, tenant guards, the web pages and the plain CRUD services.
- FitScoring.ScoreMonotone: compares scores within one sector, because packs weigh the signals differently.
- Consent.LogRefinesLedger: assumes strictly increasing record times for each organisation, subject and purpose; without them the older event may win, as LastRecordedWins says exactly.
- LlmBudget.BoundedOvershoot: prices are assumed not negative, as token counts times rates are; a call that begins before midnight and reads after it sees the cost of both days.
