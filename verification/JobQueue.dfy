/** The background job queue of services/jobs.py as a state machine over committed steps. */
module JobQueue {
  import opened Statuses
  import opened Wrappers

  type JobId = nat
  type DocId = nat
  type Time = int

  datatype JobType =
    | TEXT_EXTRACTION | OCR | THUMBNAIL | INDEXING | EMBEDDING | CLASSIFICATION
    | SUMMARY | METADATA_SUGGESTION | BACKUP | BACKUP_VERIFY

  datatype JobStatus = QUEUED | RUNNING | COMPLETED | FAILED | CANCELLED

  const INBOX_PREFLIGHT_JOB_TYPES := {TEXT_EXTRACTION, OCR, THUMBNAIL, METADATA_SUGGESTION}
  const PREPARING_STATUSES := {PENDING_PROCESSING, PROCESSING}

  datatype Job = Job(
    jobType: JobType, status: JobStatus, document: Option<DocId>, priority: int, createdAt: Time,
    retryCount: nat, maxRetries: nat, availableAt: Option<Time>, lockedBy: Option<string>, lockedAt: Option<Time>)

  datatype Doc = Doc(inbox: bool, trashed: bool, status: ProcessingStatus, addedDate: Time, createdAt: Time)

  /** The two tables. `claims` and `requeues` count, per job, how often it was claimed and how often a
      requeue took it back; nothing reads them. */
  datatype Queue = Queue(
    jobs: map<JobId, Job>, docs: map<DocId, Doc>, nextId: JobId, claims: map<JobId, nat>, requeues: map<JobId, nat>)

  const EMPTY := Queue(map[], map[], 0, map[], map[])

  function Count(m: map<JobId, nat>, id: JobId): nat {
    if id in m then m[id] else 0
  }

  // ------------------------------------------------------------ the inbox gate

  predicate PreparingInbox(doc: Doc) {
    doc.inbox && !doc.trashed && doc.status in PREPARING_STATUSES
  }

  /** Job `id` is preflight work of the preparing inbox document `d`. */
  predicate PreflightOf(q: Queue, id: JobId, d: DocId) {
    && id in q.jobs && q.jobs[id].document == Some(d) && q.jobs[id].jobType in INBOX_PREFLIGHT_JOB_TYPES
    && d in q.docs && PreparingInbox(q.docs[d])
  }

  predicate RunningPreflight(q: Queue, id: JobId, d: DocId) {
    PreflightOf(q, id, d) && q.jobs[id].status == RUNNING
  }

  predicate Available(job: Job, now: Time) {
    job.availableAt.None? || job.availableAt.value <= now
  }

  predicate QueuedPreflight(q: Queue, id: JobId, d: DocId, now: Time) {
    PreflightOf(q, id, d) && q.jobs[id].status == QUEUED && Available(q.jobs[id], now)
  }

  function RunningDocs(q: Queue): set<DocId> {
    set d | d in q.docs && exists id :: id in q.jobs && RunningPreflight(q, id, d)
  }

  function WaitingDocs(q: Queue, now: Time): set<DocId> {
    set d | d in q.docs && exists id :: id in q.jobs && QueuedPreflight(q, id, d, now)
  }

  predicate Older(a: Doc, b: Doc) {
    a.addedDate < b.addedDate || (a.addedDate == b.addedDate && a.createdAt < b.createdAt)
  }

  /** ORDER BY added_date, created_at LIMIT 1: no candidate is strictly older. */
  predicate IsOldest(q: Queue, candidates: set<DocId>, d: DocId) {
    d in candidates && d in q.docs && forall c <- candidates :: c in q.docs ==> !Older(q.docs[c], q.docs[d])
  }

  /** The document that owns the preflight pipeline: running work pins it, else the oldest waits. */
  predicate ActivePreflight(q: Queue, now: Time, active: Option<DocId>) {
    if RunningDocs(q) != {} then active.Some? && IsOldest(q, RunningDocs(q), active.value)
    else if WaitingDocs(q, now) != {} then active.Some? && IsOldest(q, WaitingDocs(q, now), active.value)
    else active.None?
  }

  predicate OnTrashed(q: Queue, job: Job) {
    job.document.Some? && job.document.value in q.docs && q.docs[job.document.value].trashed
  }

  predicate InboxPreflight(q: Queue, id: JobId) {
    id in q.jobs && q.jobs[id].document.Some? && PreflightOf(q, id, q.jobs[id].document.value)
  }

  /** Everything claim_next asks of a job but the gate and the row lock. */
  predicate Ready(q: Queue, id: JobId, now: Time) {
    id in q.jobs && q.jobs[id].status == QUEUED && Available(q.jobs[id], now) && !OnTrashed(q, q.jobs[id])
  }

  predicate Eligible(q: Queue, id: JobId, now: Time, skip: set<JobId>, active: Option<DocId>) {
    && Ready(q, id, now) && id !in skip
    && (!InboxPreflight(q, id) || (active.Some? && q.jobs[id].document == active))
  }

  predicate Before(a: Job, b: Job) {
    a.priority < b.priority || (a.priority == b.priority && a.createdAt < b.createdAt)
  }

  /** The claimed job: eligible, and none before it by (priority, created_at); or nothing is eligible. */
  ghost predicate IsPick(q: Queue, now: Time, skip: set<JobId>, active: Option<DocId>, picked: Option<JobId>) {
    if picked.Some? then
      && Eligible(q, picked.value, now, skip, active)
      && forall id | id in q.jobs && Eligible(q, id, now, skip, active) :: !Before(q.jobs[id], q.jobs[picked.value])
    else forall id <- q.jobs :: !Eligible(q, id, now, skip, active)
  }

  // ------------------------------------------------------------ row updates

  function ClaimedJob(job: Job, worker: string, now: Time): Job {
    job.(status := RUNNING, lockedBy := Some(worker), lockedAt := Some(now), availableAt := None)
  }

  function CompletedJob(job: Job): Job {
    if job.status == CANCELLED then job
    else job.(status := COMPLETED, availableAt := None, lockedBy := None)
  }

  function FailedJob(job: Job, delay: Option<Time>, now: Time): Job {
    var retries := job.retryCount + 1;
    if retries <= job.maxRetries then
      job.(retryCount := retries, status := QUEUED, lockedBy := None, lockedAt := None,
           priority := if job.priority + 5 < 1000 then job.priority + 5 else 1000,
           availableAt := if delay.Some? && delay.value > 0 then Some(now + delay.value) else None)
    else job.(retryCount := retries, status := FAILED, lockedBy := None, availableAt := None)
  }

  function CancelledJob(job: Job): Job {
    if job.status in {COMPLETED, CANCELLED} then job
    else job.(status := CANCELLED, lockedBy := None, availableAt := None)
  }

  function RequeuedJob(job: Job): Job {
    job.(status := QUEUED, lockedBy := None, lockedAt := None, availableAt := None)
  }

  predicate Stale(job: Job, now: Time, olderThan: Time) {
    job.status == RUNNING && job.lockedAt.Some? && job.lockedAt.value < now - olderThan
  }

  predicate OpenJobOf(job: Job, d: DocId, types: set<JobType>) {
    job.document == Some(d) && job.jobType in types && job.status in {QUEUED, RUNNING}
  }

  // ------------------------------------------------------------ steps

  datatype Step =
    | Enqueue(jobType: JobType, document: Option<DocId>, priority: int, maxRetries: nat, now: Time)
    | Claim(worker: string, now: Time, skip: set<JobId>, active: Option<DocId>, picked: Option<JobId>)
    | Complete(id: JobId)
    | Fail(id: JobId, delay: Option<Time>, now: Time)
    | Cancel(id: JobId)
    | Touch(id: JobId, now: Time)
    | RequeueStale(now: Time, olderThan: Time)
    | RequeueAll
    | CancelForTrashed
    | CancelOpen(d: DocId, types: set<JobType>)
    | PutDocument(d: DocId, row: Doc)
    | DeleteDocument(d: DocId)

  function EnqueueJob(q: Queue, jobType: JobType, document: Option<DocId>, priority: int, maxRetries: nat, now: Time): Queue {
    q.(jobs := q.jobs[q.nextId := Job(jobType, QUEUED, document, priority, now, 0, maxRetries, None, None, None)],
       nextId := q.nextId + 1)
  }

  function Requeue(q: Queue, ids: set<JobId>): Queue {
    q.(jobs := map id | id in q.jobs :: if id in ids then RequeuedJob(q.jobs[id]) else q.jobs[id],
       requeues := map id | id in q.jobs :: Count(q.requeues, id) + (if id in ids then 1 else 0))
  }

  function StaleIds(q: Queue, now: Time, olderThan: Time): set<JobId> {
    set id | id in q.jobs && Stale(q.jobs[id], now, olderThan)
  }

  function RunningIds(q: Queue): set<JobId> {
    set id | id in q.jobs && q.jobs[id].status == RUNNING
  }

  /** `_cancel_open_jobs`; `retry_preflight` does the same but leaves available_at as it is. */
  function CancelOpenJobs(q: Queue, d: DocId, types: set<JobType>, keepAvailable: bool): Queue {
    q.(jobs := map id | id in q.jobs ::
         var job := q.jobs[id];
         if !OpenJobOf(job, d, types) then job
         else if keepAvailable then job.(status := CANCELLED, lockedBy := None)
         else CancelledJob(job))
  }

  function Apply(q: Queue, step: Step): Queue {
    match step
    case Enqueue(jobType, document, priority, maxRetries, now) => EnqueueJob(q, jobType, document, priority, maxRetries, now)
    case Claim(worker, now, skip, active, picked) =>
      if picked.None? || picked.value !in q.jobs then q
      else q.(jobs := q.jobs[picked.value := ClaimedJob(q.jobs[picked.value], worker, now)],
              claims := q.claims[picked.value := Count(q.claims, picked.value) + 1])
    case Complete(id) => if id in q.jobs then q.(jobs := q.jobs[id := CompletedJob(q.jobs[id])]) else q
    case Fail(id, delay, now) => if id in q.jobs then q.(jobs := q.jobs[id := FailedJob(q.jobs[id], delay, now)]) else q
    case Cancel(id) => if id in q.jobs then q.(jobs := q.jobs[id := CancelledJob(q.jobs[id])]) else q
    case Touch(id, now) =>
      if id in q.jobs && q.jobs[id].status == RUNNING then q.(jobs := q.jobs[id := q.jobs[id].(lockedAt := Some(now))]) else q
    case RequeueStale(now, olderThan) => Requeue(q, StaleIds(q, now, olderThan))
    case RequeueAll => Requeue(q, RunningIds(q))
    case CancelForTrashed =>
      q.(jobs := map id | id in q.jobs ::
           if OnTrashed(q, q.jobs[id]) && q.jobs[id].status in {QUEUED, RUNNING}
           then CancelledJob(q.jobs[id]).(lockedAt := None) else q.jobs[id])
    case CancelOpen(d, types) => CancelOpenJobs(q, d, types, false)
    case PutDocument(d, row) => q.(docs := q.docs[d := row])
    case DeleteDocument(d) =>
      q.(docs := q.docs - {d}, jobs := map id | id in q.jobs && q.jobs[id].document != Some(d) :: q.jobs[id])
  }

  /** A claim takes whatever the queries may return; every other step can always be taken. */
  ghost predicate Enabled(q: Queue, step: Step) {
    step.Claim? ==> ActivePreflight(q, step.now, step.active) && IsPick(q, step.now, step.skip, step.active, step.picked)
  }

  /** `states` is a run of the queue driven by `steps` from the empty tables. */
  ghost predicate IsRun(states: seq<Queue>, steps: seq<Step>) {
    && |states| == |steps| + 1 && states[0] == EMPTY
    && forall i | 0 <= i < |steps| :: Enabled(states[i], steps[i]) && states[i + 1] == Apply(states[i], steps[i])
  }
}
