/** What every run of the job queue keeps. */
module JobQueueProofs {
  import opened Statuses
  import opened Wrappers
  import opened JobQueue

  // ------------------------------------------------------------ locks and claims

  /** locked_by is set exactly while RUNNING, and a running job always has a heartbeat. */
  predicate LockedWhileRunning(job: Job) {
    (job.lockedBy.Some? <==> job.status == RUNNING) && (job.status == RUNNING ==> job.lockedAt.Some?)
  }

  /** Every claim of a job is paid for by its enqueue, a retry or a requeue. */
  predicate ClaimsPaid(job: Job, claims: nat, requeues: nat) {
    && (job.status in {QUEUED, RUNNING} ==> job.retryCount <= job.maxRetries)
    && claims <= (if job.retryCount <= job.maxRetries then job.retryCount else job.maxRetries) + requeues
                 + (if job.status == QUEUED then 0 else 1)
  }

  ghost predicate Inv(q: Queue) {
    && (forall id <- q.jobs :: id < q.nextId)
    && (forall id <- q.claims :: id < q.nextId)
    && (forall id <- q.jobs :: LockedWhileRunning(q.jobs[id]))
    && (forall id <- q.jobs :: ClaimsPaid(q.jobs[id], Count(q.claims, id), Count(q.requeues, id)))
  }

  lemma RowStepKeepsInv(q: Queue, id: JobId, row: Job)
    requires Inv(q) && id in q.jobs
    requires LockedWhileRunning(row) && ClaimsPaid(row, Count(q.claims, id), Count(q.requeues, id))
    ensures Inv(q.(jobs := q.jobs[id := row]))
  {
  }

  lemma RequeueKeepsInv(q: Queue, ids: set<JobId>)
    requires Inv(q) && forall id <- ids :: id in q.jobs && q.jobs[id].status == RUNNING
    ensures Inv(Requeue(q, ids))
  {
    var q' := Requeue(q, ids);
    forall id <- q'.jobs
      ensures LockedWhileRunning(q'.jobs[id]) && ClaimsPaid(q'.jobs[id], Count(q'.claims, id), Count(q'.requeues, id))
    {
      assert ClaimsPaid(q.jobs[id], Count(q.claims, id), Count(q.requeues, id));
    }
  }

  lemma ClaimKeepsInv(q: Queue, step: Step)
    requires Inv(q) && step.Claim? && Enabled(q, step)
    ensures Inv(Apply(q, step))
  {
    hide ActivePreflight, InboxPreflight;
    if step.picked.Some? {
      var id := step.picked.value;
      assert ClaimsPaid(q.jobs[id], Count(q.claims, id), Count(q.requeues, id));
    }
  }

  predicate CancelledFrom(job: Job, job': Job) {
    && job.status in {QUEUED, RUNNING} && job'.status == CANCELLED && job'.lockedBy == None
    && job'.retryCount == job.retryCount && job'.maxRetries == job.maxRetries
  }

  /** Updates of open jobs to CANCELLED. */
  lemma BulkCancelKeepsInv(q: Queue, jobs': map<JobId, Job>)
    requires Inv(q) && jobs'.Keys <= q.jobs.Keys
    requires forall id <- jobs' :: jobs'[id] == q.jobs[id] || CancelledFrom(q.jobs[id], jobs'[id])
    ensures Inv(q.(jobs := jobs'))
  {
    forall id <- jobs'
      ensures LockedWhileRunning(jobs'[id]) && ClaimsPaid(jobs'[id], Count(q.claims, id), Count(q.requeues, id))
    {
      assert ClaimsPaid(q.jobs[id], Count(q.claims, id), Count(q.requeues, id));
    }
  }

  lemma OneRowStepKeepsInv(q: Queue, step: Step)
    requires Inv(q) && (step.Complete? || step.Fail? || step.Cancel? || step.Touch?)
    ensures Inv(Apply(q, step))
  {
    hide Inv;
    var id := step.id;
    if id in q.jobs {
      RowsAre(q, id);
      var row := match step
        case Complete(_) => CompletedJob(q.jobs[id])
        case Fail(_, delay, now) => FailedJob(q.jobs[id], delay, now)
        case Cancel(_) => CancelledJob(q.jobs[id])
        case Touch(_, now) => if q.jobs[id].status == RUNNING then q.jobs[id].(lockedAt := Some(now)) else q.jobs[id];
      RowStepKeepsInv(q, id, row);
      assert q.(jobs := q.jobs[id := q.jobs[id]]) == q;
    }
  }

  lemma RowsAre(q: Queue, id: JobId)
    requires Inv(q) && id in q.jobs
    ensures LockedWhileRunning(q.jobs[id]) && ClaimsPaid(q.jobs[id], Count(q.claims, id), Count(q.requeues, id))
  {
  }

  lemma StepKeepsInv(q: Queue, step: Step)
    requires Inv(q) && Enabled(q, step)
    ensures Inv(Apply(q, step))
  {
    hide ActivePreflight, IsPick;
    match step
    case Claim(_, _, _, _, _) =>
      ClaimKeepsInv(q, step);
    case Enqueue(_, _, _, _, _) =>
      assert q.nextId !in q.claims && q.nextId !in q.jobs;
    case Complete(_) =>
      OneRowStepKeepsInv(q, step);
    case Fail(_, _, _) =>
      OneRowStepKeepsInv(q, step);
    case Cancel(_) =>
      OneRowStepKeepsInv(q, step);
    case Touch(_, _) =>
      OneRowStepKeepsInv(q, step);
    case RequeueStale(now, olderThan) =>
      RequeueKeepsInv(q, StaleIds(q, now, olderThan));
    case RequeueAll =>
      RequeueKeepsInv(q, RunningIds(q));
    case CancelForTrashed =>
      BulkCancelKeepsInv(q, Apply(q, step).jobs);
    case CancelOpen(d, types) =>
      BulkCancelKeepsInv(q, Apply(q, step).jobs);
    case PutDocument(_, _) =>
    case DeleteDocument(_) =>
      BulkCancelKeepsInv(q, Apply(q, step).jobs);
  }

  lemma {:induction false} RunKeepsInv(states: seq<Queue>, steps: seq<Step>, n: nat)
    requires IsRun(states, steps) && n < |states|
    ensures Inv(states[n])
  {
    if n > 0 {
      RunKeepsInv(states, steps, n - 1);
      StepKeepsInv(states[n - 1], steps[n - 1]);
    }
  }

  /** Over every run, including failures reported twice or after a cancel or a completion, a job is
      claimed at most 1 + max_retries + (number of times it was requeued) times. */
  lemma ClaimsAreBounded(states: seq<Queue>, steps: seq<Step>, n: nat, id: JobId)
    requires IsRun(states, steps) && n < |states| && id in states[n].jobs
    ensures var q := states[n];
      Count(q.claims, id) <= 1 + q.jobs[id].maxRetries + Count(q.requeues, id)
    ensures states[n].jobs[id].lockedBy.Some? <==> states[n].jobs[id].status == RUNNING
  {
    RunKeepsInv(states, steps, n);
    assert ClaimsPaid(states[n].jobs[id], Count(states[n].claims, id), Count(states[n].requeues, id));
  }

  /** No running job escapes stale reclaim: afterwards every job still RUNNING has a heartbeat at or
      after the cutoff, and exactly the others were put back. */
  lemma StaleReclaimIsComplete(states: seq<Queue>, steps: seq<Step>, n: nat, now: Time, olderThan: Time)
    requires IsRun(states, steps) && n < |states|
    ensures var q, q' := states[n], Apply(states[n], RequeueStale(now, olderThan));
      && q'.jobs.Keys == q.jobs.Keys
      && (forall id <- q.jobs :: q.jobs[id].status == RUNNING ==>
            q.jobs[id].lockedAt.Some?
            && (q'.jobs[id].status == RUNNING <==> q.jobs[id].lockedAt.value >= now - olderThan)
            && (q'.jobs[id].status == RUNNING || (q'.jobs[id].status == QUEUED && Available(q'.jobs[id], now))))
      && (forall id <- q.jobs :: q.jobs[id].status != RUNNING ==> q'.jobs[id] == q.jobs[id])
  {
    RunKeepsInv(states, steps, n);
    forall id <- states[n].jobs ensures LockedWhileRunning(states[n].jobs[id]) {
    }
  }

  /** A cancelled job leaves CANCELLED only by a failure report, and then for QUEUED exactly while it
      has retries left. */
  lemma CancelledLeavesOnlyByFailure(q: Queue, step: Step, id: JobId)
    requires Inv(q) && Enabled(q, step) && id in q.jobs && q.jobs[id].status == CANCELLED
    requires id in Apply(q, step).jobs
    ensures var job' := Apply(q, step).jobs[id];
      && (job'.status != CANCELLED <==> step.Fail? && step.id == id)
      && (step.Fail? && step.id == id ==> (job'.status == QUEUED <==> q.jobs[id].retryCount < q.jobs[id].maxRetries))
  {
    hide ActivePreflight, InboxPreflight;
  }

  // ------------------------------------------------------------ what each step does to a job

  /** The row of a job after a step. */
  function RowAfter(q: Queue, step: Step, id: JobId): Job
    requires id in q.jobs
  {
    var job := q.jobs[id];
    match step
    case Claim(worker, now, _, _, picked) => if picked == Some(id) then ClaimedJob(job, worker, now) else job
    case Complete(x) => if x == id then CompletedJob(job) else job
    case Fail(x, delay, now) => if x == id then FailedJob(job, delay, now) else job
    case Cancel(x) => if x == id then CancelledJob(job) else job
    case Touch(x, now) => if x == id && job.status == RUNNING then job.(lockedAt := Some(now)) else job
    case RequeueStale(now, olderThan) => if Stale(job, now, olderThan) then RequeuedJob(job) else job
    case RequeueAll => if job.status == RUNNING then RequeuedJob(job) else job
    case CancelForTrashed => if OnTrashed(q, job) && job.status in {QUEUED, RUNNING} then CancelledJob(job).(lockedAt := None) else job
    case CancelOpen(d, types) => if OpenJobOf(job, d, types) then CancelledJob(job) else job
    case _ => job
  }

  lemma RowIs(q: Queue, step: Step, id: JobId)
    requires Inv(q) && Enabled(q, step) && id in q.jobs && id in Apply(q, step).jobs
    ensures Apply(q, step).jobs[id] == RowAfter(q, step, id) && LockedWhileRunning(q.jobs[id])
    ensures step.Claim? && step.picked == Some(id) ==> q.jobs[id].status == QUEUED
  {
    hide ActivePreflight, InboxPreflight, ClaimsPaid, ClaimedJob, CompletedJob, FailedJob, OnTrashed;
  }

  /** Which steps end a job, over all steps: only a report of success completes it, and only a failure
      report without retries left fails it. */
  lemma EndedExactly(q: Queue, step: Step, id: JobId)
    requires Inv(q) && Enabled(q, step) && id in q.jobs && id in Apply(q, step).jobs
    ensures var job, after := q.jobs[id], Apply(q, step).jobs[id];
      && (job.status != COMPLETED ==>
            (after.status == COMPLETED <==> step == Complete(id) && job.status != CANCELLED))
      && (job.status != FAILED ==>
            (after.status == FAILED <==> step.Fail? && step.id == id && job.retryCount >= job.maxRetries))
      && (job.status != CANCELLED ==>
            (after.status == CANCELLED <==>
               || (step == Cancel(id) && job.status != COMPLETED)
               || (job.status in {QUEUED, RUNNING} && job.document.Some?
                   && ((step.CancelForTrashed? && job.document.value in q.docs && q.docs[job.document.value].trashed)
                       || (step.CancelOpen? && step.d == job.document.value && job.jobType in step.types)))))
  {
    hide Inv, Enabled, Apply;
    RowIs(q, step, id);
  }

  /** Which steps open a job: only a claim runs it, and it is queued again only by a failure report with
      retries left, or by a requeue while it runs. */
  lemma OpenedExactly(q: Queue, step: Step, id: JobId)
    requires Inv(q) && Enabled(q, step) && id in q.jobs && id in Apply(q, step).jobs
    ensures var job, after := q.jobs[id], Apply(q, step).jobs[id];
      && (job.status != RUNNING ==>
            (after.status == RUNNING <==> step.Claim? && step.picked == Some(id)))
      && (job.status != QUEUED ==>
            (after.status == QUEUED <==>
               || (step.Fail? && step.id == id && job.retryCount < job.maxRetries)
               || (job.status == RUNNING
                   && (step.RequeueAll? || (step.RequeueStale? && job.lockedAt.value < step.now - step.olderThan)))))
  {
    hide Inv, Enabled, Apply;
    RowIs(q, step, id);
  }

  /** Jobs come from an enqueue, queued and unclaimed, and go only with their document. */
  lemma JobsExactly(q: Queue, step: Step, id: JobId)
    requires Inv(q) && Enabled(q, step)
    ensures id !in q.jobs ==>
      (id in Apply(q, step).jobs <==> step.Enqueue? && id == q.nextId)
    ensures id !in q.jobs && id in Apply(q, step).jobs ==>
      var job := Apply(q, step).jobs[id];
      && job.status == QUEUED && job.jobType == step.jobType && job.document == step.document && job.priority == step.priority
      && job.createdAt == step.now && job.retryCount == 0 && job.maxRetries == step.maxRetries && Available(job, step.now)
    ensures id in q.jobs ==>
      (id !in Apply(q, step).jobs <==> step.DeleteDocument? && q.jobs[id].document == Some(step.d))
  {
    hide ActivePreflight, InboxPreflight;
  }

  /** Nothing but a failure report changes a job's place in the queue or its number of retries, and
      nothing changes what it is. A failure report always counts, the last one too. */
  lemma PlaceKept(q: Queue, step: Step, id: JobId)
    requires Inv(q) && Enabled(q, step) && id in q.jobs && id in Apply(q, step).jobs
    ensures var job, after := q.jobs[id], Apply(q, step).jobs[id];
      && after.jobType == job.jobType && after.document == job.document && after.createdAt == job.createdAt
      && after.maxRetries == job.maxRetries
      && (!(step.Fail? && step.id == id) ==> after.priority == job.priority && after.retryCount == job.retryCount)
      && (step.Fail? && step.id == id ==> after.retryCount == job.retryCount + 1)
  {
    hide Inv, Enabled, Apply;
    RowIs(q, step, id);
  }

  /** A failed job that is to be retried waits for its delay and no longer, and comes five places later,
      but never behind place 1000. */
  lemma RetryWaits(q: Queue, id: JobId, delay: Option<Time>, now: Time, later: Time)
    requires id in q.jobs && q.jobs[id].retryCount < q.jobs[id].maxRetries && later >= now
    ensures var q' := Apply(q, Fail(id, delay, now));
      && (Ready(q', id, later) <==> !OnTrashed(q, q.jobs[id]) && (delay.None? || later - now >= delay.value))
      && q'.jobs[id].retryCount == q.jobs[id].retryCount + 1
      && (q.jobs[id].priority <= 995 ==> q'.jobs[id].priority - q.jobs[id].priority == 5)
      && (q.jobs[id].priority > 995 ==> q'.jobs[id].priority == 1000)
  {
  }

  // ------------------------------------------------------------ the preflight pin

  /** All running preflight work of preparing inbox documents belongs to one document. */
  ghost predicate Pinned(q: Queue) {
    forall i, j, d, e :: RunningPreflight(q, i, d) && RunningPreflight(q, j, e) ==> d == e
  }

  /** The document lies in the inbox and is not trashed, so a preparing status makes it count. */
  predicate InInbox(doc: Doc) {
    doc.inbox && !doc.trashed
  }

  ghost predicate HasRunningPreflightJob(q: Queue, d: DocId, types: set<JobType>) {
    exists id :: id in q.jobs && q.jobs[id].document == Some(d) && q.jobs[id].status == RUNNING && q.jobs[id].jobType in types
  }

  /** Some other document has running preflight work. */
  ghost predicate RunningElsewhere(q: Queue, d: DocId) {
    exists i, e :: e != d && RunningPreflight(q, i, e)
  }

  /** Documents enter the preparing inbox set with no running preflight job of their own. */
  ghost predicate EntersIdle(q: Queue, step: Step) {
    step.PutDocument? && PreparingInbox(step.row) && !(step.d in q.docs && PreparingInbox(q.docs[step.d]))
    ==> !HasRunningPreflightJob(q, step.d, INBOX_PREFLIGHT_JOB_TYPES)
  }

  /** A step after which every running preflight job was one before keeps the pin. */
  lemma FewerRunning(q: Queue, q': Queue)
    requires Pinned(q)
    requires forall i, d :: RunningPreflight(q', i, d) ==> RunningPreflight(q, i, d)
    ensures Pinned(q')
  {
  }

  /** A claimed preflight job belongs to the document that the running work pins. */
  lemma ClaimKeepsPinned(q: Queue, step: Step)
    requires Pinned(q) && step.Claim? && Enabled(q, step)
    ensures Pinned(Apply(q, step))
  {
    if step.picked.Some? {
      var q', p := Apply(q, step), step.picked.value;
      hide Before, Older;
      forall i, j, d, e | RunningPreflight(q', i, d) && RunningPreflight(q', j, e) ensures d == e {
        OthersRanBefore(q, step, i, d);
        OthersRanBefore(q, step, j, e);
        if i != p && j == p {
          PickIsPinned(q, step, i, d, e);
        } else if i == p && j != p {
          PickIsPinned(q, step, j, e, d);
        }
      }
    }
  }

  lemma OthersRanBefore(q: Queue, step: Step, i: JobId, d: DocId)
    requires step.Claim? && step.picked.Some? && step.picked.value in q.jobs
    requires RunningPreflight(Apply(q, step), i, d)
    ensures i == step.picked.value ==> InboxPreflight(q, i) && q.jobs[i].document == Some(d)
    ensures i != step.picked.value ==> RunningPreflight(q, i, d)
  {
  }

  lemma PickIsPinned(q: Queue, step: Step, i: JobId, d: DocId, e: DocId)
    requires Pinned(q) && step.Claim? && Enabled(q, step) && step.picked.Some?
    requires RunningPreflight(q, i, d)
    requires InboxPreflight(q, step.picked.value) && q.jobs[step.picked.value].document == Some(e)
    ensures d == e
  {
    assert d in RunningDocs(q);
    assert step.active == Some(e) && e in RunningDocs(q);
    var j :| j in q.jobs && RunningPreflight(q, j, e);
  }

  lemma StepKeepsPinned(q: Queue, step: Step)
    requires Inv(q) && Pinned(q) && Enabled(q, step) && EntersIdle(q, step)
    ensures Pinned(Apply(q, step))
  {
    var q' := Apply(q, step);
    if step.Claim? {
      ClaimKeepsPinned(q, step);
    } else {
      hide ActivePreflight, IsPick;
      forall i, d | RunningPreflight(q', i, d) ensures RunningPreflight(q, i, d) {
        NoNewRunning(q, step, i, d);
      }
      FewerRunning(q, q');
    }
  }

  lemma NoNewRunning(q: Queue, step: Step, i: JobId, d: DocId)
    requires Inv(q) && !step.Claim? && EntersIdle(q, step)
    requires RunningPreflight(Apply(q, step), i, d)
    ensures RunningPreflight(q, i, d)
  {
    hide ClaimsPaid, LockedWhileRunning;
    assert i in q.jobs && q.jobs[i].status == RUNNING && q.jobs[i].document == Some(d);
  }

  lemma {:induction false} RunKeepsPinned(states: seq<Queue>, steps: seq<Step>, n: nat)
    requires IsRun(states, steps) && n < |states|
    requires forall i | 0 <= i < |steps| :: EntersIdle(states[i], steps[i])
    ensures Pinned(states[n])
  {
    if n > 0 {
      RunKeepsPinned(states, steps, n - 1);
      RunKeepsInv(states, steps, n - 1);
      StepKeepsPinned(states[n - 1], steps[n - 1]);
    }
  }

  // ------------------------------------------------------------ the pin, exactly

  /** The document row is written so that it counts as preparing in the inbox, although a preflight job
      of its own is running and another document has running preflight work. */
  ghost predicate BreaksPin(q: Queue, step: Step) {
    && step.PutDocument? && PreparingInbox(step.row)
    && HasRunningPreflightJob(q, step.d, INBOX_PREFLIGHT_JOB_TYPES) && RunningElsewhere(q, step.d)
  }

  lemma PutRunning(q: Queue, d: DocId, row: Doc, i: JobId, e: DocId)
    ensures RunningPreflight(Apply(q, PutDocument(d, row)), i, e) <==>
      if e == d then PreparingInbox(row) && i in q.jobs && q.jobs[i].document == Some(d) && q.jobs[i].status == RUNNING
                     && q.jobs[i].jobType in INBOX_PREFLIGHT_JOB_TYPES
      else RunningPreflight(q, i, e)
  {
  }

  /** Writing a document row keeps the pin exactly outside that case. */
  lemma PutPinExactly(q: Queue, d: DocId, row: Doc)
    requires Pinned(q)
    ensures Pinned(Apply(q, PutDocument(d, row))) <==> !BreaksPin(q, PutDocument(d, row))
  {
    var q' := Apply(q, PutDocument(d, row));
    forall i, e ensures RunningPreflight(q', i, e) <==>
      if e == d then PreparingInbox(row) && i in q.jobs && q.jobs[i].document == Some(d) && q.jobs[i].status == RUNNING
                     && q.jobs[i].jobType in INBOX_PREFLIGHT_JOB_TYPES
      else RunningPreflight(q, i, e)
    {
      PutRunning(q, d, row, i, e);
    }
    hide Apply, RunningPreflight;
    if BreaksPin(q, PutDocument(d, row)) {
      var i :| i in q.jobs && q.jobs[i].document == Some(d) && q.jobs[i].status == RUNNING
               && q.jobs[i].jobType in INBOX_PREFLIGHT_JOB_TYPES;
      var j, e :| e != d && RunningPreflight(q, j, e);
      assert RunningPreflight(q', i, d) && RunningPreflight(q', j, e);
    } else if !PreparingInbox(row) || !HasRunningPreflightJob(q, d, INBOX_PREFLIGHT_JOB_TYPES) {
      assert forall i, e :: RunningPreflight(q', i, e) ==> RunningPreflight(q, i, e);
    } else {
      assert forall i, e :: RunningPreflight(q', i, e) ==> e == d;
    }
  }

  /** Every step keeps the pin, except exactly such a write. */
  lemma StepPinExactly(q: Queue, step: Step)
    requires Inv(q) && Pinned(q) && Enabled(q, step)
    ensures Pinned(Apply(q, step)) <==> !BreaksPin(q, step)
  {
    if step.PutDocument? {
      PutPinExactly(q, step.d, step.row);
    } else {
      StepKeepsPinned(q, step);
    }
  }

  /** A run is pinned throughout exactly when none of its steps is such a write. */
  lemma {:induction false} RunPinExactly(states: seq<Queue>, steps: seq<Step>, n: nat)
    requires IsRun(states, steps) && n < |states|
    ensures (forall i | 0 <= i <= n :: Pinned(states[i])) <==> (forall i | 0 <= i < n :: !BreaksPin(states[i], steps[i]))
  {
    hide Pinned, BreaksPin, Inv;
    if n == 0 {
      EmptyIsPinned();
    } else {
      var k := n - 1;
      RunPinExactly(states, steps, k);
      RunKeepsInv(states, steps, k);
      assert Enabled(states[k], steps[k]) && states[k + 1] == Apply(states[k], steps[k]);
      assert (forall i | 0 <= i <= n :: Pinned(states[i])) <==> (forall i | 0 <= i <= k :: Pinned(states[i])) && Pinned(states[n]);
      assert (forall i | 0 <= i < n :: !BreaksPin(states[i], steps[i]))
        <==> (forall i | 0 <= i < k :: !BreaksPin(states[i], steps[i])) && !BreaksPin(states[k], steps[k]);
      if Pinned(states[k]) {
        StepPinExactly(states[k], steps[k]);
      }
    }
  }

  lemma EmptyIsPinned()
    ensures Pinned(EMPTY)
  {
  }

  // ------------------------------------------------------------ calls that write document rows

  /** What moving, restoring, editing and extracting do to the row of a document. `toInbox` says
      whether the folder is the inbox. */
  datatype DocCall =
    | MoveCall(toInbox: bool, preserveInbox: Option<bool>)
    | RestoreCall(toInbox: bool)
    | SetInboxCall(inbox: bool)
    | StartPreparing

  function CallRow(doc: Doc, call: DocCall): Doc {
    match call
    case MoveCall(toInbox, preserve) => doc.(inbox := preserve.GetOr(doc.inbox) || toInbox, trashed := false)
    case RestoreCall(toInbox) => if doc.trashed then doc.(inbox := toInbox, trashed := false) else doc
    case SetInboxCall(inbox) => doc.(inbox := inbox)
    case StartPreparing => doc.(status := PROCESSING)
  }

  /** The call puts the document into the inbox, untrashed. */
  predicate EndsInInbox(doc: Doc, call: DocCall) {
    match call
    case MoveCall(toInbox, preserve) => toInbox || preserve == Some(true) || (preserve.None? && doc.inbox)
    case RestoreCall(toInbox) => if doc.trashed then toInbox else doc.inbox
    case SetInboxCall(inbox) => inbox && !doc.trashed
    case StartPreparing => InInbox(doc)
  }

  /** Each of these calls breaks the pin exactly when the document ends up preparing in the inbox with
      preflight work of its own running while another document has running preflight work. */
  lemma CallPinExactly(q: Queue, d: DocId, call: DocCall)
    requires Pinned(q) && d in q.docs
    ensures Pinned(Apply(q, PutDocument(d, CallRow(q.docs[d], call)))) <==>
      !(EndsInInbox(q.docs[d], call) && (call.StartPreparing? || q.docs[d].status in PREPARING_STATUSES)
        && HasRunningPreflightJob(q, d, INBOX_PREFLIGHT_JOB_TYPES) && RunningElsewhere(q, d))
  {
    PutPinExactly(q, d, CallRow(q.docs[d], call));
    hide Pinned, HasRunningPreflightJob, RunningElsewhere, Apply;
  }

  /** A state in which it happens: document 0 of the library is being read again, document 1 is
      preparing in the inbox; the pin holds, and moving document 0 to the inbox breaks it. */
  lemma MoveToInboxUnpins() returns (q: Queue)
    ensures Inv(q) && Pinned(q) && 0 in q.docs && !q.docs[0].inbox && !q.docs[0].trashed
    ensures !Pinned(Apply(q, PutDocument(0, CallRow(q.docs[0], MoveCall(true, None)))))
  {
    q := Queue(
      map[0 := Job(OCR, RUNNING, Some(0), 45, 0, 0, 3, None, Some("w"), Some(1)),
          1 := Job(TEXT_EXTRACTION, RUNNING, Some(1), 50, 2, 0, 3, None, Some("w"), Some(3))],
      map[0 := Doc(false, false, PROCESSING, 0, 0), 1 := Doc(true, false, PENDING_PROCESSING, 1, 1)],
      2, map[0 := 1, 1 := 1], map[]);
    assert forall i, d :: RunningPreflight(q, i, d) ==> d == 1;
    CallPinExactly(q, 0, MoveCall(true, None));
    assert 0 in q.jobs && q.jobs[0].jobType in INBOX_PREFLIGHT_JOB_TYPES;
    assert RunningPreflight(q, 1, 1);
  }

  /** Updates of many rows at once: `delete_folder` with move_to_inbox, and `restore_folder`. */
  datatype BulkCall = FlagInbox | Revive

  function BulkRow(doc: Doc, call: BulkCall): Doc {
    match call
    case FlagInbox => doc.(inbox := true)
    case Revive => doc.(trashed := false)
  }

  function Bulk(q: Queue, ids: set<DocId>, call: BulkCall): Queue {
    q.(docs := map d | d in q.docs :: if d in ids then BulkRow(q.docs[d], call) else q.docs[d])
  }

  /** A document that the update would have preparing in the inbox: whatever the update sets is so then,
      the rest is as before. */
  predicate Enters(doc: Doc, call: BulkCall) {
    && (doc.inbox || call.FlagInbox?) && (!doc.trashed || call.Revive?)
    && (doc.status == PENDING_PROCESSING || doc.status == PROCESSING)
  }

  /** The documents of the update that would bring running preflight work along. */
  ghost function Entering(q: Queue, ids: set<DocId>, call: BulkCall): set<DocId> {
    set d | d in ids && d in q.docs && Enters(q.docs[d], call) && HasRunningPreflightJob(q, d, INBOX_PREFLIGHT_JOB_TYPES)
  }

  lemma BulkRunning(q: Queue, ids: set<DocId>, call: BulkCall, d: DocId)
    ensures (exists i :: RunningPreflight(Bulk(q, ids, call), i, d)) <==> d in Entering(q, ids, call) || d in RunningDocs(q)
  {
    if i :| RunningPreflight(Bulk(q, ids, call), i, d) {
      if d !in ids {
        assert RunningPreflight(q, i, d);
      }
    }
    if d in Entering(q, ids, call) {
      var i :| i in q.jobs && q.jobs[i].document == Some(d) && q.jobs[i].status == RUNNING
               && q.jobs[i].jobType in INBOX_PREFLIGHT_JOB_TYPES;
      assert RunningPreflight(Bulk(q, ids, call), i, d);
    } else if d in RunningDocs(q) {
      var i :| i in q.jobs && RunningPreflight(q, i, d);
      assert RunningPreflight(Bulk(q, ids, call), i, d);
    }
  }

  /** It keeps the pin exactly when the documents it brings in and the ones with running preflight work
      are at most one document together. */
  lemma BulkPinExactly(q: Queue, ids: set<DocId>, call: BulkCall)
    ensures var all := Entering(q, ids, call) + RunningDocs(q);
      Pinned(Bulk(q, ids, call)) <==> forall d, e | d in all && e in all :: d == e
  {
    var q' := Bulk(q, ids, call);
    forall d ensures (exists i :: RunningPreflight(q', i, d)) <==> d in Entering(q, ids, call) + RunningDocs(q) {
      BulkRunning(q, ids, call, d);
    }
    hide Bulk, PreflightOf, Entering, RunningDocs;
    var all := Entering(q, ids, call) + RunningDocs(q);
    if Pinned(q') {
      forall d, e | d in all && e in all ensures d == e {
        var i :| RunningPreflight(q', i, d);
        var j :| RunningPreflight(q', j, e);
      }
    }
    if forall d, e | d in all && e in all :: d == e {
      forall i, j, d, e | RunningPreflight(q', i, d) && RunningPreflight(q', j, e) ensures d == e {
        assert d in all && e in all;
      }
    }
  }

  // ------------------------------------------------------------ reopening a document

  /** The start of `retry_preflight` and `retry_ocr`: cancel the document's open jobs of some types
      and put it back into a preparing status. */
  function Reopen(q: Queue, d: DocId, types: set<JobType>, status: ProcessingStatus, keepAvailable: bool): Queue
    requires d in q.docs
  {
    var cancelled := CancelOpenJobs(q, d, types, keepAvailable);
    cancelled.(docs := q.docs[d := q.docs[d].(status := status)])
  }

  const RETRY_PREFLIGHT_CANCELS := {TEXT_EXTRACTION, OCR, METADATA_SUGGESTION}
  const RETRY_OCR_CANCELS := {OCR, INDEXING, EMBEDDING, SUMMARY}

  function RetryPreflight(q: Queue, d: DocId, priority: int, now: Time): Queue
    requires d in q.docs
  {
    var reopened := Reopen(q, d, RETRY_PREFLIGHT_CANCELS, PENDING_PROCESSING, true);
    EnqueueJob(EnqueueJob(reopened, TEXT_EXTRACTION, Some(d), priority, 3, now), THUMBNAIL, Some(d), priority + 10, 3, now)
  }

  function RetryOcr(q: Queue, d: DocId, priority: int, now: Time): Queue
    requires d in q.docs
  {
    EnqueueJob(Reopen(q, d, RETRY_OCR_CANCELS, PROCESSING, false), OCR, Some(d), priority, 3, now)
  }

  lemma ReopenedRunning(
      q: Queue, d: DocId, types: set<JobType>, status: ProcessingStatus, keepAvailable: bool, i: JobId, e: DocId)
    requires d in q.docs && status in PREPARING_STATUSES
    ensures RunningPreflight(Reopen(q, d, types, status, keepAvailable), i, e) <==>
      if e == d then InInbox(q.docs[d]) && i in q.jobs && q.jobs[i].document == Some(d) && q.jobs[i].status == RUNNING
                     && q.jobs[i].jobType in INBOX_PREFLIGHT_JOB_TYPES - types
      else RunningPreflight(q, i, e)
  {
  }

  /** Reopening a document keeps the pin exactly when it is not in the inbox, has no running preflight
      job of a type that is not cancelled, or no other document has running preflight work. */
  lemma ReopenPinExactly(q: Queue, d: DocId, types: set<JobType>, status: ProcessingStatus, keepAvailable: bool)
    requires Pinned(q) && d in q.docs && status in PREPARING_STATUSES
    ensures Pinned(Reopen(q, d, types, status, keepAvailable)) <==>
      !(InInbox(q.docs[d]) && HasRunningPreflightJob(q, d, INBOX_PREFLIGHT_JOB_TYPES - types) && RunningElsewhere(q, d))
  {
    var q' := Reopen(q, d, types, status, keepAvailable);
    forall i, e ensures RunningPreflight(q', i, e) <==>
      if e == d then InInbox(q.docs[d]) && i in q.jobs && q.jobs[i].document == Some(d) && q.jobs[i].status == RUNNING
                     && q.jobs[i].jobType in INBOX_PREFLIGHT_JOB_TYPES - types
      else RunningPreflight(q, i, e)
    {
      ReopenedRunning(q, d, types, status, keepAvailable, i, e);
    }
    hide Reopen, RunningPreflight;
    if !InInbox(q.docs[d]) {
      assert forall i, e :: RunningPreflight(q', i, e) ==> RunningPreflight(q, i, e);
    } else if HasRunningPreflightJob(q, d, INBOX_PREFLIGHT_JOB_TYPES - types) && RunningElsewhere(q, d) {
      var i :| i in q.jobs && q.jobs[i].document == Some(d) && q.jobs[i].status == RUNNING
               && q.jobs[i].jobType in INBOX_PREFLIGHT_JOB_TYPES - types;
      var j, e :| e != d && RunningPreflight(q, j, e);
      assert RunningPreflight(q', i, d) && RunningPreflight(q', j, e);
    } else if !HasRunningPreflightJob(q, d, INBOX_PREFLIGHT_JOB_TYPES - types) {
      assert forall i, e :: RunningPreflight(q', i, e) ==> e != d && RunningPreflight(q, i, e);
    } else {
      assert forall i, e :: RunningPreflight(q', i, e) ==> e == d;
    }
  }

  lemma EnqueueSameRunning(q: Queue, jobType: JobType, d: Option<DocId>, priority: int, now: Time)
    requires Inv(q)
    ensures Inv(EnqueueJob(q, jobType, d, priority, 3, now))
    ensures Pinned(EnqueueJob(q, jobType, d, priority, 3, now)) <==> Pinned(q)
  {
    var q' := EnqueueJob(q, jobType, d, priority, 3, now);
    StepKeepsInv(q, Enqueue(jobType, d, priority, 3, now));
    forall i, e ensures RunningPreflight(q', i, e) <==> RunningPreflight(q, i, e) {
      assert q.nextId !in q.jobs;
    }
  }

  lemma ReopenKeepsInv(q: Queue, d: DocId, types: set<JobType>, status: ProcessingStatus, keepAvailable: bool)
    requires Inv(q) && d in q.docs
    ensures Inv(Reopen(q, d, types, status, keepAvailable))
  {
    BulkCancelKeepsInv(q, CancelOpenJobs(q, d, types, keepAvailable).jobs);
  }

  /** `retry_preflight` does not cancel thumbnail jobs: it breaks the pin exactly when the document's
      thumbnail job is running while another document has running preflight work. */
  lemma RetryPreflightPinExactly(q: Queue, d: DocId, priority: int, now: Time)
    requires Inv(q) && Pinned(q) && d in q.docs
    ensures Pinned(RetryPreflight(q, d, priority, now)) <==>
      !(InInbox(q.docs[d]) && HasRunningPreflightJob(q, d, {THUMBNAIL}) && RunningElsewhere(q, d))
  {
    assert INBOX_PREFLIGHT_JOB_TYPES - RETRY_PREFLIGHT_CANCELS == {THUMBNAIL};
    var reopened := Reopen(q, d, RETRY_PREFLIGHT_CANCELS, PENDING_PROCESSING, true);
    ReopenPinExactly(q, d, RETRY_PREFLIGHT_CANCELS, PENDING_PROCESSING, true);
    ReopenKeepsInv(q, d, RETRY_PREFLIGHT_CANCELS, PENDING_PROCESSING, true);
    hide Inv, Pinned, Reopen, EnqueueJob;
    EnqueueSameRunning(reopened, TEXT_EXTRACTION, Some(d), priority, now);
    EnqueueSameRunning(EnqueueJob(reopened, TEXT_EXTRACTION, Some(d), priority, 3, now), THUMBNAIL, Some(d), priority + 10, now);
  }

  /** `retry_ocr` cancels only OCR among the preflight types. */
  lemma RetryOcrPinExactly(q: Queue, d: DocId, priority: int, now: Time)
    requires Inv(q) && Pinned(q) && d in q.docs
    ensures Pinned(RetryOcr(q, d, priority, now)) <==>
      !(InInbox(q.docs[d]) && HasRunningPreflightJob(q, d, {TEXT_EXTRACTION, THUMBNAIL, METADATA_SUGGESTION}) && RunningElsewhere(q, d))
  {
    assert INBOX_PREFLIGHT_JOB_TYPES - RETRY_OCR_CANCELS == {TEXT_EXTRACTION, THUMBNAIL, METADATA_SUGGESTION};
    ReopenPinExactly(q, d, RETRY_OCR_CANCELS, PROCESSING, false);
    ReopenKeepsInv(q, d, RETRY_OCR_CANCELS, PROCESSING, false);
    hide Inv, Pinned, Reopen, EnqueueJob;
    EnqueueSameRunning(Reopen(q, d, RETRY_OCR_CANCELS, PROCESSING, false), OCR, Some(d), priority, now);
  }

  /** A state in which it happens: document 0 is ready with its thumbnail job running, document 1 is
      preparing with a running extraction; the pin holds, and retrying document 0 breaks it. */
  lemma RetryPreflightUnpins() returns (q: Queue)
    ensures Inv(q) && Pinned(q) && 0 in q.docs && q.docs[0].inbox && !q.docs[0].trashed
    ensures !Pinned(RetryPreflight(q, 0, 50, 9))
  {
    q := Queue(
      map[0 := Job(THUMBNAIL, RUNNING, Some(0), 60, 0, 0, 3, None, Some("w"), Some(1)),
          1 := Job(TEXT_EXTRACTION, RUNNING, Some(1), 50, 2, 0, 3, None, Some("w"), Some(3))],
      map[0 := Doc(true, false, READY, 0, 0), 1 := Doc(true, false, PENDING_PROCESSING, 1, 1)],
      2, map[0 := 1, 1 := 1], map[]);
    assert forall i, d :: RunningPreflight(q, i, d) ==> d == 1;
    RetryPreflightPinExactly(q, 0, 50, 9);
    assert 0 in q.jobs && q.jobs[0].jobType in {THUMBNAIL};
    assert RunningPreflight(q, 1, 1);
  }

  // ------------------------------------------------------------ work conservation

  /** `claim_next` returns nothing only when every ready job is locked by another claim or is
      preflight work held back by a different document, which has preflight work running, or queued
      and being claimed right now. */
  lemma ClaimIsWorkConserving(q: Queue, step: Step, id: JobId)
    requires step.Claim? && Enabled(q, step) && step.picked == None
    requires Ready(q, id, step.now) && id !in step.skip
    ensures InboxPreflight(q, id) && step.active.Some? && q.jobs[id].document != step.active
    ensures (exists j :: RunningPreflight(q, j, step.active.value))
         || (RunningDocs(q) == {} && exists j :: j in step.skip && QueuedPreflight(q, j, step.active.value, step.now))
  {
    assert !Eligible(q, id, step.now, step.skip, step.active);
    var d := q.jobs[id].document.value;
    if RunningDocs(q) == {} {
      assert QueuedPreflight(q, id, d, step.now);
      assert d in WaitingDocs(q, step.now);
      var j :| j in q.jobs && QueuedPreflight(q, j, step.active.value, step.now);
      assert !Eligible(q, j, step.now, step.skip, step.active);
    }
  }
}
