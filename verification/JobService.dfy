/** The service calls of services/jobs.py over mutable tables, each one step of JobQueue. */
module JobService {
  import opened Statuses
  import opened Wrappers
  import opened JobQueue
  import opened JobQueueProofs

  datatype Result<+T> = Ok(value: T) | NotFound

  class JobTable {
    var jobs: map<JobId, Job>
    var docs: map<DocId, Doc>
    var nextId: JobId
    ghost var claims: map<JobId, nat>
    ghost var requeues: map<JobId, nat>

    ghost function View(): Queue
      reads this
    {
      Queue(jobs, docs, nextId, claims, requeues)
    }

    constructor ()
      ensures View() == EMPTY
    {
      jobs, docs, nextId, claims, requeues := map[], map[], 0, map[], map[];
    }

    method EnqueueJob(jobType: JobType, document: Option<DocId>, priority: int, maxRetries: nat, now: Time) returns (id: JobId)
      modifies this
      ensures View() == Apply(old(View()), Enqueue(jobType, document, priority, maxRetries, now))
      ensures id == old(nextId)
    {
      id := nextId;
      jobs := jobs[id := Job(jobType, QUEUED, document, priority, now, 0, maxRetries, None, None, None)];
      nextId := nextId + 1;
    }

    /** ORDER BY added_date, created_at LIMIT 1. */
    method OldestOf(candidates: set<DocId>) returns (d: DocId)
      requires candidates != {} && candidates <= docs.Keys
      ensures IsOldest(View(), candidates, d)
    {
      d :| d in candidates;
      var rest := candidates - {d};
      while rest != {}
        invariant d in candidates && rest <= candidates
        invariant forall c <- candidates - rest :: !Older(docs[c], docs[d])
        decreases rest
      {
        var c :| c in rest;
        rest := rest - {c};
        if Older(docs[c], docs[d]) {
          d := c;
        }
      }
      assert candidates - rest == candidates;
    }

    method ActiveInboxPreflightDocument(now: Time) returns (active: Option<DocId>)
      ensures ActivePreflight(View(), now, active)
    {
      var running := set id, d | id in jobs && d in docs && PreparingInbox(docs[d])
        && jobs[id].document == Some(d) && jobs[id].jobType in INBOX_PREFLIGHT_JOB_TYPES && jobs[id].status == RUNNING :: d;
      assert running == RunningDocs(View()) by {
        forall d ensures d in running <==> d in RunningDocs(View()) {
          if d in running {
            var id :| id in jobs && jobs[id].document == Some(d) && jobs[id].jobType in INBOX_PREFLIGHT_JOB_TYPES
                      && jobs[id].status == RUNNING;
            assert RunningPreflight(View(), id, d);
          }
        }
      }
      if running != {} {
        var d := OldestOf(running);
        return Some(d);
      }
      var waiting := set id, d | id in jobs && d in docs && PreparingInbox(docs[d])
        && jobs[id].document == Some(d) && jobs[id].jobType in INBOX_PREFLIGHT_JOB_TYPES && jobs[id].status == QUEUED
        && Available(jobs[id], now) :: d;
      assert waiting == WaitingDocs(View(), now) by {
        forall d ensures d in waiting <==> d in WaitingDocs(View(), now) {
          if d in waiting {
            var id :| id in jobs && jobs[id].document == Some(d) && jobs[id].jobType in INBOX_PREFLIGHT_JOB_TYPES
                      && jobs[id].status == QUEUED && Available(jobs[id], now);
            assert QueuedPreflight(View(), id, d, now);
          }
        }
      }
      if waiting != {} {
        var d := OldestOf(waiting);
        return Some(d);
      }
      return None;
    }

    /** The job that the claim query orders first. */
    method FirstOf(ids: set<JobId>) returns (id: JobId)
      requires ids != {} && forall other <- ids :: other in jobs
      ensures id in ids && forall other <- ids :: !Before(jobs[other], jobs[id])
    {
      id :| id in ids;
      var rest := ids - {id};
      while rest != {}
        invariant id in ids && rest <= ids
        invariant forall other <- ids - rest :: !Before(jobs[other], jobs[id])
        decreases rest
      {
        var other :| other in rest;
        rest := rest - {other};
        if Before(jobs[other], jobs[id]) {
          id := other;
        }
      }
      assert ids - rest == ids;
    }

    /** Claim under one clock reading; `skip` holds the rows other transactions have locked. */
    method ClaimNext(worker: string, now: Time, skip: set<JobId>) returns (picked: Option<JobId>, ghost active: Option<DocId>)
      modifies this
      ensures Enabled(old(View()), Claim(worker, now, skip, active, picked))
      ensures View() == Apply(old(View()), Claim(worker, now, skip, active, picked))
    {
      var allowed := ActiveInboxPreflightDocument(now);
      active := allowed;
      ghost var q := View();
      var eligible := set id | id in jobs && jobs[id].status == QUEUED && Available(jobs[id], now) && id !in skip
        && !(jobs[id].document.Some? && jobs[id].document.value in docs && docs[jobs[id].document.value].trashed)
        && (!(jobs[id].jobType in INBOX_PREFLIGHT_JOB_TYPES && jobs[id].document.Some? && jobs[id].document.value in docs
              && PreparingInbox(docs[jobs[id].document.value]))
            || (allowed.Some? && jobs[id].document == allowed));
      assert forall id :: id in eligible <==> Eligible(q, id, now, skip, active);
      if eligible == {} {
        return None, allowed;
      }
      var id := FirstOf(eligible);
      var job := jobs[id];
      job := job.(status := RUNNING);
      job := job.(lockedBy := Some(worker));
      job := job.(lockedAt := Some(now));
      job := job.(availableAt := None);
      jobs, claims := jobs[id := job], claims[id := Count(claims, id) + 1];
      return Some(id), allowed;
    }

    method CompleteJob(id: JobId) returns (r: Result<Job>)
      modifies this
      ensures View() == Apply(old(View()), Complete(id))
      ensures id in old(jobs) ==>
        jobs == old(jobs)[id := jobs[id]] && jobs[id].status == if old(jobs)[id].status == CANCELLED then CANCELLED else COMPLETED
      ensures r == if id in jobs then Ok(jobs[id]) else NotFound
    {
      if id !in jobs {
        return NotFound;
      }
      var job := jobs[id];
      if job.status == CANCELLED {
        return Ok(job);
      }
      job := job.(status := COMPLETED, availableAt := None, lockedBy := None);
      jobs := jobs[id := job];
      return Ok(job);
    }

    method TouchJobLock(id: JobId, now: Time)
      modifies this
      ensures View() == Apply(old(View()), Touch(id, now))
    {
      if id in jobs && jobs[id].status == RUNNING {
        jobs := jobs[id := jobs[id].(lockedAt := Some(now))];
      }
    }

    method FailJob(id: JobId, delay: Option<Time>, now: Time) returns (r: Result<Job>)
      modifies this
      ensures View() == Apply(old(View()), Fail(id, delay, now))
      ensures id in old(jobs) ==>
        && jobs == old(jobs)[id := jobs[id]]
        && jobs[id].status == if old(jobs)[id].retryCount < old(jobs)[id].maxRetries then QUEUED else FAILED
      ensures r == if id in jobs then Ok(jobs[id]) else NotFound
    {
      if id !in jobs {
        return NotFound;
      }
      var job := jobs[id];
      job := job.(retryCount := job.retryCount + 1);
      if job.retryCount <= job.maxRetries {
        job := job.(status := QUEUED, lockedBy := None, lockedAt := None);
        job := job.(priority := if job.priority + 5 < 1000 then job.priority + 5 else 1000);
        if delay.Some? && delay.value > 0 {
          job := job.(availableAt := Some(now + delay.value));
        } else {
          job := job.(availableAt := None);
        }
      } else {
        job := job.(status := FAILED, lockedBy := None, availableAt := None);
      }
      jobs := jobs[id := job];
      return Ok(job);
    }

    method CancelJob(id: JobId) returns (r: Result<Job>)
      modifies this
      ensures View() == Apply(old(View()), Cancel(id))
      ensures id in old(jobs) ==>
        jobs == old(jobs)[id := jobs[id]] && jobs[id].status == if old(jobs)[id].status == COMPLETED then COMPLETED else CANCELLED
      ensures r == if id in jobs then Ok(jobs[id]) else NotFound
    {
      if id !in jobs {
        return NotFound;
      }
      var job := jobs[id];
      if job.status in {COMPLETED, CANCELLED} {
        return Ok(job);
      }
      job := job.(status := CANCELLED, lockedBy := None, availableAt := None);
      jobs := jobs[id := job];
      return Ok(job);
    }

    method RequeueStaleRunning(now: Time, olderThan: Time) returns (n: nat)
      modifies this
      ensures View() == Apply(old(View()), Step.RequeueStale(now, olderThan))
      ensures n == |StaleIds(old(View()), now, olderThan)|
    {
      var cutoff := now - olderThan;
      var stale := set id | id in jobs && jobs[id].status == RUNNING && jobs[id].lockedAt.Some? && jobs[id].lockedAt.value < cutoff;
      assert stale == StaleIds(View(), now, olderThan);
      n := |stale|;
      requeues := map id | id in jobs :: Count(requeues, id) + (if id in stale then 1 else 0);
      jobs := map id | id in jobs :: if id in stale then RequeuedJob(jobs[id]) else jobs[id];
    }

    method RequeueAllRunning() returns (n: nat)
      modifies this
      ensures View() == Apply(old(View()), RequeueAll)
      ensures n == |RunningIds(old(View()))|
      ensures forall id <- jobs :: jobs[id].status != RUNNING
    {
      var running := set id | id in jobs && jobs[id].status == RUNNING;
      assert running == RunningIds(View());
      n := |running|;
      requeues := map id | id in jobs :: Count(requeues, id) + (if id in running then 1 else 0);
      jobs := map id | id in jobs :: if id in running then RequeuedJob(jobs[id]) else jobs[id];
    }

    method CancelJobsForTrashedDocuments()
      modifies this
      ensures View() == Apply(old(View()), CancelForTrashed)
      ensures forall id <- jobs :: OnTrashed(View(), jobs[id]) ==> jobs[id].status !in {QUEUED, RUNNING}
    {
      var trashed := set d | d in docs && docs[d].trashed;
      jobs := map id | id in jobs ::
        if jobs[id].status in {QUEUED, RUNNING} && jobs[id].document.Some? && jobs[id].document.value in trashed
        then jobs[id].(status := CANCELLED, lockedBy := None, lockedAt := None, availableAt := None) else jobs[id];
    }

    method CancelOpenJobsOf(d: DocId, types: set<JobType>, keepAvailable: bool)
      modifies this`jobs
      ensures View() == CancelOpenJobs(old(View()), d, types, keepAvailable)
    {
      ghost var before := jobs;
      var open := set id | id in jobs && OpenJobOf(jobs[id], d, types);
      while open != {}
        invariant jobs.Keys == before.Keys && open <= jobs.Keys
        invariant forall id <- open :: jobs[id] == before[id] && OpenJobOf(before[id], d, types)
        invariant forall id <- jobs | id !in open :: jobs[id] == CancelOpenJobs(old(View()), d, types, keepAvailable).jobs[id]
        decreases open
      {
        var id :| id in open;
        if keepAvailable {
          jobs := jobs[id := jobs[id].(status := CANCELLED, lockedBy := None)];
        } else {
          jobs := jobs[id := jobs[id].(status := CANCELLED, lockedBy := None, availableAt := None)];
        }
        open := open - {id};
      }
      assert jobs == CancelOpenJobs(old(View()), d, types, keepAvailable).jobs;
    }

    /** Refused for a document outside the inbox; otherwise the whole of `retry_preflight`. */
    method RetryInboxPreflight(d: DocId, priority: int, now: Time) returns (r: Result<bool>)
      modifies this
      ensures r.NotFound? <==> d !in old(docs)
      ensures r.Ok? ==> (r.value <==> old(docs)[d].inbox)
      ensures View() == if r == Ok(true) then RetryPreflight(old(View()), d, priority, now) else old(View())
    {
      if d !in docs {
        return NotFound;
      }
      if !docs[d].inbox {
        return Ok(false);
      }
      hide CancelOpenJobs;
      CancelOpenJobsOf(d, RETRY_PREFLIGHT_CANCELS, true);
      docs := docs[d := docs[d].(status := PENDING_PROCESSING)];
      var first := EnqueueJob(TEXT_EXTRACTION, Some(d), priority, 3, now);
      var second := EnqueueJob(THUMBNAIL, Some(d), priority + 10, 3, now);
      return Ok(true);
    }
  }
}
