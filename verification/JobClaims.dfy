/** Which job `claim_next` takes, said of the rows alone, and what a row shows of its status. */
module JobClaims {
  import opened Statuses
  import opened Wrappers
  import opened JobQueue
  import opened JobQueueProofs

  // ------------------------------------------------------------ the job that is taken

  /** The job is waiting, its delay is over, and its document is not in the trash. */
  predicate Due(q: Queue, id: JobId, now: Time) {
    && id in q.jobs && q.jobs[id].status == QUEUED
    && (q.jobs[id].availableAt.Some? ==> now >= q.jobs[id].availableAt.value)
    && (forall d <- q.docs :: q.jobs[id].document == Some(d) ==> !q.docs[d].trashed)
  }

  /** The document is being prepared in the inbox. */
  predicate Preparing(q: Queue, d: DocId) {
    d in q.docs && q.docs[d].inbox && !q.docs[d].trashed && q.docs[d].status in {PENDING_PROCESSING, PROCESSING}
  }

  /** Work on a document in preparation, of the kinds that are done for one document at a time. */
  predicate Exclusive(q: Queue, id: JobId, d: DocId) {
    && id in q.jobs && q.jobs[id].document == Some(d) && Preparing(q, d)
    && q.jobs[id].jobType in {TEXT_EXTRACTION, OCR, THUMBNAIL, METADATA_SUGGESTION}
  }

  /** Exclusive work waits until the turn of its document comes. */
  ghost predicate ItsTurn(q: Queue, id: JobId, active: Option<DocId>) {
    forall d: DocId :: Exclusive(q, id, d) ==> active == Some(d)
  }

  /** No later in the queue: smaller priority first, then the older job. */
  predicate NotAfter(a: Job, b: Job) {
    a.priority < b.priority || (a.priority == b.priority && a.createdAt <= b.createdAt)
  }

  lemma Gate(q: Queue, id: JobId)
    requires id in q.jobs
    ensures InboxPreflight(q, id) <==> q.jobs[id].document.Some? && Exclusive(q, id, q.jobs[id].document.value)
    ensures forall now :: Ready(q, id, now) <==> Due(q, id, now)
  {
  }

  /** The claimed job is due and not locked elsewhere; exclusive work is that of the active document; and
      it stands no later in the queue than any other job of which this is true. */
  lemma TakesTheFirst(q: Queue, now: Time, skip: set<JobId>, active: Option<DocId>, id: JobId)
    requires id in q.jobs && IsPick(q, now, skip, active, Some(id))
    ensures Due(q, id, now) && id !in skip
    ensures ItsTurn(q, id, active)
    ensures forall other <- q.jobs | Due(q, other, now) && other !in skip && ItsTurn(q, other, active) ::
      NotAfter(q.jobs[id], q.jobs[other])
  {
    hide InboxPreflight, Ready, ItsTurn, Due;
    Gate(q, id);
    GateOf(q, id, active);
    forall other <- q.jobs | Due(q, other, now) && other !in skip && ItsTurn(q, other, active)
      ensures NotAfter(q.jobs[id], q.jobs[other])
    {
      Gate(q, other);
      GateOf(q, other, active);
      assert Eligible(q, other, now, skip, active);
    }
  }

  lemma GateOf(q: Queue, id: JobId, active: Option<DocId>)
    requires id in q.jobs
    ensures ItsTurn(q, id, active)
      <==> !InboxPreflight(q, id) || (active.Some? && q.jobs[id].document == active)
  {
  }

  /** If a job may be taken, one can be. */
  lemma {:induction false} SomethingIsTaken(q: Queue, ids: set<JobId>) returns (id: JobId)
    requires ids != {} && ids <= q.jobs.Keys
    ensures id in ids && forall other <- ids :: !Before(q.jobs[other], q.jobs[id])
    decreases ids
  {
    var first :| first in ids;
    if ids == {first} {
      id := first;
    } else {
      var best := SomethingIsTaken(q, ids - {first});
      id := if Before(q.jobs[first], q.jobs[best]) then first else best;
    }
  }

  lemma PickExists(q: Queue, now: Time, skip: set<JobId>, active: Option<DocId>) returns (picked: Option<JobId>)
    ensures IsPick(q, now, skip, active, picked)
    ensures picked == None <==> forall id <- q.jobs :: !Eligible(q, id, now, skip, active)
  {
    var ids := set id | id in q.jobs && Eligible(q, id, now, skip, active);
    hide Eligible, Before;
    if ids == {} {
      assert forall id <- q.jobs :: id !in ids;
      picked := None;
    } else {
      var id := SomethingIsTaken(q, ids);
      picked := Some(id);
      assert id in q.jobs && Eligible(q, id, now, skip, active);
    }
  }

  // ------------------------------------------------------------ the document whose turn it is

  /** Exclusive work on the document is running. */
  ghost predicate Busy(q: Queue, d: DocId) {
    exists id :: Exclusive(q, id, d) && q.jobs[id].status == RUNNING
  }

  /** Exclusive work on the document could start now. */
  ghost predicate Waits(q: Queue, d: DocId, now: Time) {
    exists id :: Exclusive(q, id, d) && Due(q, id, now)
  }

  /** No younger: added earlier, or at the same time and created no later. */
  predicate NotYounger(a: Doc, b: Doc) {
    a.addedDate < b.addedDate || (a.addedDate == b.addedDate && a.createdAt <= b.createdAt)
  }

  lemma BusyDocs(q: Queue, now: Time)
    ensures forall d :: d in RunningDocs(q) <==> Busy(q, d)
    ensures forall d :: d in WaitingDocs(q, now) <==> Waits(q, d, now)
  {
    forall d ensures d in RunningDocs(q) <==> Busy(q, d) {
      if id :| Exclusive(q, id, d) && q.jobs[id].status == RUNNING {
        assert RunningPreflight(q, id, d);
      }
      if d in RunningDocs(q) {
        var id :| id in q.jobs && RunningPreflight(q, id, d);
        assert Exclusive(q, id, d);
      }
    }
    forall d ensures d in WaitingDocs(q, now) <==> Waits(q, d, now) {
      if id :| Exclusive(q, id, d) && Due(q, id, now) {
        assert QueuedPreflight(q, id, d, now);
      }
      if d in WaitingDocs(q, now) {
        var id :| id in q.jobs && QueuedPreflight(q, id, d, now);
        assert Exclusive(q, id, d) && Due(q, id, now);
      }
    }
  }

  /** It is the turn of the oldest document with running exclusive work, if there is one; else of the
      oldest one that waits for it; else of none. */
  lemma TurnIsOldest(q: Queue, now: Time, active: Option<DocId>)
    requires ActivePreflight(q, now, active)
    ensures active == None <==> forall d :: !Busy(q, d) && !Waits(q, d, now)
    ensures active.Some? && Busy(q, active.value) ==>
      forall d :: Busy(q, d) ==> d in q.docs && NotYounger(q.docs[active.value], q.docs[d])
    ensures active.Some? && !Busy(q, active.value) ==>
      && Waits(q, active.value, now) && (forall d :: !Busy(q, d))
      && forall d :: Waits(q, d, now) ==> d in q.docs && NotYounger(q.docs[active.value], q.docs[d])
  {
    hide Busy, Waits;
    BusyDocs(q, now);
    assert RunningDocs(q) != {} ==> exists d :: d in RunningDocs(q);
    assert WaitingDocs(q, now) != {} ==> exists d :: d in WaitingDocs(q, now);
  }

  // ------------------------------------------------------------ what a row shows

  /** A delay is set on waiting jobs only, and a waiting job bears no lock. */
  predicate Plain(job: Job) {
    (job.availableAt.Some? ==> job.status == QUEUED) && (job.status == QUEUED ==> job.lockedAt == None && job.lockedBy == None)
  }

  lemma StepKeepsPlain(q: Queue, step: Step, id: JobId)
    requires Inv(q) && Enabled(q, step) && id in Apply(q, step).jobs
    requires id in q.jobs ==> Plain(q.jobs[id])
    ensures Plain(Apply(q, step).jobs[id])
  {
    if id in q.jobs {
      hide Inv, Enabled, Apply;
      RowIs(q, step, id);
    } else {
      JobsExactly(q, step, id);
    }
  }

  lemma {:induction false} RunKeepsPlain(states: seq<Queue>, steps: seq<Step>, n: nat)
    requires IsRun(states, steps) && n < |states|
    ensures forall id <- states[n].jobs :: Plain(states[n].jobs[id])
  {
    hide Inv, Enabled, Apply, Plain;
    if n > 0 {
      RunKeepsPlain(states, steps, n - 1);
      RunKeepsInv(states, steps, n - 1);
      forall id <- states[n].jobs ensures Plain(states[n].jobs[id]) {
        StepKeepsPlain(states[n - 1], steps[n - 1], id);
      }
    }
  }
}
