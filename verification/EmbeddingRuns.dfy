/** `process_document_embeddings` and the chain of continuation jobs it enqueues. */
module EmbeddingRuns {
  import opened Chunking
  import opened Wrappers
  import opened EmbeddingStore
  import opened EmbeddingProofs
  import opened EmbeddingIsolation

  /** One job's surroundings: the provider, and what each pass of the loop sees of the job's
      cancellation and of the clock. */
  datatype Env = Env(adapter: Adapter, cancelled: nat -> bool, outOfTime: nat -> bool)

  datatype RunResult = RunResult(embedded: nat, failed: nat, batches: nat, cancelled: bool, continued: bool)

  const FRESH_RUN := RunResult(0, 0, 0, false, false)

  /** Load, make token safe, embed. `None` when the splits left nothing to embed. */
  function Pass(adapter: Adapter, caps: Capabilities, st: Store): (Store, Option<Outcome>) {
    var (safe, batch) := EnsureTokenSafe(st, LoadPending(st, caps.batchSize), caps);
    if batch == [] then (safe, None)
    else
      var (after, out) := Embed(adapter, caps, safe, batch, 0);
      (after, Some(out))
  }

  function Tally(r: RunResult, out: Option<Outcome>): RunResult {
    if out.None? then r
    else r.(batches := r.batches + 1, embedded := r.embedded + out.value.embedded, failed := r.failed + out.value.failed)
  }

  function Loop(env: Env, caps: Capabilities, st: Store, pass: nat, r: RunResult): (Store, RunResult)
    requires Valid(st)
    decreases Measure(st)
  {
    if env.cancelled(pass) then (st, r.(cancelled := true))
    else if r.batches >= caps.jobBatchBudget || env.outOfTime(pass) then
      (st, if CountPending(st) > 0 then r.(continued := true) else r)
    else if LoadPending(st, caps.batchSize) == [] then (st, r)
    else
      var (after, out) := Pass(env.adapter, caps, st);
      PassMakesProgress(env.adapter, caps, st);
      Loop(env, caps, after, pass + 1, Tally(r, out))
  }

  function RunJob(env: Env, caps: Capabilities, st: Store): (Store, RunResult)
    requires Valid(st)
  {
    Loop(env, caps, st, 0, FRESH_RUN)
  }

  // ------------------------------------------------------------ one pass

  lemma {:induction false} OpenAlongIs(rows: map<ChunkId, Row>, order: seq<ChunkId>)
    ensures forall id <- OpenAlong(rows, order) :: id in order && id in rows && rows[id].Open()
    ensures forall id <- order :: id in rows && rows[id].Open() ==> id in OpenAlong(rows, order)
    ensures Distinct(order) ==> Distinct(OpenAlong(rows, order))
  {
    if order != [] {
      OpenAlongIs(rows, order[1..]);
      assert Distinct(order) ==> Distinct(order[1..]);
    }
  }

  lemma OrderDistinct(st: Store)
    requires Valid(st)
    ensures Distinct(st.order)
    ensures forall id <- st.rows :: id in st.order
  {
  }

  lemma PendingIsOpen(st: Store, batchSize: nat)
    requires Valid(st)
    ensures OpenBatch(st, LoadPending(st, batchSize))
    ensures Distinct(OpenAlong(st.rows, st.order))
    ensures LoadPending(st, batchSize) == [] && batchSize > 0 ==> forall id <- st.rows :: !st.rows[id].Open()
  {
    OrderDistinct(st);
    OpenAlongIs(st.rows, st.order);
    var open := OpenAlong(st.rows, st.order);
    assert forall id <- LoadPending(st, batchSize) :: id in open;
  }

  /** What splitting or embedding does to the document as a whole. */
  ghost predicate Progress(st: Store, st': Store) {
    && Valid(st')
    && DocumentText(st') == DocumentText(st)
    && Measure(st') <= Measure(st)
  }

  lemma {:induction false} SplitUnsafeProgress(st: Store, batch: seq<ChunkId>, caps: Capabilities)
    requires Valid(st) && OpenBatch(st, batch)
    ensures Progress(st, SplitUnsafe(st, batch, caps))
    ensures (exists id <- batch :: Unsafe(st, id, caps)) ==> Measure(SplitUnsafe(st, batch, caps)) < Measure(st)
    ensures IdsWith(SplitUnsafe(st, batch, caps), EMBEDDED) == IdsWith(st, EMBEDDED)
    ensures IdsWith(SplitUnsafe(st, batch, caps), FAILED) >= IdsWith(st, FAILED)
    ensures SplitUnsafe(st, batch, caps).calls == st.calls
    decreases |batch|
  {
    if batch != [] {
      hide Valid, TextAlong, WeightAlong, SplitChunk, TokenSafe, SameContent, CountStatus, DocumentText, Measure;
      var id := batch[0];
      assert id in batch;
      RestIsOpen(st, batch);
      if Unsafe(st, id, caps) {
        var (st1, out) := SplitChunk(st, id, caps);
        SplitStep(st, id, caps);
        SplitKeepsEmbedded(st, id, caps);
        StillOpen(st, st1, [id], out, batch[1..]);
        SplitUnsafeProgress(st1, batch[1..], caps);
        assert Measure(st1) + 1 <= Measure(st);
      } else {
        SplitUnsafeProgress(st, batch[1..], caps);
        assert forall x <- batch :: x == id || x in batch[1..];
      }
    }
  }

  lemma RestIsOpen(st: Store, batch: seq<ChunkId>)
    requires OpenBatch(st, batch) && batch != []
    ensures OpenBatch(st, batch[1..])
    ensures batch[0] in st.rows && st.rows[batch[0]].Open()
    ensures forall id <- batch[1..] :: id !in [batch[0]]
  {
    assert batch[0] in batch;
  }

  lemma SplitKeepsEmbedded(st: Store, id: ChunkId, caps: Capabilities)
    requires Valid(st) && id in st.rows && st.rows[id].Open()
    ensures var st' := SplitChunk(st, id, caps).0;
      && IdsWith(st', EMBEDDED) == IdsWith(st, EMBEDDED)
      && IdsWith(st', FAILED) >= IdsWith(st, FAILED)
      && st'.calls == st.calls
  {
    var (st', out) := SplitChunk(st, id, caps);
    SplitStep(st, id, caps);
    SplitNeverEmbeds(st, id, caps);
    hide SplitChunk, Valid, TextAlong, WeightAlong;
    SingleAlong(st'.rows, id);
    StepIds(st, st', [id], out);
  }

  lemma SplitNeverEmbeds(st: Store, id: ChunkId, caps: Capabilities)
    requires id in st.rows
    ensures SplitChunk(st, id, caps).1.embedded == 0 && SplitChunk(st, id, caps).0.calls == st.calls
  {
    hide SplitRows, SplitText, NewIds;
  }

  /** Ids of the batch that ended with status `s`. */
  function Ended(st: Store, ids: seq<ChunkId>, s: Status): set<ChunkId> {
    set id | id in ids && id in st.rows && st.rows[id].status == s
  }

  lemma {:induction false} EndedCount(st: Store, ids: seq<ChunkId>, s: Status)
    requires Distinct(ids)
    ensures |Ended(st, ids, s)| == CountStatus(st.rows, ids, s)
  {
    if ids == [] {
      assert Ended(st, ids, s) == {};
    } else {
      hide Ended;
      EndedCount(st, ids[1..], s);
      EndedFirst(st, ids, s);
    }
  }

  lemma EndedFirst(st: Store, ids: seq<ChunkId>, s: Status)
    requires Distinct(ids) && ids != []
    ensures Ended(st, ids, s)
         == Ended(st, ids[1..], s) + if ids[0] in st.rows && st.rows[ids[0]].status == s then {ids[0]} else {}
    ensures ids[0] !in Ended(st, ids[1..], s)
  {
    assert ids[0] !in ids[1..];
    assert forall id :: id in ids <==> id == ids[0] || id in ids[1..];
  }

  lemma StepIdsFor(st: Store, st': Store, ids: seq<ChunkId>, out: Outcome, s: Status)
    requires OpenBatch(st, ids) && BatchStep(st, st', ids, out)
    requires s == EMBEDDED || s == FAILED
    ensures IdsWith(st', s) == IdsWith(st, s) + Ended(st', ids, s)
    ensures IdsWith(st, s) !! Ended(st', ids, s)
  {
    hide Valid, TextAlong, WeightAlong, CountStatus;
    forall id <- IdsWith(st', s) ensures id in IdsWith(st, s) || id in Ended(st', ids, s) {
      assert id in st'.rows;
    }
    forall id <- IdsWith(st, s) ensures id in IdsWith(st', s) && id !in ids {
      assert id in st.rows;
    }
  }

  /** A batch step embeds and fails exactly chunks of its batch. */
  lemma StepIds(st: Store, st': Store, ids: seq<ChunkId>, out: Outcome)
    requires OpenBatch(st, ids) && BatchStep(st, st', ids, out)
    ensures IdsWith(st', EMBEDDED) >= IdsWith(st, EMBEDDED)
    ensures IdsWith(st', FAILED) >= IdsWith(st, FAILED)
    ensures |IdsWith(st', EMBEDDED)| == |IdsWith(st, EMBEDDED)| + out.embedded
    ensures |IdsWith(st', FAILED)| == |IdsWith(st, FAILED)| + out.failed
    ensures out.embedded == 0 ==> IdsWith(st', EMBEDDED) == IdsWith(st, EMBEDDED)
  {
    EndedCount(st', ids, EMBEDDED);
    EndedCount(st', ids, FAILED);
    StepIdsFor(st, st', ids, out, EMBEDDED);
    StepIdsFor(st, st', ids, out, FAILED);
    hide Valid, TextAlong, WeightAlong, CountStatus, IdsWith, Ended, SameContent, Settled, OpenBatch;
  }

  /** Every pass over a nonempty batch strictly lowers the measure, keeps the document's words and
      indexes, and reports exactly the chunks it embedded. */
  lemma PassMakesProgress(adapter: Adapter, caps: Capabilities, st: Store)
    requires Valid(st) && LoadPending(st, caps.batchSize) != []
    ensures var (after, out) := Pass(adapter, caps, st);
      && Progress(st, after) && Measure(after) < Measure(st)
      && |IdsWith(after, EMBEDDED)| == |IdsWith(st, EMBEDDED)| + (if out.Some? then out.value.embedded else 0)
      && |IdsWith(after, FAILED)| >= |IdsWith(st, FAILED)| + (if out.Some? then out.value.failed else 0)
  {
    var loaded := LoadPending(st, caps.batchSize);
    var (safe, batch) := EnsureTokenSafe(st, loaded, caps);
    PendingIsOpen(st, caps.batchSize);
    SplitUnsafeProgress(st, loaded, caps);
    PendingIsOpen(SplitUnsafe(st, loaded, caps), caps.batchSize);
    hide Valid, TextAlong, WeightAlong, LoadPending, SplitUnsafe, IdsWith, Embed, CountStatus, OpenBatch;
    MoreIds(IdsWith(st, FAILED), IdsWith(SplitUnsafe(st, loaded, caps), FAILED));
    if batch != [] {
      var (after, out) := Embed(adapter, caps, safe, batch, 0);
      EmbedIsBatchStep(adapter, caps, safe, batch, 0);
      StepIds(safe, after, batch, out);
    }
  }

  lemma MoreIds(a: set<ChunkId>, b: set<ChunkId>)
    requires a <= b
    ensures |a| <= |b|
  {
    assert b == a + (b - a);
  }

  /** The batch a pass embeds is an open batch of the table it embeds it in. */
  lemma PassBatchIsOpen(st: Store, caps: Capabilities)
    requires Valid(st)
    ensures var (safe, batch) := EnsureTokenSafe(st, LoadPending(st, caps.batchSize), caps);
      Valid(safe) && OpenBatch(safe, batch)
  {
    var loaded := LoadPending(st, caps.batchSize);
    PendingIsOpen(st, caps.batchSize);
    SplitUnsafeProgress(st, loaded, caps);
    PendingIsOpen(SplitUnsafe(st, loaded, caps), caps.batchSize);
    hide Valid, OpenBatch, LoadPending, SplitUnsafe;
  }

  // ------------------------------------------------------------ whole runs

  /** A run keeps the document's words and indexes, whatever the provider, the clock and the
      cancellation do, and its tally is the number of chunks that became EMBEDDED. */
  lemma {:induction false} LoopKeeps(env: Env, caps: Capabilities, st: Store, pass: nat, r: RunResult)
    requires Valid(st)
    ensures var (st', r') := Loop(env, caps, st, pass, r);
      && Progress(st, st')
      && |IdsWith(st', EMBEDDED)| + r.embedded == |IdsWith(st, EMBEDDED)| + r'.embedded
      && |IdsWith(st', FAILED)| + r.failed >= |IdsWith(st, FAILED)| + r'.failed
    decreases Measure(st)
  {
    hide Valid, TextAlong, WeightAlong, LoadPending, Pass, IdsWith;
    if !env.cancelled(pass) && !(r.batches >= caps.jobBatchBudget || env.outOfTime(pass))
       && LoadPending(st, caps.batchSize) != [] {
      PassMakesProgress(env.adapter, caps, st);
      var (after, out) := Pass(env.adapter, caps, st);
      LoopKeeps(env, caps, after, pass + 1, Tally(r, out));
    }
  }

  /** A run that is neither cancelled nor continued leaves no chunk pending. */
  lemma {:induction false} LoopDrains(env: Env, caps: Capabilities, st: Store, pass: nat, r: RunResult)
    requires Valid(st) && caps.batchSize > 0
    requires !r.cancelled && !r.continued
    ensures var (st', r') := Loop(env, caps, st, pass, r);
      (r'.cancelled || r'.continued || CountPending(st') == 0) && (r'.continued ==> CountPending(st') > 0)
    decreases Measure(st)
  {
    hide Valid, TextAlong, WeightAlong, Pass, CountPending;
    if !env.cancelled(pass) && !(r.batches >= caps.jobBatchBudget || env.outOfTime(pass)) {
      if LoadPending(st, caps.batchSize) == [] {
        PendingIsOpen(st, caps.batchSize);
        NothingPending(st);
      } else {
        PassMakesProgress(env.adapter, caps, st);
        var (after, out) := Pass(env.adapter, caps, st);
        LoopDrains(env, caps, after, pass + 1, Tally(r, out));
      }
    }
  }

  lemma {:induction false} CountsWithin(rows: map<ChunkId, Row>, ids: seq<ChunkId>)
    ensures CountStatus(rows, ids, EMBEDDED) + CountStatus(rows, ids, FAILED) <= |ids|
  {
    if ids != [] {
      CountsWithin(rows, ids[1..]);
    }
  }

  /** A batch makes at least one call, and decides no more chunks than it may hold. */
  lemma PassWithin(adapter: Adapter, caps: Capabilities, st: Store)
    requires Valid(st)
    ensures var (after, out) := Pass(adapter, caps, st);
      && after.calls >= st.calls + (if out.Some? then 1 else 0)
      && (out.Some? ==> out.value.embedded + out.value.failed <= caps.batchSize)
  {
    var loaded := LoadPending(st, caps.batchSize);
    var (safe, batch) := EnsureTokenSafe(st, loaded, caps);
    PassBatchIsOpen(st, caps);
    PendingIsOpen(st, caps.batchSize);
    SplitUnsafeProgress(st, loaded, caps);
    assert |batch| <= caps.batchSize && safe.calls == st.calls;
    hide Valid, OpenBatch, EnsureTokenSafe, LoadPending, SplitUnsafe, Embed, CountStatus, DocumentText, Measure;
    if batch != [] {
      var (after, out) := Embed(adapter, caps, safe, batch, 0);
      EmbedIsBatchStep(adapter, caps, safe, batch, 0);
      CallsBounded(adapter, caps, safe, batch, 0);
      CountsWithin(after.rows, batch);
    }
  }

  /** The budget bounds the work of a job: it reports no more batches than the budget and than the calls
      it made, and each batch decides no more chunks than it may hold. It stops for a continuation only
      when the budget is used up or time has run out. */
  lemma {:induction false} BudgetBounds(env: Env, caps: Capabilities, st: Store, pass: nat, r: RunResult)
    requires Valid(st)
    ensures var (st', r') := Loop(env, caps, st, pass, r);
      && r.batches <= r'.batches && (r'.batches > r.batches ==> r'.batches <= caps.jobBatchBudget)
      && r'.batches - r.batches <= st'.calls - st.calls
      && (r'.embedded + r'.failed) - (r.embedded + r.failed) <= (r'.batches - r.batches) * caps.batchSize
      && (r'.continued && !r.continued ==> r'.batches >= caps.jobBatchBudget || exists p :: pass <= p && env.outOfTime(p))
    decreases Measure(st)
  {
    hide Valid, TextAlong, WeightAlong, Pass, CountPending, LoadPending;
    if !env.cancelled(pass) && !(r.batches >= caps.jobBatchBudget || env.outOfTime(pass))
       && LoadPending(st, caps.batchSize) != []
    {
      PassMakesProgress(env.adapter, caps, st);
      PassWithin(env.adapter, caps, st);
      var (after, out) := Pass(env.adapter, caps, st);
      var tally := Tally(r, out);
      BudgetBounds(env, caps, after, pass + 1, tally);
      var (_, r') := Loop(env, caps, after, pass + 1, tally);
      Times(r'.batches - tally.batches, tally.batches - r.batches, caps.batchSize);
    }
  }

  lemma Times(a: int, b: int, n: nat)
    ensures a * n + b * n == (a + b) * n
    ensures b == 1 ==> b * n == n
  {
  }

  lemma NothingPending(st: Store)
    requires forall id <- st.rows :: !st.rows[id].Open()
    ensures CountPending(st) == 0
  {
    assert IdsWith(st, PENDING) == {} && IdsWith(st, EMBEDDING) == {};
  }

  /** A job that hands over to a continuation has strictly lowered the measure. */
  lemma ContinuedJobProgresses(env: Env, caps: Capabilities, st: Store)
    requires Valid(st) && caps.batchSize > 0 && caps.jobBatchBudget > 0
    requires !env.outOfTime(0)
    requires RunJob(env, caps, st).1.continued
    ensures Valid(RunJob(env, caps, st).0) && Measure(RunJob(env, caps, st).0) < Measure(st)
  {
    hide Valid, TextAlong, WeightAlong, Pass, IdsWith, LoadPending;
    PassMakesProgressIf(env, caps, st);
    if !env.cancelled(0) && LoadPending(st, caps.batchSize) != [] {
      var (after, out) := Pass(env.adapter, caps, st);
      LoopKeeps(env, caps, after, 1, Tally(FRESH_RUN, out));
    }
  }

  lemma PassMakesProgressIf(env: Env, caps: Capabilities, st: Store)
    requires Valid(st)
    ensures LoadPending(st, caps.batchSize) != [] ==>
      Progress(st, Pass(env.adapter, caps, st).0) && Measure(Pass(env.adapter, caps, st).0) < Measure(st)
  {
    if LoadPending(st, caps.batchSize) != [] {
      PassMakesProgress(env.adapter, caps, st);
    }
  }

  /** The table after the jobs of `envs`, one after the other. */
  ghost function AfterJobs(envs: seq<Env>, caps: Capabilities, st: Store): (st': Store)
    requires Valid(st)
    ensures Valid(st')
    decreases |envs|
  {
    if envs == [] then st
    else
      LoopKeeps(envs[0], caps, st, 0, FRESH_RUN);
      AfterJobs(envs[1..], caps, RunJob(envs[0], caps, st).0)
  }

  /** The jobs of `envs` run one after the other, each a continuation of the one before. */
  ghost predicate Chained(envs: seq<Env>, caps: Capabilities, st: Store)
    requires Valid(st)
    decreases |envs|
  {
    envs == [] ||
    (var (st', r) := RunJob(envs[0], caps, st);
     LoopKeeps(envs[0], caps, st, 0, FRESH_RUN);
     r.continued && Chained(envs[1..], caps, st'))
  }

  /** Termination of the whole chain, for any provider: it has at most as many jobs as the measure
      of the document it starts from, if no job is out of time before its first pass. */
  lemma {:induction false} ChainTerminates(envs: seq<Env>, caps: Capabilities, st: Store)
    requires Valid(st) && caps.batchSize > 0 && caps.jobBatchBudget > 0
    requires forall i | 0 <= i < |envs| :: !envs[i].outOfTime(0)
    requires Chained(envs, caps, st)
    ensures |envs| <= Measure(st)
    decreases |envs|
  {
    if envs != [] {
      var (st', r) := RunJob(envs[0], caps, st);
      ContinuedJobProgresses(envs[0], caps, st);
      ChainTerminates(envs[1..], caps, st');
    }
  }
}
