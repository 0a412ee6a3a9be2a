/** Which rejected chunks fail for good, and which are left for another attempt. */
module EmbeddingFailures {
  import opened Words
  import opened Chunking
  import opened ProviderErrors
  import opened EmbeddingStore
  import opened EmbeddingProofs
  import opened EmbeddingIsolation
  import opened EmbeddingRuns
  import opened EmbeddingTokenSafety

  // ------------------------------------------------------------ one rejected batch

  /** What a row of a batch becomes that is neither bisected nor split: it is left pending for a retry
      while it has attempts left, if the error may pass, and fails at once if not. */
  ghost predicate Rejects(before: Row, after: Row, mayPass: bool) {
    && after == before.(attempts := before.attempts + 1, status := after.status)
    && (after.status == FAILED <==> !mayPass || before.attempts + 1 >= MAX_CHUNK_EMBED_ATTEMPTS)
    && (after.status == FAILED || after.status == PENDING)
  }

  /** A batch that is rejected and can be neither bisected nor split. The error may pass if it is
      transient, or if the batch was only too long and the depth ran out. */
  lemma RejectedBatch(adapter: Adapter, caps: Capabilities, st: Store, ids: seq<ChunkId>, depth: nat, e: ProviderError)
    requires Valid(st) && OpenBatch(st, ids) && ids != []
    requires MarkAndCall(adapter, st, ids).0 == Rejected(e)
    requires if |ids| == 1 then !IsOversized(e)
             else depth >= MAX_ISOLATION_DEPTH || (!IsOversized(e) && !IsTransient(e) && !IsNonRetryable(e))
    ensures var st' := Embed(adapter, caps, st, ids, depth).0;
      forall id <- ids :: id in st'.rows && Rejects(st.rows[id], st'.rows[id], IsTransient(e) || IsOversized(e))
  {
    hide Valid, MarkAndCall, IsOversized, IsTransient, IsNonRetryable;
    CalledBatch(adapter, st, ids);
    MarkedRows(adapter, st, ids);
  }

  /** Marking and calling changes the status of the batch and nothing else. */
  lemma MarkedRows(adapter: Adapter, st: Store, ids: seq<ChunkId>)
    ensures MarkAndCall(adapter, st, ids).1.rows == MarkEmbedding(st.rows, ids)
  {
    CallKeepsTable(adapter, st.(rows := MarkEmbedding(st.rows, ids)), TextsOf(MarkEmbedding(st.rows, ids), ids));
  }

  /** A lone chunk that the provider refuses for good fails at once. */
  lemma LoneChunkRefused(adapter: Adapter, caps: Capabilities, st: Store, id: ChunkId, depth: nat, e: ProviderError)
    requires Valid(st) && OpenBatch(st, [id]) && id in st.rows
    requires adapter(st.requests, [st.rows[id].text]) == Rejected(e) && IsNonRetryable(e) && !IsOversized(e)
    ensures var st' := Embed(adapter, caps, st, [id], depth).0;
      id in st'.rows && st'.rows[id].status == FAILED
  {
    var rows := MarkEmbedding(st.rows, [id]);
    assert TextsOf(rows, [id]) == [st.rows[id].text];
    assert MarkAndCall(adapter, st, [id]).0 == Rejected(e);
    hide MarkAndCall, Embed, IsOversized, IsTransient, IsNonRetryable;
    RejectedBatch(adapter, caps, st, [id], depth, e);
    assert id in [id];
  }

  // ------------------------------------------------------------ an outage

  /** A provider that may answer anything, also with a wrong number of vectors, but whose rejections
      are all transient. */
  ghost predicate OnlyOutages(adapter: Adapter) {
    forall n: nat, texts: seq<Text> :: adapter(n, texts).Rejected? ==> IsTransient(adapter(n, texts).error)
  }

  lemma {:induction false} OutageRequest(adapter: Adapter, st: Store, texts: seq<Text>, attempt: nat)
    requires 1 <= attempt <= ADAPTER_RETRY_ATTEMPTS && OnlyOutages(adapter)
    ensures var response := Request(adapter, st, texts, attempt).0;
      response.Rejected? ==> IsTransient(response.error)
    decreases ADAPTER_RETRY_ATTEMPTS - attempt
  {
    if attempt < ADAPTER_RETRY_ATTEMPTS {
      OutageRequest(adapter, st.(requests := st.requests + 1, sent := st.sent + [texts]), texts, attempt + 1);
    }
  }

  lemma OutageCall(adapter: Adapter, st: Store, ids: seq<ChunkId>)
    requires OnlyOutages(adapter)
    ensures var response := MarkAndCall(adapter, st, ids).0;
      response.Rejected? ==> IsTransient(response.error) && !IsOversized(response.error) && !IsNonRetryable(response.error)
  {
    hide IsOversized, IsNonRetryable;
    var marked := st.(rows := MarkEmbedding(st.rows, ids));
    OutageRequest(adapter, marked.(calls := marked.calls + 1), TextsOf(marked.rows, ids), 1);
  }

  /** One attempt is spent on a chunk: it is embedded, or fails with its last attempt, or waits for the
      next one. */
  ghost predicate Spent(before: Row, after: Row) {
    || Rejects(before.(chunkIndex := after.chunkIndex), after, true)
    || (after.status == EMBEDDED && after.attempts == before.attempts + 1)
  }

  ghost predicate Attempted(st: Store, st': Store, ids: seq<ChunkId>) {
    forall id <- ids :: id in st.rows && id in st'.rows && Spent(st.rows[id], st'.rows[id])
  }

  lemma ConcludeAttempts(caps: Capabilities, st: Store, ids: seq<ChunkId>, depth: nat, response: Response)
    requires OpenBatch(st, ids) && ids != []
    requires response.Rejected? ==> IsTransient(response.error) && !IsOversized(response.error) && !IsNonRetryable(response.error)
    ensures Attempted(st, Conclude(caps, st, ids, depth, response).0, ids)
  {
    hide IsOversized, IsTransient, IsNonRetryable;
  }

  lemma AttemptedHalves(st: Store, st1: Store, st2: Store, ids: seq<ChunkId>, mid: nat, o1: Outcome, o2: Outcome)
    requires OpenBatch(st, ids) && mid <= |ids|
    requires BatchStep(st, st1, ids[..mid], o1) && BatchStep(st1, st2, ids[mid..], o2)
    requires Attempted(st, st1, ids[..mid]) && Attempted(st1, st2, ids[mid..])
    ensures Attempted(st, st2, ids)
  {
    SplitBatch(st, ids, mid);
    hide Valid, TextAlong, WeightAlong, CountStatus;
    hide Spent;
    forall id <- ids ensures id in st.rows && id in st2.rows && Spent(st.rows[id], st2.rows[id]) {
      if id in ids[..mid] {
        assert id in st1.rows && SameContent(st2.rows[id], st1.rows[id]);
        SpentBefore(st.rows[id], st1.rows[id], st2.rows[id]);
      } else {
        assert id in st.rows && SameContent(st1.rows[id], st.rows[id]);
        SpentAfter(st.rows[id], st1.rows[id], st2.rows[id]);
      }
    }
  }

  lemma SpentBefore(r: Row, r1: Row, r2: Row)
    requires Spent(r, r1) && SameContent(r2, r1)
    ensures Spent(r, r2)
  {
  }

  lemma SpentAfter(r: Row, r1: Row, r2: Row)
    requires SameContent(r1, r) && Spent(r1, r2)
    ensures Spent(r, r2)
  {
  }

  lemma AttemptedFromMarked(st: Store, called: Store, st': Store, ids: seq<ChunkId>)
    requires called.rows == MarkEmbedding(st.rows, ids) && Attempted(called, st', ids)
    ensures Attempted(st, st', ids)
  {
    forall id <- ids ensures id in st.rows && called.rows[id] == st.rows[id].(status := EMBEDDING) {
      assert id in called.rows;
    }
  }

  /** While a provider is only out of service, a chunk fails for good with its third attempt and not
      before, at whatever depth of the bisection. */
  lemma {:induction false} OutageSparesBatch(adapter: Adapter, caps: Capabilities, st: Store, ids: seq<ChunkId>, depth: nat)
    requires OnlyOutages(adapter) && Valid(st) && OpenBatch(st, ids)
    ensures Attempted(st, Embed(adapter, caps, st, ids, depth).0, ids)
    decreases |ids|
  {
    hide OnlyOutages, Valid, OpenBatch, BatchStep, MarkAndCall, Conclude, SameTable, MarkEmbedding, TextOf, Add, Attempted, Bisects,
         IsOversized, IsTransient, IsNonRetryable;
    if ids == [] {
      NoneAttempted(st);
    } else {
      var (response, called) := MarkAndCall(adapter, st, ids);
      var st' := Embed(adapter, caps, st, ids, depth).0;
      CalledBatch(adapter, st, ids);
      MarkedRows(adapter, st, ids);
      OutageCall(adapter, st, ids);
      if response.Rejected? && Bisects(response.error, |ids|, depth) {
        BisectsMany(response.error, |ids|, depth);
        var mid := |ids| / 2;
        var (afterLeft, left) := Embed(adapter, caps, called, ids[..mid], depth + 1);
        var (afterRight, right) := Embed(adapter, caps, afterLeft, ids[mid..], depth + 1);
        SplitBatch(called, ids, mid);
        OutageSparesBatch(adapter, caps, called, ids[..mid], depth + 1);
        EmbedIsBatchStep(adapter, caps, called, ids[..mid], depth + 1);
        HalvesStep(called, ids, mid, afterLeft, left);
        OutageSparesBatch(adapter, caps, afterLeft, ids[mid..], depth + 1);
        EmbedIsBatchStep(adapter, caps, afterLeft, ids[mid..], depth + 1);
        AttemptedHalves(called, afterLeft, afterRight, ids, mid, left, right);
      } else {
        ConcludeAttempts(caps, called, ids, depth, response);
      }
      AttemptedFromMarked(st, called, st', ids);
    }
  }

  lemma NoneAttempted(st: Store)
    ensures Attempted(st, st, [])
  {
  }

  // ------------------------------------------------------------ whole runs

  /** Every failed chunk but those of `before` has used up its attempts. */
  ghost predicate OnlySpent(st: Store, before: set<ChunkId>) {
    forall id <- st.rows | st.rows[id].status == FAILED && id !in before :: st.rows[id].attempts >= MAX_CHUNK_EMBED_ATTEMPTS
  }

  lemma BatchSpends(st: Store, st': Store, ids: seq<ChunkId>, out: Outcome, before: set<ChunkId>)
    requires BatchStep(st, st', ids, out) && Attempted(st, st', ids) && OnlySpent(st, before)
    ensures OnlySpent(st', before)
  {
    hide Valid, TextAlong, WeightAlong, CountStatus;
    forall id <- st'.rows | st'.rows[id].status == FAILED && id !in before
      ensures st'.rows[id].attempts >= MAX_CHUNK_EMBED_ATTEMPTS
    {
      if id !in ids {
        assert id in st.rows && SameContent(st'.rows[id], st.rows[id]);
      }
    }
  }

  /** From 32 tokens on a chunk over the limit can be split, so the splits before a pass fail no chunk. */
  lemma SplitSpends(st: Store, id: ChunkId, caps: Capabilities, before: set<ChunkId>)
    requires caps.maxInputTokens >= 32 && Valid(st) && CountsMatch(st) && Unsafe(st, id, caps) && OnlySpent(st, before)
    ensures OnlySpent(SplitChunk(st, id, caps).0, before)
  {
    hide SplitRows, SplitText, SaferMax, EstimateTokens, NewIds, Valid;
    var row := st.rows[id];
    var parts := SplitText(row.text, SaferMax(caps, row.text));
    SaferPartsFit(caps, row.text);
    SplitChunkIs(st, id, caps);
    IdsAreFresh(st);
    forall i <- SplitRows(st.rows, id, parts, st.nextId)
      ensures var now := SplitRows(st.rows, id, parts, st.nextId)[i];
        || now.status == PENDING
        || (i in st.rows && now.status == st.rows[i].status && now.attempts == st.rows[i].attempts)
    {
      SplitRowAt(st.rows, id, parts, st.nextId, i);
    }
  }

  lemma {:induction false} SplitsSpend(st: Store, batch: seq<ChunkId>, caps: Capabilities, before: set<ChunkId>)
    requires caps.maxInputTokens >= 32 && Valid(st) && OpenBatch(st, batch) && CountsMatch(st) && OnlySpent(st, before)
    ensures OnlySpent(SplitUnsafe(st, batch, caps), before)
    decreases |batch|
  {
    hide Valid, OpenBatch, SplitChunk, Unsafe, CountsMatch, OnlySpent, BatchStep;
    if batch != [] {
      var id := batch[0];
      RestIsOpen(st, batch);
      if Unsafe(st, id, caps) {
        FirstIsOpen(st, batch);
        var (st1, out) := SplitChunk(st, id, caps);
        SplitStep(st, id, caps);
        SplitCountsMatch(st, id, caps);
        SplitSpends(st, id, caps, before);
        StepIsValid(st, st1, id, out);
        StillOpen(st, st1, [id], out, batch[1..]);
        SplitsSpend(st1, batch[1..], caps, before);
      } else {
        SplitsSpend(st, batch[1..], caps, before);
      }
    }
  }

  lemma FirstIsOpen(st: Store, batch: seq<ChunkId>)
    requires OpenBatch(st, batch) && batch != []
    ensures batch[0] in st.rows && st.rows[batch[0]].Open()
    ensures forall id <- batch[1..] :: id !in [batch[0]]
  {
    assert batch[0] in batch;
  }

  lemma PassSpends(adapter: Adapter, caps: Capabilities, st: Store, before: set<ChunkId>)
    requires OnlyOutages(adapter) && caps.maxInputTokens >= 32 && Valid(st) && CountsMatch(st) && OnlySpent(st, before)
    ensures OnlySpent(Pass(adapter, caps, st).0, before)
  {
    hide OnlyOutages, Valid, OpenBatch, CountsMatch, OnlySpent, BatchStep, LoadPending, SplitUnsafe, Embed, Attempted, Unsafe;
    var (safe, batch) := EnsureTokenSafe(st, LoadPending(st, caps.batchSize), caps);
    PendingIsOpen(st, caps.batchSize);
    SplitsSpend(st, LoadPending(st, caps.batchSize), caps, before);
    PassBatchIsOpen(st, caps);
    var (after, out) := Embed(adapter, caps, safe, batch, 0);
    EmbedIsBatchStep(adapter, caps, safe, batch, 0);
    OutageSparesBatch(adapter, caps, safe, batch, 0);
    BatchSpends(safe, after, batch, out, before);
  }

  /** Over a whole run an outage makes no chunk fail that has attempts left: with a limit of at least 32
      tokens and matching stored counts, whatever fails has used all of them. */
  lemma {:induction false} OutageFailsOnlySpent(env: Env, caps: Capabilities, st: Store, pass: nat, r: RunResult, before: set<ChunkId>)
    requires OnlyOutages(env.adapter) && caps.maxInputTokens >= 32
    requires Valid(st) && CountsMatch(st) && SentWithin(st, caps.maxInputTokens) && OnlySpent(st, before)
    ensures OnlySpent(Loop(env, caps, st, pass, r).0, before)
    decreases Measure(st)
  {
    hide OnlyOutages, Valid, TextAlong, WeightAlong, LoadPending, CountsMatch, SentWithin, OnlySpent, Pass;
    if !env.cancelled(pass) && !(r.batches >= caps.jobBatchBudget || env.outOfTime(pass))
       && LoadPending(st, caps.batchSize) != [] {
      PassMakesProgress(env.adapter, caps, st);
      PassSpends(env.adapter, caps, st, before);
      PassIsSafe(env.adapter, caps, st);
      var (after, out) := Pass(env.adapter, caps, st);
      OutageFailsOnlySpent(env, caps, after, pass + 1, Tally(r, out), before);
    }
  }

  /** The same over any number of jobs, whose providers may all be out of service at any time. */
  lemma {:induction false} OutagesSpareDocument(envs: seq<Env>, caps: Capabilities, st: Store, before: set<ChunkId>)
    requires (forall env <- envs :: OnlyOutages(env.adapter)) && caps.maxInputTokens >= 32
    requires Valid(st) && CountsMatch(st) && SentWithin(st, caps.maxInputTokens) && OnlySpent(st, before)
    ensures OnlySpent(AfterJobs(envs, caps, st), before)
    decreases |envs|
  {
    hide OnlyOutages, Valid, CountsMatch, SentWithin, OnlySpent, Loop, Progress, IdsWith;
    if envs != [] {
      assert envs[0] in envs && forall env <- envs[1..] :: env in envs;
      LoopKeeps(envs[0], caps, st, 0, FRESH_RUN);
      NothingOverlongIsSent(envs[0], caps, st, 0, FRESH_RUN);
      OutageFailsOnlySpent(envs[0], caps, st, 0, FRESH_RUN, before);
      var st1 := RunJob(envs[0], caps, st).0;
      ProgressValid(st, st1);
      OutagesSpareDocument(envs[1..], caps, st1, before);
    }
  }

  lemma SplitFailsNone(st: Store, id: ChunkId, caps: Capabilities)
    requires caps.maxInputTokens >= 32 && Valid(st) && CountsMatch(st) && Unsafe(st, id, caps) && st.rows[id].Open()
    ensures IdsWith(SplitChunk(st, id, caps).0, FAILED) == IdsWith(st, FAILED)
  {
    hide SplitRows, SplitText, SaferMax, EstimateTokens, NewIds, Valid;
    SplitKeepsEmbedded(st, id, caps);
    var parts := SplitText(st.rows[id].text, SaferMax(caps, st.rows[id].text));
    SaferPartsFit(caps, st.rows[id].text);
    SplitChunkIs(st, id, caps);
    IdsAreFresh(st);
    forall i <- SplitRows(st.rows, id, parts, st.nextId)
      ensures var now := SplitRows(st.rows, id, parts, st.nextId)[i];
        now.status == PENDING || (i in st.rows && now.status == st.rows[i].status)
    {
      SplitRowAt(st.rows, id, parts, st.nextId, i);
    }
  }

  lemma {:induction false} SplitsFailNone(st: Store, batch: seq<ChunkId>, caps: Capabilities)
    requires caps.maxInputTokens >= 32 && Valid(st) && OpenBatch(st, batch) && CountsMatch(st)
    ensures IdsWith(SplitUnsafe(st, batch, caps), FAILED) == IdsWith(st, FAILED)
    decreases |batch|
  {
    hide Valid, OpenBatch, SplitChunk, Unsafe, CountsMatch, BatchStep, IdsWith;
    if batch != [] {
      var id := batch[0];
      RestIsOpen(st, batch);
      if Unsafe(st, id, caps) {
        FirstIsOpen(st, batch);
        var (st1, out) := SplitChunk(st, id, caps);
        SplitStep(st, id, caps);
        SplitCountsMatch(st, id, caps);
        SplitFailsNone(st, id, caps);
        StepIsValid(st, st1, id, out);
        StillOpen(st, st1, [id], out, batch[1..]);
        SplitsFailNone(st1, batch[1..], caps);
      } else {
        SplitsFailNone(st, batch[1..], caps);
      }
    }
  }

  lemma PassReports(adapter: Adapter, caps: Capabilities, st: Store)
    requires caps.maxInputTokens >= 32 && Valid(st) && CountsMatch(st)
    ensures var (after, out) := Pass(adapter, caps, st);
      |IdsWith(after, FAILED)| == |IdsWith(st, FAILED)| + (if out.Some? then out.value.failed else 0)
  {
    hide Valid, OpenBatch, CountsMatch, BatchStep, LoadPending, SplitUnsafe, Embed, Unsafe, IdsWith;
    var (safe, batch) := EnsureTokenSafe(st, LoadPending(st, caps.batchSize), caps);
    PendingIsOpen(st, caps.batchSize);
    SplitsFailNone(st, LoadPending(st, caps.batchSize), caps);
    PassBatchIsOpen(st, caps);
    var (after, out) := Embed(adapter, caps, safe, batch, 0);
    EmbedIsBatchStep(adapter, caps, safe, batch, 0);
    StepIds(safe, after, batch, out);
  }

  /** A run reports as failed exactly the chunks that became FAILED in it. */
  lemma {:induction false} FailuresAreReported(env: Env, caps: Capabilities, st: Store, pass: nat, r: RunResult)
    requires caps.maxInputTokens >= 32 && Valid(st) && CountsMatch(st) && SentWithin(st, caps.maxInputTokens)
    ensures var (st', r') := Loop(env, caps, st, pass, r);
      |IdsWith(st', FAILED)| - |IdsWith(st, FAILED)| == r'.failed - r.failed
    decreases Measure(st)
  {
    hide Valid, TextAlong, WeightAlong, LoadPending, CountsMatch, SentWithin, Pass, IdsWith;
    if !env.cancelled(pass) && !(r.batches >= caps.jobBatchBudget || env.outOfTime(pass))
       && LoadPending(st, caps.batchSize) != [] {
      PassMakesProgress(env.adapter, caps, st);
      PassReports(env.adapter, caps, st);
      PassIsSafe(env.adapter, caps, st);
      var (after, out) := Pass(env.adapter, caps, st);
      FailuresAreReported(env, caps, after, pass + 1, Tally(r, out));
    }
  }

  lemma ProgressValid(st: Store, st': Store)
    requires Progress(st, st')
    ensures Valid(st')
  {
  }
}
