/** From pages to a finished document: provider limits, the first chunk rows, and the verdict
    that `_finalize_document` writes. */
module EmbeddingDocument {
  import opened Statuses
  import opened Words
  import opened Chunking
  import opened ChunkingProofs
  import opened Wrappers
  import opened EmbeddingStore
  import opened EmbeddingProofs
  import opened EmbeddingIsolation
  import opened EmbeddingRuns
  import opened EmbeddingTokenSafety

  // ------------------------------------------------------------ provider limits

  const DEFAULT_MAX_INPUT_TOKENS := 8192
  const DEFAULT_RECOMMENDED_CHUNK_TOKENS := 512
  const DEFAULT_CHUNK_OVERLAP_TOKENS := 64
  const DEFAULT_BATCH_SIZE := 16
  const DEFAULT_MAX_BATCH_SIZE := 32
  const DEFAULT_JOB_BATCH_BUDGET := 64

  datatype ProviderRow = ProviderRow(
    maxInputTokens: Option<int>, recommendedChunkTokens: Option<int>, maxBatchSize: Option<int>, batchSize: Option<int>)

  function Positive(value: Option<int>, default: nat): nat {
    if value.None? || value.value <= 0 then default else value.value
  }

  function ResolveCapabilities(provider: ProviderRow): Capabilities {
    var maxInput := Positive(provider.maxInputTokens, DEFAULT_MAX_INPUT_TOKENS);
    var recommended := Min(Positive(provider.recommendedChunkTokens, DEFAULT_RECOMMENDED_CHUNK_TOKENS), maxInput);
    var maxBatch := Positive(provider.maxBatchSize, DEFAULT_MAX_BATCH_SIZE);
    var batch := Max(1, Min(Positive(provider.batchSize, DEFAULT_BATCH_SIZE), maxBatch));
    Capabilities(maxInput, recommended, batch, DEFAULT_JOB_BATCH_BUDGET)
  }

  function LimitsFor(caps: Capabilities): ChunkingLimits {
    var chunk := Max(64, Min(caps.recommendedChunkTokens, caps.maxInputTokens));
    ChunkingLimits(
      Max(64, 3 * chunk / 4), chunk, chunk, Max(32, chunk / 5), Min(DEFAULT_CHUNK_OVERLAP_TOKENS, Max(1, chunk / 4)))
  }

  // ------------------------------------------------------------ the first chunk rows

  function SeedRows(chunks: seq<ChunkDraft>, n: nat): map<ChunkId, Row>
    requires n <= |chunks|
  {
    if n == 0 then map[]
    else SeedRows(chunks, n - 1)[n - 1 :=
      Row(chunks[n - 1].text, chunks[n - 1].tokenCount, chunks[n - 1].chunkIndex, PENDING, 0)]
  }

  /** The table right after indexing. */
  function Seed(chunks: seq<ChunkDraft>): Store {
    Store(SeedRows(chunks, |chunks|), NewIds(0, |chunks|), |chunks|, 0, 0, [])
  }

  lemma {:induction false} SeedRowsAre(chunks: seq<ChunkDraft>, n: nat)
    requires n <= |chunks|
    ensures var rows := SeedRows(chunks, n);
      && (forall i: ChunkId :: i in rows <==> i < n)
      && (forall i | 0 <= i < n ::
            rows[i] == Row(chunks[i].text, chunks[i].tokenCount, chunks[i].chunkIndex, PENDING, 0))
  {
    if n > 0 {
      SeedRowsAre(chunks, n - 1);
    }
  }

  lemma {:induction false} SeedTextIs(chunks: seq<ChunkDraft>, n: nat)
    requires n <= |chunks|
    ensures TextAlong(SeedRows(chunks, |chunks|), NewIds(0, n)) == Concat(Texts(chunks[..n]))
  {
    if n > 0 {
      hide SeedRows, TextAlong, Concat;
      var rows := SeedRows(chunks, |chunks|);
      SeedRowsAre(chunks, |chunks|);
      SeedTextIs(chunks, n - 1);
      TextAppend(rows, NewIds(0, n - 1), [n - 1]);
      SingleAlong(rows, n - 1);
      OneMoreText(chunks, n - 1);
    }
  }

  lemma OneMoreText(chunks: seq<ChunkDraft>, n: nat)
    requires n < |chunks|
    ensures Concat(Texts(chunks[..n + 1])) == Concat(Texts(chunks[..n])) + chunks[n].text
  {
    hide Concat;
    assert chunks[..n + 1] == chunks[..n] + [chunks[n]];
    TextsAppend(chunks[..n], [chunks[n]]);
    assert Texts([chunks[n]]) == [chunks[n].text];
    ConcatAppend(Texts(chunks[..n]), [chunks[n].text]);
    ConcatOne(chunks[n].text);
  }

  /** Chunks numbered 0, 1, 2, ... make a valid table that reads as the chunks do. */
  lemma SeedIsValid(limits: ChunkingLimits, chunks: seq<ChunkDraft>)
    requires GoodChunks(limits, chunks)
    ensures Valid(Seed(chunks)) && CountsMatch(Seed(chunks)) && Seed(chunks).sent == []
    ensures Seed(chunks).calls == 0 && Seed(chunks).requests == 0
    ensures DocumentText(Seed(chunks)) == Concat(Texts(chunks))
  {
    SeedRowsAre(chunks, |chunks|);
    SeedTextIs(chunks, |chunks|);
    assert chunks[..|chunks|] == chunks;
  }

  // ------------------------------------------------------------ the verdict

  datatype EmbeddingError = NoError | CancelledPreserved | Paused | SomeFailed(failed: nat, total: nat) | AllFailed(failed: nat)

  datatype DocumentState = DocumentState(
    status: ProcessingStatus, hasEmbeddings: bool, error: EmbeddingError, finished: bool)

  function Finalize(doc: DocumentState, embedded: nat, failed: nat, pending: nat, cancelled: bool, continued: bool): DocumentState {
    if cancelled then doc.(error := CancelledPreserved)
    else if continued then doc.(error := NoError)
    else if pending > 0 && failed == 0 then doc.(error := Paused, hasEmbeddings := false)
    else if failed > 0 && embedded > 0 then
      doc.(hasEmbeddings := true, status := PARTIAL, error := SomeFailed(failed, embedded + failed + pending), finished := true)
    else if failed > 0 && embedded == 0 then
      doc.(hasEmbeddings := false, error := AllFailed(failed), finished := true,
           status := if doc.status != FAILED_PROCESSING then PARTIAL else doc.status)
    else if embedded > 0 then
      doc.(hasEmbeddings := true, error := NoError, finished := true,
           status := if doc.status == PARTIAL || doc.status != FAILED_PROCESSING then READY else doc.status)
    else doc.(hasEmbeddings := false)
  }

  /** One job on a document: clear the old error, run, write the verdict from the counts. */
  function ProcessDocument(env: Env, caps: Capabilities, st: Store, doc: DocumentState): (Store, DocumentState, RunResult)
    requires Valid(st)
  {
    var (st', r) := RunJob(env, caps, st);
    (st',
     Finalize(doc.(error := NoError), |IdsWith(st', EMBEDDED)|, |IdsWith(st', FAILED)|, CountPending(st'), r.cancelled, r.continued),
     r)
  }

  lemma RowCount(st: Store)
    ensures |st.rows| == |IdsWith(st, EMBEDDED)| + |IdsWith(st, FAILED)| + CountPending(st)
  {
    var settled := IdsWith(st, EMBEDDED) + IdsWith(st, FAILED);
    var open := IdsWith(st, PENDING) + IdsWith(st, EMBEDDING);
    assert IdsWith(st, EMBEDDED) !! IdsWith(st, FAILED) && IdsWith(st, PENDING) !! IdsWith(st, EMBEDDING);
    assert settled !! open;
    assert st.rows.Keys == settled + open;
    assert |st.rows| == |st.rows.Keys|;
  }

  /** The verdict on a run that was neither cancelled nor continued is final: it never says
      "paused", every chunk is embedded or failed, the document claims embeddings exactly when some
      chunk has one, and it is without an error exactly when no chunk failed. */
  lemma FinishedRunDecides(env: Env, caps: Capabilities, st: Store, doc: DocumentState)
    requires Valid(st) && caps.batchSize > 0
    ensures var (st', doc', r) := ProcessDocument(env, caps, st, doc);
      !r.cancelled && !r.continued ==>
        && doc'.error != Paused
        && |st'.rows| == |IdsWith(st', EMBEDDED)| + |IdsWith(st', FAILED)|
        && (doc'.hasEmbeddings <==> |IdsWith(st', EMBEDDED)| > 0)
        && (doc'.error == NoError <==> |IdsWith(st', FAILED)| == 0)
        && (doc'.status == PARTIAL ==> doc.status == PARTIAL || |IdsWith(st', FAILED)| > 0)
  {
    LoopDrains(env, caps, st, 0, FRESH_RUN);
    var (st', r) := RunJob(env, caps, st);
    hide RunJob, Loop, CountPending, IdsWith;
    RowCount(st');
  }

  /** What a job writes on the document: a note if it was cancelled, nothing but a cleared error if it is
      continued, and else the verdict on its chunks. A document whose processing failed stays so unless
      some chunks are embedded and some are not. */
  lemma VerdictExactly(env: Env, caps: Capabilities, st: Store, doc: DocumentState)
    requires Valid(st) && caps.batchSize > 0
    ensures var (st', doc', r) := ProcessDocument(env, caps, st, doc);
      var embedded, failed := |IdsWith(st', EMBEDDED)|, |IdsWith(st', FAILED)|;
      && (r.cancelled ==> doc' == doc.(error := CancelledPreserved))
      && (!r.cancelled && r.continued ==> doc' == doc.(error := NoError))
      && (!r.cancelled && !r.continued ==>
            && doc'.hasEmbeddings == (embedded > 0) && doc'.finished == (doc.finished || embedded + failed > 0)
            && doc'.error == (if failed == 0 then NoError
                              else if embedded > 0 then SomeFailed(failed, |st'.rows|) else AllFailed(failed))
            && doc'.status == (if embedded + failed == 0 then doc.status
                               else if embedded > 0 && failed > 0 then PARTIAL
                               else if doc.status == FAILED_PROCESSING then FAILED_PROCESSING
                               else if failed > 0 then PARTIAL else READY))
  {
    LoopDrains(env, caps, st, 0, FRESH_RUN);
    var (st', r) := RunJob(env, caps, st);
    hide RunJob, Loop, CountPending, IdsWith;
    RowCount(st');
  }

  // ------------------------------------------------------------ end to end

  /** From the pages of a document through any number of embedding jobs, with any providers, clocks and
      cancellations: the chunk rows in order still read as the chunks that `chunk_pages` cut, whose
      windows without their overlaps are the words of the pages; and, for a provider limit of at
      least 32 tokens, no request of any job held a text over the limit. */
  lemma PagesSurviveEmbedding(envs: seq<Env>, caps: Capabilities, pages: seq<PageInput>)
    ensures var limits := LimitsFor(caps);
      var chunks := ChunkPages(limits, pages);
      var blocks := PageBlocks(pages, limits.maxTokens);
      var ws := ChunkBlocks(limits, blocks).windows;
      && Valid(Seed(chunks)) && Chain(ws, |blocks|)
      && (var st' := AfterJobs(envs, caps, Seed(chunks));
          && Valid(st')
          && DocumentText(st') == Concat(Texts(chunks))
          && Emitted(blocks, chunks, ws) && WithoutOverlaps(blocks, ws) == PagesText(pages)
          && (caps.maxInputTokens >= 32 ==> SentWithin(st', caps.maxInputTokens)))
  {
    var limits := LimitsFor(caps);
    var chunks := ChunkPages(limits, pages);
    ChunkPagesBounded(limits, pages);
    ChunkPagesLosesNothing(limits, pages);
    SeedIsValid(limits, chunks);
    hide Valid, LimitsFor, ChunkPages, ChunkBlocks, PageBlocks, AfterJobs, Emitted, CountsMatch, WithoutOverlaps, GoodChunks, Seed,
         DocumentText, PagesText, Measure;
    JobsKeep(envs, caps, Seed(chunks));
  }

  /** What provider rows resolve to: a usable batch size and budget, and chunking limits under which
      fresh chunks need no split when the provider takes at least 64 tokens. */
  lemma ResolvedLimitsAgree(provider: ProviderRow, pages: seq<PageInput>)
    ensures var caps := ResolveCapabilities(provider);
      && caps.batchSize > 0 && caps.jobBatchBudget > 0
      && 1 <= caps.recommendedChunkTokens <= caps.maxInputTokens
      && (provider.maxBatchSize == None ==> caps.batchSize <= 32)
      && (var l := LimitsFor(caps);
          && 64 <= l.targetMinTokens <= l.targetMaxTokens == l.maxTokens && 32 <= l.minTokens <= l.targetMinTokens
          && 1 <= l.overlapTokens <= 64 && 4 * l.overlapTokens <= l.maxTokens)
      && (caps.maxInputTokens >= 64 ==>
            forall c <- ChunkPages(LimitsFor(caps), pages) :: TokenSafe(caps, Row(c.text, c.tokenCount, c.chunkIndex, PENDING, 0)))
  {
    var caps := ResolveCapabilities(provider);
    ChunkPagesBounded(LimitsFor(caps), pages);
    hide ChunkPages;
  }

  /** A setting of the provider, if it is there and positive. */
  function Wanted(value: Option<int>, otherwise: nat): nat {
    if value.Some? && value.value > 0 then value.value else otherwise
  }

  /** The settings that a provider row resolves to are its own or the documented defaults, each cut to
      what limits it; the chunking limits are their shares of a chunk. */
  lemma ResolvedFrom(provider: ProviderRow)
    ensures var caps := ResolveCapabilities(provider);
      var largest, chunk := Wanted(provider.maxInputTokens, 8192), Wanted(provider.recommendedChunkTokens, 512);
      var batch, most := Wanted(provider.batchSize, 16), Wanted(provider.maxBatchSize, 32);
      && caps.maxInputTokens == largest && caps.jobBatchBudget == 64
      && caps.recommendedChunkTokens <= chunk && caps.recommendedChunkTokens <= largest
      && (caps.recommendedChunkTokens == chunk || caps.recommendedChunkTokens == largest)
      && caps.batchSize <= batch && caps.batchSize <= most && (caps.batchSize == batch || caps.batchSize == most)
      && SharesOf(LimitsFor(caps), caps.recommendedChunkTokens)
  {
  }

  /** At least three quarters of a chunk to aim for, a fifth at the least, a quarter of overlap. */
  predicate SharesOf(l: ChunkingLimits, recommended: nat) {
    var chunk := l.maxTokens;
    && (if recommended >= 64 then chunk == recommended else chunk == 64) && l.targetMaxTokens == chunk
    && (if chunk < 88 then l.targetMinTokens == 64 || 4 * l.targetMinTokens <= 3 * chunk
        else 4 * l.targetMinTokens <= 3 * chunk < 4 * l.targetMinTokens + 4)
    && (if chunk < 165 then l.minTokens == 32 else 5 * l.minTokens <= chunk < 5 * l.minTokens + 5)
    && (if chunk >= 256 then l.overlapTokens == 64 else 4 * l.overlapTokens <= chunk < 4 * l.overlapTokens + 4)
  }

  /** With the default maximum batch size every pass isolates completely. */
  lemma DefaultBatchesIsolate(provider: ProviderRow, adapter: Adapter, bad: Text -> bool, st: Store)
    requires provider.maxBatchSize == None
    requires Faithful(adapter, bad) && Valid(st)
    ensures var caps := ResolveCapabilities(provider);
      var (safe, batch) := EnsureTokenSafe(st, LoadPending(st, caps.batchSize), caps);
      Isolated(safe, Pass(adapter, caps, st).0, batch, bad)
  {
    var caps := ResolveCapabilities(provider);
    var (safe, batch) := EnsureTokenSafe(st, LoadPending(st, caps.batchSize), caps);
    hide Valid, OpenBatch, Faithful, Isolated, Embed, OpenAlong, SplitUnsafe, Unsafe;
    PassBatchIsOpen(st, caps);
    assert caps.batchSize <= 32 && |batch| <= 32;
    assert Pow2(5) == 32;
    if batch == [] {
      NoneIsolated(safe, bad);
    } else {
      IsolationComplete(adapter, bad, caps, safe, batch, 0);
    }
  }
}
