# lesspaper-ngl backend: a verified model

This project models the algorithmic and state-machine cores of the lesspaper-ngl document manager in
Dafny and proves what their code and documentation promise. Run `dafny verify dfyconfig.toml` to
verify everything. All source paths below are relative to the repository root.

## What is modelled

| modules | repository code | form |
|---|---|---|
| `Words`, `Chunking`, `ChunkingProofs`, `ChunkBoundaries`, `Chunker` | `services/chunking.py` | specification functions; loops and the closure state of `chunk_pages` as methods and a class |
| `ProviderErrors`, `EmbeddingStore`, `EmbeddingProofs`, `EmbeddingIsolation`, `EmbeddingFailures`, `EmbeddingRuns`, `EmbeddingTokenSafety`, `EmbeddingPipeline`, `EmbeddingDocument` | `services/embedding_pipeline.py`, `services/embedding_capabilities.py`, `ai/retry.py` | a chunk table with in-place updates, the recursive isolation, the job loop and the chain of continuation jobs, against a provider that may answer anything |
| `JobQueue`, `JobQueueProofs`, `JobClaims`, `JobService` | `services/jobs.py`, the calls of `services/documents.py` and `services/folders.py` that put documents into the inbox | a state machine over committed steps, and the service calls as methods of a class |
| `Folders`, `FoldersProofs`, `FolderPaths`, `FolderRights`, `FolderChanges`, `FolderChangesProofs`, `FolderOwners`, `FolderAnswers`, `FoldersWitnesses`, `FolderService` | `services/folders.py` | tables of folders and documents; every call as a specification function, a method, a step that keeps the forest, and an exact account of its answers and of what it changes in which row |
| `TrashPurge` | purge and empty-trash in `services/documents.py` | the worklist loops as methods over the folder table |
| `Originals`, `OriginalRights`, `OriginalStore` | ingest and deletion in `services/documents.py`, `storage/service.py` | rows and a key-to-content store, as steps over runs and as a class |
| `RankFusion`, `Fusion` | fusion in `ai/rag.py` and `search/hybrid.py` | score dictionaries filled in loops, against the order they must produce |
| `Strings`, `AskBudget`, `AskJoins`, `AskService` | the budget, fitting, history and prompt parts of `ai/rag.py`, `ai/profiles.py`, history selection in `services/ask_conversations.py` | prompts as strings, the tokenizer as any function |
| `Citations`, `CitationService` | the citation pipeline of `ai/rag.py` and `services/ask_conversations.py` | answers as tokens |
| `FilingSampler`, `FilingService` | the sampler of `ai/filing_context.py` | texts as strings, with binary searches and the widening loop |

`Wrappers` and `Statuses` hold two types that several of these share.

Specification functions are deterministic readings of the code; each method is proved equal to its
function, and the lemmas prove what the function means: an invariant over every run, a conservation
law, an independent description of the result, or the exact condition under which a claim holds.

## Where the code and its promises part

Each of these is proved, with the condition under which the promise does hold.

- A heading after enough text, or on a new page, is to start a chunk. When little text follows it the
  final merge puts it back into the chunk before it (`HeadingMergedAway`, `ChunksCutExactly`), and in
  every case its chunk starts with earlier text, because the overlap is never empty
  (`EmissionsOverlap`). Where two rules cut at one place, and whenever the last block completes a
  chunk, text is stored that adds no word (`RepeatsExactly`).
- `_split_single_chunk` never makes pieces below 32 tokens, so a provider limit below 32 lets
  over-long texts through (`NothingOverlongIsSent`, `OverlongIsSentBelow32`).
- Bisecting stops at depth 5: in a configured batch of more than 32 chunks one bad text that the
  provider rejects can fail good chunks for good (`IsolationComplete`, `IsolationNeedsRoom`); the
  default maximum of 32 is safe.
- A failure report brings a cancelled job back (`CancelledLeavesOnlyByFailure`), although the comment
  in `complete_job` speaks of preserving the cancellation.
- `claim_next` keeps running preflight work to one inbox document, but a document can also come into
  the preparing inbox with its own job already running: by `retry_preflight` and `retry_ocr`, which
  do not cancel all preflight jobs (`RetryPreflightPinExactly`, `RetryOcrPinExactly`), by a move to
  the inbox, a restore, an edit of the inbox flag or the start of its extraction (`CallPinExactly`),
  and by deleting or restoring a folder (`BulkPinExactly`). Nothing else breaks the pin
  (`StepPinExactly`, `RunPinExactly`).
- `permanently_delete_trashed_subtree` counts on a RESTRICT foreign key, but the folder relationship
  in `models/__init__.py` (lines 295-296) clears the parent of a surviving child first: a live folder
  created below a trashed one is left without a root (`PurgeKeepsForestExactly`, `PurgeLosesRoot`).
- `restore_folder` is to leave unrelated items alone, but it revives every folder and document of the
  subtree that was in the trash before, and forgets where documents moved out of the trash came from;
  and it does not give documents their inbox flag back. Nothing else is lost (`RestoreUndoesTrash`,
  `RestoreRevivesMore`).
- With 64 candidates a list, as the quality profile has, a chunk found by both searches need not
  outrank one found by a single search (`ConsensusByProfile`).
- Custom profiles are not validated: a negative history allowance makes the prompt overrun the window
  (`FitsExactly`).
- A citation in a malformed bracket or without brackets enters the citation list, but the answer shows
  no number for it (`GroupsAreShown`, `LooseShowsNothing`).
- The filing sample is documented as token-bounded, but its labels are not counted: by the word-count
  estimator the sample of a long text is 4 to 8 tokens over any budget from 4 on (`SampleOvershoots`),
  and for budgets below 4 its windows alone are over (`WindowsFitExactly`).

## Model

| member | source | states |
|---|---|---|
| Chunking.SliceEstimateFits | backend/src/lesspaper_ngl/services/chunking.py:349-362 | a slice of int(max_tokens / 1.3) words never estimates above max_tokens, so for max_tokens >= 1 the character-window last resort is never reached |
| Chunking.SplitTextIsSafe | backend/src/lesspaper_ngl/services/chunking.py:332-369 | splitting keeps every word in order; every piece is nonempty and within the limit; there are several pieces exactly when the text is over the limit, and none exactly when it is blank |
| Chunking.BlocksFromTextIs | backend/src/lesspaper_ngl/services/chunking.py:300-329 | the blocks of one line read as the line, all on its page, each recording its own estimate |
| Chunking.PageBlocksText | backend/src/lesspaper_ngl/services/chunking.py:277-297 | cutting pages into blocks keeps every word of the pages in order |
| Chunking.PageBlocksAscend | backend/src/lesspaper_ngl/services/chunking.py:106-109 | pages in ascending order give blocks in ascending order |
| Chunking.PageBlocksFit | backend/src/lesspaper_ngl/services/chunking.py:300-329 | every block of a page fits max_tokens, so the branch of chunk_pages for a block over the limit is never taken |
| Chunking.PiecesAreFull | backend/src/lesspaper_ngl/services/chunking.py:349-356 | an over-long text is cut into pieces of int(max_tokens / 1.3) words, at least one; only the last may be shorter |
| Chunking.TailIsOverlap | backend/src/lesspaper_ngl/services/chunking.py:372-383 | the overlap is a nonempty suffix of whole blocks that holds at least max(1, overlap_tokens) or everything, and every shorter suffix holds less |
| ChunkingProofs.ChainReadsBack | backend/src/lesspaper_ngl/services/chunking.py:120-169 | a gap-free chain of block windows, read without the overlap each repeats from the one before, is exactly the text it spans |
| ChunkingProofs.FlushCovers | backend/src/lesspaper_ngl/services/chunking.py:120-169 | a flush closes the current window at the last block taken and keeps a tail of it as the start of the next one |
| ChunkingProofs.FlushCarriesOverlap | backend/src/lesspaper_ngl/services/chunking.py:167-169 | a flush carries over exactly that overlap of the blocks it closed, with its token count |
| ChunkingProofs.FlushRecords | backend/src/lesspaper_ngl/services/chunking.py:134-166 | a flush adds pieces of the joined text in order, each with the page of the first and of the last block, and leaves the chunks before |
| ChunkingProofs.MergeRecords | backend/src/lesspaper_ngl/services/chunking.py:211-225 | a merged remainder extends the last chunk to its own last page, recounts it, and leaves all else |
| ChunkingProofs.EmitBlockCovers | backend/src/lesspaper_ngl/services/chunking.py:184-203 | a block over the limit becomes a window of its own and nothing is skipped around it |
| ChunkingProofs.FinishCovers | backend/src/lesspaper_ngl/services/chunking.py:211-229 | whether the remainder is merged into the last chunk or flushed, the windows end at the last block |
| ChunkingProofs.ChunkPagesLosesNothing | backend/src/lesspaper_ngl/services/chunking.py:99-231 | chunk_pages loses nothing: the chunks read as a chain of windows from block 0 to the last block without a gap, and without the overlaps they are the words of the pages |
| ChunkingProofs.ChunkPagesBounded | backend/src/lesspaper_ngl/services/chunking.py:130-165 | no chunk is empty or over max_tokens, each records its own estimate, and chunk i carries chunk_index i |
| ChunkingProofs.ChunkPagesAdvance | backend/src/lesspaper_ngl/services/chunking.py:130-229 | for pages in ascending order page_number <= page_end in every chunk, and neither ever moves back |
| ChunkBoundaries.RunCloses | backend/src/lesspaper_ngl/services/chunking.py:171-209 | every round of text that was flushed so far ends a chunk: the chunks up to it hold exactly the text of the rounds up to it |
| ChunkBoundaries.StepCutsExactly | backend/src/lesspaper_ngl/services/chunking.py:171-209 | one block further, the ends of chunks are the former ones and exactly those a rule asks for: before a heading that follows min_tokens of text or opens a page, before a block that does not fit, and after a block that reaches the target or is over the limit |
| ChunkBoundaries.ChunksCutExactly | backend/src/lesspaper_ngl/services/chunking.py:171-229 | for all pages: a chunk of the final list ends between two blocks exactly if a rule forces a boundary there, unless the remainder is merged into the last chunk, it is the last forced boundary, and it was cut only once |
| ChunkBoundaries.HeadingMergedAway | backend/src/lesspaper_ngl/services/chunking.py:211-225 | with the default limits a page on which a heading follows enough text and still ends up inside the only chunk, behind a repetition of the line before it |
| ChunkBoundaries.RepeatsExactly | backend/src/lesspaper_ngl/services/chunking.py:172-209 | text is emitted a second time exactly where the rules cut twice between two blocks, and at the end exactly if the last block completed a chunk |
| ChunkBoundaries.RepeatAddsNothing | backend/src/lesspaper_ngl/services/chunking.py:120-169 | a round of text adds no word to those before it exactly if it ends where the one before it did |
| ChunkBoundaries.EmissionsOverlap | backend/src/lesspaper_ngl/services/chunking.py:167-169 | every round of text but the first starts with whole blocks of the one before, so what takes in a heading starts with earlier text |
| Chunker.WordSlices | backend/src/lesspaper_ngl/services/chunking.py:349-356 | the loop over word slices produces consecutive slices of the given size |
| Chunker.SplitTextByTokens | backend/src/lesspaper_ngl/services/chunking.py:332-369 | the splitter is SplitText, whose pieces SplitTextIsSafe describes; the branch of the last resort is proved dead |
| Chunker.OverlapTail | backend/src/lesspaper_ngl/services/chunking.py:372-383 | the backward loop returns the overlap that TailIsOverlap describes |
| Chunker.SplitBlocks | backend/src/lesspaper_ngl/services/chunking.py:300-329 | only the first part of a split heading stays a heading |
| Chunker.SplitPageBlocks | backend/src/lesspaper_ngl/services/chunking.py:277-297 | blank lines separate, every other line becomes blocks |
| Chunker.ChunkBuilder.Append | backend/src/lesspaper_ngl/services/chunking.py:136-149 | parts are appended as drafts numbered on from chunk_index |
| Chunker.ChunkBuilder.EmitText | backend/src/lesspaper_ngl/services/chunking.py:134-166 | the flushed text becomes one draft, or several pieces when it overshoots, numbered on from chunk_index |
| Chunker.ChunkBuilder.FlushCurrent | backend/src/lesspaper_ngl/services/chunking.py:120-169 | the inner flush, with its split of an overshooting join and the overlap of FlushCarriesOverlap |
| Chunker.ChunkBuilder.MakeRoom | backend/src/lesspaper_ngl/services/chunking.py:172-186 | which flushes a block forces: a full chunk or a page change before a heading, and an overflow |
| Chunker.ChunkBuilder.TakeIn | backend/src/lesspaper_ngl/services/chunking.py:171-209 | one round of the loop over blocks |
| Chunker.ChunkBuilder.Close | backend/src/lesspaper_ngl/services/chunking.py:211-229 | the remainder is merged if small and fitting, else flushed |
| Chunker.ChunkAllPages | backend/src/lesspaper_ngl/services/chunking.py:99-231 | the whole of chunk_pages: bounded, numbered, paged in order, and empty exactly for blank pages |
| Chunker.EmptyIffBlank | backend/src/lesspaper_ngl/services/chunking.py:111-112 | no chunks come out exactly when the pages hold no word |
| ProviderErrors.IsNonRetryable | backend/src/lesspaper_ngl/ai/retry.py:69-83 | an oversized-input error is always non-retryable |
| ProviderErrors.IsTransient | backend/src/lesspaper_ngl/ai/retry.py:44-53 | a transient error is neither oversized nor non-retryable |
| ProviderErrors.ErrorsSorted | backend/src/lesspaper_ngl/ai/retry.py:44-83 | which errors are worth a retry: by status 408, 425, 429, 500, 502, 503 and 504, or by message; never an oversized one, a refused login, or a 401, 403, 404 or 422; a 400 only if its message sounds transient |
| EmbeddingProofs.SplitIsValid | backend/src/lesspaper_ngl/services/embedding_pipeline.py:462-505 | splitting a row shifts the later chunk indexes so that they stay exactly 0..N-1 without duplicates |
| EmbeddingProofs.SplitAlong | backend/src/lesspaper_ngl/services/embedding_pipeline.py:447-506 | the rows read in chunk_index order hold the same words after a split, the parts stand in the place of the split row, and the work left has shrunk |
| EmbeddingProofs.SplitLightens | backend/src/lesspaper_ngl/services/embedding_pipeline.py:478-505 | seven units a word pay for the fresh attempts that the parts of a split start with |
| EmbeddingProofs.SplitStep | backend/src/lesspaper_ngl/services/embedding_pipeline.py:431-515 | a single oversized chunk is split in place or failed for good, with the words and every other row kept |
| EmbeddingProofs.FailedStep | backend/src/lesspaper_ngl/services/embedding_pipeline.py:518-540 | a rejected batch costs each chunk one attempt; the third, or a forced failure, is final, and the outcome counts exactly the failed ones |
| EmbeddingProofs.EmbeddedStep | backend/src/lesspaper_ngl/services/embedding_pipeline.py:388-405 | an answered batch is embedded as a whole |
| EmbeddingIsolation.CallKeepsTable | backend/src/lesspaper_ngl/services/embedding_pipeline.py:408-428 | one call makes one to three requests and changes no row |
| EmbeddingIsolation.CallRetries | backend/src/lesspaper_ngl/services/embedding_pipeline.py:408-428 | a call asks again exactly while the answer is a transient rejection, three times at most; the last answer counts |
| EmbeddingIsolation.EmbedIsBatchStep | backend/src/lesspaper_ngl/services/embedding_pipeline.py:277-405 | for any provider: one batch keeps the document words, the indexes and all other rows, leaves no chunk of it EMBEDDING, lowers the measure by at least its size, and its outcome counts exactly the status changes; when a rejection is final is said by RejectedBatch |
| EmbeddingIsolation.CallsBounded | backend/src/lesspaper_ngl/services/embedding_pipeline.py:277-383 | isolating n chunks makes at most 2n - 1 calls, each of at most three requests |
| EmbeddingIsolation.FaithfulRequest | backend/src/lesspaper_ngl/services/embedding_pipeline.py:408-428 | retries do not hide or invent a rejection of a provider that rejects exactly the requests holding a bad text |
| EmbeddingIsolation.IsolationComplete | backend/src/lesspaper_ngl/services/embedding_pipeline.py:306-383 | isolation is complete for batches of at most 2^(MAX_ISOLATION_DEPTH - depth) chunks: every good chunk ends EMBEDDED and no bad one does |
| EmbeddingIsolation.IsolationNeedsRoom | backend/src/lesspaper_ngl/services/embedding_pipeline.py:315-317 | and only for those: with a provider that rejects exactly the requests holding the one bad text, a larger batch that ends with it makes a good chunk FAILED for good |
| EmbeddingFailures.RejectedBatch | backend/src/lesspaper_ngl/services/embedding_pipeline.py:355-383 | the exact verdict of a rejected batch that is neither bisected nor split: one attempt each; a transient or oversized rejection leaves a chunk pending until its third attempt, any other fails it for good |
| EmbeddingFailures.LoneChunkRefused | backend/src/lesspaper_ngl/services/embedding_pipeline.py:378-383 | a lone chunk that is refused for good, and not for its size, fails for good |
| EmbeddingFailures.OutageSparesBatch | backend/src/lesspaper_ngl/services/embedding_pipeline.py:306-383 | if all rejections are transient, each chunk of a batch spends one attempt, and fails exactly with its third, at any depth of the bisection |
| EmbeddingFailures.OutageFailsOnlySpent | backend/src/lesspaper_ngl/services/embedding_pipeline.py:132-209 | so over a whole run no chunk fails before its third attempt |
| EmbeddingFailures.OutagesSpareDocument | backend/src/lesspaper_ngl/services/embedding_pipeline.py:132-209 | and over any number of jobs on a document |
| EmbeddingFailures.FailuresAreReported | backend/src/lesspaper_ngl/services/embedding_pipeline.py:187-189 | a run reports as failed exactly the chunks that became FAILED in it |
| EmbeddingRuns.SplitUnsafeProgress | backend/src/lesspaper_ngl/services/embedding_pipeline.py:543-567 | splitting over-long chunks before sending keeps the words and lowers the measure when anything was split |
| EmbeddingRuns.StepIds | backend/src/lesspaper_ngl/services/embedding_pipeline.py:589-599 | the EMBEDDED and FAILED rows grow by exactly the counts a batch reports |
| EmbeddingRuns.PassMakesProgress | backend/src/lesspaper_ngl/services/embedding_pipeline.py:165-189 | every pass over a nonempty batch strictly lowers 7 * (2 * words - 1) + attempts left, summed over the pending chunks |
| EmbeddingRuns.PassBatchIsOpen | backend/src/lesspaper_ngl/services/embedding_pipeline.py:165-172 | the batch a pass embeds holds distinct pending rows, also after a reload |
| EmbeddingRuns.LoopKeeps | backend/src/lesspaper_ngl/services/embedding_pipeline.py:132-209 | every run keeps the words and indexes, and reports as embedded exactly the rows that became EMBEDDED |
| EmbeddingRuns.LoopDrains | backend/src/lesspaper_ngl/services/embedding_pipeline.py:132-167 | a run that was neither cancelled nor continued leaves nothing pending, and a continuation is enqueued only for pending work |
| EmbeddingRuns.ContinuedJobProgresses | backend/src/lesspaper_ngl/services/embedding_pipeline.py:143-163 | a job that hands over to a continuation has lowered the measure |
| EmbeddingRuns.BudgetBounds | backend/src/lesspaper_ngl/services/embedding_pipeline.py:143-189 | the budget bounds the work of a job: it reports no more batches than the budget and than its calls, each decides no more chunks than a batch holds, and a continuation comes only of a spent budget or of time |
| EmbeddingRuns.ChainTerminates | backend/src/lesspaper_ngl/services/embedding_pipeline.py:132-203 | for any provider, cancellation and clock, a chain of continuation jobs has at most as many jobs as the measure of the document |
| EmbeddingTokenSafety.SaferPartsFit | backend/src/lesspaper_ngl/services/embedding_pipeline.py:440-454 | for a provider limit of at least 32 tokens the pieces of a split are within it, and an over-long text gives several |
| EmbeddingTokenSafety.SaferMaxHalves | backend/src/lesspaper_ngl/services/embedding_pipeline.py:440-445 | a chunk is split to half its size, or half of what a chunk may hold if it is larger; never below 64 tokens where a chunk may hold as much, and never below 32 |
| EmbeddingTokenSafety.SplitUnsafeOpens | backend/src/lesspaper_ngl/services/embedding_pipeline.py:550-567 | after the splits the open chunks at the front are all within the limit and at least as many as the batch had |
| EmbeddingTokenSafety.EnsuredBatchFits | backend/src/lesspaper_ngl/services/embedding_pipeline.py:564-567 | so the batch that is reloaded and not checked again is within the limit |
| EmbeddingTokenSafety.EmbedSends | backend/src/lesspaper_ngl/services/embedding_pipeline.py:277-383 | isolation sends nothing but texts of its batch |
| EmbeddingTokenSafety.NothingOverlongIsSent | backend/src/lesspaper_ngl/services/embedding_pipeline.py:165-186 | with a limit of at least 32 tokens and matching stored counts no run ever sends a text over max_input_tokens, and the stored counts still match after it |
| EmbeddingTokenSafety.JobsKeep | backend/src/lesspaper_ngl/services/embedding_pipeline.py:132-209 | so over any number of jobs on a document, each with its own provider, clock and cancellation, the words stay and nothing over the limit is sent |
| EmbeddingTokenSafety.OverlongIsSentBelow32 | backend/src/lesspaper_ngl/services/embedding_pipeline.py:442-445 | for every limit below 32 some run sends a text over it |
| EmbeddingPipeline.EmbeddingJob.constructor | backend/src/lesspaper_ngl/services/embedding_pipeline.py:84-112 | a job starts on the rows of its document |
| EmbeddingPipeline.EmbeddingJob.CallEmbedWithRetries | backend/src/lesspaper_ngl/services/embedding_pipeline.py:408-428 | transient answers are retried up to three times; the last answer counts |
| EmbeddingPipeline.EmbeddingJob.LoadPendingBatch | backend/src/lesspaper_ngl/services/embedding_pipeline.py:570-586 | the pending and interrupted rows in chunk_index order, up to the batch size |
| EmbeddingPipeline.EmbeddingJob.MarkChunksFailed | backend/src/lesspaper_ngl/services/embedding_pipeline.py:518-540 | each row of the batch gets one attempt more and the status FailedStep describes |
| EmbeddingPipeline.EmbeddingJob.CountFailed | backend/src/lesspaper_ngl/services/embedding_pipeline.py:537-540 | the failed rows of the batch are counted |
| EmbeddingPipeline.EmbeddingJob.MarkChunksEmbedded | backend/src/lesspaper_ngl/services/embedding_pipeline.py:388-397 | exactly the rows of the batch become EMBEDDED |
| EmbeddingPipeline.EmbeddingJob.ShiftLater | backend/src/lesspaper_ngl/services/embedding_pipeline.py:462-476 | exactly the rows behind the split chunk move up |
| EmbeddingPipeline.EmbeddingJob.AddParts | backend/src/lesspaper_ngl/services/embedding_pipeline.py:492-506 | one new pending row a part after the first |
| EmbeddingPipeline.EmbeddingJob.ReplaceByParts | backend/src/lesspaper_ngl/services/embedding_pipeline.py:462-506 | the split row, its new siblings and the shifted rows together |
| EmbeddingPipeline.EmbeddingJob.SplitSingleChunk | backend/src/lesspaper_ngl/services/embedding_pipeline.py:431-515 | a chunk that yields one piece fails, any other is replaced by its pieces in place |
| EmbeddingPipeline.EmbeddingJob.EmbedBatchWithIsolation | backend/src/lesspaper_ngl/services/embedding_pipeline.py:277-405 | the recursive isolation over the mutable table is Embed, with the effect that EmbedIsBatchStep, RejectedBatch and OutageSparesBatch state |
| EmbeddingPipeline.EmbeddingJob.EmbedHalves | backend/src/lesspaper_ngl/services/embedding_pipeline.py:318-346 | left half, then right half, with the counts added |
| EmbeddingPipeline.EmbeddingJob.SplitOverlong | backend/src/lesspaper_ngl/services/embedding_pipeline.py:543-567 | over-long chunks are split one by one and the batch is reloaded if any was |
| EmbeddingPipeline.EmbeddingJob.ProcessDocumentEmbeddings | backend/src/lesspaper_ngl/services/embedding_pipeline.py:132-212 | the job loop: words and indexes kept, tally equal to the new embeddings, nothing pending unless cancelled or continued |
| EmbeddingPipeline.EmbeddingJob.RunPass | backend/src/lesspaper_ngl/services/embedding_pipeline.py:169-186 | one pass: split, then embed what is loaded |
| EmbeddingPipeline.EmbeddingJob.PendingCount | backend/src/lesspaper_ngl/services/embedding_pipeline.py:602-606 | pending and interrupted rows counted together |
| EmbeddingDocument.SeedIsValid | backend/src/lesspaper_ngl/services/chunking.py:155-166 | chunks numbered 0, 1, 2, ... form a valid table that reads as the chunks do |
| EmbeddingDocument.FinishedRunDecides | backend/src/lesspaper_ngl/services/embedding_pipeline.py:617-673 | after a run that was neither cancelled nor continued every chunk is embedded or failed, has_embeddings says whether any is embedded, an error stands exactly when one failed, and "paused" never occurs |
| EmbeddingDocument.VerdictExactly | backend/src/lesspaper_ngl/services/embedding_pipeline.py:617-673 | exactly what a job writes on the document: a note when cancelled, only a cleared error when continued, and else status, error, has_embeddings and finish by the counts; a document whose processing failed stays so unless some chunks are embedded and some are not |
| EmbeddingDocument.PagesSurviveEmbedding | backend/src/lesspaper_ngl/services/embedding_pipeline.py:84-226 | from the pages through any number of jobs, for every provider: the rows still read as chunk_pages cut them, these cover the words of the pages, and for limits of at least 32 tokens nothing over-long was sent |
| EmbeddingDocument.ResolvedLimitsAgree | backend/src/lesspaper_ngl/services/embedding_capabilities.py:35-85 | resolved limits are usable and ordered (minimum <= target minimum <= target = maximum, overlap at most a quarter), recommended <= max input, and fresh chunks need no split for providers that take 64 tokens |
| EmbeddingDocument.ResolvedFrom | backend/src/lesspaper_ngl/services/embedding_capabilities.py:35-85 | settings are the provider's own where positive, else the defaults 8192, 512, 16, 32 and 64, each cut to what limits it; chunking limits are three quarters, a fifth and a quarter of a chunk |
| EmbeddingDocument.DefaultBatchesIsolate | backend/src/lesspaper_ngl/services/embedding_capabilities.py:56-62 | with the default maximum batch size every pass isolates completely |
| JobQueueProofs.ClaimKeepsInv | backend/src/lesspaper_ngl/services/jobs.py:139-145 | a claim sets the lock and is paid for by an enqueue, a retry or a requeue |
| JobQueueProofs.StepKeepsInv | backend/src/lesspaper_ngl/services/jobs.py:29-315 | every operation keeps: locked_by is set exactly while RUNNING, with locked_at set, and claims stay within what was paid for |
| JobQueueProofs.RunKeepsInv | backend/src/lesspaper_ngl/services/jobs.py:29-315 | this holds in every reachable state |
| JobQueueProofs.ClaimsAreBounded | backend/src/lesspaper_ngl/services/jobs.py:139-205 | over every run, with failures reported twice or after a cancel, a job is claimed at most 1 + max_retries + (number of requeues) times |
| JobQueueProofs.EndedExactly | backend/src/lesspaper_ngl/services/jobs.py:148-221 | over every step: a job becomes COMPLETED exactly by a report of success on a job that is not cancelled, FAILED exactly by a failure report without retries left, CANCELLED exactly by a cancel of a job that is not completed or by the bulk cancels of open jobs |
| JobQueueProofs.OpenedExactly | backend/src/lesspaper_ngl/services/jobs.py:139-293 | a job becomes RUNNING exactly by its claim, and QUEUED again exactly by a failure report with retries left or by a requeue while it runs, the stale one only behind the cutoff |
| JobQueueProofs.JobsExactly | backend/src/lesspaper_ngl/services/jobs.py:29-48 | jobs appear exactly by an enqueue, queued, as asked for and unclaimed, and disappear exactly with their document |
| JobQueueProofs.PlaceKept | backend/src/lesspaper_ngl/services/jobs.py:178-205 | only a failure report changes a job's priority or its number of retries, every one counts, and nothing changes its type, document, age or maximum |
| JobQueueProofs.RetryWaits | backend/src/lesspaper_ngl/services/jobs.py:198-204 | a job to be retried is ready exactly once its delay is over, five places later but never behind place 1000 |
| JobClaims.TakesTheFirst | backend/src/lesspaper_ngl/services/jobs.py:99-138 | the claimed job is due and not locked elsewhere, exclusive work is that of the active document, and no other such job has a smaller priority, or the same one and an earlier creation |
| JobClaims.PickExists | backend/src/lesspaper_ngl/services/jobs.py:99-145 | claim_next takes nothing exactly when no job is eligible |
| JobClaims.TurnIsOldest | backend/src/lesspaper_ngl/services/jobs.py:51-88 | the active document is the oldest with running exclusive work, else the oldest that waits for it, else none |
| JobClaims.RunKeepsPlain | backend/src/lesspaper_ngl/services/jobs.py:139-293 | in every reachable state only waiting jobs have a delay, and a waiting job bears no lock |
| JobQueueProofs.StaleReclaimIsComplete | backend/src/lesspaper_ngl/services/jobs.py:262-277 | no running job escapes stale reclaim: exactly the running jobs with a heartbeat before the cutoff go back to the queue, available at once |
| JobQueueProofs.CancelledLeavesOnlyByFailure | backend/src/lesspaper_ngl/services/jobs.py:155-158 | cancellation is not terminal: exactly a failure report takes a job out of CANCELLED, and back to QUEUED exactly while it has retries left |
| JobQueueProofs.ClaimKeepsPinned | backend/src/lesspaper_ngl/services/jobs.py:117-122 | a claimed preflight job belongs to the document that running preflight work pins |
| JobQueueProofs.StepKeepsPinned | backend/src/lesspaper_ngl/services/jobs.py:51-145 | every step keeps the one-document pin if documents enter the preparing inbox set without running preflight jobs |
| JobQueueProofs.RunKeepsPinned | backend/src/lesspaper_ngl/services/jobs.py:51-145 | so in every state reached by such steps all running preflight work of preparing inbox documents belongs to one document |
| JobQueueProofs.StepPinExactly | backend/src/lesspaper_ngl/services/jobs.py:51-145 | a step of any kind breaks the pin exactly if it writes a document that is then preparing in the inbox with running preflight work of its own while another document has some |
| JobQueueProofs.RunPinExactly | backend/src/lesspaper_ngl/services/jobs.py:51-145 | so a run keeps the pin throughout exactly if none of its steps does that |
| JobQueueProofs.CallPinExactly | backend/src/lesspaper_ngl/services/documents.py:368-455 | moving, restoring or editing a document, or starting its extraction, breaks the pin exactly if the document then prepares in the inbox, one of its preflight jobs runs, and so does one of another document |
| JobQueueProofs.MoveToInboxUnpins | backend/src/lesspaper_ngl/services/documents.py:384-393 | a pinned state that moving a document to the inbox unpins |
| JobQueueProofs.BulkPinExactly | backend/src/lesspaper_ngl/services/folders.py:585-596 | the updates of many rows, deleting a folder into the inbox and restoring one, keep the pin exactly if the documents they bring in with running preflight work and those that have some are at most one |
| JobQueueProofs.ReopenPinExactly | backend/src/lesspaper_ngl/services/documents.py:528-549 | putting a document back to preparing keeps the pin exactly when it is not in the inbox, has no running preflight job of an uncancelled type, or no other document has running preflight work |
| JobQueueProofs.RetryPreflightPinExactly | backend/src/lesspaper_ngl/services/documents.py:518-570 | retry_preflight breaks the pin exactly when the inbox document has a thumbnail job running while another document has running preflight work |
| JobQueueProofs.RetryOcrPinExactly | backend/src/lesspaper_ngl/services/documents.py:573-607 | retry_ocr breaks it exactly when a preflight job other than OCR runs for the inbox document while another one has running preflight work |
| JobQueueProofs.RetryPreflightUnpins | backend/src/lesspaper_ngl/services/documents.py:533-539 | a pinned state that retry_preflight unpins |
| JobQueueProofs.ClaimIsWorkConserving | backend/src/lesspaper_ngl/services/jobs.py:99-138 | claim_next returns nothing only when every ready job is locked by another claim or is preflight work held back by a different document with preflight work running or being claimed |
| JobService.JobTable.constructor | backend/src/lesspaper_ngl/services/jobs.py:29-48 | the queue starts empty |
| JobService.JobTable.EnqueueJob | backend/src/lesspaper_ngl/services/jobs.py:29-48 | a new QUEUED job with a fresh id |
| JobService.JobTable.OldestOf | backend/src/lesspaper_ngl/services/jobs.py:72-73 | no candidate is strictly older by added_date, then created_at |
| JobService.JobTable.ActiveInboxPreflightDocument | backend/src/lesspaper_ngl/services/jobs.py:51-88 | running preflight work pins the document, else the oldest waiting one owns the pipeline |
| JobService.JobTable.FirstOf | backend/src/lesspaper_ngl/services/jobs.py:130-138 | no eligible job comes before the chosen one by (priority, created_at) |
| JobService.JobTable.ClaimNext | backend/src/lesspaper_ngl/services/jobs.py:91-145 | the claimed job is eligible and none before it by (priority, created_at) is; None only if nothing is eligible |
| JobService.JobTable.CompleteJob | backend/src/lesspaper_ngl/services/jobs.py:148-166 | a cancelled job stays cancelled, any other is COMPLETED and without its lock, as EndedExactly requires |
| JobService.JobTable.TouchJobLock | backend/src/lesspaper_ngl/services/jobs.py:169-175 | only a running job gets a new heartbeat |
| JobService.JobTable.FailJob | backend/src/lesspaper_ngl/services/jobs.py:178-207 | back to the queue with a lower priority and a delay while retries are left, else FAILED, whatever the status was |
| JobService.JobTable.CancelJob | backend/src/lesspaper_ngl/services/jobs.py:210-221 | completed and cancelled jobs stay as they are, every other becomes CANCELLED |
| JobService.JobTable.RequeueStaleRunning | backend/src/lesspaper_ngl/services/jobs.py:262-277 | exactly the stale running jobs are requeued, and counted |
| JobService.JobTable.RequeueAllRunning | backend/src/lesspaper_ngl/services/jobs.py:280-293 | no job is RUNNING afterwards |
| JobService.JobTable.CancelJobsForTrashedDocuments | backend/src/lesspaper_ngl/services/jobs.py:296-315 | no open job is left on a trashed document |
| JobService.JobTable.CancelOpenJobsOf | backend/src/lesspaper_ngl/services/documents.py:49-67 | exactly the open jobs of the given types of one document are cancelled |
| JobService.JobTable.RetryInboxPreflight | backend/src/lesspaper_ngl/services/documents.py:518-570 | refused outside the inbox, otherwise cancel, reopen, enqueue extraction and thumbnail |
| FoldersProofs.DescendantsAreLeast | backend/src/lesspaper_ngl/services/folders.py:483-519 | descendant_ids is the least set that holds the folder and is closed under children |
| FoldersProofs.EveryFolderReachesItsRoot | backend/src/lesspaper_ngl/services/folders.py:113-125 | on a forest every folder is below a root of its own owner |
| FoldersProofs.EnsureSystemFoldersKeeps | backend/src/lesspaper_ngl/services/folders.py:26-68 | creating the system folders keeps the forest |
| FoldersProofs.CreateKeepsForest | backend/src/lesspaper_ngl/services/folders.py:169-212 | create_folder keeps the forest; the new folder has the given name and owner, below the given parent or the root of the owner, and every other row is as before |
| FoldersProofs.EnsureChildKeeps | backend/src/lesspaper_ngl/services/folders.py:231-269 | get-or-create, with the revival of a trashed sibling, keeps the forest |
| FoldersProofs.EnsurePathKeeps | backend/src/lesspaper_ngl/services/folders.py:272-285 | so does a whole path |
| FoldersProofs.RenameKeepsForest | backend/src/lesspaper_ngl/services/folders.py:288-317 | renaming keeps the forest with sibling names distinct |
| FoldersProofs.MoveKeepsAcyclic | backend/src/lesspaper_ngl/services/folders.py:353-367 | hanging a subtree under a folder outside it makes no cycle |
| FoldersProofs.MoveKeepsForest | backend/src/lesspaper_ngl/services/folders.py:340-371 | move_folder keeps the forest |
| FoldersProofs.DeleteKeepsForest | backend/src/lesspaper_ngl/services/folders.py:522-637 | every deletion strategy keeps the forest, whatever order its child query returns |
| FoldersProofs.DeleteLosesNoDocument | backend/src/lesspaper_ngl/services/folders.py:567-616 | no strategy loses a document: the move strategies send exactly the folder's own documents to one destination, which is the inbox of the owner for move_to_inbox, with the inbox flag set; delete_documents sends the whole subtree's to the trash folder, marked as trashed |
| FoldersProofs.RestoreUndoesTrash | backend/src/lesspaper_ngl/services/folders.py:404-480 | restoring a folder right after trashing it gives back the very same tables exactly when nothing in the subtree was in the trash or marked as trashed from there, and no document of it had the inbox flag; what restoring does to each row otherwise is stated too |
| FoldersWitnesses.RestoreRevivesMore | backend/src/lesspaper_ngl/services/folders.py:404-480 | a run of four calls after which trashing and restoring a folder does not give the tables back |
| FoldersProofs.RestoreDocUndoesTrash | backend/src/lesspaper_ngl/services/documents.py:400-455 | restoring a document right after trashing it puts it back into its folder if that is neither in the trash nor the trash folder, else into the inbox of its owner; the inbox flag says which, and no other document changes |
| FoldersProofs.PurgeKeepsForestExactly | backend/src/lesspaper_ngl/services/folders.py:707-777 | permanently deleting a trashed subtree keeps the forest exactly when the whole subtree is trashed |
| FoldersWitnesses.PurgeLosesRoot | backend/src/lesspaper_ngl/services/folders.py:707-777 | a run of four calls after which a permitted permanent deletion leaves a folder without a root |
| FoldersProofs.LiveChildDetaches | backend/src/lesspaper_ngl/services/folders.py:750-776 | a live folder right below a trashed one survives without a parent |
| FoldersProofs.StepKeepsForest | backend/src/lesspaper_ngl/services/folders.py:26-637 | every create, ensure-path, rename, move, trash, restore and delete of folders, and every filing, trashing and restoring of documents, keeps the forest, with each parent and each document's folder of the same owner |
| FoldersProofs.RunKeepsForest | backend/src/lesspaper_ngl/services/folders.py:26-637 | in every reachable state the folders form an acyclic forest that reaches each owner's root |
| FolderPaths.EnsureFolderPathExactly | backend/src/lesspaper_ngl/services/folders.py:272-285 | ensure_folder_path succeeds exactly if the start is there and not the trash folder, no folder on the way is the trash folder or a trashed system folder, and none to be made has an empty name; then the names lead through live folders to the one returned, trashed ones on the way are revived, missing ones are new, live and of the same owner, and nothing else changes |
| FolderPaths.EnsureTwice | backend/src/lesspaper_ngl/services/folders.py:231-285 | ensuring a path twice is ensuring it once |
| FolderRights.SetUpExactly | backend/src/lesspaper_ngl/services/folders.py:26-68 | the system folders are all made unless the name of a missing one is taken right below the root |
| FolderRights.SetUpMakes | backend/src/lesspaper_ngl/services/folders.py:26-68 | afterwards each kind is there |
| FolderRights.GetSystemExactly | backend/src/lesspaper_ngl/services/folders.py:83-125 | a system folder is found or made exactly if it is there or nothing blocks those that are missing; the result is the only one of its kind |
| FolderRights.RenameExactly | backend/src/lesspaper_ngl/services/folders.py:288-317 | renaming succeeds exactly for a normal folder of the caller, a nonempty name, and no other folder of that name beside it, be it live or trashed |
| FolderRights.MoveExactly | backend/src/lesspaper_ngl/services/folders.py:340-371 | moving succeeds exactly for a normal folder of the caller, into a folder of the caller that is neither the trash folder nor below it and holds no other folder of its name |
| FolderRights.MoveAllExactly | backend/src/lesspaper_ngl/services/folders.py:567-584 | children are moved one by one, but all of them find room exactly if each alone would, in whatever order |
| FolderRights.PurgeExactly | backend/src/lesspaper_ngl/services/folders.py:707-777 | permanently deleting a trashed subtree is refused exactly if a document that is not trashed lies in a trashed folder of it; otherwise exactly its trashed folders and its trashed documents go, live children of a deleted folder lose their parent, and documents forget a deleted origin |
| FolderChangesProofs.CreateStep | backend/src/lesspaper_ngl/services/folders.py:169-212 | create_folder succeeds exactly if the name is not empty, the parent is a folder of the owner other than the trash folder, and holds no folder of that name; without a parent the root is made, and then only the names of the inbox and the trash folder are taken |
| FolderChangesProofs.EmptyIntoExactly | backend/src/lesspaper_ngl/services/folders.py:567-596 | a folder can be unpacked into another exactly if that could take each of its children |
| FolderChangesProofs.StepChangesExactly | backend/src/lesspaper_ngl/services/folders.py:26-637 | for every call, exactly what changes: which folder goes, is renamed, moved, trashed since when, revived, or made; which document lies where, with which inbox flag, in the trash since when and from where; every refused call changes nothing |
| FolderAnswers.AnswersExactly | backend/src/lesspaper_ngl/services/folders.py:26-637 | for every call, the exact condition of success, of "not found", of a name conflict and of a refusal by the database; what else is refused is invalid |
| FolderOwners.OthersUntouched | backend/src/lesspaper_ngl/services/folders.py:71-80 | a call acts for one owner: nothing that belongs to another is changed, added or removed |
| FolderOwners.RunLeavesOthers | backend/src/lesspaper_ngl/services/folders.py:71-80 | so over any stretch of a run in which no call acts for an owner, all folders and documents of that owner stay the same |
| FolderService.FolderTable.constructor | backend/src/lesspaper_ngl/services/folders.py:26-68 | the empty tables are a forest |
| FolderService.FolderTable.WouldCreateCycle | backend/src/lesspaper_ngl/services/folders.py:320-337 | the parent walk ends on any table; on a forest it answers exactly whether the new parent is in descendant_ids of the folder |
| FolderService.FolderTable.DescendantIdsOf | backend/src/lesspaper_ngl/services/folders.py:502-513 | the recursive query, restricted to the owner, returns all descendants on a forest |
| FolderService.FolderTable.FindSystemFolder | backend/src/lesspaper_ngl/services/folders.py:29-36 | the owner's folder of a system kind, if there is one |
| FolderService.FolderTable.FindByName | backend/src/lesspaper_ngl/services/folders.py:187-198 | finds a child of that name exactly if there is one |
| FolderService.FolderTable.EnsureSystemFolder | backend/src/lesspaper_ngl/services/folders.py:28-67 | one round of the system folder loop |
| FolderService.FolderTable.EnsureAllSystemFolders | backend/src/lesspaper_ngl/services/folders.py:26-68 | root, inbox and trash, each created if missing |
| FolderService.FolderTable.GetSystemFolder | backend/src/lesspaper_ngl/services/folders.py:83-110 | looked up, or created first |
| FolderService.FolderTable.CreateBelow | backend/src/lesspaper_ngl/services/folders.py:187-208 | the part of create_folder once the parent is known |
| FolderService.FolderTable.CreateAtRoot | backend/src/lesspaper_ngl/services/folders.py:179-181 | create_folder without a parent |
| FolderService.FolderTable.CreateFolderIn | backend/src/lesspaper_ngl/services/folders.py:169-212 | a new folder, or an error that changes nothing |
| FolderService.FolderTable.EnsureChildFolder | backend/src/lesspaper_ngl/services/folders.py:231-269 | the active child, the revived one, or a new one |
| FolderService.FolderTable.EnsurePathBelow | backend/src/lesspaper_ngl/services/folders.py:272-285 | the leaf of the live path that EnsureFolderPathExactly describes; an error undoes the folders before it |
| FolderService.FolderTable.RenameFolderTo | backend/src/lesspaper_ngl/services/folders.py:288-317 | renamed exactly if RenameExactly allows it, or an error that changes nothing |
| FolderService.FolderTable.MoveFolderTo | backend/src/lesspaper_ngl/services/folders.py:340-371 | moved exactly if MoveExactly allows it, else refused for a system folder, a trash target, a cycle or a name clash, and nothing changes |
| FolderService.FolderTable.TrashFolderOf | backend/src/lesspaper_ngl/services/folders.py:404-444 | the whole subtree with its documents is marked as trashed |
| FolderService.FolderTable.MoveChildren | backend/src/lesspaper_ngl/services/folders.py:572-573 | every child in turn; the first failure undoes the moves before it |
| FolderService.FolderTable.EmptyFolderInto | backend/src/lesspaper_ngl/services/folders.py:571-583 | children and documents go to the destination, then the folder goes |
| FolderService.FolderTable.DeleteFolderOf | backend/src/lesspaper_ngl/services/folders.py:522-637 | each strategy, with the shortcut for an empty folder; what it changes is what StepChangesExactly says of it |
| FolderService.FolderTable.DeleteFilled | backend/src/lesspaper_ngl/services/folders.py:567-637 | the strategies for a folder that is not empty |
| TrashPurge.ClearOverDeletable | backend/src/lesspaper_ngl/services/documents.py:840-857 | a clear folder whose children all go is itself deletable |
| TrashPurge.StuckMeansDone | backend/src/lesspaper_ngl/services/documents.py:859-860 | when a pass deletes nothing, every folder whose subtree is expired and free of documents is already gone |
| TrashPurge.PurgedForest | backend/src/lesspaper_ngl/services/documents.py:836-864 | what a purge leaves is a forest |
| TrashPurge.OnePass | backend/src/lesspaper_ngl/services/documents.py:839-859 | one pass deletes only childless, empty folders, and if it deletes none then none can be deleted |
| TrashPurge.DropIfEmpty | backend/src/lesspaper_ngl/services/documents.py:844-860 | a folder goes exactly if neither a folder nor a document is in it at the moment |
| TrashPurge.PurgeIsExact | backend/src/lesspaper_ngl/services/documents.py:781-893 | said of the rows: a document goes exactly if it is in the trash, of the owner asked for and older than the cutoff; a folder exactly if this holds for every folder and every document from it down; nothing else changes, except that documents forget a deleted origin |
| TrashPurge.PurgeFolders | backend/src/lesspaper_ngl/services/documents.py:832-861 | exactly the expired folders whose whole subtree is expired and free of documents are deleted, each after its children, within len + 1 passes |
| TrashPurge.PurgeDocuments | backend/src/lesspaper_ngl/services/documents.py:801-819 | exactly the expired trashed documents go |
| TrashPurge.PurgeTrash | backend/src/lesspaper_ngl/services/documents.py:781-870 | documents first, then folders, for one owner or all; the same for empty_trash without a cutoff |
| Originals.KeyNamesChecksum | backend/src/lesspaper_ngl/storage/service.py:128-130 | keys of different checksums differ, whatever the extensions |
| Originals.KeyLayout | backend/src/lesspaper_ngl/storage/service.py:127-130 | a key is the first two digits of the checksum, the checksum, and the extension without leading dots in small letters, or "bin" |
| Originals.RemoveIsDeleteAll | backend/src/lesspaper_ngl/services/documents.py:474-491 | deleting a document removes its original exactly when no other row of any owner names it |
| Originals.DeleteAllKeeps | backend/src/lesspaper_ngl/services/documents.py:458-491 | deletion keeps the store consistent, and every other document reads the same bytes as before |
| Originals.NoCollision | backend/src/lesspaper_ngl/storage/service.py:150-161 | in a consistent library the collision error cannot occur |
| Originals.StoreKeeps | backend/src/lesspaper_ngl/services/documents.py:298-313 | a stored upload keeps the store consistent and every other original as it was |
| Originals.ClearedKeeps | backend/src/lesspaper_ngl/services/documents.py:259-266 | permanently deleting the trashed duplicate makes the checksum free for its owner again |
| Originals.IngestOutcome | backend/src/lesspaper_ngl/services/documents.py:233-298 | ingest creates a document exactly when the upload passes every check and no active document of the owner has its bytes; with the skip policy a duplicate is reported instead; a collision is never the outcome |
| Originals.IngestReadsBack | backend/src/lesspaper_ngl/services/documents.py:243-313 | the new original reads back with the digest of the bytes given, and is those bytes unless other bytes with their digest were stored |
| Originals.FlagsKeep | backend/src/lesspaper_ngl/services/documents.py:368-455 | trashing, restoring and moving change no original |
| Originals.StepKeeps | backend/src/lesspaper_ngl/services/documents.py:198-514 | every operation keeps: the stored keys are exactly those some document names, each blob hashes to its documents' checksum, and (owner, checksum) is unique, trashed rows included |
| Originals.RunKeeps | backend/src/lesspaper_ngl/services/documents.py:198-514 | this holds over every run, and a document that survives the run reads the same bytes after it |
| OriginalRights.GoesExactly | backend/src/lesspaper_ngl/services/documents.py:198-514 | over every step: a document goes for good exactly by a deletion through its owner or without one, from the trash, or from the inbox where that is allowed or asked for, or as the trashed duplicate of an upload that is stored |
| OriginalRights.RunGoes | backend/src/lesspaper_ngl/services/documents.py:198-514 | over every run: a document that is gone was deleted by a step that might delete it then |
| OriginalRights.StaysExactly | backend/src/lesspaper_ngl/services/documents.py:368-455 | a document that stays changes only in its flags, only through its owner, and as trash, restore and move say |
| OriginalRights.AnswersExactly | backend/src/lesspaper_ngl/services/documents.py:368-514 | not found exactly for a document that is not there for the caller; refused exactly by the trash and inbox rules |
| OriginalRights.IngestAnswers | backend/src/lesspaper_ngl/services/documents.py:236-310 | what ingest answers, check by check: empty or unacceptable, an active duplicate, the quota, the folder, the key |
| OriginalStore.DocumentStore.constructor | backend/src/lesspaper_ngl/storage/service.py:44-72 | the empty store is consistent |
| OriginalStore.DocumentStore.FindByChecksum | backend/src/lesspaper_ngl/services/documents.py:142-171 | the owner's active or trashed document with the checksum; there is at most one |
| OriginalStore.DocumentStore.Persist | backend/src/lesspaper_ngl/storage/service.py:150-163 | an existing blob is reused if its hash agrees and is a collision exactly if not; else the bytes are written under their key |
| OriginalStore.DocumentStore.PermanentlyDeleteDocument | backend/src/lesspaper_ngl/services/documents.py:458-491 | succeeds exactly for a document that is there for the caller and is trashed or, where allowed, in the inbox; otherwise nothing changes; the row goes and an unshared original with it |
| OriginalStore.DocumentStore.RemoveFromInbox | backend/src/lesspaper_ngl/services/documents.py:496-514 | only for untrashed inbox documents |
| OriginalStore.DocumentStore.IngestBytes | backend/src/lesspaper_ngl/services/documents.py:198-319 | ingest up to the new row over the mutable tables: the checks, the duplicate, the original and the document; an error changes nothing |
| OriginalStore.DocumentStore.StoreUpload | backend/src/lesspaper_ngl/services/documents.py:268-313 | quota, folder, original, row |
| OriginalStore.DocumentStore.EmptyTrash | backend/src/lesspaper_ngl/services/documents.py:873-893 | one permanent deletion after the other removes exactly the trashed documents and the originals nobody else names |
| OriginalStore.DocumentStore.ReadOriginalOf | backend/src/lesspaper_ngl/storage/service.py:207-212 | every document's original is found and hashes to its checksum |
| RankFusion.FusionIsUnique | backend/src/lesspaper_ngl/search/hybrid.py:173-183 | the ranked lists decide the result: the two fusion functions return the same ids in the same order |
| RankFusion.FusionIsUnion | backend/src/lesspaper_ngl/ai/rag.py:265-290 | the result is the union of the lists without repetitions, by falling score |
| RankFusion.UnanimityWins | backend/src/lesspaper_ngl/ai/rag.py:273-276 | an order on which all lists agree survives fusion |
| RankFusion.SingleListKeepsOrder | backend/src/lesspaper_ngl/search/hybrid.py:180-183 | a single list comes back in its own order |
| RankFusion.ConsensusWins | backend/src/lesspaper_ngl/ai/rag.py:268-276 | every chunk in both lists scores strictly above every chunk in only one if 1/(k+m) + 1/(k+n) > 1/(k+1) for list lengths m and n |
| RankFusion.ConsensusOutranks | backend/src/lesspaper_ngl/ai/rag.py:278-290 | and so stands before it in the result |
| RankFusion.ConsensusNeedsRoom | backend/src/lesspaper_ngl/ai/rag.py:268-276 | for all other lengths there are lists for which it does not |
| RankFusion.RoomIsLength | backend/src/lesspaper_ngl/ai/rag.py:268-268 | for two lists of one length the condition is length <= k + 1 |
| RankFusion.ConsensusByProfile | backend/src/lesspaper_ngl/ai/rag.py:340-340 | for any two lists of up to candidate_limit hits and k = 60 the claim is safe exactly for profiles of at most 15 passages |
| Fusion.SortByScore | backend/src/lesspaper_ngl/ai/rag.py:278-278 | the stable sort: falling scores, equal ones by first mention |
| Fusion.ReciprocalRankFusion | backend/src/lesspaper_ngl/search/hybrid.py:173-183 | the pure helper returns the fusion of the lists with their scores |
| Fusion.FuseHits | backend/src/lesspaper_ngl/ai/rag.py:265-290 | the Ask version returns the same fusion, each id with the last hit seen for it, rescored |
| AskBudget.GreedyIsFeasible | backend/src/lesspaper_ngl/ai/rag.py:293-319 | the selection keeps both the number and the token limit, with the cost of a passage depending on its number |
| AskBudget.GreedyIsBest | backend/src/lesspaper_ngl/ai/rag.py:302-319 | greedy fitting is the best feasible selection by rank: any other gives up a better-ranked hit before it gains one |
| AskBudget.KeptIsLongest | backend/src/lesspaper_ngl/ai/rag.py:607-615 | ask keeps the longest prefix of the history within its allowance |
| AskBudget.ChunkTokens | backend/src/lesspaper_ngl/ai/rag.py:306-306 | a stored count is taken as it is; a missing one or zero is estimated, so no text passes for free |
| Strings.DigitsRead | backend/src/lesspaper_ngl/ai/rag.py:308-311 | the numbers and ids above a passage are decimal and read back as what they were |
| AskBudget.WindowIsWhatBothAllow | backend/src/lesspaper_ngl/ai/profiles.py:87-94 | tokens fit the effective window exactly if the profile and a known provider window both have room |
| AskBudget.BudgetIsWhatIsLeft | backend/src/lesspaper_ngl/ai/profiles.py:97-115 | passages fit their budget exactly if all else and the margin of 256 still fit beside them |
| AskBudget.AccountedFits | backend/src/lesspaper_ngl/ai/rag.py:559-616 | when the chat model is called, system, framing, used history, passages, output reserve and safety margin together fit the effective window, if the history allowance is not negative |
| AskBudget.NegativeHistoryOverruns | backend/src/lesspaper_ngl/ai/profiles.py:69-76 | for every negative allowance, which custom profiles may hold, some call is accounted above the window |
| AskBudget.FitsExactly | backend/src/lesspaper_ngl/ai/rag.py:559-616 | so the budget holds on all requests exactly when the allowance is not negative |
| AskBudget.PromptFits | backend/src/lesspaper_ngl/ai/rag.py:559-616 | the messages as sent, not only as accounted, fit the window with the whole answer if the joins of the request cost at most the safety margin of 256 tokens |
| AskBudget.FewPassagesFit | backend/src/lesspaper_ngl/ai/profiles.py:22-44 | and with at most n passages if no single join of the request costs more than 256 / 2n tokens |
| AskJoins.JoinsOverrun | backend/src/lesspaper_ngl/ai/rag.py:403-434 | whenever 2n joins may cost more than the margin, some tokenizer and some request of n passages, accounted to the last token of the window, make a prompt over it |
| AskJoins.MarginPaysExactly | backend/src/lesspaper_ngl/ai/rag.py:559-616 | so the margin pays for the joins of all requests of up to n passages exactly if 2n times the cost allowed for one join is at most 256 |
| AskService.FitChunksToBudget | backend/src/lesspaper_ngl/ai/rag.py:293-319 | the loop is the greedy choice and keeps both limits |
| AskService.ConfidentExactly | backend/src/lesspaper_ngl/ai/rag.py:366-374 | exactly the semantic hits that reach the minimum score stay, in their order |
| AskService.HybridRetrieve | backend/src/lesspaper_ngl/ai/rag.py:355-377 | the minimum score filters the semantic hits; two nonempty lists are fused, one alone is taken as it is; then fitting |
| AskService.KeepHistory | backend/src/lesspaper_ngl/ai/rag.py:607-615 | the history loop keeps what KeptIsLongest describes |
| AskService.ComposeMessages | backend/src/lesspaper_ngl/ai/rag.py:545-616 | no evidence means no call; otherwise system prompt, kept history and one user message, within the window |
| AskService.SelectHistoryForModel | backend/src/lesspaper_ngl/services/ask_conversations.py:108-131 | newest turns first until the budget is reached, the newest always kept, returned in chronological order without other roles |
| AskService.SpokenTurns | backend/src/lesspaper_ngl/services/ask_conversations.py:126-131 | the loop leaves the turns that SpokenInOrder describes |
| AskService.SpokenInOrder | backend/src/lesspaper_ngl/services/ask_conversations.py:126-131 | exactly the turns of the user and the assistant remain, each with its content, in their order |
| AskService.NewestIsLongest | backend/src/lesspaper_ngl/services/ask_conversations.py:117-124 | the turns taken are the newest ones; more than one is taken only within the budget, and one more would not fit |
| AskService.SelectionSurvivesAsk | backend/src/lesspaper_ngl/ai/rag.py:607-615 | if ask counts no higher than the selection did, it keeps all of a selection within the allowance; what is over it is a single turn |
| Citations.CitedInMentionOrder | backend/src/lesspaper_ngl/ai/rag.py:461-484 | citations are distinct, are exactly the retrieved chunks the answer mentions, and stand in first-mention order |
| Citations.CitedFromRaw | backend/src/lesspaper_ngl/ai/rag.py:441-484 | from the answer as the model wrote it: chunk x is cited exactly if it is retrieved and the answer holds [n] in range with x the n-th passage, or names x itself; in the order of first mention |
| Citations.MarkerInPlace | backend/src/lesspaper_ngl/ai/rag.py:446-456 | in the place of each literal [n] in range the rewritten answer has the one marker that cites the n-th passage |
| Citations.NumberOf | backend/src/lesspaper_ngl/services/ask_conversations.py:53-55 | a display number is a place in the citation list that holds the chunk |
| Citations.GroupMarkers | backend/src/lesspaper_ngl/services/ask_conversations.py:64-77 | a group becomes one marker for each of its known chunks, none twice |
| Citations.CollapseIsRuns | backend/src/lesspaper_ngl/services/ask_conversations.py:97-101 | repeating the substitution takes away exactly the repetitions of a marker, whitespace aside |
| Citations.TidyKeepsVisible | backend/src/lesspaper_ngl/services/ask_conversations.py:102-105 | the other substitutions change whitespace only |
| Citations.DisplayShows | backend/src/lesspaper_ngl/services/ask_conversations.py:39-105 | the displayed text is the rewritten one without repeated markers |
| Citations.NumbersSpeakTrue | backend/src/lesspaper_ngl/ai/rag.py:441-484 | in the displayed answer every number from 1 to the number of citations was put in for exactly that citation's chunk; any other number is literal and is 0 or above the number of passages; which passage a [n] stands for is said by CitedFromRaw and MarkerInPlace |
| Citations.GroupsAreShown | backend/src/lesspaper_ngl/services/ask_conversations.py:64-80 | a citation's number is displayed exactly if some bracket group names its chunk |
| Citations.LooseShowsNothing | backend/src/lesspaper_ngl/services/ask_conversations.py:64-80 | an answer that names its only passage without brackets cites it and shows no number |
| Citations.DisplayKeepsText | backend/src/lesspaper_ngl/services/ask_conversations.py:79-105 | words and punctuation all stay in order, no raw chunk marker gets through, and no marker follows itself |
| Citations.DisplayIsTidy | backend/src/lesspaper_ngl/services/ask_conversations.py:102-105 | no blank is left before punctuation, next to another blank, or at either end |
| Citations.TidyKeepsLines | backend/src/lesspaper_ngl/services/ask_conversations.py:102-105 | text without a gap before punctuation and without whitespace at its ends keeps every line break |
| Citations.PassCollapses | backend/src/lesspaper_ngl/services/ask_conversations.py:99-101 | one substitution pass does not change the final result |
| Citations.PassFixed | backend/src/lesspaper_ngl/services/ask_conversations.py:99-101 | a pass that changes nothing means nothing is left to collapse |
| CitationService.ParseCitations | backend/src/lesspaper_ngl/ai/rag.py:461-484 | the loop with its seen-set returns the citations CitedInMentionOrder describes, each built from its retrieved hit |
| CitationService.ReplaceGroup | backend/src/lesspaper_ngl/services/ask_conversations.py:64-77 | the numbers of a group, each once, in order |
| CitationService.NumberCitations | backend/src/lesspaper_ngl/services/ask_conversations.py:49-62 | one number and one snapshot a citation, from 1 |
| CitationService.ReplaceMarkers | backend/src/lesspaper_ngl/services/ask_conversations.py:79-87 | groups become numbers, every other chunk marker is stripped |
| CitationService.RewriteAnswerWithDisplayCitations | backend/src/lesspaper_ngl/services/ask_conversations.py:39-80 | rewriting, stripping and tidying together |
| CitationService.NormalizeDisplayCitationText | backend/src/lesspaper_ngl/services/ask_conversations.py:90-105 | the substitution loop ends and computes the full collapse |
| CitationService.AcceptAnswer | backend/src/lesspaper_ngl/ai/rag.py:663-687 | an answer is accepted exactly if it cites a retrieved chunk, in the sense of CitedFromRaw; the citations stored are exactly those chunks, and every displayed number is true |
| FilingSampler.StartIsFull | backend/src/lesspaper_ngl/ai/filing_context.py:362-376 | a prefix cut from a text over budget holds exactly as many words as fit, and is never cut inside a word |
| FilingSampler.EndIsFull | backend/src/lesspaper_ngl/ai/filing_context.py:379-392 | a suffix cut from a text over budget holds exactly as many words as fit |
| FilingSampler.AroundIsFull | backend/src/lesspaper_ngl/ai/filing_context.py:395-413 | the window around a center is filled to exactly as many words as fit |
| FilingSampler.SharesAre | backend/src/lesspaper_ngl/ai/filing_context.py:334-342 | three tenths of the budget for the beginning, a fifth for each middle, the rest for the end |
| FilingSampler.AroundLies | backend/src/lesspaper_ngl/ai/filing_context.py:395-413 | the window starts where the stretch around the center starts; that is a twentieth of the text and at least 64 characters to either side if it holds the budget, else at most twice a stretch that falls short of it |
| FilingSampler.WindowsLie | backend/src/lesspaper_ngl/ai/filing_context.py:344-356 | the windows are the start of the text, those around a third and two thirds of it, and its end |
| FilingSampler.SampleReads | backend/src/lesspaper_ngl/ai/filing_context.py:349-359 | the sample shows the four windows in the order of the text, each under its name |
| FilingSampler.Widen | backend/src/lesspaper_ngl/ai/filing_context.py:402-409 | the widening ends, around the same center, with the budget or the whole text reached |
| FilingSampler.BudgetsAddUp | backend/src/lesspaper_ngl/ai/filing_context.py:334-342 | the four budgets add up to the token budget exactly from 4 on; below they add up to 4 |
| FilingSampler.WindowsHold | backend/src/lesspaper_ngl/ai/filing_context.py:349-356 | what each of the four windows holds |
| FilingSampler.WindowsFitExactly | backend/src/lesspaper_ngl/ai/filing_context.py:332-359 | the four windows of a text over budget together estimate within the budget exactly if it is at least 4 |
| FilingSampler.SampleOvershoots | backend/src/lesspaper_ngl/ai/filing_context.py:357-359 | for budgets from 4 on, the sample of a text over budget, with its four labels, is always 4 to 8 tokens over |
| FilingService.TakeTokensFromStart | backend/src/lesspaper_ngl/ai/filing_context.py:362-376 | the binary search finds the longest fitting prefix |
| FilingService.TakeTokensFromEnd | backend/src/lesspaper_ngl/ai/filing_context.py:379-392 | the binary search finds the longest fitting suffix |
| FilingService.TakeTokensAround | backend/src/lesspaper_ngl/ai/filing_context.py:395-413 | the widening loop and the final cut |
| FilingService.SampleWindows | backend/src/lesspaper_ngl/ai/filing_context.py:332-359 | the four labelled windows joined |
| FilingService.BuildSample | backend/src/lesspaper_ngl/ai/filing_context.py:151-178 | a text within the budget comes back in full, any other as its sample, and for budgets from 4 on the recorded token count is at most 8 over |

## Left out

- Sessions, SQL and transactions: every service call is one committed step, a call that raises changes
  nothing, and rows locked by other transactions are a given set of ids. In particular an original
  that is deleted by a request which later rolls back is not modelled.
- Database rows are values in map fields, so two references to one mapped object are not told apart.
- Numbers such as 1.3, 0.75, 0.3 and 0.2 are exact fractions and fusion scores are exact reals; float
  rounding is not modelled.
- The tiktoken branches of chunking and of the filing sampler: only the word-count estimator is
  modelled there. In Ask the tokenizer is any function that meets the stated conditions.
- Regular expressions, Unicode whitespace and case rules: heading verdicts, error classifications and
  MIME checks are inputs, strings use ASCII whitespace and ASCII lower-casing, and folder names arrive
  stripped.
- Chunking.SplitTextIsSafe: for max_tokens of at least 1, which every caller passes; 0 and negative
  limits are not described.
- Chunk sections, content hashes, vectors, token usage and costs, and the page columns of the chunk
  rows in the pipeline: nothing in the modelled control flow reads them.
- Errors other than provider errors inside an embedding job: they end the job with the rows as they
  are.
- EmbeddingRuns.ChainTerminates: assumes that no job is out of time before its first pass; a job whose
  clock runs out at once does no work and hands over unchanged.
- EmbeddingTokenSafety.OverlongIsSentBelow32: one counterexample for each limit, with batches of one
  chunk.
- EmbeddingFailures.OutageFailsOnlySpent: for limits of at least 32 tokens and matching stored counts;
  below 32 a chunk that cannot be split any further fails without having been sent, and unreported.
- JobQueueProofs.RunKeepsPinned: for documents that enter the preparing inbox set without running
  preflight jobs; RunPinExactly says when the pin holds without that.
- Started and completed times, results, error texts and payloads of jobs, listings, and job ownership
  checks.
- Negative values of max_retries.
- path_cache and sort order of folders, listings and counts: display data without an invariant of
  their own.
- TrashPurge.PurgeTrash: deletes every expired document; a document whose deletion raises would be
  skipped by the purge and would hold its folder.
- Originals.IngestReadsBack: says no more than the digest when two different contents share one.
- OriginalStore.DocumentStore.IngestBytes: the extraction and thumbnail jobs that ingest enqueues for
  the new document (documents.py lines 320-331) and the library counters are not in its state; what
  an enqueue does to the queue is JobTable.EnqueueJob.
- Thumbnails, previews, quota and size checks, title and folder resolution of an upload: verdicts that
  are inputs. A file extension holds no slash, since it comes from a path suffix.
- Ingest from a path, and the copy-and-verify variant that writes an original from a file.
- Full-text and vector ranking: the ranked lists are inputs. hybrid_search itself, whose page and
  chunk keys never coincide, is not part of this model.
- AskBudget.FewPassagesFit: what a join costs under tiktoken is not modelled; the condition is one on
  the texts of the request at hand. That a label of a passage costs at least one token is assumed of
  the tokenizer.
- AskJoins.JoinsOverrun: the tokenizer of the example is made up; tiktoken may charge less for a join.
- AskService.SelectionSurvivesAsk: for turns that the tokenizer of ask counts no higher than that of the
  selection; when chunking falls back to words the two differ.
- Citations.NumbersSpeakTrue: on tokens; a marker that only arises when text on both sides of a
  removed marker is glued together is not modelled.
- Quotes of citations, detection of truncated answers, and conversation storage.
- FilingSampler.Widen: for a center within the text, which is what the sampler passes.
- Candidate ranking and signal extraction of the filing context, tags, users, tokens, backups, HTTP
  routes, provider adapters, OCR and the frontend: wrappers, input and output, or easy members.
