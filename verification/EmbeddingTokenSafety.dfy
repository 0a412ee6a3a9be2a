/** No over-long text reaches the provider, exactly when its limit is at least 32 tokens. */
module EmbeddingTokenSafety {
  import opened Words
  import opened Chunking
  import opened ProviderErrors
  import opened EmbeddingStore
  import opened EmbeddingProofs
  import opened EmbeddingIsolation
  import opened EmbeddingRuns

  ghost predicate Within(texts: seq<Text>, limit: nat) {
    forall t <- texts :: EstimateTokens(t) <= limit
  }

  /** Everything sent so far is within the limit. */
  ghost predicate SentWithin(st: Store, limit: nat) {
    forall texts <- st.sent :: Within(texts, limit)
  }

  /** Stored token counts are the estimates of the stored texts. */
  ghost predicate CountsMatch(st: Store) {
    forall id <- st.rows :: st.rows[id].tokenCount == EstimateTokens(st.rows[id].text)
  }

  predicate Fits(st: Store, id: ChunkId, limit: nat) {
    EstimateTokens(TextOf(st.rows, id)) <= limit
  }

  // ------------------------------------------------------------ sending a safe batch

  lemma {:induction false} RequestSends(adapter: Adapter, st: Store, texts: seq<Text>, attempt: nat, limit: nat)
    requires 1 <= attempt <= ADAPTER_RETRY_ATTEMPTS
    requires SentWithin(st, limit) && Within(texts, limit)
    ensures SentWithin(Request(adapter, st, texts, attempt).1, limit)
    decreases ADAPTER_RETRY_ATTEMPTS - attempt
  {
    if attempt < ADAPTER_RETRY_ATTEMPTS {
      RequestSends(adapter, st.(requests := st.requests + 1, sent := st.sent + [texts]), texts, attempt + 1, limit);
    }
  }

  lemma CallSends(adapter: Adapter, st: Store, ids: seq<ChunkId>, limit: nat)
    requires SentWithin(st, limit) && CountsMatch(st)
    requires forall id <- ids :: Fits(st, id, limit)
    ensures SentWithin(MarkAndCall(adapter, st, ids).1, limit)
    ensures CountsMatch(MarkAndCall(adapter, st, ids).1)
  {
    var rows := MarkEmbedding(st.rows, ids);
    var texts := TextsOf(rows, ids);
    CallKeepsTable(adapter, st.(rows := rows), texts);
    forall t <- texts ensures EstimateTokens(t) <= limit {
      var k :| 0 <= k < |texts| && texts[k] == t;
      assert ids[k] in ids && TextOf(rows, ids[k]) == TextOf(st.rows, ids[k]);
    }
    RequestSends(adapter, st.(rows := rows, calls := st.calls + 1), texts, 1, limit);
  }

  lemma AddedCountsMatch(split: Row, parts: seq<Text>, nextId: ChunkId, k: nat, i: ChunkId)
    requires k < |parts| && i in AddedRows(split, parts, nextId, k)
    ensures var row := AddedRows(split, parts, nextId, k)[i]; row.tokenCount == EstimateTokens(row.text)
  {
    AddedRowsAt(split, parts, nextId, k, i);
  }

  lemma SplitRowsMatch(st: Store, id: ChunkId, parts: seq<Text>)
    requires CountsMatch(st) && id in st.rows && |parts| >= 2
    ensures CountsMatch(st.(rows := SplitRows(st.rows, id, parts, st.nextId)))
  {
    var rows' := SplitRows(st.rows, id, parts, st.nextId);
    var added := AddedRows(st.rows[id], parts, st.nextId, |parts| - 1);
    forall i <- rows' ensures rows'[i].tokenCount == EstimateTokens(rows'[i].text) {
      if i in added {
        AddedCountsMatch(st.rows[id], parts, st.nextId, |parts| - 1, i);
      }
    }
  }

  lemma SplitCountsMatch(st: Store, id: ChunkId, caps: Capabilities)
    requires CountsMatch(st) && id in st.rows
    ensures CountsMatch(SplitChunk(st, id, caps).0) && SplitChunk(st, id, caps).0.sent == st.sent
  {
    hide SplitText, SaferMax, SplitRows, NewIds;
    var parts := SplitText(st.rows[id].text, SaferMax(caps, st.rows[id].text));
    if |parts| > 1 {
      SplitRowsMatch(st, id, parts);
    }
  }

  lemma ConcludeSends(caps: Capabilities, st: Store, ids: seq<ChunkId>, depth: nat, response: Response, limit: nat)
    requires SentWithin(st, limit) && CountsMatch(st)
    ensures var st' := Conclude(caps, st, ids, depth, response).0;
      SentWithin(st', limit) && CountsMatch(st')
  {
    hide EstimateTokens, SplitChunk, SentWithin, CountStatus;
    if |ids| == 1 && ids[0] in st.rows {
      SplitCountsMatch(st, ids[0], caps);
    }
    assert forall s: Store | s.sent == st.sent :: SentWithin(s, limit) by {
      SameSent(st, limit);
    }
  }

  lemma SameSent(st: Store, limit: nat)
    requires SentWithin(st, limit)
    ensures forall s: Store | s.sent == st.sent :: SentWithin(s, limit)
  {
  }

  /** Isolation sends nothing but texts of the batch. */
  lemma {:induction false} EmbedSends(
      adapter: Adapter, caps: Capabilities, st: Store, ids: seq<ChunkId>, depth: nat, limit: nat)
    requires Valid(st) && OpenBatch(st, ids)
    requires SentWithin(st, limit) && CountsMatch(st)
    requires forall id <- ids :: Fits(st, id, limit)
    ensures var st' := Embed(adapter, caps, st, ids, depth).0;
      SentWithin(st', limit) && CountsMatch(st')
    decreases |ids|
  {
    hide Valid, OpenBatch, MarkAndCall, Conclude, SameTable, MarkEmbedding, TextOf, SentWithin, CountsMatch, EstimateTokens,
         IsOversized, IsTransient, IsNonRetryable, Bisects;
    if ids != [] {
      var (response, called) := MarkAndCall(adapter, st, ids);
      CalledBatch(adapter, st, ids);
      CallSends(adapter, st, ids, limit);
      assert forall id <- ids :: Fits(called, id, limit);
      if response.Rejected? && Bisects(response.error, |ids|, depth) {
        BisectsMany(response.error, |ids|, depth);
        var mid := |ids| / 2;
        var afterLeft := Embed(adapter, caps, called, ids[..mid], depth + 1).0;
        LeftHalfDone(adapter, caps, called, ids, mid, depth + 1);
        SplitBatch(called, ids, mid);
        EmbedSends(adapter, caps, called, ids[..mid], depth + 1, limit);
        assert forall id <- ids[mid..] :: Fits(afterLeft, id, limit);
        EmbedSends(adapter, caps, afterLeft, ids[mid..], depth + 1, limit);
      } else {
        ConcludeSends(caps, called, ids, depth, response, limit);
      }
    }
  }

  // ------------------------------------------------------------ reloading after splits

  /** A chunk is split to half its size, or to half of what a chunk may hold if it is larger than that;
      never below 64 tokens where a chunk may hold as much, and never below 32. */
  lemma SaferMaxHalves(caps: Capabilities, text: Text)
    ensures var most := if caps.recommendedChunkTokens <= caps.maxInputTokens then caps.recommendedChunkTokens else caps.maxInputTokens;
      var size := if EstimateTokens(text) > most then most else EstimateTokens(text);
      && (most <= 32 ==> SaferMax(caps, text) == 32)
      && (32 < most <= 64 ==> SaferMax(caps, text) == most)
      && (64 < most && size < 128 ==> SaferMax(caps, text) == 64)
      && (size >= 128 ==> 2 * SaferMax(caps, text) <= size < 2 * SaferMax(caps, text) + 2)
  {
    hide EstimateTokens;
  }

  /** The parts of a split are within the provider's limit, and an over-long text has several. */
  lemma SaferPartsFit(caps: Capabilities, text: Text)
    requires caps.maxInputTokens >= 32
    ensures SaferMax(caps, text) >= 1
    ensures forall p <- SplitText(text, SaferMax(caps, text)) :: EstimateTokens(p) <= caps.maxInputTokens
    ensures EstimateTokens(text) > caps.maxInputTokens ==> |SplitText(text, SaferMax(caps, text))| >= 2
  {
    var limit := SaferMax(caps, text);
    assert 1 <= limit <= caps.maxInputTokens;
    SplitTextIsSafe(text, limit);
  }

  lemma SameMiddle(a: seq<ChunkId>, a': seq<ChunkId>, id: ChunkId, b: seq<ChunkId>, b': seq<ChunkId>)
    requires a + [id] + b == a' + [id] + b'
    requires id !in a && id !in a'
    ensures a == a' && b == b'
  {
    var s := a + [id] + b;
    assert forall k | 0 <= k < |a| :: s[k] == a[k] && a[k] in a;
    assert forall k | 0 <= k < |a'| :: s[k] == a'[k] && a'[k] in a';
    assert s[|a|] == id && s[|a'|] == id;
    assert |a| == |a'|;
    assert a == s[..|a|] && a' == s[..|a'|];
    assert b == s[|a| + 1..] && b' == s[|a'| + 1..];
  }

  /** Splitting one over-long chunk leaves its parts, all open and within the limit, in its place. */
  lemma SplitOpens(st: Store, id: ChunkId, caps: Capabilities, done: seq<ChunkId>, rest: seq<ChunkId>)
    returns (parts: seq<ChunkId>)
    requires Valid(st) && CountsMatch(st) && caps.maxInputTokens >= 32
    requires id in st.rows && Unsafe(st, id, caps)
    requires OpenAlong(st.rows, st.order) == done + [id] + rest
    ensures var st' := SplitChunk(st, id, caps).0;
      && OpenAlong(st'.rows, st'.order) == done + parts + rest
      && |parts| >= 1 && (forall p <- parts :: Fits(st', p, caps.maxInputTokens))
      && (forall i <- st.rows | i != id :: TextOf(st'.rows, i) == TextOf(st.rows, i))
  {
    hide Valid, CountsMatch, SplitText, SaferMax, EstimateTokens, SplitRows, Insert, NewIds, OpenAlong, SplitChunk, TextAlong,
         WeightAlong, Unsafe, HoldParts;
    var row := st.rows[id];
    var texts := SplitText(row.text, SaferMax(caps, row.text));
    UnsafeIsLong(st, id, caps);
    SaferPartsFit(caps, row.text);
    SplitTextIsSafe(row.text, SaferMax(caps, row.text));
    OpenIsOpen(st, done, id, rest);
    SplitChunkIs(st, id, caps);
    var c, added := row.chunkIndex, NewIds(st.nextId, |texts| - 1);
    parts := [id] + added;
    SplitAlong(st, id, texts);
    SplitRowsKeep(st, id, texts);
    SplitRowsHold(st, id, texts);
    OpenBefore(st, id);
    SameMiddle(done, OpenAlong(st.rows, st.order[..c]), id, rest, OpenAlong(st.rows, st.order[c + 1..]));
    PartsFit(SplitChunk(st, id, caps).0, id, added, texts, caps.maxInputTokens);
  }

  lemma UnsafeIsLong(st: Store, id: ChunkId, caps: Capabilities)
    requires CountsMatch(st) && Unsafe(st, id, caps)
    ensures EstimateTokens(st.rows[id].text) > caps.maxInputTokens
  {
  }

  lemma OpenIsOpen(st: Store, done: seq<ChunkId>, id: ChunkId, rest: seq<ChunkId>)
    requires Valid(st) && OpenAlong(st.rows, st.order) == done + [id] + rest
    ensures id in st.rows && st.rows[id].Open() && id !in done
  {
    PendingIsOpen(st, 0);
    OpenAlongIs(st.rows, st.order);
    assert id in done + [id] + rest;
    NotBefore(done, id, rest);
  }

  lemma OpenBefore(st: Store, id: ChunkId)
    requires Valid(st) && id in st.rows && st.rows[id].chunkIndex < |st.order|
    ensures id !in OpenAlong(st.rows, st.order[..st.rows[id].chunkIndex])
  {
    OrderAround(st, id);
    OpenAlongIs(st.rows, st.order[..st.rows[id].chunkIndex]);
  }

  lemma NotBefore(done: seq<ChunkId>, id: ChunkId, rest: seq<ChunkId>)
    requires Distinct(done + [id] + rest)
    ensures id !in done
  {
    var all := done + [id] + rest;
    assert all[|done|] == id;
    forall k | 0 <= k < |done| ensures done[k] != id {
      assert all[k] == done[k];
    }
  }

  lemma PartsFit(st: Store, id: ChunkId, added: seq<ChunkId>, texts: seq<Text>, limit: nat)
    requires texts != [] && id in st.rows && st.rows[id].text == texts[0]
    requires HoldParts(st.rows, added, texts[1..])
    requires forall t <- texts :: EstimateTokens(t) <= limit
    ensures forall p <- [id] + added :: Fits(st, p, limit)
  {
    hide EstimateTokens;
    forall p <- [id] + added ensures Fits(st, p, limit) {
      if p in added {
        var k :| 0 <= k < |added| && added[k] == p;
        assert st.rows[p].text == texts[k + 1] && texts[k + 1] in texts;
      } else {
        assert texts[0] in texts;
      }
    }
  }

  ghost predicate AllFit(st: Store, ids: seq<ChunkId>, limit: nat) {
    forall id <- ids :: Fits(st, id, limit)
  }

  /** Midway through a batch: the open chunks are `done`, all within the limit, then what is left
      of the batch, then the chunks behind it. */
  ghost predicate Midway(st: Store, done: seq<ChunkId>, batch: seq<ChunkId>, rest: seq<ChunkId>, limit: nat) {
    && Valid(st) && CountsMatch(st)
    && OpenAlong(st.rows, st.order) == done + batch + rest
    && AllFit(st, done, limit)
  }

  lemma MidwayHead(st: Store, done: seq<ChunkId>, batch: seq<ChunkId>, rest: seq<ChunkId>, limit: nat)
    requires Midway(st, done, batch, rest, limit) && batch != []
    ensures OpenAlong(st.rows, st.order) == done + [batch[0]] + (batch[1..] + rest)
    ensures batch[0] in st.rows && st.rows[batch[0]].Open()
    ensures forall d <- done :: d in st.rows && d != batch[0]
  {
    PendingIsOpen(st, 0);
    OpenAlongIs(st.rows, st.order);
    hide Valid, OpenAlong, CountsMatch, AllFit;
    HeadOfMiddle(done, batch, rest);
  }

  lemma HeadOfMiddle(done: seq<ChunkId>, batch: seq<ChunkId>, rest: seq<ChunkId>)
    requires Distinct(done + batch + rest) && batch != []
    ensures done + batch + rest == done + [batch[0]] + (batch[1..] + rest)
    ensures batch[0] in done + batch + rest
    ensures forall d <- done :: d in done + batch + rest && d != batch[0]
  {
    var all := done + batch + rest;
    assert all == done + [batch[0]] + (batch[1..] + rest);
    assert all[|done|] == batch[0];
    NotBefore(done, batch[0], batch[1..] + rest);
  }

  lemma MidwaySafe(st: Store, done: seq<ChunkId>, batch: seq<ChunkId>, rest: seq<ChunkId>, caps: Capabilities)
    requires Midway(st, done, batch, rest, caps.maxInputTokens) && batch != [] && !Unsafe(st, batch[0], caps)
    ensures Midway(st, done + [batch[0]], batch[1..], rest, caps.maxInputTokens)
  {
    SafeFits(st, batch[0], caps);
    hide Valid, OpenAlong, CountsMatch, Fits;
    assert (done + [batch[0]]) + batch[1..] + rest == done + batch + rest;
  }

  lemma MidwaySplit(st: Store, done: seq<ChunkId>, batch: seq<ChunkId>, rest: seq<ChunkId>, caps: Capabilities)
    returns (parts: seq<ChunkId>)
    requires caps.maxInputTokens >= 32
    requires Midway(st, done, batch, rest, caps.maxInputTokens) && batch != [] && Unsafe(st, batch[0], caps)
    ensures Midway(SplitChunk(st, batch[0], caps).0, done + parts, batch[1..], rest, caps.maxInputTokens)
    ensures |parts| >= 1 && SplitChunk(st, batch[0], caps).0.sent == st.sent
  {
    hide Valid, OpenAlong, CountsMatch, EstimateTokens, SplitChunk, TextOf, Unsafe;
    var id := batch[0];
    MidwayHead(st, done, batch, rest, caps.maxInputTokens);
    parts := SplitOpens(st, id, caps, done, batch[1..] + rest);
    SplitStep(st, id, caps);
    StepIsValid(st, SplitChunk(st, id, caps).0, id, SplitChunk(st, id, caps).1);
    SplitCountsMatch(st, id, caps);
    assert done + parts + (batch[1..] + rest) == (done + parts) + batch[1..] + rest;
  }

  /** After the unsafe chunks of a batch are split, the open chunks in its place are all within the
      limit, and there are at least as many of them. */
  lemma {:induction false} SplitUnsafeOpens(
      st: Store, done: seq<ChunkId>, batch: seq<ChunkId>, rest: seq<ChunkId>, caps: Capabilities)
    returns (done': seq<ChunkId>)
    requires caps.maxInputTokens >= 32
    requires Midway(st, done, batch, rest, caps.maxInputTokens)
    ensures Midway(SplitUnsafe(st, batch, caps), done', [], rest, caps.maxInputTokens)
    ensures |done'| >= |done| + |batch| && SplitUnsafe(st, batch, caps).sent == st.sent
    decreases |batch|
  {
    hide Midway, SplitChunk, Unsafe;
    if batch == [] {
      done' := done;
    } else {
      MidwayHead(st, done, batch, rest, caps.maxInputTokens);
      if Unsafe(st, batch[0], caps) {
        var parts := MidwaySplit(st, done, batch, rest, caps);
        done' := SplitUnsafeOpens(SplitChunk(st, batch[0], caps).0, done + parts, batch[1..], rest, caps);
      } else {
        MidwaySafe(st, done, batch, rest, caps);
        done' := SplitUnsafeOpens(st, done + [batch[0]], batch[1..], rest, caps);
      }
    }
  }

  lemma StepIsValid(st: Store, st': Store, id: ChunkId, out: Outcome)
    requires BatchStep(st, st', [id], out)
    ensures Valid(st')
  {
  }

  lemma SafeFits(st: Store, id: ChunkId, caps: Capabilities)
    requires !Unsafe(st, id, caps)
    ensures Fits(st, id, caps.maxInputTokens)
  {
  }

  lemma PrefixFits(st: Store, done: seq<ChunkId>, rest: seq<ChunkId>, limit: nat, size: nat)
    requires Midway(st, done, [], rest, limit)
    requires rest == [] || size <= |done|
    ensures AllFit(st, LoadPending(st, size), limit)
  {
    hide Valid, OpenAlong, CountsMatch, Fits;
    var batch := LoadPending(st, size);
    assert done + [] + rest == done + rest;
    forall id <- batch ensures Fits(st, id, limit) {
      var k :| 0 <= k < |batch| && batch[k] == id;
      assert id == done[k] && done[k] in done;
    }
  }

  /** The batch that goes to the provider is within the limit, although a batch reloaded after
      splits is not checked again. */
  lemma EnsuredBatchFits(st: Store, caps: Capabilities)
    requires Valid(st) && CountsMatch(st) && caps.maxInputTokens >= 32
    ensures var (safe, batch) := EnsureTokenSafe(st, LoadPending(st, caps.batchSize), caps);
      AllFit(safe, batch, caps.maxInputTokens) && CountsMatch(safe) && safe.sent == st.sent
  {
    hide OpenAlong, EstimateTokens, Valid, Unsafe, Fits, CountsMatch, SplitUnsafe, TextOf;
    var open := OpenAlong(st.rows, st.order);
    var loaded := LoadPending(st, caps.batchSize);
    var rest := open[|loaded|..];
    if exists id <- loaded :: Unsafe(st, id, caps) {
      assert open == [] + loaded + rest;
      var done := SplitUnsafeOpens(st, [], loaded, rest, caps);
      PrefixFits(SplitUnsafe(st, loaded, caps), done, rest, caps.maxInputTokens, caps.batchSize);
    } else {
      forall id <- loaded ensures Fits(st, id, caps.maxInputTokens) {
        SafeFits(st, id, caps);
      }
    }
  }

  // ------------------------------------------------------------ whole runs

  lemma PassIsSafe(adapter: Adapter, caps: Capabilities, st: Store)
    requires Valid(st) && CountsMatch(st) && SentWithin(st, caps.maxInputTokens) && caps.maxInputTokens >= 32
    ensures var st' := Pass(adapter, caps, st).0; SentWithin(st', caps.maxInputTokens) && CountsMatch(st')
  {
    hide Valid, OpenBatch, LoadPending, CountsMatch, SentWithin, Embed, EnsureTokenSafe, EstimateTokens;
    var (safe, batch) := EnsureTokenSafe(st, LoadPending(st, caps.batchSize), caps);
    EnsuredBatchFits(st, caps);
    PassBatchIsOpen(st, caps);
    SameSent(st, caps.maxInputTokens);
    EmbedSends(adapter, caps, safe, batch, 0, caps.maxInputTokens);
  }

  /** With a limit of at least 32 tokens no run ever sends a text over it, whatever its batch size,
      its recommended chunk size and the provider's answers. */
  lemma {:induction false} NothingOverlongIsSent(env: Env, caps: Capabilities, st: Store, pass: nat, r: RunResult)
    requires Valid(st) && CountsMatch(st) && SentWithin(st, caps.maxInputTokens)
    requires caps.maxInputTokens >= 32
    ensures var st' := Loop(env, caps, st, pass, r).0; SentWithin(st', caps.maxInputTokens) && CountsMatch(st')
    decreases Measure(st)
  {
    hide Valid, TextAlong, WeightAlong, LoadPending, CountsMatch, SentWithin, Embed, EnsureTokenSafe, EstimateTokens;
    if !env.cancelled(pass) && !(r.batches >= caps.jobBatchBudget || env.outOfTime(pass))
       && LoadPending(st, caps.batchSize) != [] {
      PassIsSafe(env.adapter, caps, st);
      PassMakesProgress(env.adapter, caps, st);
      var (after, out) := Pass(env.adapter, caps, st);
      NothingOverlongIsSent(env, caps, after, pass + 1, Tally(r, out));
    }
  }

  /** The same for any number of jobs on the document, one after the other, each with its own provider,
      clock and cancellation: the words stay, and no request of any of them is over the limit. */
  lemma {:induction false} JobsKeep(envs: seq<Env>, caps: Capabilities, st: Store)
    requires Valid(st)
    ensures var st' := AfterJobs(envs, caps, st);
      && Progress(st, st')
      && (caps.maxInputTokens >= 32 && CountsMatch(st) && SentWithin(st, caps.maxInputTokens) ==>
            SentWithin(st', caps.maxInputTokens) && CountsMatch(st'))
    decreases |envs|
  {
    hide Valid, TextAlong, WeightAlong, CountsMatch, SentWithin, Loop, Measure;
    if envs != [] {
      LoopKeeps(envs[0], caps, st, 0, FRESH_RUN);
      var st1 := RunJob(envs[0], caps, st).0;
      if caps.maxInputTokens >= 32 && CountsMatch(st) && SentWithin(st, caps.maxInputTokens) {
        NothingOverlongIsSent(envs[0], caps, st, 0, FRESH_RUN);
      }
      JobsKeep(envs[1..], caps, st1);
    }
  }

  // ------------------------------------------------------------ below 32 tokens

  function Filler(n: nat): Text {
    seq(n, _ => "word")
  }

  /** Two chunks of 25 and 40 words. */
  function TwoChunks(): Store {
    Store(
      map[0 := Row(Filler(25), 32, 0, PENDING, 0), 1 := Row(Filler(40), 52, 1, PENDING, 0)],
      [0, 1], 2, 0, 0, [])
  }

  const OBLIGING: Adapter := (n: nat, texts: seq<Text>) => Vectors(|texts|)

  /** The converse: for every limit below 32 tokens some run sends a text over it. The first chunk
      cannot be split by pieces of 32 tokens, fails, and lets the unchecked second one in. */
  lemma OverlongIsSentBelow32(limit: nat, recommended: nat) returns (st: Store, caps: Capabilities, env: Env)
    requires 1 <= limit < 32 && recommended >= 1
    ensures Valid(st) && CountsMatch(st) && st.sent == []
    ensures caps.maxInputTokens == limit && caps.recommendedChunkTokens == recommended
    ensures caps.batchSize == 1 && caps.jobBatchBudget == 64
    ensures !SentWithin(RunJob(env, caps, st).0, limit)
  {
    st, caps := TwoChunks(), Capabilities(limit, recommended, 1, 64);
    env := Env(OBLIGING, n => n > 0, n => false);
    TwoChunksValid();
    TwoChunksPending(st);
    FirstChunkFails(limit, recommended);
    SecondChunkIsSent(limit, recommended);
    OnePass(env, caps, st);
    TooLong(RunJob(env, caps, st).0, limit);
  }

  lemma TwoChunksValid()
    ensures Valid(TwoChunks()) && CountsMatch(TwoChunks())
  {
  }

  lemma TooLong(st: Store, limit: nat)
    requires limit < 52 && st.sent == [[Filler(40)]]
    ensures !SentWithin(st, limit)
  {
    assert st.sent[0] in st.sent && st.sent[0][0] in st.sent[0];
  }

  /** A job that is cancelled after its first pass. */
  lemma OnePass(env: Env, caps: Capabilities, st: Store)
    requires Valid(st) && LoadPending(st, caps.batchSize) != [] && caps.jobBatchBudget > 0
    requires !env.cancelled(0) && !env.outOfTime(0) && env.cancelled(1)
    ensures RunJob(env, caps, st).0 == Pass(env.adapter, caps, st).0
  {
    hide Pass, Valid, LoadPending, Measure;
    var (after, out) := Pass(env.adapter, caps, st);
    PassMakesProgress(env.adapter, caps, st);
    assert Loop(env, caps, after, 1, Tally(FRESH_RUN, out)).0 == after;
  }

  lemma TwoChunksPending(st: Store)
    requires st.order == [0, 1] && 0 in st.rows && 1 in st.rows
    ensures OpenAlong(st.rows, st.order) ==
      (if st.rows[0].Open() then [0] else []) + (if st.rows[1].Open() then [1] else [])
  {
    assert [0, 1][1..] == [1] && [1][1..] == [];
    assert OpenAlong(st.rows, [1]) == (if st.rows[1].Open() then [1] else []) + OpenAlong(st.rows, []);
  }

  lemma FirstChunkFails(limit: nat, recommended: nat)
    requires 1 <= limit < 32 && recommended >= 1
    ensures var st, caps := TwoChunks(), Capabilities(limit, recommended, 1, 64);
      EnsureTokenSafe(st, LoadPending(st, 1), caps)
      == (st.(rows := st.rows[0 := st.rows[0].(status := FAILED, attempts := 1)]), [1])
  {
    var st, caps := TwoChunks(), Capabilities(limit, recommended, 1, 64);
    var failed := st.(rows := st.rows[0 := st.rows[0].(status := FAILED, attempts := 1)]);
    TwoChunksPending(st);
    TwoChunksPending(failed);
    assert LoadPending(st, 1) == [0] && LoadPending(failed, 1) == [1];
    assert Unsafe(st, 0, caps);
    assert SaferMax(caps, Filler(25)) == 32;
    assert SplitText(Filler(25), 32) == [Filler(25)];
    assert SplitChunk(st, 0, caps).0 == failed;
    assert SplitUnsafe(st, [0], caps) == failed by {
      assert [0][1..] == [];
    }
  }

  lemma SecondChunkIsSent(limit: nat, recommended: nat)
    ensures var st, caps := TwoChunks(), Capabilities(limit, recommended, 1, 64);
      var failed := st.(rows := st.rows[0 := st.rows[0].(status := FAILED, attempts := 1)]);
      Embed(OBLIGING, caps, failed, [1], 0).0.sent == [[Filler(40)]]
  {
    var st, caps := TwoChunks(), Capabilities(limit, recommended, 1, 64);
    var failed := st.(rows := st.rows[0 := st.rows[0].(status := FAILED, attempts := 1)]);
    var rows := MarkEmbedding(failed.rows, [1]);
    assert TextsOf(rows, [1]) == [Filler(40)];
    var (response, called) := MarkAndCall(OBLIGING, failed, [1]);
    assert response == Vectors(1) && called.sent == [[Filler(40)]];
  }
}
