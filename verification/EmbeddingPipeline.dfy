/** The loops of services/embedding_pipeline.py over a mutable chunk table, each proved to do what
    EmbeddingStore and EmbeddingRuns specify. */
module EmbeddingPipeline {
  import opened Words
  import opened Chunking
  import opened ProviderErrors
  import opened Wrappers
  import opened EmbeddingStore
  import opened EmbeddingProofs
  import opened EmbeddingIsolation
  import opened EmbeddingRuns
  import Chunker

  /** One embedding job at work on the chunk rows of its document. */
  class EmbeddingJob {
    const adapter: Adapter
    const caps: Capabilities
    var rows: map<ChunkId, Row>
    var nextId: ChunkId
    var requests: nat
    ghost var order: seq<ChunkId>
    ghost var calls: nat
    ghost var sent: seq<seq<Text>>

    ghost function View(): Store
      reads this
    {
      Store(rows, order, nextId, requests, calls, sent)
    }

    constructor (adapter: Adapter, caps: Capabilities, rows: map<ChunkId, Row>, nextId: ChunkId, ghost order: seq<ChunkId>)
      requires Valid(Store(rows, order, nextId, 0, 0, []))
      ensures this.adapter == adapter && this.caps == caps
      ensures View() == Store(rows, order, nextId, 0, 0, [])
    {
      this.adapter, this.caps, this.rows, this.nextId, this.order := adapter, caps, rows, nextId, order;
      requests, calls, sent := 0, 0, [];
    }

    method CallEmbedWithRetries(texts: seq<Text>) returns (response: Response)
      modifies this`requests, this`calls, this`sent
      ensures (response, View()) == Call(adapter, old(View()), texts)
    {
      calls := calls + 1;
      ghost var start := View();
      var attempt := 1;
      while true
        invariant 1 <= attempt <= ADAPTER_RETRY_ATTEMPTS
        invariant Request(adapter, start, texts, 1) == Request(adapter, View(), texts, attempt)
        invariant rows == old(rows) && order == old(order) && nextId == old(nextId) && calls == old(calls) + 1
        decreases ADAPTER_RETRY_ATTEMPTS - attempt
      {
        response := adapter(requests, texts);
        requests, sent := requests + 1, sent + [texts];
        if response.Vectors? {
          return;
        }
        if IsOversized(response.error) || IsNonRetryable(response.error) {
          return;
        }
        if !IsTransient(response.error) || attempt >= ADAPTER_RETRY_ATTEMPTS {
          return;
        }
        attempt := attempt + 1;
      }
    }

    /** The pending query: open rows in chunk_index order, up to the batch size. */
    method LoadPendingBatch(batchSize: nat) returns (batch: seq<ChunkId>)
      requires Valid(View())
      ensures batch == LoadPending(View(), batchSize)
    {
      hide Valid, OpenAlong;
      batch := [];
      var k := 0;
      OrderIsWhole(View());
      NoneOpen(View());
      while k < |rows| && |batch| < batchSize
        invariant 0 <= k <= |order| == |rows|
        invariant batch == OpenAlong(rows, order[..k]) && |batch| <= batchSize
      {
        IdAt(View(), k);
        var id :| id in rows && rows[id].chunkIndex == k;
        PlaceOf(View(), id);
        OneMoreOpen(View(), k);
        if rows[id].Open() {
          batch := batch + [id];
        }
        k := k + 1;
      }
      OpenPrefix(View(), k);
    }

    method MarkChunksFailed(ids: seq<ChunkId>, force: bool) returns (out: Outcome)
      requires Distinct(ids) && forall id <- ids :: id in rows
      modifies this`rows
      ensures (View(), out) == FailChunks(old(View()), ids, force)
    {
      for i := 0 to |ids|
        invariant rows == MarkFailed(old(rows), ids[..i], force)
      {
        assert ids[i] in ids && ids[i] !in ids[..i];
        var row := rows[ids[i]];
        var attempts := row.attempts + 1;
        if force || attempts >= MAX_CHUNK_EMBED_ATTEMPTS {
          rows := rows[ids[i] := row.(attempts := attempts, status := FAILED)];
        } else {
          rows := rows[ids[i] := row.(attempts := attempts, status := PENDING)];
        }
        assert ids[..i + 1] == ids[..i] + [ids[i]];
      }
      assert ids[..|ids|] == ids;
      var failed := CountFailed(ids);
      out := Outcome(0, failed);
    }

    method CountFailed(ids: seq<ChunkId>) returns (failed: nat)
      requires forall id <- ids :: id in rows
      ensures failed == CountStatus(rows, ids, FAILED)
    {
      failed := 0;
      for i := 0 to |ids|
        invariant failed == CountStatus(rows, ids[..i], FAILED)
      {
        assert ids[..i + 1] == ids[..i] + [ids[i]] && ids[i] in ids;
        CountAppend(rows, ids[..i], [ids[i]], FAILED);
        SingleAlong(rows, ids[i]);
        if rows[ids[i]].status == FAILED {
          failed := failed + 1;
        }
      }
      assert ids[..|ids|] == ids;
    }

    method MarkChunksEmbedded(ids: seq<ChunkId>)
      requires Distinct(ids) && forall id <- ids :: id in rows
      modifies this`rows
      ensures rows == MarkEmbedded(old(rows), ids)
    {
      for i := 0 to |ids|
        invariant rows == MarkEmbedded(old(rows), ids[..i])
      {
        assert ids[i] in ids && ids[i] !in ids[..i];
        rows := rows[ids[i] := rows[ids[i]].(status := EMBEDDED, attempts := rows[ids[i]].attempts + 1)];
        assert ids[..i + 1] == ids[..i] + [ids[i]];
      }
      assert ids[..|ids|] == ids;
    }

    /** Make room behind chunk index `c`: later rows move up by `extra`. */
    method ShiftLater(c: nat, extra: nat)
      modifies this`rows
      ensures rows == ShiftRows(old(rows), c, extra)
    {
      ghost var before := rows;
      var later := set id | id in rows && rows[id].chunkIndex > c;
      while later != {}
        invariant rows.Keys == before.Keys && later <= rows.Keys
        invariant forall id <- later :: rows[id] == before[id] && before[id].chunkIndex > c
        invariant forall id <- rows | id !in later :: rows[id] == ShiftRows(before, c, extra)[id]
        decreases later
      {
        var id :| id in later;
        rows := rows[id := rows[id].(chunkIndex := rows[id].chunkIndex + extra)];
        later := later - {id};
      }
    }

    /** Add the parts after the first as new pending rows. */
    method AddParts(split: Row, parts: seq<Text>)
      requires |parts| >= 2
      modifies this`rows
      ensures rows == old(rows) + AddedRows(split, parts, nextId, |parts| - 1)
    {
      hide EstimateTokens;
      for offset := 1 to |parts|
        invariant rows == old(rows) + AddedRows(split, parts, nextId, offset - 1)
      {
        var row := Row(parts[offset], EstimateTokens(parts[offset]), split.chunkIndex + offset, PENDING, 0);
        rows := rows[nextId + offset - 1 := row];
      }
    }

    /** Make room behind row `id`, cut it down to the first part and add the others. */
    method ReplaceByParts(id: ChunkId, parts: seq<Text>)
      requires id in rows && |parts| >= 2
      modifies this`rows
      ensures rows == SplitRows(old(rows), id, parts, nextId)
    {
      hide EstimateTokens, AddedRows, NewIds;
      var row := rows[id];
      ShiftLater(row.chunkIndex, |parts| - 1);
      hide ShiftRows;
      rows := rows[id := Row(parts[0], EstimateTokens(parts[0]), row.chunkIndex, PENDING, row.attempts + 1)];
      AddParts(row, parts);
    }

    method SplitSingleChunk(id: ChunkId) returns (out: Outcome)
      requires Valid(View()) && id in rows
      modifies this`rows, this`order, this`nextId
      ensures (View(), out) == SplitChunk(old(View()), id, caps)
    {
      hide SplitChunk, SplitText, Valid, EstimateTokens, SplitRows, Insert, NewIds;
      SplitChunkIs(View(), id, caps);
      var row := rows[id];
      var maxTokens := Min(caps.recommendedChunkTokens, caps.maxInputTokens);
      var estimate := EstimateTokens(row.text);
      var saferMax := if estimate > maxTokens then Max(64, maxTokens / 2) else Max(64, estimate / 2);
      saferMax := Max(32, Min(saferMax, maxTokens));
      assert saferMax == SaferMax(caps, row.text);
      var parts := Chunker.SplitTextByTokens(row.text, saferMax);
      hide SaferMax;
      if |parts| <= 1 {
        rows := rows[id := row.(status := FAILED, attempts := row.attempts + 1)];
        return Outcome(0, 1);
      }
      ReplaceByParts(id, parts);
      order := Insert(order, row.chunkIndex + 1, NewIds(nextId, |parts| - 1));
      nextId := nextId + |parts| - 1;
      out := Outcome(0, 0);
    }

    method EmbedBatchWithIsolation(ids: seq<ChunkId>, depth: nat) returns (out: Outcome)
      requires Valid(View()) && OpenBatch(View(), ids)
      modifies this
      ensures (View(), out) == Embed(adapter, caps, old(View()), ids, depth)
      ensures BatchStep(old(View()), View(), ids, out)
      decreases |ids|
    {
      hide Valid, OpenBatch, BatchStep, MarkEmbedding, SplitChunk, FailChunks, MarkEmbedded, SameTable, IsOversized,
           IsTransient, IsNonRetryable;
      EmbedIsBatchStep(adapter, caps, View(), ids, depth);
      if ids == [] {
        return Outcome(0, 0);
      }
      ghost var start := View();
      rows := MarkEmbedding(rows, ids);
      var texts := TextsOf(rows, ids);
      var response := CallEmbedWithRetries(texts);
      ghost var called := View();
      assert (response, called) == MarkAndCall(adapter, start, ids);
      CalledBatch(adapter, start, ids);
      BatchIds(called, ids);
      if response.Rejected? {
        var e := response.error;
        if IsOversized(e) && |ids| == 1 {
          out := SplitSingleChunk(ids[0]);
          return;
        }
        if (IsOversized(e) || IsTransient(e)) && |ids| > 1 {
          if depth >= MAX_ISOLATION_DEPTH {
            out := MarkChunksFailed(ids, false);
            return;
          }
          out := EmbedHalves(ids, depth);
          return;
        }
        if IsNonRetryable(e) && |ids| > 1 && depth < MAX_ISOLATION_DEPTH {
          out := EmbedHalves(ids, depth);
          return;
        }
        var forceFailed := IsNonRetryable(e) || (!IsTransient(e) && !IsOversized(e));
        out := MarkChunksFailed(ids, forceFailed);
        return;
      }
      if response.count != |ids| {
        out := MarkChunksFailed(ids, false);
        return;
      }
      MarkChunksEmbedded(ids);
      out := Outcome(|ids|, 0);
    }

    method EmbedHalves(ids: seq<ChunkId>, depth: nat) returns (out: Outcome)
      requires Valid(View()) && OpenBatch(View(), ids) && |ids| > 1
      modifies this
      ensures var mid := |ids| / 2;
        var (afterLeft, left) := Embed(adapter, caps, old(View()), ids[..mid], depth + 1);
        var (afterRight, right) := Embed(adapter, caps, afterLeft, ids[mid..], depth + 1);
        View() == afterRight && out == Add(left, right)
      decreases |ids|, 0
    {
      hide Valid, OpenBatch, BatchStep, Embed;
      var mid := |ids| / 2;
      SplitBatch(View(), ids, mid);
      LeftHalfDone(adapter, caps, View(), ids, mid, depth + 1);
      var left := EmbedBatchWithIsolation(ids[..mid], depth + 1);
      var right := EmbedBatchWithIsolation(ids[mid..], depth + 1);
      out := Add(left, right);
    }

    method SplitOverlong(batch: seq<ChunkId>) returns (batch': seq<ChunkId>)
      requires Valid(View()) && batch == LoadPending(View(), caps.batchSize)
      modifies this
      ensures (View(), batch') == EnsureTokenSafe(old(View()), batch, caps)
    {
      hide Valid, LoadPending, SplitChunk, TokenSafe, BatchStep, OpenBatch, Progress, WeightAlong, TextAlong, IdsWith;
      ghost var start := View();
      PendingIsOpen(start, caps.batchSize);
      SplitUnsafeProgress(start, batch, caps);
      var safe: seq<ChunkId> := [];
      var changed := false;
      for i := 0 to |batch|
        invariant Valid(View()) && OpenBatch(View(), batch[i..])
        invariant SplitUnsafe(start, batch, caps) == SplitUnsafe(View(), batch[i..], caps)
        invariant changed <==> exists k :: 0 <= k < i && Unsafe(start, batch[k], caps)
        invariant !changed ==> View() == start && safe == batch[..i]
        invariant forall k | i <= k < |batch| :: Unsafe(View(), batch[k], caps) <==> Unsafe(start, batch[k], caps)
      {
        ghost var now := View();
        BatchHead(now, batch, i);
        var row := rows[batch[i]];
        if row.tokenCount <= caps.maxInputTokens && EstimateTokens(row.text) <= caps.maxInputTokens {
          SafeRow(now, batch[i], caps);
          safe := safe + [batch[i]];
          continue;
        }
        UnsafeRow(now, batch[i], caps);
        changed := true;
        SplitStep(now, batch[i], caps);
        var out := SplitSingleChunk(batch[i]);
        OthersStay(now, View(), batch, i, out, caps);
      }
      assert batch[|batch|..] == [];
      if changed {
        batch' := LoadPendingBatch(caps.batchSize);
        return;
      }
      assert batch[..|batch|] == batch;
      return safe;
    }

    method ProcessDocumentEmbeddings(cancelled: nat -> bool, outOfTime: nat -> bool) returns (r: RunResult)
      requires Valid(View())
      modifies this
      ensures (View(), r) == RunJob(Env(adapter, cancelled, outOfTime), caps, old(View()))
      ensures Progress(old(View()), View())
      ensures |IdsWith(View(), EMBEDDED)| == |IdsWith(old(View()), EMBEDDED)| + r.embedded
      ensures caps.batchSize > 0 && !r.cancelled && !r.continued ==> CountPending(View()) == 0
    {
      hide Valid, LoadPending, Pass, Embed, EnsureTokenSafe, Progress, WeightAlong, TextAlong, IdsWith, OpenBatch, Tally, BatchStep;
      ghost var env := Env(adapter, cancelled, outOfTime);
      LoopKeeps(env, caps, View(), 0, FRESH_RUN);
      if caps.batchSize > 0 {
        LoopDrains(env, caps, View(), 0, FRESH_RUN);
      }
      r := FRESH_RUN;
      var pass := 0;
      while true
        invariant Valid(View())
        invariant RunJob(env, caps, old(View())) == Loop(env, caps, View(), pass, r)
        decreases Measure(View())
      {
        if cancelled(pass) {
          r := r.(cancelled := true);
          break;
        }
        if r.batches >= caps.jobBatchBudget || outOfTime(pass) {
          var pending := PendingCount();
          if pending > 0 {
            r := r.(continued := true);
          }
          break;
        }
        var batch := LoadPendingBatch(caps.batchSize);
        if batch == [] {
          break;
        }
        ghost var before := View();
        PassMakesProgress(adapter, caps, before);
        ProgressIsValid(before, Pass(adapter, caps, before).0);
        var out := RunPass(batch);
        r := Tally(r, out);
        pass := pass + 1;
      }
    }

    /** One pass: split over-long chunks, then embed what is loaded. */
    method RunPass(batch: seq<ChunkId>) returns (out: Option<Outcome>)
      requires Valid(View()) && batch == LoadPending(View(), caps.batchSize)
      modifies this
      ensures (View(), out) == Pass(adapter, caps, old(View()))
    {
      hide Valid, LoadPending, Embed, EnsureTokenSafe, OpenBatch;
      PassBatchIsOpen(View(), caps);
      var safe := SplitOverlong(batch);
      if safe == [] {
        return None;
      }
      var done := EmbedBatchWithIsolation(safe, 0);
      out := Some(done);
    }

    method PendingCount() returns (n: nat)
      ensures n == CountPending(View())
    {
      n := |set id | id in rows && rows[id].status == PENDING| + |set id | id in rows && rows[id].status == EMBEDDING|;
      assert (set id | id in rows && rows[id].status == PENDING) == IdsWith(View(), PENDING);
      assert (set id | id in rows && rows[id].status == EMBEDDING) == IdsWith(View(), EMBEDDING);
    }
  }

  // ------------------------------------------------------------ facts the loops use

  lemma NoneOpen(st: Store)
    ensures OpenAlong(st.rows, st.order[..0]) == []
  {
  }

  lemma OneMoreOpen(st: Store, k: nat)
    requires Valid(st) && k < |st.order|
    ensures st.order[k] in st.rows
    ensures OpenAlong(st.rows, st.order[..k + 1])
         == OpenAlong(st.rows, st.order[..k]) + (if st.rows[st.order[k]].Open() then [st.order[k]] else [])
  {
    assert st.order[..k + 1] == st.order[..k] + [st.order[k]];
    OpenAppend(st.rows, st.order[..k], [st.order[k]]);
    SingleAlong(st.rows, st.order[k]);
  }

  lemma OpenPrefix(st: Store, k: nat)
    requires k <= |st.order|
    ensures OpenAlong(st.rows, st.order[..k]) <= OpenAlong(st.rows, st.order)
    ensures k == |st.order| ==> OpenAlong(st.rows, st.order[..k]) == OpenAlong(st.rows, st.order)
  {
    assert st.order == st.order[..k] + st.order[k..];
    OpenAppend(st.rows, st.order[..k], st.order[k..]);
  }

  /** `order` lists every row once. */
  lemma OrderIsWhole(st: Store)
    requires Valid(st)
    ensures |st.order| == |st.rows|
  {
    OrderDistinct(st);
    DistinctCount(st.order);
    assert Members(st.order) == st.rows.Keys;
  }

  function Members(ids: seq<ChunkId>): set<ChunkId> {
    set id | id in ids
  }

  lemma {:induction false} DistinctCount(ids: seq<ChunkId>)
    requires Distinct(ids)
    ensures |Members(ids)| == |ids|
  {
    if ids == [] {
      assert Members(ids) == {};
    } else {
      DistinctCount(ids[1..]);
      assert ids[0] !in ids[1..];
      assert forall id :: id in ids <==> id == ids[0] || id in ids[1..];
      assert Members(ids) == {ids[0]} + Members(ids[1..]);
    }
  }

  lemma BatchIds(st: Store, ids: seq<ChunkId>)
    requires OpenBatch(st, ids)
    ensures Distinct(ids) && forall id <- ids :: id in st.rows
    ensures |ids| == 1 ==> ids[0] in st.rows
  {
    assert |ids| == 1 ==> ids[0] in ids;
  }

  lemma BatchHead(st: Store, batch: seq<ChunkId>, i: nat)
    requires i < |batch| && OpenBatch(st, batch[i..])
    ensures batch[i] in st.rows && st.rows[batch[i]].Open()
    ensures OpenBatch(st, batch[i + 1..])
    ensures batch[i..][0] == batch[i] && batch[i..][1..] == batch[i + 1..] && batch[i..] != []
    ensures forall id <- batch[i + 1..] :: id !in [batch[i]]
  {
    assert batch[i..][1..] == batch[i + 1..];
    RestIsOpen(st, batch[i..]);
  }

  lemma SafeRow(st: Store, id: ChunkId, caps: Capabilities)
    requires id in st.rows
    requires st.rows[id].tokenCount <= caps.maxInputTokens && EstimateTokens(st.rows[id].text) <= caps.maxInputTokens
    ensures !Unsafe(st, id, caps)
  {
  }

  lemma UnsafeRow(st: Store, id: ChunkId, caps: Capabilities)
    requires id in st.rows
    requires !(st.rows[id].tokenCount <= caps.maxInputTokens && EstimateTokens(st.rows[id].text) <= caps.maxInputTokens)
    ensures Unsafe(st, id, caps)
  {
  }

  /** Splitting one chunk of a batch leaves the verdict on the rest of it alone. */
  lemma OthersStay(st: Store, st': Store, batch: seq<ChunkId>, i: nat, out: Outcome, caps: Capabilities)
    requires i < |batch| && OpenBatch(st, batch[i + 1..]) && BatchStep(st, st', [batch[i]], out)
    requires forall id <- batch[i + 1..] :: id !in [batch[i]]
    ensures Valid(st') && OpenBatch(st', batch[i + 1..])
    ensures forall k | i + 1 <= k < |batch| :: Unsafe(st', batch[k], caps) <==> Unsafe(st, batch[k], caps)
  {
    StillOpen(st, st', [batch[i]], out, batch[i + 1..]);
    hide Valid, TextAlong, WeightAlong, CountStatus;
    forall k | i + 1 <= k < |batch| ensures Unsafe(st', batch[k], caps) <==> Unsafe(st, batch[k], caps) {
      assert batch[k] == batch[i + 1..][k - i - 1] && batch[k] in batch[i + 1..];
      assert batch[k] in st.rows && SameContent(st'.rows[batch[k]], st.rows[batch[k]]);
    }
  }

  lemma ProgressIsValid(st: Store, st': Store)
    requires Progress(st, st')
    ensures Valid(st')
  {
  }
}
