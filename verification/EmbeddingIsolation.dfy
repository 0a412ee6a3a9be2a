/** `_embed_batch_with_isolation`: its effect for every provider, and how far it isolates. */
module EmbeddingIsolation {
  import opened Words
  import opened Chunking
  import opened ProviderErrors
  import opened Wrappers
  import opened EmbeddingStore
  import opened EmbeddingProofs

  /** A request changes no row. */
  predicate SameTable(a: Store, b: Store) {
    a.rows == b.rows && a.order == b.order && a.nextId == b.nextId
  }

  lemma {:induction false} RequestKeepsTable(adapter: Adapter, st: Store, texts: seq<Text>, attempt: nat)
    requires 1 <= attempt <= ADAPTER_RETRY_ATTEMPTS
    ensures SameTable(Request(adapter, st, texts, attempt).1, st)
    ensures Request(adapter, st, texts, attempt).1.calls == st.calls
    ensures st.requests < Request(adapter, st, texts, attempt).1.requests <= st.requests + 4 - attempt
    decreases ADAPTER_RETRY_ATTEMPTS - attempt
  {
    if attempt < ADAPTER_RETRY_ATTEMPTS {
      RequestKeepsTable(adapter, st.(requests := st.requests + 1, sent := st.sent + [texts]), texts, attempt + 1);
    }
  }

  lemma CallKeepsTable(adapter: Adapter, st: Store, texts: seq<Text>)
    ensures SameTable(Call(adapter, st, texts).1, st)
    ensures Call(adapter, st, texts).1.calls == st.calls + 1
    ensures st.requests < Call(adapter, st, texts).1.requests <= st.requests + 3
  {
    RequestKeepsTable(adapter, st.(calls := st.calls + 1), texts, 1);
  }

  predicate Outage(response: Response) {
    response.Rejected? && IsTransient(response.error)
  }

  lemma {:induction false} RequestRetries(adapter: Adapter, st: Store, texts: seq<Text>, attempt: nat)
    requires 1 <= attempt <= ADAPTER_RETRY_ATTEMPTS
    ensures var (response, st') := Request(adapter, st, texts, attempt);
      var n := st'.requests - st.requests;
      && 1 <= n <= 4 - attempt && response == adapter(st.requests + n - 1, texts)
      && (forall m: nat | st.requests <= m < st'.requests - 1 :: Outage(adapter(m, texts)))
      && (Outage(response) ==> n == 4 - attempt)
    decreases ADAPTER_RETRY_ATTEMPTS - attempt
  {
    hide IsTransient, IsOversized, IsNonRetryable;
    var response := adapter(st.requests, texts);
    if response.Rejected? && IsTransient(response.error) && attempt < ADAPTER_RETRY_ATTEMPTS {
      var after := st.(requests := st.requests + 1, sent := st.sent + [texts]);
      RequestRetries(adapter, after, texts, attempt + 1);
    }
  }

  /** A call asks until the answer is no outage, and three times at most; the last answer counts. */
  lemma CallRetries(adapter: Adapter, st: Store, texts: seq<Text>)
    ensures var (response, st') := Call(adapter, st, texts);
      var n := st'.requests - st.requests;
      && 1 <= n <= 3 && response == adapter(st.requests + n - 1, texts)
      && (forall m: nat | st.requests <= m < st'.requests - 1 :: Outage(adapter(m, texts)))
      && (Outage(response) ==> n == 3)
  {
    RequestRetries(adapter, st.(calls := st.calls + 1), texts, 1);
  }

  // ------------------------------------------------------------ one batch, any provider

  lemma MarkKeeps(st: Store, ids: seq<ChunkId>)
    requires Valid(st) && OpenBatch(st, ids)
    ensures var marked := st.(rows := MarkEmbedding(st.rows, ids));
      Valid(marked) && OpenBatch(marked, ids)
      && DocumentText(marked) == DocumentText(st) && Measure(marked) == Measure(st)
  {
    var rows' := MarkEmbedding(st.rows, ids);
    TextAgree(st.rows, rows', st.order);
    SameWeights(st.rows, rows', st.order);
  }

  lemma {:induction false} SameWeights(rows: map<ChunkId, Row>, rows': map<ChunkId, Row>, order: seq<ChunkId>)
    requires forall id <- order :: id in rows && id in rows' && Weight(rows[id]) == Weight(rows'[id])
    ensures WeightAlong(rows, order) == WeightAlong(rows', order)
  {
    if order != [] {
      assert order[0] in order && forall id <- order[1..] :: id in order;
      SameWeights(rows, rows', order[1..]);
    }
  }

  /** A batch step that starts from the marked and requested table starts from the table itself. */
  lemma StepFromMarked(st: Store, called: Store, st': Store, ids: seq<ChunkId>, out: Outcome)
    requires Valid(st) && OpenBatch(st, ids)
    requires SameTable(called, st.(rows := MarkEmbedding(st.rows, ids)))
    requires BatchStep(called, st', ids, out)
    ensures BatchStep(st, st', ids, out)
  {
    hide Valid, TextAlong, WeightAlong;
    MarkKeeps(st, ids);
  }

  /** What a step leaves untouched is still an open batch. */
  lemma StillOpen(st: Store, st': Store, ids: seq<ChunkId>, out: Outcome, others: seq<ChunkId>)
    requires BatchStep(st, st', ids, out) && OpenBatch(st, others)
    requires forall id <- others :: id !in ids
    ensures OpenBatch(st', others)
    ensures forall id <- others :: st'.rows[id].text == st.rows[id].text
  {
    hide Valid, TextAlong, WeightAlong, CountStatus;
    forall id <- others ensures id in st'.rows && SameContent(st'.rows[id], st.rows[id]) {
      assert id in st.rows;
    }
  }

  lemma SplitBatch(st: Store, ids: seq<ChunkId>, mid: nat)
    requires OpenBatch(st, ids) && mid <= |ids|
    ensures OpenBatch(st, ids[..mid]) && OpenBatch(st, ids[mid..])
    ensures forall id <- ids[mid..] :: id !in ids[..mid]
    ensures forall id <- ids[..mid] :: id !in ids[mid..]
    ensures forall id <- ids :: id in ids[..mid] || id in ids[mid..]
    ensures forall id <- ids[..mid] :: id in ids
    ensures forall id <- ids[mid..] :: id in ids
    ensures ids == ids[..mid] + ids[mid..]
  {
  }

  /** Two steps over the halves of a batch are one step over the batch. */
  lemma ComposeSteps(st: Store, st1: Store, st2: Store, ids: seq<ChunkId>, mid: nat, o1: Outcome, o2: Outcome)
    requires Valid(st) && OpenBatch(st, ids) && mid <= |ids|
    requires BatchStep(st, st1, ids[..mid], o1)
    requires BatchStep(st1, st2, ids[mid..], o2)
    ensures BatchStep(st, st2, ids, Add(o1, o2))
  {
    hide Valid, TextAlong, WeightAlong, CountStatus, SameContent, Settled, OpenBatch;
    var left, right := ids[..mid], ids[mid..];
    HalvesApart(st, st1, ids, mid, o1);
    RowsKept(st, st1, st2, ids, mid, o1, o2);
    NewRowsStayNew(st, st1, st2, left, right, o1, o2);
    CountsAdd(st1, st2, left, right, o1, o2);
  }

  lemma HalvesApart(st: Store, st1: Store, ids: seq<ChunkId>, mid: nat, o1: Outcome)
    requires OpenBatch(st, ids) && mid <= |ids| && BatchStep(st, st1, ids[..mid], o1)
    ensures forall id <- ids[..mid] :: id in st1.rows && id !in ids[mid..]
    ensures forall id <- ids[mid..] :: id in st.rows
    ensures ids == ids[..mid] + ids[mid..]
  {
    hide Valid, TextAlong, WeightAlong, CountStatus;
    SplitBatch(st, ids, mid);
  }

  lemma RowsKept(st: Store, st1: Store, st2: Store, ids: seq<ChunkId>, mid: nat, o1: Outcome, o2: Outcome)
    requires OpenBatch(st, ids) && mid <= |ids|
    requires BatchStep(st, st1, ids[..mid], o1) && BatchStep(st1, st2, ids[mid..], o2)
    ensures forall id <- st.rows :: id in st2.rows && (id in ids || SameContent(st2.rows[id], st.rows[id]))
    ensures forall id <- ids :: id in st2.rows && Settled(st2.rows[id])
  {
    hide Valid, TextAlong, WeightAlong, CountStatus;
    SplitBatch(st, ids, mid);
    forall id <- st.rows ensures id in st2.rows && (id in ids || SameContent(st2.rows[id], st.rows[id])) {
      assert id in st1.rows;
    }
    forall id <- ids ensures id in st2.rows && Settled(st2.rows[id]) {
      if id in ids[..mid] {
        assert id in st1.rows && SameContent(st2.rows[id], st1.rows[id]);
      }
    }
  }

  lemma CountsAdd(st1: Store, st2: Store, left: seq<ChunkId>, right: seq<ChunkId>, o1: Outcome, o2: Outcome)
    requires forall id <- left :: id in st1.rows && id !in right
    requires BatchStep(st1, st2, right, o2)
    requires o1.embedded == CountStatus(st1.rows, left, EMBEDDED) && o1.failed == CountStatus(st1.rows, left, FAILED)
    ensures CountStatus(st2.rows, left + right, EMBEDDED) == o1.embedded + o2.embedded
    ensures CountStatus(st2.rows, left + right, FAILED) == o1.failed + o2.failed
  {
    forall id <- left ensures id in st1.rows && id in st2.rows && SameContent(st1.rows[id], st2.rows[id]) {
    }
    AlongAgree(st1.rows, st2.rows, left);
    CountAppend(st2.rows, left, right, EMBEDDED);
    CountAppend(st2.rows, left, right, FAILED);
  }

  lemma NewRowsStayNew(st: Store, st1: Store, st2: Store, left: seq<ChunkId>, right: seq<ChunkId>, o1: Outcome, o2: Outcome)
    requires Valid(st) && (forall id <- right :: id in st.rows)
    requires BatchStep(st, st1, left, o1) && BatchStep(st1, st2, right, o2)
    ensures forall id <- st2.rows :: id in st.rows || (st.nextId <= id && st2.rows[id].status == PENDING)
  {
    hide TextAlong, WeightAlong, CountStatus;
    forall id <- st2.rows ensures id in st.rows || (st.nextId <= id && st2.rows[id].status == PENDING) {
      if id !in st.rows && id in st1.rows {
        assert st.nextId <= id;
        assert id !in right;
        assert SameContent(st2.rows[id], st1.rows[id]);
      }
    }
  }

  /** Marking and calling leaves an open batch and a table that differs in the marks only. */
  lemma CalledBatch(adapter: Adapter, st: Store, ids: seq<ChunkId>)
    requires Valid(st) && OpenBatch(st, ids)
    ensures var called := MarkAndCall(adapter, st, ids).1;
      && SameTable(called, st.(rows := MarkEmbedding(st.rows, ids)))
      && Valid(called) && OpenBatch(called, ids)
      && (forall id <- ids :: TextOf(called.rows, id) == TextOf(st.rows, id))
      && called.calls == st.calls + 1
  {
    var marked := st.(rows := MarkEmbedding(st.rows, ids));
    CallKeepsTable(adapter, marked, TextsOf(marked.rows, ids));
    MarkKeeps(st, ids);
  }

  lemma ConcludeStep(caps: Capabilities, st: Store, ids: seq<ChunkId>, depth: nat, response: Response)
    requires Valid(st) && OpenBatch(st, ids) && ids != []
    ensures BatchStep(st, Conclude(caps, st, ids, depth, response).0, ids, Conclude(caps, st, ids, depth, response).1)
  {
    hide Valid, OpenBatch, BatchStep, SplitChunk, ForceFailed, FailChunks, MarkEmbedded, IsOversized;
    EmbeddedStep(st, ids);
    if response.Vectors? {
      FailedStep(st, ids, false);
    } else {
      FailedStep(st, ids, ForceFailed(response.error, |ids|, depth));
      if |ids| == 1 {
        OneIsOpen(st, ids);
        SplitStep(st, ids[0], caps);
        assert ids == [ids[0]];
      }
    }
  }

  /** The two halves of a bisected batch. */
  lemma HalvesStep(st: Store, ids: seq<ChunkId>, mid: nat, st1: Store, o1: Outcome)
    requires Valid(st) && OpenBatch(st, ids) && mid <= |ids|
    requires BatchStep(st, st1, ids[..mid], o1)
    ensures Valid(st1) && OpenBatch(st1, ids[mid..])
    ensures forall id <- ids[mid..] :: TextOf(st1.rows, id) == TextOf(st.rows, id)
  {
    SplitBatch(st, ids, mid);
    StillOpen(st, st1, ids[..mid], o1, ids[mid..]);
    hide TextAlong, WeightAlong, CountStatus;
    assert forall id <- ids[mid..] :: id in st.rows && id in st1.rows;
  }

  /** One batch, any provider: the document's words, the indexes and the rows outside the batch
      survive, every chunk of the batch is decided, none stays EMBEDDING, the work left strictly
      shrinks, and the outcome counts exactly the chunks that were embedded or failed. */
  lemma {:induction false} EmbedIsBatchStep(
      adapter: Adapter, caps: Capabilities, st: Store, ids: seq<ChunkId>, depth: nat)
    requires Valid(st) && OpenBatch(st, ids)
    ensures BatchStep(st, Embed(adapter, caps, st, ids, depth).0, ids, Embed(adapter, caps, st, ids, depth).1)
    decreases |ids|
  {
    hide Valid, OpenBatch, BatchStep, MarkAndCall, Conclude, Bisects, SameTable, MarkEmbedding, TextOf, Add;
    if ids == [] {
      EmptyStep(st);
    } else {
      var (response, called) := MarkAndCall(adapter, st, ids);
      var (st', out) := Embed(adapter, caps, st, ids, depth);
      CalledBatch(adapter, st, ids);
      if response.Rejected? && Bisects(response.error, |ids|, depth) {
        BisectsMany(response.error, |ids|, depth);
        var mid := |ids| / 2;
        var (afterLeft, left) := Embed(adapter, caps, called, ids[..mid], depth + 1);
        var (afterRight, right) := Embed(adapter, caps, afterLeft, ids[mid..], depth + 1);
        SplitBatch(called, ids, mid);
        EmbedIsBatchStep(adapter, caps, called, ids[..mid], depth + 1);
        HalvesStep(called, ids, mid, afterLeft, left);
        EmbedIsBatchStep(adapter, caps, afterLeft, ids[mid..], depth + 1);
        ComposeSteps(called, afterLeft, afterRight, ids, mid, left, right);
      } else {
        ConcludeStep(caps, called, ids, depth, response);
      }
      StepFromMarked(st, called, st', ids, out);
    }
  }

  lemma EmptyStep(st: Store)
    requires Valid(st)
    ensures BatchStep(st, st, [], Outcome(0, 0))
  {
  }

  lemma OneIsOpen(st: Store, ids: seq<ChunkId>)
    requires OpenBatch(st, ids) && |ids| == 1
    ensures ids[0] in st.rows && st.rows[ids[0]].Open()
  {
    assert ids[0] in ids;
  }

  lemma BisectsMany(e: ProviderError, size: nat, depth: nat)
    requires Bisects(e, size, depth)
    ensures size > 1 && depth < MAX_ISOLATION_DEPTH
  {
  }

  // ------------------------------------------------------------ cost

  /** Isolating n chunks takes at most 2n - 1 calls, each of at most three requests. */
  lemma {:induction false} CallsBounded(adapter: Adapter, caps: Capabilities, st: Store, ids: seq<ChunkId>, depth: nat)
    requires ids != []
    ensures var st' := Embed(adapter, caps, st, ids, depth).0;
      && st.calls < st'.calls <= st.calls + 2 * |ids| - 1
      && st'.requests - st.requests <= 3 * (st'.calls - st.calls)
    decreases |ids|
  {
    hide MarkEmbedding, SplitRows, SplitText, Call, ForceFailed, NewIds;
    var rows := MarkEmbedding(st.rows, ids);
    CallKeepsTable(adapter, st.(rows := rows), TextsOf(rows, ids));
    var (response, called) := MarkAndCall(adapter, st, ids);
    if response.Rejected? && Bisects(response.error, |ids|, depth) {
      var mid := |ids| / 2;
      CallsBounded(adapter, caps, called, ids[..mid], depth + 1);
      CallsBounded(adapter, caps, Embed(adapter, caps, called, ids[..mid], depth + 1).0, ids[mid..], depth + 1);
    }
  }

  // ------------------------------------------------------------ bad apples

  function Pow2(n: nat): nat {
    if n == 0 then 1 else 2 * Pow2(n - 1)
  }

  /** A provider that rejects exactly the requests that hold a bad text. */
  ghost predicate Faithful(adapter: Adapter, bad: Text -> bool) {
    forall n: nat, texts: seq<Text> ::
      if exists t <- texts :: bad(t) then
        && adapter(n, texts).Rejected?
        && (IsOversized(adapter(n, texts).error) || IsTransient(adapter(n, texts).error)
            || IsNonRetryable(adapter(n, texts).error))
      else adapter(n, texts) == Vectors(|texts|)
  }

  lemma {:induction false} FaithfulRequest(adapter: Adapter, bad: Text -> bool, st: Store, texts: seq<Text>, attempt: nat)
    requires 1 <= attempt <= ADAPTER_RETRY_ATTEMPTS
    requires Faithful(adapter, bad)
    ensures var response := Request(adapter, st, texts, attempt).0;
      if exists t <- texts :: bad(t) then
        response.Rejected? && (IsOversized(response.error) || IsTransient(response.error) || IsNonRetryable(response.error))
      else response == Vectors(|texts|)
    decreases ADAPTER_RETRY_ATTEMPTS - attempt
  {
    if attempt < ADAPTER_RETRY_ATTEMPTS {
      FaithfulRequest(adapter, bad, st.(requests := st.requests + 1, sent := st.sent + [texts]), texts, attempt + 1);
    }
  }

  ghost predicate HoldsBad(st: Store, ids: seq<ChunkId>, bad: Text -> bool) {
    exists id <- ids :: bad(TextOf(st.rows, id))
  }

  lemma BadTexts(st: Store, ids: seq<ChunkId>, bad: Text -> bool)
    ensures (exists t <- TextsOf(st.rows, ids) :: bad(t)) <==> HoldsBad(st, ids, bad)
  {
    var texts := TextsOf(st.rows, ids);
    if HoldsBad(st, ids, bad) {
      var id :| id in ids && bad(TextOf(st.rows, id));
      var k :| 0 <= k < |ids| && ids[k] == id;
      assert texts[k] in texts;
    }
    if t :| t in texts && bad(t) {
      var k :| 0 <= k < |texts| && texts[k] == t;
      assert ids[k] in ids;
    }
  }

  /** Good chunks are embedded, bad ones are not. */
  ghost predicate Isolated(st: Store, st': Store, ids: seq<ChunkId>, bad: Text -> bool) {
    forall id <- ids :: id in st'.rows && (st'.rows[id].status == EMBEDDED <==> !bad(TextOf(st.rows, id)))
  }

  /** What the first call of a batch shows. */
  lemma FirstCall(adapter: Adapter, bad: Text -> bool, st: Store, ids: seq<ChunkId>)
    requires Faithful(adapter, bad)
    ensures var response := MarkAndCall(adapter, st, ids).0;
      if HoldsBad(st, ids, bad) then
        response.Rejected? && (IsOversized(response.error) || IsTransient(response.error) || IsNonRetryable(response.error))
      else response == Vectors(|ids|)
  {
    var marked := st.(rows := MarkEmbedding(st.rows, ids));
    var texts := TextsOf(marked.rows, ids);
    FaithfulRequest(adapter, bad, marked.(calls := marked.calls + 1), texts, 1);
    assert texts == TextsOf(st.rows, ids);
    BadTexts(st, ids, bad);
  }

  /** Isolation is complete: when the provider rejects exactly the requests holding a bad text and
      the batch has at most 2^(5 - depth) chunks, every good chunk ends EMBEDDED, no bad one does. */
  lemma {:induction false} IsolationComplete(
      adapter: Adapter, bad: Text -> bool, caps: Capabilities, st: Store, ids: seq<ChunkId>, depth: nat)
    requires Faithful(adapter, bad)
    requires Valid(st) && OpenBatch(st, ids)
    requires depth <= MAX_ISOLATION_DEPTH && |ids| <= Pow2(MAX_ISOLATION_DEPTH - depth)
    ensures Isolated(st, Embed(adapter, caps, st, ids, depth).0, ids, bad)
    decreases |ids|
  {
    hide Faithful, Valid, OpenBatch, BatchStep, MarkAndCall, Conclude, SameTable, MarkEmbedding, TextOf, Add, Isolated,
         IsOversized, IsTransient, IsNonRetryable;
    if ids == [] {
      assert Isolated(st, st, [], bad) by { NoneIsolated(st, bad); }
    } else {
      var (response, called) := MarkAndCall(adapter, st, ids);
      CalledBatch(adapter, st, ids);
      FirstCall(adapter, bad, st, ids);
      var st' := Embed(adapter, caps, st, ids, depth).0;
      if response.Rejected? && |ids| > 1 {
        assert Bisects(response.error, |ids|, depth);
        var mid := |ids| / 2;
        var (afterLeft, left) := Embed(adapter, caps, called, ids[..mid], depth + 1);
        var (afterRight, right) := Embed(adapter, caps, afterLeft, ids[mid..], depth + 1);
        SplitBatch(called, ids, mid);
        IsolationComplete(adapter, bad, caps, called, ids[..mid], depth + 1);
        EmbedIsBatchStep(adapter, caps, called, ids[..mid], depth + 1);
        HalvesStep(called, ids, mid, afterLeft, left);
        IsolationComplete(adapter, bad, caps, afterLeft, ids[mid..], depth + 1);
        EmbedIsBatchStep(adapter, caps, afterLeft, ids[mid..], depth + 1);
        JoinIsolated(called, afterLeft, afterRight, ids, mid, left, right, bad);
      } else {
        ConcludeIsolates(caps, called, ids, depth, response, bad);
      }
      SameTexts(st, called, st', ids, bad);
    }
  }

  lemma NoneIsolated(st: Store, bad: Text -> bool)
    ensures Isolated(st, st, [], bad)
  {
  }

  lemma SameTexts(st: Store, called: Store, st': Store, ids: seq<ChunkId>, bad: Text -> bool)
    requires forall id <- ids :: TextOf(called.rows, id) == TextOf(st.rows, id)
    requires Isolated(called, st', ids, bad)
    ensures Isolated(st, st', ids, bad)
  {
    forall id <- ids ensures id in st'.rows && (st'.rows[id].status == EMBEDDED <==> !bad(TextOf(st.rows, id))) {
      assert TextOf(called.rows, id) == TextOf(st.rows, id);
    }
  }

  lemma JoinIsolated(st: Store, st1: Store, st2: Store, ids: seq<ChunkId>, mid: nat, o1: Outcome, o2: Outcome, bad: Text -> bool)
    requires OpenBatch(st, ids) && mid <= |ids|
    requires BatchStep(st, st1, ids[..mid], o1) && BatchStep(st1, st2, ids[mid..], o2)
    requires Isolated(st, st1, ids[..mid], bad) && Isolated(st1, st2, ids[mid..], bad)
    ensures Isolated(st, st2, ids, bad)
  {
    SplitBatch(st, ids, mid);
    StillOpen(st, st1, ids[..mid], o1, ids[mid..]);
    hide Valid, TextAlong, WeightAlong, CountStatus;
    forall id <- ids ensures id in st2.rows && (st2.rows[id].status == EMBEDDED <==> !bad(TextOf(st.rows, id))) {
      if id in ids[..mid] {
        assert id in st1.rows && SameContent(st2.rows[id], st1.rows[id]);
      } else {
        assert id in st1.rows && id in st.rows;
      }
    }
  }

  /** A clean batch is embedded; a lone bad chunk is not. */
  lemma ConcludeIsolates(caps: Capabilities, st: Store, ids: seq<ChunkId>, depth: nat, response: Response, bad: Text -> bool)
    requires Valid(st) && OpenBatch(st, ids) && ids != []
    requires if response.Vectors? then response.count == |ids| && !HoldsBad(st, ids, bad)
             else |ids| == 1 && HoldsBad(st, ids, bad)
    ensures Isolated(st, Conclude(caps, st, ids, depth, response).0, ids, bad)
  {
    if response.Rejected? {
      ConcludeStep(caps, st, ids, depth, response);
      RejectedOne(caps, st, ids, depth, response);
      hide Conclude, Valid, TextAlong, WeightAlong;
      assert ids == [ids[0]] && ids[0] in ids;
      SingleAlong(Conclude(caps, st, ids, depth, response).0.rows, ids[0]);
    }
  }

  lemma RejectedOne(caps: Capabilities, st: Store, ids: seq<ChunkId>, depth: nat, response: Response)
    requires response.Rejected?
    ensures Conclude(caps, st, ids, depth, response).1.embedded == 0
  {
    hide SplitRows, SplitText, NewIds;
  }

  // ------------------------------------------------------------ the depth limit is exact

  /** A provider that answers a bad request with 422, which is not retried. */
  function Strict(bad: Text): Adapter {
    (n: nat, texts: seq<Text>) =>
      if bad in texts then Rejected(ProviderError(Some(422), false, false, false, false)) else Vectors(|texts|)
  }

  function Equals(bad: Text): Text -> bool {
    t => t == bad
  }

  lemma StrictIsFaithful(bad: Text)
    ensures Faithful(Strict(bad), Equals(bad))
  {
    forall n: nat, texts: seq<Text>
      ensures if exists t <- texts :: Equals(bad)(t) then
        && Strict(bad)(n, texts).Rejected? && IsNonRetryable(Strict(bad)(n, texts).error)
        else Strict(bad)(n, texts) == Vectors(|texts|)
    {
      if t :| t in texts && Equals(bad)(t) {
        assert bad in texts;
      } else {
        assert bad in texts ==> Equals(bad)(bad);
      }
    }
  }

  /** Only the last text of the batch is `bad`. */
  ghost predicate LastIsBad(st: Store, ids: seq<ChunkId>, bad: Text) {
    && ids != []
    && TextOf(st.rows, ids[|ids| - 1]) == bad
    && (forall i | 0 <= i < |ids| - 1 :: TextOf(st.rows, ids[i]) != bad)
  }

  /** A good chunk of the batch that has failed for good. */
  ghost predicate Missed(st: Store, st': Store, ids: seq<ChunkId>, bad: Text, victim: ChunkId) {
    victim in ids && TextOf(st.rows, victim) != bad && victim in st'.rows && st'.rows[victim].status == FAILED
  }

  /** The converse: with more than 2^(5 - depth) chunks and a provider as IsolationComplete asks for, a
      single bad text at the end of the batch makes some good chunk fail for good. */
  lemma {:induction false} IsolationNeedsRoom(caps: Capabilities, st: Store, ids: seq<ChunkId>, depth: nat, bad: Text)
    returns (victim: ChunkId)
    requires Valid(st) && OpenBatch(st, ids)
    requires depth <= MAX_ISOLATION_DEPTH && |ids| > Pow2(MAX_ISOLATION_DEPTH - depth)
    requires LastIsBad(st, ids, bad)
    ensures Faithful(Strict(bad), Equals(bad))
    ensures Missed(st, Embed(Strict(bad), caps, st, ids, depth).0, ids, bad, victim)
    decreases |ids|
  {
    hide Strict, Equals, Faithful, Valid, OpenBatch, BatchStep, MarkAndCall, SameTable, MarkEmbedding, TextOf, Add, LastIsBad, Missed, Conclude,
         IsOversized, IsNonRetryable, IsTransient;
    StrictIsFaithful(bad);
    StrictCall(bad, st, ids);
    CalledBatch(Strict(bad), st, ids);
    var (response, called) := MarkAndCall(Strict(bad), st, ids);
    Pow2Positive(MAX_ISOLATION_DEPTH - depth);
    if depth == MAX_ISOLATION_DEPTH {
      victim := MissedAtLimit(caps, st, called, ids, depth, response, bad);
    } else {
      var mid := |ids| / 2;
      var afterLeft := Embed(Strict(bad), caps, called, ids[..mid], depth + 1).0;
      LeftHalfDone(Strict(bad), caps, called, ids, mid, depth + 1);
      LastOfHalf(st, called, afterLeft, ids, mid, bad);
      victim := IsolationNeedsRoom(caps, afterLeft, ids[mid..], depth + 1, bad);
      MissedInHalf(st, called, afterLeft, Embed(Strict(bad), caps, afterLeft, ids[mid..], depth + 1).0, ids, mid, bad, victim);
    }
  }

  lemma LeftHalfDone(adapter: Adapter, caps: Capabilities, st: Store, ids: seq<ChunkId>, mid: nat, depth: nat)
    requires Valid(st) && OpenBatch(st, ids) && mid <= |ids|
    ensures var st1 := Embed(adapter, caps, st, ids[..mid], depth).0;
      Valid(st1) && OpenBatch(st1, ids[mid..]) && forall id <- ids[mid..] :: TextOf(st1.rows, id) == TextOf(st.rows, id)
  {
    hide *;
    SplitBatch(st, ids, mid);
    EmbedIsBatchStep(adapter, caps, st, ids[..mid], depth);
    HalvesStep(st, ids, mid, Embed(adapter, caps, st, ids[..mid], depth).0, Embed(adapter, caps, st, ids[..mid], depth).1);
  }

  lemma LastOfHalf(st: Store, called: Store, after: Store, ids: seq<ChunkId>, mid: nat, bad: Text)
    requires LastIsBad(st, ids, bad) && mid < |ids|
    requires forall id <- ids :: TextOf(called.rows, id) == TextOf(st.rows, id)
    requires forall id <- ids[mid..] :: TextOf(after.rows, id) == TextOf(called.rows, id)
    ensures LastIsBad(after, ids[mid..], bad)
  {
    forall i | mid <= i < |ids| ensures TextOf(after.rows, ids[i]) == TextOf(st.rows, ids[i]) {
      assert ids[mid..][i - mid] == ids[i];
      assert ids[i] in ids && ids[i] in ids[mid..];
    }
  }

  lemma MissedInHalf(st: Store, called: Store, after: Store, st': Store, ids: seq<ChunkId>, mid: nat, bad: Text, victim: ChunkId)
    requires mid < |ids| && Missed(after, st', ids[mid..], bad, victim)
    requires forall id <- ids :: TextOf(called.rows, id) == TextOf(st.rows, id)
    requires forall id <- ids[mid..] :: TextOf(after.rows, id) == TextOf(called.rows, id)
    ensures Missed(st, st', ids, bad, victim)
  {
    assert victim in ids;
    assert TextOf(after.rows, victim) == TextOf(called.rows, victim) == TextOf(st.rows, victim);
  }

  /** At the depth limit the whole batch fails with the bad text. */
  lemma MissedAtLimit(caps: Capabilities, st: Store, called: Store, ids: seq<ChunkId>, depth: nat, response: Response, bad: Text)
    returns (victim: ChunkId)
    requires OpenBatch(called, ids) && |ids| > 1
    requires response.Rejected? && IsNonRetryable(response.error) && !IsOversized(response.error) && !IsTransient(response.error)
    requires LastIsBad(st, ids, bad)
    ensures Missed(st, Conclude(caps, called, ids, depth, response).0, ids, bad, victim)
  {
    victim := ids[0];
    assert victim in ids;
  }

  lemma Pow2Positive(n: nat)
    ensures Pow2(n) >= 1
  {
  }

  lemma StrictCall(bad: Text, st: Store, ids: seq<ChunkId>)
    requires LastIsBad(st, ids, bad)
    ensures var response := MarkAndCall(Strict(bad), st, ids).0;
      response.Rejected? && IsNonRetryable(response.error) && !IsOversized(response.error) && !IsTransient(response.error)
  {
    var texts := TextsOf(MarkEmbedding(st.rows, ids), ids);
    assert texts == TextsOf(st.rows, ids);
    assert texts[|ids| - 1] == bad && bad in texts;
  }
}
