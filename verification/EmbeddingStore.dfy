/** The chunk table of one document and the steps services/embedding_pipeline.py takes on it. */
module EmbeddingStore {
  import opened Words
  import opened Chunking
  import opened ProviderErrors

  const MAX_ISOLATION_DEPTH := 5
  const MAX_CHUNK_EMBED_ATTEMPTS := 3
  const ADAPTER_RETRY_ATTEMPTS := 3

  datatype Capabilities = Capabilities(
    maxInputTokens: nat, recommendedChunkTokens: nat, batchSize: nat, jobBatchBudget: nat)

  datatype Status = PENDING | EMBEDDING | EMBEDDED | FAILED

  type ChunkId = nat

  datatype Row = Row(text: Text, tokenCount: int, chunkIndex: nat, status: Status, attempts: nat) {
    predicate Open() {
      status == PENDING || status == EMBEDDING
    }
  }

  datatype Response = Vectors(count: nat) | Rejected(error: ProviderError)

  /** The provider: any answer to the n-th request, whatever its texts. */
  type Adapter = (nat, seq<Text>) -> Response

  /** The rows of the document. `order` lists the ids by chunk_index; `requests` counts raw
      provider requests, `calls` those that are not retries, and `sent` logs their texts. */
  datatype Store = Store(
    rows: map<ChunkId, Row>, order: seq<ChunkId>, nextId: ChunkId,
    requests: nat, calls: nat, sent: seq<seq<Text>>)

  datatype Outcome = Outcome(embedded: nat, failed: nat)

  function Add(a: Outcome, b: Outcome): Outcome {
    Outcome(a.embedded + b.embedded, a.failed + b.failed)
  }

  /** Indexes are exactly 0..N-1 without duplicates, in the order of `order`; ids stay fresh. */
  ghost predicate Valid(st: Store) {
    && (forall k | 0 <= k < |st.order| :: st.order[k] in st.rows && st.rows[st.order[k]].chunkIndex == k)
    && (forall id <- st.rows :: st.rows[id].chunkIndex < |st.order| && st.order[st.rows[id].chunkIndex] == id)
    && (forall id <- st.rows :: id < st.nextId)
  }

  function TextOf(rows: map<ChunkId, Row>, id: ChunkId): Text {
    if id in rows then rows[id].text else []
  }

  function TextsOf(rows: map<ChunkId, Row>, ids: seq<ChunkId>): seq<Text> {
    seq(|ids|, i requires 0 <= i < |ids| => TextOf(rows, ids[i]))
  }

  /** The words of the rows, read along `order`. */
  function TextAlong(rows: map<ChunkId, Row>, order: seq<ChunkId>): Text {
    if order == [] then [] else TextOf(rows, order[0]) + TextAlong(rows, order[1..])
  }

  function DocumentText(st: Store): Text {
    TextAlong(st.rows, st.order)
  }

  /** Open ids along `order`: the ORDER BY chunk_index of the pending query. */
  function OpenAlong(rows: map<ChunkId, Row>, order: seq<ChunkId>): seq<ChunkId> {
    if order == [] then []
    else (if order[0] in rows && rows[order[0]].Open() then [order[0]] else []) + OpenAlong(rows, order[1..])
  }

  function LoadPending(st: Store, batchSize: nat): seq<ChunkId> {
    var open := OpenAlong(st.rows, st.order);
    open[..Min(batchSize, |open|)]
  }

  function CountStatus(rows: map<ChunkId, Row>, ids: seq<ChunkId>, s: Status): nat {
    if ids == [] then 0
    else (if ids[0] in rows && rows[ids[0]].status == s then 1 else 0) + CountStatus(rows, ids[1..], s)
  }

  /** The rows of one status, as the GROUP BY query sees them. */
  function IdsWith(st: Store, s: Status): set<ChunkId> {
    set id | id in st.rows && st.rows[id].status == s
  }

  function CountPending(st: Store): nat {
    |IdsWith(st, PENDING)| + |IdsWith(st, EMBEDDING)|
  }

  // ------------------------------------------------------------ row updates

  function MarkEmbedding(rows: map<ChunkId, Row>, ids: seq<ChunkId>): map<ChunkId, Row> {
    map id | id in rows :: if id in ids then rows[id].(status := EMBEDDING) else rows[id]
  }

  function MarkEmbedded(rows: map<ChunkId, Row>, ids: seq<ChunkId>): map<ChunkId, Row> {
    map id | id in rows ::
      if id in ids then rows[id].(status := EMBEDDED, attempts := rows[id].attempts + 1) else rows[id]
  }

  function FailedRow(row: Row, force: bool): Row {
    var attempts := row.attempts + 1;
    row.(attempts := attempts, status := if force || attempts >= MAX_CHUNK_EMBED_ATTEMPTS then FAILED else PENDING)
  }

  function MarkFailed(rows: map<ChunkId, Row>, ids: seq<ChunkId>, force: bool): map<ChunkId, Row> {
    map id | id in rows :: if id in ids then FailedRow(rows[id], force) else rows[id]
  }

  function FailChunks(st: Store, ids: seq<ChunkId>, force: bool): (Store, Outcome) {
    var rows := MarkFailed(st.rows, ids, force);
    (st.(rows := rows), Outcome(0, CountStatus(rows, ids, FAILED)))
  }

  // ------------------------------------------------------------ splitting a chunk

  function SaferMax(caps: Capabilities, text: Text): nat {
    var maxTokens := Min(caps.recommendedChunkTokens, caps.maxInputTokens);
    var estimate := EstimateTokens(text);
    var safer := if estimate > maxTokens then Max(64, maxTokens / 2) else Max(64, estimate / 2);
    Max(32, Min(safer, maxTokens))
  }

  function NewIds(nextId: ChunkId, count: nat): (ids: seq<ChunkId>)
    ensures |ids| == count
    ensures forall id :: id in ids <==> nextId <= id < nextId + count
    ensures forall k | 0 <= k < count :: ids[k] == nextId + k
  {
    if count == 0 then [] else NewIds(nextId, count - 1) + [nextId + count - 1]
  }

  /** Rows behind chunk index `c` move up by `extra`. */
  function ShiftRows(rows: map<ChunkId, Row>, c: nat, extra: nat): map<ChunkId, Row> {
    map id | id in rows ::
      if rows[id].chunkIndex > c then rows[id].(chunkIndex := rows[id].chunkIndex + extra) else rows[id]
  }

  /** The row added for part `k` of a split row. */
  function AddedRow(split: Row, parts: seq<Text>, k: nat): Row
    requires 0 < k < |parts|
  {
    Row(parts[k], EstimateTokens(parts[k]), split.chunkIndex + k, PENDING, 0)
  }

  /** The rows added for parts 1..k. */
  function AddedRows(split: Row, parts: seq<Text>, nextId: ChunkId, k: nat): map<ChunkId, Row>
    requires k < |parts|
  {
    if k == 0 then map[] else AddedRows(split, parts, nextId, k - 1)[nextId + k - 1 := AddedRow(split, parts, k)]
  }

  /** What the split row itself becomes: its first part, pending, one attempt later. */
  function FirstPartRow(split: Row, parts: seq<Text>): Row
    requires |parts| >= 2
  {
    Row(parts[0], EstimateTokens(parts[0]), split.chunkIndex, PENDING, split.attempts + 1)
  }

  function SplitRows(rows: map<ChunkId, Row>, id: ChunkId, parts: seq<Text>, nextId: ChunkId): map<ChunkId, Row>
    requires id in rows && |parts| >= 2
  {
    ShiftRows(rows, rows[id].chunkIndex, |parts| - 1)[id := FirstPartRow(rows[id], parts)]
    + AddedRows(rows[id], parts, nextId, |parts| - 1)
  }

  function SplitChunk(st: Store, id: ChunkId, caps: Capabilities): (Store, Outcome)
    requires id in st.rows
  {
    var row := st.rows[id];
    var parts := SplitText(row.text, SaferMax(caps, row.text));
    if |parts| <= 1 then
      (st.(rows := st.rows[id := row.(status := FAILED, attempts := row.attempts + 1)]), Outcome(0, 1))
    else
      var extra := |parts| - 1;
      var cut := Min(row.chunkIndex + 1, |st.order|);
      (st.(rows := SplitRows(st.rows, id, parts, st.nextId),
           order := st.order[..cut] + NewIds(st.nextId, extra) + st.order[cut..],
           nextId := st.nextId + extra),
       Outcome(0, 0))
  }

  // ------------------------------------------------------------ calling the provider

  /** Transient errors are retried in place; the last answer counts. */
  function Request(adapter: Adapter, st: Store, texts: seq<Text>, attempt: nat): (Response, Store)
    requires 1 <= attempt <= ADAPTER_RETRY_ATTEMPTS
    decreases ADAPTER_RETRY_ATTEMPTS - attempt
  {
    var response := adapter(st.requests, texts);
    var after := st.(requests := st.requests + 1, sent := st.sent + [texts]);
    if response.Vectors? then (response, after)
    else if IsOversized(response.error) || IsNonRetryable(response.error) then (response, after)
    else if !IsTransient(response.error) || attempt >= ADAPTER_RETRY_ATTEMPTS then (response, after)
    else Request(adapter, after, texts, attempt + 1)
  }

  function Call(adapter: Adapter, st: Store, texts: seq<Text>): (Response, Store) {
    Request(adapter, st.(calls := st.calls + 1), texts, 1)
  }

  // ------------------------------------------------------------ isolation

  /** Whether a rejected batch is bisected. */
  predicate Bisects(e: ProviderError, size: nat, depth: nat) {
    size > 1 && depth < MAX_ISOLATION_DEPTH && (IsOversized(e) || IsTransient(e) || IsNonRetryable(e))
  }

  /** A rejected batch that is neither split nor bisected: do its chunks fail for good? */
  predicate ForceFailed(e: ProviderError, size: nat, depth: nat) {
    if size > 1 && depth >= MAX_ISOLATION_DEPTH && (IsOversized(e) || IsTransient(e)) then false
    else IsNonRetryable(e) || (!IsTransient(e) && !IsOversized(e))
  }

  /** Mark the batch EMBEDDING and send its texts. */
  function MarkAndCall(adapter: Adapter, st: Store, ids: seq<ChunkId>): (Response, Store) {
    var rows := MarkEmbedding(st.rows, ids);
    Call(adapter, st.(rows := rows), TextsOf(rows, ids))
  }

  /** What becomes of a batch that is not bisected. */
  function Conclude(caps: Capabilities, st: Store, ids: seq<ChunkId>, depth: nat, response: Response): (Store, Outcome) {
    if response.Vectors? then
      if response.count != |ids| then FailChunks(st, ids, false)
      else (st.(rows := MarkEmbedded(st.rows, ids)), Outcome(|ids|, 0))
    else if IsOversized(response.error) && |ids| == 1 && ids[0] in st.rows then SplitChunk(st, ids[0], caps)
    else FailChunks(st, ids, ForceFailed(response.error, |ids|, depth))
  }

  function Embed(adapter: Adapter, caps: Capabilities, st: Store, ids: seq<ChunkId>, depth: nat): (Store, Outcome)
    decreases |ids|
  {
    if ids == [] then (st, Outcome(0, 0))
    else
      var (response, called) := MarkAndCall(adapter, st, ids);
      if response.Rejected? && Bisects(response.error, |ids|, depth) then
        var mid := |ids| / 2;
        var (afterLeft, left) := Embed(adapter, caps, called, ids[..mid], depth + 1);
        var (afterRight, right) := Embed(adapter, caps, afterLeft, ids[mid..], depth + 1);
        (afterRight, Add(left, right))
      else Conclude(caps, called, ids, depth, response)
  }

  // ------------------------------------------------------------ token safety

  predicate TokenSafe(caps: Capabilities, row: Row) {
    row.tokenCount <= caps.maxInputTokens && EstimateTokens(row.text) <= caps.maxInputTokens
  }

  predicate Unsafe(st: Store, id: ChunkId, caps: Capabilities) {
    id in st.rows && !TokenSafe(caps, st.rows[id])
  }

  /** Split every chunk of the batch that is over the provider's limit. */
  function SplitUnsafe(st: Store, batch: seq<ChunkId>, caps: Capabilities): Store
    decreases |batch|
  {
    if batch == [] then st
    else SplitUnsafe(if Unsafe(st, batch[0], caps) then SplitChunk(st, batch[0], caps).0 else st, batch[1..], caps)
  }

  /** The batch as it is when all of it is safe, else a fresh batch loaded after the splits. */
  function EnsureTokenSafe(st: Store, batch: seq<ChunkId>, caps: Capabilities): (Store, seq<ChunkId>) {
    if exists id <- batch :: Unsafe(st, id, caps) then
      var after := SplitUnsafe(st, batch, caps);
      (after, LoadPending(after, caps.batchSize))
    else (st, batch)
  }
}
