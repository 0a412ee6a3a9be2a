/** What one batch does to the chunk table, for every provider behaviour. */
module EmbeddingProofs {
  import opened Words
  import opened Chunking
  import opened EmbeddingStore

  // ------------------------------------------------------------ the measure

  /** Work left in an open chunk: it can be split while it has two words and retried while
      it has attempts left. */
  function Weight(row: Row): nat {
    if !row.Open() then 0
    else (if row.text == [] then 1 else 7 * (2 * |row.text| - 1)) + Max(0, MAX_CHUNK_EMBED_ATTEMPTS - row.attempts)
  }

  function WeightAlong(rows: map<ChunkId, Row>, order: seq<ChunkId>): nat {
    if order == [] then 0
    else (if order[0] in rows then Weight(rows[order[0]]) else 0) + WeightAlong(rows, order[1..])
  }

  function Measure(st: Store): nat {
    WeightAlong(st.rows, st.order)
  }

  // ------------------------------------------------------------ walking the order

  lemma {:induction false} WeightAppend(rows: map<ChunkId, Row>, a: seq<ChunkId>, b: seq<ChunkId>)
    ensures WeightAlong(rows, a + b) == WeightAlong(rows, a) + WeightAlong(rows, b)
  {
    if a == [] {
      assert a + b == b;
    } else {
      assert (a + b)[1..] == a[1..] + b;
      WeightAppend(rows, a[1..], b);
    }
  }

  lemma {:induction false} TextAppend(rows: map<ChunkId, Row>, a: seq<ChunkId>, b: seq<ChunkId>)
    ensures TextAlong(rows, a + b) == TextAlong(rows, a) + TextAlong(rows, b)
  {
    if a == [] {
      assert a + b == b;
    } else {
      assert (a + b)[1..] == a[1..] + b;
      TextAppend(rows, a[1..], b);
    }
  }

  lemma {:induction false} OpenAppend(rows: map<ChunkId, Row>, a: seq<ChunkId>, b: seq<ChunkId>)
    ensures OpenAlong(rows, a + b) == OpenAlong(rows, a) + OpenAlong(rows, b)
  {
    if a == [] {
      assert a + b == b;
    } else {
      assert (a + b)[1..] == a[1..] + b;
      OpenAppend(rows, a[1..], b);
    }
  }

  lemma {:induction false} CountAppend(rows: map<ChunkId, Row>, a: seq<ChunkId>, b: seq<ChunkId>, s: Status)
    ensures CountStatus(rows, a + b, s) == CountStatus(rows, a, s) + CountStatus(rows, b, s)
  {
    if a == [] {
      assert a + b == b;
    } else {
      assert (a + b)[1..] == a[1..] + b;
      CountAppend(rows, a[1..], b, s);
    }
  }

  /** Same row up to its place in the document. */
  predicate SameContent(a: Row, b: Row) {
    a == b.(chunkIndex := a.chunkIndex)
  }

  lemma {:induction false} AlongAgree(rows: map<ChunkId, Row>, rows': map<ChunkId, Row>, order: seq<ChunkId>)
    requires forall id <- order :: id in rows && id in rows' && SameContent(rows[id], rows'[id])
    ensures WeightAlong(rows, order) == WeightAlong(rows', order)
    ensures TextAlong(rows, order) == TextAlong(rows', order)
    ensures OpenAlong(rows, order) == OpenAlong(rows', order)
    ensures forall s :: CountStatus(rows, order, s) == CountStatus(rows', order, s)
  {
    if order != [] {
      assert order[0] in order && forall id <- order[1..] :: id in order;
      AlongAgree(rows, rows', order[1..]);
    }
  }

  lemma {:induction false} TextAgree(rows: map<ChunkId, Row>, rows': map<ChunkId, Row>, order: seq<ChunkId>)
    requires forall id <- order :: id in rows && id in rows' && rows[id].text == rows'[id].text
    ensures TextAlong(rows, order) == TextAlong(rows', order)
  {
    if order != [] {
      assert order[0] in order && forall id <- order[1..] :: id in order;
      TextAgree(rows, rows', order[1..]);
    }
  }

  ghost predicate Distinct(ids: seq<ChunkId>) {
    forall i, j | 0 <= i < j < |ids| :: ids[i] != ids[j]
  }

  /** Number of places along `order` that hold one of `ids`. */
  function Hits(order: seq<ChunkId>, ids: seq<ChunkId>): nat {
    if order == [] then 0 else (if order[0] in ids then 1 else 0) + Hits(order[1..], ids)
  }

  lemma {:induction false} HitsEach(order: seq<ChunkId>, ids: seq<ChunkId>)
    requires Distinct(ids) && forall id <- ids :: id in order
    ensures Hits(order, ids) >= |ids|
    decreases |order|
  {
    if ids != [] {
      assert ids[0] in ids && ids[0] in order;
      if order[0] in ids {
        var k :| 0 <= k < |ids| && ids[k] == order[0];
        var others := ids[..k] + ids[k + 1..];
        forall id <- others ensures id in order[1..] {
          assert id in ids;
          assert id != order[0] by {
            var j :| 0 <= j < |others| && others[j] == id;
            assert id == if j < k then ids[j] else ids[j + 1];
          }
        }
        HitsEach(order[1..], others);
        HitsMore(order[1..], others, ids);
      } else {
        forall id <- ids ensures id in order[1..] {
        }
        HitsEach(order[1..], ids);
      }
    }
  }

  lemma {:induction false} HitsMore(order: seq<ChunkId>, few: seq<ChunkId>, many: seq<ChunkId>)
    requires forall id <- few :: id in many
    ensures Hits(order, few) <= Hits(order, many)
  {
    if order != [] {
      HitsMore(order[1..], few, many);
    }
  }

  /** When each of `ids` loses weight and nothing else gains, the sum falls by their number. */
  lemma {:induction false} WeightFalls(rows: map<ChunkId, Row>, rows': map<ChunkId, Row>,
                                       order: seq<ChunkId>, ids: seq<ChunkId>)
    requires forall id <- order :: id in rows && id in rows'
    requires forall id <- order :: Weight(rows'[id]) + (if id in ids then 1 else 0) <= Weight(rows[id])
    ensures WeightAlong(rows', order) + Hits(order, ids) <= WeightAlong(rows, order)
  {
    if order != [] {
      assert order[0] in order && forall id <- order[1..] :: id in order;
      WeightFalls(rows, rows', order[1..], ids);
    }
  }

  // ------------------------------------------------------------ what a batch may do

  /** The ids of a batch: distinct open rows. */
  ghost predicate OpenBatch(st: Store, ids: seq<ChunkId>) {
    Distinct(ids) && forall id <- ids :: id in st.rows && st.rows[id].Open()
  }

  predicate Settled(row: Row) {
    row.status != EMBEDDING
  }

  /** The effect of running a batch over `ids`: the document keeps its words, rows outside the
      batch keep their content, every chunk of the batch is decided, the work left shrinks by at
      least one unit a chunk, and the outcome counts the chunks that were embedded or failed. */
  ghost predicate BatchStep(st: Store, st': Store, ids: seq<ChunkId>, out: Outcome) {
    && Valid(st')
    && st.nextId <= st'.nextId
    && DocumentText(st') == DocumentText(st)
    && Measure(st') + |ids| <= Measure(st)
    && (forall id <- st.rows :: id in st'.rows && (id in ids || SameContent(st'.rows[id], st.rows[id])))
    && (forall id <- ids :: id in st'.rows && Settled(st'.rows[id]))
    && (forall id <- st'.rows :: id in st.rows || (st.nextId <= id && st'.rows[id].status == PENDING))
    && out.embedded == CountStatus(st'.rows, ids, EMBEDDED)
    && out.failed == CountStatus(st'.rows, ids, FAILED)
  }

  lemma RowUpdateLightens(st: Store, rows': map<ChunkId, Row>, ids: seq<ChunkId>)
    requires Valid(st) && OpenBatch(st, ids)
    requires rows'.Keys == st.rows.Keys
    requires forall id <- st.rows | id !in ids :: rows'[id] == st.rows[id]
    requires forall id <- ids :: Weight(rows'[id]) < Weight(st.rows[id])
    ensures Measure(st.(rows := rows')) + |ids| <= Measure(st)
  {
    hide Weight;
    forall id <- ids ensures id in st.order {
      assert st.order[st.rows[id].chunkIndex] == id;
    }
    HitsEach(st.order, ids);
    WeightFalls(st.rows, rows', st.order, ids);
  }

  /** An update that keeps ids, order, indexes and texts, and lightens each row of the batch. */
  lemma RowUpdateStep(st: Store, rows': map<ChunkId, Row>, ids: seq<ChunkId>)
    requires Valid(st) && OpenBatch(st, ids)
    requires rows'.Keys == st.rows.Keys
    requires forall id <- st.rows :: rows'[id].text == st.rows[id].text && rows'[id].chunkIndex == st.rows[id].chunkIndex
    requires forall id <- st.rows | id !in ids :: rows'[id] == st.rows[id]
    requires forall id <- ids :: Weight(rows'[id]) < Weight(st.rows[id]) && Settled(rows'[id])
    ensures BatchStep(st, st.(rows := rows'), ids,
                      Outcome(CountStatus(rows', ids, EMBEDDED), CountStatus(rows', ids, FAILED)))
  {
    TextAgree(st.rows, rows', st.order);
    RowUpdateLightens(st, rows', ids);
    hide Weight, WeightAlong, CountStatus;
  }

  lemma {:induction false} CountAll(rows: map<ChunkId, Row>, ids: seq<ChunkId>, s: Status, t: Status)
    requires s != t && forall id <- ids :: id in rows && rows[id].status == s
    ensures CountStatus(rows, ids, s) == |ids| && CountStatus(rows, ids, t) == 0
  {
    if ids != [] {
      assert ids[0] in ids && forall id <- ids[1..] :: id in ids;
      CountAll(rows, ids[1..], s, t);
    }
  }

  lemma {:induction false} CountNone(rows: map<ChunkId, Row>, ids: seq<ChunkId>, s: Status)
    requires forall id <- ids :: id in rows && rows[id].status != s
    ensures CountStatus(rows, ids, s) == 0
  {
    if ids != [] {
      assert ids[0] in ids && forall id <- ids[1..] :: id in ids;
      CountNone(rows, ids[1..], s);
    }
  }

  lemma EmbeddedStep(st: Store, ids: seq<ChunkId>)
    requires Valid(st) && OpenBatch(st, ids)
    ensures BatchStep(st, st.(rows := MarkEmbedded(st.rows, ids)), ids, Outcome(|ids|, 0))
  {
    var rows' := MarkEmbedded(st.rows, ids);
    RowUpdateStep(st, rows', ids);
    CountAll(rows', ids, EMBEDDED, FAILED);
  }

  lemma FailedStep(st: Store, ids: seq<ChunkId>, force: bool)
    requires Valid(st) && OpenBatch(st, ids)
    ensures BatchStep(st, FailChunks(st, ids, force).0, ids, FailChunks(st, ids, force).1)
  {
    var rows' := MarkFailed(st.rows, ids, force);
    forall id <- ids ensures Weight(rows'[id]) < Weight(st.rows[id]) {
      var row := st.rows[id];
      if row.text != [] {
        assert 2 * |row.text| - 1 >= 1;
      }
    }
    RowUpdateStep(st, rows', ids);
    CountNone(rows', ids, EMBEDDED);
  }

  // ------------------------------------------------------------ splitting

  function Insert(order: seq<ChunkId>, at: nat, added: seq<ChunkId>): seq<ChunkId>
    requires at <= |order|
  {
    order[..at] + added + order[at..]
  }

  lemma InsertAt(order: seq<ChunkId>, at: nat, added: seq<ChunkId>, k: nat)
    requires at <= |order| && k < |order| + |added|
    ensures |Insert(order, at, added)| == |order| + |added|
    ensures Insert(order, at, added)[k] ==
      if k < at then order[k] else if k < at + |added| then added[k - at] else order[k - |added|]
  {
  }

  lemma {:induction false} AddedRowsAt(split: Row, parts: seq<Text>, nextId: ChunkId, k: nat, i: ChunkId)
    requires k < |parts|
    ensures i in AddedRows(split, parts, nextId, k) <==> nextId <= i < nextId + k
    ensures nextId <= i < nextId + k ==> AddedRows(split, parts, nextId, k)[i] == AddedRow(split, parts, i - nextId + 1)
  {
    hide AddedRow;
    if k > 0 {
      AddedRowsAt(split, parts, nextId, k - 1, i);
    }
  }

  lemma SplitRowAt(rows: map<ChunkId, Row>, id: ChunkId, parts: seq<Text>, nextId: ChunkId, i: ChunkId)
    requires id in rows && |parts| >= 2
    requires forall j <- rows :: j < nextId
    ensures i in SplitRows(rows, id, parts, nextId) <==> i in rows || nextId <= i < nextId + |parts| - 1
    ensures i in rows ==> SplitRows(rows, id, parts, nextId)[i] == ShiftedRow(rows[id], parts, i == id, rows[i])
    ensures nextId <= i < nextId + |parts| - 1
            ==> SplitRows(rows, id, parts, nextId)[i] == AddedRow(rows[id], parts, i - nextId + 1)
  {
    hide EstimateTokens, AddedRows, AddedRow;
    AddedRowsAt(rows[id], parts, nextId, |parts| - 1, i);
    AddedRowsAt(rows[id], parts, nextId, |parts| - 1, id);
  }

  /** A row that was there before the split. */
  function ShiftedRow(split: Row, parts: seq<Text>, isSplit: bool, row: Row): Row
    requires |parts| >= 2
  {
    if isSplit then FirstPartRow(split, parts)
    else if row.chunkIndex > split.chunkIndex then row.(chunkIndex := row.chunkIndex + |parts| - 1)
    else row
  }

  lemma PlaceOf(st: Store, id: ChunkId)
    requires Valid(st) && id in st.rows
    ensures st.rows[id].chunkIndex < |st.order| && st.order[st.rows[id].chunkIndex] == id < st.nextId
  {
  }

  lemma IdAt(st: Store, k: nat)
    requires Valid(st) && k < |st.order|
    ensures st.order[k] in st.rows && st.rows[st.order[k]].chunkIndex == k && st.order[k] < st.nextId
  {
  }

  lemma IdsAreFresh(st: Store)
    requires Valid(st)
    ensures forall j <- st.rows :: j < st.nextId
  {
  }

  lemma SplitIndexAt(st: Store, id: ChunkId, parts: seq<Text>, k: nat)
    requires Valid(st) && id in st.rows && |parts| >= 2
    requires st.rows[id].chunkIndex < |st.order| && k < |st.order| + |parts| - 1
    ensures var rows' := SplitRows(st.rows, id, parts, st.nextId);
      var order' := Insert(st.order, st.rows[id].chunkIndex + 1, NewIds(st.nextId, |parts| - 1));
      && |order'| == |st.order| + |parts| - 1
      && order'[k] in rows' && rows'[order'[k]].chunkIndex == k
  {
    hide Valid, SplitRows, Insert, EstimateTokens;
    var c, extra := st.rows[id].chunkIndex, |parts| - 1;
    var added := NewIds(st.nextId, extra);
    PlaceOf(st, id);
    IdsAreFresh(st);
    InsertAt(st.order, c + 1, added, k);
    var i := Insert(st.order, c + 1, added)[k];
    SplitRowAt(st.rows, id, parts, st.nextId, i);
    if k <= c {
      IdAt(st, k);
    } else if k > c + extra {
      IdAt(st, k - extra);
    }
  }

  lemma SplitPlaceOf(st: Store, id: ChunkId, parts: seq<Text>, i: ChunkId)
    requires Valid(st) && id in st.rows && |parts| >= 2
    requires st.rows[id].chunkIndex < |st.order| && i in SplitRows(st.rows, id, parts, st.nextId)
    ensures var rows' := SplitRows(st.rows, id, parts, st.nextId);
      var order' := Insert(st.order, st.rows[id].chunkIndex + 1, NewIds(st.nextId, |parts| - 1));
      && |order'| == |st.order| + |parts| - 1
      && rows'[i].chunkIndex < |order'| && order'[rows'[i].chunkIndex] == i
      && i < st.nextId + |parts| - 1
  {
    hide Valid, SplitRows, Insert, EstimateTokens;
    var c, extra := st.rows[id].chunkIndex, |parts| - 1;
    var added := NewIds(st.nextId, extra);
    PlaceOf(st, id);
    IdsAreFresh(st);
    SplitRowAt(st.rows, id, parts, st.nextId, i);
    var k := SplitRows(st.rows, id, parts, st.nextId)[i].chunkIndex;
    if i in st.rows {
      PlaceOf(st, i);
      if i != id && st.rows[i].chunkIndex == c {
        assert false;
      }
    }
    InsertAt(st.order, c + 1, added, k);
  }

  /** Splitting a row opens a gap of exactly the right size in the indexes. */
  lemma SplitIsValid(st: Store, id: ChunkId, parts: seq<Text>)
    requires Valid(st) && id in st.rows && |parts| >= 2
    requires st.rows[id].chunkIndex < |st.order|
    ensures Valid(st.(rows := SplitRows(st.rows, id, parts, st.nextId),
                      order := Insert(st.order, st.rows[id].chunkIndex + 1, NewIds(st.nextId, |parts| - 1)),
                      nextId := st.nextId + |parts| - 1))
  {
    hide SplitRows, Insert, NewIds;
    var rows' := SplitRows(st.rows, id, parts, st.nextId);
    var order' := Insert(st.order, st.rows[id].chunkIndex + 1, NewIds(st.nextId, |parts| - 1));
    SplitIndexAt(st, id, parts, 0);
    forall k | 0 <= k < |order'| ensures order'[k] in rows' && rows'[order'[k]].chunkIndex == k {
      SplitIndexAt(st, id, parts, k);
    }
    forall i <- rows'
      ensures rows'[i].chunkIndex < |order'| && order'[rows'[i].chunkIndex] == i && i < st.nextId + |parts| - 1
    {
      SplitPlaceOf(st, id, parts, i);
    }
  }

  /** The weight that the parts of a split chunk carry. */
  function PartsWeight(parts: seq<Text>): int {
    if parts == [] then 0 else 7 * (2 * |parts[0]| - 1) + 3 + PartsWeight(parts[1..])
  }

  lemma {:induction false} PartsWeightIs(parts: seq<Text>)
    ensures PartsWeight(parts) == 14 * |Concat(parts)| - 4 * |parts|
    decreases |parts|
  {
    if parts != [] {
      PartsWeightIs(parts[1..]);
    }
  }

  /** Rows `ids` are open, unattempted and hold `parts`. */
  ghost predicate HoldParts(rows: map<ChunkId, Row>, ids: seq<ChunkId>, parts: seq<Text>) {
    && |ids| == |parts|
    && (forall i | 0 <= i < |ids| :: ids[i] in rows && rows[ids[i]].text == parts[i] != []
          && rows[ids[i]].status == PENDING && rows[ids[i]].attempts == 0)
  }

  lemma {:induction false} AlongParts(rows: map<ChunkId, Row>, ids: seq<ChunkId>, parts: seq<Text>)
    requires HoldParts(rows, ids, parts)
    ensures TextAlong(rows, ids) == Concat(parts)
    ensures WeightAlong(rows, ids) == PartsWeight(parts)
    ensures OpenAlong(rows, ids) == ids
    decreases |parts|
  {
    if parts != [] {
      AlongParts(rows, ids[1..], parts[1..]);
    }
  }

  /** The pieces of the order around a split chunk. */
  lemma OrderAround(st: Store, id: ChunkId)
    requires Valid(st) && id in st.rows
    ensures var c := st.rows[id].chunkIndex;
      && c < |st.order| && st.order == st.order[..c] + [id] + st.order[c + 1..]
      && (forall i <- st.order[..c] :: i in st.rows && i != id)
      && (forall i <- st.order[c + 1..] :: i in st.rows && i != id)
  {
    PlaceOf(st, id);
  }

  /** A split row: its own part, one more attempt, open again. */
  lemma SplitRowsKeep(st: Store, id: ChunkId, parts: seq<Text>)
    requires Valid(st) && id in st.rows && |parts| >= 2
    ensures var rows' := SplitRows(st.rows, id, parts, st.nextId);
      && id in rows' && rows'[id].text == parts[0] && rows'[id].status == PENDING
      && rows'[id].attempts == st.rows[id].attempts + 1
      && (forall i <- st.rows | i != id :: i in rows' && SameContent(rows'[i], st.rows[i]))
      && (forall i <- rows' :: i in st.rows || (st.nextId <= i && rows'[i].status == PENDING))
  {
    hide EstimateTokens, Valid, SplitRows, NewIds;
    IdsAreFresh(st);
    var rows' := SplitRows(st.rows, id, parts, st.nextId);
    SplitRowAt(st.rows, id, parts, st.nextId, id);
    forall i <- st.rows | i != id ensures i in rows' && SameContent(rows'[i], st.rows[i]) {
      SplitRowAt(st.rows, id, parts, st.nextId, i);
    }
    forall i <- rows' ensures i in st.rows || (st.nextId <= i && rows'[i].status == PENDING) {
      SplitRowAt(st.rows, id, parts, st.nextId, i);
    }
  }

  lemma SplitRowsHold(st: Store, id: ChunkId, parts: seq<Text>)
    requires Valid(st) && id in st.rows && |parts| >= 2
    requires forall p <- parts :: p != []
    ensures HoldParts(SplitRows(st.rows, id, parts, st.nextId), NewIds(st.nextId, |parts| - 1), parts[1..])
  {
    hide EstimateTokens, Valid, SplitRows;
    IdsAreFresh(st);
    var added := NewIds(st.nextId, |parts| - 1);
    var rows' := SplitRows(st.rows, id, parts, st.nextId);
    forall i | 0 <= i < |added|
      ensures added[i] in rows' && rows'[added[i]].text == parts[1..][i] != []
      ensures rows'[added[i]].status == PENDING && rows'[added[i]].attempts == 0
    {
      hide NewIds;
      var n := added[i];
      assert n == st.nextId + i;
      SplitRowAt(st.rows, id, parts, st.nextId, n);
      assert parts[i + 1] in parts;
    }
  }

  /** Replacing one open row by rows that hold its parts keeps the words, loses weight and
      leaves every part open in its place. */
  lemma ReplaceAlong(rows: map<ChunkId, Row>, rows': map<ChunkId, Row>,
                     before: seq<ChunkId>, id: ChunkId, added: seq<ChunkId>, after: seq<ChunkId>, parts: seq<Text>)
    requires forall i <- before :: i in rows && i in rows' && SameContent(rows[i], rows'[i])
    requires forall i <- after :: i in rows && i in rows' && SameContent(rows[i], rows'[i])
    requires id in rows && rows[id].Open() && |parts| >= 2
    requires Concat(parts) == rows[id].text && parts[0] != []
    requires id in rows' && rows'[id].status == PENDING && rows'[id].text == parts[0] && rows'[id].attempts == rows[id].attempts + 1
    requires HoldParts(rows', added, parts[1..])
    ensures TextAlong(rows', before + ([id] + added) + after) == TextAlong(rows, before + [id] + after)
    ensures WeightAlong(rows', before + ([id] + added) + after) < WeightAlong(rows, before + [id] + after)
    ensures OpenAlong(rows, before + [id] + after) == OpenAlong(rows, before) + [id] + OpenAlong(rows, after)
    ensures OpenAlong(rows', before + ([id] + added) + after)
         == OpenAlong(rows, before) + ([id] + added) + OpenAlong(rows, after)
  {
    AlongAgree(rows, rows', before);
    AlongAgree(rows, rows', after);
    hide SameContent, HoldParts, TextAlong, WeightAlong, OpenAlong, Weight, PartsWeight;
    AlongThree(rows, before, [id], after);
    AlongThree(rows', before, [id] + added, after);
    TextAppend(rows', [id], added);
    WeightAppend(rows', [id], added);
    OpenAppend(rows', [id], added);
    SingleAlong(rows, id);
    SingleAlong(rows', id);
    AlongParts(rows', added, parts[1..]);
    assert Concat(parts) == parts[0] + Concat(parts[1..]);
    SplitLightens(rows[id], rows'[id], parts);
  }

  lemma InsertAround(order: seq<ChunkId>, c: nat, id: ChunkId, added: seq<ChunkId>)
    requires c < |order| && order[c] == id
    ensures Insert(order, c + 1, added) == order[..c] + ([id] + added) + order[c + 1..]
  {
  }

  /** What a real split leaves along the order: the words, less weight, and all parts open. */
  lemma SplitAlong(st: Store, id: ChunkId, parts: seq<Text>)
    requires Valid(st) && id in st.rows && st.rows[id].Open() && |parts| >= 2
    requires st.rows[id].chunkIndex < |st.order|
    requires Concat(parts) == st.rows[id].text && forall p <- parts :: p != []
    ensures var c, added := st.rows[id].chunkIndex, NewIds(st.nextId, |parts| - 1);
      var rows' := SplitRows(st.rows, id, parts, st.nextId);
      var order' := Insert(st.order, c + 1, added);
      && TextAlong(rows', order') == TextAlong(st.rows, st.order)
      && WeightAlong(rows', order') < WeightAlong(st.rows, st.order)
      && OpenAlong(st.rows, st.order)
         == OpenAlong(st.rows, st.order[..c]) + [id] + OpenAlong(st.rows, st.order[c + 1..])
      && OpenAlong(rows', order')
         == OpenAlong(st.rows, st.order[..c]) + ([id] + added) + OpenAlong(st.rows, st.order[c + 1..])
  {
    hide *;
    var c := st.rows[id].chunkIndex;
    var rows', added := SplitRows(st.rows, id, parts, st.nextId), NewIds(st.nextId, |parts| - 1);
    var before, after := st.order[..c], st.order[c + 1..];
    PlaceOf(st, id);
    OrderAround(st, id);
    SplitRowsKeep(st, id, parts);
    SplitRowsHold(st, id, parts);
    InsertAround(st.order, c, id, added);
    assert parts[0] in parts;
    forall i <- before ensures i in st.rows && i in rows' && SameContent(st.rows[i], rows'[i]) {
      SameContentSym(st, rows', id, i);
    }
    forall i <- after ensures i in st.rows && i in rows' && SameContent(st.rows[i], rows'[i]) {
      SameContentSym(st, rows', id, i);
    }
    ReplaceAlong(st.rows, rows', before, id, added, after, parts);
  }

  lemma SameContentSym(st: Store, rows': map<ChunkId, Row>, id: ChunkId, i: ChunkId)
    requires i in st.rows && i != id
    requires forall j <- st.rows | j != id :: j in rows' && SameContent(rows'[j], st.rows[j])
    ensures i in rows' && SameContent(st.rows[i], rows'[i])
  {
  }

  /** Seven units a word pay for the fresh attempts of the new parts. */
  lemma SplitLightens(row: Row, first: Row, parts: seq<Text>)
    requires |parts| >= 2 && row.Open() && Concat(parts) == row.text && parts[0] != []
    requires first.text == parts[0] && first.attempts == row.attempts + 1
    ensures Weight(first) + PartsWeight(parts[1..]) < Weight(row)
  {
    PartsWeightIs(parts[1..]);
    assert Concat(parts) == parts[0] + Concat(parts[1..]);
  }

  lemma AlongThree(rows: map<ChunkId, Row>, a: seq<ChunkId>, b: seq<ChunkId>, c: seq<ChunkId>)
    ensures TextAlong(rows, a + b + c) == TextAlong(rows, a) + TextAlong(rows, b) + TextAlong(rows, c)
    ensures WeightAlong(rows, a + b + c) == WeightAlong(rows, a) + WeightAlong(rows, b) + WeightAlong(rows, c)
    ensures OpenAlong(rows, a + b + c) == OpenAlong(rows, a) + OpenAlong(rows, b) + OpenAlong(rows, c)
  {
    hide TextAlong, WeightAlong, OpenAlong;
    TextAppend(rows, a, b);
    TextAppend(rows, a + b, c);
    WeightAppend(rows, a, b);
    WeightAppend(rows, a + b, c);
    OpenAppend(rows, a, b);
    OpenAppend(rows, a + b, c);
  }

  lemma SingleAlong(rows: map<ChunkId, Row>, id: ChunkId)
    requires id in rows
    ensures TextAlong(rows, [id]) == rows[id].text
    ensures WeightAlong(rows, [id]) == Weight(rows[id])
    ensures OpenAlong(rows, [id]) == if rows[id].Open() then [id] else []
    ensures forall s :: CountStatus(rows, [id], s) == if rows[id].status == s then 1 else 0
  {
    assert [id][1..] == [];
  }

  /** The two outcomes of a split, in terms of the parts. */
  lemma SplitChunkIs(st: Store, id: ChunkId, caps: Capabilities)
    requires Valid(st) && id in st.rows
    ensures st.rows[id].chunkIndex < |st.order|
    ensures var parts := SplitText(st.rows[id].text, SaferMax(caps, st.rows[id].text));
      SplitChunk(st, id, caps) ==
        if |parts| <= 1 then
          (st.(rows := st.rows[id := st.rows[id].(status := FAILED, attempts := st.rows[id].attempts + 1)]), Outcome(0, 1))
        else
          (st.(rows := SplitRows(st.rows, id, parts, st.nextId),
               order := Insert(st.order, st.rows[id].chunkIndex + 1, NewIds(st.nextId, |parts| - 1)),
               nextId := st.nextId + |parts| - 1),
           Outcome(0, 0))
  {
    hide SplitRows, NewIds, SplitText, SaferMax;
  }

  lemma SplitGrowsStep(st: Store, id: ChunkId, parts: seq<Text>)
    requires Valid(st) && id in st.rows && st.rows[id].Open() && |parts| >= 2
    requires st.rows[id].chunkIndex < |st.order|
    requires Concat(parts) == st.rows[id].text && forall p <- parts :: p != []
    ensures BatchStep(
      st,
      st.(rows := SplitRows(st.rows, id, parts, st.nextId),
          order := Insert(st.order, st.rows[id].chunkIndex + 1, NewIds(st.nextId, |parts| - 1)),
          nextId := st.nextId + |parts| - 1),
      [id], Outcome(0, 0))
  {
    hide *;
    var st' := st.(rows := SplitRows(st.rows, id, parts, st.nextId),
                   order := Insert(st.order, st.rows[id].chunkIndex + 1, NewIds(st.nextId, |parts| - 1)),
                   nextId := st.nextId + |parts| - 1);
    SplitRowsKeep(st, id, parts);
    SplitIsValid(st, id, parts);
    SplitAlong(st, id, parts);
    ReopenedStep(st, st', id);
  }

  lemma ReopenedStep(st: Store, st': Store, id: ChunkId)
    requires Valid(st') && st.nextId <= st'.nextId && id in st.rows
    requires TextAlong(st'.rows, st'.order) == TextAlong(st.rows, st.order)
    requires WeightAlong(st'.rows, st'.order) < WeightAlong(st.rows, st.order)
    requires id in st'.rows && st'.rows[id].status == PENDING
    requires forall i <- st.rows | i != id :: i in st'.rows && SameContent(st'.rows[i], st.rows[i])
    requires forall i <- st'.rows :: i in st.rows || (st.nextId <= i && st'.rows[i].status == PENDING)
    ensures BatchStep(st, st', [id], Outcome(0, 0))
  {
    hide Valid, SameContent, TextAlong, WeightAlong;
    SingleAlong(st'.rows, id);
  }

  lemma SplitFailsStep(st: Store, id: ChunkId)
    requires Valid(st) && id in st.rows && st.rows[id].Open()
    ensures BatchStep(
      st, st.(rows := st.rows[id := st.rows[id].(status := FAILED, attempts := st.rows[id].attempts + 1)]),
      [id], Outcome(0, 1))
  {
    var rows' := st.rows[id := st.rows[id].(status := FAILED, attempts := st.rows[id].attempts + 1)];
    hide Valid, TextAlong, WeightAlong;
    SingleAlong(rows', id);
    RowUpdateStep(st, rows', [id]);
  }

  lemma SplitStep(st: Store, id: ChunkId, caps: Capabilities)
    requires Valid(st) && id in st.rows && st.rows[id].Open()
    ensures BatchStep(st, SplitChunk(st, id, caps).0, [id], SplitChunk(st, id, caps).1)
  {
    hide SplitChunk, SplitText, SplitRows, Insert, NewIds, Valid, BatchStep;
    var limit := SaferMax(caps, st.rows[id].text);
    var parts := SplitText(st.rows[id].text, limit);
    SplitTextIsSafe(st.rows[id].text, limit);
    PlaceOf(st, id);
    SplitChunkIs(st, id, caps);
    if |parts| <= 1 {
      SplitFailsStep(st, id);
    } else {
      SplitGrowsStep(st, id, parts);
    }
  }
}
