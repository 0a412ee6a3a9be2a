/** What `chunk_pages` promises: nothing is lost, nothing is too long, and chunks are
    numbered and paged in order. */
module ChunkingProofs {
  import opened Words
  import opened Chunking

  // ------------------------------------------------------------ windows

  function End(ws: seq<Window>): nat {
    if ws == [] then 0 else ws[|ws| - 1].hi
  }

  /** Windows start at block 0, never leave a gap and never move back. */
  ghost predicate Chain(ws: seq<Window>, n: nat) {
    && (forall k | 0 <= k < |ws| :: ws[k].lo <= End(ws[..k]) <= ws[k].hi <= n)
    && (forall k | 0 <= k < |ws| :: ws[k].lo < ws[k].hi)
  }

  function WindowText(blocks: seq<Block>, w: Window): Text
    requires w.lo <= w.hi <= |blocks|
  {
    Joined(blocks[w.lo..w.hi])
  }

  /** All emissions read one after the other, overlaps included. */
  function WindowsText(blocks: seq<Block>, ws: seq<Window>): Text
    requires forall w <- ws :: w.lo <= w.hi <= |blocks|
  {
    if ws == [] then []
    else
      var init := ws[..|ws| - 1];
      assert ws[|ws| - 1] in ws && forall w <- init :: w in ws;
      WindowsText(blocks, init) + WindowText(blocks, ws[|ws| - 1])
  }

  /** Number of words at the front of a window that the previous window already emitted. */
  function OverlapWords(blocks: seq<Block>, w: Window, previousEnd: nat): nat
    requires w.lo <= previousEnd <= |blocks|
  {
    |Joined(blocks[w.lo..previousEnd])|
  }

  /** All emissions, each without the words it repeats from the one before. */
  ghost function WithoutOverlaps(blocks: seq<Block>, ws: seq<Window>): Text
    requires Chain(ws, |blocks|)
  {
    if ws == [] then []
    else
      var init, w := ws[..|ws| - 1], ws[|ws| - 1];
      ChainPrefix(ws, |blocks|);
      WindowSplits(blocks, w, End(init));
      WithoutOverlaps(blocks, init) + WindowText(blocks, w)[OverlapWords(blocks, w, End(init))..]
  }

  lemma ChainPrefix(ws: seq<Window>, n: nat)
    requires Chain(ws, n) && ws != []
    ensures Chain(ws[..|ws| - 1], n)
    ensures ws[|ws| - 1].lo <= End(ws[..|ws| - 1]) <= ws[|ws| - 1].hi <= n
  {
    var init := ws[..|ws| - 1];
    forall k | 0 <= k < |init| ensures init[..k] == ws[..k] && init[k] == ws[k] {
    }
  }

  lemma ChainExtend(ws: seq<Window>, w: Window, n: nat)
    requires Chain(ws, n) && w.lo <= End(ws) <= w.hi <= n && w.lo < w.hi
    ensures Chain(ws + [w], n)
  {
    var all := ws + [w];
    forall k | 0 <= k < |all| ensures all[k].lo <= End(all[..k]) <= all[k].hi <= n {
      if k < |ws| {
        assert all[..k] == ws[..k];
      } else {
        assert all[..k] == ws;
      }
    }
  }

  lemma ChainBounds(ws: seq<Window>, n: nat)
    requires Chain(ws, n)
    ensures forall w <- ws :: w.lo <= w.hi <= n
    ensures End(ws) <= n
  {
  }

  lemma WindowSplits(blocks: seq<Block>, w: Window, mid: nat)
    requires w.lo <= mid <= w.hi <= |blocks|
    ensures OverlapWords(blocks, w, mid) <= |WindowText(blocks, w)|
    ensures WindowText(blocks, w)[..OverlapWords(blocks, w, mid)] == Joined(blocks[w.lo..mid])
    ensures WindowText(blocks, w)[OverlapWords(blocks, w, mid)..] == Joined(blocks[mid..w.hi])
  {
    assert blocks[w.lo..w.hi] == blocks[w.lo..mid] + blocks[mid..w.hi];
    JoinedAppend(blocks[w.lo..mid], blocks[mid..w.hi]);
  }

  /** A gap-free chain of windows, read without its overlaps, is exactly the text it spans. */
  lemma {:induction false} ChainReadsBack(blocks: seq<Block>, ws: seq<Window>)
    requires Chain(ws, |blocks|)
    ensures WithoutOverlaps(blocks, ws) == Joined(blocks[..End(ws)])
    decreases |ws|
  {
    if ws != [] {
      hide Joined, WindowText, OverlapWords, Chain;
      var init, w := ws[..|ws| - 1], ws[|ws| - 1];
      ChainPrefix(ws, |blocks|);
      ChainReadsBack(blocks, init);
      WindowSplits(blocks, w, End(init));
      assert blocks[..w.hi] == blocks[..End(init)] + blocks[End(init)..w.hi];
      JoinedAppend(blocks[..End(init)], blocks[End(init)..w.hi]);
    }
  }

  lemma WindowsTextAppend(blocks: seq<Block>, ws: seq<Window>, w: Window)
    requires forall v <- ws :: v.lo <= v.hi <= |blocks|
    requires w.lo <= w.hi <= |blocks|
    ensures forall v <- ws + [w] :: v.lo <= v.hi <= |blocks|
    ensures WindowsText(blocks, ws + [w]) == WindowsText(blocks, ws) + WindowText(blocks, w)
  {
    assert (ws + [w])[..|ws|] == ws;
  }

  // ------------------------------------------------------------ coverage

  function Texts(chunks: seq<ChunkDraft>): seq<Text> {
    if chunks == [] then [] else [chunks[0].text] + Texts(chunks[1..])
  }

  lemma {:induction false} TextsAppend(a: seq<ChunkDraft>, b: seq<ChunkDraft>)
    ensures Texts(a + b) == Texts(a) + Texts(b)
  {
    if a == [] {
      assert a + b == b;
    } else {
      assert (a + b)[1..] == a[1..] + b;
      TextsAppend(a[1..], b);
    }
  }

  lemma {:induction false} DraftsAre(parts: seq<Text>, pageStart: int, pageEnd: int, index: nat)
    ensures var ds := Drafts(parts, pageStart, pageEnd, index);
      && |ds| == |parts| && Texts(ds) == parts
      && (forall k | 0 <= k < |ds| :: ds[k] == ChunkDraft(pageStart, pageEnd, parts[k], EstimateTokens(parts[k]), index + k))
    decreases |parts|
  {
    if parts != [] {
      DraftsAre(parts[1..], pageStart, pageEnd, index + 1);
      var ds := Drafts(parts, pageStart, pageEnd, index);
      assert ds[1..] == Drafts(parts[1..], pageStart, pageEnd, index + 1);
      assert Texts(ds) == [parts[0]] + parts[1..] == parts;
    }
  }

  /** The chunks hold exactly the text of a chain of windows. */
  ghost predicate Emitted(blocks: seq<Block>, chunks: seq<ChunkDraft>, ws: seq<Window>) {
    Chain(ws, |blocks|) && (ChainBounds(ws, |blocks|); Concat(Texts(chunks)) == WindowsText(blocks, ws))
  }

  lemma EmitWindow(blocks: seq<Block>, chunks: seq<ChunkDraft>, ws: seq<Window>, w: Window,
                   parts: seq<Text>, a: int, b: int, index: nat)
    requires Emitted(blocks, chunks, ws)
    requires w.lo <= End(ws) <= w.hi <= |blocks| && w.lo < w.hi
    requires Concat(parts) == WindowText(blocks, w)
    ensures Emitted(blocks, chunks + Drafts(parts, a, b, index), ws + [w])
  {
    hide Drafts;
    ChainExtend(ws, w, |blocks|);
    ChainBounds(ws, |blocks|);
    WindowsTextAppend(blocks, ws, w);
    DraftsAre(parts, a, b, index);
    TextsAppend(chunks, Drafts(parts, a, b, index));
    ConcatAppend(Texts(chunks), parts);
  }

  /** After `i` blocks `current` is blocks[lo..i) and it touches what was emitted. */
  ghost predicate Covers(blocks: seq<Block>, i: nat, st: ChunkerState) {
    && st.lo <= i <= |blocks|
    && st.current == blocks[st.lo..i]
    && st.currentTokens == SumTokens(st.current)
    && Emitted(blocks, st.chunks, st.windows)
    && st.lo <= End(st.windows) <= i
  }

  lemma FlushCovers(limits: ChunkingLimits, blocks: seq<Block>, i: nat, st: ChunkerState)
    requires limits.maxTokens >= 1
    requires Covers(blocks, i, st)
    ensures Covers(blocks, i, Flush(limits, st))
    ensures st.current != [] ==> End(Flush(limits, st).windows) == i
  {
    hide Emitted, Drafts, SplitText, SumTokens, Joined, OverlapStart;
    if st.current != [] {
      var w, text := Window(st.lo, i), Joined(st.current);
      var a, b := st.current[0].page, st.current[|st.current| - 1].page;
      SplitTextIsSafe(text, limits.maxTokens);
      EmitWindow(blocks, st.chunks, st.windows, w, SplitText(text, limits.maxTokens), a, b, st.chunkIndex);
      if text == [] {
        assert SumTokens([]) == 0 by { SumTokensEmpty(); }
        assert st.chunks + Drafts([], a, b, st.chunkIndex) == st.chunks by {
          DraftsAre([], a, b, st.chunkIndex);
        }
      }
    }
  }

  /** A flush carries over the overlap that was asked for, and counts its tokens. */
  lemma FlushCarriesOverlap(limits: ChunkingLimits, st: ChunkerState)
    requires limits.maxTokens >= 1 && Joined(st.current) != []
    ensures var kept := Flush(limits, st);
      IsOverlap(st.current, kept.current, limits.overlapTokens) && kept.currentTokens == SumTokens(kept.current)
  {
    TailIsOverlap(st.current, limits.overlapTokens);
    assert Joined([]) == [];
  }

  lemma SumTokensEmpty()
    ensures SumTokens([]) == 0 && Joined([]) == []
  {
  }

  lemma FlushIfCovers(cond: bool, limits: ChunkingLimits, blocks: seq<Block>, i: nat, st: ChunkerState)
    requires limits.maxTokens >= 1
    requires Covers(blocks, i, st)
    ensures Covers(blocks, i, FlushIf(cond, limits, st))
    ensures cond ==> End(FlushIf(cond, limits, st).windows) == i
  {
    hide Flush, Emitted;
    FlushCovers(limits, blocks, i, st);
  }

  lemma BeforeBlockCovers(limits: ChunkingLimits, blocks: seq<Block>, i: nat, st: ChunkerState, block: Block)
    requires limits.maxTokens >= 1
    requires Covers(blocks, i, st)
    ensures Covers(blocks, i, BeforeBlock(limits, st, block))
  {
    hide FlushIf, Covers;
    var c1 := block.isHeading && st.currentTokens >= limits.minTokens;
    FlushIfCovers(c1, limits, blocks, i, st);
    var s1 := FlushIf(c1, limits, st);
    var c2 := block.isHeading && s1.current != [] && s1.current[|s1.current| - 1].page != block.page;
    FlushIfCovers(c2, limits, blocks, i, s1);
    var s2 := FlushIf(c2, limits, s1);
    FlushIfCovers(s2.currentTokens + block.tokens > limits.maxTokens, limits, blocks, i, s2);
  }

  lemma OneBlock(block: Block)
    ensures Joined([block]) == block.text && SumTokens([block]) == block.tokens
  {
    assert [block][1..] == [];
  }

  lemma EmitBlockCovers(limits: ChunkingLimits, blocks: seq<Block>, i: nat, st: ChunkerState)
    requires limits.maxTokens >= 1
    requires i < |blocks| && Covers(blocks, i, st)
    ensures Covers(blocks, i + 1, EmitBlock(limits, st, blocks[i]))
  {
    hide FlushIf, Emitted, Drafts, SplitText, Joined, SumTokens;
    FlushIfCovers(true, limits, blocks, i, st);
    var s, w, text := FlushIf(true, limits, st), Window(i, i + 1), blocks[i].text;
    assert blocks[i..i + 1] == [blocks[i]];
    OneBlock(blocks[i]);
    SplitTextIsSafe(text, limits.maxTokens);
    EmitWindow(blocks, s.chunks, s.windows, w, SplitText(text, limits.maxTokens),
               blocks[i].page, blocks[i].page, s.chunkIndex);
    SumTokensEmpty();
  }

  /** `current` with the block appended, before it is checked against the targets. */
  function Taken(st: ChunkerState, block: Block): ChunkerState {
    st.(current := st.current + [block], currentTokens := st.currentTokens + block.tokens)
  }

  lemma TakenCovers(blocks: seq<Block>, i: nat, st: ChunkerState)
    requires i < |blocks| && Covers(blocks, i, st)
    ensures Covers(blocks, i + 1, Taken(st, blocks[i]))
  {
    hide Emitted, SumTokens, Joined;
    JoinedAppend(st.current, [blocks[i]]);
    OneBlock(blocks[i]);
    assert Taken(st, blocks[i]).current == blocks[st.lo..i + 1];
  }

  lemma TakeBlockCovers(limits: ChunkingLimits, blocks: seq<Block>, i: nat, st: ChunkerState)
    requires limits.maxTokens >= 1
    requires i < |blocks| && Covers(blocks, i, st)
    ensures Covers(blocks, i + 1, TakeBlock(limits, st, blocks[i]))
  {
    hide FlushIf, Covers;
    var taken := Taken(st, blocks[i]);
    TakenCovers(blocks, i, st);
    FlushIfCovers(
      taken.currentTokens >= limits.targetMaxTokens
      || (taken.currentTokens >= limits.targetMinTokens && blocks[i].isHeading), limits, blocks, i + 1, taken);
  }

  lemma StepCovers(limits: ChunkingLimits, blocks: seq<Block>, i: nat, st: ChunkerState)
    requires limits.maxTokens >= 1
    requires i < |blocks| && Covers(blocks, i, st)
    ensures Covers(blocks, i + 1, Step(limits, st, blocks[i]))
  {
    hide Covers, BeforeBlock, EmitBlock, TakeBlock;
    BeforeBlockCovers(limits, blocks, i, st, blocks[i]);
    var s := BeforeBlock(limits, st, blocks[i]);
    EmitBlockCovers(limits, blocks, i, s);
    TakeBlockCovers(limits, blocks, i, s);
  }

  lemma {:induction false} RunCovers(limits: ChunkingLimits, blocks: seq<Block>, n: nat)
    requires limits.maxTokens >= 1
    requires n <= |blocks|
    ensures Covers(blocks, n, Run(limits, blocks, n))
  {
    if n > 0 {
      RunCovers(limits, blocks, n - 1);
      StepCovers(limits, blocks, n - 1, Run(limits, blocks, n - 1));
    }
  }

  lemma {:induction false} ReplaceLastText(chunks: seq<ChunkDraft>, last: ChunkDraft, more: Text)
    requires chunks != [] && last.text == chunks[|chunks| - 1].text + more
    ensures Concat(Texts(chunks[..|chunks| - 1] + [last])) == Concat(Texts(chunks)) + more
  {
    var init := chunks[..|chunks| - 1];
    assert chunks == init + [chunks[|chunks| - 1]];
    TextsAppend(init, [last]);
    TextsAppend(init, [chunks[|chunks| - 1]]);
    assert Texts([last]) == [last.text] && Texts([chunks[|chunks| - 1]]) == [chunks[|chunks| - 1].text];
    ConcatAppend(Texts(init), [last.text]);
    ConcatAppend(Texts(init), [chunks[|chunks| - 1].text]);
    ConcatOne(last.text);
    ConcatOne(chunks[|chunks| - 1].text);
  }

  /** The final merge reads like one more emission. */
  lemma MergeEmits(blocks: seq<Block>, chunks: seq<ChunkDraft>, ws: seq<Window>, w: Window, last: ChunkDraft)
    requires chunks != [] && Emitted(blocks, chunks, ws)
    requires w.lo <= End(ws) <= w.hi <= |blocks| && w.lo < w.hi
    requires last.text == chunks[|chunks| - 1].text + WindowText(blocks, w)
    ensures Emitted(blocks, chunks[..|chunks| - 1] + [last], ws + [w])
  {
    ChainExtend(ws, w, |blocks|);
    ChainBounds(ws, |blocks|);
    WindowsTextAppend(blocks, ws, w);
    ReplaceLastText(chunks, last, WindowText(blocks, w));
  }

  lemma FinishCovers(limits: ChunkingLimits, blocks: seq<Block>, st: ChunkerState)
    requires limits.maxTokens >= 1
    requires Covers(blocks, |blocks|, st)
    ensures var out := Finish(limits, st);
      Emitted(blocks, out.chunks, out.windows) && End(out.windows) == |blocks|
  {
    hide Flush, Emitted, Joined, SumTokens;
    FlushCovers(limits, blocks, |blocks|, st);
    if st.current != [] && st.chunks != [] && st.currentTokens < limits.minTokens {
      var last := st.chunks[|st.chunks| - 1];
      var merged := last.text + Joined(st.current);
      if EstimateTokens(merged) <= limits.maxTokens {
        MergeEmits(
          blocks, st.chunks, st.windows, Window(st.lo, |blocks|),
          last.(pageEnd := st.current[|st.current| - 1].page, text := merged, tokenCount := EstimateTokens(merged)));
      }
    }
  }

  /** `chunk_pages` loses nothing: the chunks, read in order, are the text of a chain of block
      windows that starts at the first block, ends at the last and leaves no gap; without the
      words each window repeats from the one before, they are the words of the pages. */
  lemma ChunkPagesLosesNothing(limits: ChunkingLimits, pages: seq<PageInput>)
    requires limits.maxTokens >= 1
    ensures var blocks := PageBlocks(pages, limits.maxTokens);
      var ws := ChunkBlocks(limits, blocks).windows;
      && Emitted(blocks, ChunkPages(limits, pages), ws)
      && End(ws) == |blocks|
      && WithoutOverlaps(blocks, ws) == PagesText(pages)
  {
    var blocks := PageBlocks(pages, limits.maxTokens);
    RunCovers(limits, blocks, |blocks|);
    FinishCovers(limits, blocks, Run(limits, blocks, |blocks|));
    ChainReadsBack(blocks, ChunkBlocks(limits, blocks).windows);
    PageBlocksText(pages, limits.maxTokens);
    assert blocks[..|blocks|] == blocks;
  }

  // ------------------------------------------------------------ what a chunk records

  /** The chunks added by a flush are pieces of the joined text, in order, each with the pages of the
      first and the last block; what was there stays. */
  lemma FlushRecords(limits: ChunkingLimits, st: ChunkerState)
    requires limits.maxTokens >= 1 && Joined(st.current) != []
    ensures var out := Flush(limits, st).chunks;
      var added := out[|st.chunks|..];
      && st.chunks <= out && added != [] && Concat(Texts(added)) == Joined(st.current)
      && forall c <- added :: c.pageNumber == st.current[0].page && c.pageEnd == st.current[|st.current| - 1].page
  {
    hide SumTokens, OverlapStart, EstimateTokens;
    var text := Joined(st.current);
    var a, b := st.current[0].page, st.current[|st.current| - 1].page;
    SplitTextIsSafe(text, limits.maxTokens);
    DraftsAre(SplitText(text, limits.maxTokens), a, b, st.chunkIndex);
    var out := Flush(limits, st).chunks;
    assert out[|st.chunks|..] == Drafts(SplitText(text, limits.maxTokens), a, b, st.chunkIndex);
  }

  /** A remainder that is merged makes the last chunk end on its last page, and leaves the others. */
  lemma MergeRecords(limits: ChunkingLimits, st: ChunkerState)
    requires limits.maxTokens >= 1 && st.current != [] && st.chunks != [] && st.currentTokens < limits.minTokens
    requires EstimateTokens(st.chunks[|st.chunks| - 1].text + Joined(st.current)) <= limits.maxTokens
    ensures var out, last, k := Finish(limits, st).chunks, st.chunks[|st.chunks| - 1], |st.chunks| - 1;
      && |out| == |st.chunks| && out[..k] == st.chunks[..k] && out[k].text == last.text + Joined(st.current)
      && out[k].pageNumber == last.pageNumber && out[k].pageEnd == st.current[|st.current| - 1].page
      && out[k].chunkIndex == last.chunkIndex && out[k].tokenCount == EstimateTokens(out[k].text)
  {
  }

  // ------------------------------------------------------------ bounds and numbering

  ghost predicate GoodChunks(limits: ChunkingLimits, chunks: seq<ChunkDraft>) {
    forall k | 0 <= k < |chunks| ::
      && chunks[k].chunkIndex == k
      && chunks[k].text != []
      && chunks[k].tokenCount == EstimateTokens(chunks[k].text) <= limits.maxTokens
  }

  ghost predicate Bounded(limits: ChunkingLimits, st: ChunkerState) {
    st.chunkIndex == |st.chunks| && GoodChunks(limits, st.chunks)
  }

  lemma AppendDraftsBounded(limits: ChunkingLimits, st: ChunkerState, text: Text, a: int, b: int)
    requires limits.maxTokens >= 1 && Bounded(limits, st)
    ensures var parts := SplitText(text, limits.maxTokens);
      GoodChunks(limits, st.chunks + Drafts(parts, a, b, st.chunkIndex))
      && |Drafts(parts, a, b, st.chunkIndex)| == |parts|
  {
    SplitTextIsSafe(text, limits.maxTokens);
    DraftsAre(SplitText(text, limits.maxTokens), a, b, st.chunkIndex);
  }

  lemma FlushIfBounded(cond: bool, limits: ChunkingLimits, st: ChunkerState)
    requires limits.maxTokens >= 1 && Bounded(limits, st)
    ensures Bounded(limits, FlushIf(cond, limits, st))
  {
    hide GoodChunks, Drafts, SplitText, Joined, SumTokens, OverlapStart;
    if st.current != [] {
      AppendDraftsBounded(limits, st, Joined(st.current), st.current[0].page, st.current[|st.current| - 1].page);
    }
  }

  lemma StepBounded(limits: ChunkingLimits, st: ChunkerState, block: Block)
    requires limits.maxTokens >= 1 && Bounded(limits, st)
    ensures Bounded(limits, Step(limits, st, block))
  {
    hide FlushIf, GoodChunks, Drafts, SplitText;
    var c1 := block.isHeading && st.currentTokens >= limits.minTokens;
    FlushIfBounded(c1, limits, st);
    var s1 := FlushIf(c1, limits, st);
    var c2 := block.isHeading && s1.current != [] && s1.current[|s1.current| - 1].page != block.page;
    FlushIfBounded(c2, limits, s1);
    var s2 := FlushIf(c2, limits, s1);
    FlushIfBounded(s2.currentTokens + block.tokens > limits.maxTokens, limits, s2);
    var s := BeforeBlock(limits, st, block);
    if block.tokens > limits.maxTokens {
      FlushIfBounded(true, limits, s);
      AppendDraftsBounded(limits, FlushIf(true, limits, s), block.text, block.page, block.page);
    } else {
      var taken := s.(current := s.current + [block], currentTokens := s.currentTokens + block.tokens);
      FlushIfBounded(
        taken.currentTokens >= limits.targetMaxTokens
        || (taken.currentTokens >= limits.targetMinTokens && block.isHeading), limits, taken);
    }
  }

  lemma {:induction false} RunBounded(limits: ChunkingLimits, blocks: seq<Block>, n: nat)
    requires limits.maxTokens >= 1
    requires n <= |blocks|
    ensures Bounded(limits, Run(limits, blocks, n))
  {
    if n > 0 {
      RunBounded(limits, blocks, n - 1);
      StepBounded(limits, Run(limits, blocks, n - 1), blocks[n - 1]);
    }
  }

  /** No chunk is empty or over the limit, each records its own estimate,
      and chunk i carries chunk_index i. */
  lemma ChunkPagesBounded(limits: ChunkingLimits, pages: seq<PageInput>)
    requires limits.maxTokens >= 1
    ensures GoodChunks(limits, ChunkPages(limits, pages))
  {
    hide Run, Flush, Joined;
    var blocks := PageBlocks(pages, limits.maxTokens);
    var st := Run(limits, blocks, |blocks|);
    RunBounded(limits, blocks, |blocks|);
    FlushIfBounded(true, limits, st);
  }

  // ------------------------------------------------------------ page ranges

  /** Page ranges are proper and neither end ever moves backwards. */
  ghost predicate PagesAdvance(chunks: seq<ChunkDraft>) {
    && (forall k | 0 <= k < |chunks| :: chunks[k].pageNumber <= chunks[k].pageEnd)
    && (forall k, l | 0 <= k < l < |chunks| ::
          chunks[k].pageNumber <= chunks[l].pageNumber && chunks[k].pageEnd <= chunks[l].pageEnd)
  }

  ghost predicate PagesUpTo(blocks: seq<Block>, chunks: seq<ChunkDraft>, lo: nat, last: int) {
    && PagesAdvance(chunks)
    && (forall c <- chunks, j | lo <= j < |blocks| :: c.pageNumber <= blocks[j].page)
    && (forall c <- chunks, j | last <= j < |blocks| && 0 <= j :: c.pageEnd <= blocks[j].page)
  }

  /** No chunk starts after the page of block `lo` or ends after that of block `i - 1`. */
  ghost predicate Paged(blocks: seq<Block>, i: nat, st: ChunkerState) {
    PagesUpTo(blocks, st.chunks, st.lo, i - 1)
  }

  lemma PagesLater(blocks: seq<Block>, chunks: seq<ChunkDraft>, lo: nat, last: int, lo': nat, last': int)
    requires PagesUpTo(blocks, chunks, lo, last) && lo <= lo' && last <= last'
    ensures PagesUpTo(blocks, chunks, lo', last')
  {
  }

  lemma DraftsAdvance(chunks: seq<ChunkDraft>, ds: seq<ChunkDraft>, a: int, b: int)
    requires PagesAdvance(chunks) && a <= b
    requires forall k | 0 <= k < |ds| :: ds[k].pageNumber == a && ds[k].pageEnd == b
    requires forall c <- chunks :: c.pageNumber <= a && c.pageEnd <= b
    ensures PagesAdvance(chunks + ds)
  {
    forall k, l | 0 <= k < l < |chunks + ds|
      ensures (chunks + ds)[k].pageNumber <= (chunks + ds)[l].pageNumber
      ensures (chunks + ds)[k].pageEnd <= (chunks + ds)[l].pageEnd
    {
      if k < |chunks| <= l {
        assert chunks[k] in chunks;
      }
    }
  }

  lemma AppendDraftsPaged(blocks: seq<Block>, chunks: seq<ChunkDraft>, lo: nat, last: int,
                          parts: seq<Text>, a: nat, b: nat, index: nat)
    requires AscendingBlocks(blocks)
    requires PagesUpTo(blocks, chunks, lo, last)
    requires lo <= a <= b < |blocks| && last <= b
    ensures PagesUpTo(blocks, chunks + Drafts(parts, blocks[a].page, blocks[b].page, index), a, b)
  {
    hide Drafts, EstimateTokens, PagesAdvance;
    var ds := Drafts(parts, blocks[a].page, blocks[b].page, index);
    DraftsAre(parts, blocks[a].page, blocks[b].page, index);
    assert forall k | 0 <= k < |ds| :: ds[k].pageNumber == blocks[a].page && ds[k].pageEnd == blocks[b].page;
    assert forall c <- chunks :: c.pageNumber <= blocks[a].page && c.pageEnd <= blocks[b].page;
    DraftsAdvance(chunks, ds, blocks[a].page, blocks[b].page);
    assert forall c <- chunks + ds :: c in chunks || c in ds;
  }

  lemma FlushIfPaged(cond: bool, limits: ChunkingLimits, blocks: seq<Block>, i: nat, st: ChunkerState)
    requires limits.maxTokens >= 1
    requires AscendingBlocks(blocks) && Covers(blocks, i, st) && Paged(blocks, i, st)
    ensures Paged(blocks, i, FlushIf(cond, limits, st))
  {
    hide PagesUpTo, Emitted, AscendingBlocks, Drafts, SplitText, Joined, SumTokens, OverlapStart;
    if st.current != [] {
      var text := Joined(st.current);
      if text == [] {
        PagesLater(blocks, st.chunks, st.lo, i - 1, i, i - 1);
      } else {
        var parts := SplitText(text, limits.maxTokens);
        var start := OverlapStart(st.current, limits.overlapTokens);
        AppendDraftsPaged(blocks, st.chunks, st.lo, i - 1, parts, st.lo, i - 1, st.chunkIndex);
        var chunks := st.chunks + Drafts(parts, blocks[st.lo].page, blocks[i - 1].page, st.chunkIndex);
        PagesLater(blocks, chunks, st.lo, i - 1, st.lo + start, i - 1);
      }
    }
  }

  lemma BeforeBlockPaged(limits: ChunkingLimits, blocks: seq<Block>, i: nat, st: ChunkerState, block: Block)
    requires limits.maxTokens >= 1
    requires AscendingBlocks(blocks) && Covers(blocks, i, st) && Paged(blocks, i, st)
    ensures Paged(blocks, i, BeforeBlock(limits, st, block))
  {
    hide FlushIf, Covers, Paged, AscendingBlocks;
    var c1 := block.isHeading && st.currentTokens >= limits.minTokens;
    FlushIfCovers(c1, limits, blocks, i, st);
    FlushIfPaged(c1, limits, blocks, i, st);
    var s1 := FlushIf(c1, limits, st);
    var c2 := block.isHeading && s1.current != [] && s1.current[|s1.current| - 1].page != block.page;
    FlushIfCovers(c2, limits, blocks, i, s1);
    FlushIfPaged(c2, limits, blocks, i, s1);
    var s2 := FlushIf(c2, limits, s1);
    FlushIfPaged(s2.currentTokens + block.tokens > limits.maxTokens, limits, blocks, i, s2);
  }

  lemma EmitBlockPaged(limits: ChunkingLimits, blocks: seq<Block>, i: nat, st: ChunkerState)
    requires limits.maxTokens >= 1
    requires AscendingBlocks(blocks) && i < |blocks| && Covers(blocks, i, st) && Paged(blocks, i, st)
    ensures Paged(blocks, i + 1, EmitBlock(limits, st, blocks[i]))
  {
    hide FlushIf, PagesUpTo, Emitted, AscendingBlocks, Drafts, SplitText;
    FlushIfCovers(true, limits, blocks, i, st);
    FlushIfPaged(true, limits, blocks, i, st);
    var s, parts := FlushIf(true, limits, st), SplitText(blocks[i].text, limits.maxTokens);
    AppendDraftsPaged(blocks, s.chunks, s.lo, i - 1, parts, i, i, s.chunkIndex);
    PagesLater(
      blocks, s.chunks + Drafts(parts, blocks[i].page, blocks[i].page, s.chunkIndex), i, i, i + 1, i);
  }

  lemma TakeBlockPaged(limits: ChunkingLimits, blocks: seq<Block>, i: nat, st: ChunkerState)
    requires limits.maxTokens >= 1
    requires AscendingBlocks(blocks) && i < |blocks| && Covers(blocks, i, st) && Paged(blocks, i, st)
    ensures Paged(blocks, i + 1, TakeBlock(limits, st, blocks[i]))
  {
    hide FlushIf, PagesUpTo, Emitted, AscendingBlocks, SumTokens, Joined;
    var block := blocks[i];
    var taken := st.(current := st.current + [block], currentTokens := st.currentTokens + block.tokens);
    JoinedAppend(st.current, [block]);
    OneBlock(block);
    assert taken.current == blocks[st.lo..i + 1];
    PagesLater(blocks, st.chunks, st.lo, i - 1, st.lo, i);
    FlushIfPaged(
      taken.currentTokens >= limits.targetMaxTokens
      || (taken.currentTokens >= limits.targetMinTokens && block.isHeading), limits, blocks, i + 1, taken);
  }

  lemma StepPaged(limits: ChunkingLimits, blocks: seq<Block>, i: nat, st: ChunkerState)
    requires limits.maxTokens >= 1
    requires AscendingBlocks(blocks) && i < |blocks| && Covers(blocks, i, st) && Paged(blocks, i, st)
    ensures Paged(blocks, i + 1, Step(limits, st, blocks[i]))
  {
    hide Covers, Paged, AscendingBlocks, BeforeBlock, EmitBlock, TakeBlock;
    BeforeBlockCovers(limits, blocks, i, st, blocks[i]);
    BeforeBlockPaged(limits, blocks, i, st, blocks[i]);
    var s := BeforeBlock(limits, st, blocks[i]);
    EmitBlockPaged(limits, blocks, i, s);
    TakeBlockPaged(limits, blocks, i, s);
  }

  lemma {:induction false} RunPaged(limits: ChunkingLimits, blocks: seq<Block>, n: nat)
    requires limits.maxTokens >= 1
    requires AscendingBlocks(blocks) && n <= |blocks|
    ensures Paged(blocks, n, Run(limits, blocks, n))
  {
    if n > 0 {
      RunPaged(limits, blocks, n - 1);
      RunCovers(limits, blocks, n - 1);
      StepPaged(limits, blocks, n - 1, Run(limits, blocks, n - 1));
    }
  }

  lemma MergePaged(blocks: seq<Block>, chunks: seq<ChunkDraft>, lo: nat, last: ChunkDraft)
    requires blocks != [] && chunks != []
    requires PagesUpTo(blocks, chunks, lo, |blocks| - 1)
    requires last.pageNumber == chunks[|chunks| - 1].pageNumber
    requires last.pageEnd == blocks[|blocks| - 1].page
    ensures PagesAdvance(chunks[..|chunks| - 1] + [last])
  {
    assert forall k | 0 <= k < |chunks| :: chunks[k] in chunks && chunks[k].pageEnd <= last.pageEnd;
  }

  lemma FinishPaged(limits: ChunkingLimits, blocks: seq<Block>, st: ChunkerState)
    requires limits.maxTokens >= 1
    requires AscendingBlocks(blocks) && Covers(blocks, |blocks|, st) && Paged(blocks, |blocks|, st)
    ensures PagesAdvance(Finish(limits, st).chunks)
  {
    hide Flush, PagesAdvance, AscendingBlocks, EstimateTokens, Joined, SumTokens;
    FlushIfPaged(true, limits, blocks, |blocks|, st);
    if st.current != [] && st.chunks != [] && Finish(limits, st) != Flush(limits, st) {
      MergePaged(blocks, st.chunks, st.lo, Finish(limits, st).chunks[|st.chunks| - 1]);
    }
  }

  /** For pages in ascending order every page range is proper and none moves backwards. */
  lemma ChunkPagesAdvance(limits: ChunkingLimits, pages: seq<PageInput>)
    requires limits.maxTokens >= 1
    requires AscendingPages(pages)
    ensures PagesAdvance(ChunkPages(limits, pages))
  {
    hide Run, Finish, Covers, Paged, PagesAdvance, AscendingPages, AscendingBlocks;
    var blocks := PageBlocks(pages, limits.maxTokens);
    PageBlocksAscend(pages, limits.maxTokens);
    RunCovers(limits, blocks, |blocks|);
    RunPaged(limits, blocks, |blocks|);
    FinishPaged(limits, blocks, Run(limits, blocks, |blocks|));
  }
}
