/** Structure-aware, token-safe chunking: the specification of services/chunking.py. */
module Chunking {
  import opened Words

  datatype ChunkingLimits = ChunkingLimits(
    targetMinTokens: int, targetMaxTokens: int, maxTokens: int, minTokens: int, overlapTokens: int)

  /** A line of a page, with the verdict of the heading pattern. */
  datatype Line = Line(text: Text, heading: bool)

  datatype PageInput = PageInput(pageNumber: int, lines: seq<Line>)

  datatype Block = Block(page: int, text: Text, tokens: int, isHeading: bool)

  datatype ChunkDraft = ChunkDraft(pageNumber: int, pageEnd: int, text: Text, tokenCount: nat, chunkIndex: nat)

  // ---------------------------------------------------------------- splitting

  /** `max(1, int(max_tokens / 1.3))`. */
  function WordsPerChunk(maxTokens: nat): nat {
    Max(1, 10 * maxTokens / 13)
  }

  /** Consecutive slices of `size` words; the last may be shorter. */
  function Slices(words: Text, size: nat): seq<Text>
    requires size >= 1
  {
    if words == [] then []
    else if |words| <= size then [words]
    else [words[..size]] + Slices(words[size..], size)
  }

  function SplitText(text: Text, maxTokens: nat): seq<Text> {
    if text == [] then []
    else if EstimateTokens(text) <= maxTokens then [text]
    else Slices(text, WordsPerChunk(maxTokens))
  }

  lemma {:induction false} SlicesLossless(words: Text, size: nat)
    requires size >= 1
    ensures Concat(Slices(words, size)) == words
    decreases |words|
  {
    if words == [] {
    } else if |words| <= size {
      ConcatOne(words);
    } else {
      SlicesLossless(words[size..], size);
      assert Slices(words, size)[1..] == Slices(words[size..], size);
      assert words == words[..size] + words[size..];
    }
  }

  lemma {:induction false} SlicesBounded(words: Text, size: nat)
    requires size >= 1
    ensures forall k | 0 <= k < |Slices(words, size)| :: 0 < |Slices(words, size)[k]| <= size
    decreases |words|
  {
    if |words| > size {
      SlicesBounded(words[size..], size);
    }
  }

  /** floor(13 * floor(10 m / 13) / 10) never exceeds m. */
  lemma SliceEstimateFits(part: Text, maxTokens: nat)
    requires maxTokens >= 1
    requires |part| <= WordsPerChunk(maxTokens)
    ensures EstimateTokens(part) <= maxTokens
  {
    if |part| > 1 {
      assert 13 * |part| <= 10 * maxTokens;
    }
  }

  /** Splitting keeps every word in order and makes only pieces within the limit. */
  lemma SplitTextIsSafe(text: Text, maxTokens: nat)
    requires maxTokens >= 1
    ensures Concat(SplitText(text, maxTokens)) == text
    ensures forall p <- SplitText(text, maxTokens) :: p != [] && EstimateTokens(p) <= maxTokens
    ensures |SplitText(text, maxTokens)| >= 2 <==> EstimateTokens(text) > maxTokens
    ensures |SplitText(text, maxTokens)| == 0 <==> text == []
  {
    if text == [] {
    } else if EstimateTokens(text) <= maxTokens {
      ConcatOne(text);
    } else {
      var size := WordsPerChunk(maxTokens);
      SlicesLossless(text, size);
      SlicesBounded(text, size);
      forall p <- Slices(text, size) ensures p != [] && EstimateTokens(p) <= maxTokens {
        SliceEstimateFits(p, maxTokens);
      }
      if |text| <= size {
        SliceEstimateFits(text, maxTokens);
      }
    }
  }

  /** `int(max_tokens / 1.3)` words, and at least one. */
  predicate FullPiece(size: nat, maxTokens: nat) {
    if maxTokens < 2 then size == 1 else 13 * size <= 10 * maxTokens < 13 * (size + 1)
  }

  lemma {:induction false} SlicesFull(words: Text, size: nat, k: nat)
    requires size >= 1 && k < |Slices(words, size)|
    ensures if k < |Slices(words, size)| - 1 then |Slices(words, size)[k]| == size else |Slices(words, size)[k]| <= size
    decreases |words|
  {
    if |words| > size && k > 0 {
      SlicesFull(words[size..], size, k - 1);
    }
  }

  /** A text over the limit is cut into pieces of one size, that of a full piece; only the last one may
      be shorter. */
  lemma PiecesAreFull(text: Text, maxTokens: nat, k: nat)
    requires maxTokens >= 1 && EstimateTokens(text) > maxTokens && k < |SplitText(text, maxTokens)|
    ensures var parts := SplitText(text, maxTokens);
      if k < |parts| - 1 then FullPiece(|parts[k]|, maxTokens)
      else exists size: nat :: FullPiece(size, maxTokens) && |parts[k]| <= size
  {
    var size := WordsPerChunk(maxTokens);
    assert FullPiece(size, maxTokens);
    SlicesFull(text, size, k);
  }

  // ------------------------------------------------------- pages to blocks

  function TextBlocks(page: int, parts: seq<Text>, isHeading: bool): seq<Block> {
    if parts == [] then []
    else [Block(page, parts[0], EstimateTokens(parts[0]), isHeading)] + TextBlocks(page, parts[1..], false)
  }

  /** Only the first part of a split heading keeps the heading flag. */
  function BlocksFromText(page: int, text: Text, isHeading: bool, maxTokens: nat): seq<Block> {
    if EstimateTokens(text) <= maxTokens
    then [Block(page, text, EstimateTokens(text), isHeading)]
    else TextBlocks(page, SplitText(text, maxTokens), isHeading)
  }

  /** Blank lines only separate paragraphs, and paragraphs are flattened to their lines. */
  function LineBlocks(page: int, lines: seq<Line>, maxTokens: nat): seq<Block> {
    if lines == [] then []
    else
      (if lines[0].text == [] then [] else BlocksFromText(page, lines[0].text, lines[0].heading, maxTokens))
      + LineBlocks(page, lines[1..], maxTokens)
  }

  function PageBlocks(pages: seq<PageInput>, maxTokens: nat): seq<Block> {
    if pages == [] then []
    else LineBlocks(pages[0].pageNumber, pages[0].lines, maxTokens) + PageBlocks(pages[1..], maxTokens)
  }

  function LinesText(lines: seq<Line>): Text {
    if lines == [] then [] else lines[0].text + LinesText(lines[1..])
  }

  function PagesText(pages: seq<PageInput>): Text {
    if pages == [] then [] else LinesText(pages[0].lines) + PagesText(pages[1..])
  }

  function Joined(blocks: seq<Block>): Text {
    if blocks == [] then [] else blocks[0].text + Joined(blocks[1..])
  }

  function SumTokens(blocks: seq<Block>): int {
    if blocks == [] then 0 else blocks[0].tokens + SumTokens(blocks[1..])
  }

  lemma {:induction false} JoinedAppend(a: seq<Block>, b: seq<Block>)
    ensures Joined(a + b) == Joined(a) + Joined(b)
    ensures SumTokens(a + b) == SumTokens(a) + SumTokens(b)
  {
    if a == [] {
      assert a + b == b;
    } else {
      assert (a + b)[1..] == a[1..] + b;
      JoinedAppend(a[1..], b);
    }
  }

  ghost predicate WellFormedBlocks(blocks: seq<Block>, page: int) {
    forall b <- blocks :: b.text != [] && b.tokens == EstimateTokens(b.text) && b.page == page
  }

  lemma {:induction false} TextBlocksText(page: int, parts: seq<Text>, isHeading: bool)
    requires forall p <- parts :: p != []
    ensures Joined(TextBlocks(page, parts, isHeading)) == Concat(parts)
    ensures WellFormedBlocks(TextBlocks(page, parts, isHeading), page)
    decreases |parts|
  {
    if parts != [] {
      assert parts[0] in parts && forall p <- parts[1..] :: p in parts;
      TextBlocksText(page, parts[1..], false);
      var rest := TextBlocks(page, parts[1..], false);
      assert TextBlocks(page, parts, isHeading)[1..] == rest;
      assert forall b <- TextBlocks(page, parts, isHeading) :: b == TextBlocks(page, parts, isHeading)[0] || b in rest;
    }
  }

  lemma BlocksFromTextIs(page: int, text: Text, isHeading: bool, maxTokens: nat)
    requires maxTokens >= 1 && text != []
    ensures Joined(BlocksFromText(page, text, isHeading, maxTokens)) == text
    ensures WellFormedBlocks(BlocksFromText(page, text, isHeading, maxTokens), page)
  {
    if EstimateTokens(text) <= maxTokens {
      assert BlocksFromText(page, text, isHeading, maxTokens)[1..] == [];
    } else {
      hide SplitText, TextBlocks, Joined, EstimateTokens, WellFormedBlocks;
      SplitTextIsSafe(text, maxTokens);
      TextBlocksText(page, SplitText(text, maxTokens), isHeading);
    }
  }

  lemma {:induction false} LineBlocksText(page: int, lines: seq<Line>, maxTokens: nat)
    requires maxTokens >= 1
    ensures Joined(LineBlocks(page, lines, maxTokens)) == LinesText(lines)
    ensures WellFormedBlocks(LineBlocks(page, lines, maxTokens), page)
  {
    hide BlocksFromText;
    if lines != [] {
      LineBlocksText(page, lines[1..], maxTokens);
      var text, rest := lines[0].text, LineBlocks(page, lines[1..], maxTokens);
      if text == [] {
        assert LineBlocks(page, lines, maxTokens) == rest;
      } else {
        BlocksFromTextIs(page, text, lines[0].heading, maxTokens);
        JoinedAppend(BlocksFromText(page, text, lines[0].heading, maxTokens), rest);
      }
    }
  }

  /** Cutting pages into blocks keeps every word of the pages, in order. */
  lemma {:induction false} PageBlocksText(pages: seq<PageInput>, maxTokens: nat)
    requires maxTokens >= 1
    ensures Joined(PageBlocks(pages, maxTokens)) == PagesText(pages)
    ensures forall b <- PageBlocks(pages, maxTokens) :: b.text != [] && b.tokens == EstimateTokens(b.text)
  {
    if pages != [] {
      var first := LineBlocks(pages[0].pageNumber, pages[0].lines, maxTokens);
      LineBlocksText(pages[0].pageNumber, pages[0].lines, maxTokens);
      PageBlocksText(pages[1..], maxTokens);
      JoinedAppend(first, PageBlocks(pages[1..], maxTokens));
    }
  }

  /** No block of a page is blank or over the limit. */
  ghost predicate Fitting(blocks: seq<Block>, maxTokens: nat) {
    forall b <- blocks :: b.text != [] && b.tokens <= maxTokens
  }

  lemma {:induction false} TextBlocksFit(page: int, parts: seq<Text>, isHeading: bool, maxTokens: nat)
    requires forall p <- parts :: p != [] && EstimateTokens(p) <= maxTokens
    ensures Fitting(TextBlocks(page, parts, isHeading), maxTokens)
    decreases |parts|
  {
    if parts != [] {
      assert parts[0] in parts && forall p <- parts[1..] :: p in parts;
      TextBlocksFit(page, parts[1..], false, maxTokens);
    }
  }

  lemma {:induction false} LineBlocksFit(page: int, lines: seq<Line>, maxTokens: nat)
    requires maxTokens >= 1
    ensures Fitting(LineBlocks(page, lines, maxTokens), maxTokens)
  {
    if lines != [] {
      hide SplitText, TextBlocks;
      LineBlocksFit(page, lines[1..], maxTokens);
      SplitTextIsSafe(lines[0].text, maxTokens);
      TextBlocksFit(page, SplitText(lines[0].text, maxTokens), lines[0].heading, maxTokens);
    }
  }

  /** Every block that `chunk_pages` sees fits, so its branch for a block over the limit is not taken. */
  lemma {:induction false} PageBlocksFit(pages: seq<PageInput>, maxTokens: nat)
    requires maxTokens >= 1
    ensures Fitting(PageBlocks(pages, maxTokens), maxTokens)
  {
    if pages != [] {
      hide LineBlocks;
      LineBlocksFit(pages[0].pageNumber, pages[0].lines, maxTokens);
      PageBlocksFit(pages[1..], maxTokens);
    }
  }

  ghost predicate AscendingPages(pages: seq<PageInput>) {
    forall i, j | 0 <= i < j < |pages| :: pages[i].pageNumber <= pages[j].pageNumber
  }

  ghost predicate AscendingBlocks(blocks: seq<Block>) {
    forall i, j | 0 <= i < j < |blocks| :: blocks[i].page <= blocks[j].page
  }

  lemma {:induction false} PageBlocksAscend(pages: seq<PageInput>, maxTokens: nat)
    requires maxTokens >= 1
    requires AscendingPages(pages)
    ensures AscendingBlocks(PageBlocks(pages, maxTokens))
    ensures forall b <- PageBlocks(pages, maxTokens) :: pages != [] && pages[0].pageNumber <= b.page
  {
    if pages != [] {
      LineBlocksText(pages[0].pageNumber, pages[0].lines, maxTokens);
      PageBlocksAscend(pages[1..], maxTokens);
      assert forall j | 0 <= j < |pages[1..]| :: pages[1..][j] == pages[j + 1];
    }
  }

  // ------------------------------------------------------- the overlap tail

  /** First index of the overlap tail: walk back from `k` until the tail holds `target` tokens. */
  function TailStart(blocks: seq<Block>, target: int, k: nat): (start: nat)
    requires k <= |blocks|
    ensures start <= k
    ensures k > 0 ==> start < k
  {
    if k == 0 then 0
    else if k == 1 || SumTokens(blocks[k - 1..]) >= target then k - 1
    else TailStart(blocks, target, k - 1)
  }

  function OverlapStart(blocks: seq<Block>, overlapTokens: int): (start: nat)
    ensures start <= |blocks|
    ensures blocks != [] ==> start < |blocks|
  {
    TailStart(blocks, Max(1, overlapTokens), |blocks|)
  }

  /** The tail is the shortest nonempty suffix that reaches the overlap, or everything. */
  lemma {:induction false} TailIsShortest(blocks: seq<Block>, target: int, k: nat)
    requires k <= |blocks|
    ensures var s := TailStart(blocks, target, k);
      && (s == 0 || SumTokens(blocks[s..]) >= target)
      && (forall j | s < j < k :: SumTokens(blocks[j..]) < target)
    decreases k
  {
    if k > 1 && SumTokens(blocks[k - 1..]) < target {
      TailIsShortest(blocks, target, k - 1);
    }
  }

  /** `tail` is what is to be repeated at the start of the next chunk: whole blocks from the end, as few
      as reach `tokens`, and all blocks if they do not; at least one block, though. */
  ghost predicate IsOverlap(blocks: seq<Block>, tail: seq<Block>, tokens: int) {
    && |tail| <= |blocks| && tail == blocks[|blocks| - |tail|..]
    && (blocks != [] ==> tail != [])
    && (tail == blocks || SumTokens(tail) >= Max(1, tokens))
    && (forall j | |blocks| - |tail| < j <= |blocks| :: SumTokens(blocks[j..]) < Max(1, tokens))
  }

  lemma TailIsOverlap(blocks: seq<Block>, overlapTokens: int)
    ensures IsOverlap(blocks, blocks[OverlapStart(blocks, overlapTokens)..], overlapTokens)
  {
    TailIsShortest(blocks, Max(1, overlapTokens), |blocks|);
    assert blocks[|blocks|..] == [];
  }

  // ------------------------------------------------------- the chunker

  /** One emission: the blocks [lo, hi) that were joined into one run of text. */
  datatype Window = Window(lo: nat, hi: nat)

  /** The locals of `chunk_pages`. `lo` (block index of the first block of `current`) and
      `windows` (the emissions so far) are history: nothing else depends on them. */
  datatype ChunkerState = ChunkerState(
    chunks: seq<ChunkDraft>, current: seq<Block>, currentTokens: int, chunkIndex: nat,
    lo: nat, windows: seq<Window>)

  const INITIAL := ChunkerState([], [], 0, 0, 0, [])

  function Drafts(parts: seq<Text>, pageStart: int, pageEnd: int, index: nat): seq<ChunkDraft> {
    if parts == [] then []
    else [ChunkDraft(pageStart, pageEnd, parts[0], EstimateTokens(parts[0]), index)]
         + Drafts(parts[1..], pageStart, pageEnd, index + 1)
  }

  /** Emit `current` as one chunk, or as several when the joined estimate overshoots,
      and keep its overlap tail as the start of the next chunk. */
  function Flush(limits: ChunkingLimits, st: ChunkerState): ChunkerState
    requires limits.maxTokens >= 1
  {
    if st.current == [] then st
    else
      var hi := st.lo + |st.current|;
      var text := Joined(st.current);
      if text == [] then st.(current := [], currentTokens := 0, lo := hi, windows := st.windows + [Window(st.lo, hi)])
      else
        var parts := SplitText(text, limits.maxTokens);
        var start := OverlapStart(st.current, limits.overlapTokens);
        ChunkerState(
          st.chunks + Drafts(parts, st.current[0].page, st.current[|st.current| - 1].page, st.chunkIndex),
          st.current[start..],
          SumTokens(st.current[start..]),
          st.chunkIndex + |parts|,
          st.lo + start,
          st.windows + [Window(st.lo, hi)])
  }

  function FlushIf(cond: bool, limits: ChunkingLimits, st: ChunkerState): ChunkerState
    requires limits.maxTokens >= 1
  {
    if cond && st.current != [] then Flush(limits, st) else st
  }

  /** Flushes that a block forces before it is taken in. */
  function BeforeBlock(limits: ChunkingLimits, st: ChunkerState, block: Block): ChunkerState
    requires limits.maxTokens >= 1
  {
    var s1 := FlushIf(block.isHeading && st.currentTokens >= limits.minTokens, limits, st);
    var s2 := FlushIf(
      block.isHeading && s1.current != [] && s1.current[|s1.current| - 1].page != block.page, limits, s1);
    FlushIf(s2.currentTokens + block.tokens > limits.maxTokens, limits, s2)
  }

  /** A block over the limit becomes chunks of its own and resets the overlap. */
  function EmitBlock(limits: ChunkingLimits, st: ChunkerState, block: Block): ChunkerState
    requires limits.maxTokens >= 1
  {
    var s := FlushIf(true, limits, st);
    var hi := s.lo + |s.current|;
    var parts := SplitText(block.text, limits.maxTokens);
    ChunkerState(
      s.chunks + Drafts(parts, block.page, block.page, s.chunkIndex),
      [], 0, s.chunkIndex + |parts|, hi + 1, s.windows + [Window(hi, hi + 1)])
  }

  function TakeBlock(limits: ChunkingLimits, st: ChunkerState, block: Block): ChunkerState
    requires limits.maxTokens >= 1
  {
    var s := st.(current := st.current + [block], currentTokens := st.currentTokens + block.tokens);
    FlushIf(
      s.currentTokens >= limits.targetMaxTokens || (s.currentTokens >= limits.targetMinTokens && block.isHeading),
      limits, s)
  }

  function Step(limits: ChunkingLimits, st: ChunkerState, block: Block): ChunkerState
    requires limits.maxTokens >= 1
  {
    var s := BeforeBlock(limits, st, block);
    if block.tokens > limits.maxTokens then EmitBlock(limits, s, block) else TakeBlock(limits, s, block)
  }

  /** The state after the first `n` blocks. */
  function Run(limits: ChunkingLimits, blocks: seq<Block>, n: nat): ChunkerState
    requires limits.maxTokens >= 1
    requires n <= |blocks|
  {
    if n == 0 then INITIAL else Step(limits, Run(limits, blocks, n - 1), blocks[n - 1])
  }

  /** What is left is merged into the last chunk when it is small and fits, else flushed. */
  function Finish(limits: ChunkingLimits, st: ChunkerState): ChunkerState
    requires limits.maxTokens >= 1
  {
    if st.current == [] then st
    else if st.chunks != [] && st.currentTokens < limits.minTokens then
      var last := st.chunks[|st.chunks| - 1];
      var merged := last.text + Joined(st.current);
      if EstimateTokens(merged) <= limits.maxTokens then
        var hi := st.lo + |st.current|;
        st.(chunks := st.chunks[..|st.chunks| - 1]
                      + [last.(pageEnd := st.current[|st.current| - 1].page, text := merged,
                               tokenCount := EstimateTokens(merged))],
            windows := st.windows + [Window(st.lo, hi)])
      else Flush(limits, st)
    else Flush(limits, st)
  }

  function ChunkBlocks(limits: ChunkingLimits, blocks: seq<Block>): ChunkerState
    requires limits.maxTokens >= 1
  {
    Finish(limits, Run(limits, blocks, |blocks|))
  }

  function ChunkPages(limits: ChunkingLimits, pages: seq<PageInput>): seq<ChunkDraft>
    requires limits.maxTokens >= 1
  {
    ChunkBlocks(limits, PageBlocks(pages, limits.maxTokens)).chunks
  }
}
