/** The loops of services/chunking.py, each proved to compute what Chunking specifies. */
module Chunker {
  import opened Words
  import opened Chunking
  import opened ChunkingProofs

  lemma {:induction false} SlicesStep(words: Text, start: nat, size: nat)
    requires size >= 1 && start < |words|
    ensures var end := Min(start + size, |words|);
      Slices(words[start..], size) == [words[start..end]] + Slices(words[end..], size)
  {
    if |words| - start > size {
      assert words[start..][..size] == words[start..start + size];
      assert words[start..][size..] == words[start + size..];
    } else {
      assert words[start..|words|] == words[start..];
    }
  }

  method WordSlices(words: Text, size: nat) returns (parts: seq<Text>)
    requires size >= 1
    ensures parts == Slices(words, size)
  {
    parts := [];
    var start := 0;
    while start < |words|
      invariant 0 <= start
      invariant parts + Slices(words[Min(start, |words|)..], size) == Slices(words, size)
      decreases |words| - start
    {
      SlicesStep(words, start, size);
      parts := parts + [words[start..Min(start + size, |words|)]];
      start := start + size;
    }
  }

  method SplitTextByTokens(text: Text, maxTokens: nat) returns (parts: seq<Text>)
    requires maxTokens >= 1
    ensures parts == SplitText(text, maxTokens)
  {
    hide EstimateTokens, Slices;
    if text == [] {
      return [];
    }
    if EstimateTokens(text) <= maxTokens {
      return [text];
    }
    var pieces := WordSlices(text, Max(1, 10 * maxTokens / 13));
    SplitTextIsSafe(text, maxTokens);
    hide SplitText;
    parts := [];
    for i := 0 to |pieces|
      invariant parts == pieces[..i]
    {
      assert pieces[i] in SplitText(text, maxTokens);
      if EstimateTokens(pieces[i]) <= maxTokens {
        parts := parts + [pieces[i]];
      } else {
        // The character window: no slice of at most WordsPerChunk words gets here.
        assert false;
      }
    }
  }

  method OverlapTail(blocks: seq<Block>, overlapTokens: int) returns (tail: seq<Block>)
    ensures tail == blocks[OverlapStart(blocks, overlapTokens)..]
    ensures IsOverlap(blocks, tail, overlapTokens)
  {
    hide IsOverlap, TailStart;
    TailIsOverlap(blocks, overlapTokens);
    tail := [];
    if blocks == [] {
      return;
    }
    var target := Max(1, overlapTokens);
    var running := 0;
    var k := |blocks|;
    while k > 0
      invariant 0 <= k <= |blocks|
      invariant tail == blocks[k..] && running == SumTokens(tail)
      invariant TailStart(blocks, target, |blocks|) == TailStart(blocks, target, k)
      invariant k < |blocks| ==> running < target
    {
      TailGrows(blocks, target, k);
      k := k - 1;
      tail := [blocks[k]] + tail;
      running := running + blocks[k].tokens;
      if running >= target {
        break;
      }
    }
  }

  lemma TailGrows(blocks: seq<Block>, target: int, k: nat)
    requires 0 < k <= |blocks|
    ensures [blocks[k - 1]] + blocks[k..] == blocks[k - 1..]
    ensures SumTokens(blocks[k - 1..]) == blocks[k - 1].tokens + SumTokens(blocks[k..])
    ensures TailStart(blocks, target, k) ==
      if k == 1 || SumTokens(blocks[k - 1..]) >= target then k - 1 else TailStart(blocks, target, k - 1)
  {
    assert blocks[k - 1..][1..] == blocks[k..];
  }

  lemma {:induction false} TextBlocksSnoc(page: int, parts: seq<Text>, isHeading: bool, last: Text)
    ensures TextBlocks(page, parts + [last], isHeading)
         == TextBlocks(page, parts, isHeading) + [Block(page, last, EstimateTokens(last), isHeading && parts == [])]
    decreases |parts|
  {
    if parts != [] {
      assert (parts + [last])[1..] == parts[1..] + [last];
      TextBlocksSnoc(page, parts[1..], false, last);
    }
  }

  method SplitBlocks(page: int, text: Text, isHeading: bool, maxTokens: nat) returns (blocks: seq<Block>)
    requires maxTokens >= 1
    ensures blocks == BlocksFromText(page, text, isHeading, maxTokens)
  {
    var tokens := EstimateTokens(text);
    if tokens <= maxTokens {
      return [Block(page, text, tokens, isHeading)];
    }
    var parts := SplitTextByTokens(text, maxTokens);
    blocks := [];
    for index := 0 to |parts|
      invariant blocks == TextBlocks(page, parts[..index], isHeading)
    {
      TextBlocksSnoc(page, parts[..index], isHeading, parts[index]);
      assert parts[..index] + [parts[index]] == parts[..index + 1];
      blocks := blocks + [Block(page, parts[index], EstimateTokens(parts[index]), isHeading && index == 0)];
    }
    assert parts[..|parts|] == parts;
  }

  lemma {:induction false} LineBlocksSnoc(page: int, lines: seq<Line>, last: Line, maxTokens: nat)
    ensures LineBlocks(page, lines + [last], maxTokens)
         == LineBlocks(page, lines, maxTokens)
            + (if last.text == [] then [] else BlocksFromText(page, last.text, last.heading, maxTokens))
  {
    if lines == [] {
      assert lines + [last] == [last] && [last][1..] == [];
    } else {
      assert (lines + [last])[1..] == lines[1..] + [last];
      LineBlocksSnoc(page, lines[1..], last, maxTokens);
    }
  }

  method SplitPageBlocks(page: int, lines: seq<Line>, maxTokens: nat) returns (blocks: seq<Block>)
    requires maxTokens >= 1
    ensures blocks == LineBlocks(page, lines, maxTokens)
  {
    blocks := [];
    for i := 0 to |lines|
      invariant blocks == LineBlocks(page, lines[..i], maxTokens)
    {
      LineBlocksSnoc(page, lines[..i], lines[i], maxTokens);
      assert lines[..i] + [lines[i]] == lines[..i + 1];
      if lines[i].text != [] {
        var more := SplitBlocks(page, lines[i].text, lines[i].heading, maxTokens);
        blocks := blocks + more;
      }
    }
    assert lines[..|lines|] == lines;
  }

  lemma {:induction false} PageBlocksSnoc(pages: seq<PageInput>, last: PageInput, maxTokens: nat)
    ensures PageBlocks(pages + [last], maxTokens)
         == PageBlocks(pages, maxTokens) + LineBlocks(last.pageNumber, last.lines, maxTokens)
  {
    if pages == [] {
      assert pages + [last] == [last] && [last][1..] == [];
    } else {
      assert (pages + [last])[1..] == pages[1..] + [last];
      PageBlocksSnoc(pages[1..], last, maxTokens);
    }
  }

  lemma {:induction false} DraftsSnoc(parts: seq<Text>, last: Text, a: int, b: int, index: nat)
    ensures Drafts(parts + [last], a, b, index)
         == Drafts(parts, a, b, index) + [ChunkDraft(a, b, last, EstimateTokens(last), index + |parts|)]
    decreases |parts|
  {
    if parts == [] {
      assert parts + [last] == [last] && [last][1..] == [];
    } else {
      assert (parts + [last])[1..] == parts[1..] + [last];
      DraftsSnoc(parts[1..], last, a, b, index + 1);
    }
  }

  /** The closure state of `chunk_pages`. */
  class ChunkBuilder {
    const limits: ChunkingLimits
    var chunks: seq<ChunkDraft>
    var current: seq<Block>
    var currentTokens: int
    var chunkIndex: nat
    ghost var lo: nat
    ghost var windows: seq<Window>

    ghost function View(): ChunkerState
      reads this
    {
      ChunkerState(chunks, current, currentTokens, chunkIndex, lo, windows)
    }

    constructor (limits: ChunkingLimits)
      ensures this.limits == limits && View() == INITIAL
    {
      this.limits := limits;
      chunks, current, currentTokens, chunkIndex := [], [], 0, 0;
      lo, windows := 0, [];
    }

    method Append(parts: seq<Text>, pageStart: int, pageEnd: int)
      modifies this`chunks, this`chunkIndex
      ensures chunks == old(chunks) + Drafts(parts, pageStart, pageEnd, old(chunkIndex))
      ensures chunkIndex == old(chunkIndex) + |parts|
    {
      for i := 0 to |parts|
        invariant chunks == old(chunks) + Drafts(parts[..i], pageStart, pageEnd, old(chunkIndex))
        invariant chunkIndex == old(chunkIndex) + i
      {
        DraftsSnoc(parts[..i], parts[i], pageStart, pageEnd, old(chunkIndex));
        assert parts[..i] + [parts[i]] == parts[..i + 1];
        chunks := chunks + [ChunkDraft(pageStart, pageEnd, parts[i], EstimateTokens(parts[i]), chunkIndex)];
        chunkIndex := chunkIndex + 1;
      }
      assert parts[..|parts|] == parts;
    }

    /** One draft, or several when the joined text overshoots. */
    method EmitText(text: Text, tokenCount: nat, pageStart: int, pageEnd: int)
      requires limits.maxTokens >= 1 && text != [] && tokenCount == EstimateTokens(text)
      modifies this`chunks, this`chunkIndex
      ensures chunks == old(chunks) + Drafts(SplitText(text, limits.maxTokens), pageStart, pageEnd, old(chunkIndex))
      ensures chunkIndex == old(chunkIndex) + |SplitText(text, limits.maxTokens)|
    {
      if tokenCount > limits.maxTokens {
        var parts := SplitTextByTokens(text, limits.maxTokens);
        Append(parts, pageStart, pageEnd);
      } else {
        assert Drafts([text], pageStart, pageEnd, chunkIndex)
            == [ChunkDraft(pageStart, pageEnd, text, tokenCount, chunkIndex)];
        chunks := chunks + [ChunkDraft(pageStart, pageEnd, text, tokenCount, chunkIndex)];
        chunkIndex := chunkIndex + 1;
      }
    }

    method FlushCurrent()
      requires limits.maxTokens >= 1
      modifies this
      ensures View() == Flush(limits, old(View()))
    {
      hide IsOverlap;
      if current == [] {
        return;
      }
      var text := Joined(current);
      ghost var emitted := Window(lo, lo + |current|);
      if text == [] {
        current, currentTokens := [], 0;
        lo, windows := emitted.hi, windows + [emitted];
        return;
      }
      var pageStart, pageEnd := current[0].page, current[|current| - 1].page;
      var tokenCount := EstimateTokens(text);
      EmitText(text, tokenCount, pageStart, pageEnd);
      lo, windows := lo + OverlapStart(current, limits.overlapTokens), windows + [emitted];
      current := OverlapTail(current, limits.overlapTokens);
      currentTokens := SumTokens(current);
    }

    method MakeRoom(block: Block)
      requires limits.maxTokens >= 1
      modifies this
      ensures View() == BeforeBlock(limits, old(View()), block)
    {
      hide Flush;
      if block.isHeading {
        if current != [] && currentTokens >= limits.minTokens {
          FlushCurrent();
        }
        if current != [] && current[|current| - 1].page != block.page {
          FlushCurrent();
        }
      }
      var prospective := currentTokens + block.tokens;
      if current != [] && prospective > limits.maxTokens {
        FlushCurrent();
      }
    }

    method TakeIn(block: Block)
      requires limits.maxTokens >= 1
      modifies this
      ensures View() == Step(limits, old(View()), block)
    {
      hide Flush, BeforeBlock, SplitText, Drafts;
      MakeRoom(block);
      ghost var ready := View();
      if block.tokens > limits.maxTokens {
        if current != [] {
          FlushCurrent();
        }
        var parts := SplitTextByTokens(block.text, limits.maxTokens);
        Append(parts, block.page, block.page);
        ghost var hi := lo + |current|;
        current, currentTokens := [], 0;
        lo, windows := hi + 1, windows + [Window(hi, hi + 1)];
        assert View() == EmitBlock(limits, ready, block);
        return;
      }
      current := current + [block];
      currentTokens := currentTokens + block.tokens;
      if currentTokens >= limits.targetMaxTokens || (currentTokens >= limits.targetMinTokens && block.isHeading) {
        FlushCurrent();
      }
      assert View() == TakeBlock(limits, ready, block);
    }

    method Close()
      requires limits.maxTokens >= 1
      modifies this
      ensures View() == Finish(limits, old(View()))
    {
      hide Flush, Joined;
      if current != [] {
        if chunks != [] && currentTokens < limits.minTokens {
          var last := chunks[|chunks| - 1];
          var mergedText := last.text + Joined(current);
          var mergedTokens := EstimateTokens(mergedText);
          if mergedTokens <= limits.maxTokens {
            var pageEnd := current[|current| - 1].page;
            chunks := chunks[..|chunks| - 1] + [ChunkDraft(last.pageNumber, pageEnd, mergedText, mergedTokens, last.chunkIndex)];
            windows := windows + [Window(lo, lo + |current|)];
          } else {
            FlushCurrent();
          }
        } else {
          FlushCurrent();
        }
      }
    }
  }

  /** Nothing lost, nothing too long, numbered in order: for every list of pages. */
  method ChunkAllPages(pages: seq<PageInput>, limits: ChunkingLimits) returns (chunks: seq<ChunkDraft>)
    requires limits.maxTokens >= 1
    ensures chunks == ChunkPages(limits, pages)
    ensures GoodChunks(limits, chunks)
    ensures AscendingPages(pages) ==> PagesAdvance(chunks)
    ensures PagesText(pages) == [] <==> chunks == []
  {
    var blocks: seq<Block> := [];
    for i := 0 to |pages|
      invariant blocks == PageBlocks(pages[..i], limits.maxTokens)
    {
      PageBlocksSnoc(pages[..i], pages[i], limits.maxTokens);
      assert pages[..i] + [pages[i]] == pages[..i + 1];
      var more := SplitPageBlocks(pages[i].pageNumber, pages[i].lines, limits.maxTokens);
      blocks := blocks + more;
    }
    assert pages[..|pages|] == pages;
    ChunkPagesBounded(limits, pages);
    if AscendingPages(pages) {
      ChunkPagesAdvance(limits, pages);
    }
    EmptyIffBlank(limits, pages);
    if blocks == [] {
      assert ChunkPages(limits, pages) == [];
      return [];
    }
    var builder := new ChunkBuilder(limits);
    for i := 0 to |blocks|
      invariant builder.limits == limits
      invariant builder.View() == Run(limits, blocks, i)
    {
      builder.TakeIn(blocks[i]);
    }
    builder.Close();
    chunks := builder.chunks;
  }

  /** Blank pages, and only blank pages, produce no chunk. */
  lemma EmptyIffBlank(limits: ChunkingLimits, pages: seq<PageInput>)
    requires limits.maxTokens >= 1
    ensures PagesText(pages) == [] <==> ChunkPages(limits, pages) == []
  {
    var blocks := PageBlocks(pages, limits.maxTokens);
    var ws := ChunkBlocks(limits, blocks).windows;
    ChunkPagesLosesNothing(limits, pages);
    ChunkPagesBounded(limits, pages);
    PageBlocksText(pages, limits.maxTokens);
    if blocks != [] {
      assert blocks[0] in blocks;
      assert ws != [];
      ChainBounds(ws, |blocks|);
      FirstWindowText(blocks, ws);
      assert Concat(Texts(ChunkPages(limits, pages))) != [];
    }
  }

  lemma {:induction false} FirstWindowText(blocks: seq<Block>, ws: seq<Window>)
    requires ws != [] && Chain(ws, |blocks|)
    requires forall b <- blocks :: b.text != []
    ensures forall w <- ws :: w.lo <= w.hi <= |blocks|
    ensures WindowsText(blocks, ws) != []
  {
    ChainBounds(ws, |blocks|);
    var w := ws[|ws| - 1];
    assert w in ws && w.lo < w.hi;
    assert blocks[w.lo..w.hi][0] == blocks[w.lo] && blocks[w.lo] in blocks;
  }
}
