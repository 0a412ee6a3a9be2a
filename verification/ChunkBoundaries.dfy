/** Where `chunk_pages` cuts: exactly at the headings, page changes and token targets that its rules
    name, except for a last boundary that the final merge takes back. An emission is one round of
    text that was flushed; it may be split into several chunks. */
module ChunkBoundaries {
  import opened Words
  import opened Chunking
  import opened ChunkingProofs

  /** An emission ends right before block `i`. */
  ghost predicate EndsAt(ws: seq<Window>, i: nat) {
    exists w <- ws :: w.hi == i
  }

  /** The first `m` emissions are the text of the chunks up to one of them. */
  ghost predicate Closes(blocks: seq<Block>, chunks: seq<ChunkDraft>, ws: seq<Window>, m: nat) {
    m <= |ws| && exists k: nat | k <= |chunks| :: Emitted(blocks, chunks[..k], ws[..m])
  }

  /** Every emission ends a chunk. */
  ghost predicate AllClose(blocks: seq<Block>, chunks: seq<ChunkDraft>, ws: seq<Window>) {
    forall m: nat | m <= |ws| :: Closes(blocks, chunks, ws, m)
  }

  /** A chunk ends right before block `i`: the chunks up to it are the emissions up to one that ends
      there. */
  ghost predicate CutAt(blocks: seq<Block>, chunks: seq<ChunkDraft>, ws: seq<Window>, i: nat) {
    exists m: nat | 0 < m <= |ws| :: ws[m - 1].hi == i && Closes(blocks, chunks, ws, m)
  }

  /** The text collected so far may not be joined by the block: a heading after enough text or on a
      new page, or a block that does not fit. */
  predicate MustCutBefore(limits: ChunkingLimits, st: ChunkerState, block: Block) {
    && st.current != []
    && (|| (block.isHeading && st.currentTokens >= limits.minTokens)
        || (block.isHeading && st.current[|st.current| - 1].page != block.page)
        || st.currentTokens + block.tokens > limits.maxTokens
        || block.tokens > limits.maxTokens)
  }

  /** The block fills what was carried over to the target, or is over the limit by itself. */
  predicate MustCutAfter(limits: ChunkingLimits, carried: int, block: Block) {
    || block.tokens > limits.maxTokens
    || carried + block.tokens >= limits.targetMaxTokens
    || (block.isHeading && carried + block.tokens >= limits.targetMinTokens)
  }

  /** Block `i` may not join the text before it. */
  predicate Refused(limits: ChunkingLimits, blocks: seq<Block>, i: nat)
    requires limits.maxTokens >= 1 && i < |blocks|
  {
    MustCutBefore(limits, Run(limits, blocks, i), blocks[i])
  }

  /** The block before `i` completes a chunk. */
  predicate Filled(limits: ChunkingLimits, blocks: seq<Block>, i: nat)
    requires limits.maxTokens >= 1 && i <= |blocks|
  {
    i > 0 && MustCutAfter(
      limits, BeforeBlock(limits, Run(limits, blocks, i - 1), blocks[i - 1]).currentTokens, blocks[i - 1])
  }

  /** Windows added between two states. */
  ghost function Added(st: ChunkerState, st': ChunkerState): seq<Window>
    requires st.windows <= st'.windows
  {
    st'.windows[|st.windows|..]
  }

  lemma FlushAdds(cond: bool, limits: ChunkingLimits, blocks: seq<Block>, i: nat, st: ChunkerState)
    requires limits.maxTokens >= 1 && Covers(blocks, i, st)
    ensures FlushIf(cond, limits, st).windows == st.windows + if cond && st.current != [] then [Window(st.lo, i)] else []
  {
    hide Emitted, Joined, SplitText, Drafts, SumTokens, OverlapStart;
  }

  /** Before a block is taken in, a window is closed exactly when a rule asks for it. */
  lemma BeforeCuts(limits: ChunkingLimits, blocks: seq<Block>, i: nat, st: ChunkerState, block: Block)
    requires limits.maxTokens >= 1 && Covers(blocks, i, st) && block.tokens <= limits.maxTokens
    ensures var s := BeforeBlock(limits, st, block);
      && st.windows <= s.windows && (forall w <- Added(st, s) :: w.hi == i)
      && (Added(st, s) != [] <==> MustCutBefore(limits, st, block))
  {
    hide FlushIf, Covers;
    var c1 := block.isHeading && st.currentTokens >= limits.minTokens;
    FlushIfCovers(c1, limits, blocks, i, st);
    FlushAdds(c1, limits, blocks, i, st);
    var s1 := FlushIf(c1, limits, st);
    var c2 := block.isHeading && s1.current != [] && s1.current[|s1.current| - 1].page != block.page;
    FlushIfCovers(c2, limits, blocks, i, s1);
    FlushAdds(c2, limits, blocks, i, s1);
    var s2 := FlushIf(c2, limits, s1);
    var c3 := s2.currentTokens + block.tokens > limits.maxTokens;
    FlushAdds(c3, limits, blocks, i, s2);
    if !c1 || st.current == [] {
      NoFlush(c1, limits, st);
    }
    if !c2 || s1.current == [] {
      NoFlush(c2, limits, s1);
    }
  }

  lemma NoFlush(cond: bool, limits: ChunkingLimits, st: ChunkerState)
    requires limits.maxTokens >= 1 && (!cond || st.current == [])
    ensures FlushIf(cond, limits, st) == st
  {
  }

  /** A block over the limit closes what was collected and becomes a window of its own. */
  lemma EmitCuts(limits: ChunkingLimits, blocks: seq<Block>, i: nat, st: ChunkerState)
    requires limits.maxTokens >= 1 && i < |blocks| && Covers(blocks, i, st)
    ensures EmitBlock(limits, st, blocks[i]).windows
         == st.windows + (if st.current != [] then [Window(st.lo, i)] else []) + [Window(i, i + 1)]
  {
    hide FlushIf, Emitted, Joined, SplitText, Drafts, SumTokens;
    FlushAdds(true, limits, blocks, i, st);
    FlushIfCovers(true, limits, blocks, i, st);
  }

  lemma TakeCuts(limits: ChunkingLimits, blocks: seq<Block>, i: nat, st: ChunkerState)
    requires limits.maxTokens >= 1 && i < |blocks| && Covers(blocks, i, st)
    requires blocks[i].tokens <= limits.maxTokens
    ensures TakeBlock(limits, st, blocks[i]).windows
         == st.windows + if MustCutAfter(limits, st.currentTokens, blocks[i]) then [Window(st.lo, i + 1)] else []
  {
    hide Emitted, Joined, SplitText, Drafts, SumTokens, OverlapStart;
  }

  lemma StepEnds(limits: ChunkingLimits, blocks: seq<Block>, i: nat, j: nat)
    requires limits.maxTokens >= 1 && i < |blocks|
    ensures var st, st' := Run(limits, blocks, i), Run(limits, blocks, i + 1);
      && st.windows <= st'.windows
      && (EndsAt(Added(st, st'), j) <==>
            || (j == i && MustCutBefore(limits, st, blocks[i]))
            || (j == i + 1 && MustCutAfter(limits, BeforeBlock(limits, st, blocks[i]).currentTokens, blocks[i])))
  {
    hide Run, Covers, BeforeBlock, EmitBlock, TakeBlock, MustCutBefore, MustCutAfter;
    var st := Run(limits, blocks, i);
    var s := BeforeBlock(limits, st, blocks[i]);
    RunCovers(limits, blocks, i);
    BeforeBlockCovers(limits, blocks, i, st, blocks[i]);
    RunStep(limits, blocks, i);
    if blocks[i].tokens <= limits.maxTokens {
      BeforeCuts(limits, blocks, i, st, blocks[i]);
      TakeCuts(limits, blocks, i, s);
      JoinCuts(st.windows, s.windows, Step(limits, st, blocks[i]).windows, i,
        if MustCutAfter(limits, s.currentTokens, blocks[i]) then [Window(s.lo, i + 1)] else [], j);
    } else {
      OverlongCuts(limits, blocks, i, st, j);
    }
  }

  lemma RunStep(limits: ChunkingLimits, blocks: seq<Block>, i: nat)
    requires limits.maxTokens >= 1 && i < |blocks|
    ensures Run(limits, blocks, i + 1) == Step(limits, Run(limits, blocks, i), blocks[i])
  {
  }

  lemma JoinCuts(ws: seq<Window>, mid: seq<Window>, all: seq<Window>, i: nat, last: seq<Window>, j: nat)
    requires ws <= mid && all == mid + last
    requires (forall w <- mid[|ws|..] :: w.hi == i) && (forall w <- last :: w.hi == i + 1)
    ensures ws <= all
    ensures EndsAt(all[|ws|..], j) <==> (j == i && mid[|ws|..] != []) || (j == i + 1 && last != [])
  {
    var between := mid[|ws|..];
    assert all[|ws|..] == between + last;
    assert between != [] ==> between[0] in between + last;
    assert last != [] ==> last[0] in between + last;
  }

  lemma OverlongCuts(limits: ChunkingLimits, blocks: seq<Block>, i: nat, st: ChunkerState, j: nat)
    requires limits.maxTokens >= 1 && i < |blocks| && Covers(blocks, i, st) && blocks[i].tokens > limits.maxTokens
    ensures var st' := Step(limits, st, blocks[i]);
      && st.windows <= st'.windows
      && (EndsAt(Added(st, st'), j) <==>
            || (j == i && MustCutBefore(limits, st, blocks[i]))
            || (j == i + 1 && MustCutAfter(limits, BeforeBlock(limits, st, blocks[i]).currentTokens, blocks[i])))
  {
    hide Covers, FlushIf, EmitBlock;
    var s := BeforeBlock(limits, st, blocks[i]);
    var between := FlushesBefore(limits, blocks, i, st, blocks[i]);
    BeforeBlockCovers(limits, blocks, i, st, blocks[i]);
    EmitCuts(limits, blocks, i, s);
    var mid := s.windows + if s.current != [] then [Window(s.lo, i)] else [];
    JoinCuts(st.windows, mid, Step(limits, st, blocks[i]).windows, i, [Window(i, i + 1)], j);
    assert mid[|st.windows|..] == between + if s.current != [] then [Window(s.lo, i)] else [];
  }

  lemma FlushOne(cond: bool, limits: ChunkingLimits, blocks: seq<Block>, i: nat, st: ChunkerState) returns (added: seq<Window>)
    requires limits.maxTokens >= 1 && Covers(blocks, i, st)
    ensures var s := FlushIf(cond, limits, st);
      && Covers(blocks, i, s) && s.windows == st.windows + added && (forall w <- added :: w.hi == i)
      && (added == [] ==> s == st) && (st.current == [] ==> added == [])
  {
    hide FlushIf, Covers;
    FlushIfCovers(cond, limits, blocks, i, st);
    FlushAdds(cond, limits, blocks, i, st);
    if !cond || st.current == [] {
      NoFlush(cond, limits, st);
    }
    added := if cond && st.current != [] then [Window(st.lo, i)] else [];
  }

  /** The windows closed before a block; if there are none, nothing has changed. */
  lemma FlushesBefore(limits: ChunkingLimits, blocks: seq<Block>, i: nat, st: ChunkerState, block: Block) returns (between: seq<Window>)
    requires limits.maxTokens >= 1 && Covers(blocks, i, st)
    ensures var s := BeforeBlock(limits, st, block);
      && s.windows == st.windows + between && (forall w <- between :: w.hi == i)
      && (between == [] ==> s == st) && (st.current == [] ==> between == [])
  {
    hide FlushIf, Covers;
    var c1 := block.isHeading && st.currentTokens >= limits.minTokens;
    var first := FlushOne(c1, limits, blocks, i, st);
    var s1 := FlushIf(c1, limits, st);
    var c2 := block.isHeading && s1.current != [] && s1.current[|s1.current| - 1].page != block.page;
    var second := FlushOne(c2, limits, blocks, i, s1);
    var s2 := FlushIf(c2, limits, s1);
    var third := FlushOne(s2.currentTokens + block.tokens > limits.maxTokens, limits, blocks, i, s2);
    between := first + second + third;
  }

  lemma EndsInParts(a: seq<Window>, b: seq<Window>, j: nat)
    ensures EndsAt(a + b, j) <==> EndsAt(a, j) || EndsAt(b, j)
  {
    assert forall w <- a :: w in a + b;
    assert forall w <- b :: w in a + b;
  }

  lemma StepEndsAt(limits: ChunkingLimits, blocks: seq<Block>, i: nat, j: nat)
    requires limits.maxTokens >= 1 && i < |blocks|
    ensures EndsAt(Run(limits, blocks, i + 1).windows, j) <==>
      || EndsAt(Run(limits, blocks, i).windows, j)
      || (j == i && Refused(limits, blocks, i))
      || (j == i + 1 && Filled(limits, blocks, i + 1))
  {
    hide Run, BeforeBlock, MustCutBefore, MustCutAfter, EndsAt;
    var st, st' := Run(limits, blocks, i), Run(limits, blocks, i + 1);
    StepEnds(limits, blocks, i, j);
    EndsInParts(st.windows, Added(st, st'), j);
    assert st.windows + Added(st, st') == st'.windows;
  }

  lemma NoneBeyond(limits: ChunkingLimits, blocks: seq<Block>, n: nat, i: nat)
    requires limits.maxTokens >= 1 && n <= |blocks| && n < i
    ensures !EndsAt(Run(limits, blocks, n).windows, i)
  {
    hide Run;
    RunCovers(limits, blocks, n);
    var ws := Run(limits, blocks, n).windows;
    forall k | 0 <= k < |ws| ensures ws[k].hi <= n {
      Ascend(ws, |blocks|, k, |ws| - 1);
    }
  }

  /** Some rule asks for a cut right before block `i`. */
  predicate Forced(limits: ChunkingLimits, blocks: seq<Block>, i: nat)
    requires limits.maxTokens >= 1 && i < |blocks|
  {
    Refused(limits, blocks, i) || Filled(limits, blocks, i)
  }

  // ------------------------------------------------------------ emissions end chunks

  lemma ClosesMore(blocks: seq<Block>, chunks: seq<ChunkDraft>, ws: seq<Window>, chunks': seq<ChunkDraft>, w: Window)
    requires AllClose(blocks, chunks, ws) && chunks <= chunks' && Emitted(blocks, chunks', ws + [w])
    ensures AllClose(blocks, chunks', ws + [w])
  {
    var ws' := ws + [w];
    forall m: nat | m <= |ws'| ensures Closes(blocks, chunks', ws', m) {
      if m <= |ws| {
        assert Closes(blocks, chunks, ws, m);
        var k: nat :| k <= |chunks| && Emitted(blocks, chunks[..k], ws[..m]);
        assert chunks'[..k] == chunks[..k] && ws'[..m] == ws[..m];
      } else {
        assert chunks'[..|chunks'|] == chunks' && ws'[..m] == ws';
      }
    }
  }

  lemma FlushIfCloses(cond: bool, limits: ChunkingLimits, blocks: seq<Block>, i: nat, st: ChunkerState)
    requires limits.maxTokens >= 1 && Covers(blocks, i, st) && AllClose(blocks, st.chunks, st.windows)
    ensures var s := FlushIf(cond, limits, st); AllClose(blocks, s.chunks, s.windows)
  {
    hide Emitted, AllClose, Joined, SplitText, Drafts, SumTokens, OverlapStart;
    FlushIfCovers(cond, limits, blocks, i, st);
    if cond && st.current != [] {
      ClosesMore(blocks, st.chunks, st.windows, FlushIf(cond, limits, st).chunks, Window(st.lo, i));
    }
  }

  lemma BeforeBlockCloses(limits: ChunkingLimits, blocks: seq<Block>, i: nat, st: ChunkerState, block: Block)
    requires limits.maxTokens >= 1 && Covers(blocks, i, st) && AllClose(blocks, st.chunks, st.windows)
    ensures var s := BeforeBlock(limits, st, block); AllClose(blocks, s.chunks, s.windows)
  {
    hide FlushIf, Covers, AllClose;
    var c1 := block.isHeading && st.currentTokens >= limits.minTokens;
    FlushIfCovers(c1, limits, blocks, i, st);
    FlushIfCloses(c1, limits, blocks, i, st);
    var s1 := FlushIf(c1, limits, st);
    var c2 := block.isHeading && s1.current != [] && s1.current[|s1.current| - 1].page != block.page;
    FlushIfCovers(c2, limits, blocks, i, s1);
    FlushIfCloses(c2, limits, blocks, i, s1);
    var s2 := FlushIf(c2, limits, s1);
    FlushIfCloses(s2.currentTokens + block.tokens > limits.maxTokens, limits, blocks, i, s2);
  }

  lemma EmitBlockCloses(limits: ChunkingLimits, blocks: seq<Block>, i: nat, st: ChunkerState)
    requires limits.maxTokens >= 1 && i < |blocks|
    requires Covers(blocks, i, st) && AllClose(blocks, st.chunks, st.windows)
    ensures var s := EmitBlock(limits, st, blocks[i]); AllClose(blocks, s.chunks, s.windows)
  {
    hide FlushIf, Emitted, AllClose, SplitText, Drafts, SumTokens, Joined;
    FlushIfCovers(true, limits, blocks, i, st);
    FlushIfCloses(true, limits, blocks, i, st);
    EmitBlockCovers(limits, blocks, i, st);
    var s := FlushIf(true, limits, st);
    ClosesMore(blocks, s.chunks, s.windows, EmitBlock(limits, st, blocks[i]).chunks, Window(i, i + 1));
  }

  lemma TakeBlockCloses(limits: ChunkingLimits, blocks: seq<Block>, i: nat, st: ChunkerState)
    requires limits.maxTokens >= 1 && i < |blocks|
    requires Covers(blocks, i, st) && AllClose(blocks, st.chunks, st.windows)
    ensures var s := TakeBlock(limits, st, blocks[i]); AllClose(blocks, s.chunks, s.windows)
  {
    hide Emitted, AllClose, Joined, SplitText, Drafts, SumTokens, OverlapStart;
    TakeBlockCovers(limits, blocks, i, st);
    var s := TakeBlock(limits, st, blocks[i]);
    if s.windows != st.windows {
      ClosesMore(blocks, st.chunks, st.windows, s.chunks, Window(st.lo, i + 1));
    }
  }

  /** After any number of blocks every emission so far ends a chunk. */
  lemma {:induction false} RunCloses(limits: ChunkingLimits, blocks: seq<Block>, n: nat)
    requires limits.maxTokens >= 1 && n <= |blocks|
    ensures var st := Run(limits, blocks, n); AllClose(blocks, st.chunks, st.windows)
  {
    if n == 0 {
      assert Emitted(blocks, [][..0], [][..0]);
    } else {
      hide Covers, AllClose, BeforeBlock, EmitBlock, TakeBlock;
      var st := Run(limits, blocks, n - 1);
      RunCloses(limits, blocks, n - 1);
      RunCovers(limits, blocks, n - 1);
      BeforeBlockCovers(limits, blocks, n - 1, st, blocks[n - 1]);
      BeforeBlockCloses(limits, blocks, n - 1, st, blocks[n - 1]);
      EmitBlockCloses(limits, blocks, n - 1, BeforeBlock(limits, st, blocks[n - 1]));
      TakeBlockCloses(limits, blocks, n - 1, BeforeBlock(limits, st, blocks[n - 1]));
    }
  }

  lemma ClosedCuts(blocks: seq<Block>, chunks: seq<ChunkDraft>, ws: seq<Window>, i: nat)
    requires AllClose(blocks, chunks, ws)
    ensures CutAt(blocks, chunks, ws, i) <==> EndsAt(ws, i)
  {
    hide Closes;
    if EndsAt(ws, i) {
      var k: nat :| k < |ws| && ws[k].hi == i;
      assert ws[k + 1 - 1].hi == i && Closes(blocks, chunks, ws, k + 1);
    }
  }

  /** One block further, the ends of chunks are those there were, one right before the block if a rule
      asks for it, and one right after it if a rule asks for that. */
  lemma StepCutsExactly(limits: ChunkingLimits, blocks: seq<Block>, i: nat, j: nat)
    requires limits.maxTokens >= 1 && i < |blocks|
    ensures var st, st' := Run(limits, blocks, i), Run(limits, blocks, i + 1);
      CutAt(blocks, st'.chunks, st'.windows, j) <==>
        || CutAt(blocks, st.chunks, st.windows, j)
        || (j == i && Refused(limits, blocks, i))
        || (j == i + 1 && Filled(limits, blocks, i + 1))
  {
    hide Run, Refused, Filled, AllClose, CutAt, EndsAt;
    var st, st' := Run(limits, blocks, i), Run(limits, blocks, i + 1);
    RunCloses(limits, blocks, i);
    RunCloses(limits, blocks, i + 1);
    ClosedCuts(blocks, st.chunks, st.windows, j);
    ClosedCuts(blocks, st'.chunks, st'.windows, j);
    StepEndsAt(limits, blocks, i, j);
  }

  // ------------------------------------------------------------ what the final merge takes back

  /** The guard of the final merge. */
  predicate Merges(limits: ChunkingLimits, st: ChunkerState) {
    && st.current != [] && st.chunks != [] && st.currentTokens < limits.minTokens
    && EstimateTokens(st.chunks[|st.chunks| - 1].text + Joined(st.current)) <= limits.maxTokens
  }

  /** The last emission ends right before block `i` and no other does. */
  predicate LastAlone(ws: seq<Window>, i: nat) {
    ws != [] && End(ws) == i && End(ws[..|ws| - 1]) != i
  }

  ghost predicate Visible(blocks: seq<Block>) {
    forall b <- blocks :: b.text != []
  }

  lemma {:induction false} JoinedVisible(blocks: seq<Block>)
    requires Visible(blocks) && blocks != []
    ensures Joined(blocks) != []
  {
    assert blocks[0].text != [];
  }

  lemma Ascend(ws: seq<Window>, n: nat, a: nat, b: nat)
    requires Chain(ws, n) && a <= b < |ws|
    ensures ws[a].hi <= ws[b].hi <= End(ws)
    decreases |ws| - a
  {
    if a < b {
      assert End(ws[..a + 1]) == ws[a].hi;
      Ascend(ws, n, a + 1, b);
    } else if b < |ws| - 1 {
      assert End(ws[..b + 1]) == ws[b].hi;
      Ascend(ws, n, b + 1, |ws| - 1);
    }
  }

  /** Where the emissions end after the first `n` blocks, by the rules alone. */
  lemma {:induction false} EndsExactly(limits: ChunkingLimits, blocks: seq<Block>, n: nat, i: nat)
    requires limits.maxTokens >= 1 && i <= n <= |blocks|
    ensures EndsAt(Run(limits, blocks, n).windows, i) <==> (i < n && Refused(limits, blocks, i)) || Filled(limits, blocks, i)
    decreases n
  {
    hide Run, Refused, Filled, EndsAt;
    if n > 0 {
      StepEndsAt(limits, blocks, n - 1, i);
      if i < n {
        EndsExactly(limits, blocks, n - 1, i);
      } else {
        NoneBeyond(limits, blocks, n - 1, n);
      }
    } else {
      NoneAtFirst(limits, blocks);
    }
  }

  lemma NoneAtFirst(limits: ChunkingLimits, blocks: seq<Block>)
    requires limits.maxTokens >= 1
    ensures !EndsAt(Run(limits, blocks, 0).windows, 0) && !Filled(limits, blocks, 0)
  {
  }

  lemma LastText(blocks: seq<Block>, ws: seq<Window>)
    requires Chain(ws, |blocks|) && Visible(blocks) && ws != []
    ensures Chain(ws[..|ws| - 1], |blocks|)
    ensures (ChainBounds(ws[..|ws| - 1], |blocks|); ChainBounds(ws, |blocks|);
      |WindowsText(blocks, ws[..|ws| - 1])| < |WindowsText(blocks, ws)|)
  {
    hide Joined;
    ChainPrefix(ws, |blocks|);
    ChainBounds(ws, |blocks|);
    JoinedVisible(blocks[ws[|ws| - 1].lo..ws[|ws| - 1].hi]);
  }

  lemma {:induction false} EarlierText(blocks: seq<Block>, ws: seq<Window>, m: nat)
    requires Chain(ws, |blocks|) && Visible(blocks) && m < |ws|
    ensures Chain(ws[..m], |blocks|)
    ensures (ChainBounds(ws[..m], |blocks|); ChainBounds(ws, |blocks|);
      |WindowsText(blocks, ws[..m])| < |WindowsText(blocks, ws)|)
    decreases |ws|
  {
    hide *;
    var init := ws[..|ws| - 1];
    LastText(blocks, ws);
    if m < |init| {
      EarlierText(blocks, init, m);
      assert ws[..m] == init[..m];
    } else {
      assert ws[..m] == init;
    }
  }

  lemma EarlierChunks(limits: ChunkingLimits, chunks: seq<ChunkDraft>, k: nat)
    requires GoodChunks(limits, chunks) && k < |chunks|
    ensures |Concat(Texts(chunks[..k]))| < |Concat(Texts(chunks))|
  {
    assert chunks == chunks[..k] + chunks[k..];
    TextsAppend(chunks[..k], chunks[k..]);
    ConcatAppend(Texts(chunks[..k]), Texts(chunks[k..]));
    assert chunks[k..][0] == chunks[k];
  }

  /** The merge takes back the end of the last chunk, and no other. */
  lemma MergeCloses(limits: ChunkingLimits, blocks: seq<Block>, chunks: seq<ChunkDraft>, ws: seq<Window>,
                    last: ChunkDraft, w: Window, m: nat)
    requires Visible(blocks) && GoodChunks(limits, chunks) && chunks != []
    requires Emitted(blocks, chunks, ws) && AllClose(blocks, chunks, ws)
    requires w.lo <= End(ws) <= w.hi <= |blocks| && w.lo < w.hi && m <= |ws| + 1
    requires last.text == chunks[|chunks| - 1].text + WindowText(blocks, w)
    ensures Closes(blocks, chunks[..|chunks| - 1] + [last], ws + [w], m) <==> m != |ws|
  {
    hide Emitted, GoodChunks, Visible, WindowText;
    var out, ws' := chunks[..|chunks| - 1] + [last], ws + [w];
    if m == |ws| + 1 {
      MergeEmits(blocks, chunks, ws, w, last);
      assert out[..|out|] == out && ws'[..m] == ws';
    } else if m < |ws| {
      assert Closes(blocks, chunks, ws, m);
      var k: nat :| k <= |chunks| && Emitted(blocks, chunks[..k], ws[..m]);
      assert k < |chunks| by {
        EarlierEmission(blocks, chunks, ws, m);
      }
      assert out[..k] == chunks[..k] && ws'[..m] == ws[..m];
    } else {
      assert ws'[..m] == ws;
      forall k: nat | k <= |out| ensures !Emitted(blocks, out[..k], ws) {
        NotInMerged(limits, blocks, chunks, ws, last, w, k);
      }
    }
  }

  lemma EarlierEmission(blocks: seq<Block>, chunks: seq<ChunkDraft>, ws: seq<Window>, m: nat)
    requires Visible(blocks) && Emitted(blocks, chunks, ws) && m < |ws|
    ensures !Emitted(blocks, chunks[..|chunks|], ws[..m])
  {
    EarlierText(blocks, ws, m);
    assert chunks[..|chunks|] == chunks;
  }

  lemma NotInMerged(limits: ChunkingLimits, blocks: seq<Block>, chunks: seq<ChunkDraft>, ws: seq<Window>,
                    last: ChunkDraft, w: Window, k: nat)
    requires Visible(blocks) && GoodChunks(limits, chunks) && chunks != [] && k <= |chunks|
    requires Emitted(blocks, chunks, ws) && w.lo < w.hi <= |blocks|
    requires last.text == chunks[|chunks| - 1].text + WindowText(blocks, w)
    ensures !Emitted(blocks, (chunks[..|chunks| - 1] + [last])[..k], ws)
  {
    var out := chunks[..|chunks| - 1] + [last];
    if k < |chunks| {
      assert out[..k] == chunks[..k];
      EarlierChunks(limits, chunks, k);
    } else {
      assert out[..k] == out;
      ReplaceLastText(chunks, last, WindowText(blocks, w));
      JoinedVisible(blocks[w.lo..w.hi]);
    }
  }

  lemma MergedCutsBefore(blocks: seq<Block>, chunks: seq<ChunkDraft>, ws: seq<Window>, w: Window, i: nat)
    requires Chain(ws, |blocks|) && i < w.hi
    requires forall m: nat | m <= |ws| + 1 :: Closes(blocks, chunks, ws + [w], m) <==> m != |ws|
    ensures CutAt(blocks, chunks, ws + [w], i) ==> EndsAt(ws, i) && !LastAlone(ws, i)
  {
    hide Closes, Chain;
    var all := ws + [w];
    if CutAt(blocks, chunks, all, i) {
      var m: nat :| 0 < m <= |all| && all[m - 1].hi == i && Closes(blocks, chunks, all, m);
      assert m < |ws| && ws[m - 1].hi == i;
      Ascend(ws, |blocks|, m - 1, |ws| - 2);
      Ascend(ws, |blocks|, |ws| - 2, |ws| - 1);
    }
  }

  lemma MergedCuts(blocks: seq<Block>, chunks: seq<ChunkDraft>, ws: seq<Window>, w: Window, i: nat)
    requires Chain(ws, |blocks|) && i < w.hi
    requires forall m: nat | m <= |ws| + 1 :: Closes(blocks, chunks, ws + [w], m) <==> m != |ws|
    ensures CutAt(blocks, chunks, ws + [w], i) <==> EndsAt(ws, i) && !LastAlone(ws, i)
  {
    MergedCutsBefore(blocks, chunks, ws, w, i);
    hide Closes, Chain;
    var all := ws + [w];
    if EndsAt(ws, i) && !LastAlone(ws, i) {
      var k: nat :| k < |ws| && ws[k].hi == i;
      var m := if k < |ws| - 1 then k + 1 else k;
      assert all[m - 1].hi == i && Closes(blocks, chunks, all, m);
    }
  }

  lemma FinishCloses(limits: ChunkingLimits, blocks: seq<Block>, st: ChunkerState, m: nat)
    requires limits.maxTokens >= 1 && Visible(blocks) && Merges(limits, st) && m <= |st.windows| + 1
    requires Covers(blocks, |blocks|, st) && Bounded(limits, st) && AllClose(blocks, st.chunks, st.windows)
    ensures var out := Finish(limits, st);
      && out.windows == st.windows + [Window(st.lo, |blocks|)]
      && (Closes(blocks, out.chunks, out.windows, m) <==> m != |st.windows|)
  {
    hide AllClose, GoodChunks, Visible, Closes;
    var out := Finish(limits, st);
    MergeCloses(limits, blocks, st.chunks, st.windows, out.chunks[|out.chunks| - 1], Window(st.lo, |blocks|), m);
  }

  lemma MergeCuts(limits: ChunkingLimits, blocks: seq<Block>, st: ChunkerState, i: nat)
    requires limits.maxTokens >= 1 && Visible(blocks) && i < |blocks| && Merges(limits, st)
    requires Covers(blocks, |blocks|, st) && Bounded(limits, st) && AllClose(blocks, st.chunks, st.windows)
    ensures var out := Finish(limits, st);
      CutAt(blocks, out.chunks, out.windows, i) <==> EndsAt(st.windows, i) && !LastAlone(st.windows, i)
  {
    assert Chain(st.windows, |blocks|);
    hide *;
    var out, ws, w := Finish(limits, st), st.windows, Window(st.lo, |blocks|);
    FinishCloses(limits, blocks, st, 0);
    forall m: nat | m <= |ws| + 1 ensures Closes(blocks, out.chunks, ws + [w], m) <==> m != |ws| {
      FinishCloses(limits, blocks, st, m);
    }
    MergedCuts(blocks, out.chunks, ws, w, i);
  }

  lemma FinishCuts(limits: ChunkingLimits, blocks: seq<Block>, st: ChunkerState, i: nat)
    requires limits.maxTokens >= 1 && Visible(blocks) && i < |blocks|
    requires Covers(blocks, |blocks|, st) && Bounded(limits, st) && AllClose(blocks, st.chunks, st.windows)
    ensures var out := Finish(limits, st);
      CutAt(blocks, out.chunks, out.windows, i) <==>
        EndsAt(st.windows, i) && !(Merges(limits, st) && LastAlone(st.windows, i))
  {
    hide Covers, AllClose, CutAt, Visible, LastAlone, Bounded;
    if Merges(limits, st) {
      MergeCuts(limits, blocks, st, i);
    } else {
      FlushIfCloses(true, limits, blocks, |blocks|, st);
      FlushAdds(true, limits, blocks, |blocks|, st);
      ClosedCuts(blocks, Finish(limits, st).chunks, Finish(limits, st).windows, i);
    }
  }

  // ------------------------------------------------------------ what is carried over

  /** Each emission but the first starts with a block of the one before. */
  ghost predicate Overlapping(ws: seq<Window>) {
    forall m | 0 < m < |ws| :: ws[m].lo < End(ws[..m])
  }

  /** Once a block was taken in, `current` is never empty again, and starts before the last cut. */
  ghost predicate Carries(i: nat, st: ChunkerState) {
    && (i > 0 ==> st.lo < i)
    && (st.windows != [] ==> st.lo < End(st.windows))
    && Overlapping(st.windows)
  }

  lemma FlushIfCarries(cond: bool, limits: ChunkingLimits, blocks: seq<Block>, i: nat, st: ChunkerState)
    requires limits.maxTokens >= 1 && Fitting(blocks, limits.maxTokens)
    requires Covers(blocks, i, st) && Carries(i, st)
    ensures Carries(i, FlushIf(cond, limits, st))
  {
    hide Joined, SplitText, Drafts, SumTokens, OverlapStart, Emitted, Overlapping;
    if cond && st.current != [] {
      JoinedVisible(st.current);
      OverlapsMore(st.windows, Window(st.lo, i));
    }
  }

  lemma OverlapsMore(ws: seq<Window>, w: Window)
    requires Overlapping(ws) && (ws != [] ==> w.lo < End(ws))
    ensures Overlapping(ws + [w])
  {
    var all := ws + [w];
    forall m | 0 < m < |all| ensures all[m].lo < End(all[..m]) {
      assert all[..m] == ws[..m];
      assert m == |ws| ==> all[..m] == ws;
    }
  }

  lemma StepCarries(limits: ChunkingLimits, blocks: seq<Block>, i: nat, st: ChunkerState)
    requires limits.maxTokens >= 1 && Fitting(blocks, limits.maxTokens) && i < |blocks|
    requires Covers(blocks, i, st) && Carries(i, st)
    ensures Carries(i + 1, Step(limits, st, blocks[i]))
  {
    hide FlushIf, Covers, Overlapping;
    var block := blocks[i];
    var c1 := block.isHeading && st.currentTokens >= limits.minTokens;
    FlushIfCovers(c1, limits, blocks, i, st);
    FlushIfCarries(c1, limits, blocks, i, st);
    var s1 := FlushIf(c1, limits, st);
    var c2 := block.isHeading && s1.current != [] && s1.current[|s1.current| - 1].page != block.page;
    FlushIfCovers(c2, limits, blocks, i, s1);
    FlushIfCarries(c2, limits, blocks, i, s1);
    var s2 := FlushIf(c2, limits, s1);
    var c3 := s2.currentTokens + block.tokens > limits.maxTokens;
    FlushIfCovers(c3, limits, blocks, i, s2);
    FlushIfCarries(c3, limits, blocks, i, s2);
    var s := FlushIf(c3, limits, s2);
    var taken := Taken(s, block);
    TakenCovers(blocks, i, s);
    LoBelow(blocks, i, s);
    FlushIfCarries(
      taken.currentTokens >= limits.targetMaxTokens
      || (taken.currentTokens >= limits.targetMinTokens && block.isHeading), limits, blocks, i + 1, taken);
  }

  lemma LoBelow(blocks: seq<Block>, i: nat, st: ChunkerState)
    requires Covers(blocks, i, st)
    ensures st.lo <= i
  {
  }

  lemma {:induction false} RunCarries(limits: ChunkingLimits, blocks: seq<Block>, n: nat)
    requires limits.maxTokens >= 1 && Fitting(blocks, limits.maxTokens) && n <= |blocks|
    ensures Carries(n, Run(limits, blocks, n))
  {
    if n > 0 {
      hide Covers, Carries, Step, Fitting;
      RunCarries(limits, blocks, n - 1);
      RunCovers(limits, blocks, n - 1);
      StepCarries(limits, blocks, n - 1, Run(limits, blocks, n - 1));
    }
  }

  // ------------------------------------------------------------ emissions that add nothing

  /** Two emissions end right before block `i`; the later one adds no word. */
  ghost predicate Repeated(ws: seq<Window>, i: nat) {
    exists m: nat | 0 < m < |ws| :: ws[m].hi == i && ws[m - 1].hi == i
  }

  /** The tokens that a flush carries over. */
  function TailTokens(limits: ChunkingLimits, blocks: seq<Block>): int {
    SumTokens(blocks[OverlapStart(blocks, limits.overlapTokens)..])
  }

  /** A heading after enough text that also opens a page, or a heading that does not even fit what its
      own flush carried over, flushes a second time. */
  predicate FlushedTwice(limits: ChunkingLimits, st: ChunkerState, block: Block) {
    && st.current != [] && block.isHeading
    && var enough, opens := st.currentTokens >= limits.minTokens, st.current[|st.current| - 1].page != block.page;
      (enough && opens) || ((enough || opens) && TailTokens(limits, st.current) + block.tokens > limits.maxTokens)
  }

  /** The rules cut more than once between block `i - 1` and block `i`. */
  predicate Doubled(limits: ChunkingLimits, blocks: seq<Block>, i: nat)
    requires limits.maxTokens >= 1 && i < |blocks|
  {
    (Refused(limits, blocks, i) && Filled(limits, blocks, i)) || FlushedTwice(limits, Run(limits, blocks, i), blocks[i])
  }

  lemma FlushTail(limits: ChunkingLimits, blocks: seq<Block>, i: nat, st: ChunkerState)
    requires limits.maxTokens >= 1 && Fitting(blocks, limits.maxTokens)
    requires Covers(blocks, i, st) && st.current != []
    ensures var s := FlushIf(true, limits, st);
      && s.current != [] && s.current[|s.current| - 1] == st.current[|st.current| - 1]
      && s.currentTokens == TailTokens(limits, st.current)
  {
    hide Joined, SplitText, Drafts, SumTokens, OverlapStart, Emitted;
    JoinedVisible(st.current);
  }

  lemma BeforeTwice(limits: ChunkingLimits, blocks: seq<Block>, i: nat, st: ChunkerState, block: Block)
    requires limits.maxTokens >= 1 && Fitting(blocks, limits.maxTokens) && Covers(blocks, i, st)
    ensures st.windows <= BeforeBlock(limits, st, block).windows
    ensures |Added(st, BeforeBlock(limits, st, block))| >= 2 <==> FlushedTwice(limits, st, block)
  {
    hide FlushIf, Covers, TailTokens, Fitting;
    var c1 := block.isHeading && st.currentTokens >= limits.minTokens;
    FlushIfCovers(c1, limits, blocks, i, st);
    FlushAdds(c1, limits, blocks, i, st);
    var s1 := FlushIf(c1, limits, st);
    var c2 := block.isHeading && s1.current != [] && s1.current[|s1.current| - 1].page != block.page;
    FlushIfCovers(c2, limits, blocks, i, s1);
    FlushAdds(c2, limits, blocks, i, s1);
    var s2 := FlushIf(c2, limits, s1);
    FlushAdds(s2.currentTokens + block.tokens > limits.maxTokens, limits, blocks, i, s2);
    if st.current != [] {
      FlushTail(limits, blocks, i, st);
    }
    if !c1 || st.current == [] {
      NoFlush(c1, limits, st);
    }
    if !c2 {
      NoFlush(c2, limits, s1);
    }
  }

  lemma RepeatedParts(ws: seq<Window>, mid: seq<Window>, last: seq<Window>, n: nat, i: nat)
    requires forall w <- ws :: w.hi <= n
    requires (forall w <- mid :: w.hi == n) && |last| <= 1 && (forall w <- last :: w.hi == n + 1)
    ensures Repeated(ws + mid + last, i) <==>
      Repeated(ws, i) || (i == n && (|mid| >= 2 || (mid != [] && ws != [] && End(ws) == n)))
  {
    var all := ws + mid + last;
    assert forall k | 0 <= k < |ws| :: all[k] == ws[k];
    assert forall k | |ws| <= k < |ws| + |mid| :: all[k] == mid[k - |ws|] && all[k].hi == n;
    if Repeated(ws, i) {
      var m: nat :| 0 < m < |ws| && ws[m].hi == i && ws[m - 1].hi == i;
      assert all[m].hi == i && all[m - 1].hi == i;
    }
    if i == n && |mid| >= 2 {
      assert all[|ws| + 1].hi == i && all[|ws| + 1 - 1].hi == i;
    }
    if i == n && mid != [] && ws != [] && End(ws) == n {
      assert all[|ws|].hi == i && all[|ws| - 1].hi == i;
    }
  }

  lemma EndsLast(blocks: seq<Block>, n: nat, st: ChunkerState)
    requires Covers(blocks, n, st)
    ensures forall w <- st.windows :: w.hi <= n
    ensures EndsAt(st.windows, n) <==> st.windows != [] && End(st.windows) == n
  {
    var ws := st.windows;
    forall k | 0 <= k < |ws| ensures ws[k].hi <= End(ws) {
      Ascend(ws, |blocks|, k, |ws| - 1);
    }
    assert ws != [] ==> ws[|ws| - 1] in ws;
  }

  lemma StepRepeats(limits: ChunkingLimits, blocks: seq<Block>, n: nat, i: nat)
    requires limits.maxTokens >= 1 && Fitting(blocks, limits.maxTokens) && n < |blocks|
    ensures Repeated(Run(limits, blocks, n + 1).windows, i) <==>
      Repeated(Run(limits, blocks, n).windows, i) || (i == n && Doubled(limits, blocks, n))
  {
    hide Run, Covers, BeforeBlock, TakeBlock, MustCutBefore, MustCutAfter, FlushedTwice, Repeated, Fitting, Filled, EndsAt;
    var st, block := Run(limits, blocks, n), blocks[n];
    BlockFits(limits, blocks, n);
    var s := BeforeBlock(limits, st, block);
    RunCovers(limits, blocks, n);
    RunStep(limits, blocks, n);
    BeforeBlockCovers(limits, blocks, n, st, block);
    BeforeCuts(limits, blocks, n, st, block);
    BeforeTwice(limits, blocks, n, st, block);
    TakeCuts(limits, blocks, n, s);
    EndsExactly(limits, blocks, n, n);
    EndsLast(blocks, n, st);
    var last := if MustCutAfter(limits, s.currentTokens, block) then [Window(s.lo, n + 1)] else [];
    RepeatedParts(st.windows, Added(st, s), last, n, i);
    assert st.windows + Added(st, s) == s.windows;
  }

  lemma BlockFits(limits: ChunkingLimits, blocks: seq<Block>, i: nat)
    requires limits.maxTokens >= 1 && Fitting(blocks, limits.maxTokens) && i < |blocks|
    ensures blocks[i].tokens <= limits.maxTokens
  {
  }

  /** Which boundaries are repeated after `n` blocks, by the rules alone. */
  lemma {:induction false} RunRepeats(limits: ChunkingLimits, blocks: seq<Block>, n: nat, i: nat)
    requires limits.maxTokens >= 1 && Fitting(blocks, limits.maxTokens) && n <= |blocks|
    ensures Repeated(Run(limits, blocks, n).windows, i) <==> i < n && Doubled(limits, blocks, i)
  {
    hide *;
    if n > 0 {
      RunRepeats(limits, blocks, n - 1, i);
      StepRepeats(limits, blocks, n - 1, i);
    } else {
      NoneRepeated(limits, blocks, i);
    }
  }

  lemma NoneRepeated(limits: ChunkingLimits, blocks: seq<Block>, i: nat)
    requires limits.maxTokens >= 1
    ensures !Repeated(Run(limits, blocks, 0).windows, i)
  {
    hide Step;
  }

  /** No rule asks for a cut behind the one right before block `i`. */
  ghost predicate LastForced(limits: ChunkingLimits, blocks: seq<Block>, i: nat)
    requires limits.maxTokens >= 1 && i < |blocks|
  {
    && Forced(limits, blocks, i) && !Filled(limits, blocks, |blocks|)
    && forall j: nat | i < j < |blocks| :: !Forced(limits, blocks, j)
  }

  lemma AloneMeans(ws: seq<Window>, n: nat, i: nat)
    requires Chain(ws, n)
    ensures LastAlone(ws, i) <==> EndsAt(ws, i) && !Repeated(ws, i) && forall j: nat | i < j <= n :: !EndsAt(ws, j)
  {
    forall a, b | 0 <= a <= b < |ws| ensures ws[a].hi <= ws[b].hi <= n {
      Ascend(ws, n, a, b);
    }
    if ws != [] {
      var l := ws[|ws| - 1];
      assert l in ws && EndsAt(ws, l.hi);
    }
  }

  lemma EndsForced(limits: ChunkingLimits, blocks: seq<Block>, j: nat)
    requires limits.maxTokens >= 1 && j <= |blocks|
    ensures EndsAt(Run(limits, blocks, |blocks|).windows, j) <==>
      if j < |blocks| then Forced(limits, blocks, j) else Filled(limits, blocks, j)
  {
    hide Run, Refused, Filled, EndsAt;
    EndsExactly(limits, blocks, |blocks|, j);
  }

  lemma LastForcedMeans(limits: ChunkingLimits, blocks: seq<Block>, ws: seq<Window>, i: nat)
    requires limits.maxTokens >= 1 && i < |blocks|
    requires forall j: nat | j < |blocks| :: EndsAt(ws, j) <==> Forced(limits, blocks, j)
    requires EndsAt(ws, |blocks|) <==> Filled(limits, blocks, |blocks|)
    ensures LastForced(limits, blocks, i) <==> EndsAt(ws, i) && forall j: nat | i < j <= |blocks| :: !EndsAt(ws, j)
  {
    hide Forced, Filled, EndsAt;
  }

  lemma AloneExactly(limits: ChunkingLimits, blocks: seq<Block>, i: nat)
    requires limits.maxTokens >= 1 && Fitting(blocks, limits.maxTokens) && i < |blocks|
    ensures LastAlone(Run(limits, blocks, |blocks|).windows, i) <==>
      LastForced(limits, blocks, i) && !Doubled(limits, blocks, i)
  {
    hide Run, Forced, Filled, LastForced, Doubled, LastAlone, EndsAt, Repeated, Fitting;
    var n := |blocks|;
    RunCovers(limits, blocks, n);
    AloneMeans(Run(limits, blocks, n).windows, n, i);
    RunRepeats(limits, blocks, n, i);
    forall j: nat | j <= n
      ensures EndsAt(Run(limits, blocks, n).windows, j) <==> if j < n then Forced(limits, blocks, j) else Filled(limits, blocks, j)
    {
      EndsForced(limits, blocks, j);
    }
    LastForcedMeans(limits, blocks, Run(limits, blocks, n).windows, i);
  }

  // ------------------------------------------------------------ the chunks of pages

  /** The chunks of any pages end exactly where a rule forces a boundary, with one exception: a merge of
      the remainder into the last chunk takes back the last of these, unless it was cut there twice. */
  lemma ChunksCutExactly(limits: ChunkingLimits, pages: seq<PageInput>, i: nat)
    requires limits.maxTokens >= 1 && i < |PageBlocks(pages, limits.maxTokens)|
    ensures var blocks := PageBlocks(pages, limits.maxTokens);
      CutAt(blocks, ChunkPages(limits, pages), ChunkBlocks(limits, blocks).windows, i) <==>
        && Forced(limits, blocks, i)
        && !(Merges(limits, Run(limits, blocks, |blocks|)) && LastForced(limits, blocks, i) && !Doubled(limits, blocks, i))
  {
    hide Run, Refused, Filled, EndsAt, Merges, Finish, Covers, Bounded, AllClose, CutAt, LastForced, Doubled, LastAlone;
    var blocks := PageBlocks(pages, limits.maxTokens);
    PageBlocksText(pages, limits.maxTokens);
    PageBlocksFit(pages, limits.maxTokens);
    RunCovers(limits, blocks, |blocks|);
    RunBounded(limits, blocks, |blocks|);
    RunCloses(limits, blocks, |blocks|);
    EndsExactly(limits, blocks, |blocks|, i);
    AloneExactly(limits, blocks, i);
    FinishCuts(limits, blocks, Run(limits, blocks, |blocks|), i);
  }

  lemma FinishAdds(limits: ChunkingLimits, blocks: seq<Block>, st: ChunkerState)
    requires limits.maxTokens >= 1 && Covers(blocks, |blocks|, st) && Carries(|blocks|, st)
    ensures Finish(limits, st).windows == st.windows + if blocks != [] then [Window(st.lo, |blocks|)] else []
  {
    hide Emitted, Joined, SplitText, Drafts, SumTokens, OverlapStart, EstimateTokens;
  }

  /** Text is emitted a second time exactly between two blocks that the rules cut twice, and at the end
      exactly if the last block completed a chunk. */
  lemma RepeatsExactly(limits: ChunkingLimits, pages: seq<PageInput>, i: nat)
    requires limits.maxTokens >= 1 && i <= |PageBlocks(pages, limits.maxTokens)|
    ensures var blocks := PageBlocks(pages, limits.maxTokens);
      Repeated(ChunkBlocks(limits, blocks).windows, i) <==>
        if i < |blocks| then Doubled(limits, blocks, i) else Filled(limits, blocks, i)
  {
    hide Filled, EndsAt, Finish, Covers, Carries, Repeated, Doubled, Fitting;
    var blocks := PageBlocks(pages, limits.maxTokens);
    var n := |blocks|;
    var st := Run(limits, blocks, n);
    PageBlocksFit(pages, limits.maxTokens);
    RunCovers(limits, blocks, n);
    RunCarries(limits, blocks, n);
    FinishAdds(limits, blocks, st);
    RunRepeats(limits, blocks, n, i);
    EndsExactly(limits, blocks, n, n);
    EndsLast(blocks, n, st);
    RepeatedParts(st.windows, if blocks != [] then [Window(st.lo, n)] else [], [], n, i);
    var w := if blocks != [] then [Window(st.lo, n)] else [];
    assert st.windows + w + [] == st.windows + w;
  }

  lemma PrefixChain(ws: seq<Window>, n: nat, m: nat)
    requires Chain(ws, n) && m <= |ws|
    ensures Chain(ws[..m], n) && End(ws[..m]) <= n
  {
    var few := ws[..m];
    forall k | 0 <= k < m ensures few[k].lo <= End(few[..k]) <= few[k].hi <= n && few[k].lo < few[k].hi {
      assert few[..k] == ws[..k] && few[k] == ws[k];
    }
  }

  lemma PrefixReads(blocks: seq<Block>, ws: seq<Window>, m: nat)
    requires Chain(ws, |blocks|) && m <= |ws|
    ensures Chain(ws[..m], |blocks|) && End(ws[..m]) <= |blocks|
    ensures WithoutOverlaps(blocks, ws[..m]) == Joined(blocks[..End(ws[..m])])
  {
    hide *;
    PrefixChain(ws, |blocks|, m);
    ChainReadsBack(blocks, ws[..m]);
  }

  /** An emission adds no word to those before it exactly if it ends where the one before it did. */
  lemma RepeatAddsNothing(blocks: seq<Block>, ws: seq<Window>, m: nat)
    requires Visible(blocks) && Chain(ws, |blocks|) && m < |ws|
    ensures Chain(ws[..m], |blocks|) && Chain(ws[..m + 1], |blocks|)
    ensures WithoutOverlaps(blocks, ws[..m + 1]) == WithoutOverlaps(blocks, ws[..m]) <==> m > 0 && ws[m].hi == ws[m - 1].hi
  {
    assert End(ws[..m]) <= ws[m].hi && ws[m].hi > 0;
    hide *;
    PrefixReads(blocks, ws, m);
    PrefixReads(blocks, ws, m + 1);
    PrefixEnds(ws, m);
    MoreBlocks(blocks, End(ws[..m]), End(ws[..m + 1]));
  }

  lemma PrefixEnds(ws: seq<Window>, m: nat)
    requires m < |ws|
    ensures End(ws[..m + 1]) == ws[m].hi && End(ws[..m]) == if m > 0 then ws[m - 1].hi else 0
  {
  }

  lemma MoreBlocks(blocks: seq<Block>, a: nat, b: nat)
    requires Visible(blocks) && a <= b <= |blocks|
    ensures Joined(blocks[..a]) == Joined(blocks[..b]) <==> a == b
  {
    assert blocks[..b] == blocks[..a] + blocks[a..b];
    JoinedAppend(blocks[..a], blocks[a..b]);
    if a < b {
      JoinedVisible(blocks[a..b]);
    }
  }

  /** Every emission but the first starts with whole blocks that the one before already emitted, so
      what takes in a heading starts with the text before it. */
  lemma EmissionsOverlap(limits: ChunkingLimits, pages: seq<PageInput>, m: nat)
    requires limits.maxTokens >= 1
    requires 0 < m < |ChunkBlocks(limits, PageBlocks(pages, limits.maxTokens)).windows|
    ensures var ws := ChunkBlocks(limits, PageBlocks(pages, limits.maxTokens)).windows; ws[m].lo < ws[m - 1].hi
  {
    hide Run, Finish, Covers, Fitting;
    var blocks := PageBlocks(pages, limits.maxTokens);
    var st := Run(limits, blocks, |blocks|);
    PageBlocksFit(pages, limits.maxTokens);
    RunCovers(limits, blocks, |blocks|);
    RunCarries(limits, blocks, |blocks|);
    FinishAdds(limits, blocks, st);
    assert m < |st.windows| ==> st.windows[m].lo < End(st.windows[..m]);
  }

  // ------------------------------------------------------------ a heading that is merged away

  const DEFAULT_LIMITS := ChunkingLimits(400, 512, 512, 100, 64)

  function LineOf(words: nat, heading: bool): Line {
    Line(seq(words, _ => "w"), heading)
  }

  function BlockOf(words: nat, heading: bool): Block {
    Block(1, seq(words, _ => "w"), TokensOf(words), heading)
  }

  lemma PageOf(a: nat, b: nat, c: nat)
    requires 0 < a < 100 && 0 < b < 100 && 0 < c < 100
    ensures PageBlocks([PageInput(1, [LineOf(a, false), LineOf(b, false), LineOf(c, true)])], 512)
         == [BlockOf(a, false), BlockOf(b, false), BlockOf(c, true)]
  {
    var la, lb, lc := LineOf(a, false), LineOf(b, false), LineOf(c, true);
    assert [la, lb, lc][1..] == [lb, lc] && [lb, lc][1..] == [lc];
    assert LineBlocks(1, [lc], 512) == [BlockOf(c, true)];
    assert LineBlocks(1, [lb, lc], 512) == [BlockOf(b, false), BlockOf(c, true)];
    assert PageBlocks([], 512) == [];
    assert [PageInput(1, [la, lb, lc])][1..] == [];
  }

  lemma TwoBlocks(a: Block, b: Block)
    ensures Joined([a, b]) == a.text + b.text && SumTokens([a, b]) == a.tokens + b.tokens
  {
    assert [a] + [b] == [a, b];
    JoinedAppend([a], [b]);
    OneBlock(a);
    OneBlock(b);
  }

  lemma LinesFlushed(a: Block, b: Block)
    requires a == BlockOf(60, false) && b == BlockOf(50, false)
    ensures Flush(DEFAULT_LIMITS, ChunkerState([], [a, b], 143, 0, 0, []))
         == ChunkerState([ChunkDraft(1, 1, a.text + b.text, 143, 0)], [b], 65, 1, 1, [Window(0, 2)])
  {
    TwoBlocks(a, b);
    OneBlock(b);
    assert [a, b][1..] == [b];
    assert TailStart([a, b], 64, 2) == 1;
    assert Drafts([a.text + b.text], 1, 1, 0) == [ChunkDraft(1, 1, a.text + b.text, 143, 0)];
  }

  /** The state before the heading, and the state after it. */
  lemma LinesTaken(a: Block, b: Block, h: Block)
    requires a == BlockOf(60, false) && b == BlockOf(50, false) && h == BlockOf(1, true)
    ensures Run(DEFAULT_LIMITS, [a, b, h], 2) == ChunkerState([], [a, b], 143, 0, 0, [])
    ensures Run(DEFAULT_LIMITS, [a, b, h], 3)
         == ChunkerState([ChunkDraft(1, 1, a.text + b.text, 143, 0)], [b, h], 66, 1, 1, [Window(0, 2)])
  {
    hide Flush;
    var limits, blocks := DEFAULT_LIMITS, [a, b, h];
    RunStep(limits, blocks, 0);
    RunStep(limits, blocks, 1);
    RunStep(limits, blocks, 2);
    var st1 := ChunkerState([], [a], 78, 0, 0, []);
    var st2 := ChunkerState([], [a, b], 143, 0, 0, []);
    assert [] + [a] == [a] && Step(limits, INITIAL, a) == st1;
    assert [a] + [b] == [a, b] && Step(limits, st1, b) == st2;
    LinesFlushed(a, b);
    assert [b] + [h] == [b, h];
  }

  /** With the default limits a heading behind 110 words is to start a new chunk, and ends up in the
      middle of the only one, behind the lines before it and a repetition of the second of them. */
  lemma HeadingMergedAway()
    ensures var pages := [PageInput(1, [LineOf(60, false), LineOf(50, false), LineOf(1, true)])];
      var blocks := PageBlocks(pages, 512);
      && |blocks| == 3 && Refused(DEFAULT_LIMITS, blocks, 2)
      && |ChunkPages(DEFAULT_LIMITS, pages)| == 1
      && ChunkPages(DEFAULT_LIMITS, pages)[0].text == Joined([blocks[0], blocks[1], blocks[1], blocks[2]])
      && !CutAt(blocks, ChunkPages(DEFAULT_LIMITS, pages), ChunkBlocks(DEFAULT_LIMITS, blocks).windows, 2)
  {
    PageOf(60, 50, 1);
    var a, b, h := BlockOf(60, false), BlockOf(50, false), BlockOf(1, true);
    var blocks := [a, b, h];
    LinesTaken(a, b, h);
    var st := Run(DEFAULT_LIMITS, blocks, 3);
    TwoBlocks(a, b);
    TwoBlocks(b, h);
    assert Merges(DEFAULT_LIMITS, st) && LastAlone(st.windows, 2);
    JoinedAppend([a, b], [b, h]);
    assert [a, b] + [b, h] == [a, b, b, h];
    RunCovers(DEFAULT_LIMITS, blocks, 3);
    RunBounded(DEFAULT_LIMITS, blocks, 3);
    RunCloses(DEFAULT_LIMITS, blocks, 3);
    FinishCuts(DEFAULT_LIMITS, blocks, st, 2);
  }
}
