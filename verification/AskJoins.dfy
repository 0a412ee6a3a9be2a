/** How much the joins of a prompt may cost: the bound of FewPassagesFit is exact. */
module AskJoins {
  import opened Wrappers
  import opened Strings
  import opened RankFusion
  import opened AskBudget

  // ------------------------------------------------------------ a tokenizer that pays for every join

  /** Characters that tell the parts of a prompt apart: each passage has one 'P' in the lines above its
      text and each text an '@'; the closing lines of the prompt have a 'P' and a 'Q'. */
  function Count(s: string, c: char): nat {
    multiset(s)[c]
  }

  /** The joins in a text that holds `passages` passages: one inside each, one in each gap, and one where
      the question follows. */
  function Joints(s: string): nat {
    if Count(s, '@') == 0 || Count(s, 'P') == 0 then 0 else 2 * Count(s, '@') - 1 + Count(s, 'Q')
  }

  /** One token for each 'P' and `slack` for each join. */
  function Paying(slack: nat): Estimator {
    (s: string) => Count(s, 'P') + slack * Joints(s)
  }

  lemma CountAppend(a: string, b: string, c: char)
    ensures Count(a + b, c) == Count(a, c) + Count(b, c)
  {
    assert multiset(a + b) == multiset(a) + multiset(b);
  }

  ghost predicate Counts(s: string, p: nat, at: nat, q: nat) {
    Count(s, 'P') == p && Count(s, '@') == at && Count(s, 'Q') == q
  }

  lemma Joined(a: string, b: string, p: nat, at: nat, q: nat, p': nat, at': nat, q': nat)
    requires Counts(a, p, at, q) && Counts(b, p', at', q')
    ensures Counts(a + b, p + p', at + at', q + q')
  {
    CountAppend(a, b, 'P');
    CountAppend(a, b, '@');
    CountAppend(a, b, 'Q');
  }

  lemma {:induction false} DigitsCount(n: nat)
    ensures Counts(Digits(n), 0, 0, 0)
  {
    if n < 10 {
      assert Digits(n) == [('0' as int + n) as char];
    } else {
      DigitsCount(n / 10);
      Joined(Digits(n / 10), [('0' as int + n % 10) as char], 0, 0, 0, 0, 0, 0);
    }
  }

  /** Text without any of the three characters. */
  lemma Free(s: string)
    requires 'P' !in s && '@' !in s && 'Q' !in s
    ensures Counts(s, 0, 0, 0)
  {
  }

  lemma Single(c: char)
    ensures Counts([c], if c == 'P' then 1 else 0, if c == '@' then 1 else 0, if c == 'Q' then 1 else 0)
  {
  }

  /** The lines above the text of a passage without a title. */
  lemma FrameCounts(index: nat, h: Hit, page: string)
    requires h.title == "" && Counts(page, 0, 0, 0)
    ensures Counts(PassageFrame(index, h, page), 1, 0, 0)
  {
    hide Counts, Digits;
    NumberCounts(index);
    IdCounts(h.chunk.id);
    LocationCounts(page);
    var top, middle := "Passage " + Digits(index), ":\nchunk_id: " + Digits(h.chunk.id);
    var bottom := "\ndocument: " + "\nlocation: page " + page + "\ntext:\n";
    Joined(top, middle, 1, 0, 0, 0, 0, 0);
    Joined(top + middle, bottom, 1, 0, 0, 0, 0, 0);
    FrameParts(index, h, page);
  }

  lemma FrameParts(index: nat, h: Hit, page: string)
    requires h.title == ""
    ensures PassageFrame(index, h, page)
         == ("Passage " + Digits(index)) + (":\nchunk_id: " + Digits(h.chunk.id))
            + ("\ndocument: " + "\nlocation: page " + page + "\ntext:\n")
  {
    hide Digits;
  }

  lemma NumberCounts(index: nat)
    ensures Counts("Passage " + Digits(index), 1, 0, 0)
  {
    hide Counts, Digits;
    DigitsCount(index);
    Single('P');
    Free("assage ");
    assert ['P'] + "assage " == "Passage ";
    Joined(['P'], "assage ", 1, 0, 0, 0, 0, 0);
    Joined("Passage ", Digits(index), 1, 0, 0, 0, 0, 0);
  }

  lemma IdCounts(id: nat)
    ensures Counts(":\nchunk_id: " + Digits(id), 0, 0, 0)
  {
    hide Counts, Digits;
    DigitsCount(id);
    Free(":\nchunk_id: ");
    Joined(":\nchunk_id: ", Digits(id), 0, 0, 0, 0, 0, 0);
  }

  lemma LocationCounts(page: string)
    requires Counts(page, 0, 0, 0)
    ensures Counts("\ndocument: " + "\nlocation: page " + page + "\ntext:\n", 0, 0, 0)
  {
    hide Counts;
    Free("\ndocument: " + "\nlocation: page ");
    Free("\ntext:\n");
    Joined("\ndocument: " + "\nlocation: page ", page, 0, 0, 0, 0, 0, 0);
    Joined("\ndocument: " + "\nlocation: page " + page, "\ntext:\n", 0, 0, 0, 0, 0, 0);
  }

  lemma RequestCounts()
    ensures Counts("Provide a concise ", 1, 0, 0)
  {
    hide Counts;
    Single('P');
    Free("rovide a concise ");
    assert ['P'] + "rovide a concise " == "Provide a concise ";
    Joined(['P'], "rovide a concise ", 1, 0, 0, 0, 0, 0);
  }

  lemma FormatCounts()
    ensures Counts("[chunk:<chunk_id>] citations.", 0, 0, 0)
  {
    hide Counts;
    Free("[chunk:<chunk_id>] citations.");
  }

  lemma InlineCounts()
    ensures Counts("answer with inline ", 0, 0, 0)
  {
    hide Counts;
    Free("answer with inline ");
  }

  lemma InstructionCounts()
    ensures Counts(INSTRUCTION, 1, 0, 0)
  {
    hide Counts;
    RequestCounts();
    InlineCounts();
    FormatCounts();
    Joined("Provide a concise ", "answer with inline ", 1, 0, 0, 0, 0, 0);
    Joined("Provide a concise " + "answer with inline ", "[chunk:<chunk_id>] citations.", 1, 0, 0, 0, 0, 0);
  }

  lemma QuestionCounts()
    ensures Counts("\n\nQuestion: ", 0, 0, 1)
  {
    hide Counts;
    Single('Q');
    Free("\n\n");
    Free("uestion: ");
    assert "\n\n" + ['Q'] + "uestion: " == "\n\nQuestion: ";
    Joined("\n\n", ['Q'], 0, 0, 0, 0, 0, 1);
    Joined("\n\n" + ['Q'], "uestion: ", 0, 0, 1, 0, 0, 0);
  }

  lemma ClosingCounts()
    ensures Counts(Closing(""), 1, 0, 1)
  {
    hide Counts;
    QuestionCounts();
    InstructionCounts();
    Free("" + "\n\n");
    Joined("\n\nQuestion: ", "" + "\n\n", 0, 0, 1, 0, 0, 0);
    Joined("\n\nQuestion: " + ("" + "\n\n"), INSTRUCTION, 0, 0, 1, 1, 0, 0);
    assert Closing("") == "\n\nQuestion: " + ("" + "\n\n") + INSTRUCTION;
  }

  // ------------------------------------------------------------ the request

  /** A passage of one character, without a page and without a title. */
  function Short(id: ChunkId): Hit {
    Hit(Chunk(id, 0, None, None, "@"), "", 0.0, Keyword)
  }

  function Hits(n: nat, id: ChunkId): (hits: seq<Hit>)
    ensures |hits| == n
  {
    if n == 0 then [] else [Short(id)] + Hits(n - 1, id + 1)
  }

  lemma PassageCounts(index: nat, id: ChunkId)
    ensures Counts(Passage(index, Short(id)), 1, 1, 0)
  {
    hide Counts, Digits;
    UnknownCounts();
    FrameCounts(index, Short(id), "unknown");
    Single('@');
    assert Strip("@") == "@";
    Joined(PassageFrame(index, Short(id), "unknown"), ['@'], 1, 0, 0, 0, 1, 0);
  }

  lemma UnknownCounts()
    ensures Counts("unknown", 0, 0, 0) && Counts("999", 0, 0, 0) && Counts("\n\n", 0, 0, 0)
  {
    hide Counts;
    Free("unknown");
    Free("999");
    Free("\n\n");
  }

  lemma {:induction false} BlockCounts(n: nat, id: ChunkId, taken: nat)
    requires n > 0
    ensures Counts(Block(Hits(n, id), taken), n, n, 0)
    decreases n
  {
    hide Counts, Passage;
    var first, rest := Passage(taken + 1, Short(id)), PassageList(Hits(n - 1, id + 1), taken + 1);
    PassageCounts(taken + 1, id);
    assert PassageList(Hits(n, id), taken) == [first] + rest && ([first] + rest)[1..] == rest;
    if n > 1 {
      BlockCounts(n - 1, id + 1, taken + 1);
      UnknownCounts();
      Joined(first, "\n\n", 1, 1, 0, 0, 0, 0);
      Joined(first + "\n\n", Join(rest, "\n\n"), 1, 1, 0, n - 1, n - 1, 0);
    } else {
      assert rest == [];
    }
  }

  lemma FramingCounts(n: nat)
    requires n > 0
    ensures Counts(UserFraming(""), 1, 0, 1) && Counts(UserMessage("", Hits(n, 0)), n + 1, n, 1)
  {
    OpeningCounts();
    hide Counts, Closing, Block;
    ClosingCounts();
    BlockCounts(n, 0, 0);
    Joined(OPENING, Closing(""), 0, 0, 0, 1, 0, 1);
    Joined(OPENING, EvidenceBlock(Hits(n, 0)), 0, 0, 0, n, n, 0);
    Joined(OPENING + EvidenceBlock(Hits(n, 0)), Closing(""), n, n, 0, 1, 0, 1);
  }

  lemma OpeningCounts()
    ensures Counts(OPENING, 0, 0, 0)
  {
    hide Counts;
    Free(OPENING);
  }

  // ------------------------------------------------------------ what the request costs

  lemma TextCost(slack: nat, s: string, p: nat, at: nat, q: nat)
    requires Counts(s, p, at, q)
    ensures Paying(slack)(s) == p + if at == 0 || p == 0 then 0 else slack * (2 * at - 1 + q)
  {
    assert Paying(slack)(s) == Count(s, 'P') + slack * Joints(s);
    assert Joints(s) == if at == 0 || p == 0 then 0 else 2 * at - 1 + q;
    if at == 0 || p == 0 {
      assert slack * Joints(s) == 0;
    }
  }

  lemma LabelsCost(slack: nat)
    ensures CountsLabels(Paying(slack))
  {
    hide PassageFrame, Joints;
    forall index: nat, h: Hit ensures Paying(slack)(PassageFrame(index, h, "999")) > 0 {
      FrameStarts(index, h);
      var frame := PassageFrame(index, h, "999");
      assert Paying(slack)(frame) == Count(frame, 'P') + slack * Joints(frame);
    }
  }

  lemma FrameStarts(index: nat, h: Hit)
    ensures Count(PassageFrame(index, h, "999"), 'P') > 0
  {
    hide Digits;
    var frame := PassageFrame(index, h, "999");
    assert frame[0] == 'P' && 'P' in frame;
  }

  lemma ShortCost(slack: nat, index: nat, id: ChunkId)
    ensures PassageCost(Paying(slack), index, Short(id)) == 1 && PassageExcess(Paying(slack), index, Short(id)) == slack
  {
    hide Counts, PassageFrame, Passage;
    Single('@');
    UnknownCounts();
    FrameCounts(index, Short(id), "999");
    PassageCounts(index, id);
    TextCost(slack, "@", 0, 1, 0);
    TextCost(slack, PassageFrame(index, Short(id), "999"), 1, 0, 0);
    TextCost(slack, Passage(index, Short(id)), 1, 1, 0);
  }

  lemma BlockCost(slack: nat, n: nat, id: ChunkId, taken: nat)
    requires n > 0
    ensures Paying(slack)(Block(Hits(n, id), taken)) == n + slack * (2 * n - 1)
  {
    hide Counts, Block, Hits;
    BlockCounts(n, id, taken);
    TextCost(slack, Block(Hits(n, id), taken), n, n, 0);
  }

  lemma GapCost(slack: nat, n: nat, id: ChunkId, taken: nat)
    requires n > 1
    ensures GapExcess(Paying(slack), Hits(n, id), taken) == slack
  {
    hide Block, Passage, Counts, Paying;
    BlockCost(slack, n, id, taken);
    BlockCost(slack, n - 1, id + 1, taken + 1);
    PassageCounts(taken + 1, id);
    TextCost(slack, Passage(taken + 1, Short(id)), 1, 1, 0);
    assert Hits(n, id)[1..] == Hits(n - 1, id + 1);
    assert slack * (2 * n - 1) == slack * (2 * (n - 1) - 1) + slack + slack;
  }

  /** Each passage is charged one token, and every join costs `slack`. */
  lemma {:induction false} HitsCost(slack: nat, n: nat, id: ChunkId, taken: nat)
    ensures EvidenceCost(Paying(slack), Hits(n, id), taken) == n
    ensures JoinsWithin(Paying(slack), slack, Hits(n, id), taken)
    decreases n
  {
    hide PassageCost, PassageExcess, GapExcess, Paying;
    if n > 0 {
      HitsCost(slack, n - 1, id + 1, taken + 1);
      ShortCost(slack, taken + 1, id);
      if n > 1 {
        GapCost(slack, n, id, taken);
      } else {
        LastGap(slack, id, taken);
      }
      assert Hits(n, id)[1..] == Hits(n - 1, id + 1);
    }
  }

  lemma LastGap(slack: nat, id: ChunkId, taken: nat)
    ensures GapExcess(Paying(slack), Hits(1, id), taken) == 0
  {
  }

  lemma {:induction false} HitsFit(slack: nat, n: nat, id: ChunkId, taken: nat)
    ensures FitFrom(Paying(slack), Hits(n, id), taken, taken + n, n) == Hits(n, id)
    decreases n
  {
    hide PassageCost, Paying;
    if n > 0 {
      ShortCost(slack, taken + 1, id);
      HitsFit(slack, n - 1, id + 1, taken + 1);
      var rest := Hits(n - 1, id + 1);
      assert Hits(n, id)[1..] == rest;
      var choice := Greedy(Paying(slack), rest, taken + 1, taken + n, n - 1);
      assert Greedy(Paying(slack), Hits(n, id), taken, taken + n, n) == [true] + choice;
      assert ([true] + choice)[1..] == choice;
    }
  }

  /** A request that leaves nothing over: one token for the framing, one for each passage. */
  function Tight(n: nat): Request {
    Request(Profile(n, n + 1 + CONTEXT_SAFETY_MARGIN, 0, 0), None, "", "", [], Hits(n, 0))
  }

  lemma TwoTotal(tok: Estimator, a: string, b: string)
    ensures TotalTokens(tok, [a] + [] + [b]) == tok(a) + tok(b)
  {
    OneTotal(tok, b);
    assert [a] + [] + [b] == [a, b] && [a, b][1..] == [b];
  }

  lemma TightIsFull(slack: nat, n: nat)
    requires n > 0
    ensures Evidence(Paying(slack), Tight(n)) == Hits(n, 0)
    ensures Accounted(Paying(slack), Tight(n)) == Window(Tight(n)) == 1 + n + CONTEXT_SAFETY_MARGIN
    ensures TotalTokens(Paying(slack), Messages(Paying(slack), Tight(n))) == 1 + n + slack * (2 * n)
    ensures RequestJoinsWithin(Paying(slack), slack, "", Hits(n, 0))
  {
    var tok, r := Paying(slack), Tight(n);
    hide Counts, UserFraming, UserMessage, Paying, Hits, Greedy, Selected, JoinsWithin;
    FramingCounts(n);
    Free("");
    TextCost(slack, "", 0, 0, 0);
    TextCost(slack, UserFraming(""), 1, 0, 1);
    TextCost(slack, UserMessage("", Hits(n, 0)), n + 1, n, 1);
    BlockCost(slack, n, 0, 0);
    assert slack * (2 * n - 1 + 1) == slack * (2 * n) && slack * (2 * n) - slack * (2 * n - 1) == slack;
    HitsCost(slack, n, 0, 0);
    HitsFit(slack, n, 0, 0);
    assert History(tok, r) == [];
    TwoTotal(tok, "", UserMessage("", Hits(n, 0)));
  }

  // ------------------------------------------------------------ the exact bound

  /** Requests of up to `n` passages whose joins cost at most `slack` tokens each always fit. */
  ghost predicate JoinsAlwaysFit(slack: nat, n: nat) {
    forall tok: Estimator, r: Request
      | CountsLabels(tok) && ChatCalled(tok, r) && r.profile.conversationHistoryTokens >= 0 && r.profile.retrievedChunks <= n
        && RequestJoinsWithin(tok, slack, r.question, Evidence(tok, r)) ::
      TotalTokens(tok, Messages(tok, r)) + r.profile.maxOutputTokens <= Window(r)
  }

  /** If the joins of `n` passages can cost more than the margin, some request of `n` passages that is
      accounted to the last token of the window is sent over it. */
  lemma JoinsOverrun(slack: nat, n: nat) returns (tok: Estimator, r: Request)
    requires n > 0 && 2 * slack * n > CONTEXT_SAFETY_MARGIN
    ensures CountsLabels(tok) && ChatCalled(tok, r) && |Evidence(tok, r)| == n == r.profile.retrievedChunks
    ensures r.profile.conversationHistoryTokens >= 0
    ensures RequestJoinsWithin(tok, slack, r.question, Evidence(tok, r))
    ensures Accounted(tok, r) == Window(r)
    ensures TotalTokens(tok, Messages(tok, r)) + r.profile.maxOutputTokens > Window(r)
  {
    tok, r := Paying(slack), Tight(n);
    hide Paying, CountsLabels, RequestJoinsWithin, Messages, Evidence, Accounted, TotalTokens, Window;
    LabelsCost(slack);
    TightIsFull(slack, n);
    assert slack * (2 * n) == 2 * slack * n;
  }

  /** The safety margin pays for the joins of all requests of up to `n` passages exactly if `2 n` joins
      cost no more than it. */
  lemma MarginPaysExactly(slack: nat, n: nat)
    requires n > 0
    ensures JoinsAlwaysFit(slack, n) <==> 2 * slack * n <= CONTEXT_SAFETY_MARGIN
  {
    hide CountsLabels, ChatCalled, RequestJoinsWithin, Messages, Evidence, TotalTokens, Window;
    if 2 * slack * n <= CONTEXT_SAFETY_MARGIN {
      forall tok: Estimator, r: Request
        | CountsLabels(tok) && ChatCalled(tok, r) && r.profile.conversationHistoryTokens >= 0 && r.profile.retrievedChunks <= n
          && RequestJoinsWithin(tok, slack, r.question, Evidence(tok, r))
        ensures TotalTokens(tok, Messages(tok, r)) + r.profile.maxOutputTokens <= Window(r)
      {
        SlackGrows(slack, r.profile.retrievedChunks, n);
        FewPassagesFit(tok, slack, r);
      }
    } else {
      var tok, r := JoinsOverrun(slack, n);
    }
  }
}
