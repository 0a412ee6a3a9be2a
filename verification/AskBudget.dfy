/** The context budget of `ask`: what is reserved, what the passages cost, how much history is kept,
    and why the prompt fits the window. The tokenizer is any function of the text. */
module AskBudget {
  import opened Wrappers
  import opened Strings
  import opened Words
  import opened RankFusion

  const CONTEXT_SAFETY_MARGIN := 256

  type Estimator = string -> nat

  datatype Profile = Profile(retrievedChunks: int, maxContextTokens: int, maxOutputTokens: int, conversationHistoryTokens: int)

  /** One question, with the ranked hits its searches returned. */
  datatype Request = Request(
    profile: Profile, contextWindow: Option<int>, systemPrompt: string, question: string, conversation: seq<string>, ranked: seq<Hit>)

  // ------------------------------------------------------------ ai/profiles.py

  function EffectiveContextWindow(profileMax: int, provider: Option<int>): int {
    if provider.None? || provider.value <= 0 then Max(0, profileMax)
    else Max(0, Min(profileMax, provider.value))
  }

  function RagBudget(maxContext: int, system: int, conversation: int, responseReserve: int): int {
    Max(0, maxContext - (system + conversation + responseReserve + CONTEXT_SAFETY_MARGIN))
  }

  /** Tokens fit the effective window exactly if both the profile and a known provider window have room
      for them. */
  lemma WindowIsWhatBothAllow(profileMax: int, provider: Option<int>, tokens: int)
    requires tokens > 0
    ensures tokens <= EffectiveContextWindow(profileMax, provider)
      <==> tokens <= profileMax && (provider.Some? && provider.value > 0 ==> tokens <= provider.value)
  {
  }

  /** Passages fit the budget exactly if everything else still fits beside them. */
  lemma BudgetIsWhatIsLeft(maxContext: int, system: int, conversation: int, responseReserve: int, tokens: int)
    requires tokens > 0
    ensures tokens <= RagBudget(maxContext, system, conversation, responseReserve)
      <==> system + conversation + tokens + responseReserve + 256 <= maxContext
  {
  }

  // ------------------------------------------------------------ the prompt

  const OPENING := "Evidence passages:\n\n"
  const INSTRUCTION := "Provide a concise " + "answer with inline " + "[chunk:<chunk_id>] citations."

  function Closing(question: string): string {
    "\n\nQuestion: " + question + "\n\n" + INSTRUCTION
  }

  function UserFraming(question: string): string {
    OPENING + Closing(question)
  }

  /** The lines of a passage above its text, for the given page label. */
  function PassageFrame(index: nat, h: Hit, page: string): string {
    "Passage " + Digits(index) + ":\nchunk_id: " + Digits(h.chunk.id) + "\ndocument: " + h.title
    + "\nlocation: page " + page + "\ntext:\n"
  }

  function PageLabel(h: Hit): string {
    if h.chunk.page.Some? then Digits(h.chunk.page.value) else "unknown"
  }

  function Passage(index: nat, h: Hit): string {
    PassageFrame(index, h, PageLabel(h)) + Strip(h.chunk.text)
  }

  /** The passages, numbered on from `taken`. */
  function PassageList(hits: seq<Hit>, taken: nat): seq<string> {
    if hits == [] then [] else [Passage(taken + 1, hits[0])] + PassageList(hits[1..], taken + 1)
  }

  /** The passages as they are sent. */
  function Block(hits: seq<Hit>, taken: nat): string {
    Join(PassageList(hits, taken), "\n\n")
  }

  function EvidenceBlock(hits: seq<Hit>): string {
    Block(hits, 0)
  }

  function UserMessage(question: string, hits: seq<Hit>): string {
    OPENING + EvidenceBlock(hits) + Closing(question)
  }

  // ------------------------------------------------------------ greedy fitting

  /** The stored count; a missing one or zero is estimated, so that no text passes for free. */
  function ChunkTokens(tok: Estimator, c: Chunk): (n: nat)
    ensures c.tokenCount.Some? && c.tokenCount.value > 0 ==> n == c.tokenCount.value
    ensures n == 0 ==> tok(c.text) == 0
  {
    if c.tokenCount.Some? && c.tokenCount.value != 0 then c.tokenCount.value else tok(c.text)
  }

  /** What the passage with this number is charged: its chunk and the lines above it. */
  function PassageCost(tok: Estimator, index: nat, h: Hit): nat {
    ChunkTokens(tok, h.chunk) + tok(PassageFrame(index, h, "999"))
  }

  /** The lines above a passage take at least one token. */
  ghost predicate CountsLabels(tok: Estimator) {
    forall index: nat, h: Hit :: tok(PassageFrame(index, h, "999")) > 0
  }

  function EvidenceCost(tok: Estimator, hits: seq<Hit>, taken: nat): nat {
    if hits == [] then 0 else PassageCost(tok, taken + 1, hits[0]) + EvidenceCost(tok, hits[1..], taken + 1)
  }

  function Selected(ranked: seq<Hit>, choice: seq<bool>): seq<Hit>
    requires |choice| == |ranked|
  {
    if ranked == [] then []
    else if choice[0] then [ranked[0]] + Selected(ranked[1..], choice[1..]) else Selected(ranked[1..], choice[1..])
  }

  /** With `taken` passages selected already: take each hit in turn if it still fits. */
  function Greedy(tok: Estimator, ranked: seq<Hit>, taken: nat, maxChunks: int, budget: int): (choice: seq<bool>)
    ensures |choice| == |ranked|
  {
    if ranked == [] then []
    else if taken < maxChunks && PassageCost(tok, taken + 1, ranked[0]) <= budget then
      [true] + Greedy(tok, ranked[1..], taken + 1, maxChunks, budget - PassageCost(tok, taken + 1, ranked[0]))
    else [false] + Greedy(tok, ranked[1..], taken, maxChunks, budget)
  }

  function FitFrom(tok: Estimator, ranked: seq<Hit>, taken: nat, maxChunks: int, budget: int): seq<Hit> {
    Selected(ranked, Greedy(tok, ranked, taken, maxChunks, budget))
  }

  function Fit(tok: Estimator, ranked: seq<Hit>, maxChunks: int, budget: int): seq<Hit> {
    FitFrom(tok, ranked, 0, maxChunks, budget)
  }

  /** A selection that keeps both limits. */
  predicate Feasible(tok: Estimator, ranked: seq<Hit>, choice: seq<bool>, taken: nat, maxChunks: int, budget: int) {
    && |choice| == |ranked|
    && (Selected(ranked, choice) != [] ==>
          taken + |Selected(ranked, choice)| <= maxChunks && EvidenceCost(tok, Selected(ranked, choice), taken) <= budget)
  }

  lemma {:induction false} GreedyIsFeasible(tok: Estimator, ranked: seq<Hit>, taken: nat, maxChunks: int, budget: int)
    ensures Feasible(tok, ranked, Greedy(tok, ranked, taken, maxChunks, budget), taken, maxChunks, budget)
  {
    if ranked != [] {
      var cost := PassageCost(tok, taken + 1, ranked[0]);
      if taken < maxChunks && cost <= budget {
        GreedyIsFeasible(tok, ranked[1..], taken + 1, maxChunks, budget - cost);
        assert FitFrom(tok, ranked, taken, maxChunks, budget)[1..] == FitFrom(tok, ranked[1..], taken + 1, maxChunks, budget - cost);
      } else {
        GreedyIsFeasible(tok, ranked[1..], taken, maxChunks, budget);
      }
    }
  }

  /** `a` keeps a better-ranked hit at the first place where the two choices differ. */
  ghost predicate Prefers(a: seq<bool>, b: seq<bool>) {
    |a| == |b| && exists i | 0 <= i < |a| :: a[..i] == b[..i] && a[i] && !b[i]
  }

  lemma PrefersAfter(x: bool, a: seq<bool>, b: seq<bool>)
    requires Prefers(a, b)
    ensures Prefers([x] + a, [x] + b)
  {
    var i :| 0 <= i < |a| && a[..i] == b[..i] && a[i] && !b[i];
    assert ([x] + a)[..i + 1] == [x] + a[..i] && ([x] + b)[..i + 1] == [x] + b[..i];
    assert ([x] + a)[i + 1] && !([x] + b)[i + 1];
  }

  /** Greedy fitting is the best feasible choice by rank: any other one gives up a hit that greedy
      keeps, before it gains anything. */
  lemma {:induction false} GreedyIsBest(tok: Estimator, ranked: seq<Hit>, taken: nat, maxChunks: int, budget: int, other: seq<bool>)
    requires Feasible(tok, ranked, other, taken, maxChunks, budget)
    ensures var greedy := Greedy(tok, ranked, taken, maxChunks, budget);
      other == greedy || Prefers(greedy, other)
  {
    hide PassageCost, Prefers;
    var greedy := Greedy(tok, ranked, taken, maxChunks, budget);
    if ranked != [] {
      var cost := PassageCost(tok, taken + 1, ranked[0]);
      assert other == [other[0]] + other[1..] && greedy == [greedy[0]] + greedy[1..];
      if other[0] {
        var rest := Selected(ranked[1..], other[1..]);
        assert Selected(ranked, other) == [ranked[0]] + rest && ([ranked[0]] + rest)[1..] == rest;
        GreedyIsBest(tok, ranked[1..], taken + 1, maxChunks, budget - cost, other[1..]);
        BestAfter(other[0], greedy[1..], other[1..]);
      } else if greedy[0] {
        FirstDiffers(greedy, other);
      } else {
        GreedyIsBest(tok, ranked[1..], taken, maxChunks, budget, other[1..]);
        BestAfter(other[0], greedy[1..], other[1..]);
      }
    }
  }

  lemma BestAfter(x: bool, a: seq<bool>, b: seq<bool>)
    requires b == a || Prefers(a, b)
    ensures [x] + b == [x] + a || Prefers([x] + a, [x] + b)
  {
    if b != a {
      PrefersAfter(x, a, b);
    }
  }

  lemma FirstDiffers(a: seq<bool>, b: seq<bool>)
    requires |a| == |b| > 0 && a[0] && !b[0]
    ensures Prefers(a, b)
  {
    assert a[..0] == b[..0];
  }

  // ------------------------------------------------------------ history

  function TotalTokens(tok: Estimator, texts: seq<string>): nat {
    if texts == [] then 0 else tok(texts[0]) + TotalTokens(tok, texts[1..])
  }

  /** How many turns `ask` keeps, from the oldest on. */
  function KeptTurns(tok: Estimator, conversation: seq<string>, budget: int): (n: nat)
    ensures n <= |conversation|
  {
    if conversation == [] || tok(conversation[0]) > budget then 0
    else 1 + KeptTurns(tok, conversation[1..], budget - tok(conversation[0]))
  }

  /** The longest prefix within the budget. */
  lemma {:induction false} KeptIsLongest(tok: Estimator, conversation: seq<string>, budget: int)
    ensures var n := KeptTurns(tok, conversation, budget);
      && (n > 0 ==> TotalTokens(tok, conversation[..n]) <= budget)
      && (n < |conversation| ==> TotalTokens(tok, conversation[..n + 1]) > budget)
  {
    var n := KeptTurns(tok, conversation, budget);
    if conversation != [] {
      assert conversation[..1][1..] == [];
      if n > 0 {
        KeptIsLongest(tok, conversation[1..], budget - tok(conversation[0]));
        assert conversation[..n][1..] == conversation[1..][..n - 1];
        if n < |conversation| {
          assert conversation[..n + 1][1..] == conversation[1..][..n];
        }
      }
    }
  }

  lemma {:induction false} PrefixTokens(tok: Estimator, texts: seq<string>, n: nat)
    requires n <= |texts|
    ensures TotalTokens(tok, texts[..n]) <= TotalTokens(tok, texts)
  {
    if n > 0 {
      PrefixTokens(tok, texts[1..], n - 1);
      assert texts[..n][1..] == texts[1..][..n - 1];
    }
  }

  // ------------------------------------------------------------ ask

  function Window(r: Request): int {
    EffectiveContextWindow(r.profile.maxContextTokens, r.contextWindow)
  }

  function Budget(tok: Estimator, r: Request): int {
    RagBudget(
      Window(r),
      tok(r.systemPrompt) + tok(UserFraming(r.question)),
      Min(TotalTokens(tok, r.conversation), r.profile.conversationHistoryTokens),
      r.profile.maxOutputTokens)
  }

  function Evidence(tok: Estimator, r: Request): seq<Hit> {
    Fit(tok, r.ranked, r.profile.retrievedChunks, Budget(tok, r))
  }

  function History(tok: Estimator, r: Request): seq<string> {
    r.conversation[..KeptTurns(tok, r.conversation, r.profile.conversationHistoryTokens)]
  }

  /** The chat model is asked only with at least one passage. */
  predicate ChatCalled(tok: Estimator, r: Request) {
    Evidence(tok, r) != []
  }

  function Messages(tok: Estimator, r: Request): seq<string> {
    [r.systemPrompt] + History(tok, r) + [UserMessage(r.question, Evidence(tok, r))]
  }

  /** What the call is accounted for. */
  function Accounted(tok: Estimator, r: Request): int {
    tok(r.systemPrompt) + tok(UserFraming(r.question)) + TotalTokens(tok, History(tok, r))
    + EvidenceCost(tok, Evidence(tok, r), 0) + r.profile.maxOutputTokens + CONTEXT_SAFETY_MARGIN
  }

  lemma EvidencePaid(tok: Estimator, hits: seq<Hit>, taken: nat)
    requires CountsLabels(tok) && hits != []
    ensures EvidenceCost(tok, hits, taken) > 0
  {
    assert tok(PassageFrame(taken + 1, hits[0], "999")) > 0;
  }

  lemma AccountedFits(tok: Estimator, r: Request)
    requires CountsLabels(tok) && ChatCalled(tok, r) && r.profile.conversationHistoryTokens >= 0
    ensures Accounted(tok, r) <= Window(r)
  {
    hide PassageCost, CountsLabels, Greedy, UserFraming;
    GreedyIsFeasible(tok, r.ranked, 0, r.profile.retrievedChunks, Budget(tok, r));
    EvidencePaid(tok, Evidence(tok, r), 0);
    var n := KeptTurns(tok, r.conversation, r.profile.conversationHistoryTokens);
    KeptIsLongest(tok, r.conversation, r.profile.conversationHistoryTokens);
    PrefixTokens(tok, r.conversation, n);
  }

  /** A negative history allowance, which custom profiles may hold, is added to the passage budget. */
  lemma NegativeHistoryOverruns(tok: Estimator, historyTokens: int) returns (r: Request)
    requires historyTokens < 0
    ensures r.profile.conversationHistoryTokens == historyTokens
    ensures ChatCalled(tok, r) && Accounted(tok, r) > Window(r)
  {
    var hit := Hit(Chunk(0, 0, None, Some(1), ""), "", 0.0, Keyword);
    var cost := PassageCost(tok, 1, hit);
    var base := tok("") + tok(UserFraming("")) + CONTEXT_SAFETY_MARGIN;
    r := Request(Profile(1, base + cost - 1, 0, historyTokens), None, "", "", [], [hit]);
    assert Budget(tok, r) == cost - 1 - historyTokens;
    assert Greedy(tok, [hit], 0, 1, Budget(tok, r)) == [true] + Greedy(tok, [hit][1..], 1, 1, Budget(tok, r) - cost);
    assert Selected([hit], [true]) == [hit] + Selected([hit][1..], [true][1..]);
    assert Evidence(tok, r) == [hit];
    assert EvidenceCost(tok, [hit], 0) == cost + EvidenceCost(tok, [hit][1..], 1);
  }

  ghost predicate AlwaysFits(tok: Estimator, historyTokens: int) {
    forall r: Request | r.profile.conversationHistoryTokens == historyTokens && ChatCalled(tok, r) :: Accounted(tok, r) <= Window(r)
  }

  /** The budget holds on every request exactly when the history allowance is not negative. */
  lemma FitsExactly(tok: Estimator, historyTokens: int)
    requires CountsLabels(tok)
    ensures AlwaysFits(tok, historyTokens) <==> historyTokens >= 0
  {
    hide ChatCalled, Accounted, Window;
    if historyTokens >= 0 {
      forall r: Request | r.profile.conversationHistoryTokens == historyTokens && ChatCalled(tok, r)
        ensures Accounted(tok, r) <= Window(r)
      {
        AccountedFits(tok, r);
      }
    } else {
      var r := NegativeHistoryOverruns(tok, historyTokens);
    }
  }

  // ------------------------------------------------------------ the real prompt

  /** What the tokenizer finds in the passages as they are joined, beyond what they are charged: for
      each passage its page label and the text under its lines, and for each gap the joint. */
  function BlockExcess(tok: Estimator, hits: seq<Hit>, taken: nat): int {
    if hits == [] then 0
    else PassageExcess(tok, taken + 1, hits[0]) + GapExcess(tok, hits, taken) + BlockExcess(tok, hits[1..], taken + 1)
  }

  function PassageExcess(tok: Estimator, index: nat, h: Hit): int {
    tok(Passage(index, h)) - PassageCost(tok, index, h)
  }

  function GapExcess(tok: Estimator, hits: seq<Hit>, taken: nat): int
    requires hits != []
  {
    if |hits| == 1 then 0
    else tok(Block(hits, taken)) - tok(Passage(taken + 1, hits[0])) - tok(Block(hits[1..], taken + 1))
  }

  /** The same for the whole user message: the passages, and putting their block into the framing. */
  function PromptExcess(tok: Estimator, question: string, hits: seq<Hit>): int {
    BlockExcess(tok, hits, 0) + (tok(UserMessage(question, hits)) - tok(UserFraming(question)) - tok(EvidenceBlock(hits)))
  }

  lemma {:induction false} BlockTokens(tok: Estimator, hits: seq<Hit>, taken: nat)
    requires hits != []
    ensures tok(Block(hits, taken)) == EvidenceCost(tok, hits, taken) + BlockExcess(tok, hits, taken)
  {
    hide Passage, PassageCost;
    var first := Passage(taken + 1, hits[0]);
    var rest := PassageList(hits[1..], taken + 1);
    assert PassageList(hits, taken) == [first] + rest && ([first] + rest)[1..] == rest;
    if |hits| > 1 {
      BlockTokens(tok, hits[1..], taken + 1);
    } else {
      assert rest == [] && Block(hits, taken) == first;
      assert hits[1..] == [];
    }
  }

  /** The parts of the excess add up to the user message as it is sent. */
  lemma UserMessageTokens(tok: Estimator, question: string, hits: seq<Hit>)
    requires hits != []
    ensures tok(UserMessage(question, hits)) == tok(UserFraming(question)) + EvidenceCost(tok, hits, 0) + PromptExcess(tok, question, hits)
  {
    BlockTokens(tok, hits, 0);
    hide Closing, EvidenceCost, BlockExcess, PassageList, Join;
  }

  lemma {:induction false} TotalAppend(tok: Estimator, a: seq<string>, b: seq<string>)
    ensures TotalTokens(tok, a + b) == TotalTokens(tok, a) + TotalTokens(tok, b)
  {
    if a == [] {
      assert a + b == b;
    } else {
      TotalAppend(tok, a[1..], b);
      assert (a + b)[1..] == a[1..] + b;
    }
  }

  lemma OneTotal(tok: Estimator, t: string)
    ensures TotalTokens(tok, [t]) == tok(t)
  {
    assert [t][1..] == [];
  }

  /** The messages as sent, with the whole answer, fit the window exactly if the tokens that only show
      up when the passages are joined are covered by the safety margin and what the account left free. */
  lemma PromptFitsExactly(tok: Estimator, r: Request)
    requires ChatCalled(tok, r)
    ensures TotalTokens(tok, Messages(tok, r)) + r.profile.maxOutputTokens <= Window(r)
      <==> PromptExcess(tok, r.question, Evidence(tok, r)) <= CONTEXT_SAFETY_MARGIN + (Window(r) - Accounted(tok, r))
  {
    var evidence := Evidence(tok, r);
    UserMessageTokens(tok, r.question, evidence);
    hide PromptExcess, Window, Evidence, UserMessage, UserFraming, EvidenceCost, TotalTokens;
    TotalAppend(tok, [r.systemPrompt] + History(tok, r), [UserMessage(r.question, evidence)]);
    TotalAppend(tok, [r.systemPrompt], History(tok, r));
    OneTotal(tok, r.systemPrompt);
    OneTotal(tok, UserMessage(r.question, evidence));
  }

  /** So the margin is what pays for the joins of this request. */
  lemma PromptFits(tok: Estimator, r: Request)
    requires CountsLabels(tok) && ChatCalled(tok, r) && r.profile.conversationHistoryTokens >= 0
    requires PromptExcess(tok, r.question, Evidence(tok, r)) <= CONTEXT_SAFETY_MARGIN
    ensures TotalTokens(tok, Messages(tok, r)) + r.profile.maxOutputTokens <= Window(r)
  {
    hide CountsLabels, ChatCalled, PromptExcess, Evidence, Messages, Window, Accounted, TotalTokens;
    AccountedFits(tok, r);
    PromptFitsExactly(tok, r);
  }

  /** No single join of the request costs more than `slack` tokens. */
  predicate JoinsWithin(tok: Estimator, slack: nat, hits: seq<Hit>, taken: nat) {
    hits != [] ==>
      && PassageExcess(tok, taken + 1, hits[0]) <= slack && GapExcess(tok, hits, taken) <= slack
      && JoinsWithin(tok, slack, hits[1..], taken + 1)
  }

  predicate RequestJoinsWithin(tok: Estimator, slack: nat, question: string, hits: seq<Hit>) {
    && JoinsWithin(tok, slack, hits, 0)
    && tok(UserMessage(question, hits)) - tok(UserFraming(question)) - tok(EvidenceBlock(hits)) <= slack
  }

  lemma ExcessStep(tok: Estimator, slack: nat, hits: seq<Hit>, taken: nat)
    requires JoinsWithin(tok, slack, hits, taken) && hits != []
    ensures JoinsWithin(tok, slack, hits[1..], taken + 1)
    ensures BlockExcess(tok, hits, taken)
         <= slack + if |hits| == 1 then 0 else slack + BlockExcess(tok, hits[1..], taken + 1)
  {
    hide PassageExcess;
    if |hits| == 1 {
      assert hits[1..] == [];
    }
  }

  lemma {:induction false} ExcessWithin(tok: Estimator, slack: nat, hits: seq<Hit>, taken: nat)
    requires JoinsWithin(tok, slack, hits, taken) && hits != []
    ensures BlockExcess(tok, hits, taken) <= 2 * slack * |hits| - slack
    decreases |hits|
  {
    hide JoinsWithin, BlockExcess;
    ExcessStep(tok, slack, hits, taken);
    if |hits| > 1 {
      ExcessWithin(tok, slack, hits[1..], taken + 1);
      assert 2 * slack * |hits| == 2 * slack + 2 * slack * |hits[1..]|;
    }
  }

  lemma SlackGrows(slack: nat, n: int, m: int)
    requires n <= m
    ensures 2 * slack * n <= 2 * slack * m
  {
    assert 2 * slack * (m - n) >= 0;
  }

  /** With n passages there are 2 n joins, so n passages fit if none costs more than 256 / 2 n tokens:
      8 for the 16 passages of the quality profile. */
  lemma FewPassagesFit(tok: Estimator, slack: nat, r: Request)
    requires CountsLabels(tok) && ChatCalled(tok, r) && r.profile.conversationHistoryTokens >= 0
    requires RequestJoinsWithin(tok, slack, r.question, Evidence(tok, r))
    requires 2 * slack * r.profile.retrievedChunks <= CONTEXT_SAFETY_MARGIN
    ensures TotalTokens(tok, Messages(tok, r)) + r.profile.maxOutputTokens <= Window(r)
  {
    var evidence := Evidence(tok, r);
    GreedyIsFeasible(tok, r.ranked, 0, r.profile.retrievedChunks, Budget(tok, r));
    hide CountsLabels, JoinsWithin, UserMessage, UserFraming, EvidenceBlock, BlockExcess, Messages, Window, TotalTokens;
    ExcessWithin(tok, slack, evidence, 0);
    SlackGrows(slack, |evidence|, r.profile.retrievedChunks);
    PromptFits(tok, r);
  }
}
