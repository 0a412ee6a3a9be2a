/** Retrieval and prompt building for Ask as the loops of ai/rag.py and services/ask_conversations.py. */
module AskService {
  import opened Wrappers
  import opened RankFusion
  import opened Fusion
  import opened AskBudget

  /** `_fit_chunks_to_budget`: the greedy choice, hit by hit. */
  method FitChunksToBudget(tok: Estimator, ranked: seq<Hit>, maxChunks: int, tokenBudget: int) returns (selected: seq<Hit>)
    ensures selected == Fit(tok, ranked, maxChunks, tokenBudget)
    ensures selected != [] ==> |selected| <= maxChunks && EvidenceCost(tok, selected, 0) <= tokenBudget
  {
    hide *;
    FitBounds(tok, ranked, maxChunks, tokenBudget);
    selected := [];
    var usedTokens := 0;
    assert ranked[0..] == ranked;
    NothingTaken(tok, ranked, maxChunks, tokenBudget);
    for i := 0 to |ranked|
      invariant Fit(tok, ranked, maxChunks, tokenBudget)
             == selected + FitFrom(tok, ranked[i..], |selected|, maxChunks, tokenBudget - usedTokens)
    {
      FitStep(tok, ranked[i..], |selected|, maxChunks, tokenBudget - usedTokens);
      if |selected| >= maxChunks {
        NoneFit(tok, ranked[i..], |selected|, maxChunks, tokenBudget - usedTokens);
        return;
      }
      var item := ranked[i];
      var cost := PassageCost(tok, |selected| + 1, item);
      assert ranked[i..][0] == item && ranked[i..][1..] == ranked[i + 1..];
      if usedTokens + cost > tokenBudget {
        continue;
      }
      selected := selected + [item];
      usedTokens := usedTokens + cost;
    }
    NoneFit(tok, ranked[|ranked|..], |selected|, maxChunks, tokenBudget - usedTokens);
  }

  lemma FitBounds(tok: Estimator, ranked: seq<Hit>, maxChunks: int, budget: int)
    ensures var selected := Fit(tok, ranked, maxChunks, budget);
      selected != [] ==> |selected| <= maxChunks && EvidenceCost(tok, selected, 0) <= budget
  {
    GreedyIsFeasible(tok, ranked, 0, maxChunks, budget);
  }

  lemma NothingTaken(tok: Estimator, ranked: seq<Hit>, maxChunks: int, budget: int)
    ensures Fit(tok, ranked, maxChunks, budget) == [] + FitFrom(tok, ranked, 0, maxChunks, budget)
  {
  }

  lemma FitStep(tok: Estimator, rest: seq<Hit>, taken: nat, maxChunks: int, budget: int)
    requires rest != []
    ensures var cost := PassageCost(tok, taken + 1, rest[0]);
      FitFrom(tok, rest, taken, maxChunks, budget) ==
        if taken < maxChunks && cost <= budget then [rest[0]] + FitFrom(tok, rest[1..], taken + 1, maxChunks, budget - cost)
        else FitFrom(tok, rest[1..], taken, maxChunks, budget)
  {
  }

  lemma NoneFit(tok: Estimator, rest: seq<Hit>, taken: nat, maxChunks: int, budget: int)
    requires maxChunks <= taken || rest == []
    ensures FitFrom(tok, rest, taken, maxChunks, budget) == []
  {
    GreedyIsFeasible(tok, rest, taken, maxChunks, budget);
  }

  // ------------------------------------------------------------ hybrid_retrieve

  function Confident(hits: seq<Hit>, minScore: Option<real>): seq<Hit> {
    if hits == [] then []
    else
      var before := Confident(hits[..|hits| - 1], minScore);
      var last := hits[|hits| - 1];
      if minScore.None? || last.score >= minScore.value then before + [last] else before
  }

  predicate Reaches(h: Hit, minScore: Option<real>) {
    minScore.Some? ==> minScore.value <= h.score
  }

  /** `kept` are the hits at `places`, which are the places of all hits that reach the minimum, in order. */
  ghost predicate KeptAt(hits: seq<Hit>, minScore: Option<real>, kept: seq<Hit>, places: seq<nat>) {
    && |places| == |kept| && (forall i | 0 <= i < |kept| :: places[i] < |hits| && kept[i] == hits[places[i]])
    && (forall i, j | 0 <= i < j < |places| :: places[i] < places[j])
    && (forall p: nat | p < |hits| :: Reaches(hits[p], minScore) <==> p in places)
  }

  lemma KeptOneMore(hits: seq<Hit>, last: Hit, minScore: Option<real>, kept: seq<Hit>, places: seq<nat>)
    requires KeptAt(hits, minScore, kept, places)
    ensures if Reaches(last, minScore) then KeptAt(hits + [last], minScore, kept + [last], places + [|hits|])
            else KeptAt(hits + [last], minScore, kept, places)
  {
    hide Reaches;
    forall p <- places ensures p < |hits| {
    }
    forall p: nat | p < |hits + [last]|
      ensures Reaches((hits + [last])[p], minScore) <==> p in places || (p == |hits| && Reaches(last, minScore))
    {
      assert p < |hits| ==> (hits + [last])[p] == hits[p];
    }
  }

  /** Exactly the hits that reach the minimum stay, in their order. */
  lemma {:induction false} ConfidentExactly(hits: seq<Hit>, minScore: Option<real>) returns (places: seq<nat>)
    ensures KeptAt(hits, minScore, Confident(hits, minScore), places)
  {
    places := [];
    if hits != [] {
      hide KeptAt;
      var k := |hits| - 1;
      var before := ConfidentExactly(hits[..k], minScore);
      KeptOneMore(hits[..k], hits[k], minScore, Confident(hits[..k], minScore), before);
      assert hits[..k] + [hits[k]] == hits;
      places := if Reaches(hits[k], minScore) then before + [k] else before;
    }
  }

  /** A hit of the given lists with its score replaced. */
  ghost predicate Rescores(h: Hit, hits: seq<Hit>) {
    exists s: real :: LastHit(hits, h.(score := s))
  }

  /** The order in which the searches' hits are offered to the budget. A chunk that both found is
      represented by its keyword hit. */
  ghost predicate Merges(ranked: seq<Hit>, semantic: seq<Hit>, keyword: seq<Hit>) {
    if semantic != [] && keyword != [] then
      var lists := [IdsOf(semantic), IdsOf(keyword)];
      && Fused(IdsOf(ranked), lists, RRF_K)
      && (forall h <- ranked :: h.score == Score(lists, h.chunk.id, RRF_K) && Rescores(h, semantic + keyword))
    else if semantic != [] then ranked == semantic
    else ranked == keyword
  }

  method HybridRetrieve(tok: Estimator, semanticHits: seq<Hit>, keywordHits: seq<Hit>, semanticMinScore: Option<real>,
                        maxChunks: int, tokenBudget: int)
    returns (selected: seq<Hit>)
    ensures exists ranked: seq<Hit> ::
      Merges(ranked, Confident(semanticHits, semanticMinScore), keywordHits) && selected == Fit(tok, ranked, maxChunks, tokenBudget)
  {
    hide Fused, Fit, LastHit, Flat, Score;
    var kept := semanticHits;
    if semanticMinScore.Some? {
      kept := [];
      for i := 0 to |semanticHits|
        invariant kept == Confident(semanticHits[..i], semanticMinScore)
      {
        assert semanticHits[..i + 1][..i] == semanticHits[..i];
        if semanticHits[i].score >= semanticMinScore.value {
          kept := kept + [semanticHits[i]];
        }
      }
      assert semanticHits[..|semanticHits|] == semanticHits;
    } else {
      AllConfident(semanticHits);
    }
    var merged;
    if kept != [] && keywordHits != [] {
      merged := FuseHits([kept, keywordHits], RRF_K);
      assert IdLists([kept, keywordHits]) == [IdsOf(kept), IdsOf(keywordHits)];
      FlatTwo(kept, keywordHits);
    } else if kept != [] {
      merged := kept;
    } else {
      merged := keywordHits;
    }
    selected := FitChunksToBudget(tok, merged, maxChunks, tokenBudget);
  }

  lemma FlatTwo(a: seq<Hit>, b: seq<Hit>)
    ensures Flat([a, b]) == a + b
  {
    assert [a, b][..1] == [a] && [a][..0] == [];
    assert Flat([a]) == Flat([]) + a;
    assert Flat([a, b]) == Flat([a]) + b;
  }

  lemma {:induction false} AllConfident(hits: seq<Hit>)
    ensures Confident(hits, None) == hits
  {
    if hits != [] {
      AllConfident(hits[..|hits| - 1]);
    }
  }

  // ------------------------------------------------------------ the messages

  /** The oldest turns that stay within the history budget. */
  method KeepHistory(tok: Estimator, conversation: seq<string>, historyBudget: int) returns (kept: seq<string>)
    ensures kept == conversation[..KeptTurns(tok, conversation, historyBudget)]
  {
    kept := [];
    var used := 0;
    var i := 0;
    assert conversation[0..] == conversation;
    while i < |conversation| && used + tok(conversation[i]) <= historyBudget
      invariant i <= |conversation|
      invariant KeptTurns(tok, conversation, historyBudget) == i + KeptTurns(tok, conversation[i..], historyBudget - used)
      invariant kept == conversation[..i]
    {
      assert conversation[i..][1..] == conversation[i + 1..];
      used := used + tok(conversation[i]);
      kept := kept + [conversation[i]];
      i := i + 1;
    }
    assert KeptTurns(tok, conversation[i..], historyBudget - used) == 0;
  }

  /** The call of the chat model, if it is made: system prompt, kept history, evidence and question. */
  method ComposeMessages(tok: Estimator, r: Request) returns (messages: Option<seq<string>>)
    ensures messages == if ChatCalled(tok, r) then Some(Messages(tok, r)) else None
    ensures messages.Some? && CountsLabels(tok) && r.profile.conversationHistoryTokens >= 0 ==> Accounted(tok, r) <= Window(r)
  {
    hide Window, Budget, UserMessage, UserFraming, CountsLabels, Accounted, Fit, KeptTurns;
    var evidence := FitChunksToBudget(tok, r.ranked, r.profile.retrievedChunks, Budget(tok, r));
    if evidence == [] {
      return None;
    }
    var history := KeepHistory(tok, r.conversation, r.profile.conversationHistoryTokens);
    if CountsLabels(tok) && r.profile.conversationHistoryTokens >= 0 {
      AccountedFits(tok, r);
    }
    return Some([r.systemPrompt] + history + [UserMessage(r.question, evidence)]);
  }

  // ------------------------------------------------------------ select_history_for_model

  datatype Role = User | Assistant | Other

  datatype Turn = Turn(role: Role, content: string)

  /** Walking back from the newest turn: `used` tokens are taken, and `any` turn yet. */
  function Newest(tok: Estimator, turns: seq<Turn>, used: nat, any: bool, budget: int): (taken: seq<Turn>)
    ensures |taken| <= |turns|
  {
    if turns == [] then []
    else
      var last := turns[|turns| - 1];
      var tokens := tok(last.content);
      if any && used + tokens > budget then []
      else Newest(tok, turns[..|turns| - 1], used + tokens, true, budget) + [last]
  }

  function Spoken(turns: seq<Turn>): seq<string> {
    if turns == [] then []
    else
      var rest := Spoken(turns[1..]);
      if turns[0].role == Other then rest else [turns[0].content] + rest
  }

  /** The user and assistant turns. */
  predicate IsSpoken(turn: Turn) {
    turn.role != Other
  }

  /** At which place of Spoken(turns) the i-th turn would stand. */
  function SpokenBefore(turns: seq<Turn>, i: nat): nat
    requires i <= |turns|
  {
    |Spoken(turns[..i])|
  }

  ghost predicate ComesFromTurn(turns: seq<Turn>, k: nat) {
    exists i | 0 <= i < |turns| :: IsSpoken(turns[i]) && SpokenBefore(turns, i) == k
  }

  lemma {:induction false} SpokenAppend(a: seq<Turn>, b: seq<Turn>)
    ensures Spoken(a + b) == Spoken(a) + Spoken(b)
  {
    if a == [] {
      assert a + b == b;
    } else {
      SpokenAppend(a[1..], b);
      assert (a + b)[1..] == a[1..] + b;
    }
  }

  /** Each user or assistant turn stands behind those before it, with its own words; and there is
      nothing else: every text is that of such a turn. */
  lemma SpokenInOrder(turns: seq<Turn>)
    ensures forall i | 0 <= i < |turns| && IsSpoken(turns[i]) ::
      SpokenBefore(turns, i) < |Spoken(turns)| && Spoken(turns)[SpokenBefore(turns, i)] == turns[i].content
    ensures forall i, j | 0 <= i < j < |turns| && IsSpoken(turns[i]) :: SpokenBefore(turns, i) < SpokenBefore(turns, j)
    ensures forall k | 0 <= k < |Spoken(turns)| :: ComesFromTurn(turns, k)
  {
    hide Spoken;
    forall i | 0 <= i < |turns| && IsSpoken(turns[i])
      ensures SpokenBefore(turns, i) < |Spoken(turns)| && Spoken(turns)[SpokenBefore(turns, i)] == turns[i].content
      ensures forall j | i < j < |turns| :: SpokenBefore(turns, i) < SpokenBefore(turns, j)
    {
      SpokenAt(turns, i);
      forall j | i < j < |turns| ensures SpokenBefore(turns, i) < SpokenBefore(turns, j) {
        SpokenAt(turns[..j], i);
        assert turns[..j][..i] == turns[..i];
      }
    }
    forall k | 0 <= k < |Spoken(turns)| ensures ComesFromTurn(turns, k) {
      var i := SpokenFrom(turns, k);
    }
  }

  lemma SpokenAt(turns: seq<Turn>, i: nat)
    requires i < |turns| && IsSpoken(turns[i])
    ensures SpokenBefore(turns, i) < |Spoken(turns)| && Spoken(turns)[SpokenBefore(turns, i)] == turns[i].content
  {
    SpokenAppend(turns[..i], turns[i..]);
    assert turns == turns[..i] + turns[i..];
  }

  lemma {:induction false} SpokenFrom(turns: seq<Turn>, k: nat) returns (i: nat)
    requires k < |Spoken(turns)|
    ensures i < |turns| && IsSpoken(turns[i]) && SpokenBefore(turns, i) == k
  {
    var n := |turns| - 1;
    SpokenAppend(turns[..n], turns[n..]);
    assert turns == turns[..n] + turns[n..];
    if k < |Spoken(turns[..n])| {
      i := SpokenFrom(turns[..n], k);
      assert turns[..n][..i] == turns[..i];
    } else {
      i := n;
    }
  }

  function SelectedHistory(tok: Estimator, turns: seq<Turn>, budget: int): seq<string> {
    if budget <= 0 then [] else Spoken(Newest(tok, turns, 0, false, budget))
  }

  method SelectHistoryForModel(tok: Estimator, turns: seq<Turn>, tokenBudget: int) returns (history: seq<string>)
    ensures history == SelectedHistory(tok, turns, tokenBudget)
    ensures tokenBudget <= 0 ==> history == []
  {
    if tokenBudget <= 0 || turns == [] {
      return [];
    }
    hide *;
    var selected: seq<Turn>, used: nat := [], 0;
    var i := |turns|;
    assert turns[..i] == turns;
    ghost var goal := Newest(tok, turns, 0, false, tokenBudget);
    assert goal + [] == goal;
    while i > 0 && !(selected != [] && used + tok(turns[i - 1].content) > tokenBudget)
      invariant 0 <= i <= |turns|
      invariant goal == Newest(tok, turns[..i], used, selected != [], tokenBudget) + selected
    {
      NewestStep(tok, turns, i, used, selected, tokenBudget);
      used := used + tok(turns[i - 1].content);
      selected := [turns[i - 1]] + selected;
      i := i - 1;
    }
    NewestStop(tok, turns[..i], used, selected != [], tokenBudget);
    assert [] + selected == selected;
    SelectedIs(tok, turns, tokenBudget);
    history := SpokenTurns(selected);
  }

  lemma SelectedIs(tok: Estimator, turns: seq<Turn>, budget: int)
    requires budget > 0
    ensures SelectedHistory(tok, turns, budget) == Spoken(Newest(tok, turns, 0, false, budget))
  {
  }

  lemma NewestStep(tok: Estimator, turns: seq<Turn>, i: nat, used: nat, selected: seq<Turn>, budget: int)
    requires 0 < i <= |turns| && !(selected != [] && used + tok(turns[i - 1].content) > budget)
    ensures Newest(tok, turns[..i], used, selected != [], budget) + selected
         == Newest(tok, turns[..i - 1], used + tok(turns[i - 1].content), true, budget) + ([turns[i - 1]] + selected)
  {
    assert turns[..i][..i - 1] == turns[..i - 1];
  }

  lemma NewestStop(tok: Estimator, turns: seq<Turn>, used: nat, any: bool, budget: int)
    requires turns == [] || (any && used + tok(turns[|turns| - 1].content) > budget)
    ensures Newest(tok, turns, used, any, budget) == []
  {
  }

  method SpokenTurns(selected: seq<Turn>) returns (history: seq<string>)
    ensures history == Spoken(selected)
  {
    history := [];
    var j := |selected|;
    assert selected[j..] == [];
    while j > 0
      invariant 0 <= j <= |selected|
      invariant history == Spoken(selected[j..])
    {
      j := j - 1;
      assert selected[j..][1..] == selected[j + 1..];
      if selected[j].role != Other {
        history := [selected[j].content] + history;
      }
    }
    assert selected[0..] == selected;
  }

  function TurnTokens(tok: Estimator, turns: seq<Turn>): nat {
    if turns == [] then 0 else TurnTokens(tok, turns[..|turns| - 1]) + tok(turns[|turns| - 1].content)
  }

  /** Where the taken turns begin. */
  function Start(tok: Estimator, turns: seq<Turn>, used: nat, any: bool, budget: int): (s: nat)
    ensures s <= |turns|
  {
    |turns| - |Newest(tok, turns, used, any, budget)|
  }

  function SinceTokens(tok: Estimator, turns: seq<Turn>, s: nat): nat
    requires s <= |turns|
  {
    TurnTokens(tok, turns[s..])
  }

  lemma SinceStep(tok: Estimator, turns: seq<Turn>, s: nat)
    requires s < |turns|
    ensures SinceTokens(tok, turns, s) == SinceTokens(tok, turns[..|turns| - 1], s) + tok(turns[|turns| - 1].content)
  {
    var k := |turns| - 1;
    assert turns[s..] == turns[..k][s..] + [turns[k]];
    LastTokens(tok, turns[..k][s..], turns[k]);
  }

  lemma StartStep(tok: Estimator, turns: seq<Turn>, used: nat, any: bool, budget: int)
    requires turns != []
    ensures var k := |turns| - 1;
      var tokens := tok(turns[k].content);
      Start(tok, turns, used, any, budget) == if any && used + tokens > budget then |turns| else Start(tok, turns[..k], used + tokens, true, budget)
  {
  }

  lemma {:induction false} NewestIsSuffix(tok: Estimator, turns: seq<Turn>, used: nat, any: bool, budget: int)
    ensures Newest(tok, turns, used, any, budget) == turns[Start(tok, turns, used, any, budget)..]
  {
    if turns != [] {
      var k := |turns| - 1;
      NewestIsSuffix(tok, turns[..k], used + tok(turns[k].content), true, budget);
    }
  }

  /** The turns taken are the newest ones; more than one is taken only within the budget; and one
      more would not fit. */
  lemma {:induction false} NewestIsLongest(tok: Estimator, turns: seq<Turn>, used: nat, any: bool, budget: int)
    ensures var s := Start(tok, turns, used, any, budget);
      && (s < |turns| && (any || s + 1 < |turns|) ==> used + SinceTokens(tok, turns, s) <= budget)
      && (s > 0 ==> used + SinceTokens(tok, turns, s - 1) > budget)
      && (!any && turns != [] ==> s < |turns|)
  {
    hide TurnTokens, Start;
    if turns != [] {
      var k := |turns| - 1;
      NoneSince(tok, turns[..k]);
      NoneSince(tok, turns);
      var s := Start(tok, turns, used, any, budget);
      StartStep(tok, turns, used, any, budget);
      NewestIsLongest(tok, turns[..k], used + tok(turns[k].content), true, budget);
      if s < |turns| {
        SinceStep(tok, turns, s);
      }
      if s > 0 {
        SinceStep(tok, turns, s - 1);
      }
    }
  }

  lemma NoneSince(tok: Estimator, turns: seq<Turn>)
    ensures SinceTokens(tok, turns, |turns|) == 0
  {
  }

  lemma LastTokens(tok: Estimator, turns: seq<Turn>, last: Turn)
    ensures TurnTokens(tok, turns + [last]) == TurnTokens(tok, turns) + tok(last.content)
  {
    assert (turns + [last])[..|turns|] == turns;
  }

  lemma {:induction false} SpokenTokens(tok: Estimator, turns: seq<Turn>)
    ensures TotalTokens(tok, Spoken(turns)) <= TurnTokens(tok, turns) && |Spoken(turns)| <= |turns|
  {
    if turns != [] {
      SpokenTokens(tok, turns[1..]);
      FirstTokens(tok, turns);
    }
  }

  lemma {:induction false} FirstTokens(tok: Estimator, turns: seq<Turn>)
    requires turns != []
    ensures TurnTokens(tok, turns) == tok(turns[0].content) + TurnTokens(tok, turns[1..])
  {
    if |turns| == 1 {
      assert turns[..0] == [];
    } else {
      FirstTokens(tok, turns[..|turns| - 1]);
      assert turns[..|turns| - 1][1..] == turns[1..][..|turns| - 2];
    }
  }

  lemma {:induction false} KeepsAll(tok: Estimator, conversation: seq<string>, budget: int)
    requires TotalTokens(tok, conversation) <= budget
    ensures KeptTurns(tok, conversation, budget) == |conversation|
  {
    if conversation != [] {
      KeepsAll(tok, conversation[1..], budget - tok(conversation[0]));
    }
  }

  lemma {:induction false} TotalSmaller(tok: Estimator, count: Estimator, texts: seq<string>)
    requires forall t <- texts :: tok(t) <= count(t)
    ensures TotalTokens(tok, texts) <= TotalTokens(count, texts)
  {
    if texts != [] {
      assert texts[0] in texts;
      TotalSmaller(tok, count, texts[1..]);
    }
  }

  /** Only a single turn that is too long by itself can put the selection over its budget. */
  lemma SelectionOverBudget(count: Estimator, turns: seq<Turn>, budget: int)
    requires budget > 0 && TotalTokens(count, SelectedHistory(count, turns, budget)) > budget
    ensures |SelectedHistory(count, turns, budget)| == 1
  {
    hide Newest, Spoken, TurnTokens, SinceTokens;
    var taken := Newest(count, turns, 0, false, budget);
    NewestIsLongest(count, turns, 0, false, budget);
    NewestIsSuffix(count, turns, 0, false, budget);
    SpokenTokens(count, taken);
    SinceIs(count, turns, Start(count, turns, 0, false, budget));
  }

  lemma SinceIs(tok: Estimator, turns: seq<Turn>, s: nat)
    requires s <= |turns|
    ensures SinceTokens(tok, turns, s) == TurnTokens(tok, turns[s..])
  {
  }

  /** `ask` measures the selected history again with the same allowance and its own tokenizer. If that
      one counts no higher, `ask` keeps all of a selection within the allowance, and never a part of
      one: what is over the allowance is a single turn. */
  lemma SelectionSurvivesAsk(count: Estimator, tok: Estimator, turns: seq<Turn>, budget: int)
    requires forall t <- SelectedHistory(count, turns, budget) :: tok(t) <= count(t)
    ensures var history := SelectedHistory(count, turns, budget);
      && (TotalTokens(count, history) <= budget ==> KeptTurns(tok, history, budget) == |history|)
      && (TotalTokens(count, history) > budget && budget > 0 ==>
            |history| == 1 && KeptTurns(tok, history, budget) == if tok(history[0]) <= budget then 1 else 0)
  {
    hide SelectedHistory;
    var history := SelectedHistory(count, turns, budget);
    if TotalTokens(count, history) <= budget {
      TotalSmaller(tok, count, history);
      KeepsAll(tok, history, budget);
    } else if budget > 0 {
      SelectionOverBudget(count, turns, budget);
      assert history[1..] == [];
    }
  }
}
