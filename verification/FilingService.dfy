/** The sampler as the searches and loops of ai/filing_context.py. */
module FilingService {
  import opened Strings
  import opened Words
  import opened FilingSampler

  lemma PrefixesFit(text: string, m: nat, n: nat)
    requires m <= n <= |text|
    ensures Estimate(text[..m]) <= Estimate(text[..n])
  {
    PrefixCount(text[..n], m);
    assert text[..n][..m] == text[..m];
  }

  lemma SuffixesFit(text: string, m: nat, n: nat)
    requires m <= n <= |text|
    ensures Estimate(Tail(text, m)) <= Estimate(Tail(text, n))
  {
    SuffixCount(Tail(text, n), n - m);
    assert Tail(text, n)[n - m..] == Tail(text, m);
  }

  lemma {:induction false} LongestPrefixAt(text: string, budget: int, m: nat, n: nat)
    requires m <= n <= |text| && (m == 0 || Estimate(text[..m]) <= budget)
    requires forall k | m < k <= n :: Estimate(text[..k]) > budget
    ensures LongestPrefix(text, budget, n) == m
  {
    if m < n {
      LongestPrefixAt(text, budget, m, n - 1);
    }
  }

  lemma {:induction false} LongestSuffixAt(text: string, budget: int, m: nat, n: nat)
    requires m <= n <= |text| && (m == 0 || Estimate(Tail(text, m)) <= budget)
    requires forall k | m < k <= n :: Estimate(Tail(text, k)) > budget
    ensures LongestSuffix(text, budget, n) == m
  {
    if m < n {
      LongestSuffixAt(text, budget, m, n - 1);
    }
  }

  /** A binary search over prefix lengths finds the longest one that fits. */
  method TakeTokensFromStart(text: string, budget: int) returns (best: string)
    ensures best == TakeFromStart(text, budget)
  {
    hide WordCount, TokensOf, RStrip, LongestPrefix;
    if Estimate(text) <= budget {
      return text;
    }
    var lo, hi := 0, |text|;
    best := "";
    ghost var m := 0;
    NoPrefix(text);
    while lo <= hi
      invariant 0 <= lo <= hi + 1 <= |text| + 1
      invariant m == Max(0, lo - 1) && best == RStrip(text[..m])
      invariant m == 0 || Estimate(text[..m]) <= budget
      invariant forall k | hi < k <= |text| :: Estimate(text[..k]) > budget
    {
      var mid := (lo + hi) / 2;
      var candidate := RStrip(text[..mid]);
      RStripCount(text[..mid]);
      if Estimate(candidate) <= budget {
        best, m := candidate, mid;
        lo := mid + 1;
      } else {
        forall k | mid <= k <= |text| ensures Estimate(text[..k]) > budget {
          PrefixesFit(text, mid, k);
        }
        hi := mid - 1;
      }
    }
    LongestPrefixAt(text, budget, m, |text|);
  }

  lemma NoPrefix(text: string)
    ensures RStrip(text[..0]) == "" && LStrip(Tail(text, 0)) == ""
  {
  }

  method TakeTokensFromEnd(text: string, budget: int) returns (best: string)
    ensures best == TakeFromEnd(text, budget)
  {
    hide WordCount, TokensOf, LStrip, LongestSuffix, Tail;
    if Estimate(text) <= budget {
      return text;
    }
    var lo, hi := 0, |text|;
    best := "";
    ghost var m := 0;
    NoPrefix(text);
    while lo <= hi
      invariant 0 <= lo <= hi + 1 <= |text| + 1
      invariant m == Max(0, lo - 1) && best == LStrip(Tail(text, m))
      invariant m == 0 || Estimate(Tail(text, m)) <= budget
      invariant forall k | hi < k <= |text| :: Estimate(Tail(text, k)) > budget
    {
      var mid := (lo + hi) / 2;
      var candidate := LStrip(Tail(text, mid));
      LStripCount(Tail(text, mid));
      if Estimate(candidate) <= budget {
        best, m := candidate, mid;
        lo := mid + 1;
      } else {
        forall k | mid <= k <= |text| ensures Estimate(Tail(text, k)) > budget {
          SuffixesFit(text, mid, k);
        }
        hi := mid - 1;
      }
    }
    LongestSuffixAt(text, budget, m, |text|);
  }

  /** The window grows until it holds the budget or the whole text, and is cut if it overshot. */
  method TakeTokensAround(text: string, center: nat, budget: int) returns (best: string)
    requires center <= |text|
    ensures best == TakeAround(text, center, budget)
  {
    hide WordCount, TokensOf, TakeFromStart;
    if text == "" {
      return "";
    }
    if Estimate(text) <= budget {
      return text;
    }
    var half := Max(64, |text| / 20);
    var lo := Max(0, center - half);
    var hi := Min(|text|, center + half);
    best := text[lo..hi];
    while Estimate(best) < budget && (lo > 0 || hi < |text|)
      invariant 0 <= lo <= hi <= |text| && half >= 64 && best == text[lo..hi]
      invariant Widen(text, lo, hi, half, budget) == WindowAround(text, center, budget)
      decreases lo + |text| - hi
    {
      lo := Max(0, lo - half);
      hi := Min(|text|, hi + half);
      best := text[lo..hi];
      half := Max(half, if (hi - lo) / 4 > 0 then (hi - lo) / 4 else 1);
    }
    if Estimate(best) > budget {
      best := TakeTokensFromStart(best, budget);
    } else {
      WholeFits(best, budget);
    }
  }

  lemma WholeFits(text: string, budget: int)
    requires Estimate(text) <= budget
    ensures TakeFromStart(text, budget) == text
  {
  }

  /** The four labelled windows. */
  method SampleWindows(joined: string, tokenBudget: int) returns (sample: string)
    ensures sample == Sample(joined, tokenBudget)
    ensures tokenBudget >= 4 && Estimate(joined) > tokenBudget ==> tokenBudget + 4 <= Estimate(sample) <= tokenBudget + 8
  {
    hide Section, Join, Estimate, TakeFromStart, TakeFromEnd, TakeAround;
    var budgets := BudgetsFor(tokenBudget);
    var windows := [(BEGINNING, 0, budgets.beginning), (EARLY_MIDDLE, 33, budgets.earlyMiddle),
                    (LATE_MIDDLE, 66, budgets.lateMiddle), (ENDING, 100, budgets.ending)];
    ghost var w := WindowsOf(joined, tokenBudget);
    ghost var parts := [Section(BEGINNING, w.beginning), Section(EARLY_MIDDLE, w.earlyMiddle),
                        Section(LATE_MIDDLE, w.lateMiddle), Section(ENDING, w.ending)];
    var sections: seq<string> := [];
    for i := 0 to 4
      invariant sections == FirstParts(parts, i)
    {
      var (heading, percent, budget) := windows[i];
      var chunk;
      if heading == BEGINNING {
        chunk := TakeTokensFromStart(joined, budget);
      } else if heading == ENDING {
        chunk := TakeTokensFromEnd(joined, budget);
      } else {
        chunk := TakeTokensAround(joined, |joined| * percent / 100, budget);
      }
      sections := sections + Section(heading, chunk);
    }
    FourParts(parts[0], parts[1], parts[2], parts[3]);
    sample := Join(sections, "\n\n");
    if tokenBudget >= 4 && Estimate(joined) > tokenBudget {
      SampleOvershoots(joined, tokenBudget);
    }
  }

  ghost function FirstParts(parts: seq<seq<string>>, n: nat): seq<string>
    requires n <= |parts|
  {
    if n == 0 then [] else FirstParts(parts, n - 1) + parts[n - 1]
  }

  lemma FourParts(a: seq<string>, b: seq<string>, c: seq<string>, d: seq<string>)
    ensures FirstParts([a, b, c, d], 4) == a + b + c + d
  {
    var parts := [a, b, c, d];
    assert FirstParts(parts, 1) == a;
    assert FirstParts(parts, 2) == a + b;
    assert FirstParts(parts, 3) == a + b + c;
  }

  /** The text in full if it fits, else its sample. */
  method BuildSample(full: string, tokenBudget: int) returns (text: string, tokenCount: nat, usedFullText: bool)
    ensures usedFullText <==> WordCount(full) == 0 || Estimate(full) <= tokenBudget
    ensures usedFullText && WordCount(full) > 0 ==> text == full
    ensures !usedFullText ==> text == Sample(full, tokenBudget)
    ensures tokenCount == Estimate(text)
    ensures tokenBudget >= 4 ==> tokenCount <= tokenBudget + 8
  {
    hide WordCount, Sample;
    if WordCount(full) == 0 {
      NoWords("");
      return "", 0, true;
    }
    if Estimate(full) <= tokenBudget {
      return full, Estimate(full), true;
    }
    text := SampleWindows(full, tokenBudget);
    return text, Estimate(text), false;
  }
}
