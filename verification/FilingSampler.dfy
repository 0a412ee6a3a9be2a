/** The text sampler for filing: four windows of a long text, cut by characters, measured in tokens by
    the word-count estimator. */
module FilingSampler {
  import opened Strings
  import opened Words

  // ------------------------------------------------------------ words in a string

  predicate StartsWord(s: string, i: nat)
    requires i < |s|
  {
    !Blank(s[i]) && (i == 0 || Blank(s[i - 1]))
  }

  function WordCount(s: string): nat {
    if s == [] then 0
    else WordCount(s[..|s| - 1]) + if StartsWord(s, |s| - 1) then 1 else 0
  }

  function Estimate(s: string): nat {
    TokensOf(WordCount(s))
  }

  /** The two texts meet inside a word. */
  predicate Joined(a: string, b: string) {
    a != [] && b != [] && !Blank(a[|a| - 1]) && !Blank(b[0])
  }

  lemma {:induction false} CountAppend(a: string, b: string)
    ensures WordCount(a + b) == WordCount(a) + WordCount(b) - (if Joined(a, b) then 1 else 0)
  {
    if b == [] {
      assert a + b == a;
    } else {
      var n := |b| - 1;
      CountAppend(a, b[..n]);
      assert (a + b)[..|a| + n] == a + b[..n];
    }
  }

  lemma {:induction false} EndsInWord(a: string)
    requires a != [] && !Blank(a[|a| - 1])
    ensures WordCount(a) > 0
  {
    if |a| > 1 && !Blank(a[|a| - 2]) {
      EndsInWord(a[..|a| - 1]);
    }
  }

  lemma PrefixCount(s: string, i: nat)
    requires i <= |s|
    ensures WordCount(s[..i]) <= WordCount(s)
  {
    hide WordCount;
    CountAppend(s[..i], s[i..]);
    assert s == s[..i] + s[i..];
    if Joined(s[..i], s[i..]) {
      StartsInWord(s[i..]);
    }
  }

  lemma SuffixCount(s: string, i: nat)
    requires i <= |s|
    ensures WordCount(s[i..]) <= WordCount(s)
  {
    hide WordCount;
    CountAppend(s[..i], s[i..]);
    assert s == s[..i] + s[i..];
    if Joined(s[..i], s[i..]) {
      EndsInWord(s[..i]);
    }
  }

  lemma {:induction false} StartsInWord(b: string)
    requires b != [] && !Blank(b[0])
    ensures WordCount(b) > 0
  {
    if |b| > 1 {
      StartsInWord(b[..|b| - 1]);
    }
  }

  lemma PrefixStep(s: string, m: nat)
    requires m < |s|
    ensures WordCount(s[..m + 1]) == WordCount(s[..m]) + if StartsWord(s, m) then 1 else 0
  {
    assert s[..m + 1][..m] == s[..m];
  }

  lemma {:induction false} RStripCount(s: string)
    ensures WordCount(RStrip(s)) == WordCount(s)
  {
    if s != [] && Blank(s[|s| - 1]) {
      RStripCount(s[..|s| - 1]);
    }
  }

  lemma {:induction false} LStripCount(s: string)
    ensures WordCount(LStrip(s)) == WordCount(s)
  {
    if s != [] && Blank(s[0]) {
      LStripCount(s[1..]);
      CountAppend([s[0]], s[1..]);
      assert s == [s[0]] + s[1..];
      assert [s[0]][..0] == [];
    }
  }

  lemma StripCount(s: string)
    ensures WordCount(Strip(s)) == WordCount(s)
  {
    RStripCount(s);
    LStripCount(RStrip(s));
  }

  // ------------------------------------------------------------ the most words that fit

  function MaxWords(budget: nat): nat {
    (10 * budget + 9) / 13
  }

  lemma MaxWordsFits(budget: nat, words: nat)
    ensures TokensOf(words) <= budget <==> words <= MaxWords(budget)
  {
  }

  // ------------------------------------------------------------ prefixes and suffixes

  /** The longest prefix length up to `n` that fits, or 0. */
  function LongestPrefix(text: string, budget: int, n: nat): (m: nat)
    requires n <= |text|
    ensures m <= n
  {
    if n == 0 || Estimate(text[..n]) <= budget then n else LongestPrefix(text, budget, n - 1)
  }

  function Tail(text: string, n: nat): string
    requires n <= |text|
  {
    text[|text| - n..]
  }

  function LongestSuffix(text: string, budget: int, n: nat): (m: nat)
    requires n <= |text|
    ensures m <= n
  {
    if n == 0 || Estimate(Tail(text, n)) <= budget then n else LongestSuffix(text, budget, n - 1)
  }

  function TakeFromStart(text: string, budget: int): string {
    if Estimate(text) <= budget then text else RStrip(text[..LongestPrefix(text, budget, |text|)])
  }

  function TakeFromEnd(text: string, budget: int): string {
    if Estimate(text) <= budget then text else LStrip(Tail(text, LongestSuffix(text, budget, |text|)))
  }

  lemma {:induction false} LongestPrefixIs(text: string, budget: nat, n: nat)
    requires n <= |text|
    ensures var m := LongestPrefix(text, budget, n);
      Estimate(text[..m]) <= budget && forall k | m < k <= n :: Estimate(text[..k]) > budget
  {
    if n > 0 && Estimate(text[..n]) > budget {
      LongestPrefixIs(text, budget, n - 1);
    }
  }

  lemma {:induction false} LongestSuffixIs(text: string, budget: nat, n: nat)
    requires n <= |text|
    ensures var m := LongestSuffix(text, budget, n);
      Estimate(Tail(text, m)) <= budget && forall k | m < k <= n :: Estimate(Tail(text, k)) > budget
  {
    hide Estimate, Tail;
    if n == 0 {
      NoTail(text);
    } else if Estimate(Tail(text, n)) > budget {
      LongestSuffixIs(text, budget, n - 1);
    }
  }

  lemma NoTail(text: string)
    ensures Estimate(Tail(text, 0)) == 0
  {
  }

  /** A prefix cut from a text over budget is filled to the last word that fits, and the cut is never
      inside a word. */
  lemma StartIsFull(text: string, budget: nat)
    requires Estimate(text) > budget
    ensures WordCount(TakeFromStart(text, budget)) == MaxWords(budget)
    ensures var m := LongestPrefix(text, budget, |text|); m < |text| && StartsWord(text, m)
  {
    hide WordCount, TokensOf, MaxWords;
    var m := LongestPrefix(text, budget, |text|);
    LongestPrefixIs(text, budget, |text|);
    assert text[..|text|] == text;
    PrefixStep(text, m);
    MaxWordsFits(budget, WordCount(text[..m]));
    MaxWordsFits(budget, WordCount(text[..m + 1]));
    RStripCount(text[..m]);
  }

  lemma SuffixStep(s: string, m: nat)
    requires m < |s|
    ensures WordCount(Tail(s, m + 1)) <= WordCount(Tail(s, m)) + 1
  {
    var c, rest := s[|s| - m - 1], Tail(s, m);
    assert Tail(s, m + 1) == [c] + rest;
    CountAppend([c], rest);
    assert [c][..0] == [];
  }

  lemma EndIsFull(text: string, budget: nat)
    requires Estimate(text) > budget
    ensures WordCount(TakeFromEnd(text, budget)) == MaxWords(budget)
  {
    hide WordCount, TokensOf, MaxWords;
    var m := LongestSuffix(text, budget, |text|);
    LongestSuffixIs(text, budget, |text|);
    assert Tail(text, |text|) == text;
    SuffixStep(text, m);
    MaxWordsFits(budget, WordCount(Tail(text, m)));
    MaxWordsFits(budget, WordCount(Tail(text, m + 1)));
    LStripCount(Tail(text, m));
  }

  // ------------------------------------------------------------ around a center

  datatype Span = Span(lo: nat, hi: nat)

  /** The window grows on both sides until it holds the budget or the text. */
  function Widen(text: string, lo: nat, hi: nat, half: nat, budget: int): (s: Span)
    requires lo <= hi <= |text| && half > 0
    ensures s.lo <= lo && hi <= s.hi <= |text|
    ensures Estimate(text[s.lo..s.hi]) >= budget || (s.lo == 0 && s.hi == |text|)
    decreases lo + |text| - hi
  {
    if Estimate(text[lo..hi]) < budget && (lo > 0 || hi < |text|) then
      var lo' := Max(0, lo - half);
      var hi' := Min(|text|, hi + half);
      Widen(text, lo', hi', Max(half, if (hi' - lo') / 4 > 0 then (hi' - lo') / 4 else 1), budget)
    else Span(lo, hi)
  }

  function FirstHalf(text: string): nat {
    Max(64, |text| / 20)
  }

  function WindowAround(text: string, center: nat, budget: int): (s: Span)
    requires center <= |text|
    ensures s.lo <= center <= s.hi <= |text|
  {
    Widen(text, Max(0, center - FirstHalf(text)), Min(|text|, center + FirstHalf(text)), FirstHalf(text), budget)
  }

  function TakeAround(text: string, center: nat, budget: int): string
    requires center <= |text|
  {
    if text == [] || Estimate(text) <= budget then text
    else
      var s := WindowAround(text, center, budget);
      TakeFromStart(text[s.lo..s.hi], budget)
  }

  lemma AroundIsFull(text: string, center: nat, budget: nat)
    requires center <= |text| && Estimate(text) > budget
    ensures WordCount(TakeAround(text, center, budget)) == MaxWords(budget)
  {
    var s := WindowAround(text, center, budget);
    var best := text[s.lo..s.hi];
    assert s.lo == 0 && s.hi == |text| ==> best == text;
    if Estimate(best) > budget {
      StartIsFull(best, budget);
    } else {
      assert TokensOf(WordCount(best)) == budget;
    }
  }

  // ------------------------------------------------------------ the four windows

  datatype Budgets = Budgets(beginning: nat, earlyMiddle: nat, lateMiddle: nat, ending: nat) {
    function Sum(): nat {
      beginning + earlyMiddle + lateMiddle + ending
    }
  }

  /** `int(budget * f)` for f = 0.30 or 0.20, at least 1; the last window takes what is left. */
  function BudgetsFor(budget: int): (b: Budgets)
    ensures b.beginning > 0 && b.earlyMiddle > 0 && b.lateMiddle > 0 && b.ending > 0
  {
    var first := Max(1, if budget >= 0 then budget * 3 / 10 else 0);
    var second := Max(1, if budget >= 0 then budget / 5 else 0);
    Budgets(first, second, second, Max(1, budget - (first + second + second)))
  }

  /** The shares add up to the budget exactly from 4 tokens on; below that they add up to 4. */
  lemma BudgetsAddUp(budget: int)
    ensures BudgetsFor(budget).Sum() == if budget >= 4 then budget else 4
  {
  }

  /** The shares: three tenths for the beginning, a fifth for each middle, the rest for the end. */
  lemma SharesAre(budget: int)
    requires budget >= 5
    ensures var b := BudgetsFor(budget);
      && 10 * b.beginning <= 3 * budget < 10 * b.beginning + 10
      && 5 * b.earlyMiddle <= budget < 5 * b.earlyMiddle + 5 && b.lateMiddle == b.earlyMiddle
      && b.ending == budget - b.beginning - b.earlyMiddle - b.lateMiddle
  {
  }

  lemma {:induction false} RStripIs(s: string)
    ensures RStrip(s) <= s && (RStrip(s) != [] ==> !Blank(RStrip(s)[|RStrip(s)| - 1]))
    ensures forall i | |RStrip(s)| <= i < |s| :: Blank(s[i])
  {
    if s != [] && Blank(s[|s| - 1]) {
      RStripIs(s[..|s| - 1]);
    }
  }

  lemma {:induction false} LStripIs(s: string)
    ensures |LStrip(s)| <= |s| && LStrip(s) == s[|s| - |LStrip(s)|..] && (LStrip(s) != [] ==> !Blank(LStrip(s)[0]))
    ensures forall i | 0 <= i < |s| - |LStrip(s)| :: Blank(s[i])
  {
    if s != [] && Blank(s[0]) {
      LStripIs(s[1..]);
      var r := LStrip(s[1..]);
      assert s[1..][|s| - 1 - |r|..] == s[|s| - |r|..];
      forall i | 0 <= i < |s| - |r| ensures Blank(s[i]) {
        assert i > 0 ==> s[i] == s[1..][i - 1];
      }
    }
  }

  lemma StartIsPrefix(text: string, budget: int)
    ensures TakeFromStart(text, budget) <= text
  {
    if Estimate(text) > budget {
      RStripIs(text[..LongestPrefix(text, budget, |text|)]);
    }
  }

  lemma EndIsSuffix(text: string, budget: int)
    ensures |TakeFromEnd(text, budget)| <= |text|
    ensures TakeFromEnd(text, budget) == text[|text| - |TakeFromEnd(text, budget)|..]
  {
    if Estimate(text) > budget {
      var m := LongestSuffix(text, budget, |text|);
      LStripIs(Tail(text, m));
      var r := LStrip(Tail(text, m));
      assert Tail(text, m)[m - |r|..] == text[|text| - |r|..];
    }
  }

  /** The stretch of the text that reaches `radius` characters to either side of the center. */
  function Reach(text: string, center: nat, radius: nat): (s: Span)
    requires center <= |text|
    ensures s.lo <= center <= s.hi <= |text|
  {
    Span(if center >= radius then center - radius else 0, if center + radius <= |text| then center + radius else |text|)
  }

  /** A twentieth of the text, and at least 64 characters. */
  function Nearby(text: string): nat {
    if |text| >= 1280 then |text| / 20 else 64
  }

  /** So much around the center falls short of the budget. */
  predicate Short(text: string, center: nat, radius: nat, budget: int)
    requires center <= |text|
  {
    var s := Reach(text, center, radius);
    Estimate(text[s.lo..s.hi]) < budget
  }

  /** The window is taken from the start of what lies within `radius` of the center. That is no more
      than nearby if this holds the budget, and else at most twice what falls short of it. */
  ghost predicate StartsAround(text: string, window: string, radius: nat, center: nat, budget: int)
    requires center <= |text|
  {
    var s := Reach(text, center, radius);
    && s.lo + |window| <= s.hi && window == text[s.lo..s.lo + |window|]
    && radius >= Nearby(text)
    && (radius > Nearby(text) ==>
          exists r: nat :: Nearby(text) <= r < radius <= 2 * r && Short(text, center, r, budget))
  }

  function NextHalf(text: string, center: nat, next: nat, half: nat): (h: nat)
    requires center <= |text| && 0 < half <= next
    ensures 0 < h <= next
  {
    var s := Reach(text, center, next);
    Max(half, if (s.hi - s.lo) / 4 > 0 then (s.hi - s.lo) / 4 else 1)
  }

  /** One round of the widening goes from one reach to the next. */
  lemma WidenStep(text: string, center: nat, radius: nat, half: nat, budget: int)
    requires center <= |text| && 0 < half <= radius
    ensures var s, s' := Reach(text, center, radius), Reach(text, center, radius + half);
      var wide := Short(text, center, radius, budget) && (s.lo > 0 || s.hi < |text|);
      && (wide ==> s'.lo + |text| - s'.hi < s.lo + |text| - s.hi)
      && Widen(text, s.lo, s.hi, half, budget)
         == if wide then Widen(text, s'.lo, s'.hi, NextHalf(text, center, radius + half, half), budget) else s
  {
    hide Estimate;
    var s, s' := Reach(text, center, radius), Reach(text, center, radius + half);
    assert s' == Span(Max(0, s.lo - half), Min(|text|, s.hi + half));
  }

  /** So it ends with a reach; each at most doubles the one before. */
  lemma {:induction false} WidenReaches(text: string, center: nat, radius: nat, half: nat, budget: int) returns (last: nat)
    requires center <= |text| && 0 < half <= radius && radius >= Nearby(text)
    ensures var s := Reach(text, center, radius); Widen(text, s.lo, s.hi, half, budget) == Reach(text, center, last)
    ensures last >= radius
    ensures last > radius ==> exists r: nat :: Nearby(text) <= r < last <= 2 * r && Short(text, center, r, budget)
    decreases Reach(text, center, radius).lo + |text| - Reach(text, center, radius).hi
  {
    hide Nearby, Short, Reach, Widen, NextHalf;
    WidenStep(text, center, radius, half, budget);
    var s := Reach(text, center, radius);
    if Short(text, center, radius, budget) && (s.lo > 0 || s.hi < |text|) {
      last := WidenReaches(text, center, radius + half, NextHalf(text, center, radius + half, half), budget);
    } else {
      last := radius;
    }
  }

  lemma AroundLies(text: string, center: nat, budget: int) returns (radius: nat)
    requires center <= |text| && Estimate(text) > budget
    ensures StartsAround(text, TakeAround(text, center, budget), radius, center, budget)
  {
    hide Estimate, RStrip, Widen;
    radius := WidenReaches(text, center, Nearby(text), Nearby(text), budget);
    if text == [] {
      NoWordsIn();
    } else {
      var s := WindowAround(text, center, budget);
      assert s == Reach(text, center, radius);
      var best := text[s.lo..s.hi];
      StartIsPrefix(best, budget);
      var window := TakeFromStart(best, budget);
      assert window == best[..|window|] == text[s.lo..s.lo + |window|];
    }
  }

  lemma NoWordsIn()
    ensures Estimate("") == 0
  {
  }

  datatype Windows = Windows(beginning: string, earlyMiddle: string, lateMiddle: string, ending: string)

  function WindowsOf(text: string, budget: int): Windows {
    var b := BudgetsFor(budget);
    Windows(
      TakeFromStart(text, b.beginning),
      TakeAround(text, |text| * 33 / 100, b.earlyMiddle),
      TakeAround(text, |text| * 66 / 100, b.lateMiddle),
      TakeFromEnd(text, b.ending))
  }

  /** Where the four windows lie: at the two ends of the text, and around a third and two thirds of it. */
  lemma WindowsLie(text: string, budget: int) returns (early: nat, late: nat)
    requires Estimate(text) > budget >= 4
    ensures var w, b, n := WindowsOf(text, budget), BudgetsFor(budget), |text|;
      && w.beginning <= text
      && StartsAround(text, w.earlyMiddle, early, 33 * n / 100, b.earlyMiddle)
      && StartsAround(text, w.lateMiddle, late, 66 * n / 100, b.lateMiddle)
      && |w.ending| <= n && w.ending == text[n - |w.ending|..]
  {
    hide Estimate, TakeFromStart, TakeFromEnd, TakeAround, StartsAround;
    var b := BudgetsFor(budget);
    StartIsPrefix(text, b.beginning);
    EndIsSuffix(text, b.ending);
    early := AroundLies(text, |text| * 33 / 100, b.earlyMiddle);
    late := AroundLies(text, |text| * 66 / 100, b.lateMiddle);
  }

  function WindowTokens(w: Windows): nat {
    Estimate(w.beginning) + Estimate(w.earlyMiddle) + Estimate(w.lateMiddle) + Estimate(w.ending)
  }

  /** What a window of the given budget holds: all it can, or the whole text. */
  function Held(text: string, budget: nat): nat {
    if Estimate(text) <= budget then WordCount(text) else MaxWords(budget)
  }

  lemma WindowsHold(text: string, budget: int)
    ensures var w, b := WindowsOf(text, budget), BudgetsFor(budget);
      && WordCount(w.beginning) == Held(text, b.beginning) && WordCount(w.earlyMiddle) == Held(text, b.earlyMiddle)
      && WordCount(w.lateMiddle) == Held(text, b.lateMiddle) && WordCount(w.ending) == Held(text, b.ending)
  {
    hide TakeAround, TakeFromStart, TakeFromEnd, MaxWords, Estimate, WordCount;
    var b := BudgetsFor(budget);
    StartHolds(text, b.beginning);
    AroundHolds(text, |text| * 33 / 100, b.earlyMiddle);
    AroundHolds(text, |text| * 66 / 100, b.lateMiddle);
    EndHolds(text, b.ending);
  }

  lemma StartHolds(text: string, budget: nat)
    ensures WordCount(TakeFromStart(text, budget)) == Held(text, budget)
  {
    if Estimate(text) > budget {
      StartIsFull(text, budget);
    }
  }

  lemma EndHolds(text: string, budget: nat)
    ensures WordCount(TakeFromEnd(text, budget)) == Held(text, budget)
  {
    if Estimate(text) > budget {
      EndIsFull(text, budget);
    }
  }

  lemma AroundHolds(text: string, center: nat, budget: nat)
    requires center <= |text|
    ensures WordCount(TakeAround(text, center, budget)) == Held(text, budget)
  {
    if Estimate(text) > budget {
      AroundIsFull(text, center, budget);
    }
  }

  /** The four windows together stay within the budget exactly if it is at least 4. The sampler runs
      on texts over the budget only. */
  lemma WindowsFitExactly(text: string, budget: int)
    requires WordCount(text) > 0 && Estimate(text) > budget
    ensures WindowTokens(WindowsOf(text, budget)) <= budget <==> budget >= 4
  {
    hide TakeAround, TakeFromStart, TakeFromEnd, WordCount;
    WindowsHold(text, budget);
    BudgetsAddUp(budget);
    var b := BudgetsFor(budget);
    HeldTokens(text, b.beginning);
    HeldTokens(text, b.earlyMiddle);
    HeldTokens(text, b.lateMiddle);
    HeldTokens(text, b.ending);
  }

  lemma HeldTokens(text: string, budget: nat)
    requires WordCount(text) > 0 && budget > 0
    ensures 1 <= TokensOf(Held(text, budget)) <= budget && Held(text, budget) >= 1
  {
    hide WordCount;
  }

  // ------------------------------------------------------------ the sample

  function Section(heading: string, chunk: string): seq<string> {
    if Strip(chunk) == [] then [] else [heading + "\n" + Strip(chunk)]
  }

  const BEGINNING := "[BEGINNING]"
  const EARLY_MIDDLE := "[EARLY_MIDDLE]"
  const LATE_MIDDLE := "[LATE_MIDDLE]"
  const ENDING := "[ENDING]"

  function SectionsOf(w: Windows): seq<string> {
    Section(BEGINNING, w.beginning) + Section(EARLY_MIDDLE, w.earlyMiddle)
    + Section(LATE_MIDDLE, w.lateMiddle) + Section(ENDING, w.ending)
  }

  function Sample(text: string, budget: int): string {
    Join(SectionsOf(WindowsOf(text, budget)), "\n\n")
  }

  /** The sample of a text with words shows the four windows in the order of the text, each under its
      name. */
  lemma SampleReads(text: string, budget: int)
    requires WordCount(text) > 0
    ensures var w := WindowsOf(text, budget);
      Sample(text, budget)
      == "[BEGINNING]" + "\n" + Strip(w.beginning) + "\n\n" + ("[EARLY_MIDDLE]" + "\n" + Strip(w.earlyMiddle)
         + "\n\n" + ("[LATE_MIDDLE]" + "\n" + Strip(w.lateMiddle) + "\n\n" + ("[ENDING]" + "\n" + Strip(w.ending))))
  {
    hide WordCount, Strip, WindowsOf, Held;
    var w, b := WindowsOf(text, budget), BudgetsFor(budget);
    WindowsHold(text, budget);
    HeldTokens(text, b.beginning);
    HeldTokens(text, b.earlyMiddle);
    HeldTokens(text, b.lateMiddle);
    HeldTokens(text, b.ending);
    NotBlank(w.beginning);
    NotBlank(w.earlyMiddle);
    NotBlank(w.lateMiddle);
    NotBlank(w.ending);
    var s1, s2, s3, s4 := Section(BEGINNING, w.beginning)[0], Section(EARLY_MIDDLE, w.earlyMiddle)[0],
      Section(LATE_MIDDLE, w.lateMiddle)[0], Section(ENDING, w.ending)[0];
    assert SectionsOf(w) == [s1, s2, s3, s4];
    JoinsFour(s1, s2, s3, s4);
  }

  lemma NotBlank(chunk: string)
    requires WordCount(chunk) > 0
    ensures Strip(chunk) != []
  {
    StripCount(chunk);
  }

  lemma JoinsFour(a: string, b: string, c: string, d: string)
    ensures Join([a, b, c, d], "\n\n") == a + "\n\n" + (b + "\n\n" + (c + "\n\n" + d))
  {
    assert [a, b, c, d][1..] == [b, c, d] && [b, c, d][1..] == [c, d] && [c, d][1..] == [d];
    assert Join([c, d], "\n\n") == c + "\n\n" + Join([d], "\n\n") == c + "\n\n" + d;
    assert Join([b, c, d], "\n\n") == b + "\n\n" + Join([c, d], "\n\n");
    assert Join([a, b, c, d], "\n\n") == a + "\n\n" + Join([b, c, d], "\n\n");
  }

  predicate OneWord(s: string) {
    s != [] && forall c <- s :: !Blank(c)
  }

  lemma {:induction false} OneWordCount(s: string)
    requires OneWord(s)
    ensures WordCount(s) == 1
  {
    if |s| > 1 {
      assert s[|s| - 2] in s;
      OneWordCount(s[..|s| - 1]);
    }
  }

  lemma {:induction false} NoWords(s: string)
    requires forall c <- s :: Blank(c)
    ensures WordCount(s) == 0
  {
    if s != [] {
      NoWords(s[..|s| - 1]);
    }
  }

  /** Text across a blank gap. */
  lemma CountGap(a: string, gap: string, b: string)
    requires gap != [] && forall c <- gap :: Blank(c)
    ensures WordCount(a + gap + b) == WordCount(a) + WordCount(b)
  {
    hide WordCount;
    NoWords(gap);
    CountAppend(a, gap);
    CountAppend(a + gap, b);
    assert gap[0] in gap && gap[|gap| - 1] in gap;
    assert (a + gap)[|a + gap| - 1] == gap[|gap| - 1];
  }

  lemma SectionCount(heading: string, chunk: string)
    requires OneWord(heading) && WordCount(chunk) > 0
    ensures |Section(heading, chunk)| == 1 && WordCount(Section(heading, chunk)[0]) == 1 + WordCount(chunk)
  {
    StripCount(chunk);
    OneWordCount(heading);
    CountGap(heading, "\n", Strip(chunk));
  }

  lemma JoinFour(a: string, b: string, c: string, d: string)
    ensures WordCount(Join([a, b, c, d], "\n\n")) == WordCount(a) + WordCount(b) + WordCount(c) + WordCount(d)
  {
    hide WordCount;
    assert [a, b, c, d][1..] == [b, c, d] && [b, c, d][1..] == [c, d] && [c, d][1..] == [d];
    assert Join([d], "\n\n") == d;
    CountGap(c, "\n\n", d);
    assert Join([c, d], "\n\n") == c + "\n\n" + d;
    CountGap(b, "\n\n", Join([c, d], "\n\n"));
    assert Join([b, c, d], "\n\n") == b + "\n\n" + Join([c, d], "\n\n");
    CountGap(a, "\n\n", Join([b, c, d], "\n\n"));
  }

  lemma SampleCount(text: string, budget: int)
    requires WordCount(text) > 0
    ensures var b := BudgetsFor(budget);
      WordCount(Sample(text, budget)) == 4 + Held(text, b.beginning) + Held(text, b.earlyMiddle) + Held(text, b.lateMiddle) + Held(text, b.ending)
  {
    hide WordCount, Section, Join, WindowsOf, Held;
    var b, w := BudgetsFor(budget), WindowsOf(text, budget);
    WindowsHold(text, budget);
    HeldTokens(text, b.beginning);
    HeldTokens(text, b.earlyMiddle);
    HeldTokens(text, b.lateMiddle);
    HeldTokens(text, b.ending);
    SectionCount(BEGINNING, w.beginning);
    SectionCount(EARLY_MIDDLE, w.earlyMiddle);
    SectionCount(LATE_MIDDLE, w.lateMiddle);
    SectionCount(ENDING, w.ending);
    var s1, s2, s3, s4 := Section(BEGINNING, w.beginning)[0], Section(EARLY_MIDDLE, w.earlyMiddle)[0],
      Section(LATE_MIDDLE, w.lateMiddle)[0], Section(ENDING, w.ending)[0];
    assert SectionsOf(w) == [s1, s2, s3, s4];
    JoinFour(s1, s2, s3, s4);
  }

  /** The sample as built is never within its budget: the four labels put it 4 to 8 tokens over. */
  lemma SampleOvershoots(text: string, budget: int)
    requires budget >= 4 && Estimate(text) > budget
    ensures budget + 4 <= Estimate(Sample(text, budget)) <= budget + 8
  {
    hide WordCount, Sample;
    SampleCount(text, budget);
    BudgetsAddUp(budget);
  }
}
