/** The way of a citation through an answer: [n] to chunk id to display number, over tokenized text. */
module Citations {
  import opened Wrappers
  import opened RankFusion

  /** A piece of an answer. `zeros` counts the leading zeros of a literal marker. `cites` says which
      chunk a rewritten marker stands for; it is no part of the text, and nothing looks at it. */
  datatype Token =
    | Plain(text: string)
    | Space(c: char)
    | Punct(c: char)                                              // . , ; : ! ?
    | Marker(zeros: nat, n: nat, cites: Option<ChunkId>)          // [n]
    | Group(ids: seq<ChunkId>)                                    // [chunk:<id>, chunk:<id>]
    | Loose(id: ChunkId)                                          // chunk:<id> outside brackets
    | Leftover(inner: seq<ChunkId>)                               // any other [chunk:...]

  type Answer = seq<Token>

  datatype Citation = Citation(chunk: ChunkId, document: nat, page: Option<nat>, title: string)

  function CitationOf(h: Hit): Citation {
    Citation(h.chunk.id, h.chunk.document, h.chunk.page, h.title)
  }

  /** The answer as the model wrote it: its markers are literal. */
  predicate Literal(answer: Answer) {
    forall t <- answer :: t.Marker? ==> t.cites == None
  }

  // ------------------------------------------------------------ expanding and parsing

  function ExpandToken(t: Token, passages: seq<ChunkId>): Token {
    if t.Marker? && 1 <= t.n <= |passages| then Group([passages[t.n - 1]]) else t
  }

  function Expand(answer: Answer, passages: seq<ChunkId>): Answer {
    seq(|answer|, i requires 0 <= i < |answer| => ExpandToken(answer[i], passages))
  }

  function IdsIn(t: Token): seq<ChunkId> {
    match t
    case Group(ids) => ids
    case Loose(id) => [id]
    case Leftover(inner) => inner
    case _ => []
  }

  /** Every chunk id in the text, in order. */
  function Mentions(answer: Answer): seq<ChunkId> {
    if answer == [] then [] else Mentions(answer[..|answer| - 1]) + IdsIn(answer[|answer| - 1])
  }

  function Known(ids: seq<ChunkId>, keys: set<ChunkId>): seq<ChunkId> {
    if ids == [] then []
    else if ids[|ids| - 1] in keys then Known(ids[..|ids| - 1], keys) + [ids[|ids| - 1]]
    else Known(ids[..|ids| - 1], keys)
  }

  /** The chunks an answer cites: the retrieved ones it mentions, once each. */
  function Cited(answer: Answer, keys: set<ChunkId>): seq<ChunkId> {
    FirstMentions(Known(Mentions(answer), keys))
  }

  lemma {:induction false} KnownAre(ids: seq<ChunkId>, keys: set<ChunkId>)
    ensures forall x :: x in Known(ids, keys) <==> x in ids && x in keys
  {
    if ids != [] {
      KnownAre(ids[..|ids| - 1], keys);
      assert forall x :: x in ids <==> x in ids[..|ids| - 1] || x == ids[|ids| - 1];
    }
  }

  predicate InOrderOf(out: seq<ChunkId>, ids: seq<ChunkId>) {
    (forall x <- out :: x in ids) && (forall i, j | 0 <= i < j < |out| :: Index(ids, out[i]) < Index(ids, out[j]))
  }

  lemma {:induction false} IndexExtends(ids: seq<ChunkId>, last: ChunkId, x: ChunkId)
    ensures x in ids ==> Index(ids + [last], x) == Index(ids, x)
    ensures x == last && x !in ids ==> Index(ids + [last], x) == |ids|
  {
    if ids != [] {
      assert (ids + [last])[1..] == ids[1..] + [last];
      IndexExtends(ids[1..], last, x);
    }
  }

  /** Citations are distinct, are exactly the retrieved chunks that the answer mentions, and stand in
      the order of their first mention. */
  lemma CitedInMentionOrder(answer: Answer, keys: set<ChunkId>)
    ensures var cited := Cited(answer, keys);
      && Distinct(cited)
      && (forall x :: x in cited <==> x in Mentions(answer) && x in keys)
      && InOrderOf(cited, Mentions(answer))
  {
    KnownAre(Mentions(answer), keys);
    MentionOrder(Mentions(answer), keys);
  }

  lemma {:induction false} MentionOrder(ids: seq<ChunkId>, keys: set<ChunkId>)
    ensures InOrderOf(FirstMentions(Known(ids, keys)), ids)
  {
    hide InOrderOf, FirstMentions, Index;
    if ids == [] {
      NoMentions();
    } else {
      var before, last := ids[..|ids| - 1], ids[|ids| - 1];
      MentionOrder(before, keys);
      KnownAre(before, keys);
      assert ids == before + [last];
      var known := Known(before, keys);
      OrderExtends(FirstMentions(known), before, last);
      if last in keys {
        MentionOne(known, last);
      }
    }
  }

  lemma NoMentions()
    ensures InOrderOf(FirstMentions([]), [])
  {
  }

  lemma OrderExtends(out: seq<ChunkId>, ids: seq<ChunkId>, last: ChunkId)
    requires InOrderOf(out, ids)
    ensures InOrderOf(out, ids + [last])
    ensures last !in ids ==> InOrderOf(out + [last], ids + [last])
  {
    hide Index;
    forall x | x in ids || x == last
      ensures x in ids + [last] && (x in ids ==> Index(ids + [last], x) == Index(ids, x))
    {
      IndexExtends(ids, last, x);
    }
    IndexExtends(ids, last, last);
  }

  // ------------------------------------------------------------ display numbers

  /** The display number of a chunk: its place in the citation list, the last one if it is repeated. */
  function NumberOf(cited: seq<ChunkId>, id: ChunkId): (n: nat)
    requires id in cited
    ensures 1 <= n <= |cited| && cited[n - 1] == id
  {
    if cited[|cited| - 1] == id then |cited|
    else
      assert cited == cited[..|cited| - 1] + [cited[|cited| - 1]];
      NumberOf(cited[..|cited| - 1], id)
  }

  /** The markers that replace a group. */
  function GroupMarkers(ids: seq<ChunkId>, cited: seq<ChunkId>): (r: seq<Token>)
    ensures forall t <- r :: t.Marker? && t.zeros == 0 && t.cites.Some?
    ensures forall t <- r :: t.cites.value in ids && t.cites.value in cited && t.n == NumberOf(cited, t.cites.value)
    ensures forall id <- ids | id in cited :: Marker(0, NumberOf(cited, id), Some(id)) in r
    ensures forall i, j | 0 <= i < j < |r| :: r[i] != r[j]
  {
    if ids == [] then []
    else
      var before := GroupMarkers(ids[..|ids| - 1], cited);
      var last := ids[|ids| - 1];
      assert forall id :: id in ids <==> id in ids[..|ids| - 1] || id == last;
      if last !in cited then before
      else
        var m := Marker(0, NumberOf(cited, last), Some(last));
        if m in before then before else before + [m]
  }

  function Rewritten(t: Token, cited: seq<ChunkId>): seq<Token> {
    match t
    case Group(ids) => GroupMarkers(ids, cited)
    case Loose(_) => []
    case Leftover(_) => []
    case _ => [t]
  }

  function Rewrite(answer: Answer, cited: seq<ChunkId>): Answer {
    if answer == [] then [] else Rewrite(answer[..|answer| - 1], cited) + Rewritten(answer[|answer| - 1], cited)
  }

  // ------------------------------------------------------------ tidying

  predicate SameDigits(a: Token, b: Token) {
    a.Marker? && b.Marker? && a.zeros == b.zeros && a.n == b.n
  }

  /** The text from its first token that is no whitespace. */
  function Solid(t: Answer): (r: Answer)
    ensures |r| <= |t| && r == t[|t| - |r|..]
    ensures forall i | 0 <= i < |t| - |r| :: t[i].Space?
    ensures r != [] ==> !r[0].Space?
  {
    if t != [] && t[0].Space? then
      var r := Solid(t[1..]);
      assert t[1..][|t| - 1 - |r|..] == t[|t| - |r|..];
      assert forall i | 0 < i < |t| - |r| :: t[i] == t[1..][i - 1];
      r
    else t
  }

  /** A marker follows with nothing but whitespace in between, with the same digits. */
  predicate Repeats(m: Token, rest: Answer) {
    Solid(rest) != [] && SameDigits(m, Solid(rest)[0])
  }

  /** One substitution pass: a marker swallows its repetition and the scan goes on behind it. */
  function Pass(t: Answer): (r: Answer)
    ensures |r| <= |t|
    ensures t != [] ==> r != [] && r[0] == t[0]
    decreases |t|
  {
    if t == [] then []
    else if Repeats(t[0], t[1..]) then [t[0]] + Pass(Solid(t[1..])[1..])
    else [t[0]] + Pass(t[1..])
  }

  /** Every run of one marker shrinks to its first. */
  function Collapse(t: Answer): (r: Answer)
    ensures |r| <= |t|
    decreases |t|
  {
    if t == [] then []
    else if Repeats(t[0], t[1..]) then Collapse([t[0]] + Solid(t[1..])[1..])
    else [t[0]] + Collapse(t[1..])
  }

  /** `[n]` and whitespace before punctuation. */
  function TightMarkers(t: Answer, afterMarker: bool): Answer {
    if t == [] then []
    else if t[0].Space? && afterMarker && Solid(t) != [] && Solid(t)[0].Punct? then TightMarkers(t[1..], true)
    else [t[0]] + TightMarkers(t[1..], if t[0].Space? then afterMarker else t[0].Marker?)
  }

  predicate Horizontal(t: Token) {
    t.Space? && t.c != '\n'
  }

  /** Two or more blanks in a row become one space. */
  function Shrink(t: Answer): Answer
    decreases |t|
  {
    if t == [] then []
    else if Horizontal(t[0]) && |t| > 1 && Horizontal(t[1]) then Shrink([Space(' ')] + t[2..])
    else [t[0]] + Shrink(t[1..])
  }

  /** Whitespace before punctuation. */
  function TightPunct(t: Answer): Answer {
    if t == [] then []
    else if t[0].Space? && Solid(t) != [] && Solid(t)[0].Punct? then TightPunct(t[1..])
    else [t[0]] + TightPunct(t[1..])
  }

  function TrimEnd(t: Answer): Answer {
    if t != [] && t[|t| - 1].Space? then TrimEnd(t[..|t| - 1]) else t
  }

  function Tidy(t: Answer): Answer {
    TrimEnd(Solid(TightPunct(Shrink(TightMarkers(t, false)))))
  }

  function Normalize(t: Answer): Answer {
    Tidy(Collapse(t))
  }

  function Display(answer: Answer, cited: seq<ChunkId>): Answer {
    Normalize(Rewrite(answer, cited))
  }

  // ------------------------------------------------------------ what tidying keeps

  /** The text without its whitespace: what tidying must not touch. */
  function Visible(t: Answer): Answer {
    if t == [] then [] else if t[0].Space? then Visible(t[1..]) else [t[0]] + Visible(t[1..])
  }

  lemma VisibleCons(x: Token, t: Answer)
    ensures Visible([x] + t) == if x.Space? then Visible(t) else [x] + Visible(t)
  {
    assert ([x] + t)[1..] == t;
  }

  lemma {:induction false} VisibleAppend(a: Answer, b: Answer)
    ensures Visible(a + b) == Visible(a) + Visible(b)
  {
    if a == [] {
      assert a + b == b;
    } else {
      hide Visible;
      VisibleAppend(a[1..], b);
      VisibleCons(a[0], a[1..]);
      VisibleCons(a[0], a[1..] + b);
      assert a == [a[0]] + a[1..] && a + b == [a[0]] + (a[1..] + b);
    }
  }

  lemma {:induction false} VisibleSolid(t: Answer)
    ensures Visible(Solid(t)) == Visible(t)
  {
    if t != [] && t[0].Space? {
      VisibleSolid(t[1..]);
    }
  }

  lemma {:induction false} TightMarkersKeeps(t: Answer, afterMarker: bool)
    ensures Visible(TightMarkers(t, afterMarker)) == Visible(t)
  {
    if t != [] {
      if t[0].Space? && afterMarker && Solid(t) != [] && Solid(t)[0].Punct? {
        TightMarkersKeeps(t[1..], true);
      } else {
        TightMarkersKeeps(t[1..], if t[0].Space? then afterMarker else t[0].Marker?);
      }
    }
  }

  lemma {:induction false} ShrinkKeeps(t: Answer)
    ensures Visible(Shrink(t)) == Visible(t)
    decreases |t|
  {
    if t != [] {
      if Horizontal(t[0]) && |t| > 1 && Horizontal(t[1]) {
        ShrinkKeeps([Space(' ')] + t[2..]);
        assert ([Space(' ')] + t[2..])[1..] == t[2..] && t[1..][1..] == t[2..];
      } else {
        ShrinkKeeps(t[1..]);
      }
    }
  }

  lemma {:induction false} TightPunctKeeps(t: Answer)
    ensures Visible(TightPunct(t)) == Visible(t)
  {
    if t != [] {
      TightPunctKeeps(t[1..]);
    }
  }

  lemma {:induction false} TrimEndKeeps(t: Answer)
    ensures Visible(TrimEnd(t)) == Visible(t)
  {
    if t != [] && t[|t| - 1].Space? {
      TrimEndKeeps(t[..|t| - 1]);
      VisibleAppend(t[..|t| - 1], t[|t| - 1..]);
      assert t == t[..|t| - 1] + t[|t| - 1..];
      assert Visible(t[|t| - 1..]) == [];
    }
  }

  /** After the collapse only whitespace changes. */
  lemma TidyKeepsVisible(t: Answer)
    ensures Visible(Tidy(t)) == Visible(t)
  {
    hide *;
    TidyIs(t);
    TightMarkersKeeps(t, false);
    ShrinkKeeps(TightMarkers(t, false));
    TightPunctKeeps(Shrink(TightMarkers(t, false)));
    VisibleSolid(TightPunct(Shrink(TightMarkers(t, false))));
    TrimEndKeeps(Solid(TightPunct(Shrink(TightMarkers(t, false)))));
  }

  lemma TidyIs(t: Answer)
    ensures Tidy(t) == TrimEnd(Solid(TightPunct(Shrink(TightMarkers(t, false)))))
  {
  }

  /** The visible text with every run of one marker cut to its first. */
  function Runs(v: Answer): Answer
    decreases |v|
  {
    if |v| < 2 then v
    else if SameDigits(v[0], v[1]) then Runs([v[0]] + v[2..])
    else [v[0]] + Runs(v[1..])
  }

  lemma VisibleHead(t: Answer)
    requires t != []
    ensures var s := Solid(t[1..]);
      && Visible(t) == (if t[0].Space? then [] else [t[0]]) + Visible(s)
      && (s != [] ==> Visible(s) == [s[0]] + Visible(s[1..]))
      && (s == [] ==> Visible(s) == [])
  {
    VisibleSolid(t[1..]);
  }

  lemma RunsStep(a: Token, b: Token, v: Answer)
    ensures Runs([a, b] + v) == if SameDigits(a, b) then Runs([a] + v) else [a] + Runs([b] + v)
    ensures Runs([a]) == [a] && Runs([]) == []
  {
    var w := [a, b] + v;
    assert w[2..] == v && w[1..] == [b] + v;
  }

  /** The collapse takes away exactly the repetitions in the visible text. */
  lemma {:induction false} CollapseIsRuns(t: Answer)
    ensures Visible(Collapse(t)) == Runs(Visible(t))
    decreases |t|
  {
    hide Visible, Runs, SameDigits, Repeats, Solid, Collapse;
    if t == [] {
      NothingVisible();
    } else {
      var s := Solid(t[1..]);
      assert t == [t[0]] + t[1..];
      VisibleHead(t);
      VisibleSolid(t[1..]);
      RepeatsIs(t[0], t[1..]);
      ConsBehind(t[0], t[1..]);
      if Repeats(t[0], t[1..]) {
        CollapseIsRuns([t[0]] + s[1..]);
        VisibleCons(t[0], s[1..]);
        RunsStep(t[0], s[0], Visible(s[1..]));
        assert Visible(t) == [t[0], s[0]] + Visible(s[1..]);
      } else {
        CollapseIsRuns(t[1..]);
        VisibleCons(t[0], Collapse(t[1..]));
        if t[0].Space? {
          assert Visible(t) == Visible(s);
        } else if s == [] {
          RunsStep(t[0], t[0], []);
          NothingVisible();
          assert Visible(t) == [t[0]];
        } else {
          RunsStep(t[0], s[0], Visible(s[1..]));
          assert Visible(t) == [t[0], s[0]] + Visible(s[1..]);
          assert [s[0]] + Visible(s[1..]) == Visible(s);
        }
      }
    }
  }

  lemma NothingVisible()
    ensures Visible([]) == [] && Runs([]) == [] && Collapse([]) == []
  {
  }

  lemma RepeatsIs(m: Token, rest: Answer)
    ensures Repeats(m, rest) <==> Solid(rest) != [] && SameDigits(m, Solid(rest)[0])
    ensures Repeats(m, rest) ==> m.Marker? && Solid(rest)[0].Marker?
  {
  }

  /** What the reader sees is what the rewrite left, without repeated markers. */
  lemma DisplayShows(answer: Answer, cited: seq<ChunkId>)
    ensures Visible(Display(answer, cited)) == Runs(Visible(Rewrite(answer, cited)))
  {
    hide Tidy, Collapse, Runs, Visible;
    CollapseIsRuns(Rewrite(answer, cited));
    TidyKeepsVisible(Collapse(Rewrite(answer, cited)));
  }

  /** No marker is followed by itself any more. */
  lemma {:induction false} RunsDiffer(v: Answer)
    ensures forall i | 0 <= i < |Runs(v)| - 1 :: !SameDigits(Runs(v)[i], Runs(v)[i + 1])
    ensures v != [] ==> Runs(v) != [] && Runs(v)[0] == v[0]
    decreases |v|
  {
    if |v| >= 2 {
      if SameDigits(v[0], v[1]) {
        RunsDiffer([v[0]] + v[2..]);
      } else {
        RunsDiffer(v[1..]);
      }
    }
  }

  /** Every visible token is kept, or is a marker whose digits are still shown. */
  predicate Shown(t: Token, v: Answer) {
    t in v || exists m <- v :: SameDigits(m, t)
  }

  lemma ShownCons(t: Token, x: Token, v: Answer)
    ensures Shown(t, v) ==> Shown(t, [x] + v)
    ensures Shown(x, [x] + v)
  {
    assert forall y <- v :: y in [x] + v;
    assert ([x] + v)[0] == x;
  }

  /** Nothing but repeated markers is gone, and every number that was shown still is. */
  lemma {:induction false} RunsKeep(v: Answer)
    ensures forall t <- Runs(v) :: t in v
    ensures forall t <- v :: Shown(t, Runs(v))
    decreases |v|
  {
    if |v| < 2 {
      assert Runs(v) == v;
    } else if SameDigits(v[0], v[1]) {
      var less := [v[0]] + v[2..];
      RunsKeep(less);
      RunsDiffer(less);
      assert v == [v[0], v[1]] + v[2..] && less[0] == v[0];
      forall t <- v ensures Shown(t, Runs(v)) {
        if t == v[1] {
          assert Runs(v)[0] == v[0];
        } else {
          assert t in less;
        }
      }
    } else {
      RunsKeep(v[1..]);
      assert v == [v[0]] + v[1..] && Runs(v) == [v[0]] + Runs(v[1..]);
      forall t <- v ensures Shown(t, Runs(v)) {
        ShownCons(t, v[0], Runs(v[1..]));
      }
    }
  }

  /** Words and punctuation all stay. */
  lemma {:induction false} RunsKeepTexts(v: Answer)
    ensures Texts(Runs(v)) == Texts(v)
    decreases |v|
  {
    if |v| >= 2 {
      if SameDigits(v[0], v[1]) {
        var less := [v[0]] + v[2..];
        RunsKeepTexts(less);
        assert less[1..] == v[2..] && v[1..][1..] == v[2..];
      } else {
        RunsKeepTexts(v[1..]);
        assert ([v[0]] + Runs(v[1..]))[1..] == Runs(v[1..]);
      }
    }
  }

  /** Words and punctuation. */
  function Texts(v: Answer): Answer {
    if v == [] then []
    else if v[0].Plain? || v[0].Punct? then [v[0]] + Texts(v[1..]) else Texts(v[1..])
  }

  // ------------------------------------------------------------ what the numbers mean

  lemma {:induction false} VisibleHas(t: Answer, x: Token)
    ensures x in Visible(t) <==> x in t && !x.Space?
  {
    if t != [] {
      VisibleHas(t[1..], x);
      assert t == [t[0]] + t[1..];
    }
  }

  lemma {:induction false} RewriteHas(answer: Answer, cited: seq<ChunkId>, x: Token)
    ensures x in Rewrite(answer, cited) <==> exists t <- answer :: x in Rewritten(t, cited)
  {
    hide Rewritten;
    if answer != [] {
      var k := |answer| - 1;
      RewriteHas(answer[..k], cited, x);
      assert answer == answer[..k] + [answer[k]];
      if t :| t in answer && x in Rewritten(t, cited) {
        assert t in answer[..k] || t == answer[k];
      }
    }
  }

  /** Every displayed token is one the rewrite put there. */
  lemma DisplayWithin(answer: Answer, cited: seq<ChunkId>, x: Token)
    requires x in Display(answer, cited) && !x.Space?
    ensures exists t <- answer :: x in Rewritten(t, cited)
  {
    hide Display, Rewrite, Rewritten, Runs;
    DisplayShows(answer, cited);
    VisibleHas(Display(answer, cited), x);
    RunsKeep(Visible(Rewrite(answer, cited)));
    VisibleHas(Rewrite(answer, cited), x);
    RewriteHas(answer, cited, x);
  }

  /** A marker says what it should: a number of the citation list stands for that very chunk, and any
      other number is literal and exceeds the number of passages or is 0. */
  ghost predicate SpeaksTrue(m: Token, cited: seq<ChunkId>, passages: nat) {
    m.Marker? ==>
      if 1 <= m.n <= |cited| then m.zeros == 0 && m.cites == Some(cited[m.n - 1])
      else m.cites == None && (m.n == 0 || m.n > passages)
  }

  lemma {:induction false} PassagesBound(cited: seq<ChunkId>, passages: seq<ChunkId>)
    requires Distinct(cited) && forall x <- cited :: x in passages
    ensures |cited| <= |passages|
    decreases |cited|
  {
    if cited != [] {
      var last := cited[|cited| - 1];
      var i := Index(passages, last);
      var rest := passages[..i] + passages[i + 1..];
      forall x <- cited[..|cited| - 1] ensures x in rest {
        assert x in cited;
        var j :| 0 <= j < |passages| && passages[j] == x;
        assert j != i;
        assert j < i ==> passages[..i][j] == x;
        assert j > i ==> passages[i + 1..][j - i - 1] == x;
      }
      PassagesBound(cited[..|cited| - 1], rest);
    }
  }

  function Keys(passages: seq<ChunkId>): set<ChunkId> {
    set x | x in passages
  }

  /** The chunks that a token of the model's answer stands for: `[n]` for the n-th passage it was shown,
      and any chunk id for itself. */
  function Standing(t: Token, passages: seq<ChunkId>): seq<ChunkId> {
    match t
    case Marker(_, n, _) => if 0 < n <= |passages| then [passages[n - 1]] else []
    case Group(ids) => ids
    case Loose(id) => [id]
    case Leftover(ids) => ids
    case _ => []
  }

  function AllStanding(raw: Answer, passages: seq<ChunkId>): seq<ChunkId> {
    if raw == [] then [] else AllStanding(raw[..|raw| - 1], passages) + Standing(raw[|raw| - 1], passages)
  }

  /** A retrieved chunk that some token of the model's answer stands for. */
  ghost predicate Cites(raw: Answer, passages: seq<ChunkId>, x: ChunkId) {
    x in passages && exists t <- raw :: x in Standing(t, passages)
  }

  lemma ExpandedStands(t: Token, passages: seq<ChunkId>)
    ensures IdsIn(ExpandToken(t, passages)) == Standing(t, passages)
  {
  }

  lemma {:induction false} ExpandedMentions(raw: Answer, passages: seq<ChunkId>)
    ensures Mentions(Expand(raw, passages)) == AllStanding(raw, passages)
  {
    hide ExpandToken, IdsIn, Standing;
    if raw != [] {
      var k := |raw| - 1;
      ExpandedMentions(raw[..k], passages);
      ExpandedStands(raw[k], passages);
      assert Expand(raw, passages)[..k] == Expand(raw[..k], passages);
    }
  }

  lemma {:induction false} AllStandingHas(raw: Answer, passages: seq<ChunkId>, x: ChunkId)
    ensures x in AllStanding(raw, passages) <==> exists t <- raw :: x in Standing(t, passages)
  {
    hide Standing;
    if raw != [] {
      var k := |raw| - 1;
      AllStandingHas(raw[..k], passages, x);
      assert raw == raw[..k] + [raw[k]];
      if t :| t in raw && x in Standing(t, passages) {
        assert t in raw[..k] || t == raw[k];
      }
    }
  }

  /** From the answer as the model wrote it: exactly the retrieved chunks that some token of it stands for
      are cited, in the order of their first mention. */
  lemma CitedFromRaw(raw: Answer, passages: seq<ChunkId>)
    ensures var cited := Cited(Expand(raw, passages), Keys(passages));
      && (forall x :: x in cited <==> Cites(raw, passages, x))
      && InOrderOf(cited, AllStanding(raw, passages))
  {
    hide Expand, Cited, InOrderOf, Standing, AllStanding, Mentions;
    CitedInMentionOrder(Expand(raw, passages), Keys(passages));
    ExpandedMentions(raw, passages);
    forall x ensures x in AllStanding(raw, passages) <==> exists t <- raw :: x in Standing(t, passages) {
      AllStandingHas(raw, passages, x);
    }
  }

  lemma RewriteLast(a: Answer, t: Token, cited: seq<ChunkId>)
    ensures Rewrite(a + [t], cited) == Rewrite(a, cited) + Rewritten(t, cited)
  {
    hide Rewritten;
    assert (a + [t])[..|a|] == a;
  }

  lemma RewriteNone(cited: seq<ChunkId>)
    ensures Rewrite([], cited) == []
  {
  }

  lemma {:induction false} RewriteAppend(a: Answer, b: Answer, cited: seq<ChunkId>)
    ensures Rewrite(a + b, cited) == Rewrite(a, cited) + Rewrite(b, cited)
    decreases |b|
  {
    hide *;
    if b == [] {
      RewriteNone(cited);
      assert a + b == a;
    } else {
      var rest, t := b[..|b| - 1], b[|b| - 1];
      RewriteAppend(a, rest, cited);
      RewriteLast(rest, t, cited);
      RewriteLast(a + rest, t, cited);
      assert b == rest + [t] && a + b == (a + rest) + [t];
    }
  }

  lemma RewriteOne(t: Token, cited: seq<ChunkId>)
    ensures Rewrite([t], cited) == Rewritten(t, cited)
  {
    hide Rewritten;
    assert [t][..0] == [];
  }

  /** In the place of `[n]` the rewritten answer has the one marker that cites the n-th passage. */
  lemma MarkerInPlace(raw: Answer, passages: seq<ChunkId>, i: nat)
    requires i < |raw| && raw[i].Marker? && 1 <= raw[i].n <= |passages|
    ensures var cited := Cited(Expand(raw, passages), Keys(passages));
      var chunk := passages[raw[i].n - 1];
      && chunk in cited
      && Rewrite(Expand(raw, passages), cited)
         == Rewrite(Expand(raw[..i], passages), cited) + [Marker(0, NumberOf(cited, chunk), Some(chunk))]
            + Rewrite(Expand(raw[i + 1..], passages), cited)
  {
    hide *;
    var cited, chunk := Cited(Expand(raw, passages), Keys(passages)), passages[raw[i].n - 1];
    CitedFromRaw(raw, passages);
    MarkerCites(raw, passages, i);
    var before, after := Expand(raw[..i], passages), Expand(raw[i + 1..], passages);
    ExpandAround(raw, passages, i);
    OneInGroup(chunk, cited);
    RewriteAppend(before + [Group([chunk])], after, cited);
    RewriteAppend(before, [Group([chunk])], cited);
    RewriteOne(Group([chunk]), cited);
  }

  lemma MarkerCites(raw: Answer, passages: seq<ChunkId>, i: nat)
    requires i < |raw| && raw[i].Marker? && 1 <= raw[i].n <= |passages|
    ensures Cites(raw, passages, passages[raw[i].n - 1])
  {
    assert raw[i] in raw && passages[raw[i].n - 1] in Standing(raw[i], passages);
  }

  lemma ExpandAround(raw: Answer, passages: seq<ChunkId>, i: nat)
    requires i < |raw| && raw[i].Marker? && 1 <= raw[i].n <= |passages|
    ensures Expand(raw, passages)
         == Expand(raw[..i], passages) + [Group([passages[raw[i].n - 1]])] + Expand(raw[i + 1..], passages)
  {
  }

  lemma OneInGroup(chunk: ChunkId, cited: seq<ChunkId>)
    requires chunk in cited
    ensures Rewritten(Group([chunk]), cited) == [Marker(0, NumberOf(cited, chunk), Some(chunk))]
  {
    assert [chunk][..0] == [];
    assert GroupMarkers([], cited) == [];
  }

  /** Citations survive renumbering: in the displayed answer every number up to the length of the
      citation list was put in for the chunk that the list has under it; no literal number of the
      model can be mistaken for one. */
  lemma NumbersSpeakTrue(raw: Answer, passages: seq<ChunkId>, m: Token)
    requires Literal(raw)
    requires var answer := Expand(raw, passages); m in Display(answer, Cited(answer, Keys(passages)))
    ensures var answer := Expand(raw, passages); SpeaksTrue(m, Cited(answer, Keys(passages)), |passages|)
  {
    hide Display, Cited, SpeaksTrue, Rewritten;
    var answer := Expand(raw, passages);
    var cited := Cited(answer, Keys(passages));
    CitedInMentionOrder(answer, Keys(passages));
    PassagesBound(cited, passages);
    if m.Marker? {
      DisplayWithin(answer, cited, m);
      var t :| t in answer && m in Rewritten(t, cited);
      var i :| 0 <= i < |answer| && answer[i] == t;
      assert raw[i] in raw && t == ExpandToken(raw[i], passages);
      TokenSpeaksTrue(raw[i], passages, cited, m);
    } else {
      NotAMarker(m, cited, |passages|);
    }
  }

  lemma NotAMarker(m: Token, cited: seq<ChunkId>, passages: nat)
    requires !m.Marker?
    ensures SpeaksTrue(m, cited, passages)
  {
  }

  lemma GroupSpeaksTrue(ids: seq<ChunkId>, passages: nat, cited: seq<ChunkId>, m: Token)
    requires |cited| <= passages && m in GroupMarkers(ids, cited)
    ensures SpeaksTrue(m, cited, passages)
  {
    hide GroupMarkers, NumberOf;
    var id := m.cites.value;
    assert id in cited && m.n == NumberOf(cited, id) && m.zeros == 0;
    assert 1 <= NumberOf(cited, id) <= |cited| && cited[NumberOf(cited, id) - 1] == id;
  }

  lemma OtherSpeaksTrue(t: Token, passages: seq<ChunkId>, cited: seq<ChunkId>)
    requires t.Marker? && t.cites == None && |cited| <= |passages| && ExpandToken(t, passages) == t
    ensures SpeaksTrue(t, cited, |passages|)
  {
  }

  lemma OneRewritten(e: Token, cited: seq<ChunkId>, m: Token)
    requires m in Rewritten(e, cited)
    ensures if e.Group? then m in GroupMarkers(e.ids, cited) else m == e
  {
    hide GroupMarkers;
  }

  lemma TokenSpeaksTrue(t: Token, passages: seq<ChunkId>, cited: seq<ChunkId>, m: Token)
    requires (t.Marker? ==> t.cites == None) && |cited| <= |passages|
    requires m.Marker? && m in Rewritten(ExpandToken(t, passages), cited)
    ensures SpeaksTrue(m, cited, |passages|)
  {
    hide GroupMarkers, Rewritten, SpeaksTrue;
    var e := ExpandToken(t, passages);
    OneRewritten(e, cited, m);
    if e.Group? {
      GroupSpeaksTrue(e.ids, |passages|, cited, m);
    } else {
      OtherSpeaksTrue(t, passages, cited);
    }
  }

  /** A number is displayed exactly if its chunk is cited in brackets somewhere; chunk ids outside
      well-formed brackets count as citations but show no number. */
  lemma GroupsAreShown(raw: Answer, passages: seq<ChunkId>, k: nat)
    requires Literal(raw)
    requires k < |Cited(Expand(raw, passages), Keys(passages))|
    ensures var answer := Expand(raw, passages);
      var cited := Cited(answer, Keys(passages));
      (exists m <- Display(answer, cited) :: m.Marker? && m.n == k + 1)
      <==> (exists t <- answer :: t.Group? && cited[k] in t.ids)
  {
    hide Display, Cited, Rewrite, GroupMarkers, Runs, Visible, Expand;
    var answer := Expand(raw, passages);
    var cited := Cited(answer, Keys(passages));
    CitedInMentionOrder(answer, Keys(passages));
    if t :| t in answer && t.Group? && cited[k] in t.ids {
      GroupShown(answer, cited, k, t);
    }
    if m :| m in Display(answer, cited) && m.Marker? && m.n == k + 1 {
      NumbersSpeakTrue(raw, passages, m);
      DisplayWithin(answer, cited, m);
      var t :| t in answer && m in Rewritten(t, cited);
      ShownByGroup(raw, passages, t, m, cited);
    }
  }

  lemma LooseMentions(id: ChunkId)
    ensures Mentions([Loose(id)]) == [id] && Expand([Loose(id)], [id]) == [Loose(id)]
    ensures Literal([Loose(id)]) && forall t <- [Loose(id)] :: !t.Group?
  {
    assert [Loose(id)][..0] == [];
  }

  lemma OneDistinct(ids: seq<ChunkId>, id: ChunkId)
    requires Distinct(ids) && forall x :: x in ids <==> x == id
    ensures ids == [id]
  {
    assert id in ids;
    var k :| 0 <= k < |ids| && ids[k] == id;
    forall j | 0 <= j < |ids| ensures ids[j] == id && j == k {
      assert ids[j] in ids;
    }
    assert ids[0] == ids[|ids| - 1];
  }

  lemma LooseCited(id: ChunkId)
    ensures Cited([Loose(id)], Keys([id])) == [id]
  {
    LooseMentions(id);
    hide Cited, Mentions, InOrderOf;
    CitedInMentionOrder([Loose(id)], Keys([id]));
    OneDistinct(Cited([Loose(id)], Keys([id])), id);
  }

  /** An answer that names its only passage without brackets cites it and shows no number. */
  lemma LooseShowsNothing(id: ChunkId)
    ensures var answer := Expand([Loose(id)], [id]);
      var cited := Cited(answer, Keys([id]));
      cited == [id] && !exists m <- Display(answer, cited) :: m.Marker? && m.n == 1
  {
    hide *;
    LooseMentions(id);
    LooseCited(id);
    GroupsAreShown([Loose(id)], [id], 0);
  }

  lemma ShownByGroup(raw: Answer, passages: seq<ChunkId>, t: Token, m: Token, cited: seq<ChunkId>)
    requires Literal(raw) && t in Expand(raw, passages) && m in Rewritten(t, cited) && m.Marker? && m.cites.Some?
    ensures t.Group? && m.cites.value in t.ids
  {
    var i :| 0 <= i < |raw| && t == ExpandToken(raw[i], passages);
    assert raw[i] in raw;
  }

  lemma GroupShown(answer: Answer, cited: seq<ChunkId>, k: nat, t: Token)
    requires Distinct(cited) && k < |cited| && t in answer && t.Group? && cited[k] in t.ids
    ensures exists m <- Display(answer, cited) :: m.Marker? && m.n == k + 1
  {
    hide Display, Rewrite, Runs, Visible;
    var n := NumberOf(cited, cited[k]);
    assert n == k + 1;
    var m := Marker(0, n, Some(cited[k]));
    assert m in Rewritten(t, cited);
    RewriteHas(answer, cited, m);
    VisibleHas(Rewrite(answer, cited), m);
    DisplayShows(answer, cited);
    RunsKeep(Visible(Rewrite(answer, cited)));
    assert Shown(m, Visible(Display(answer, cited)));
    var m' :| m' in Visible(Display(answer, cited)) && m'.Marker? && m'.n == n;
    VisibleHas(Display(answer, cited), m');
  }

  /** From the model's answer to the screen no word and no punctuation is lost, added or moved, and no
      raw chunk marker gets through. */
  lemma DisplayKeepsText(raw: Answer, passages: seq<ChunkId>)
    ensures var answer := Expand(raw, passages);
      var shown := Visible(Display(answer, Cited(answer, Keys(passages))));
      && Texts(shown) == Texts(Visible(raw))
      && (forall t <- shown :: t.Plain? || t.Punct? || t.Marker?)
      && (forall i | 0 <= i < |shown| - 1 :: !SameDigits(shown[i], shown[i + 1]))
  {
    hide Display, Cited, Rewrite, Runs, Visible, Texts, Expand;
    var answer := Expand(raw, passages);
    var cited := Cited(answer, Keys(passages));
    DisplayShows(answer, cited);
    RunsKeepTexts(Visible(Rewrite(answer, cited)));
    RunsDiffer(Visible(Rewrite(answer, cited)));
    RewriteTexts(raw, passages, cited);
    forall t <- Visible(Display(answer, cited)) ensures t.Plain? || t.Punct? || t.Marker? {
      VisibleHas(Display(answer, cited), t);
      DisplayWithin(answer, cited, t);
    }
  }

  lemma TextsCons(x: Token, v: Answer)
    ensures Texts([x] + v) == if x.Plain? || x.Punct? then [x] + Texts(v) else Texts(v)
  {
    assert ([x] + v)[1..] == v;
  }

  lemma NoTexts()
    ensures Texts([]) == []
  {
  }

  lemma {:induction false} TextsAppend(a: Answer, b: Answer)
    ensures Texts(a + b) == Texts(a) + Texts(b)
  {
    hide *;
    if a == [] {
      NoTexts();
      assert a + b == b;
    } else {
      TextsAppend(a[1..], b);
      TextsCons(a[0], a[1..]);
      TextsCons(a[0], a[1..] + b);
      assert a == [a[0]] + a[1..] && a + b == [a[0]] + (a[1..] + b);
    }
  }

  lemma {:induction false} MarkersHaveNoText(v: Answer)
    requires forall t <- v :: t.Marker?
    ensures Texts(Visible(v)) == []
  {
    if v != [] {
      assert v[0] in v;
      MarkersHaveNoText(v[1..]);
      assert Visible(v)[1..] == Visible(v[1..]);
    }
  }

  lemma OneToken(t: Token, passages: seq<ChunkId>, cited: seq<ChunkId>)
    ensures Texts(Visible(Rewritten(ExpandToken(t, passages), cited))) == Texts(Visible([t]))
  {
    assert [t][1..] == [];
    if ExpandToken(t, passages).Group? {
      MarkersHaveNoText(GroupMarkers(ExpandToken(t, passages).ids, cited));
    }
  }

  lemma {:induction false} RewriteTexts(raw: Answer, passages: seq<ChunkId>, cited: seq<ChunkId>)
    ensures Texts(Visible(Rewrite(Expand(raw, passages), cited))) == Texts(Visible(raw))
  {
    hide Rewritten, Texts, Visible, ExpandToken;
    if raw == [] {
      assert Expand(raw, passages) == [];
    } else {
      var k := |raw| - 1;
      var e := Expand(raw, passages);
      RewriteTexts(raw[..k], passages, cited);
      assert e[..k] == Expand(raw[..k], passages);
      OneToken(raw[k], passages, cited);
      BothTexts(Rewrite(e[..k], cited), Rewritten(e[k], cited));
      BothTexts(raw[..k], [raw[k]]);
      assert raw == raw[..k] + [raw[k]];
    }
  }

  lemma BothTexts(a: Answer, b: Answer)
    ensures Texts(Visible(a + b)) == Texts(Visible(a)) + Texts(Visible(b))
  {
    VisibleAppend(a, b);
    TextsAppend(Visible(a), Visible(b));
  }

  // ------------------------------------------------------------ the substitution loop

  /** One pass leaves the collapse as it is. */
  lemma {:induction false} PassCollapses(r: Answer)
    ensures Collapse(Pass(r)) == Collapse(r)
    decreases |r|, 0
  {
    hide Repeats, Solid;
    if r != [] {
      var u := Solid(r[1..]);
      assert r == [r[0]] + r[1..];
      if Repeats(r[0], r[1..]) {
        RepeatsIs(r[0], r[1..]);
        PassBehind(r[0], u[1..]);
      } else {
        PassBehind(r[0], r[1..]);
      }
    }
  }

  /** Also behind a token that may swallow what it starts with. */
  lemma {:induction false} PassBehind(m: Token, r: Answer)
    ensures Collapse([m] + Pass(r)) == Collapse([m] + r)
    decreases |r|, 1
  {
    hide Solid, Collapse, Repeats, SameDigits;
    PassSolid(r);
    ConsBehind(m, r);
    ConsBehind(m, Pass(r));
    RepeatsIs(m, r);
    RepeatsIs(m, Pass(r));
    var s := Solid(r);
    if Repeats(m, r) {
      if Repeats(s[0], s[1..]) {
        var u := Solid(s[1..]);
        RepeatsIs(s[0], s[1..]);
        RepeatsIs(m, s[1..]);
        SameThree(m, s[0], u[0]);
        ConsBehind(m, s[1..]);
        PassBehind(m, u[1..]);
        assert Pass(s)[1..] == Pass(u[1..]);
      } else {
        PassBehind(m, s[1..]);
        assert Pass(s)[1..] == Pass(s[1..]);
      }
    } else {
      PassCollapses(r);
    }
  }

  lemma SameThree(a: Token, b: Token, c: Token)
    requires SameDigits(a, b) && SameDigits(b, c)
    ensures SameDigits(a, c)
  {
  }

  lemma ConsBehind(m: Token, r: Answer)
    ensures Collapse([m] + r) == if Repeats(m, r) then Collapse([m] + Solid(r)[1..]) else [m] + Collapse(r)
  {
    assert ([m] + r)[1..] == r;
  }

  /** A pass does not touch leading whitespace, nor the first token behind it. */
  lemma {:induction false} PassSolid(r: Answer)
    ensures Solid(Pass(r)) == Pass(Solid(r))
  {
    if r != [] && r[0].Space? {
      PassSolid(r[1..]);
      assert Pass(r) == [r[0]] + Pass(r[1..]);
    }
  }

  lemma {:induction false} PassShrinks(t: Answer)
    requires |Pass(t)| == |t|
    ensures Pass(t) == t
  {
    if t != [] && !Repeats(t[0], t[1..]) {
      PassShrinks(t[1..]);
    }
  }

  /** When a pass changes nothing, there is nothing left to collapse. */
  lemma {:induction false} PassFixed(t: Answer)
    requires Pass(t) == t
    ensures Collapse(t) == t
  {
    if t != [] {
      assert Pass(t)[1..] == t[1..];
      PassFixed(t[1..]);
    }
  }

  // ------------------------------------------------------------ the whitespace that is left

  predicate NoGapBeforePunct(t: Answer) {
    forall i | 0 <= i < |t| - 1 :: t[i].Space? ==> !t[i + 1].Punct?
  }

  predicate NoDoubleBlank(t: Answer) {
    forall i | 0 <= i < |t| - 1 :: Horizontal(t[i]) ==> !Horizontal(t[i + 1])
  }

  lemma {:induction false} ShrinkSingles(t: Answer)
    ensures NoDoubleBlank(Shrink(t))
    ensures t != [] ==> Shrink(t) != [] && (if Horizontal(t[0]) then Horizontal(Shrink(t)[0]) else Shrink(t)[0] == t[0])
    decreases |t|
  {
    if t != [] {
      if Horizontal(t[0]) && |t| > 1 && Horizontal(t[1]) {
        ShrinkSingles([Space(' ')] + t[2..]);
      } else {
        ShrinkSingles(t[1..]);
      }
    }
  }

  lemma {:induction false} TightPunctHead(t: Answer)
    requires t != []
    ensures Solid(t) != [] && Solid(t)[0].Punct? ==> TightPunct(t) != [] && TightPunct(t)[0] == Solid(t)[0]
    ensures !(Solid(t) != [] && Solid(t)[0].Punct?) ==> TightPunct(t) != [] && TightPunct(t)[0] == t[0]
  {
    if t[0].Space? && Solid(t) != [] && Solid(t)[0].Punct? {
      TightPunctHead(t[1..]);
    }
  }

  /** Putting a token in front of tidy text. */
  lemma ConsTidies(x: Token, t: Answer)
    requires NoDoubleBlank(t) && NoGapBeforePunct(t)
    requires t != [] ==> (x.Space? ==> !t[0].Punct?) && (Horizontal(x) ==> !Horizontal(t[0]))
    ensures NoDoubleBlank([x] + t) && NoGapBeforePunct([x] + t)
  {
    hide Horizontal;
  }

  lemma TailNoDouble(t: Answer)
    requires NoDoubleBlank(t) && t != []
    ensures NoDoubleBlank(t[1..])
    ensures |t| > 1 && Horizontal(t[0]) ==> !Horizontal(t[1])
  {
    hide Horizontal;
    forall i | 0 <= i < |t[1..]| - 1 ensures Horizontal(t[1..][i]) ==> !Horizontal(t[1..][i + 1]) {
      assert t[1..][i] == t[i + 1] && t[1..][i + 1] == t[i + 2];
    }
  }

  lemma {:induction false} TightPunctTidies(t: Answer)
    requires NoDoubleBlank(t)
    ensures NoDoubleBlank(TightPunct(t)) && NoGapBeforePunct(TightPunct(t))
  {
    hide Solid, NoDoubleBlank, NoGapBeforePunct;
    if t == [] {
      NothingTidy();
    } else {
      TailNoDouble(t);
      TightPunctTidies(t[1..]);
      if |t| > 1 {
        TightPunctHead(t[1..]);
      }
      if t[0].Space? {
        SolidStep(t);
      }
      if !(t[0].Space? && Solid(t) != [] && Solid(t)[0].Punct?) {
        ConsTidies(t[0], TightPunct(t[1..]));
      }
    }
  }

  lemma NothingTidy()
    ensures NoDoubleBlank([]) && NoGapBeforePunct([])
  {
  }

  lemma SolidStep(t: Answer)
    requires t != [] && t[0].Space?
    ensures Solid(t) == Solid(t[1..])
  {
  }

  lemma {:induction false} TrimEndIsPrefix(t: Answer)
    ensures TrimEnd(t) <= t && (TrimEnd(t) != [] ==> !TrimEnd(t)[|TrimEnd(t)| - 1].Space?)
  {
    if t != [] && t[|t| - 1].Space? {
      TrimEndIsPrefix(t[..|t| - 1]);
    }
  }

  /** No blank is left before punctuation, none next to another, and none at either end. */
  lemma DisplayIsTidy(answer: Answer, cited: seq<ChunkId>)
    ensures var shown := Display(answer, cited);
      && NoGapBeforePunct(shown) && NoDoubleBlank(shown)
      && (shown != [] ==> !shown[0].Space? && !shown[|shown| - 1].Space?)
  {
    hide Collapse, Rewrite, Shrink, TightMarkers, TightPunct, TrimEnd, Solid;
    var t := TightMarkers(Collapse(Rewrite(answer, cited)), false);
    ShrinkSingles(t);
    TightPunctTidies(Shrink(t));
    TrimEndIsPrefix(Solid(TightPunct(Shrink(t))));
  }

  /** The text without its blanks: what is said, with its line breaks. */
  function Lines(t: Answer): Answer {
    if t == [] then []
    else if t[0].Space? && t[0].c != '\n' then Lines(t[1..])
    else [t[0]] + Lines(t[1..])
  }

  lemma {:induction false} ShrinkKeepsLines(t: Answer)
    ensures Lines(Shrink(t)) == Lines(t)
    decreases |t|
  {
    if t != [] {
      if Horizontal(t[0]) && |t| > 1 && Horizontal(t[1]) {
        ShrinkKeepsLines([Space(' ')] + t[2..]);
        assert ([Space(' ')] + t[2..])[1..] == t[2..] == t[1..][1..];
      } else {
        ShrinkKeepsLines(t[1..]);
        assert ([t[0]] + Shrink(t[1..]))[1..] == Shrink(t[1..]);
      }
    }
  }

  /** Where nothing has to be cut, nothing is: text without a gap before punctuation, and without
      whitespace at its ends, keeps every line break. */
  lemma TidyKeepsLines(t: Answer)
    requires NoGapBeforePunct(t) && (t != [] ==> !t[0].Space? && !t[|t| - 1].Space?)
    ensures Lines(Tidy(t)) == Lines(t)
  {
    NoneTight(t, false);
    ShrinkKeepsGaps(t);
    ShrinkSingles(t);
    NonePunct(Shrink(t));
    ShrinkKeepsLines(t);
    hide Lines, Shrink, TightMarkers, TightPunct, Horizontal;
  }

  lemma TailNoGap(t: Answer)
    requires NoGapBeforePunct(t) && t != []
    ensures NoGapBeforePunct(t[1..])
  {
    forall i | 0 <= i < |t[1..]| - 1 ensures t[1..][i].Space? ==> !t[1..][i + 1].Punct? {
      assert t[1..][i] == t[i + 1] && t[1..][i + 1] == t[i + 2];
    }
  }

  /** Behind whitespace there is no punctuation. */
  lemma {:induction false} NoPunctBehind(t: Answer)
    requires NoGapBeforePunct(t) && t != [] && t[0].Space?
    ensures Solid(t) != [] ==> !Solid(t)[0].Punct?
  {
    hide NoGapBeforePunct;
    TailNoGap(t);
    if |t| > 1 {
      FirstGap(t);
      if t[1].Space? {
        NoPunctBehind(t[1..]);
      }
    }
  }

  lemma FirstGap(t: Answer)
    requires NoGapBeforePunct(t) && |t| > 1 && t[0].Space?
    ensures !t[1].Punct?
  {
  }

  lemma {:induction false} NoneTight(t: Answer, afterMarker: bool)
    requires NoGapBeforePunct(t)
    ensures TightMarkers(t, afterMarker) == t
  {
    hide NoGapBeforePunct, Solid;
    if t != [] {
      TailNoGap(t);
      if t[0].Space? {
        NoPunctBehind(t);
      }
      NoneTight(t[1..], if t[0].Space? then afterMarker else t[0].Marker?);
    }
  }

  lemma {:induction false} NonePunct(t: Answer)
    requires NoGapBeforePunct(t)
    ensures TightPunct(t) == t
  {
    hide NoGapBeforePunct, Solid;
    if t != [] {
      TailNoGap(t);
      if t[0].Space? {
        NoPunctBehind(t);
      }
      NonePunct(t[1..]);
    }
  }

  lemma ConsNoGap(x: Token, t: Answer)
    requires NoGapBeforePunct(t) && (t != [] && x.Space? ==> !t[0].Punct?)
    ensures NoGapBeforePunct([x] + t)
  {
  }

  lemma {:induction false} ShrinkKeepsGaps(t: Answer)
    requires NoGapBeforePunct(t) && (t != [] ==> !t[|t| - 1].Space?)
    ensures NoGapBeforePunct(Shrink(t))
    ensures t != [] ==> Shrink(t) != [] && !Shrink(t)[|Shrink(t)| - 1].Space? && (Shrink(t)[0].Punct? <==> t[0].Punct?)
    decreases |t|
  {
    hide NoGapBeforePunct;
    if t != [] {
      TailNoGap(t);
      if Horizontal(t[0]) && |t| > 1 && Horizontal(t[1]) {
        var rest := [Space(' ')] + t[2..];
        TailNoGap(t[1..]);
        assert |t| > 2;
        FirstGap(t[1..]);
        ConsNoGap(Space(' '), t[2..]);
        assert rest[|rest| - 1] == t[|t| - 1];
        ShrinkKeepsGaps(rest);
      } else {
        ShrinkKeepsGaps(t[1..]);
        if |t| > 1 && t[0].Space? {
          FirstGap(t);
        }
        ConsNoGap(t[0], Shrink(t[1..]));
      }
    }
  }
}
