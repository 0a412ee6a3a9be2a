/** Parsing, rewriting and tidying of citations as the loops of ai/rag.py and
    services/ask_conversations.py. */
module CitationService {
  import opened Wrappers
  import opened RankFusion
  import opened Citations

  function ChunksOf(citations: seq<Citation>): (ids: seq<ChunkId>)
    ensures |ids| == |citations|
  {
    seq(|citations|, i requires 0 <= i < |citations| => citations[i].chunk)
  }

  /** The retrieved hits by chunk id. */
  predicate IsChunkMap(chunkMap: map<ChunkId, Hit>) {
    forall id <- chunkMap :: chunkMap[id].chunk.id == id
  }

  method ParseCitations(answer: Answer, chunkMap: map<ChunkId, Hit>) returns (citations: seq<Citation>)
    requires IsChunkMap(chunkMap)
    ensures ChunksOf(citations) == Cited(answer, chunkMap.Keys)
    ensures forall c <- citations :: c.chunk in chunkMap && c == CitationOf(chunkMap[c.chunk])
  {
    hide Mentions, FirstMentions;
    var matches := Mentions(answer);
    var seen: set<ChunkId> := {};
    citations := [];
    assert matches[..0] == [] && Known([], chunkMap.Keys) == [];
    NoFirstMentions();
    for i := 0 to |matches|
      invariant ChunksOf(citations) == FirstMentions(Known(matches[..i], chunkMap.Keys))
      invariant forall x :: x in seen <==> x in Known(matches[..i], chunkMap.Keys)
      invariant forall c <- citations :: c.chunk in chunkMap && c == CitationOf(chunkMap[c.chunk])
    {
      var id := matches[i];
      assert matches[..i + 1][..i] == matches[..i];
      KnownAre(matches[..i], chunkMap.Keys);
      MentionOne(Known(matches[..i], chunkMap.Keys), id);
      if id in seen {
        assert id in matches[..i] && id in chunkMap;
        continue;
      }
      if id !in chunkMap {
        continue;
      }
      seen := seen + {id};
      assert ChunksOf(citations + [CitationOf(chunkMap[id])]) == ChunksOf(citations) + [id];
      citations := citations + [CitationOf(chunkMap[id])];
    }
    assert matches[..|matches|] == matches;
  }

  lemma NoFirstMentions()
    ensures FirstMentions([]) == []
  {
  }

  // ------------------------------------------------------------ rewriting

  ghost predicate Numbered(idToNumber: map<ChunkId, nat>, cited: seq<ChunkId>) {
    && (forall id :: id in idToNumber <==> id in cited)
    && (forall id <- cited :: idToNumber[id] == NumberOf(cited, id))
  }

  lemma NumberStep(cited: seq<ChunkId>, id: ChunkId)
    ensures forall x <- cited | x != id :: x in cited + [id] && NumberOf(cited + [id], x) == NumberOf(cited, x)
    ensures id in cited + [id] && NumberOf(cited + [id], id) == |cited| + 1
  {
    assert (cited + [id])[..|cited|] == cited;
  }

  lemma NumberedStep(idToNumber: map<ChunkId, nat>, cited: seq<ChunkId>, id: ChunkId)
    requires Numbered(idToNumber, cited)
    ensures Numbered(idToNumber[id := |cited| + 1], cited + [id])
  {
    hide NumberOf;
    NumberStep(cited, id);
    assert forall x :: x in cited + [id] <==> x in cited || x == id;
  }

  lemma NoneNumbered()
    ensures Numbered(map[], [])
  {
  }

  /** The numbers of a group, each once, and the markers they become. */
  method ReplaceGroup(ids: seq<ChunkId>, idToNumber: map<ChunkId, nat>, ghost cited: seq<ChunkId>) returns (markers: seq<Token>)
    requires Numbered(idToNumber, cited)
    ensures markers == GroupMarkers(ids, cited)
  {
    hide NumberOf;
    var numbers: seq<nat> := [];
    markers := [];
    for i := 0 to |ids|
      invariant markers == GroupMarkers(ids[..i], cited)
      invariant |numbers| == |markers| && forall j | 0 <= j < |markers| :: markers[j].Marker? && numbers[j] == markers[j].n
    {
      var id := ids[i];
      assert ids[..i + 1][..i] == ids[..i];
      if id in idToNumber {
        var number := idToNumber[id];
        SameNumber(markers, numbers, ids[..i], id, cited);
        if number !in numbers {
          numbers := numbers + [number];
          markers := markers + [Marker(0, number, Some(id))];
        }
      }
    }
    assert ids[..|ids|] == ids;
  }

  lemma SameNumber(markers: seq<Token>, numbers: seq<nat>, ids: seq<ChunkId>, id: ChunkId, cited: seq<ChunkId>)
    requires markers == GroupMarkers(ids, cited) && id in cited
    requires |numbers| == |markers| && forall j | 0 <= j < |markers| :: numbers[j] == markers[j].n
    ensures NumberOf(cited, id) in numbers <==> Marker(0, NumberOf(cited, id), Some(id)) in markers
  {
    if NumberOf(cited, id) in numbers {
      var j :| 0 <= j < |numbers| && numbers[j] == NumberOf(cited, id);
      assert markers[j] in markers;
      assert markers[j].cites == Some(id);
    }
  }

  /** One number a citation, from 1, and its snapshot. */
  method NumberCitations(citations: seq<Citation>) returns (idToNumber: map<ChunkId, nat>, snapshots: seq<(nat, Citation)>)
    ensures Numbered(idToNumber, ChunksOf(citations))
    ensures |snapshots| == |citations| && forall i | 0 <= i < |citations| :: snapshots[i] == (i + 1, citations[i])
  {
    hide NumberOf, Numbered;
    ghost var cited := ChunksOf(citations);
    NoneNumbered();
    assert cited[..0] == [];
    idToNumber, snapshots := map[], [];
    for index := 0 to |citations|
      invariant Numbered(idToNumber, cited[..index])
      invariant |snapshots| == index && forall i | 0 <= i < index :: snapshots[i] == (i + 1, citations[i])
    {
      NumberedStep(idToNumber, cited[..index], cited[index]);
      assert cited[..index + 1] == cited[..index] + [cited[index]];
      idToNumber := idToNumber[citations[index].chunk := index + 1];
      snapshots := snapshots + [(index + 1, citations[index])];
    }
    assert cited[..|citations|] == cited;
  }

  /** Groups become numbers; every other chunk marker goes. */
  method ReplaceMarkers(answer: Answer, idToNumber: map<ChunkId, nat>, ghost cited: seq<ChunkId>) returns (rewritten: Answer)
    requires Numbered(idToNumber, cited)
    ensures rewritten == Rewrite(answer, cited)
  {
    hide GroupMarkers, NumberOf, Numbered;
    rewritten := [];
    for i := 0 to |answer|
      invariant rewritten == Rewrite(answer[..i], cited)
    {
      assert answer[..i + 1][..i] == answer[..i];
      match answer[i]
      case Group(ids) =>
        var markers := ReplaceGroup(ids, idToNumber, cited);
        rewritten := rewritten + markers;
      case Loose(_) =>
      case Leftover(_) =>
      case _ =>
        rewritten := rewritten + [answer[i]];
    }
    assert answer[..|answer|] == answer;
  }

  /** The displayed answer, and one snapshot a citation, numbered from 1. */
  method RewriteAnswerWithDisplayCitations(answer: Answer, citations: seq<Citation>)
    returns (display: Answer, snapshots: seq<(nat, Citation)>)
    ensures display == Display(answer, ChunksOf(citations))
    ensures |snapshots| == |citations| && forall i | 0 <= i < |citations| :: snapshots[i] == (i + 1, citations[i])
  {
    hide Rewrite, Normalize, Numbered;
    var idToNumber;
    idToNumber, snapshots := NumberCitations(citations);
    var rewritten := ReplaceMarkers(answer, idToNumber, ChunksOf(citations));
    display := NormalizeDisplayCitationText(rewritten);
  }

  /** The substitution is repeated until it changes nothing. */
  method NormalizeDisplayCitationText(text: Answer) returns (cleaned: Answer)
    ensures cleaned == Normalize(text)
  {
    hide *;
    cleaned := text;
    var previous: Option<Answer> := None;
    while previous != Some(cleaned)
      invariant Collapse(cleaned) == Collapse(text)
      invariant previous == Some(cleaned) ==> Pass(cleaned) == cleaned
      decreases |cleaned|, previous != Some(cleaned)
    {
      previous := Some(cleaned);
      PassCollapses(cleaned);
      if |Pass(cleaned)| == |cleaned| {
        PassShrinks(cleaned);
      }
      cleaned := Pass(cleaned);
    }
    PassFixed(cleaned);
    cleaned := TightMarkers(cleaned, false);
    cleaned := Shrink(cleaned);
    cleaned := TightPunct(cleaned);
    cleaned := TrimEnd(Solid(cleaned));
    TidyIs(Collapse(text));
    NormalizeIs(text);
  }

  lemma NormalizeIs(text: Answer)
    ensures Normalize(text) == Tidy(Collapse(text))
  {
  }

  // ------------------------------------------------------------ the end of ask

  function ChunkMap(hits: seq<Hit>): (m: map<ChunkId, Hit>)
    ensures IsChunkMap(m) && m.Keys == Keys(IdsOf(hits))
  {
    if hits == [] then map[]
    else
      var last := hits[|hits| - 1];
      assert forall x :: x in IdsOf(hits) <==> x in IdsOf(hits[..|hits| - 1]) || x == last.chunk.id by {
        assert IdsOf(hits) == IdsOf(hits[..|hits| - 1]) + [last.chunk.id];
      }
      ChunkMap(hits[..|hits| - 1])[last.chunk.id := last]
  }


  /** The accepted answer with its citations, or None when it cites nothing that was retrieved. Every
      number then displayed for it is true. */
  method AcceptAnswer(raw: Answer, retrieved: seq<Hit>) returns (accepted: Option<(Answer, seq<Citation>)>)
    ensures var answer := Expand(raw, IdsOf(retrieved));
      if Cited(answer, Keys(IdsOf(retrieved))) == [] then accepted == None
      else accepted.Some? && accepted.value.0 == answer && ChunksOf(accepted.value.1) == Cited(answer, Keys(IdsOf(retrieved)))
    ensures accepted.None? <==> forall x :: !Cites(raw, IdsOf(retrieved), x)
    ensures accepted.Some? ==> forall x :: x in ChunksOf(accepted.value.1) <==> Cites(raw, IdsOf(retrieved), x)
    ensures accepted.Some? && Literal(raw) ==>
      forall m <- Display(accepted.value.0, ChunksOf(accepted.value.1)) ::
        SpeaksTrue(m, ChunksOf(accepted.value.1), |retrieved|)
  {
    hide Expand, Cited, Display, SpeaksTrue, Literal, Cites;
    CitedFromRaw(raw, IdsOf(retrieved));
    var answer := Expand(raw, IdsOf(retrieved));
    var citations := ParseCitations(answer, ChunkMap(retrieved));
    if citations == [] {
      return None;
    }
    assert ChunksOf(citations)[0] in ChunksOf(citations);
    if Literal(raw) {
      forall m <- Display(answer, ChunksOf(citations)) ensures SpeaksTrue(m, ChunksOf(citations), |retrieved|) {
        NumbersSpeakTrue(raw, IdsOf(retrieved), m);
      }
    }
    return Some((answer, citations));
  }
}
