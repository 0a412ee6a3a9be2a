/** The two fusion functions as loops over score dictionaries: the pure helper of search/hybrid.py and
    the one of ai/rag.py, which also carries the hits along. */
module Fusion {
  import opened RankFusion

  /** The score dictionary after the given lists: its keys in insertion order, and its values. */
  ghost predicate Tally(lists: seq<seq<ChunkId>>, k: nat, keys: seq<ChunkId>, scores: map<ChunkId, real>) {
    keys == FirstMentions(Flat(lists)) && scores == ScoreMap(lists, k)
  }

  lemma TallyIs(lists: seq<seq<ChunkId>>, k: nat, keys: seq<ChunkId>, scores: map<ChunkId, real>)
    ensures Tally(lists, k, keys, scores) <==> keys == FirstMentions(Flat(lists)) && scores == ScoreMap(lists, k)
  {
  }

  lemma TallyKeys(lists: seq<seq<ChunkId>>, k: nat, keys: seq<ChunkId>, scores: map<ChunkId, real>)
    requires Tally(lists, k, keys, scores)
    ensures Distinct(keys) && forall x :: x in keys <==> x in scores
  {
  }

  lemma TallyRanks(lists: seq<seq<ChunkId>>, k: nat, keys: seq<ChunkId>, scores: map<ChunkId, real>, order: seq<ChunkId>)
    requires Tally(lists, k, keys, scores) && IsRanking(order, keys, scores)
    ensures Fused(order, lists, k) && forall x <- order :: x in scores && scores[x] == Score(lists, x, k)
  {
  }

  lemma PushList(lists: seq<seq<ChunkId>>, ids: seq<ChunkId>, x: ChunkId, k: nat)
    ensures Flat(lists + [ids]) == Flat(lists) + ids
    ensures Score(lists + [ids], x, k) == Score(lists, x, k) + ListScore(ids, x, k)
  {
    assert (lists + [ids])[..|lists|] == lists;
  }

  lemma TallyOpen(lists: seq<seq<ChunkId>>, k: nat, keys: seq<ChunkId>, scores: map<ChunkId, real>)
    requires Tally(lists, k, keys, scores)
    ensures Tally(lists + [[]], k, keys, scores)
  {
    PushList(lists, [], 0, k);
    assert Flat(lists) + [] == Flat(lists);
    forall x: ChunkId ensures Score(lists + [[]], x, k) == Score(lists, x, k) {
      PushList(lists, [], x, k);
    }
    assert ScoreMap(lists + [[]], k) == ScoreMap(lists, k);
  }

  lemma ItemScore(lists: seq<seq<ChunkId>>, ids: seq<ChunkId>, x: ChunkId, y: ChunkId, k: nat)
    ensures Score(lists + [ids + [x]], y, k) == Score(lists + [ids], y, k) + if y == x then Share(k, |ids| + 1) else 0.0
  {
    hide Share, Score;
    PushList(lists, ids, y, k);
    PushList(lists, ids + [x], y, k);
    assert (ids + [x])[..|ids|] == ids;
  }

  lemma ItemFlat(lists: seq<seq<ChunkId>>, ids: seq<ChunkId>, x: ChunkId)
    ensures Flat(lists + [ids + [x]]) == Flat(lists + [ids]) + [x]
  {
    PushList(lists, ids, x, 0);
    PushList(lists, ids + [x], x, 0);
  }

  lemma MapItem(lists: seq<seq<ChunkId>>, more: seq<seq<ChunkId>>, x: ChunkId, s: real, k: nat)
    requires Flat(more) == Flat(lists) + [x]
    requires forall y: ChunkId :: Score(more, y, k) == Score(lists, y, k) + if y == x then s else 0.0
    requires x !in Flat(lists) ==> Score(lists, x, k) == 0.0
    ensures ScoreMap(more, k) == ScoreMap(lists, k)[x := (if x in ScoreMap(lists, k) then ScoreMap(lists, k)[x] else 0.0) + s]
  {
    hide *;
    ScoreMapAt(lists, k);
    ScoreMapAt(more, k);
    forall y ensures y in Flat(more) <==> y == x || y in Flat(lists) {
    }
  }

  lemma ScoreMapAt(lists: seq<seq<ChunkId>>, k: nat)
    ensures forall y :: y in ScoreMap(lists, k) <==> y in Flat(lists)
    ensures forall y | y in ScoreMap(lists, k) :: ScoreMap(lists, k)[y] == Score(lists, y, k)
  {
  }

  lemma TallyItem(lists: seq<seq<ChunkId>>, ids: seq<ChunkId>, x: ChunkId, k: nat, keys: seq<ChunkId>, scores: map<ChunkId, real>)
    requires Tally(lists + [ids], k, keys, scores)
    ensures Tally(lists + [ids + [x]], k,
      if x in scores then keys else keys + [x],
      scores[x := (if x in scores then scores[x] else 0.0) + Share(k, |ids| + 1)])
  {
    hide *;
    TallyIs(lists + [ids], k, keys, scores);
    ItemFlat(lists, ids, x);
    MentionOne(Flat(lists + [ids]), x);
    forall y: ChunkId
      ensures Score(lists + [ids + [x]], y, k) == Score(lists + [ids], y, k) + if y == x then Share(k, |ids| + 1) else 0.0
    {
      ItemScore(lists, ids, x, y, k);
    }
    if x !in Flat(lists + [ids]) {
      Unmentioned(lists + [ids], x, k);
    }
    MapItem(lists + [ids], lists + [ids + [x]], x, Share(k, |ids| + 1), k);
    TallyKeys(lists + [ids], k, keys, scores);
    TallyIs(lists + [ids + [x]], k, if x in scores then keys else keys + [x],
      scores[x := (if x in scores then scores[x] else 0.0) + Share(k, |ids| + 1)]);
  }

  lemma {:induction false} Unmentioned(lists: seq<seq<ChunkId>>, x: ChunkId, k: nat)
    requires x !in Flat(lists)
    ensures Score(lists, x, k) == 0.0
  {
    if lists != [] {
      var n := |lists| - 1;
      Unmentioned(lists[..n], x, k);
      NotListed(lists[n], x, k);
    }
  }

  lemma {:induction false} NotListed(ids: seq<ChunkId>, x: ChunkId, k: nat)
    requires x !in ids
    ensures ListScore(ids, x, k) == 0.0
  {
    if ids != [] {
      NotListed(ids[..|ids| - 1], x, k);
    }
  }

  // ------------------------------------------------------------ sorting

  lemma InsertSorted(out: seq<ChunkId>, p: nat, x: ChunkId, first: seq<ChunkId>, scores: map<ChunkId, real>)
    requires Sorted(out, first, scores) && p <= |out| && x in scores && x in first
    requires forall i | 0 <= i < p :: Precedes(out[i], x, first, scores)
    requires p < |out| ==> Precedes(x, out[p], first, scores)
    ensures Sorted(out[..p] + [x] + out[p..], first, scores)
  {
    hide Index;
  }

  lemma Inserted(out: seq<ChunkId>, p: nat, x: ChunkId)
    requires p <= |out|
    ensures forall y :: y in out[..p] + [x] + out[p..] <==> y == x || y in out
  {
    assert out == out[..p] + out[p..];
  }

  /** `sorted` with `reverse=True`: a stable sort, highest score first. */
  method SortByScore(keys: seq<ChunkId>, scores: map<ChunkId, real>) returns (out: seq<ChunkId>)
    requires Distinct(keys) && forall x <- keys :: x in scores
    ensures IsRanking(out, keys, scores)
  {
    hide Precedes, Index;
    out := [];
    for i := 0 to |keys|
      invariant Sorted(out, keys, scores)
      invariant forall x :: x in out <==> x in keys[..i]
    {
      var x := keys[i];
      var p := 0;
      while p < |out| && scores[out[p]] >= scores[x]
        invariant p <= |out|
        invariant forall j | 0 <= j < p :: Precedes(out[j], x, keys, scores)
      {
        assert out[p] in keys[..i];
        EarlierFirst(keys, i, out[p], scores);
        p := p + 1;
      }
      if p < |out| {
        HigherFirst(x, out[p], keys, scores);
      }
      InsertSorted(out, p, x, keys, scores);
      Inserted(out, p, x);
      out := out[..p] + [x] + out[p..];
      assert forall y :: y in keys[..i + 1] <==> y == x || y in keys[..i];
    }
    assert keys[..|keys|] == keys;
  }

  lemma EarlierFirst(keys: seq<ChunkId>, i: nat, y: ChunkId, scores: map<ChunkId, real>)
    requires Distinct(keys) && i < |keys| && y in keys[..i] && y in scores && keys[i] in scores
    requires scores[y] >= scores[keys[i]]
    ensures Precedes(y, keys[i], keys, scores)
  {
    var j :| 0 <= j < i && keys[j] == y;
    IndexAt(keys, i);
    IndexAt(keys, j);
  }

  lemma HigherFirst(x: ChunkId, y: ChunkId, keys: seq<ChunkId>, scores: map<ChunkId, real>)
    requires x in keys && y in keys && x in scores && y in scores && scores[x] > scores[y]
    ensures Precedes(x, y, keys, scores)
  {
  }

  // ------------------------------------------------------------ search/hybrid.py

  function FirstsOf(pairs: seq<(ChunkId, real)>): (ids: seq<ChunkId>)
    ensures |ids| == |pairs| && forall i | 0 <= i < |pairs| :: ids[i] == pairs[i].0
  {
    seq(|pairs|, i requires 0 <= i < |pairs| => pairs[i].0)
  }

  method ReciprocalRankFusion(rankedLists: seq<seq<ChunkId>>, rrfK: nat) returns (fused: seq<(ChunkId, real)>)
    ensures Fused(FirstsOf(fused), rankedLists, rrfK)
    ensures forall p <- fused :: p.1 == Score(rankedLists, p.0, rrfK)
  {
    hide *;
    var scores: map<ChunkId, real>, keys: seq<ChunkId> := map[], [];
    TallyNothing(rrfK);
    assert rankedLists[..0] == [];
    for i := 0 to |rankedLists|
      invariant Tally(rankedLists[..i], rrfK, keys, scores)
    {
      var ranked := rankedLists[i];
      TallyOpen(rankedLists[..i], rrfK, keys, scores);
      assert ranked[..0] == [];
      for j := 0 to |ranked|
        invariant Tally(rankedLists[..i] + [ranked[..j]], rrfK, keys, scores)
      {
        var id := ranked[j];
        TallyItem(rankedLists[..i], ranked[..j], id, rrfK, keys, scores);
        assert ranked[..j] + [id] == ranked[..j + 1];
        if id !in scores {
          keys := keys + [id];
        }
        scores := scores[id := (if id in scores then scores[id] else 0.0) + Share(rrfK, j + 1)];
      }
      assert ranked[..|ranked|] == ranked && rankedLists[..i] + [ranked] == rankedLists[..i + 1];
    }
    assert rankedLists[..|rankedLists|] == rankedLists;
    TallyKeys(rankedLists, rrfK, keys, scores);
    var order := SortByScore(keys, scores);
    TallyRanks(rankedLists, rrfK, keys, scores, order);
    fused := seq(|order|, i requires 0 <= i < |order| => (order[i], scores[order[i]]));
    assert FirstsOf(fused) == order;
  }

  lemma TallyNothing(k: nat)
    ensures Tally([], k, [], map[])
  {
  }

  // ------------------------------------------------------------ ai/rag.py

  /** Which hit stands for each chunk: the last one seen. */
  ghost predicate Merged(hits: seq<Hit>, merged: map<ChunkId, Hit>) {
    forall id <- merged :: merged[id].chunk.id == id && LastHit(hits, merged[id])
  }

  lemma MergeNothing(hits: seq<Hit>)
    ensures Merged(hits, map[])
  {
  }

  lemma MergeItem(hits: seq<Hit>, h: Hit, merged: map<ChunkId, Hit>)
    requires Merged(hits, merged)
    ensures Merged(hits + [h], merged[h.chunk.id := h])
  {
    var after := hits + [h];
    var now := merged[h.chunk.id := h];
    forall id <- now ensures LastHit(after, now[id]) {
      if id == h.chunk.id {
        assert after[|hits|] == h;
      } else {
        var i :| 0 <= i < |hits| && hits[i] == merged[id] && forall j | i < j < |hits| :: hits[j].chunk.id != id;
        assert after[i] == merged[id];
      }
    }
  }

  /** Every chunk of either list, once, by falling fusion score; the hit kept for it is the last one
      seen, rescored. */
  method FuseHits(rankedLists: seq<seq<Hit>>, k: nat) returns (fused: seq<Hit>)
    ensures Fused(IdsOf(fused), IdLists(rankedLists), k)
    ensures forall h <- fused :: h.score == Score(IdLists(rankedLists), h.chunk.id, k)
    ensures forall h <- fused :: exists s: real :: LastHit(Flat(rankedLists), h.(score := s))
  {
    hide *;
    ghost var lists := IdLists(rankedLists);
    var scores: map<ChunkId, real>, keys: seq<ChunkId>, merged: map<ChunkId, Hit> := map[], [], map[];
    TallyNothing(k);
    MergeNothing(Flat(rankedLists[..0]));
    assert lists[..0] == [];
    for i := 0 to |rankedLists|
      invariant Tally(lists[..i], k, keys, scores)
      invariant Merged(Flat(rankedLists[..i]), merged) && merged.Keys == scores.Keys
    {
      var ranked := rankedLists[i];
      TallyOpen(lists[..i], k, keys, scores);
      assert ranked[..0] == [] && lists[i][..0] == [];
      assert Flat(rankedLists[..i]) + [] == Flat(rankedLists[..i]);
      for j := 0 to |ranked|
        invariant Tally(lists[..i] + [lists[i][..j]], k, keys, scores)
        invariant Merged(Flat(rankedLists[..i]) + ranked[..j], merged) && merged.Keys == scores.Keys
      {
        var item := ranked[j];
        var id := item.chunk.id;
        TallyItem(lists[..i], lists[i][..j], id, k, keys, scores);
        MergeItem(Flat(rankedLists[..i]) + ranked[..j], item, merged);
        assert lists[i][..j] + [id] == lists[i][..j + 1];
        assert Flat(rankedLists[..i]) + ranked[..j] + [item] == Flat(rankedLists[..i]) + ranked[..j + 1];
        if id !in scores {
          keys := keys + [id];
        }
        scores := scores[id := (if id in scores then scores[id] else 0.0) + Share(k, j + 1)];
        merged := merged[id := item];
      }
      assert lists[i][..|ranked|] == lists[i] && lists[..i] + [lists[i]] == lists[..i + 1];
      assert ranked[..|ranked|] == ranked;
      PushHits(rankedLists, i);
    }
    assert lists[..|lists|] == lists && rankedLists[..|rankedLists|] == rankedLists;
    TallyKeys(lists, k, keys, scores);
    var order := SortByScore(keys, scores);
    TallyRanks(lists, k, keys, scores, order);
    fused := Rescored(order, merged, scores);
    RescoredIs(Flat(rankedLists), order, merged, scores);
  }

  lemma RescoredIs(hits: seq<Hit>, order: seq<ChunkId>, merged: map<ChunkId, Hit>, scores: map<ChunkId, real>)
    requires Merged(hits, merged) && forall id <- order :: id in merged && id in scores
    ensures var fused := Rescored(order, merged, scores);
      && IdsOf(fused) == order
      && (forall h <- fused :: h.chunk.id in scores && h.score == scores[h.chunk.id])
      && forall h <- fused :: exists s: real :: LastHit(hits, h.(score := s))
  {
    hide LastHit;
    var fused := Rescored(order, merged, scores);
    assert IdsOf(fused) == order;
    forall h <- fused ensures exists s: real :: LastHit(hits, h.(score := s)) {
      var n :| 0 <= n < |fused| && fused[n] == h;
      assert h.(score := merged[order[n]].score) == merged[order[n]];
    }
  }

  function Rescored(order: seq<ChunkId>, merged: map<ChunkId, Hit>, scores: map<ChunkId, real>): seq<Hit>
    requires forall id <- order :: id in merged && id in scores
  {
    seq(|order|, i requires 0 <= i < |order| => merged[order[i]].(score := scores[order[i]]))
  }

  lemma PushHits(lists: seq<seq<Hit>>, i: nat)
    requires i < |lists|
    ensures Flat(lists[..i + 1]) == Flat(lists[..i]) + lists[i]
  {
    assert lists[..i + 1][..i] == lists[..i];
  }
}
