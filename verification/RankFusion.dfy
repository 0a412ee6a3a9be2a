/** Reciprocal rank fusion: what both fusion functions compute, and what their order means. Scores
    are exact reals. */
module RankFusion {
  import opened Wrappers
  import opened Words

  type ChunkId = nat

  const RRF_K := 60

  datatype Chunk = Chunk(id: ChunkId, document: nat, page: Option<nat>, tokenCount: Option<nat>, text: string)

  datatype Source = Semantic | Keyword

  datatype Hit = Hit(chunk: Chunk, title: string, score: real, source: Source)

  // ------------------------------------------------------------ scores

  function Share(k: nat, rank: nat): (s: real)
    requires rank > 0
    ensures s > 0.0
  {
    1.0 / (k + rank) as real
  }

  /** What one ranked list gives `x`: a share for every rank at which it stands. */
  function ListScore(ids: seq<ChunkId>, x: ChunkId, k: nat): (s: real)
    ensures s >= 0.0
  {
    if ids == [] then 0.0
    else
      var before := ListScore(ids[..|ids| - 1], x, k);
      if ids[|ids| - 1] == x then before + Share(k, |ids|) else before
  }

  function Score(lists: seq<seq<ChunkId>>, x: ChunkId, k: nat): (s: real)
    ensures s >= 0.0
  {
    if lists == [] then 0.0
    else Score(lists[..|lists| - 1], x, k) + ListScore(lists[|lists| - 1], x, k)
  }

  function Flat<T>(lists: seq<seq<T>>): seq<T> {
    if lists == [] then [] else Flat(lists[..|lists| - 1]) + lists[|lists| - 1]
  }

  /** The ids in the order in which a dict first sees them. */
  function FirstMentions(ids: seq<ChunkId>): (r: seq<ChunkId>)
    ensures forall x :: x in r <==> x in ids
    ensures Distinct(r)
  {
    if ids == [] then []
    else
      var before := FirstMentions(ids[..|ids| - 1]);
      var last := ids[|ids| - 1];
      assert forall x :: x in ids <==> x == last || x in ids[..|ids| - 1];
      if last in before then before else before + [last]
  }

  lemma MentionOne(ids: seq<ChunkId>, x: ChunkId)
    ensures FirstMentions(ids + [x]) == if x in ids then FirstMentions(ids) else FirstMentions(ids) + [x]
  {
    assert (ids + [x])[..|ids|] == ids;
  }

  predicate Distinct(ids: seq<ChunkId>) {
    forall i, j | 0 <= i < j < |ids| :: ids[i] != ids[j]
  }

  function Index(ids: seq<ChunkId>, x: ChunkId): (i: nat)
    requires x in ids
    ensures i < |ids| && ids[i] == x
    ensures x !in ids[..i]
  {
    if ids[0] == x then 0
    else
      assert ids == [ids[0]] + ids[1..];
      assert forall j | 0 < j <= |ids| :: ids[..j] == [ids[0]] + ids[1..][..j - 1];
      1 + Index(ids[1..], x)
  }

  function ScoreMap(lists: seq<seq<ChunkId>>, k: nat): map<ChunkId, real> {
    map x | x in Flat(lists) :: Score(lists, x, k)
  }

  // ------------------------------------------------------------ the order

  /** Higher scores first; equal scores in order of first mention. */
  predicate Precedes(a: ChunkId, b: ChunkId, first: seq<ChunkId>, scores: map<ChunkId, real>)
    requires a in scores && b in scores && a in first && b in first
  {
    scores[a] > scores[b] || (scores[a] == scores[b] && Index(first, a) < Index(first, b))
  }

  ghost predicate Sorted(out: seq<ChunkId>, first: seq<ChunkId>, scores: map<ChunkId, real>) {
    && (forall x <- out :: x in scores && x in first)
    && (forall i, j | 0 <= i < j < |out| :: Precedes(out[i], out[j], first, scores))
  }

  /** `out` is the sorted arrangement of the ids in `first`. */
  ghost predicate IsRanking(out: seq<ChunkId>, first: seq<ChunkId>, scores: map<ChunkId, real>) {
    Sorted(out, first, scores) && forall x <- first :: x in out
  }

  /** The ranked lists decide the result completely. */
  ghost predicate Fused(out: seq<ChunkId>, lists: seq<seq<ChunkId>>, k: nat) {
    IsRanking(out, FirstMentions(Flat(lists)), ScoreMap(lists, k))
  }

  lemma {:induction false} SameRanking(a: seq<ChunkId>, b: seq<ChunkId>, first: seq<ChunkId>, scores: map<ChunkId, real>)
    requires Sorted(a, first, scores) && Sorted(b, first, scores)
    requires forall x :: x in a <==> x in b
    ensures a == b
    decreases |a|
  {
    if a == [] && b == [] {
    } else {
      assert a != [] && b != [] by {
        if a != [] {
          assert a[0] in a;
        }
        if b != [] {
          assert b[0] in b;
        }
      }
      assert a[0] == b[0] by {
        assert a[0] in b && b[0] in a;
        var i :| 0 <= i < |b| && b[i] == a[0];
        var j :| 0 <= j < |a| && a[j] == b[0];
      }
      assert a == [a[0]] + a[1..] && b == [b[0]] + b[1..];
      forall x ensures x in a[1..] <==> x in b[1..] {
        TailDrops(a, first, scores, x);
        TailDrops(b, first, scores, x);
      }
      SameRanking(a[1..], b[1..], first, scores);
    }
  }

  lemma TailDrops(a: seq<ChunkId>, first: seq<ChunkId>, scores: map<ChunkId, real>, x: ChunkId)
    requires Sorted(a, first, scores) && a != []
    ensures x in a[1..] <==> x in a && x != a[0]
  {
    if x in a[1..] {
      var i :| 0 <= i < |a[1..]| && a[1..][i] == x;
      assert a[i + 1] == x;
    }
  }

  /** The fusion used for Ask and the pure helper rank alike: the ranked ids have one fusion. */
  lemma FusionIsUnique(a: seq<ChunkId>, b: seq<ChunkId>, lists: seq<seq<ChunkId>>, k: nat)
    requires Fused(a, lists, k) && Fused(b, lists, k)
    ensures a == b
  {
    hide Precedes, ScoreMap;
    forall x ensures x in a <==> x in b {
    }
    SameRanking(a, b, FirstMentions(Flat(lists)), ScoreMap(lists, k));
  }

  /** Fusion drops nothing, invents nothing and repeats nothing. */
  lemma FusionIsUnion(out: seq<ChunkId>, lists: seq<seq<ChunkId>>, k: nat)
    requires Fused(out, lists, k)
    ensures forall x :: x in out <==> exists i | 0 <= i < |lists| :: x in lists[i]
    ensures Distinct(out)
    ensures forall i, j | 0 <= i <= j < |out| :: Score(lists, out[i], k) >= Score(lists, out[j], k)
  {
    forall x ensures x in Flat(lists) <==> exists i | 0 <= i < |lists| :: x in lists[i] {
      InFlat(lists, x);
    }
  }

  lemma {:induction false} InFlat<T>(lists: seq<seq<T>>, x: T)
    ensures x in Flat(lists) <==> exists i | 0 <= i < |lists| :: x in lists[i]
  {
    if lists != [] {
      var n := |lists| - 1;
      InFlat(lists[..n], x);
      assert forall i | 0 <= i < n :: lists[..n][i] == lists[i];
    }
  }

  // ------------------------------------------------------------ what the ranks mean

  /** In a list without repetitions an id gets the share of its only rank. */
  lemma {:induction false} OneShare(ids: seq<ChunkId>, x: ChunkId, k: nat)
    requires Distinct(ids)
    ensures ListScore(ids, x, k) == if x in ids then Share(k, Index(ids, x) + 1) else 0.0
  {
    if ids != [] {
      var n := |ids| - 1;
      OneShare(ids[..n], x, k);
      if x in ids {
        if x == ids[n] {
          assert x !in ids[..n];
        } else {
          assert ids[..n][Index(ids, x)] == x;
        }
      }
    }
  }

  lemma SharesFall(k: nat, r: nat, s: nat)
    requires 0 < r <= s
    ensures Share(k, s) <= Share(k, r)
    ensures r < s ==> Share(k, s) < Share(k, r)
  {
    var a, b := (k + r) as real, (k + s) as real;
    assert Share(k, r) - Share(k, s) == (b - a) / (a * b);
  }

  /** `x` stands above `y` in the list, or `y` is not there. */
  predicate Beats(ids: seq<ChunkId>, x: ChunkId, y: ChunkId) {
    y in ids ==> x in ids && Index(ids, x) < Index(ids, y)
  }

  lemma BeatsScores(ids: seq<ChunkId>, x: ChunkId, y: ChunkId, k: nat)
    requires Distinct(ids) && Beats(ids, x, y)
    ensures ListScore(ids, x, k) >= ListScore(ids, y, k)
    ensures x in ids ==> ListScore(ids, x, k) > ListScore(ids, y, k)
  {
    OneShare(ids, x, k);
    OneShare(ids, y, k);
    if y in ids {
      SharesFall(k, Index(ids, x) + 1, Index(ids, y) + 1);
    }
  }

  lemma {:induction false} UnanimousScores(lists: seq<seq<ChunkId>>, x: ChunkId, y: ChunkId, k: nat)
    requires forall l <- lists :: Distinct(l) && Beats(l, x, y)
    ensures Score(lists, x, k) >= Score(lists, y, k)
    ensures x in Flat(lists) ==> Score(lists, x, k) > Score(lists, y, k)
  {
    if lists != [] {
      var n := |lists| - 1;
      UnanimousScores(lists[..n], x, y, k);
      BeatsScores(lists[n], x, y, k);
    }
  }

  /** An order on which all lists agree survives fusion. */
  lemma UnanimityWins(out: seq<ChunkId>, lists: seq<seq<ChunkId>>, x: ChunkId, y: ChunkId, k: nat)
    requires Fused(out, lists, k) && x in out && y in out && x != y
    requires forall l <- lists :: Distinct(l) && Beats(l, x, y)
    ensures Index(out, x) < Index(out, y)
  {
    UnanimousScores(lists, x, y, k);
  }

  /** A single list comes back in its own order. */
  lemma SingleListKeepsOrder(ids: seq<ChunkId>, k: nat)
    requires Distinct(ids)
    ensures Fused(ids, [ids], k)
  {
    hide Score, FirstMentions, Index, ListScore, Flat, Distinct;
    OneList(ids, k);
    forall i, j | 0 <= i < j < |ids|
      ensures Precedes(ids[i], ids[j], FirstMentions(Flat([ids])), ScoreMap([ids], k))
    {
      InOrder(ids, i, j, k);
    }
  }

  lemma InOrder(ids: seq<ChunkId>, i: nat, j: nat, k: nat)
    requires Distinct(ids) && i < j < |ids|
    ensures ListScore(ids, ids[i], k) > ListScore(ids, ids[j], k)
  {
    IndexAt(ids, i);
    IndexAt(ids, j);
    BeatsScores(ids, ids[i], ids[j], k);
  }

  lemma IndexAt(ids: seq<ChunkId>, i: nat)
    requires Distinct(ids) && i < |ids|
    ensures Index(ids, ids[i]) == i
  {
  }

  lemma OneList(ids: seq<ChunkId>, k: nat)
    ensures Flat([ids]) == ids
    ensures forall x :: Score([ids], x, k) == ListScore(ids, x, k)
  {
    assert [ids][..0] == [];
    assert Flat([ids]) == Flat([]) + ids;
    forall x ensures Score([ids], x, k) == ListScore(ids, x, k) {
      assert Score([ids], x, k) == Score([ids][..0], x, k) + ListScore(ids, x, k);
    }
  }

  lemma TwoListScore(a: seq<ChunkId>, b: seq<ChunkId>, x: ChunkId, k: nat)
    ensures Score([a, b], x, k) == ListScore(a, x, k) + ListScore(b, x, k)
  {
    OneList(a, k);
    assert [a, b][..1] == [a];
    assert Score([a, b], x, k) == Score([a, b][..1], x, k) + ListScore(b, x, k);
  }

  /** Two lists of these lengths are short enough for agreement to outweigh a first place. */
  predicate ConsensusRoom(m: nat, n: nat, k: nat)
    requires m > 0 && n > 0
  {
    Share(k, m) + Share(k, n) > Share(k, 1)
  }

  /** Every id in both lists outranks every id in only one, if the lists are short enough. */
  lemma ConsensusWins(a: seq<ChunkId>, b: seq<ChunkId>, x: ChunkId, y: ChunkId, k: nat)
    requires Distinct(a) && Distinct(b)
    requires x in a && x in b && (y in a) != (y in b)
    requires ConsensusRoom(|a|, |b|, k)
    ensures Score([a, b], x, k) > Score([a, b], y, k)
  {
    TwoListScore(a, b, x, k);
    TwoListScore(a, b, y, k);
    OneShare(a, x, k);
    OneShare(b, x, k);
    OneShare(a, y, k);
    OneShare(b, y, k);
    SharesFall(k, Index(a, x) + 1, |a|);
    SharesFall(k, Index(b, x) + 1, |b|);
    var only := if y in a then a else b;
    SharesFall(k, 1, Index(only, y) + 1);
  }

  /** So agreement decides the order of the result. */
  lemma ConsensusOutranks(out: seq<ChunkId>, a: seq<ChunkId>, b: seq<ChunkId>, x: ChunkId, y: ChunkId, k: nat)
    requires Fused(out, [a, b], k) && Distinct(a) && Distinct(b)
    requires x in a && x in b && (y in a) != (y in b)
    requires ConsensusRoom(|a|, |b|, k)
    ensures x in out && y in out && Index(out, x) < Index(out, y)
  {
    hide ConsensusRoom, ListScore, FirstMentions;
    ConsensusWins(a, b, x, y, k);
    InFlat([a, b], x);
    InFlat([a, b], y);
    assert [a, b][0] == a && [a, b][1] == b;
  }

  /** With less room the claim fails: the last id of both lists does not outrank the first of one. */
  lemma ConsensusNeedsRoom(m: nat, n: nat, k: nat) returns (a: seq<ChunkId>, b: seq<ChunkId>, x: ChunkId, y: ChunkId)
    requires m > 0 && n > 0 && !ConsensusRoom(m, n, k)
    ensures |a| == m && |b| == n && Distinct(a) && Distinct(b)
    ensures x in a && x in b && y in a && y !in b
    ensures Score([a, b], x, k) <= Score([a, b], y, k)
  {
    hide Score, ListScore, Index, Share;
    assert m >= 2;
    x, y := m - 1, 0;
    a := seq(m, i requires 0 <= i < m => i);
    b := seq(n, i requires 0 <= i < n => if i == n - 1 then m - 1 else m + i);
    assert a[m - 1] == x && b[n - 1] == x && a[0] == y;
    TwoListScore(a, b, x, k);
    TwoListScore(a, b, y, k);
    ShareAt(a, m - 1, k);
    ShareAt(b, n - 1, k);
    ShareAt(a, 0, k);
    OneShare(b, y, k);
  }

  lemma ShareAt(ids: seq<ChunkId>, i: nat, k: nat)
    requires Distinct(ids) && i < |ids|
    ensures ListScore(ids, ids[i], k) == Share(k, i + 1)
  {
    OneShare(ids, ids[i], k);
    IndexAt(ids, i);
  }

  lemma RoomIsLength(n: nat, k: nat)
    requires n > 0
    ensures ConsensusRoom(n, n, k) <==> n <= k + 1
  {
    var a, b := (k + n) as real, (k + 1) as real;
    assert 2.0 / a - 1.0 / b == (2.0 * b - a) / (a * b);
    assert Share(k, n) + Share(k, n) == 2.0 / a;
    assert a * b > 0.0;
    if n <= k + 1 {
      assert 2.0 * b - a > 0.0;
    } else {
      assert 2.0 * b - a <= 0.0;
    }
  }

  // ------------------------------------------------------------ the candidates for Ask

  /** `candidate_limit` in hybrid_retrieve. */
  function CandidateLimit(maxChunks: int): int {
    Max(maxChunks * 4, maxChunks)
  }

  /** Shorter lists have more room. */
  lemma RoomShrinks(m: nat, n: nat, limit: nat, k: nat)
    requires 0 < m <= limit && 0 < n <= limit && ConsensusRoom(limit, limit, k)
    ensures ConsensusRoom(m, n, k)
  {
    SharesFall(k, m, limit);
    SharesFall(k, n, limit);
  }

  /** Both searches return up to CandidateLimit hits. Agreement is sure to win whatever the two lengths
      exactly for profiles of at most 15 passages; the quality profile's 16 are one too many. */
  lemma ConsensusByProfile(maxChunks: nat)
    requires maxChunks > 0
    ensures (forall m: nat, n: nat | 0 < m <= CandidateLimit(maxChunks) && 0 < n <= CandidateLimit(maxChunks) ::
               ConsensusRoom(m, n, RRF_K)) <==> maxChunks <= 15
  {
    hide ConsensusRoom;
    var limit := CandidateLimit(maxChunks);
    RoomIsLength(limit, RRF_K);
    if maxChunks <= 15 {
      forall m: nat, n: nat | 0 < m <= limit && 0 < n <= limit ensures ConsensusRoom(m, n, RRF_K) {
        RoomShrinks(m, n, limit, RRF_K);
      }
    }
  }

  function IdsOf(hits: seq<Hit>): (ids: seq<ChunkId>)
    ensures |ids| == |hits| && forall i | 0 <= i < |hits| :: ids[i] == hits[i].chunk.id
  {
    seq(|hits|, i requires 0 <= i < |hits| => hits[i].chunk.id)
  }

  function IdLists(lists: seq<seq<Hit>>): (ids: seq<seq<ChunkId>>)
    ensures |ids| == |lists| && forall i | 0 <= i < |lists| :: ids[i] == IdsOf(lists[i])
  {
    seq(|lists|, i requires 0 <= i < |lists| => IdsOf(lists[i]))
  }

  /** The hit that represents a chunk after fusion: the last one seen. */
  ghost predicate LastHit(hits: seq<Hit>, h: Hit) {
    exists i | 0 <= i < |hits| :: hits[i] == h && forall j | i < j < |hits| :: hits[j].chunk.id != h.chunk.id
  }
}
