/** `sort_ai_search_result_by_score_get_n_top` in src/apis.rs: the hits
    sorted by descending score, a missing score counting as 0.0, then cut to
    the first `n`. */
module Ranking {
  import opened Wrappers
  import opened Entities
  import opened StableSort

  function Score(h: Hit): real {
    h.score.GetOr(0.0)
  }

  /** The comparator `b.score.partial_cmp(a.score)` as an order: `a` may
      stand before `b` when its score is at least `b`'s. */
  predicate ScoreFirst(a: Hit, b: Hit) {
    Score(a) >= Score(b)
  }

  lemma ScoreFirstIsTotalPreorder()
    ensures TotalPreorder(ScoreFirst)
  {
  }

  function Min(a: nat, b: nat): nat {
    if a <= b then a else b
  }

  /** The stably sorted hits, best score first. */
  function ByScore(hits: seq<Hit>): (r: seq<Hit>)
    ensures |r| == |hits| && multiset(r) == multiset(hits)
    ensures forall i, j :: 0 <= i < j < |r| ==> Score(r[i]) >= Score(r[j])
  {
    ScoreFirstIsTotalPreorder();
    Sort(hits, ScoreFirst)
  }

  /** The `n` best hits, best first. */
  function TopN(hits: seq<Hit>, n: nat): (r: seq<Hit>)
    ensures |r| == Min(n, |hits|)
    ensures forall i, j :: 0 <= i < j < |r| ==> Score(r[i]) >= Score(r[j])
    ensures multiset(r) <= multiset(hits)
  {
    var sorted := ByScore(hits);
    assert sorted == sorted[..Min(n, |hits|)] + sorted[Min(n, |hits|)..];
    sorted[..Min(n, |hits|)]
  }

  /** Index-wise domination of one list over another carries over to their
      elements. */
  lemma Dominates(kept: seq<Hit>, dropped: seq<Hit>)
    requires forall i, j :: 0 <= i < |kept| && 0 <= j < |dropped| ==> Score(kept[i]) >= Score(dropped[j])
    ensures forall x, y | x in kept && y in dropped :: Score(x) >= Score(y)
  {
    forall x, y | x in kept && y in dropped ensures Score(x) >= Score(y) {
      var i :| 0 <= i < |kept| && kept[i] == x;
      var j :| 0 <= j < |dropped| && dropped[j] == y;
    }
  }

  lemma KeptBeatsDropped(kept: seq<Hit>, dropped: seq<Hit>, all: multiset<Hit>)
    requires all == multiset(kept) + multiset(dropped)
    requires forall x, y | x in kept && y in dropped :: Score(x) >= Score(y)
    ensures forall x, y | x in kept && y in all - multiset(kept) :: Score(x) >= Score(y)
  {
    forall x, y | x in kept && y in all - multiset(kept) ensures Score(x) >= Score(y) {
      assert y in multiset(dropped);
      assert y in dropped;
    }
  }

  /** The n best hits and the rest split the sorted list at the cut. */
  lemma TopNSplit(hits: seq<Hit>, n: nat)
    ensures var sorted := ByScore(hits);
      var k := Min(n, |hits|);
      TopN(hits, n) == sorted[..k]
      && multiset(hits) == multiset(sorted[..k]) + multiset(sorted[k..])
  {
    var sorted := ByScore(hits);
    var k := Min(n, |hits|);
    assert sorted == sorted[..k] + sorted[k..];
  }

  /** In a list sorted best first, every hit before the cut scores at least
      as high as every hit after it. */
  lemma CutDominates(sorted: seq<Hit>, k: nat)
    requires k <= |sorted|
    requires forall i, j :: 0 <= i < j < |sorted| ==> Score(sorted[i]) >= Score(sorted[j])
    ensures forall i, j :: 0 <= i < k && 0 <= j < |sorted| - k ==> Score(sorted[..k][i]) >= Score(sorted[k..][j])
  {
    forall i, j | 0 <= i < k && 0 <= j < |sorted| - k
      ensures Score(sorted[..k][i]) >= Score(sorted[k..][j])
    {
      assert sorted[..k][i] == sorted[i];
      assert sorted[k..][j] == sorted[k + j];
    }
  }

  /** No dropped hit scores higher than a kept one. */
  lemma TopNKeepsBest(hits: seq<Hit>, n: nat)
    ensures forall x, y | x in TopN(hits, n) && y in multiset(hits) - multiset(TopN(hits, n)) ::
              Score(x) >= Score(y)
  {
    var sorted := ByScore(hits);
    var k := Min(n, |hits|);
    TopNSplit(hits, n);
    CutDominates(sorted, k);
    Dominates(sorted[..k], sorted[k..]);
    KeptBeatsDropped(sorted[..k], sorted[k..], multiset(hits));
  }

  /** With at most `n` hits, every hit is kept. */
  lemma TopNKeepsAllWhenFew(hits: seq<Hit>, n: nat)
    requires |hits| <= n
    ensures multiset(TopN(hits, n)) == multiset(hits)
  {
    var sorted := ByScore(hits);
    assert sorted[..|hits|] == sorted;
  }

  /** Taking a prefix keeps a prefix of every equivalence class. */
  lemma {:induction false} EquivalentsOfPrefix<T>(s: seq<T>, k: nat, z: T, le: (T, T) -> bool)
    requires k <= |s|
    ensures Equivalents(s[..k], z, le) <= Equivalents(s, z, le)
    decreases k
  {
    if k > 0 {
      assert s[..k][0] == s[0];
      assert s[..k][1..] == s[1..][..k - 1];
      EquivalentsOfPrefix(s[1..], k - 1, z, le);
    }
  }

  /** Stability: hits with equal scores keep their input order, and the ones
      kept are the first of them. */
  lemma TopNStable(hits: seq<Hit>, n: nat, z: Hit)
    ensures Equivalents(TopN(hits, n), z, ScoreFirst) <= Equivalents(hits, z, ScoreFirst)
  {
    ScoreFirstIsTotalPreorder();
    SortStable(hits, z, ScoreFirst);
    EquivalentsOfPrefix(Sort(hits, ScoreFirst), Min(n, |hits|), z, ScoreFirst);
  }
}
