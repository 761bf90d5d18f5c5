/**
 * How `recommend_card` ranks the per-card results: the score of a result in a mode, the
 * first strictly best result, and the breakdown sorted by score, highest first, stable on ties
 * (Python's `sorted(..., reverse=True)`).
 */
module Ranking {
  import opened Rules

  /** The score a result is ranked by: miles in miles mode, cashback in any other mode. */
  function Score(r: RewardResult, mode: string): (score: real)
    ensures mode == "miles" ==> score == r.miles
    ensures mode != "miles" ==> score == r.cashback
  {
    if mode == "miles" then r.miles else r.cashback
  }

  /** The running best score before any card is seen. */
  const NoScore: real := -1.0

  /**
   * `k` is the result the selection loop ends with: its score beats the starting score, no
   * result scores higher, and every earlier result scores strictly lower (ties keep the
   * earliest).
   */
  ghost predicate FirstBest(s: seq<RewardResult>, mode: string, k: int)
  {
    0 <= k < |s| && Score(s[k], mode) > NoScore &&
    (forall j :: 0 <= j < |s| ==> Score(s[j], mode) <= Score(s[k], mode)) &&
    (forall j :: 0 <= j < k ==> Score(s[j], mode) < Score(s[k], mode))
  }

  /** No result scores above the starting score, so no card is picked. */
  ghost predicate NoneQualifies(s: seq<RewardResult>, mode: string)
  {
    forall j :: 0 <= j < |s| ==> Score(s[j], mode) <= NoScore
  }

  /** At most one result is the first best. */
  lemma FirstBestUnique(s: seq<RewardResult>, mode: string, k1: int, k2: int)
    requires FirstBest(s, mode, k1) && FirstBest(s, mode, k2)
    ensures k1 == k2
  {
  }

  /** Either some result is the first best, or none qualifies; never both. */
  lemma {:induction false} FirstBestOrNone(s: seq<RewardResult>, mode: string)
    ensures NoneQualifies(s, mode) <==> !exists k :: FirstBest(s, mode, k)
  {
    if s != [] {
      var t := s[..|s| - 1];
      FirstBestOrNone(t, mode);
      var last := s[|s| - 1];
      if NoneQualifies(t, mode) {
        if Score(last, mode) > NoScore {
          assert FirstBest(s, mode, |s| - 1);
        }
      } else {
        var k :| FirstBest(t, mode, k);
        if Score(last, mode) > Score(t[k], mode) {
          assert FirstBest(s, mode, |s| - 1);
        } else {
          assert FirstBest(s, mode, k);
        }
      }
    }
  }

  /** Sorted by score, highest first. */
  ghost predicate SortedDesc(s: seq<RewardResult>, mode: string)
  {
    forall i, j :: 0 <= i < j < |s| ==> Score(s[i], mode) >= Score(s[j], mode)
  }

  /** The results of `s` whose score is exactly `v`, in their order in `s`. */
  function WithScore(s: seq<RewardResult>, mode: string, v: real): seq<RewardResult>
  {
    if s == [] then [] else (if Score(s[0], mode) == v then [s[0]] else []) + WithScore(s[1..], mode, v)
  }

  /** `x` placed before the first result that does not score higher than it. */
  function Insert(x: RewardResult, s: seq<RewardResult>, mode: string): seq<RewardResult>
  {
    if s == [] || Score(s[0], mode) <= Score(x, mode) then [x] + s
    else [s[0]] + Insert(x, s[1..], mode)
  }

  /** Putting a result in front of a sorted list keeps it sorted when it scores at least the old head. */
  lemma SortedCons(a: RewardResult, t: seq<RewardResult>, mode: string)
    requires SortedDesc(t, mode)
    requires t == [] || Score(a, mode) >= Score(t[0], mode)
    ensures SortedDesc([a] + t, mode)
  {
    var r := [a] + t;
    forall i, j | 0 <= i < j < |r| ensures Score(r[i], mode) >= Score(r[j], mode) {
      assert r[j] == t[j - 1];
      if i > 0 {
        assert r[i] == t[i - 1];
      } else if j > 1 {
        assert Score(t[0], mode) >= Score(t[j - 1], mode);
      }
    }
  }

  lemma WithScoreCons(a: RewardResult, t: seq<RewardResult>, mode: string, v: real)
    ensures WithScore([a] + t, mode, v) == (if Score(a, mode) == v then [a] else []) + WithScore(t, mode, v)
  {
    assert ([a] + t)[1..] == t;
  }

  lemma {:induction false} InsertSorted(x: RewardResult, s: seq<RewardResult>, mode: string)
    requires SortedDesc(s, mode)
    ensures SortedDesc(Insert(x, s, mode), mode)
    ensures multiset(Insert(x, s, mode)) == multiset(s) + multiset{x}
    ensures Insert(x, s, mode)[0] == x || (s != [] && Insert(x, s, mode)[0] == s[0])
  {
    if s == [] || Score(s[0], mode) <= Score(x, mode) {
      SortedCons(x, s, mode);
    } else {
      var t := Insert(x, s[1..], mode);
      assert SortedDesc(s[1..], mode);
      InsertSorted(x, s[1..], mode);
      SortedCons(s[0], t, mode);
      assert s == [s[0]] + s[1..];
    }
  }

  /** Inserting keeps the same-score subsequences: `x` goes in front of every result with its score. */
  lemma {:induction false} InsertWithScore(x: RewardResult, s: seq<RewardResult>, mode: string, v: real)
    requires SortedDesc(s, mode)
    ensures WithScore(Insert(x, s, mode), mode, v) ==
            (if Score(x, mode) == v then [x] else []) + WithScore(s, mode, v)
  {
    if s == [] || Score(s[0], mode) <= Score(x, mode) {
      WithScoreCons(x, s, mode, v);
    } else {
      assert SortedDesc(s[1..], mode);
      InsertWithScore(x, s[1..], mode, v);
      WithScoreCons(s[0], Insert(x, s[1..], mode), mode, v);
      WithScoreCons(s[0], s[1..], mode, v);
      assert s == [s[0]] + s[1..];
    }
  }

  /** `sorted(results, key=score, reverse=True)`: highest score first, the same results. */
  function SortDesc(s: seq<RewardResult>, mode: string): (r: seq<RewardResult>)
    ensures SortedDesc(r, mode)
    ensures multiset(r) == multiset(s)
    ensures |r| == |s|
  {
    if s == [] then []
    else
      var rest := SortDesc(s[1..], mode);
      InsertSorted(s[0], rest, mode);
      assert s == [s[0]] + s[1..];
      Insert(s[0], rest, mode)
  }

  /** The sort is stable: results with equal scores keep their relative order. */
  lemma {:induction false} SortDescStable(s: seq<RewardResult>, mode: string, v: real)
    ensures WithScore(SortDesc(s, mode), mode, v) == WithScore(s, mode, v)
  {
    if s != [] {
      SortDescStable(s[1..], mode, v);
      InsertWithScore(s[0], SortDesc(s[1..], mode), mode, v);
    }
  }

  /** The first result with score `v` heads the results with that score. */
  lemma {:induction false} WithScoreHead(s: seq<RewardResult>, mode: string, v: real, k: nat)
    requires k < |s| && Score(s[k], mode) == v
    requires forall j :: 0 <= j < k ==> Score(s[j], mode) != v
    ensures WithScore(s, mode, v) != [] && WithScore(s, mode, v)[0] == s[k]
  {
    if k > 0 {
      WithScoreHead(s[1..], mode, v, k - 1);
    }
  }

  /** Whenever a best card exists, it heads the sorted breakdown. */
  lemma BestLeadsBreakdown(s: seq<RewardResult>, mode: string, k: int)
    requires FirstBest(s, mode, k)
    ensures SortDesc(s, mode) != [] && SortDesc(s, mode)[0] == s[k]
  {
    var t := SortDesc(s, mode);
    var v := Score(s[k], mode);
    assert t[0] in multiset(s);
    var i :| 0 <= i < |s| && s[i] == t[0];
    assert s[k] in multiset(t);
    var i' :| 0 <= i' < |t| && t[i'] == s[k];
    assert Score(t[0], mode) == v;
    WithScoreHead(s, mode, v, k);
    WithScoreHead(t, mode, v, 0);
    SortDescStable(s, mode, v);
  }
}
