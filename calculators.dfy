/** Accuracy of one play and the rank-decayed weighted accuracy and performance of a
    player's best plays (`Calculators`). All arithmetic is over `real`. */
module Calculators {
  import opened Wrappers
  import opened Scores

  // ---- accuracy of one play ---------------------------------------------

  /** The judgements that count: 300s, 100s, 50s and misses, plus gekis and katus in
      Mania only. */
  function TotalHits(s: Score): int
  {
    var hits := s.count300 + s.count100 + s.count50 + s.countMiss;
    if s.gameMode == Mania then hits + s.countGeki + s.countKatu else hits
  }

  predicate IsDefinedMode(mode: int)
  {
    mode == Standard || mode == Taiko || mode == CatchTheBeat || mode == Mania
  }

  /** `CalculateAccuracy`: the weighted hit fraction of the play's mode, as a percentage. */
  function CalculateAccuracy(s: Score): (r: real)
    ensures TotalHits(s) == 0 ==> r == 0.0
    ensures !IsDefinedMode(s.gameMode) ==> r == 0.0
  {
    var total := TotalHits(s);
    if total == 0 then 0.0
    else if s.gameMode == Standard then
      (s.count300 * 300 + s.count100 * 100 + s.count50 * 50) as real / (total * 300) as real * 100.0
    else if s.gameMode == Taiko then
      (s.count300 * 300 + s.count100 * 150) as real / (total * 300) as real * 100.0
    else if s.gameMode == CatchTheBeat then
      (s.count300 + s.count100 + s.count50) as real / total as real * 100.0
    else if s.gameMode == Mania then
      ((s.count300 + s.countGeki) * 300 + s.countKatu * 200 + s.count100 * 100 + s.count50 * 50) as real
        / (total * 300) as real * 100.0
    else 0.0
  }

  predicate NonNegativeCounts(s: Score)
  {
    s.count300 >= 0 && s.count100 >= 0 && s.count50 >= 0 && s.countMiss >= 0 &&
    s.countGeki >= 0 && s.countKatu >= 0
  }

  lemma PercentOfFraction(num: int, den: int)
    requires 0 <= num <= den && 0 < den
    ensures 0.0 <= num as real / den as real * 100.0 <= 100.0
  {
    assert num as real / den as real <= 1.0;
  }

  /** With non-negative counts the accuracy of every mode is a percentage. */
  lemma AccuracyInRange(s: Score)
    requires NonNegativeCounts(s)
    ensures 0.0 <= CalculateAccuracy(s) <= 100.0
  {
    var total := TotalHits(s);
    if total != 0 {
      if s.gameMode == Standard {
        PercentOfFraction(s.count300 * 300 + s.count100 * 100 + s.count50 * 50, total * 300);
      } else if s.gameMode == Taiko {
        PercentOfFraction(s.count300 * 300 + s.count100 * 150, total * 300);
      } else if s.gameMode == CatchTheBeat {
        PercentOfFraction(s.count300 + s.count100 + s.count50, total);
      } else if s.gameMode == Mania {
        PercentOfFraction((s.count300 + s.countGeki) * 300 + s.countKatu * 200 + s.count100 * 100 + s.count50 * 50,
                          total * 300);
      }
    }
  }

  /** Standard: a play of nothing but 300s is 100%. */
  lemma StandardAllGreatsIsPerfect(s: Score)
    requires s.gameMode == Standard && s.count300 > 0
    requires s.count100 == 0 && s.count50 == 0 && s.countMiss == 0
    ensures CalculateAccuracy(s) == 100.0
  {
    var num := s.count300 * 300 + s.count100 * 100 + s.count50 * 50;
    assert num == TotalHits(s) * 300 && num > 0;
    assert num as real / (TotalHits(s) * 300) as real == 1.0;
  }

  /** Every mode: a play of nothing but misses is 0%. */
  lemma AllMissesIsZero(s: Score)
    requires s.countMiss > 0
    requires s.count300 == 0 && s.count100 == 0 && s.count50 == 0 && s.countGeki == 0 && s.countKatu == 0
    ensures CalculateAccuracy(s) == 0.0
  {
  }

  /** Gekis and katus only matter in Mania: outside it they change neither the hit count
      nor the accuracy. */
  lemma GekiKatuOnlyCountInMania(s: Score, geki: int, katu: int)
    requires s.gameMode != Mania
    ensures TotalHits(s.(countGeki := geki, countKatu := katu)) == TotalHits(s)
    ensures CalculateAccuracy(s.(countGeki := geki, countKatu := katu)) == CalculateAccuracy(s)
  {
  }

  /** Taiko weighs a 100 as half a 300: one great and one good is 75%. */
  lemma TaikoGoodIsHalfGreat(s: Score)
    requires s.gameMode == Taiko
    requires s.count300 == 1 && s.count100 == 1 && s.count50 == 0 && s.countMiss == 0
    ensures CalculateAccuracy(s) == 75.0
  {
  }

  // ---- powers and geometric sums ----------------------------------------

  const Decay: real := 0.95
  const PlayCountDecay: real := 0.9994
  /** `bonusNumber`, the limit of the play-count bonus to performance. */
  const BonusNumber: real := 416.6667

  function Pow(b: real, n: nat): real
  {
    if n == 0 then 1.0 else b * Pow(b, n - 1)
  }

  /** Every weight 0.95^n lies in (0, 1], and below 1 once n > 0. */
  lemma {:induction false} DecayInUnit(n: nat)
    ensures 0.0 < Pow(Decay, n) <= 1.0
    ensures n > 0 ==> Pow(Decay, n) < 1.0
  {
    if n > 0 {
      DecayInUnit(n - 1);
      var p := Pow(Decay, n - 1);
      assert Pow(Decay, n) == 0.95 * p;
    }
  }

  /** The weights never grow: 0.95^n <= 0.95^m when m <= n. */
  lemma {:induction false} DecayAntitone(m: nat, n: nat)
    requires m <= n
    ensures Pow(Decay, n) <= Pow(Decay, m)
    decreases n - m
  {
    if m < n {
      DecayAntitone(m, n - 1);
      DecayInUnit(n - 1);
      var p := Pow(Decay, n - 1);
      assert Pow(Decay, n) == 0.95 * p;
    }
  }

  /** The sum of the first `n` weights 0.95^i. */
  function GeometricSum(n: nat): real
  {
    if n == 0 then 0.0 else GeometricSum(n - 1) + Pow(Decay, n - 1)
  }

  lemma {:induction false} GeometricSumClosedForm(n: nat)
    ensures GeometricSum(n) == 20.0 * (1.0 - Pow(Decay, n))
  {
    if n > 0 {
      GeometricSumClosedForm(n - 1);
    }
  }

  // ---- weighted sums ----------------------------------------------------

  /** Σ 0.95^i · v[i] over the indices of `v` (LINQ `Select((s, i) => …).Sum()`). */
  function WeightedSum(v: seq<real>): real
  {
    if v == [] then 0.0 else WeightedSum(v[..|v| - 1]) + Pow(Decay, |v| - 1) * v[|v| - 1]
  }

  lemma ProductBounds(w: real, x: real)
    requires 0.0 < w && 0.0 <= x <= 100.0
    ensures 0.0 <= w * x <= w * 100.0
  {
    assert w * 100.0 - w * x == w * (100.0 - x);
  }

  lemma {:induction false} WeightedSumBounds(v: seq<real>)
    requires forall i :: 0 <= i < |v| ==> 0.0 <= v[i] <= 100.0
    ensures 0.0 <= WeightedSum(v) <= 100.0 * GeometricSum(|v|)
  {
    if v != [] {
      var n := |v| - 1;
      assert forall i :: 0 <= i < n ==> v[..n][i] == v[i];
      WeightedSumBounds(v[..n]);
      DecayInUnit(n);
      var w := Pow(Decay, n);
      ProductBounds(w, v[n]);
      var prev := WeightedSum(v[..n]);
      var g := GeometricSum(n);
      assert GeometricSum(|v|) == g + w;
      assert WeightedSum(v) == prev + w * v[n];
      assert 0.0 <= prev <= 100.0 * g;
    }
  }

  function Accuracies(s: seq<Score>): (r: seq<real>)
    ensures |r| == |s| && forall i :: 0 <= i < |s| ==> r[i] == s[i].accuracy
  {
    seq(|s|, i requires 0 <= i < |s| => s[i].accuracy)
  }

  function Pps(s: seq<Score>): (r: seq<real>)
    ensures |r| == |s| && forall i :: 0 <= i < |s| ==> r[i] == s[i].performancePoints
  {
    seq(|s|, i requires 0 <= i < |s| => s[i].performancePoints)
  }

  // ---- ordering by performance ------------------------------------------

  predicate DescendingByPp(s: seq<Score>)
  {
    forall i, j :: 0 <= i < j < |s| ==> s[i].performancePoints >= s[j].performancePoints
  }

  function InsertByPp(x: Score, s: seq<Score>): (r: seq<Score>)
    requires DescendingByPp(s)
    ensures DescendingByPp(r)
    ensures multiset(r) == multiset(s) + multiset{x}
    ensures |r| == |s| + 1 && (r[0] == x || (s != [] && r[0] == s[0]))
  {
    if s == [] || x.performancePoints > s[0].performancePoints then
      ConsDescending(x, s);
      [x] + s
    else
      var rest := InsertByPp(x, s[1..]);
      assert s == [s[0]] + s[1..];
      ConsDescending(s[0], rest);
      [s[0]] + rest
  }

  /** A play at least as good as the head of a highest-first list can go in front of it. */
  lemma ConsDescending(x: Score, s: seq<Score>)
    requires DescendingByPp(s) && (s != [] ==> x.performancePoints >= s[0].performancePoints)
    ensures DescendingByPp([x] + s)
  {
    var r := [x] + s;
    forall i, j | 0 <= i < j < |r| ensures r[i].performancePoints >= r[j].performancePoints {
      if i > 0 {
        assert r[i] == s[i - 1] && r[j] == s[j - 1];
      } else {
        assert r[j] == s[j - 1];
      }
    }
  }

  /** `GetSortedScoresByPP(false)`: highest performance first, by insertion. */
  function SortByPp(s: seq<Score>): (r: seq<Score>)
    ensures DescendingByPp(r)
    ensures multiset(r) == multiset(s)
  {
    if s == [] then []
    else
      assert s == s[..|s| - 1] + [s[|s| - 1]];
      InsertByPp(s[|s| - 1], SortByPp(s[..|s| - 1]))
  }

  // ---- the weighted statistics ------------------------------------------

  /** The fetched best plays with the new play, if any, appended after them. */
  function UserBests(bests: seq<Score>, score: Option<Score>): seq<Score>
  {
    if score.Some? then bests + [score.value] else bests
  }

  /** `Take(100)` of the appended list, then re-sorted by performance. */
  function Top100AsWritten(bests: seq<Score>, score: Option<Score>): (r: seq<Score>)
    ensures DescendingByPp(r)
    ensures var all := UserBests(bests, score);
            multiset(r) == multiset(all[..if |all| < 100 then |all| else 100])
  {
    var all := UserBests(bests, score);
    SortByPp(all[..if |all| < 100 then |all| else 100])
  }

  /** `bonusAccuracy`: 100 / (20 · (1 − 0.95^n)), over the full count `n`. */
  function AccuracyBonus(n: nat): real
    requires n > 0
  {
    DecayInUnit(n);
    100.0 / (20.0 * (1.0 - Pow(Decay, n)))
  }

  /** `CalculateUserWeightedAccuracy`, with the best plays passed in instead of fetched. */
  function CalculateUserWeightedAccuracy(bests: seq<Score>, score: Option<Score>): (r: real)
    ensures UserBests(bests, score) == [] ==> r == 0.0
  {
    var all := UserBests(bests, score);
    if |all| == 0 then 0.0
    else
      Percent(WeightedSum(Accuracies(Top100AsWritten(bests, score))), AccuracyBonus(|all|))
  }

  /** `weightedAccuracy * bonusAccuracy / 100`. */
  function Percent(w: real, bonus: real): real
  {
    w * bonus / 100.0
  }

  /** `CalculateUserWeightedPerformance`, with the best plays passed in instead of fetched. */
  function CalculateUserWeightedPerformance(bests: seq<Score>, score: Option<Score>): (r: real)
    ensures UserBests(bests, score) == [] ==> r == 0.0
  {
    var all := UserBests(bests, score);
    if |all| == 0 then 0.0
    else
      var weighted := WeightedSum(Pps(Top100AsWritten(bests, score)));
      weighted + BonusNumber * (1.0 - Pow(PlayCountDecay, |all|))
  }

  // ---- properties of the weighted statistics ----------------------------

  lemma SingletonSorted(x: Score)
    ensures SortByPp([x]) == [x]
  {
    var r := SortByPp([x]);
    assert multiset(r) == multiset{x};
    assert |r| == 1;
    assert r[0] in multiset(r);
  }

  /** With exactly one play, the weighted accuracy is that play's accuracy. */
  lemma {:induction false} WeightedAccuracyOfOnePlay(bests: seq<Score>, score: Option<Score>)
    requires |UserBests(bests, score)| == 1
    ensures CalculateUserWeightedAccuracy(bests, score) == UserBests(bests, score)[0].accuracy
  {
    var all := UserBests(bests, score);
    var x := all[0];
    assert all == [x] && all[..1] == [x];
    SingletonSorted(x);
    assert Top100AsWritten(bests, score) == [x];
    assert Accuracies([x]) == [x.accuracy];
    assert WeightedSum([x.accuracy]) == x.accuracy;
    assert AccuracyBonus(1) == 100.0;
  }

  /** With exactly one play, the weighted performance is its pp plus 416.6667 · (1 − 0.9994). */
  lemma {:induction false} WeightedPerformanceOfOnePlay(bests: seq<Score>, score: Option<Score>)
    requires |UserBests(bests, score)| == 1
    ensures CalculateUserWeightedPerformance(bests, score)
         == UserBests(bests, score)[0].performancePoints + 416.6667 * (1.0 - 0.9994)
  {
    var all := UserBests(bests, score);
    var x := all[0];
    assert all == [x] && all[..1] == [x];
    SingletonSorted(x);
    assert Top100AsWritten(bests, score) == [x];
    assert Pps([x]) == [x.performancePoints];
    assert WeightedSum([x.performancePoints]) == x.performancePoints;
    assert Pow(PlayCountDecay, 1) == 0.9994;
  }

  lemma RatioAtMostHundred(s: real, g: real, d: real, bonus: real)
    requires 0.0 < d && 0.0 <= s <= 100.0 * g && g <= d && bonus == 100.0 / d
    ensures 0.0 <= Percent(s, bonus) <= 100.0
  {
    assert Percent(s, bonus) == s / d;
    assert s <= 100.0 * d;
  }

  /** The kept plays are min(N, 100) plays taken from the appended list. */
  lemma KeptPlaysComeFromBests(bests: seq<Score>, score: Option<Score>)
    ensures var all := UserBests(bests, score);
            var top := Top100AsWritten(bests, score);
            |top| == (if |all| < 100 then |all| else 100) &&
            forall i :: 0 <= i < |top| ==> top[i] in all
  {
    var all := UserBests(bests, score);
    var m := if |all| < 100 then |all| else 100;
    var top := Top100AsWritten(bests, score);
    assert |top| == |multiset(top)| == |multiset(all[..m])| == m;
    forall i | 0 <= i < |top|
      ensures top[i] in all
    {
      assert top[i] in multiset(all[..m]);
    }
  }

  /** The decayed sum of the kept accuracies is at most 100 · 20 · (1 − 0.95^min(N, 100)). */
  lemma KeptAccuracySumBound(bests: seq<Score>, score: Option<Score>)
    requires forall i :: 0 <= i < |bests| ==> 0.0 <= bests[i].accuracy <= 100.0
    requires score.Some? ==> 0.0 <= score.value.accuracy <= 100.0
    ensures var all := UserBests(bests, score);
            var m := if |all| < 100 then |all| else 100;
            var w := WeightedSum(Accuracies(Top100AsWritten(bests, score)));
            0.0 <= w <= 100.0 * (20.0 * (1.0 - Pow(Decay, m)))
  {
    var all := UserBests(bests, score);
    var m := if |all| < 100 then |all| else 100;
    var top := Top100AsWritten(bests, score);
    KeptPlaysComeFromBests(bests, score);
    var acc := Accuracies(top);
    forall i | 0 <= i < |acc| ensures 0.0 <= acc[i] <= 100.0 {
      assert acc[i] == top[i].accuracy && top[i] in all;
    }
    WeightedSumBounds(acc);
    GeometricSumClosedForm(m);
  }

  /** When every play's accuracy is a percentage, so is the weighted accuracy: the bonus over
      the full count N never lifts the sum of at most 100 weights above 100%. */
  lemma {:induction false} WeightedAccuracyInRange(bests: seq<Score>, score: Option<Score>)
    requires forall i :: 0 <= i < |bests| ==> 0.0 <= bests[i].accuracy <= 100.0
    requires score.Some? ==> 0.0 <= score.value.accuracy <= 100.0
    ensures 0.0 <= CalculateUserWeightedAccuracy(bests, score) <= 100.0
  {
    var all := UserBests(bests, score);
    if |all| > 0 {
      var n := |all|;
      var m := if n < 100 then n else 100;
      KeptAccuracySumBound(bests, score);
      DecayAntitone(m, n);
      DecayInUnit(n);
      var w := WeightedSum(Accuracies(Top100AsWritten(bests, score)));
      var bonus := AccuracyBonus(n);
      RatioAtMostHundred(w, 20.0 * (1.0 - Pow(Decay, m)), 20.0 * (1.0 - Pow(Decay, n)), bonus);
    }
  }

  /** Two highest-first orderings of the same plays start with the same pp. */
  lemma HeadsAgreeOnPp(a: seq<Score>, b: seq<Score>)
    requires DescendingByPp(a) && DescendingByPp(b) && multiset(a) == multiset(b) && a != []
    ensures b != [] && a[0].performancePoints == b[0].performancePoints
  {
    assert a[0] in multiset(b);
    var j :| 0 <= j < |b| && b[j] == a[0];
    assert b[0] in multiset(a);
    var k :| 0 <= k < |a| && a[k] == b[0];
  }

  /** Removing one play from a highest-first list keeps it highest-first. */
  lemma DropKeepsDescending(b: seq<Score>, j: nat)
    requires DescendingByPp(b) && j < |b|
    ensures DescendingByPp(b[..j] + b[j + 1..])
  {
    var rest := b[..j] + b[j + 1..];
    forall p, q | 0 <= p < q < |rest|
      ensures rest[p].performancePoints >= rest[q].performancePoints
    {
      var p' := if p < j then p else p + 1;
      var q' := if q < j then q else q + 1;
      assert rest[p] == b[p'] && rest[q] == b[q'] && p' < q';
    }
  }

  /** Removing from a highest-first list a play whose pp equals the first one's keeps it
      highest-first, and the pp list is that pp followed by the rest's. */
  lemma DropTopTie(b: seq<Score>, j: nat)
    requires DescendingByPp(b) && j < |b| && b[j].performancePoints == b[0].performancePoints
    ensures var rest := b[..j] + b[j + 1..];
            DescendingByPp(rest) &&
            multiset(rest) == multiset(b) - multiset{b[j]} &&
            Pps(b) == [b[j].performancePoints] + Pps(rest)
  {
    var rest := b[..j] + b[j + 1..];
    assert b == b[..j] + [b[j]] + b[j + 1..];
    assert multiset(b) == multiset(rest) + multiset{b[j]};
    DropKeepsDescending(b, j);
    PpsAfterTopTieDrop(b, j);
  }

  /** The pp list of a highest-first list is a top-tied play's pp followed by the pp list of
      the others. */
  lemma PpsAfterTopTieDrop(b: seq<Score>, j: nat)
    requires DescendingByPp(b) && j < |b| && b[j].performancePoints == b[0].performancePoints
    ensures Pps(b) == [b[j].performancePoints] + Pps(b[..j] + b[j + 1..])
  {
    var rest := b[..j] + b[j + 1..];
    var lhs := Pps(b);
    var rhs := [b[j].performancePoints] + Pps(rest);
    assert |lhs| == |rhs|;
    forall i | 0 <= i < |b|
      ensures lhs[i] == rhs[i]
    {
      if i == 0 {
      } else if i <= j {
        assert rhs[i] == rest[i - 1].performancePoints == b[i - 1].performancePoints;
        assert b[0].performancePoints >= b[i - 1].performancePoints >= b[i].performancePoints >= b[j].performancePoints;
      } else {
        assert rhs[i] == rest[i - 1].performancePoints == b[i].performancePoints;
      }
    }
  }

  /** The tail of a highest-first list is highest-first and holds the other plays. */
  lemma TailOfDescending(a: seq<Score>)
    requires DescendingByPp(a) && a != []
    ensures DescendingByPp(a[1..]) && multiset(a[1..]) == multiset(a) - multiset{a[0]}
  {
    assert a == [a[0]] + a[1..];
  }

  lemma IndexOfPlay(b: seq<Score>, x: Score) returns (j: nat)
    requires x in multiset(b)
    ensures j < |b| && b[j] == x
  {
    j :| 0 <= j < |b| && b[j] == x;
  }

  /** Two orderings of the same plays that are both highest-performance-first list the same
      performance values, whatever order they give plays of equal performance. */
  lemma {:induction false} DescendingPermutationsAgreeOnPp(a: seq<Score>, b: seq<Score>)
    requires DescendingByPp(a) && DescendingByPp(b) && multiset(a) == multiset(b)
    ensures Pps(a) == Pps(b)
    decreases |a|
  {
    assert |a| == |multiset(a)| == |multiset(b)| == |b|;
    if |a| > 0 {
      var x := a[0];
      HeadsAgreeOnPp(a, b);
      var j := IndexOfPlay(b, x);
      DropTopTie(b, j);
      var rest := b[..j] + b[j + 1..];
      TailOfDescending(a);
      DescendingPermutationsAgreeOnPp(a[1..], rest);
      PpsCons(a);
    }
  }

  lemma PpsCons(a: seq<Score>)
    requires a != []
    ensures Pps(a) == [a[0].performancePoints] + Pps(a[1..])
  {
    var r := [a[0].performancePoints] + Pps(a[1..]);
    assert forall i :: 0 <= i < |a| ==> Pps(a)[i] == r[i];
  }

  /** The weighted performance does not depend on how the sort orders plays of equal pp:
      re-sorting the kept plays in ANY highest-first order gives the same value. */
  lemma WeightedPerformanceIgnoresTieOrder(bests: seq<Score>, score: Option<Score>, t: seq<Score>)
    requires UserBests(bests, score) != []
    requires DescendingByPp(t)
    requires var all := UserBests(bests, score);
             multiset(t) == multiset(all[..if |all| < 100 then |all| else 100])
    ensures CalculateUserWeightedPerformance(bests, score)
         == WeightedSum(Pps(t)) + BonusNumber * (1.0 - Pow(PlayCountDecay, |UserBests(bests, score)|))
  {
    DescendingPermutationsAgreeOnPp(t, Top100AsWritten(bests, score));
  }

  // ---- the new play and the 100-play cut --------------------------------

  /** As written, `Take(100)` runs before the re-sort: once 100 or more best plays are
      fetched, the appended new play is cut off, however high its pp. */
  lemma {:induction false} AsWrittenDropsBetterNewPlay(bests: seq<Score>, x: Score)
    requires |bests| >= 100
    requires forall i :: 0 <= i < |bests| ==> bests[i].performancePoints < x.performancePoints
    ensures x !in Top100AsWritten(bests, Some(x))
  {
    assert (bests + [x])[..100] == bests[..100];
    assert forall i :: 0 <= i < 100 ==> bests[..100][i] != x;
    assert x !in multiset(bests[..100]);
  }

  /** As written, the new play's own values never reach either weighted statistic once 100
      best plays are fetched; only the count N sees it. */
  lemma {:induction false} AsWrittenIgnoresNewPlayValues(bests: seq<Score>, x: Score, y: Score)
    requires |bests| >= 100
    ensures CalculateUserWeightedPerformance(bests, Some(x)) == CalculateUserWeightedPerformance(bests, Some(y))
    ensures CalculateUserWeightedAccuracy(bests, Some(x)) == CalculateUserWeightedAccuracy(bests, Some(y))
  {
    assert (bests + [x])[..100] == bests[..100] == (bests + [y])[..100];
    assert Top100AsWritten(bests, Some(x)) == Top100AsWritten(bests, Some(y));
  }

  /** Cutting a descending list keeps plays worth at least as much as every one it drops. */
  lemma PrefixBeatsSuffix(sorted: seq<Score>, m: nat)
    requires DescendingByPp(sorted) && m <= |sorted|
    ensures forall p, q :: p in sorted[..m] && q in sorted[m..] ==> q.performancePoints <= p.performancePoints
  {
    forall p, q | p in sorted[..m] && q in sorted[m..]
      ensures q.performancePoints <= p.performancePoints
    {
      var i :| 0 <= i < m && sorted[..m][i] == p;
      var j :| 0 <= j < |sorted| - m && sorted[m..][j] == q;
      assert sorted[i] == p && sorted[m + j] == q;
    }
  }

  /** What a cut drops from an ordering of `all` is exactly the rest of the ordering. */
  lemma DroppedIsSuffix(all: seq<Score>, sorted: seq<Score>, m: nat)
    requires multiset(sorted) == multiset(all) && m <= |sorted|
    ensures multiset(all) - multiset(sorted[..m]) == multiset(sorted[m..])
  {
    assert sorted == sorted[..m] + sorted[m..];
  }

  /** Cutting a descending ordering of `all` keeps plays worth at least as much as every
      play of `all` it drops. */
  lemma PrefixBeatsRest(all: seq<Score>, sorted: seq<Score>, m: nat)
    requires DescendingByPp(sorted) && multiset(sorted) == multiset(all) && m <= |sorted|
    ensures forall p, q :: p in sorted[..m] && q in multiset(all) - multiset(sorted[..m]) ==>
              q.performancePoints <= p.performancePoints
  {
    DroppedIsSuffix(all, sorted, m);
    PrefixBeatsSuffix(sorted, m);
  }

  /** The first `m` plays of a descending ordering of `all`: descending, `m` of them, drawn
      from `all`, and none worth less than a play left out. */
  lemma CutOfOrdering(all: seq<Score>, sorted: seq<Score>, m: nat)
    requires DescendingByPp(sorted) && multiset(sorted) == multiset(all) && m <= |sorted|
    ensures |sorted| == |all|
    ensures DescendingByPp(sorted[..m]) && |sorted[..m]| == m
    ensures multiset(sorted[..m]) <= multiset(all)
    ensures forall p, q :: p in sorted[..m] && q in multiset(all) - multiset(sorted[..m]) ==>
              q.performancePoints <= p.performancePoints
  {
    assert |sorted| == |multiset(sorted)| == |all|;
    assert sorted == sorted[..m] + sorted[m..];
    PrefixBeatsRest(all, sorted, m);
  }

  /** Intended: insert the new play at its rank first, then keep the 100 best. */
  function Top100Intended(bests: seq<Score>, score: Option<Score>): (r: seq<Score>)
    ensures DescendingByPp(r)
    ensures var all := UserBests(bests, score);
            |r| == (if |all| < 100 then |all| else 100) && multiset(r) <= multiset(all)
    ensures var all := UserBests(bests, score);
            forall p, q :: p in r && q in multiset(all) - multiset(r) ==> q.performancePoints <= p.performancePoints
  {
    var all := UserBests(bests, score);
    var sorted := SortByPp(all);
    var m := if |all| < 100 then |all| else 100;
    assert |sorted| == |multiset(sorted)| == |all|;
    CutOfOrdering(all, sorted, m);
    sorted[..m]
  }

  /** The intended cut keeps a new play that beats every fetched best. */
  lemma IntendedKeepsBetterNewPlay(bests: seq<Score>, x: Score)
    requires forall i :: 0 <= i < |bests| ==> bests[i].performancePoints < x.performancePoints
    ensures x in Top100Intended(bests, Some(x))
  {
    var all := bests + [x];
    var sorted := SortByPp(all);
    assert x in multiset(sorted);
    var j :| 0 <= j < |sorted| && sorted[j] == x;
    assert sorted[0].performancePoints >= x.performancePoints;
    assert sorted[0] in multiset(all);
    assert sorted[0] == x;
    assert Top100Intended(bests, Some(x))[0] == x;
  }

  /** The weighted performance with the intended cut. */
  function IntendedWeightedPerformance(bests: seq<Score>, score: Option<Score>): (r: real)
    ensures UserBests(bests, score) == [] ==> r == 0.0
  {
    var all := UserBests(bests, score);
    if |all| == 0 then 0.0
    else WeightedSum(Pps(Top100Intended(bests, score))) + BonusNumber * (1.0 - Pow(PlayCountDecay, |all|))
  }

  /** With fewer than 100 fetched bests both cuts keep every play, in the same order. */
  lemma CutsKeepSamePlays(bests: seq<Score>, score: Option<Score>)
    requires |bests| < 100
    ensures Top100AsWritten(bests, score) == Top100Intended(bests, score) == SortByPp(UserBests(bests, score))
  {
    var all := UserBests(bests, score);
    var sorted := SortByPp(all);
    assert all[..|all|] == all;
    assert |sorted| == |multiset(sorted)| == |all|;
    assert sorted[..|all|] == sorted;
  }

  /** With fewer than 100 fetched bests the two cuts agree, so the discrepancy needs 100 or
      more. */
  lemma {:induction false} CutsAgreeBelowHundred(bests: seq<Score>, score: Option<Score>)
    requires |bests| < 100
    ensures CalculateUserWeightedPerformance(bests, score) == IntendedWeightedPerformance(bests, score)
  {
    CutsKeepSamePlays(bests, score);
  }
}
