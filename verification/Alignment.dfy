// The SOLA alignment search: which shift of the new block best matches the
// held tail. A fast form over whole-block arrays, and the loop it replaced.
module Alignment {
  import opened Samples

  const EPSILON: real := 0.000001

  /** A correlation, or the minus infinity that marks a skipped window. */
  datatype Score = MinusInfinity | Finite(value: real)

  predicate Above(a: Score, b: Score) {
    match (a, b)
    case (Finite(x), Finite(y)) => x > y
    case (Finite(_), MinusInfinity) => true
    case (MinusInfinity, _) => false
  }

  predicate Reaches(a: Score, threshold: real) {
    a.Finite? && a.value >= threshold
  }

  datatype Choice = Choice(offset: nat, fellBack: bool, clipped: bool)

  const FALL_BACK := Choice(0, true, false)

  ghost predicate IsSqrt(sqrt: real -> real) {
    forall x: real :: x >= 0.0 ==> sqrt(x) >= 0.0 && sqrt(x) * sqrt(x) == x
  }

  function Norm(sqrt: real -> real, a: seq<real>): real {
    sqrt(Energy(a))
  }

  function Window(head: seq<real>, k: nat, n: nat): seq<real>
    requires k + n <= |head|
  {
    head[k..k + n]
  }

  function Correlation(product: real, tailNorm: real, windowNorm: real): real
    requires tailNorm > 0.0 && windowNorm > 0.0
  {
    product / (tailNorm * windowNorm)
  }

  /** Index of the largest score, the lowest one on a tie. */
  function ArgMax(scores: seq<Score>): (best: nat)
    requires scores != []
    ensures best < |scores|
  {
    if |scores| == 1 then 0
    else
      var best := ArgMax(scores[..|scores| - 1]);
      if Above(scores[|scores| - 1], scores[best]) then |scores| - 1 else best
  }

  ghost predicate FirstMax(scores: seq<Score>, i: nat) {
    && i < |scores|
    && (forall j :: 0 <= j < |scores| ==> !Above(scores[j], scores[i]))
    && (forall j :: 0 <= j < i ==> Above(scores[i], scores[j]))
  }

  lemma {:induction false} ArgMaxIsFirstMax(scores: seq<Score>)
    requires scores != []
    ensures FirstMax(scores, ArgMax(scores))
  {
    if |scores| > 1 {
      var front := scores[..|scores| - 1];
      ArgMaxIsFirstMax(front);
      assert forall j :: 0 <= j < |front| ==> front[j] == scores[j];
    }
  }

  /** One round of the scan: a new score wins only when it is strictly larger. */
  lemma FirstMaxSnoc(scores: seq<Score>, k: nat, was: nat)
    requires k < |scores| && (k > 0 ==> FirstMax(scores[..k], was)) && (k == 0 ==> was == 0)
    ensures FirstMax(scores[..k + 1], if k == 0 || Above(scores[k], scores[was]) then k else was)
  {
    assert forall j :: 0 <= j < k ==> scores[..k][j] == scores[j];
  }

  lemma FirstMaxUnique(scores: seq<Score>, i: nat, j: nat)
    requires FirstMax(scores, i) && FirstMax(scores, j)
    ensures i == j
  {
    var a, b := Above(scores[i], scores[j]), Above(scores[j], scores[i]);
  }

  // ---------- the loop form ----------

  /** The score the loop gives window k: skipped when its norm is below the epsilon. */
  function LoopScore(sqrt: real -> real, tail: seq<real>, head: seq<real>, k: nat): Score
    requires k + |tail| <= |head| && Norm(sqrt, tail) >= EPSILON
  {
    var w := Window(head, k, |tail|);
    var norm := Norm(sqrt, w);
    if norm < EPSILON then MinusInfinity else Finite(Correlation(Dot(tail, w), Norm(sqrt, tail), norm))
  }

  function LoopScores(sqrt: real -> real, tail: seq<real>, head: seq<real>, search: nat): (s: seq<Score>)
    requires search + |tail| <= |head| && Norm(sqrt, tail) >= EPSILON
    ensures |s| == search + 1
  {
    seq(search + 1, k requires 0 <= k <= search => LoopScore(sqrt, tail, head, k))
  }

  function Decide(scores: seq<Score>, search: nat, threshold: real): Choice
    requires scores != []
  {
    var best := ArgMax(scores);
    if Reaches(scores[best], threshold) then Choice(best, false, best == search) else FALL_BACK
  }

  /** What the loop computes: the first best window among the search positions. */
  function LoopChoice(sqrt: real -> real, tail: seq<real>, head: seq<real>, search: nat, threshold: real): Choice {
    if |tail| == 0 || |head| < |tail| + search || Norm(sqrt, tail) < EPSILON then FALL_BACK
    else Decide(LoopScores(sqrt, tail, head, search), search, threshold)
  }

  method BestOffsetLoop(sqrt: real -> real, tail: seq<real>, head: seq<real>, search: nat, threshold: real)
    returns (r: Choice)
    ensures r == LoopChoice(sqrt, tail, head, search, threshold)
  {
    var overlap := |tail|;
    if overlap == 0 || |head| < overlap + search {
      return FALL_BACK;
    }
    var tailNorm := Norm(sqrt, tail);
    if tailNorm < EPSILON {
      return FALL_BACK;
    }
    r := ScanWindows(sqrt, tail, tailNorm, head, search, threshold);
  }

  /** The scan over the search positions, keeping the first best window. */
  method ScanWindows(sqrt: real -> real, tail: seq<real>, tailNorm: real, head: seq<real>, search: nat, threshold: real)
    returns (r: Choice)
    requires |tail| > 0 && |head| >= |tail| + search && tailNorm == Norm(sqrt, tail) >= EPSILON
    ensures r == Decide(LoopScores(sqrt, tail, head, search), search, threshold)
  {
    hide Norm, Correlation, Dot, FirstMax, ArgMax, LoopScore;
    ghost var scores := LoopScores(sqrt, tail, head, search);
    var overlap := |tail|;
    var bestOffset := 0;
    var bestCorr := MinusInfinity;
    var k := 0;
    while k < search + 1
      invariant k <= search + 1
      invariant k == 0 ==> bestOffset == 0 && bestCorr == MinusInfinity
      invariant k > 0 ==> FirstMax(scores[..k], bestOffset) && bestOffset < k && bestCorr == scores[bestOffset]
    {
      var slice := head[k..k + overlap];
      var sNorm := Norm(sqrt, slice);
      ghost var was := bestOffset;
      LoopScoreIs(sqrt, tail, head, k);
      if sNorm >= EPSILON {
        var corr := Finite(Correlation(Dot(tail, slice), tailNorm, sNorm));
        if Above(corr, bestCorr) {
          bestCorr := corr;
          bestOffset := k;
        }
      }
      FirstMaxSnoc(scores, k, was);
      k := k + 1;
    }
    assert scores[..k] == scores;
    ArgMaxIsFirstMax(scores);
    FirstMaxUnique(scores, bestOffset, ArgMax(scores));
    if Reaches(bestCorr, threshold) {
      return Choice(bestOffset, false, bestOffset == search);
    }
    return FALL_BACK;
  }

  lemma LoopScoreIs(sqrt: real -> real, tail: seq<real>, head: seq<real>, k: nat)
    requires k + |tail| <= |head| && Norm(sqrt, tail) >= EPSILON
    ensures var w := head[k..k + |tail|]; var score := LoopScore(sqrt, tail, head, k);
      score == if Norm(sqrt, w) < EPSILON then MinusInfinity else Finite(Correlation(Dot(tail, w), Norm(sqrt, tail), Norm(sqrt, w)))
  {
  }

  // ---------- the array form ----------

  /** Cross-correlation at every position where the tail fits. */
  function CrossCorrelation(head: seq<real>, tail: seq<real>): (c: seq<real>)
    requires 0 < |tail| <= |head|
    ensures |c| == |head| - |tail| + 1
  {
    seq(|head| - |tail| + 1, k requires 0 <= k <= |head| - |tail| => Dot(tail, Window(head, k, |tail|)))
  }

  /** Running sums of squares, starting at 0. */
  function EnergySums(head: seq<real>): (cs: seq<real>)
    ensures |cs| == |head| + 1
  {
    if head == [] then [0.0]
    else
      var n := |head| - 1;
      var cs := EnergySums(head[..n]);
      cs + [cs[n] + Times(head[n], head[n])]
  }

  function WindowEnergies(head: seq<real>, overlap: nat): (w: seq<real>)
    requires 0 < overlap <= |head|
    ensures |w| == |head| - overlap + 1
  {
    var cs := EnergySums(head);
    seq(|head| - overlap + 1, k requires 0 <= k <= |head| - overlap => cs[k + overlap] - cs[k])
  }

  function ArrayScores(sqrt: real -> real, tail: seq<real>, head: seq<real>): (s: seq<Score>)
    requires 0 < |tail| <= |head| && Norm(sqrt, tail) >= EPSILON
    ensures |s| == |head| - |tail| + 1
  {
    var num, energies, tailNorm := CrossCorrelation(head, tail), WindowEnergies(head, |tail|), Norm(sqrt, tail);
    seq(|num|, k requires 0 <= k < |num| =>
      var norm := sqrt(energies[k]);
      if norm > EPSILON then Finite(Correlation(num[k], tailNorm, norm)) else MinusInfinity)
  }

  function BestOffset(sqrt: real -> real, tail: seq<real>, head: seq<real>, search: nat, threshold: real): (c: Choice)
    ensures |head| == |tail| + search ==> c.offset <= search
    ensures c.fellBack ==> c == FALL_BACK
    ensures !c.fellBack && |head| == |tail| + search ==> (c.clipped <==> c.offset == search)
  {
    if |tail| == 0 || |head| < |tail| + search || Norm(sqrt, tail) < EPSILON then FALL_BACK
    else Decide(ArrayScores(sqrt, tail, head), search, threshold)
  }

  lemma {:induction false} SumsAreEnergies(head: seq<real>, k: nat)
    requires k <= |head|
    ensures EnergySums(head)[k] == Energy(head[..k])
  {
    if head != [] {
      var n := |head| - 1;
      if k <= n {
        SumsAreEnergies(head[..n], k);
        assert head[..n][..k] == head[..k];
      } else {
        SumsAreEnergies(head[..n], n);
        assert head[..n][..n] == head[..n];
        assert head[..k] == head;
      }
    }
  }

  lemma {:induction false} EnergyOfConcat(a: seq<real>, b: seq<real>)
    ensures Energy(a + b) == Energy(a) + Energy(b)
  {
    if b == [] {
      assert a + b == a;
    } else {
      var n := |b| - 1;
      EnergyOfConcat(a, b[..n]);
      assert (a + b)[..|a + b| - 1] == a + b[..n];
    }
  }

  /** The difference of running sums is the energy of the window itself. */
  lemma WindowEnergyIsDirect(head: seq<real>, overlap: nat, k: nat)
    requires 0 < overlap && k + overlap <= |head|
    ensures WindowEnergies(head, overlap)[k] == Energy(Window(head, k, overlap))
  {
    SumsAreEnergies(head, k);
    SumsAreEnergies(head, k + overlap);
    EnergyOfConcat(head[..k], head[k..k + overlap]);
    assert head[..k] + head[k..k + overlap] == head[..k + overlap];
  }

  lemma ArrayScoreAt(sqrt: real -> real, tail: seq<real>, head: seq<real>, k: nat)
    requires 0 < |tail| && k + |tail| <= |head| && Norm(sqrt, tail) >= EPSILON
    ensures ArrayScores(sqrt, tail, head)[k]
         == if Norm(sqrt, Window(head, k, |tail|)) == EPSILON then MinusInfinity else LoopScore(sqrt, tail, head, k)
  {
    WindowEnergyIsDirect(head, |tail|, k);
  }

  // ---------- what the search computes, without quotients ----------

  /** Window k is loud enough: the loop also takes a norm of exactly the epsilon. */
  predicate Loud(sqrt: real -> real, tail: seq<real>, head: seq<real>, k: nat, loop: bool)
    requires k + |tail| <= |head|
  {
    var norm := Norm(sqrt, head[k..k + |tail|]);
    norm > 0.000001 || (loop && norm == 0.000001)
  }

  /** The inner product with window k is at least the threshold's share of the
      product of the norms. */
  predicate Similar(sqrt: real -> real, tail: seq<real>, head: seq<real>, threshold: real, k: nat)
    requires k + |tail| <= |head|
  {
    var w := head[k..k + |tail|];
    Dot(tail, w) >= threshold * (Norm(sqrt, tail) * Norm(sqrt, w))
  }

  /** Window j is more similar than window k: their inner products compared after
      multiplying each by the other's norm. */
  predicate Beats(sqrt: real -> real, tail: seq<real>, head: seq<real>, j: nat, k: nat)
    requires j + |tail| <= |head| && k + |tail| <= |head|
  {
    var v, w := head[j..j + |tail|], head[k..k + |tail|];
    Dot(tail, v) * Norm(sqrt, w) > Dot(tail, w) * Norm(sqrt, v)
  }

  /** The first most similar of the loud windows, if it is similar enough. */
  predicate FirstBest(sqrt: real -> real, tail: seq<real>, head: seq<real>, search: nat, threshold: real, loop: bool, k: nat)
    requires |head| >= |tail| + search
  {
    && k <= search && Loud(sqrt, tail, head, k, loop) && Similar(sqrt, tail, head, threshold, k)
    && (forall j: nat :: j <= search && Loud(sqrt, tail, head, j, loop) ==> !Beats(sqrt, tail, head, j, k))
    && (forall j: nat :: j < k && Loud(sqrt, tail, head, j, loop) ==> Beats(sqrt, tail, head, k, j))
  }

  /** Some loud window is similar enough to align on. */
  predicate Alignable(sqrt: real -> real, tail: seq<real>, head: seq<real>, search: nat, threshold: real, loop: bool)
    requires |head| >= |tail| + search
  {
    && |tail| > 0 && Norm(sqrt, tail) >= 0.000001
    && exists k: nat :: k <= search && Loud(sqrt, tail, head, k, loop) && Similar(sqrt, tail, head, threshold, k)
  }

  /** A search found what there is to find. */
  predicate Found(sqrt: real -> real, tail: seq<real>, head: seq<real>, search: nat, threshold: real, loop: bool, r: Choice)
    requires |head| >= |tail| + search
  {
    && (!r.fellBack <==> Alignable(sqrt, tail, head, search, threshold, loop))
    && (!r.fellBack ==> FirstBest(sqrt, tail, head, search, threshold, loop, r.offset) && (r.clipped <==> r.offset == search))
    && (r.fellBack ==> r.offset == 0 && !r.clipped)
  }

  /** A correlation is the inner product as a share of the product of the norms. */
  lemma CorrelationIs(product: real, tailNorm: real, windowNorm: real)
    requires tailNorm > 0.0 && windowNorm > 0.0
    ensures Correlation(product, tailNorm, windowNorm) * (tailNorm * windowNorm) == product
  {
    PositiveTimes(tailNorm, windowNorm);
    QuotientTimes(product, Times(tailNorm, windowNorm));
  }

  lemma CorrelationReaches(d: real, t: real, n: real, threshold: real)
    requires t > 0.0 && n > 0.0
    ensures Correlation(d, t, n) >= threshold <==> d >= threshold * (t * n)
  {
    var c, p := Correlation(d, t, n), t * n;
    CorrelationIs(d, t, n);
    PositiveTimes(t, n);
    hide Correlation;
    ScaledOrder(threshold, c, p);
  }

  lemma ScaledOrder(x: real, y: real, p: real)
    requires p > 0.0
    ensures x * p <= y * p <==> x <= y
    ensures x * p < y * p <==> x < y
  {
    if x < y {
      PositiveTimes(y - x, p);
      assert (y - x) * p == y * p - x * p;
    }
    if y < x {
      PositiveTimes(x - y, p);
      assert (x - y) * p == x * p - y * p;
    }
  }

  lemma CorrelationsCompare(d: real, e: real, t: real, n: real, o: real)
    requires t > 0.0 && n > 0.0 && o > 0.0
    ensures Correlation(d, t, n) > Correlation(e, t, o) <==> d * o > e * n
  {
    var x, y := Correlation(d, t, n), Correlation(e, t, o);
    CorrelationIs(d, t, n);
    CorrelationIs(e, t, o);
    hide Correlation;
    PositiveTimes(n, o);
    PositiveTimes(t, n * o);
    Rearranged(x, d, t, n, o);
    Rearranged(y, e, t, o, n);
    assert n * o == o * n;
    ScaledOrder(y, x, t * (n * o));
  }

  lemma Rearranged(x: real, d: real, t: real, n: real, o: real)
    requires x * (t * n) == d
    ensures x * (t * (n * o)) == d * o
  {
    assert x * (t * (n * o)) == (x * (t * n)) * o;
  }

  /** The score of window k in either form. */
  function WindowScore(sqrt: real -> real, tail: seq<real>, head: seq<real>, k: nat, loop: bool): Score
    requires k + |tail| <= |head| && Norm(sqrt, tail) >= EPSILON
  {
    var w := head[k..k + |tail|];
    if Loud(sqrt, tail, head, k, loop) then Finite(Correlation(Dot(tail, w), Norm(sqrt, tail), Norm(sqrt, w))) else MinusInfinity
  }

  lemma ScoresAre(sqrt: real -> real, tail: seq<real>, head: seq<real>, search: nat, k: nat)
    requires 0 < |tail| && |head| >= |tail| + search && k <= search && Norm(sqrt, tail) >= EPSILON
    ensures LoopScores(sqrt, tail, head, search)[k] == WindowScore(sqrt, tail, head, k, true)
    ensures ArrayScores(sqrt, tail, head)[k] == WindowScore(sqrt, tail, head, k, false)
  {
    ArrayScoreAt(sqrt, tail, head, k);
    hide Norm, ArrayScores;
  }

  lemma ScoreMeans(sqrt: real -> real, tail: seq<real>, head: seq<real>, threshold: real, loop: bool, k: nat)
    requires k + |tail| <= |head| && Norm(sqrt, tail) >= EPSILON
    ensures Reaches(WindowScore(sqrt, tail, head, k, loop), threshold)
      <==> Loud(sqrt, tail, head, k, loop) && Similar(sqrt, tail, head, threshold, k)
  {
    hide Norm, Correlation, Dot;
    var w := head[k..k + |tail|];
    if Loud(sqrt, tail, head, k, loop) {
      CorrelationReaches(Dot(tail, w), Norm(sqrt, tail), Norm(sqrt, w), threshold);
    }
  }

  lemma AboveMeans(sqrt: real -> real, tail: seq<real>, head: seq<real>, loop: bool, j: nat, k: nat)
    requires j + |tail| <= |head| && k + |tail| <= |head| && Norm(sqrt, tail) >= EPSILON
    requires Loud(sqrt, tail, head, j, loop) && Loud(sqrt, tail, head, k, loop)
    ensures Above(WindowScore(sqrt, tail, head, j, loop), WindowScore(sqrt, tail, head, k, loop)) <==> Beats(sqrt, tail, head, j, k)
  {
    hide Norm, Correlation, Dot;
    var v, w := head[j..j + |tail|], head[k..k + |tail|];
    CorrelationsCompare(Dot(tail, v), Dot(tail, w), Norm(sqrt, tail), Norm(sqrt, v), Norm(sqrt, w));
  }

  lemma DecisionFinds(sqrt: real -> real, tail: seq<real>, head: seq<real>, search: nat, threshold: real, loop: bool, scores: seq<Score>)
    requires 0 < |tail| && |head| >= |tail| + search && Norm(sqrt, tail) >= EPSILON && |scores| == search + 1
    requires forall k :: 0 <= k <= search ==> scores[k] == WindowScore(sqrt, tail, head, k, loop)
    ensures Found(sqrt, tail, head, search, threshold, loop, Decide(scores, search, threshold))
  {
    hide Norm, WindowScore, Similar, Beats, ArgMax, Loud;
    var best := ArgMax(scores);
    ArgMaxIsFirstMax(scores);
    forall k: nat | k <= search
      ensures Reaches(scores[k], threshold) <==> Loud(sqrt, tail, head, k, loop) && Similar(sqrt, tail, head, threshold, k)
      ensures scores[k].Finite? <==> Loud(sqrt, tail, head, k, loop)
    {
      ScoreMeans(sqrt, tail, head, threshold, loop, k);
      FiniteMeans(sqrt, tail, head, loop, k);
    }
    if Reaches(scores[best], threshold) {
      forall j: nat | j <= search && Loud(sqrt, tail, head, j, loop)
        ensures !Beats(sqrt, tail, head, j, best) && (j < best ==> Beats(sqrt, tail, head, best, j))
      {
        AboveMeans(sqrt, tail, head, loop, j, best);
        AboveMeans(sqrt, tail, head, loop, best, j);
      }
    }
  }

  lemma FiniteMeans(sqrt: real -> real, tail: seq<real>, head: seq<real>, loop: bool, k: nat)
    requires k + |tail| <= |head| && Norm(sqrt, tail) >= EPSILON
    ensures WindowScore(sqrt, tail, head, k, loop).Finite? <==> Loud(sqrt, tail, head, k, loop)
  {
  }

  /** The array form aligns exactly when some window louder than the epsilon is
      similar enough, and then on the first most similar one. */
  lemma BestOffsetFinds(sqrt: real -> real, tail: seq<real>, head: seq<real>, search: nat, threshold: real)
    requires |head| == |tail| + search
    ensures Found(sqrt, tail, head, search, threshold, false, BestOffset(sqrt, tail, head, search, threshold))
  {
    hide Norm, Decide, ArrayScores, WindowScore;
    if |tail| > 0 && Norm(sqrt, tail) >= EPSILON {
      forall k | 0 <= k <= search ensures ArrayScores(sqrt, tail, head)[k] == WindowScore(sqrt, tail, head, k, false) {
        ScoresAre(sqrt, tail, head, search, k);
      }
      hide FirstBest, Alignable;
      DecisionFinds(sqrt, tail, head, search, threshold, false, ArrayScores(sqrt, tail, head));
    }
  }

  /** And so does the loop, which also takes a window as loud as the epsilon. */
  lemma LoopFinds(sqrt: real -> real, tail: seq<real>, head: seq<real>, search: nat, threshold: real)
    requires |head| >= |tail| + search
    ensures Found(sqrt, tail, head, search, threshold, true, LoopChoice(sqrt, tail, head, search, threshold))
  {
    hide Norm, Decide, LoopScores, WindowScore;
    if |tail| > 0 && Norm(sqrt, tail) >= EPSILON {
      forall k | 0 <= k <= search ensures LoopScores(sqrt, tail, head, search)[k] == WindowScore(sqrt, tail, head, k, true) {
        ScoresAre(sqrt, tail, head, search, k);
      }
      hide FirstBest, Alignable;
      DecisionFinds(sqrt, tail, head, search, threshold, true, LoopScores(sqrt, tail, head, search));
    }
  }

  /** A head shorter than the tail and the search: neither form searches. */
  lemma ShortHeadFallsBack(sqrt: real -> real, tail: seq<real>, head: seq<real>, search: nat, threshold: real)
    requires |head| < |tail| + search
    ensures BestOffset(sqrt, tail, head, search, threshold) == LoopChoice(sqrt, tail, head, search, threshold) == Choice(0, true, false)
  {
  }

  // ---------- the two forms against each other ----------

  /** The forms differ just when the loop trusts a window of norm EPSILON. */
  lemma FormsDifferByChoice(sqrt: real -> real, tail: seq<real>, head: seq<real>, search: nat, threshold: real)
    requires |head| == |tail| + search
    ensures var r := LoopChoice(sqrt, tail, head, search, threshold);
      && r.offset <= search
      && (BestOffset(sqrt, tail, head, search, threshold) == r
          <==> r.fellBack || Norm(sqrt, Window(head, r.offset, |tail|)) != EPSILON)
  {
    if |tail| > 0 && Norm(sqrt, tail) >= EPSILON {
      var slow, fast := LoopScores(sqrt, tail, head, search), ArrayScores(sqrt, tail, head);
      forall k | 0 <= k <= search
        ensures fast[k] == if Norm(sqrt, Window(head, k, |tail|)) == EPSILON then MinusInfinity else slow[k]
      {
        ArrayScoreAt(sqrt, tail, head, k);
      }
      ArgMaxIsFirstMax(slow);
      ArgMaxIsFirstMax(fast);
      var i := ArgMax(slow);
      if Norm(sqrt, Window(head, i, |tail|)) != EPSILON {
        assert FirstMax(fast, i);
        FirstMaxUnique(fast, i, ArgMax(fast));
      }
    }
  }

  /** Window k is loud enough to be scored. */
  predicate Scored(sqrt: real -> real, tail: seq<real>, head: seq<real>, k: nat)
    requires k + |tail| <= |head|
  {
    Norm(sqrt, Window(head, k, |tail|)) >= EPSILON
  }

  function WindowCorrelation(sqrt: real -> real, tail: seq<real>, head: seq<real>, k: nat): real
    requires k + |tail| <= |head| && Norm(sqrt, tail) >= EPSILON && Scored(sqrt, tail, head, k)
  {
    var w := Window(head, k, |tail|);
    Correlation(Dot(tail, w), Norm(sqrt, tail), Norm(sqrt, w))
  }

  /** Window k is loud enough, reaches the threshold, and is the first best of the
      search positions that are loud enough. */
  predicate BestWindow(sqrt: real -> real, tail: seq<real>, head: seq<real>, search: nat, threshold: real, k: nat)
    requires |head| == |tail| + search && Norm(sqrt, tail) >= EPSILON
  {
    && k <= search && Scored(sqrt, tail, head, k)
    && WindowCorrelation(sqrt, tail, head, k) >= threshold
    && forall j :: 0 <= j <= search && Scored(sqrt, tail, head, j) ==>
         var best, other := WindowCorrelation(sqrt, tail, head, k), WindowCorrelation(sqrt, tail, head, j);
         if j < k then best > other else best >= other
  }

  lemma BestWindowIsChosen(sqrt: real -> real, tail: seq<real>, head: seq<real>, search: nat, threshold: real, k: nat)
    requires |head| == |tail| + search && |tail| > 0 && Norm(sqrt, tail) >= EPSILON
    ensures BestWindow(sqrt, tail, head, search, threshold, k)
      <==> LoopChoice(sqrt, tail, head, search, threshold) == Choice(k, false, k == search)
  {
    var scores := LoopScores(sqrt, tail, head, search);
    ArgMaxIsFirstMax(scores);
    forall j | 0 <= j <= search
      ensures scores[j] == if Scored(sqrt, tail, head, j) then Finite(WindowCorrelation(sqrt, tail, head, j)) else MinusInfinity
    {
    }
    if BestWindow(sqrt, tail, head, search, threshold, k) {
      FirstMaxUnique(scores, k, ArgMax(scores));
    }
    hide Norm, Window, Correlation, Dot, ArgMax, LoopScores, LoopScore;
  }

  /** A window of norm exactly the epsilon is the first best of the search. */
  predicate EpsilonWins(sqrt: real -> real, tail: seq<real>, head: seq<real>, search: nat, threshold: real, k: nat)
    requires |head| == |tail| + search
  {
    && |tail| > 0 && Norm(sqrt, tail) >= EPSILON
    && BestWindow(sqrt, tail, head, search, threshold, k) && Norm(sqrt, Window(head, k, |tail|)) == EPSILON
  }

  /** The two forms agree on a block of the length `process` passes exactly when
      no window whose norm is the epsilon is the first best of the search. */
  lemma FormsAgreeExactly(sqrt: real -> real, tail: seq<real>, head: seq<real>, search: nat, threshold: real)
    requires |head| == |tail| + search
    ensures BestOffset(sqrt, tail, head, search, threshold) == LoopChoice(sqrt, tail, head, search, threshold)
      <==> forall k: nat :: k <= search ==> !EpsilonWins(sqrt, tail, head, search, threshold, k)
  {
    hide BestOffset, LoopChoice, BestWindow, Norm;
    FormsDifferByChoice(sqrt, tail, head, search, threshold);
    ChoiceIs(sqrt, tail, head, search, threshold);
    if |tail| > 0 && Norm(sqrt, tail) >= EPSILON {
      forall k: nat | k <= search
        ensures BestWindow(sqrt, tail, head, search, threshold, k)
          <==> LoopChoice(sqrt, tail, head, search, threshold) == Choice(k, false, k == search)
      {
        BestWindowIsChosen(sqrt, tail, head, search, threshold, k);
      }
      var r := LoopChoice(sqrt, tail, head, search, threshold);
      assert !r.fellBack && Norm(sqrt, Window(head, r.offset, |tail|)) == EPSILON
        ==> EpsilonWins(sqrt, tail, head, search, threshold, r.offset);
    }
  }

  lemma ChoiceIs(sqrt: real -> real, tail: seq<real>, head: seq<real>, search: nat, threshold: real)
    ensures var r := LoopChoice(sqrt, tail, head, search, threshold);
      r == FALL_BACK || (|tail| > 0 && Norm(sqrt, tail) >= EPSILON && r == Choice(r.offset, false, r.offset == search))
  {
    hide Norm, LoopScores;
  }

  /** So they agree whenever no window of the search has a norm of exactly the
      epsilon. */
  lemma FormsAgree(sqrt: real -> real, tail: seq<real>, head: seq<real>, search: nat, threshold: real)
    requires |head| == |tail| + search
    requires forall k :: 0 <= k <= search ==> Norm(sqrt, Window(head, k, |tail|)) != EPSILON
    ensures BestOffset(sqrt, tail, head, search, threshold) == LoopChoice(sqrt, tail, head, search, threshold)
  {
    FormsAgreeExactly(sqrt, tail, head, search, threshold);
    hide Norm, BestOffset, LoopChoice, BestWindow;
  }

  /** Score k, past the search positions, reaches the threshold and beats every
      score within them. */
  predicate Intrudes(scores: seq<Score>, search: nat, threshold: real, k: nat)
    requires search < |scores|
  {
    && search < k < |scores| && Reaches(scores[k], threshold)
    && forall j :: 0 <= j <= search ==> Above(scores[k], scores[j])
  }

  /** Deciding on all scores, or on those within the search, differs exactly when
      some score past it intrudes. */
  lemma DecideOnMore(scores: seq<Score>, search: nat, threshold: real)
    requires search < |scores|
    ensures (forall k: nat :: k < |scores| ==> !Intrudes(scores, search, threshold, k))
      <==> Decide(scores, search, threshold) == Decide(scores[..search + 1], search, threshold)
  {
    var front := scores[..search + 1];
    var a, l := ArgMax(scores), ArgMax(front);
    ArgMaxIsFirstMax(scores);
    ArgMaxIsFirstMax(front);
    hide ArgMax;
    assert front[l] == scores[l];
    if a <= search {
      assert front[a] == scores[a];
      assert FirstMax(front, a);
      FirstMaxUnique(front, a, l);
      assert forall k: nat :: k < |scores| ==> !Above(scores[k], scores[a]);
    } else if Reaches(scores[a], threshold) {
      assert Intrudes(scores, search, threshold, a);
    } else {
      assert forall k: nat :: k < |scores| ==> !Reaches(scores[k], threshold);
    }
  }

  /** On a longer block than `process` passes the array form scores windows past
      the search positions. Where both forms score the others alike they agree
      exactly when none of those further windows intrudes. */
  lemma FormsAgreeOnLongHead(sqrt: real -> real, tail: seq<real>, head: seq<real>, search: nat, threshold: real)
    requires 0 < |tail| && |head| >= |tail| + search && Norm(sqrt, tail) >= EPSILON
    requires forall k :: 0 <= k <= search ==> Norm(sqrt, Window(head, k, |tail|)) != EPSILON
    ensures (forall k: nat :: k <= |head| - |tail| ==> !Intrudes(ArrayScores(sqrt, tail, head), search, threshold, k))
      <==> BestOffset(sqrt, tail, head, search, threshold) == LoopChoice(sqrt, tail, head, search, threshold)
  {
    var fast, slow := ArrayScores(sqrt, tail, head), LoopScores(sqrt, tail, head, search);
    forall k | 0 <= k <= search ensures fast[k] == slow[k] {
      ArrayScoreAt(sqrt, tail, head, k);
    }
    assert fast[..search + 1] == slow;
    DecideOnMore(fast, search, threshold);
    hide Norm, ArrayScores, LoopScores, Decide, Intrudes;
  }

  /** A window of norm exactly the epsilon: the loop aligns on it, the array
      form falls back. */
  lemma FormsDifferAtEpsilon(sqrt: real -> real)
    requires IsSqrt(sqrt)
    ensures LoopChoice(sqrt, [1.0], [EPSILON], 0, 0.5) == Choice(0, false, true)
    ensures BestOffset(sqrt, [1.0], [EPSILON], 0, 0.5) == FALL_BACK
  {
    SqrtOfSquare(sqrt, 1.0);
    SqrtOfSquare(sqrt, EPSILON);
    var tail, head := [1.0], [EPSILON];
    assert Window(head, 0, 1) == head;
    assert Energy(tail) == Times(1.0, 1.0) && Energy(head) == Times(EPSILON, EPSILON);
    assert Dot(tail, head) == Times(1.0, EPSILON);
    FormsDifferByChoice(sqrt, tail, head, 0, 0.5);
  }

  /** Given a longer block than `process` passes, the array form also looks past
      the search positions and can return an offset outside them. */
  lemma FormsDifferOnLongHead(sqrt: real -> real)
    requires IsSqrt(sqrt)
    ensures LoopChoice(sqrt, [1.0], [0.0, 1.0], 0, 0.5) == FALL_BACK
    ensures BestOffset(sqrt, [1.0], [0.0, 1.0], 0, 0.5) == Choice(1, false, false)
  {
    hide *;
    NormOfOne(sqrt, 0.0);
    NormOfOne(sqrt, 1.0);
    LongHeadScores(sqrt);
    LongHeadChoices(sqrt);
  }

  lemma DotOfOne(x: real, y: real)
    ensures Dot([x], [y]) == Times(x, y)
  {
    assert [x][..0] == [] && [y][..0] == [];
    assert Dot([x][..0], [y][..0]) == 0.0;
  }

  lemma NormOfOne(sqrt: real -> real, x: real)
    requires IsSqrt(sqrt) && x >= 0.0
    ensures Norm(sqrt, [x]) == x && Dot([1.0], [x]) == x
  {
    DotOfOne(x, x);
    DotOfOne(1.0, x);
    if x > 0.0 {
      SqrtOfSquare(sqrt, x);
    } else {
      SquareSign(sqrt(0.0));
    }
  }

  lemma LongHeadScores(sqrt: real -> real)
    requires Norm(sqrt, [0.0]) == 0.0 && Norm(sqrt, [1.0]) == 1.0 && Dot([1.0], [1.0]) == 1.0
    ensures ArrayScores(sqrt, [1.0], [0.0, 1.0]) == [MinusInfinity, Finite(1.0)]
    ensures LoopScores(sqrt, [1.0], [0.0, 1.0], 0) == [MinusInfinity]
  {
    hide Norm, Dot, ArrayScores;
    var tail, head := [1.0], [0.0, 1.0];
    assert Window(head, 0, 1) == [head[0]] && Window(head, 1, 1) == [head[1]];
    ArrayScoreAt(sqrt, tail, head, 0);
    ArrayScoreAt(sqrt, tail, head, 1);
    var scores := ArrayScores(sqrt, tail, head);
    assert scores == [scores[0], scores[1]];
  }

  lemma LongHeadChoices(sqrt: real -> real)
    requires Norm(sqrt, [1.0]) == 1.0
    requires ArrayScores(sqrt, [1.0], [0.0, 1.0]) == [MinusInfinity, Finite(1.0)]
    requires LoopScores(sqrt, [1.0], [0.0, 1.0], 0) == [MinusInfinity]
    ensures LoopChoice(sqrt, [1.0], [0.0, 1.0], 0, 0.5) == FALL_BACK
    ensures BestOffset(sqrt, [1.0], [0.0, 1.0], 0, 0.5) == Choice(1, false, false)
  {
    hide Norm, ArrayScores, LoopScores;
    var scores := [MinusInfinity, Finite(1.0)];
    assert scores[..1] == [MinusInfinity];
  }

  lemma SqrtOfSquare(sqrt: real -> real, x: real)
    requires IsSqrt(sqrt) && x > 0.0
    ensures sqrt(Times(x, x)) == x
  {
    SquareSign(x);
    var r := sqrt(Times(x, x));
    assert Times(r, r) == Times(x, x);
    CompareSquares(r, x);
    if r == 0.0 {
      SquareSign(r);
    }
  }

  // ---------- what a correlation of 1 means ----------

  lemma CorrelationAtMostOne(sqrt: real -> real, tail: seq<real>, w: seq<real>)
    requires IsSqrt(sqrt) && |tail| == |w|
    requires Norm(sqrt, tail) > 0.0 && Norm(sqrt, w) > 0.0
    ensures Correlation(Dot(tail, w), Norm(sqrt, tail), Norm(sqrt, w)) <= 1.0
    ensures Correlation(Dot(tail, w), Norm(sqrt, tail), Norm(sqrt, w)) == 1.0 <==> PositiveMultiple(tail, w)
  {
    NormSquared(sqrt, tail);
    NormSquared(sqrt, w);
    SquareSign(Norm(sqrt, tail));
    hide Norm, Times, Dot, Rest, Correlation, IsSqrt;
    CauchySchwarz(tail, w);
    UnitCorrelation(Norm(sqrt, tail), Norm(sqrt, w), Dot(tail, w), Energy(tail), Energy(w));
    ProportionalBlocks(tail, w);
  }

  lemma UnitCorrelation(t: real, n: real, d: real, e: real, f: real)
    requires t > 0.0 && n > 0.0 && Times(t, t) == e && Times(n, n) == f
    requires Times(d, d) <= Times(e, f)
    ensures Correlation(d, t, n) <= 1.0
    ensures Correlation(d, t, n) == 1.0 <==> d > 0.0 && Times(d, d) == Times(e, f)
  {
    PositiveTimes(t, n);
    var p := Times(t, n);
    ProductSquared(t, n);
    QuotientAtMostOne(d, p);
    hide Times;
    CompareSquares(d, p);
  }

  lemma ProportionalBlocks(tail: seq<real>, w: seq<real>)
    requires |tail| == |w| && Energy(tail) > 0.0
    ensures Dot(tail, w) > 0.0 && Times(Dot(tail, w), Dot(tail, w)) == Times(Energy(tail), Energy(w))
       <==> PositiveMultiple(tail, w)
  {
    hide Times, Dot, Rest;
    var d, e := Dot(tail, w), Energy(tail);
    CauchySchwarz(tail, w);
    if d > 0.0 && Times(d, d) == Times(e, Energy(w)) {
      QuotientPositive(d, e);
      assert IsMultiple(tail, w, d / e);
    }
    if PositiveMultiple(tail, w) {
      var c: real :| c > 0.0 && IsMultiple(tail, w, c);
      DotOfMultiple(tail, w, c);
      PositiveTimes(c, e);
      MultipleSquares(c, e);
    }
  }

  lemma NormSquared(sqrt: real -> real, a: seq<real>)
    requires IsSqrt(sqrt)
    ensures Norm(sqrt, a) >= 0.0 && Times(Norm(sqrt, a), Norm(sqrt, a)) == Energy(a)
  {
    EnergyNonNegative(a);
  }

  lemma ProductSquared(t: real, n: real)
    ensures Times(Times(t, n), Times(t, n)) == Times(Times(t, t), Times(n, n))
  {
  }

  lemma MultipleSquares(c: real, e: real)
    ensures Times(Times(c, e), Times(c, e)) == Times(e, Times(c, Times(c, e)))
  {
  }

  lemma QuotientAtMostOne(d: real, p: real)
    requires p > 0.0 && d <= p
    ensures d / p <= 1.0 && (d / p == 1.0 <==> d == p)
  {
    QuotientTimes(d, p);
  }

  lemma QuotientPositive(d: real, e: real)
    requires d > 0.0 && e > 0.0
    ensures d / e > 0.0
  {
  }

  /** Whether window j scores exactly 1 against the tail: loud enough to be
      scored, and a positive multiple of it. */
  ghost predicate PerfectMatch(sqrt: real -> real, tail: seq<real>, head: seq<real>, j: nat)
    requires j + |tail| <= |head|
  {
    Norm(sqrt, Window(head, j, |tail|)) > EPSILON && PositiveMultiple(tail, Window(head, j, |tail|))
  }

  lemma ScoreAgainstOne(sqrt: real -> real, tail: seq<real>, head: seq<real>, j: nat)
    requires IsSqrt(sqrt) && 0 < |tail| && j + |tail| <= |head| && Norm(sqrt, tail) > EPSILON
    ensures var s := ArrayScores(sqrt, tail, head)[j];
      && (s.Finite? ==> s.value <= 1.0)
      && (s == Finite(1.0) <==> PerfectMatch(sqrt, tail, head, j))
  {
    ArrayScoreAt(sqrt, tail, head, j);
    hide Norm, Correlation, IsSqrt, PositiveMultiple;
    var w := Window(head, j, |tail|);
    if Norm(sqrt, w) > EPSILON {
      CorrelationAtMostOne(sqrt, tail, w);
    }
  }

  /** When the head ends with the tail itself, the search always succeeds and
      stops at the first perfect match. */
  lemma SearchFindsTail(sqrt: real -> real, tail: seq<real>, head: seq<real>, search: nat, threshold: real)
    requires IsSqrt(sqrt) && |head| == |tail| + search && 0 < |tail|
    requires Window(head, search, |tail|) == tail && Norm(sqrt, tail) > EPSILON && threshold <= 1.0
    ensures var c := BestOffset(sqrt, tail, head, search, threshold);
      && !c.fellBack
      && c.offset <= search
      && PerfectMatch(sqrt, tail, head, c.offset)
      && forall j :: 0 <= j < c.offset ==> !PerfectMatch(sqrt, tail, head, j)
  {
    var scores := ArrayScores(sqrt, tail, head);
    forall j | 0 <= j <= search
      ensures scores[j].Finite? ==> scores[j].value <= 1.0
      ensures scores[j] == Finite(1.0) <==> PerfectMatch(sqrt, tail, head, j)
    {
      ScoreAgainstOne(sqrt, tail, head, j);
    }
    assert PositiveMultiple(tail, tail) by {
      assert IsMultiple(tail, tail, 1.0);
    }
    assert PerfectMatch(sqrt, tail, head, search);
    ArgMaxIsFirstMax(scores);
    hide PerfectMatch, Norm, IsSqrt;
    var best := ArgMax(scores);
    assert !Above(scores[search], scores[best]);
    forall j | 0 <= j < best ensures !PerfectMatch(sqrt, tail, head, j) {
      assert Above(scores[best], scores[j]);
    }
  }
}
