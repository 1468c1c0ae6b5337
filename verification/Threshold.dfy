/** Calibrating the match threshold on impostor scores. */
module Threshold {
  import opened Results
  import opened Statistics

  datatype QuantileError = OutOfRange

  /** `k` with `k <= x < k + 1`. */
  function Floor(x: real): int {
    x.Floor
  }

  function Ceiling(x: real): int {
    -Floor(-x)
  }

  /** Where NumPy's "higher" method looks: the first whole position at or past the exact one. */
  function HigherPosition(n: nat, q: real): int
    requires n > 0
  {
    Ceiling((n - 1) as real * q)
  }

  /** NumPy's quantile by the "higher" method: the score at or just above the exact position. */
  function HigherQuantile(scores: seq<real>, q: real): Result<real, QuantileError>
    requires scores != []
  {
    if q < 0.0 || q > 1.0 then Failure(OutOfRange)
    else
      HigherIndexInRange(|scores|, q);
      Success(Sorted(scores)[HigherPosition(|scores|, q)])
  }

  lemma HigherIndexInRange(n: nat, q: real)
    requires n > 0 && 0.0 <= q <= 1.0
    ensures 0 <= HigherPosition(n, q) < n
  {
    var x := (n - 1) as real * q;
    assert 0.0 <= x <= (n - 1) as real;
  }

  function ThresholdAt(impostor: seq<real>, fmr: real): Result<real, QuantileError>
    requires impostor != []
  {
    HigherQuantile(impostor, 1.0 - fmr)
  }

  function Above(limit: real): real -> bool {
    x => x > limit
  }

  /** How many impostors may score strictly above the threshold. */
  function Allowance(n: nat, fmr: real): int
    requires n > 0
  {
    Floor(fmr * (n - 1) as real)
  }

  lemma FloorShifts(x: real, k: int)
    ensures Floor(x - k as real) == Floor(x) - k
  {
  }

  lemma PositionFromTheTop(k: nat, fmr: real)
    requires 0.0 <= fmr <= 1.0
    ensures Ceiling(k as real * (1.0 - fmr)) == k - Floor(fmr * k as real)
  {
    assert -(k as real * (1.0 - fmr)) == fmr * k as real - k as real;
    FloorShifts(fmr * k as real, k);
  }

  lemma AllowanceFromTheTop(n: nat, fmr: real)
    requires n > 0 && 0.0 <= fmr <= 1.0
    ensures 0 <= Allowance(n, fmr) < n
    ensures HigherPosition(n, 1.0 - fmr) == n - 1 - Allowance(n, fmr)
  {
    PositionFromTheTop(n - 1, fmr);
    HigherIndexInRange(n, 1.0 - fmr);
  }

  lemma ThresholdIndex(impostor: seq<real>, fmr: real)
    requires impostor != [] && 0.0 <= fmr <= 1.0
    ensures 0 <= Allowance(|impostor|, fmr) < |impostor|
    ensures ThresholdAt(impostor, fmr)
         == Success(Sorted(impostor)[|impostor| - 1 - Allowance(|impostor|, fmr)])
  {
    AllowanceFromTheTop(|impostor|, fmr);
  }

  /** There is a threshold for a target between nothing and all, and for no other. */
  lemma ThresholdOnlyForShares(impostor: seq<real>, fmr: real)
    requires impostor != []
    ensures ThresholdAt(impostor, fmr).Success? <==> 0.0 <= fmr <= 1.0
  {
    if 0.0 <= fmr <= 1.0 {
      ThresholdIndex(impostor, fmr);
    }
  }

  lemma AboveInOrder(s: seq<real>, k: nat)
    requires Ascending(s) && k < |s|
    ensures Count(s, Above(s[k])) <= |s| - 1 - k
  {
    assert s == s[..k + 1] + s[k + 1..];
    CountOfConcatenation(s[..k + 1], s[k + 1..], Above(s[k]));
    CountNone(s[..k + 1], Above(s[k]));
    CountIsAtMostLength(s[k + 1..], Above(s[k]));
  }

  function EqualTo(score: real): real -> bool {
    x => x == score
  }

  lemma {:induction false} SameCount(values: seq<real>, p: real -> bool, q: real -> bool)
    requires forall i :: 0 <= i < |values| ==> (p(values[i]) <==> q(values[i]))
    ensures Count(values, p) == Count(values, q)
  {
    if values != [] {
      SameCount(values[1..], p, q);
    }
  }

  /** In order, what is at least the `k`-th is all from there on, and its equals before. */
  lemma AtLeastInOrder(s: seq<real>, k: nat)
    requires Ascending(s) && k < |s|
    ensures Count(s, AtLeast(s[k])) == |s| - k + Count(s[..k], EqualTo(s[k]))
  {
    assert s == s[..k] + s[k..];
    CountOfConcatenation(s[..k], s[k..], AtLeast(s[k]));
    CountAll(s[k..], AtLeast(s[k]));
    SameCount(s[..k], AtLeast(s[k]), EqualTo(s[k]));
  }

  /** Where the threshold stands among the impostors in order. */
  function Position(impostor: seq<real>, fmr: real): (k: nat)
    requires impostor != [] && 0.0 <= fmr <= 1.0
    ensures k < |impostor|
  {
    AllowanceFromTheTop(|impostor|, fmr);
    |impostor| - 1 - Allowance(|impostor|, fmr)
  }

  /** How many impostors further down the order score as much as the threshold. */
  function TiesBelow(impostor: seq<real>, fmr: real): nat
    requires impostor != [] && 0.0 <= fmr <= 1.0
  {
    var s, k := Sorted(impostor), Position(impostor, fmr);
    Count(s[..k], EqualTo(s[k]))
  }

  /** Ties or not, at most the allowance score strictly above the threshold, and at least
    * one more than the allowance score at or above it. */
  lemma FewScoreAboveTheThreshold(impostor: seq<real>, fmr: real)
    requires impostor != [] && 0.0 <= fmr <= 1.0
    ensures ThresholdAt(impostor, fmr).Success?
    ensures var t := ThresholdAt(impostor, fmr).value;
            && Count(impostor, Above(t)) <= Allowance(|impostor|, fmr)
            && Count(impostor, AtLeast(t)) >= Allowance(|impostor|, fmr) + 1
            && t in impostor
  {
    ThresholdIndex(impostor, fmr);
    var s := Sorted(impostor);
    var t := ThresholdAt(impostor, fmr).value;
    SortedAscends(impostor);
    AboveInOrder(s, |s| - 1 - Allowance(|s|, fmr));
    FromTheKthOn(s, |s| - 1 - Allowance(|s|, fmr), t);
    CountSorted(impostor, Above(t));
    CountSorted(impostor, AtLeast(t));
    SameElements(impostor, t);
  }

  /** No lower score would do: strictly above each lies more than the allowance. */
  lemma NoLowerScoreWouldDo(impostor: seq<real>, fmr: real, lower: real)
    requires impostor != [] && 0.0 <= fmr <= 1.0
    requires ThresholdAt(impostor, fmr).Success? && lower < ThresholdAt(impostor, fmr).value
    ensures Count(impostor, Above(lower)) > Allowance(|impostor|, fmr)
  {
    FewScoreAboveTheThreshold(impostor, fmr);
    CountGrowsWithThePredicate(impostor, AtLeast(ThresholdAt(impostor, fmr).value), Above(lower));
  }

  /** Exactly one more than the allowance match at the threshold, and its ties besides. */
  lemma ScoresAtTheThreshold(impostor: seq<real>, fmr: real)
    requires impostor != [] && 0.0 <= fmr <= 1.0
    ensures ThresholdAt(impostor, fmr).Success?
    ensures Count(impostor, AtLeast(ThresholdAt(impostor, fmr).value))
         == Allowance(|impostor|, fmr) + 1 + TiesBelow(impostor, fmr)
  {
    ThresholdIndex(impostor, fmr);
    var s := Sorted(impostor);
    SortedAscends(impostor);
    AtLeastInOrder(s, |s| - 1 - Allowance(|s|, fmr));
    CountSorted(impostor, AtLeast(ThresholdAt(impostor, fmr).value));
  }

  /** The score before it in order, if there is one, is lower. */
  predicate StandsAlone(impostor: seq<real>, fmr: real)
    requires impostor != [] && 0.0 <= fmr <= 1.0
  {
    var s, k := Sorted(impostor), Position(impostor, fmr);
    k == 0 || s[k - 1] < s[k]
  }

  lemma NoEqualBefore(s: seq<real>, k: nat)
    requires Ascending(s) && k < |s|
    ensures Count(s[..k], EqualTo(s[k])) == 0 <==> k == 0 || s[k - 1] < s[k]
  {
    if k == 0 || s[k - 1] < s[k] {
      CountNone(s[..k], EqualTo(s[k]));
    } else {
      assert s[..k] == s[..k - 1] + [s[k - 1]];
      CountOfConcatenation(s[..k - 1], [s[k - 1]], EqualTo(s[k]));
      CountAll([s[k - 1]], EqualTo(s[k]));
    }
  }

  /** The threshold has no ties exactly when the score before it in order is lower. */
  lemma NoTiesExactlyWhen(impostor: seq<real>, fmr: real)
    requires impostor != [] && 0.0 <= fmr <= 1.0
    ensures TiesBelow(impostor, fmr) == 0 <==> StandsAlone(impostor, fmr)
  {
    SortedAscends(impostor);
    NoEqualBefore(Sorted(impostor), Position(impostor, fmr));
  }

  lemma DistinctStandAlone(impostor: seq<real>, fmr: real)
    requires impostor != [] && 0.0 <= fmr <= 1.0 && Distinct(impostor)
    ensures StandsAlone(impostor, fmr)
  {
    SortedAscends(impostor);
  }

  /** With distinct scores there are no ties. */
  lemma DistinctScoresAtTheThreshold(impostor: seq<real>, fmr: real)
    requires impostor != [] && 0.0 <= fmr <= 1.0 && Distinct(impostor)
    ensures ThresholdAt(impostor, fmr).Success? && TiesBelow(impostor, fmr) == 0
    ensures Count(impostor, AtLeast(ThresholdAt(impostor, fmr).value)) == Allowance(|impostor|, fmr) + 1
  {
    ScoresAtTheThreshold(impostor, fmr);
    DistinctStandAlone(impostor, fmr);
    NoTiesExactlyWhen(impostor, fmr);
  }

  /** The false match rate of a threshold: the share of impostors at or above it. */
  function MatchRate(impostor: seq<real>, threshold: real): real
    requires impostor != []
  {
    Count(impostor, AtLeast(threshold)) as real / |impostor| as real
  }

  predicate EnoughImpostors(n: nat, fmr: real)
    requires fmr > 0.0
  {
    n as real >= 1.0 / fmr
  }

  /** So many are at most a share `fmr` of `n`. */
  predicate Within(count: int, n: nat, fmr: real) {
    count as real <= fmr * n as real
  }

  /** One more than the allowance is at most `fmr` of `n`. */
  predicate RoomForOneMore(n: nat, fmr: real)
    requires n > 0
  {
    Within(Allowance(n, fmr) + 1, n, fmr)
  }

  /** Two more than the allowance are too many, whatever their number. */
  lemma RoomForNoTies(n: nat, fmr: real, ties: nat)
    requires n > 0 && fmr <= 1.0
    ensures Within(Allowance(n, fmr) + 1 + ties, n, fmr) <==> ties == 0 && RoomForOneMore(n, fmr)
  {
    assert fmr * n as real == fmr * (n - 1) as real + fmr;
  }

  /** The documented promise -- at most `fmr` of the impostors match -- holds exactly when the
    * score before the threshold in order is lower, and there is room for one more than the
    * allowance. */
  lemma PromiseHoldsExactlyWhen(impostor: seq<real>, fmr: real)
    requires impostor != [] && 0.0 <= fmr <= 1.0
    ensures ThresholdAt(impostor, fmr).Success?
    ensures MatchRate(impostor, ThresholdAt(impostor, fmr).value) <= fmr
       <==> StandsAlone(impostor, fmr) && RoomForOneMore(|impostor|, fmr)
  {
    ScoresAtTheThreshold(impostor, fmr);
    RateAtMost(impostor, ThresholdAt(impostor, fmr).value, fmr);
    NoTiesExactlyWhen(impostor, fmr);
    RoomForNoTies(|impostor|, fmr, TiesBelow(impostor, fmr));
  }

  /** For distinct scores only their number and the target decide. */
  lemma PromiseForDistinctScores(impostor: seq<real>, fmr: real)
    requires impostor != [] && 0.0 <= fmr <= 1.0 && Distinct(impostor)
    ensures ThresholdAt(impostor, fmr).Success?
    ensures MatchRate(impostor, ThresholdAt(impostor, fmr).value) <= fmr <==> RoomForOneMore(|impostor|, fmr)
  {
    PromiseHoldsExactlyWhen(impostor, fmr);
    DistinctStandAlone(impostor, fmr);
  }

  lemma RateAtMost(impostor: seq<real>, t: real, rate: real)
    requires impostor != []
    ensures MatchRate(impostor, t) <= rate <==> Within(Count(impostor, AtLeast(t)), |impostor|, rate)
  {
    DivisionMovesAcross(Count(impostor, AtLeast(t)) as real, |impostor| as real, rate);
  }

  lemma DivisionMovesAcross(a: real, b: real, c: real)
    requires b > 0.0
    ensures a / b <= c <==> a <= c * b
    ensures a / b >= c <==> a >= c * b
  {
    assert a == (a / b) * b;
    assert (c - a / b) * b == c * b - a;
  }

  /** With enough distinct impostors the rate is never more than twice the target. */
  lemma RateIsAtMostTwiceTheTarget(impostor: seq<real>, fmr: real)
    requires impostor != [] && 0.0 < fmr <= 1.0 && Distinct(impostor)
    requires EnoughImpostors(|impostor|, fmr)
    ensures ThresholdAt(impostor, fmr).Success?
    ensures MatchRate(impostor, ThresholdAt(impostor, fmr).value) <= 2.0 * fmr
  {
    DistinctScoresAtTheThreshold(impostor, fmr);
    RateFromAllowance(Count(impostor, AtLeast(ThresholdAt(impostor, fmr).value)), |impostor|, fmr);
  }

  lemma RateFromAllowance(count: int, n: nat, fmr: real)
    requires n > 0 && 0.0 < fmr && EnoughImpostors(n, fmr) && count == Allowance(n, fmr) + 1
    ensures count as real / n as real <= 2.0 * fmr
  {
    AllowanceIsAtMostTwice(n, fmr);
    DivisionMovesAcross(count as real, n as real, 2.0 * fmr);
  }

  lemma AllowanceIsAtMostTwice(n: nat, fmr: real)
    requires n > 0 && 0.0 < fmr && EnoughImpostors(n, fmr)
    ensures (Allowance(n, fmr) + 1) as real <= 2.0 * fmr * n as real
  {
    var k := n as real;
    DivisionMovesAcross(1.0, fmr, k);
    assert fmr * (n - 1) as real == fmr * k - fmr;
    assert 2.0 * fmr * k == fmr * k + fmr * k;
    assert Allowance(n, fmr) as real <= fmr * (n - 1) as real;
  }

  /** The promise does not survive unconditionally: eleven evenly spaced similarities at a target
    * of a tenth are enough of them, and two match. */
  lemma ThePlainPromiseFails()
    ensures exists impostor: seq<real> ::
              && |impostor| == 11 && (forall i :: 0 <= i < 11 ==> 0.0 <= impostor[i] < 1.0)
              && Distinct(impostor) && EnoughImpostors(11, 0.1)
              && ThresholdAt(impostor, 0.1).Success?
              && MatchRate(impostor, ThresholdAt(impostor, 0.1).value) > 0.1
  {
    var impostor := seq(11, (i: nat) => i as real / 11.0);
    assert Allowance(11, 0.1) == 1;
    PromiseForDistinctScores(impostor, 0.1);
  }

  /** And with ties even twice the target fails: equal scores all match. */
  lemma TiesAllMatch(impostor: seq<real>, score: real, fmr: real)
    requires impostor != [] && 0.0 <= fmr <= 1.0
    requires forall i :: 0 <= i < |impostor| ==> impostor[i] == score
    ensures ThresholdAt(impostor, fmr) == Success(score)
    ensures MatchRate(impostor, score) == 1.0
  {
    FewScoreAboveTheThreshold(impostor, fmr);
    CountAll(impostor, AtLeast(score));
    DivisionMovesAcross(|impostor| as real, |impostor| as real, 1.0);
  }
}
