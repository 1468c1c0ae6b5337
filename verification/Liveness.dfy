/** Three verdicts on a capture: the anti-spoofing model's votes, the movements asked for, and
  * one person throughout. */
module Liveness {
  import opened Results
  import opened Steps
  import opened Statistics
  import opened Vectors
  import opened HeadPose

  /** The operator's limits. */
  datatype Rules = Rules(liveThreshold: real, liveFraction: real, turnDelta: real, pitchDelta: real,
                         consistencyFrontal: real, consistencyTurned: real)
  {
    /** How far a movement must go. */
    function Limit(axis: Axis): real {
      match axis
      case Yaw => turnDelta
      case Pitch => pitchDelta
    }

    predicate Positive() {
      turnDelta > 0.0 && pitchDelta > 0.0
    }
  }

  /** A check's answer; a score that is not a number is `None`. */
  datatype Verdict = Verdict(passed: bool, score: Option<real>)

  // ---- Anti-spoofing ----

  function Total(values: seq<real>): real {
    if values == [] then 0.0 else values[0] + Total(values[1..])
  }

  function AntiSpoofing(probabilities: seq<real>, rules: Rules): Verdict {
    if probabilities == [] then Verdict(false, Some(0.0))
    else
      var live := Count(probabilities, AtLeast(rules.liveThreshold));
      Verdict(live as real / |probabilities| as real >= rules.liveFraction,
              Some(Total(probabilities) / |probabilities| as real))
  }

  /** At least the required share of the frames is judged live. */
  ghost predicate EnoughVotes(probabilities: seq<real>, rules: Rules) {
    Count(probabilities, AtLeast(rules.liveThreshold)) as real >= rules.liveFraction * |probabilities| as real
  }

  lemma AntiSpoofingIsAVote(probabilities: seq<real>, rules: Rules)
    requires probabilities != []
    ensures AntiSpoofing(probabilities, rules).passed <==> EnoughVotes(probabilities, rules)
  {
    QuotientAgainst(Count(probabilities, AtLeast(rules.liveThreshold)) as real, |probabilities| as real,
                    rules.liveFraction);
  }

  lemma {:induction false} TotalOfConcatenation(a: seq<real>, b: seq<real>)
    ensures Total(a + b) == Total(a) + Total(b)
    ensures |a| == 1 ==> Total(a) == a[0]
  {
    if a == [] {
      assert a + b == b;
    } else {
      assert (a + b)[1..] == a[1..] + b;
      TotalOfConcatenation(a[1..], b);
    }
  }

  /** The score is the mean probability. */
  lemma AntiSpoofingScoresTheMean(probabilities: seq<real>, rules: Rules)
    requires probabilities != []
    ensures var score := AntiSpoofing(probabilities, rules).score;
            score.Some? && score.value * |probabilities| as real == Total(probabilities)
  {
  }

  lemma QuotientAgainst(x: real, n: real, limit: real)
    requires n > 0.0
    ensures x / n >= limit <==> x >= limit * n
  {
    var q := x / n;
    assert q * n == x;
    if q >= limit {
      assert (q - limit) * n >= 0.0;
    } else {
      assert (limit - q) * n > 0.0;
    }
  }

  // ---- Movements ----

  /** The poses held during one movement. */
  datatype Attempt = Attempt(step: Step, poses: seq<Pose>)

  function Along(axis: Axis, pose: Pose): real {
    match axis
    case Yaw => pose.yaw
    case Pitch => pose.pitch
  }

  /** How far `pose` has moved from `baseline` the way `step` asks. */
  function Change(step: Step, baseline: Pose, pose: Pose): real
    requires IsMovement(step)
  {
    var move := MovementOf(step).value;
    move.sign * (Along(move.axis, pose) - Along(move.axis, baseline))
  }

  function LimitOf(step: Step, rules: Rules): real
    requires IsMovement(step)
  {
    rules.Limit(MovementOf(step).value.axis)
  }

  function Farthest(step: Step, baseline: Pose, poses: seq<Pose>): real
    requires IsMovement(step) && poses != []
  {
    var last := Change(step, baseline, poses[|poses| - 1]);
    if |poses| == 1 then last
    else
      var before := Farthest(step, baseline, poses[..|poses| - 1]);
      if last > before then last else before
  }

  /** The farthest change; zero without a pose. */
  function Peak(step: Step, baseline: Pose, poses: seq<Pose>): real
    requires IsMovement(step)
  {
    if poses == [] then 0.0 else Farthest(step, baseline, poses)
  }

  lemma {:induction false} FarthestIsTheLargest(step: Step, baseline: Pose, poses: seq<Pose>)
    requires IsMovement(step) && poses != []
    ensures forall j :: 0 <= j < |poses| ==> Change(step, baseline, poses[j]) <= Farthest(step, baseline, poses)
    ensures exists j :: 0 <= j < |poses| && Change(step, baseline, poses[j]) == Farthest(step, baseline, poses)
  {
    var n := |poses| - 1;
    assert poses[n] in poses;
    if n > 0 {
      FarthestIsTheLargest(step, baseline, poses[..n]);
      var j :| 0 <= j < n && Change(step, baseline, poses[..n][j]) == Farthest(step, baseline, poses[..n]);
      assert poses[j] == poses[..n][j];
      forall k | 0 <= k < |poses| ensures Change(step, baseline, poses[k]) <= Farthest(step, baseline, poses) {
        assert k < n ==> poses[k] == poses[..n][k];
      }
    }
    assert Change(step, baseline, poses[n]) == Change(step, baseline, poses[n]);
  }

  /** One of the poses has moved far enough. */
  ghost predicate Reached(attempt: Attempt, baseline: Pose, rules: Rules)
    requires IsMovement(attempt.step)
  {
    exists j :: 0 <= j < |attempt.poses|
        && Change(attempt.step, baseline, attempt.poses[j]) >= LimitOf(attempt.step, rules)
  }

  /** The farthest change as a share of the limit. */
  function Share(attempt: Attempt, baseline: Pose, rules: Rules): real
    requires IsMovement(attempt.step) && rules.Positive()
  {
    Peak(attempt.step, baseline, attempt.poses) / LimitOf(attempt.step, rules)
  }

  lemma ShareAgainstOne(attempt: Attempt, baseline: Pose, rules: Rules)
    requires IsMovement(attempt.step) && rules.Positive()
    ensures Share(attempt, baseline, rules) >= 1.0 <==> Reached(attempt, baseline, rules)
  {
    var peak, limit := Peak(attempt.step, baseline, attempt.poses), LimitOf(attempt.step, rules);
    QuotientAgainst(peak, limit, 1.0);
    if attempt.poses != [] {
      FarthestIsTheLargest(attempt.step, baseline, attempt.poses);
    }
  }

  /** The share of the least-made movement; zero when none was asked for. */
  ghost predicate IsLeastShare(score: real, baseline: Pose, performed: seq<Attempt>, rules: Rules)
    requires rules.Positive() && forall k :: 0 <= k < |performed| ==> IsMovement(performed[k].step)
  {
    && (performed == [] ==> score == 0.0)
    && (forall k :: 0 <= k < |performed| ==> score <= Share(performed[k], baseline, rules))
    && (performed != [] ==> exists k :: 0 <= k < |performed| && score == Share(performed[k], baseline, rules))
  }

  /** Every requested movement reached its limit in at least one frame. */
  method Actions(baseline: Pose, performed: seq<Attempt>, rules: Rules) returns (verdict: Verdict)
    requires rules.Positive() && forall k :: 0 <= k < |performed| ==> IsMovement(performed[k].step)
    ensures verdict.passed <==> forall k :: 0 <= k < |performed| ==> Reached(performed[k], baseline, rules)
    ensures verdict.score.Some? && IsLeastShare(verdict.score.value, baseline, performed, rules)
  {
    if performed == [] {
      return Verdict(true, Some(0.0));
    }
    var reached: seq<real> := [];
    for i := 0 to |performed|
      invariant |reached| == i
      invariant forall k :: 0 <= k < i ==> reached[k] == Share(performed[k], baseline, rules)
    {
      var peak := Peak(performed[i].step, baseline, performed[i].poses);
      reached := reached + [peak / LimitOf(performed[i].step, rules)];
    }
    var least := Least(reached);
    forall k | 0 <= k < |performed| ensures reached[k] >= 1.0 <==> Reached(performed[k], baseline, rules) {
      ShareAgainstOne(performed[k], baseline, rules);
    }
    verdict := Verdict(least >= 1.0, Some(least));
  }

  method Least(values: seq<real>) returns (least: real)
    requires values != []
    ensures forall k :: 0 <= k < |values| ==> least <= values[k]
    ensures exists k :: 0 <= k < |values| && least == values[k]
  {
    least := values[0];
    for i := 1 to |values|
      invariant forall k :: 0 <= k < i ==> least <= values[k]
      invariant exists k :: 0 <= k < i && least == values[k]
    {
      if values[i] < least {
        least := values[i];
      }
    }
  }

  // ---- One person ----

  /** Whether an embedding is close enough to the reference; never, when that is not a number. */
  predicate Same(reference: Option<Vector>, vector: Vector, limit: real)
    requires reference.Some? ==> |reference.value| == |vector|
  {
    reference.Some? && Dot(vector, reference.value) >= limit
  }

  function LeastDot(reference: Vector, vectors: seq<Vector>): real
    requires vectors != [] && forall i :: 0 <= i < |vectors| ==> |vectors[i]| == |reference|
  {
    var first := Dot(vectors[0], reference);
    if |vectors| == 1 then first
    else
      var rest := LeastDot(reference, vectors[1..]);
      if rest < first then rest else first
  }

  lemma {:induction false} LeastDotIsTheLeast(reference: Vector, vectors: seq<Vector>)
    requires vectors != [] && forall i :: 0 <= i < |vectors| ==> |vectors[i]| == |reference|
    ensures forall i :: 0 <= i < |vectors| ==> LeastDot(reference, vectors) <= Dot(vectors[i], reference)
    ensures exists i :: 0 <= i < |vectors| && LeastDot(reference, vectors) == Dot(vectors[i], reference)
  {
    if |vectors| == 1 {
      assert LeastDot(reference, vectors) == Dot(vectors[0], reference);
    } else {
      LeastDotIsTheLeast(reference, vectors[1..]);
      var i :| 0 <= i < |vectors[1..]| && LeastDot(reference, vectors[1..]) == Dot(vectors[1..][i], reference);
      assert vectors[1..][i] == vectors[i + 1] && vectors[0] == vectors[0];
      forall j | 0 <= j < |vectors| ensures LeastDot(reference, vectors) <= Dot(vectors[j], reference) {
        if j > 0 {
          assert vectors[j] == vectors[1..][j - 1];
        }
      }
    }
  }

  function Consistency(reference: Option<Vector>, frontal: seq<Vector>, turned: seq<Vector>, rules: Rules): Verdict
    requires reference.Some? ==> forall v :: v in frontal + turned ==> |v| == |reference.value|
  {
    var passed := (forall v :: v in frontal ==> Same(reference, v, rules.consistencyFrontal))
                  && (forall v :: v in turned ==> Same(reference, v, rules.consistencyTurned));
    Verdict(passed,
            if frontal + turned == [] then Some(0.0)
            else if reference.None? then None
            else Some(LeastDot(reference.value, frontal + turned)))
  }
}
