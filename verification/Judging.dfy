/** What a capture's frames show: which of them count, what each check is given, and what makes a
  * capture live. Detection, embedding, anti-spoofing and quality scoring are the models', and
  * given. */
module Judging {
  import opened Results
  import opened Steps
  import opened Statistics
  import opened Vectors
  import opened HeadPose
  import opened Liveness
  import Ranking

  const MIN_FRONTAL := 2
  const MAX_TEMPLATES := 5

  type Image = seq<seq<int>>

  datatype Reason = NoFace | MultipleFaces | TooSmall | Blurred | TooDark | TooBright | OffAngle | OutOfFrame

  /** The one face of a frame. */
  datatype Found = Found(face: Landmarks, pose: Pose, aligned: Image)

  /** What a frame shows: its face, if it shows one, and what is wrong with it. */
  datatype Shot = Shot(step: Step, image: Image, found: Option<Found>, reasons: seq<Reason>) {
    predicate Good() {
      found.Some? && reasons == []
    }

    /** A good frame taken straight ahead: the reference and the votes come from these. */
    predicate IsCentre() {
      step.Center? && Good()
    }
  }

  datatype Models = Models(inspect: (Step, Image) -> (Option<Found>, seq<Reason>), embed: Image -> Vector,
                           liveProbability: (Image, Landmarks) -> real, quality: (Image, Pose) -> real,
                           root: real -> real, dimension: nat, rules: Rules, matchThreshold: real)
  {
    ghost predicate Valid() {
      (forall image :: |embed(image)| == dimension) && IsRoot(root) && rules.Positive()
    }

    function Inspected(step: Step, image: Image): Shot {
      Shot(step, image, inspect(step, image).0, inspect(step, image).1)
    }
  }

  predicate ValidSteps(steps: seq<Step>) {
    forall i :: 0 <= i < |steps| ==> steps[i].Center? || IsMovement(steps[i])
  }

  function Shots(m: Models, steps: seq<Step>, images: seq<Image>): seq<Shot>
    requires |steps| == |images|
  {
    seq(|steps|, i requires 0 <= i < |steps| => m.Inspected(steps[i], images[i]))
  }

  // ---- Picking frames ----

  /** The positions of the shots that satisfy `p`, in order. */
  function Where(shots: seq<Shot>, p: Shot -> bool): (r: seq<nat>)
    ensures forall k :: 0 <= k < |r| ==> r[k] < |shots| && p(shots[r[k]])
    ensures forall j, k :: 0 <= j < k < |r| ==> r[j] < r[k]
    ensures forall i :: 0 <= i < |shots| && p(shots[i]) ==> i in r
  {
    if shots == [] then []
    else
      var n := |shots| - 1;
      Where(shots[..n], p) + if p(shots[n]) then [n] else []
  }

  const IS_CENTRE := (shot: Shot) => shot.IsCentre()
  const HAS_FACE := (shot: Shot) => shot.found.Some?
  const FACES_AHEAD := (shot: Shot) => shot.found.Some? && shot.step.Center?
  const FACES_ASIDE := (shot: Shot) => shot.found.Some? && !shot.step.Center?

  function Embeddings(m: Models, shots: seq<Shot>, at: seq<nat>): (r: seq<Vector>)
    requires forall k :: 0 <= k < |at| ==> at[k] < |shots| && shots[at[k]].found.Some?
    ensures |r| == |at|
    ensures forall k :: 0 <= k < |at| ==> r[k] == m.embed(shots[at[k]].found.value.aligned)
  {
    seq(|at|, k requires 0 <= k < |at| => m.embed(shots[at[k]].found.value.aligned))
  }

  function MovementsAsked(shots: seq<Shot>): set<Step> {
    set shot | shot in shots && !shot.step.Center? :: shot.step
  }

  function MovementsSeen(shots: seq<Shot>): set<Step> {
    set shot | shot in shots && !shot.step.Center? && shot.found.Some? :: shot.step
  }

  /** Two good frames ahead, and a face in one frame of each movement. */
  predicate Complete(shots: seq<Shot>) {
    |Where(shots, IS_CENTRE)| >= MIN_FRONTAL && MovementsSeen(shots) == MovementsAsked(shots)
  }

  // ---- What the checks are given ----

  function SumOf(vectors: seq<Vector>, dimension: nat): (r: Vector)
    requires forall i :: 0 <= i < |vectors| ==> |vectors[i]| == dimension
    ensures |r| == dimension
  {
    if vectors == [] then Zero(dimension) else Plus(vectors[0], SumOf(vectors[1..], dimension))
  }

  /** The direction of the centre frames' mean embedding; none when they cancel out. */
  function Reference(m: Models, shots: seq<Shot>): (r: Option<Vector>)
    requires m.Valid() && Complete(shots)
    ensures r.Some? ==> |r.value| == m.dimension
  {
    var vectors := Embeddings(m, shots, Where(shots, IS_CENTRE));
    Normalised(m.root, Divided(SumOf(vectors, m.dimension), |vectors| as real))
  }

  function Probabilities(m: Models, shots: seq<Shot>, at: seq<nat>): (r: seq<real>)
    requires forall k :: 0 <= k < |at| ==> at[k] < |shots| && shots[at[k]].found.Some?
    ensures |r| == |at|
    ensures forall k :: 0 <= k < |at| ==> r[k] == m.liveProbability(shots[at[k]].image, shots[at[k]].found.value.face)
  {
    seq(|at|, k requires 0 <= k < |at| => m.liveProbability(shots[at[k]].image, shots[at[k]].found.value.face))
  }

  function Readings(shots: seq<Shot>, at: seq<nat>, axis: Axis): seq<real>
    requires forall k :: 0 <= k < |at| ==> at[k] < |shots| && shots[at[k]].found.Some?
  {
    seq(|at|, k requires 0 <= k < |at| => Along(axis, shots[at[k]].found.value.pose))
  }

  function Baseline(shots: seq<Shot>): Pose {
    var centre := Where(shots, IS_CENTRE);
    Pose(Median(Readings(shots, centre, Yaw)), Median(Readings(shots, centre, Pitch)), 0.0)
  }

  // ---- The movements performed ----

  /** `performed.setdefault(step, []).append(pose)`. */
  function Added(performed: seq<Attempt>, step: Step, pose: Pose): seq<Attempt> {
    if performed == [] then [Attempt(step, [pose])]
    else if performed[0].step == step then [Attempt(step, performed[0].poses + [pose])] + performed[1..]
    else [performed[0]] + Added(performed[1..], step, pose)
  }

  function Performed(shots: seq<Shot>): seq<Attempt> {
    if shots == [] then []
    else
      var n := |shots| - 1;
      if shots[n].found.Some? && !shots[n].step.Center?
      then Added(Performed(shots[..n]), shots[n].step, shots[n].found.value.pose)
      else Performed(shots[..n])
  }

  ghost predicate Recorded(performed: seq<Attempt>, step: Step, pose: Pose) {
    exists k :: 0 <= k < |performed| && performed[k].step == step && pose in performed[k].poses
  }

  /** One entry for each step, and none without a pose. */
  ghost predicate Tidy(performed: seq<Attempt>) {
    && (forall k :: 0 <= k < |performed| ==> performed[k].poses != [])
    && (forall j, k :: 0 <= j < k < |performed| ==> performed[j].step != performed[k].step)
  }

  ghost predicate HasStep(performed: seq<Attempt>, step: Step) {
    exists k :: 0 <= k < |performed| && performed[k].step == step
  }

  lemma {:induction false} AddedSteps(performed: seq<Attempt>, step: Step, pose: Pose, s: Step)
    ensures HasStep(Added(performed, step, pose), s) <==> s == step || HasStep(performed, s)
  {
    var added := Added(performed, step, pose);
    if performed == [] {
      assert added[0].step == step;
    } else if performed[0].step == step {
      assert added[0].step == step && added[1..] == performed[1..];
      assert forall k :: 0 <= k < |performed| ==> added[k].step == performed[k].step;
    } else {
      AddedSteps(performed[1..], step, pose, s);
      StepsOfMore(performed[0], Added(performed[1..], step, pose), s);
      StepsOfMore(performed[0], performed[1..], s);
      assert performed == [performed[0]] + performed[1..];
    }
  }

  lemma StepsOfMore(first: Attempt, rest: seq<Attempt>, s: Step)
    ensures HasStep([first] + rest, s) <==> first.step == s || HasStep(rest, s)
  {
    var all := [first] + rest;
    assert forall k :: 0 <= k < |rest| ==> all[k + 1] == rest[k];
    if first.step == s {
      assert all[0].step == s;
    } else if HasStep(rest, s) {
      var k :| 0 <= k < |rest| && rest[k].step == s;
      assert all[k + 1].step == s;
    }
  }

  lemma RecordsOfMore(first: Attempt, rest: seq<Attempt>, s: Step, q: Pose)
    ensures Recorded([first] + rest, s, q) <==> (first.step == s && q in first.poses) || Recorded(rest, s, q)
  {
    var all := [first] + rest;
    assert forall k :: 0 <= k < |rest| ==> all[k + 1] == rest[k];
    if first.step == s && q in first.poses {
      assert all[0].step == s && q in all[0].poses;
    } else if Recorded(rest, s, q) {
      var k :| 0 <= k < |rest| && rest[k].step == s && q in rest[k].poses;
      assert all[k + 1].step == s && q in all[k + 1].poses;
    }
  }

  lemma {:induction false} AddedRecords(performed: seq<Attempt>, step: Step, pose: Pose, s: Step, q: Pose)
    ensures Recorded(Added(performed, step, pose), s, q) <==> (s == step && q == pose) || Recorded(performed, s, q)
  {
    if performed == [] {
      RecordsOfMore(Attempt(step, [pose]), [], s, q);
      assert [Attempt(step, [pose])] + [] == Added(performed, step, pose);
    } else {
      assert performed == [performed[0]] + performed[1..];
      RecordsOfMore(performed[0], performed[1..], s, q);
      if performed[0].step == step {
        RecordsOfMore(Attempt(step, performed[0].poses + [pose]), performed[1..], s, q);
      } else {
        AddedRecords(performed[1..], step, pose, s, q);
        RecordsOfMore(performed[0], Added(performed[1..], step, pose), s, q);
      }
    }
  }

  lemma {:induction false} AddedStaysTidy(performed: seq<Attempt>, step: Step, pose: Pose)
    requires Tidy(performed)
    ensures Tidy(Added(performed, step, pose))
  {
    if performed != [] && performed[0].step != step {
      var rest := Added(performed[1..], step, pose);
      AddedStaysTidy(performed[1..], step, pose);
      AddedSteps(performed[1..], step, pose, performed[0].step);
      assert !HasStep(performed[1..], performed[0].step);
      assert forall k :: 0 <= k < |rest| ==> rest[k].step != performed[0].step;
    }
  }

  /** A movement frame in which a face was found, for this step and in this pose. */
  ghost predicate ShownAt(shots: seq<Shot>, i: nat, step: Step, pose: Pose) {
    && i < |shots| && shots[i].step == step && !step.Center?
    && shots[i].found.Some? && shots[i].found.value.pose == pose
  }

  ghost predicate Shown(shots: seq<Shot>, step: Step, pose: Pose) {
    exists i: nat :: ShownAt(shots, i, step, pose)
  }

  lemma ShownInMore(shots: seq<Shot>, step: Step, pose: Pose)
    requires shots != []
    ensures var n := |shots| - 1;
            Shown(shots, step, pose) <==> Shown(shots[..n], step, pose) || ShownAt(shots, n, step, pose)
  {
    var n := |shots| - 1;
    if Shown(shots[..n], step, pose) {
      var i: nat :| ShownAt(shots[..n], i, step, pose);
      assert ShownAt(shots, i, step, pose);
    } else if Shown(shots, step, pose) {
      var i: nat :| ShownAt(shots, i, step, pose);
      assert i < n ==> ShownAt(shots[..n], i, step, pose);
    }
  }

  /** The poses performed for a movement are those of its frames with a face. */
  lemma {:induction false} PerformedIsWhatWasShown(shots: seq<Shot>, step: Step, pose: Pose)
    ensures Recorded(Performed(shots), step, pose) <==> Shown(shots, step, pose)
  {
    if shots != [] {
      var n := |shots| - 1;
      PerformedIsWhatWasShown(shots[..n], step, pose);
      ShownInMore(shots, step, pose);
      if shots[n].found.Some? && !shots[n].step.Center? {
        AddedRecords(Performed(shots[..n]), shots[n].step, shots[n].found.value.pose, step, pose);
      }
    }
  }

  lemma {:induction false} PerformedIsTidy(shots: seq<Shot>)
    ensures Tidy(Performed(shots))
  {
    if shots != [] {
      var n := |shots| - 1;
      PerformedIsTidy(shots[..n]);
      if shots[n].found.Some? && !shots[n].step.Center? {
        AddedStaysTidy(Performed(shots[..n]), shots[n].step, shots[n].found.value.pose);
      }
    }
  }

  lemma EntryWasAsked(shots: seq<Shot>, k: nat) returns (i: nat)
    requires k < |Performed(shots)|
    ensures i < |shots| && !shots[i].step.Center? && shots[i].step == Performed(shots)[k].step
  {
    var attempt := Performed(shots)[k];
    PerformedIsTidy(shots);
    var pose := attempt.poses[0];
    assert Recorded(Performed(shots), attempt.step, pose);
    PerformedIsWhatWasShown(shots, attempt.step, pose);
    i :| ShownAt(shots, i, attempt.step, pose);
  }

  lemma PerformedAreMovements(shots: seq<Shot>)
    requires Usable(shots)
    ensures forall k :: 0 <= k < |Performed(shots)| ==> IsMovement(Performed(shots)[k].step)
  {
    forall k | 0 <= k < |Performed(shots)| ensures IsMovement(Performed(shots)[k].step) {
      var i := EntryWasAsked(shots, k);
    }
  }

  // ---- Live ----

  ghost predicate Usable(shots: seq<Shot>) {
    forall i :: 0 <= i < |shots| ==> shots[i].step.Center? || IsMovement(shots[i].step)
  }

  /** The `j`-th frame's change from the baseline reaches the limit. */
  ghost predicate MovesEnough(shots: seq<Shot>, j: nat, step: Step, rules: Rules)
    requires IsMovement(step)
  {
    && j < |shots| && shots[j].step == step && shots[j].found.Some?
    && Change(step, Baseline(shots), shots[j].found.value.pose) >= LimitOf(step, rules)
  }

  ghost predicate Moved(shots: seq<Shot>, step: Step, rules: Rules)
    requires IsMovement(step)
  {
    exists j: nat :: MovesEnough(shots, j, step, rules)
  }

  ghost predicate EveryMovementMade(shots: seq<Shot>, rules: Rules)
    requires Usable(shots)
  {
    forall i :: 0 <= i < |shots| && !shots[i].step.Center? ==> Moved(shots, shots[i].step, rules)
  }

  lemma OneEntryEach(performed: seq<Attempt>, k: nat, step: Step, pose: Pose)
    requires Tidy(performed) && k < |performed| && performed[k].step == step && Recorded(performed, step, pose)
    ensures pose in performed[k].poses
  {
  }

  lemma EntryMeansMoved(shots: seq<Shot>, k: nat, rules: Rules)
    requires Usable(shots) && k < |Performed(shots)| && IsMovement(Performed(shots)[k].step)
    ensures Reached(Performed(shots)[k], Baseline(shots), rules) <==> Moved(shots, Performed(shots)[k].step, rules)
  {
    var attempt := Performed(shots)[k];
    if Reached(attempt, Baseline(shots), rules) {
      var j :| 0 <= j < |attempt.poses|
               && Change(attempt.step, Baseline(shots), attempt.poses[j]) >= LimitOf(attempt.step, rules);
      PerformedIsWhatWasShown(shots, attempt.step, attempt.poses[j]);
      assert Recorded(Performed(shots), attempt.step, attempt.poses[j]);
      var i: nat :| ShownAt(shots, i, attempt.step, attempt.poses[j]);
      assert MovesEnough(shots, i, attempt.step, rules);
    }
    if Moved(shots, attempt.step, rules) {
      var i: nat :| MovesEnough(shots, i, attempt.step, rules);
      var pose := shots[i].found.value.pose;
      PerformedIsWhatWasShown(shots, attempt.step, pose);
      PerformedIsTidy(shots);
      assert ShownAt(shots, i, attempt.step, pose);
      OneEntryEach(Performed(shots), k, attempt.step, pose);
      var j :| 0 <= j < |attempt.poses| && attempt.poses[j] == pose;
    }
  }

  lemma EntryForEachMovement(shots: seq<Shot>, i: nat)
    requires Complete(shots) && i < |shots| && !shots[i].step.Center?
    ensures HasStep(Performed(shots), shots[i].step)
  {
    assert shots[i].step in MovementsAsked(shots);
    var shot :| shot in shots && !shot.step.Center? && shot.found.Some? && shot.step == shots[i].step;
    var j :| 0 <= j < |shots| && shots[j] == shot;
    assert ShownAt(shots, j, shot.step, shot.found.value.pose);
    PerformedIsWhatWasShown(shots, shot.step, shot.found.value.pose);
  }

  /** Judging the poses performed is judging every movement asked for. */
  lemma ActionsJudgeEveryMovement(shots: seq<Shot>, rules: Rules)
    requires Usable(shots) && Complete(shots)
    ensures forall k :: 0 <= k < |Performed(shots)| ==> IsMovement(Performed(shots)[k].step)
    ensures (forall k :: 0 <= k < |Performed(shots)| ==> Reached(Performed(shots)[k], Baseline(shots), rules))
       <==> EveryMovementMade(shots, rules)
  {
    PerformedAreMovements(shots);
    var performed := Performed(shots);
    forall k | 0 <= k < |performed|
      ensures Reached(performed[k], Baseline(shots), rules) <==> Moved(shots, performed[k].step, rules)
    {
      EntryMeansMoved(shots, k, rules);
    }
    if EveryMovementMade(shots, rules) {
      forall k | 0 <= k < |performed| ensures Reached(performed[k], Baseline(shots), rules) {
        var i := EntryWasAsked(shots, k);
      }
    } else {
      var i :| 0 <= i < |shots| && !shots[i].step.Center? && !Moved(shots, shots[i].step, rules);
      EntryForEachMovement(shots, i);
      var k :| 0 <= k < |performed| && performed[k].step == shots[i].step;
      assert !Reached(performed[k], Baseline(shots), rules);
    }
  }

  /** The `i`-th frame's face is close enough to the reference. */
  ghost predicate SamePerson(m: Models, shots: seq<Shot>, i: nat)
    requires m.Valid() && Complete(shots) && i < |shots| && shots[i].found.Some?
  {
    var limit := if shots[i].step.Center? then m.rules.consistencyFrontal else m.rules.consistencyTurned;
    var reference := Reference(m, shots);
    reference.Some? && Dot(m.embed(shots[i].found.value.aligned), reference.value) >= limit
  }

  ghost predicate OnePerson(m: Models, shots: seq<Shot>)
    requires m.Valid() && Complete(shots)
  {
    forall i :: 0 <= i < |shots| && shots[i].found.Some? ==> SamePerson(m, shots, i)
  }

  function SameVerdict(m: Models, shots: seq<Shot>): Verdict
    requires m.Valid() && Complete(shots)
  {
    Consistency(Reference(m, shots), Embeddings(m, shots, Where(shots, FACES_AHEAD)),
                Embeddings(m, shots, Where(shots, FACES_ASIDE)), m.rules)
  }

  lemma ConsistencyJudgesEveryFace(m: Models, shots: seq<Shot>)
    requires m.Valid() && Complete(shots)
    ensures SameVerdict(m, shots).passed <==> OnePerson(m, shots)
  {
    var reference := Reference(m, shots);
    var ahead, aside := Where(shots, FACES_AHEAD), Where(shots, FACES_ASIDE);
    var frontal, turned := Embeddings(m, shots, ahead), Embeddings(m, shots, aside);
    if SameVerdict(m, shots).passed {
      forall i | 0 <= i < |shots| && shots[i].found.Some? ensures SamePerson(m, shots, i) {
        if shots[i].step.Center? {
          assert FACES_AHEAD(shots[i]);
          var k :| 0 <= k < |ahead| && ahead[k] == i;
          assert frontal[k] in frontal;
        } else {
          assert FACES_ASIDE(shots[i]);
          var k :| 0 <= k < |aside| && aside[k] == i;
          assert turned[k] in turned;
        }
      }
    }
    if OnePerson(m, shots) {
      forall v | v in frontal ensures Same(reference, v, m.rules.consistencyFrontal) {
        var k :| 0 <= k < |frontal| && frontal[k] == v;
        assert FACES_AHEAD(shots[ahead[k]]) && SamePerson(m, shots, ahead[k]);
      }
      forall v | v in turned ensures Same(reference, v, m.rules.consistencyTurned) {
        var k :| 0 <= k < |turned| && turned[k] == v;
        assert FACES_ASIDE(shots[aside[k]]) && SamePerson(m, shots, aside[k]);
      }
    }
  }

  ghost predicate PassesEveryCheck(m: Models, shots: seq<Shot>)
    requires m.Valid() && Usable(shots)
  {
    && Complete(shots)
    && EveryMovementMade(shots, m.rules)
    && EnoughLive(m, shots)
    && OnePerson(m, shots)
  }

  ghost predicate EnoughLive(m: Models, shots: seq<Shot>) {
    EnoughVotes(Probabilities(m, shots, Where(shots, IS_CENTRE)), m.rules)
  }

  // ---- Live, read off the frames ----

  const GOOD_AHEAD := (shot: Shot) => shot.step == Center && shot.found.Some? && shot.reasons == []

  /** The positions of the good frames taken straight ahead, in order. */
  function GoodAhead(shots: seq<Shot>): (r: seq<nat>)
    ensures forall k :: 0 <= k < |r| ==> r[k] < |shots| && GOOD_AHEAD(shots[r[k]]) && shots[r[k]].found.Some?
    ensures forall j, k :: 0 <= j < k < |r| ==> r[j] < r[k]
    ensures forall i :: 0 <= i < |shots| && GOOD_AHEAD(shots[i]) ==> i in r
  {
    Where(shots, GOOD_AHEAD)
  }

  lemma {:induction false} CentreIsGoodAhead(shots: seq<Shot>)
    ensures Where(shots, IS_CENTRE) == GoodAhead(shots)
  {
    if shots != [] {
      CentreIsGoodAhead(shots[..|shots| - 1]);
      assert IS_CENTRE(shots[|shots| - 1]) <==> GOOD_AHEAD(shots[|shots| - 1]);
    }
  }

  /** At least two good frames ahead, and a face in some frame of each movement asked for. */
  ghost predicate EnoughToJudge(shots: seq<Shot>) {
    && |GoodAhead(shots)| >= 2
    && forall i :: 0 <= i < |shots| && shots[i].step != Center ==> FaceSeen(shots, shots[i].step)
  }

  ghost predicate FaceSeen(shots: seq<Shot>, step: Step) {
    exists j :: 0 <= j < |shots| && shots[j].step == step && shots[j].found.Some?
  }

  lemma SeenMeansFaceSeen(shots: seq<Shot>, step: Step)
    requires step != Center
    ensures step in MovementsSeen(shots) <==> FaceSeen(shots, step)
  {
    if step in MovementsSeen(shots) {
      var shot :| shot in shots && !shot.step.Center? && shot.found.Some? && shot.step == step;
      var j :| 0 <= j < |shots| && shots[j] == shot;
    }
    if FaceSeen(shots, step) {
      var j :| 0 <= j < |shots| && shots[j].step == step && shots[j].found.Some?;
      assert shots[j] in shots;
    }
  }

  lemma AskedMeansAFrame(shots: seq<Shot>, step: Step)
    ensures step in MovementsAsked(shots)
       <==> step != Center && exists i :: 0 <= i < |shots| && shots[i].step == step
  {
    if step in MovementsAsked(shots) {
      var shot :| shot in shots && !shot.step.Center? && shot.step == step;
      var i :| 0 <= i < |shots| && shots[i] == shot;
    }
    if i :| 0 <= i < |shots| && step != Center && shots[i].step == step {
      assert shots[i] in shots;
    }
  }

  lemma CompleteExactlyWhen(shots: seq<Shot>)
    ensures Complete(shots) <==> EnoughToJudge(shots)
  {
    CentreIsGoodAhead(shots);
    forall step ensures step in MovementsSeen(shots) ==> step in MovementsAsked(shots) {
    }
    if MovementsSeen(shots) == MovementsAsked(shots) {
      forall i | 0 <= i < |shots| && shots[i].step != Center ensures FaceSeen(shots, shots[i].step) {
        AskedMeansAFrame(shots, shots[i].step);
        SeenMeansFaceSeen(shots, shots[i].step);
      }
    } else {
      var step :| step in MovementsAsked(shots) && step !in MovementsSeen(shots);
      AskedMeansAFrame(shots, step);
      SeenMeansFaceSeen(shots, step);
    }
  }

  function Yaws(shots: seq<Shot>, at: seq<nat>): (r: seq<real>)
    requires forall k :: 0 <= k < |at| ==> at[k] < |shots| && shots[at[k]].found.Some?
    ensures |r| == |at| && forall k :: 0 <= k < |at| ==> r[k] == shots[at[k]].found.value.pose.yaw
  {
    seq(|at|, k requires 0 <= k < |at| => shots[at[k]].found.value.pose.yaw)
  }

  function Pitches(shots: seq<Shot>, at: seq<nat>): (r: seq<real>)
    requires forall k :: 0 <= k < |at| ==> at[k] < |shots| && shots[at[k]].found.Some?
    ensures |r| == |at| && forall k :: 0 <= k < |at| ==> r[k] == shots[at[k]].found.value.pose.pitch
  {
    seq(|at|, k requires 0 <= k < |at| => shots[at[k]].found.value.pose.pitch)
  }

  /** The median of what the good frames ahead show. */
  function UsualYaw(shots: seq<Shot>): real {
    Median(Yaws(shots, GoodAhead(shots)))
  }

  function UsualPitch(shots: seq<Shot>): real {
    Median(Pitches(shots, GoodAhead(shots)))
  }

  lemma BaselineIsUsual(shots: seq<Shot>)
    ensures Baseline(shots).yaw == UsualYaw(shots) && Baseline(shots).pitch == UsualPitch(shots)
  {
    CentreIsGoodAhead(shots);
    assert Readings(shots, GoodAhead(shots), Yaw) == Yaws(shots, GoodAhead(shots));
    assert Readings(shots, GoodAhead(shots), Pitch) == Pitches(shots, GoodAhead(shots));
  }

  /** How far the head has moved from there the way `step` asks, as a share of what is enough. */
  function Progress(step: Step, yaw: real, pitch: real, pose: Pose, rules: Rules): real
    requires rules.Positive()
  {
    match step
    case TurnLeft => (pose.yaw - yaw) / rules.turnDelta
    case TurnRight => (yaw - pose.yaw) / rules.turnDelta
    case LookUp => (pitch - pose.pitch) / rules.pitchDelta
    case LookDown => (pose.pitch - pitch) / rules.pitchDelta
    case _ => 0.0
  }

  lemma ProgressIsTheShare(step: Step, baseline: Pose, pose: Pose, rules: Rules)
    requires IsMovement(step) && rules.Positive()
    ensures Progress(step, baseline.yaw, baseline.pitch, pose, rules)
         == Change(step, baseline, pose) / LimitOf(step, rules)
  {
  }

  lemma ProgressAgainstOne(step: Step, baseline: Pose, pose: Pose, rules: Rules)
    requires IsMovement(step) && rules.Positive()
    ensures Progress(step, baseline.yaw, baseline.pitch, pose, rules) >= 1.0
       <==> Change(step, baseline, pose) >= LimitOf(step, rules)
  {
    ProgressIsTheShare(step, baseline, pose, rules);
    QuotientAgainst(Change(step, baseline, pose), LimitOf(step, rules), 1.0);
  }

  /** The `j`-th frame was taken for this step, and shows a face that has moved at least so far from
    * the median of the good frames ahead. */
  ghost predicate Shows(shots: seq<Shot>, rules: Rules, j: nat, step: Step, share: real)
    requires rules.Positive()
  {
    && j < |shots| && shots[j].step == step && shots[j].found.Some?
    && Progress(step, UsualYaw(shots), UsualPitch(shots), shots[j].found.value.pose, rules) >= share
  }

  /** For each movement asked for, some frame does. */
  ghost predicate AllReach(shots: seq<Shot>, rules: Rules, share: real)
    requires rules.Positive()
  {
    forall i :: 0 <= i < |shots| && shots[i].step != Center ==> exists j :: Shows(shots, rules, j, shots[i].step, share)
  }

  /** A live capture: enough good frames ahead and a face in each movement; each movement made
    * in some frame, from the median of the good frames ahead; enough of these judged live; and
    * one person in every frame. */
  ghost predicate LiveCapture(m: Models, shots: seq<Shot>)
    requires m.Valid()
  {
    && EnoughToJudge(shots)
    && AllReach(shots, m.rules, 1.0)
    && EnoughVotes(Probabilities(m, shots, GoodAhead(shots)), m.rules)
    && (CompleteExactlyWhen(shots); OnePerson(m, shots))
  }

  lemma MovesEnoughExactlyWhen(shots: seq<Shot>, rules: Rules, j: nat, step: Step)
    requires rules.Positive() && IsMovement(step)
    ensures MovesEnough(shots, j, step, rules) <==> Shows(shots, rules, j, step, 1.0)
  {
    BaselineIsUsual(shots);
    if j < |shots| && shots[j].found.Some? {
      ProgressAgainstOne(step, Baseline(shots), shots[j].found.value.pose, rules);
    }
  }

  lemma MovementsMadeExactlyWhen(shots: seq<Shot>, rules: Rules)
    requires Usable(shots) && rules.Positive()
    ensures EveryMovementMade(shots, rules) <==> AllReach(shots, rules, 1.0)
  {
    forall i | 0 <= i < |shots| && shots[i].step != Center
      ensures Moved(shots, shots[i].step, rules) <==> exists j :: Shows(shots, rules, j, shots[i].step, 1.0)
    {
      forall j: nat
        ensures MovesEnough(shots, j, shots[i].step, rules) <==> Shows(shots, rules, j, shots[i].step, 1.0)
      {
        MovesEnoughExactlyWhen(shots, rules, j, shots[i].step);
      }
    }
  }

  /** The checks judge what they are for. */
  lemma EveryCheckExactlyWhen(m: Models, shots: seq<Shot>)
    requires m.Valid() && Usable(shots)
    ensures PassesEveryCheck(m, shots) <==> LiveCapture(m, shots)
  {
    CompleteExactlyWhen(shots);
    CentreIsGoodAhead(shots);
    MovementsMadeExactlyWhen(shots, m.rules);
  }

  // ---- Reasons, most common first ----

  function AllReasons(shots: seq<Shot>): seq<Reason> {
    if shots == [] then [] else AllReasons(shots[..|shots| - 1]) + shots[|shots| - 1].reasons
  }

  function FirstSeen(reasons: seq<Reason>): seq<Reason> {
    if reasons == [] then []
    else
      var n := |reasons| - 1;
      FirstSeen(reasons[..n]) + if reasons[n] in reasons[..n] then [] else [reasons[n]]
  }

  function Times(reasons: seq<Reason>, reason: Reason): nat {
    multiset(reasons)[reason]
  }

  function MostCommon(reasons: seq<Reason>): seq<Reason> {
    Ranking.Ranked(FirstSeen(reasons), reason => Times(reasons, reason) as real)
  }

  /** Where a reason was first given; past the end when it never was. */
  function FirstAt(reasons: seq<Reason>, reason: Reason): nat {
    if reasons == [] || reasons[0] == reason then 0 else 1 + FirstAt(reasons[1..], reason)
  }

  lemma {:induction false} FirstAtMore(reasons: seq<Reason>, more: seq<Reason>, reason: Reason)
    ensures reason in reasons ==> FirstAt(reasons + more, reason) == FirstAt(reasons, reason) < |reasons|
    ensures reason !in reasons ==> FirstAt(reasons + more, reason) == |reasons| + FirstAt(more, reason)
  {
    if reasons == [] {
      assert reasons + more == more;
    } else {
      assert (reasons + more)[1..] == reasons[1..] + more;
      FirstAtMore(reasons[1..], more, reason);
      assert reasons == [reasons[0]] + reasons[1..];
    }
  }

  lemma {:induction false} FirstSeenIsPlaced(reasons: seq<Reason>, all: seq<Reason>)
    requires reasons <= all
    ensures forall r :: r in FirstSeen(reasons) <==> r in reasons
    ensures Ranking.Placed(FirstSeen(reasons), r => FirstAt(all, r))
  {
    if reasons != [] {
      var n := |reasons| - 1;
      FirstSeenIsPlaced(reasons[..n], all);
      assert reasons == reasons[..n] + [reasons[n]];
      assert all == reasons[..n] + all[n..];
      forall r | r in reasons[..n] ensures FirstAt(all, r) < n {
        FirstAtMore(reasons[..n], all[n..], r);
      }
      FirstAtMore(reasons[..n], all[n..], reasons[n]);
    }
  }

  /** Each reason given once, those given more often first, and those given as often in the
    * order they were first given. */
  lemma MostCommonFirst(reasons: seq<Reason>)
    ensures forall r :: r in MostCommon(reasons) <==> r in reasons
    ensures Ranking.InOrder(MostCommon(reasons), r => Times(reasons, r) as real, r => FirstAt(reasons, r))
  {
    FirstSeenIsPlaced(reasons, reasons);
    Ranking.RankedInOrder(FirstSeen(reasons), r => Times(reasons, r) as real, r => FirstAt(reasons, r));
    Ranking.RankedElements(FirstSeen(reasons), r => Times(reasons, r) as real);
    forall r ensures r in MostCommon(reasons) <==> r in reasons {
      assert r in MostCommon(reasons) <==> r in multiset(MostCommon(reasons));
      assert r in FirstSeen(reasons) <==> r in multiset(FirstSeen(reasons));
    }
  }

  // ---- The best templates ----

  datatype Template = Template(quality: real, embedding: Vector, source: nat)

  function TemplateOf(m: Models, shots: seq<Shot>, i: nat): Template
    requires i < |shots| && shots[i].found.Some?
  {
    var found := shots[i].found.value;
    Template(m.quality(found.aligned, found.pose), m.embed(found.aligned), i)
  }

  function Templates(m: Models, shots: seq<Shot>): seq<Template> {
    var centre := Where(shots, IS_CENTRE);
    seq(|centre|, k requires 0 <= k < |centre| => TemplateOf(m, shots, centre[k]))
  }

  const QUALITY := (t: Template) => t.quality
  const SOURCE := (t: Template) => t.source

  function BestOf(templates: seq<Template>): seq<Template> {
    var ranked := Ranking.Ranked(templates, QUALITY);
    ranked[..if |ranked| < MAX_TEMPLATES then |ranked| else MAX_TEMPLATES]
  }

  /** The `i`-th frame is good, and none of these templates is its. */
  ghost predicate Omitted(shots: seq<Shot>, templates: seq<Template>, i: nat) {
    i < |shots| && shots[i].IsCentre() && forall k :: 0 <= k < |templates| ==> templates[k].source != i
  }

  /** Each template is a good frame's own; better ones come first, and earlier frames first
    * among equals; and every good frame left out would have come after them all. */
  ghost predicate LinesUp(m: Models, shots: seq<Shot>, templates: seq<Template>) {
    && (forall k :: 0 <= k < |templates| ==>
          var i := templates[k].source;
          i < |shots| && shots[i].IsCentre() && templates[k] == TemplateOf(m, shots, i))
    && Ranking.InOrder(templates, QUALITY, SOURCE)
    && (forall i: nat, k :: Omitted(shots, templates, i) && 0 <= k < |templates| ==>
          Ranking.Precedes(templates[k], TemplateOf(m, shots, i), QUALITY, SOURCE))
  }

  lemma TemplateIsRanked(m: Models, shots: seq<Shot>, i: nat) returns (j: nat)
    requires i < |shots| && shots[i].IsCentre()
    ensures var ranked := Ranking.Ranked(Templates(m, shots), QUALITY);
            j < |ranked| && ranked[j] == TemplateOf(m, shots, i)
  {
    var centre, ranked := Where(shots, IS_CENTRE), Ranking.Ranked(Templates(m, shots), QUALITY);
    assert IS_CENTRE(shots[i]);
    var k :| 0 <= k < |centre| && centre[k] == i;
    assert Templates(m, shots)[k] == TemplateOf(m, shots, i);
    Ranking.RankedElements(Templates(m, shots), QUALITY);
    assert TemplateOf(m, shots, i) in multiset(ranked);
    j :| 0 <= j < |ranked| && ranked[j] == TemplateOf(m, shots, i);
  }

  lemma RankedIsATemplate(m: Models, shots: seq<Shot>, j: nat)
    requires j < |Templates(m, shots)|
    ensures var t := Ranking.Ranked(Templates(m, shots), QUALITY)[j];
            t.source < |shots| && shots[t.source].IsCentre() && t == TemplateOf(m, shots, t.source)
  {
    var t := Ranking.Ranked(Templates(m, shots), QUALITY)[j];
    Ranking.RankedElements(Templates(m, shots), QUALITY);
    assert t in multiset(Ranking.Ranked(Templates(m, shots), QUALITY));
    assert t in multiset(Templates(m, shots));
    var k :| 0 <= k < |Templates(m, shots)| && Templates(m, shots)[k] == t;
    assert IS_CENTRE(shots[Where(shots, IS_CENTRE)[k]]);
  }

  lemma OmittedComesLater(m: Models, shots: seq<Shot>, i: nat, k: nat)
    requires var best := BestOf(Templates(m, shots)); Omitted(shots, best, i) && k < |best|
    ensures Ranking.Precedes(BestOf(Templates(m, shots))[k], TemplateOf(m, shots, i), QUALITY, SOURCE)
  {
    var j := TemplateIsRanked(m, shots, i);
    TemplatesArePlaced(m, shots);
    Ranking.RankedInOrder(Templates(m, shots), QUALITY, SOURCE);
    assert j >= |BestOf(Templates(m, shots))|;
  }

  lemma TemplatesArePlaced(m: Models, shots: seq<Shot>)
    ensures Ranking.Placed(Templates(m, shots), SOURCE)
  {
  }

  /** The templates kept are two to five, and the best. */
  lemma BestTemplatesLineUp(m: Models, shots: seq<Shot>)
    requires Complete(shots)
    ensures var best := BestOf(Templates(m, shots));
            MIN_FRONTAL <= |best| <= MAX_TEMPLATES && LinesUp(m, shots, best)
  {
    var best := BestOf(Templates(m, shots));
    TemplatesArePlaced(m, shots);
    Ranking.RankedInOrder(Templates(m, shots), QUALITY, SOURCE);
    forall k | 0 <= k < |best|
      ensures var i := best[k].source;
              i < |shots| && shots[i].IsCentre() && best[k] == TemplateOf(m, shots, i)
    {
      RankedIsATemplate(m, shots, k);
    }
    forall i: nat, k | Omitted(shots, best, i) && 0 <= k < |best|
      ensures Ranking.Precedes(best[k], TemplateOf(m, shots, i), QUALITY, SOURCE)
    {
      OmittedComesLater(m, shots, i, k);
    }
  }

  /** In such a list no two templates come from one frame, and none is better than an earlier one. */
  lemma LinedUpSourcesDiffer(m: Models, shots: seq<Shot>, templates: seq<Template>, j: nat, k: nat)
    requires LinesUp(m, shots, templates) && j < k < |templates|
    ensures templates[j].source != templates[k].source && templates[j].quality >= templates[k].quality
  {
    assert Ranking.Precedes(templates[j], templates[k], QUALITY, SOURCE);
    assert templates[j] == TemplateOf(m, shots, templates[j].source);
  }
}
