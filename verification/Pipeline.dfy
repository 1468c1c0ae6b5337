/** How the engine judges a capture, from the frames to the answer. */
module Pipeline {
  import opened Results
  import opened Steps
  import opened Vectors
  import opened Geometry
  import opened HeadPose
  import opened Liveness
  import opened Judging
  import Ranking
  import Matching

  // ---- Frames ----

  /** The face of a frame, and its embedding once it has one. */
  class Seen {
    const found: Found
    var embedding: Vector

    constructor (found: Found)
      ensures this.found == found && embedding == []
    {
      this.found, embedding := found, [];
    }
  }

  datatype Frame = Frame(step: Step, image: Image, seen: Option<Seen>, reasons: seq<Reason>) {
    function AsShot(): Shot {
      Shot(step, image, if seen.Some? then Some(seen.value.found) else None, reasons)
    }
  }

  function ShotsOf(frames: seq<Frame>): seq<Shot> {
    seq(|frames|, i requires 0 <= i < |frames| => frames[i].AsShot())
  }

  ghost function SeenIn(frames: seq<Frame>): set<Seen> {
    set f | f in frames && f.seen.Some? :: f.seen.value
  }

  /** No two frames share a face. */
  ghost predicate Apart(frames: seq<Frame>) {
    forall i, j :: 0 <= i < j < |frames| && frames[i].seen.Some? && frames[j].seen.Some?
                   ==> frames[i].seen.value != frames[j].seen.value
  }

  /** Every face carries its own embedding. */
  ghost predicate Embedded(m: Models, frames: seq<Frame>)
    reads SeenIn(frames)
  {
    forall i :: 0 <= i < |frames| && frames[i].seen.Some?
                ==> frames[i].seen.value.embedding == m.embed(frames[i].seen.value.found.aligned)
  }

  lemma SeenInMore(frames: seq<Frame>, frame: Frame)
    ensures SeenIn(frames + [frame]) == SeenIn(frames) + if frame.seen.Some? then {frame.seen.value} else {}
  {
    forall f | f in frames ensures f in frames + [frame] {
    }
    assert frame in frames + [frame];
  }

  method Inspect(m: Models, steps: seq<Step>, images: seq<Image>) returns (frames: seq<Frame>)
    requires |steps| == |images|
    ensures ShotsOf(frames) == Shots(m, steps, images)
    ensures Apart(frames) && fresh(SeenIn(frames))
  {
    frames := [];
    for i := 0 to |steps|
      invariant |frames| == i && Apart(frames) && fresh(SeenIn(frames))
      invariant forall k :: 0 <= k < i ==> frames[k].AsShot() == m.Inspected(steps[k], images[k])
    {
      var (found, reasons) := m.inspect(steps[i], images[i]);
      if found.Some? {
        var seen := new Seen(found.value);
        SeenInMore(frames, Frame(steps[i], images[i], Some(seen), reasons));
        frames := frames + [Frame(steps[i], images[i], Some(seen), reasons)];
      } else {
        SeenInMore(frames, Frame(steps[i], images[i], None, reasons));
        frames := frames + [Frame(steps[i], images[i], None, reasons)];
      }
    }
  }

  /** One row for each face, in order. */
  function Rows(m: Models, faces: seq<Image>): (r: seq<Vector>)
    requires faces != []
    ensures |r| == |faces| && forall k :: 0 <= k < |r| ==> r[k] == m.embed(faces[k])
  {
    seq(|faces|, k requires 0 <= k < |faces| => m.embed(faces[k]))
  }

  function Faces(frames: seq<Frame>, at: seq<nat>): (r: seq<Image>)
    requires forall k :: 0 <= k < |at| ==> at[k] < |frames| && frames[at[k]].seen.Some?
    ensures |r| == |at| && forall k :: 0 <= k < |at| ==> r[k] == frames[at[k]].seen.value.found.aligned
  {
    seq(|at|, k requires 0 <= k < |at| && at[k] < |frames| && frames[at[k]].seen.Some? =>
                frames[at[k]].seen.value.found.aligned)
  }

  method WriteEmbeddings(frames: seq<Frame>, at: seq<nat>, vectors: seq<Vector>)
    requires |vectors| == |at| && Apart(frames)
    requires forall k :: 0 <= k < |at| ==> at[k] < |frames| && frames[at[k]].seen.Some?
    requires forall j, k :: 0 <= j < k < |at| ==> at[j] < at[k]
    modifies SeenIn(frames)
    ensures forall k :: 0 <= k < |at| ==> frames[at[k]].seen.value.embedding == vectors[k]
  {
    for i := 0 to |at|
      invariant forall k :: 0 <= k < i ==> frames[at[k]].seen.value.embedding == vectors[k]
    {
      assert frames[at[i]] in frames;
      frames[at[i]].seen.value.embedding := vectors[i];
    }
  }

  /** Embeds every face that was found, in one batch. */
  method EmbedFaces(m: Models, frames: seq<Frame>)
    requires Apart(frames) && Complete(ShotsOf(frames))
    modifies SeenIn(frames)
    ensures Embedded(m, frames)
  {
    var shots := ShotsOf(frames);
    var at := Where(shots, HAS_FACE);
    assert forall k :: 0 <= k < |at| ==> HAS_FACE(shots[at[k]]);
    SomeFaceWasFound(shots);
    WriteEmbeddings(frames, at, Rows(m, Faces(frames, at)));
    forall i | 0 <= i < |frames| && frames[i].seen.Some?
      ensures frames[i].seen.value.embedding == m.embed(frames[i].seen.value.found.aligned)
    {
      assert HAS_FACE(shots[i]);
      var k :| 0 <= k < |at| && at[k] == i;
    }
  }

  lemma SomeFaceWasFound(shots: seq<Shot>)
    requires Complete(shots)
    ensures Where(shots, HAS_FACE) != []
  {
    var i := Where(shots, IS_CENTRE)[0];
    assert IS_CENTRE(shots[i]) && HAS_FACE(shots[i]);
  }

  method Gathered(m: Models, frames: seq<Frame>, at: seq<nat>) returns (vectors: seq<Vector>)
    requires forall k :: 0 <= k < |at| ==> at[k] < |frames| && frames[at[k]].seen.Some?
    requires Embedded(m, frames)
    ensures vectors == Embeddings(m, ShotsOf(frames), at)
  {
    vectors := [];
    for i := 0 to |at|
      invariant |vectors| == i
      invariant forall k :: 0 <= k < i ==> vectors[k] == m.embed(frames[at[k]].seen.value.found.aligned)
    {
      vectors := vectors + [frames[at[i]].seen.value.embedding];
    }
  }

  method Perform(shots: seq<Shot>) returns (performed: seq<Attempt>)
    ensures performed == Performed(shots)
  {
    performed := [];
    for i := 0 to |shots|
      invariant performed == Performed(shots[..i])
    {
      assert shots[..i + 1][..i] == shots[..i];
      if shots[i].found.Some? && !shots[i].step.Center? {
        performed := Added(performed, shots[i].step, shots[i].found.value.pose);
      }
    }
    assert shots[..|shots|] == shots;
  }

  datatype Checks = Checks(antiSpoofing: Verdict, actions: Verdict, consistency: Verdict) {
    predicate Live() {
      antiSpoofing.passed && actions.passed && consistency.passed
    }
  }

  /** `reference` is the direction of the mean embedding, where there is one. */
  datatype Analysis = Analysis(frames: seq<Frame>, reasons: seq<Reason>, checks: Option<Checks>,
                               reference: Option<Vector>) {
    predicate Live() {
      checks.Some? && checks.value.Live()
    }

    function Decision(): Decision {
      Decided(checks.Some?, reasons, checks, Live())
    }
  }

  /** What every answer says of the capture. */
  datatype Decision = Decided(usable: bool, reasons: seq<Reason>, checks: Option<Checks>, live: bool)

  /** Usable where there is enough to judge, live for a live capture, and the checks are those made
    * of these frames. */
  ghost predicate Decides(m: Models, shots: seq<Shot>, d: Decision)
    requires m.Valid() && Usable(shots)
  {
    CompleteExactlyWhen(shots);
    && (d.usable <==> EnoughToJudge(shots)) && (d.live <==> LiveCapture(m, shots)) && d.reasons == ReasonsOf(shots)
    && (d.checks.Some? <==> d.usable) && (d.usable ==> Judges(m, shots, d.checks.value))
  }

  /** What was wrong, or that there is no face. */
  function ReasonsOf(shots: seq<Shot>): seq<Reason> {
    var reasons := MostCommon(AllReasons(shots));
    if reasons == [] && !Complete(shots) then [NoFace] else reasons
  }

  lemma {:induction false} AllReasonsOfConcatenation(a: seq<Shot>, b: seq<Shot>)
    ensures AllReasons(a + b) == AllReasons(a) + AllReasons(b)
    ensures |b| == 1 ==> AllReasons(b) == b[0].reasons
  {
    if b == [] {
      assert a + b == a;
    } else {
      var n := |b| - 1;
      assert (a + b)[..|a + b| - 1] == a + b[..n];
      AllReasonsOfConcatenation(a, b[..n]);
      if n == 0 {
        assert b[..0] == [];
      }
    }
  }

  lemma {:induction false} ReasonsAreTheShots(shots: seq<Shot>, r: Reason)
    ensures r in AllReasons(shots) <==> exists i :: 0 <= i < |shots| && r in shots[i].reasons
  {
    if shots != [] {
      var n := |shots| - 1;
      ReasonsAreTheShots(shots[..n], r);
      if i :| 0 <= i < |shots| && r in shots[i].reasons {
        assert i < n ==> shots[..n][i] == shots[i];
      }
    }
  }

  /** A capture is told everything that was wrong with any of its frames, the most frequent first,
    * or else, where there is not enough to judge, that there is no face. */
  lemma ReasonsTell(shots: seq<Shot>, r: Reason)
    ensures r in ReasonsOf(shots) <==>
      || (exists i :: 0 <= i < |shots| && r in shots[i].reasons)
      || (r == NoFace && !EnoughToJudge(shots) && forall i :: 0 <= i < |shots| ==> shots[i].reasons == [])
    ensures Ranking.InOrder(ReasonsOf(shots), r => Times(AllReasons(shots), r) as real,
                            r => FirstAt(AllReasons(shots), r))
  {
    var all := AllReasons(shots);
    MostCommonFirst(all);
    CompleteExactlyWhen(shots);
    ReasonsAreTheShots(shots, r);
    NoReasons(shots);
  }

  lemma NoReasons(shots: seq<Shot>)
    ensures MostCommon(AllReasons(shots)) == [] <==> forall i :: 0 <= i < |shots| ==> shots[i].reasons == []
  {
    var told := MostCommon(AllReasons(shots));
    MostCommonFirst(AllReasons(shots));
    if told != [] {
      ReasonsAreTheShots(shots, told[0]);
    } else if i :| 0 <= i < |shots| && shots[i].reasons != [] {
      ReasonsAreTheShots(shots, shots[i].reasons[0]);
    }
  }

  /** The checks' answers about these frames. */
  ghost predicate Judges(m: Models, shots: seq<Shot>, checks: Checks)
    requires m.Valid() && Usable(shots) && Complete(shots)
  {
    && checks.antiSpoofing == AntiSpoofing(Probabilities(m, shots, Where(shots, IS_CENTRE)), m.rules)
    && checks.consistency == SameVerdict(m, shots)
    && JudgesMovements(m, shots, checks.actions)
  }

  ghost predicate JudgesMovements(m: Models, shots: seq<Shot>, verdict: Verdict)
    requires m.Valid() && Usable(shots)
  {
    PerformedAreMovements(shots);
    && (verdict.passed <==> EveryMovementMade(shots, m.rules))
    && verdict.score.Some?
    && IsLeastShare(verdict.score.value, Baseline(shots), Performed(shots), m.rules)
  }

  /** The checks pass exactly for a live capture. */
  lemma LiveExactly(m: Models, shots: seq<Shot>, checks: Checks)
    requires m.Valid() && Usable(shots) && Complete(shots) && Judges(m, shots, checks)
    ensures checks.Live() <==> LiveCapture(m, shots)
  {
    SpoofingJudgesTheCentre(m, shots);
    ConsistencyJudgesEveryFace(m, shots);
    EveryCheckExactlyWhen(m, shots);
  }

  lemma JudgedOrNot(m: Models, shots: seq<Shot>, a: Analysis)
    requires m.Valid() && Usable(shots) && (a.checks.Some? <==> Complete(shots)) && a.reasons == ReasonsOf(shots)
    requires a.checks.Some? ==> Judges(m, shots, a.checks.value)
    ensures Decides(m, shots, a.Decision())
  {
    CompleteExactlyWhen(shots);
    if a.checks.Some? {
      LiveExactly(m, shots, a.checks.value);
    }
  }

  lemma SpoofingJudgesTheCentre(m: Models, shots: seq<Shot>)
    requires Complete(shots)
    ensures AntiSpoofing(Probabilities(m, shots, Where(shots, IS_CENTRE)), m.rules).passed <==> EnoughLive(m, shots)
  {
    AntiSpoofingIsAVote(Probabilities(m, shots, Where(shots, IS_CENTRE)), m.rules);
  }

  // ---- The scores ----

  lemma Quotients(x: real, y: real, n: real)
    requires n > 0.0
    ensures x <= y <==> x / n <= y / n
  {
    QuotientAgainst(y, n, x / n);
    assert (x / n) * n == x;
  }

  /** The best pose of an entry is a frame's. */
  lemma EntryIsShown(shots: seq<Shot>, k: nat, rules: Rules) returns (i: nat)
    requires rules.Positive() && k < |Performed(shots)| && IsMovement(Performed(shots)[k].step)
    ensures Shows(shots, rules, i, Performed(shots)[k].step, Share(Performed(shots)[k], Baseline(shots), rules))
  {
    var attempt, baseline := Performed(shots)[k], Baseline(shots);
    PerformedIsTidy(shots);
    FarthestIsTheLargest(attempt.step, baseline, attempt.poses);
    var p :| 0 <= p < |attempt.poses|
             && Change(attempt.step, baseline, attempt.poses[p]) == Farthest(attempt.step, baseline, attempt.poses);
    var pose := attempt.poses[p];
    PerformedIsWhatWasShown(shots, attempt.step, pose);
    assert Recorded(Performed(shots), attempt.step, pose);
    i :| ShownAt(shots, i, attempt.step, pose);
    BaselineIsUsual(shots);
    ProgressIsTheShare(attempt.step, baseline, pose, rules);
  }

  lemma ShareOfPose(attempt: Attempt, baseline: Pose, rules: Rules, pose: Pose)
    requires rules.Positive() && IsMovement(attempt.step) && pose in attempt.poses
    ensures Progress(attempt.step, baseline.yaw, baseline.pitch, pose, rules) <= Share(attempt, baseline, rules)
  {
    FarthestIsTheLargest(attempt.step, baseline, attempt.poses);
    ProgressIsTheShare(attempt.step, baseline, pose, rules);
    Quotients(Change(attempt.step, baseline, pose), Farthest(attempt.step, baseline, attempt.poses),
              LimitOf(attempt.step, rules));
  }

  /** And no frame of its movement shows more. */
  lemma EntryIsTheMost(shots: seq<Shot>, k: nat, rules: Rules, j: nat, share: real)
    requires rules.Positive() && k < |Performed(shots)| && IsMovement(Performed(shots)[k].step)
    requires Shows(shots, rules, j, Performed(shots)[k].step, share)
    ensures Share(Performed(shots)[k], Baseline(shots), rules) >= share
  {
    var attempt, pose := Performed(shots)[k], shots[j].found.value.pose;
    PerformedIsTidy(shots);
    assert ShownAt(shots, j, attempt.step, pose);
    PerformedIsWhatWasShown(shots, attempt.step, pose);
    OneEntryEach(Performed(shots), k, attempt.step, pose);
    BaselineIsUsual(shots);
    ShareOfPose(attempt, Baseline(shots), rules, pose);
  }

  lemma EntryReaches(shots: seq<Shot>, k: nat, rules: Rules, share: real)
    requires rules.Positive() && k < |Performed(shots)| && IsMovement(Performed(shots)[k].step)
    ensures Share(Performed(shots)[k], Baseline(shots), rules) >= share
       <==> exists j :: Shows(shots, rules, j, Performed(shots)[k].step, share)
  {
    var i := EntryIsShown(shots, k, rules);
    if Share(Performed(shots)[k], Baseline(shots), rules) >= share {
      assert Shows(shots, rules, i, Performed(shots)[k].step, share);
    }
    if j :| Shows(shots, rules, j, Performed(shots)[k].step, share) {
      EntryIsTheMost(shots, k, rules, j, share);
    }
  }

  lemma AllReachExactlyWhen(shots: seq<Shot>, rules: Rules, share: real)
    requires rules.Positive() && Usable(shots) && Complete(shots)
    ensures forall k :: 0 <= k < |Performed(shots)| ==> IsMovement(Performed(shots)[k].step)
    ensures AllReach(shots, rules, share)
       <==> forall k :: 0 <= k < |Performed(shots)| ==> Share(Performed(shots)[k], Baseline(shots), rules) >= share
  {
    PerformedAreMovements(shots);
    var performed := Performed(shots);
    forall k | 0 <= k < |performed|
      ensures Share(performed[k], Baseline(shots), rules) >= share
         <==> exists j :: Shows(shots, rules, j, performed[k].step, share)
    {
      EntryReaches(shots, k, rules, share);
    }
    if AllReach(shots, rules, share) {
      forall k | 0 <= k < |performed| ensures Share(performed[k], Baseline(shots), rules) >= share {
        var i := EntryWasAsked(shots, k);
      }
    } else {
      var i :| 0 <= i < |shots| && shots[i].step != Center
               && !exists j :: Shows(shots, rules, j, shots[i].step, share);
      EntryForEachMovement(shots, i);
      var k :| 0 <= k < |performed| && performed[k].step == shots[i].step;
    }
  }

  /** The movements' score is the largest share that every movement asked for reaches; zero where
    * none was asked for. */
  lemma ActionsScoreTheLeast(m: Models, shots: seq<Shot>, verdict: Verdict, share: real)
    requires m.Valid() && Usable(shots) && Complete(shots) && JudgesMovements(m, shots, verdict)
    ensures (exists i :: 0 <= i < |shots| && shots[i].step != Center) ==>
              (share <= verdict.score.value <==> AllReach(shots, m.rules, share))
    ensures (forall i :: 0 <= i < |shots| ==> shots[i].step == Center) ==> verdict.score.value == 0.0
  {
    AllReachExactlyWhen(shots, m.rules, share);
    if Performed(shots) != [] {
      LeastShareExactly(verdict.score.value, Baseline(shots), Performed(shots), m.rules, share);
      var i := EntryWasAsked(shots, 0);
    } else if i :| 0 <= i < |shots| && shots[i].step != Center {
      EntryForEachMovement(shots, i);
    }
  }

  lemma LeastShareExactly(score: real, baseline: Pose, performed: seq<Attempt>, rules: Rules, share: real)
    requires rules.Positive() && forall k :: 0 <= k < |performed| ==> IsMovement(performed[k].step)
    requires performed != [] && IsLeastShare(score, baseline, performed, rules)
    ensures share <= score <==> forall k :: 0 <= k < |performed| ==> Share(performed[k], baseline, rules) >= share
  {
  }

  /** The consistency score is that of the face least like the reference, and no number where the
    * reference is none. */
  lemma ConsistencyScoresTheLeast(m: Models, shots: seq<Shot>)
    requires m.Valid() && Complete(shots)
    ensures var score, reference := SameVerdict(m, shots).score, Reference(m, shots);
            && (score.Some? <==> reference.Some?)
            && (score.Some? ==> LeastLike(m, shots, reference.value, score.value))
  {
    var reference := Reference(m, shots);
    var ahead, aside := Where(shots, FACES_AHEAD), Where(shots, FACES_ASIDE);
    var all := Embeddings(m, shots, ahead) + Embeddings(m, shots, aside);
    SomeFaceAhead(shots);
    if reference.Some? {
      LeastDotIsTheLeast(reference.value, all);
      FacesAreAheadOrAside(m, shots);
    }
  }

  /** No face is less like the reference than this, and one is just so. */
  ghost predicate LeastLike(m: Models, shots: seq<Shot>, reference: Vector, score: real)
    requires m.Valid() && |reference| == m.dimension
  {
    && (forall i :: 0 <= i < |shots| && shots[i].found.Some? ==> score <= Likeness(m, shots, reference, i))
    && exists i :: 0 <= i < |shots| && shots[i].found.Some? && score == Likeness(m, shots, reference, i)
  }

  function Likeness(m: Models, shots: seq<Shot>, reference: Vector, i: nat): real
    requires i < |shots| && shots[i].found.Some? && |m.embed(shots[i].found.value.aligned)| == |reference|
  {
    Dot(m.embed(shots[i].found.value.aligned), reference)
  }

  lemma SomeFaceAhead(shots: seq<Shot>)
    requires Complete(shots)
    ensures Where(shots, FACES_AHEAD) != []
  {
    var i := Where(shots, IS_CENTRE)[0];
    assert IS_CENTRE(shots[i]) && FACES_AHEAD(shots[i]);
  }

  /** Every face is embedded, ahead or aside, and nothing else is. */
  lemma FacesAreAheadOrAside(m: Models, shots: seq<Shot>)
    ensures var ahead, aside := Where(shots, FACES_AHEAD), Where(shots, FACES_ASIDE);
            && (forall k :: 0 <= k < |ahead| ==> FACES_AHEAD(shots[ahead[k]]))
            && (forall k :: 0 <= k < |aside| ==> FACES_ASIDE(shots[aside[k]]))
            && var all := Embeddings(m, shots, ahead) + Embeddings(m, shots, aside);
               && (forall k :: 0 <= k < |all| ==> EmbedsAFrame(m, shots, all[k]))
               && (forall i :: 0 <= i < |shots| && shots[i].found.Some? ==>
                     m.embed(shots[i].found.value.aligned) in all)
  {
    var ahead, aside := Where(shots, FACES_AHEAD), Where(shots, FACES_ASIDE);
    assert forall k :: 0 <= k < |ahead| ==> FACES_AHEAD(shots[ahead[k]]);
    assert forall k :: 0 <= k < |aside| ==> FACES_ASIDE(shots[aside[k]]);
    var frontal, turned := Embeddings(m, shots, ahead), Embeddings(m, shots, aside);
    forall k | 0 <= k < |frontal + turned| ensures EmbedsAFrame(m, shots, (frontal + turned)[k]) {
      var i := if k < |ahead| then ahead[k] else aside[k - |ahead|];
      assert shots[i].found.Some? && (frontal + turned)[k] == m.embed(shots[i].found.value.aligned);
    }
    forall i | 0 <= i < |shots| && shots[i].found.Some?
      ensures m.embed(shots[i].found.value.aligned) in frontal + turned
    {
      if shots[i].step.Center? {
        assert FACES_AHEAD(shots[i]);
        var k :| 0 <= k < |ahead| && ahead[k] == i;
        assert frontal[k] in frontal;
      } else {
        assert FACES_ASIDE(shots[i]);
        var k :| 0 <= k < |aside| && aside[k] == i;
        assert turned[k] in turned;
      }
    }
  }

  ghost predicate EmbedsAFrame(m: Models, shots: seq<Shot>, v: Vector) {
    exists i :: 0 <= i < |shots| && shots[i].found.Some? && v == m.embed(shots[i].found.value.aligned)
  }

  // ---- The reference ----

  function SumOfDots(vectors: seq<Vector>, w: Vector): real
    requires forall k :: 0 <= k < |vectors| ==> |vectors[k]| == |w|
  {
    if vectors == [] then 0.0 else Dot(vectors[0], w) + SumOfDots(vectors[1..], w)
  }

  lemma {:induction false} DotOfSum(vectors: seq<Vector>, w: Vector)
    requires forall k :: 0 <= k < |vectors| ==> |vectors[k]| == |w|
    ensures Dot(SumOf(vectors, |w|), w) == SumOfDots(vectors, w)
  {
    if vectors == [] {
      DotOfZero(|w|, w);
    } else {
      DotOfPlus(vectors[0], SumOf(vectors[1..], |w|), w);
      DotOfSum(vectors[1..], w);
    }
  }

  lemma {:induction false} NoLengthNoDot(v: Vector, w: Vector)
    requires |v| == |w| && Dot(v, v) == 0.0
    ensures Dot(v, w) == 0.0
  {
    if v != [] {
      SquareIsPositive(v[0]);
      DotWithItself(v[1..]);
      NoLengthNoDot(v[1..], w[1..]);
    }
  }

  /** The reference is of length one, and points where the embeddings of the good frames ahead do
    * on average: its product with anything is their mean product, but for one positive factor.
    * There is none exactly where they cancel out. */
  lemma ReferenceIsTheMeanDirection(m: Models, shots: seq<Shot>) returns (length: real)
    requires m.Valid() && Complete(shots)
    ensures var vectors, reference := Embeddings(m, shots, GoodAhead(shots)), Reference(m, shots);
            && length >= 0.0 && (reference.Some? <==> length > 0.0)
            && (reference.Some? ==> Dot(reference.value, reference.value) == 1.0)
            && forall w: Vector :: |w| == m.dimension ==>
                 (if reference.Some? then Product(length, Dot(reference.value, w)) else 0.0)
                 == SumOfDots(vectors, w) / |vectors| as real
  {
    CentreIsGoodAhead(shots);
    var vectors := Embeddings(m, shots, GoodAhead(shots));
    var mean := Divided(SumOf(vectors, m.dimension), |vectors| as real);
    length := Norm(m.root, mean);
    NormSquared(m.root, mean);
    if length != 0.0 {
      NormalisedIsUnit(m.root, mean);
    }
    forall w: Vector | |w| == m.dimension
      ensures (if length != 0.0 then Product(length, Dot(Divided(mean, length), w)) else 0.0)
           == SumOfDots(vectors, w) / |vectors| as real
    {
      DotOfDivided(SumOf(vectors, m.dimension), |vectors| as real, w);
      DotOfSum(vectors, w);
      if length != 0.0 {
        DotOfDirection(m.root, mean, w);
      } else {
        NoLengthNoDot(mean, w);
      }
    }
  }

  method ReferenceFor(m: Models, frames: seq<Frame>) returns (reference: Option<Vector>)
    requires m.Valid() && Complete(ShotsOf(frames)) && Embedded(m, frames)
    ensures reference == Reference(m, ShotsOf(frames))
  {
    var shots := ShotsOf(frames);
    var centre := Where(shots, IS_CENTRE);
    assert forall k :: 0 <= k < |centre| ==> IS_CENTRE(shots[centre[k]]);
    var vectors := Gathered(m, frames, centre);
    reference := Normalised(m.root, Divided(SumOf(vectors, m.dimension), |vectors| as real));
  }

  method JudgeMovements(m: Models, shots: seq<Shot>) returns (verdict: Verdict)
    requires m.Valid() && Usable(shots) && Complete(shots)
    ensures JudgesMovements(m, shots, verdict)
  {
    var performed := Perform(shots);
    ActionsJudgeEveryMovement(shots, m.rules);
    verdict := Actions(Baseline(shots), performed, m.rules);
  }

  method JudgeConsistency(m: Models, frames: seq<Frame>, reference: Option<Vector>) returns (verdict: Verdict)
    requires m.Valid() && Complete(ShotsOf(frames)) && Embedded(m, frames)
    requires reference == Reference(m, ShotsOf(frames))
    ensures verdict == SameVerdict(m, ShotsOf(frames))
  {
    var shots := ShotsOf(frames);
    var ahead, aside := Where(shots, FACES_AHEAD), Where(shots, FACES_ASIDE);
    assert forall k :: 0 <= k < |ahead| ==> FACES_AHEAD(shots[ahead[k]]);
    assert forall k :: 0 <= k < |aside| ==> FACES_ASIDE(shots[aside[k]]);
    var frontal := Gathered(m, frames, ahead);
    var turned := Gathered(m, frames, aside);
    verdict := Consistency(reference, frontal, turned, m.rules);
  }

  method Analyse(m: Models, steps: seq<Step>, images: seq<Image>) returns (a: Analysis)
    requires m.Valid() && |steps| == |images| && ValidSteps(steps)
    ensures ShotsOf(a.frames) == Shots(m, steps, images)
    ensures Decides(m, Shots(m, steps, images), a.Decision())
    ensures a.checks.Some? <==> Complete(Shots(m, steps, images))
    ensures a.checks.Some? ==> a.reference == Reference(m, Shots(m, steps, images)) && Embedded(m, a.frames)
  {
    var frames := Inspect(m, steps, images);
    var shots := ShotsOf(frames);
    assert forall i :: 0 <= i < |shots| ==> shots[i].step == steps[i];
    a := Analysis(frames, ReasonsOf(shots), None, None);
    if Complete(shots) {
      EmbedFaces(m, frames);
      var checks, reference := Judge(m, frames);
      a := a.(checks := Some(checks), reference := reference);
    }
    JudgedOrNot(m, shots, a);
  }

  /** The three checks, and the reference they were made against. */
  method Judge(m: Models, frames: seq<Frame>) returns (checks: Checks, reference: Option<Vector>)
    requires m.Valid() && Usable(ShotsOf(frames)) && Complete(ShotsOf(frames)) && Embedded(m, frames)
    ensures Judges(m, ShotsOf(frames), checks) && reference == Reference(m, ShotsOf(frames))
  {
    var shots := ShotsOf(frames);
    reference := ReferenceFor(m, frames);
    var spoofing := AntiSpoofing(Probabilities(m, shots, Where(shots, IS_CENTRE)), m.rules);
    var moved := JudgeMovements(m, shots);
    var same := JudgeConsistency(m, frames, reference);
    checks := Checks(spoofing, moved, same);
  }

  datatype Enrolment = Enrolment(decision: Decision, embeddings: seq<Vector>, qualities: seq<real>, sources: seq<nat>)
  {
    /** The result lists these templates, side by side. */
    predicate Lists(templates: seq<Template>) {
      && |embeddings| == |qualities| == |sources| == |templates|
      && forall k :: 0 <= k < |templates| ==> templates[k] == Template(qualities[k], embeddings[k], sources[k])
    }
  }

  /** Templates only of a live capture: two to five good frames, the best, each with its own
    * embedding. */
  method Enroll(m: Models, steps: seq<Step>, images: seq<Image>) returns (result: Enrolment)
    requires m.Valid() && |steps| == |images| && ValidSteps(steps)
    ensures Decides(m, Shots(m, steps, images), result.decision)
    ensures !result.decision.live ==> result.Lists([])
    ensures result.decision.live ==> Enrolled(m, Shots(m, steps, images), result)
  {
    var analysis := Analyse(m, steps, images);
    if analysis.Live() {
      result := ListBest(m, analysis.frames, analysis.Decision());
    } else {
      result := Enrolment(analysis.Decision(), [], [], []);
    }
  }

  method ListBest(m: Models, frames: seq<Frame>, decision: Decision) returns (result: Enrolment)
    requires Complete(ShotsOf(frames)) && Embedded(m, frames)
    ensures result.decision == decision && Enrolled(m, ShotsOf(frames), result)
  {
    var templates := Scored(m, frames);
    var best := BestOf(templates);
    var embeddings := seq(|best|, k requires 0 <= k < |best| => best[k].embedding);
    var qualities := seq(|best|, k requires 0 <= k < |best| => best[k].quality);
    var sources := seq(|best|, k requires 0 <= k < |best| => best[k].source);
    result := Enrolment(decision, embeddings, qualities, sources);
    BestAreEnrolled(m, ShotsOf(frames), result);
  }

  /** Two to five entries, the best, each of a good frame ahead: its own embedding and quality, and
    * where it stands in the capture. */
  ghost predicate Enrolled(m: Models, shots: seq<Shot>, result: Enrolment) {
    && result.Lists(BestOf(Templates(m, shots))) && LinesUp(m, shots, BestOf(Templates(m, shots)))
    && 2 <= |result.sources| <= 5
    && forall k :: 0 <= k < |result.sources| ==> OwnFrame(m, shots, result, k)
  }

  ghost predicate OwnFrame(m: Models, shots: seq<Shot>, result: Enrolment, k: nat)
    requires k < |result.sources| == |result.embeddings| == |result.qualities|
  {
    var i := result.sources[k];
    && i < |shots| && GOOD_AHEAD(shots[i]) && shots[i].found.Some?
    && var found := shots[i].found.value;
       result.embeddings[k] == m.embed(found.aligned) && result.qualities[k] == m.quality(found.aligned, found.pose)
  }

  lemma BestAreEnrolled(m: Models, shots: seq<Shot>, result: Enrolment)
    requires Complete(shots) && result.Lists(BestOf(Templates(m, shots)))
    ensures Enrolled(m, shots, result)
  {
    var best := BestOf(Templates(m, shots));
    BestTemplatesLineUp(m, shots);
    forall k | 0 <= k < |result.sources| ensures OwnFrame(m, shots, result, k) {
      assert best[k] == Template(result.qualities[k], result.embeddings[k], result.sources[k]);
    }
  }

  method Scored(m: Models, frames: seq<Frame>) returns (templates: seq<Template>)
    requires Embedded(m, frames)
    ensures templates == Templates(m, ShotsOf(frames))
  {
    var shots := ShotsOf(frames);
    var centre := Where(shots, IS_CENTRE);
    assert forall k :: 0 <= k < |centre| ==> IS_CENTRE(shots[centre[k]]);
    templates := [];
    for i := 0 to |centre|
      invariant |templates| == i
      invariant forall k :: 0 <= k < i ==> templates[k] == TemplateOf(m, shots, centre[k])
    {
      var seen := frames[centre[i]].seen.value;
      templates := templates + [Template(m.quality(seen.found.aligned, seen.found.pose), seen.embedding, centre[i])];
    }
  }

  /** As many entries as photos, each the photo's own embedding or nothing. */
  method EmbedStills(m: Models, images: seq<Image>) returns (embeddings: seq<Option<Vector>>)
    ensures |embeddings| == |images|
    ensures forall i :: 0 <= i < |images| ==>
      var found := m.inspect(Center, images[i]).0;
      embeddings[i] == if found.Some? then Some(m.embed(found.value.aligned)) else None
  {
    var steps := seq(|images|, i => Center);
    var frames := Inspect(m, steps, images);
    embeddings := DealOut(m, frames, FoundVectors(m, frames));
    forall i | 0 <= i < |images|
      ensures var found := m.inspect(Center, images[i]).0;
              embeddings[i] == if found.Some? then Some(m.embed(found.value.aligned)) else None
    {
      assert ShotsOf(frames)[i] == m.Inspected(Center, images[i]);
    }
  }

  /** Hands each frame with a face the next vector. */
  method DealOut(m: Models, frames: seq<Frame>, vectors: seq<Vector>) returns (embeddings: seq<Option<Vector>>)
    requires vectors == FoundVectors(m, frames)
    ensures |embeddings| == |frames|
    ensures forall i :: 0 <= i < |frames| ==>
      embeddings[i] == if frames[i].seen.Some? then Some(m.embed(frames[i].seen.value.found.aligned)) else None
  {
    ghost var shots := ShotsOf(frames);
    embeddings := [];
    var next := 0;
    for i := 0 to |frames|
      invariant |embeddings| == i && next == |Where(shots[..i], HAS_FACE)|
      invariant forall k :: 0 <= k < i ==>
        embeddings[k] == if frames[k].seen.Some? then Some(m.embed(frames[k].seen.value.found.aligned)) else None
    {
      NextFace(shots, i);
      if frames[i].seen.Some? {
        embeddings := embeddings + [Some(vectors[next])];
        next := next + 1;
      } else {
        embeddings := embeddings + [None];
      }
    }
  }

  /** A row for each face that was found; no batch when none was. */
  function FoundVectors(m: Models, frames: seq<Frame>): (r: seq<Vector>)
    ensures var at := Where(ShotsOf(frames), HAS_FACE);
            |r| == |at| && forall k :: 0 <= k < |at| ==>
              frames[at[k]].seen.Some? && r[k] == m.embed(frames[at[k]].seen.value.found.aligned)
  {
    var shots := ShotsOf(frames);
    var at := Where(shots, HAS_FACE);
    assert forall k :: 0 <= k < |at| ==> HAS_FACE(shots[at[k]]);
    if at == [] then [] else Rows(m, Faces(frames, at))
  }

  /** The faces found so far are the first ones of all, so that the next face found is the next
    * of all. */
  lemma {:induction false} FacesSoFar(shots: seq<Shot>, i: nat)
    requires i <= |shots|
    ensures Where(shots[..i], HAS_FACE) <= Where(shots, HAS_FACE)
  {
    if i < |shots| {
      assert shots[..|shots| - 1][..i] == shots[..i];
      FacesSoFar(shots[..|shots| - 1], i);
    } else {
      assert shots[..i] == shots;
    }
  }

  lemma NextFace(shots: seq<Shot>, i: nat)
    requires i < |shots|
    ensures |Where(shots[..i + 1], HAS_FACE)| == |Where(shots[..i], HAS_FACE)| + if shots[i].found.Some? then 1 else 0
    ensures shots[i].found.Some? ==>
      var next := |Where(shots[..i], HAS_FACE)|;
      next < |Where(shots, HAS_FACE)| && Where(shots, HAS_FACE)[next] == i
  {
    assert shots[..i + 1][..i] == shots[..i];
    FacesSoFar(shots, i + 1);
  }

  /** `similarity` is a number only where the score is one, and nothing else matches. */
  datatype Verification = Verification(decision: Decision, matched: bool, similarity: Option<real>)

  function Score(m: Models, reference: Option<Vector>, templates: seq<Vector>): Option<real>
    requires templates != [] && (reference.Some? ==> Matching.Dimensions(templates, |reference.value|))
  {
    if reference.None? then None else Matching.Similarity(m.root, reference.value, templates)
  }

  method Verify(m: Models, steps: seq<Step>, images: seq<Image>, templates: seq<Vector>) returns (result: Verification)
    requires m.Valid() && |steps| == |images| && ValidSteps(steps)
    requires templates != [] && Matching.Dimensions(templates, m.dimension)
    ensures Decides(m, Shots(m, steps, images), result.decision)
    ensures !result.decision.usable ==> !result.matched && result.similarity == Some(0.0)
    ensures result.decision.usable ==>
      && Complete(Shots(m, steps, images))
      && (var reference := Reference(m, Shots(m, steps, images));
          result.similarity
          == if reference.None? then None else Matching.Similarity(m.root, reference.value, templates))
      && (result.matched <==> result.similarity.Some? && result.similarity.value >= m.matchThreshold)
  {
    var analysis := Analyse(m, steps, images);
    if analysis.checks.None? {
      return Verification(analysis.Decision(), false, Some(0.0));
    }
    var score := Score(m, analysis.reference, templates);
    result := Verification(analysis.Decision(), score.Some? && score.value >= m.matchThreshold, score);
  }

  /** A usable capture scores between its best single template and one. */
  lemma VerifyScoresAtMostOne(m: Models, shots: seq<Shot>, templates: seq<Vector>)
    requires m.Valid() && Complete(shots) && Reference(m, shots).Some?
    requires templates != [] && Matching.Dimensions(templates, m.dimension) && Matching.Directed(m.root, templates)
    ensures var reference := Reference(m, shots);
            var score := Score(m, reference, templates);
            && score.Some? && score.value <= 1.0
            && forall i :: 0 <= i < |templates| ==>
                 Matching.Agreement(m.root, reference.value, templates[i]) <= score.value
  {
    var vectors := Embeddings(m, shots, Where(shots, IS_CENTRE));
    NormalisedIsUnit(m.root, Divided(SumOf(vectors, m.dimension), |vectors| as real));
    Matching.ScoreIsBetweenBestAndOne(m.root, Reference(m, shots).value, templates);
  }
}
