/** What a guided capture proves about the head: every frame and every timeout, read off the
  * tracker's coordinates alone. */
module Guidance {
  import opened Results
  import opened Steps
  import opened Script
  import opened Statistics
  import opened HeadPose
  import opened Polling
  import opened Capture

  // ---- In plain coordinates ----

  /** How far from there a pose lies the way `step` asks: a turn to the left raises the yaw, and
    * looking up lowers the pitch. */
  function Displacement(step: Step, yaw: real, pitch: real, pose: BrowserPose): real {
    match step
    case TurnLeft => pose.yaw - yaw
    case TurnRight => yaw - pose.yaw
    case LookUp => pitch - pose.pitch
    case LookDown => pose.pitch - pitch
    case _ => 0.0
  }

  function Enough(step: Step): real {
    if step.TurnLeft? || step.TurnRight? then 0.37 else 0.22
  }

  ghost predicate MovedFrom(step: Step, yaw: real, pitch: real, pose: Option<BrowserPose>) {
    pose.Some? && Displacement(step, yaw, pitch, pose.value) >= Enough(step)
  }

  ghost predicate Straight(pose: Option<BrowserPose>) {
    pose.Some? && -0.12 < pose.value.yaw && pose.value.yaw < 0.12
  }

  function Yaws(w: World, part: seq<Entry>): (r: seq<real>)
    requires part != [] && forall k :: 1 <= k < |part| ==> w.readings(part[k].when.tick).Some?
    ensures |r| == |part| - 1
    ensures forall k :: 0 <= k < |r| ==> r[k] == w.readings(part[k + 1].when.tick).value.yaw
  {
    seq(|part| - 1, k requires 0 <= k < |part| - 1 => w.readings(part[k + 1].when.tick).value.yaw)
  }

  function Pitches(w: World, part: seq<Entry>): (r: seq<real>)
    requires part != [] && forall k :: 1 <= k < |part| ==> w.readings(part[k].when.tick).Some?
    ensures |r| == |part| - 1
    ensures forall k :: 0 <= k < |r| ==> r[k] == w.readings(part[k + 1].when.tick).value.pitch
  {
    seq(|part| - 1, k requires 0 <= k < |part| - 1 => w.readings(part[k + 1].when.tick).value.pitch)
  }

  // ---- The baseline ----

  predicate TookFramesAhead(run: Run, part: seq<Entry>) {
    !IsMovement(run.step) && |part| > 1
  }

  /** The last of these runs that took frames ahead. */
  ghost predicate LastAhead(runs: seq<Run>, parts: seq<seq<Entry>>, j: nat)
    requires |parts| <= |runs|
  {
    && j < |parts| && TookFramesAhead(runs[j], parts[j])
    && forall k :: j < k < |parts| ==> !TookFramesAhead(runs[k], parts[k])
  }

  ghost predicate MedianOf(w: World, part: seq<Entry>, yaw: real, pitch: real) {
    && part != [] && (forall k :: 1 <= k < |part| ==> w.readings(part[k].when.tick).Some?)
    && yaw == Median(Yaws(w, part)) && pitch == Median(Pitches(w, part))
  }

  /** The usual pose: the median of what was read at the frames of the last run ahead; straight
    * where there was none. */
  ghost predicate UsualPose(w: World, runs: seq<Run>, parts: seq<seq<Entry>>, yaw: real, pitch: real)
    requires |parts| <= |runs|
  {
    || (exists j: nat :: LastAhead(runs, parts, j) && MedianOf(w, parts[j], yaw, pitch))
    || ((forall j: nat :: !LastAhead(runs, parts, j)) && yaw == 0.0 && pitch == 0.0)
  }

  lemma {:induction false} PosesAreReadings(w: World, part: seq<Entry>)
    requires LookedRight(w, part)
    ensures |PosesAt(w, part)| == |part| - 1
    ensures forall k :: 1 <= k < |part| ==> w.readings(part[k].when.tick) == Some(PosesAt(w, part)[k - 1])
  {
    if |part| > 1 {
      var n := |part| - 1;
      assert FrameRight(w, part, n);
      LookedRightBefore(w, part, n);
      PosesAreReadings(w, part[..n]);
    }
  }

  lemma BaselineOfPart(w: World, run: Run, baseline: BrowserPose, part: seq<Entry>)
    requires !IsMovement(run.step) && LookedRight(w, part) && |part| > 1
    ensures var after := BaselineAfter(w, run, baseline, part);
            MedianOf(w, part, after.yaw, after.pitch)
  {
    PosesAreReadings(w, part);
    var poses := PosesAt(w, part);
    assert Coordinates(poses, Yaw) == Yaws(w, part);
    assert Coordinates(poses, Pitch) == Pitches(w, part);
  }

  lemma UsualStays(w: World, runs: seq<Run>, parts: seq<seq<Entry>>, yaw: real, pitch: real)
    requires 0 < |parts| <= |runs| && UsualPose(w, runs, parts[..|parts| - 1], yaw, pitch)
    requires !TookFramesAhead(runs[|parts| - 1], parts[|parts| - 1])
    ensures UsualPose(w, runs, parts, yaw, pitch)
  {
    var before := parts[..|parts| - 1];
    forall j: nat ensures LastAhead(runs, parts, j) <==> LastAhead(runs, before, j) {
      SameLast(runs, parts, j);
    }
    if j: nat :| LastAhead(runs, before, j) && MedianOf(w, before[j], yaw, pitch) {
      assert LastAhead(runs, parts, j) && MedianOf(w, parts[j], yaw, pitch);
    }
  }

  lemma SameLast(runs: seq<Run>, parts: seq<seq<Entry>>, j: nat)
    requires 0 < |parts| <= |runs| && !TookFramesAhead(runs[|parts| - 1], parts[|parts| - 1])
    ensures LastAhead(runs, parts, j) <==> LastAhead(runs, parts[..|parts| - 1], j)
  {
    var before := parts[..|parts| - 1];
    assert forall k :: 0 <= k < |before| ==> before[k] == parts[k];
  }

  /** What movements are measured from is the usual pose. */
  lemma {:induction false} BaselineIsUsual(w: World, runs: seq<Run>, parts: seq<seq<Entry>>)
    requires |parts| <= |runs| && AllRight(w, runs, parts)
    ensures UsualPose(w, runs, parts, BaselineOf(w, runs, parts).yaw, BaselineOf(w, runs, parts).pitch)
  {
    if parts != [] {
      var n := |parts| - 1;
      var before := BaselineOf(w, runs, parts[..n]);
      AllRightBefore(w, runs, parts, n);
      BaselineIsUsual(w, runs, parts[..n]);
      assert PartRight(w, runs, parts, n);
      if TookFramesAhead(runs[n], parts[n]) {
        BaselineOfPart(w, runs[n], before, parts[n]);
        assert LastAhead(runs, parts, n);
      } else {
        NothingNew(w, runs[n], before, parts[n]);
        UsualStays(w, runs, parts, before.yaw, before.pitch);
      }
    }
  }

  lemma NothingNew(w: World, run: Run, baseline: BrowserPose, part: seq<Entry>)
    requires !TookFramesAhead(run, part)
    ensures BaselineAfter(w, run, baseline, part) == baseline
  {
  }

  // ---- Movements ----

  lemma ReachedExactlyWhenMoved(step: Step, baseline: BrowserPose, pose: Option<BrowserPose>)
    requires IsMovement(step)
    ensures Towards(step, baseline).holds(pose) <==> MovedFrom(step, baseline.yaw, baseline.pitch, pose)
  {
  }

  /** Polled from `from` on, the head had first moved far enough in two readings in a row at `t`. */
  ghost predicate MovedFirstAt(w: World, step: Step, yaw: real, pitch: real, from: nat, t: nat) {
    && from < t && MovedFrom(step, yaw, pitch, w.readings(t - 1)) && MovedFrom(step, yaw, pitch, w.readings(t))
    && NeverMoved(w, step, yaw, pitch, from, t)
  }

  ghost predicate NeverMoved(w: World, step: Step, yaw: real, pitch: real, from: nat, to: nat) {
    forall k: nat :: from <= k && k + 1 < to ==>
      !(MovedFrom(step, yaw, pitch, w.readings(k)) && MovedFrom(step, yaw, pitch, w.readings(k + 1)))
  }

  lemma NoPairNeverMoved(w: World, step: Step, baseline: BrowserPose, from: nat, to: nat)
    requires IsMovement(step) && NoPair(w, Towards(step, baseline).holds, from, to)
    ensures NeverMoved(w, step, baseline.yaw, baseline.pitch, from, to)
  {
    forall k: nat | from <= k && k + 1 < to
      ensures !(MovedFrom(step, baseline.yaw, baseline.pitch, w.readings(k))
                && MovedFrom(step, baseline.yaw, baseline.pitch, w.readings(k + 1)))
    {
      assert !Twice(w, Towards(step, baseline).holds, k);
      ReachedExactlyWhenMoved(step, baseline, w.readings(k));
      ReachedExactlyWhenMoved(step, baseline, w.readings(k + 1));
    }
  }

  lemma MovementIsMade(w: World, step: Step, baseline: BrowserPose, part: seq<Entry>)
    requires IsMovement(step) && MovedRight(w, step, baseline, part) && |part| > 4
    ensures MovedFirstAt(w, step, baseline.yaw, baseline.pitch, part[3].when.tick, part[4].when.tick)
  {
    var from, t := part[3].when.tick, part[4].when.tick;
    assert Twice(w, Towards(step, baseline).holds, t - 1);
    ReachedExactlyWhenMoved(step, baseline, w.readings(t - 1));
    ReachedExactlyWhenMoved(step, baseline, w.readings(t));
    NoPairNeverMoved(w, step, baseline, from, t);
  }

  /** In a guided capture every movement's first frame is taken at the first two readings in a row,
    * from the tone on, that lie far enough from the usual pose the way that was asked. */
  lemma MovementsAreMade(w: World, runs: seq<Run>, parts: seq<seq<Entry>>, i: nat) returns (yaw: real, pitch: real)
    requires i < |parts| <= |runs| && AllRight(w, runs, parts) && IsMovement(runs[i].step) && |parts[i]| > 4
    ensures UsualPose(w, runs, parts[..i], yaw, pitch)
    ensures MovedFirstAt(w, runs[i].step, yaw, pitch, parts[i][3].when.tick, parts[i][4].when.tick)
  {
    var baseline := BaselineOf(w, runs, parts[..i]);
    yaw, pitch := baseline.yaw, baseline.pitch;
    AllRightBefore(w, runs, parts, i);
    BaselineIsUsual(w, runs, parts[..i]);
    assert PartRight(w, runs, parts, i);
    MovementIsMade(w, runs[i].step, baseline, parts[i]);
  }

  lemma MovementGaveUp(w: World, run: Run, baseline: BrowserPose, part: seq<Entry>, now: Moment)
    requires IsMovement(run.step) && RunGaveUp(w, run, baseline, part, now)
    ensures |part| == 4 && now.at >= part[3].when.at + ACTION_MAX_MS
    ensures NeverMoved(w, run.step, baseline.yaw, baseline.pitch, part[3].when.tick, now.tick)
  {
    NoPairNeverMoved(w, run.step, baseline, part[3].when.tick, now.tick);
  }

  /** And a timeout in a movement comes after a whole window in which it never was. */
  lemma TimeoutsAreEarned(w: World, runs: seq<Run>, parts: seq<seq<Entry>>, now: Moment)
      returns (yaw: real, pitch: real)
    requires 0 < |parts| <= |runs| && AllRight(w, runs, parts) && LastGaveUp(w, runs, parts, now)
    requires IsMovement(runs[|parts| - 1].step)
    ensures var n := |parts| - 1;
            && UsualPose(w, runs, parts[..n], yaw, pitch) && |parts[n]| == 4
            && now.at >= parts[n][3].when.at + ACTION_MAX_MS
            && NeverMoved(w, runs[n].step, yaw, pitch, parts[n][3].when.tick, now.tick)
  {
    var n := |parts| - 1;
    var baseline := BaselineOf(w, runs, parts[..n]);
    yaw, pitch := baseline.yaw, baseline.pitch;
    AllRightBefore(w, runs, parts, n);
    BaselineIsUsual(w, runs, parts[..n]);
    MovementGaveUp(w, runs[n], baseline, parts[n], now);
  }

  // ---- Frames ahead ----

  /** When the wait for the `i`-th frame of a run ahead begins: at once for the first, and for the
    * others once the frame before was taken and its pause is over. */
  function LookedFrom(part: seq<Entry>, i: nat): nat
    requires 1 <= i < |part|
  {
    if i == 1 then part[0].when.tick else part[i - 1].when.tick + 2
  }

  /** A frame ahead is taken at the first two readings in a row of a face that looks straight ahead. */
  lemma FramesAheadAreStraight(w: World, part: seq<Entry>, i: nat)
    requires LookedRight(w, part) && 1 <= i < |part|
    ensures var from, t := LookedFrom(part, i), part[i].when.tick;
            && from < t && Straight(w.readings(t - 1)) && Straight(w.readings(t))
            && forall k: nat :: from <= k && k + 1 < t ==> !(Straight(w.readings(k)) && Straight(w.readings(k + 1)))
  {
    assert FrameRight(w, part, i);
    var from, t := LookedFrom(part, i), part[i].when.tick;
    assert Twice(w, Frontal, t - 1);
    forall k: nat | from <= k && k + 1 < t ensures !(Straight(w.readings(k)) && Straight(w.readings(k + 1))) {
      assert !Twice(w, Frontal, k);
    }
  }

  // ---- Pauses ----

  /** Frames ahead are taken at least 220 ms apart. */
  lemma FramesAheadAreApart(w: World, part: seq<Entry>, i: nat)
    requires LookedRight(w, part) && 2 <= i < |part|
    ensures part[i].when.at >= part[i - 1].when.at + 220.0
  {
    assert FrameRight(w, part, i);
    PolledLater(w, WatchFrom(w, part, i), part[i].when);
  }

  /** A movement is announced two seconds before the tone, and its frames are at least 150 ms apart,
    * as is the chime from the last of them. */
  lemma MovementsArePaced(w: World, step: Step, baseline: BrowserPose, part: seq<Entry>, i: nat)
    requires MovedRight(w, step, baseline, part)
    ensures part[3].when.at >= part[0].when.at + 2000.0
    ensures 5 <= i < |part| && !part[i].event.Done? ==> part[i].when.at >= part[i - 1].when.at + 150.0
  {
    assert 5 <= i < |part| ==> After(w, part, i, HOLD_GAP_MS);
  }

  /** On a timer, frames ahead wait 1.2 seconds and then 220 ms each; a movement is announced two
    * seconds before the tone, its first frame comes 2.5 seconds after it, and the others 400 ms apart. */
  lemma TimedFramesArePaced(w: World, run: Run, part: seq<Entry>, i: nat)
    requires TimedRight(w, run, part)
    ensures !IsMovement(run.step) && 1 <= i < |part| ==>
              part[i].when.at >= part[i - 1].when.at + if i == 1 then 1200.0 else 220.0
    ensures IsMovement(run.step) ==> part[3].when.at >= part[0].when.at + 2000.0
    ensures IsMovement(run.step) && 4 <= i < |part| && !part[i].event.Done? ==>
              part[i].when.at >= part[i - 1].when.at + if i == 4 then 2500.0 else 400.0
  {
    if IsMovement(run.step) {
      assert 5 <= i < |part| ==> After(w, part, i, TIMED_HOLD_GAP_MS);
    } else if 1 <= i < |part| {
      assert FrameAt(w, part[1..], i - 1, Waited(w, part[0].when, TIMED_SETTLE_MS), CENTRE_GAP_MS);
      assert i > 1 ==> part[1..][i - 2] == part[i - 1];
    }
  }

  // ---- Progress ----

  /** The progress bar is empty until the head moves the way that was asked, full exactly when it
    * has moved far enough, and in between shows the share of the way. */
  lemma ProgressIsTheShare(step: Step, baseline: BrowserPose, pose: BrowserPose)
    requires IsMovement(step)
    ensures var d, watch := Displacement(step, baseline.yaw, baseline.pitch, pose), Towards(step, baseline);
            && watch.meter.Some?
            && var shown := Clamped(watch.meter.value(Some(pose)));
               && (d <= 0.0 ==> shown == 0.0)
               && (d >= Enough(step) <==> shown == 1.0)
               && (0.0 <= d <= Enough(step) ==> shown * Enough(step) == d)
  {
  }
}
