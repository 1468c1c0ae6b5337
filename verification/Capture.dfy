/** The guided and the timed face capture, over any stream of head readings and any clock
  * whose waits are never short. */
module Capture {
  import opened Results
  import opened Steps
  import opened Script
  import opened Statistics
  import opened HeadPose
  import opened Polling

  const FRONTAL_YAW := 0.12
  const LOOK_WINDOW_MS := 8000.0
  const PREPARE_SECONDS := 2
  const ACTION_MIN_MS := 5000.0
  const ACTION_MAX_MS := 8000.0
  const CENTRE_GAP_MS := 220.0
  const HOLD_GAP_MS := 150.0
  const TIMED_SETTLE_MS := 1200.0
  const TIMED_TURN_MS := 2500.0
  const TIMED_HOLD_GAP_MS := 400.0

  // ---- Reading a movement ----

  function Trigger(axis: Axis): real {
    match axis
    case Yaw => 0.37
    case Pitch => 0.22
  }

  function On(axis: Axis, pose: BrowserPose): real {
    match axis
    case Yaw => pose.yaw
    case Pitch => pose.pitch
  }

  /** The change from `baseline` to `pose` along the axis of `step`, in units of its trigger. */
  function Reach(step: Step, pose: Option<BrowserPose>, baseline: BrowserPose): real {
    var move := MovementOf(step);
    if pose.None? || move.None? then 0.0
    else
      var m := move.value;
      m.sign * (On(m.axis, pose.value) - On(m.axis, baseline)) / Trigger(m.axis)
  }

  predicate Frontal(pose: Option<BrowserPose>) {
    pose.Some? && -FRONTAL_YAW < pose.value.yaw < FRONTAL_YAW
  }

  function Clamped(x: real): real {
    if x < 0.0 then 0.0 else if x > 1.0 then 1.0 else x
  }

  /** What `until` waits for, and the progress it shows meanwhile. */
  datatype Watch = Watch(holds: Option<BrowserPose> -> bool, meter: Option<Option<BrowserPose> -> real>)

  /** A face looking ahead. */
  function Ahead(): Watch {
    Watch(Frontal, None)
  }

  /** A head far enough from the baseline towards `step`. */
  function Towards(step: Step, baseline: BrowserPose): Watch {
    Watch(pose => Reach(step, pose, baseline) >= 1.0, Some(pose => Reach(step, pose, baseline)))
  }

  // ---- What a capture tells ----

  /** A wait of at least so long, begun then. */
  function Waited(w: World, since: Moment, ms: Delay): Moment {
    Moment(since.at + ms + w.lateness(since.tick), since.tick + 1)
  }

  datatype Entry = Entry(event: Event, when: Moment)

  /** What the progress bar is told: a share between 0 and 1, or nothing once a movement is over. */
  datatype Gauge = Gauge(value: Option<real>, when: Moment)

  function Events(entries: seq<Entry>): seq<Event> {
    seq(|entries|, i requires 0 <= i < |entries| => entries[i].event)
  }

  lemma EventsOfConcatenation(a: seq<Entry>, b: seq<Entry>)
    ensures Events(a + b) == Events(a) + Events(b)
  {
  }

  lemma Joined<T>(a: seq<T>, b: seq<T>, c: seq<T>)
    ensures (a + b) + c == a + (b + c)
  {
  }

  /** These entries are dated between the two moments. */
  ghost predicate Dated(part: seq<Entry>, was: Moment, now: Moment) {
    && Before(was, now)
    && forall i :: 0 <= i < |part| ==> Before(was, part[i].when) && Before(part[i].when, now)
  }

  ghost predicate Before(a: Moment, b: Moment) {
    a.at <= b.at && a.tick <= b.tick
  }

  /** What is seen of a run that ended this way, after `taken` of its frames. */
  function RunUntil(index: nat, run: Run, outcome: Outcome, taken: nat): seq<Event> {
    if outcome.Captured? then RunScript(index, run) else PartOfRun(index, run, taken)
  }

  function AfterOpening(index: nat, run: Run, outcome: Outcome, taken: nat): seq<Event> {
    Takes(taken) + if outcome.Captured? then Closing(index, run.step) else []
  }

  lemma RunInParts(index: nat, run: Run, outcome: Outcome, taken: nat)
    requires outcome.Captured? ==> taken == run.count
    ensures Opening(index, run.step) + AfterOpening(index, run, outcome, taken) == RunUntil(index, run, outcome, taken)
  {
  }

  lemma OneMoreFrame(index: nat, run: Run, taken: nat)
    ensures PartOfRun(index, run, taken + 1) == PartOfRun(index, run, taken) + [Take]
  {
  }

  /** A timeout names the run's step and comes before one of its frames; a camera failure
    * comes with one of them. */
  ghost predicate FitsOutcome(run: Run, outcome: Outcome, taken: nat) {
    match outcome
    case Captured => taken == run.count
    case TimedOut(step) => step == run.step && taken < run.count
    case CameraFailed => 1 <= taken <= run.count
  }

  /** The progress shown at one poll, and at so many polls from then on. */
  function Gauged(w: World, watch: Watch, now: Moment): seq<Gauge> {
    if watch.meter.Some? then [Gauge(Some(Clamped(watch.meter.value(w.readings(now.tick)))), now)] else []
  }

  function GaugedFrom(w: World, watch: Watch, since: Moment, polls: nat): seq<Gauge> {
    if polls == 0 then []
    else
      var last := since.tick + polls - 1;
      GaugedFrom(w, watch, since, polls - 1) + Gauged(w, watch, Moment(since.at + Elapsed(w, since.tick, last), last))
  }

  /** The progress shown since then is that of so many polls. */
  ghost predicate Showed(before: seq<Gauge>, after: seq<Gauge>, w: World, watch: Watch, since: Moment, polls: int) {
    polls >= 0 && after == before + GaugedFrom(w, watch, since, polls)
  }

  lemma OneMoreShown(before: seq<Gauge>, after: seq<Gauge>, w: World, watch: Watch, since: Moment, now: Moment)
    requires Polled(w, since, now) && Showed(before, after, w, watch, since, now.tick - since.tick)
    ensures Showed(before, after + Gauged(w, watch, now), w, watch, since, now.tick - since.tick + 1)
  {
    Joined(before, GaugedFrom(w, watch, since, now.tick - since.tick), Gauged(w, watch, now));
  }

  /** Polling goes on, and what was shown meanwhile is what the polls showed. */
  ghost predicate UntilSoFar(before: seq<Gauge>, after: seq<Gauge>, w: World, watch: Watch, ms: real,
                             since: Moment, now: Moment, streak: int) {
    && StillPolling(w, watch.holds, ms, since, now, streak)
    && Showed(before, after, w, watch, since, now.tick - since.tick)
  }

  lemma UntilOn(before: seq<Gauge>, after: seq<Gauge>, w: World, watch: Watch, ms: real, since: Moment, now: Moment,
                streak: int)
    requires UntilSoFar(before, after, w, watch, ms, since, now, streak) && now.at < since.at + ms
    ensures var next := if watch.holds(w.readings(now.tick)) then streak + 1 else 0;
            var more := after + Gauged(w, watch, now);
            if next >= STEADY
            then FirstPair(w, watch.holds, ms, since, now)
                && Showed(before, more, w, watch, since, now.tick - since.tick + 1)
            else UntilSoFar(before, more, w, watch, ms, since, Waited(w, now, POLL_MS), next)
  {
    OneMorePoll(w, watch.holds, ms, since, now, streak);
    OneMoreShown(before, after, w, watch, since, now);
  }

  lemma UntilBegins(before: seq<Gauge>, w: World, watch: Watch, ms: real, since: Moment)
    ensures UntilSoFar(before, before, w, watch, ms, since, since, 0)
  {
  }

  lemma UntilOver(before: seq<Gauge>, after: seq<Gauge>, w: World, watch: Watch, ms: real, since: Moment,
                  now: Moment, streak: int)
    requires UntilSoFar(before, after, w, watch, ms, since, now, streak) && now.at >= since.at + ms
    ensures GaveUp(w, watch.holds, ms, since, now) && Showed(before, after, w, watch, since, now.tick - since.tick)
  {
  }

  lemma NoTakesAtTheEnd(index: nat, step: Step, end: seq<Entry>)
    requires Events(end) == Closing(index, step)
    ensures forall i :: 0 <= i < |end| ==> !end[i].event.Take?
  {
    forall i | 0 <= i < |end| ensures !end[i].event.Take? {
      assert end[i].event == Events(end)[i];
    }
  }

  lemma PolledLater(w: World, since: Moment, now: Moment)
    ensures Polled(w, since, now) ==> Before(since, now)
  {
    if since.tick <= now.tick {
      ElapsedGrows(w, since.tick, since.tick, now.tick);
    }
  }

  // ---- What the readings were at each frame ----

  /** When the wait for the `i`-th frame ahead began: at the announcement, or once the frame
    * before it was taken and its pause was over. */
  function WatchFrom(w: World, part: seq<Entry>, i: nat): Moment
    requires 1 <= i <= |part|
  {
    if i == 1 then part[0].when else Paused(w, part[i - 1].when, CENTRE_GAP_MS)
  }

  /** A frame taken, and the pause after it. */
  function Paused(w: World, taken: Moment, gap: Delay): Moment {
    Moment(taken.at + w.lateness(taken.tick) + gap + w.lateness(taken.tick + 1), taken.tick + 2)
  }

  /** Each frame ahead was taken as soon as the face had been frontal in two polls in a row. */
  ghost predicate LookedRight(w: World, part: seq<Entry>) {
    part != [] && forall i :: 1 <= i < |part| ==> FrameRight(w, part, i)
  }

  ghost predicate FrameRight(w: World, part: seq<Entry>, i: nat)
    requires 1 <= i < |part|
  {
    FirstPair(w, Frontal, LOOK_WINDOW_MS, WatchFrom(w, part, i), part[i].when)
  }

  /** A movement's frames were taken as soon as the head had been far enough from the baseline
    * in two polls in a row, counted from the tone. */
  ghost predicate MovedRight(w: World, step: Step, baseline: BrowserPose, part: seq<Entry>) {
    && |part| >= 4 && CountedDown(w, part) && Spaced(w, part, HOLD_GAP_MS)
    && (|part| > 4 ==> FirstPair(w, Towards(step, baseline).holds, ACTION_MAX_MS, part[3].when, part[4].when))
  }

  /** The two seconds of a movement's countdown, and the tone. */
  ghost predicate CountedDown(w: World, part: seq<Entry>)
    requires |part| >= 4
  {
    && part[1].when == Waited(w, part[0].when, 1000.0) && part[2].when == Waited(w, part[1].when, 1000.0)
    && part[3].when == part[2].when
  }

  /** A movement's further frames follow one another, a pause after each, and so does the chime,
    * with which it is done. */
  ghost predicate Spaced(w: World, part: seq<Entry>, gap: Delay) {
    forall i :: 5 <= i < |part| ==> After(w, part, i, gap)
  }

  ghost predicate After(w: World, part: seq<Entry>, i: nat, gap: Delay)
    requires 1 <= i < |part|
  {
    part[i].when == if part[i].event.Done? then part[i - 1].when else Paused(w, part[i - 1].when, gap)
  }

  ghost predicate Following(w: World, part: seq<Entry>, gap: Delay) {
    forall i :: 1 <= i < |part| ==> After(w, part, i, gap)
  }

  lemma FollowOn(w: World, opening: seq<Entry>, part: seq<Entry>, gap: Delay)
    requires |opening| == 4 && Following(w, part, gap)
    ensures Spaced(w, opening + part, gap)
  {
    forall i | 5 <= i < |opening + part| ensures After(w, opening + part, i, gap) {
      assert After(w, part, i - 4, gap);
    }
  }

  lemma ChimeFollows(w: World, frames: seq<Entry>, end: seq<Entry>, gap: Delay)
    requires frames != [] && Following(w, frames, gap) && |end| == 2
    requires !end[0].event.Done? && end[1].event.Done?
    requires end[0].when == end[1].when == Paused(w, frames[|frames| - 1].when, gap)
    ensures Following(w, frames + end, gap)
  {
    forall i | 1 <= i < |frames + end| ensures After(w, frames + end, i, gap) {
      if i < |frames| {
        assert After(w, frames, i, gap);
      }
    }
  }

  lemma EndOfMovement(w: World, index: nat, step: Step, frames: seq<Entry>, end: seq<Entry>, gap: Delay)
    requires frames != [] && Following(w, frames, gap) && IsMovement(step) && Events(end) == Closing(index, step)
    requires |end| == 2 && end[0].when == end[1].when == Paused(w, frames[|frames| - 1].when, gap)
    ensures Following(w, frames + end, gap)
  {
    assert Events(end)[0] == end[0].event && Events(end)[1] == end[1].event;
    ChimeFollows(w, frames, end, gap);
  }

  lemma FramesFollow(w: World, part: seq<Entry>, since: Moment, gap: Delay)
    requires Frames(w, part, since, gap)
    ensures Following(w, part, gap)
  {
    forall i | 1 <= i < |part| ensures After(w, part, i, gap) {
      assert FrameAt(w, part, i, since, gap);
    }
  }

  /** Frames taken one after another from then on, a pause after each. */
  ghost predicate Frames(w: World, part: seq<Entry>, since: Moment, gap: Delay) {
    forall i :: 0 <= i < |part| ==> FrameAt(w, part, i, since, gap)
  }

  ghost predicate FrameAt(w: World, part: seq<Entry>, i: nat, since: Moment, gap: Delay)
    requires i < |part|
  {
    part[i] == Entry(Take, if i == 0 then since else Paused(w, part[i - 1].when, gap))
  }

  /** When the next of these frames would be taken. */
  function NextFrame(w: World, part: seq<Entry>, since: Moment, gap: Delay): Moment {
    if part == [] then since else Paused(w, part[|part| - 1].when, gap)
  }

  lemma OneMoreInARow(w: World, part: seq<Entry>, since: Moment, gap: Delay)
    requires Frames(w, part, since, gap)
    ensures Frames(w, part + [Entry(Take, NextFrame(w, part, since, gap))], since, gap)
  {
    var more := part + [Entry(Take, NextFrame(w, part, since, gap))];
    forall i | 0 <= i < |more| ensures FrameAt(w, more, i, since, gap) {
      if i < |part| {
        assert FrameAt(w, part, i, since, gap);
      }
    }
  }

  lemma FramesAreTakes(w: World, part: seq<Entry>, since: Moment, gap: Delay)
    requires Frames(w, part, since, gap)
    ensures Events(part) == Takes(|part|) && (part != [] ==> part[0].when == since)
  {
    forall i | 0 <= i < |part| ensures part[i].event == Take {
      assert FrameAt(w, part, i, since, gap);
    }
    if part != [] {
      assert FrameAt(w, part, 0, since, gap);
    }
    assert Events(part) == Takes(|part|);
  }

  ghost predicate RunRight(w: World, run: Run, baseline: BrowserPose, part: seq<Entry>) {
    if IsMovement(run.step) then MovedRight(w, run.step, baseline, part) else LookedRight(w, part)
  }

  /** The next frame of a run was awaited to the end of its window, in vain. */
  ghost predicate RunGaveUp(w: World, run: Run, baseline: BrowserPose, part: seq<Entry>, now: Moment) {
    if IsMovement(run.step)
    then |part| == 4 && GaveUp(w, Towards(run.step, baseline).holds, ACTION_MAX_MS, part[3].when, now)
    else part != [] && GaveUp(w, Frontal, LOOK_WINDOW_MS, WatchFrom(w, part, |part|), now)
  }

  /** Without a tracker, frames are taken after a fixed wait and a pause each. */
  ghost predicate TimedRight(w: World, run: Run, part: seq<Entry>) {
    if IsMovement(run.step) then
      && |part| >= 4 && CountedDown(w, part) && Spaced(w, part, TIMED_HOLD_GAP_MS)
      && (|part| > 4 ==> part[4].when == Waited(w, part[3].when, TIMED_TURN_MS))
    else
      part != [] && Frames(w, part[1..], Waited(w, part[0].when, TIMED_SETTLE_MS), CENTRE_GAP_MS)
  }

  ghost predicate AllTimed(w: World, runs: seq<Run>, parts: seq<seq<Entry>>)
    requires |parts| <= |runs|
  {
    forall i :: 0 <= i < |parts| ==> TimedRight(w, runs[i], parts[i])
  }

  /** The last of these runs was given up. */
  ghost predicate LastGaveUp(w: World, runs: seq<Run>, parts: seq<seq<Entry>>, now: Moment)
    requires |parts| <= |runs|
  {
    && parts != []
    && RunGaveUp(w, runs[|parts| - 1], BaselineOf(w, runs, parts[..|parts| - 1]), parts[|parts| - 1], now)
  }

  /** The poses read when the frames after the announcement were taken. */
  function PosesAt(w: World, part: seq<Entry>): seq<BrowserPose> {
    if |part| <= 1 then []
    else
      var pose := w.readings(part[|part| - 1].when.tick);
      PosesAt(w, part[..|part| - 1]) + if pose.Some? then [pose.value] else []
  }

  function Coordinates(poses: seq<BrowserPose>, axis: Axis): seq<real> {
    seq(|poses|, i requires 0 <= i < |poses| => On(axis, poses[i]))
  }

  /** Frames ahead set the baseline to their median pose; a movement leaves it. */
  function BaselineAfter(w: World, run: Run, baseline: BrowserPose, part: seq<Entry>): BrowserPose {
    var poses := PosesAt(w, part);
    if IsMovement(run.step) || poses == [] then baseline
    else BrowserPose(Median(Coordinates(poses, Yaw)), Median(Coordinates(poses, Pitch)))
  }

  /** The baseline after these runs. */
  function BaselineOf(w: World, runs: seq<Run>, parts: seq<seq<Entry>>): BrowserPose
    requires |parts| <= |runs|
  {
    if parts == [] then BrowserPose(0.0, 0.0)
    else
      var n := |parts| - 1;
      BaselineAfter(w, runs[n], BaselineOf(w, runs, parts[..n]), parts[n])
  }

  /** Run by run, every frame was taken when its readings allowed, and no later than they first did. */
  ghost predicate AllRight(w: World, runs: seq<Run>, parts: seq<seq<Entry>>)
    requires |parts| <= |runs|
  {
    forall i :: 0 <= i < |parts| ==> PartRight(w, runs, parts, i)
  }

  ghost predicate PartRight(w: World, runs: seq<Run>, parts: seq<seq<Entry>>, i: nat)
    requires i < |parts| <= |runs|
  {
    RunRight(w, runs[i], BaselineOf(w, runs, parts[..i]), parts[i])
  }

  lemma LookedRightBefore(w: World, part: seq<Entry>, n: nat)
    requires LookedRight(w, part) && 1 <= n <= |part|
    ensures LookedRight(w, part[..n])
  {
    forall i | 1 <= i < n ensures FrameRight(w, part[..n], i) {
      assert FrameRight(w, part, i);
    }
  }

  lemma {:induction false} PosesAreFrontal(w: World, part: seq<Entry>)
    requires LookedRight(w, part)
    ensures |PosesAt(w, part)| == |part| - 1
    ensures forall i :: 0 <= i < |part| - 1 ==> Frontal(Some(PosesAt(w, part)[i]))
  {
    if |part| > 1 {
      var n := |part| - 1;
      assert FrameRight(w, part, n);
      LookedRightBefore(w, part, n);
      PosesAreFrontal(w, part[..n]);
    }
  }

  lemma MedianIsFrontal(poses: seq<BrowserPose>)
    requires poses != [] && forall i :: 0 <= i < |poses| ==> Frontal(Some(poses[i]))
    ensures -FRONTAL_YAW < Median(Coordinates(poses, Yaw)) < FRONTAL_YAW
  {
    MedianIsWithin(Coordinates(poses, Yaw), -FRONTAL_YAW, FRONTAL_YAW);
  }

  lemma AllRightBefore(w: World, runs: seq<Run>, parts: seq<seq<Entry>>, n: nat)
    requires n <= |parts| <= |runs| && AllRight(w, runs, parts)
    ensures AllRight(w, runs, parts[..n])
  {
    forall i | 0 <= i < n ensures PartRight(w, runs, parts[..n], i) {
      assert PartRight(w, runs, parts, i);
      assert parts[..n][..i] == parts[..i];
    }
  }

  /** In a guided capture every movement is measured from a frontal baseline. */
  lemma {:induction false} BaselinesAreFrontal(w: World, runs: seq<Run>, parts: seq<seq<Entry>>)
    requires |parts| <= |runs| && AllRight(w, runs, parts)
    ensures Frontal(Some(BaselineOf(w, runs, parts)))
  {
    if parts != [] {
      var n := |parts| - 1;
      AllRightBefore(w, runs, parts, n);
      BaselinesAreFrontal(w, runs, parts[..n]);
      assert PartRight(w, runs, parts, n);
      if !IsMovement(runs[n].step) {
        PosesAreFrontal(w, parts[n]);
        if PosesAt(w, parts[n]) != [] {
          MedianIsFrontal(PosesAt(w, parts[n]));
        }
      }
    }
  }

  /** A head turned well past frontal to the side `step` asks for. */
  ghost predicate Turned(step: Step, pose: Option<BrowserPose>) {
    && pose.Some? && !Frontal(pose)
    && (step.TurnLeft? ==> pose.value.yaw > 0.25) && (step.TurnRight? ==> pose.value.yaw < -0.25)
  }

  /** Measured from any frontal baseline, such a reading never completes the opposite turn. */
  lemma ReachedFromFrontal(step: Step, pose: Option<BrowserPose>, baseline: BrowserPose, other: BrowserPose)
    requires step.TurnLeft? || step.TurnRight?
    requires Frontal(Some(baseline)) && Reach(step, pose, baseline) >= 1.0
    ensures Turned(step, pose)
    ensures Frontal(Some(other)) ==> Reach(if step.TurnLeft? then TurnRight else TurnLeft, pose, other) < 1.0
  {
  }

  /** In a guided capture a turn's first frame comes after two readings in a row of a head
    * turned well past frontal, to the side asked for and to no other. */
  lemma TurnsAreGenuine(w: World, runs: seq<Run>, parts: seq<seq<Entry>>, i: nat, other: BrowserPose)
    requires i < |parts| <= |runs| && AllRight(w, runs, parts)
    requires (runs[i].step.TurnLeft? || runs[i].step.TurnRight?) && |parts[i]| > 4
    ensures var t := parts[i][4].when.tick;
            && parts[i][3].when.tick < t
            && Turned(runs[i].step, w.readings(t - 1)) && Turned(runs[i].step, w.readings(t))
            && (Frontal(Some(other)) ==>
                  Reach(if runs[i].step.TurnLeft? then TurnRight else TurnLeft, w.readings(t), other) < 1.0)
  {
    var baseline := BaselineOf(w, runs, parts[..i]);
    AllRightBefore(w, runs, parts, i);
    BaselinesAreFrontal(w, runs, parts[..i]);
    assert PartRight(w, runs, parts, i);
    MovementsAreGenuine(w, runs[i].step, baseline, parts[i], other);
  }

  lemma MovementsAreGenuine(w: World, step: Step, baseline: BrowserPose, part: seq<Entry>, other: BrowserPose)
    requires MovedRight(w, step, baseline, part) && |part| > 4
    requires (step.TurnLeft? || step.TurnRight?) && Frontal(Some(baseline))
    ensures var t := part[4].when.tick;
            && part[3].when.tick < t && Turned(step, w.readings(t - 1)) && Turned(step, w.readings(t))
            && (Frontal(Some(other)) ==>
                  Reach(if step.TurnLeft? then TurnRight else TurnLeft, w.readings(t), other) < 1.0)
  {
    var t := part[4].when.tick;
    assert Twice(w, Towards(step, baseline).holds, t - 1);
    ReachedFromFrontal(step, w.readings(t - 1), baseline, other);
    ReachedFromFrontal(step, w.readings(t), baseline, other);
  }

  // ---- Run after run ----

  /** Frames ahead so far: each was awaited, and these are the poses they were taken in. */
  ghost predicate LookedAt(w: World, index: nat, run: Run, part: seq<Entry>, poses: seq<BrowserPose>) {
    && LookedRight(w, part) && poses == PosesAt(w, part)
    && Events(part) == PartOfRun(index, run, |part| - 1)
  }

  lemma OneMoreLook(w: World, index: nat, run: Run, part: seq<Entry>, poses: seq<BrowserPose>, frame: Entry)
    requires !IsMovement(run.step) && LookedAt(w, index, run, part, poses) && frame.event == Take
    requires FirstPair(w, Frontal, LOOK_WINDOW_MS, WatchFrom(w, part, |part|), frame.when)
    ensures var pose := w.readings(frame.when.tick);
            LookedAt(w, index, run, part + [frame], poses + if pose.Some? then [pose.value] else [])
  {
    assert (part + [frame])[..|part|] == part;
    EventsOfConcatenation(part, [frame]);
    OneMoreFrame(index, run, |part| - 1);
    forall i | 1 <= i < |part + [frame]| ensures FrameRight(w, part + [frame], i) {
      if i < |part| {
        assert FrameRight(w, part, i);
      }
    }
  }

  lemma LookedAtOnce(w: World, index: nat, run: Run, entry: Entry)
    requires !IsMovement(run.step) && entry.event == Look(index)
    ensures LookedAt(w, index, run, [entry], [])
  {
    assert Takes(0) == [];
  }

  lemma LookedRan(w: World, was: Moment, now: Moment, index: nat, run: Run, outcome: Outcome, part: seq<Entry>,
                  poses: seq<BrowserPose>)
    requires !IsMovement(run.step) && AheadSoFar(w, was, now, index, run, part, poses)
    requires FitsOutcome(run, outcome, |part| - 1) && (outcome.Captured? ==> now == EndOf(w, run, part))
    ensures Ran(w, was, now, index, run, outcome, part, |part| - 1)
  {
  }

  /** The camera delivered these frames, the last one excepted exactly where it failed. */
  ghost predicate Shot(w: World, from: nat, to: nat, failed: bool) {
    && from <= to && (failed ==> from < to && !w.delivers(to - 1))
    && forall k: nat :: from <= k < (if failed then to - 1 else to) ==> w.delivers(k)
  }

  lemma ShotOn(w: World, from: nat, mid: nat, to: nat, failed: bool)
    requires Shot(w, from, mid, false) && Shot(w, mid, to, failed)
    ensures Shot(w, from, to, failed)
  {
  }

  lemma CountOfRun(index: nat, run: Run, outcome: Outcome, taken: nat)
    requires FitsOutcome(run, outcome, taken)
    ensures CountTakes(RunUntil(index, run, outcome, taken)) == taken
  {
    if outcome.Captured? {
      PhasesOfRun(index, run, None);
    } else {
      CountInPart(index, run, taken);
    }
  }

  /** One run, ended this way, told this much in the meantime; a movement lasted its time. */
  ghost predicate Ran(w: World, was: Moment, now: Moment, index: nat, run: Run, outcome: Outcome, part: seq<Entry>,
                      taken: nat) {
    && Dated(part, was, now) && part != [] && part[0].when == was
    && Events(part) == RunUntil(index, run, outcome, taken)
    && FitsOutcome(run, outcome, taken)
    && (outcome.Captured? ==> now == EndOf(w, run, part))
  }

  /** How long a movement that began then is still to last. */
  function Rest(started: real, at: real): (r: Delay)
    ensures at + r >= started + ACTION_MIN_MS && (r > 0.0 ==> at + r == started + ACTION_MIN_MS)
  {
    if started + ACTION_MIN_MS > at then started + ACTION_MIN_MS - at else 0.0
  }

  /** When a run of frames ends: a movement when it has lasted its time, and frames ahead after
    * the last one's pause. */
  function EndOf(w: World, run: Run, part: seq<Entry>): Moment
    requires part != []
  {
    var last := part[|part| - 1].when;
    if !IsMovement(run.step) then (if |part| == 1 then last else Paused(w, last, CENTRE_GAP_MS))
    else if |part| > 2 then Waited(w, last, Rest(part[2].when.at, last.at))
    else last
  }

  ghost predicate AheadSoFar(w: World, was: Moment, now: Moment, index: nat, run: Run, part: seq<Entry>,
                             poses: seq<BrowserPose>) {
    && !IsMovement(run.step) && LookedAt(w, index, run, part, poses)
    && Dated(part, was, now) && part[0].when == was
  }

  /** One more frame: taken, whether or not the camera delivered it, and paused after. */
  lemma AheadOn(w: World, was: Moment, from: Moment, index: nat, run: Run, part: seq<Entry>, poses: seq<BrowserPose>,
                frame: Entry)
    requires AheadSoFar(w, was, from, index, run, part, poses) && from == WatchFrom(w, part, |part|)
             && |part| <= run.count
    requires frame.event == Take && FirstPair(w, Frontal, LOOK_WINDOW_MS, from, frame.when)
    ensures Ran(w, was, Waited(w, frame.when, 0.0), index, run, CameraFailed, part + [frame], |part|)
    ensures LookedRight(w, part + [frame])
    ensures var pose := w.readings(frame.when.tick);
            AheadSoFar(w, was, Paused(w, frame.when, CENTRE_GAP_MS), index, run, part + [frame],
                       poses + if pose.Some? then [pose.value] else [])
  {
    PolledLater(w, from, frame.when);
    OneMoreLook(w, index, run, part, poses, frame);
    var pose := w.readings(frame.when.tick);
    assert (part + [frame])[0] == part[0];
    LookedRan(w, was, Waited(w, frame.when, 0.0), index, run, CameraFailed, part + [frame],
              poses + if pose.Some? then [pose.value] else []);
  }

  lemma AheadOver(w: World, was: Moment, from: Moment, now: Moment, index: nat, run: Run, part: seq<Entry>,
                  poses: seq<BrowserPose>)
    requires AheadSoFar(w, was, from, index, run, part, poses) && from == WatchFrom(w, part, |part|)
             && |part| <= run.count
    requires GaveUp(w, Frontal, LOOK_WINDOW_MS, from, now)
    ensures Ran(w, was, now, index, run, TimedOut(run.step), part, |part| - 1) && LookedRight(w, part)
    ensures RunGaveUp(w, run, BrowserPose(0.0, 0.0), part, now)
  {
    PolledLater(w, from, now);
    assert AheadSoFar(w, was, now, index, run, part, poses);
    LookedRan(w, was, now, index, run, TimedOut(run.step), part, poses);
  }

  function Flat(parts: seq<seq<Entry>>): seq<Entry> {
    if parts == [] then [] else Flat(parts[..|parts| - 1]) + parts[|parts| - 1]
  }

  /** After each movement at least five seconds pass, from its move phase, before the next run
    * is announced. */
  ghost predicate Paced(runs: seq<Run>, parts: seq<seq<Entry>>)
    requires |parts| <= |runs|
  {
    forall i, j :: 0 <= i < j < |parts| && IsMovement(runs[i].step) ==> LongAfter(parts[i], parts[j])
  }

  ghost predicate LongAfter(movement: seq<Entry>, later: seq<Entry>) {
    |movement| > 2 && forall k :: 0 <= k < |later| ==> later[k].when.at >= movement[2].when.at + ACTION_MIN_MS
  }

  /** And at least five seconds have passed by `now`. */
  ghost predicate Rested(runs: seq<Run>, parts: seq<seq<Entry>>, now: real)
    requires |parts| <= |runs|
  {
    forall i :: 0 <= i < |parts| && IsMovement(runs[i].step) ==>
      |parts[i]| > 2 && now >= parts[i][2].when.at + ACTION_MIN_MS
  }

  ghost predicate AllDated(parts: seq<seq<Entry>>, was: Moment, now: Moment) {
    forall i :: 0 <= i < |parts| ==> Dated(parts[i], was, now)
  }

  /** These runs were captured, one part each, between the two moments. */
  ghost predicate RanAll(w: World, was: Moment, now: Moment, runs: seq<Run>, parts: seq<seq<Entry>>)
    requires |parts| <= |runs|
  {
    && Before(was, now) && AllDated(parts, was, now)
    && OneAfterAnother(w, was, runs, parts)
    && now == NextStart(w, was, runs, parts, |parts|)
    && EachCaptured(runs, parts) && Paced(runs, parts) && Rested(runs, parts, now.at)
  }

  /** When the `i`-th run begins: as soon as the one before has ended. */
  ghost function NextStart(w: World, was: Moment, runs: seq<Run>, parts: seq<seq<Entry>>, i: nat): Moment
    requires i <= |parts| <= |runs|
  {
    if i == 0 || parts[i - 1] == [] then was else EndOf(w, runs[i - 1], parts[i - 1])
  }

  ghost predicate OneAfterAnother(w: World, was: Moment, runs: seq<Run>, parts: seq<seq<Entry>>)
    requires |parts| <= |runs|
  {
    forall i :: 0 <= i < |parts| ==> BeginsInTurn(w, was, runs, parts, i)
  }

  ghost predicate BeginsInTurn(w: World, was: Moment, runs: seq<Run>, parts: seq<seq<Entry>>, i: nat)
    requires i < |parts| <= |runs|
  {
    parts[i] != [] && parts[i][0].when == NextStart(w, was, runs, parts, i)
  }

  ghost predicate EachCaptured(runs: seq<Run>, parts: seq<seq<Entry>>)
    requires |parts| <= |runs|
  {
    forall i :: 0 <= i < |parts| ==> Events(parts[i]) == RunScript(i, runs[i])
  }

  lemma {:induction false} CapturedPartsAreTheScript(runs: seq<Run>, parts: seq<seq<Entry>>)
    requires |parts| <= |runs| && EachCaptured(runs, parts)
    ensures Events(Flat(parts)) == ScriptOf(runs[..|parts|])
  {
    if parts != [] {
      var n := |parts| - 1;
      CapturedPartsAreTheScript(runs, parts[..n]);
      EventsOfConcatenation(Flat(parts[..n]), parts[n]);
      assert runs[..n + 1][..n] == runs[..n];
    }
  }

  lemma OneMorePart(parts: seq<seq<Entry>>, part: seq<Entry>)
    ensures Flat(parts + [part]) == Flat(parts) + part
  {
    assert (parts + [part])[..|parts|] == parts;
  }

  /** As many frames as the parts tell of were shot, and the camera failed only in the last. */
  ghost predicate AllShot(w: World, from: nat, to: nat, outcome: Outcome, parts: seq<seq<Entry>>) {
    Shot(w, from, to, outcome.CameraFailed?) && to - from == CountTakes(Events(Flat(parts)))
  }

  lemma NextShot(w: World, from: nat, mid: nat, to: nat, parts: seq<seq<Entry>>, index: nat, run: Run,
                 outcome: Outcome, part: seq<Entry>, taken: nat)
    requires AllShot(w, from, mid, Captured, parts) && Shot(w, mid, to, outcome.CameraFailed?) && to == mid + taken
    requires FitsOutcome(run, outcome, taken) && Events(part) == RunUntil(index, run, outcome, taken)
    ensures AllShot(w, from, to, outcome, parts + [part])
  {
    ShotOn(w, from, mid, to, outcome.CameraFailed?);
    CountOfRun(index, run, outcome, taken);
    OneMorePart(parts, part);
    EventsOfConcatenation(Flat(parts), part);
    TakesOfConcatenation(Events(Flat(parts)), Events(part));
  }

  lemma NextPaced(was: Moment, now: Moment, runs: seq<Run>, parts: seq<seq<Entry>>, part: seq<Entry>)
    requires |parts| < |runs| && Paced(runs, parts) && Rested(runs, parts, was.at) && Dated(part, was, now)
    ensures Paced(runs, parts + [part])
  {
  }

  lemma NextRested(w: World, was: Moment, now: Moment, runs: seq<Run>, parts: seq<seq<Entry>>, part: seq<Entry>,
                   taken: nat)
    requires |parts| < |runs| && Rested(runs, parts, was.at)
    requires Ran(w, was, now, |parts|, runs[|parts|], Captured, part, taken)
    ensures Rested(runs, parts + [part], now.at)
  {
  }

  lemma NextDated(since: Moment, was: Moment, now: Moment, parts: seq<seq<Entry>>, part: seq<Entry>)
    requires AllDated(parts, since, was) && Before(since, was) && Dated(part, was, now)
    ensures AllDated(parts + [part], since, now)
  {
  }

  lemma NextCaptured(runs: seq<Run>, parts: seq<seq<Entry>>, part: seq<Entry>)
    requires |parts| < |runs| && EachCaptured(runs, parts) && Events(part) == RunScript(|parts|, runs[|parts|])
    ensures EachCaptured(runs, parts + [part])
  {
  }

  lemma NextBegins(w: World, since: Moment, was: Moment, runs: seq<Run>, parts: seq<seq<Entry>>, part: seq<Entry>)
    requires |parts| < |runs| && OneAfterAnother(w, since, runs, parts)
    requires was == NextStart(w, since, runs, parts, |parts|)
    requires part != [] && part[0].when == was
    ensures OneAfterAnother(w, since, runs, parts + [part])
  {
    forall i | 0 <= i < |parts + [part]| ensures BeginsInTurn(w, since, runs, parts + [part], i) {
      if i < |parts| {
        assert BeginsInTurn(w, since, runs, parts, i);
      }
    }
  }

  lemma NextRun(w: World, since: Moment, was: Moment, now: Moment, runs: seq<Run>, parts: seq<seq<Entry>>,
                outcome: Outcome, part: seq<Entry>, taken: nat)
    requires |parts| < |runs| && RanAll(w, since, was, runs, parts)
    requires Ran(w, was, now, |parts|, runs[|parts|], outcome, part, taken)
    ensures outcome.Captured? ==> RanAll(w, since, now, runs, parts + [part])
    ensures AllDated(parts + [part], since, now) && Paced(runs, parts + [part])
    ensures OneAfterAnother(w, since, runs, parts + [part])
  {
    NextPaced(was, now, runs, parts, part);
    NextDated(since, was, now, parts, part);
    NextBegins(w, since, was, runs, parts, part);
    if outcome.Captured? {
      NextCaptured(runs, parts, part);
      NextRested(w, was, now, runs, parts, part, taken);
    }
  }

  lemma NextTimed(w: World, runs: seq<Run>, parts: seq<seq<Entry>>, part: seq<Entry>)
    requires |parts| < |runs| && AllTimed(w, runs, parts) && TimedRight(w, runs[|parts|], part)
    ensures AllTimed(w, runs, parts + [part])
  {
  }

  lemma NextRight(w: World, runs: seq<Run>, parts: seq<seq<Entry>>, part: seq<Entry>)
    requires |parts| < |runs| && AllRight(w, runs, parts)
    requires RunRight(w, runs[|parts|], BaselineOf(w, runs, parts), part)
    ensures AllRight(w, runs, parts + [part])
    ensures BaselineOf(w, runs, parts + [part]) == BaselineAfter(w, runs[|parts|], BaselineOf(w, runs, parts), part)
  {
    var more := parts + [part];
    assert more[..|parts|] == parts;
    forall i | 0 <= i < |more| ensures PartRight(w, runs, more, i) {
      if i < |parts| {
        assert PartRight(w, runs, parts, i);
        assert more[..i] == parts[..i];
      }
    }
  }

  /** What a guided capture tells between the two moments: run by run, every frame as soon as its
    * readings allowed and none earlier, each movement from the baseline of the runs before it,
    * and a timeout only where the last run's wait was in vain. */
  ghost predicate Guided(w: World, was: Moment, now: Moment, runs: seq<Run>, outcome: Outcome, parts: seq<seq<Entry>>) {
    && |parts| <= |runs| && AllDated(parts, was, now) && Paced(runs, parts) && AllRight(w, runs, parts)
    && OneAfterAnother(w, was, runs, parts)
    && (outcome.Captured? ==> |parts| == |runs| && RanAll(w, was, now, runs, parts))
    && (!outcome.Captured? ==> parts != [] && EachCaptured(runs, parts[..|parts| - 1]))
    && (outcome.TimedOut? ==> LastGaveUp(w, runs, parts, now))
  }

  lemma GuidedOn(w: World, since: Moment, was: Moment, now: Moment, runs: seq<Run>, parts: seq<seq<Entry>>,
                 outcome: Outcome, part: seq<Entry>, taken: nat)
    requires |parts| < |runs| && RanAll(w, since, was, runs, parts) && AllRight(w, runs, parts)
    requires Ran(w, was, now, |parts|, runs[|parts|], outcome, part, taken)
    requires RunRight(w, runs[|parts|], BaselineOf(w, runs, parts), part)
    requires outcome.TimedOut? ==> RunGaveUp(w, runs[|parts|], BaselineOf(w, runs, parts), part, now)
    ensures outcome.Captured? ==> RanAll(w, since, now, runs, parts + [part])
    ensures !outcome.Captured? ==> Guided(w, since, now, runs, outcome, parts + [part])
    ensures AllRight(w, runs, parts + [part])
    ensures BaselineOf(w, runs, parts + [part]) == BaselineAfter(w, runs[|parts|], BaselineOf(w, runs, parts), part)
  {
    NextRun(w, since, was, now, runs, parts, outcome, part, taken);
    NextRight(w, runs, parts, part);
    assert (parts + [part])[..|parts|] == parts;
  }

  /** What a capture shows: on return the whole script; on a timeout the script up to the
    * first frame not taken, whose step is named; on a camera failure the script up to the
    * frame that failed. */
  ghost predicate Faithful(seen: seq<Event>, steps: seq<Step>, outcome: Outcome) {
    match outcome
    case Captured => seen == ScriptOf(RunsOf(steps))
    case TimedOut(step) => StopsBefore(seen, steps, step)
    case CameraFailed => seen <= ScriptOf(RunsOf(steps)) && seen != [] && seen[|seen| - 1] == Take
  }

  lemma StoppedShort(steps: seq<Step>, parts: seq<seq<Entry>>, outcome: Outcome, part: seq<Entry>, taken: nat)
    requires |parts| < |RunsOf(steps)| && EachCaptured(RunsOf(steps), parts) && !outcome.Captured?
    requires FitsOutcome(RunsOf(steps)[|parts|], outcome, taken)
    requires Events(part) == PartOfRun(|parts|, RunsOf(steps)[|parts|], taken)
    ensures Faithful(Events(Flat(parts + [part])), steps, outcome)
  {
    var runs := RunsOf(steps);
    OneMorePart(parts, part);
    EventsOfConcatenation(Flat(parts), part);
    CapturedPartsAreTheScript(runs, parts);
    if outcome.TimedOut? {
      CutShort(steps, |parts|, taken);
    } else {
      PartBelongs(runs, |parts|, taken);
      OneMoreFrame(|parts|, runs[|parts|], taken - 1);
    }
  }

  lemma WholeScript(steps: seq<Step>, parts: seq<seq<Entry>>)
    requires |parts| == |RunsOf(steps)| && EachCaptured(RunsOf(steps), parts)
    ensures Faithful(Events(Flat(parts)), steps, Captured)
  {
    CapturedPartsAreTheScript(RunsOf(steps), parts);
    assert RunsOf(steps)[..|parts|] == RunsOf(steps);
  }

  datatype Outcome = Captured | TimedOut(step: Step) | CameraFailed

  /** A capture in progress, in any world. */
  class Booth {
    const w: World

    var now: real
    var tick: nat
    var shots: nat
    var log: seq<Entry>
    var gauges: seq<Gauge>

    constructor (w: World, start: real)
      ensures this.w == w && now == start && tick == 0 && shots == 0 && log == [] && gauges == []
    {
      this.w, now, tick, shots, log, gauges := w, start, 0, 0, [], [];
    }

    ghost function Now(): Moment
      reads this
    {
      Moment(now, tick)
    }

    method Tell(event: Event) returns (ghost entry: Entry)
      modifies this`log
      ensures entry == Entry(event, Now()) && log == old(log) + [entry]
    {
      entry := Entry(event, Now());
      log := log + [Entry(event, Moment(now, tick))];
    }

    method Show(value: Option<real>)
      modifies this`gauges
      ensures gauges == old(gauges) + [Gauge(value, Now())]
    {
      gauges := gauges + [Gauge(value, Moment(now, tick))];
    }

    /** Time passes, and the tracker may read the head anew. */
    method Wait(ms: real)
      modifies this`now, this`tick
      ensures tick == old(tick) + 1 && now == old(now) + (if ms > 0.0 then ms else 0.0) + w.lateness(old(tick))
      ensures ms >= 0.0 ==> Now() == Waited(w, old(Now()), ms)
    {
      now := now + (if ms > 0.0 then ms else 0.0) + w.lateness(tick);
      tick := tick + 1;
    }

    method TakeFrame() returns (ok: bool, ghost frame: Entry)
      modifies this`log, this`now, this`tick, this`shots
      ensures frame == Entry(Take, old(Now())) && log == old(log) + [frame]
      ensures now == old(now) + w.lateness(old(tick)) && tick == old(tick) + 1 && shots == old(shots) + 1
      ensures ok == w.delivers(old(shots))
    {
      frame := Tell(Take);
      ok := w.delivers(shots);
      shots := shots + 1;
      Wait(0.0);
    }

    /** One look at the latest reading; a movement's progress is shown on the way. */
    method Check(watch: Watch) returns (held: bool)
      modifies this`gauges
      ensures held == watch.holds(w.readings(tick))
      ensures gauges == old(gauges) + Gauged(w, watch, Now())
    {
      var pose := w.readings(tick);
      if watch.meter.Some? {
        Show(Some(Clamped(watch.meter.value(pose))));
      }
      held := watch.holds(pose);
    }

    /** One poll of many: how often in a row the condition has held by now. */
    method Poll(watch: Watch, streak: int, ghost ms: real, ghost before: seq<Gauge>, ghost since: Moment)
      returns (next: int)
      requires UntilSoFar(before, gauges, w, watch, ms, since, Now(), streak) && now < since.at + ms
      modifies this`gauges
      ensures if next >= STEADY
              then FirstPair(w, watch.holds, ms, since, Now())
                  && Showed(before, gauges, w, watch, since, tick - since.tick + 1)
              else UntilSoFar(before, gauges, w, watch, ms, since, Waited(w, Now(), POLL_MS), next)
    {
      UntilOn(before, gauges, w, watch, ms, since, Now(), streak);
      var held := Check(watch);
      next := if held then streak + 1 else 0;
    }

    /** Polls until the condition has held twice in a row, and no later than the first poll
      * after the window. */
    method Until(watch: Watch, ms: real) returns (ok: bool)
      modifies this`now, this`tick, this`gauges
      ensures ok ==> FirstPair(w, watch.holds, ms, old(Now()), Now())
      ensures !ok ==> GaveUp(w, watch.holds, ms, old(Now()), Now())
      ensures Showed(old(gauges), gauges, w, watch, old(Now()), tick - old(tick) + if ok then 1 else 0)
    {
      ghost var since, before := Now(), gauges;
      var deadline := now + ms;
      var streak := 0;
      ok := false;
      UntilBegins(gauges, w, watch, ms, since);
      while now < deadline
        invariant !ok && deadline == since.at + ms && UntilSoFar(before, gauges, w, watch, ms, since, Now(), streak)
        decreases deadline - now
      {
        streak := Poll(watch, streak, ms, before, since);
        if streak >= STEADY {
          ok := true;
          return;
        }
        Wait(POLL_MS);
      }
      UntilOver(before, gauges, w, watch, ms, since, Now(), streak);
    }

    /** Waits for the movement; without a tracker, for as long as a turn takes. */
    method Reached(step: Step, baseline: Option<BrowserPose>) returns (ok: bool)
      modifies this`now, this`tick, this`gauges
      ensures baseline.None? ==> ok && Now() == Waited(w, old(Now()), TIMED_TURN_MS)
      ensures baseline.Some? && ok
              ==> FirstPair(w, Towards(step, baseline.value).holds, ACTION_MAX_MS, old(Now()), Now())
      ensures baseline.Some? && !ok ==> GaveUp(w, Towards(step, baseline.value).holds, ACTION_MAX_MS, old(Now()), Now())
      ensures baseline.Some? ==> gauges != [] && gauges[|gauges| - 1] == Gauge(None, Now())
    {
      match baseline {
        case None =>
          Wait(TIMED_TURN_MS);
          ok := true;
        case Some(pose) =>
          ok := Until(Towards(step, pose), ACTION_MAX_MS);
          Show(None);
      }
    }

    /** The announcement, told twice and a second apart. */
    method CountDown(index: nat, step: Step) returns (ghost part: seq<Entry>)
      modifies this`log, this`now, this`tick
      ensures log == old(log) + part && Dated(part, old(Now()), Now())
      ensures Events(part) == [Prepare(index, step, 2), Prepare(index, step, 1)]
      ensures |part| == 2 && part[0].when == old(Now())
      ensures part[1].when == Waited(w, part[0].when, 1000.0) && Now() == Waited(w, part[1].when, 1000.0)
    {
      part := [];
      for left := PREPARE_SECONDS downto 0
        invariant log == old(log) + part && Dated(part, old(Now()), Now()) && |part| == 2 - left
        invariant forall i :: 0 <= i < |part| ==> part[i].event == Prepare(index, step, 2 - i)
        invariant Now() == if |part| == 0 then old(Now()) else Waited(w, part[|part| - 1].when, 1000.0)
        invariant |part| > 0 ==> part[0].when == old(Now())
        invariant |part| > 1 ==> part[1].when == Waited(w, part[0].when, 1000.0)
      {
        ghost var entry := Tell(Prepare(index, step, left + 1));
        Wait(1000.0);
        part := part + [entry];
      }
    }

    /** The countdown, and the tone to start. */
    method Announce(index: nat, step: Step) returns (ghost part: seq<Entry>)
      requires IsMovement(step)
      modifies this`log, this`now, this`tick
      ensures log == old(log) + part && Dated(part, old(Now()), Now())
      ensures Events(part) == Opening(index, step)
      ensures |part| == 4 && part[0].when == old(Now()) && CountedDown(w, part) && part[3].when == Now()
    {
      ghost var countdown := CountDown(index, step);
      ghost var move := Tell(Move(index, step));
      ghost var tone := Tell(Cue(Go));
      part := countdown + [move, tone];
      EventsOfConcatenation(countdown, [move, tone]);
      assert |countdown| == |Events(countdown)| == 2;
      assert Events([move, tone]) == [Move(index, step), Cue(Go)];
    }

    /** The chime, and a rest until the movement has lasted its time. */
    method Finish(index: nat, step: Step, started: real) returns (ghost part: seq<Entry>)
      requires IsMovement(step)
      modifies this`log, this`now, this`tick
      ensures log == old(log) + part && Dated(part, old(Now()), Now()) && Events(part) == Closing(index, step)
      ensures |part| == 2 && part[0].when == part[1].when == old(Now())
      ensures Now() == Waited(w, old(Now()), Rest(started, old(now)))
    {
      ghost var chime := Tell(Cue(Finished));
      ghost var done := Tell(Done(index, step));
      part := [chime, done];
      Wait(ACTION_MIN_MS - (now - started));
    }

    /** A movement's frames, a pause after each. */
    method TakeFrames(count: nat, gap: Delay) returns (ok: bool, ghost part: seq<Entry>)
      modifies this`log, this`now, this`tick, this`shots
      ensures log == old(log) + part && Dated(part, old(Now()), Now())
      ensures if ok then |part| == count else 1 <= |part| <= count
      ensures Frames(w, part, old(Now()), gap) && (ok ==> Now() == NextFrame(w, part, old(Now()), gap))
      ensures Shot(w, old(shots), shots, !ok) && shots == old(shots) + |part|
    {
      part := [];
      for i := 0 to count
        invariant |part| == i && log == old(log) + part && Dated(part, old(Now()), Now())
        invariant Now() == NextFrame(w, part, old(Now()), gap) && Frames(w, part, old(Now()), gap)
        invariant Shot(w, old(shots), shots, false) && shots == old(shots) + |part|
      {
        OneMoreInARow(w, part, old(Now()), gap);
        ghost var frame;
        ok, frame := TakeFrame();
        part := part + [frame];
        if !ok {
          return;
        }
        Wait(gap);
      }
      ok := true;
    }

    /** From the tone to the chime. */
    method Perform(index: nat, run: Run, baseline: Option<BrowserPose>, gap: Delay)
        returns (outcome: Outcome, ghost part: seq<Entry>, ghost taken: nat)
      requires IsMovement(run.step) && run.count >= 1
      modifies this
      ensures log == old(log) + part && Dated(part, old(Now()), Now())
      ensures Events(part) == AfterOpening(index, run, outcome, taken) && FitsOutcome(run, outcome, taken)
      ensures outcome.TimedOut? ==>
        taken == 0 && baseline.Some?
            && GaveUp(w, Towards(run.step, baseline.value).holds, ACTION_MAX_MS, old(Now()), Now())
      ensures !outcome.TimedOut? ==>
        && part != []
        && match baseline
           case Some(pose) => FirstPair(w, Towards(run.step, pose).holds, ACTION_MAX_MS, old(Now()), part[0].when)
           case None => part[0].when == Waited(w, old(Now()), TIMED_TURN_MS)
      ensures Following(w, part, gap)
      ensures outcome.Captured? ==> Now() == Waited(w, part[|part| - 1].when, Rest(old(now), part[|part| - 1].when.at))
      ensures Shot(w, old(shots), shots, outcome.CameraFailed?) && shots == old(shots) + taken
    {
      var started := now;
      ghost var since := Now();
      var ok := Reached(run.step, baseline);
      PolledLater(w, since, Now());
      if !ok {
        return TimedOut(run.step), [], 0;
      }
      ghost var frames, reached := [], Now();
      ok, frames := TakeFrames(run.count, gap);
      FramesAreTakes(w, frames, reached, gap);
      FramesFollow(w, frames, reached, gap);
      part, taken := frames, |frames|;
      if !ok {
        return CameraFailed, part, taken;
      }
      ghost var end := Finish(index, run.step, started);
      EndOfMovement(w, index, run.step, frames, end, gap);
      part := frames + end;
      EventsOfConcatenation(frames, end);
      NoTakesAtTheEnd(index, run.step, end);
      outcome := Captured;
    }

    /** One movement, start to finish: with a tracker, its frames wait for the movement. */
    method Movement(index: nat, run: Run, baseline: Option<BrowserPose>, gap: Delay)
        returns (outcome: Outcome, ghost part: seq<Entry>, ghost taken: nat)
      requires IsMovement(run.step) && run.count >= 1
      requires gap == if baseline.Some? then HOLD_GAP_MS else TIMED_HOLD_GAP_MS
      modifies this
      ensures log == old(log) + part && Ran(w, old(Now()), Now(), index, run, outcome, part, taken)
      ensures outcome.TimedOut? ==> taken == 0 && baseline.Some? && RunGaveUp(w, run, baseline.value, part, Now())
      ensures if baseline.Some? then RunRight(w, run, baseline.value, part) else TimedRight(w, run, part)
      ensures Shot(w, old(shots), shots, outcome.CameraFailed?) && shots == old(shots) + taken
    {
      ghost var opening := Announce(index, run.step);
      ghost var rest;
      outcome, rest, taken := Perform(index, run, baseline, gap);
      part := opening + rest;
      FollowOn(w, opening, rest, gap);
      EventsOfConcatenation(opening, rest);
      RunInParts(index, run, outcome, taken);
    }

    /** One frame looking ahead, and the pose it was taken in. */
    method CentreFrame() returns (seen: bool, ok: bool, pose: Option<BrowserPose>, ghost frame: Entry)
      modifies this
      ensures log == old(log) + if seen then [frame] else []
      ensures seen ==>
        && frame.event == Take && FirstPair(w, Frontal, LOOK_WINDOW_MS, old(Now()), frame.when)
        && pose == w.readings(frame.when.tick)
        && tick == frame.when.tick + 1 && now == frame.when.at + w.lateness(frame.when.tick)
      ensures seen ==> ok == w.delivers(old(shots)) && shots == old(shots) + 1
      ensures !seen ==> GaveUp(w, Frontal, LOOK_WINDOW_MS, old(Now()), Now()) && shots == old(shots)
    {
      seen := Until(Ahead(), LOOK_WINDOW_MS);
      ok, pose, frame := false, None, Entry(Take, Now());
      if seen {
        pose := w.readings(tick);
        ok, frame := TakeFrame();
      }
    }

    /** One more frame of a run ahead, and the pause after it. */
    method AheadFrame(index: nat, run: Run, poses: seq<BrowserPose>, ghost was: Moment, ghost part: seq<Entry>)
        returns (seen: bool, ok: bool, more: seq<BrowserPose>, ghost frame: Entry)
      requires AheadSoFar(w, was, Now(), index, run, part, poses)
      requires Now() == WatchFrom(w, part, |part|) && |part| <= run.count
      modifies this
      ensures log == (if seen then old(log) + [frame] else old(log))
      ensures shots == (if seen then old(shots) + 1 else old(shots)) && (seen ==> ok == w.delivers(old(shots)))
      ensures !seen ==>
        && Ran(w, was, Now(), index, run, TimedOut(run.step), part, |part| - 1) && LookedRight(w, part)
        && RunGaveUp(w, run, BrowserPose(0.0, 0.0), part, Now())
      ensures seen ==> LookedRight(w, part + [frame])
      ensures seen && !ok ==> Ran(w, was, Now(), index, run, CameraFailed, part + [frame], |part|)
      ensures seen && ok ==>
        && AheadSoFar(w, was, Now(), index, run, part + [frame], more)
        && Now() == WatchFrom(w, part + [frame], |part| + 1)
    {
      ghost var from := Now();
      var pose;
      seen, ok, pose, frame := CentreFrame();
      more := poses;
      if !seen {
        AheadOver(w, was, from, Now(), index, run, part, poses);
        return;
      }
      AheadOn(w, was, from, index, run, part, poses, frame);
      if ok {
        if pose.Some? {
          more := poses + [pose.value];
        }
        Wait(CENTRE_GAP_MS);
      }
    }

    /** Frames looking ahead, each awaited; the poses they were taken in. */
    method LookAhead(index: nat, run: Run)
        returns (outcome: Outcome, poses: seq<BrowserPose>, ghost part: seq<Entry>, ghost taken: nat)
      requires !IsMovement(run.step)
      modifies this
      ensures log == old(log) + part && Ran(w, old(Now()), Now(), index, run, outcome, part, taken)
      ensures LookedRight(w, part)
      ensures outcome.TimedOut? ==> RunGaveUp(w, run, BrowserPose(0.0, 0.0), part, Now())
      ensures outcome.Captured? ==> poses == PosesAt(w, part)
      ensures Shot(w, old(shots), shots, outcome.CameraFailed?) && shots == old(shots) + taken
    {
      ghost var was, before := Now(), log;
      ghost var entry := Tell(Look(index));
      poses, part, taken := [], [entry], 0;
      LookedAtOnce(w, index, run, entry);
      for i := 0 to run.count
        invariant taken == i && |part| == i + 1 && log == before + part && Now() == WatchFrom(w, part, |part|)
        invariant AheadSoFar(w, was, Now(), index, run, part, poses)
        invariant Shot(w, old(shots), shots, false) && shots == old(shots) + taken
      {
        var seen, ok;
        ghost var frame;
        seen, ok, poses, frame := AheadFrame(index, run, poses, was, part);
        if !seen {
          return TimedOut(run.step), poses, part, taken;
        }
        Joined(before, part, [frame]);
        part, taken := part + [frame], taken + 1;
        if !ok {
          return CameraFailed, poses, part, taken;
        }
      }
      outcome := Captured;
      LookedRan(w, was, Now(), index, run, outcome, part, poses);
    }

    /** One run with a tracker: a movement from the baseline, or frames that set a new one. */
    method GuidedRun(index: nat, run: Run, baseline: BrowserPose)
        returns (outcome: Outcome, next: BrowserPose, ghost part: seq<Entry>, ghost taken: nat)
      requires run.count >= 1
      modifies this
      ensures log == old(log) + part && Ran(w, old(Now()), Now(), index, run, outcome, part, taken)
      ensures RunRight(w, run, baseline, part)
      ensures outcome.TimedOut? ==> RunGaveUp(w, run, baseline, part, Now())
      ensures outcome.Captured? ==> next == BaselineAfter(w, run, baseline, part)
      ensures Shot(w, old(shots), shots, outcome.CameraFailed?) && shots == old(shots) + taken
    {
      next := baseline;
      if IsMovement(run.step) {
        outcome, part, taken := Movement(index, run, Some(baseline), HOLD_GAP_MS);
      } else {
        var poses;
        outcome, poses, part, taken := LookAhead(index, run);
        if poses != [] {
          next := BrowserPose(Median(Coordinates(poses, Yaw)), Median(Coordinates(poses, Pitch)));
        }
      }
    }

    /** The capture with a head tracker. */
    method GuidedCapture(steps: seq<Step>) returns (outcome: Outcome, ghost parts: seq<seq<Entry>>)
      modifies this
      ensures log == old(log) + Flat(parts) && Faithful(Events(Flat(parts)), steps, outcome)
      ensures Guided(w, old(Now()), Now(), RunsOf(steps), outcome, parts)
      ensures AllShot(w, old(shots), shots, outcome, parts)
    {
      ghost var since, before, first := Now(), log, shots;
      var runs := Groups(steps);
      RunsExpandBack(steps);
      var baseline := BrowserPose(0.0, 0.0);
      parts := [];
      for index := 0 to |runs|
        invariant runs == RunsOf(steps) && |parts| == index && baseline == BaselineOf(w, runs, parts)
        invariant log == before + Flat(parts)
        invariant RanAll(w, since, Now(), runs, parts) && AllRight(w, runs, parts)
        invariant AllShot(w, first, shots, Captured, parts)
      {
        ghost var part, taken;
        ghost var was, done, shot := Now(), parts, shots;
        outcome, baseline, part, taken := GuidedRun(index, runs[index], baseline);
        GuidedOn(w, since, was, Now(), runs, parts, outcome, part, taken);
        NextShot(w, first, shot, shots, parts, index, runs[index], outcome, part, taken);
        OneMorePart(parts, part);
        Joined(before, Flat(parts), part);
        parts := parts + [part];
        if !outcome.Captured? {
          StoppedShort(steps, done, outcome, part, taken);
          return;
        }
      }
      WholeScript(steps, parts);
      outcome := Captured;
    }

    /** The capture on a timer, when there is no tracker. */
    method TimedCapture(steps: seq<Step>) returns (outcome: Outcome, ghost parts: seq<seq<Entry>>)
      modifies this
      ensures log == old(log) + Flat(parts) && AllDated(parts, old(Now()), Now())
      ensures Faithful(Events(Flat(parts)), steps, outcome) && !outcome.TimedOut?
      ensures |parts| <= |RunsOf(steps)| && Paced(RunsOf(steps), parts)
      ensures OneAfterAnother(w, old(Now()), RunsOf(steps), parts)
      ensures outcome.Captured? ==> RanAll(w, old(Now()), Now(), RunsOf(steps), parts)
      ensures AllTimed(w, RunsOf(steps), parts) && AllShot(w, old(shots), shots, outcome, parts)
    {
      ghost var since, before, first := Now(), log, shots;
      var runs := Groups(steps);
      RunsExpandBack(steps);
      parts := [];
      for index := 0 to |runs|
        invariant runs == RunsOf(steps) && |parts| == index && log == before + Flat(parts)
        invariant RanAll(w, since, Now(), runs, parts) && AllTimed(w, runs, parts)
        invariant AllShot(w, first, shots, Captured, parts)
      {
        ghost var part, taken;
        ghost var was, done, shot := Now(), parts, shots;
        outcome, part, taken := TimedRun(index, runs[index]);
        NextRun(w, since, was, Now(), runs, parts, outcome, part, taken);
        NextTimed(w, runs, parts, part);
        NextShot(w, first, shot, shots, parts, index, runs[index], outcome, part, taken);
        OneMorePart(parts, part);
        Joined(before, Flat(parts), part);
        parts := parts + [part];
        if !outcome.Captured? {
          StoppedShort(steps, done, outcome, part, taken);
          return;
        }
      }
      WholeScript(steps, parts);
      outcome := Captured;
    }

    method TimedRun(index: nat, run: Run) returns (outcome: Outcome, ghost part: seq<Entry>, ghost taken: nat)
      requires run.count >= 1
      modifies this
      ensures log == old(log) + part && Ran(w, old(Now()), Now(), index, run, outcome, part, taken)
      ensures !outcome.TimedOut? && TimedRight(w, run, part)
      ensures Shot(w, old(shots), shots, outcome.CameraFailed?) && shots == old(shots) + taken
    {
      if IsMovement(run.step) {
        outcome, part, taken := Movement(index, run, None, TIMED_HOLD_GAP_MS);
      } else {
        outcome, part, taken := LookOnTimer(index, run);
      }
    }

    method LookOnTimer(index: nat, run: Run) returns (outcome: Outcome, ghost part: seq<Entry>, ghost taken: nat)
      requires !IsMovement(run.step) && run.count >= 1
      modifies this
      ensures log == old(log) + part && Ran(w, old(Now()), Now(), index, run, outcome, part, taken)
      ensures !outcome.TimedOut? && TimedRight(w, run, part)
      ensures Shot(w, old(shots), shots, outcome.CameraFailed?) && shots == old(shots) + taken
    {
      ghost var entry := Tell(Look(index));
      Wait(TIMED_SETTLE_MS);
      var ok;
      ghost var frames;
      ok, frames := TakeFrames(run.count, CENTRE_GAP_MS);
      FramesAreTakes(w, frames, Waited(w, entry.when, TIMED_SETTLE_MS), CENTRE_GAP_MS);
      part, taken := [entry] + frames, |frames|;
      EventsOfConcatenation([entry], frames);
      assert part[1..] == frames;
      assert Events([entry]) == Opening(index, run.step);
      outcome := if ok then Captured else CameraFailed;
    }
  }
}
