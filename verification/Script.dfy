/** What a face capture announces and takes: consecutive identical steps are asked for once. */
module Script {
  import opened Results
  import opened Steps

  // ---- Runs of identical steps ----

  datatype Run = Run(step: Step, count: nat)

  /** One more step at the end: it lengthens the last run or starts a new one. */
  function Extended(runs: seq<Run>, step: Step): seq<Run> {
    if runs != [] && runs[|runs| - 1].step == step
    then runs[..|runs| - 1] + [Run(step, runs[|runs| - 1].count + 1)]
    else runs + [Run(step, 1)]
  }

  function RunsOf(steps: seq<Step>): seq<Run> {
    if steps == [] then [] else Extended(RunsOf(steps[..|steps| - 1]), steps[|steps| - 1])
  }

  method Groups(steps: seq<Step>) returns (out: seq<Run>)
    ensures out == RunsOf(steps)
  {
    out := [];
    for i := 0 to |steps|
      invariant out == RunsOf(steps[..i])
    {
      assert steps[..i + 1][..i] == steps[..i];
      if out != [] && out[|out| - 1].step == steps[i] {
        out := out[|out| - 1 := Run(steps[i], out[|out| - 1].count + 1)];
      } else {
        out := out + [Run(steps[i], 1)];
      }
    }
    assert steps[..|steps|] == steps;
  }

  function Copies(step: Step, count: nat): (r: seq<Step>)
    ensures |r| == count && forall i :: 0 <= i < count ==> r[i] == step
  {
    seq(count, i => step)
  }

  /** The steps the runs stand for. */
  function Expand(runs: seq<Run>): seq<Step> {
    if runs == [] then []
    else Expand(runs[..|runs| - 1]) + Copies(runs[|runs| - 1].step, runs[|runs| - 1].count)
  }

  /** No run is empty, and no two neighbours ask for the same step. */
  ghost predicate Maximal(runs: seq<Run>) {
    && (forall i :: 0 <= i < |runs| ==> runs[i].count >= 1)
    && (forall i :: 0 <= i < |runs| - 1 ==> runs[i].step != runs[i + 1].step)
  }

  lemma ExtendedExpands(runs: seq<Run>, step: Step)
    requires Maximal(runs)
    ensures Maximal(Extended(runs, step)) && Expand(Extended(runs, step)) == Expand(runs) + [step]
  {
    var n := |runs|;
    var longer := Extended(runs, step);
    if n > 0 && runs[n - 1].step == step {
      assert longer[..n - 1] == runs[..n - 1];
    } else {
      assert longer[..n] == runs;
    }
  }

  lemma {:induction false} RunsExpandBack(steps: seq<Step>)
    ensures Maximal(RunsOf(steps)) && Expand(RunsOf(steps)) == steps
  {
    if steps != [] {
      RunsExpandBack(steps[..|steps| - 1]);
      ExtendedExpands(RunsOf(steps[..|steps| - 1]), steps[|steps| - 1]);
    }
  }

  lemma LastOfExpansion(runs: seq<Run>)
    requires Maximal(runs) && runs != []
    ensures var last := runs[|runs| - 1];
            && Expand(runs) != [] && Expand(runs)[|Expand(runs)| - 1] == last.step
            && Expand(runs)[..|Expand(runs)| - 1] == Expand(runs[..|runs| - 1]) + Copies(last.step, last.count - 1)
  {
  }

  /** Taking one step off the end of the last run. */
  function Shortened(runs: seq<Run>): seq<Run>
    requires runs != [] && runs[|runs| - 1].count >= 1
  {
    var n, last := |runs| - 1, runs[|runs| - 1];
    if last.count == 1 then runs[..n] else runs[..n] + [Run(last.step, last.count - 1)]
  }

  lemma ShortenedExpands(runs: seq<Run>)
    requires Maximal(runs) && runs != []
    ensures Maximal(Shortened(runs))
    ensures Expand(Shortened(runs)) == Expand(runs)[..|Expand(runs)| - 1]
  {
    LastOfExpansion(runs);
    var n, last := |runs| - 1, runs[|runs| - 1];
    if last.count > 1 {
      assert Shortened(runs)[..n] == runs[..n];
    } else {
      assert Copies(last.step, 0) == [];
    }
  }

  lemma ExtendingUndoesShortening(runs: seq<Run>)
    requires Maximal(runs) && runs != []
    ensures Extended(Shortened(runs), runs[|runs| - 1].step) == runs
  {
    var n, last := |runs| - 1, runs[|runs| - 1];
    if last.count > 1 {
      assert Shortened(runs)[..n] == runs[..n];
    }
    assert runs == runs[..n] + [last];
  }

  lemma RunsOfOneMore(steps: seq<Step>, step: Step)
    ensures RunsOf(steps + [step]) == Extended(RunsOf(steps), step)
  {
    assert (steps + [step])[..|steps|] == steps;
  }

  lemma LastStep(runs: seq<Run>)
    requires Maximal(runs) && runs != []
    ensures Expand(runs) != [] && Expand(runs)[|Expand(runs)| - 1] == runs[|runs| - 1].step
  {
  }

  lemma AllButLast(s: seq<Step>)
    requires s != []
    ensures s == s[..|s| - 1] + [s[|s| - 1]]
  {
  }

  /** There is one way to write steps as maximal runs. */
  lemma {:induction false} OneWayToGroup(runs: seq<Run>)
    requires Maximal(runs)
    ensures runs == RunsOf(Expand(runs))
    decreases |Expand(runs)|
  {
    if runs != [] {
      LastStep(runs);
      AllButLast(Expand(runs));
      ShortenedExpands(runs);
      OneWayToGroup(Shortened(runs));
      RunsOfOneMore(Expand(Shortened(runs)), runs[|runs| - 1].step);
      ExtendingUndoesShortening(runs);
    }
  }

  // ---- The script of a capture ----

  datatype Sound = Go | Finished

  datatype Event =
    | Look(index: nat)
    | Prepare(index: nat, step: Step, seconds: nat)
    | Move(index: nat, step: Step)
    | Done(index: nat, step: Step)
    | Take
    | Cue(sound: Sound)
  {
    predicate IsPhase() {
      Look? || Prepare? || Move? || Done?
    }
  }

  function Takes(count: nat): (r: seq<Event>)
    ensures |r| == count && forall i :: 0 <= i < count ==> r[i] == Take
  {
    seq(count, i => Take)
  }

  /** What is announced before a run's frames are taken. */
  function Opening(index: nat, step: Step): seq<Event> {
    if IsMovement(step) then [Prepare(index, step, 2), Prepare(index, step, 1), Move(index, step), Cue(Go)]
    else [Look(index)]
  }

  function Closing(index: nat, step: Step): seq<Event> {
    if IsMovement(step) then [Cue(Finished), Done(index, step)] else []
  }

  function RunScript(index: nat, run: Run): seq<Event> {
    Opening(index, run.step) + Takes(run.count) + Closing(index, run.step)
  }

  function ScriptOf(runs: seq<Run>): seq<Event> {
    if runs == [] then [] else ScriptOf(runs[..|runs| - 1]) + RunScript(|runs| - 1, runs[|runs| - 1])
  }

  /** The phases announced last before each frame was taken. */
  function PhasesOfTakes(events: seq<Event>, phase: Option<Event>): seq<Option<Event>> {
    if events == [] then []
    else if events[0].Take? then [phase] + PhasesOfTakes(events[1..], phase)
    else PhasesOfTakes(events[1..], if events[0].IsPhase() then Some(events[0]) else phase)
  }

  function LastPhase(events: seq<Event>, phase: Option<Event>): Option<Event> {
    if events == [] then phase
    else LastPhase(events[1..], if events[0].IsPhase() then Some(events[0]) else phase)
  }

  function CountTakes(events: seq<Event>): nat {
    |PhasesOfTakes(events, None)|
  }

  lemma {:induction false} PhasesOfConcatenation(a: seq<Event>, b: seq<Event>, phase: Option<Event>)
    ensures PhasesOfTakes(a + b, phase) == PhasesOfTakes(a, phase) + PhasesOfTakes(b, LastPhase(a, phase))
    ensures LastPhase(a + b, phase) == LastPhase(b, LastPhase(a, phase))
  {
    if a == [] {
      assert a + b == b;
    } else {
      assert (a + b)[1..] == a[1..] + b;
      PhasesOfConcatenation(a[1..], b, if a[0].IsPhase() then Some(a[0]) else phase);
    }
  }

  lemma {:induction false} AsManyWhateverThePhase(events: seq<Event>, p: Option<Event>, q: Option<Event>)
    ensures |PhasesOfTakes(events, p)| == |PhasesOfTakes(events, q)|
  {
    if events != [] {
      AsManyWhateverThePhase(events[1..], if events[0].IsPhase() then Some(events[0]) else p,
                             if events[0].IsPhase() then Some(events[0]) else q);
    }
  }

  lemma TakesOfConcatenation(a: seq<Event>, b: seq<Event>)
    ensures CountTakes(a + b) == CountTakes(a) + CountTakes(b)
  {
    PhasesOfConcatenation(a, b, None);
    AsManyWhateverThePhase(b, LastPhase(a, None), None);
  }

  lemma {:induction false} PhasesDuringTakes(count: nat, phase: Option<Event>)
    ensures PhasesOfTakes(Takes(count), phase) == seq(count, i => phase)
    ensures LastPhase(Takes(count), phase) == phase
  {
    if count > 0 {
      assert Takes(count)[1..] == Takes(count - 1);
      PhasesDuringTakes(count - 1, phase);
      assert [phase] + seq(count - 1, i => phase) == seq(count, i => phase);
    }
  }

  /** The phase in which a run's frames are to be taken. */
  function Announced(index: nat, step: Step): Event {
    if IsMovement(step) then Move(index, step) else Look(index)
  }

  lemma Leading(e: Event, rest: seq<Event>, phase: Option<Event>)
    requires !e.Take?
    ensures var next := if e.IsPhase() then Some(e) else phase;
            && PhasesOfTakes([e] + rest, phase) == PhasesOfTakes(rest, next)
            && LastPhase([e] + rest, phase) == LastPhase(rest, next)
  {
    assert ([e] + rest)[1..] == rest;
  }

  lemma PhaseOfOpening(index: nat, step: Step, phase: Option<Event>)
    ensures PhasesOfTakes(Opening(index, step), phase) == []
    ensures LastPhase(Opening(index, step), phase) == Some(Announced(index, step))
  {
    if IsMovement(step) {
      var two, one, move := Prepare(index, step, 2), Prepare(index, step, 1), Move(index, step);
      assert Opening(index, step) == [two] + ([one] + ([move] + ([Cue(Go)] + [])));
      Leading(two, [one] + ([move] + ([Cue(Go)] + [])), phase);
      Leading(one, [move] + ([Cue(Go)] + []), Some(two));
      Leading(move, [Cue(Go)] + [], Some(one));
      Leading(Cue(Go), [], Some(move));
    } else {
      assert Opening(index, step) == [Look(index)] + [];
      Leading(Look(index), [], phase);
    }
  }

  lemma NoTakesInClosing(index: nat, step: Step, phase: Option<Event>)
    ensures PhasesOfTakes(Closing(index, step), phase) == []
  {
    if IsMovement(step) {
      assert Closing(index, step) == [Cue(Finished)] + ([Done(index, step)] + []);
      Leading(Cue(Finished), [Done(index, step)] + [], phase);
      Leading(Done(index, step), [], phase);
    }
  }

  lemma PhasesOfRun(index: nat, run: Run, phase: Option<Event>)
    ensures PhasesOfTakes(RunScript(index, run), phase) == seq(run.count, i => Some(Announced(index, run.step)))
  {
    var opening, takes, closing := Opening(index, run.step), Takes(run.count), Closing(index, run.step);
    PhaseOfOpening(index, run.step, phase);
    PhasesOfConcatenation(opening + takes, closing, phase);
    PhasesOfConcatenation(opening, takes, phase);
    PhasesDuringTakes(run.count, Some(Announced(index, run.step)));
    NoTakesInClosing(index, run.step, LastPhase(opening + takes, phase));
  }

  /** The phase announced for a run of these is the one that asks for `step`. */
  ghost predicate Asks(runs: seq<Run>, phase: Option<Event>, step: Step) {
    exists i :: 0 <= i < |runs| && runs[i].step == step && phase == Some(Announced(i, runs[i].step))
  }

  /** The script takes one frame for each step, the k-th in the phase that asks for the k-th step. */
  lemma {:induction false} OneFrameForEachStep(runs: seq<Run>)
    ensures CountTakes(ScriptOf(runs)) == |Expand(runs)|
    ensures forall k :: 0 <= k < |Expand(runs)| ==> Asks(runs, PhasesOfTakes(ScriptOf(runs), None)[k], Expand(runs)[k])
  {
    if runs != [] {
      var n, last := |runs| - 1, runs[|runs| - 1];
      var before := ScriptOf(runs[..n]);
      OneFrameForEachStep(runs[..n]);
      PhasesOfConcatenation(before, RunScript(n, last), None);
      PhasesOfRun(n, last, LastPhase(before, None));
      forall k | 0 <= k < |Expand(runs)| ensures Asks(runs, PhasesOfTakes(ScriptOf(runs), None)[k], Expand(runs)[k]) {
        if k < |Expand(runs[..n])| {
          AsksOfMore(runs[..n], last, PhasesOfTakes(before, None)[k], Expand(runs)[k]);
          assert runs == runs[..n] + [last];
        } else {
          assert runs[n].step == Expand(runs)[k];
        }
      }
    }
  }

  /** For any list of steps: one frame each, in order, in the phase that asks for that step. */
  lemma CaptureAsksForEveryStep(steps: seq<Step>)
    ensures var runs := RunsOf(steps);
            var phases := PhasesOfTakes(ScriptOf(runs), None);
            |phases| == |steps| && forall k :: 0 <= k < |steps| ==> Asks(runs, phases[k], steps[k])
  {
    RunsExpandBack(steps);
    OneFrameForEachStep(RunsOf(steps));
  }

  lemma AsksOfMore(runs: seq<Run>, run: Run, phase: Option<Event>, step: Step)
    requires Asks(runs, phase, step)
    ensures Asks(runs + [run], phase, step)
  {
    var i :| 0 <= i < |runs| && runs[i].step == step && phase == Some(Announced(i, runs[i].step));
    assert (runs + [run])[i] == runs[i];
  }

  // ---- What is told around each movement ----

  /** The event at `p` stands where it belongs: a movement is counted down for two seconds and
    * announced, the tone sounds, its frames follow, then the chime and the end of that movement. */
  ghost predicate ToldAt(events: seq<Event>, p: nat)
    requires p < |events|
  {
    match events[p]
    case Prepare(i, step, seconds) =>
      || (seconds == 2 && p + 1 < |events| && events[p + 1] == Prepare(i, step, 1))
      || (seconds == 1 && p >= 1 && events[p - 1] == Prepare(i, step, 2)
          && p + 1 < |events| && events[p + 1] == Move(i, step))
    case Move(i, step) =>
      && p >= 1 && events[p - 1] == Prepare(i, step, 1)
      && p + 2 < |events| && events[p + 1] == Cue(Go) && events[p + 2] == Take
    case Cue(sound) =>
      if sound.Go? then p >= 1 && events[p - 1].Move?
      else p >= 1 && events[p - 1] == Take && p + 1 < |events| && events[p + 1].Done?
    case Done(i, step) => p >= 1 && events[p - 1] == Cue(Finished) && exists q: nat :: Ends(events, q, p, i, step)
    case Look(_) => p + 1 < |events| && events[p + 1] == Take
    case Take => p >= 1 && (events[p - 1] == Take || events[p - 1] == Cue(Go) || events[p - 1].Look?)
  }

  /** The movement that ends at `p` began at `q`, and nothing was announced between. */
  ghost predicate Ends(events: seq<Event>, q: nat, p: nat, i: nat, step: Step)
    requires p < |events|
  {
    q < p && events[q] == Move(i, step) && forall r :: q < r < p ==> !events[r].IsPhase()
  }

  ghost predicate WellTold(events: seq<Event>) {
    forall p :: 0 <= p < |events| ==> ToldAt(events, p)
  }

  lemma RunIsWellTold(index: nat, run: Run)
    requires run.count >= 1
    ensures WellTold(RunScript(index, run))
  {
    var events := RunScript(index, run);
    if IsMovement(run.step) {
      assert events[2] == Move(index, run.step);
      assert forall r :: 4 <= r < 4 + run.count ==> events[r] == Take;
      assert Ends(events, 2, 5 + run.count, index, run.step);
    } else {
      assert forall r :: 1 <= r < 1 + run.count ==> events[r] == Take;
    }
  }

  lemma ToldInMore(a: seq<Event>, b: seq<Event>, p: nat)
    requires WellTold(a) && WellTold(b) && p < |a + b|
    ensures ToldAt(a + b, p)
  {
    var events := a + b;
    if p < |a| {
      assert ToldAt(a, p) && events[p] == a[p];
      if a[p].Done? {
        var q: nat :| Ends(a, q, p, a[p].index, a[p].step);
        assert Ends(events, q, p, a[p].index, a[p].step);
      }
    } else {
      assert ToldAt(b, p - |a|) && events[p] == b[p - |a|];
      if events[p].Done? {
        var q: nat :| Ends(b, q, p - |a|, events[p].index, events[p].step);
        assert Ends(events, |a| + q, p, events[p].index, events[p].step);
      }
    }
  }

  /** Every movement of a capture is told whole and in order. */
  lemma {:induction false} ScriptIsWellTold(runs: seq<Run>)
    requires forall i :: 0 <= i < |runs| ==> runs[i].count >= 1
    ensures WellTold(ScriptOf(runs))
  {
    if runs != [] {
      var n := |runs| - 1;
      ScriptIsWellTold(runs[..n]);
      RunIsWellTold(n, runs[n]);
      forall p | 0 <= p < |ScriptOf(runs)| ensures ToldAt(ScriptOf(runs), p) {
        ToldInMore(ScriptOf(runs[..n]), RunScript(n, runs[n]), p);
      }
    }
  }

  lemma {:induction false} ScriptGrows(runs: seq<Run>, n: nat)
    requires n <= |runs|
    ensures ScriptOf(runs[..n]) <= ScriptOf(runs) && Expand(runs[..n]) <= Expand(runs)
  {
    if n == |runs| {
      assert runs[..n] == runs;
    } else {
      ScriptGrows(runs[..|runs| - 1], n);
      assert runs[..|runs| - 1][..n] == runs[..n];
    }
  }

  /** The capture stopped just before a frame of the script, the one that `step` asks for. */
  ghost predicate StopsBefore(events: seq<Event>, steps: seq<Step>, step: Step) {
    && EndsBeforeTake(events, ScriptOf(RunsOf(steps)))
    && CountTakes(events) < |steps| && steps[CountTakes(events)] == step
  }

  ghost predicate EndsBeforeTake(events: seq<Event>, script: seq<Event>) {
    events < script && script[|events|] == Take
  }

  /** Where a run was cut short after `taken` of its frames. */
  function PartOfRun(index: nat, run: Run, taken: nat): seq<Event> {
    Opening(index, run.step) + Takes(taken)
  }

  lemma CountInPart(index: nat, run: Run, taken: nat)
    ensures CountTakes(PartOfRun(index, run, taken)) == taken
  {
    PhaseOfOpening(index, run.step, None);
    PhasesDuringTakes(taken, LastPhase(Opening(index, run.step), None));
    PhasesOfConcatenation(Opening(index, run.step), Takes(taken), None);
  }

  lemma Regrouped(before: seq<Event>, opening: seq<Event>, some: seq<Event>, others: seq<Event>, closing: seq<Event>)
    ensures (before + (opening + some)) + (others + closing) == before + (opening + (some + others) + closing)
  {
  }

  lemma EndsBefore(part: seq<Event>, rest: seq<Event>)
    ensures part <= part + rest
    ensures rest != [] && rest[0] == Take ==> EndsBeforeTake(part, part + rest)
  {
  }

  lemma PartOfPrefix(part: seq<Event>, upTo: seq<Event>, script: seq<Event>)
    requires upTo <= script
    ensures part <= upTo ==> part <= script
    ensures EndsBeforeTake(part, upTo) ==> EndsBeforeTake(part, script)
  {
  }

  lemma NextScript(runs: seq<Run>, n: nat)
    requires n < |runs|
    ensures ScriptOf(runs[..n + 1]) == ScriptOf(runs[..n]) + RunScript(n, runs[n])
  {
    assert runs[..n + 1][..n] == runs[..n];
  }

  lemma TakesInTwo(some: nat, others: nat)
    ensures Takes(some + others) == Takes(some) + Takes(others)
    ensures others > 0 ==> Takes(others) != [] && Takes(others)[0] == Take
  {
  }

  /** What is left of a run after `taken` of its frames. */
  function RestOfRun(index: nat, run: Run, taken: nat): seq<Event>
    requires taken <= run.count
  {
    Takes(run.count - taken) + Closing(index, run.step)
  }

  lemma ScriptInTwo(before: seq<Event>, index: nat, run: Run, taken: nat)
    requires taken <= run.count
    ensures before + RunScript(index, run) == (before + PartOfRun(index, run, taken)) + RestOfRun(index, run, taken)
    ensures taken < run.count ==> RestOfRun(index, run, taken) != [] && RestOfRun(index, run, taken)[0] == Take
  {
    TakesInTwo(taken, run.count - taken);
    Regrouped(before, Opening(index, run.step), Takes(taken), Takes(run.count - taken), Closing(index, run.step));
  }

  lemma PartBelongs(runs: seq<Run>, n: nat, taken: nat)
    requires n < |runs| && taken <= runs[n].count
    ensures var part := ScriptOf(runs[..n]) + PartOfRun(n, runs[n], taken);
            && part <= ScriptOf(runs)
            && (taken < runs[n].count ==> EndsBeforeTake(part, ScriptOf(runs)))
  {
    var part, rest := ScriptOf(runs[..n]) + PartOfRun(n, runs[n], taken), RestOfRun(n, runs[n], taken);
    NextScript(runs, n);
    ScriptInTwo(ScriptOf(runs[..n]), n, runs[n], taken);
    EndsBefore(part, rest);
    ScriptGrows(runs, n + 1);
    PartOfPrefix(part, part + rest, ScriptOf(runs));
  }

  lemma StepOfPart(runs: seq<Run>, n: nat, taken: nat)
    requires n < |runs| && taken < runs[n].count
    ensures var k := |Expand(runs[..n])| + taken;
            k < |Expand(runs)| && Expand(runs)[k] == runs[n].step
  {
    assert runs[..n + 1][..n] == runs[..n];
    ScriptGrows(runs, n + 1);
  }

  lemma CountBeforeCut(runs: seq<Run>, n: nat, taken: nat)
    requires n < |runs|
    ensures CountTakes(ScriptOf(runs[..n]) + PartOfRun(n, runs[n], taken)) == |Expand(runs[..n])| + taken
  {
    TakesOfConcatenation(ScriptOf(runs[..n]), PartOfRun(n, runs[n], taken));
    OneFrameForEachStep(runs[..n]);
    CountInPart(n, runs[n], taken);
  }

  lemma StopsWhere(events: seq<Event>, runs: seq<Run>, steps: seq<Step>, step: Step, k: nat)
    requires runs == RunsOf(steps) && EndsBeforeTake(events, ScriptOf(runs))
    requires CountTakes(events) == k < |steps| && steps[k] == step
    ensures StopsBefore(events, steps, step)
  {
  }

  lemma CutShortAt(runs: seq<Run>, n: nat, taken: nat) returns (events: seq<Event>, k: nat)
    requires n < |runs| && taken < runs[n].count
    ensures events == ScriptOf(runs[..n]) + PartOfRun(n, runs[n], taken)
    ensures EndsBeforeTake(events, ScriptOf(runs)) && CountTakes(events) == k < |Expand(runs)|
    ensures Expand(runs)[k] == runs[n].step
  {
    events, k := ScriptOf(runs[..n]) + PartOfRun(n, runs[n], taken), |Expand(runs[..n])| + taken;
    PartBelongs(runs, n, taken);
    StepOfPart(runs, n, taken);
    CountBeforeCut(runs, n, taken);
  }

  /** A run cut short after `taken` frames: the missing frame's step is the run's. */
  lemma CutShort(steps: seq<Step>, n: nat, taken: nat)
    requires n < |RunsOf(steps)| && taken < RunsOf(steps)[n].count
    ensures var runs := RunsOf(steps);
            StopsBefore(ScriptOf(runs[..n]) + PartOfRun(n, runs[n], taken), steps, runs[n].step)
  {
    var runs := RunsOf(steps);
    RunsExpandBack(steps);
    var events, k := CutShortAt(runs, n, taken);
    StopsWhere(events, runs, steps, runs[n].step, k);
  }
}
