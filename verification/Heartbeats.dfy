/** Reporting in to IDEN every so often, and at once after a wake-up. */
module Heartbeats {
  import opened Results
  import opened Device

  const RETRY_SECONDS := 15.0

  /** How a heartbeat ends, but for a cancellation. */
  datatype Outcome = Reported | WasNotPaired | WasUnreachable | Failed

  /** Where the loop is: about to start, in a heartbeat with the delay read before it, in a wait
    * with so many seconds left (or none set), or no longer running. */
  datatype Place = Top | Beating(delay: Beat) | Waiting(left: Option<real>) | Ended | Cancelled

  /** `owed`: the wake-up was set, and no heartbeat has started since. `waited`: the seconds spent
    * in timed waits since then. */
  datatype State = State(at: Place, flag: bool, config: Config, beats: nat, owed: bool, waited: real)

  datatype Event =
    | Wake
    | Configure(config: Config)
    | Start
    | Finish(outcome: Outcome)
    | Release
    | Expire
    | Pass(seconds: real)
    | Cancel

  function Delay(delay: Beat, outcome: Outcome): Beat {
    if outcome.WasUnreachable? || outcome.Failed? then Every(RETRY_SECONDS) else delay
  }

  /** The wait that follows a heartbeat; one that is already over, or was woken, is none. */
  function Wait(delay: Beat, flag: bool): Place {
    match delay
    case Odd => Ended
    case Null => if flag then Top else Waiting(None)
    case Unsaid => if flag then Top else Waiting(Some(DEFAULT_HEARTBEAT_SECONDS))
    case Every(seconds) => if flag || seconds <= 0.0 then Top else Waiting(Some(seconds))
  }

  /** What a heartbeat's end leaves to wait: fifteen seconds after a failure, and otherwise what the
    * settings say, a minute where they say nothing; nothing at all once woken. */
  lemma WaitAfterBeat(delay: Beat, outcome: Outcome, flag: bool)
    ensures var next, failed := Wait(Delay(delay, outcome), flag), outcome.WasUnreachable? || outcome.Failed?;
            && (failed ==> next == if flag then Top else Waiting(Some(15.0)))
            && (!failed ==> (next == Ended <==> delay == Odd))
            && (!failed && flag && delay != Odd ==> next == Top)
            && (!failed && !flag && delay == Unsaid ==> next == Waiting(Some(60.0)))
            && (!failed && !flag && delay == Null ==> next == Waiting(None))
            && (!failed && !flag && delay.Every? ==>
                  next == if delay.seconds > 0.0 then Waiting(Some(delay.seconds)) else Top)
  {
  }

  /** The loop runs as soon as it can: time passes only while it awaits something. */
  predicate Possible(s: State, e: Event) {
    match e
    case Wake => true
    case Configure(_) => true
    case Start => s.at.Top?
    case Finish(_) => s.at.Beating?
    case Release => s.at.Waiting? && s.flag
    case Expire => s.at.Waiting? && s.at.left == Some(0.0)
    case Pass(seconds) =>
      && seconds >= 0.0
      && (s.at.Beating?
          || (s.at.Waiting? && !s.flag && (s.at.left.Some? ==> seconds <= s.at.left.value)))
    case Cancel => s.at.Beating? || s.at.Waiting?
  }

  function Next(s: State, e: Event): State
    requires Possible(s, e)
  {
    match e
    case Wake => if s.owed then s.(flag := true) else s.(flag := true, owed := true, waited := 0.0)
    case Configure(config) => s.(config := config)
    case Start =>
      if s.config.NotAnObject? then s.(flag := false, at := Ended)
      else s.(flag := false, at := Beating(s.config.beat), beats := s.beats + 1, owed := false, waited := 0.0)
    case Finish(outcome) => s.(at := Wait(Delay(s.at.delay, outcome), s.flag))
    case Release => s.(at := Top)
    case Expire => s.(at := Top)
    case Pass(seconds) =>
      if s.at.Beating? then s
      else s.(at := Waiting(if s.at.left.None? then None else Some(s.at.left.value - seconds)),
              waited := s.waited + seconds)
    case Cancel => s.(at := Cancelled)
  }

  ghost predicate Runs(s: State, events: seq<Event>)
    decreases |events|
  {
    events != [] ==> Possible(s, events[0]) && Runs(Next(s, events[0]), events[1..])
  }

  function After(s: State, events: seq<Event>): State
    requires Runs(s, events)
    decreases |events|
  {
    if events == [] then s else After(Next(s, events[0]), events[1..])
  }

  function Fresh(config: Config): State {
    State(Top, false, config, 0, false, 0.0)
  }

  predicate Running(s: State) {
    !s.at.Ended? && !s.at.Cancelled?
  }

  /** What happens around the loop: a wake-up and new settings at any time, a cancellation while
    * something is awaited, and time, which only passes in a wait until that is over or woken. */
  lemma AroundTheLoop(s: State, config: Config, seconds: real)
    ensures Possible(s, Wake) && Next(s, Wake).flag && Next(s, Wake).owed && Next(s, Wake).at == s.at
    ensures !s.owed ==> Next(s, Wake).waited == 0.0
    ensures Possible(s, Configure(config)) && Next(s, Configure(config)) == s.(config := config)
    ensures Possible(s, Cancel) <==> s.at.Beating? || s.at.Waiting?
    ensures Possible(s, Cancel) ==> Next(s, Cancel).at == Cancelled
    ensures s.at.Waiting? ==>
      (Possible(s, Pass(seconds)) <==> seconds >= 0.0 && !s.flag && (s.at.left.Some? ==> seconds <= s.at.left.value))
    ensures s.at.Waiting? && Possible(s, Pass(seconds)) ==> Next(s, Pass(seconds)).waited == s.waited + seconds
  {
  }

  // ---- No lost wake-up ----

  /** An unserved wake-up still holds the flag, but for the moment before the next start, and
    * no timed wait has passed since it was set. */
  ghost predicate Remembers(s: State) {
    s.owed && Running(s) ==> s.waited == 0.0 && (s.flag || s.at.Top?)
  }

  lemma StepRemembers(s: State, e: Event)
    requires Remembers(s) && Possible(s, e)
    ensures Remembers(Next(s, e))
  {
  }

  /** However wake-ups, answers and time interleave, no wait begins or goes on while one is owed. */
  lemma {:induction false} NoWaitWhileOwed(s: State, events: seq<Event>)
    requires Remembers(s) && Runs(s, events)
    ensures var t := After(s, events);
            Remembers(t) && (t.owed && t.at.Waiting? ==> forall seconds :: !Possible(t, Pass(seconds)))
    decreases |events|
  {
    if events != [] {
      StepRemembers(s, events[0]);
      NoWaitWhileOwed(Next(s, events[0]), events[1..]);
    }
  }

  /** The loop's own steps, as opposed to what happens around it. */
  predicate IsStep(e: Event) {
    e.Start? || e.Finish? || e.Release? || e.Expire?
  }

  function Steps(events: seq<Event>): nat {
    if events == [] then 0 else (if IsStep(events[0]) then 1 else 0) + Steps(events[1..])
  }

  /** How many steps of the loop a heartbeat is away, once a wake-up is owed. */
  function Distance(s: State): nat {
    match s.at
    case Top => 1
    case Beating(_) => 2
    case Waiting(_) => 2
    case Ended => 0
    case Cancelled => 0
  }

  lemma StepGetsCloser(s: State, e: Event)
    requires Remembers(s) && Running(s) && s.owed && Possible(s, e)
    ensures var t := Next(s, e);
            || !Running(t)
            || t.beats > s.beats
            || (t.owed && t.beats == s.beats && Distance(t) + (if IsStep(e) then 1 else 0) <= Distance(s))
  {
  }

  lemma {:induction false} BeatsOnlyGrow(s: State, events: seq<Event>)
    requires Runs(s, events)
    ensures After(s, events).beats >= s.beats
    ensures !Running(s) ==> !Running(After(s, events))
    decreases |events|
  {
    if events != [] {
      BeatsOnlyGrow(Next(s, events[0]), events[1..]);
    }
  }

  /** After a wake-up the next heartbeat starts within two steps of the loop, neither of which
    * is a timed wait. */
  lemma {:induction false} OwedHeartbeatComes(s: State, events: seq<Event>)
    requires Remembers(s) && s.owed && Runs(s, events) && Running(After(s, events))
    requires Steps(events) >= Distance(s)
    ensures After(s, events).beats > s.beats
    decreases |events|
  {
    if !Running(s) {
      BeatsOnlyGrow(s, events);
    } else if events != [] {
      StepRemembers(s, events[0]);
      StepGetsCloser(s, events[0]);
      BeatsOnlyGrow(Next(s, events[0]), events[1..]);
      if Next(s, events[0]).beats == s.beats && Running(Next(s, events[0])) {
        OwedHeartbeatComes(Next(s, events[0]), events[1..]);
      }
    }
  }

  lemma {:induction false} FlagStays(s: State, events: seq<Event>)
    requires Runs(s, events) && s.flag && Start !in events
    ensures After(s, events).flag
    decreases |events|
  {
    if events != [] {
      assert events[0] in events && forall e :: e in events[1..] ==> e in events;
      FlagStays(Next(s, events[0]), events[1..]);
    }
  }

  /** From a wake-up to the next heartbeat no time passes in a wait, in whatever state it comes. */
  lemma WokenNeverWaits(s: State, events: seq<Event>, seconds: real)
    requires Runs(s, [Wake] + events) && Start !in events
    ensures var t := After(s, [Wake] + events);
            t.at.Waiting? ==> Possible(t, Release) && !Possible(t, Pass(seconds))
  {
    assert ([Wake] + events)[1..] == events;
    FlagStays(Next(s, Wake), events);
  }

  /** And that heartbeat comes within two steps of the loop. */
  lemma WakeUpsAreServed(s: State, events: seq<Event>)
    requires Remembers(s) && Runs(s, [Wake] + events) && Running(After(s, [Wake] + events)) && Steps(events) >= 2
    ensures After(s, [Wake] + events).beats > s.beats
  {
    assert ([Wake] + events)[1..] == events;
    StepRemembers(s, Wake);
    OwedHeartbeatComes(Next(s, Wake), events);
  }

  // ---- What ends the loop ----

  /** Settings the loop can read its delay from. */
  predicate Readable(config: Config) {
    config.Settings? && !config.beat.Odd?
  }

  /** No way a heartbeat ends, and no setting but an unreadable one, ends the loop. */
  lemma OnlyUnreadableSettingsEndTheLoop(s: State, e: Event)
    requires Running(s) && Possible(s, e)
    ensures Next(s, e).at.Ended? <==>
      || (e.Start? && s.config.NotAnObject?)
      || (e.Finish? && s.at.delay.Odd? && (e.outcome.Reported? || e.outcome.WasNotPaired?))
  {
  }

  /** A report answered with settings that are not an object: the loop ends at its next turn. */
  lemma UnreadableSettingsEndIt(seconds: real)
    requires seconds > 0.0
    ensures var events := [Start, Configure(NotAnObject), Finish(Reported), Pass(seconds), Expire, Start];
            var s := Fresh(Settings(None, Every(seconds)));
            Runs(s, events) && After(s, events).at.Ended? && After(s, events).beats == 1
  {
    var s0 := Fresh(Settings(None, Every(seconds)));
    var s2 := Next(Next(s0, Start), Configure(NotAnObject));
    UnreadableEnds(s2, seconds);
    var rest := [Finish(Reported), Pass(seconds), Expire, Start];
    AfterFirst(Next(s0, Start), Configure(NotAnObject), rest);
    AfterFirst(s0, Start, [Configure(NotAnObject)] + rest);
    assert [Start] + ([Configure(NotAnObject)] + rest)
        == [Start, Configure(NotAnObject), Finish(Reported), Pass(seconds), Expire, Start];
  }

  lemma UnreadableEnds(s: State, seconds: real)
    requires seconds > 0.0 && s.at == Beating(Every(seconds)) && !s.flag && s.config.NotAnObject?
    ensures var events := [Finish(Reported), Pass(seconds), Expire, Start];
            Runs(s, events) && After(s, events).at.Ended? && After(s, events).beats == s.beats
  {
    var s1 := Next(s, Finish(Reported));
    var s2 := Next(s1, Pass(seconds));
    var s3 := Next(s2, Expire);
    assert [Start] + [] == [Start] && [Expire] + [Start] == [Expire, Start];
    AfterFirst(s3, Start, []);
    AfterFirst(s2, Expire, [Start]);
    AfterFirst(s1, Pass(seconds), [Expire, Start]);
    assert [Pass(seconds)] + [Expire, Start] == [Pass(seconds), Expire, Start];
    AfterFirst(s, Finish(Reported), [Pass(seconds), Expire, Start]);
    assert [Finish(Reported)] + [Pass(seconds), Expire, Start] == [Finish(Reported), Pass(seconds), Expire, Start];
  }

  lemma AfterFirst(s: State, e: Event, events: seq<Event>)
    requires Possible(s, e) && Runs(Next(s, e), events)
    ensures Runs(s, [e] + events) && After(s, [e] + events) == After(Next(s, e), events)
  {
    assert ([e] + events)[1..] == events;
  }

  ghost predicate AllReadable(events: seq<Event>) {
    forall i :: 0 <= i < |events| && events[i].Configure? ==> Readable(events[i].config)
  }

  /** With settings it can read, only a cancellation stops it. */
  lemma {:induction false} RunsUntilCancelled(s: State, events: seq<Event>)
    requires Running(s) && Readable(s.config) && (s.at.Beating? ==> !s.at.delay.Odd?)
    requires Runs(s, events) && AllReadable(events)
    ensures !After(s, events).at.Ended?
    ensures Cancel !in events ==> Running(After(s, events))
    decreases |events|
  {
    if events != [] {
      var t := Next(s, events[0]);
      assert events == [events[0]] + events[1..];
      if Running(t) {
        RunsUntilCancelled(t, events[1..]);
      } else {
        StaysCancelled(t, events[1..]);
      }
    }
  }

  lemma {:induction false} StaysCancelled(s: State, events: seq<Event>)
    requires s.at.Cancelled? && Runs(s, events)
    ensures After(s, events).at.Cancelled?
    decreases |events|
  {
    if events != [] {
      StaysCancelled(Next(s, events[0]), events[1..]);
    }
  }

  // ---- The loop ----

  type Seconds = x: real | x >= 0.0

  /** What happens around one turn of the loop: whether the wake-up is set during the heartbeat,
    * how that ends and with which settings, and when in the wait it is set. */
  datatype Turn = Turn(during: bool, config: Config, outcome: Outcome, woken: Option<Seconds>)

  /** The seconds spent in timed waits, over a run. */
  function Slept(s: State, events: seq<Event>): real
    requires Runs(s, events)
    decreases |events|
  {
    if events == [] then 0.0
    else (if events[0].Pass? && s.at.Waiting? then events[0].seconds else 0.0) + Slept(Next(s, events[0]), events[1..])
  }

  /** How long a turn waits: not at all once woken or over, and otherwise until the first of the
    * wake-up and the delay's end. */
  function Rests(delay: Beat, flag: bool, woken: Option<Seconds>): Option<Seconds> {
    match Wait(delay, flag)
    case Top => Some(0.0)
    case Waiting(left) =>
      if woken.Some? && (left.None? || woken.value < left.value) then woken
      else if left.Some? && left.value >= 0.0 then Some(left.value)
      else None
    case _ => None
  }

  function Total(waits: seq<Seconds>): real {
    if waits == [] then 0.0 else Total(waits[..|waits| - 1]) + waits[|waits| - 1]
  }

  /** The settings when the `k`-th turn began. */
  function SettingsAt(config: Config, turns: seq<Turn>, k: nat): Config
    requires k < |turns|
  {
    if k == 0 then config else turns[k - 1].config
  }

  /** The wait after a turn that began with these settings; none where they cannot be read or the
    * wait has no end. */
  function WaitAfter(config: Config, turn: Turn): Option<Seconds> {
    if config.NotAnObject? then None else Rests(Delay(config.beat, turn.outcome), turn.during, turn.woken)
  }

  /** Each turn waited as its settings, its outcome and the wake-up had it. */
  ghost predicate WaitsAre(config: Config, turns: seq<Turn>, waits: seq<Seconds>) {
    |waits| <= |turns|
    && forall k {:trigger waits[k]} :: 0 <= k < |waits| ==>
      WaitAfter(SettingsAt(config, turns, k), turns[k]) == Some(waits[k])
  }

  lemma OneMoreWait(config: Config, turns: seq<Turn>, waits: seq<Seconds>, waited: Seconds)
    requires WaitsAre(config, turns, waits) && |waits| < |turns|
    requires WaitAfter(SettingsAt(config, turns, |waits|), turns[|waits|]) == Some(waited)
    ensures WaitsAre(config, turns, waits + [waited]) && Total(waits + [waited]) == Total(waits) + waited
  {
    assert (waits + [waited])[..|waits|] == waits;
  }

  lemma {:induction false} SleptOneMore(s: State, events: seq<Event>, e: Event)
    requires Runs(s, events) && Possible(After(s, events), e) && Runs(s, events + [e])
    ensures Slept(s, events + [e])
         == Slept(s, events) + if e.Pass? && After(s, events).at.Waiting? then e.seconds else 0.0
    decreases |events|
  {
    if events == [] {
      assert [] + [e] == [e] && [e][1..] == [];
    } else {
      assert (events + [e])[1..] == events[1..] + [e];
      SleptOneMore(Next(s, events[0]), events[1..], e);
    }
  }

  lemma {:induction false} AfterOneMore(s: State, events: seq<Event>, e: Event)
    requires Runs(s, events) && Possible(After(s, events), e)
    ensures Runs(s, events + [e]) && After(s, events + [e]) == Next(After(s, events), e)
    decreases |events|
  {
    if events == [] {
      assert [] + [e] == [e] && [e][1..] == [];
      assert Runs(Next(s, e), []);
    } else {
      AfterOneMore(Next(s, events[0]), events[1..], e);
      assert (events + [e])[1..] == events[1..] + [e];
    }
  }

  /** The process that runs the loop, and the wake-up it shares with the pairing route. */
  class Loop {
    var wake: bool
    var config: Config
    ghost const start: State
    ghost var trace: seq<Event>
    ghost var state: State

    constructor (config: Config)
      ensures Valid() && this.config == config && state == Fresh(config) && trace == []
    {
      this.wake, this.config := false, config;
      start, state, trace := Fresh(config), Fresh(config), [];
    }

    /** The events so far lead to this state, which is the loop's own. */
    ghost predicate Valid()
      reads this
    {
      Runs(start, trace) && state == After(start, trace) && state.flag == wake && state.config == config
    }

    ghost method Note(e: Event)
      requires Runs(start, trace) && state == After(start, trace) && Possible(state, e)
      modifies this`trace, this`state
      ensures Runs(start, trace) && state == After(start, trace)
      ensures state == Next(old(state), e) && trace == old(trace) + [e]
      ensures Slept(start, trace) == old(Slept(start, trace))
                                  + if e.Pass? && old(state).at.Waiting? then e.seconds else 0.0
    {
      AfterOneMore(start, trace, e);
      SleptOneMore(start, trace, e);
      trace := trace + [e];
      state := Next(state, e);
    }

    /** One heartbeat; whether the loop goes on to wait, and for how long. */
    method Beat(turn: Turn) returns (goesOn: bool, delay: Device.Beat)
      requires Valid() && state.at.Top?
      modifies this
      ensures Valid() && goesOn == old(config).Settings? && Slept(start, trace) == old(Slept(start, trace))
      ensures !goesOn ==> state.at.Ended?
      ensures goesOn ==>
        && state.at == Beating(old(config).beat) && state.beats == old(state).beats + 1
        && delay == Delay(old(config).beat, turn.outcome) && wake == turn.during && config == turn.config
    {
      wake := false;
      Note(Start);
      if config.NotAnObject? {
        return false, Unsaid;
      }
      delay := config.beat;
      if turn.during {
        wake := true;
        Note(Wake);
      }
      config := turn.config;
      Note(Configure(turn.config));
      if turn.outcome.WasUnreachable? || turn.outcome.Failed? {
        delay := Every(RETRY_SECONDS);
      }
      goesOn := true;
    }

    /** A wait cut short by the wake-up; one without either end goes on for ever. */
    method Rest(delay: Device.Beat, turn: Turn) returns (waited: Option<Seconds>)
      requires Valid() && state.at.Beating? && delay == Delay(state.at.delay, turn.outcome)
      modifies this
      ensures Valid() && state.beats == old(state).beats && waited == Rests(delay, old(wake), turn.woken)
      ensures waited.Some? ==> state.at.Top? && Slept(start, trace) == old(Slept(start, trace)) + waited.value
      ensures waited.None? ==> state.at.Ended? || state.at == Waiting(None)
      ensures config == old(config)
    {
      Note(Finish(turn.outcome));
      match Wait(delay, wake) {
        case Top =>
          waited := Some(0.0);
        case Waiting(left) =>
          if turn.woken.Some? && (left.None? || turn.woken.value < left.value) {
            Note(Pass(turn.woken.value));
            wake := true;
            Note(Wake);
            Note(Release);
            waited := turn.woken;
          } else if left.Some? {
            Note(Pass(left.value));
            Note(Expire);
            waited := left;
          } else {
            waited := None;
          }
        case _ =>
          waited := None;
      }
    }

    /** One turn, and its wait; none where the turn is the last. */
    method Turned(turn: Turn) returns (waited: Option<Seconds>)
      requires Valid() && state.at.Top?
      modifies this
      ensures Valid() && waited == WaitAfter(old(config), turn)
      ensures waited.Some? ==>
        && state.at.Top? && state.beats == old(state).beats + 1 && config == turn.config
        && Slept(start, trace) == old(Slept(start, trace)) + waited.value
      ensures waited.None? ==> state.at.Ended? || state.at == Waiting(None)
    {
      var goesOn, delay := Beat(turn);
      if !goesOn {
        return None;
      }
      waited := Rest(delay, turn);
    }

    /** Turn after turn; the wait after each, which is all the time the loop sleeps. */
    method Run(turns: seq<Turn>) returns (waits: seq<Seconds>)
      requires Valid() && state.at.Top?
      modifies this
      ensures Valid() && |waits| <= |turns|
      ensures WaitsAre(old(config), turns, waits)
      ensures |waits| == |turns| ==>
        && state.at.Top? && state.beats == old(state).beats + |turns|
        && Slept(start, trace) == old(Slept(start, trace)) + Total(waits)
      ensures |waits| < |turns| ==>
        && WaitAfter(SettingsAt(old(config), turns, |waits|), turns[|waits|]).None?
        && (state.at.Ended? || state.at == Waiting(None))
    {
      waits := [];
      ghost var settings, slept := config, Slept(start, trace);
      for i := 0 to |turns|
        invariant Valid() && state.at.Top? && |waits| == i && state.beats == old(state).beats + i
        invariant config == if i == 0 then settings else turns[i - 1].config
        invariant Slept(start, trace) == slept + Total(waits)
        invariant WaitsAre(settings, turns, waits)
      {
        var waited := Turned(turns[i]);
        if waited.None? {
          return;
        }
        OneMoreWait(settings, turns, waits, waited.value);
        waits := waits + [waited.value];
      }
    }
  }

  /** A wake-up during the heartbeat leaves no wait after it, and one during the wait ends it. */
  lemma WokenTurnsAreShort(delay: Beat, turn: Turn)
    ensures turn.during && Rests(delay, true, turn.woken).Some? ==> Rests(delay, true, turn.woken).value == 0.0
    ensures turn.woken.Some? && Rests(delay, turn.during, turn.woken).Some? ==>
      Rests(delay, turn.during, turn.woken).value <= turn.woken.value
    ensures turn.woken.None? && !turn.during ==>
      Rests(delay, false, None) == match delay
                                   case Unsaid => Some(DEFAULT_HEARTBEAT_SECONDS)
                                   case Every(seconds) => Some(if seconds > 0.0 then seconds else 0.0)
                                   case _ => None
  {
  }
}
