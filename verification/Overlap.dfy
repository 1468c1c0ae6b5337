/** Calls, pairings and heartbeats that overlap: a kiosk runs from one await to the next, and in
  * between any other task may run, or the power may go. */
module Overlap {
  import opened Results
  import opened Storage
  import opened Device

  /** What a task waits for, and the pairing it was sent under. */
  datatype Waiting =
    | ForPairing
    | ForToken(heartbeat: bool, attempt: nat, sentAs: Option<Credentials>)
    | ForAnswer(heartbeat: bool, attempt: nat, sentAs: Option<Credentials>)

  /** `owner`: the pairing the cached token was granted to. */
  datatype State = State(memory: Memory, owner: Option<Credentials>, stored: Option<Credentials>, now: real,
                         tasks: map<nat, Waiting>)

  datatype Event =
    | BeginPairing(id: nat)
    | BeginCall(id: nat, heartbeat: bool)
    | Resume(id: nat, reply: Reply)
    | Pass(seconds: real)
    | PowerCut
    | PowerCutWithin(id: nat, reply: Reply, written: bool)

  /** What a stretch without an await leaves: in memory, on disk, and to wait for. */
  datatype Effect = Effect(memory: Memory, owner: Option<Credentials>, stored: Option<Credentials>,
                           next: Option<Waiting>)

  function Nothing(s: State): Effect {
    Effect(s.memory, s.owner, s.stored, None)
  }

  /** Asking for a token, up to the request it leads to. */
  function Asking(s: State, m: Memory, heartbeat: bool, attempt: nat): Effect {
    if Cached(m, s.now).Some? then Effect(m, s.owner, s.stored, Some(ForAnswer(heartbeat, attempt, m.credentials)))
    else if m.credentials.None? then Effect(m, s.owner, s.stored, None)
    else Effect(m, s.owner, s.stored, Some(ForToken(heartbeat, attempt, m.credentials)))
  }

  function AfterPairing(s: State, answer: Answer): Effect {
    Effect(OnPair(s.memory, answer), s.owner,
           if answer.status == 200 && answer.body.credentials.Some? then answer.body.credentials else s.stored,
           None)
  }

  /** A grant: its token is cached, whatever else the answer lacks. */
  predicate IsGrant(answer: Answer) {
    answer.status == 200 && answer.body.token.Some?
  }

  function AfterToken(s: State, heartbeat: bool, attempt: nat, sentAs: Option<Credentials>, answer: Answer): Effect {
    Effect(OnToken(s.memory, answer, s.now),
           if IsGrant(answer) then sentAs else s.owner,
           if answer.status == 401 then None else s.stored,
           if TokenResult(answer).Success? then Some(ForAnswer(heartbeat, attempt, sentAs)) else None)
  }

  function AfterAnswer(s: State, heartbeat: bool, attempt: nat, answer: Answer): Effect {
    if answer.status != 401 then
      Effect(if heartbeat then OnHeartbeat(s.memory, answer) else s.memory, s.owner, s.stored, None)
    else if attempt >= 1 then
      Effect(OnRefusal(s.memory, true), s.owner, None, None)
    else
      Asking(s, OnRefusal(s.memory, false), heartbeat, 1)
  }

  function Resumed(s: State, waiting: Waiting, reply: Reply): Effect {
    match reply
    case Down => Nothing(s)
    case Answered(answer) =>
      match waiting
      case ForPairing => AfterPairing(s, answer)
      case ForToken(heartbeat, attempt, sentAs) => AfterToken(s, heartbeat, attempt, sentAs, answer)
      case ForAnswer(heartbeat, attempt, _) => AfterAnswer(s, heartbeat, attempt, answer)
  }

  function Put(tasks: map<nat, Waiting>, id: nat, next: Option<Waiting>): map<nat, Waiting> {
    if next.Some? then tasks[id := next.value] else tasks - {id}
  }

  function Taken(s: State, id: nat, effect: Effect): State {
    State(effect.memory, effect.owner, effect.stored, s.now, Put(s.tasks, id, effect.next))
  }

  /** A process that starts: it reads the disk and knows nothing else. */
  function Started(stored: Option<Credentials>, now: real): State {
    State(Memory(stored, NO_CONFIG, None, 0.0), None, stored, now, map[])
  }

  predicate Possible(s: State, e: Event) {
    match e
    case BeginPairing(id) => id !in s.tasks
    case BeginCall(id, _) => id !in s.tasks
    case Resume(id, _) => id in s.tasks
    case Pass(seconds) => seconds >= 0.0
    case PowerCut => true
    case PowerCutWithin(id, _, _) => id in s.tasks
  }

  function Next(s: State, e: Event): State
    requires Possible(s, e)
  {
    match e
    case BeginPairing(id) => Taken(s, id, Nothing(s).(next := Some(ForPairing)))
    case BeginCall(id, heartbeat) => Taken(s, id, Asking(s, s.memory, heartbeat, 0))
    case Resume(id, reply) => Taken(s, id, Resumed(s, s.tasks[id], reply))
    case Pass(seconds) => s.(now := s.now + seconds)
    case PowerCut => Started(s.stored, s.now)
    case PowerCutWithin(id, reply, written) =>
      Started(if written then Resumed(s, s.tasks[id], reply).stored else s.stored, s.now)
  }

  /** A call that begins: with the token cached, while that lasts, or else with a request for one;
    * an unpaired kiosk sends nothing. */
  lemma CallsBegin(s: State, id: nat, heartbeat: bool)
    requires id !in s.tasks
    ensures var t, m := Next(s, BeginCall(id, heartbeat)), s.memory;
            var lasting := m.token.Some? && m.token.value != "" && s.now < m.tokenExpires;
            && t.memory == m && t.stored == s.stored && t.owner == s.owner
            && (lasting ==> t.tasks == s.tasks[id := ForAnswer(heartbeat, 0, m.credentials)])
            && (!lasting && m.credentials.Some? ==> t.tasks == s.tasks[id := ForToken(heartbeat, 0, m.credentials)])
            && (!lasting && m.credentials.None? ==> t.tasks == s.tasks)
  {
  }

  /** A token that is granted with its lifetime leads to the request it was for; any other answer
    * ends the task. */
  lemma TokensLeadOn(s: State, id: nat, answer: Answer)
    requires id in s.tasks && s.tasks[id].ForToken?
    ensures var t, was, body := Next(s, Resume(id, Answered(answer))), s.tasks[id], answer.body;
            if answer.status == 200 && body.token.Some? && body.expiresIn.Some? then
              && t.tasks == s.tasks[id := ForAnswer(was.heartbeat, was.attempt, was.sentAs)]
              && t.memory.token == body.token && t.owner == was.sentAs && t.memory.credentials == s.memory.credentials
            else t.tasks == s.tasks - {id}
  {
  }

  /** A first refusal is followed by a request for a new token, as whoever the kiosk is by then; any
    * other answer ends the task, and one to a report brings its settings. */
  lemma AnswersLeadOn(s: State, id: nat, answer: Answer)
    requires id in s.tasks && s.tasks[id].ForAnswer?
    ensures var t, was, m := Next(s, Resume(id, Answered(answer))), s.tasks[id], s.memory;
            if answer.status != 401 then
              && t.tasks == s.tasks - {id} && t.stored == s.stored
              && t.memory == if was.heartbeat && answer.status == 200 && answer.body.config.Some?
                             then Memory(m.credentials, answer.body.config.value, m.token, m.tokenExpires) else m
            else if was.attempt == 0 then
              && t.memory == Memory(m.credentials, m.config, None, m.tokenExpires) && t.stored == s.stored
              && t.tasks == if m.credentials.Some? then s.tasks[id := ForToken(was.heartbeat, 1, m.credentials)]
                            else s.tasks - {id}
            else
              && t.tasks == s.tasks - {id} && t.memory.credentials == None && t.stored == None
  {
  }

  /** The power may go at any time, within a step or between two: the process starts again from what
    * is on disk, with no token, no settings and no task. */
  lemma PowerMayGo(s: State, id: nat, reply: Reply, written: bool)
    ensures Possible(s, PowerCut)
            && Next(s, PowerCut) == State(Memory(s.stored, NO_CONFIG, None, 0.0), None, s.stored, s.now, map[])
    ensures id in s.tasks ==>
              var cut := PowerCutWithin(id, reply, written);
              var disk := if written then Next(s, Resume(id, reply)).stored else s.stored;
              && Possible(s, cut)
              && Next(s, cut) == State(Memory(disk, NO_CONFIG, None, 0.0), None, disk, s.now, map[])
  {
  }

  /** Any time may pass, and nothing else changes meanwhile. */
  lemma TimePasses(s: State, seconds: real)
    requires seconds >= 0.0
    ensures Possible(s, Pass(seconds))
    ensures Next(s, Pass(seconds)) == State(s.memory, s.owner, s.stored, s.now + seconds, s.tasks)
  {
  }

  ghost predicate Runs(s: State, events: seq<Event>)
    decreases |events|
  {
    events != [] ==> Possible(s, events[0]) && Runs(Next(s, events[0]), events[1..])
  }

  function After(s: State, events: seq<Event>): State
    requires Runs(s, events)
    decreases |events|
  {
    if events == [] then s else After(Next(s, events[0]), events[1..])
  }

  // ---- The disk and memory agree ----

  ghost predicate Agrees(s: State) {
    s.stored == s.memory.credentials
  }

  lemma EffectsAgree(s: State, waiting: Waiting, reply: Reply)
    requires Agrees(s)
    ensures Resumed(s, waiting, reply).stored == Resumed(s, waiting, reply).memory.credentials
  {
  }

  /** Whatever overlaps, and whenever the power goes, what is stored is what is in memory
    * each time every task waits. */
  lemma {:induction false} StoredIsWhatIsKnown(s: State, events: seq<Event>)
    requires Agrees(s) && Runs(s, events)
    ensures Agrees(After(s, events))
    decreases |events|
  {
    if events != [] {
      var e := events[0];
      if e.Resume? {
        EffectsAgree(s, s.tasks[e.id], e.reply);
      }
      StoredIsWhatIsKnown(Next(s, e), events[1..]);
    }
  }

  // ---- What overlapping breaks ----

  /** A cached token was granted to the pairing that stands; an unpaired kiosk has none. */
  ghost predicate OwnToken(s: State) {
    s.memory.token.Some? ==> s.memory.credentials.Some? && s.owner == s.memory.credentials
  }

  /** A token granted after the pairing it was asked for is gone, or another has taken its place. */
  predicate LateGrant(s: State, e: Event)
    requires Possible(s, e)
  {
    && e.Resume? && s.tasks[e.id].ForToken? && e.reply.Answered? && IsGrant(e.reply.answer)
    && (s.memory.credentials.None? || s.tasks[e.id].sentAs != s.memory.credentials)
  }

  /** A kiosk comes to hold a token that is not its pairing's in exactly one way. */
  lemma OnlyALateGrantOutlivesThePairing(s: State, e: Event)
    requires OwnToken(s) && Possible(s, e)
    ensures OwnToken(Next(s, e)) <==> !LateGrant(s, e)
  {
  }

  /** An answer that refuses the kiosk and was acted on. */
  predicate Refuses(s: State, e: Event)
    requires Possible(s, e)
  {
    && (e.Resume? || (e.PowerCutWithin? && e.written))
    && e.reply.Answered? && e.reply.answer.status == 401
    && (s.tasks[e.id].ForToken? || (s.tasks[e.id].ForAnswer? && s.tasks[e.id].attempt >= 1))
  }

  /** Only the token endpoint's refusal, or a second one, ever costs a pairing. */
  lemma OnlyARefusalDropsThePairing(s: State, e: Event)
    requires Agrees(s) && Possible(s, e) && s.memory.credentials.Some?
    ensures Next(s, e).memory.credentials.None? <==> Refuses(s, e)
  {
  }

  /** The refusal of a request sent under a pairing that no longer stands. */
  predicate LateRefusal(s: State, e: Event)
    requires Possible(s, e)
  {
    Refuses(s, e) && s.tasks[e.id].sentAs != s.memory.credentials
  }

  /** The pairing that stands is dropped, though no request under it was refused. */
  ghost predicate ForgetsAnother(s: State, e: Event)
    requires Possible(s, e)
  {
    && s.memory.credentials.Some? && Next(s, e).memory.credentials.None?
    && !(Refuses(s, e) && s.tasks[e.id].sentAs == s.memory.credentials)
  }

  /** A pairing is lost to an older request in exactly one way. */
  lemma OnlyALateRefusalForgetsAnother(s: State, e: Event)
    requires Agrees(s) && Possible(s, e)
    ensures ForgetsAnother(s, e) <==> s.memory.credentials.Some? && LateRefusal(s, e)
  {
    if s.memory.credentials.Some? {
      OnlyARefusalDropsThePairing(s, e);
    }
  }

  const OLD := Credentials("a", "b", "c")
  const NEW := Credentials("d", "e", "f")
  const REFUSAL := Answered(Answer(401, Body(None, None, None, None)))

  /** Two calls ask for a token; one is refused, and then the other is granted. */
  lemma AnUnpairedKioskMayHoldAToken(token: string, now: real)
    ensures var grant := Answered(Answer(200, Body(None, Some(token), Some(600.0), None)));
            var events := [BeginCall(0, false), BeginCall(1, false), Resume(0, REFUSAL), Resume(1, grant)];
            && Runs(Started(Some(OLD), now), events)
            && var s := After(Started(Some(OLD), now), events);
               s.memory.credentials.None? && s.memory.token == Some(token)
  {
    var grant := Answered(Answer(200, Body(None, Some(token), Some(600.0), None)));
    var s0 := Started(Some(OLD), now);
    var e0, e1, e2, e3 := BeginCall(0, false), BeginCall(1, false), Resume(0, REFUSAL), Resume(1, grant);
    var s1 := Next(s0, e0);
    var s2 := Next(s1, e1);
    var s3 := Next(s2, e2);
    assert [e0, e1, e2, e3][1..] == [e1, e2, e3];
    assert [e1, e2, e3][1..] == [e2, e3];
    assert [e2, e3][1..] == [e3];
    assert [e3][1..] == [];
    assert Runs(Next(s3, e3), []);
    assert Runs(s3, [e3]) && After(s3, [e3]) == Next(s3, e3);
    assert Runs(s2, [e2, e3]) && After(s2, [e2, e3]) == Next(s3, e3);
    assert Runs(s1, [e1, e2, e3]) && After(s1, [e1, e2, e3]) == Next(s3, e3);
  }

  /** A call asks for a token, the kiosk is paired anew, and the old secret is refused. */
  lemma ANewPairingMayBeForgotten(now: real)
    ensures var paired := Answered(Answer(200, Body(Some(NEW), None, None, None)));
            var events := [BeginCall(0, false), BeginPairing(1), Resume(1, paired)];
            && Runs(Started(Some(OLD), now), events)
            && var s := After(Started(Some(OLD), now), events);
               && s.memory.credentials == Some(NEW)
               && Possible(s, Resume(0, REFUSAL)) && Next(s, Resume(0, REFUSAL)).memory.credentials == None
  {
    var paired := Answered(Answer(200, Body(Some(NEW), None, None, None)));
    var s0 := Started(Some(OLD), now);
    var e0, e1, e2 := BeginCall(0, false), BeginPairing(1), Resume(1, paired);
    var s1 := Next(s0, e0);
    var s2 := Next(s1, e1);
    assert [e0, e1, e2][1..] == [e1, e2];
    assert [e1, e2][1..] == [e2];
    assert [e2][1..] == [];
    assert Runs(Next(s2, e2), []);
    assert Runs(s2, [e2]) && After(s2, [e2]) == Next(s2, e2);
    assert Runs(s1, [e1, e2]) && After(s1, [e1, e2]) == Next(s2, e2);
  }

  /** A call asks for a token, the kiosk is paired anew, and then the old pairing's grant arrives. */
  lemma ATokenMayBeAnotherPairings(token: string, now: real)
    ensures var paired := Answered(Answer(200, Body(Some(NEW), None, None, None)));
            var grant := Answered(Answer(200, Body(None, Some(token), Some(600.0), None)));
            var events := [BeginCall(0, false), BeginPairing(1), Resume(1, paired), Resume(0, grant)];
            && Runs(Started(Some(OLD), now), events)
            && var s := After(Started(Some(OLD), now), events);
               s.memory.credentials == Some(NEW) && s.memory.token == Some(token) && s.owner == Some(OLD)
  {
    var paired := Answered(Answer(200, Body(Some(NEW), None, None, None)));
    var grant := Answered(Answer(200, Body(None, Some(token), Some(600.0), None)));
    var s0 := Started(Some(OLD), now);
    var e0, e1, e2, e3 := BeginCall(0, false), BeginPairing(1), Resume(1, paired), Resume(0, grant);
    var s1 := Next(s0, e0);
    var s2 := Next(s1, e1);
    var s3 := Next(s2, e2);
    assert [e0, e1, e2, e3][1..] == [e1, e2, e3];
    assert [e1, e2, e3][1..] == [e2, e3];
    assert [e2, e3][1..] == [e3];
    assert [e3][1..] == [];
    assert Runs(Next(s3, e3), []);
    assert Runs(s3, [e3]) && After(s3, [e3]) == Next(s3, e3);
    assert Runs(s2, [e2, e3]) && After(s2, [e2, e3]) == Next(s3, e3);
    assert Runs(s1, [e1, e2, e3]) && After(s1, [e1, e2, e3]) == Next(s3, e3);
  }

  // ---- What it takes ----

  /** No call or pairing begins while another waits. */
  predicate InTurn(s: State, e: Event) {
    e.BeginPairing? || e.BeginCall? ==> s.tasks == map[]
  }

  ghost predicate AllInTurn(s: State, events: seq<Event>)
    requires Runs(s, events)
    decreases |events|
  {
    events != [] ==> InTurn(s, events[0]) && AllInTurn(Next(s, events[0]), events[1..])
  }

  /** One task at most, and it was sent under the pairing that stands. */
  ghost predicate Orderly(s: State) {
    && OwnToken(s) && Agrees(s)
    && (forall i, j :: i in s.tasks && j in s.tasks ==> i == j)
    && (forall i :: i in s.tasks && !s.tasks[i].ForPairing?
          ==> s.tasks[i].sentAs.Some? && s.tasks[i].sentAs == s.memory.credentials)
  }

  lemma StaysOrderly(s: State, e: Event)
    requires Orderly(s) && Possible(s, e) && InTurn(s, e)
    ensures Orderly(Next(s, e))
  {
  }

  /** One at a time, a token is always the standing pairing's, and a pairing is only ever lost to a
    * refusal of a request sent under it. */
  lemma {:induction false} OneAtATime(s: State, events: seq<Event>, e: Event)
    requires Orderly(s) && Runs(s, events) && AllInTurn(s, events) && Possible(After(s, events), e)
    ensures var t := After(s, events);
            OwnToken(t) && !LateGrant(t, e) && !ForgetsAnother(t, e)
    decreases |events|
  {
    if events != [] {
      StaysOrderly(s, events[0]);
      OneAtATime(Next(s, events[0]), events[1..], e);
    } else {
      OnlyALateRefusalForgetsAnother(s, e);
    }
  }
}
