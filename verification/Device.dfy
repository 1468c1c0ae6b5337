/** The kiosk process one call at a time: pairing, the token cache, the retried request and the
  * report. */
module Device {
  import opened Results
  import opened Storage

  const TOKEN_MARGIN_SECONDS := 30.0
  const DEFAULT_HEARTBEAT_SECONDS := 60.0

  type Latency = x: real | x >= 0.0

  /** How often to report in: not said, a number of seconds (a boolean is one to Python), null, or
    * something that is not compared with a number. */
  datatype Beat = Unsaid | Every(seconds: real) | Null | Odd

  /** The settings, as IDEN last sent them; any JSON is taken. */
  datatype Config = Settings(name: Option<string>, beat: Beat) | NotAnObject

  const NO_CONFIG := Settings(None, Unsaid)

  /** What can be read from an answer: each part may be missing. */
  datatype Body = Body(credentials: Option<Credentials>, token: Option<string>, expiresIn: Option<real>,
                       config: Option<Config>)

  datatype Answer = Answer(status: int, body: Body)

  datatype Reply = Down | Answered(answer: Answer)

  datatype Error = NotPaired | Unreachable | BadAnswer

  /** What the process keeps in memory. */
  datatype Memory = Memory(credentials: Option<Credentials>, config: Config, token: Option<string>, tokenExpires: real)

  // ---- What each answer does to memory ----

  function OnPair(m: Memory, answer: Answer): Memory {
    if answer.status == 200 && answer.body.credentials.Some?
    then m.(credentials := answer.body.credentials, config := NO_CONFIG, token := None)
    else m
  }

  function Forgotten(m: Memory): Memory {
    m.(credentials := None, config := NO_CONFIG, token := None)
  }

  /** The cached token, while it is worth sending; an empty one never is. */
  function Cached(m: Memory, now: real): Option<string> {
    if m.token.Some? && m.token.value != "" && now < m.tokenExpires then m.token else None
  }

  function OnToken(m: Memory, answer: Answer, now: real): Memory {
    if answer.status == 401 then Forgotten(m)
    else if answer.status != 200 || answer.body.token.None? then m
    else if answer.body.expiresIn.None? then m.(token := answer.body.token)
    else m.(token := answer.body.token, tokenExpires := now + answer.body.expiresIn.value - TOKEN_MARGIN_SECONDS)
  }

  /** What asking for a token comes to. */
  function TokenResult(answer: Answer): Result<string, Error> {
    if answer.status == 401 then Failure(NotPaired)
    else if answer.status != 200 then Failure(Unreachable)
    else if answer.body.token.None? || answer.body.expiresIn.None? then Failure(BadAnswer)
    else Success(answer.body.token.value)
  }

  function OnRefusal(m: Memory, second: bool): Memory {
    if second then Forgotten(m) else m.(token := None)
  }

  /** How a report fails: as the call does, or with a good answer that holds no settings. */
  function Reported(response: Result<Answer, Error>): Option<Error> {
    match response
    case Failure(error) => Some(error)
    case Success(answer) => if answer.status == 200 && answer.body.config.None? then Some(BadAnswer) else None
  }

  /** The settings after a report: those of a good answer, or else the ones before. */
  function Adopted(config: Config, response: Result<Answer, Error>): Config {
    match response
    case Failure(_) => config
    case Success(answer) =>
      if answer.status == 200 && answer.body.config.Some? then answer.body.config.value else config
  }

  /** A token endpoint's answer: a refusal forgets the pairing; a grant is cached until the margin
    * before its lifetime ends; one without a lifetime is cached too, though it is an error; and
    * anything else leaves memory as it was. */
  lemma TokenAnswers(m: Memory, answer: Answer, now: real)
    ensures var after, result, body := OnToken(m, answer, now), TokenResult(answer), answer.body;
            && (answer.status == 401 ==>
                  after == Memory(None, NO_CONFIG, None, m.tokenExpires) && result == Failure(NotPaired))
            && (answer.status == 200 && body.token.Some? ==>
                  && after.token == body.token && after.credentials == m.credentials && after.config == m.config
                  && (body.expiresIn.Some? ==>
                        after.tokenExpires == now + body.expiresIn.value - 30.0 && result == Success(body.token.value))
                  && (body.expiresIn.None? ==> after.tokenExpires == m.tokenExpires && result == Failure(BadAnswer)))
            && (answer.status == 200 && body.token.None? ==> after == m && result == Failure(BadAnswer))
            && (answer.status != 200 && answer.status != 401 ==> after == m && result == Failure(Unreachable))
  {
  }

  /** A cached token is sent again while it is not empty and its time has not come. */
  lemma CachedExactlyWhile(m: Memory, now: real, token: string)
    ensures Cached(m, now) == Some(token) <==> m.token == Some(token) && token != "" && now < m.tokenExpires
  {
  }

  /** A refusal costs the cached token, and a second one the pairing and its settings. */
  lemma RefusalsCost(m: Memory)
    ensures OnRefusal(m, false) == Memory(m.credentials, m.config, None, m.tokenExpires)
    ensures OnRefusal(m, true) == Memory(None, NO_CONFIG, None, m.tokenExpires)
  {
  }

  function OnHeartbeat(m: Memory, answer: Answer): Memory {
    m.(config := Adopted(m.config, Success(answer)))
  }

  // ---- Requests ----

  datatype Request = Pairing(code: string) | TokenFor(credentials: Credentials) | Resource(path: string, token: string)

  /** A request, when it was sent, what it was answered, and when. */
  datatype Exchange = Exchange(request: Request, sent: real, reply: Reply, received: real) {
    predicate Refused() {
      reply.Answered? && reply.answer.status == 401
    }

    /** A grant of this token, with its lifetime or without. */
    predicate Grants(token: string) {
      request.TokenFor? && reply.Answered? && reply.answer.status == 200 && reply.answer.body.token == Some(token)
    }

    /** When the token granted lapses at the earliest: it was issued no sooner than asked for. */
    function Lapses(): Option<real> {
      if reply.Answered? && reply.answer.body.expiresIn.Some?
          then Some(sent + reply.answer.body.expiresIn.value) else None
    }

    predicate Mints(token: string) {
      && request.TokenFor? && reply.Answered? && reply.answer.status == 200
      && reply.answer.body.token == Some(token) && reply.answer.body.expiresIn.Some?
    }
  }

  function CountTokens(log: seq<Exchange>): nat {
    if log == [] then 0 else CountTokens(log[..|log| - 1]) + if log[|log| - 1].request.TokenFor? then 1 else 0
  }

  function CountResources(log: seq<Exchange>): nat {
    if log == [] then 0 else CountResources(log[..|log| - 1]) + if log[|log| - 1].request.Resource? then 1 else 0
  }

  /** The last request but those of the token endpoint was refused, and so was one before it. */
  ghost predicate RefusedTwice(log: seq<Exchange>) {
    exists i, j :: 0 <= i < j < |log| && Refusal(log[i]) && Refusal(log[j])
  }

  ghost predicate Refusal(e: Exchange) {
    e.request.Resource? && e.Refused()
  }

  ghost predicate TokenRefusal(e: Exchange) {
    e.request.TokenFor? && e.Refused()
  }

  ghost predicate TokenRefused(log: seq<Exchange>) {
    exists i :: 0 <= i < |log| && TokenRefusal(log[i])
  }

  /** What costs the kiosk its pairing: the token endpoint's refusal, or a second one in a call. */
  ghost predicate Revoked(log: seq<Exchange>) {
    TokenRefused(log) || RefusedTwice(log)
  }

  /** A request in a call carries the token cached before it, or one minted just then. */
  ghost predicate CarriesFreshToken(log: seq<Exchange>, i: nat, cached: Option<string>)
    requires i < |log|
  {
    log[i].request.Resource? ==>
      if i == 0 then cached == Some(log[0].request.token) else log[i - 1].Mints(log[i].request.token)
  }

  /** It starts from the cached token exactly where there is one. */
  ghost predicate FreshTokens(log: seq<Exchange>, cached: Option<string>) {
    && (log != [] ==> (log[0].request.Resource? <==> cached.Some?))
    && forall i :: 0 <= i < |log| ==> CarriesFreshToken(log, i, cached)
  }

  /** What asking for a token puts on the wire, and what comes of it. */
  ghost predicate Asked(log: seq<Exchange>, cached: Option<string>, paired: Option<Credentials>,
                        granted: Result<string, Error>) {
    if cached.Some? then log == [] && granted == Success(cached.value)
    else if paired.None? then log == [] && granted == Failure(NotPaired)
    else
      && |log| == 1 && log[0].request == TokenFor(paired.value)
      && match log[0].reply
         case Down => granted == Failure(Unreachable)
         case Answered(answer) => granted == TokenResult(answer)
  }

  lemma AskedInVain(path: string, log: seq<Exchange>, cached: Option<string>, paired: Option<Credentials>,
                    granted: Result<string, Error>)
    requires Asked(log, cached, paired, granted) && granted.Failure?
    ensures Tried(path, log, cached, paired, Failure(granted.error))
  {
  }

  lemma AskedAndSent(path: string, log: seq<Exchange>, cached: Option<string>, paired: Option<Credentials>,
                     granted: Result<string, Error>, e: Exchange)
    requires Asked(log, cached, paired, granted) && granted.Success? && e.request == Resource(path, granted.value)
    ensures Tried(path, log + [e], cached, paired,
                  if e.reply.Down? then Failure(Unreachable) else Success(e.reply.answer))
    ensures TokenRefused(log + [e]) <==> TokenRefused(log)
  {
    assert TokenRefused(log) ==> TokenRefused(log + [e]) by {
      if i :| 0 <= i < |log| && TokenRefusal(log[i]) {
        assert TokenRefusal((log + [e])[i]);
      }
    }
  }

  /** What one attempt puts on the wire: the request with the cached token, or a token request
    * and, where that grants one, the request with it. */
  ghost predicate Tried(path: string, log: seq<Exchange>, cached: Option<string>, paired: Option<Credentials>,
                        result: Result<Answer, Error>)
  {
    if cached.Some? then
      && |log| == 1 && log[0].request == Resource(path, cached.value) && Relays(log[0].reply, result)
    else if paired.None? then
      log == [] && result == Failure(NotPaired)
    else
      && 1 <= |log| <= 2 && log[0].request == TokenFor(paired.value)
      && match log[0].reply
         case Down => |log| == 1 && result == Failure(Unreachable)
         case Answered(answer) =>
           match TokenResult(answer)
           case Failure(error) => |log| == 1 && result == Failure(error)
           case Success(token) =>
             && |log| == 2 && log[0].Mints(token) && log[1].request == Resource(path, token)
             && Relays(log[1].reply, result)
  }

  ghost predicate Relays(reply: Reply, result: Result<Answer, Error>) {
    match reply
    case Down => result == Failure(Unreachable)
    case Answered(answer) => result == Success(answer)
  }

  /** What a call puts on the wire, and what it returns. */
  ghost predicate Called(path: string, log: seq<Exchange>, cached: Option<string>, paired: Option<Credentials>,
                         result: Result<Answer, Error>)
  {
    && |log| <= 4 && Alternates(log) && FreshTokens(log, cached) && OnlyRefusalsRetried(log)
    && (forall i :: 0 <= i < |log| ==> ForThisKiosk(log[i].request, path, paired))
    && NothingFollowsRevocation(log)
    && if result == Failure(NotPaired) then Revoked(log) || (log == [] && paired.None?)
       else log != [] && !Revoked(log) && Concludes(log[|log| - 1], result)
  }

  /** What costs the pairing, if anything does, is the call's last exchange. */
  ghost predicate NothingFollowsRevocation(log: seq<Exchange>) {
    log != [] ==> !Revoked(log[..|log| - 1])
  }

  /** Another request follows only where this one was refused. */
  ghost predicate OnlyRefusalsRetried(log: seq<Exchange>) {
    forall i :: 0 <= i < |log| - 1 && log[i].request.Resource? ==> log[i].Refused()
  }

  /** The last exchange of a call, and what the call makes of it: an answer that is no refusal, no
    * answer, or a token that was not granted. */
  ghost predicate Concludes(e: Exchange, result: Result<Answer, Error>) {
    match result
    case Success(answer) => e.request.Resource? && e.reply == Answered(answer) && answer.status != 401
    case Failure(error) =>
      || (e.reply.Down? && error == Unreachable)
      || (e.request.TokenFor? && e.reply.Answered? && TokenResult(e.reply.answer) == Failure(error))
  }

  ghost predicate ForThisKiosk(request: Request, path: string, paired: Option<Credentials>) {
    match request
    case Pairing(_) => false
    case TokenFor(c) => paired == Some(c)
    case Resource(p, _) => p == path
  }

  /** Token requests and the requests they are for take turns. */
  ghost predicate Alternates(log: seq<Exchange>) {
    forall i :: 0 <= i < |log| - 1 ==> (log[i].request.TokenFor? <==> log[i + 1].request.Resource?)
  }

  lemma {:induction false} TurnsAreHalf(log: seq<Exchange>)
    requires Alternates(log)
    ensures CountTokens(log) <= (|log| + 1) / 2 && CountResources(log) <= (|log| + 1) / 2
  {
    if |log| >= 2 {
      var before := log[..|log| - 1];
      TurnsAreHalf(before[..|before| - 1]);
    }
  }

  /** A call makes at most two requests as the kiosk, and two for a token. */
  lemma CallsAreFew(path: string, log: seq<Exchange>, cached: Option<string>, paired: Option<Credentials>,
                    result: Result<Answer, Error>)
    requires Called(path, log, cached, paired, result)
    ensures CountTokens(log) <= 2 && CountResources(log) <= 2
  {
    TurnsAreHalf(log);
  }

  /** What a call puts on the wire and returns, and what it leaves of the pairing. */
  ghost predicate Settled(path: string, log: seq<Exchange>, cached: Option<string>, paired: Option<Credentials>,
                          result: Result<Answer, Error>, after: Option<Credentials>)
  {
    Called(path, log, cached, paired, result) && after == if Revoked(log) then None else paired
  }

  lemma OneTry(path: string, log: seq<Exchange>, cached: Option<string>, paired: Option<Credentials>,
               result: Result<Answer, Error>)
    requires Tried(path, log, cached, paired, result) && (result.Success? ==> result.value.status != 401)
    ensures Settled(path, log, cached, paired, result, if TokenRefused(log) then None else paired)
  {
  }

  /** The first attempt was refused. */
  ghost predicate RefusedOnce(path: string, log: seq<Exchange>, cached: Option<string>, paired: Option<Credentials>) {
    && log != [] && Refusal(log[|log| - 1])
    && Tried(path, log, cached, paired, Success(log[|log| - 1].reply.answer))
  }

  lemma TokensOfTwo(path: string, a: seq<Exchange>, b: seq<Exchange>, cached: Option<string>,
                    paired: Option<Credentials>, result: Result<Answer, Error>)
    requires RefusedOnce(path, a, cached, paired) && paired.Some? && Tried(path, b, None, paired, result)
    ensures |a + b| <= 4 && Alternates(a + b) && FreshTokens(a + b, cached)
    ensures forall i :: 0 <= i < |a + b| ==> ForThisKiosk((a + b)[i].request, path, paired)
  {
  }

  lemma RevokedByTwo(path: string, a: seq<Exchange>, b: seq<Exchange>, cached: Option<string>,
                     paired: Option<Credentials>, result: Result<Answer, Error>)
    requires RefusedOnce(path, a, cached, paired) && paired.Some? && Tried(path, b, None, paired, result)
    ensures Revoked(a + b) <==> TokenRefused(b) || (result.Success? && result.value.status == 401)
  {
    var all := a + b;
    if TokenRefused(b) {
      var i :| 0 <= i < |b| && TokenRefusal(b[i]);
      assert TokenRefusal(all[|a| + i]);
    } else if result.Success? && result.value.status == 401 {
      assert Refusal(all[|a| - 1]) && Refusal(all[|all| - 1]);
    } else {
      assert !TokenRefused(all);
      assert !RefusedTwice(all);
    }
  }

  lemma RevokedAtTheEnd(path: string, a: seq<Exchange>, b: seq<Exchange>, cached: Option<string>,
                        paired: Option<Credentials>, result: Result<Answer, Error>)
    requires RefusedOnce(path, a, cached, paired) && paired.Some? && Tried(path, b, None, paired, result)
    ensures NothingFollowsRevocation(a + b)
  {
    var before := (a + b)[..|a + b| - 1];
    assert before == a + b[..|b| - 1];
    assert forall i :: 0 <= i < |a| - 1 ==> !a[i].Refused();
    assert forall i :: 0 <= i < |b| - 1 ==> !b[i].Refused();
    assert !TokenRefused(before);
    assert !RefusedTwice(before);
  }

  /** After a refusal the cached token is gone, so the second attempt mints one. */
  lemma TwoTries(path: string, a: seq<Exchange>, b: seq<Exchange>, cached: Option<string>, paired: Option<Credentials>,
                 result: Result<Answer, Error>)
    requires RefusedOnce(path, a, cached, paired) && paired.Some? && Tried(path, b, None, paired, result)
    ensures var refused := result.Success? && result.value.status == 401;
            Settled(path, a + b, cached, paired, if refused then Failure(NotPaired) else result,
                    if refused || TokenRefused(b) then None else paired)
  {
    TokensOfTwo(path, a, b, cached, paired, result);
    RevokedByTwo(path, a, b, cached, paired, result);
    RevokedAtTheEnd(path, a, b, cached, paired, result);
  }

  /** Before each attempt: nothing sent yet, or refused once, which costs the cached token. */
  ghost predicate Underway(attempt: nat, path: string, log: seq<Exchange>, cached: Option<string>,
                           paired: Option<Credentials>, held: Option<string>, kept: Option<Credentials>)
  {
    && kept == paired
    && if attempt == 0 then log == [] && held == cached
       else held.None? && paired.Some? && RefusedOnce(path, log, cached, paired)
  }

  lemma NextTry(attempt: nat, path: string, log: seq<Exchange>, cached: Option<string>, paired: Option<Credentials>,
                held: Option<string>, b: seq<Exchange>, result: Result<Answer, Error>)
    requires attempt < 2 && Underway(attempt, path, log, cached, paired, held, paired)
    requires Tried(path, b, held, paired, result) && (result.Success? ==> paired.Some?)
    ensures var refused := result.Success? && result.value.status == 401;
            && (!refused ==> Settled(path, log + b, cached, paired, result, if TokenRefused(b) then None else paired))
            && (refused && attempt == 0 ==> Underway(1, path, log + b, cached, paired, None, paired))
            && (refused && attempt == 1 ==> Settled(path, log + b, cached, paired, Failure(NotPaired), None))
  {
    if attempt == 0 {
      assert log + b == b;
      if !(result.Success? && result.value.status == 401) {
        OneTry(path, b, cached, paired, result);
      }
    } else {
      TwoTries(path, log, b, cached, paired, result);
    }
  }

  const HEARTBEAT_PATH := "/biometric/kiosk/heartbeat"

  /** One call at a time. What IDEN answers, and how long it takes, are arbitrary. */
  class Kiosk {
    const replies: nat -> Reply
    const latencies: nat -> Latency
    const disk: Disk

    var asked: nat
    var now: real
    var credentials: Option<Credentials>
    var config: Config
    var online: Option<bool>
    var token: Option<string>
    var tokenExpires: real

    ghost var log: seq<Exchange>
    // Which exchange granted the cached token.
    ghost var grant: nat

    constructor (replies: nat -> Reply, latencies: nat -> Latency, disk: Disk, start: real)
      requires disk.Valid()
      ensures Valid() && this.disk == disk && this.replies == replies && this.latencies == latencies
      ensures View() == Memory(disk.Stored(), NO_CONFIG, None, 0.0) && online == None && log == [] && now == start
    {
      this.replies, this.latencies, this.disk := replies, latencies, disk;
      asked, now, config, online, token, tokenExpires := 0, start, NO_CONFIG, None, None, 0.0;
      log, grant := [], 0;
      credentials := None;
      new;
      var loaded := disk.Load();
      credentials := loaded.value;
    }

    ghost function View(): Memory
      reads this
    {
      Memory(credentials, config, token, tokenExpires)
    }

    /** The log is what was asked, and what IDEN answered to it. */
    ghost predicate Logged()
      reads this
    {
      && |log| == asked
      && forall i :: 0 <= i < |log| ==> log[i].reply == replies(i) && log[i].received == log[i].sent + latencies(i)
    }

    /** The cached token is one that was granted, and where its lifetime was given it is kept
      * until the margin before it ends. */
    ghost predicate TokenGranted()
      reads this
    {
      token.Some? ==>
        && grant < |log| && log[grant].Grants(token.value)
        && (log[grant].reply.answer.body.expiresIn.Some? ==>
              tokenExpires == log[grant].received + log[grant].reply.answer.body.expiresIn.value - TOKEN_MARGIN_SECONDS)
    }

    /** The disk agrees with memory, and only a paired kiosk has a token cached or settings. */
    ghost predicate Valid()
      reads this, disk
    {
      && Logged() && TokenGranted()
      && disk.Valid() && disk.Stored() == credentials
      && (credentials.None? ==> token.None? && config == NO_CONFIG)
    }

    method Ask(request: Request) returns (reply: Reply)
      requires Logged()
      modifies this`asked, this`now, this`online, this`log
      ensures Logged()
      ensures reply == replies(old(asked)) && asked == old(asked) + 1
      ensures now == old(now) + latencies(old(asked))
      ensures log == old(log) + [Exchange(request, old(now), reply, now)]
      ensures online == Some(reply.Answered?)
    {
      reply := replies(asked);
      ghost var sent := now;
      now := now + latencies(asked);
      asked := asked + 1;
      online := Some(reply.Answered?);
      log := log + [Exchange(request, sent, reply, now)];
    }

    /** Sends a pairing code; only an answer that carries credentials replaces the ones held. */
    method Pair(code: string) returns (result: Result<Answer, Error>)
      requires Valid()
      modifies this, disk
      ensures Valid() && |log| == |old(log)| + 1 && old(log) <= log
      ensures log[|old(log)|].request == Pairing(code)
      ensures var reply := log[|old(log)|].reply;
              match reply
              case Down => result == Failure(Unreachable) && View() == old(View()) && online == Some(false)
              case Answered(answer) =>
                && View() == OnPair(old(View()), answer) && online == Some(true)
                && result == if answer.status == 200 && answer.body.credentials.None? then Failure(BadAnswer)
                             else Success(answer)
      ensures var reply, before := log[|old(log)|].reply, old(View());
              if reply.Answered? && reply.answer.status == 200 && reply.answer.body.credentials.Some? then
                && credentials == reply.answer.body.credentials == disk.Stored()
                && config == Settings(None, Unsaid) && token == None
              else View() == before && disk.Stored() == old(disk.Stored())
    {
      var reply := Ask(Pairing(code));
      if reply.Down? {
        return Failure(Unreachable);
      }
      var answer := reply.answer;
      if answer.status == 200 {
        if answer.body.credentials.None? {
          return Failure(BadAnswer);
        }
        credentials := answer.body.credentials;
        var finished := disk.Save(credentials.value, StepsToSave(disk.codec, credentials.value));
        config, token := NO_CONFIG, None;
      }
      result := Success(answer);
    }

    method Forget()
      requires Valid()
      modifies this`credentials, this`config, this`token, disk
      ensures Valid() && View() == Forgotten(old(View()))
    {
      disk.Forget();
      credentials, config, token := None, NO_CONFIG, None;
    }

    /** A token: the cached one while it lasts, or else a new one. */
    method AccessToken() returns (result: Result<string, Error>)
      requires Valid()
      modifies this, disk
      ensures Valid() && old(log) <= log
      ensures Cached(old(View()), old(now)).Some? ==>
        && log == old(log) && View() == old(View()) && online == old(online)
        && result == Success(Cached(old(View()), old(now)).value)
        && grant < |log| && log[grant].Grants(result.value)
        && (log[grant].Lapses().Some? ==>
              log[grant].Lapses().value - now > TOKEN_MARGIN_SECONDS - (log[grant].received - log[grant].sent))
      ensures Cached(old(View()), old(now)).None? && old(credentials).None? ==>
        log == old(log) && View() == old(View()) && online == old(online) && result == Failure(NotPaired)
      ensures Cached(old(View()), old(now)).None? && old(credentials).Some? ==>
        && |log| == |old(log)| + 1 && log[|old(log)|].request == TokenFor(old(credentials).value)
        && log[|old(log)|].sent == old(now) && log[|old(log)|].received == now
        && match log[|old(log)|].reply
           case Down => result == Failure(Unreachable) && View() == old(View()) && online == Some(false)
           case Answered(answer) =>
             && View() == OnToken(old(View()), answer, now) && result == TokenResult(answer)
             && online == Some(answer.status == 200 || answer.status == 401)
      ensures result.Success? ==> credentials == old(credentials) && credentials.Some?
    {
      if token.Some? && token.value != "" && now < tokenExpires {
        return Success(token.value);
      }
      if credentials.None? {
        return Failure(NotPaired);
      }
      var reply := Ask(TokenFor(credentials.value));
      if reply.Down? {
        return Failure(Unreachable);
      }
      var answer := reply.answer;
      if answer.status == 401 {
        Forget();
        return Failure(NotPaired);
      }
      if answer.status != 200 {
        online := Some(false);
        return Failure(Unreachable);
      }
      if answer.body.token.None? {
        return Failure(BadAnswer);
      }
      token, grant := answer.body.token, |log| - 1;
      if answer.body.expiresIn.None? {
        return Failure(BadAnswer);
      }
      tokenExpires := now + answer.body.expiresIn.value - TOKEN_MARGIN_SECONDS;
      result := Success(token.value);
    }

    /** One attempt at a request: a token, and the request with it. */
    method Try(path: string) returns (result: Result<Answer, Error>)
      requires Valid()
      modifies this, disk
      ensures Valid() && old(log) <= log
      ensures Tried(path, log[|old(log)|..], Cached(old(View()), old(now)), old(credentials), result)
      ensures credentials == if TokenRefused(log[|old(log)|..]) then None else old(credentials)
      ensures result.Success? ==> credentials.Some?
      ensures credentials.Some? ==> config == old(config)
    {
      ghost var before, cached, paired := log, Cached(View(), now), credentials;
      var granted := AccessToken();
      ghost var added := log[|before|..];
      assert Asked(added, cached, paired, granted);
      if granted.Failure? {
        AskedInVain(path, added, cached, paired, granted);
        return Failure(granted.error);
      }
      ghost var e := Exchange(Resource(path, granted.value), now, replies(asked), now + latencies(asked));
      AskedAndSent(path, added, cached, paired, granted, e);
      var reply := Ask(Resource(path, granted.value));
      assert log[|before|..] == added + [e];
      result := if reply.Down? then Failure(Unreachable) else Success(reply.answer);
    }

    /** A refusal costs the cached token, and a second one the pairing. */
    method Drop(second: bool)
      requires Valid()
      modifies this`credentials, this`config, this`token, disk
      ensures Valid() && View() == OnRefusal(old(View()), second)
    {
      token := None;
      if second {
        Forget();
      }
    }

    /** One attempt of a call that has sent `sent` so far, and what a refusal costs. */
    method Attempt(attempt: nat, path: string, ghost sent: seq<Exchange>, ghost cached: Option<string>,
                   ghost paired: Option<Credentials>)
        returns (refused: bool, result: Result<Answer, Error>, ghost more: seq<Exchange>)
      requires Valid() && attempt < 2
      requires Underway(attempt, path, sent, cached, paired, Cached(View(), now), credentials)
      modifies this, disk
      ensures Valid() && log == old(log) + more && (credentials.Some? ==> config == old(config))
      ensures !refused ==> Settled(path, sent + more, cached, paired, result, credentials)
      ensures !refused && result.Success? ==> credentials.Some?
      ensures refused && attempt == 0
              ==> Underway(1, path, sent + more, cached, paired, Cached(View(), now), credentials)
      ensures refused && attempt == 1 ==> Settled(path, sent + more, cached, paired, Failure(NotPaired), credentials)
    {
      ghost var before, held := |log|, Cached(View(), now);
      result := Try(path);
      more := log[before..];
      NextTry(attempt, path, sent, cached, paired, held, more, result);
      refused := result.Success? && result.value.status == 401;
      if refused {
        Drop(attempt == 1);
      }
    }

    /** A request with a token, and after a first refusal one more with a token newly minted; a
      * second refusal drops the pairing. */
    method Call(path: string) returns (result: Result<Answer, Error>)
      requires Valid()
      modifies this, disk
      ensures Valid() && old(log) <= log
      ensures Settled(path, log[|old(log)|..], Cached(old(View()), old(now)), old(credentials), result, credentials)
      ensures credentials.Some? ==> config == old(config)
      ensures result.Success? ==> credentials.Some?
    {
      ghost var sent, cached, paired := [], Cached(View(), now), credentials;
      for attempt := 0 to 2
        invariant Valid() && log == old(log) + sent && (credentials.Some? ==> config == old(config))
        invariant attempt < 2 ==> Underway(attempt, path, sent, cached, paired, Cached(View(), now), credentials)
        invariant attempt == 2 ==> Settled(path, sent, cached, paired, Failure(NotPaired), credentials)
      {
        var refused;
        ghost var more;
        refused, result, more := Attempt(attempt, path, sent, cached, paired);
        sent := sent + more;
        assert log[|old(log)|..] == sent;
        if !refused {
          return;
        }
      }
      result := Failure(NotPaired);
    }

    /** Reports in, and takes up the settings in the answer. */
    method Heartbeat() returns (failure: Option<Error>, ghost response: Result<Answer, Error>)
      requires Valid()
      modifies this, disk
      ensures Valid() && old(log) <= log
      ensures Settled(HEARTBEAT_PATH, log[|old(log)|..], Cached(old(View()), old(now)), old(credentials), response,
                      credentials)
      ensures failure == Reported(response)
      ensures credentials.Some? ==> config == Adopted(old(config), response)
      ensures match response
              case Failure(error) => failure == Some(error) && (credentials.Some? ==> config == old(config))
              case Success(answer) =>
                if answer.status != 200 then failure == None && config == old(config)
                else if answer.body.config.None? then failure == Some(BadAnswer) && config == old(config)
                else failure == None && config == answer.body.config.value
    {
      var answered := Call(HEARTBEAT_PATH);
      response := answered;
      if answered.Failure? {
        return Some(answered.error), response;
      }
      if answered.value.status == 200 {
        if answered.value.body.config.None? {
          return Some(BadAnswer), response;
        }
        config := answered.value.body.config.value;
      }
      failure := None;
    }
  }
}
