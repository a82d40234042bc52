/** How Do, DoRaw and DoStream compare, against the same replies. */
module TransportCompare {
  import opened Options
  import opened ApiErr
  import opened Headers
  import opened Counting
  import opened Transport
  import opened TransportProofs
  import opened TransportLaws

  type Relation = (Outcome, Outcome) -> bool

  /** Same traffic; the same result too while the call may still go on, related final results otherwise. */
  ghost predicate Alike(rel: Relation, a: Result, b: Result) {
    && a.trace == b.trace && a.rest == b.rest
    && if a.progress.Waiting? || b.progress.Waiting? || Retry(a.progress.outcome) || Retry(b.progress.outcome)
       then a.st == b.st && a.progress == b.progress
       else rel(a.progress.outcome, b.progress.outcome)
  }

  predicate Within(script: seq<Round>, all: seq<Round>) {
    forall x :: x in script ==> x in all
  }

  /** What two attempt functions have in common on the rounds of `all`. */
  ghost predicate AlikeAttempts(rel: Relation, f: Attempts, g: Attempts, all: seq<Round>) {
    forall s, rounds :: Within(rounds, all) ==>
      Alike(rel, f(s, rounds), g(s, rounds)) && Within(f(s, rounds).rest, rounds)
  }

  ghost predicate AlikeRuns(rel: Relation, a: RunResult, b: RunResult) {
    && a.trace == b.trace && a.rest == b.rest && a.progress.Waiting? == b.progress.Waiting?
    && (a.progress.Finished? ==> rel(a.progress.outcome, b.progress.outcome))
  }

  lemma {:induction false} LoopAlike(
      rel: Relation, f: Attempts, g: Attempts, all: seq<Round>, maxRetries: int, st: State, script: seq<Round>,
      attempt: nat, last: Outcome)
    requires (forall o: Outcome :: !o.Response? ==> rel(o, o)) && !last.Response?
    requires Within(script, all) && AlikeAttempts(rel, f, g, all)
    ensures AlikeRuns(rel, Loop(f, maxRetries, st, script, attempt, last),
              Loop(g, maxRetries, st, script, attempt, last))
    decreases maxRetries + 1 - attempt
  {
    if attempt <= maxRetries && !(attempt > 0 && (script == [] || script[0].ctxDone)) {
      var a, b := f(st, script), g(st, script);
      assert Alike(rel, a, b);
      if a.progress.Finished? && Retry(a.progress.outcome) {
        LoopAlike(rel, f, g, all, maxRetries, a.st, a.rest, attempt + 1, a.progress.outcome);
      }
    }
  }

  lemma {:induction false} RestWithin(mode: Mode, cfg: Config, st: State, call: Call, script: seq<Round>)
    ensures Within(SendRequest(mode, cfg, st, call, script).rest, script)
  {
    CallTracks(mode, cfg, st, call, script);
  }

  /** A response that the caller wants decoded and that has a body which cannot be. */
  predicate Undecodable(call: Call, b: Outcome) {
    && b.Response? && call.wantsResult && b.status != 204
    && b.body.Read? && !b.body.payload.empty && !b.body.payload.decodes
  }

  /** What `Do` makes of the outcome of `DoRaw`. */
  predicate Decoded(call: Call, a: Outcome, b: Outcome) {
    if Undecodable(call, b) then a == Failed(Plain(ApiError("INTERNAL_ERROR", b.status))) else a == b
  }

  lemma {:induction false} RawAttemptsAlike(cfg: Config, call: Call, all: seq<Round>)
    ensures AlikeAttempts((a, b) => Decoded(call, a, b), AttemptOf(Do, cfg, call), AttemptOf(DoRaw, cfg, call), all)
  {
    forall s, rounds | Within(rounds, all)
      ensures Alike((a, b) => Decoded(call, a, b), DoRequest(cfg, s, call, rounds),
                SendRequest(Http, cfg, s, call, rounds))
      ensures Within(DoRequest(cfg, s, call, rounds).rest, rounds)
    {
      RestWithin(Http, cfg, s, call, rounds);
      if Preflight(cfg, call).None? {
        ResponsesAreSuccesses(Http, cfg, call, TargetOf(cfg, call), s, rounds, true);
      }
    }
  }

  /**
   From the same state and against the same replies, `Do` and `DoRaw` put the same requests on the wire, and `Do`
   returns what `DoRaw` does, but for a decoding error exactly where there is a result to decode and it cannot be.
   */
  lemma {:induction false} DoAndRawAgree(cfg: Config, st: State, call: Call, draw: string, script: seq<Round>)
    ensures AlikeRuns((a, b) => Decoded(call, a, b),
              Run(Do, cfg, st, call, draw, script), Run(DoRaw, cfg, st, call, draw, script))
  {
    var c := Stabilise(cfg, call, draw);
    RawAttemptsAlike(cfg, c, script);
    LoopAlike((a, b) => Decoded(c, a, b), AttemptOf(Do, cfg, c), AttemptOf(DoRaw, cfg, c), script, cfg.maxRetries, st,
        script, 0, Nil);
  }

  /** The status of a real HTTP reply has three digits. */
  predicate RealReply(reply: Reply) {
    reply.Reply? ==> 100 <= reply.status <= 999
  }

  lemma {:induction false} ResponsesAreSuccesses(
      mode: Mode, cfg: Config, call: Call, url: string, st: State, script: seq<Round>, allow: bool)
    ensures var p := Resend(StepOf(mode, cfg, call, url), st, script, allow).progress;
            p.Finished? && p.outcome.Response? ==> p.outcome.status < 400
    decreases |script|
  {
    if script == [] {
    } else {
      var s := StepOf(mode, cfg, call, url)(st, script[0], allow);
      ReplyResponse(mode, cfg, st, script[0], allow);
      if s.stop.None? {
        ResponsesAreSuccesses(mode, cfg, call, url, s.st, script[1..], false);
      }
    }
  }

  lemma {:induction false} ReplyResponse(mode: Mode, cfg: Config, st: State, r: Round, allow: bool)
    ensures var s := OnReply(mode, cfg, st, r, allow);
            s.stop.Some? && s.stop.value.Response? ==> s.stop.value.status < 400
  {
  }

  predicate ErrorsReadable(reply: Reply) {
    reply.Reply? && reply.status >= 400 ==> reply.body.Read?
  }

  /** `DoRaw` returns what `DoStream` does, but for an error exactly where the body of a success cannot be read. */
  predicate SameOrUnread(a: Outcome, b: Outcome) {
    if b.Response? && !b.body.Read?
    then
      var code := if b.body.TooLarge? then "RESPONSE_TOO_LARGE" else "SERVICE_UNAVAILABLE";
      a == Failed(Plain(ApiError(code, b.status)))
    else a == b
  }

  /** Replies on which `doHTTP` and `doStream` leave the same state behind. */
  predicate Comparable(cfg: Config, reply: Reply) {
    RealReply(reply) && (cfg.dpop ==> ErrorsReadable(reply))
  }

  lemma {:induction false} ReplyAlike(cfg: Config, st: State, r: Round, allow: bool)
    requires Comparable(cfg, r.reply)
    ensures var a, b := HttpReply(cfg, st, r, allow), StreamReply(cfg, st, r, allow);
            && a.events == b.events && a.stop.None? == b.stop.None?
            && (a.stop.None? || Retry(a.stop.value) || Retry(b.stop.value) ==> a == b)
            && (a.stop.Some? ==> SameOrUnread(a.stop.value, b.stop.value))
  {
  }

  lemma {:induction false} ResendAlike(cfg: Config, call: Call, url: string, st: State, script: seq<Round>, allow: bool)
    requires forall r :: r in script ==> Comparable(cfg, r.reply)
    ensures Alike(SameOrUnread, Resend(StepOf(Http, cfg, call, url), st, script, allow),
              Resend(StepOf(Stream, cfg, call, url), st, script, allow))
    decreases |script|
  {
    if script == [] {
    } else {
      var a, b := StepOf(Http, cfg, call, url)(st, script[0], allow),
          StepOf(Stream, cfg, call, url)(st, script[0], allow);
      ReplyAlike(cfg, st, script[0], allow);
      if a.stop.None? {
        ResendAlike(cfg, call, url, a.st, script[1..], false);
      }
    }
  }

  /** Without DPoP, or when every error body can be read, `DoStream` puts the same requests on the wire as well. */
  lemma {:induction false} StreamAgrees(cfg: Config, st: State, call: Call, draw: string, script: seq<Round>)
    requires forall r :: r in script ==> Comparable(cfg, r.reply)
    ensures AlikeRuns(SameOrUnread,
              Run(DoRaw, cfg, st, call, draw, script), Run(DoStream, cfg, st, call, draw, script))
  {
    var c := Stabilise(cfg, call, draw);
    StreamAttemptsAlike(cfg, c, script);
    LoopAlike(SameOrUnread, AttemptOf(DoRaw, cfg, c), AttemptOf(DoStream, cfg, c), script, cfg.maxRetries, st,
        script, 0, Nil);
  }

  lemma {:induction false} StreamAttemptsAlike(cfg: Config, call: Call, all: seq<Round>)
    requires forall r :: r in all ==> Comparable(cfg, r.reply)
    ensures AlikeAttempts(SameOrUnread, AttemptOf(DoRaw, cfg, call), AttemptOf(DoStream, cfg, call), all)
  {
    forall s, rounds | Within(rounds, all)
      ensures Alike(SameOrUnread, SendRequest(Http, cfg, s, call, rounds), SendRequest(Stream, cfg, s, call, rounds))
      ensures Within(SendRequest(Http, cfg, s, call, rounds).rest, rounds)
    {
      RestWithin(Http, cfg, s, call, rounds);
      if Preflight(cfg, call).None? {
        ResendAlike(cfg, call, TargetOf(cfg, call), s, rounds, true);
      }
    }
  }

  /** On any reply at all, `doHTTP` and `doStream` send the same things and go on in the same cases. */
  lemma {:induction false} ReplySameTraffic(cfg: Config, st: State, r: Round, allow: bool)
    ensures var a, b := HttpReply(cfg, st, r, allow), StreamReply(cfg, st, r, allow);
            a.events == b.events && a.stop.None? == b.stop.None? && (a.stop.None? ==> a.st == b.st)
  {
  }

  lemma {:induction false} ResendSameTraffic(
      cfg: Config, call: Call, url: string, st: State, script: seq<Round>, allow: bool)
    ensures var a, b := Resend(StepOf(Http, cfg, call, url), st, script, allow),
              Resend(StepOf(Stream, cfg, call, url), st, script, allow);
            a.trace == b.trace
    decreases |script|
  {
    if script == [] {
    } else {
      ReplySameTraffic(cfg, st, script[0], allow);
      var a := StepOf(Http, cfg, call, url)(st, script[0], allow);
      if a.stop.None? {
        ResendSameTraffic(cfg, call, url, a.st, script[1..], false);
      }
    }
  }

  lemma {:induction false} OneAttemptSameTraffic(cfg: Config, st: State, call: Call, draw: string, script: seq<Round>)
    requires cfg.maxRetries <= 0
    ensures Run(DoRaw, cfg, st, call, draw, script).trace == Run(DoStream, cfg, st, call, draw, script).trace
  {
    var c := Stabilise(cfg, call, draw);
    SingleAttempt(AttemptOf(DoRaw, cfg, c), cfg.maxRetries, st, script);
    SingleAttempt(AttemptOf(DoStream, cfg, c), cfg.maxRetries, st, script);
    if Preflight(cfg, c).None? {
      ResendSameTraffic(cfg, c, TargetOf(cfg, c), st, script, true);
    }
  }

  /**
   An unreadable error body with a nonce: `DoStream` keeps the nonce, `DoRaw` does not. A retry without a DPoP header
   of the caller's own shows it in its proof.
   */
  lemma {:induction false} UnreadableErrorSeparates(
      cfg: Config, st: State, call: Call, draw: string, a: Round, order: seq<string>)
    requires cfg.dpop && cfg.maxRetries >= 1 && Preflight(cfg, call).None? && !Supplies(call.headers, DPOP)
    requires LosesNonce(st, a)
    ensures var script := [a, DeadRound(order)];
            Run(DoRaw, cfg, st, call, draw, script).trace != Run(DoStream, cfg, st, call, draw, script).trace
  {
    var c, dead, kept := Stabilise(cfg, call, draw), DeadRound(order), st.(nonce := a.reply.nonce);
    SecondRequest(DoRaw, cfg, st, call, draw, a, dead, st);
    SecondRequest(DoStream, cfg, st, call, draw, a, dead, kept);
    StabiliseSupplies(cfg, call, draw, DPOP);
    RequestCarriesProof(cfg, st, c, TargetOf(cfg, c), dead);
    RequestCarriesProof(cfg, kept, c, TargetOf(cfg, c), dead);
  }

  lemma {:induction false} SecondRequest(
      entry: Entry, cfg: Config, st: State, call: Call, draw: string, a: Round, b: Round, next: State)
    requires cfg.maxRetries >= 1 && Preflight(cfg, call).None? && !b.ctxDone
    requires FailsAtOnce(entry, cfg, st, a) && OnReply(ModeOf(entry), cfg, st, a, true).st == next
    requires EndsAtOnce(entry, cfg, next, b)
    ensures var t, c := Run(entry, cfg, st, call, draw, [a, b]).trace, Stabilise(cfg, call, draw);
            |t| > 2 && t[2] == Sent(NewRequest(cfg, next, c, TargetOf(cfg, c), b).value)
  {
    TwoShortAttempts(entry, cfg, st, call, draw, a, b);
  }

  /** A 503 that cannot be read, with a nonce that is news. */
  predicate LosesNonce(st: State, a: Round) {
    && a.jti.Some? && a.reply.Reply? && a.reply.status == 503 && !a.reply.body.Read?
    && a.reply.nonce != "" && a.reply.nonce != st.nonce
  }

  /** A 401 that calls for a refresh, which goes unanswered. */
  function RefreshingRound(order: seq<string>): Round {
    DeadRound(order).(
      reply := Reply(401, "", Read(Payload(false, None, None, None, false))),
      refresh := RefreshRound("", NoReply))
  }

  lemma {:induction false} RefreshingReply(mode: Mode, cfg: Config, st: State, order: seq<string>)
    requires Refreshable(cfg, st)
    ensures var s := OnReply(mode, cfg, st, RefreshingRound(order), true);
            && s.stop.Some? && s.stop.value.Failed? && |s.events| == 2
            && s.events[0]
               == RefreshSent(TokenUrl(cfg).value, GrantFor(cfg, st), RefreshProof(cfg, st, "", TokenUrl(cfg).value))
  {
  }

  /** And where the caller's own DPoP header covers the requests, a refresh shows it. */
  lemma {:induction false} RefreshSeparates(
      cfg: Config, st: State, call: Call, draw: string, a: Round, order: seq<string>)
    requires cfg.dpop && cfg.maxRetries >= 1 && Preflight(cfg, call).None? && Refreshable(cfg, st) && LosesNonce(st, a)
    ensures var script := [a, RefreshingRound(order)];
            Run(DoRaw, cfg, st, call, draw, script).trace != Run(DoStream, cfg, st, call, draw, script).trace
  {
    var b, kept := RefreshingRound(order), st.(nonce := a.reply.nonce);
    RefreshingReply(Http, cfg, st, order);
    RefreshingReply(Stream, cfg, kept, order);
    RefreshOnTheWire(DoRaw, cfg, st, call, draw, a, b, st);
    RefreshOnTheWire(DoStream, cfg, st, call, draw, a, b, kept);
    assert RefreshProof(cfg, st, "", TokenUrl(cfg).value) != RefreshProof(cfg, kept, "", TokenUrl(cfg).value);
  }

  lemma {:induction false} RefreshOnTheWire(
      entry: Entry, cfg: Config, st: State, call: Call, draw: string, a: Round, b: Round, next: State)
    requires cfg.maxRetries >= 1 && Preflight(cfg, call).None? && !b.ctxDone
    requires FailsAtOnce(entry, cfg, st, a) && OnReply(ModeOf(entry), cfg, st, a, true).st == next
    requires EndsAtOnce(entry, cfg, next, b) && OnReply(ModeOf(entry), cfg, next, b, true).events != []
    ensures var t := Run(entry, cfg, st, call, draw, [a, b]).trace;
            |t| > 4 && t[4] == OnReply(ModeOf(entry), cfg, next, b, true).events[0]
  {
    TwoShortAttempts(entry, cfg, st, call, draw, a, b);
  }

  // -------------------------------------------- requests that do not show the nonce

  /** The two states hold the same tokens, and no refresh is possible. */
  predicate Level(cfg: Config, a: State, b: State) {
    a.access == b.access && a.refresh == b.refresh && !Refreshable(cfg, a)
  }

  lemma {:induction false} OwnHeadersDiffer(cfg: Config, a: State, b: State, call: Call, url: string, r: Round)
    requires a.access == b.access && (cfg.dpop ==> r.jti.Some?)
    ensures OwnHeaders(cfg, a, call, url, r) - {DPOP} == OwnHeaders(cfg, b, call, url, r) - {DPOP}
  {
  }

  /** With a DPoP header of the caller's own, a request does not depend on the nonce. */
  lemma {:induction false} RequestHidesNonce(cfg: Config, a: State, b: State, call: Call, url: string, r: Round)
    requires a.access == b.access && Supplies(call.headers, DPOP) && Enumerates(r.order, call.headers.Keys)
    ensures NewRequest(cfg, a, call, url, r) == NewRequest(cfg, b, call, url, r)
  {
    if cfg.dpop ==> r.jti.Some? {
      OwnHeadersDiffer(cfg, a, b, call, url, r);
      var k :| k in call.headers && Canonical(k) == DPOP;
      assert k in r.order;
      SetAllForgets(OwnHeaders(cfg, a, call, url, r), OwnHeaders(cfg, b, call, url, r), call.headers, r.order, DPOP);
    }
  }

  ghost predicate LevelSteps(cfg: Config, a: Step, b: Step) {
    && a.events == b.events && a.stop.None? == b.stop.None? && Level(cfg, a.st, b.st)
    && (a.stop.Some? ==> Retry(a.stop.value) == Retry(b.stop.value))
  }

  lemma {:induction false} ReplyLevel(cfg: Config, a: State, b: State, r: Round, allow: bool)
    requires Level(cfg, a, b) && RealReply(r.reply)
    ensures LevelSteps(cfg, HttpReply(cfg, a, r, allow), StreamReply(cfg, b, r, allow))
  {
  }

  lemma {:induction false} RequestLevel(
      cfg: Config, a: State, b: State, call: Call, url: string, r: Round, allow: bool)
    requires Level(cfg, a, b) && RealReply(r.reply) && Supplies(call.headers, DPOP)
    requires Enumerates(r.order, call.headers.Keys)
    ensures LevelSteps(cfg, StepOf(Http, cfg, call, url)(a, r, allow), StepOf(Stream, cfg, call, url)(b, r, allow))
  {
    RequestHidesNonce(cfg, a, b, call, url, r);
    ReplyLevel(cfg, a, b, r, allow);
  }

  ghost predicate LevelResults(cfg: Config, a: Result, b: Result) {
    && a.trace == b.trace && a.rest == b.rest && Level(cfg, a.st, b.st)
    && a.progress.Waiting? == b.progress.Waiting?
    && (a.progress.Finished? ==> Retry(a.progress.outcome) == Retry(b.progress.outcome))
  }

  lemma {:induction false} ResendLevel(
      cfg: Config, a: State, b: State, call: Call, url: string, script: seq<Round>, allow: bool)
    requires Level(cfg, a, b) && Supplies(call.headers, DPOP) && RealScript(script) && WalksHeaders(call, script)
    ensures LevelResults(cfg, Resend(StepOf(Http, cfg, call, url), a, script, allow),
              Resend(StepOf(Stream, cfg, call, url), b, script, allow))
    ensures Within(Resend(StepOf(Http, cfg, call, url), a, script, allow).rest, script)
    decreases |script|
  {
    if script == [] {
    } else {
      RequestLevel(cfg, a, b, call, url, script[0], allow);
      var s := StepOf(Http, cfg, call, url)(a, script[0], allow);
      if s.stop.None? {
        var u := StepOf(Stream, cfg, call, url)(b, script[0], allow);
        ResendLevel(cfg, s.st, u.st, call, url, script[1..], false);
      }
    }
  }

  /** What two attempt functions have in common on the rounds of `all`. */
  ghost predicate LevelAttempts(cfg: Config, f: Attempts, g: Attempts, all: seq<Round>) {
    forall a, b, script :: Level(cfg, a, b) && Within(script, all) ==>
      LevelResults(cfg, f(a, script), g(b, script)) && Within(f(a, script).rest, script)
  }

  lemma {:induction false} LoopLevel(
      cfg: Config, f: Attempts, g: Attempts, all: seq<Round>, a: State, b: State, script: seq<Round>, attempt: nat,
      last: Outcome, last': Outcome)
    requires LevelAttempts(cfg, f, g, all) && Level(cfg, a, b) && Within(script, all)
    ensures Loop(f, cfg.maxRetries, a, script, attempt, last).trace
         == Loop(g, cfg.maxRetries, b, script, attempt, last').trace
    decreases cfg.maxRetries + 1 - attempt
  {
    if attempt > cfg.maxRetries || (attempt > 0 && (script == [] || script[0].ctxDone)) {
    } else {
      var p, q := f(a, script), g(b, script);
      assert LevelResults(cfg, p, q);
      if p.progress.Finished? && Retry(p.progress.outcome) {
        LoopLevel(cfg, f, g, all, p.st, q.st, p.rest, attempt + 1, p.progress.outcome, q.progress.outcome);
      }
    }
  }

  lemma {:induction false} CallLevel(cfg: Config, a: State, b: State, call: Call, script: seq<Round>)
    requires Level(cfg, a, b) && Supplies(call.headers, DPOP) && RealScript(script) && WalksHeaders(call, script)
    ensures LevelResults(cfg, SendRequest(Http, cfg, a, call, script), SendRequest(Stream, cfg, b, call, script))
    ensures Within(SendRequest(Http, cfg, a, call, script).rest, script)
  {
    if Preflight(cfg, call).None? {
      ResendLevel(cfg, a, b, call, TargetOf(cfg, call), script, true);
    }
  }

  lemma {:induction false} AttemptsLevel(cfg: Config, call: Call, all: seq<Round>)
    requires Supplies(call.headers, DPOP) && RealScript(all) && WalksHeaders(call, all)
    ensures LevelAttempts(cfg, AttemptOf(DoRaw, cfg, call), AttemptOf(DoStream, cfg, call), all)
  {
    forall a, b, script | Level(cfg, a, b) && Within(script, all)
      ensures LevelResults(cfg, SendRequest(Http, cfg, a, call, script), SendRequest(Stream, cfg, b, call, script))
      ensures Within(SendRequest(Http, cfg, a, call, script).rest, script)
    {
      CallLevel(cfg, a, b, call, script);
    }
  }

  /** The caller's own DPoP header, and no refresh: nothing on the wire shows the nonce. */
  lemma {:induction false} OwnHeaderSameTraffic(cfg: Config, st: State, call: Call, draw: string, script: seq<Round>)
    requires Supplies(call.headers, DPOP) && !Refreshable(cfg, st)
    requires RealScript(script) && WalksHeaders(Stabilise(cfg, call, draw), script)
    ensures Run(DoRaw, cfg, st, call, draw, script).trace == Run(DoStream, cfg, st, call, draw, script).trace
  {
    var c := Stabilise(cfg, call, draw);
    var k :| k in call.headers && Canonical(k) == DPOP;
    assert k in c.headers;
    AttemptsLevel(cfg, c, script);
    LoopLevel(cfg, AttemptOf(DoRaw, cfg, c), AttemptOf(DoStream, cfg, c), script, st, st, script, 0, Nil, Nil);
  }

  // -------------------------------------------------------------------- the theorem

  predicate RealScript(script: seq<Round>) {
    forall r :: r in script ==> RealReply(r.reply)
  }

  ghost predicate SameTraffic(cfg: Config, st: State, call: Call, draw: string) {
    forall script :: RealScript(script) && WalksHeaders(Stabilise(cfg, call, draw), script) ==>
      Run(DoRaw, cfg, st, call, draw, script).trace == Run(DoStream, cfg, st, call, draw, script).trace
  }

  /** A kept nonce can show: in a request, or in a refresh. */
  predicate NonceShows(cfg: Config, st: State, call: Call) {
    !Supplies(call.headers, DPOP) || Refreshable(cfg, st)
  }

  lemma {:induction false} PartingScript(cfg: Config, st: State, call: Call, draw: string) returns (script: seq<Round>)
    requires cfg.dpop && cfg.maxRetries >= 1 && Preflight(cfg, call).None? && NonceShows(cfg, st, call)
    ensures RealScript(script) && WalksHeaders(Stabilise(cfg, call, draw), script)
    ensures Run(DoRaw, cfg, st, call, draw, script).trace != Run(DoStream, cfg, st, call, draw, script).trace
  {
    var order := EnumerateSet(Stabilise(cfg, call, draw).headers.Keys);
    var a := DeadRound(order).(reply := Reply(503, st.nonce + "x", Broken));
    if Supplies(call.headers, DPOP) {
      RefreshSeparates(cfg, st, call, draw, a, order);
      script := [a, RefreshingRound(order)];
    } else {
      UnreadableErrorSeparates(cfg, st, call, draw, a, order);
      script := [a, DeadRound(order)];
    }
  }

  /**
   `DoRaw` and `DoStream` send the same traffic whatever the server replies if and only if nothing is sent at all,
   DPoP is off, there are no retries, or the caller's own DPoP header covers every request and no refresh is possible.
   */
  lemma {:induction false} StreamAgreesExactly(cfg: Config, st: State, call: Call, draw: string)
    ensures SameTraffic(cfg, st, call, draw)
       <==> Preflight(cfg, call).Some? || !cfg.dpop || cfg.maxRetries <= 0 || !NonceShows(cfg, st, call)
  {
    if Preflight(cfg, call).None? && cfg.dpop && cfg.maxRetries >= 1 && NonceShows(cfg, st, call) {
      var script := PartingScript(cfg, st, call, draw);
    } else {
      forall script | RealScript(script) && WalksHeaders(Stabilise(cfg, call, draw), script)
        ensures Run(DoRaw, cfg, st, call, draw, script).trace == Run(DoStream, cfg, st, call, draw, script).trace
      {
        if Preflight(cfg, call).Some? {
          PreflightSendsNothing(DoRaw, cfg, st, call, draw, script);
          PreflightSendsNothing(DoStream, cfg, st, call, draw, script);
        } else if cfg.maxRetries <= 0 {
          OneAttemptSameTraffic(cfg, st, call, draw, script);
        } else if !cfg.dpop {
          StreamAgrees(cfg, st, call, draw, script);
        } else {
          OwnHeaderSameTraffic(cfg, st, call, draw, script);
        }
      }
    }
  }
}
