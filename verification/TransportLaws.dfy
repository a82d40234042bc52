/** Laws of whole runs: proofs and tokens, and what a rate limit does. */
module TransportLaws {
  import opened Options
  import opened Dpop
  import opened GoStrings
  import opened Headers
  import opened Tokens
  import opened Counting
  import opened Transport
  import opened TransportProofs

  // ------------------------------------------------------------- proofs and tokens

  /** The nonce of the latest API reply whose nonce was kept. */
  function LatestNonce(mode: Mode, cfg: Config, initial: string, t: seq<Event>): string {
    if t == [] then initial
    else
      var e := t[|t| - 1];
      if e.Got? && KeepsNonce(mode, cfg, e.reply) then e.reply.nonce
      else LatestNonce(mode, cfg, initial, t[..|t| - 1])
  }

  /** A reply of the token endpoint that hands out tokens: a readable 200 with an access token. */
  predicate HandsOut(reply: Reply, pair: TokenPair) {
    && reply.Reply? && reply.status == 200 && reply.body.Read?
    && reply.body.payload.tokens == Some(pair) && pair.access != ""
  }

  predicate HandsOutSome(reply: Reply) {
    && reply.Reply? && reply.body.Read? && reply.body.payload.tokens.Some?
    && HandsOut(reply, reply.body.payload.tokens.value)
  }

  /** The access token of the latest reply that handed one out. */
  function LatestAccess(initial: string, t: seq<Event>): string {
    if t == [] then initial
    else
      var e := t[|t| - 1];
      if e.RefreshGot? && HandsOutSome(e.reply) then e.reply.body.payload.tokens.value.access
      else LatestAccess(initial, t[..|t| - 1])
  }

  /** The latest refresh token handed out; a grant may leave it out. */
  function LatestRefresh(initial: string, t: seq<Event>): string {
    if t == [] then initial
    else
      var e := t[|t| - 1];
      if e.RefreshGot? && HandsOutSome(e.reply) && e.reply.body.payload.tokens.value.refresh != ""
      then e.reply.body.payload.tokens.value.refresh
      else LatestRefresh(initial, t[..|t| - 1])
  }

  lemma {:induction false} ReplayIsLatest(mode: Mode, cfg: Config, st: State, t: seq<Event>)
    ensures Replay(mode, cfg, st, t)
         == State(LatestAccess(st.access, t), LatestRefresh(st.refresh, t), LatestNonce(mode, cfg, st.nonce, t))
  {
    if t == [] {
    } else {
      var front, e := t[..|t| - 1], t[|t| - 1];
      ReplayIsLatest(mode, cfg, st, front);
      assert t == front + [e];
      ReplayConcat(mode, cfg, st, front, [e]);
      assert [e][1..] == [];
      assert Replay(mode, cfg, Replay(mode, cfg, st, front), [e])
             == Observe(mode, cfg, Replay(mode, cfg, st, front), e);
    }
  }

  predicate Supplies(headers: map<string, string>, name: string) {
    exists k :: k in headers && Canonical(k) == name
  }

  lemma {:induction false} StabiliseSupplies(cfg: Config, call: Call, draw: string, name: string)
    requires !Supplies(call.headers, name) && name != IDEMPOTENCY_KEY
    ensures !Supplies(Stabilise(cfg, call, draw).headers, name)
  {
    IdempotencyKeyIsCanonical();
  }

  lemma {:induction false} RequestCarriesProof(cfg: Config, st: State, call: Call, url: string, r: Round)
    requires cfg.dpop && r.jti.Some? && !Supplies(call.headers, DPOP)
    ensures var h := NewRequest(cfg, st, call, url, r).value.headers;
            DPOP in h && h[DPOP] == Proof(ProofClaims(st.nonce, r.jti.value, call.verb, url, st.access))
  {
    SetAllKeeps(OwnHeaders(cfg, st, call, url, r), call.headers, r.order, DPOP);
  }

  lemma {:induction false} RequestProof(cfg: Config, st: State, call: Call, url: string, r: Round)
    requires cfg.dpop && r.jti.Some? && !Supplies(call.headers, AUTHORIZATION) && !Supplies(call.headers, DPOP)
    ensures var h := NewRequest(cfg, st, call, url, r).value.headers;
            && DPOP in h && h[DPOP] == Proof(ProofClaims(st.nonce, r.jti.value, call.verb, url, st.access))
            && (st.access == "" ==> AUTHORIZATION !in h)
            && (st.access != "" ==> AUTHORIZATION in h && h[AUTHORIZATION] == Text("Bearer " + st.access))
  {
    RequestCarriesProof(cfg, st, call, url, r);
    SetAllKeeps(OwnHeaders(cfg, st, call, url, r), call.headers, r.order, AUTHORIZATION);
  }

  /** `h` carries a proof over `nonce` and over the very token in its Authorization header. */
  predicate ProofBinds(h: map<string, Value>, nonce: string, access: string) {
    && DPOP in h && h[DPOP].Proof?
    && h[DPOP].claims.nonce == (if nonce == "" then None else Some(nonce))
    && (if access == ""
        then AUTHORIZATION !in h && h[DPOP].claims.ath == None
        else && AUTHORIZATION in h && h[AUTHORIZATION] == Text("Bearer " + access)
             && h[DPOP].claims.ath == Some(Sha256(access)))
  }

  /**
   With DPoP on and no Authorization or DPoP header from the caller, every request of a run proves
   possession for the newest access token and answers the newest nonce the server gave.
   */
  lemma {:induction false} RunProofsBind(
      entry: Entry, cfg: Config, st: State, call: Call, draw: string, script: seq<Round>, i: nat)
    requires cfg.dpop && !Supplies(call.headers, AUTHORIZATION) && !Supplies(call.headers, DPOP)
    ensures var t := Run(entry, cfg, st, call, draw, script).trace;
            i < |t| && t[i].Sent? ==>
              ProofBinds(t[i].request.headers, LatestNonce(ModeOf(entry), cfg, st.nonce, t[..i]),
                  LatestAccess(st.access, t[..i]))
  {
    var mode, c := ModeOf(entry), Stabilise(cfg, call, draw);
    var t := Run(entry, cfg, st, call, draw, script).trace;
    if i < |t| && t[i].Sent? {
      EventOfRun(entry, cfg, st, call, draw, script, i);
      var now := Replay(mode, cfg, st, t[..i]);
      ReplayIsLatest(mode, cfg, st, t[..i]);
      var url := Urls.BuildUrl(cfg.url, c.path).value;
      var r := RoundsOf(entry, cfg, st, call, draw, script)[Sends(t[..i])];
      StabiliseSupplies(cfg, call, draw, AUTHORIZATION);
      StabiliseSupplies(cfg, call, draw, DPOP);
      RequestProof(cfg, now, c, url, r);
    }
  }

  lemma {:induction false} LatestIsLast(mode: Mode, cfg: Config, initial: string, t: seq<Event>, i: nat)
    requires i < |t| && t[i].Got? && KeepsNonce(mode, cfg, t[i].reply)
    ensures LatestNonce(mode, cfg, initial, t[..i + 1]) == t[i].reply.nonce
  {
    assert t[..i + 1][i] == t[i];
  }

  /** A request sent right after a nonce challenge carries that challenge's nonce. */
  lemma {:induction false} NonceResendCarriesNonce(
      entry: Entry, cfg: Config, st: State, call: Call, draw: string, script: seq<Round>, i: nat)
    requires cfg.dpop && !Supplies(call.headers, AUTHORIZATION) && !Supplies(call.headers, DPOP)
    ensures var t := Run(entry, cfg, st, call, draw, script).trace;
            i + 1 < |t| && t[i].Got? && NonceChallenge(cfg, t[i].reply) && t[i + 1].Sent? ==>
              var h := t[i + 1].request.headers;
              DPOP in h && h[DPOP].Proof? && h[DPOP].claims.nonce == Some(t[i].reply.nonce)
  {
    var t := Run(entry, cfg, st, call, draw, script).trace;
    if i + 1 < |t| && t[i].Got? && NonceChallenge(cfg, t[i].reply) {
      RunProofsBind(entry, cfg, st, call, draw, script, i + 1);
      LatestIsLast(ModeOf(entry), cfg, st.nonce, t, i);
    }
  }

  /** With DPoP on, a refresh proves a POST to its own URL and the newest nonce, and no access token. */
  predicate RefreshProofBinds(dpop: bool, proof: Option<Claims>, url: string, nonce: string) {
    && (proof.Some? <==> dpop)
    && (proof.Some? ==>
          && proof.value.htm == "POST" && proof.value.htu == url && proof.value.ath == None
          && proof.value.nonce == (if nonce == "" then None else Some(nonce)))
  }

  /** The token endpoint as it stands if it is absolute, and otherwise as a route of the API. */
  predicate TokenTarget(cfg: Config, url: string) {
    if HasPrefix(cfg.tokenEndpoint, "http://") || HasPrefix(cfg.tokenEndpoint, "https://")
    then url == cfg.tokenEndpoint
    else Urls.BuildUrl(cfg.url, cfg.tokenEndpoint) == Some(url)
  }

  /** Every refresh of a run presents the newest refresh token, or client credentials when there is none. */
  lemma {:induction false} RunRefreshesWithNewest(
      entry: Entry, cfg: Config, st: State, call: Call, draw: string, script: seq<Round>, i: nat)
    ensures var t := Run(entry, cfg, st, call, draw, script).trace;
            i < |t| && t[i].RefreshSent? ==>
              var newest := LatestRefresh(st.refresh, t[..i]);
              && t[i].grant == (if newest != "" then RefreshGrant(newest, cfg.clientId)
                                else ClientCredentials(cfg.clientId, cfg.clientSecret))
              && TokenTarget(cfg, t[i].url)
              && RefreshProofBinds(cfg.dpop, t[i].proof, t[i].url, LatestNonce(ModeOf(entry), cfg, st.nonce, t[..i]))
  {
    var t := Run(entry, cfg, st, call, draw, script).trace;
    if i < |t| && t[i].RefreshSent? {
      EventOfRun(entry, cfg, st, call, draw, script, i);
      ReplayIsLatest(ModeOf(entry), cfg, st, t[..i]);
    }
  }

  // -------------------------------------------------------------------- short runs

  /** Every round walks the caller's headers, each of them once, in some order. */
  ghost predicate WalksHeaders(call: Call, script: seq<Round>) {
    forall r :: r in script ==> Enumerates(r.order, call.headers.Keys)
  }

  /** A round in which the request goes unanswered. */
  function DeadRound(order: seq<string>): Round {
    Round(false, "", "", order, Some(""), NoReply, NotSent)
  }

  function TargetOf(cfg: Config, call: Call): string
    requires Preflight(cfg, call).None?
  {
    Urls.BuildUrl(cfg.url, call.path).value
  }

  /** The traffic of an attempt whose first reply ends it at once. */
  function FirstTraffic(cfg: Config, st: State, call: Call, r: Round): seq<Event>
    requires Preflight(cfg, call).None? && r.jti.Some?
  {
    [Sent(NewRequest(cfg, st, call, TargetOf(cfg, call), r).value), Got(r.reply)]
  }

  /** The first reply ends the call with an error. */
  predicate EndsAtOnce(entry: Entry, cfg: Config, st: State, r: Round) {
    var s := OnReply(ModeOf(entry), cfg, st, r, true);
    r.jti.Some? && s.stop.Some? && s.stop.value.Failed?
  }

  /** And the error may be retried. */
  predicate FailsAtOnce(entry: Entry, cfg: Config, st: State, r: Round) {
    var s := OnReply(ModeOf(entry), cfg, st, r, true);
    EndsAtOnce(entry, cfg, st, r) && s.events == [] && Retry(s.stop.value)
  }

  lemma {:induction false} ShortAttempt(entry: Entry, cfg: Config, st: State, call: Call, script: seq<Round>)
    requires Preflight(cfg, call).None? && script != [] && EndsAtOnce(entry, cfg, st, script[0])
    ensures var s := OnReply(ModeOf(entry), cfg, st, script[0], true);
            AttemptOf(entry, cfg, call)(st, script)
            == Result(s.st, FirstTraffic(cfg, st, call, script[0]) + s.events, script[1..], Finished(s.stop.value))
  {
  }

  lemma {:induction false} TwoAttempts(f: Attempts, maxRetries: int, st: State, script: seq<Round>)
    requires maxRetries >= 1 && |script| == 2 && !script[1].ctxDone
    requires var a := f(st, script);
             && a.rest == script[1..] && a.progress.Finished? && Retry(a.progress.outcome)
             && var b := f(a.st, script[1..]); b.rest == [] && b.progress.Finished?
    ensures var a := f(st, script);
            Loop(f, maxRetries, st, script, 0, Nil).trace == a.trace + f(a.st, script[1..]).trace
  {
    var a := f(st, script);
    var b := f(a.st, script[1..]);
    assert Loop(f, maxRetries, b.st, [], 2, b.progress.outcome).trace == [];
    assert Loop(f, maxRetries, a.st, script[1..], 1, a.progress.outcome).trace == b.trace + [];
  }

  /** Two attempts that each end at the first reply: both requests are on the wire. */
  lemma {:induction false} TwoShortAttempts(
      entry: Entry, cfg: Config, st: State, call: Call, draw: string, a: Round, b: Round)
    requires cfg.maxRetries >= 1 && Preflight(cfg, call).None? && !b.ctxDone
    requires FailsAtOnce(entry, cfg, st, a) && EndsAtOnce(entry, cfg, OnReply(ModeOf(entry), cfg, st, a, true).st, b)
    ensures var c, next := Stabilise(cfg, call, draw), OnReply(ModeOf(entry), cfg, st, a, true).st;
            Run(entry, cfg, st, call, draw, [a, b]).trace
            == FirstTraffic(cfg, st, c, a)
               + (FirstTraffic(cfg, next, c, b) + OnReply(ModeOf(entry), cfg, next, b, true).events)
  {
    var c := Stabilise(cfg, call, draw);
    var script := [a, b];
    assert script[1..] == [b] && [b][1..] == [];
    ShortAttempt(entry, cfg, st, c, script);
    assert FirstTraffic(cfg, st, c, a) + [] == FirstTraffic(cfg, st, c, a);
    ShortAttempt(entry, cfg, OnReply(ModeOf(entry), cfg, st, a, true).st, c, [b]);
    TwoAttempts(AttemptOf(entry, cfg, c), cfg.maxRetries, st, script);
  }

  /** A run with no retries is its one attempt. */
  lemma {:induction false} SingleAttempt(f: Attempts, maxRetries: int, st: State, script: seq<Round>)
    requires maxRetries <= 0
    ensures Loop(f, maxRetries, st, script, 0, Nil).trace == if maxRetries < 0 then [] else f(st, script).trace
  {
    var a := f(st, script);
    if maxRetries == 0 && a.progress.Finished? {
      assert Loop(f, maxRetries, a.st, a.rest, 1, a.progress.outcome).trace == [];
    }
  }

  /** A run with no retries is one call. */
  lemma {:induction false} RunIsOneCall(
      entry: Entry, cfg: Config, st: State, call: Call, draw: string, script: seq<Round>)
    requires cfg.maxRetries == 0
    ensures Run(entry, cfg, st, call, draw, script).trace
         == SendRequest(ModeOf(entry), cfg, st, Stabilise(cfg, call, draw), script).trace
  {
    SingleAttempt(AttemptOf(entry, cfg, Stabilise(cfg, call, draw)), 0, st, script);
  }

  /** A call that fails before it sends anything sends nothing in any attempt. */
  lemma {:induction false} PreflightSendsNothing(
      entry: Entry, cfg: Config, st: State, call: Call, draw: string, script: seq<Round>)
    requires Preflight(cfg, call).Some?
    ensures Run(entry, cfg, st, call, draw, script).trace == []
  {
    var c := Stabilise(cfg, call, draw);
    var a := AttemptOf(entry, cfg, c)(st, script);
    assert a.trace == [] && a.progress == Finished(Failed(Preflight(cfg, c).value));
    assert !Retry(a.progress.outcome);
  }

  /** A refresh can be attempted. */
  predicate Refreshable(cfg: Config, st: State) {
    CanRefresh(cfg, st) && TokenUrl(cfg).Some?
  }

  // ------------------------------------------------------------------ rate limits

  predicate ReadableRateLimit(reply: Reply) {
    reply.Reply? && reply.status == 429 && reply.body.Read?
  }

  /** A 429 reply ends its call, with an error that may be retried exactly when its body could not be read. */
  lemma {:induction false} RateLimitReply(mode: Mode, cfg: Config, st: State, r: Round, allow: bool)
    requires r.reply.Reply? && r.reply.status == 429
    ensures var s := OnReply(mode, cfg, st, r, allow);
            && s.events == [] && s.stop.Some? && s.stop.value.Failed?
            && (s.stop.value.error.RateLimited? <==> r.reply.body.Read?)
            && (Retry(s.stop.value) <==> !r.reply.body.Read?)
  {
  }

  /** In the result of a call, a readable 429 can only be the last event, and the call's error says so. */
  ghost predicate RateLimitFinal(t: seq<Event>, p: Progress) {
    forall i :: 0 <= i < |t| && t[i].Got? && ReadableRateLimit(t[i].reply) ==>
      i == |t| - 1 && p.Finished? && p.outcome.Failed? && p.outcome.error.RateLimited?
  }

  ghost predicate StepRateLimit(r: Round, s: Step) {
    && (forall i :: 0 <= i < |s.events| && s.events[i].Got? ==> i == 1 && s.events[i].reply == r.reply)
    && (s.events != [] && ReadableRateLimit(r.reply) ==>
          |s.events| == 2 && s.stop.Some? && s.stop.value.Failed? && s.stop.value.error.RateLimited?)
  }

  lemma {:induction false} RequestRateLimit(
      mode: Mode, cfg: Config, st: State, call: Call, url: string, r: Round, allow: bool)
    ensures StepRateLimit(r, OneRequest(mode, cfg, st, call, url, r, allow))
  {
    var s := OneRequest(mode, cfg, st, call, url, r, allow);
    ReplyShapes(mode, cfg, st, r, allow);
    if s.events != [] {
      assert s.events[2..] == OnReply(mode, cfg, st, r, allow).events;
      assert forall i :: 2 <= i < |s.events| ==> s.events[i] == s.events[2..][i - 2];
      if ReadableRateLimit(r.reply) {
        RateLimitReply(mode, cfg, st, r, allow);
      }
    }
  }

  lemma {:induction false} ResendRateLimit(step: Steps, st: State, script: seq<Round>, allow: bool)
    requires forall s, r, a :: StepRateLimit(r, step(s, r, a))
    ensures var r := Resend(step, st, script, allow); RateLimitFinal(r.trace, r.progress)
    decreases |script|
  {
    if script == [] {
    } else {
      var s := step(st, script[0], allow);
      assert StepRateLimit(script[0], s);
      if s.stop.None? {
        ResendRateLimit(step, s.st, script[1..], false);
      }
    }
  }

  lemma {:induction false} LoopRateLimit(
      f: Attempts, maxRetries: int, st: State, script: seq<Round>, attempt: nat, last: Outcome)
    requires forall s, rounds :: RateLimitFinal(f(s, rounds).trace, f(s, rounds).progress)
    ensures var r := Loop(f, maxRetries, st, script, attempt, last); RateLimitFinal(r.trace, r.progress)
    decreases maxRetries + 1 - attempt
  {
    if attempt <= maxRetries && !(attempt > 0 && (script == [] || script[0].ctxDone)) {
      var a := f(st, script);
      assert RateLimitFinal(a.trace, a.progress);
      if a.progress.Finished? && Retry(a.progress.outcome) {
        LoopRateLimit(f, maxRetries, a.st, a.rest, attempt + 1, a.progress.outcome);
      }
    }
  }

  /** An unreadable 429 does not end the run: with an attempt left, the next request goes out. */
  lemma {:induction false} UnreadableRateLimitIsRetried(
      entry: Entry, cfg: Config, st: State, call: Call, draw: string, a: Round)
    requires cfg.maxRetries >= 1 && Preflight(cfg, call).None?
    requires a.jti.Some? && a.reply.Reply? && a.reply.status == 429 && !a.reply.body.Read?
    ensures var t := Run(entry, cfg, st, call, draw, [a, DeadRound([])]).trace;
            Sends(t) == 2 && |t| == 4 && t[1] == Got(a.reply)
  {
    var c := Stabilise(cfg, call, draw);
    RateLimitReply(ModeOf(entry), cfg, st, a, true);
    TwoShortAttempts(entry, cfg, st, call, draw, a, DeadRound([]));
    var t := FirstTraffic(cfg, st, c, a);
    var u := FirstTraffic(cfg, OnReply(ModeOf(entry), cfg, st, a, true).st, c, DeadRound([])) + [];
    CountsAdd(t, u);
    CountTwo(t);
    CountTwo(u);
  }

  /** A 429 with a readable body is the last reply of the run, whatever the retry limit. */
  lemma {:induction false} RateLimitEndsRun(
      entry: Entry, cfg: Config, st: State, call: Call, draw: string, script: seq<Round>)
    ensures var r := Run(entry, cfg, st, call, draw, script); RateLimitFinal(r.trace, r.progress)
  {
    var c := Stabilise(cfg, call, draw);
    var f := AttemptOf(entry, cfg, c);
    forall s, rounds ensures RateLimitFinal(f(s, rounds).trace, f(s, rounds).progress) {
      if Preflight(cfg, c).None? {
        var url := Urls.BuildUrl(cfg.url, c.path).value;
        forall x, r, a ensures StepRateLimit(r, OneRequest(ModeOf(entry), cfg, x, c, url, r, a)) {
          RequestRateLimit(ModeOf(entry), cfg, x, c, url, r, a);
        }
        ResendRateLimit(StepOf(ModeOf(entry), cfg, c, url), s, rounds, true);
      }
    }
    LoopRateLimit(f, cfg.maxRetries, st, script, 0, Nil);
  }

  predicate RateLimit(reply: Reply) {
    reply.Reply? && reply.status == 429
  }

  /** Every 429 in the traffic is its last event. */
  ghost predicate RateLimitLast(t: seq<Event>) {
    forall i :: 0 <= i < |t| && t[i].Got? && RateLimit(t[i].reply) ==> i == |t| - 1
  }

  lemma {:induction false} RequestRateLimitLast(
      mode: Mode, cfg: Config, st: State, call: Call, url: string, r: Round, allow: bool)
    ensures var s := OneRequest(mode, cfg, st, call, url, r, allow);
            && (forall i :: 0 <= i < |s.events| && s.events[i].Got? ==> i == 1 && s.events[i].reply == r.reply)
            && (s.events != [] && RateLimit(r.reply) ==> |s.events| == 2 && s.stop.Some?)
  {
    RequestRateLimit(mode, cfg, st, call, url, r, allow);
    if RateLimit(r.reply) {
      RateLimitReply(mode, cfg, st, r, allow);
    }
  }

  lemma {:induction false} CallRateLimitLast(
      mode: Mode, cfg: Config, st: State, call: Call, url: string, script: seq<Round>, allow: bool)
    ensures RateLimitLast(Resend(StepOf(mode, cfg, call, url), st, script, allow).trace)
    decreases |script|
  {
    if script == [] {
    } else {
      var s := OneRequest(mode, cfg, st, call, url, script[0], allow);
      RequestRateLimitLast(mode, cfg, st, call, url, script[0], allow);
      if s.stop.None? {
        CallRateLimitLast(mode, cfg, s.st, call, url, script[1..], false);
      }
    }
  }

  ghost predicate RateLimitAlwaysLast(entry: Entry, cfg: Config, st: State, call: Call, draw: string) {
    forall script :: RateLimitLast(Run(entry, cfg, st, call, draw, script).trace)
  }

  /** In every run each 429, readable or not, is the last event if and only if nothing is sent or nothing is retried. */
  lemma {:induction false} RateLimitExact(entry: Entry, cfg: Config, st: State, call: Call, draw: string)
    ensures RateLimitAlwaysLast(entry, cfg, st, call, draw) <==> Preflight(cfg, call).Some? || cfg.maxRetries <= 0
  {
    var c := Stabilise(cfg, call, draw);
    if Preflight(cfg, call).None? && cfg.maxRetries >= 1 {
      var a := DeadRound([]).(reply := Reply(429, "", Broken));
      UnreadableRateLimitIsRetried(entry, cfg, st, call, draw, a);
      assert !RateLimitLast(Run(entry, cfg, st, call, draw, [a, DeadRound([])]).trace);
    } else {
      forall script ensures RateLimitLast(Run(entry, cfg, st, call, draw, script).trace) {
        if Preflight(cfg, call).Some? {
          PreflightSendsNothing(entry, cfg, st, call, draw, script);
        } else if cfg.maxRetries < 0 {
          SingleAttempt(AttemptOf(entry, cfg, c), cfg.maxRetries, st, script);
        } else {
          RunIsOneCall(entry, cfg, st, call, draw, script);
          CallRateLimitLast(ModeOf(entry), cfg, st, c, TargetOf(cfg, c), script, true);
        }
      }
    }
  }
}
