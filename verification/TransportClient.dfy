/**
 The client object: tokens, prover and the retry loops, step by step, each method proved
 against the functional engine in `Transport`.
 */
module TransportClient {
  import opened Options
  import opened ApiErr
  import opened Dpop
  import opened Headers
  import opened Transport

  class Client {
    const cfg: Config
    const prover: Prover?
    var currentToken: string
    var currentRefresh: string

    // The environment: replies still to come, and what has gone over the wire.
    var script: seq<Round>
    var trace: seq<Event>

    ghost predicate Valid() {
      cfg.dpop <==> prover != null
    }

    ghost function View(): State
      reads this, prover
    {
      State(currentToken, currentRefresh, if prover == null then "" else prover.serverNonce)
    }

    constructor (cfg: Config, access: string, refresh: string, script: seq<Round>)
      ensures Valid() && View() == State(access, refresh, "") && this.script == script && trace == []
      ensures this.cfg == cfg && (prover != null ==> fresh(prover))
    {
      this.cfg := cfg;
      if cfg.dpop {
        var p := new Prover();
        prover := p;
      } else {
        prover := null;
      }
      currentToken, currentRefresh := access, refresh;
      this.script, trace := script, [];
    }

    method SetAccessToken(token: string)
      modifies this`currentToken
      ensures View() == old(View()).(access := token)
    {
      currentToken := token;
    }

    method SetRefreshToken(token: string)
      modifies this`currentRefresh
      ensures View() == old(View()).(refresh := token)
    {
      currentRefresh := token;
    }

    method CanRefreshToken() returns (can: bool)
      ensures can == CanRefresh(cfg, View())
    {
      if cfg.tokenEndpoint == "" {
        return false;
      }
      can := currentRefresh != "" || (cfg.clientId != "" && cfg.clientSecret != "");
    }

    /** `attemptTokenRefresh`: both tokens change together, or neither does. */
    method AttemptTokenRefresh(r: RefreshRound) returns (granted: bool)
      requires Valid()
      modifies this`currentToken, this`currentRefresh, this`trace
      ensures var f := AttemptRefresh(cfg, old(View()), r);
              View() == f.st && trace == old(trace) + f.events && granted == f.granted
    {
      var grant := if currentRefresh != "" then RefreshGrant(currentRefresh, cfg.clientId)
                   else ClientCredentials(cfg.clientId, cfg.clientSecret);
      var url := TokenUrl(cfg);
      if r.NotSent? || url.None? {
        return false;
      }
      var proof: Option<Claims> := None;
      if prover != null {
        proof := prover.CreateProof(Some(r.jti), "POST", url.value, "");
      }
      trace := trace + [RefreshSent(url.value, grant, proof), RefreshGot(r.reply)];
      match Granted(r.reply) {
        case None =>
          return false;
        case Some(pair) =>
          currentToken := pair.access;
          if pair.refresh != "" {
            currentRefresh := pair.refresh;
          }
          return true;
      }
    }

    /** `newRequest`: the client's own headers, then the caller's on top. */
    method BuildRequest(call: Call, url: string, r: Round) returns (q: Option<Request>)
      requires Valid()
      ensures q == NewRequest(cfg, View(), call, url, r)
    {
      if prover != null && r.jti.None? {
        return None;
      }
      var h := map[
        "Content-Type" := Text("application/json"),
        "Accept" := Text("application/json"),
        "User-Agent" := Text(cfg.userAgent)];
      if cfg.tenantId != "" {
        h := h["X-Tenant-Id" := Text(cfg.tenantId)];
      }
      h := h["X-Request-Id" := Text(r.requestId)];
      if call.verb != "GET" && call.verb != "HEAD" {
        h := h[IDEMPOTENCY_KEY := Text(cfg.idempotencyKeyPrefix + r.keyDraw)];
      }
      if currentToken != "" {
        h := h[AUTHORIZATION := Text("Bearer " + currentToken)];
      }
      if cfg.attestationToken != "" {
        h := h["X-Attestation-Token" := Text(cfg.attestationToken)];
      }
      if prover != null {
        var proof := prover.CreateProof(r.jti, call.verb, url, currentToken);
        h := h[DPOP := Proof(proof.value)];
      }
      ghost var own := h;
      assert own == OwnHeaders(cfg, View(), call, url, r);
      for i := 0 to |r.order|
        invariant h == SetAll(own, call.headers, r.order[..i])
      {
        assert r.order[..i + 1][..i] == r.order[..i];
        if r.order[i] in call.headers {
          h := h[Canonical(r.order[i]) := Text(call.headers[r.order[i]])];
        }
      }
      assert r.order[..|r.order|] == r.order;
      q := Some(Request(call.verb, url, h));
    }

    ghost predicate Reached(before: seq<Event>, r: Result, p: Progress)
      reads this, prover
    {
      View() == r.st && trace == before + r.trace && script == r.rest && p == r.progress
    }

    /** Step `s` has been taken since the wire looked like `before`. */
    ghost predicate Stepped(before: seq<Event>, s: Step, stop: Option<Outcome>)
      reads this, prover
    {
      View() == s.st && trace == before + s.events && stop == s.stop
    }

    /** The tail of both calls for a status of 400 or more; no outcome means: send again. */
    method HandleErrorStatus(r: Round, allowNonceRetry: bool, status: int, nonce: string, payload: Payload)
      returns (stop: Option<Outcome>)
      requires Valid()
      modifies this`trace, this`currentToken, this`currentRefresh
      ensures Stepped(old(trace), OnErrorStatus(cfg, old(View()), r, allowNonceRetry, status, nonce, payload), stop)
    {
      if allowNonceRetry && status == 401 && prover != null && ShouldRetryNonce(status, nonce, payload) {
        return None;
      }
      var can := CanRefreshToken();
      if status == 401 && can && !ShouldRetryNonce(status, nonce, payload) {
        var granted := AttemptTokenRefresh(r.refresh);
        if granted {
          return None;
        }
      }
      return Some(Failed(ErrorFromResponse(status, payload)));
    }

    method KeepNonce(nonce: string)
      requires Valid()
      modifies prover
      ensures View() == StoreNonce(cfg, old(View()), nonce)
    {
      if nonce != "" && prover != null {
        prover.SetServerNonce(nonce);
      }
    }

    /** `doHTTP` from the reply on: read the body, keep the nonce, look at the status. */
    method HandleHttpReply(r: Round, allowNonceRetry: bool) returns (stop: Option<Outcome>)
      requires Valid()
      modifies this`trace, this`currentToken, this`currentRefresh, prover
      ensures Stepped(old(trace), HttpReply(cfg, old(View()), r, allowNonceRetry), stop)
    {
      if r.reply.NoReply? {
        return Some(Failed(Plain(ApiError(SERVICE_UNAVAILABLE, 0))));
      }
      var Reply(status, nonce, body) := r.reply;
      if !body.Read? {
        return Some(Failed(ReadFailure(body, status)));
      }
      KeepNonce(nonce);
      if status >= 400 {
        stop := HandleErrorStatus(r, allowNonceRetry, status, nonce, body.payload);
      } else {
        stop := Some(Response(status, body));
      }
    }

    /** `doStream` from the reply on: keep the nonce, hand a success over unread, read an error body. */
    method HandleStreamReply(r: Round, allowNonceRetry: bool) returns (stop: Option<Outcome>)
      requires Valid()
      modifies this`trace, this`currentToken, this`currentRefresh, prover
      ensures Stepped(old(trace), StreamReply(cfg, old(View()), r, allowNonceRetry), stop)
    {
      if r.reply.NoReply? {
        return Some(Failed(Plain(ApiError(SERVICE_UNAVAILABLE, 0))));
      }
      var Reply(status, nonce, body) := r.reply;
      KeepNonce(nonce);
      if status < 400 {
        stop := Some(Response(status, body));
      } else if !body.Read? {
        stop := Some(Failed(ReadFailure(body, status)));
      } else {
        stop := HandleErrorStatus(r, allowNonceRetry, status, nonce, body.payload);
      }
    }

    /** Build, send and act on the reply. */
    method TakeStep(mode: Mode, call: Call, url: string, r: Round, allowNonceRetry: bool)
      returns (stop: Option<Outcome>)
      requires Valid()
      modifies this`trace, this`currentToken, this`currentRefresh, prover
      ensures Stepped(old(trace), StepOf(mode, cfg, call, url)(old(View()), r, allowNonceRetry), stop)
    {
      var q := BuildRequest(call, url, r);
      if q.None? {
        return Some(Failed(Plain(ApiError(AUTH_DPOP_INVALID, 0))));
      }
      trace := trace + [Sent(q.value), Got(r.reply)];
      match mode {
        case Http => stop := HandleHttpReply(r, allowNonceRetry);
        case Stream => stop := HandleStreamReply(r, allowNonceRetry);
      }
      Assoc(old(trace), [Sent(q.value), Got(r.reply)], OnReply(mode, cfg, old(View()), r, allowNonceRetry).events);
    }

    /** `doHTTP` and `doStream`: the recursion, once the URL and the body are known to be good. */
    method SendAgain(mode: Mode, call: Call, url: string, allowNonceRetry: bool, ghost step: Steps)
      returns (p: Progress)
      requires Valid() && step == StepOf(mode, cfg, call, url)
      modifies this`script, this`trace, this`currentToken, this`currentRefresh, prover
      ensures Reached(old(trace), Resend(step, old(View()), old(script), allowNonceRetry), p)
      decreases |script|
    {
      if script == [] {
        return Waiting;
      }
      var r := script[0];
      ghost var s := step(View(), r, allowNonceRetry);
      script := script[1..];
      var stop := TakeStep(mode, call, url, r, allowNonceRetry);
      if stop.Some? {
        p := Finished(stop.value);
      } else {
        ghost var again := Resend(step, View(), script, false);
        p := SendAgain(mode, call, url, false, step);
        Assoc(old(trace), s.events, again.trace);
      }
    }

    method Send(mode: Mode, call: Call) returns (p: Progress)
      requires Valid()
      modifies this`script, this`trace, this`currentToken, this`currentRefresh, prover
      ensures Reached(old(trace), SendRequest(mode, cfg, old(View()), call, old(script)), p)
    {
      var url := Urls.BuildUrl(cfg.url, call.path);
      if url.None? {
        return Finished(Failed(Plain(ApiError(VALIDATION_ERROR, 0))));
      }
      if !call.marshals || !call.wellFormed {
        return Finished(Failed(Plain(ApiError(INTERNAL_ERROR, 0))));
      }
      p := SendAgain(mode, call, url.value, true, StepOf(mode, cfg, call, url.value));
    }

    method OneAttempt(entry: Entry, call: Call) returns (p: Progress)
      requires Valid()
      modifies this`script, this`trace, this`currentToken, this`currentRefresh, prover
      ensures Reached(old(trace), AttemptOf(entry, cfg, call)(old(View()), old(script)), p)
    {
      match entry {
        case Do =>
          p := Send(Http, call);
          if p.Finished? {
            p := Finished(DecodeInto(call, p.outcome));
          }
        case DoRaw => p := Send(Http, call);
        case DoStream => p := Send(Stream, call);
      }
    }

    ghost predicate RunReached(before: seq<Event>, r: RunResult, p: Progress)
      reads this, prover
    {
      View() == r.st && trace == before + r.trace && script == r.rest && p == r.progress
    }

    /** The loop shared by `doWithRetry`, `doRawWithRetry` and `doStreamWithRetry`. */
    method RetryLoop(entry: Entry, call: Call, ghost f: Attempts) returns (p: Progress)
      requires Valid() && f == AttemptOf(entry, cfg, call)
      modifies this`script, this`trace, this`currentToken, this`currentRefresh, prover
      ensures RunReached(old(trace), Loop(f, cfg.maxRetries, old(View()), old(script), 0, Nil), p)
    {
      ghost var whole := Loop(f, cfg.maxRetries, View(), script, 0, Nil);
      ghost var done: seq<Event> := [];
      var attempt := 0;
      var lastErr := Nil;
      while attempt <= cfg.maxRetries
        invariant 0 <= attempt && trace == old(trace) + done
        invariant Continues(whole, done, Loop(f, cfg.maxRetries, View(), script, attempt, lastErr))
        decreases cfg.maxRetries + 1 - attempt
      {
        if attempt > 0 && script == [] {
          return Waiting;
        }
        if attempt > 0 && script[0].ctxDone {
          return Finished(Failed(Cancelled));
        }
        ghost var a := f(View(), script);
        ghost var now := Loop(f, cfg.maxRetries, View(), script, attempt, lastErr);
        p := OneAttempt(entry, call);
        Assoc(old(trace), done, a.trace);
        if p.Waiting? || !Retry(p.outcome) {
          return;
        }
        lastErr := p.outcome;
        attempt := attempt + 1;
        ContinuesFurther(whole, done, now, a.trace, Loop(f, cfg.maxRetries, View(), script, attempt, lastErr));
        done := done + a.trace;
      }
      p := Finished(lastErr);
    }

    method RunWithRetry(entry: Entry, call: Call, draw: string) returns (p: Progress)
      requires Valid()
      modifies this`script, this`trace, this`currentToken, this`currentRefresh, prover
      ensures RunReached(old(trace), Run(entry, cfg, old(View()), call, draw, old(script)), p)
    {
      var stable := call.(headers := StableHeaders(cfg, call.verb, call.headers, draw));
      p := RetryLoop(entry, stable, AttemptOf(entry, cfg, stable));
    }
  }

  /** Of the run `whole`, the traffic `done` is behind and `rest` is still to come. */
  ghost predicate Continues(whole: RunResult, done: seq<Event>, rest: RunResult) {
    whole.st == rest.st && whole.trace == done + rest.trace && whole.rest == rest.rest
        && whole.progress == rest.progress
  }

  lemma Assoc(a: seq<Event>, b: seq<Event>, c: seq<Event>)
    ensures a + b + c == a + (b + c)
  {
  }

  lemma ContinuesFurther(whole: RunResult, done: seq<Event>, now: RunResult, more: seq<Event>, next: RunResult)
    requires Continues(whole, done, now)
    requires now.st == next.st && now.trace == more + next.trace && now.rest == next.rest
             && now.progress == next.progress
    ensures Continues(whole, done + more, next)
  {
    assert done + (more + next.trace) == done + more + next.trace;
  }
}
