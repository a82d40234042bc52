/**
 What a run puts on the wire and what becomes of every reply, in terms of the call, the configuration, the script
 and the replies alone.
 */
module TransportWire {
  import opened Options
  import opened ApiErr
  import opened Dpop
  import opened GoStrings
  import opened Headers
  import opened Counting
  import opened Transport
  import opened TransportProofs
  import opened TransportLaws
  import opened TransportKeys
  import opened TransportCompare

  // ------------------------------------------------------------------ what is refused

  predicate AbsoluteUrl(p: string) {
    HasPrefix(p, "http://") || HasPrefix(p, "https://")
  }

  /** The call cannot be sent, whatever the server would say. */
  predicate Refused(call: Call) {
    AbsoluteUrl(TrimSpace(call.path)) || !call.marshals || !call.wellFormed
  }

  /** Calls that cannot be sent fail at once with a validation or an internal error, and only they are held back. */
  lemma {:induction false} RefusedExactly(
      entry: Entry, cfg: Config, st: State, call: Call, draw: string, script: seq<Round>)
    ensures Preflight(cfg, call).Some? <==> Refused(call)
    ensures Refused(call) && cfg.maxRetries >= 0 ==>
              var code := if AbsoluteUrl(TrimSpace(call.path)) then "VALIDATION_ERROR" else "INTERNAL_ERROR";
              var r := Run(entry, cfg, st, call, draw, script);
              && r.trace == [] && r.st == st && r.rest == script
              && r.progress == Finished(Failed(Plain(ApiError(code, 0))))
  {
    Urls.AbsoluteIsRefused(cfg.url, call.path);
  }

  /** With DPoP on and no proof to be had, nothing is sent and the run fails. */
  lemma {:induction false} NoProofNoRequest(
      entry: Entry, cfg: Config, st: State, call: Call, draw: string, script: seq<Round>)
    requires cfg.dpop && cfg.maxRetries >= 0 && !Refused(call) && script != [] && script[0].jti.None?
    ensures var r := Run(entry, cfg, st, call, draw, script);
            r.trace == [] && r.st == st && r.progress == Finished(Failed(Plain(ApiError("AUTH_DPOP_INVALID", 0))))
  {
    RefusedExactly(entry, cfg, st, call, draw, script);
  }

  // ------------------------------------------------------------------ what is sent

  function Lookup(h: map<string, Value>, name: string): Option<Value> {
    if name in h then Some(h[name]) else None
  }

  function NonEmpty(text: string): Option<string> {
    if text == "" then None else Some(text)
  }

  /** What the header `name` of a request says when the caller does not say it. */
  function Standard(
      cfg: Config, verb: string, draw: string, access: string, nonce: string, url: string, r: Round, name: string)
    : Option<Value>
    requires cfg.dpop ==> r.jti.Some?
  {
    if name == "Content-Type" || name == "Accept" then Some(Text("application/json"))
    else if name == "User-Agent" then Some(Text(cfg.userAgent))
    else if name == "X-Request-Id" then Some(Text(r.requestId))
    else if name == "X-Tenant-Id" && cfg.tenantId != "" then Some(Text(cfg.tenantId))
    else if name == "X-Attestation-Token" && cfg.attestationToken != "" then Some(Text(cfg.attestationToken))
    else if name == "Authorization" && access != "" then Some(Text("Bearer " + access))
    else if name == "Idempotency-Key" && NeedsKey(verb) then Some(Text(cfg.idempotencyKeyPrefix + draw))
    else if name == "Idempotency-Key" && !Keyless(verb) then Some(Text(cfg.idempotencyKeyPrefix + r.keyDraw))
    else if name == "Dpop" && cfg.dpop then
      var ath := if access == "" then None else Some(Sha256(access));
      Some(Proof(Claims(r.jti.value, verb, url, NonEmpty(nonce), ath)))
    else None
  }

  predicate AgreesOn(headers: map<string, string>, name: string) {
    forall k, l :: k in headers && l in headers && Canonical(k) == name && Canonical(l) == name ==>
      headers[k] == headers[l]
  }

  /** Every header of the request is the caller's where the caller supplies it, and the standard one otherwise. */
  ghost predicate HeadersOk(
      cfg: Config, call: Call, draw: string, access: string, nonce: string, r: Round, q: Request)
    requires cfg.dpop ==> r.jti.Some?
  {
    && (forall name :: !Supplies(call.headers, name) ==>
          Lookup(q.headers, name) == Standard(cfg, call.verb, draw, access, nonce, q.url, r, name))
    && (forall k :: k in call.headers && AgreesOn(call.headers, Canonical(k)) ==>
          Lookup(q.headers, Canonical(k)) == Some(Text(call.headers[k])))
  }

  /** The client's own headers, name by name. */
  lemma {:induction false} OwnHeader(cfg: Config, st: State, call: Call, url: string, r: Round, name: string)
    requires cfg.dpop ==> r.jti.Some?
    requires name == IDEMPOTENCY_KEY ==> !NeedsKey(call.verb)
    ensures forall draw :: Lookup(OwnHeaders(cfg, st, call, url, r), name)
                        == Standard(cfg, call.verb, draw, st.access, st.nonce, url, r, name)
  {
  }

  lemma {:induction false} KeyIsSupplied(headers: map<string, string>)
    ensures SuppliesKey(headers) <==> Supplies(headers, IDEMPOTENCY_KEY)
  {
    forall k | k in headers ensures EqualFold(k, IDEMPOTENCY_KEY) <==> Canonical(k) == IDEMPOTENCY_KEY {
      FoldIsCanonical(k);
    }
  }

  /** The caller leaves `name` alone. */
  lemma {:induction false} StandardHeader(
      cfg: Config, st: State, call: Call, draw: string, url: string, r: Round, name: string)
    requires (cfg.dpop ==> r.jti.Some?) && !Supplies(call.headers, name)
    requires Enumerates(r.order, Stabilise(cfg, call, draw).headers.Keys)
    ensures Lookup(NewRequest(cfg, st, Stabilise(cfg, call, draw), url, r).value.headers, name)
         == Standard(cfg, call.verb, draw, st.access, st.nonce, url, r, name)
  {
    var c := Stabilise(cfg, call, draw);
    var own := OwnHeaders(cfg, st, c, url, r);
    KeyIsSupplied(call.headers);
    if name == IDEMPOTENCY_KEY && NeedsKey(call.verb) {
      IdempotencyKeyIsCanonical();
      assert c.headers == call.headers[IDEMPOTENCY_KEY := cfg.idempotencyKeyPrefix + draw];
      assert IDEMPOTENCY_KEY in r.order;
      SetAllOverrides(own, c.headers, r.order, name, cfg.idempotencyKeyPrefix + draw);
    } else {
      if name != IDEMPOTENCY_KEY {
        StabiliseSupplies(cfg, call, draw, name);
      }
      SetAllKeeps(own, c.headers, r.order, name);
      OwnHeader(cfg, st, c, url, r, name);
    }
  }

  /** The caller says `name`, under agreeing spellings. */
  lemma {:induction false} SuppliedHeader(
      cfg: Config, st: State, call: Call, draw: string, url: string, r: Round, k: string)
    requires (cfg.dpop ==> r.jti.Some?) && k in call.headers && AgreesOn(call.headers, Canonical(k))
    requires Enumerates(r.order, Stabilise(cfg, call, draw).headers.Keys)
    ensures Lookup(NewRequest(cfg, st, Stabilise(cfg, call, draw), url, r).value.headers, Canonical(k))
         == Some(Text(call.headers[k]))
  {
    var c := Stabilise(cfg, call, draw);
    KeyIsSupplied(call.headers);
    IdempotencyKeyIsCanonical();
    assert k in c.headers && c.headers[k] == call.headers[k];
    forall x | x in c.headers && Canonical(x) == Canonical(k) ensures c.headers[x] == call.headers[k] {
      assert x in call.headers;
    }
    assert k in r.order;
    SetAllOverrides(OwnHeaders(cfg, st, c, url, r), c.headers, r.order, Canonical(k), call.headers[k]);
  }

  /**
   Every request of a run has the caller's method and the call's URL. Each of its headers is the caller's own, or the
   standard one for the newest access token, the newest nonce and the round of the script this request is for.
   */
  lemma {:induction false} RunRequests(
      entry: Entry, cfg: Config, st: State, call: Call, draw: string, script: seq<Round>, i: nat)
    requires WalksHeaders(Stabilise(cfg, call, draw), script)
    ensures var t, used := Run(entry, cfg, st, call, draw, script).trace, RoundsOf(entry, cfg, st, call, draw, script);
            i < |t| && t[i].Sent? ==>
              && t[i].request.verb == call.verb && Urls.BuildUrl(cfg.url, call.path) == Some(t[i].request.url)
              && Sends(t[..i]) < |used| && Sending(cfg, used[Sends(t[..i])])
              && HeadersOk(cfg, call, draw, LatestAccess(st.access, t[..i]),
                   LatestNonce(ModeOf(entry), cfg, st.nonce, t[..i]), used[Sends(t[..i])], t[i].request)
  {
    var t, used := Run(entry, cfg, st, call, draw, script).trace, RoundsOf(entry, cfg, st, call, draw, script);
    if i < |t| && t[i].Sent? {
      EventOfRun(entry, cfg, st, call, draw, script, i);
      ReplayIsLatest(ModeOf(entry), cfg, st, t[..i]);
      RequestHeaders(cfg, Replay(ModeOf(entry), cfg, st, t[..i]), call, draw, t[i].request.url, used[Sends(t[..i])]);
    }
  }

  lemma {:induction false} RequestHeaders(cfg: Config, st: State, call: Call, draw: string, url: string, r: Round)
    requires (cfg.dpop ==> r.jti.Some?) && Enumerates(r.order, Stabilise(cfg, call, draw).headers.Keys)
    ensures var q := NewRequest(cfg, st, Stabilise(cfg, call, draw), url, r).value;
            q.verb == call.verb && q.url == url && HeadersOk(cfg, call, draw, st.access, st.nonce, r, q)
  {
    forall name | !Supplies(call.headers, name)
      ensures Lookup(NewRequest(cfg, st, Stabilise(cfg, call, draw), url, r).value.headers, name)
           == Standard(cfg, call.verb, draw, st.access, st.nonce, url, r, name)
    {
      StandardHeader(cfg, st, call, draw, url, r, name);
    }
    forall k | k in call.headers && AgreesOn(call.headers, Canonical(k))
      ensures Lookup(NewRequest(cfg, st, Stabilise(cfg, call, draw), url, r).value.headers, Canonical(k))
           == Some(Text(call.headers[k]))
    {
      SuppliedHeader(cfg, st, call, draw, url, r, k);
    }
  }

  // ------------------------------------------------------------------ what becomes of a reply

  /** There is a token endpoint that can be reached, and something to present there. */
  predicate MayRefresh(cfg: Config, refresh: string) {
    && cfg.tokenEndpoint != ""
    && (refresh != "" || (cfg.clientId != "" && cfg.clientSecret != ""))
    && (AbsoluteUrl(cfg.tokenEndpoint) || !AbsoluteUrl(TrimSpace(cfg.tokenEndpoint)))
  }

  predicate Unauthorized(reply: Reply) {
    reply.Reply? && reply.status == 401 && reply.body.Read?
  }

  /** The reply makes the client ask for new tokens. */
  predicate Refreshes(cfg: Config, refresh: string, r: Round) {
    Unauthorized(r.reply) && r.reply.nonce == "" && MayRefresh(cfg, refresh) && r.refresh.RefreshRound?
  }

  /** The reply makes the client send the request again inside the same attempt. */
  predicate Resends(cfg: Config, refresh: string, r: Round, allow: bool) {
    || (allow && cfg.dpop && Unauthorized(r.reply) && r.reply.nonce != "")
    || (Refreshes(cfg, refresh, r) && HandsOutSome(r.refresh.reply))
  }

  /** The status an error reply stands for: its body may name another one. */
  function StatusMeant(status: int, payload: Payload): int {
    match payload.apiError
    case Some(e) => if e.httpStatus != 0 then e.httpStatus else status
    case None => status
  }

  /** Too many requests, bad gateway, service unavailable, gateway timeout. */
  predicate Transient(status: int) {
    status == 429 || status == 502 || status == 503 || status == 504
  }

  /** A call that ends with this reply may be tried again. */
  predicate Retriable(mode: Mode, reply: Reply) {
    match reply
    case NoReply => true
    case Reply(status, _, body) =>
      if body.Read? then status >= 400 && status != 429 && Transient(StatusMeant(status, body.payload))
      else (mode.Http? || status >= 400) && Transient(status)
  }

  predicate ErrorFor(reply: Reply, e: Error) {
    match reply
    case NoReply => e == Plain(ApiError("SERVICE_UNAVAILABLE", 0))
    case Reply(status, _, body) =>
      match body
      case Broken => e == Plain(ApiError("SERVICE_UNAVAILABLE", status))
      case TooLarge => e == Plain(ApiError("RESPONSE_TOO_LARGE", status))
      case Read(payload) =>
        var api := ApiError(if payload.apiError.Some? then payload.apiError.value.code else "INTERNAL_ERROR",
                            StatusMeant(status, payload));
        e == if status == 429 then RateLimited(api) else Plain(api)
  }

  /** What a call that ends with this reply returns. */
  predicate EndsAs(mode: Mode, reply: Reply, o: Outcome) {
    && (if reply.Reply? && reply.status < 400 && (mode.Stream? || reply.body.Read?)
        then o == Response(reply.status, reply.body)
        else o.Failed? && ErrorFor(reply, o.error))
    && (Retry(o) <==> Retriable(mode, reply))
  }

  lemma {:induction false} RefreshableExactly(cfg: Config, st: State)
    ensures Refreshable(cfg, st) <==> MayRefresh(cfg, st.refresh)
  {
    Urls.AbsoluteIsRefused(cfg.url, cfg.tokenEndpoint);
  }

  lemma {:induction false} GrantedExactly(reply: Reply)
    ensures Granted(reply).Some? <==> HandsOutSome(reply)
  {
  }

  lemma {:induction false} ErrorStatusExactly(
      cfg: Config, st: State, r: Round, allow: bool, status: int, nonce: string, payload: Payload)
    requires r.reply == Reply(status, nonce, Read(payload)) && 400 <= status <= 999
    ensures var s := OnErrorStatus(cfg, st, r, allow, status, nonce, payload);
            && (s.stop.None? <==> Resends(cfg, st.refresh, r, allow))
            && (s.events != [] <==> Refreshes(cfg, st.refresh, r))
            && (s.stop.Some? ==> EndsAs(Http, r.reply, s.stop.value) && EndsAs(Stream, r.reply, s.stop.value))
  {
    RefreshableExactly(cfg, st);
    if r.refresh.RefreshRound? {
      GrantedExactly(r.refresh.reply);
    }
  }

  /**
   Every reply, in either mode: when it makes the client refresh, when it makes it send again, and otherwise what the
   call returns and whether that may be retried.
   */
  lemma {:induction false} ReplyExactly(mode: Mode, cfg: Config, st: State, r: Round, allow: bool)
    requires RealReply(r.reply)
    ensures var s := OnReply(mode, cfg, st, r, allow);
            && (s.stop.None? <==> Resends(cfg, st.refresh, r, allow))
            && (s.events != [] <==> Refreshes(cfg, st.refresh, r))
            && (s.stop.Some? ==> EndsAs(mode, r.reply, s.stop.value))
  {
    if r.reply.Reply? && r.reply.body.Read? && r.reply.status >= 400 {
      var Reply(status, nonce, body) := r.reply;
      ErrorStatusExactly(cfg, StoreNonce(cfg, st, nonce), r, allow, status, nonce, body.payload);
    }
  }

  // ------------------------------------------------------------------ what follows the first reply of a run

  lemma {:induction false} FirstStep(
      entry: Entry, cfg: Config, st: State, call: Call, script: seq<Round>)
    requires Preflight(cfg, call).None? && script != [] && script[0].jti.Some?
    requires var s := OnReply(ModeOf(entry), cfg, st, script[0], true); s.stop.Some?
    ensures var s, a := OnReply(ModeOf(entry), cfg, st, script[0], true), AttemptOf(entry, cfg, call)(st, script);
            && a.trace == FirstTraffic(cfg, st, call, script[0]) + s.events && a.rest == script[1..] && a.st == s.st
            && a.progress.Finished? && Retry(a.progress.outcome) == Retry(s.stop.value)
  {
    ResponseIsNotRetried(ModeOf(entry), cfg, st, script[0], true);
  }

  lemma {:induction false} ResponseIsNotRetried(mode: Mode, cfg: Config, st: State, r: Round, allow: bool)
    ensures var s := OnReply(mode, cfg, st, r, allow);
            s.stop.Some? && s.stop.value.Response? ==> !Transient(s.stop.value.status) && s.stop.value.status < 400
  {
  }

  lemma {:induction false} SendsAfterFirst(f: Attempts, maxRetries: int, st: State, a: Round, b: Round)
    requires maxRetries >= 1 && !b.ctxDone
    requires var p := f(st, [a, b]);
             p.rest == [b] && p.progress.Finished? && Sends(p.trace) == 1 && Sends(f(p.st, [b]).trace) == 1
    ensures var p, t := f(st, [a, b]), Loop(f, maxRetries, st, [a, b], 0, Nil).trace;
            p.trace <= t && (Sends(t) >= 2 <==> Retry(p.progress.outcome))
  {
    var p := f(st, [a, b]);
    if Retry(p.progress.outcome) {
      var q, rest := f(p.st, [b]).trace, Loop(f, maxRetries, p.st, [b], 1, p.progress.outcome).trace;
      assert rest == q + rest[|q|..];
      CountsAdd(q, rest[|q|..]);
      CountsAdd(p.trace, rest);
    }
  }

  /**
   With an attempt left, a reply that ends its call is followed by another request if and only if it is retriable:
   no reply at all, a readable error that means 429, 502, 503 or 504 without being a 429 itself, or an unreadable
   reply with one of those statuses.
   */
  lemma {:induction false} RetriedExactly(
      entry: Entry, cfg: Config, st: State, call: Call, draw: string, a: Round, b: Round)
    requires cfg.maxRetries >= 1 && !Refused(call) && a.jti.Some? && b.jti.Some? && !b.ctxDone
    requires RealReply(a.reply) && !Resends(cfg, st.refresh, a, true)
    ensures var t := Run(entry, cfg, st, call, draw, [a, b]).trace;
            |t| >= 2 && t[1] == Got(a.reply) && (Sends(t) >= 2 <==> Retriable(ModeOf(entry), a.reply))
  {
    var c := Stabilise(cfg, call, draw);
    RefusedExactly(entry, cfg, st, call, draw, [a, b]);
    ReplyExactly(ModeOf(entry), cfg, st, a, true);
    assert [a, b][1..] == [b];
    FirstStep(entry, cfg, st, c, [a, b]);
    FirstSends(ModeOf(entry), cfg, st, c, a);
    SecondSends(entry, cfg, OnReply(ModeOf(entry), cfg, st, a, true).st, c, b);
    SendsAfterFirst(AttemptOf(entry, cfg, c), cfg.maxRetries, st, a, b);
  }

  lemma {:induction false} FirstSends(mode: Mode, cfg: Config, st: State, call: Call, r: Round)
    requires Preflight(cfg, call).None? && r.jti.Some?
    ensures Sends(FirstTraffic(cfg, st, call, r) + OnReply(mode, cfg, st, r, true).events) == 1
  {
    var first, events := FirstTraffic(cfg, st, call, r), OnReply(mode, cfg, st, r, true).events;
    ReplyTracks(mode, cfg, call, r, st, true);
    CountTwo(first);
    CountsAdd(first, events);
  }

  lemma {:induction false} SecondSends(entry: Entry, cfg: Config, st: State, call: Call, r: Round)
    requires Preflight(cfg, call).None? && r.jti.Some?
    ensures Sends(AttemptOf(entry, cfg, call)(st, [r]).trace) == 1
  {
    SingleRound(StepOf(ModeOf(entry), cfg, call, TargetOf(cfg, call)), st, r);
    FirstSends(ModeOf(entry), cfg, st, call, r);
  }

  lemma {:induction false} SingleRound(step: Steps, st: State, r: Round)
    ensures Resend(step, st, [r], true).trace == step(st, r, true).events
  {
    var s := step(st, r, true);
    assert [r][1..] == [];
    assert Resend(step, s.st, [], false).trace == [];
    assert s.events + [] == s.events;
  }

  // ------------------------------------------------------------------ how a run ends

  ghost predicate WaitsOnlyAtTheEnd(f: Attempts) {
    forall st, script :: f(st, script).progress.Waiting? ==> f(st, script).rest == []
  }

  /** The loop gives up for the context: it was about to retry, and the wait before that was cancelled. */
  predicate CutShort(left: int, retrying: bool, r: RunResult) {
    && (retrying || r.endings != []) && (forall i :: 0 <= i < |r.endings| ==> Retry(r.endings[i]))
    && |r.endings| < left && r.rest != [] && r.rest[0].ctxDone
  }

  lemma CutShortCons(left: int, retrying: bool, o: Outcome, next: RunResult, r: RunResult)
    requires Retry(o) && r.endings == [o] + next.endings && r.rest == next.rest
    ensures CutShort(left, retrying, r) <==> CutShort(left - 1, true, next)
  {
    assert r.endings[0] == o;
    assert forall i :: 0 <= i < |next.endings| ==> r.endings[i + 1] == next.endings[i];
    assert forall i :: 0 < i < |r.endings| ==> r.endings[i] == next.endings[i - 1];
  }

  lemma {:induction false} LoopCancelled(
      f: Attempts, maxRetries: int, st: State, script: seq<Round>, attempt: nat, last: Outcome)
    requires attempt <= maxRetries && RealOutcomes(f) && WaitsOnlyAtTheEnd(f)
    ensures var r := Loop(f, maxRetries, st, script, attempt, last);
            && (r.progress.Waiting? ==> r.rest == [])
            && (r.progress == Finished(Failed(Cancelled)) <==> CutShort(maxRetries + 1 - attempt, attempt > 0, r))
    decreases maxRetries + 1 - attempt
  {
    var r := Loop(f, maxRetries, st, script, attempt, last);
    LoopEndings(f, maxRetries, st, script, attempt, last);
    if attempt > 0 && (script == [] || script[0].ctxDone) {
    } else {
      var a := f(st, script);
      assert a.progress != Finished(Nil) && a.progress != Finished(Failed(Cancelled));
      if a.progress.Finished? && Retry(a.progress.outcome) && attempt < maxRetries {
        var next := Loop(f, maxRetries, a.st, a.rest, attempt + 1, a.progress.outcome);
        LoopCancelled(f, maxRetries, a.st, a.rest, attempt + 1, a.progress.outcome);
        CutShortCons(maxRetries + 1 - attempt, attempt > 0, a.progress.outcome, next, r);
      }
    }
  }

  lemma {:induction false} ResendWaits(step: Steps, st: State, script: seq<Round>, allow: bool)
    ensures Resend(step, st, script, allow).progress.Waiting? ==> Resend(step, st, script, allow).rest == []
    decreases |script|
  {
    if script == [] {
    } else {
      var s := step(st, script[0], allow);
      if s.stop.None? {
        ResendWaits(step, s.st, script[1..], false);
      }
    }
  }

  /**
   A run waits only when the script is used up, and ends with the context's error if and only if a retry was due and
   the wait before it was cancelled.
   */
  lemma {:induction false} RunCancelledExactly(
      entry: Entry, cfg: Config, st: State, call: Call, draw: string, script: seq<Round>)
    requires cfg.maxRetries >= 0
    ensures var r := Run(entry, cfg, st, call, draw, script);
            && (r.progress.Waiting? ==> r.rest == [])
            && (r.progress == Finished(Failed(Cancelled)) <==> CutShort(cfg.maxRetries + 1, false, r))
  {
    var c := Stabilise(cfg, call, draw);
    var f := AttemptOf(entry, cfg, c);
    forall s, rounds
      ensures f(s, rounds).progress != Finished(Nil) && f(s, rounds).progress != Finished(Failed(Cancelled))
      ensures f(s, rounds).progress.Waiting? ==> f(s, rounds).rest == []
    {
      CallIsNotCancelled(ModeOf(entry), cfg, s, c, rounds);
      if Preflight(cfg, c).None? {
        ResendWaits(StepOf(ModeOf(entry), cfg, c, TargetOf(cfg, c)), s, rounds, true);
      }
    }
    LoopCancelled(f, cfg.maxRetries, st, script, 0, Nil);
  }
}
