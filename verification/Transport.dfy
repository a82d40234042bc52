/**
 The HTTP request engine as a function of the server's replies.

 A script is a sequence of rounds, one per request handed to the HTTP client; each round
 fixes everything the environment decides about that request. Running out of script means
 that the call is still waiting for the server.
 */
module Transport {
  import opened Options
  import opened ApiErr
  import opened Dpop
  import opened Headers
  import opened GoStrings
  import opened Tokens
  import Urls

  // ------------------------------------------------------------- the environment

  /** A body that was read, seen through the JSON decoders the client applies to it. */
  datatype Payload = Payload(
    empty: bool,
    errorField: Option<string>,     // as a JSON object: its "error" string ("" if absent), or not an object
    apiError: Option<ApiError>,     // as an APIError
    tokens: Option<TokenPair>,      // as a token response
    decodes: bool)                  // into the caller's result

  datatype Body = Broken | TooLarge | Read(payload: Payload)

  datatype Reply = NoReply | Reply(status: int, nonce: string, body: Body)

  /** The token request may fail before it is sent. */
  datatype RefreshRound = NotSent | RefreshRound(jti: string, reply: Reply)

  datatype Round = Round(
    ctxDone: bool,          // if this round starts a retry: the wait before it was cancelled
    requestId: string,
    keyDraw: string,        // the random part of a generated idempotency key
    order: seq<string>,     // the order in which the extra headers are walked
    jti: Option<string>,    // None: the random source failed while building the proof
    reply: Reply,
    refresh: RefreshRound)

  // -------------------------------------------------------------------- the client

  datatype Config = Config(
    url: Urls.Config,
    maxRetries: int,
    dpop: bool,
    tokenEndpoint: string,
    clientId: string,
    clientSecret: string,
    userAgent: string,
    tenantId: string,
    attestationToken: string,
    idempotencyKeyPrefix: string)

  /** The mutable part of the client: both tokens and the prover's nonce. */
  datatype State = State(access: string, refresh: string, nonce: string)

  datatype Call = Call(
      verb: string, path: string, marshals: bool, wellFormed: bool, wantsResult: bool, headers: map<string, string>)

  datatype Request = Request(verb: string, url: string, headers: map<string, Value>)

  datatype Grant =
    | RefreshGrant(refreshToken: string, clientId: string)
    | ClientCredentials(clientId: string, secret: string)

  datatype Event =
    | Sent(request: Request)
    | Got(reply: Reply)
    | RefreshSent(url: string, grant: Grant, proof: Option<Claims>)
    | RefreshGot(reply: Reply)

  datatype Outcome = Nil | Response(status: int, body: Body) | Failed(error: Error)

  datatype Progress = Finished(outcome: Outcome) | Waiting

  datatype Result = Result(st: State, trace: seq<Event>, rest: seq<Round>, progress: Progress)

  predicate Retry(o: Outcome) {
    o.Failed? && MayRetry(o.error)
  }

  // ------------------------------------------------------------ building a request

  /** `headersWithStableIdempotency`, given the random part it would draw. */
  function StableHeaders(cfg: Config, verb: string, extra: map<string, string>, draw: string): map<string, string> {
    var upper := ToUpper(verb);
    if upper == "GET" || upper == "HEAD" then extra
    else if exists k :: k in extra && EqualFold(k, IDEMPOTENCY_KEY) then extra
    else extra[IDEMPOTENCY_KEY := cfg.idempotencyKeyPrefix + draw]
  }

  /** The headers `newRequest` sets before the caller's own. */
  function OwnHeaders(cfg: Config, st: State, call: Call, url: string, r: Round): map<string, Value>
    requires cfg.dpop ==> r.jti.Some?
  {
    var h := map[
      "Content-Type" := Text("application/json"),
      "Accept" := Text("application/json"),
      "User-Agent" := Text(cfg.userAgent)];
    var h := if cfg.tenantId != "" then h["X-Tenant-Id" := Text(cfg.tenantId)] else h;
    var h := h["X-Request-Id" := Text(r.requestId)];
    var h := if call.verb != "GET" && call.verb != "HEAD"
             then h[IDEMPOTENCY_KEY := Text(cfg.idempotencyKeyPrefix + r.keyDraw)] else h;
    var h := if st.access != "" then h[AUTHORIZATION := Text("Bearer " + st.access)] else h;
    var h := if cfg.attestationToken != "" then h["X-Attestation-Token" := Text(cfg.attestationToken)] else h;
    if cfg.dpop
    then h[DPOP := Proof(ProofClaims(st.nonce, r.jti.value, call.verb, url, st.access))]
    else h
  }

  /** `newRequest`; `None` when no proof could be made. */
  function NewRequest(cfg: Config, st: State, call: Call, url: string, r: Round): Option<Request> {
    if cfg.dpop && r.jti.None? then None
    else Some(Request(call.verb, url, SetAll(OwnHeaders(cfg, st, call, url, r), call.headers, r.order)))
  }

  /** What stops a call before anything is sent, whatever the server would say. */
  function Preflight(cfg: Config, call: Call): Option<Error> {
    if Urls.BuildUrl(cfg.url, call.path).None? then Some(Plain(ApiError(VALIDATION_ERROR, 0)))
    else if !call.marshals || !call.wellFormed then Some(Plain(ApiError(INTERNAL_ERROR, 0)))
    else None
  }

  // -------------------------------------------------------------- reading a reply

  function ReadFailure(body: Body, status: int): Error
    requires !body.Read?
  {
    Plain(ApiError(if body.TooLarge? then RESPONSE_TOO_LARGE else SERVICE_UNAVAILABLE, status))
  }

  function StoreNonce(cfg: Config, st: State, nonce: string): State {
    if nonce != "" && cfg.dpop then st.(nonce := nonce) else st
  }

  /** `shouldRetryNonce`. */
  predicate ShouldRetryNonce(status: int, nonce: string, payload: Payload) {
    && nonce != ""
    && match payload.errorField
       case None => status == 401
       case Some(e) => e == "use_dpop_nonce" || e == "invalid_dpop_proof" || status == 401
  }

  function ErrorFromResponse(status: int, payload: Payload): Error {
    var e := ParseApiError(status, payload.apiError);
    if status == 429 then RateLimited(e) else Plain(e)
  }

  // ---------------------------------------------------------------- token refresh

  predicate CanRefresh(cfg: Config, st: State) {
    cfg.tokenEndpoint != "" && (st.refresh != "" || (cfg.clientId != "" && cfg.clientSecret != ""))
  }

  function GrantFor(cfg: Config, st: State): Grant {
    if st.refresh != "" then RefreshGrant(st.refresh, cfg.clientId)
    else ClientCredentials(cfg.clientId, cfg.clientSecret)
  }

  /** The tokens a reply of the token endpoint hands out. */
  function Granted(reply: Reply): Option<TokenPair> {
    if reply.Reply? && reply.status == 200 && reply.body.Read? && reply.body.payload.tokens.Some?
       && reply.body.payload.tokens.value.access != ""
    then reply.body.payload.tokens else None
  }

  function Install(st: State, pair: TokenPair): State {
    var p := AfterRefresh(TokenPair(st.access, st.refresh), pair);
    st.(access := p.access, refresh := p.refresh)
  }

  /** The token endpoint: absolute, or a route of the API itself. */
  function TokenUrl(cfg: Config): Option<string> {
    if HasPrefix(cfg.tokenEndpoint, "http://") || HasPrefix(cfg.tokenEndpoint, "https://")
    then Some(cfg.tokenEndpoint)
    else Urls.BuildUrl(cfg.url, cfg.tokenEndpoint)
  }

  function RefreshProof(cfg: Config, st: State, jti: string, endpoint: string): Option<Claims> {
    if cfg.dpop then Some(ProofClaims(st.nonce, jti, "POST", endpoint, "")) else None
  }

  datatype RefreshResult = RefreshResult(st: State, events: seq<Event>, granted: bool)

  /** `attemptTokenRefresh`: nothing changes unless the endpoint grants a token. */
  function AttemptRefresh(cfg: Config, st: State, r: RefreshRound): RefreshResult {
    if r.NotSent? || TokenUrl(cfg).None? then RefreshResult(st, [], false)
    else
      var proof := RefreshProof(cfg, st, r.jti, TokenUrl(cfg).value);
      var events := [RefreshSent(TokenUrl(cfg).value, GrantFor(cfg, st), proof), RefreshGot(r.reply)];
      match Granted(r.reply)
      case None => RefreshResult(st, events, false)
      case Some(pair) => RefreshResult(Install(st, pair), events, true)
  }

  // ----------------------------------------------------------------- one request

  datatype Step = Step(st: State, events: seq<Event>, stop: Option<Outcome>)

  /** The 400-and-above tail shared by `doHTTP` and `doStream`: resend, refresh and resend, or fail. */
  function OnErrorStatus(
      cfg: Config, st: State, r: Round, allowNonceRetry: bool, status: int, nonce: string, payload: Payload): Step {
    if allowNonceRetry && status == 401 && cfg.dpop && ShouldRetryNonce(status, nonce, payload) then
      Step(st, [], None)
    else if status == 401 && CanRefresh(cfg, st) && !ShouldRetryNonce(status, nonce, payload) then
      var f := AttemptRefresh(cfg, st, r.refresh);
      Step(f.st, f.events, if f.granted then None else Some(Failed(ErrorFromResponse(status, payload))))
    else
      Step(st, [], Some(Failed(ErrorFromResponse(status, payload))))
  }

  /** `doHTTP` on one reply: the body is read before the nonce is kept. */
  function HttpReply(cfg: Config, st: State, r: Round, allowNonceRetry: bool): Step {
    match r.reply
    case NoReply => Step(st, [], Some(Failed(Plain(ApiError(SERVICE_UNAVAILABLE, 0)))))
    case Reply(status, nonce, body) =>
      if !body.Read? then Step(st, [], Some(Failed(ReadFailure(body, status))))
      else
        var st1 := StoreNonce(cfg, st, nonce);
        if status >= 400 then OnErrorStatus(cfg, st1, r, allowNonceRetry, status, nonce, body.payload)
        else Step(st1, [], Some(Response(status, body)))
  }

  /** `doStream` on one reply: the nonce is kept first, and only an error body is read. */
  function StreamReply(cfg: Config, st: State, r: Round, allowNonceRetry: bool): Step {
    match r.reply
    case NoReply => Step(st, [], Some(Failed(Plain(ApiError(SERVICE_UNAVAILABLE, 0)))))
    case Reply(status, nonce, body) =>
      var st1 := StoreNonce(cfg, st, nonce);
      if status < 400 then Step(st1, [], Some(Response(status, body)))
      else if !body.Read? then Step(st1, [], Some(Failed(ReadFailure(body, status))))
      else OnErrorStatus(cfg, st1, r, allowNonceRetry, status, nonce, body.payload)
  }

  datatype Mode = Http | Stream

  function OnReply(mode: Mode, cfg: Config, st: State, r: Round, allowNonceRetry: bool): Step {
    if mode.Http? then HttpReply(cfg, st, r, allowNonceRetry) else StreamReply(cfg, st, r, allowNonceRetry)
  }

  /** One request to `url`, from building it to acting on the reply. */
  function OneRequest(
      mode: Mode, cfg: Config, st: State, call: Call, url: string, r: Round, allowNonceRetry: bool): Step {
    match NewRequest(cfg, st, call, url, r)
    case None => Step(st, [], Some(Failed(Plain(ApiError(AUTH_DPOP_INVALID, 0)))))
    case Some(request) =>
      var s := OnReply(mode, cfg, st, r, allowNonceRetry);
      s.(events := [Sent(request), Got(r.reply)] + s.events)
  }

  /** What is done with one round, on the client's state and the `allowNonceRetry` flag. */
  type Steps = (State, Round, bool) -> Step

  function StepOf(mode: Mode, cfg: Config, call: Call, url: string): Steps {
    (st: State, r: Round, allow: bool) => OneRequest(mode, cfg, st, call, url, r, allow)
  }

  /** The recursion of `doHTTP` and `doStream`: every call after the first has `allowNonceRetry` off. */
  function Resend(step: Steps, st: State, script: seq<Round>, allowNonceRetry: bool): Result
    decreases |script|
  {
    if script == [] then Result(st, [], script, Waiting)
    else
      var s := step(st, script[0], allowNonceRetry);
      match s.stop
      case Some(outcome) => Result(s.st, s.events, script[1..], Finished(outcome))
      case None =>
        var again := Resend(step, s.st, script[1..], false);
        again.(trace := s.events + again.trace)
  }

  /** `doHTTP` and `doStream` as the retry loops call them. */
  function SendRequest(mode: Mode, cfg: Config, st: State, call: Call, script: seq<Round>): Result {
    match Preflight(cfg, call)
    case Some(e) => Result(st, [], script, Finished(Failed(e)))
    case None => Resend(StepOf(mode, cfg, call, Urls.BuildUrl(cfg.url, call.path).value), st, script, true)
  }

  // -------------------------------------------------------------- the retry loops

  datatype RunResult = RunResult(
      st: State, trace: seq<Event>, endings: seq<Outcome>, rest: seq<Round>, progress: Progress)

  /** `doRequest`: `doHTTP`, then decode into the caller's result. */
  function DecodeInto(call: Call, o: Outcome): Outcome {
    if o.Response? && call.wantsResult && o.status != 204 && o.body.Read? && !o.body.payload.empty
        && !o.body.payload.decodes
    then Failed(Plain(ApiError(INTERNAL_ERROR, o.status)))
    else o
  }

  /** `doRequest`. */
  function DoRequest(cfg: Config, st: State, call: Call, script: seq<Round>): Result {
    var r := SendRequest(Http, cfg, st, call, script);
    if r.progress.Finished? then r.(progress := Finished(DecodeInto(call, r.progress.outcome))) else r
  }

  datatype Entry = Do | DoRaw | DoStream

  function ModeOf(entry: Entry): Mode {
    if entry.DoStream? then Stream else Http
  }

  /** What a retry loop calls once per attempt, on the client's state and the rest of the script. */
  type Attempts = (State, seq<Round>) -> Result

  function AttemptOf(entry: Entry, cfg: Config, call: Call): Attempts {
    match entry
    case Do => (st: State, script: seq<Round>) => DoRequest(cfg, st, call, script)
    case DoRaw => (st: State, script: seq<Round>) => SendRequest(Http, cfg, st, call, script)
    case DoStream => (st: State, script: seq<Round>) => SendRequest(Stream, cfg, st, call, script)
  }

  /**
   The loop of `doWithRetry`, `doRawWithRetry` and `doStreamWithRetry` from `attempt` on,
   with the error of the previous pass in `last`.
   */
  function Loop(f: Attempts, maxRetries: int, st: State, script: seq<Round>, attempt: nat, last: Outcome): RunResult
    decreases maxRetries + 1 - attempt
  {
    if attempt > maxRetries then RunResult(st, [], [], script, Finished(last))
    else if attempt > 0 && script == [] then RunResult(st, [], [], script, Waiting)
    else if attempt > 0 && script[0].ctxDone then RunResult(st, [], [], script, Finished(Failed(Cancelled)))
    else
      var a := f(st, script);
      match a.progress
      case Waiting => RunResult(a.st, a.trace, [], a.rest, Waiting)
      case Finished(o) =>
        if !Retry(o) then RunResult(a.st, a.trace, [o], a.rest, Finished(o))
        else
          var next := Loop(f, maxRetries, a.st, a.rest, attempt + 1, o);
          next.(trace := a.trace + next.trace, endings := [o] + next.endings)
  }

  /** The call with the headers every attempt of one run shares. */
  function Stabilise(cfg: Config, call: Call, draw: string): Call {
    call.(headers := StableHeaders(cfg, call.verb, call.headers, draw))
  }

  /** A whole `Do`, `DoRaw` or `DoStream`; `draw` is the random part of the stable idempotency key. */
  function Run(entry: Entry, cfg: Config, st: State, call: Call, draw: string, script: seq<Round>): RunResult {
    Loop(AttemptOf(entry, cfg, Stabilise(cfg, call, draw)), cfg.maxRetries, st, script, 0, Nil)
  }
}
