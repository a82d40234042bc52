/** Idempotency keys: when all requests of a run carry the same one. */
module TransportKeys {
  import opened Options
  import opened Headers
  import opened Counting
  import opened Tokens
  import opened Transport
  import opened TransportProofs
  import opened TransportLaws

  // ------------------------------------------------------------------ keys that stay

  /** The methods `headersWithStableIdempotency` gives a key. */
  predicate NeedsKey(verb: string) {
    ToUpper(verb) != "GET" && ToUpper(verb) != "HEAD"
  }

  /** The methods `newRequest` gives no key of its own. */
  predicate Keyless(verb: string) {
    verb == "GET" || verb == "HEAD"
  }

  predicate SuppliesKey(headers: map<string, string>) {
    exists k :: k in headers && EqualFold(k, IDEMPOTENCY_KEY)
  }

  /** All spellings of the header the caller supplied carry one value. */
  predicate Agreeing(headers: map<string, string>) {
    forall k, l :: k in headers && l in headers && EqualFold(k, IDEMPOTENCY_KEY) && EqualFold(l, IDEMPOTENCY_KEY) ==>
      headers[k] == headers[l]
  }

  /** The key every request of the run is meant to carry. */
  ghost function RunKey(headers: map<string, string>): string
    requires SuppliesKey(headers)
  {
    var k :| k in headers && EqualFold(k, IDEMPOTENCY_KEY);
    headers[k]
  }

  /** The key a request carries, if it carries one. */
  function KeyOf(q: Request): Option<Value> {
    if IDEMPOTENCY_KEY in q.headers then Some(q.headers[IDEMPOTENCY_KEY]) else None
  }

  lemma {:induction false} StableHeadersHaveKey(cfg: Config, call: Call, draw: string)
    requires NeedsKey(call.verb) || SuppliesKey(call.headers)
    ensures SuppliesKey(Stabilise(cfg, call, draw).headers)
    ensures Agreeing(call.headers) ==> Agreeing(Stabilise(cfg, call, draw).headers)
  {
    if !SuppliesKey(call.headers) {
      var h := Stabilise(cfg, call, draw).headers;
      assert IDEMPOTENCY_KEY in h && EqualFold(IDEMPOTENCY_KEY, IDEMPOTENCY_KEY);
    }
  }

  lemma {:induction false} RequestCarriesKey(cfg: Config, st: State, call: Call, url: string, r: Round)
    requires SuppliesKey(call.headers) && Agreeing(call.headers)
    requires Enumerates(r.order, call.headers.Keys) && NewRequest(cfg, st, call, url, r).Some?
    ensures KeyOf(NewRequest(cfg, st, call, url, r).value) == Some(Text(RunKey(call.headers)))
  {
    forall k | k in call.headers ensures EqualFold(k, IDEMPOTENCY_KEY) <==> Canonical(k) == IDEMPOTENCY_KEY {
      FoldIsCanonical(k);
    }
    var k :| k in call.headers && EqualFold(k, IDEMPOTENCY_KEY);
    assert k in r.order;
    SetAllOverrides(OwnHeaders(cfg, st, call, url, r), call.headers, r.order, IDEMPOTENCY_KEY, RunKey(call.headers));
  }

  /** Without a key from the caller, a request carries the one drawn for it, and none for GET and HEAD. */
  lemma {:induction false} RequestDrawsKey(cfg: Config, st: State, call: Call, url: string, r: Round)
    requires !SuppliesKey(call.headers) && NewRequest(cfg, st, call, url, r).Some?
    ensures KeyOf(NewRequest(cfg, st, call, url, r).value)
         == if Keyless(call.verb) then None else Some(Text(cfg.idempotencyKeyPrefix + r.keyDraw))
  {
    forall k | k in call.headers ensures Canonical(k) != IDEMPOTENCY_KEY {
      FoldIsCanonical(k);
    }
    SetAllKeeps(OwnHeaders(cfg, st, call, url, r), call.headers, r.order, IDEMPOTENCY_KEY);
  }

  /** The round a request of the run was built in, and the state. */
  lemma {:induction false} RequestOfRun(
      entry: Entry, cfg: Config, st: State, call: Call, draw: string, script: seq<Round>, i: nat)
    returns (now: State, url: string, r: Round)
    requires var t := Run(entry, cfg, st, call, draw, script).trace; i < |t| && t[i].Sent?
    ensures r in script
    ensures NewRequest(cfg, now, Stabilise(cfg, call, draw), url, r)
         == Some(Run(entry, cfg, st, call, draw, script).trace[i].request)
  {
    var t := Run(entry, cfg, st, call, draw, script).trace;
    EventOfRun(entry, cfg, st, call, draw, script, i);
    now := Replay(ModeOf(entry), cfg, st, t[..i]);
    url := Urls.BuildUrl(cfg.url, call.path).value;
    r := RoundsOf(entry, cfg, st, call, draw, script)[Sends(t[..i])];
  }

  /** Outer retries, nonce resends and resends after a refresh all carry the same Idempotency-Key. */
  lemma {:induction false} RunKeepsKey(
      entry: Entry, cfg: Config, st: State, call: Call, draw: string, script: seq<Round>, i: nat)
    requires (NeedsKey(call.verb) || SuppliesKey(call.headers)) && Agreeing(call.headers)
    requires WalksHeaders(Stabilise(cfg, call, draw), script)
    ensures SuppliesKey(Stabilise(cfg, call, draw).headers)
    ensures var t := Run(entry, cfg, st, call, draw, script).trace;
            i < |t| && t[i].Sent? ==> KeyOf(t[i].request) == Some(Text(RunKey(Stabilise(cfg, call, draw).headers)))
  {
    var c := Stabilise(cfg, call, draw);
    var t := Run(entry, cfg, st, call, draw, script).trace;
    StableHeadersHaveKey(cfg, call, draw);
    if i < |t| && t[i].Sent? {
      var now, url, r := RequestOfRun(entry, cfg, st, call, draw, script, i);
      RequestCarriesKey(cfg, now, c, url, r);
    }
  }

  /** All requests of the traffic carry the same key, or none of them carries one. */
  ghost predicate OneKey(t: seq<Event>) {
    forall i, j :: 0 <= i < |t| && 0 <= j < |t| && t[i].Sent? && t[j].Sent? ==>
      KeyOf(t[i].request) == KeyOf(t[j].request)
  }

  /** In every run, whatever the replies and however the headers are walked, all requests carry one key. */
  ghost predicate KeyStable(entry: Entry, cfg: Config, st: State, call: Call, draw: string) {
    forall script :: WalksHeaders(Stabilise(cfg, call, draw), script) ==>
      OneKey(Run(entry, cfg, st, call, draw, script).trace)
  }

  /** The caller's spellings agree, and the key comes from them or from the run, or there is none. */
  predicate KeySettled(call: Call) {
    Agreeing(call.headers) && (NeedsKey(call.verb) || SuppliesKey(call.headers) || Keyless(call.verb))
  }

  lemma {:induction false} SettledIsStable(
      entry: Entry, cfg: Config, st: State, call: Call, draw: string, script: seq<Round>)
    requires KeySettled(call) && WalksHeaders(Stabilise(cfg, call, draw), script)
    ensures OneKey(Run(entry, cfg, st, call, draw, script).trace)
  {
    var t := Run(entry, cfg, st, call, draw, script).trace;
    if NeedsKey(call.verb) || SuppliesKey(call.headers) {
      StableHeadersHaveKey(cfg, call, draw);
      var key := Some(Text(RunKey(Stabilise(cfg, call, draw).headers)));
      forall i | 0 <= i < |t| && t[i].Sent? ensures KeyOf(t[i].request) == key {
        RunKeepsKey(entry, cfg, st, call, draw, script, i);
      }
    } else {
      forall i | 0 <= i < |t| && t[i].Sent? ensures KeyOf(t[i].request) == None {
        var now, url, r := RequestOfRun(entry, cfg, st, call, draw, script, i);
        RequestDrawsKey(cfg, now, Stabilise(cfg, call, draw), url, r);
      }
    }
  }

  // --------------------------------------------------------------- keys that part

  /** How the key of a request comes about: the order in which its headers are walked, and the key drawn for it. */
  datatype Look = Look(order: seq<string>, draw: string)

  function Dress(r: Round, look: Look): Round {
    r.(order := look.order, keyDraw := look.draw)
  }

  /** Requests that look like `a` and like `b` carry different keys, whatever state each of them is built in. */
  ghost predicate Parting(cfg: Config, call: Call, a: Look, b: Look) {
    && Enumerates(a.order, call.headers.Keys) && Enumerates(b.order, call.headers.Keys)
    && forall url, st1, r1: Round, st2, r2: Round :: r1.jti.Some? && r2.jti.Some? ==>
         KeyOf(NewRequest(cfg, st1, call, url, Dress(r1, a)).value)
         != KeyOf(NewRequest(cfg, st2, call, url, Dress(r2, b)).value)
  }

  lemma {:induction false} LastSpellingWins(
      cfg: Config, st: State, call: Call, url: string, r: Round, front: seq<string>, k: string)
    requires k in call.headers && EqualFold(k, IDEMPOTENCY_KEY) && r.order == front + [k] && (cfg.dpop ==> r.jti.Some?)
    ensures KeyOf(NewRequest(cfg, st, call, url, r).value) == Some(Text(call.headers[k]))
  {
    FoldIsCanonical(k);
    SetAllLast(OwnHeaders(cfg, st, call, url, r), call.headers, front, k);
  }

  lemma {:induction false} EnumerateEndingIn(headers: map<string, string>, k: string) returns (front: seq<string>)
    requires k in headers
    ensures Enumerates(front + [k], headers.Keys)
  {
    front := EnumerateSet(headers.Keys - {k});
    assert forall x :: x in headers ==> x in front + [k];
  }

  /** Two spellings with different values: the one that is walked last wins. */
  lemma {:induction false} SpellingsPart(cfg: Config, call: Call) returns (a: Look, b: Look)
    requires !Agreeing(call.headers)
    ensures Parting(cfg, call, a, b)
  {
    var h := call.headers;
    var k, l :| k in h && l in h && EqualFold(k, IDEMPOTENCY_KEY) && EqualFold(l, IDEMPOTENCY_KEY) && h[k] != h[l];
    var front := EnumerateEndingIn(h, k);
    var other := EnumerateEndingIn(h, l);
    a, b := Look(front + [k], ""), Look(other + [l], "");
    forall url, st1, r1: Round, st2, r2: Round | r1.jti.Some? && r2.jti.Some?
      ensures KeyOf(NewRequest(cfg, st1, call, url, Dress(r1, a)).value)
           != KeyOf(NewRequest(cfg, st2, call, url, Dress(r2, b)).value)
    {
      LastSpellingWins(cfg, st1, call, url, Dress(r1, a), front, k);
      LastSpellingWins(cfg, st2, call, url, Dress(r2, b), other, l);
    }
  }

  /** A method that is GET or HEAD in lower case only gets no stable key, but a new one for every request. */
  lemma {:induction false} DrawsPart(cfg: Config, call: Call) returns (a: Look, b: Look)
    requires !SuppliesKey(call.headers) && !Keyless(call.verb)
    ensures Parting(cfg, call, a, b)
  {
    var order := EnumerateSet(call.headers.Keys);
    a, b := Look(order, ""), Look(order, "x");
    assert |cfg.idempotencyKeyPrefix + ""| != |cfg.idempotencyKeyPrefix + "x"|;
    forall url, st1, r1: Round, st2, r2: Round | r1.jti.Some? && r2.jti.Some?
      ensures KeyOf(NewRequest(cfg, st1, call, url, Dress(r1, a)).value)
           != KeyOf(NewRequest(cfg, st2, call, url, Dress(r2, b)).value)
    {
      RequestDrawsKey(cfg, st1, call, url, Dress(r1, a));
      RequestDrawsKey(cfg, st2, call, url, Dress(r2, b));
    }
  }

  lemma {:induction false} UnsettledParts(cfg: Config, call: Call, draw: string) returns (a: Look, b: Look)
    requires !KeySettled(call)
    ensures Parting(cfg, Stabilise(cfg, call, draw), a, b)
  {
    assert Stabilise(cfg, call, draw).headers == call.headers;
    if Agreeing(call.headers) {
      a, b := DrawsPart(cfg, Stabilise(cfg, call, draw));
    } else {
      a, b := SpellingsPart(cfg, Stabilise(cfg, call, draw));
    }
  }

  lemma {:induction false} PartedKeys(q1: Request, r1: Reply, between: seq<Event>, q2: Request, r2: Reply)
    requires KeyOf(q1) != KeyOf(q2)
    ensures !OneKey([Sent(q1), Got(r1)] + between + [Sent(q2), Got(r2)])
  {
    var t := [Sent(q1), Got(r1)] + between + [Sent(q2), Got(r2)];
    assert t[0] == Sent(q1) && t[2 + |between|] == Sent(q2);
  }

  // ------------------------------------------------------ a second request, by a retry

  lemma {:induction false} TwoDeadAttempts(
      entry: Entry, cfg: Config, st: State, call: Call, draw: string, a: Look, b: Look)
    requires cfg.maxRetries >= 1 && Preflight(cfg, call).None?
    ensures var c, ra, rb := Stabilise(cfg, call, draw), Dress(DeadRound([]), a), Dress(DeadRound([]), b);
            Run(entry, cfg, st, call, draw, [ra, rb]).trace
            == [Sent(NewRequest(cfg, st, c, TargetOf(cfg, c), ra).value), Got(NoReply)] + []
               + [Sent(NewRequest(cfg, st, c, TargetOf(cfg, c), rb).value), Got(NoReply)]
  {
    TwoShortAttempts(entry, cfg, st, call, draw, Dress(DeadRound([]), a), Dress(DeadRound([]), b));
  }

  lemma {:induction false} RetryPartsKeys(
      entry: Entry, cfg: Config, st: State, call: Call, draw: string, a: Look, b: Look)
    requires cfg.maxRetries >= 1 && Preflight(cfg, call).None? && Parting(cfg, Stabilise(cfg, call, draw), a, b)
    ensures !OneKey(Run(entry, cfg, st, call, draw, [Dress(DeadRound([]), a), Dress(DeadRound([]), b)]).trace)
  {
    var c, ra, rb := Stabilise(cfg, call, draw), Dress(DeadRound([]), a), Dress(DeadRound([]), b);
    var url := TargetOf(cfg, c);
    TwoDeadAttempts(entry, cfg, st, call, draw, a, b);
    PartedKeys(NewRequest(cfg, st, c, url, ra).value, NoReply, [], NewRequest(cfg, st, c, url, rb).value, NoReply);
  }

  // --------------------------------------- a second request, by a resend inside one attempt

  /** A run can come to send a second request: by a retry, a nonce challenge or a refresh. */
  predicate MaySendTwice(cfg: Config, st: State) {
    cfg.maxRetries >= 1 || (cfg.maxRetries == 0 && (cfg.dpop || Refreshable(cfg, st)))
  }

  /** The body of a 401 that says nothing. */
  const SILENT := Payload(false, None, None, None, false)

  /** A 401 that calls for a resend: with a nonce under DPoP, and otherwise with a refresh that is granted. */
  function ResendRound(dpop: bool): Round {
    var granted := Reply(200, "", Read(SILENT.(tokens := Some(TokenPair("t", "")))));
    DeadRound([]).(reply := Reply(401, if dpop then "n" else "", Read(SILENT)), refresh := RefreshRound("", granted))
  }

  lemma {:induction false} ResendRoundGoesOn(mode: Mode, cfg: Config, st: State, look: Look)
    requires cfg.dpop || Refreshable(cfg, st)
    ensures OnReply(mode, cfg, st, Dress(ResendRound(cfg.dpop), look), true).stop.None?
  {
  }

  lemma {:induction false} ResentTraffic(mode: Mode, cfg: Config, st: State, call: Call, ra: Round, rb: Round)
    requires Preflight(cfg, call).None? && ra.jti.Some? && rb.jti.Some? && rb.reply.NoReply?
    requires OnReply(mode, cfg, st, ra, true).stop.None?
    ensures var url, s := TargetOf(cfg, call), OnReply(mode, cfg, st, ra, true);
            SendRequest(mode, cfg, st, call, [ra, rb]).trace
            == [Sent(NewRequest(cfg, st, call, url, ra).value), Got(ra.reply)] + s.events
               + [Sent(NewRequest(cfg, s.st, call, url, rb).value), Got(rb.reply)]
  {
    var url, s := TargetOf(cfg, call), OnReply(mode, cfg, st, ra, true);
    var step := StepOf(mode, cfg, call, url);
    assert [ra, rb][1..] == [rb];
    assert step(s.st, rb, false).events == [Sent(NewRequest(cfg, s.st, call, url, rb).value), Got(rb.reply)] + [];
    assert Resend(step, s.st, [rb], false).trace == step(s.st, rb, false).events;
  }

  lemma {:induction false} CallPartsKeys(mode: Mode, cfg: Config, st: State, call: Call, a: Look, b: Look)
    requires Preflight(cfg, call).None? && Parting(cfg, call, a, b) && (cfg.dpop || Refreshable(cfg, st))
    ensures !OneKey(SendRequest(mode, cfg, st, call, [Dress(ResendRound(cfg.dpop), a), Dress(DeadRound([]), b)]).trace)
  {
    var ra, rb := Dress(ResendRound(cfg.dpop), a), Dress(DeadRound([]), b);
    var url, s := TargetOf(cfg, call), OnReply(mode, cfg, st, ra, true);
    ResendRoundGoesOn(mode, cfg, st, a);
    ResentTraffic(mode, cfg, st, call, ra, rb);
    var q1, q2 := NewRequest(cfg, st, call, url, ra).value, NewRequest(cfg, s.st, call, url, rb).value;
    PartedKeys(q1, ra.reply, s.events, q2, rb.reply);
  }

  // -------------------------------------------------------------------- the theorem

  /** A script under which two requests of one run carry different keys. */
  lemma {:induction false} UnsettledBreaksKey(entry: Entry, cfg: Config, st: State, call: Call, draw: string)
    returns (script: seq<Round>)
    requires !KeySettled(call) && Preflight(cfg, call).None? && MaySendTwice(cfg, st)
    ensures WalksHeaders(Stabilise(cfg, call, draw), script)
    ensures !OneKey(Run(entry, cfg, st, call, draw, script).trace)
  {
    var a, b := UnsettledParts(cfg, call, draw);
    if cfg.maxRetries >= 1 {
      RetryPartsKeys(entry, cfg, st, call, draw, a, b);
      script := [Dress(DeadRound([]), a), Dress(DeadRound([]), b)];
    } else {
      script := [Dress(ResendRound(cfg.dpop), a), Dress(DeadRound([]), b)];
      RunIsOneCall(entry, cfg, st, call, draw, script);
      CallPartsKeys(ModeOf(entry), cfg, st, Stabilise(cfg, call, draw), a, b);
    }
  }

  /** When nothing can bring about a resend, a call sends one request. */
  lemma {:induction false} NoResend(mode: Mode, cfg: Config, st: State, call: Call, url: string, r: Round)
    requires !cfg.dpop && !Refreshable(cfg, st)
    ensures var s := OneRequest(mode, cfg, st, call, url, r, true);
            s.stop.Some? && forall i :: 0 < i < |s.events| ==> !s.events[i].Sent?
  {
  }

  lemma {:induction false} OneRequestOneKey(
      entry: Entry, cfg: Config, st: State, call: Call, draw: string, script: seq<Round>)
    requires !MaySendTwice(cfg, st)
    ensures OneKey(Run(entry, cfg, st, call, draw, script).trace)
  {
    var c := Stabilise(cfg, call, draw);
    if cfg.maxRetries < 0 {
      SingleAttempt(AttemptOf(entry, cfg, c), cfg.maxRetries, st, script);
    } else if Preflight(cfg, call).Some? {
      PreflightSendsNothing(entry, cfg, st, call, draw, script);
    } else {
      RunIsOneCall(entry, cfg, st, call, draw, script);
      if script != [] {
        NoResend(ModeOf(entry), cfg, st, c, TargetOf(cfg, c), script[0]);
      }
    }
  }

  /**
   For every method, all requests of every run carry one key, or none, if and only if the call fails before it is
   sent, or no second request is possible, or the caller's spellings of the header agree and the method is not a
   GET or HEAD in lower case that the caller gave no key.
   */
  lemma {:induction false} KeyStableExactly(entry: Entry, cfg: Config, st: State, call: Call, draw: string)
    ensures KeyStable(entry, cfg, st, call, draw)
       <==> Preflight(cfg, call).Some? || !MaySendTwice(cfg, st) || KeySettled(call)
  {
    if !KeySettled(call) && Preflight(cfg, call).None? && MaySendTwice(cfg, st) {
      var script := UnsettledBreaksKey(entry, cfg, st, call, draw);
    } else {
      forall script | WalksHeaders(Stabilise(cfg, call, draw), script)
        ensures OneKey(Run(entry, cfg, st, call, draw, script).trace)
      {
        if KeySettled(call) {
          SettledIsStable(entry, cfg, st, call, draw, script);
        } else if Preflight(cfg, call).Some? {
          PreflightSendsNothing(entry, cfg, st, call, draw, script);
        } else {
          OneRequestOneKey(entry, cfg, st, call, draw, script);
        }
      }
    }
  }
}
