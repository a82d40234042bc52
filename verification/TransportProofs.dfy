/** What every call and every whole run of the request engine keeps. */
module TransportProofs {
  import opened Options
  import opened ApiErr
  import opened Transport

  // -------------------------------------------------------- the shape of one call

  predicate NonceChallenge(cfg: Config, reply: Reply) {
    cfg.dpop && reply.Reply? && reply.status == 401 && reply.nonce != "" && reply.body.Read?
  }

  predicate RefreshCue(reply: Reply) {
    reply.Reply? && reply.status == 401 && reply.nonce == "" && reply.body.Read?
  }

  /**
   A call's traffic: a request and its reply; then nothing, or one resend on a nonce challenge if
   that is still allowed, or a refresh and, only if it was granted, a resend.
   */
  predicate OneCall(cfg: Config, t: seq<Event>, nonceAllowed: bool)
    decreases |t|
  {
    || t == []
    || (&& |t| >= 2 && t[0].Sent? && t[1].Got?
        && (|| |t| == 2
            || (nonceAllowed && NonceChallenge(cfg, t[1].reply) && OneCall(cfg, t[2..], false))
            || (&& RefreshCue(t[1].reply) && |t| >= 4 && t[2].RefreshSent? && t[3].RefreshGot?
                && (|t| == 4 || (Granted(t[3].reply).Some? && OneCall(cfg, t[4..], false))))))
  }

  /** What the reply can bring about: the end, a resend, or a refresh and then either. */
  ghost predicate ReplyShape(cfg: Config, r: Round, allow: bool, s: Step) {
    && (s.events == [] || (|s.events| == 2 && RefreshCue(r.reply) && s.events[0].RefreshSent?
                           && r.refresh.RefreshRound? && s.events[1] == RefreshGot(r.refresh.reply)))
    && (s.stop.None? ==>
          if s.events == [] then allow && NonceChallenge(cfg, r.reply) else Granted(r.refresh.reply).Some?)
    && (s.stop.Some? ==> s.stop.value != Nil && s.stop.value != Failed(Cancelled))
    && (s.stop.Some? && NonceChallenge(cfg, r.reply) ==> s.stop.value.Failed? && s.events == [])
  }

  lemma {:induction false} ErrorStatusShape(cfg: Config, st: State, r: Round, allow: bool)
    requires r.reply.Reply? && r.reply.body.Read?
    ensures ReplyShape(cfg, r, allow,
              OnErrorStatus(cfg, st, r, allow, r.reply.status, r.reply.nonce, r.reply.body.payload))
  {
  }

  lemma {:induction false} ReplyShapes(mode: Mode, cfg: Config, st: State, r: Round, allow: bool)
    ensures ReplyShape(cfg, r, allow, OnReply(mode, cfg, st, r, allow))
  {
    if r.reply.Reply? && r.reply.body.Read? {
      ErrorStatusShape(cfg, StoreNonce(cfg, st, r.reply.nonce), r, allow);
    }
  }

  /** A whole step: nothing was sent, or the request, its reply and what that brought about. */
  ghost predicate StepShape(cfg: Config, r: Round, allow: bool, s: Step) {
    if s.events == [] then s.stop.Some? && s.stop.value.Failed? && s.stop.value.error.Plain?
    else
      && |s.events| >= 2 && s.events[0].Sent? && s.events[1] == Got(r.reply)
      && ReplyShape(cfg, r, allow, s.(events := s.events[2..]))
  }

  /** Every step taken by `step` has that shape. */
  ghost predicate Shaped(cfg: Config, step: Steps) {
    forall st, r, allow :: StepShape(cfg, r, allow, step(st, r, allow))
  }

  lemma {:induction false} StepsAreShaped(mode: Mode, cfg: Config, call: Call, url: string)
    ensures Shaped(cfg, StepOf(mode, cfg, call, url))
  {
    forall st, r, allow ensures StepShape(cfg, r, allow, OneRequest(mode, cfg, st, call, url, r, allow)) {
      ReplyShapes(mode, cfg, st, r, allow);
      var s := OneRequest(mode, cfg, st, call, url, r, allow);
      if s.events != [] {
        assert s.events[2..] == OnReply(mode, cfg, st, r, allow).events;
      }
    }
  }

  lemma {:induction false} ResendShape(cfg: Config, step: Steps, st: State, script: seq<Round>, allow: bool)
    requires Shaped(cfg, step)
    ensures OneCall(cfg, Resend(step, st, script, allow).trace, allow)
    decreases |script|
  {
    if script == [] {
    } else {
      var s := step(st, script[0], allow);
      assert StepShape(cfg, script[0], allow, s);
      if s.stop.None? {
        var again := Resend(step, s.st, script[1..], false).trace;
        ResendShape(cfg, step, s.st, script[1..], false);
        var t := s.events + again;
        if |s.events| == 2 {
          assert t[2..] == again;
        } else {
          assert t[4..] == again && t[2] == s.events[2..][0] && t[3] == s.events[2..][1];
        }
      }
    }
  }

  /** The traffic of one `doHTTP` or `doStream` call, against any replies. */
  lemma {:induction false} CallShape(mode: Mode, cfg: Config, st: State, call: Call, script: seq<Round>)
    ensures OneCall(cfg, SendRequest(mode, cfg, st, call, script).trace, true)
  {
    if Preflight(cfg, call).None? {
      var url := Urls.BuildUrl(cfg.url, call.path).value;
      StepsAreShaped(mode, cfg, call, url);
      ResendShape(cfg, StepOf(mode, cfg, call, url), st, script, true);
    }
  }

  lemma {:induction false} LateChallengeFails(
      cfg: Config, step: Steps, st: State, script: seq<Round>, allow: bool, i: nat)
    requires Shaped(cfg, step)
    requires var t := Resend(step, st, script, allow).trace;
             i < |t| && t[i].Got? && NonceChallenge(cfg, t[i].reply) && (i >= 2 || !allow)
    ensures var r := Resend(step, st, script, allow);
            i == |r.trace| - 1 && r.progress.Finished? && r.progress.outcome.Failed?
    decreases |script|
  {
    var s := step(st, script[0], allow);
    assert StepShape(cfg, script[0], allow, s);
    if s.stop.None? {
      LateChallengeFails(cfg, step, s.st, script[1..], false, i - |s.events|);
    }
  }

  /** A nonce challenge answering any resend is the last thing the call sees, and the call fails. */
  lemma {:induction false} LateChallengeEndsCall(
      mode: Mode, cfg: Config, st: State, call: Call, script: seq<Round>, i: nat)
    requires var t := SendRequest(mode, cfg, st, call, script).trace;
             2 <= i < |t| && t[i].Got? && NonceChallenge(cfg, t[i].reply)
    ensures var r := SendRequest(mode, cfg, st, call, script);
            i == |r.trace| - 1 && r.progress.Finished? && r.progress.outcome.Failed?
  {
    var url := Urls.BuildUrl(cfg.url, call.path).value;
    StepsAreShaped(mode, cfg, call, url);
    LateChallengeFails(cfg, StepOf(mode, cfg, call, url), st, script, true, i);
  }

  // ------------------------------------------------------- counting and termination

  function Sends(t: seq<Event>): nat {
    if t == [] then 0 else (if t[0].Sent? then 1 else 0) + Sends(t[1..])
  }

  function Grants(t: seq<Event>): nat {
    if t == [] then 0 else (if t[0].RefreshGot? && Granted(t[0].reply).Some? then 1 else 0) + Grants(t[1..])
  }

  lemma {:induction false} CountsAdd(a: seq<Event>, b: seq<Event>)
    ensures Sends(a + b) == Sends(a) + Sends(b)
    ensures Grants(a + b) == Grants(a) + Grants(b)
  {
    if a == [] {
      assert a + b == b;
    } else {
      assert (a + b)[1..] == a[1..] + b;
      CountsAdd(a[1..], b);
    }
  }

  lemma {:induction false} CountTwo(t: seq<Event>)
    requires |t| >= 2
    ensures Sends(t) == (if t[0].Sent? then 1 else 0) + (if t[1].Sent? then 1 else 0) + Sends(t[2..])
    ensures Grants(t) >= (if t[1].RefreshGot? && Granted(t[1].reply).Some? then 1 else 0) + Grants(t[2..])
  {
    assert t[1..][1..] == t[2..];
  }

  lemma {:induction false} CallBound(cfg: Config, t: seq<Event>, allow: bool)
    requires OneCall(cfg, t, allow)
    ensures Sends(t) <= (if allow then 2 else 1) + Grants(t)
    decreases |t|
  {
    if |t| >= 2 {
      CountTwo(t);
      if |t| > 2 && t[2].Sent? {
        CallBound(cfg, t[2..], false);
      } else if |t| >= 4 {
        CountTwo(t[2..]);
        assert t[2..][2..] == t[4..];
        CallBound(cfg, t[4..], false);
      }
    }
  }

  function GrantRounds(script: seq<Round>): nat {
    if script == [] then 0
    else
      (if script[0].refresh.RefreshRound? && Granted(script[0].refresh.reply).Some? then 1 else 0)
      + GrantRounds(script[1..])
  }

  lemma {:induction false} ResendTerminates(cfg: Config, step: Steps, st: State, script: seq<Round>, allow: bool)
    requires Shaped(cfg, step) && |script| > (if allow then 1 else 0) + GrantRounds(script)
    ensures Resend(step, st, script, allow).progress.Finished?
    decreases |script|
  {
    var s := step(st, script[0], allow);
    assert StepShape(cfg, script[0], allow, s);
    if s.stop.None? {
      ResendTerminates(cfg, step, s.st, script[1..], false);
    }
  }

  /** The recursion is bounded by the refreshes the server grants: with more rounds than that, the call is over. */
  lemma {:induction false} CallTerminates(mode: Mode, cfg: Config, st: State, call: Call, script: seq<Round>)
    requires |script| > 1 + GrantRounds(script)
    ensures SendRequest(mode, cfg, st, call, script).progress.Finished?
  {
    if Preflight(cfg, call).None? {
      var url := Urls.BuildUrl(cfg.url, call.path).value;
      StepsAreShaped(mode, cfg, call, url);
      ResendTerminates(cfg, StepOf(mode, cfg, call, url), st, script, true);
    }
  }

  // ----------------------------------------------- state and requests from the trace

  /** The nonce a reply leaves behind: `doHTTP` drops it with an unreadable body, `doStream` keeps it. */
  predicate KeepsNonce(mode: Mode, cfg: Config, reply: Reply) {
    cfg.dpop && reply.Reply? && reply.nonce != "" && (mode.Stream? || reply.body.Read?)
  }

  function Observe(mode: Mode, cfg: Config, st: State, e: Event): State {
    match e
    case Got(reply) => if KeepsNonce(mode, cfg, reply) then st.(nonce := reply.nonce) else st
    case RefreshGot(reply) => if Granted(reply).Some? then Install(st, Granted(reply).value) else st
    case _ => st
  }

  /** The client's state, worked out from what went over the wire alone. */
  function Replay(mode: Mode, cfg: Config, st: State, t: seq<Event>): State
    decreases |t|
  {
    if t == [] then st else Replay(mode, cfg, Observe(mode, cfg, st, t[0]), t[1..])
  }

  lemma {:induction false} ReplayConcat(mode: Mode, cfg: Config, st: State, a: seq<Event>, b: seq<Event>)
    ensures Replay(mode, cfg, st, a + b) == Replay(mode, cfg, Replay(mode, cfg, st, a), b)
    decreases |a|
  {
    if a == [] {
      assert a + b == b;
    } else {
      assert (a + b)[1..] == a[1..] + b;
      ReplayConcat(mode, cfg, Observe(mode, cfg, st, a[0]), a[1..], b);
    }
  }

  /** The round gets as far as a request. */
  predicate Sending(cfg: Config, r: Round) {
    cfg.dpop ==> r.jti.Some?
  }

  /** The rounds of `rounds` that get as far as a request, in order. */
  function Used(cfg: Config, rounds: seq<Round>): seq<Round> {
    if rounds == [] then []
    else (if Sending(cfg, rounds[0]) then [rounds[0]] else []) + Used(cfg, rounds[1..])
  }

  lemma {:induction false} UsedConcat(cfg: Config, a: seq<Round>, b: seq<Round>)
    ensures Used(cfg, a + b) == Used(cfg, a) + Used(cfg, b)
    decreases |a|
  {
    if a == [] {
      assert a + b == b;
    } else {
      assert (a + b)[1..] == a[1..] + b;
      UsedConcat(cfg, a[1..], b);
    }
  }

  lemma {:induction false} UsedAreRounds(cfg: Config, rounds: seq<Round>)
    ensures forall r :: r in Used(cfg, rounds) ==> r in rounds && Sending(cfg, r)
  {
    if rounds == [] {
    } else {
      UsedAreRounds(cfg, rounds[1..]);
    }
  }

  /**
   Event `e`, before which `j` requests were sent and the client's state is `st`, is what round number `j` makes of
   that state: the request built from both, the reply to it, or the refresh that follows and its reply.
   */
  ghost predicate SentIn(cfg: Config, call: Call, used: seq<Round>, j: nat, st: State, e: Event) {
    match e
    case Sent(request) =>
      && j < |used| && Urls.BuildUrl(cfg.url, call.path).Some?
      && NewRequest(cfg, st, call, Urls.BuildUrl(cfg.url, call.path).value, used[j]) == Some(request)
    case Got(reply) => 1 <= j <= |used| && reply == used[j - 1].reply
    case RefreshSent(url, grant, proof) =>
      && 1 <= j <= |used| && used[j - 1].refresh.RefreshRound?
      && TokenUrl(cfg) == Some(url) && grant == GrantFor(cfg, st)
      && proof == RefreshProof(cfg, st, used[j - 1].refresh.jti, url)
    case RefreshGot(reply) =>
      1 <= j <= |used| && used[j - 1].refresh.RefreshRound? && reply == used[j - 1].refresh.reply
  }

  /** What is expected of an event, given the number of requests before it and the client's state. */
  type Expectation = (nat, State, Event) -> bool

  ghost function ExpectOf(cfg: Config, call: Call, used: seq<Round>): Expectation {
    (j: nat, st: State, e: Event) => SentIn(cfg, call, used, j, st, e)
  }

  ghost predicate MeetsAt(mode: Mode, cfg: Config, p: Expectation, first: nat, st: State, t: seq<Event>, i: nat)
    requires i < |t|
  {
    p(first + Sends(t[..i]), Replay(mode, cfg, st, t[..i]), t[i])
  }

  ghost predicate Meets(mode: Mode, cfg: Config, p: Expectation, first: nat, st: State, t: seq<Event>) {
    forall i :: 0 <= i < |t| ==> MeetsAt(mode, cfg, p, first, st, t, i)
  }

  ghost predicate BuiltFrom(
      mode: Mode, cfg: Config, call: Call, used: seq<Round>, first: nat, st: State, t: seq<Event>)
  {
    Meets(mode, cfg, ExpectOf(cfg, call, used), first, st, t)
  }

  /** The traffic `t` is what the rounds `used` make of the state, one request each. */
  ghost predicate Built(mode: Mode, cfg: Config, call: Call, used: seq<Round>, st: State, t: seq<Event>) {
    Sends(t) == |used| && BuiltFrom(mode, cfg, call, used, 0, st, t)
  }

  lemma {:induction false} MeetsAtSecond(
      mode: Mode, cfg: Config, p: Expectation, first: nat, st: State, a: seq<Event>, b: seq<Event>, k: nat)
    requires k < |b| && MeetsAt(mode, cfg, p, first + Sends(a), Replay(mode, cfg, st, a), b, k)
    ensures MeetsAt(mode, cfg, p, first, st, a + b, |a| + k)
  {
    assert (a + b)[..|a| + k] == a + b[..k] && (a + b)[|a| + k] == b[k];
    ReplayConcat(mode, cfg, st, a, b[..k]);
    CountsAdd(a, b[..k]);
  }

  lemma {:induction false} MeetsAtFirst(
      mode: Mode, cfg: Config, p: Expectation, first: nat, st: State, a: seq<Event>, b: seq<Event>, i: nat)
    requires i < |a| && MeetsAt(mode, cfg, p, first, st, a, i)
    ensures MeetsAt(mode, cfg, p, first, st, a + b, i)
  {
    assert (a + b)[..i] == a[..i] && (a + b)[i] == a[i];
  }

  lemma {:induction false} MeetsConcat(
      mode: Mode, cfg: Config, p: Expectation, first: nat, st: State, a: seq<Event>, b: seq<Event>)
    requires Meets(mode, cfg, p, first, st, a)
    requires Meets(mode, cfg, p, first + Sends(a), Replay(mode, cfg, st, a), b)
    ensures Meets(mode, cfg, p, first, st, a + b)
  {
    forall i | 0 <= i < |a + b| ensures MeetsAt(mode, cfg, p, first, st, a + b, i) {
      if i < |a| {
        MeetsAtFirst(mode, cfg, p, first, st, a, b, i);
      } else {
        MeetsAtSecond(mode, cfg, p, first, st, a, b, i - |a|);
      }
    }
  }

  /** Whatever `p` expects, `q` expects `n` requests later. */
  ghost predicate Shifts(p: Expectation, q: Expectation, n: nat) {
    forall j: nat, x, e :: p(j, x, e) ==> q(n + j, x, e)
  }

  lemma {:induction false} MeetsShifted(
      mode: Mode, cfg: Config, p: Expectation, q: Expectation, first: nat, st: State, t: seq<Event>)
    requires Meets(mode, cfg, p, 0, st, t) && Shifts(p, q, first)
    ensures Meets(mode, cfg, q, first, st, t)
  {
    forall i | 0 <= i < |t| ensures MeetsAt(mode, cfg, q, first, st, t, i) {
      assert MeetsAt(mode, cfg, p, 0, st, t, i);
    }
  }

  lemma {:induction false} MeetsBoth(
      mode: Mode, cfg: Config, p: Expectation, q: Expectation, all: Expectation, st: State, a: seq<Event>,
      b: seq<Event>)
    requires Meets(mode, cfg, p, 0, st, a) && Meets(mode, cfg, q, 0, Replay(mode, cfg, st, a), b)
    requires Shifts(p, all, 0) && Shifts(q, all, Sends(a))
    ensures Meets(mode, cfg, all, 0, st, a + b)
  {
    MeetsShifted(mode, cfg, p, all, 0, st, a);
    MeetsShifted(mode, cfg, q, all, Sends(a), Replay(mode, cfg, st, a), b);
    MeetsConcat(mode, cfg, all, 0, st, a, b);
  }

  lemma {:induction false} ExpectFirst(cfg: Config, call: Call, first: seq<Round>, second: seq<Round>)
    ensures Shifts(ExpectOf(cfg, call, first), ExpectOf(cfg, call, first + second), 0)
  {
    forall j: nat, x, e | SentIn(cfg, call, first, j, x, e) ensures SentIn(cfg, call, first + second, 0 + j, x, e) {
      assert 1 <= j <= |first| ==> (first + second)[j - 1] == first[j - 1];
    }
  }

  lemma {:induction false} ExpectSecond(cfg: Config, call: Call, first: seq<Round>, second: seq<Round>)
    ensures Shifts(ExpectOf(cfg, call, second), ExpectOf(cfg, call, first + second), |first|)
  {
    forall j: nat, x, e | SentIn(cfg, call, second, j, x, e)
      ensures SentIn(cfg, call, first + second, |first| + j, x, e)
    {
      assert 1 <= j <= |second| ==> (first + second)[|first| + j - 1] == second[j - 1];
    }
  }

  lemma {:induction false} BuiltConcat(
      mode: Mode, cfg: Config, call: Call, first: seq<Round>, second: seq<Round>, st: State, a: seq<Event>,
      b: seq<Event>)
    requires Built(mode, cfg, call, first, st, a)
    requires Built(mode, cfg, call, second, Replay(mode, cfg, st, a), b)
    ensures Built(mode, cfg, call, first + second, st, a + b)
  {
    var p, q, all := ExpectOf(cfg, call, first), ExpectOf(cfg, call, second), ExpectOf(cfg, call, first + second);
    ExpectFirst(cfg, call, first, second);
    ExpectSecond(cfg, call, first, second);
    MeetsBoth(mode, cfg, p, q, all, st, a, b);
    CountsAdd(a, b);
  }

  lemma {:induction false} ReplayOfTwo(mode: Mode, cfg: Config, st: State, e: Event, f: Event)
    ensures Replay(mode, cfg, st, [e, f]) == Observe(mode, cfg, Observe(mode, cfg, st, e), f)
    ensures Replay(mode, cfg, st, [e]) == Observe(mode, cfg, st, e)
  {
    assert [e, f][1..] == [f] && [f][1..] == [] && [e][1..] == [];
    assert Replay(mode, cfg, Observe(mode, cfg, st, e), [f]) == Observe(mode, cfg, Observe(mode, cfg, st, e), f);
  }

  lemma {:induction false} MeetsTwo(
      mode: Mode, cfg: Config, p: Expectation, first: nat, st: State, e: Event, f: Event)
    requires p(first, st, e) && p(first + (if e.Sent? then 1 else 0), Observe(mode, cfg, st, e), f)
    ensures Meets(mode, cfg, p, first, st, [e, f])
  {
    var t := [e, f];
    forall i | 0 <= i < 2 ensures MeetsAt(mode, cfg, p, first, st, t, i) {
      if i == 0 {
        assert t[..0] == [];
      } else {
        assert t[..1] == [e] && [e][1..] == [];
        ReplayOfTwo(mode, cfg, st, e, f);
      }
    }
  }

  /** What the reply to request number `first` brings about follows the state and the round. */
  ghost predicate TailTracks(mode: Mode, cfg: Config, call: Call, r: Round, st: State, s: Step) {
    && s.st == Replay(mode, cfg, st, s.events) && Sends(s.events) == 0
    && BuiltFrom(mode, cfg, call, [r], 1, st, s.events)
  }

  lemma {:induction false} RefreshTracks(
      mode: Mode, cfg: Config, call: Call, r: Round, st: State, allow: bool, status: int, nonce: string,
      payload: Payload)
    ensures TailTracks(mode, cfg, call, r, st, OnErrorStatus(cfg, st, r, allow, status, nonce, payload))
  {
    var s := OnErrorStatus(cfg, st, r, allow, status, nonce, payload);
    if s.events != [] {
      assert s.events == [s.events[0], s.events[1]];
      CountTwo(s.events);
      ReplayOfTwo(mode, cfg, st, s.events[0], s.events[1]);
      MeetsTwo(mode, cfg, ExpectOf(cfg, call, [r]), 1, st, s.events[0], s.events[1]);
    }
  }

  lemma {:induction false} ReplyTracks(mode: Mode, cfg: Config, call: Call, r: Round, st: State, allow: bool)
    ensures TailTracks(mode, cfg, call, r, Observe(mode, cfg, st, Got(r.reply)), OnReply(mode, cfg, st, r, allow))
  {
    if r.reply.Reply? && r.reply.body.Read? {
      RefreshTracks(mode, cfg, call, r, StoreNonce(cfg, st, r.reply.nonce), allow, r.reply.status, r.reply.nonce,
          r.reply.body.payload);
    }
  }

  /** Step `s`, taken in state `st`, changes the state as its events say and sends what round and state call for. */
  ghost predicate StepTracks(mode: Mode, cfg: Config, call: Call, r: Round, st: State, s: Step) {
    s.st == Replay(mode, cfg, st, s.events) && Built(mode, cfg, call, Used(cfg, [r]), st, s.events)
  }

  ghost predicate StepsTrack(mode: Mode, cfg: Config, call: Call, step: Steps) {
    forall st, r, allow :: StepTracks(mode, cfg, call, r, st, step(st, r, allow))
  }

  lemma {:induction false} RequestTracks(
      mode: Mode, cfg: Config, st: State, call: Call, url: string, r: Round, allow: bool)
    requires Urls.BuildUrl(cfg.url, call.path) == Some(url)
    ensures StepTracks(mode, cfg, call, r, st, OneRequest(mode, cfg, st, call, url, r, allow))
  {
    assert [r][1..] == [];
    assert Used(cfg, [r]) == if Sending(cfg, r) then [r] else [];
    if NewRequest(cfg, st, call, url, r).Some? {
      var head := [Sent(NewRequest(cfg, st, call, url, r).value), Got(r.reply)];
      var tail := OnReply(mode, cfg, st, r, allow);
      ReplyTracks(mode, cfg, call, r, st, allow);
      HeadAndTail(mode, cfg, call, r, st, head[0], head[1], tail);
    }
  }

  /** A request and its reply, and then what that brings about. */
  lemma {:induction false} HeadAndTail(
      mode: Mode, cfg: Config, call: Call, r: Round, st: State, e: Event, f: Event, tail: Step)
    requires e.Sent? && SentIn(cfg, call, [r], 0, st, e) && f == Got(r.reply)
    requires TailTracks(mode, cfg, call, r, Observe(mode, cfg, st, f), tail)
    ensures tail.st == Replay(mode, cfg, st, [e, f] + tail.events)
    ensures Built(mode, cfg, call, [r], st, [e, f] + tail.events)
  {
    var p := ExpectOf(cfg, call, [r]);
    assert p(0, st, e) && p(1, st, f);
    MeetsHeadAndTail(mode, cfg, p, st, e, f, tail.events);
  }

  lemma {:induction false} MeetsHeadAndTail(
      mode: Mode, cfg: Config, p: Expectation, st: State, e: Event, f: Event, tail: seq<Event>)
    requires e.Sent? && f.Got? && p(0, st, e) && p(1, st, f)
    requires Meets(mode, cfg, p, 1, Observe(mode, cfg, st, f), tail)
    ensures Meets(mode, cfg, p, 0, st, [e, f] + tail) && Sends([e, f] + tail) == 1 + Sends(tail)
    ensures Replay(mode, cfg, st, [e, f] + tail) == Replay(mode, cfg, Observe(mode, cfg, st, f), tail)
  {
    ReplayOfTwo(mode, cfg, st, e, f);
    MeetsTwo(mode, cfg, p, 0, st, e, f);
    CountTwo([e, f]);
    ReplayConcat(mode, cfg, st, [e, f], tail);
    MeetsConcat(mode, cfg, p, 0, st, [e, f], tail);
    CountsAdd([e, f], tail);
  }

  /** `rest` is what remains of `script`. */
  predicate Remains(script: seq<Round>, rest: seq<Round>) {
    |rest| <= |script| && rest == script[|script| - |rest|..]
  }

  /** The part of `script` that is gone. */
  function Gone(script: seq<Round>, rest: seq<Round>): seq<Round>
    requires |rest| <= |script|
  {
    script[..|script| - |rest|]
  }

  lemma GoneTwice(cfg: Config, script: seq<Round>, mid: seq<Round>, rest: seq<Round>)
    requires Remains(script, mid) && Remains(mid, rest)
    ensures Remains(script, rest)
    ensures Used(cfg, Gone(script, rest)) == Used(cfg, Gone(script, mid)) + Used(cfg, Gone(mid, rest))
  {
    assert Gone(script, rest) == Gone(script, mid) + Gone(mid, rest);
    UsedConcat(cfg, Gone(script, mid), Gone(mid, rest));
  }

  /** Traffic `t` and state `after` are what the rounds between `script` and `rest` make of `st`, in their order. */
  ghost predicate Follows(
      mode: Mode, cfg: Config, call: Call, script: seq<Round>, rest: seq<Round>, st: State, after: State, t: seq<Event>)
  {
    && Remains(script, rest) && after == Replay(mode, cfg, st, t)
    && Built(mode, cfg, call, Used(cfg, Gone(script, rest)), st, t)
  }

  lemma {:induction false} FollowsOn(
      mode: Mode, cfg: Config, call: Call, script: seq<Round>, mid: seq<Round>, rest: seq<Round>, st: State,
      between: State, after: State, t: seq<Event>, u: seq<Event>)
    requires Follows(mode, cfg, call, script, mid, st, between, t)
    requires Follows(mode, cfg, call, mid, rest, between, after, u)
    ensures Follows(mode, cfg, call, script, rest, st, after, t + u)
  {
    GoneTwice(cfg, script, mid, rest);
    ReplayConcat(mode, cfg, st, t, u);
    BuiltConcat(mode, cfg, call, Used(cfg, Gone(script, mid)), Used(cfg, Gone(mid, rest)), st, t, u);
  }

  lemma {:induction false} NothingFollows(mode: Mode, cfg: Config, call: Call, script: seq<Round>, st: State)
    ensures Follows(mode, cfg, call, script, script, st, st, [])
  {
    assert Gone(script, script) == [];
  }

  lemma {:induction false} ResendTracks(
      mode: Mode, cfg: Config, call: Call, step: Steps, st: State, script: seq<Round>, allow: bool)
    requires StepsTrack(mode, cfg, call, step)
    ensures var r := Resend(step, st, script, allow);
            Follows(mode, cfg, call, script, r.rest, st, r.st, r.trace)
    decreases |script|
  {
    if script == [] {
      NothingFollows(mode, cfg, call, script, st);
    } else {
      var s := step(st, script[0], allow);
      assert StepTracks(mode, cfg, call, script[0], st, s);
      assert Gone(script, script[1..]) == [script[0]];
      if s.stop.None? {
        var again := Resend(step, s.st, script[1..], false);
        ResendTracks(mode, cfg, call, step, s.st, script[1..], false);
        FollowsOn(mode, cfg, call, script, script[1..], again.rest, st, s.st, again.st, s.events, again.trace);
      }
    }
  }

  lemma {:induction false} CallTracks(mode: Mode, cfg: Config, st: State, call: Call, script: seq<Round>)
    ensures var r := SendRequest(mode, cfg, st, call, script);
            Follows(mode, cfg, call, script, r.rest, st, r.st, r.trace)
  {
    if Preflight(cfg, call).None? {
      var url := Urls.BuildUrl(cfg.url, call.path).value;
      forall s, r, allow ensures StepTracks(mode, cfg, call, r, s, OneRequest(mode, cfg, s, call, url, r, allow)) {
        RequestTracks(mode, cfg, s, call, url, r, allow);
      }
      ResendTracks(mode, cfg, call, StepOf(mode, cfg, call, url), st, script, true);
    } else {
      NothingFollows(mode, cfg, call, script, st);
    }
  }

  /** Attempt function `f` follows its own traffic. */
  ghost predicate Tracks(mode: Mode, cfg: Config, call: Call, f: Attempts) {
    forall st, script ::
      Follows(mode, cfg, call, script, f(st, script).rest, st, f(st, script).st, f(st, script).trace)
  }

  lemma {:induction false} AttemptTracks(entry: Entry, cfg: Config, call: Call)
    ensures Tracks(ModeOf(entry), cfg, call, AttemptOf(entry, cfg, call))
  {
    forall st, script {
      CallTracks(ModeOf(entry), cfg, st, call, script);
    }
  }

  lemma {:induction false} LoopReplays(
      mode: Mode, cfg: Config, call: Call, f: Attempts, st: State, script: seq<Round>, attempt: nat, last: Outcome)
    requires Tracks(mode, cfg, call, f)
    ensures var r := Loop(f, cfg.maxRetries, st, script, attempt, last);
            Follows(mode, cfg, call, script, r.rest, st, r.st, r.trace)
    decreases cfg.maxRetries + 1 - attempt
  {
    NothingFollows(mode, cfg, call, script, st);
    if attempt <= cfg.maxRetries && !(attempt > 0 && (script == [] || script[0].ctxDone)) {
      var a := f(st, script);
      assert Follows(mode, cfg, call, script, a.rest, st, a.st, a.trace);
      if a.progress.Finished? && Retry(a.progress.outcome) {
        var next := Loop(f, cfg.maxRetries, a.st, a.rest, attempt + 1, a.progress.outcome);
        LoopReplays(mode, cfg, call, f, a.st, a.rest, attempt + 1, a.progress.outcome);
        FollowsOn(mode, cfg, call, script, a.rest, next.rest, st, a.st, next.st, a.trace, next.trace);
      }
    }
  }

  /**
   A run takes the rounds of its script in their order, each for one request. At every point its tokens and nonce
   are what the traffic so far says they are; every request is built from exactly that state and its own round, and
   is answered with that round's reply; every refresh presents the newest refresh token and proves the newest nonce.
   */
  lemma {:induction false} RunReplays(
      entry: Entry, cfg: Config, st: State, call: Call, draw: string, script: seq<Round>)
    ensures var r := Run(entry, cfg, st, call, draw, script);
            Follows(ModeOf(entry), cfg, Stabilise(cfg, call, draw), script, r.rest, st, r.st, r.trace)
  {
    var c := Stabilise(cfg, call, draw);
    AttemptTracks(entry, cfg, c);
    LoopReplays(ModeOf(entry), cfg, c, AttemptOf(entry, cfg, c), st, script, 0, Nil);
  }

  /** The rounds a run used, one per request. */
  function RoundsOf(entry: Entry, cfg: Config, st: State, call: Call, draw: string, script: seq<Round>): seq<Round> {
    var rest := Run(entry, cfg, st, call, draw, script).rest;
    if |rest| <= |script| then Used(cfg, Gone(script, rest)) else []
  }

  /** Event number `i` of a run, in terms of the traffic before it and of the round it belongs to. */
  lemma {:induction false} EventOfRun(
      entry: Entry, cfg: Config, st: State, call: Call, draw: string, script: seq<Round>, i: nat)
    requires i < |Run(entry, cfg, st, call, draw, script).trace|
    ensures var t, used := Run(entry, cfg, st, call, draw, script).trace, RoundsOf(entry, cfg, st, call, draw, script);
            && SentIn(cfg, Stabilise(cfg, call, draw), used, Sends(t[..i]), Replay(ModeOf(entry), cfg, st, t[..i]),
                 t[i])
            && forall r :: r in used ==> r in script && Sending(cfg, r)
  {
    var r, used := Run(entry, cfg, st, call, draw, script), RoundsOf(entry, cfg, st, call, draw, script);
    RunReplays(entry, cfg, st, call, draw, script);
    UsedAreRounds(cfg, Gone(script, r.rest));
    assert MeetsAt(ModeOf(entry), cfg, ExpectOf(cfg, Stabilise(cfg, call, draw), used), 0, st, r.trace, i);
  }

  // -------------------------------------------------------------- bounds of a run

  ghost predicate TwoSendsEach(f: Attempts) {
    forall st, script :: Sends(f(st, script).trace) <= 2 + Grants(f(st, script).trace)
  }

  lemma {:induction false} LoopBound(
      f: Attempts, maxRetries: int, st: State, script: seq<Round>, attempt: nat, last: Outcome)
    requires attempt <= maxRetries + 1 && TwoSendsEach(f)
    ensures var t := Loop(f, maxRetries, st, script, attempt, last).trace;
            Sends(t) <= 2 * (maxRetries + 1 - attempt) + Grants(t)
    decreases maxRetries + 1 - attempt
  {
    if attempt <= maxRetries && !(attempt > 0 && (script == [] || script[0].ctxDone)) {
      var a := f(st, script);
      if a.progress.Finished? && Retry(a.progress.outcome) {
        LoopBound(f, maxRetries, a.st, a.rest, attempt + 1, a.progress.outcome);
        CountsAdd(a.trace, Loop(f, maxRetries, a.st, a.rest, attempt + 1, a.progress.outcome).trace);
      }
    }
  }

  /** At most two requests per attempt, plus one for every refresh that was granted. */
  lemma {:induction false} RunBound(entry: Entry, cfg: Config, st: State, call: Call, draw: string, script: seq<Round>)
    requires cfg.maxRetries >= -1
    ensures var t := Run(entry, cfg, st, call, draw, script).trace;
            Sends(t) <= 2 * (cfg.maxRetries + 1) + Grants(t)
  {
    var c := Stabilise(cfg, call, draw);
    var f := AttemptOf(entry, cfg, c);
    forall s, script ensures Sends(f(s, script).trace) <= 2 + Grants(f(s, script).trace) {
      CallShape(ModeOf(entry), cfg, s, c, script);
      CallBound(cfg, f(s, script).trace, true);
    }
    LoopBound(f, cfg.maxRetries, st, script, 0, Nil);
  }

  // ---------------------------------------------------------------- how runs end

  /**
   How a loop with `left` attempts to go ends. Every attempt but the last ended in a plain retryable
   error; the result is the last attempt's own outcome, or the context's error after a retryable one;
   and a retryable outcome is returned only when the attempts are used up.
   */
  ghost predicate EndsWell(left: int, retrying: bool, r: RunResult) {
    && |r.endings| <= left
    && (forall i :: 0 <= i < |r.endings| - 1 ==> Retry(r.endings[i]))
    && (forall i :: 0 <= i < |r.endings| ==> r.endings[i] != Nil && r.endings[i] != Failed(Cancelled))
    && (r.progress.Finished? ==>
          if r.progress.outcome == Failed(Cancelled)
          then && (retrying || r.endings != []) && |r.endings| < left
               && forall i :: 0 <= i < |r.endings| ==> Retry(r.endings[i])
          else && |r.endings| >= 1 && r.progress.outcome == r.endings[|r.endings| - 1]
               && (Retry(r.progress.outcome) ==> |r.endings| == left))
  }

  ghost predicate RealOutcomes(f: Attempts) {
    forall st, script :: f(st, script).progress != Finished(Nil)
        && f(st, script).progress != Finished(Failed(Cancelled))
  }

  lemma {:induction false} LoopEndings(
      f: Attempts, maxRetries: int, st: State, script: seq<Round>, attempt: nat, last: Outcome)
    requires attempt <= maxRetries && RealOutcomes(f)
    ensures EndsWell(maxRetries + 1 - attempt, attempt > 0, Loop(f, maxRetries, st, script, attempt, last))
    decreases maxRetries + 1 - attempt
  {
    var r := Loop(f, maxRetries, st, script, attempt, last);
    var a := f(st, script);
    if !(attempt > 0 && (script == [] || script[0].ctxDone)) && a.progress.Finished? && Retry(a.progress.outcome) {
      var next := Loop(f, maxRetries, a.st, a.rest, attempt + 1, a.progress.outcome);
      if attempt < maxRetries {
        LoopEndings(f, maxRetries, a.st, a.rest, attempt + 1, a.progress.outcome);
      }
      assert forall i :: 0 < i < |r.endings| ==> r.endings[i] == next.endings[i - 1];
    }
  }

  lemma {:induction false} ResendIsNotCancelled(cfg: Config, step: Steps, st: State, script: seq<Round>, allow: bool)
    requires Shaped(cfg, step)
    ensures var p := Resend(step, st, script, allow).progress;
            p != Finished(Nil) && p != Finished(Failed(Cancelled))
    decreases |script|
  {
    if script == [] {
    } else {
      var s := step(st, script[0], allow);
      assert StepShape(cfg, script[0], allow, s);
      if s.stop.None? {
        ResendIsNotCancelled(cfg, step, s.st, script[1..], false);
      }
    }
  }

  lemma {:induction false} CallIsNotCancelled(mode: Mode, cfg: Config, st: State, call: Call, script: seq<Round>)
    ensures var p := SendRequest(mode, cfg, st, call, script).progress;
            p != Finished(Nil) && p != Finished(Failed(Cancelled))
  {
    if Preflight(cfg, call).None? {
      var url := Urls.BuildUrl(cfg.url, call.path).value;
      StepsAreShaped(mode, cfg, call, url);
      ResendIsNotCancelled(cfg, StepOf(mode, cfg, call, url), st, script, true);
    }
  }

  lemma {:induction false} RunEndings(
      entry: Entry, cfg: Config, st: State, call: Call, draw: string, script: seq<Round>)
    requires cfg.maxRetries >= 0
    ensures EndsWell(cfg.maxRetries + 1, false, Run(entry, cfg, st, call, draw, script))
  {
    var c := Stabilise(cfg, call, draw);
    var f := AttemptOf(entry, cfg, c);
    forall s, script
      ensures f(s, script).progress != Finished(Nil) && f(s, script).progress != Finished(Failed(Cancelled))
    {
      CallIsNotCancelled(ModeOf(entry), cfg, s, c, script);
    }
    LoopEndings(f, cfg.maxRetries, st, script, 0, Nil);
  }

  /** A negative retry limit, and nothing else, makes a run return without error and without a request. */
  lemma {:induction false} NegativeLimitSendsNothing(
      entry: Entry, cfg: Config, st: State, call: Call, draw: string, script: seq<Round>)
    ensures cfg.maxRetries < 0 <==> Run(entry, cfg, st, call, draw, script).progress == Finished(Nil)
    ensures cfg.maxRetries < 0 ==> Run(entry, cfg, st, call, draw, script).trace == []
  {
    if cfg.maxRetries >= 0 {
      RunEndings(entry, cfg, st, call, draw, script);
    }
  }
}
