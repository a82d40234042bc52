/** Whole calls of Start and Stop, and whole renewals, as runs of the protocol. */
module ProviderCalls {
  import opened Options
  import opened CredentialStore
  import opened NhiExchange
  import opened ProviderProtocol

  lemma {:induction false} RunCons(w: World, s: State, a: Action, rest: seq<Action>)
    requires Enabled(s, a) && IsRun(w, Apply(w, s, a), rest)
    ensures IsRun(w, s, [a] + rest) && After(w, s, [a] + rest) == After(w, Apply(w, s, a), rest)
  {
    assert ([a] + rest)[1..] == rest;
  }

  lemma {:induction false} RunConcat(w: World, s: State, first: seq<Action>, second: seq<Action>)
    requires IsRun(w, s, first) && IsRun(w, After(w, s, first), second)
    ensures IsRun(w, s, first + second) && After(w, s, first + second) == After(w, After(w, s, first), second)
    decreases |first|
  {
    if first == [] {
      assert first + second == second;
    } else {
      var next, t := Apply(w, s, first[0]), first + second;
      assert t[0] == first[0] && t[1..] == first[1..] + second;
      assert After(w, s, first) == After(w, next, first[1..]);
      RunConcat(w, next, first[1..], second);
      assert IsRun(w, s, t) && After(w, s, t) == After(w, next, t[1..]);
    }
  }

  // -------------------------------------------------------------------- calls

  /** One step of the caller `t`, and where it is then. */
  lemma {:induction false} Step(w: World, s: State, t: Tid, op: CallerOp, rest: seq<Action>)
    requires CallerEnabled(s, t, op) && IsRun(w, CallerStep(w, s, t, op), rest)
    ensures IsRun(w, s, [ByCaller(t, op)] + rest)
    ensures After(w, s, [ByCaller(t, op)] + rest) == After(w, CallerStep(w, s, t, op), rest)
  {
    RunCons(w, s, ByCaller(t, op), rest);
  }

  /** A caller outside, and the lock free. */
  predicate AtRest(s: State, t: Tid) {
    s.lock.None? && CallerOf(s, t).Idle?
  }

  /** Everything but the callers and the lock is as it was. */
  predicate Untouched(s: State, s': State) {
    s' == s.(lock := s'.lock, callers := s'.callers)
  }

  /** Calling and taking the lock. */
  lemma {:induction false} Enter(w: World, s: State, t: Tid, op: CallerOp) returns (s': State, actions: seq<Action>)
    requires AtRest(s, t) && (op.CallStart? || op.CallStop?)
    ensures IsRun(w, s, actions) && After(w, s, actions) == s' && Untouched(s, s') && s'.lock == Some(t)
    ensures CallerOf(s', t) == (if op.CallStart? then StartLocked else StopLocked)
  {
    var s1 := CallerStep(w, s, t, op);
    s' := CallerStep(w, s1, t, Acquire);
    Step(w, s1, t, Acquire, []);
    Step(w, s, t, op, [ByCaller(t, Acquire)] + []);
    actions := [ByCaller(t, op)] + ([ByCaller(t, Acquire)] + []);
  }

  /** Giving the lock back. */
  lemma {:induction false} Leave(w: World, s: State, t: Tid) returns (s': State, actions: seq<Action>)
    requires CallerOf(s, t).Leaving?
    ensures IsRun(w, s, actions) && After(w, s, actions) == s' && Untouched(s, s') && AtRest(s', t)
  {
    s' := CallerStep(w, s, t, Release);
    Step(w, s, t, Release, []);
    actions := [ByCaller(t, Release)] + [];
  }

  /** A Start of a started provider, and a Stop of a stopped one, change nothing. */
  lemma {:induction false} NothingToDo(w: World, s: State, t: Tid, op: CallerOp) returns (actions: seq<Action>)
    requires AtRest(s, t) && ((op.CallStart? && s.started) || (op.CallStop? && !s.started))
    ensures IsRun(w, s, actions) && Untouched(s, After(w, s, actions)) && AtRest(After(w, s, actions), t)
  {
    var s1, a := Enter(w, s, t, op);
    var check := if op.CallStart? then StartCheck else StopCheck;
    var s2 := CallerStep(w, s1, t, check);
    var s3, b := Leave(w, s2, t);
    Step(w, s1, t, check, b);
    RunConcat(w, s, a, [ByCaller(t, check)] + b);
    actions := a + ([ByCaller(t, check)] + b);
  }

  /** A Start whose exchange fails leaves a stopped provider without a credential, and the exchange in the history. */
  lemma {:induction false} StartFails(w: World, s: State, t: Tid, i: Inputs) returns (actions: seq<Action>)
    requires AtRest(s, t) && !s.started && Result(w, Past(s.nonce, i)).None?
    ensures IsRun(w, s, actions)
    ensures var s' := After(w, s, actions);
            && AtRest(s', t) && s'.history == s.history + [Past(s.nonce, i)]
            && s'.nonce == NonceAfter(w, Past(s.nonce, i))
            && Untouched(s, s'.(history := s.history, nonce := s.nonce))
  {
    var s1, a := Enter(w, s, t, CallStart);
    var s2 := CallerStep(w, s1, t, StartCheck);
    var s3 := CallerStep(w, s2, t, StartReply(i));
    var s4, b := Leave(w, s3, t);
    Step(w, s2, t, StartReply(i), b);
    Step(w, s1, t, StartCheck, [ByCaller(t, StartReply(i))] + b);
    actions := [ByCaller(t, StartCheck)] + ([ByCaller(t, StartReply(i))] + b);
    RunConcat(w, s, a, actions);
    actions := a + actions;
  }

  /** From the credential to the end of Start: it is stored, a loop is spawned, and the provider is started. */
  lemma {:induction false} StartEnds(w: World, s: State, t: Tid) returns (actions: seq<Action>)
    requires CallerOf(s, t).StartGot? && !s.running
    ensures IsRun(w, s, actions)
    ensures var s' := After(w, s, actions);
            && AtRest(s', t) && s'.started && s'.running && s'.store == Some(CallerOf(s, t).cred)
            && s'.loops == s.loops + [Loop(Born, 0)] && s'.cancel == Some(|s.loops|) && s'.cancelled == s.cancelled
            && s'.history == s.history && s'.nonce == s.nonce && s'.done == s.done && s'.closed == s.closed
  {
    var s1 := CallerStep(w, s, t, StartStore);
    var s2 := CallerStep(w, s1, t, StartSpawn);
    var s3 := CallerStep(w, s2, t, StartFinish);
    var s4, b := Leave(w, s3, t);
    Step(w, s2, t, StartFinish, b);
    Step(w, s1, t, StartSpawn, [ByCaller(t, StartFinish)] + b);
    Step(w, s, t, StartStore, [ByCaller(t, StartSpawn)] + ([ByCaller(t, StartFinish)] + b));
    actions := [ByCaller(t, StartStore)] + ([ByCaller(t, StartSpawn)] + ([ByCaller(t, StartFinish)] + b));
  }

  /**
   A Start whose exchange yields `c`, from rest: the provider is started, `c` is in the store, and a new loop has been
   spawned that is not cancelled.
   */
  lemma {:induction false} StartCompletes(w: World, s: State, t: Tid, i: Inputs, c: View) returns (actions: seq<Action>)
    requires Inv(w, s) && AtRest(s, t) && !s.started && Result(w, Past(s.nonce, i)) == Some(c)
    ensures IsRun(w, s, actions)
    ensures var s' := After(w, s, actions);
            && AtRest(s', t) && s'.started && s'.store == Some(c)
            && s'.loops == s.loops + [Loop(Born, 0)] && |s.loops| !in s'.cancelled
            && s'.history == s.history + [Past(s.nonce, i)]
  {
    assert !s.running;
    var s1, a := Enter(w, s, t, CallStart);
    var s2 := CallerStep(w, s1, t, StartCheck);
    var s3 := CallerStep(w, s2, t, StartReply(i));
    var b := StartEnds(w, s3, t);
    Step(w, s2, t, StartReply(i), b);
    Step(w, s1, t, StartCheck, [ByCaller(t, StartReply(i))] + b);
    actions := [ByCaller(t, StartCheck)] + ([ByCaller(t, StartReply(i))] + b);
    RunConcat(w, s, a, actions);
    actions := a + actions;
  }

  /** From the end of its loop to the end of Stop. */
  lemma {:induction false} StopEnds(w: World, s: State, t: Tid) returns (actions: seq<Action>)
    requires CallerOf(s, t).StopWaiting? && CallerOf(s, t).ch in s.closed
    ensures IsRun(w, s, actions)
    ensures var s' := After(w, s, actions);
            AtRest(s', t) && !s'.started && s'.store.None? && s'.loops == s.loops && s'.history == s.history
  {
    var s1 := CallerStep(w, s, t, StopReceive);
    var s2 := CallerStep(w, s1, t, StopReplace);
    var s3 := CallerStep(w, s2, t, StopClear);
    var s4 := CallerStep(w, s3, t, StopFinish);
    var s5, b := Leave(w, s4, t);
    Step(w, s3, t, StopFinish, b);
    Step(w, s2, t, StopClear, [ByCaller(t, StopFinish)] + b);
    Step(w, s1, t, StopReplace, [ByCaller(t, StopClear)] + ([ByCaller(t, StopFinish)] + b));
    actions := [ByCaller(t, StopReplace)] + ([ByCaller(t, StopClear)] + ([ByCaller(t, StopFinish)] + b));
    Step(w, s, t, StopReceive, actions);
    actions := [ByCaller(t, StopReceive)] + actions;
  }

  /** From the lock to the wait for the loop. */
  lemma {:induction false} StopBegins(w: World, s: State, t: Tid) returns (s': State, actions: seq<Action>)
    requires AtRest(s, t) && s.started && s.running
    ensures IsRun(w, s, actions) && After(w, s, actions) == s' && CallerOf(s', t) == StopWaiting(s.done)
  {
    var s1, a := Enter(w, s, t, CallStop);
    var s2 := CallerStep(w, s1, t, StopCheck);
    s' := CallerStep(w, s2, t, StopCancel);
    Step(w, s2, t, StopCancel, []);
    Step(w, s1, t, StopCheck, [ByCaller(t, StopCancel)] + []);
    actions := [ByCaller(t, StopCheck)] + ([ByCaller(t, StopCancel)] + []);
    RunConcat(w, s, a, actions);
    actions := a + actions;
  }

  /** A Stop of a started provider, from rest, can run to its end, and leaves no credential and no loop. */
  lemma {:induction false} StopCompletes(w: World, s: State, t: Tid) returns (actions: seq<Action>)
    requires Inv(w, s) && AtRest(s, t) && s.started
    ensures IsRun(w, s, actions)
    ensures var s' := After(w, s, actions);
            AtRest(s', t) && !s'.started && s'.store.None? && forall l: LoopId :: !Alive(s', l)
  {
    var s1, a := StopBegins(w, s, t);
    InvAlways(w, s, a);
    var b := DrainLoop(w, s1, t);
    var s2 := After(w, s1, b);
    var c := StopEnds(w, s2, t);
    RunConcat(w, s1, b, c);
    RunConcat(w, s, a, b + c);
    actions := a + (b + c);
    InvAlways(w, s, actions);
    InvIsSafe(w, After(w, s, actions));
  }

  // ------------------------------------------------------------------ renewals

  /** The loop `l` is not cancelled, and at `pc`. */
  predicate LoopAt(s: State, l: LoopId, pc: Pc) {
    l < |s.loops| && l !in s.cancelled && s.loops[l].pc == pc
  }

  /** Loop `l` has gone on to `pc`, after the exchanges in `more`; nothing else has changed but perhaps the store. */
  predicate WentOn(s: State, s': State, l: LoopId, pc: Pc, more: seq<Past>, store: Option<View>) {
    && l < |s.loops|
    && var loops := s.loops[l := s.loops[l].(pc := pc)];
       s' == s.(loops := loops, history := s.history + more, nonce := s'.nonce, store := store)
  }

  lemma {:induction false} LoopCons(w: World, s: State, l: LoopId, op: LoopOp, rest: seq<Action>)
    requires Enabled(s, ByLoop(l, op)) && IsRun(w, LoopStep(w, s, l, op), rest)
    ensures IsRun(w, s, [ByLoop(l, op)] + rest)
    ensures After(w, s, [ByLoop(l, op)] + rest) == After(w, LoopStep(w, s, l, op), rest)
  {
    RunCons(w, s, ByLoop(l, op), rest);
  }

  /** An attempt that fails: one exchange, one wait, and on to the next check. */
  lemma {:induction false} AttemptFails(w: World, s: State, l: LoopId, ch: ChanId, n: nat, i: Inputs)
    returns (actions: seq<Action>)
    requires LoopAt(s, l, Checking(ch, n)) && n < 10 && Result(w, Past(s.nonce, i)).None?
    ensures IsRun(w, s, actions)
    ensures var s' := After(w, s, actions);
            && WentOn(s, s', l, Checking(ch, n + 1), [Past(s.nonce, i)], s.store)
            && s'.nonce == NonceAfter(w, Past(s.nonce, i))
  {
    var s1 := LoopStep(w, s, l, RenewCheck);
    var s2 := LoopStep(w, s1, l, RenewPost);
    var s3 := LoopStep(w, s2, l, RenewReply(i));
    var s4 := LoopStep(w, s3, l, RenewTimer);
    LoopCons(w, s3, l, RenewTimer, []);
    LoopCons(w, s2, l, RenewReply(i), [ByLoop(l, RenewTimer)] + []);
    LoopCons(w, s1, l, RenewPost, [ByLoop(l, RenewReply(i))] + ([ByLoop(l, RenewTimer)] + []));
    actions := [ByLoop(l, RenewPost)] + ([ByLoop(l, RenewReply(i))] + ([ByLoop(l, RenewTimer)] + []));
    LoopCons(w, s, l, RenewCheck, actions);
    actions := [ByLoop(l, RenewCheck)] + actions;
  }

  /** An attempt that succeeds: what the exchange yields is stored, and the loop goes back to sleep. */
  lemma {:induction false} AttemptSucceeds(w: World, s: State, l: LoopId, ch: ChanId, n: nat, i: Inputs, c: View)
    returns (actions: seq<Action>)
    requires LoopAt(s, l, Checking(ch, n)) && n < 10 && Result(w, Past(s.nonce, i)) == Some(c)
    ensures IsRun(w, s, actions) && WentOn(s, After(w, s, actions), l, Asleep(ch), [Past(s.nonce, i)], Some(c))
  {
    var s1 := LoopStep(w, s, l, RenewCheck);
    var s2 := LoopStep(w, s1, l, RenewPost);
    var s3 := LoopStep(w, s2, l, RenewReply(i));
    var s4 := LoopStep(w, s3, l, RenewStore);
    LoopCons(w, s3, l, RenewStore, []);
    LoopCons(w, s2, l, RenewReply(i), [ByLoop(l, RenewStore)] + []);
    LoopCons(w, s1, l, RenewPost, [ByLoop(l, RenewReply(i))] + ([ByLoop(l, RenewStore)] + []));
    actions := [ByLoop(l, RenewPost)] + ([ByLoop(l, RenewReply(i))] + ([ByLoop(l, RenewStore)] + []));
    LoopCons(w, s, l, RenewCheck, actions);
    actions := [ByLoop(l, RenewCheck)] + actions;
  }

  /** Each of these exchanges starts from the nonce the one before it left, the first one from `nonce`. */
  predicate Chained(w: World, nonce: string, es: seq<Past>) {
    && (es != [] ==> es[0].nonce == nonce)
    && forall k :: 0 < k < |es| ==> es[k].nonce == NonceAfter(w, es[k - 1])
  }

  /** The nonce they leave. */
  function NonceLeft(w: World, nonce: string, es: seq<Past>): string {
    if es == [] then nonce else NonceAfter(w, es[|es| - 1])
  }

  predicate AllFail(w: World, es: seq<Past>) {
    forall k :: 0 <= k < |es| ==> Result(w, es[k]).None?
  }

  lemma {:induction false} WentNowhere(s: State, l: LoopId, pc: Pc)
    requires LoopAt(s, l, pc)
    ensures WentOn(s, s, l, pc, [], s.store)
  {
    assert s.loops[l := s.loops[l].(pc := pc)] == s.loops && s.history + [] == s.history;
  }

  lemma {:induction false} LoopStaysAt(s: State, s': State, l: LoopId, pc: Pc, more: seq<Past>)
    requires WentOn(s, s', l, pc, more, s.store) && l !in s.cancelled
    ensures LoopAt(s', l, pc) && s'.store == s.store
  {
  }

  lemma {:induction false} WentOnTwice(
      s: State, s1: State, s2: State, l: LoopId, pc1: Pc, pc2: Pc, a: seq<Past>, b: seq<Past>, store1: Option<View>,
      store2: Option<View>)
    requires WentOn(s, s1, l, pc1, a, store1) && WentOn(s1, s2, l, pc2, b, store2)
    ensures WentOn(s, s2, l, pc2, a + b, store2)
  {
    assert s.history + a + b == s.history + (a + b);
  }

  lemma {:induction false} AttemptsFail(w: World, s: State, l: LoopId, ch: ChanId, es: seq<Past>)
    returns (s': State, actions: seq<Action>)
    requires LoopAt(s, l, Checking(ch, 0)) && |es| <= 10 && Chained(w, s.nonce, es) && AllFail(w, es)
    ensures IsRun(w, s, actions) && After(w, s, actions) == s'
    ensures WentOn(s, s', l, Checking(ch, |es|), es, s.store) && s'.nonce == NonceLeft(w, s.nonce, es)
    decreases |es|
  {
    if es == [] {
      s', actions := s, [];
      WentNowhere(s, l, Checking(ch, 0));
    } else {
      var n := |es| - 1;
      var front, e := es[..n], es[n];
      var s1, a := AttemptsFail(w, s, l, ch, front);
      LoopStaysAt(s, s1, l, Checking(ch, n), front);
      assert s1.nonce == e.nonce;
      var b := AttemptFails(w, s1, l, ch, n, e.inputs);
      s' := After(w, s1, b);
      WentOnTwice(s, s1, s', l, Checking(ch, n), Checking(ch, n + 1), front, [e], s.store, s.store);
      assert front + [e] == es;
      RunConcat(w, s, a, b);
      actions := a + b;
    }
  }

  /**
   A sleeping loop whose timer fires makes ten exchanges if all of them fail, one for each of its attempts, and then
   goes back to sleep with the store as it was.
   */
  lemma {:induction false} TenFailures(w: World, s: State, l: LoopId, ch: ChanId, es: seq<Past>)
    returns (actions: seq<Action>)
    requires LoopAt(s, l, Asleep(ch)) && |es| == 10 && Chained(w, s.nonce, es) && AllFail(w, es)
    ensures IsRun(w, s, actions) && WentOn(s, After(w, s, actions), l, Asleep(ch), es, s.store)
  {
    var s1 := LoopStep(w, s, l, Timer);
    var s2, a := AttemptsFail(w, s1, l, ch, es);
    LoopCons(w, s2, l, RenewCheck, []);
    RunConcat(w, s1, a, [ByLoop(l, RenewCheck)] + []);
    LoopCons(w, s, l, Timer, a + ([ByLoop(l, RenewCheck)] + []));
    actions := [ByLoop(l, Timer)] + (a + ([ByLoop(l, RenewCheck)] + []));
  }

  /**
   A sleeping loop whose timer fires, and of whose exchanges nine or fewer fail before one yields `c`: `c` is in the
   store, and the history has these exchanges and no other.
   */
  lemma {:induction false} SuccessAfterFailures(
      w: World, s: State, l: LoopId, ch: ChanId, es: seq<Past>, last: Past, c: View) returns (actions: seq<Action>)
    requires LoopAt(s, l, Asleep(ch)) && |es| < 10 && Chained(w, s.nonce, es) && AllFail(w, es)
    requires last.nonce == NonceLeft(w, s.nonce, es) && Result(w, last) == Some(c)
    ensures IsRun(w, s, actions) && WentOn(s, After(w, s, actions), l, Asleep(ch), es + [last], Some(c))
  {
    var s1 := LoopStep(w, s, l, Timer);
    var s2, a := AttemptsFail(w, s1, l, ch, es);
    var b := AttemptSucceeds(w, s2, l, ch, |es|, last.inputs, c);
    RunConcat(w, s1, a, b);
    LoopCons(w, s, l, Timer, a + b);
    actions := [ByLoop(l, Timer)] + (a + b);
    assert s.history + es + [last] == s.history + (es + [last]);
  }

  /** A loop that passed its checks before it was cancelled still stores what its exchange yields. */
  lemma {:induction false} LateWriteHappens(w: World, s: State, l: LoopId, ch: ChanId, n: nat, i: Inputs, c: View)
    returns (actions: seq<Action>)
    requires l < |s.loops| && l in s.cancelled && s.loops[l].pc == Ready(ch, n)
    requires Result(w, Past(s.nonce, i)) == Some(c)
    ensures IsRun(w, s, actions)
    ensures var s' := After(w, s, actions);
            |s'.loops| == |s.loops| && s'.store == Some(c) && s'.loops[l] == Loop(Asleep(ch), s.loops[l].lateSets + 1)
  {
    var s1 := LoopStep(w, s, l, RenewPost);
    var s2 := LoopStep(w, s1, l, RenewReply(i));
    var s3 := LoopStep(w, s2, l, RenewStore);
    LoopCons(w, s2, l, RenewStore, []);
    LoopCons(w, s1, l, RenewReply(i), [ByLoop(l, RenewStore)] + []);
    LoopCons(w, s, l, RenewPost, [ByLoop(l, RenewReply(i))] + ([ByLoop(l, RenewStore)] + []));
    actions := [ByLoop(l, RenewPost)] + ([ByLoop(l, RenewReply(i))] + ([ByLoop(l, RenewStore)] + []));
  }
}
