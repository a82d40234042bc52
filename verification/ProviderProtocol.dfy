/**
 `Provider.Start`/`Stop` and the renewal goroutine, as a protocol over its steps.

 Any number of goroutines call Start and Stop; each renewal loop is one more goroutine. A loop and the
 context it listens to are numbered together. Locks, channel operations, exchanges and every access to a
 shared field are steps of their own, except that the short critical sections of `renewal.mu` are single
 steps: everything else that touches those fields runs under `Provider.mu`, or is the loop's one read of
 `r.done`, which is a step here too.
 */
module ProviderProtocol {
  import opened Options
  import opened Counting
  import opened CredentialStore
  import opened NhiExchange
  import NhiRenewal

  type Tid = nat
  type LoopId = nat
  type ChanId = nat

  const MAX_RENEWAL_ATTEMPTS := NhiRenewal.MAX_RENEWAL_ATTEMPTS

  datatype Caller =
    | Idle
    | WantsStart
    | WantsStop
    | StartLocked
    | StartExchanging
    | StartGot(cred: View)
    | StartStored
    | StartSpawned                    // renewal.Start has returned
    | StopLocked
    | StopRenewal                     // about to enter renewal.Stop
    | StopWaiting(ch: ChanId)         // cancelled the loop, blocked on its channel
    | StopSignalled                   // the channel was closed
    | StopReplaced                    // renewal.Stop has returned
    | StopCleared
    | Leaving

  /** Where a renewal loop is; `ch` is the channel its deferred close will close. */
  datatype Pc =
    | Born                            // spawned, `defer close(r.done)` not yet evaluated
    | Asleep(ch: ChanId)              // the outer select
    | Checking(ch: ChanId, attempt: nat)
    | Ready(ch: ChanId, attempt: nat) // passed both checks
    | Exchanging(ch: ChanId, attempt: nat)
    | Got(ch: ChanId, attempt: nat, cred: View)
    | BackingOff(ch: ChanId, attempt: nat)
    | Exiting(ch: ChanId)
    | Dead

  /** A loop, and how often it wrote the store after its context was cancelled. */
  datatype Loop = Loop(pc: Pc, lateSets: nat)

  /** An exchange that took place: the nonce it started from and what the environment decided about it. */
  datatype Past = Past(nonce: string, inputs: Inputs)

  datatype State = State(
    lock: Option<Tid>,
    callers: map<Tid, Caller>,
    started: bool,
    running: bool,                    // renewal.running
    cancel: Option<LoopId>,           // the loop r.cancel would stop
    done: ChanId,                     // r.done
    nextChan: ChanId,
    cancelled: set<LoopId>,
    closed: seq<ChanId>,              // channels closed so far, in order
    loops: seq<Loop>,
    store: Option<View>,
    nonce: string,                    // the prover's
    history: seq<Past>)               // the exchanges that took place, in the order of their replies

  datatype CallerOp =
    | CallStart | CallStop | Acquire | Release
    | StartCheck | StartReply(inputs: Inputs) | StartStore | StartSpawn | StartFinish
    | StopCheck | StopCancel | StopReceive | StopReplace | StopClear | StopFinish

  datatype LoopOp =
    | Begin | Timer | Cancelled | Close
    | RenewCheck | RenewPost | RenewReply(inputs: Inputs) | RenewStore | RenewTimer | RenewCancelled

  datatype Action = ByCaller(t: Tid, cop: CallerOp) | ByLoop(l: LoopId, lop: LoopOp)

  /** What an exchange does, as far as the protocol is concerned. */
  type World = Past -> Exchanged

  /** The fixed surroundings of a provider, and the exchanges it makes in them. */
  datatype Setup = Setup(crypto: Crypto, cfg: Config, env: Environment)

  function WorldOf(p: Setup): World {
    (e: Past) => DoExchange(p.crypto, p.cfg, p.env, e.nonce, e.inputs)
  }

  function CallerOf(s: State, t: Tid): Caller {
    if t in s.callers then s.callers[t] else Idle
  }

  /** What an exchange yields. */
  function Result(w: World, e: Past): Option<View> {
    w(e).result
  }

  /** The nonce an exchange leaves in the prover. */
  function NonceAfter(w: World, e: Past): string {
    w(e).nonce
  }

  // ------------------------------------------------------------- steps of a caller

  predicate CallerEnabled(s: State, t: Tid, op: CallerOp) {
    var c := CallerOf(s, t);
    match op
    case CallStart => c.Idle?
    case CallStop => c.Idle?
    case Acquire => (c.WantsStart? || c.WantsStop?) && s.lock.None?
    case Release => c.Leaving?
    case StartCheck => c.StartLocked?
    case StartReply(_) => c.StartExchanging?
    case StartStore => c.StartGot?
    case StartSpawn => c.StartStored?
    case StartFinish => c.StartSpawned?
    case StopCheck => c.StopLocked?
    case StopCancel => c.StopRenewal?
    case StopReceive => c.StopWaiting? && c.ch in s.closed
    case StopReplace => c.StopSignalled?
    case StopClear => c.StopReplaced?
    case StopFinish => c.StopCleared?
  }

  /** Where the caller goes. */
  function NextCaller(w: World, s: State, t: Tid, op: CallerOp): Caller {
    match op
    case CallStart => WantsStart
    case CallStop => WantsStop
    case Acquire => if CallerOf(s, t).WantsStart? then StartLocked else StopLocked
    case Release => Idle
    case StartCheck => if s.started then Leaving else StartExchanging
    case StartReply(i) =>
      var r := Result(w, Past(s.nonce, i));
      if r.Some? then StartGot(r.value) else Leaving
    case StartStore => StartStored
    case StartSpawn => StartSpawned
    case StartFinish => Leaving
    case StopCheck => if s.started then StopRenewal else Leaving
    case StopCancel => if s.running then StopWaiting(s.done) else StopReplaced
    case StopReceive => StopSignalled
    case StopReplace => StopReplaced
    case StopClear => StopCleared
    case StopFinish => Leaving
  }

  /** What the step does to the shared fields. */
  function CallerEffect(s: State, t: Tid, op: CallerOp): State
    requires CallerEnabled(s, t, op)
  {
    match op
    case Acquire => s.(lock := Some(t))
    case Release => s.(lock := None)
    case StartStore => s.(store := Some(CallerOf(s, t).cred))
    case StartSpawn =>
      if s.running then s
      else s.(cancel := Some(|s.loops|), running := true, loops := s.loops + [Loop(Born, 0)])
    case StartFinish => s.(started := true)
    case StopCancel =>
      if !s.running then s
      else s.(running := false, cancelled := s.cancelled + (if s.cancel.Some? then {s.cancel.value} else {}))
    case StopReplace => s.(done := s.nextChan, nextChan := s.nextChan + 1)
    case StopClear => s.(store := None)
    case StopFinish => s.(started := false)
    case _ => s
  }

  /** A reply to an exchange, by whichever goroutine, enters the history and moves the prover's nonce. */
  function WithReply(w: World, s: State, from: State, reply: Option<Inputs>): State {
    match reply
    case None => s
    case Some(i) =>
      var e := Past(from.nonce, i);
      s.(nonce := NonceAfter(w, e), history := from.history + [e])
  }

  function CallerReply(op: CallerOp): Option<Inputs> {
    if op.StartReply? then Some(op.inputs) else None
  }

  function CallerStep(w: World, s: State, t: Tid, op: CallerOp): State
    requires CallerEnabled(s, t, op)
  {
    var next := CallerEffect(s, t, op).(callers := s.callers[t := NextCaller(w, s, t, op)]);
    WithReply(w, next, s, CallerReply(op))
  }

  // --------------------------------------------------------------- steps of a loop

  predicate LoopEnabled(pc: Pc, cancelled: bool, op: LoopOp) {
    match op
    case Begin => pc.Born?
    case Timer => pc.Asleep?
    case Cancelled => pc.Asleep? && cancelled
    case Close => pc.Exiting?
    case RenewCheck => pc.Checking?
    case RenewPost => pc.Ready?
    case RenewReply(_) => pc.Exchanging?
    case RenewStore => pc.Got?
    case RenewTimer => pc.BackingOff?
    case RenewCancelled => pc.BackingOff? && cancelled
  }

  /** Where the loop goes; `done` and `nonce` are the values of `r.done` and of the prover's nonce at that moment. */
  function NextPc(w: World, done: ChanId, nonce: string, pc: Pc, cancelled: bool, op: LoopOp): Pc
    requires LoopEnabled(pc, cancelled, op)
  {
    match op
    case Begin => Asleep(done)
    case Timer => Checking(pc.ch, 0)
    case Cancelled => Exiting(pc.ch)
    case Close => Dead
    case RenewCheck => if cancelled || pc.attempt >= MAX_RENEWAL_ATTEMPTS then Asleep(pc.ch)
        else Ready(pc.ch, pc.attempt)
    case RenewPost => Exchanging(pc.ch, pc.attempt)
    case RenewReply(i) =>
      var r := Result(w, Past(nonce, i));
      if r.Some? then Got(pc.ch, pc.attempt, r.value) else BackingOff(pc.ch, pc.attempt + 1)
    case RenewStore => Asleep(pc.ch)
    case RenewTimer => Checking(pc.ch, pc.attempt)
    case RenewCancelled => Asleep(pc.ch)
  }

  function NextLoop(w: World, done: ChanId, nonce: string, loop: Loop, cancelled: bool, op: LoopOp): Loop
    requires LoopEnabled(loop.pc, cancelled, op)
  {
    Loop(NextPc(w, done, nonce, loop.pc, cancelled, op), loop.lateSets + if op.RenewStore? && cancelled then 1 else 0)
  }

  function LoopReply(op: LoopOp): Option<Inputs> {
    if op.RenewReply? then Some(op.inputs) else None
  }

  function LoopStep(w: World, s: State, l: LoopId, op: LoopOp): State
    requires l < |s.loops| && LoopEnabled(s.loops[l].pc, l in s.cancelled, op)
  {
    var pc := s.loops[l].pc;
    var next := s.(
      loops := s.loops[l := NextLoop(w, s.done, s.nonce, s.loops[l], l in s.cancelled, op)],
      closed := if op.Close? then s.closed + [pc.ch] else s.closed,
      store := if op.RenewStore? then Some(pc.cred) else s.store);
    WithReply(w, next, s, LoopReply(op))
  }

  predicate Enabled(s: State, a: Action) {
    match a
    case ByCaller(t, op) => CallerEnabled(s, t, op)
    case ByLoop(l, op) => l < |s.loops| && LoopEnabled(s.loops[l].pc, l in s.cancelled, op)
  }

  function Apply(w: World, s: State, a: Action): State
    requires Enabled(s, a)
  {
    match a
    case ByCaller(t, op) => CallerStep(w, s, t, op)
    case ByLoop(l, op) => LoopStep(w, s, l, op)
  }

  // ---------------------------------------------------------------------- invariant

  predicate Holding(c: Caller) {
    !c.Idle? && !c.WantsStart? && !c.WantsStop?
  }

  function Holder(s: State): Caller {
    if s.lock.Some? then CallerOf(s, s.lock.value) else Idle
  }

  ghost predicate LockInv(s: State) {
    forall t: Tid :: Holding(CallerOf(s, t)) <==> s.lock == Some(t)
  }

  /** How far the lock holder's phase lets `started`, `running` and the store drift apart. */
  predicate PhaseInv(s: State) {
    match Holder(s)
    case StartExchanging => !s.started && !s.running && s.store.None?
    case StartGot(_) => !s.started && !s.running && s.store.None?
    case StartStored => !s.started && !s.running && s.store.Some?
    case StartSpawned => !s.started && s.running && s.store.Some?
    case StopRenewal => s.started && s.running && s.store.Some?
    case StopWaiting(ch) => s.started && !s.running && s.store.Some? && ch == s.done
    case StopSignalled => s.started && !s.running && s.store.Some? && s.done in s.closed
    case StopReplaced => s.started && !s.running && s.store.Some?
    case StopCleared => s.started && !s.running && s.store.None?
    case _ => s.started == s.running == s.store.Some?
  }

  /** A Stop is between cancelling the loop and having seen its channel close. */
  predicate Draining(s: State) {
    Holder(s).StopWaiting? || Holder(s).StopSignalled?
  }

  predicate HasChannel(pc: Pc) {
    !pc.Born? && !pc.Dead?
  }

  /**
   The loops come one after another, and loop number `l` owns channel number `l`: it is the only one to
   close it, and it does so as its last step.
   */
  ghost predicate LoopInv(s: State) {
    var n := |s.loops|;
    && s.nextChan == s.done + 1
    && (forall l :: 0 <= l < n - 1 ==> s.loops[l].pc.Dead?)
    && (forall l :: 0 <= l < n && HasChannel(s.loops[l].pc) ==> s.loops[l].pc.ch == l)
    && (forall l :: l in s.cancelled ==> l < n)
    && (if s.running || Draining(s)
        then && n >= 1 && s.done == n - 1
             && s.closed == (if s.loops[n - 1].pc.Dead? then Count(n) else Count(n - 1))
        else s.done == n && s.closed == Count(n) && (n >= 1 ==> s.loops[n - 1].pc.Dead?))
    && (s.running ==> s.cancel == Some(n - 1) && n - 1 !in s.cancelled && !s.loops[n - 1].pc.Dead?)
    && (Draining(s) ==> n - 1 in s.cancelled)
    && (Holder(s).StopSignalled? ==> s.loops[n - 1].pc.Dead?)
    && (forall l :: 0 <= l < n && s.loops[l].pc.Exiting? ==> l in s.cancelled)
  }

  predicate MayStillStore(pc: Pc) {
    pc.Ready? || pc.Exchanging? || pc.Got?
  }

  predicate LateSetOk(loop: Loop, cancelled: bool) {
    if cancelled then loop.lateSets + (if MayStillStore(loop.pc) then 1 else 0) <= 1 else loop.lateSets == 0
  }

  /** A loop writes the store at most once after its context was cancelled. */
  ghost predicate LateSetInv(s: State) {
    forall l :: 0 <= l < |s.loops| ==> LateSetOk(s.loops[l], l in s.cancelled)
  }

  predicate AttemptsOk(pc: Pc) {
    && ((pc.Ready? || pc.Exchanging? || pc.Got?) ==> pc.attempt < MAX_RENEWAL_ATTEMPTS)
    && ((pc.Checking? || pc.BackingOff?) ==> pc.attempt <= MAX_RENEWAL_ATTEMPTS)
  }

  ghost predicate AttemptInv(s: State) {
    forall l :: 0 <= l < |s.loops| ==> AttemptsOk(s.loops[l].pc)
  }

  /** The result of the latest exchange that succeeded. */
  function Latest(w: World, history: seq<Past>): Option<View> {
    if history == [] then None
    else
      var r := Result(w, history[|history| - 1]);
      if r.Some? then r else Latest(w, history[..|history| - 1])
  }

  /** A credential that has been obtained but not yet stored is on its way. */
  ghost predicate NothingPending(s: State) {
    (forall t: Tid :: !CallerOf(s, t).StartGot?) && forall l :: 0 <= l < |s.loops| ==> !s.loops[l].pc.Got?
  }

  predicate InHistory(w: World, history: seq<Past>, c: View) {
    exists k :: 0 <= k < |history| && Result(w, history[k]) == Some(c)
  }

  /** What is on its way to the store is the newest credential obtained; what is in it was, when it was put there. */
  ghost predicate StoreInv(w: World, s: State) {
    && (s.store.Some? ==> InHistory(w, s.history, s.store.value))
    && (s.store.Some? && NothingPending(s) ==> s.store == Latest(w, s.history))
    && (forall t: Tid :: CallerOf(s, t).StartGot? ==> Latest(w, s.history) == Some(CallerOf(s, t).cred))
    && (forall l :: 0 <= l < |s.loops| && s.loops[l].pc.Got? ==> Latest(w, s.history) == Some(s.loops[l].pc.cred))
  }

  /** Each exchange starts from the nonce the one before it left, the first from none. */
  ghost predicate NonceInv(w: World, history: seq<Past>, nonce: string) {
    && (history == [] ==> nonce == "")
    && (history != [] ==> history[0].nonce == "" && NonceAfter(w, history[|history| - 1]) == nonce)
    && (forall k :: 0 < k < |history| ==> history[k].nonce == NonceAfter(w, history[k - 1]))
  }

  ghost predicate Inv(w: World, s: State) {
    LockInv(s) && PhaseInv(s) && LoopInv(s) && LateSetInv(s) && AttemptInv(s)
    && StoreInv(w, s) && NonceInv(w, s.history, s.nonce)
  }

  // -------------------------------------------------------------- the invariant holds

  lemma CallersStay(w: World, s: State, t: Tid, op: CallerOp)
    requires CallerEnabled(s, t, op)
    ensures forall u: Tid :: u != t ==> CallerOf(CallerStep(w, s, t, op), u) == CallerOf(s, u)
    ensures CallerOf(CallerStep(w, s, t, op), t) == NextCaller(w, s, t, op)
  {
  }

  lemma LockStep(w: World, s: State, t: Tid, op: CallerOp)
    requires LockInv(s) && CallerEnabled(s, t, op)
    ensures LockInv(CallerStep(w, s, t, op))
  {
    CallersStay(w, s, t, op);
    assert Holding(CallerOf(s, t)) <==> s.lock == Some(t);
  }

  /** A caller that is past asking for the lock is its holder; one that is not, is not. */
  lemma CallerIsHolder(s: State, t: Tid, op: CallerOp)
    requires LockInv(s) && CallerEnabled(s, t, op)
    ensures !op.CallStart? && !op.CallStop? && !op.Acquire? ==> s.lock == Some(t) && Holder(s) == CallerOf(s, t)
    ensures op.CallStart? || op.CallStop? ==> s.lock != Some(t)
  {
    assert Holding(CallerOf(s, t)) <==> s.lock == Some(t);
  }

  lemma HolderAfter(w: World, s: State, t: Tid, op: CallerOp)
    requires LockInv(s) && CallerEnabled(s, t, op)
    ensures var s' := CallerStep(w, s, t, op);
            Holder(s') == if op.CallStart? || op.CallStop? then Holder(s)
                          else if op.Release? then Idle else NextCaller(w, s, t, op)
  {
    CallerIsHolder(s, t, op);
    CallersStay(w, s, t, op);
  }

  lemma PhaseStepByCaller(w: World, s: State, t: Tid, op: CallerOp)
    requires LockInv(s) && PhaseInv(s) && CallerEnabled(s, t, op)
    ensures PhaseInv(CallerStep(w, s, t, op))
  {
    CallerIsHolder(s, t, op);
    HolderAfter(w, s, t, op);
  }

  /** The part of the state `LoopInv` is about. */
  predicate SameLoops(s: State, s': State) {
    && s'.loops == s.loops && s'.running == s.running && s'.cancel == s.cancel && s'.done == s.done
    && s'.nextChan == s.nextChan && s'.cancelled == s.cancelled && s'.closed == s.closed
    && Draining(s') == Draining(s) && Holder(s').StopSignalled? == Holder(s).StopSignalled?
  }

  predicate TouchesLoops(op: CallerOp) {
    op.StartSpawn? || op.StopCancel? || op.StopReceive? || op.StopReplace?
  }

  lemma OtherOpsKeepLoops(w: World, s: State, t: Tid, op: CallerOp)
    requires LockInv(s) && CallerEnabled(s, t, op) && !TouchesLoops(op)
    ensures SameLoops(s, CallerStep(w, s, t, op))
  {
    CallerIsHolder(s, t, op);
    HolderAfter(w, s, t, op);
  }

  lemma LoopStepByCaller(w: World, s: State, t: Tid, op: CallerOp)
    requires LockInv(s) && PhaseInv(s) && LoopInv(s) && CallerEnabled(s, t, op)
    ensures LoopInv(CallerStep(w, s, t, op))
  {
    if TouchesLoops(op) {
      LoopOpByCaller(w, s, t, op);
    } else {
      OtherOpsKeepLoops(w, s, t, op);
    }
  }

  lemma LoopOpByCaller(w: World, s: State, t: Tid, op: CallerOp)
    requires LockInv(s) && PhaseInv(s) && LoopInv(s) && CallerEnabled(s, t, op) && TouchesLoops(op)
    ensures LoopInv(CallerStep(w, s, t, op))
  {
    CallerIsHolder(s, t, op);
    HolderAfter(w, s, t, op);
    CountMembers(|s.loops|);
    if |s.loops| >= 1 {
      CountMembers(|s.loops| - 1);
    }
  }

  /** A caller's step leaves the loops that are there alone, and may cancel one. */
  lemma LoopsStay(w: World, s: State, t: Tid, op: CallerOp)
    requires CallerEnabled(s, t, op)
    ensures var s' := CallerStep(w, s, t, op);
            && |s.loops| <= |s'.loops| && (forall l :: 0 <= l < |s.loops| ==> s'.loops[l] == s.loops[l])
            && (forall l :: |s.loops| <= l < |s'.loops| ==> s'.loops[l] == Loop(Born, 0))
            && s.cancelled <= s'.cancelled && (op.StartSpawn? ==> s'.cancelled == s.cancelled)
  {
  }

  lemma RestStepByCaller(w: World, s: State, t: Tid, op: CallerOp)
    requires Inv(w, s) && CallerEnabled(s, t, op)
    ensures var s' := CallerStep(w, s, t, op); LateSetInv(s') && AttemptInv(s')
  {
    LoopsStay(w, s, t, op);
    var s' := CallerStep(w, s, t, op);
    forall l | 0 <= l < |s'.loops| ensures LateSetOk(s'.loops[l], l in s'.cancelled) {
      if l < |s.loops| {
        assert LateSetOk(s.loops[l], l in s.cancelled);
      }
    }
  }

  lemma LatestSnoc(w: World, history: seq<Past>, e: Past)
    ensures Latest(w, history + [e]) == if Result(w, e).Some? then Result(w, e) else Latest(w, history)
  {
    assert (history + [e])[..|history|] == history;
  }

  lemma {:induction false} LatestIsInHistory(w: World, history: seq<Past>)
    requires Latest(w, history).Some?
    ensures InHistory(w, history, Latest(w, history).value)
  {
    var last := history[|history| - 1];
    if Result(w, last).None? {
      LatestIsInHistory(w, history[..|history| - 1]);
    }
  }

  lemma HistoryGrows(w: World, history: seq<Past>, e: Past, c: View)
    requires InHistory(w, history, c)
    ensures InHistory(w, history + [e], c)
  {
    var k :| 0 <= k < |history| && Result(w, history[k]) == Some(c);
    assert (history + [e])[k] == history[k];
  }

  lemma NonceStep(w: World, s: State, i: Inputs)
    requires NonceInv(w, s.history, s.nonce)
    ensures NonceInv(w, s.history + [Past(s.nonce, i)], NonceAfter(w, Past(s.nonce, i)))
  {
  }

  /** While a caller holds the lock for a Start, no loop is alive and nobody else has a credential to store. */
  lemma StartIsAlone(w: World, s: State, t: Tid)
    requires Inv(w, s) && (CallerOf(s, t).StartExchanging? || CallerOf(s, t).StartGot?)
    ensures s.store.None? && forall l :: 0 <= l < |s.loops| ==> s.loops[l].pc.Dead?
    ensures forall u: Tid :: CallerOf(s, u).StartGot? ==> u == t
  {
    assert Holding(CallerOf(s, t));
  }

  lemma StoreOnReply(w: World, s: State, t: Tid, i: Inputs)
    requires Inv(w, s) && CallerEnabled(s, t, StartReply(i))
    ensures StoreInv(w, CallerStep(w, s, t, StartReply(i)))
  {
    CallersStay(w, s, t, StartReply(i));
    StartIsAlone(w, s, t);
    LatestSnoc(w, s.history, Past(s.nonce, i));
  }

  lemma StoreOnStore(w: World, s: State, t: Tid)
    requires Inv(w, s) && CallerEnabled(s, t, StartStore)
    ensures StoreInv(w, CallerStep(w, s, t, StartStore))
  {
    CallersStay(w, s, t, StartStore);
    StartIsAlone(w, s, t);
    LatestIsInHistory(w, s.history);
  }

  /** The part of the state `StoreInv` is about stays, or the store is emptied. */
  ghost predicate SameStore(s: State, s': State) {
    && s'.history == s.history && (s'.store == s.store || s'.store.None?)
    && (forall t: Tid :: CallerOf(s', t).StartGot? || CallerOf(s, t).StartGot? ==> CallerOf(s', t) == CallerOf(s, t))
    && |s.loops| <= |s'.loops|
    && (forall l :: 0 <= l < |s.loops| ==> s'.loops[l] == s.loops[l])
    && (forall l :: |s.loops| <= l < |s'.loops| ==> !s'.loops[l].pc.Got?)
  }

  lemma OtherOpsKeepStore(w: World, s: State, t: Tid, op: CallerOp)
    requires CallerEnabled(s, t, op) && !op.StartReply? && !op.StartStore?
    ensures SameStore(s, CallerStep(w, s, t, op))
  {
    CallersStay(w, s, t, op);
  }

  lemma SameStoreKeeps(w: World, s: State, s': State)
    requires StoreInv(w, s) && SameStore(s, s')
    ensures StoreInv(w, s')
  {
    if NothingPending(s') {
      assert forall l :: 0 <= l < |s.loops| ==> !s'.loops[l].pc.Got?;
      assert forall t: Tid :: !CallerOf(s', t).StartGot?;
      assert NothingPending(s);
    }
  }

  lemma StoreStepByCaller(w: World, s: State, t: Tid, op: CallerOp)
    requires Inv(w, s) && CallerEnabled(s, t, op)
    ensures StoreInv(w, CallerStep(w, s, t, op))
  {
    if op.StartReply? {
      StoreOnReply(w, s, t, op.inputs);
    } else if op.StartStore? {
      StoreOnStore(w, s, t);
    } else {
      OtherOpsKeepStore(w, s, t, op);
      SameStoreKeeps(w, s, CallerStep(w, s, t, op));
    }
  }

  /** Only the newest loop can take a step, and only while it runs or is being drained. */
  lemma OnlyNewestSteps(w: World, s: State, l: LoopId, op: LoopOp)
    requires LoopInv(s) && l < |s.loops| && LoopEnabled(s.loops[l].pc, l in s.cancelled, op)
    ensures l == |s.loops| - 1 && (s.running || Draining(s))
  {
    assert !s.loops[l].pc.Dead?;
  }

  lemma PhaseStepByLoop(w: World, s: State, l: LoopId, op: LoopOp)
    requires PhaseInv(s) && LoopInv(s) && Enabled(s, ByLoop(l, op))
    ensures PhaseInv(LoopStep(w, s, l, op))
  {
    OnlyNewestSteps(w, s, l, op);
    assert Holder(LoopStep(w, s, l, op)) == Holder(s);
  }

  lemma LoopStepByLoop(w: World, s: State, l: LoopId, op: LoopOp)
    requires LoopInv(s) && Enabled(s, ByLoop(l, op))
    ensures LoopInv(LoopStep(w, s, l, op))
  {
    OnlyNewestSteps(w, s, l, op);
    assert Holder(LoopStep(w, s, l, op)) == Holder(s);
    if op.Close? {
      assert Count(l) + [l] == Count(l + 1);
    }
  }

  lemma NextLoopOk(w: World, done: ChanId, nonce: string, loop: Loop, cancelled: bool, op: LoopOp)
    requires LoopEnabled(loop.pc, cancelled, op) && LateSetOk(loop, cancelled) && AttemptsOk(loop.pc)
    ensures var next := NextLoop(w, done, nonce, loop, cancelled, op);
            LateSetOk(next, cancelled) && AttemptsOk(next.pc)
  {
  }

  lemma RestStepByLoop(w: World, s: State, l: LoopId, op: LoopOp)
    requires Inv(w, s) && l < |s.loops| && LoopEnabled(s.loops[l].pc, l in s.cancelled, op)
    ensures var s' := LoopStep(w, s, l, op); LateSetInv(s') && AttemptInv(s')
  {
    NextLoopOk(w, s.done, s.nonce, s.loops[l], l in s.cancelled, op);
    var s' := LoopStep(w, s, l, op);
    assert forall m :: 0 <= m < |s.loops| && m != l ==> s'.loops[m] == s.loops[m];
  }

  /** While a loop can step, no Start has a credential to store. */
  lemma LoopIsAlone(w: World, s: State, l: LoopId, op: LoopOp)
    requires Inv(w, s) && l < |s.loops| && LoopEnabled(s.loops[l].pc, l in s.cancelled, op)
    ensures forall t: Tid :: !CallerOf(s, t).StartGot?
    ensures forall m :: 0 <= m < |s.loops| && m != l ==> s.loops[m].pc.Dead?
  {
    OnlyNewestSteps(w, s, l, op);
    forall t: Tid ensures !CallerOf(s, t).StartGot? {
      assert Holding(CallerOf(s, t)) <==> s.lock == Some(t);
    }
  }

  lemma StoreOnRenewReply(w: World, s: State, l: LoopId, i: Inputs)
    requires Inv(w, s) && Enabled(s, ByLoop(l, RenewReply(i)))
    ensures StoreInv(w, LoopStep(w, s, l, RenewReply(i)))
  {
    var s', e := LoopStep(w, s, l, RenewReply(i)), Past(s.nonce, i);
    LoopIsAlone(w, s, l, RenewReply(i));
    LatestSnoc(w, s.history, e);
    if s.store.Some? {
      HistoryGrows(w, s.history, e, s.store.value);
    }
    assert forall t: Tid :: CallerOf(s', t) == CallerOf(s, t);
    assert forall m :: 0 <= m < |s.loops| && m != l ==> s'.loops[m] == s.loops[m];
    assert s'.loops[l].pc.Got? <==> Result(w, e).Some?;
    assert NothingPending(s);
  }

  lemma StoreOnRenewStore(w: World, s: State, l: LoopId)
    requires Inv(w, s) && Enabled(s, ByLoop(l, RenewStore))
    ensures StoreInv(w, LoopStep(w, s, l, RenewStore))
  {
    var s' := LoopStep(w, s, l, RenewStore);
    LoopIsAlone(w, s, l, RenewStore);
    LatestIsInHistory(w, s.history);
    assert forall t: Tid :: CallerOf(s', t) == CallerOf(s, t);
    assert forall m :: 0 <= m < |s.loops| && m != l ==> s'.loops[m] == s.loops[m];
  }

  lemma OtherOpsMoveOnly(w: World, s: State, l: LoopId, op: LoopOp)
    requires Enabled(s, ByLoop(l, op)) && !op.RenewReply? && !op.RenewStore?
    ensures var s' := LoopStep(w, s, l, op);
            && s'.history == s.history && s'.store == s.store && s'.callers == s.callers && |s'.loops| == |s.loops|
            && !s.loops[l].pc.Got? && !s'.loops[l].pc.Got?
            && forall m :: 0 <= m < |s.loops| && m != l ==> s'.loops[m] == s.loops[m]
  {
  }

  lemma StoreOnOtherOp(w: World, s: State, l: LoopId, op: LoopOp)
    requires Inv(w, s) && Enabled(s, ByLoop(l, op)) && !op.RenewReply? && !op.RenewStore?
    ensures StoreInv(w, LoopStep(w, s, l, op))
  {
    var s' := LoopStep(w, s, l, op);
    OtherOpsMoveOnly(w, s, l, op);
    LoopIsAlone(w, s, l, op);
    assert NothingPending(s);
    assert forall t: Tid :: CallerOf(s', t) == CallerOf(s, t);
  }

  lemma StoreStepByLoop(w: World, s: State, l: LoopId, op: LoopOp)
    requires Inv(w, s) && Enabled(s, ByLoop(l, op))
    ensures StoreInv(w, LoopStep(w, s, l, op))
  {
    if op.RenewReply? {
      StoreOnRenewReply(w, s, l, op.inputs);
    } else if op.RenewStore? {
      StoreOnRenewStore(w, s, l);
    } else {
      StoreOnOtherOp(w, s, l, op);
    }
  }

  lemma NonceStepByCaller(w: World, s: State, t: Tid, op: CallerOp)
    requires NonceInv(w, s.history, s.nonce) && CallerEnabled(s, t, op)
    ensures var s' := CallerStep(w, s, t, op); NonceInv(w, s'.history, s'.nonce)
  {
    if op.StartReply? {
      NonceStep(w, s, op.inputs);
    }
  }

  lemma NonceStepByLoop(w: World, s: State, l: LoopId, op: LoopOp)
    requires NonceInv(w, s.history, s.nonce) && Enabled(s, ByLoop(l, op))
    ensures var s' := LoopStep(w, s, l, op); NonceInv(w, s'.history, s'.nonce)
  {
    if op.RenewReply? {
      NonceStep(w, s, op.inputs);
    }
  }

  lemma LockStepByLoop(w: World, s: State, l: LoopId, op: LoopOp)
    requires LockInv(s) && Enabled(s, ByLoop(l, op))
    ensures LockInv(LoopStep(w, s, l, op))
  {
    assert forall t: Tid :: CallerOf(LoopStep(w, s, l, op), t) == CallerOf(s, t);
  }

  lemma InvStep(w: World, s: State, a: Action)
    requires Inv(w, s) && Enabled(s, a)
    ensures Inv(w, Apply(w, s, a))
  {
    match a {
      case ByCaller(t, op) =>
        LockStep(w, s, t, op);
        PhaseStepByCaller(w, s, t, op);
        LoopStepByCaller(w, s, t, op);
        RestStepByCaller(w, s, t, op);
        StoreStepByCaller(w, s, t, op);
        NonceStepByCaller(w, s, t, op);
      case ByLoop(l, op) =>
        LockStepByLoop(w, s, l, op);
        PhaseStepByLoop(w, s, l, op);
        LoopStepByLoop(w, s, l, op);
        RestStepByLoop(w, s, l, op);
        StoreStepByLoop(w, s, l, op);
        NonceStepByLoop(w, s, l, op);
    }
  }

  // ----------------------------------------------------------------------- all runs

  /** A provider as `NewProvider` leaves it. */
  const INITIAL := State(None, map[], false, false, None, 0, 1, {}, [], [], None, "", [])

  predicate IsRun(w: World, s: State, actions: seq<Action>)
    decreases |actions|
  {
    actions == [] || (Enabled(s, actions[0]) && IsRun(w, Apply(w, s, actions[0]), actions[1..]))
  }

  function After(w: World, s: State, actions: seq<Action>): State
    requires IsRun(w, s, actions)
    decreases |actions|
  {
    if actions == [] then s else After(w, Apply(w, s, actions[0]), actions[1..])
  }

  lemma {:induction false} InvAlways(w: World, s: State, actions: seq<Action>)
    requires Inv(w, s) && IsRun(w, s, actions)
    ensures Inv(w, After(w, s, actions))
    decreases |actions|
  {
    if actions == [] {
    } else {
      InvStep(w, s, actions[0]);
      InvAlways(w, Apply(w, s, actions[0]), actions[1..]);
    }
  }

  lemma InvInitially(w: World)
    ensures Inv(w, INITIAL)
  {
    assert Count(0) == [];
  }

  predicate Alive(s: State, l: LoopId) {
    l < |s.loops| && !s.loops[l].pc.Dead?
  }

  predicate LoopExchanging(s: State, l: LoopId) {
    l < |s.loops| && s.loops[l].pc.Exchanging?
  }

  /** The Stop behind `c` waits for the channel of a loop it cancelled, and only that loop closes it. */
  predicate WaitsForItsLoop(s: State, c: Caller) {
    c.StopWaiting? ==>
      && c.ch < |s.loops| && c.ch in s.cancelled
      && (c.ch in s.closed <==> s.loops[c.ch].pc.Dead?)
      && (HasChannel(s.loops[c.ch].pc) ==> s.loops[c.ch].pc.ch == c.ch)
  }

  /** An exchange in `history` yielded `c`, which is vetted with that exchange's key, package and posts. */
  ghost predicate Obtained(p: Setup, history: seq<Past>, c: View) {
    exists k :: 0 <= k < |history| && Yields(p.crypto, p.cfg, p.env, history[k].nonce, history[k].inputs, c)
  }

  lemma InHistoryIsObtained(p: Setup, history: seq<Past>, c: View)
    requires InHistory(WorldOf(p), history, c)
    ensures Obtained(p, history, c)
  {
    var k :| 0 <= k < |history| && Result(WorldOf(p), history[k]) == Some(c);
    ExchangeIsVetted(p.crypto, p.cfg, p.env, history[k].nonce, history[k].inputs);
  }

  lemma AllObtained(p: Setup, s: State)
    requires StoreInv(WorldOf(p), s)
    ensures CredentialsObtained(p, s)
  {
    var latest := Latest(WorldOf(p), s.history);
    if s.store.Some? {
      InHistoryIsObtained(p, s.history, s.store.value);
    }
    if latest.Some? {
      LatestIsInHistory(WorldOf(p), s.history);
      InHistoryIsObtained(p, s.history, latest.value);
    }
  }

  /** Whatever is in the store, or on its way there, was yielded by an exchange of this run. */
  ghost predicate CredentialsObtained(p: Setup, s: State) {
    && (s.store.Some? ==> Obtained(p, s.history, s.store.value))
    && (forall t: Tid :: CallerOf(s, t).StartGot? ==> Obtained(p, s.history, CallerOf(s, t).cred))
    && (forall l :: 0 <= l < |s.loops| && s.loops[l].pc.Got? ==> Obtained(p, s.history, s.loops[l].pc.cred))
  }

  /** Between storing the first credential in a Start, and clearing the store in a Stop. */
  predicate HoldsCredential(c: Caller) {
    c.StartStored? || c.StartSpawned? || c.StopRenewal? || c.StopWaiting? || c.StopSignalled? || c.StopReplaced?
  }

  /** What every interleaving of callers and renewal loops keeps. */
  ghost predicate Safe(w: World, s: State) {
    // at most one loop is alive
    && (forall l: LoopId, m: LoopId :: Alive(s, l) && Alive(s, m) ==> l == m)
    // at most one exchange is in flight, whether by a caller or by a loop
    && (forall t: Tid, u: Tid :: CallerOf(s, t).StartExchanging? && CallerOf(s, u).StartExchanging? ==> t == u)
    && (forall t: Tid, l: LoopId :: CallerOf(s, t).StartExchanging? ==> !LoopExchanging(s, l))
    // no channel is closed twice
    && (forall i, j :: 0 <= i < j < |s.closed| ==> s.closed[i] != s.closed[j])
    // a Stop that waits, waits for its own loop
    && (forall t: Tid :: WaitsForItsLoop(s, CallerOf(s, t)))
    // after its cancellation a loop writes the store at most once
    && (forall l :: 0 <= l < |s.loops| ==> s.loops[l].lateSets <= 1)
    // a started provider has a credential, and a loop that is alive and not cancelled
    && (s.lock.None? && s.started ==> s.store.Some? && |s.loops| >= 1)
    && (s.lock.None? && s.started ==> Alive(s, |s.loops| - 1) && |s.loops| - 1 !in s.cancelled)
    // from the moment it is stored until it is cleared there is a credential
    && (forall t: Tid :: HoldsCredential(CallerOf(s, t)) ==> s.store.Some?)
    // a stopped provider has no loop and no credential
    && (s.lock.None? && !s.started ==> s.store.None? && forall l: LoopId :: !Alive(s, l))
    // unless a credential is on its way there, the store holds the newest one obtained
    && (s.store.Some? && NothingPending(s) ==> s.store == Latest(w, s.history))
    // the exchanges pass one nonce on from each to the next
    && NonceInv(w, s.history, s.nonce)
  }

  lemma HolderOnly(s: State)
    requires LockInv(s)
    ensures forall t: Tid :: Holding(CallerOf(s, t)) ==> s.lock == Some(t) && Holder(s) == CallerOf(s, t)
  {
  }

  lemma InvIsSafe(w: World, s: State)
    requires Inv(w, s)
    ensures Safe(w, s)
  {
    var n := |s.loops|;
    HolderOnly(s);
    CountMembers(n);
    if n >= 1 {
      CountMembers(n - 1);
    }
    forall t: Tid | CallerOf(s, t).StopWaiting? ensures WaitsForItsLoop(s, CallerOf(s, t)) {
      assert Holding(CallerOf(s, t));
    }
    forall t: Tid | HoldsCredential(CallerOf(s, t)) ensures s.store.Some? {
      assert Holding(CallerOf(s, t));
    }
    forall t: Tid, l: LoopId | CallerOf(s, t).StartExchanging? ensures !Alive(s, l) {
      assert Holding(CallerOf(s, t));
    }
    forall t: Tid, u: Tid | CallerOf(s, t).StartExchanging? && CallerOf(s, u).StartExchanging? ensures t == u {
      assert Holding(CallerOf(s, t)) && Holding(CallerOf(s, u));
    }
  }

  /** Every reachable state is safe, and every credential in it has its exchange. */
  lemma AlwaysSafe(p: Setup, actions: seq<Action>)
    requires IsRun(WorldOf(p), INITIAL, actions)
    ensures var s := After(WorldOf(p), INITIAL, actions); Safe(WorldOf(p), s) && CredentialsObtained(p, s)
  {
    var w := WorldOf(p);
    InvInitially(w);
    InvAlways(w, INITIAL, actions);
    InvIsSafe(w, After(w, INITIAL, actions));
    AllObtained(p, After(w, INITIAL, actions));
  }

  // -------------------------------------------------------------- Stop can always finish

  /** An exchange that fails before it posts anything. */
  const FAILING := Inputs(false, None, None, None, NoReply, None, NoReply)

  /** A cancelled loop's next step on its way out, and how many steps it is from the end. */
  function WayOut(pc: Pc): LoopOp
    requires !pc.Dead?
  {
    match pc
    case Born => Begin
    case Asleep(_) => Cancelled
    case Checking(_, _) => RenewCheck
    case Ready(_, _) => RenewPost
    case Exchanging(_, _) => RenewReply(FAILING)
    case Got(_, _, _) => RenewStore
    case BackingOff(_, _) => RenewCancelled
    case Exiting(_) => Close
  }

  function StepsOut(pc: Pc): nat {
    match pc
    case Dead => 0
    case Exiting(_) => 1
    case Asleep(_) => 2
    case Born => 3
    case Checking(_, _) => 3
    case Got(_, _, _) => 3
    case BackingOff(_, _) => 3
    case Exchanging(_, _) => 4
    case Ready(_, _) => 5
  }

  /** A waiting Stop holds the lock, and its channel is that of the newest loop, which it has cancelled. */
  lemma WaitingStop(w: World, s: State, t: Tid)
    requires Inv(w, s) && CallerOf(s, t).StopWaiting?
    ensures |s.loops| >= 1 && CallerOf(s, t).ch == |s.loops| - 1 && |s.loops| - 1 in s.cancelled
    ensures s.loops[|s.loops| - 1].pc.Dead? ==> |s.loops| - 1 in s.closed
  {
    assert Holding(CallerOf(s, t));
    CountMembers(|s.loops|);
  }

  lemma OneStepOut(w: World, s: State, l: LoopId)
    requires l < |s.loops| && l in s.cancelled && !s.loops[l].pc.Dead?
    ensures var a := ByLoop(l, WayOut(s.loops[l].pc));
            && Enabled(s, a) && Apply(w, s, a).callers == s.callers && |Apply(w, s, a).loops| == |s.loops|
            && StepsOut(Apply(w, s, a).loops[l].pc) == StepsOut(s.loops[l].pc) - 1
  {
  }

  lemma {:induction false} DrainLoop(w: World, s: State, t: Tid) returns (actions: seq<Action>)
    requires Inv(w, s) && CallerOf(s, t).StopWaiting?
    ensures IsRun(w, s, actions) && |actions| <= 5
    ensures |actions| == StepsOut(s.loops[|s.loops| - 1].pc)
    ensures CallerOf(After(w, s, actions), t) == CallerOf(s, t) && CallerOf(s, t).ch in After(w, s, actions).closed
    decreases StepsOut(s.loops[|s.loops| - 1].pc)
  {
    var l := |s.loops| - 1;
    WaitingStop(w, s, t);
    if s.loops[l].pc.Dead? {
      actions := [];
    } else {
      var a := ByLoop(l, WayOut(s.loops[l].pc));
      OneStepOut(w, s, l);
      InvStep(w, s, a);
      var rest := DrainLoop(w, Apply(w, s, a), t);
      actions := [a] + rest;
      assert actions[1..] == rest;
    }
  }

  /** From every reachable state in which a Stop waits, at most five steps of its loop let it go on: no deadlock. */
  lemma {:induction false} StopNeverStuck(w: World, actions: seq<Action>, t: Tid) returns (more: seq<Action>)
    requires IsRun(w, INITIAL, actions) && CallerOf(After(w, INITIAL, actions), t).StopWaiting?
    ensures var s := After(w, INITIAL, actions);
            IsRun(w, s, more) && |more| <= 5 && CallerEnabled(After(w, s, more), t, StopReceive)
  {
    InvInitially(w);
    InvAlways(w, INITIAL, actions);
    more := DrainLoop(w, After(w, INITIAL, actions), t);
  }
}
