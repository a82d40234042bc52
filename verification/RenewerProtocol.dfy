/**
 `credential.Renewer`: Start, Stop and the renewal goroutine, as a protocol over its steps.

 Unlike the NHI provider, nothing here serialises whole calls: Stop releases `r.mu` after clearing `started`,
 and then reads `r.cancel` and `r.done` unlocked. Critical sections of `r.mu` are single steps; so are the
 unlocked reads. What may overlap is a parameter of a run, its discipline.
 */
module RenewerProtocol {
  import opened Options
  import opened Counting

  type Tid = nat
  type LoopId = nat
  type ChanId = nat

  /** A caller inside Stop; Start is one critical section and so has no phases. */
  datatype Caller =
    | Idle
    | StopFlagged                     // cleared `started`, about to call r.cancel
    | StopCancelled                   // about to read r.done
    | StopWaiting(ch: ChanId)
    | StopSignalled                   // about to replace r.done

  /** Where a loop is; `ch` is the channel its deferred close will close, `id` the renewal it is in. */
  datatype Pc =
    | Born
    | Asleep(ch: ChanId)
    | Calling(ch: ChanId, id: nat)    // inside RenewFn
    | Granted(ch: ChanId, id: nat)    // RenewFn returned a credential
    | Saved(ch: ChanId, id: nat)      // stored it
    | Failed(ch: ChanId)
    | BackingOff(ch: ChanId)
    | Exiting(ch: ChanId)
    | Dead

  /** What the loops write, and when a Stop returned; `loops` is how many loops had been started by then. */
  datatype Entry =
    | StoreWrite(l: LoopId, id: nat)
    | ExpiryWrite(l: LoopId, id: nat)
    | StopReturned(loops: nat, waited: bool)

  datatype State = State(
    key: string,
    callers: map<Tid, Caller>,
    started: bool,
    cancel: Option<LoopId>,
    done: ChanId,
    nextChan: ChanId,
    nextRenewal: nat,
    cancelled: set<LoopId>,
    closed: seq<ChanId>,
    loops: seq<Pc>,
    log: seq<Entry>)

  datatype CallerOp = Start | StopFlag | StopCancel | StopLoad | StopReceive | StopReplace

  datatype LoopOp =
    | Begin | Timer | Cancelled | Close
    | Reply(granted: bool) | Put | SetExpiry | FailCheck | RetryTimer | RetryCancelled

  datatype Action =
    | ByCaller(t: Tid, cop: CallerOp)
    | ByLoop(l: LoopId, lop: LoopOp)
    | ParentCancelled(l: LoopId)      // the context given to Start was cancelled by its owner

  /** How calls may overlap: freely; a Start never inside a Stop; no two calls at all. */
  datatype Discipline = Free | StartsAlone | AllAlone

  function CallerOf(s: State, t: Tid): Caller {
    if t in s.callers then s.callers[t] else Idle
  }

  predicate CallerEnabled(s: State, t: Tid, op: CallerOp) {
    var c := CallerOf(s, t);
    match op
    case Start => c.Idle?
    case StopFlag => c.Idle?
    case StopCancel => c.StopFlagged?
    case StopLoad => c.StopCancelled?
    case StopReceive => c.StopWaiting? && c.ch in s.closed
    case StopReplace => c.StopSignalled?
  }

  function NextCaller(s: State, t: Tid, op: CallerOp): Caller {
    match op
    case Start => Idle
    case StopFlag => if s.started then StopFlagged else Idle
    case StopCancel => StopCancelled
    case StopLoad => StopWaiting(s.done)
    case StopReceive => StopSignalled
    case StopReplace => Idle
  }

  function CallerEffect(s: State, op: CallerOp): State {
    match op
    case Start =>
      if s.started then s
      else s.(cancel := Some(|s.loops|), started := true, loops := s.loops + [Born])
    case StopFlag =>
      if s.started then s.(started := false) else s.(log := s.log + [StopReturned(|s.loops|, false)])
    case StopCancel => s.(cancelled := s.cancelled + (if s.cancel.Some? then {s.cancel.value} else {}))
    case StopReplace =>
      s.(done := s.nextChan, nextChan := s.nextChan + 1, log := s.log + [StopReturned(|s.loops|, true)])
    case _ => s
  }

  function CallerStep(s: State, t: Tid, op: CallerOp): State {
    CallerEffect(s, op).(callers := s.callers[t := NextCaller(s, t, op)])
  }

  predicate LoopEnabled(pc: Pc, cancelled: bool, op: LoopOp) {
    match op
    case Begin => pc.Born?
    case Timer => pc.Asleep?
    case Cancelled => pc.Asleep? && cancelled
    case Close => pc.Exiting?
    case Reply(_) => pc.Calling?
    case Put => pc.Granted?
    case SetExpiry => pc.Saved?
    case FailCheck => pc.Failed?
    case RetryTimer => pc.BackingOff?
    case RetryCancelled => pc.BackingOff? && cancelled
  }

  /** Where the loop goes, given the store key, the current `r.done` and the number of the next renewal. */
  function NextPc(key: string, done: ChanId, renewal: nat, pc: Pc, cancelled: bool, op: LoopOp): Pc
    requires LoopEnabled(pc, cancelled, op)
  {
    match op
    case Begin => Asleep(done)
    case Timer => Calling(pc.ch, renewal)
    case Cancelled => Exiting(pc.ch)
    case Close => Dead
    case Reply(granted) => if granted then Granted(pc.ch, pc.id) else Failed(pc.ch)
    case Put => if key != "" then Saved(pc.ch, pc.id) else Failed(pc.ch)
    case SetExpiry => Asleep(pc.ch)
    case FailCheck => if cancelled then Asleep(pc.ch) else BackingOff(pc.ch)
    case RetryTimer => Calling(pc.ch, renewal)
    case RetryCancelled => Asleep(pc.ch)
  }

  /** What the step writes. */
  function Writes(key: string, l: LoopId, pc: Pc, cancelled: bool, op: LoopOp): seq<Entry>
    requires LoopEnabled(pc, cancelled, op)
  {
    if op.Put? && key != "" then [StoreWrite(l, pc.id)]
    else if op.SetExpiry? then [ExpiryWrite(l, pc.id)]
    else []
  }

  function LoopStep(s: State, l: LoopId, op: LoopOp): State
    requires l < |s.loops| && LoopEnabled(s.loops[l], l in s.cancelled, op)
  {
    var pc := s.loops[l];
    s.(loops := s.loops[l := NextPc(s.key, s.done, s.nextRenewal, pc, l in s.cancelled, op)],
       nextRenewal := if op.Timer? || op.RetryTimer? then s.nextRenewal + 1 else s.nextRenewal,
       closed := if op.Close? then s.closed + [pc.ch] else s.closed,
       log := s.log + Writes(s.key, l, pc, l in s.cancelled, op))
  }

  predicate Enabled(s: State, a: Action) {
    match a
    case ByCaller(t, op) => CallerEnabled(s, t, op)
    case ByLoop(l, op) => l < |s.loops| && LoopEnabled(s.loops[l], l in s.cancelled, op)
    case ParentCancelled(l) => l < |s.loops|
  }

  function Apply(s: State, a: Action): State
    requires Enabled(s, a)
  {
    match a
    case ByCaller(t, op) => CallerStep(s, t, op)
    case ByLoop(l, op) => LoopStep(s, l, op)
    case ParentCancelled(l) => s.(cancelled := s.cancelled + {l})
  }

  ghost predicate NobodyStopping(s: State) {
    forall t: Tid :: CallerOf(s, t).Idle?
  }

  ghost predicate Allowed(d: Discipline, s: State, a: Action) {
    && Enabled(s, a)
    && (d != Free && a.ByCaller? && a.cop.Start? ==> NobodyStopping(s))
    && (d == AllAlone && a.ByCaller? && a.cop.StopFlag? ==> NobodyStopping(s))
  }

  // ---------------------------------------------------------------------- invariant

  /** `stopper` is the one caller inside Stop, if any. */
  ghost predicate StopperInv(s: State, stopper: Option<Tid>) {
    forall t: Tid :: !CallerOf(s, t).Idle? <==> stopper == Some(t)
  }

  function Phase(s: State, stopper: Option<Tid>): Caller {
    if stopper.Some? then CallerOf(s, stopper.value) else Idle
  }

  predicate HasChannel(pc: Pc) {
    !pc.Born? && !pc.Dead?
  }

  /** Loop `l` owns channel `l`; the newest loop may be alive only between its Start and the end of its Stop. */
  ghost predicate LoopInv(s: State, phase: Caller) {
    var n := |s.loops|;
    && s.nextChan == s.done + 1
    && (forall l :: 0 <= l < n - 1 ==> s.loops[l].Dead?)
    && (forall l :: 0 <= l < n && HasChannel(s.loops[l]) ==> s.loops[l].ch == l)
    && (forall l :: 0 <= l < n && s.loops[l].Exiting? ==> l in s.cancelled)
    && (forall l :: l in s.cancelled ==> l < n)
    && (if s.started || !phase.Idle?
        then && n >= 1 && s.done == n - 1 && s.cancel == Some(n - 1)
             && s.closed == (if s.loops[n - 1].Dead? then Count(n) else Count(n - 1))
        else s.done == n && s.closed == Count(n) && (n >= 1 ==> s.loops[n - 1].Dead?))
    && (!phase.Idle? ==> !s.started)
    && (!phase.Idle? && !phase.StopFlagged? ==> n - 1 in s.cancelled)
    && (phase.StopWaiting? ==> phase.ch == s.done)
    && (phase.StopSignalled? ==> s.loops[n - 1].Dead?)
  }

  predicate IsWrite(e: Entry) {
    !e.StopReturned?
  }

  /** Whether this Stop promises silence: it waited, or no call overlapped another. */
  predicate Counts(d: Discipline, e: Entry) {
    e.StopReturned? && (e.waited || d == AllAlone)
  }

  predicate StoredBefore(log: seq<Entry>, i: nat, l: LoopId, id: nat)
    requires i <= |log|
  {
    StoreWrite(l, id) in log[..i]
  }

  /** No loop that was there when a Stop returned writes afterwards; expiries follow their own credential. */
  ghost predicate LogOk(d: Discipline, log: seq<Entry>) {
    && (forall i, j :: 0 <= i < j < |log| && Counts(d, log[i]) && IsWrite(log[j]) ==> log[j].l >= log[i].loops)
    && (forall i :: 0 <= i < |log| && log[i].ExpiryWrite? ==> StoredBefore(log, i, log[i].l, log[i].id))
  }

  predicate DeadBelow(loops: seq<Pc>, n: nat) {
    n <= |loops| && forall l :: 0 <= l < n ==> loops[l].Dead?
  }

  ghost predicate SilenceInv(d: Discipline, s: State) {
    forall e :: e in s.log && Counts(d, e) ==> DeadBelow(s.loops, e.loops)
  }

  ghost predicate SavedInv(s: State) {
    forall l :: 0 <= l < |s.loops| && s.loops[l].Saved? ==> s.key != "" && StoreWrite(l, s.loops[l].id) in s.log
  }

  ghost predicate LogInv(d: Discipline, s: State) {
    LogOk(d, s.log) && SilenceInv(d, s) && SavedInv(s)
  }

  ghost predicate Inv(d: Discipline, s: State, stopper: Option<Tid>) {
    StopperInv(s, stopper) && LoopInv(s, Phase(s, stopper)) && LogInv(d, s)
  }

  // -------------------------------------------------------------- the invariant holds

  lemma CallersStay(s: State, t: Tid, op: CallerOp)
    ensures forall u: Tid :: u != t ==> CallerOf(CallerStep(s, t, op), u) == CallerOf(s, u)
    ensures CallerOf(CallerStep(s, t, op), t) == NextCaller(s, t, op)
  {
  }

  /** Who is inside Stop after a caller's step. */
  function StopperAfter(s: State, stopper: Option<Tid>, t: Tid, op: CallerOp): Option<Tid> {
    match op
    case Start => stopper
    case StopFlag => if s.started then Some(t) else stopper
    case StopReplace => None
    case _ => Some(t)
  }

  lemma StopperStep(s: State, stopper: Option<Tid>, t: Tid, op: CallerOp)
    requires StopperInv(s, stopper) && LoopInv(s, Phase(s, stopper)) && CallerEnabled(s, t, op)
    ensures StopperInv(CallerStep(s, t, op), StopperAfter(s, stopper, t, op))
    ensures Phase(CallerStep(s, t, op), StopperAfter(s, stopper, t, op))
         == if op.Start? || (op.StopFlag? && !s.started) then Phase(s, stopper) else NextCaller(s, t, op)
    ensures !op.Start? && !op.StopFlag? ==> Phase(s, stopper) == CallerOf(s, t)
  {
    CallersStay(s, t, op);
    assert !CallerOf(s, t).Idle? <==> stopper == Some(t);
  }

  lemma LoopInvByCaller(d: Discipline, s: State, stopper: Option<Tid>, t: Tid, op: CallerOp)
    requires Inv(d, s, stopper) && d != Free && Allowed(d, s, ByCaller(t, op))
    ensures LoopInv(CallerStep(s, t, op), Phase(CallerStep(s, t, op), StopperAfter(s, stopper, t, op)))
  {
    StopperStep(s, stopper, t, op);
    CountMembers(|s.loops|);
    if |s.loops| >= 1 {
      CountMembers(|s.loops| - 1);
    }
    if op.Start? {
      assert Phase(s, stopper).Idle?;
    }
  }

  lemma LogGrows(d: Discipline, log: seq<Entry>, e: Entry)
    requires LogOk(d, log)
    requires IsWrite(e) ==> forall x :: x in log && Counts(d, x) ==> e.l >= x.loops
    requires e.ExpiryWrite? ==> StoreWrite(e.l, e.id) in log
    ensures LogOk(d, log + [e])
  {
    var longer := log + [e];
    forall i | 0 <= i < |longer| && longer[i].ExpiryWrite? ensures StoredBefore(longer, i, longer[i].l, longer[i].id) {
      assert longer[..i] == log[..i];
      assert log[..|log|] == log;
      if i < |log| {
        assert StoredBefore(log, i, log[i].l, log[i].id);
      }
    }
  }

  /** A Stop that returns, and promises silence, leaves only dead loops behind. */
  lemma AllDeadAtReturn(d: Discipline, s: State, stopper: Option<Tid>, t: Tid, op: CallerOp)
    requires Inv(d, s, stopper) && Allowed(d, s, ByCaller(t, op))
    requires op.StopReplace? || (op.StopFlag? && !s.started && d == AllAlone)
    ensures DeadBelow(s.loops, |s.loops|)
  {
    StopperStep(s, stopper, t, op);
    assert op.StopFlag? ==> Phase(s, stopper).Idle?;
  }

  lemma LogInvByCaller(d: Discipline, s: State, stopper: Option<Tid>, t: Tid, op: CallerOp)
    requires Inv(d, s, stopper) && d != Free && Allowed(d, s, ByCaller(t, op))
    ensures LogInv(d, CallerStep(s, t, op))
  {
    var s' := CallerStep(s, t, op);
    assert forall l :: 0 <= l < |s.loops| ==> s'.loops[l] == s.loops[l];
    if s'.log != s.log {
      var e := StopReturned(|s.loops|, op.StopReplace?);
      assert s'.log == s.log + [e];
      LogGrows(d, s.log, e);
      if Counts(d, e) {
        AllDeadAtReturn(d, s, stopper, t, op);
      }
    }
  }

  /** Only the newest loop can take a step, and only between its Start and the end of its Stop. */
  lemma OnlyNewestSteps(s: State, phase: Caller, l: LoopId, op: LoopOp)
    requires LoopInv(s, phase) && l < |s.loops| && LoopEnabled(s.loops[l], l in s.cancelled, op)
    ensures l == |s.loops| - 1 && (s.started || !phase.Idle?) && !phase.StopSignalled?
  {
    assert !s.loops[l].Dead?;
  }

  lemma LoopInvByLoop(s: State, phase: Caller, l: LoopId, op: LoopOp)
    requires LoopInv(s, phase) && l < |s.loops| && LoopEnabled(s.loops[l], l in s.cancelled, op)
    ensures LoopInv(LoopStep(s, l, op), phase)
  {
    OnlyNewestSteps(s, phase, l, op);
    if op.Close? {
      assert Count(l) + [l] == Count(l + 1);
    }
  }

  lemma LogOkByLoop(d: Discipline, s: State, l: LoopId, op: LoopOp)
    requires LogInv(d, s) && l < |s.loops| && LoopEnabled(s.loops[l], l in s.cancelled, op)
    ensures LogOk(d, LoopStep(s, l, op).log)
  {
    var w := Writes(s.key, l, s.loops[l], l in s.cancelled, op);
    assert !s.loops[l].Dead?;
    if w == [] {
      assert s.log + w == s.log;
    } else {
      assert w == [w[0]];
      LogGrows(d, s.log, w[0]);
    }
  }

  lemma LogInvByLoop(d: Discipline, s: State, l: LoopId, op: LoopOp)
    requires LogInv(d, s) && l < |s.loops| && LoopEnabled(s.loops[l], l in s.cancelled, op)
    ensures LogInv(d, LoopStep(s, l, op))
  {
    LogOkByLoop(d, s, l, op);
    var s' := LoopStep(s, l, op);
    assert !s.loops[l].Dead?;
    assert forall m :: 0 <= m < |s.loops| && m != l ==> s'.loops[m] == s.loops[m];
    assert forall e :: e in s'.log && Counts(d, e) ==> e in s.log;
    assert s'.loops[l].Saved? ==> StoreWrite(l, s'.loops[l].id) in s'.log;
  }

  lemma InvStepByCaller(d: Discipline, s: State, stopper: Option<Tid>, t: Tid, op: CallerOp)
    requires Inv(d, s, stopper) && d != Free && Allowed(d, s, ByCaller(t, op))
    ensures Inv(d, CallerStep(s, t, op), StopperAfter(s, stopper, t, op))
  {
    StopperStep(s, stopper, t, op);
    LoopInvByCaller(d, s, stopper, t, op);
    LogInvByCaller(d, s, stopper, t, op);
  }

  lemma InvStepByLoop(d: Discipline, s: State, stopper: Option<Tid>, l: LoopId, op: LoopOp)
    requires Inv(d, s, stopper) && Enabled(s, ByLoop(l, op))
    ensures Inv(d, LoopStep(s, l, op), stopper)
  {
    LoopInvByLoop(s, Phase(s, stopper), l, op);
    LogInvByLoop(d, s, l, op);
    assert forall t: Tid :: CallerOf(LoopStep(s, l, op), t) == CallerOf(s, t);
  }

  lemma InvStepByParent(d: Discipline, s: State, stopper: Option<Tid>, l: LoopId)
    requires Inv(d, s, stopper) && l < |s.loops|
    ensures Inv(d, Apply(s, ParentCancelled(l)), stopper)
  {
    var s' := Apply(s, ParentCancelled(l));
    assert forall t: Tid :: CallerOf(s', t) == CallerOf(s, t);
  }

  lemma InvStep(d: Discipline, s: State, stopper: Option<Tid>, a: Action) returns (stopper': Option<Tid>)
    requires Inv(d, s, stopper) && d != Free && Allowed(d, s, a)
    ensures Inv(d, Apply(s, a), stopper')
  {
    stopper' := stopper;
    match a {
      case ByCaller(t, op) =>
        InvStepByCaller(d, s, stopper, t, op);
        stopper' := StopperAfter(s, stopper, t, op);
      case ByLoop(l, op) => InvStepByLoop(d, s, stopper, l, op);
      case ParentCancelled(l) => InvStepByParent(d, s, stopper, l);
    }
  }

  // ----------------------------------------------------------------------- all runs

  /** A renewer as `NewRenewer` leaves it. */
  function Initial(key: string): State {
    State(key, map[], false, None, 0, 1, 0, {}, [], [], [])
  }

  ghost predicate IsRun(d: Discipline, s: State, actions: seq<Action>)
    decreases |actions|
  {
    actions == [] || (Allowed(d, s, actions[0]) && IsRun(d, Apply(s, actions[0]), actions[1..]))
  }

  ghost function After(d: Discipline, s: State, actions: seq<Action>): State
    requires IsRun(d, s, actions)
    decreases |actions|
  {
    if actions == [] then s else After(d, Apply(s, actions[0]), actions[1..])
  }

  lemma {:induction false} InvAlways(d: Discipline, s: State, stopper: Option<Tid>, actions: seq<Action>)
    returns (stopper': Option<Tid>)
    requires Inv(d, s, stopper) && d != Free && IsRun(d, s, actions)
    ensures Inv(d, After(d, s, actions), stopper')
    decreases |actions|
  {
    stopper' := stopper;
    if actions != [] {
      stopper' := InvStep(d, s, stopper, actions[0]);
      stopper' := InvAlways(d, Apply(s, actions[0]), stopper', actions[1..]);
    }
  }

  lemma InvInitially(d: Discipline, key: string)
    ensures Inv(d, Initial(key), None)
  {
    assert Count(0) == [];
  }

  predicate Alive(s: State, l: LoopId) {
    l < |s.loops| && !s.loops[l].Dead?
  }

  /** A Stop that waits, waits for the newest loop, which it cancelled and which alone closes that channel. */
  predicate WaitsForItsLoop(s: State, c: Caller) {
    c.StopWaiting? ==>
      && c.ch == |s.loops| - 1 && c.ch in s.cancelled
      && (c.ch in s.closed <==> s.loops[c.ch].Dead?)
      && (HasChannel(s.loops[c.ch]) ==> s.loops[c.ch].ch == c.ch)
  }

  /** What every run keeps in which no Start begins inside a Stop. */
  ghost predicate Safe(d: Discipline, s: State) {
    // at most one loop is alive, and none outside Start .. Stop
    && (forall l: LoopId, m: LoopId :: Alive(s, l) && Alive(s, m) ==> l == m)
    && (!s.started && NobodyStopping(s) ==> forall l: LoopId :: !Alive(s, l))
    // no channel is closed twice
    && (forall i, j :: 0 <= i < j < |s.closed| ==> s.closed[i] != s.closed[j])
    && (forall t: Tid :: WaitsForItsLoop(s, CallerOf(s, t)))
    // silence after Stop, and no expiry without its credential
    && LogOk(d, s.log)
  }

  lemma InvIsSafe(d: Discipline, s: State, stopper: Option<Tid>)
    requires Inv(d, s, stopper)
    ensures Safe(d, s)
  {
    var n := |s.loops|;
    CountMembers(n);
    if n >= 1 {
      CountMembers(n - 1);
    }
    forall t: Tid | CallerOf(s, t).StopWaiting? ensures WaitsForItsLoop(s, CallerOf(s, t)) {
      assert stopper == Some(t);
    }
    assert !s.started && NobodyStopping(s) ==> Phase(s, stopper).Idle?;
  }

  /**
   Every state that is reachable without starting the renewer inside a Stop is safe. Under `StartsAlone` the
   silence after Stop is promised for the Stops that waited, under `AllAlone` for every Stop.
   */
  lemma AlwaysSafe(d: Discipline, key: string, actions: seq<Action>)
    requires d != Free && IsRun(d, Initial(key), actions)
    ensures Safe(d, After(d, Initial(key), actions))
  {
    InvInitially(d, key);
    var stopper := InvAlways(d, Initial(key), None, actions);
    InvIsSafe(d, After(d, Initial(key), actions), stopper);
  }

  // -------------------------------------------- every Stop can finish, and a restart follows

  lemma RunCons(d: Discipline, s: State, a: Action, rest: seq<Action>)
    requires Allowed(d, s, a) && IsRun(d, Apply(s, a), rest)
    ensures IsRun(d, s, [a] + rest) && After(d, s, [a] + rest) == After(d, Apply(s, a), rest)
  {
    assert ([a] + rest)[1..] == rest;
  }

  lemma {:induction false} RunConcat(d: Discipline, s: State, first: seq<Action>, second: seq<Action>)
    requires IsRun(d, s, first) && IsRun(d, After(d, s, first), second)
    ensures IsRun(d, s, first + second) && After(d, s, first + second) == After(d, After(d, s, first), second)
    decreases |first|
  {
    if first == [] {
      assert first + second == second;
    } else {
      RunConcat(d, Apply(s, first[0]), first[1..], second);
      RunCons(d, s, first[0], first[1..] + second);
      assert [first[0]] + (first[1..] + second) == first + second;
    }
  }

  /** A cancelled loop's next step on its way out, and how many steps it is from the end. */
  function WayOut(pc: Pc): LoopOp
    requires !pc.Dead?
  {
    match pc
    case Born => Begin
    case Asleep(_) => Cancelled
    case Calling(_, _) => Reply(false)
    case Granted(_, _) => Put
    case Saved(_, _) => SetExpiry
    case Failed(_) => FailCheck
    case BackingOff(_) => RetryCancelled
    case Exiting(_) => Close
  }

  function StepsOut(pc: Pc): nat {
    match pc
    case Dead => 0
    case Exiting(_) => 1
    case Asleep(_) => 2
    case Calling(_, _) => 4
    case Granted(_, _) => 4
    case _ => 3
  }

  function StopSteps(c: Caller): nat {
    match c
    case Idle => 0
    case StopSignalled => 1
    case StopWaiting(_) => 2
    case StopCancelled => 3
    case StopFlagged => 4
  }

  /** The next step that brings the Stop behind `t` closer to its return. */
  function Onward(s: State, t: Tid): Action
    requires !CallerOf(s, t).Idle? && |s.loops| >= 1
  {
    var l := |s.loops| - 1;
    match CallerOf(s, t)
    case StopFlagged => ByCaller(t, StopCancel)
    case StopCancelled => ByCaller(t, StopLoad)
    case StopWaiting(_) => if s.loops[l].Dead? then ByCaller(t, StopReceive) else ByLoop(l, WayOut(s.loops[l]))
    case StopSignalled => ByCaller(t, StopReplace)
  }

  function Remaining(s: State, t: Tid): nat {
    StopSteps(CallerOf(s, t)) + (if s.loops == [] then 0 else StepsOut(s.loops[|s.loops| - 1]))
  }

  lemma OnwardWorks(d: Discipline, s: State, t: Tid)
    requires Inv(d, s, Some(t))
    ensures !CallerOf(s, t).Idle? && |s.loops| >= 1 && Allowed(d, s, Onward(s, t))
    ensures var s' := Apply(s, Onward(s, t));
            |s'.loops| == |s.loops| && !s'.started && Remaining(s', t) < Remaining(s, t)
  {
    assert !CallerOf(s, t).Idle?;
    CountMembers(|s.loops|);
  }

  /** Wherever a Stop is, at most eight more steps, its own and its loop's, let it return. */
  lemma {:induction false} FinishStop(d: Discipline, s: State, t: Tid) returns (actions: seq<Action>)
    requires Inv(d, s, Some(t)) && d != Free
    ensures IsRun(d, s, actions) && |actions| <= Remaining(s, t) <= 8
    ensures var s' := After(d, s, actions);
            CallerOf(s', t).Idle? && Inv(d, s', None) && !s'.started && |s'.loops| == |s.loops|
    decreases Remaining(s, t)
  {
    OnwardWorks(d, s, t);
    var a := Onward(s, t);
    var stopper := InvStep(d, s, Some(t), a);
    var s' := Apply(s, a);
    var rest := [];
    if CallerOf(s', t).Idle? {
      OnlyStopper(s, s', t, a, stopper);
    } else {
      assert stopper == Some(t);
      rest := FinishStop(d, s', t);
    }
    RunCons(d, s, a, rest);
    actions := [a] + rest;
  }

  /** When the one caller inside Stop leaves it, nobody is inside. */
  lemma OnlyStopper(s: State, s': State, t: Tid, a: Action, stopper: Option<Tid>)
    requires StopperInv(s, Some(t)) && StopperInv(s', stopper) && CallerOf(s', t).Idle?
    requires Enabled(s, a) && s' == Apply(s, a) && (a.ByCaller? ==> a.t == t)
    ensures stopper == None
  {
    if a.ByCaller? {
      CallersStay(s, t, a.cop);
    }
    assert forall u: Tid :: CallerOf(s', u).Idle?;
    assert Phase(s', stopper).Idle?;
  }

  lemma StopNeverStuck(d: Discipline, key: string, actions: seq<Action>, t: Tid) returns (more: seq<Action>)
    requires d != Free && IsRun(d, Initial(key), actions) && !CallerOf(After(d, Initial(key), actions), t).Idle?
    ensures var s := After(d, Initial(key), actions);
            && IsRun(d, s, more) && |more| <= 8
            && CallerOf(After(d, s, more), t).Idle? && forall l: LoopId :: !Alive(After(d, s, more), l)
  {
    InvInitially(d, key);
    var stopper := InvAlways(d, Initial(key), None, actions);
    var s := After(d, Initial(key), actions);
    assert stopper == Some(t);
    more := FinishStop(d, s, t);
    InvIsSafe(d, After(d, s, more), None);
  }

  /** One Start and one Stop from rest bring a new loop to life and end at rest. */
  lemma Cycle(d: Discipline, s: State, t: Tid) returns (actions: seq<Action>)
    requires Inv(d, s, None) && !s.started && d != Free
    ensures IsRun(d, s, actions)
    ensures var s' := After(d, s, actions); Inv(d, s', None) && !s'.started && |s'.loops| == |s.loops| + 1
  {
    var start, flag := ByCaller(t, Start), ByCaller(t, StopFlag);
    var s1 := Apply(s, start);
    var stopper := InvStep(d, s, None, start);
    CallersStay(s, t, Start);
    assert NobodyStopping(s1);
    assert stopper == None;
    var s2 := Apply(s1, flag);
    CallersStay(s1, t, StopFlag);
    stopper := InvStep(d, s1, None, flag);
    assert stopper == Some(t);
    var rest := FinishStop(d, s2, t);
    RunCons(d, s1, flag, rest);
    RunCons(d, s, start, [flag] + rest);
    actions := [start] + ([flag] + rest);
  }

  /** From rest a renewer can be started and stopped again any number of times, a new loop each time. */
  lemma {:induction false} Restart(d: Discipline, s: State, t: Tid, k: nat) returns (actions: seq<Action>)
    requires Inv(d, s, None) && !s.started && d != Free
    ensures IsRun(d, s, actions)
    ensures var s' := After(d, s, actions); Inv(d, s', None) && !s'.started && |s'.loops| == |s.loops| + k
    decreases k
  {
    actions := [];
    if k > 0 {
      var first := Cycle(d, s, t);
      var rest := Restart(d, After(d, s, first), t, k - 1);
      RunConcat(d, s, first, rest);
      actions := first + rest;
    }
  }

  lemma RestartAnyNumberOfTimes(d: Discipline, key: string, actions: seq<Action>, t: Tid, k: nat)
    returns (more: seq<Action>)
    requires d != Free && IsRun(d, Initial(key), actions)
    requires var s := After(d, Initial(key), actions); NobodyStopping(s) && !s.started
    ensures var s := After(d, Initial(key), actions);
            && IsRun(d, s, more) && NobodyStopping(After(d, s, more)) && !After(d, s, more).started
            && |After(d, s, more).loops| == |s.loops| + k
  {
    InvInitially(d, key);
    var stopper := InvAlways(d, Initial(key), None, actions);
    assert Phase(After(d, Initial(key), actions), stopper).Idle?;
    more := Restart(d, After(d, Initial(key), actions), t, k);
  }

  // ------------------------------------------------------------------------ pieces of runs

  /** In a run under `d`, `actions` lead from `s` to `s'`. */
  ghost predicate Leads(d: Discipline, s: State, actions: seq<Action>, s': State) {
    IsRun(d, s, actions) && After(d, s, actions) == s'
  }

  lemma LeadsOn(d: Discipline, s: State, a: Action, rest: seq<Action>, s': State) returns (all: seq<Action>)
    requires Allowed(d, s, a) && Leads(d, Apply(s, a), rest, s')
    ensures Leads(d, s, all, s')
  {
    RunCons(d, s, a, rest);
    all := [a] + rest;
  }

  // ------------------------------------------- exactly when a Start is safe: no Stop is under way

  predicate NoCalls(actions: seq<Action>) {
    forall i :: 0 <= i < |actions| ==> !actions[i].ByCaller?
  }

  predicate ClosedTwice(s: State) {
    exists i, j :: 0 <= i < j < |s.closed| && s.closed[i] == s.closed[j]
  }

  /** Without another call, the loops alone can come to close a closed channel. */
  ghost predicate Breaks(s: State, actions: seq<Action>) {
    NoCalls(actions) && IsRun(Free, s, actions) && ClosedTwice(After(Free, s, actions))
  }

  ghost predicate CanBreak(s: State) {
    exists actions :: Breaks(s, actions)
  }

  /** Loop `l` is cancelled and will close channel `c`. */
  predicate WillClose(s: State, l: LoopId, c: ChanId) {
    && l < |s.loops| && l in s.cancelled && !s.loops[l].Dead?
    && (if s.loops[l].Born? then s.done == c else s.loops[l].ch == c)
  }

  lemma {:induction false} RunOut(s: State, l: LoopId, c: ChanId) returns (actions: seq<Action>)
    requires WillClose(s, l, c)
    ensures NoCalls(actions) && IsRun(Free, s, actions)
    ensures var s' := After(Free, s, actions);
            && s'.closed == s.closed + [c] && s'.done == s.done && s'.cancelled == s.cancelled
            && |s'.loops| == |s.loops| && forall m :: 0 <= m < |s.loops| && m != l ==> s'.loops[m] == s.loops[m]
    decreases StepsOut(s.loops[l])
  {
    var a := ByLoop(l, WayOut(s.loops[l]));
    var next := Apply(s, a);
    var rest := [];
    if !next.loops[l].Dead? {
      rest := RunOut(next, l, c);
    }
    RunCons(Free, s, a, rest);
    actions := [a] + rest;
  }

  /** The loop's context is cancelled by its owner, and the loop runs out. */
  lemma CancelAndRunOut(s: State, l: LoopId, c: ChanId) returns (actions: seq<Action>)
    requires WillClose(s.(cancelled := s.cancelled + {l}), l, c)
    ensures NoCalls(actions) && IsRun(Free, s, actions)
    ensures var s' := After(Free, s, actions);
            && s'.closed == s.closed + [c] && s'.done == s.done
            && |s'.loops| == |s.loops| && forall m :: 0 <= m < |s.loops| && m != l ==> s'.loops[m] == s.loops[m]
  {
    var rest := RunOut(s.(cancelled := s.cancelled + {l}), l, c);
    RunCons(Free, s, ParentCancelled(l), rest);
    actions := [ParentCancelled(l)] + rest;
  }

  /** Inside a Stop the channel of the old loop is still in `r.done`, so the new loop adopts it. */
  lemma StartInsideStopBreaks(d: Discipline, s: State, stopper: Tid, t: Tid) returns (actions: seq<Action>)
    requires Inv(d, s, Some(stopper))
    ensures Breaks(CallerStep(s, t, Start), actions)
  {
    var s1 := CallerStep(s, t, Start);
    var n := |s.loops|;
    assert !CallerOf(s, stopper).Idle?;
    assert s1.loops == s.loops + [Born] && s1.done == n - 1;
    actions := CancelAndRunOut(s1, n, n - 1);
    var s2 := After(Free, s1, actions);
    assert s2.loops[n - 1] == s.loops[n - 1] && s2.closed == s.closed + [n - 1];
    if s.loops[n - 1].Dead? {
      assert s2.closed[n - 1] == s2.closed[n];
    } else {
      var more := CancelAndRunOut(s2, n - 1, n - 1);
      RunConcat(Free, s1, actions, more);
      actions := actions + more;
      var closed := After(Free, s1, actions).closed;
      assert closed[n - 1] == closed[n];
    }
  }

  lemma {:induction false} NoCallsNoDiscipline(d: Discipline, s: State, actions: seq<Action>)
    requires NoCalls(actions) && IsRun(Free, s, actions)
    ensures IsRun(d, s, actions) && After(d, s, actions) == After(Free, s, actions)
    decreases |actions|
  {
    if actions == [] {
    } else {
      assert !actions[0].ByCaller?;
      assert forall i :: 0 <= i < |actions| - 1 ==> actions[1..][i] == actions[i + 1];
      NoCallsNoDiscipline(d, Apply(s, actions[0]), actions[1..]);
    }
  }

  lemma StartAloneIsSafe(s: State, t: Tid, actions: seq<Action>)
    requires Inv(StartsAlone, s, None) && NobodyStopping(s)
    ensures !Breaks(CallerStep(s, t, Start), actions)
  {
    var s1 := CallerStep(s, t, Start);
    if NoCalls(actions) && IsRun(Free, s1, actions) {
      var stopper := InvStep(StartsAlone, s, None, ByCaller(t, Start));
      NoCallsNoDiscipline(StartsAlone, s1, actions);
      stopper := InvAlways(StartsAlone, s1, stopper, actions);
      InvIsSafe(StartsAlone, After(StartsAlone, s1, actions), stopper);
    }
  }

  /**
   The hypothesis on Start is exact: in every state reached under it, one more Start can lead the loops to
   close a channel twice, which panics, if and only if some Stop is under way.
   */
  lemma StartSafeExactlyOutsideStop(key: string, actions: seq<Action>, t: Tid)
    requires IsRun(StartsAlone, Initial(key), actions)
    requires CallerOf(After(StartsAlone, Initial(key), actions), t).Idle?
    ensures var s := After(StartsAlone, Initial(key), actions);
            CanBreak(Apply(s, ByCaller(t, Start))) <==> !NobodyStopping(s)
  {
    InvInitially(StartsAlone, key);
    var s := After(StartsAlone, Initial(key), actions);
    var stopper := InvAlways(StartsAlone, Initial(key), None, actions);
    match stopper {
      case Some(u) =>
        assert !CallerOf(s, u).Idle?;
        var more := StartInsideStopBreaks(StartsAlone, s, u, t);
        assert Breaks(Apply(s, ByCaller(t, Start)), more);
      case None =>
        assert NobodyStopping(s);
        forall more ensures !Breaks(Apply(s, ByCaller(t, Start)), more) {
          StartAloneIsSafe(s, t, more);
        }
    }
  }

  // ------------------------------- exactly when a loop can still write after a Stop that returned at once

  predicate MayWrite(pc: Pc) {
    !pc.Exiting? && !pc.Dead?
  }

  /** Without another call, the loops alone can come to write something. */
  ghost predicate WritesOn(s: State, actions: seq<Action>) {
    NoCalls(actions) && IsRun(Free, s, actions) && After(Free, s, actions).log != s.log
  }

  /** A loop's next step towards a write, and how many steps it is from one. */
  function TowardsWrite(pc: Pc): LoopOp
    requires MayWrite(pc)
  {
    match pc
    case Born => Begin
    case Asleep(_) => Timer
    case Calling(_, _) => Reply(true)
    case Granted(_, _) => Put
    case Saved(_, _) => SetExpiry
    case Failed(_) => FailCheck
    case BackingOff(_) => RetryTimer
  }

  function StepsToWrite(pc: Pc): nat {
    match pc
    case Saved(_, _) => 1
    case Granted(_, _) => 1
    case Calling(_, _) => 2
    case BackingOff(_) => 3
    case Asleep(_) => 3
    case _ => 4
  }

  lemma {:induction false} CanWrite(s: State, l: LoopId) returns (actions: seq<Action>)
    requires s.key != "" && l < |s.loops| && MayWrite(s.loops[l])
    ensures NoCalls(actions) && IsRun(Free, s, actions)
    ensures var log := After(Free, s, actions).log;
            |log| == |s.log| + 1 && log[..|s.log|] == s.log && IsWrite(log[|s.log|]) && log[|s.log|].l == l
    decreases StepsToWrite(s.loops[l])
  {
    var a := ByLoop(l, TowardsWrite(s.loops[l]));
    var next := Apply(s, a);
    var rest := [];
    if |next.log| == |s.log| {
      rest := CanWrite(next, l);
    }
    RunCons(Free, s, a, rest);
    actions := [a] + rest;
  }

  /** Loop `l` cannot write, now or later. */
  predicate QuietLoop(s: State, l: LoopId) {
    l < |s.loops| && if s.key == "" then !s.loops[l].Saved? else !MayWrite(s.loops[l])
  }

  /** No loop can: none is in the middle of a renewal, or nothing is ever stored. */
  predicate Quiet(s: State) {
    forall l :: 0 <= l < |s.loops| ==> QuietLoop(s, l)
  }

  lemma QuietStep(s: State, a: Action)
    requires Quiet(s) && Enabled(s, a) && !a.ByCaller?
    ensures Quiet(Apply(s, a)) && Apply(s, a).log == s.log
  {
    forall l | 0 <= l < |s.loops| ensures QuietLoop(Apply(s, a), l) {
      assert QuietLoop(s, l);
      QuietLoopStep(s, a, l);
    }
    if a.ByLoop? {
      assert QuietLoop(s, a.l);
    }
  }

  lemma {:induction false} QuietStays(s: State, actions: seq<Action>)
    requires Quiet(s) && NoCalls(actions) && IsRun(Free, s, actions)
    ensures After(Free, s, actions).log == s.log
    decreases |actions|
  {
    if actions == [] {
    } else {
      assert !actions[0].ByCaller?;
      QuietStep(s, actions[0]);
      assert forall i :: 0 <= i < |actions| - 1 ==> actions[1..][i] == actions[i + 1];
      QuietStays(Apply(s, actions[0]), actions[1..]);
    }
  }

  lemma QuietNeverWrites(s: State, actions: seq<Action>)
    requires Quiet(s)
    ensures !WritesOn(s, actions)
  {
    if NoCalls(actions) && IsRun(Free, s, actions) {
      QuietStays(s, actions);
    }
  }

  ghost predicate CanWriteOn(s: State) {
    exists actions :: WritesOn(s, actions)
  }

  lemma WritesExactly(d: Discipline, s: State, stopper: Option<Tid>, t: Tid)
    requires Inv(d, s, stopper) && !s.started
    ensures var n := |s.loops|;
            CanWriteOn(CallerStep(s, t, StopFlag)) <==> s.key != "" && n >= 1 && MayWrite(s.loops[n - 1])
  {
    var s', n := CallerStep(s, t, StopFlag), |s.loops|;
    if s.key != "" && n >= 1 && MayWrite(s.loops[n - 1]) {
      var more := CanWrite(s', n - 1);
      assert WritesOn(s', more);
    } else {
      assert Quiet(s');
      forall more ensures !WritesOn(s', more) {
        QuietNeverWrites(s', more);
      }
    }
  }

  /**
   A Stop that finds nothing to stop returns at once. In every state reached without a Start inside a Stop, a
   loop can still write after that if and only if secrets can be stored at all and the newest loop is neither
   exiting nor dead; and that takes another Stop that is still under way.
   */
  lemma StopInsideStop(key: string, actions: seq<Action>, t: Tid)
    requires IsRun(StartsAlone, Initial(key), actions)
    requires var s := After(StartsAlone, Initial(key), actions); CallerOf(s, t).Idle? && !s.started
    ensures var s := After(StartsAlone, Initial(key), actions);
            var n := |s.loops|;
            && (CanWriteOn(Apply(s, ByCaller(t, StopFlag))) <==> s.key != "" && n >= 1 && MayWrite(s.loops[n - 1]))
            && (NobodyStopping(s) ==> n >= 1 ==> s.loops[n - 1].Dead?)
  {
    InvInitially(StartsAlone, key);
    var s := After(StartsAlone, Initial(key), actions);
    var stopper := InvAlways(StartsAlone, Initial(key), None, actions);
    WritesExactly(StartsAlone, s, stopper, t);
    assert Apply(s, ByCaller(t, StopFlag)) == CallerStep(s, t, StopFlag);
    assert NobodyStopping(s) ==> Phase(s, stopper).Idle?;
  }

  /** Such a state is reached: a Stop has cleared `started`, and its loop goes on. */
  lemma StopInsideStopHappens() returns (actions: seq<Action>, end: State)
    ensures Leads(StartsAlone, Initial("k"), actions, end) && CallerOf(end, 1).StopFlagged?
    ensures !end.started && |end.loops| == 1 && MayWrite(end.loops[0])
  {
    var s0 := Initial("k");
    var s1 := Apply(s0, ByCaller(1, Start));
    var s2 := Apply(s1, ByLoop(0, Begin));
    end := Apply(s2, ByCaller(1, StopFlag));
    actions := LeadsOn(StartsAlone, s2, ByCaller(1, StopFlag), [], end);
    actions := LeadsOn(StartsAlone, s1, ByLoop(0, Begin), actions, end);
    actions := LeadsOn(StartsAlone, s0, ByCaller(1, Start), actions, end);
  }

  // --------------------- exactly when a Start inside a Stop lets the old loop write after that Stop

  /** From entry `from` on, a Stop that waited returned, and loop `l` wrote after it. */
  ghost predicate WritesAfterStop(log: seq<Entry>, from: nat, l: LoopId) {
    exists i, j ::
      from <= i < j < |log| && log[i].StopReturned? && log[i].waited && IsWrite(log[j]) && log[j].l == l
  }

  ghost predicate OutlivesStop(s: State, l: LoopId, actions: seq<Action>) {
    IsRun(Free, s, actions) && WritesAfterStop(After(Free, s, actions).log, |s.log|, l)
  }

  /** The entries from `from` on are not by loop `l`. */
  predicate SilentFrom(log: seq<Entry>, from: nat, l: LoopId) {
    forall j :: from <= j < |log| && IsWrite(log[j]) ==> log[j].l != l
  }

  lemma QuietLoopStep(s: State, a: Action, l: LoopId)
    requires QuietLoop(s, l) && Enabled(s, a)
    ensures QuietLoop(Apply(s, a), l) && s.log <= Apply(s, a).log && SilentFrom(Apply(s, a).log, |s.log|, l)
  {
  }

  lemma {:induction false} QuietLoopStays(s: State, actions: seq<Action>, l: LoopId)
    requires QuietLoop(s, l) && IsRun(Free, s, actions)
    ensures s.log <= After(Free, s, actions).log && SilentFrom(After(Free, s, actions).log, |s.log|, l)
    decreases |actions|
  {
    if actions == [] {
    } else {
      var next := Apply(s, actions[0]);
      QuietLoopStep(s, actions[0], l);
      QuietLoopStays(next, actions[1..], l);
      var log := After(Free, s, actions).log;
      assert forall j :: |s.log| <= j < |next.log| ==> log[j] == next.log[j];
    }
  }

  lemma QuietLoopDoesNotOutlive(s: State, l: LoopId, actions: seq<Action>)
    requires QuietLoop(s, l)
    ensures !OutlivesStop(s, l, actions)
  {
    if IsRun(Free, s, actions) {
      QuietLoopStays(s, actions, l);
    }
  }

  /** Whatever of Stop is left until it waits, its caller can do at once. */
  lemma {:induction false} GoAndWait(s: State, u: Tid) returns (actions: seq<Action>)
    requires var c := CallerOf(s, u); c.StopFlagged? || c.StopCancelled? || (c.StopWaiting? && c.ch == s.done)
    ensures IsRun(Free, s, actions)
    ensures var s' := After(Free, s, actions);
            && CallerOf(s', u) == StopWaiting(s.done) && s'.done == s.done && s'.loops == s.loops
            && s'.log == s.log && s'.key == s.key
    decreases StopSteps(CallerOf(s, u))
  {
    if CallerOf(s, u).StopWaiting? {
      actions := [];
    } else {
      var op := if CallerOf(s, u).StopFlagged? then StopCancel else StopLoad;
      CallersStay(s, u, op);
      var rest := GoAndWait(CallerStep(s, u, op), u);
      RunCons(Free, s, ByCaller(u, op), rest);
      actions := [ByCaller(u, op)] + rest;
    }
  }

  /** A Stop whose channel is closed returns. */
  lemma Return(s: State, u: Tid) returns (actions: seq<Action>)
    requires CallerOf(s, u).StopWaiting? && CallerOf(s, u).ch in s.closed
    ensures IsRun(Free, s, actions)
    ensures var s' := After(Free, s, actions);
            s'.loops == s.loops && s'.key == s.key && s'.log == s.log + [StopReturned(|s.loops|, true)]
  {
    CallersStay(s, u, StopReceive);
    var s1 := CallerStep(s, u, StopReceive);
    RunCons(Free, s1, ByCaller(u, StopReplace), []);
    RunCons(Free, s, ByCaller(u, StopReceive), [ByCaller(u, StopReplace)] + []);
    actions := [ByCaller(u, StopReceive)] + ([ByCaller(u, StopReplace)] + []);
  }

  /** Runs without calls leave callers and key alone, and only add to the log. */
  lemma {:induction false} NoCallsKeep(s: State, actions: seq<Action>)
    requires NoCalls(actions) && IsRun(Free, s, actions)
    ensures var s' := After(Free, s, actions); s'.callers == s.callers && s'.key == s.key && s.log <= s'.log
    decreases |actions|
  {
    if actions == [] {
    } else {
      assert !actions[0].ByCaller?;
      assert forall i :: 0 <= i < |actions| - 1 ==> actions[1..][i] == actions[i + 1];
      NoCallsKeep(Apply(s, actions[0]), actions[1..]);
    }
  }

  ghost predicate CanOutliveStop(s: State, l: LoopId) {
    exists actions :: OutlivesStop(s, l, actions)
  }

  /** Loop `n` adopts the channel of loop `l` and closes it; the Stop returns; loop `l` goes on to write. */
  lemma LoopOutlives(s: State, u: Tid, l: LoopId, n: LoopId) returns (actions: seq<Action>)
    requires var c := CallerOf(s, u); c.StopFlagged? || c.StopCancelled? || (c.StopWaiting? && c.ch == s.done)
    requires s.key != "" && l < |s.loops| && n < |s.loops| && l != n && s.loops[n].Born? && MayWrite(s.loops[l])
    ensures OutlivesStop(s, l, actions)
  {
    var a := GoAndWait(s, u);
    var s1 := After(Free, s, a);
    var b := CancelAndRunOut(s1, n, s.done);
    var s2 := After(Free, s1, b);
    NoCallsKeep(s1, b);
    var c := Return(s2, u);
    var s3 := After(Free, s2, c);
    var d := CanWrite(s3, l);
    RunConcat(Free, s, a, b);
    RunConcat(Free, s, a + b, c);
    RunConcat(Free, s, a + b + c, d);
    actions := a + b + c + d;
    var log := After(Free, s3, d).log;
    assert log[|s2.log|] == s3.log[|s2.log|] == StopReturned(|s2.loops|, true);
    assert |s.log| <= |s2.log| < |s3.log| < |log|;
  }

  lemma OutlivesExactly(d: Discipline, s: State, u: Tid, t: Tid)
    requires Inv(d, s, Some(u)) && CallerOf(s, t).Idle?
    ensures |s.loops| >= 1
    ensures var l := |s.loops| - 1;
            CanOutliveStop(CallerStep(s, t, Start), l) <==> s.key != "" && MayWrite(s.loops[l])
  {
    assert !CallerOf(s, u).Idle?;
    var s1, l := CallerStep(s, t, Start), |s.loops| - 1;
    CallersStay(s, t, Start);
    assert s1.loops == s.loops + [Born] && CallerOf(s1, u) == CallerOf(s, u);
    if s.key != "" && MayWrite(s.loops[l]) {
      var more := LoopOutlives(s1, u, l, l + 1);
    } else {
      assert QuietLoop(s1, l);
      forall more ensures !OutlivesStop(s1, l, more) {
        QuietLoopDoesNotOutlive(s1, l, more);
      }
    }
  }

  /**
   A Start that begins inside a Stop can defeat it. In every state reached without one, with `u` inside Stop: after
   a Start by `t`, some run lets a Stop return that waited and the newest loop write afterwards, if and only if
   secrets can be stored at all and that loop is neither exiting nor dead.
   */
  lemma StartInsideStop(key: string, actions: seq<Action>, u: Tid, t: Tid)
    requires IsRun(StartsAlone, Initial(key), actions)
    requires var s := After(StartsAlone, Initial(key), actions); !CallerOf(s, u).Idle? && CallerOf(s, t).Idle?
    ensures var s := After(StartsAlone, Initial(key), actions);
            var l := |s.loops| - 1;
            && l >= 0
            && (CanOutliveStop(Apply(s, ByCaller(t, Start)), l) <==> s.key != "" && MayWrite(s.loops[l]))
  {
    InvInitially(StartsAlone, key);
    var s := After(StartsAlone, Initial(key), actions);
    var stopper := InvAlways(StartsAlone, Initial(key), None, actions);
    assert stopper == Some(u);
    OutlivesExactly(StartsAlone, s, u, t);
    assert Apply(s, ByCaller(t, Start)) == CallerStep(s, t, Start);
  }

  // ------------------------------------------------------- a renewal goes on until it is granted

  /** Loop `l` has gone on to `pc`, and has written `more`; besides, only renewals have been counted. */
  predicate WentOn(s: State, s': State, l: LoopId, pc: Pc, more: seq<Entry>) {
    l < |s.loops| && s' == s.(loops := s.loops[l := pc], nextRenewal := s'.nextRenewal, log := s.log + more)
  }

  lemma {:induction false} LoopCons(s: State, l: LoopId, op: LoopOp, rest: seq<Action>)
    requires Enabled(s, ByLoop(l, op)) && IsRun(Free, LoopStep(s, l, op), rest)
    ensures IsRun(Free, s, [ByLoop(l, op)] + rest)
    ensures After(Free, s, [ByLoop(l, op)] + rest) == After(Free, LoopStep(s, l, op), rest)
  {
    RunCons(Free, s, ByLoop(l, op), rest);
  }

  lemma {:induction false} RenewalFails(s: State, l: LoopId, ch: ChanId, id: nat)
    returns (s': State, actions: seq<Action>)
    requires l < |s.loops| && l !in s.cancelled && s.loops[l] == Calling(ch, id)
    ensures IsRun(Free, s, actions) && After(Free, s, actions) == s'
    ensures WentOn(s, s', l, Calling(ch, s.nextRenewal), []) && s'.nextRenewal == s.nextRenewal + 1
  {
    var s1 := LoopStep(s, l, Reply(false));
    var s2 := LoopStep(s1, l, FailCheck);
    s' := LoopStep(s2, l, RetryTimer);
    LoopCons(s2, l, RetryTimer, []);
    LoopCons(s1, l, FailCheck, [ByLoop(l, RetryTimer)] + []);
    LoopCons(s, l, Reply(false), [ByLoop(l, FailCheck)] + ([ByLoop(l, RetryTimer)] + []));
    actions := [ByLoop(l, Reply(false))] + ([ByLoop(l, FailCheck)] + ([ByLoop(l, RetryTimer)] + []));
  }

  lemma {:induction false} RenewalSucceeds(s: State, l: LoopId, ch: ChanId, id: nat) returns (actions: seq<Action>)
    requires l < |s.loops| && s.loops[l] == Calling(ch, id) && s.key != ""
    ensures IsRun(Free, s, actions)
    ensures WentOn(s, After(Free, s, actions), l, Asleep(ch), [StoreWrite(l, id), ExpiryWrite(l, id)])
  {
    var s1 := LoopStep(s, l, Reply(true));
    var s2 := LoopStep(s1, l, Put);
    var s3 := LoopStep(s2, l, SetExpiry);
    LoopCons(s2, l, SetExpiry, []);
    LoopCons(s1, l, Put, [ByLoop(l, SetExpiry)] + []);
    LoopCons(s, l, Reply(true), [ByLoop(l, Put)] + ([ByLoop(l, SetExpiry)] + []));
    actions := [ByLoop(l, Reply(true))] + ([ByLoop(l, Put)] + ([ByLoop(l, SetExpiry)] + []));
    assert s.log + [StoreWrite(l, id)] + [ExpiryWrite(l, id)] == s.log + [StoreWrite(l, id), ExpiryWrite(l, id)];
  }

  /**
   A loop that is not cancelled retries for as long as its renewals fail, however often, and when one is granted it
   stores the credential and then sets the expiry, both of that renewal, and goes back to sleep.
   */
  lemma {:induction false} RetriesUntilGranted(s: State, l: LoopId, ch: ChanId, id: nat, failures: nat)
    returns (last: nat, actions: seq<Action>)
    requires l < |s.loops| && l !in s.cancelled && s.loops[l] == Calling(ch, id) && s.key != ""
    ensures IsRun(Free, s, actions)
    ensures WentOn(s, After(Free, s, actions), l, Asleep(ch), [StoreWrite(l, last), ExpiryWrite(l, last)])
    ensures last == (if failures == 0 then id else s.nextRenewal + failures - 1)
    decreases failures
  {
    if failures == 0 {
      last := id;
      actions := RenewalSucceeds(s, l, ch, id);
    } else {
      var s1, first := RenewalFails(s, l, ch, id);
      var rest;
      last, rest := RetriesUntilGranted(s1, l, ch, s.nextRenewal, failures - 1);
      RunConcat(Free, s, first, rest);
      actions := first + rest;
      assert s.log + [] == s.log;
    }
  }
}
