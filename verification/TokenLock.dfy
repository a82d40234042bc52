/**
 The token state under `tokenMu`, as a protocol: any number of goroutines read the tokens under the
 read lock, set them under the write lock, or refresh them while holding the write lock across the
 whole exchange with the token endpoint. Every lock operation and every field access is a step.
 */
module TokenLock {
  import opened Options
  import opened Tokens

  type Tid = nat

  /** Which field a reader or setter is after. */
  datatype Field = Access | Refresh

  datatype Phase =
    | Idle
    | ReadHeld                                     // read lock held
    | SetHeld(field: Field, token: string)         // write lock held, field not yet written
    | SetDone
    | RefreshHeld                                  // write lock held, refresh token not yet loaded
    | RefreshLoaded(presented: string)
    | RefreshSent(presented: string)               // waiting for the token endpoint
    | RefreshGranted(presented: string, pair: TokenPair)
    | RefreshHalfWritten(pair: TokenPair)               // access token written, refresh token not yet
    | RefreshOver                                  // written in full, or failed

  /** The operations that changed the tokens, in the order in which they did. */
  datatype Commit = Set(field: Field, token: string) | Refreshed(presented: string, pair: TokenPair)

  /** What a reader saw, and how many commits had happened by then. */
  datatype Observation = Observation(field: Field, value: string, version: nat)

  datatype State = State(
    tokens: TokenPair,
    writer: Option<Tid>,
    readers: set<Tid>,
    phases: map<Tid, Phase>,
    initial: TokenPair,               // history from here on
    log: seq<Commit>,
    seen: seq<Observation>)

  datatype Action =
    | RLock(t: Tid)
    | Read(t: Tid, field: Field)
    | RUnlock(t: Tid)
    | LockToSet(t: Tid, field: Field, token: string)
    | Write(t: Tid)
    | LockToRefresh(t: Tid)
    | Load(t: Tid)
    | Send(t: Tid)
    | Abandon(t: Tid)                              // the request could not be built
    | Reply(t: Tid, granted: Option<TokenPair>)
    | WriteAccess(t: Tid)
    | WriteRefresh(t: Tid)
    | Unlock(t: Tid)

  function PhaseOf(s: State, t: Tid): Phase {
    if t in s.phases then s.phases[t] else Idle
  }

  function Get(p: TokenPair, f: Field): string {
    if f.Access? then p.access else p.refresh
  }

  function Put(p: TokenPair, f: Field, token: string): TokenPair {
    if f.Access? then p.(access := token) else p.(refresh := token)
  }

  /** `sync.RWMutex`: readers share, a writer is alone. */
  predicate Enabled(s: State, a: Action) {
    match a
    case RLock(t) => PhaseOf(s, t).Idle? && s.writer.None?
    case Read(t, _) => PhaseOf(s, t).ReadHeld?
    case RUnlock(t) => PhaseOf(s, t).ReadHeld?
    case LockToSet(t, _, _) => PhaseOf(s, t).Idle? && s.writer.None? && s.readers == {}
    case Write(t) => PhaseOf(s, t).SetHeld?
    case LockToRefresh(t) => PhaseOf(s, t).Idle? && s.writer.None? && s.readers == {}
    case Load(t) => PhaseOf(s, t).RefreshHeld?
    case Send(t) => PhaseOf(s, t).RefreshLoaded?
    case Abandon(t) => PhaseOf(s, t).RefreshLoaded?
    case Reply(t, granted) => PhaseOf(s, t).RefreshSent? && (granted.Some? ==> granted.value.access != "")
    case WriteAccess(t) => PhaseOf(s, t).RefreshGranted?
    case WriteRefresh(t) => PhaseOf(s, t).RefreshHalfWritten?
    case Unlock(t) => PhaseOf(s, t).SetDone? || PhaseOf(s, t).RefreshOver?
  }

  function Goto(s: State, t: Tid, p: Phase): State {
    s.(phases := s.phases[t := p])
  }

  function Apply(s: State, a: Action): State
    requires Enabled(s, a)
  {
    match a
    case RLock(t) => Goto(s, t, ReadHeld).(readers := s.readers + {t})
    case Read(t, f) => s.(seen := s.seen + [Observation(f, Get(s.tokens, f), |s.log|)])
    case RUnlock(t) => Goto(s, t, Idle).(readers := s.readers - {t})
    case LockToSet(t, f, token) => Goto(s, t, SetHeld(f, token)).(writer := Some(t))
    case Write(t) =>
      var p := PhaseOf(s, t);
      Goto(s, t, SetDone).(tokens := Put(s.tokens, p.field, p.token), log := s.log + [Set(p.field, p.token)])
    case LockToRefresh(t) => Goto(s, t, RefreshHeld).(writer := Some(t))
    case Load(t) => Goto(s, t, RefreshLoaded(s.tokens.refresh))
    case Send(t) => Goto(s, t, RefreshSent(PhaseOf(s, t).presented))
    case Abandon(t) => Goto(s, t, RefreshOver)
    case Reply(t, granted) =>
      (match granted
       case None => Goto(s, t, RefreshOver)
       case Some(pair) => Goto(s, t, RefreshGranted(PhaseOf(s, t).presented, pair)))
    case WriteAccess(t) =>
      var p := PhaseOf(s, t);
      Goto(s, t, RefreshHalfWritten(p.pair)).(
        tokens := s.tokens.(access := p.pair.access), log := s.log + [Refreshed(p.presented, p.pair)])
    case WriteRefresh(t) =>
      var p := PhaseOf(s, t);
      Goto(s, t, RefreshOver).(tokens := AfterRefresh(s.tokens, p.pair))
    case Unlock(t) => Goto(s, t, Idle).(writer := None)
  }

  // -------------------------------------------------------------- the reference

  function Commits(p: TokenPair, c: Commit): TokenPair {
    match c
    case Set(f, token) => Put(p, f, token)
    case Refreshed(_, granted) => AfterRefresh(p, granted)
  }

  /** The tokens as the log alone determines them. */
  function Fold(initial: TokenPair, log: seq<Commit>): TokenPair {
    if log == [] then initial else Commits(Fold(initial, log[..|log| - 1]), log[|log| - 1])
  }

  lemma FoldSnoc(initial: TokenPair, log: seq<Commit>, c: Commit)
    ensures Fold(initial, log + [c]) == Commits(Fold(initial, log), c)
  {
    assert (log + [c])[..|log|] == log;
  }

  // ------------------------------------------------------------------- invariant

  predicate Writing(p: Phase) {
    !p.Idle? && !p.ReadHeld?
  }

  ghost predicate LockInv(s: State) {
    && (s.writer.Some? ==> s.readers == {})
    && (forall t: Tid :: Writing(PhaseOf(s, t)) <==> s.writer == Some(t))
    && (forall t: Tid :: PhaseOf(s, t).ReadHeld? <==> t in s.readers)
  }

  predicate HalfWritten(s: State) {
    s.writer.Some? && PhaseOf(s, s.writer.value).RefreshHalfWritten?
  }

  ghost predicate TokensInv(s: State) {
    var now := Fold(s.initial, s.log);
    if HalfWritten(s)
    then s.tokens.access == now.access && AfterRefresh(s.tokens, PhaseOf(s, s.writer.value).pair) == now
    else s.tokens == now
  }

  /** The refresh token a goroutine is about to present, or has presented, is still the newest. */
  ghost predicate PresentedInv(s: State) {
    forall t: Tid ::
      var p := PhaseOf(s, t);
      p.RefreshLoaded? || p.RefreshSent? || p.RefreshGranted? ==> p.presented == Fold(s.initial, s.log).refresh
  }

  /** Every refresh was obtained with the refresh token that was current right before it. */
  ghost predicate LogInv(s: State) {
    forall i :: 0 <= i < |s.log| && s.log[i].Refreshed? ==> s.log[i].presented == Fold(s.initial, s.log[..i]).refresh
  }

  ghost predicate ReadsInv(s: State) {
    && (forall i :: 0 <= i < |s.seen| ==>
          && s.seen[i].version <= |s.log|
          && s.seen[i].value == Get(Fold(s.initial, s.log[..s.seen[i].version]), s.seen[i].field))
    && (forall i, j :: 0 <= i < j < |s.seen| ==> s.seen[i].version <= s.seen[j].version)
  }

  ghost predicate Inv(s: State) {
    LockInv(s) && TokensInv(s) && PresentedInv(s) && LogInv(s) && ReadsInv(s)
  }

  lemma LockStep(s: State, a: Action)
    requires LockInv(s) && Enabled(s, a)
    ensures LockInv(Apply(s, a))
  {
    var s' := Apply(s, a);
    assert forall t: Tid :: t != a.t ==> PhaseOf(s', t) == PhaseOf(s, t);
  }

  /** The commit a step makes, if any. */
  function CommitOf(s: State, a: Action): Option<Commit>
    requires Enabled(s, a)
  {
    match a
    case Write(t) => Some(Set(PhaseOf(s, t).field, PhaseOf(s, t).token))
    case WriteAccess(t) => Some(Refreshed(PhaseOf(s, t).presented, PhaseOf(s, t).pair))
    case _ => None
  }

  lemma TokensStep(s: State, a: Action)
    requires Inv(s) && Enabled(s, a)
    ensures TokensInv(Apply(s, a))
  {
    LockStep(s, a);
    if CommitOf(s, a).Some? {
      FoldSnoc(s.initial, s.log, CommitOf(s, a).value);
    }
  }

  lemma PresentedStep(s: State, a: Action)
    requires Inv(s) && Enabled(s, a)
    ensures PresentedInv(Apply(s, a))
  {
    var s' := Apply(s, a);
    LockStep(s, a);
    forall t: Tid
      ensures var p := PhaseOf(s', t);
              p.RefreshLoaded? || p.RefreshSent? || p.RefreshGranted? ==>
                  p.presented == Fold(s'.initial, s'.log).refresh
    {
      if t == a.t {
        assert PhaseOf(s, t).RefreshHeld? ==> s.writer == Some(t);
      } else {
        assert PhaseOf(s', t) == PhaseOf(s, t);
        if CommitOf(s, a).Some? {
          assert s.writer == Some(a.t);
          assert !Writing(PhaseOf(s, t));
        }
      }
    }
  }

  lemma HistoryStep(s: State, a: Action)
    requires Inv(s) && Enabled(s, a)
    ensures LogInv(Apply(s, a)) && ReadsInv(Apply(s, a))
  {
    var s' := Apply(s, a);
    assert s.log <= s'.log;
    assert forall i :: 0 <= i <= |s.log| ==> s'.log[..i] == s.log[..i];
    assert s.log[..|s.log|] == s.log;
    if a.Read? {
      assert a.t in s.readers;
    }
  }

  lemma InvStep(s: State, a: Action)
    requires Inv(s) && Enabled(s, a)
    ensures Inv(Apply(s, a))
  {
    LockStep(s, a);
    TokensStep(s, a);
    PresentedStep(s, a);
    HistoryStep(s, a);
  }

  // -------------------------------------------------------------------- all runs

  function Init(initial: TokenPair): State {
    State(initial, None, {}, map[], initial, [], [])
  }

  predicate IsRun(s: State, actions: seq<Action>)
    decreases |actions|
  {
    actions == [] || (Enabled(s, actions[0]) && IsRun(Apply(s, actions[0]), actions[1..]))
  }

  function After(s: State, actions: seq<Action>): State
    requires IsRun(s, actions)
    decreases |actions|
  {
    if actions == [] then s else After(Apply(s, actions[0]), actions[1..])
  }

  lemma {:induction false} InvAlways(s: State, actions: seq<Action>)
    requires Inv(s) && IsRun(s, actions)
    ensures Inv(After(s, actions))
    decreases |actions|
  {
    if actions == [] {
    } else {
      InvStep(s, actions[0]);
      InvAlways(Apply(s, actions[0]), actions[1..]);
    }
  }

  /**
   After any interleaving: whoever can read sees exactly the fold of the committed operations, every
   refresh presented the refresh token current just before it, and later reads never see older tokens.
   */
  lemma {:induction false} TokensLinearise(initial: TokenPair, actions: seq<Action>)
    requires IsRun(Init(initial), actions)
    ensures var s := After(Init(initial), actions);
            && (s.writer.None? ==> s.tokens == Fold(initial, s.log))
            && (forall i :: 0 <= i < |s.log| && s.log[i].Refreshed? ==>
                s.log[i].presented == Fold(initial, s.log[..i]).refresh)
            && (forall i, j :: 0 <= i < j < |s.seen| ==> s.seen[i].version <= s.seen[j].version)
            && (forall i :: 0 <= i < |s.seen| ==>
                  && s.seen[i].version <= |s.log|
                  && s.seen[i].value == Get(Fold(initial, s.log[..s.seen[i].version]), s.seen[i].field))
  {
    InvAlways(Init(initial), actions);
    InitialStays(Init(initial), actions);
  }

  lemma {:induction false} InitialStays(s: State, actions: seq<Action>)
    requires IsRun(s, actions)
    ensures After(s, actions).initial == s.initial
    decreases |actions|
  {
    if actions == [] {
    } else {
      InitialStays(Apply(s, actions[0]), actions[1..]);
    }
  }

  predicate Refreshing(p: Phase) {
    Writing(p) && !p.SetHeld? && !p.SetDone?
  }

  /** No two goroutines are ever inside a refresh, and nobody reads or sets during one. */
  lemma {:induction false} RefreshIsAlone(initial: TokenPair, actions: seq<Action>, t: Tid, u: Tid)
    requires IsRun(Init(initial), actions) && t != u
    requires Refreshing(PhaseOf(After(Init(initial), actions), t))
    ensures PhaseOf(After(Init(initial), actions), u).Idle?
  {
    InvAlways(Init(initial), actions);
    var s := After(Init(initial), actions);
    assert s.writer == Some(t);
    assert !Writing(PhaseOf(s, u)) && u !in s.readers;
  }

  /** Inside the lock, with nothing of a granted refresh written yet. */
  predicate NothingWritten(p: Phase) {
    Refreshing(p) && !p.RefreshHalfWritten?
  }

  /** Goroutine `t` neither writes nor leaves. */
  predicate NoWriteBy(actions: seq<Action>, t: Tid) {
    forall i :: 0 <= i < |actions| ==> actions[i] != WriteAccess(t) && actions[i] != Unlock(t)
  }

  lemma UnwrittenStep(s: State, t: Tid, a: Action)
    requires Inv(s) && NothingWritten(PhaseOf(s, t)) && Enabled(s, a) && a != WriteAccess(t) && a != Unlock(t)
    ensures NothingWritten(PhaseOf(Apply(s, a), t))
    ensures Apply(s, a).tokens == s.tokens && Apply(s, a).log == s.log
  {
    assert s.writer == Some(t);
    assert Writing(PhaseOf(s, a.t)) <==> s.writer == Some(a.t);
  }

  lemma {:induction false} UnwrittenRun(s: State, t: Tid, actions: seq<Action>)
    requires Inv(s) && NothingWritten(PhaseOf(s, t)) && IsRun(s, actions) && NoWriteBy(actions, t)
    ensures NothingWritten(PhaseOf(After(s, actions), t))
    ensures After(s, actions).tokens == s.tokens && After(s, actions).log == s.log
    decreases |actions|
  {
    if actions == [] {
    } else {
      UnwrittenStep(s, t, actions[0]);
      InvStep(s, actions[0]);
      assert forall i :: 0 <= i < |actions| - 1 ==> actions[1..][i] == actions[i + 1];
      UnwrittenRun(Apply(s, actions[0]), t, actions[1..]);
    }
  }

  /**
   A refresh that writes no token, because it was refused, could not be sent or is not over, changes nothing:
   from taking the lock to giving it back, whatever the other goroutines do meanwhile, both tokens and the log
   stay as they were.
   */
  lemma {:induction false} FailedRefreshChangesNothing(s: State, t: Tid, actions: seq<Action>)
    requires Inv(s) && Enabled(s, LockToRefresh(t))
    requires IsRun(Apply(s, LockToRefresh(t)), actions) && NoWriteBy(actions, t)
    ensures var s' := After(Apply(s, LockToRefresh(t)), actions);
            && s'.tokens == s.tokens && s'.log == s.log
            && (Enabled(s', Unlock(t)) ==> Apply(s', Unlock(t)).tokens == s.tokens && Apply(s', Unlock(t)).log == s.log)
  {
    InvStep(s, LockToRefresh(t));
    UnwrittenRun(Apply(s, LockToRefresh(t)), t, actions);
  }

  // -------------------------------------------- the history, from the calls and replies alone

  /** The latest value goroutine `t` asked to set, and the field. */
  function LastSet(actions: seq<Action>, t: Tid): Option<Commit> {
    if actions == [] then None
    else
      var a, front := actions[|actions| - 1], actions[..|actions| - 1];
      if a.LockToSet? && a.t == t then Some(Set(a.field, a.token)) else LastSet(front, t)
  }

  /** The latest pair the token endpoint granted goroutine `t`. */
  function LastGrant(actions: seq<Action>, t: Tid): Option<TokenPair> {
    if actions == [] then None
    else
      var a, front := actions[|actions| - 1], actions[..|actions| - 1];
      if a.Reply? && a.t == t && a.granted.Some? then a.granted else LastGrant(front, t)
  }

  /**
   What a sequence of actions commits: every write of a setter what that goroutine asked to set, every write of a
   refresh the pair that goroutine was granted, obtained with the newest refresh token; and nothing else.
   */
  function CommitsOf(initial: TokenPair, actions: seq<Action>): seq<Commit> {
    if actions == [] then []
    else
      var a, front := actions[|actions| - 1], actions[..|actions| - 1];
      var before := CommitsOf(initial, front);
      if a.Write? && LastSet(front, a.t).Some? then before + [LastSet(front, a.t).value]
      else if a.WriteAccess? && LastGrant(front, a.t).Some?
      then before + [Refreshed(Fold(initial, before).refresh, LastGrant(front, a.t).value)]
      else before
  }

  /** What the reads of a sequence of actions see. */
  function ReadsOf(initial: TokenPair, actions: seq<Action>): seq<Observation> {
    if actions == [] then []
    else
      var a, front := actions[|actions| - 1], actions[..|actions| - 1];
      var now := CommitsOf(initial, front);
      if a.Read?
      then
        var value := if a.field.Access? then Fold(initial, now).access else Fold(initial, now).refresh;
        ReadsOf(initial, front) + [Observation(a.field, value, |now|)]
      else ReadsOf(initial, front)
  }

  lemma {:induction false} AfterSnoc(s: State, front: seq<Action>, a: Action)
    requires IsRun(s, front + [a])
    ensures IsRun(s, front) && Enabled(After(s, front), a) && After(s, front + [a]) == Apply(After(s, front), a)
    decreases |front|
  {
    if front == [] {
      assert ([a])[1..] == [];
      assert front + [a] == [a];
    } else {
      assert (front + [a])[1..] == front[1..] + [a];
      AfterSnoc(Apply(s, front[0]), front[1..], a);
    }
  }

  /** What goroutine `t` is about to write is what it asked for, or what it was granted. */
  predicate PhaseFrom(actions: seq<Action>, t: Tid, p: Phase) {
    && (p.SetHeld? ==> LastSet(actions, t) == Some(Set(p.field, p.token)))
    && (p.RefreshGranted? || p.RefreshHalfWritten? ==> LastGrant(actions, t) == Some(p.pair))
  }

  lemma {:induction false} PhasesFollowActions(initial: TokenPair, actions: seq<Action>, t: Tid)
    requires IsRun(Init(initial), actions)
    ensures PhaseFrom(actions, t, PhaseOf(After(Init(initial), actions), t))
    decreases |actions|
  {
    if actions == [] {
    } else {
      var a, front := actions[|actions| - 1], actions[..|actions| - 1];
      assert actions == front + [a];
      AfterSnoc(Init(initial), front, a);
      PhasesFollowActions(initial, front, t);
      PhaseFollows(After(Init(initial), front), front, a, t);
    }
  }

  lemma PhaseFollows(s: State, front: seq<Action>, a: Action, t: Tid)
    requires Enabled(s, a) && PhaseFrom(front, t, PhaseOf(s, t))
    ensures PhaseFrom(front + [a], t, PhaseOf(Apply(s, a), t))
  {
    assert (front + [a])[..|front|] == front;
  }

  lemma {:induction false} HistoryFollowsActions(initial: TokenPair, actions: seq<Action>)
    requires IsRun(Init(initial), actions)
    ensures After(Init(initial), actions).log == CommitsOf(initial, actions)
    ensures After(Init(initial), actions).seen == ReadsOf(initial, actions)
    decreases |actions|
  {
    if actions == [] {
    } else {
      var a, front := actions[|actions| - 1], actions[..|actions| - 1];
      assert actions == front + [a];
      AfterSnoc(Init(initial), front, a);
      HistoryFollowsActions(initial, front);
      PhasesFollowActions(initial, front, a.t);
      InvAlways(Init(initial), front);
      InitialStays(Init(initial), front);
      StepCommits(After(Init(initial), front), initial, a);
    }
  }

  /** What one step adds to the history. */
  lemma StepCommits(s: State, initial: TokenPair, a: Action)
    requires Inv(s) && s.initial == initial && Enabled(s, a)
    ensures var p := PhaseOf(s, a.t);
            Apply(s, a).log == s.log + (if a.Write? then [Set(p.field, p.token)]
                                        else if a.WriteAccess? then [Refreshed(Fold(initial, s.log).refresh, p.pair)]
                                        else [])
    ensures a.Read? ==> Apply(s, a).seen == s.seen + [Observation(a.field, Get(Fold(initial, s.log), a.field), |s.log|)]
    ensures !a.Read? ==> Apply(s, a).seen == s.seen
  {
    assert a.Read? ==> a.t in s.readers;
    assert a.WriteAccess? ==> PhaseOf(s, a.t).presented == Fold(initial, s.log).refresh;
  }

  /**
   After any interleaving the history of commits and of reads is the one the calls and replies alone determine, and
   whenever nobody writes the tokens are what these commits make of the initial ones.
   */
  lemma {:induction false} TokensFollowCalls(initial: TokenPair, actions: seq<Action>)
    requires IsRun(Init(initial), actions)
    ensures var s := After(Init(initial), actions);
            && s.log == CommitsOf(initial, actions) && s.seen == ReadsOf(initial, actions)
            && (s.writer.None? ==> s.tokens == Fold(initial, CommitsOf(initial, actions)))
  {
    HistoryFollowsActions(initial, actions);
    TokensLinearise(initial, actions);
  }

  // ----------------------------------------------------------------- whole calls

  predicate LockFree(s: State) {
    s.writer.None? && s.readers == {}
  }

  lemma {:induction false} RunCons(s: State, a: Action, rest: seq<Action>)
    requires Enabled(s, a) && IsRun(Apply(s, a), rest)
    ensures IsRun(s, [a] + rest) && After(s, [a] + rest) == After(Apply(s, a), rest)
  {
    assert ([a] + rest)[1..] == rest;
  }

  lemma {:induction false} RunOfThree(s: State, a: Action, b: Action, c: Action)
    requires Enabled(s, a) && Enabled(Apply(s, a), b) && Enabled(Apply(Apply(s, a), b), c)
    ensures IsRun(s, [a, b, c]) && After(s, [a, b, c]) == Apply(Apply(Apply(s, a), b), c)
  {
    RunCons(Apply(Apply(s, a), b), c, []);
    RunCons(Apply(s, a), b, [c] + []);
    RunCons(s, a, [b] + ([c] + []));
    assert [a] + ([b] + ([c] + [])) == [a, b, c];
  }

  /** With the lock free, setting a token goes through and replaces that token alone. */
  lemma SetCompletes(s: State, t: Tid, field: Field, token: string)
    requires LockFree(s) && PhaseOf(s, t).Idle?
    ensures var run := [LockToSet(t, field, token), Write(t), Unlock(t)];
            && IsRun(s, run) && LockFree(After(s, run)) && PhaseOf(After(s, run), t).Idle?
            && After(s, run).tokens == (if field.Access? then TokenPair(token, s.tokens.refresh)
                                        else TokenPair(s.tokens.access, token))
  {
    RunOfThree(s, LockToSet(t, field, token), Write(t), Unlock(t));
  }

  /** While nobody writes, reading a token goes through and shows it. */
  lemma ReadCompletes(s: State, t: Tid, field: Field)
    requires s.writer.None? && PhaseOf(s, t).Idle?
    ensures var run := [RLock(t), Read(t, field), RUnlock(t)];
            && IsRun(s, run) && After(s, run).tokens == s.tokens && PhaseOf(After(s, run), t).Idle?
            && After(s, run).seen
               == s.seen + [Observation(field, if field.Access? then s.tokens.access else s.tokens.refresh, |s.log|)]
  {
    RunOfThree(s, RLock(t), Read(t, field), RUnlock(t));
  }

  lemma {:induction false} RunJoin(s: State, first: seq<Action>, second: seq<Action>)
    requires IsRun(s, first) && IsRun(After(s, first), second)
    ensures IsRun(s, first + second) && After(s, first + second) == After(After(s, first), second)
    decreases |first|
  {
    if first == [] {
      assert first + second == second;
    } else {
      assert (first + second)[1..] == first[1..] + second;
      RunJoin(Apply(s, first[0]), first[1..], second);
    }
  }

  /**
   With the lock free, a granted refresh goes through: it presents the current refresh token, and installs the access
   token and, if there is one, the refresh token it was granted.
   */
  lemma {:induction false} RefreshCompletes(s: State, t: Tid, pair: TokenPair)
    requires LockFree(s) && PhaseOf(s, t).Idle? && pair.access != ""
    ensures var run := [LockToRefresh(t), Load(t), Send(t)] + [Reply(t, Some(pair)), WriteAccess(t), WriteRefresh(t)]
                       + [Unlock(t)];
            && IsRun(s, run) && LockFree(After(s, run)) && PhaseOf(After(s, run), t).Idle?
            && After(s, run).tokens.access == pair.access
            && After(s, run).tokens.refresh == (if pair.refresh == "" then s.tokens.refresh else pair.refresh)
            && After(s, run).log == s.log + [Refreshed(s.tokens.refresh, pair)]
  {
    var a, b := [LockToRefresh(t), Load(t), Send(t)], [Reply(t, Some(pair)), WriteAccess(t), WriteRefresh(t)];
    RunOfThree(s, LockToRefresh(t), Load(t), Send(t));
    var s1 := After(s, a);
    RunOfThree(s1, Reply(t, Some(pair)), WriteAccess(t), WriteRefresh(t));
    RunCons(After(s1, b), Unlock(t), []);
    assert [Unlock(t)] + [] == [Unlock(t)];
    RunJoin(s, a, b);
    RunJoin(s, a + b, [Unlock(t)]);
  }

  /** A refused refresh, and one that cannot be sent, give the lock back too. */
  lemma {:induction false} RefusedCompletes(s: State, t: Tid)
    requires LockFree(s) && PhaseOf(s, t).Idle?
    ensures var refused := [LockToRefresh(t), Load(t), Send(t)] + [Reply(t, None), Unlock(t)];
            IsRun(s, refused) && LockFree(After(s, refused)) && After(s, refused).tokens == s.tokens
    ensures var unsent := [LockToRefresh(t), Load(t), Abandon(t)] + [Unlock(t)];
            IsRun(s, unsent) && LockFree(After(s, unsent)) && After(s, unsent).tokens == s.tokens
  {
    RunOfThree(s, LockToRefresh(t), Load(t), Send(t));
    var s1 := After(s, [LockToRefresh(t), Load(t), Send(t)]);
    RunCons(Apply(s1, Reply(t, None)), Unlock(t), []);
    RunCons(s1, Reply(t, None), [Unlock(t)] + []);
    assert [Reply(t, None)] + ([Unlock(t)] + []) == [Reply(t, None), Unlock(t)];
    RunJoin(s, [LockToRefresh(t), Load(t), Send(t)], [Reply(t, None), Unlock(t)]);
    RunOfThree(s, LockToRefresh(t), Load(t), Abandon(t));
    RunCons(After(s, [LockToRefresh(t), Load(t), Abandon(t)]), Unlock(t), []);
    assert [Unlock(t)] + [] == [Unlock(t)];
    RunJoin(s, [LockToRefresh(t), Load(t), Abandon(t)], [Unlock(t)]);
  }
}
