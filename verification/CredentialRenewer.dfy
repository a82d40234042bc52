/** `Renewer.performRenewal`: one renewal, retried without limit until it is stored or its context ends. */
module CredentialRenewer {
  import opened Options
  import opened Backoff
  import MemStore

  /** What RenewFn returns when it succeeds, and whether the system lets the store pin the copy. */
  datatype Grant = Grant(value: seq<MemStore.byte>, expiry: int, systemAllows: bool)

  /** What the environment decides about one pass of the loop. */
  datatype Round = Round(grant: Option<Grant>, cancelledAtCheck: bool, draw: Draw, cancelledInWait: bool)

  /** Everything a renewal does that can be seen from outside, in order. */
  datatype Mark =
    | Stored(value: seq<MemStore.byte>)
    | ExpirySet(expiry: int)
    | Succeeded(attempt: nat)
    | Failed(attempt: nat)
    | Waits(duration: int)

  datatype Config = Config(key: string, base: int, cap: int)

  /** MemStore refuses only the empty key. */
  predicate Renews(cfg: Config, r: Round) {
    r.grant.Some? && cfg.key != ""
  }

  predicate GoesOn(cfg: Config, r: Round) {
    !Renews(cfg, r) && !r.cancelledAtCheck && !r.cancelledInWait
  }

  /** What pass number `attempt` does while the delay variable is `delay`. */
  function Pass(cfg: Config, r: Round, attempt: nat, delay: int): seq<Mark> {
    if Renews(cfg, r) then [Stored(r.grant.value.value), ExpirySet(r.grant.value.expiry), Succeeded(attempt)]
    else if r.cancelledAtCheck then [Failed(attempt)]
    else [Failed(attempt), Waits(HalfJittered(delay, r.draw))]
  }

  /**
   The passes against a script, the first of them with number `attempt`. A renewal whose script runs out is
   one that is still going.
   */
  function Renewal(cfg: Config, script: seq<Round>, attempt: nat, delay: int): seq<Mark>
    decreases |script|
  {
    if script == [] then []
    else
      Pass(cfg, script[0], attempt, delay) +
      if GoesOn(cfg, script[0]) then Renewal(cfg, script[1..], attempt + 1, NextRenewerDelay(delay, cfg.cap)) else []
  }

  // ------------------------------------------------------------------- what it amounts to

  /** The first `k` passes fail and wait, with delays given by their number alone. */
  function Failures(base: int, cap: int, script: seq<Round>, k: nat): seq<Mark>
    requires k <= |script|
  {
    if k == 0 then []
    else
      Failures(base, cap, script, k - 1)
      + [Failed(k), Waits(HalfJittered(RenewerDelay(base, cap, k), script[k - 1].draw))]
  }

  /** The pass is the last one: its credential is stored, or the context ends at its check or in its wait. */
  predicate Last(cfg: Config, r: Round) {
    (r.grant.Some? && cfg.key != "") || r.cancelledAtCheck || r.cancelledInWait
  }

  /** `k` passes that are not the last one, then what the next one does, if the script has one. */
  ghost predicate Describes(cfg: Config, script: seq<Round>, k: nat, marks: seq<Mark>) {
    && k <= |script|
    && (forall i :: 0 <= i < k ==> !Last(cfg, script[i]))
    && (k < |script| ==> Last(cfg, script[k]))
    && marks == Failures(cfg.base, cfg.cap, script, k) + if k == |script| then [] else LastPass(cfg, script[k], k + 1)
  }

  /** What the last pass leaves, which has the number `attempt` and its delay. */
  function LastPass(cfg: Config, r: Round, attempt: nat): seq<Mark>
    requires attempt >= 1
  {
    match r.grant
    case None => Unrenewed(cfg, r, attempt)
    case Some(g) =>
      if cfg.key == "" then Unrenewed(cfg, r, attempt)
      else [Stored(g.value), ExpirySet(g.expiry), Succeeded(attempt)]
  }

  /** A failure, and a wait unless the context ended before it. */
  function Unrenewed(cfg: Config, r: Round, attempt: nat): seq<Mark>
    requires attempt >= 1
  {
    if r.cancelledAtCheck then [Failed(attempt)]
    else [Failed(attempt), Waits(HalfJittered(RenewerDelay(cfg.base, cfg.cap, attempt), r.draw))]
  }

  lemma LastExactly(cfg: Config, r: Round, attempt: nat)
    requires attempt >= 1
    ensures GoesOn(cfg, r) <==> !Last(cfg, r)
    ensures LastPass(cfg, r, attempt) == Pass(cfg, r, attempt, RenewerDelay(cfg.base, cfg.cap, attempt))
  {
  }

  lemma FailuresSnoc(cfg: Config, script: seq<Round>, k: nat)
    requires k < |script| && GoesOn(cfg, script[k])
    ensures Failures(cfg.base, cfg.cap, script, k + 1)
            == Failures(cfg.base, cfg.cap, script, k) + LastPass(cfg, script[k], k + 1)
  {
  }

  lemma {:induction false} RenewalFrom(cfg: Config, script: seq<Round>, done: nat) returns (k: nat)
    requires done <= |script| && forall i :: 0 <= i < done ==> !Last(cfg, script[i])
    ensures Describes(cfg, script, k,
              Failures(cfg.base, cfg.cap, script, done)
              + Renewal(cfg, script[done..], done + 1, RenewerDelay(cfg.base, cfg.cap, done + 1)))
    decreases |script| - done
  {
    if done == |script| {
      k := done;
    } else {
      var r, delay := script[done], RenewerDelay(cfg.base, cfg.cap, done + 1);
      assert script[done..][0] == r && script[done..][1..] == script[done + 1..];
      UnrollRenewal(cfg, script[done..], done + 1, delay);
      LastExactly(cfg, r, done + 1);
      if Last(cfg, r) {
        k := done;
        assert Renewal(cfg, script[done..], done + 1, delay) == LastPass(cfg, r, done + 1);
      } else {
        k := RenewalFrom(cfg, script, done + 1);
        FailuresSnoc(cfg, script, done);
        Regroup(Failures(cfg.base, cfg.cap, script, done), LastPass(cfg, r, done + 1),
            Renewal(cfg, script[done + 1..], done + 2, NextRenewerDelay(delay, cfg.cap)));
      }
    }
  }

  /** A whole renewal: failures numbered from one, each with its own delay, then at most one last pass. */
  lemma RenewalLaw(cfg: Config, script: seq<Round>) returns (k: nat)
    ensures Describes(cfg, script, k, Renewal(cfg, script, 1, cfg.base))
  {
    assert script[0..] == script;
    k := RenewalFrom(cfg, script, 0);
    assert Failures(cfg.base, cfg.cap, script, 0) + Renewal(cfg, script, 1, cfg.base)
           == Renewal(cfg, script, 1, cfg.base);
  }

  predicate WaitWithin(d: int, wait: int) {
    d / 2 <= wait <= d
  }

  /** Mark number `2i` is failure `i + 1`, and the next one its wait, of at least half the nominal delay. */
  predicate PacedAt(cfg: Config, marks: seq<Mark>, i: nat)
    requires 2 * i + 1 < |marks|
  {
    && marks[2 * i] == Failed(i + 1) && marks[2 * i + 1].Waits?
    && WaitWithin(Nominal(cfg.base, i + 1, cfg.cap), marks[2 * i + 1].duration)
  }

  ghost predicate Paced(cfg: Config, marks: seq<Mark>, k: nat) {
    2 * k <= |marks| && forall i :: 0 <= i < k ==> PacedAt(cfg, marks, i)
  }

  lemma PacedLonger(cfg: Config, marks: seq<Mark>, more: seq<Mark>, k: nat)
    requires Paced(cfg, marks, k)
    ensures Paced(cfg, marks + more, k)
  {
    forall i | 0 <= i < k ensures PacedAt(cfg, marks + more, i) {
      assert PacedAt(cfg, marks, i);
    }
  }

  lemma WaitIsWithin(cfg: Config, attempt: nat, draw: Draw)
    requires attempt >= 1 && 0 < cfg.base <= cfg.cap < TWO_62
    ensures WaitWithin(Nominal(cfg.base, attempt, cfg.cap),
              HalfJittered(RenewerDelay(cfg.base, cfg.cap, attempt), draw))
  {
    RenewerDelayNominalUpTo(cfg.base, cfg.cap, attempt);
    NominalPositive(cfg.base, attempt, cfg.cap);
    HalfJitteredBounds(Nominal(cfg.base, attempt, cfg.cap), draw);
  }

  lemma {:induction false} FailuresArePaced(cfg: Config, script: seq<Round>, k: nat)
    requires k <= |script| && 0 < cfg.base <= cfg.cap < TWO_62
    ensures |Failures(cfg.base, cfg.cap, script, k)| == 2 * k
    ensures Paced(cfg, Failures(cfg.base, cfg.cap, script, k), k)
  {
    if k == 0 {
    } else {
      FailuresArePaced(cfg, script, k - 1);
      WaitIsWithin(cfg, k, script[k - 1].draw);
      var before := Failures(cfg.base, cfg.cap, script, k - 1);
      var pair := [Failed(k), Waits(HalfJittered(RenewerDelay(cfg.base, cfg.cap, k), script[k - 1].draw))];
      PacedLonger(cfg, before, pair, k - 1);
      assert PacedAt(cfg, before + pair, k - 1);
    }
  }

  /** With a cap below 2^62 the waits of a renewal follow the doubling that the configuration asks for. */
  lemma RenewalIsPaced(cfg: Config, script: seq<Round>) returns (k: nat)
    requires 0 < cfg.base <= cfg.cap < TWO_62
    ensures Describes(cfg, script, k, Renewal(cfg, script, 1, cfg.base))
    ensures Paced(cfg, Renewal(cfg, script, 1, cfg.base), k)
  {
    k := RenewalLaw(cfg, script);
    FailuresArePaced(cfg, script, k);
    var last := if k == |script| then [] else LastPass(cfg, script[k], k + 1);
    PacedLonger(cfg, Failures(cfg.base, cfg.cap, script, k), last, k);
  }

  predicate FailureMarks(marks: seq<Mark>) {
    forall i :: 0 <= i < |marks| ==> marks[i].Failed? || marks[i].Waits?
  }

  /** The grant of the pass that renewed, if one did. */
  function Winner(cfg: Config, script: seq<Round>): Option<Grant>
    decreases |script|
  {
    if script == [] then None
    else if Renews(cfg, script[0]) then script[0].grant
    else if GoesOn(cfg, script[0]) then Winner(cfg, script[1..])
    else None
  }

  /** A renewal has a winner exactly if its last pass is there and its grant can be stored. */
  lemma {:induction false} WinnerExactly(cfg: Config, script: seq<Round>, k: nat)
    requires k <= |script| && forall i :: 0 <= i < k ==> !Last(cfg, script[i])
    requires k < |script| ==> Last(cfg, script[k])
    ensures Winner(cfg, script) == if k < |script| && cfg.key != "" then script[k].grant else None
    decreases |script|
  {
    if script == [] {
    } else if k == 0 {
    } else {
      assert !Last(cfg, script[0]);
      WinnerExactly(cfg, script[1..], k - 1);
    }
  }

  /**
   The store is written at most once and the expiry only right after it, both from the same grant; they are
   written exactly when some pass renewed, and nothing but the report of success follows.
   */
  lemma {:induction false} WritesTogether(cfg: Config, script: seq<Round>, attempt: nat, delay: int)
    returns (failures: seq<Mark>)
    ensures FailureMarks(failures)
    ensures match Winner(cfg, script)
            case None => Renewal(cfg, script, attempt, delay) == failures
            case Some(g) =>
              exists n ::
                Renewal(cfg, script, attempt, delay) == failures + [Stored(g.value), ExpirySet(g.expiry), Succeeded(n)]
    decreases |script|
  {
    failures := [];
    if script != [] {
      var here := Pass(cfg, script[0], attempt, delay);
      if GoesOn(cfg, script[0]) {
        var later := Renewal(cfg, script[1..], attempt + 1, NextRenewerDelay(delay, cfg.cap));
        failures := WritesTogether(cfg, script[1..], attempt + 1, NextRenewerDelay(delay, cfg.cap));
        match Winner(cfg, script) {
          case None => assert here + later == here + failures;
          case Some(g) =>
            var n :| later == failures + [Stored(g.value), ExpirySet(g.expiry), Succeeded(n)];
            assert here + later == here + failures + [Stored(g.value), ExpirySet(g.expiry), Succeeded(n)];
        }
        failures := here + failures;
      } else if !Renews(cfg, script[0]) {
        failures := here;
        assert here + [] == here;
      } else {
        assert here + [] == [] + here;
      }
    }
  }

  // ------------------------------------------------------------------- the loop itself

  class Renewer {
    const cfg: Config
    const store: MemStore.Store
    var expiry: int
    var marks: seq<Mark>

    /** `NewRenewer`: a delay of zero stands for its default. */
    constructor (cfg: Config, store: MemStore.Store)
      ensures this.store == store && expiry == 0 && marks == [] && this.cfg.key == cfg.key
      ensures this.cfg.base != 0 && (cfg.base == 0 ==> this.cfg.base == SECOND)
              && (cfg.base != 0 ==> this.cfg.base == cfg.base)
      ensures this.cfg.cap != 0 && (cfg.cap == 0 ==> this.cfg.cap == 30 * SECOND)
              && (cfg.cap != 0 ==> this.cfg.cap == cfg.cap)
    {
      var base := if cfg.base == 0 then SECOND else cfg.base;
      var cap := if cfg.cap == 0 then 30 * SECOND else cfg.cap;
      this.cfg := Config(cfg.key, base, cap);
      this.store, expiry, marks := store, 0, [];
    }

    /** `Store.Store(Key, newCred)`. */
    method StoreGrant(g: Grant) returns (ok: bool)
      requires store.Valid()
      modifies store, store.Buffers()
      ensures store.Valid() && ok == (cfg.key != "")
      ensures ok ==> store.Contents() == old(store.Contents())[cfg.key := g.value]
      ensures !ok ==> store.entries == old(store.entries) && store.Contents() == old(store.Contents())
    {
      var value := MemStore.FromSeq(g.value);
      ok := store.Put(cfg.key, value, g.systemAllows);
    }

    /** Ask for a credential and store it: `ok` says whether both worked. */
    method TryRenew(r: Round) returns (ok: bool)
      requires store.Valid()
      modifies this, store, store.Buffers()
      ensures store.Valid() && ok == Renews(cfg, r)
      ensures ok ==> store.Contents() == old(store.Contents())[cfg.key := r.grant.value.value]
      ensures ok ==> expiry == r.grant.value.expiry
      ensures ok ==> marks == old(marks) + [Stored(r.grant.value.value), ExpirySet(r.grant.value.expiry)]
      ensures !ok ==> expiry == old(expiry) && marks == old(marks)
      ensures !ok ==> store.entries == old(store.entries) && store.Contents() == old(store.Contents())
    {
      ok := false;
      if r.grant.Some? {
        ok := StoreGrant(r.grant.value);
        if ok {
          marks := marks + [Stored(r.grant.value.value)];
          expiry := r.grant.value.expiry;
          marks := marks + [ExpirySet(expiry)];
        }
      }
    }

    /** One pass of the loop: renew, or report and wait. */
    method OnePass(r: Round, attempt: nat, delay: int) returns (goesOn: bool)
      requires store.Valid()
      modifies this, store, store.Buffers()
      ensures store.Valid() && goesOn == GoesOn(cfg, r)
      ensures marks == old(marks) + Pass(cfg, r, attempt, delay)
      ensures Renews(cfg, r) ==>
                expiry == r.grant.value.expiry
                    && store.Contents() == old(store.Contents())[cfg.key := r.grant.value.value]
      ensures !Renews(cfg, r) ==>
                expiry == old(expiry) && store.entries == old(store.entries)
                    && store.Contents() == old(store.Contents())
    {
      var ok := TryRenew(r);
      if ok {
        marks := marks + [Succeeded(attempt)];
        return false;
      }
      marks := marks + [Failed(attempt)];
      if r.cancelledAtCheck {
        return false;
      }
      marks := marks + [Waits(HalfJittered(delay, r.draw))];
      goesOn := !r.cancelledInWait;
    }

    /** The whole loop, which changes store and expiry together or not at all. */
    method PerformRenewal(script: seq<Round>)
      requires store.Valid()
      modifies this, store, store.Buffers()
      ensures store.Valid()
      ensures marks == old(marks) + Renewal(cfg, script, 1, cfg.base)
      ensures match Winner(cfg, script)
              case None => expiry == old(expiry) && store.Contents() == old(store.Contents())
              case Some(g) => expiry == g.expiry && store.Contents() == old(store.Contents())[cfg.key := g.value]
    {
      var attempt: nat := 0;
      var delay := cfg.base;
      ghost var before := [];
      while attempt < |script|
        invariant attempt <= |script| && store.Valid()
        invariant expiry == old(expiry) && store.entries == old(store.entries)
                  && store.Contents() == old(store.Contents())
        invariant Winner(cfg, script) == Winner(cfg, script[attempt..])
        invariant marks == old(marks) + before
        invariant Renewal(cfg, script, 1, cfg.base) == before + Renewal(cfg, script[attempt..], attempt + 1, delay)
      {
        var r := script[attempt];
        ghost var here := Pass(cfg, r, attempt + 1, delay);
        UnrollRenewal(cfg, script[attempt..], attempt + 1, delay);
        assert script[attempt..][1..] == script[attempt + 1..];
        attempt := attempt + 1;
        var goesOn := OnePass(r, attempt, delay);
        Regroup(old(marks), before, here);
        if !goesOn {
          return;
        }
        delay := NextRenewerDelay(delay, cfg.cap);
        Regroup(before, here, Renewal(cfg, script[attempt..], attempt + 1, delay));
        before := before + here;
      }
    }
  }

  lemma Regroup(a: seq<Mark>, b: seq<Mark>, c: seq<Mark>)
    ensures a + b + c == a + (b + c)
  {
  }

  lemma UnrollRenewal(cfg: Config, script: seq<Round>, attempt: nat, delay: int)
    requires script != []
    ensures var here := Pass(cfg, script[0], attempt, delay);
            Renewal(cfg, script, attempt, delay) ==
              if GoesOn(cfg, script[0])
              then here + Renewal(cfg, script[1..], attempt + 1, NextRenewerDelay(delay, cfg.cap))
              else here
  {
  }
}
