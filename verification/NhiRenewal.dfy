/** `renewal.renew`: one renewal of the NHI credential, with its retries and events. */
module NhiRenewal {
  import opened Options
  import opened Backoff
  import opened CredentialStore

  const MAX_RENEWAL_ATTEMPTS := 10

  /** An exchange may also return neither a credential nor an error, which counts as a failure. */
  datatype Outcome = Failure | Nothing | Delivered(cred: View)

  /** What the environment decides about one pass of the loop. */
  datatype Round = Round(cancelledAtCheck: bool, outcome: Outcome, draw: Draw, cancelledInWait: bool)

  datatype Event = RenewalFailed(attempt: nat) | RenewalSucceeded(attempt: nat, target: string)

  datatype Renewed = Renewed(exchanges: nat, events: seq<Event>, waits: seq<int>, stored: Option<View>)

  function BackoffFor(attempt: int, draw: Draw): int {
    var b := Nominal(BASE_BACKOFF_DELAY, attempt, MAX_BACKOFF_DELAY);
    b + CryptoJitter(b, draw)
  }

  const NOTHING := Renewed(0, [], [], None)

  /** What a failed pass adds. */
  function FailedOnce(attempt: nat, draw: Draw): Renewed {
    Renewed(1, [RenewalFailed(attempt)], [BackoffFor(attempt, draw)], None)
  }

  /** What the pass that gets a credential adds. */
  function SucceededOnce(attempt: nat, v: View): Renewed {
    Renewed(1, [RenewalSucceeded(attempt, v.meta.target)], [], Some(v))
  }

  /** First `a`, then `b`. */
  function Join(a: Renewed, b: Renewed): Renewed {
    Renewed(a.exchanges + b.exchanges, a.events + b.events, a.waits + b.waits, b.stored)
  }

  /** The loop from `attempt` failures on; pass number `attempt` meets `rounds(attempt)`. */
  function RenewFrom(rounds: nat -> Round, attempt: nat): Renewed
    requires attempt <= MAX_RENEWAL_ATTEMPTS
    decreases MAX_RENEWAL_ATTEMPTS - attempt
  {
    var r := rounds(attempt);
    if r.cancelledAtCheck || attempt >= MAX_RENEWAL_ATTEMPTS then NOTHING
    else if r.outcome.Delivered? then SucceededOnce(attempt, r.outcome.cred)
    else
      Join(FailedOnce(attempt + 1, r.draw), if r.cancelledInWait then NOTHING else RenewFrom(rounds, attempt + 1))
  }

  /** Failures numbered `from + 1` to `to`. */
  function Failures(from: nat, to: nat): seq<Event>
    requires from <= to
  {
    seq(to - from, i requires 0 <= i < to - from => RenewalFailed(from + i + 1))
  }

  ghost predicate WellNumbered(from: nat, x: Renewed, k: nat) {
    && from <= k <= MAX_RENEWAL_ATTEMPTS
    && x.events == Failures(from, k)
        + (if x.stored.Some? then [RenewalSucceeded(k, x.stored.value.meta.target)] else [])
    && x.exchanges == |x.events| <= MAX_RENEWAL_ATTEMPTS - from
    && |x.waits| == k - from
    && (forall i :: 0 <= i < |x.waits| ==> WaitOk(from + i + 1, x.waits[i]))
  }

  /** A wait of at least the nominal delay and less than twice that. */
  predicate WaitOk(attempt: int, wait: int) {
    var b := Nominal(BASE_BACKOFF_DELAY, attempt, MAX_BACKOFF_DELAY);
    b <= wait < 2 * b
  }

  lemma BackoffIsOk(attempt: int, draw: Draw)
    ensures WaitOk(attempt, BackoffFor(attempt, draw))
  {
    NominalPositive(BASE_BACKOFF_DELAY, attempt, MAX_BACKOFF_DELAY);
  }

  lemma FailuresCons(from: nat, to: nat)
    requires from < to
    ensures Failures(from, to) == [RenewalFailed(from + 1)] + Failures(from + 1, to)
  {
  }

  lemma OneMoreFailure(from: nat, rest: Renewed, k: nat, draw: Draw)
    requires from < MAX_RENEWAL_ATTEMPTS && WellNumbered(from + 1, rest, k)
    ensures WellNumbered(from, Join(FailedOnce(from + 1, draw), rest), k)
  {
    FailuresCons(from, k);
    BackoffIsOk(from + 1, draw);
    var waits := [BackoffFor(from + 1, draw)] + rest.waits;
    forall i | 0 <= i < |waits| ensures WaitOk(from + i + 1, waits[i]) {
      if i > 0 {
        assert waits[i] == rest.waits[i - 1];
        assert WaitOk(from + 1 + (i - 1) + 1, rest.waits[i - 1]);
      }
    }
  }

  lemma {:induction false} RenewIsWellNumbered(rounds: nat -> Round, attempt: nat) returns (k: nat)
    requires attempt <= MAX_RENEWAL_ATTEMPTS
    ensures WellNumbered(attempt, RenewFrom(rounds, attempt), k)
    decreases MAX_RENEWAL_ATTEMPTS - attempt
  {
    var r := rounds(attempt);
    k := attempt;
    if !r.cancelledAtCheck && attempt < MAX_RENEWAL_ATTEMPTS && !r.outcome.Delivered? {
      var rest := NOTHING;
      k := attempt + 1;
      if !r.cancelledInWait {
        rest := RenewFrom(rounds, attempt + 1);
        k := RenewIsWellNumbered(rounds, attempt + 1);
      }
      OneMoreFailure(attempt, rest, k, r.draw);
    }
  }

  /**
   One renewal: at most ten exchanges; failures numbered from one without gaps, then at most one success
   that carries their number; a store write exactly when there was a success; delays of the nominal size.
   */
  lemma RenewLaw(rounds: nat -> Round)
    ensures exists k :: WellNumbered(0, RenewFrom(rounds, 0), k)
  {
    var k := RenewIsWellNumbered(rounds, 0);
  }

  // ------------------------------------------------------------- what decides a renewal

  /** The pass is the last one: it delivers, or the context ends at its check or in its wait. */
  predicate Ends(r: Round) {
    r.cancelledAtCheck || r.outcome.Delivered? || r.cancelledInWait
  }

  /** Pass `k` is the first from `n` on that is the last one; ten passes are the most there are. */
  ghost predicate FirstEnd(rounds: nat -> Round, n: nat, k: nat) {
    n <= k <= 10 && (forall i: nat :: n <= i < k ==> !Ends(rounds(i))) && (k < 10 ==> Ends(rounds(k)))
  }

  lemma {:induction false} SomeFirstEnd(rounds: nat -> Round, n: nat) returns (k: nat)
    requires n <= 10
    ensures FirstEnd(rounds, n, k)
    decreases 10 - n
  {
    if n == 10 || Ends(rounds(n)) {
      k := n;
    } else {
      k := SomeFirstEnd(rounds, n + 1);
    }
  }

  /** Pass `k` exists and gets as far as its exchange. */
  predicate Exchanges(rounds: nat -> Round, k: nat) {
    k < 10 && !rounds(k).cancelledAtCheck
  }

  predicate Delivers(rounds: nat -> Round, k: nat) {
    Exchanges(rounds, k) && rounds(k).outcome.Delivered?
  }

  /** The first attempt that fails is number one, and so on: how many have failed when pass `k` is over. */
  function FailedBy(rounds: nat -> Round, k: nat): nat {
    if Exchanges(rounds, k) && !rounds(k).outcome.Delivered? then k + 1 else k
  }

  predicate WaitIs(attempt: nat, draw: Draw, wait: int) {
    var b := Nominal(500_000_000, attempt, 60_000_000_000);
    wait == b + CryptoJitter(b, draw)
  }

  /** Renewal `x`, from `n` failures on, is the one that pass `k` ends. */
  ghost predicate DecidedBy(rounds: nat -> Round, n: nat, k: nat, x: Renewed) {
    && n <= k
    && x.stored == (if Delivers(rounds, k) then Some(rounds(k).outcome.cred) else None)
    && x.exchanges == k - n + (if Exchanges(rounds, k) then 1 else 0)
    && x.events == Failures(n, FailedBy(rounds, k))
                   + (if Delivers(rounds, k) then [RenewalSucceeded(k, rounds(k).outcome.cred.meta.target)] else [])
    && |x.waits| == FailedBy(rounds, k) - n
    && forall i :: 0 <= i < |x.waits| ==> WaitIs(n + i + 1, rounds(n + i).draw, x.waits[i])
  }

  lemma {:induction false} DecidedOn(rounds: nat -> Round, n: nat, k: nat, rest: Renewed)
    requires n < 10 && DecidedBy(rounds, n + 1, k, rest)
    ensures DecidedBy(rounds, n, k, Join(FailedOnce(n + 1, rounds(n).draw), rest))
  {
    var x := Join(FailedOnce(n + 1, rounds(n).draw), rest);
    FailuresCons(n, FailedBy(rounds, k));
    forall i | 0 <= i < |x.waits| ensures WaitIs(n + i + 1, rounds(n + i).draw, x.waits[i]) {
      if i > 0 {
        assert WaitIs(n + 1 + (i - 1) + 1, rounds(n + 1 + (i - 1)).draw, rest.waits[i - 1]);
      }
    }
  }

  lemma {:induction false} RenewIsDecided(rounds: nat -> Round, n: nat, k: nat)
    requires n <= 10 && FirstEnd(rounds, n, k)
    ensures DecidedBy(rounds, n, k, RenewFrom(rounds, n))
    decreases 10 - n
  {
    if n < k {
      assert !Ends(rounds(n));
      RenewIsDecided(rounds, n + 1, k);
      DecidedOn(rounds, n, k, RenewFrom(rounds, n + 1));
    } else if Exchanges(rounds, k) && !rounds(k).outcome.Delivered? {
      assert FailedOnce(n + 1, rounds(n).draw) == Join(FailedOnce(n + 1, rounds(n).draw), NOTHING);
    }
  }

  /**
   What a renewal does is decided by its first pass that delivers or is cancelled, and by the tenth if there is none:
   the store gets what that pass delivers, and nothing otherwise; exchanges, events and waits follow. Without a
   delivery and a cancellation there are exactly ten exchanges.
   */
  lemma RenewExactly(rounds: nat -> Round)
    ensures exists k :: FirstEnd(rounds, 0, k) && DecidedBy(rounds, 0, k, RenewFrom(rounds, 0))
    ensures (forall i: nat :: i < 10 ==> !Ends(rounds(i))) ==> RenewFrom(rounds, 0).exchanges == 10
  {
    var k := SomeFirstEnd(rounds, 0);
    RenewIsDecided(rounds, 0, k);
  }

  class Renewal {
    const store: Store
    var exchanges: nat
    var events: seq<Event>
    var waits: seq<int>

    constructor (store: Store)
      ensures this.store == store && exchanges == 0 && events == [] && waits == []
    {
      this.store, exchanges, events, waits := store, 0, [], [];
    }

    /** The credential an exchange delivers is an object of its own. */
    method Deliver(v: View) returns (c: Credential)
      ensures fresh(c) && c.values != null && fresh(c.values) && ViewOf(c) == v
    {
      var values := new Values();
      values.m := v.values;
      c := new Credential(values, v.meta);
    }

    /** The counters now read as `before` plus everything in `x`. */
    ghost predicate Advanced(e: nat, v: seq<Event>, w: seq<int>, x: Renewed)
      reads this
    {
      exchanges == e + x.exchanges && events == v + x.events && waits == w + x.waits
    }

    /** One failed pass: count it, report it, and wait. */
    method Fail(attempt: nat, draw: Draw)
      modifies this
      ensures Advanced(old(exchanges), old(events), old(waits), FailedOnce(attempt, draw))
    {
      exchanges := exchanges + 1;
      events := events + [RenewalFailed(attempt)];
      var delay := NhiBackoff(attempt, draw);
      waits := waits + [delay];
    }

    /** The pass that gets a credential: count it, store it, report it. */
    method Succeed(attempt: nat, v: View)
      requires store.Valid()
      modifies this, store, store.Owned()
      ensures store.Valid() && store.cred != null && ViewOf(store.cred) == v
      ensures Advanced(old(exchanges), old(events), old(waits), SucceededOnce(attempt, v))
    {
      exchanges := exchanges + 1;
      var cred := Deliver(v);
      store.Set(cred);
      events := events + [RenewalSucceeded(attempt, v.meta.target)];
    }

    /** The passes of the loop after `attempt` failures, up to the one that gets a credential, if any does. */
    method FailUntil(rounds: nat -> Round, attempt: nat) returns (n: nat, cred: Option<View>, ghost past: Renewed)
      requires attempt <= MAX_RENEWAL_ATTEMPTS
      modifies this
      ensures Advanced(old(exchanges), old(events), old(waits), past)
      ensures Splits(RenewFrom(rounds, attempt), past, if cred.Some? then SucceededOnce(n, cred.value) else NOTHING)
    {
      ghost var whole := RenewFrom(rounds, attempt);
      past := NOTHING;
      n := attempt;
      while true
        invariant n <= MAX_RENEWAL_ATTEMPTS
        invariant Advanced(old(exchanges), old(events), old(waits), past)
        invariant Splits(whole, past, RenewFrom(rounds, n))
        decreases MAX_RENEWAL_ATTEMPTS - n
      {
        var r := rounds(n);
        if r.cancelledAtCheck || n >= MAX_RENEWAL_ATTEMPTS {
          return n, None, past;
        }
        if r.outcome.Delivered? {
          return n, Some(r.outcome.cred), past;
        }
        n := n + 1;
        Fail(n, r.draw);
        ghost var here := FailedOnce(n, r.draw);
        SplitFurther(whole, past, here, if r.cancelledInWait then NOTHING else RenewFrom(rounds, n));
        AdvancedTwice(old(exchanges), old(events), old(waits), past, here);
        past := Join(past, here);
        if r.cancelledInWait {
          return n, None, past;
        }
      }
    }

    /** The loop, entered after `attempt` failures. */
    method RenewLoop(rounds: nat -> Round, attempt: nat)
      requires store.Valid() && attempt <= MAX_RENEWAL_ATTEMPTS
      modifies this, store, store.Owned()
      ensures store.Valid()
      ensures Advanced(old(exchanges), old(events), old(waits), RenewFrom(rounds, attempt))
      ensures RenewFrom(rounds, attempt).stored.None? ==> unchanged(store) && unchanged(old(store.Owned()))
      ensures RenewFrom(rounds, attempt).stored.Some? ==>
                store.cred != null && ViewOf(store.cred) == RenewFrom(rounds, attempt).stored.value
    {
      var n, cred, past := FailUntil(rounds, attempt);
      if cred.Some? {
        Succeed(n, cred.value);
        AdvancedTwice(old(exchanges), old(events), old(waits), past, SucceededOnce(n, cred.value));
      } else {
        Finished(RenewFrom(rounds, attempt), past);
      }
    }

    /** The store is written exactly when the renewal succeeds, and then holds what it delivered. */
    method Renew(rounds: nat -> Round)
      requires store.Valid()
      modifies this, store, store.Owned()
      ensures store.Valid()
      ensures Advanced(old(exchanges), old(events), old(waits), RenewFrom(rounds, 0))
      ensures RenewFrom(rounds, 0).stored.None? ==> unchanged(store) && unchanged(old(store.Owned()))
      ensures RenewFrom(rounds, 0).stored.Some? ==>
                store.cred != null && ViewOf(store.cred) == RenewFrom(rounds, 0).stored.value
    {
      RenewLoop(rounds, 0);
    }

    /** Advancing by `past` and then by `here` is advancing by both. */
    lemma AdvancedTwice(e: nat, v: seq<Event>, w: seq<int>, past: Renewed, here: Renewed)
      requires Advanced(e + past.exchanges, v + past.events, w + past.waits, here)
      ensures Advanced(e, v, w, Join(past, here))
    {
      assert v + past.events + here.events == v + (past.events + here.events);
      assert w + past.waits + here.waits == w + (past.waits + here.waits);
    }
  }

  lemma Finished(whole: Renewed, past: Renewed)
    requires Splits(whole, past, NOTHING)
    ensures whole == past.(stored := None)
  {
  }

  /** Of the renewal `whole`, the part `past` is done and `rest` is to come. */
  ghost predicate Splits(whole: Renewed, past: Renewed, rest: Renewed) {
    whole == Join(past, rest)
  }

  lemma SplitFurther(whole: Renewed, past: Renewed, here: Renewed, rest: Renewed)
    requires Splits(whole, past, Join(here, rest))
    ensures Splits(whole, Join(past, here), rest)
  {
    assert past.events + (here.events + rest.events) == past.events + here.events + rest.events;
    assert past.waits + (here.waits + rest.waits) == past.waits + here.waits + rest.waits;
  }
}
