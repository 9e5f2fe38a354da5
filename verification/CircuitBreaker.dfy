/**
 * The per-integration circuit breaker.  The clock is read by the caller: every method
 * that looks at it takes the time as an argument.
 */
module CircuitBreaker {
  import opened Common

  datatype Phase = Closed | Open | HalfOpen

  datatype Policy = Policy(threshold: nat, cooldown: real)

  datatype Breaker = Breaker(phase: Phase, failures: nat, openedAt: Option<real>)

  const FRESH := Breaker(Closed, 0, None)

  predicate Admits(b: Breaker, p: Policy, now: real) {
    b.phase.Open? ==> b.openedAt.Some? && now - b.openedAt.value >= p.cooldown
  }

  function Asked(b: Breaker, p: Policy, now: real): Breaker {
    if b.phase.Open? && Admits(b, p, now) then b.(phase := HalfOpen) else b
  }

  function Failed(b: Breaker, p: Policy, now: real): Breaker {
    if b.phase.HalfOpen? then Breaker(Open, b.failures, Some(now))
    else if b.failures + 1 >= p.threshold then Breaker(Open, b.failures + 1, Some(now))
    else b.(failures := b.failures + 1)
  }

  class CircuitBreaker {
    const failThreshold: nat
    const cooldownS: real
    var state: Phase
    var consecutiveFailures: nat
    var openedAt: Option<real>

    ghost function Model(): Breaker
      reads this
    {
      Breaker(state, consecutiveFailures, openedAt)
    }

    function Settings(): Policy { Policy(failThreshold, cooldownS) }

    constructor (failThreshold: int, cooldownS: real)
      ensures Model() == FRESH && this.failThreshold >= 1 && this.cooldownS == cooldownS
      ensures failThreshold >= 1 ==> this.failThreshold == failThreshold
    {
      this.failThreshold := if failThreshold < 1 then 1 else failThreshold;
      this.cooldownS := cooldownS;
      state, consecutiveFailures, openedAt := Closed, 0, None;
    }

    method Allow(now: real) returns (allowed: bool)
      modifies this
      ensures allowed == Admits(old(Model()), Settings(), now)
      ensures Model() == Asked(old(Model()), Settings(), now)
    {
      if state.Open? {
        if openedAt.Some? && now - openedAt.value >= cooldownS {
          state := HalfOpen;
          return true;
        }
        return false;
      }
      return true;
    }

    method RecordSuccess()
      modifies this
      ensures Model() == FRESH
    {
      consecutiveFailures := 0;
      openedAt := None;
      state := Closed;
    }

    method RecordFailure(now: real)
      modifies this
      ensures Model() == Failed(old(Model()), Settings(), now)
    {
      if state.HalfOpen? {
        OpenNow(now);
        return;
      }
      consecutiveFailures := consecutiveFailures + 1;
      if consecutiveFailures >= failThreshold {
        OpenNow(now);
      }
    }

    method OpenNow(now: real)
      modifies this`state, this`openedAt
      ensures Model() == Breaker(Open, consecutiveFailures, Some(now))
    {
      state := Open;
      openedAt := Some(now);
    }
  }

  // ---------- any use ----------

  datatype Event = Ask(now: real) | Success | Failure(now: real)

  function Next(b: Breaker, p: Policy, e: Event): Breaker {
    match e
    case Ask(now) => Asked(b, p, now)
    case Success => FRESH
    case Failure(now) => Failed(b, p, now)
  }

  function After(p: Policy, es: seq<Event>): Breaker {
    if es == [] then FRESH else Next(After(p, es[..|es| - 1]), p, es[|es| - 1])
  }

  /** Failures recorded since the last success. */
  function Streak(es: seq<Event>): nat {
    if es == [] then 0
    else match es[|es| - 1]
      case Ask(_) => Streak(es[..|es| - 1])
      case Success => 0
      case Failure(_) => Streak(es[..|es| - 1]) + 1
  }

  /** Whatever the callers do: closed means fewer failures than the threshold since the last success, open has a time. */
  lemma {:induction false} PhaseTellsStreak(p: Policy, es: seq<Event>)
    requires p.threshold >= 1
    ensures var b := After(p, es);
            && (b.phase.Closed? <==> Streak(es) < p.threshold)
            && (b.phase.Closed? ==> b.failures == Streak(es) && b.openedAt.None?)
            && (!b.phase.Closed? ==> b.failures >= p.threshold && b.openedAt.Some?)
  {
    if es != [] {
      PhaseTellsStreak(p, es[..|es| - 1]);
    }
  }

  /** When the last failure since the last success was recorded. */
  function LastFailure(es: seq<Event>): (r: Option<real>)
    ensures r.Some? <==> Streak(es) > 0
  {
    if es == [] then None
    else match es[|es| - 1]
      case Ask(_) => LastFailure(es[..|es| - 1])
      case Success => None
      case Failure(now) => Some(now)
  }

  /** Since the last failure someone has asked when the cooldown was over. */
  predicate ProbeIsOut(p: Policy, es: seq<Event>) {
    es != []
    && match es[|es| - 1]
       case Ask(now) =>
         ProbeIsOut(p, es[..|es| - 1])
         || (Streak(es[..|es| - 1]) > 0 && now - LastFailure(es[..|es| - 1]).value >= p.cooldown)
       case _ => false
  }

  lemma {:induction false} PhaseTellsHistory(p: Policy, es: seq<Event>)
    requires p.threshold >= 1
    ensures var b := After(p, es);
      && (b.phase.Open? <==> Streak(es) >= p.threshold && !ProbeIsOut(p, es))
      && (b.phase.HalfOpen? <==> Streak(es) >= p.threshold && ProbeIsOut(p, es))
      && (!b.phase.Closed? ==> b.openedAt == LastFailure(es))
  {
    PhaseTellsStreak(p, es);
    if es != [] {
      PhaseTellsHistory(p, es[..|es| - 1]);
      PhaseTellsStreak(p, es[..|es| - 1]);
    }
  }

  /**
   * After any history an ask is refused if and only if the upstream has failed at least `threshold`
   * times in a row, the cooldown since the last failure is not over, and nobody has asked since
   * that failure when it was.
   */
  lemma RefusedExactly(p: Policy, es: seq<Event>, now: real)
    requires p.threshold >= 1
    ensures !LetThrough(After(p, es), p, Ask(now)) <==>
      Streak(es) >= p.threshold && now - LastFailure(es).value < p.cooldown && !ProbeIsOut(p, es)
  {
    PhaseTellsHistory(p, es);
  }

  /** The event asks, and is let through. */
  predicate LetThrough(b: Breaker, p: Policy, e: Event) {
    e.Ask? && Admits(b, p, e.now)
  }

  /** How many of the events from i on, before the j-th, are calls let through. */
  function Passed(p: Policy, es: seq<Event>, i: nat, j: nat): nat
    requires j <= |es|
  {
    if j <= i then 0 else Passed(p, es, i, j - 1) + (if LetThrough(After(p, es[..j - 1]), p, es[j - 1]) then 1 else 0)
  }

  lemma AfterNext(p: Policy, es: seq<Event>, k: nat)
    requires k < |es|
    ensures After(p, es[..k + 1]) == Next(After(p, es[..k]), p, es[k])
  {
    assert es[..k + 1][..k] == es[..k];
  }

  /** Event i is the ask that half-opens the breaker, and up to event j no call reports a result. */
  predicate Probing(p: Policy, es: seq<Event>, i: nat, j: nat) {
    && i < j <= |es| && After(p, es[..i]).phase.Open? && LetThrough(After(p, es[..i]), p, es[i])
    && forall k :: i < k < j ==> es[k].Ask?
  }

  /**
   * Only an open breaker refuses: from the ask that half-opens it until the next result, every ask
   * is let through, so the one probe of the documentation goes alone exactly if the client asks
   * nothing more before it resolves.
   */
  lemma {:induction false} HalfOpenAdmitsEverything(p: Policy, es: seq<Event>, i: nat, j: nat)
    requires Probing(p, es, i, j)
    ensures After(p, es[..j]).phase.HalfOpen?
    ensures Passed(p, es, i, j) == j - i
    ensures Passed(p, es, i, j) <= 1 <==> j == i + 1
  {
    AfterNext(p, es, j - 1);
    if j == i + 1 {
      assert Passed(p, es, i, i) == 0;
    } else {
      HalfOpenAdmitsEverything(p, es, i, j - 1);
    }
  }

  // ---------- a client that asks again before it resolves ----------

  /** n calls, each let through and failing at once. */
  function FailingCalls(n: nat): seq<Event> {
    if n == 0 then [] else FailingCalls(n - 1) + [Ask(0.0)] + [Failure(0.0)]
  }

  lemma PassedSnoc(p: Policy, es: seq<Event>, e: Event)
    ensures After(p, es + [e]) == Next(After(p, es), p, e)
    ensures Passed(p, es + [e], 0, |es| + 1) == Passed(p, es, 0, |es|) + (if LetThrough(After(p, es), p, e) then 1 else 0)
  {
    assert (es + [e])[..|es|] == es;
    PassedPrefix(p, es, e, |es|);
  }

  lemma {:induction false} PassedPrefix(p: Policy, es: seq<Event>, e: Event, j: nat)
    requires j <= |es|
    ensures Passed(p, es + [e], 0, j) == Passed(p, es, 0, j)
  {
    if j > 0 {
      PassedPrefix(p, es, e, j - 1);
      assert (es + [e])[..j - 1] == es[..j - 1];
    }
  }

  /** The n-th failure at time zero, and not before, trips a breaker with threshold n. */
  lemma {:induction false} FailingCallsTrip(p: Policy, n: nat)
    requires p.threshold >= 1 && n <= p.threshold
    ensures Passed(p, FailingCalls(n), 0, |FailingCalls(n)|) == n
    ensures After(p, FailingCalls(n)) == if n < p.threshold then Breaker(Closed, n, None) else Breaker(Open, n, Some(0.0))
  {
    if n > 0 {
      FailingCallsTrip(p, n - 1);
      PassedSnoc(p, FailingCalls(n - 1), Ask(0.0));
      PassedSnoc(p, FailingCalls(n - 1) + [Ask(0.0)], Failure(0.0));
    }
  }

  /** The breaker trips at time zero; when the cooldown is over, n asks come before any of them is resolved. */
  function Herd(p: Policy, n: nat): seq<Event> {
    if n == 0 then FailingCalls(p.threshold) else Herd(p, n - 1) + [Ask(p.cooldown)]
  }

  /**
   * A concurrent client breaks the bound: from a fresh breaker, however short a time after the trip,
   * all n asks of the herd are let through, where a sequential client would get one.
   */
  lemma {:induction false} HerdBreaksTheBound(p: Policy, n: nat)
    requires p.threshold >= 1 && p.cooldown > 0.0
    ensures Passed(p, Herd(p, n), 0, |Herd(p, n)|) == p.threshold + n
    ensures n > 0 ==> After(p, Herd(p, n)).phase.HalfOpen?
    ensures n == 0 ==> After(p, Herd(p, n)) == Breaker(Open, p.threshold, Some(0.0))
    ensures n > 1 <==> Passed(p, Herd(p, n), 0, |Herd(p, n)|) > p.threshold + (p.cooldown / p.cooldown).Floor
  {
    assert p.cooldown / p.cooldown == 1.0;
    if n == 0 {
      FailingCallsTrip(p, p.threshold);
    } else {
      HerdBreaksTheBound(p, n - 1);
      PassedSnoc(p, Herd(p, n - 1), Ask(p.cooldown));
    }
  }

  // ---------- one call at a time against a dead upstream ----------

  /** The client asks at `ask`; if it is let through the call fails at `fail`. */
  datatype Attempt = Attempt(ask: real, fail: real)

  ghost predicate InTime(attempts: seq<Attempt>) {
    && (forall i :: 0 <= i < |attempts| ==> attempts[i].ask <= attempts[i].fail)
    && (forall i, j :: 0 <= i < j < |attempts| ==> attempts[i].fail <= attempts[j].ask)
  }

  function Tried(p: Policy, attempts: seq<Attempt>): Breaker {
    if attempts == [] then FRESH
    else
      var b, a := Tried(p, attempts[..|attempts| - 1]), attempts[|attempts| - 1];
      if Admits(b, p, a.ask) then Failed(Asked(b, p, a.ask), p, a.fail) else Asked(b, p, a.ask)
  }

  /** How many attempts were let through. */
  function Allowed(p: Policy, attempts: seq<Attempt>): nat {
    if attempts == [] then 0
    else
      var front := attempts[..|attempts| - 1];
      Allowed(p, front) + (if Admits(Tried(p, front), p, attempts[|attempts| - 1].ask) then 1 else 0)
  }

  /** When the call that trips the breaker, the threshold-th let through, failed. */
  function TripTime(p: Policy, attempts: seq<Attempt>): real
    requires p.threshold >= 1 && Allowed(p, attempts) >= p.threshold
  {
    var front := attempts[..|attempts| - 1];
    if Allowed(p, front) >= p.threshold then TripTime(p, front) else attempts[|attempts| - 1].fail
  }

  function Times(n: int, x: real): real { n as real * x }

  lemma TimesStep(n: int, x: real)
    ensures Times(n + 1, x) == Times(n, x) + x
  {
    assert (n + 1) as real == n as real + 1.0;
  }

  /** Every call let through after the trip waited out one more cooldown. */
  ghost predicate Spaced(p: Policy, attempts: seq<Attempt>)
    requires p.threshold >= 1
  {
    var b, k := Tried(p, attempts), Allowed(p, attempts);
    && (k < p.threshold ==> b == Breaker(Closed, k, None))
    && (k >= p.threshold ==>
          && b.phase.Open? && b.openedAt.Some?
          && b.openedAt.value >= TripTime(p, attempts) + Times(k - p.threshold, p.cooldown)
          && attempts != [] && b.openedAt.value <= attempts[|attempts| - 1].fail)
  }

  /** Up to the trip every call is let through. */
  lemma SpacedUntilTrip(p: Policy, attempts: seq<Attempt>)
    requires p.threshold >= 1 && attempts != [] && Spaced(p, attempts[..|attempts| - 1])
    requires Allowed(p, attempts[..|attempts| - 1]) < p.threshold
    ensures Spaced(p, attempts)
  {
    assert Times(0, p.cooldown) == 0.0;
  }

  lemma SpacedWhenAdmitted(p: Policy, attempts: seq<Attempt>)
    requires p.threshold >= 1 && attempts != [] && Spaced(p, attempts[..|attempts| - 1])
    requires Allowed(p, attempts[..|attempts| - 1]) >= p.threshold
    requires Admits(Tried(p, attempts[..|attempts| - 1]), p, attempts[|attempts| - 1].ask)
    requires attempts[|attempts| - 1].ask <= attempts[|attempts| - 1].fail
    ensures Spaced(p, attempts)
  {
    TimesStep(Allowed(p, attempts[..|attempts| - 1]) - p.threshold, p.cooldown);
  }

  lemma SpacedWhenRefused(p: Policy, attempts: seq<Attempt>)
    requires p.threshold >= 1 && InTime(attempts) && attempts != [] && Spaced(p, attempts[..|attempts| - 1])
    requires Allowed(p, attempts[..|attempts| - 1]) >= p.threshold
    requires !Admits(Tried(p, attempts[..|attempts| - 1]), p, attempts[|attempts| - 1].ask)
    ensures Spaced(p, attempts)
  {
    var front, a := attempts[..|attempts| - 1], attempts[|attempts| - 1];
    assert front[|front| - 1].fail <= a.ask <= a.fail;
  }

  /** Each call let through after the trip waited out one more cooldown. */
  lemma {:induction false} ProbesAreSpaced(p: Policy, attempts: seq<Attempt>)
    requires p.threshold >= 1 && InTime(attempts)
    ensures Spaced(p, attempts)
  {
    if attempts != [] {
      var front, a := attempts[..|attempts| - 1], attempts[|attempts| - 1];
      ProbesAreSpaced(p, front);
      if Allowed(p, front) < p.threshold {
        SpacedUntilTrip(p, attempts);
      } else if Admits(Tried(p, front), p, a.ask) {
        SpacedWhenAdmitted(p, attempts);
      } else {
        SpacedWhenRefused(p, attempts);
      }
    }
  }

  /**
   * A client that resolves each call before asking again: by time t an upstream that always fails
   * has seen at most `threshold` calls plus one per cooldown since the trip.
   */
  lemma LoadIsBounded(p: Policy, attempts: seq<Attempt>, t: real)
    requires p.threshold >= 1 && p.cooldown > 0.0 && InTime(attempts)
    requires forall i :: 0 <= i < |attempts| ==> attempts[i].ask <= t
    requires Allowed(p, attempts) >= p.threshold && t >= TripTime(p, attempts)
    ensures Allowed(p, attempts) <= p.threshold + ((t - TripTime(p, attempts)) / p.cooldown).Floor
  {
    LastProbeAsked(p, attempts, t);
    var m := Allowed(p, attempts) - p.threshold;
    DivideOut(m, p.cooldown, t - TripTime(p, attempts));
  }

  lemma DivideOut(m: int, c: real, d: real)
    requires c > 0.0 && Times(m, c) <= d
    ensures m <= (d / c).Floor
  {
    var q := d / c;
    assert q * c == d;
    assert m as real * c <= q * c;
    assert m as real <= q;
  }

  lemma {:induction false} LastProbeAsked(p: Policy, attempts: seq<Attempt>, t: real)
    requires p.threshold >= 1 && p.cooldown > 0.0 && InTime(attempts)
    requires forall i :: 0 <= i < |attempts| ==> attempts[i].ask <= t
    requires Allowed(p, attempts) >= p.threshold && t >= TripTime(p, attempts)
    ensures Times(Allowed(p, attempts) - p.threshold, p.cooldown) <= t - TripTime(p, attempts)
  {
    var front, a := attempts[..|attempts| - 1], attempts[|attempts| - 1];
    if Allowed(p, front) >= p.threshold {
      ProbesAreSpaced(p, front);
      TimesStep(Allowed(p, front) - p.threshold, p.cooldown);
      if !Admits(Tried(p, front), p, a.ask) {
        LastProbeAsked(p, front, t);
      }
    }
  }
}
