/**
 * The refresh protocol of the coverage cache: event kicks, one debounce timer, a
 * "run again" flag, refresh tasks queued on one lock, and the publish gate.
 *
 * An asyncio program runs one callback at a time, so a step is the code between
 * two await points.  Class `CoverageCache` has the fields of the Python class; each
 * of its methods is one step and is proved against `Next`.  The lemmas are about
 * runs of `Next`, for every interleaving of steps.
 */
module RefreshProtocol {
  import opened Common

  /** The arguments of one request; only its identity matters to the protocol. */
  datatype Args = Args(id: nat)

  datatype Health = Health(configured: bool, ok: bool)

  type Sources = map<string, Health>

  datatype Snapshot = Snapshot(sources: Sources, body: nat)

  /** How a build ends: it raised, or it produced a snapshot that the database accepted or not. */
  datatype Outcome = Raised | Built(snap: Snapshot, stored: bool)

  /** Who is inside the build lock. */
  datatype Holder = Free | TaskHolds(args: Args) | DirectHolds

  datatype State = State(
    refreshing: bool,
    pendingAgain: bool,
    pendingArgs: Option<Args>,
    timer: Option<real>,      // when the armed debounce timer is due
    lastDone: real,
    minInterval: real,
    queued: seq<Args>,        // started refresh tasks that have not taken the lock
    holder: Holder,
    holds: nat,
    cached: Option<Snapshot>)

  datatype Event =
    | Kick(args: Args, now: real, maxWait: Option<real>)
    | TimerFires
    | TaskTakesLock(i: nat)
    | DirectTakesLock
    | BuildEnds(now: real, outcome: Outcome)

  const MAX_CONSECUTIVE_HOLDS: nat := 3

  const CRITICAL_SOURCES: seq<string> := ["bazarr", "sonarr", "radarr"]

  // ---------- the publish gate ----------

  function HealthOf(sources: Sources, name: string): Health {
    if name in sources then sources[name] else Health(false, false)
  }

  predicate NewlyFailed(latest: Sources, cached: Sources, name: string) {
    HealthOf(latest, name).configured && !HealthOf(latest, name).ok && HealthOf(cached, name).ok
  }

  /** The names in `names` that failed in the new build and were healthy in the cached one. */
  function DegradedAmong(names: seq<string>, latest: Sources, cached: Sources): (out: seq<string>)
    ensures forall name :: name in out <==> name in names && NewlyFailed(latest, cached, name)
  {
    if names == [] then []
    else
      var front := DegradedAmong(names[..|names| - 1], latest, cached);
      if NewlyFailed(latest, cached, names[|names| - 1]) then front + [names[|names| - 1]] else front
  }

  method DegradedSources(latest: Sources, cached: Sources) returns (out: seq<string>)
    ensures out == DegradedAmong(CRITICAL_SOURCES, latest, cached)
    ensures forall name :: name in out <==> name in CRITICAL_SOURCES && NewlyFailed(latest, cached, name)
  {
    out := [];
    for i := 0 to |CRITICAL_SOURCES|
      invariant out == DegradedAmong(CRITICAL_SOURCES[..i], latest, cached)
    {
      var name := CRITICAL_SOURCES[i];
      assert CRITICAL_SOURCES[..i + 1][..i] == CRITICAL_SOURCES[..i];
      var n := HealthOf(latest, name);
      var c := HealthOf(cached, name);
      if n.configured && !n.ok && c.ok {
        out := out + [name];
      }
    }
    assert CRITICAL_SOURCES[..|CRITICAL_SOURCES|] == CRITICAL_SOURCES;
  }

  /** The snapshot is withheld: a critical source got worse and holds are left. */
  predicate HeldBack(s: State, outcome: Outcome) {
    && outcome.Built?
    && s.cached.Some?
    && DegradedAmong(CRITICAL_SOURCES, outcome.snap.sources, s.cached.value.sources) != []
    && s.holds < MAX_CONSECUTIVE_HOLDS
  }

  predicate PassesGate(s: State, outcome: Outcome) {
    outcome.Built? && !HeldBack(s, outcome)
  }

  function Gate(s: State, outcome: Outcome): State {
    if outcome.Raised? then s
    else if HeldBack(s, outcome) then s.(holds := s.holds + 1)
    else s.(holds := 0, cached := if outcome.stored then Some(outcome.snap) else s.cached)
  }

  // ---------- one step ----------

  function Max0(x: real): real { if x < 0.0 then 0.0 else x }

  function Min(x: real, y: real): real { if x <= y then x else y }

  /** Seconds until the minimum interval since the last build has passed. */
  function TimeUntilAllowed(s: State, now: real): real {
    if s.minInterval <= 0.0 || s.lastDone == 0.0 then 0.0
    else Max0(s.minInterval - (now - s.lastDone))
  }

  function Kicked(s: State, args: Args, now: real, maxWait: Option<real>): State {
    var s := s.(pendingArgs := Some(args));
    if s.refreshing then s.(pendingAgain := true)
    else if s.timer.Some? then
      if maxWait.Some? && s.timer.value - now > maxWait.value then s.(timer := Some(now + Max0(maxWait.value)))
      else s
    else
      var wait := TimeUntilAllowed(s, now);
      var wait := if maxWait.Some? then Min(wait, Max0(maxWait.value)) else wait;
      if wait <= 0.0 then s.(queued := s.queued + [args]) else s.(timer := Some(now + wait))
  }

  function Fired(s: State): State {
    var s := s.(timer := None);
    if s.refreshing then s.(pendingAgain := true)
    else if s.pendingArgs.Some? then s.(queued := s.queued + [s.pendingArgs.value])
    else s
  }

  function Ended(s: State, now: real, outcome: Outcome): State {
    var task := s.holder.TaskHolds?;
    var s := Gate(s, outcome).(refreshing := false, lastDone := now, holder := Free);
    if task && s.pendingAgain then
      var s := s.(pendingAgain := false);
      if s.pendingArgs.Some? then s.(queued := s.queued + [s.pendingArgs.value]) else s
    else s
  }

  predicate Enabled(s: State, e: Event) {
    match e
    case Kick(_, _, _) => true
    case TimerFires => s.timer.Some?
    case TaskTakesLock(i) => i < |s.queued| && s.holder.Free?
    case DirectTakesLock => s.holder.Free?
    case BuildEnds(_, _) => !s.holder.Free?
  }

  function Next(s: State, e: Event): State
    requires Enabled(s, e)
  {
    match e
    case Kick(args, now, maxWait) => Kicked(s, args, now, maxWait)
    case TimerFires => Fired(s)
    case TaskTakesLock(i) =>
      s.(refreshing := true, holder := TaskHolds(s.queued[i]), queued := s.queued[..i] + s.queued[i + 1..])
    case DirectTakesLock => s.(refreshing := true, holder := DirectHolds)
    case BuildEnds(now, outcome) => Ended(s, now, outcome)
  }

  /** A follow-up build or the debounce timer is outstanding. */
  predicate Pending(s: State) { s.pendingAgain || s.timer.Some? }

  // ---------- the class ----------

  class CoverageCache {
    var refreshing: bool
    var pendingAgain: bool
    var pendingArgs: Option<Args>
    var debounceHandle: Option<real>
    var lastRefreshDone: real
    var minIntervalS: real
    var consecutiveHolds: nat
    var cached: Option<Snapshot>
    var refreshTasks: seq<Args>  // created by ensure_future, still waiting for the lock
    var refreshLock: Holder

    ghost function Model(): State
      reads this
    {
      State(refreshing, pendingAgain, pendingArgs, debounceHandle, lastRefreshDone, minIntervalS,
            refreshTasks, refreshLock, consecutiveHolds, cached)
    }

    constructor (minIntervalS: real, loaded: Option<Snapshot>)
      ensures Model() == Init(minIntervalS, loaded)
    {
      refreshing, pendingAgain, pendingArgs, debounceHandle := false, false, None, None;
      lastRefreshDone, this.minIntervalS, consecutiveHolds := 0.0, minIntervalS, 0;
      cached, refreshTasks, refreshLock := loaded, [], Free;
    }

    method HasPendingRefresh() returns (pending: bool)
      ensures pending <==> pendingAgain || debounceHandle.Some?
    {
      pending := pendingAgain || debounceHandle.Some?;
    }

    method StartRefreshTask(args: Args)
      modifies this`refreshTasks
      ensures Model() == old(Model()).(queued := old(refreshTasks) + [args])
    {
      refreshTasks := refreshTasks + [args];
    }

    method RequestRefresh(args: Args, now: real, maxWait: Option<real>)
      modifies this
      ensures Model() == Next(old(Model()), Kick(args, now, maxWait))
    {
      pendingArgs := Some(args);
      if refreshing {
        pendingAgain := true;
        return;
      }
      if debounceHandle.Some? {
        if maxWait.Some? && debounceHandle.value - now > maxWait.value {
          debounceHandle := Some(now + Max0(maxWait.value));
        }
        return;
      }
      var wait := 0.0;
      if !(minIntervalS <= 0.0 || lastRefreshDone == 0.0) {
        var elapsed := now - lastRefreshDone;
        wait := Max0(minIntervalS - elapsed);
      }
      if maxWait.Some? {
        wait := Min(wait, Max0(maxWait.value));
      }
      if wait <= 0.0 {
        StartRefreshTask(args);
      } else {
        debounceHandle := Some(now + wait);
      }
    }

    method FireDebounced()
      requires debounceHandle.Some?
      modifies this
      ensures Model() == Next(old(Model()), TimerFires)
    {
      debounceHandle := None;
      if refreshing {
        pendingAgain := true;
        return;
      }
      if pendingArgs.Some? {
        StartRefreshTask(pendingArgs.value);
      }
    }

    /** A waiting refresh task enters `async with self._refresh_lock`. */
    method TaskTakesRefreshLock(i: nat)
      requires i < |refreshTasks| && refreshLock.Free?
      modifies this
      ensures Model() == Next(old(Model()), Event.TaskTakesLock(i))
    {
      refreshLock := TaskHolds(refreshTasks[i]);
      refreshTasks := refreshTasks[..i] + refreshTasks[i + 1..];
      refreshing := true;
    }

    /** A direct caller of `refresh()` (boot warm, periodic tick, ?fresh=true) enters the lock. */
    method DirectTakesRefreshLock()
      requires refreshLock.Free?
      modifies this
      ensures Model() == Next(old(Model()), Event.DirectTakesLock)
    {
      refreshLock := DirectHolds;
      refreshing := true;
    }

    /** The tail of `refresh()`: the gate, the `finally`, the lock release and, for a task, its own `finally`. */
    method EndBuild(now: real, outcome: Outcome)
      requires !refreshLock.Free?
      modifies this
      ensures Model() == Next(old(Model()), BuildEnds(now, outcome))
    {
      if outcome.Built? {
        var held := [];
        if cached.Some? {
          held := DegradedSources(outcome.snap.sources, cached.value.sources);
        }
        if held != [] && cached.Some? && consecutiveHolds < MAX_CONSECUTIVE_HOLDS {
          consecutiveHolds := consecutiveHolds + 1;
        } else {
          consecutiveHolds := 0;
          if outcome.stored {
            cached := Some(outcome.snap);
          }
        }
      }
      refreshing := false;
      lastRefreshDone := now;
      var task := refreshLock.TaskHolds?;
      refreshLock := Free;
      if task && pendingAgain {
        pendingAgain := false;
        if pendingArgs.Some? {
          StartRefreshTask(pendingArgs.value);
        }
      }
    }
  }

  // ---------- runs ----------

  function Init(minInterval: real, loaded: Option<Snapshot>): State {
    State(false, false, None, None, 0.0, minInterval, [], Free, 0, loaded)
  }

  function Front(es: seq<Event>): seq<Event>
    requires es != []
  {
    es[..|es| - 1]
  }

  function Last(es: seq<Event>): Event
    requires es != []
  {
    es[|es| - 1]
  }

  ghost predicate IsRun(s: State, es: seq<Event>)
    decreases |es|, 0
  {
    es == [] || (IsRun(s, Front(es)) && Enabled(After(s, Front(es)), Last(es)))
  }

  /** The state a run ends in. */
  ghost function After(s: State, es: seq<Event>): State
    requires IsRun(s, es)
    decreases |es|, 1
  {
    if es == [] then s else Next(After(s, Front(es)), Last(es))
  }

  lemma {:induction false} PrefixIsRun(s: State, es: seq<Event>, i: nat)
    requires IsRun(s, es) && i <= |es|
    ensures IsRun(s, es[..i])
  {
    if i == |es| {
      assert es[..i] == es;
    } else {
      PrefixIsRun(s, Front(es), i);
      assert Front(es)[..i] == es[..i];
    }
  }

  predicate Starts(e: Event) { e.TaskTakesLock? || e.DirectTakesLock? }

  ghost predicate NoStartAfter(es: seq<Event>, i: nat) {
    forall j :: i < j < |es| ==> !Starts(es[j])
  }

  /** What every step keeps. */
  ghost predicate Inv(s: State) {
    && (s.refreshing <==> !s.holder.Free?)
    && (s.timer.Some? || s.pendingAgain || s.queued != [] || s.holder.TaskHolds? ==> s.pendingArgs.Some?)
    && s.holds <= MAX_CONSECUTIVE_HOLDS
  }

  /** The build lock and the flag never disagree, and holds are bounded, in every reachable state. */
  lemma {:induction false} RunKeepsInv(s: State, es: seq<Event>)
    requires Inv(s) && IsRun(s, es)
    ensures Inv(After(s, es))
  {
    if es != [] {
      RunKeepsInv(s, Front(es));
    }
  }

  // ---------- no kick is lost ----------

  /** Some mechanism is still going to start a build. */
  predicate Carried(s: State) { s.timer.Some? || s.pendingAgain || s.queued != [] }

  /** A kick that no build has followed is carried by the timer, the flag or a queued task. */
  lemma {:induction false} NoKickLost(s: State, es: seq<Event>, i: nat)
    requires Inv(s) && IsRun(s, es)
    requires i < |es| && es[i].Kick? && NoStartAfter(es, i)
    ensures Carried(After(s, es))
  {
    RunKeepsInv(s, Front(es));
    if i < |es| - 1 {
      assert NoStartAfter(Front(es), i);
      NoKickLost(s, Front(es), i);
      assert !Starts(Last(es));
    }
  }

  /** A kick that arrives between builds waits on the timer or in the task queue, and the lock stays free. */
  lemma {:induction false} KickBetweenBuildsWaits(s: State, es: seq<Event>, i: nat)
    requires Inv(s) && IsRun(s, es)
    requires i < |es| && es[i].Kick? && NoStartAfter(es, i)
    requires IsRun(s, es[..i]) && After(s, es[..i]).holder.Free?
    ensures After(s, es).holder.Free? && (After(s, es).timer.Some? || After(s, es).queued != [])
  {
    RunKeepsInv(s, Front(es));
    if i == |es| - 1 {
      assert es[..i] == Front(es);
    } else {
      assert NoStartAfter(Front(es), i);
      assert Front(es)[..i] == es[..i];
      KickBetweenBuildsWaits(s, Front(es), i);
      assert !Starts(Last(es));
    }
  }

  /** A kick during a task-started build is picked up by that build's own end. */
  lemma {:induction false} KickDuringTaskBuildWaits(s: State, es: seq<Event>, i: nat)
    requires Inv(s) && IsRun(s, es)
    requires i < |es| && es[i].Kick? && NoStartAfter(es, i)
    requires IsRun(s, es[..i]) && After(s, es[..i]).holder.TaskHolds?
    ensures var s' := After(s, es);
            (s'.holder.TaskHolds? && s'.pendingAgain) || (s'.holder.Free? && s'.queued != [])
  {
    RunKeepsInv(s, Front(es));
    if i == |es| - 1 {
      assert es[..i] == Front(es);
    } else {
      assert NoStartAfter(Front(es), i);
      assert Front(es)[..i] == es[..i];
      KickDuringTaskBuildWaits(s, Front(es), i);
      assert !Starts(Last(es));
    }
  }

  /**
   * What `has_pending_refresh` tells a caller: when nothing is pending, every kick so far has been
   * followed by a build that began after it, or a started task is about to begin one.
   */
  lemma NothingPendingMeansServed(s: State, es: seq<Event>)
    requires Inv(s) && IsRun(s, es) && !Pending(After(s, es))
    ensures After(s, es).queued == [] ==> forall i :: 0 <= i < |es| && es[i].Kick? ==> Served(es, i)
  {
    if After(s, es).queued == [] {
      forall i | 0 <= i < |es| && es[i].Kick? ensures Served(es, i) {
        if NoStartAfter(es, i) {
          NoKickLost(s, es, i);
        }
      }
    }
  }

  predicate Idle(s: State) { s.holder.Free? && s.queued == [] && s.timer.None? }

  ghost predicate Served(es: seq<Event>, i: nat) {
    exists j :: i < j < |es| && Starts(es[j])
  }

  /** A direct build was the last to begin, and a kick came after it had. */
  ghost predicate KickAfterLastDirectStart(s: State, es: seq<Event>) {
    || (exists j :: 0 <= j < |es| && es[j].DirectTakesLock? && NoStartAfter(es, j) && KickFrom(es, j + 1))
    || (s.holder.DirectHolds? && (forall j :: 0 <= j < |es| ==> !Starts(es[j])) && KickFrom(es, 0))
  }

  ghost predicate KickFrom(es: seq<Event>, i: nat) {
    exists k :: i <= k < |es| && es[k].Kick?
  }

  /** While a direct build runs, it is the last build that began. */
  lemma {:induction false} DirectBuildBegan(s: State, es: seq<Event>)
    requires IsRun(s, es) && After(s, es).holder.DirectHolds?
    ensures (exists j :: 0 <= j < |es| && es[j].DirectTakesLock? && NoStartAfter(es, j))
         || (s.holder.DirectHolds? && forall j :: 0 <= j < |es| ==> !Starts(es[j]))
  {
    if es != [] {
      if Last(es).DirectTakesLock? {
        assert NoStartAfter(es, |es| - 1);
      } else {
        DirectBuildBegan(s, Front(es));
        if j :| 0 <= j < |Front(es)| && Front(es)[j].DirectTakesLock? && NoStartAfter(Front(es), j) {
          forall k | j < k < |es| ensures !Starts(es[k]) {
            assert k < |Front(es)| ==> es[k] == Front(es)[k];
          }
          assert es[j] == Front(es)[j] && NoStartAfter(es, j);
        } else {
          forall k | 0 <= k < |es| ensures !Starts(es[k]) {
            assert k < |Front(es)| ==> es[k] == Front(es)[k];
          }
        }
      }
    }
  }

  lemma UnservedAtRestMetDirectBuild(s: State, es: seq<Event>, i: nat)
    requires Inv(s) && IsRun(s, es) && Idle(After(s, es))
    requires i < |es| && es[i].Kick? && NoStartAfter(es, i)
    ensures KickAfterLastDirectStart(s, es)
  {
    PrefixIsRun(s, es, i);
    var h := After(s, es[..i]).holder;
    if h.Free? {
      KickBetweenBuildsWaits(s, es, i);
    } else if h.TaskHolds? {
      KickDuringTaskBuildWaits(s, es, i);
    } else {
      DirectBuildBegan(s, es[..i]);
      if j :| 0 <= j < i && es[..i][j].DirectTakesLock? && NoStartAfter(es[..i], j) {
        forall k | j < k < |es| ensures !Starts(es[k]) {
          assert k < i ==> es[..i][k] == es[k];
        }
        assert es[j].DirectTakesLock? && NoStartAfter(es, j) && KickFrom(es, j + 1);
      } else {
        forall k | 0 <= k < |es| ensures !Starts(es[k]) {
          assert k < i ==> es[..i][k] == es[k];
        }
        assert KickFrom(es, 0);
      }
    }
  }

  /**
   * When the protocol has come to rest, every kick has been followed by a build that began after
   * it, exactly unless the last build to begin was a direct one and a kick came after it began.
   */
  lemma IdleServesEveryKick(s: State, es: seq<Event>)
    requires Inv(s) && IsRun(s, es) && Idle(After(s, es))
    ensures (forall i :: 0 <= i < |es| && es[i].Kick? ==> Served(es, i)) <==> !KickAfterLastDirectStart(s, es)
  {
    forall i | 0 <= i < |es| && es[i].Kick? && !Served(es, i) ensures KickAfterLastDirectStart(s, es) {
      assert NoStartAfter(es, i);
      UnservedAtRestMetDirectBuild(s, es, i);
    }
    if KickAfterLastDirectStart(s, es) {
      if j :| 0 <= j < |es| && es[j].DirectTakesLock? && NoStartAfter(es, j) && KickFrom(es, j + 1) {
        var k :| j + 1 <= k < |es| && es[k].Kick?;
        assert !Served(es, k);
      } else {
        var k :| 0 <= k < |es| && es[k].Kick?;
        assert !Served(es, k);
      }
    }
  }

  /** No direct build, nothing armed or running: nothing was lost. */
  lemma TaskBuildsServeEveryKick(s: State, es: seq<Event>, i: nat)
    requires Inv(s) && !s.holder.DirectHolds? && IsRun(s, es) && Idle(After(s, es))
    requires forall j :: 0 <= j < |es| ==> !es[j].DirectTakesLock?
    requires i < |es| && es[i].Kick?
    ensures Served(es, i)
  {
    IdleServesEveryKick(s, es);
  }

  /** A direct build does not drain the flag: this kick is left with nothing to serve it. */
  lemma DirectBuildStrandsKick(loaded: Option<Snapshot>)
    ensures var s := Init(120.0, loaded);
            var es := [DirectTakesLock, Kick(Args(0), 5.0, None), BuildEnds(9.0, Raised)];
            IsRun(s, es) && Idle(After(s, es)) && After(s, es).pendingAgain && !Served(es, 1)
  {
    var s := Init(120.0, loaded);
    var es := [DirectTakesLock, Kick(Args(0), 5.0, None), BuildEnds(9.0, Raised)];
    assert Front(es) == [DirectTakesLock, Kick(Args(0), 5.0, None)];
    assert Front(Front(es)) == [DirectTakesLock];
    assert Front(Front(Front(es))) == [];
    assert IsRun(s, Front(Front(es)));
    assert IsRun(s, Front(es));
  }

  // ---------- the newest request wins ----------

  ghost predicate BuiltWith(s: State, es: seq<Event>, j: nat, args: Args)
    requires j < |es|
  {
    && IsRun(s, es[..j]) && es[j].TaskTakesLock?
    && es[j].i < |After(s, es[..j]).queued| && After(s, es[..j]).queued[es[j].i] == args
  }

  /** The newest request's own arguments have reached a build, or are still carried towards one. */
  lemma {:induction false} NewestArgsCarried(s: State, es: seq<Event>, i: nat)
    requires Inv(s) && IsRun(s, es)
    requires i < |es| && es[i].Kick?
    requires forall j :: i < j < |es| ==> !es[j].Kick?
    ensures var s' := After(s, es);
            || (exists j :: i < j < |es| && BuiltWith(s, es, j, es[i].args))
            || es[i].args in s'.queued
            || ((s'.timer.Some? || s'.pendingAgain) && s'.pendingArgs == Some(es[i].args))
    ensures After(s, es).pendingArgs == Some(es[i].args)
  {
    RunKeepsInv(s, Front(es));
    if i < |es| - 1 {
      NewestArgsCarried(s, Front(es), i);
      assert !Last(es).Kick?;
      var t := After(s, Front(es));
      if j :| i < j < |Front(es)| && BuiltWith(s, Front(es), j, es[i].args) {
        assert Front(es)[..j] == es[..j];
        assert BuiltWith(s, es, j, es[i].args);
      } else if Last(es).TaskTakesLock? && es[i].args in t.queued && t.queued[Last(es).i] == es[i].args {
        assert es[..|es| - 1] == Front(es);
        assert BuiltWith(s, es, |es| - 1, es[i].args);
      } else if Last(es).TaskTakesLock? && es[i].args in t.queued {
        var k :| 0 <= k < |t.queued| && t.queued[k] == es[i].args;
        var q := After(s, es).queued;
        assert k < Last(es).i ==> q[k] == es[i].args;
        assert k > Last(es).i ==> q[k - 1] == es[i].args;
      }
    }
  }

  // ---------- kicks pay for tasks ----------

  function Kicks(es: seq<Event>): nat {
    if es == [] then 0 else Kicks(Front(es)) + (if Last(es).Kick? then 1 else 0)
  }

  /** Refresh tasks started during a run: those taken by the lock plus the growth of the queue. */
  function Taken(es: seq<Event>): nat {
    if es == [] then 0 else Taken(Front(es)) + (if Last(es).TaskTakesLock? then 1 else 0)
  }

  function Bit(b: bool): nat { if b then 1 else 0 }

  /** Every started task, the armed timer and the flag are paid for by distinct kicks. */
  lemma {:induction false} KicksPayForTasks(minInterval: real, loaded: Option<Snapshot>, es: seq<Event>)
    requires IsRun(Init(minInterval, loaded), es)
    ensures var s := After(Init(minInterval, loaded), es);
            Taken(es) + |s.queued| + Bit(s.timer.Some?) + Bit(s.pendingAgain) <= Kicks(es)
  {
    if es != [] {
      KicksPayForTasks(minInterval, loaded, Front(es));
    }
  }

  /** However many kicks arrive during one task-started build, its end starts one task, with the last kick's arguments. */
  lemma {:induction false} BurstStartsOneFollowUp(s: State, es: seq<Event>, i: nat, now: real, outcome: Outcome)
    requires Inv(s) && s.holder.TaskHolds? && IsRun(s, es)
    requires forall j :: 0 <= j < |es| ==> es[j].Kick? || es[j].TimerFires?
    requires i < |es| && es[i].Kick? && forall j :: i < j < |es| ==> !es[j].Kick?
    ensures Enabled(After(s, es), BuildEnds(now, outcome))
    ensures Next(After(s, es), BuildEnds(now, outcome)).queued == s.queued + [es[i].args]
    ensures !Next(After(s, es), BuildEnds(now, outcome)).pendingAgain
  {
    BurstOnlyRaisesFlag(s, es);
    BurstOnlyRaisesFlag(s, es[..i + 1]) by { PrefixIsRun(s, es, i + 1); }
    NewestArgsCarried(s, es, i);
    FlagAfterKick(s, es, i);
  }

  lemma {:induction false} BurstOnlyRaisesFlag(s: State, es: seq<Event>)
    requires Inv(s) && s.holder.TaskHolds? && IsRun(s, es)
    requires forall j :: 0 <= j < |es| ==> es[j].Kick? || es[j].TimerFires?
    ensures After(s, es).holder == s.holder && After(s, es).queued == s.queued
    ensures After(s, es).refreshing && (s.pendingAgain ==> After(s, es).pendingAgain)
  {
    if es != [] {
      BurstOnlyRaisesFlag(s, Front(es));
      assert Last(es).Kick? || Last(es).TimerFires?;
    }
  }

  lemma {:induction false} FlagAfterKick(s: State, es: seq<Event>, i: nat)
    requires Inv(s) && s.holder.TaskHolds? && IsRun(s, es)
    requires forall j :: 0 <= j < |es| ==> es[j].Kick? || es[j].TimerFires?
    requires i < |es| && es[i].Kick?
    ensures After(s, es).pendingAgain
  {
    BurstOnlyRaisesFlag(s, Front(es));
    if i < |es| - 1 {
      FlagAfterKick(s, Front(es), i);
      assert Last(es).Kick? || Last(es).TimerFires?;
    }
  }

  /** The timer does not fire; nor does a kick with a negative limit come when it should have. */
  predicate LetsTimerWait(s: State, e: Event) {
    && !e.TimerFires?
    && (e.Kick? && e.maxWait.Some? && e.maxWait.value < 0.0 && s.timer.Some? ==> e.now <= s.timer.value)
  }

  ghost predicate TimerWaits(s: State, es: seq<Event>)
    requires IsRun(s, es)
  {
    forall j :: 0 <= j < |es| && IsRun(s, es[..j]) ==> LetsTimerWait(After(s, es[..j]), es[j])
  }

  lemma TimerWaitsFront(s: State, es: seq<Event>)
    requires IsRun(s, es) && es != [] && TimerWaits(s, es)
    ensures TimerWaits(s, Front(es)) && LetsTimerWait(After(s, Front(es)), Last(es))
  {
    assert es[..|es| - 1] == Front(es);
    forall j | 0 <= j < |Front(es)| && IsRun(s, Front(es)[..j])
      ensures LetsTimerWait(After(s, Front(es)[..j]), Front(es)[j])
    {
      assert Front(es)[..j] == es[..j];
    }
  }

  /** Event j is a kick that comes while no build holds the lock and gives a limit that ends by `due`. */
  ghost predicate AsksBy(s: State, es: seq<Event>, j: nat, due: real) {
    && j < |es| && IsRun(s, es[..j]) && !After(s, es[..j]).refreshing
    && es[j].Kick? && es[j].maxWait.Some? && es[j].now + Max0(es[j].maxWait.value) <= due
  }

  lemma AsksBySnoc(s: State, es: seq<Event>, due: real)
    requires IsRun(s, es) && es != []
    ensures (exists j: nat :: AsksBy(s, es, j, due)) <==>
      (exists j: nat :: AsksBy(s, Front(es), j, due)) || AsksBy(s, es, |es| - 1, due)
  {
    if j: nat :| AsksBy(s, Front(es), j, due) {
      assert Front(es)[..j] == es[..j];
      assert AsksBy(s, es, j, due);
    }
    if j: nat :| AsksBy(s, es, j, due) && j < |es| - 1 {
      assert Front(es)[..j] == es[..j];
      assert AsksBy(s, Front(es), j, due);
    }
  }

  lemma DueStep(s: State, e: Event, due: real)
    requires Enabled(s, e) && s.timer.Some? && LetsTimerWait(s, e)
    ensures Next(s, e).timer.Some?
    ensures Next(s, e).timer.value <= due <==>
      s.timer.value <= due
      || (!s.refreshing && e.Kick? && e.maxWait.Some? && e.now + Max0(e.maxWait.value) <= due)
  {
  }

  /**
   * Until the timer fires it stays armed, through builds and kicks alike, and it is due by a given
   * time if and only if it was at first or a kick that came while no build held the lock asked for
   * it.  So such a kick's limit is kept, no kick delays the timer, and the limit of a kick during a
   * build counts for nothing.
   */
  lemma {:induction false} KickMeetsItsDeadline(s: State, es: seq<Event>, due: real)
    requires s.timer.Some? && IsRun(s, es) && TimerWaits(s, es)
    ensures After(s, es).timer.Some?
    ensures After(s, es).timer.value <= due <==> s.timer.value <= due || exists j: nat :: AsksBy(s, es, j, due)
  {
    if es != [] {
      TimerWaitsFront(s, es);
      KickMeetsItsDeadline(s, Front(es), due);
      DueStep(After(s, Front(es)), Last(es), due);
      AsksBySnoc(s, es, due);
      assert es[..|es| - 1] == Front(es);
    }
  }

  /** Kicks alone, while no build runs and the timer waits, start nothing. */
  lemma {:induction false} KicksWaitForTimer(s: State, es: seq<Event>)
    requires !s.refreshing && s.timer.Some? && IsRun(s, es) && TimerWaits(s, es)
    requires forall j :: 0 <= j < |es| ==> es[j].Kick?
    ensures var s' := After(s, es); !s'.refreshing && s'.queued == s.queued && s'.timer.Some?
  {
    if es != [] {
      TimerWaitsFront(s, es);
      KicksWaitForTimer(s, Front(es));
      assert Last(es).Kick?;
    }
  }

  lemma OneMore(s: State, es: seq<Event>, e: Event) returns (more: seq<Event>)
    requires IsRun(s, es) && Enabled(After(s, es), e)
    ensures more == es + [e] && IsRun(s, more) && After(s, more) == Next(After(s, es), e)
  {
    more := es + [e];
    assert Front(more) == es;
  }

  /** A kick during a direct build: its limit of 5 seconds is ignored, and after the build nothing runs until 130. */
  lemma LimitIgnoredDuringBuild(s: State, a: Args, b: Args, outcome: Outcome)
    requires Inv(s) && Idle(s) && !s.pendingAgain && s.minInterval == 120.0 && s.lastDone == 10.0
    ensures var es := [Kick(a, 20.0, None), DirectTakesLock, Kick(b, 30.0, Some(5.0)), BuildEnds(40.0, outcome)];
      && IsRun(s, es)
      && var s' := After(s, es);
         s'.holder.Free? && s'.queued == [] && s'.pendingAgain && s'.timer == Some(130.0)
  {
    var es: seq<Event> := [];
    es := OneMore(s, es, Kick(a, 20.0, None));
    es := OneMore(s, es, DirectTakesLock);
    es := OneMore(s, es, Kick(b, 30.0, Some(5.0)));
    es := OneMore(s, es, BuildEnds(40.0, outcome));
    assert es == [Kick(a, 20.0, None), DirectTakesLock, Kick(b, 30.0, Some(5.0)), BuildEnds(40.0, outcome)];
  }

  /** The kick that finds no timer starts a task at once or arms one due within its limit, no earlier than the interval asks. */
  lemma KickArmsInTime(s: State, args: Args, now: real, maxWait: Option<real>)
    requires Inv(s) && !s.refreshing && s.timer.None?
    ensures var s' := Next(s, Kick(args, now, maxWait));
            && (s'.timer.Some? || s'.queued == s.queued + [args])
            && (maxWait.Some? && s'.timer.Some? ==> s'.timer.value <= now + Max0(maxWait.value))
            && (maxWait.None? ==>
                  (s'.timer.None? <==> s.minInterval <= 0.0 || s.lastDone == 0.0 || now - s.lastDone >= s.minInterval))
            && (maxWait.None? && s'.timer.Some? ==> s'.timer.value == s.lastDone + s.minInterval)
  {
  }

  /** When the last build of the run ended, if one has. */
  function LastEnd(es: seq<Event>): Option<real> {
    if es == [] then None
    else if Last(es).BuildEnds? then Some(Last(es).now)
    else LastEnd(Front(es))
  }

  /** The cache knows when the last build ended, and keeps its interval. */
  lemma {:induction false} LastEndIsKnown(minInterval: real, loaded: Option<Snapshot>, es: seq<Event>)
    requires IsRun(Init(minInterval, loaded), es)
    ensures var s := After(Init(minInterval, loaded), es);
      && s.minInterval == minInterval
      && s.lastDone == (if LastEnd(es).Some? then LastEnd(es).value else 0.0)
      && Inv(s)
  {
    RunKeepsInv(Init(minInterval, loaded), es);
    if es != [] {
      LastEndIsKnown(minInterval, loaded, Front(es));
    }
  }

  /** The interval runs, counted from the end of the last build; a build that ended at time zero counts for none. */
  predicate IntervalRuns(es: seq<Event>, minInterval: real, now: real) {
    minInterval > 0.0 && LastEnd(es).Some? && LastEnd(es).value != 0.0 && now - LastEnd(es).value < minInterval
  }

  /**
   * In every run: a kick that finds no build, no timer and no interval running starts a task at
   * once; while the interval runs it starts none, unless it cannot wait, but arms the timer for the
   * end of the interval or of its own limit, whichever is first.
   */
  lemma KicksKeepTheInterval(minInterval: real, loaded: Option<Snapshot>, es: seq<Event>,
                             args: Args, now: real, maxWait: Option<real>)
    requires IsRun(Init(minInterval, loaded), es)
    requires var s := After(Init(minInterval, loaded), es); s.holder.Free? && s.timer.None?
    ensures var s := After(Init(minInterval, loaded), es);
      var s' := Next(s, Kick(args, now, maxWait));
      if !IntervalRuns(es, minInterval, now) || (maxWait.Some? && maxWait.value <= 0.0) then
        s'.queued == s.queued + [args] && s'.timer.None?
      else
        s'.queued == s.queued
        && s'.timer == Some(if maxWait.Some? && now + maxWait.value < LastEnd(es).value + minInterval then now + maxWait.value
                            else LastEnd(es).value + minInterval)
  {
    LastEndIsKnown(minInterval, loaded, es);
  }

  /** A build ends at 100; a kick ten seconds later waits until 220. */
  lemma IntervalExample(loaded: Option<Snapshot>, outcome: Outcome, args: Args)
    ensures var s, es := Init(120.0, loaded), [DirectTakesLock, BuildEnds(100.0, outcome), Kick(args, 110.0, None)];
      IsRun(s, es) && After(s, es).timer == Some(220.0) && After(s, es).queued == []
  {
    var s, es := Init(120.0, loaded), [];
    es := OneMore(s, es, DirectTakesLock);
    es := OneMore(s, es, BuildEnds(100.0, outcome));
    es := OneMore(s, es, Kick(args, 110.0, None));
    assert es == [DirectTakesLock, BuildEnds(100.0, outcome), Kick(args, 110.0, None)];
  }

  // ---------- the publish gate over runs ----------

  /** A critical source is configured and failed in the new snapshot and was healthy in the served one. */
  predicate GotWorse(snap: Snapshot, served: Snapshot) {
    exists name :: name in {"bazarr", "sonarr", "radarr"} && name in snap.sources && name in served.sources
      && snap.sources[name].configured && !snap.sources[name].ok && served.sources[name].ok
  }

  /**
   * The end of a build: one that raised changes neither what is served nor the counter; one that got
   * worse is held while fewer than three have been; any other is served, if the database takes it.
   */
  lemma GateServesExactly(s: State, now: real, outcome: Outcome)
    requires Enabled(s, BuildEnds(now, outcome))
    ensures var s' := Next(s, BuildEnds(now, outcome));
      match outcome
      case Raised => s'.cached == s.cached && s'.holds == s.holds
      case Built(snap, stored) =>
        if s.cached.Some? && GotWorse(snap, s.cached.value) && s.holds < 3 then
          s'.cached == s.cached && s'.holds == s.holds + 1
        else
          s'.holds == 0 && s'.cached == if stored then Some(snap) else s.cached
  {
    assert CRITICAL_SOURCES == ["bazarr", "sonarr", "radarr"];
    assert forall name :: name in CRITICAL_SOURCES <==> name in {"bazarr", "sonarr", "radarr"};
    if outcome.Built? && s.cached.Some? {
      var out := DegradedAmong(CRITICAL_SOURCES, outcome.snap.sources, s.cached.value.sources);
      if out != [] {
        assert out[0] in out && NewlyFailed(outcome.snap.sources, s.cached.value.sources, out[0]);
      }
      if GotWorse(outcome.snap, s.cached.value) {
        var name :| name in {"bazarr", "sonarr", "radarr"} && name in outcome.snap.sources && name in s.cached.value.sources
          && outcome.snap.sources[name].configured && !outcome.snap.sources[name].ok && s.cached.value.sources[name].ok;
        assert name in CRITICAL_SOURCES && NewlyFailed(outcome.snap.sources, s.cached.value.sources, name);
        assert name in out;
      }
    }
  }


  function Completed(es: seq<Event>): nat {
    if es == [] then 0
    else Completed(Front(es)) + (if Last(es).BuildEnds? && Last(es).outcome.Built? then 1 else 0)
  }

  ghost predicate NothingPasses(s: State, es: seq<Event>)
    requires IsRun(s, es)
  {
    forall j :: 0 <= j < |es| && es[j].BuildEnds? && IsRun(s, es[..j]) ==> !PassesGate(After(s, es[..j]), es[j].outcome)
  }

  lemma NothingPassesFront(s: State, es: seq<Event>)
    requires IsRun(s, es) && es != [] && NothingPasses(s, es)
    ensures NothingPasses(s, Front(es))
    ensures Last(es).BuildEnds? ==> !PassesGate(After(s, Front(es)), Last(es).outcome)
  {
    assert es[..|es| - 1] == Front(es);
    forall j | 0 <= j < |Front(es)| && Front(es)[j].BuildEnds? && IsRun(s, Front(es)[..j])
      ensures !PassesGate(After(s, Front(es)[..j]), Front(es)[j].outcome)
    {
      assert Front(es)[..j] == es[..j];
    }
  }

  /**
   * While nothing passes the gate, each completed build uses up one hold and the served snapshot
   * stays put; so of any four consecutive completed builds at least one passes it.
   */
  lemma {:induction false} AtMostThreeHoldsInARow(s: State, es: seq<Event>)
    requires Inv(s) && IsRun(s, es) && NothingPasses(s, es)
    ensures After(s, es).cached == s.cached
    ensures After(s, es).holds == s.holds + Completed(es)
    ensures Completed(es) <= MAX_CONSECUTIVE_HOLDS
  {
    RunKeepsInv(s, es);
    if es != [] {
      NothingPassesFront(s, es);
      AtMostThreeHoldsInARow(s, Front(es));
    }
  }

  // ---------- holds since the last publish ----------

  ghost predicate Publishes(s: State, e: Event) {
    e.BuildEnds? && PassesGate(s, e.outcome) && e.outcome.stored
  }

  /** The gate let the build through and the database then refused it. */
  ghost predicate StoreFails(s: State, e: Event) {
    e.BuildEnds? && PassesGate(s, e.outcome) && !e.outcome.stored
  }

  ghost predicate Holds(s: State, e: Event) {
    e.BuildEnds? && HeldBack(s, e.outcome)
  }

  /** Builds held since the last publish; what was counted at the start counts on. */
  ghost function HeldSincePublish(s: State, es: seq<Event>): nat
    requires IsRun(s, es)
  {
    if es == [] then s.holds
    else if Publishes(After(s, Front(es)), Last(es)) then 0
    else HeldSincePublish(s, Front(es)) + Bit(Holds(After(s, Front(es)), Last(es)))
  }

  /** Since the last publish, a store failed after a build had been held. */
  ghost predicate StoreFailedAfterHold(s: State, es: seq<Event>)
    requires IsRun(s, es)
  {
    es != [] && !Publishes(After(s, Front(es)), Last(es))
    && (StoreFailedAfterHold(s, Front(es))
        || (StoreFails(After(s, Front(es)), Last(es)) && HeldSincePublish(s, Front(es)) > 0))
  }

  lemma GateStep(s: State, e: Event)
    requires Enabled(s, e)
    ensures Next(s, e).holds
         == if Publishes(s, e) || StoreFails(s, e) then 0 else s.holds + Bit(Holds(s, e))
    ensures !(Publishes(s, e) && StoreFails(s, e)) && !(StoreFails(s, e) && Holds(s, e))
  {
  }

  /** The counter is the number of holds since the last publish exactly if no store failed after a hold since then. */
  lemma {:induction false} CounterCountsHolds(s: State, es: seq<Event>)
    requires IsRun(s, es)
    ensures After(s, es).holds == HeldSincePublish(s, es) <==> !StoreFailedAfterHold(s, es)
    ensures After(s, es).holds <= HeldSincePublish(s, es)
  {
    if es != [] {
      CounterCountsHolds(s, Front(es));
      GateStep(After(s, Front(es)), Last(es));
    }
  }

  ghost function StoreFailures(s: State, es: seq<Event>): nat
    requires IsRun(s, es)
  {
    if es == [] then 0 else StoreFailures(s, Front(es)) + Bit(StoreFails(After(s, Front(es)), Last(es)))
  }

  ghost function Publications(s: State, es: seq<Event>): nat
    requires IsRun(s, es)
  {
    if es == [] then 0 else Publications(s, Front(es)) + Bit(Publishes(After(s, Front(es)), Last(es)))
  }

  /** One step that publishes nothing: it holds, fails to store, or leaves the gate alone. */
  lemma UnpublishedStep(s: State, e: Event)
    requires Inv(s) && Enabled(s, e) && !Publishes(s, e)
    ensures Next(s, e).cached == s.cached
    ensures Next(s, e).holds == (if StoreFails(s, e) then 0 else s.holds + Bit(Holds(s, e))) <= MAX_CONSECUTIVE_HOLDS
    ensures (e.BuildEnds? && e.outcome.Built?) <==> (StoreFails(s, e) || Holds(s, e))
    ensures !(StoreFails(s, e) && Holds(s, e))
  {
  }

  /**
   * While nothing is published the served snapshot stays put, every completed build was held or
   * failed to store, and each failed store buys at most three more holds.
   */
  lemma {:induction false} HoldsAreBounded(s: State, es: seq<Event>)
    requires Inv(s) && IsRun(s, es) && Publications(s, es) == 0
    ensures After(s, es).cached == s.cached
    ensures s.holds + Completed(es) == HeldSincePublish(s, es) + StoreFailures(s, es)
    ensures HeldSincePublish(s, es) <= 3 * StoreFailures(s, es) + After(s, es).holds
    ensures HeldSincePublish(s, es) <= 3 * (1 + StoreFailures(s, es))
  {
    if es != [] {
      RunKeepsInv(s, Front(es));
      HoldsAreBounded(s, Front(es));
      UnpublishedStep(After(s, Front(es)), Last(es));
    }
  }

  /** Of any four completed builds at least one publishes, with four more allowed for each failed store. */
  lemma FourBuildsPublish(s: State, es: seq<Event>)
    requires Inv(s) && IsRun(s, es)
    requires Completed(es) > 3 + 4 * StoreFailures(s, es)
    ensures Publications(s, es) > 0
  {
    if Publications(s, es) == 0 {
      HoldsAreBounded(s, es);
    }
  }

  const HEALTHY := map["sonarr" := Health(true, true)]
  const FAILED := map["sonarr" := Health(true, false)]

  lemma SonarrIsHeldFor()
    ensures "sonarr" in DegradedAmong(CRITICAL_SOURCES, FAILED, HEALTHY)
  {
    assert CRITICAL_SOURCES[1] == "sonarr";
    assert NewlyFailed(FAILED, HEALTHY, "sonarr");
  }

  function BadBuild(stored: bool): Event { BuildEnds(1.0, Built(Snapshot(FAILED, 1), stored)) }

  lemma BadBuildStep(s: State, stored: bool)
    requires Idle(s) && !s.pendingAgain && s.cached == Some(Snapshot(HEALTHY, 0))
    requires stored ==> s.holds < MAX_CONSECUTIVE_HOLDS
    ensures var s' := Next(Next(s, DirectTakesLock), BadBuild(stored));
      && Idle(s') && !s'.pendingAgain && s'.cached == s.cached
      && s'.holds == (if s.holds < MAX_CONSECUTIVE_HOLDS then s.holds + 1 else 0)
      && !Publishes(Next(s, DirectTakesLock), BadBuild(stored))
      && (Holds(Next(s, DirectTakesLock), BadBuild(stored)) <==> s.holds < MAX_CONSECUTIVE_HOLDS)
  {
    SonarrIsHeldFor();
  }

  lemma Extended(s: State, es: seq<Event>, e: Event)
    requires IsRun(s, es) && Enabled(After(s, es), e)
    ensures IsRun(s, es + [e]) && After(s, es + [e]) == Next(After(s, es), e)
    ensures Completed(es + [e]) == Completed(es) + Bit(e.BuildEnds? && e.outcome.Built?)
    ensures HeldSincePublish(s, es + [e])
         == if Publishes(After(s, es), e) then 0 else HeldSincePublish(s, es) + Bit(Holds(After(s, es), e))
  {
    assert Front(es + [e]) == es;
  }

  lemma DirectBuild(s: State, es: seq<Event>, e: Event)
    requires IsRun(s, es) && After(s, es).holder.Free? && e.BuildEnds? && e.outcome.Built?
    ensures var more, mid := es + [DirectTakesLock] + [e], Next(After(s, es), DirectTakesLock);
      && IsRun(s, more) && After(s, more) == Next(mid, e) && Completed(more) == Completed(es) + 1
      && HeldSincePublish(s, more) == if Publishes(mid, e) then 0 else HeldSincePublish(s, es) + Bit(Holds(mid, e))
  {
    Extended(s, es, DirectTakesLock);
    Extended(s, es + [DirectTakesLock], e);
  }

  /** One direct build of a failed source, with what the database says should the gate let it through. */
  lemma OneMoreBuild(s: State, es: seq<Event>, stored: bool) returns (more: seq<Event>)
    requires IsRun(s, es) && Idle(After(s, es)) && !After(s, es).pendingAgain
    requires After(s, es).cached == Some(Snapshot(HEALTHY, 0))
    requires stored ==> After(s, es).holds < MAX_CONSECUTIVE_HOLDS
    ensures IsRun(s, more) && Idle(After(s, more)) && !After(s, more).pendingAgain
    ensures Completed(more) == Completed(es) + 1
    ensures After(s, more).cached == Some(Snapshot(HEALTHY, 0))
    ensures After(s, more).holds == if After(s, es).holds < MAX_CONSECUTIVE_HOLDS then After(s, es).holds + 1 else 0
    ensures HeldSincePublish(s, more) == HeldSincePublish(s, es) + Bit(After(s, es).holds < MAX_CONSECUTIVE_HOLDS)
  {
    BadBuildStep(After(s, es), stored);
    DirectBuild(s, es, BadBuild(stored));
    more := es + [DirectTakesLock] + [BadBuild(stored)];
  }

  /** A store that fails clears the counter without publishing: five builds, four held, none published, counter 1. */
  lemma FailedStoreRestartsCount(minInterval: real) returns (es: seq<Event>)
    ensures var s := Init(minInterval, Some(Snapshot(HEALTHY, 0)));
            && IsRun(s, es) && Completed(es) == 5 && After(s, es).cached == s.cached
            && After(s, es).holds == 1 && HeldSincePublish(s, es) == 4
  {
    var s := Init(minInterval, Some(Snapshot(HEALTHY, 0)));
    es := OneMoreBuild(s, [], true);
    es := OneMoreBuild(s, es, true);
    es := OneMoreBuild(s, es, true);
    es := OneMoreBuild(s, es, false);
    es := OneMoreBuild(s, es, true);
  }

  /** No snapshot published during the run shows `name` healthy. */
  ghost predicate NeverPublishedHealthy(s: State, es: seq<Event>, name: string)
    requires IsRun(s, es)
  {
    forall j :: 0 <= j < |es| && es[j].BuildEnds? && IsRun(s, es[..j])
      && PassesGate(After(s, es[..j]), es[j].outcome) && es[j].outcome.stored
      ==> !HealthOf(es[j].outcome.snap.sources, name).ok
  }

  lemma NeverPublishedHealthyFront(s: State, es: seq<Event>, name: string)
    requires IsRun(s, es) && es != [] && NeverPublishedHealthy(s, es, name)
    ensures NeverPublishedHealthy(s, Front(es), name)
    ensures Last(es).BuildEnds? && PassesGate(After(s, Front(es)), Last(es).outcome) && Last(es).outcome.stored
            ==> !HealthOf(Last(es).outcome.snap.sources, name).ok
  {
    assert es[..|es| - 1] == Front(es);
    forall j | 0 <= j < |Front(es)| && Front(es)[j].BuildEnds? && IsRun(s, Front(es)[..j])
      && PassesGate(After(s, Front(es)[..j]), Front(es)[j].outcome) && Front(es)[j].outcome.stored
      ensures !HealthOf(Front(es)[j].outcome.snap.sources, name).ok
    {
      assert Front(es)[..j] == es[..j];
    }
  }

  /** Once a failing source has been published, it is no reason to hold until a later publish shows it healthy. */
  lemma {:induction false} PublishedFailureHoldsNothing(s: State, es: seq<Event>, name: string, latest: Sources)
    requires IsRun(s, es) && s.cached.Some? && !HealthOf(s.cached.value.sources, name).ok
    requires NeverPublishedHealthy(s, es, name)
    ensures After(s, es).cached.Some? && !HealthOf(After(s, es).cached.value.sources, name).ok
    ensures name !in DegradedAmong(CRITICAL_SOURCES, latest, After(s, es).cached.value.sources)
  {
    if es != [] {
      NeverPublishedHealthyFront(s, es, name);
      PublishedFailureHoldsNothing(s, Front(es), name, latest);
    }
  }
}
