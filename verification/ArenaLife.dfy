/**
 * What a sweep's row tells about its task, who the capacity gate lets in, and how a sweep ends:
 * over whole runs of `ArenaService`, in terms of the outcomes the task saw.
 */
module ArenaLife {
  import opened ArenaService

  // ---------- the stored row follows the task ----------

  /** The status a task gives its run while it rests in a phase. */
  predicate StatusFits(t: Task) {
    match t.phase
    case NotBegun => t.run.status.Pending?
    case NeverRan => t.run.status.Pending?
    case AwaitSlot => t.run.status.Queued?
    case AwaitCapacity(announced, _) => t.run.status == if announced then WaitingForCapacity else Queued
    case _ => t.run.status.Running?
  }

  /** Clip c of n is being worked on, those before it are done, those after it are not begun. */
  predicate Marks(clips: seq<ClipStatus>, c: nat, n: nat) {
    && c < n == |clips|
    && forall j :: 0 <= j < n ==> clips[j] == if j < c then ClipDone else if j == c then ClipRunning else ClipPending
  }

  /** The clips a task shows while it rests in a phase. */
  predicate ClipsFit(t: Task) {
    var clips := t.run.progress.clips;
    match t.phase
    case Transcribing(c, _, n) => Marks(clips, c, n)
    case Judging(c, n) => Marks(clips, c, n)
    case Detecting(n) => if n == 0 then clips == [] else Marks(clips, n - 1, n)
    case Explaining(n) => |clips| == n && forall j :: 0 <= j < n ==> clips[j].ClipDone?
    case _ => clips == []
  }

  /** The row of a live run is what its task remembers; only the last marks of the clips wait for the end. */
  predicate RowIsCurrent(s: State, id: Id) {
    id in s.tasks && id !in s.deleted ==>
      && id in s.store
      && (s.tasks[id].phase.Explaining? || s.store[id] == s.tasks[id].run)
      && s.store[id].status == s.tasks[id].run.status
  }

  /** A run that was handed out and not started has its first row. */
  predicate FirstRow(s: State, id: Id) {
    id in s.created && id !in s.started && id !in s.deleted ==> id in s.store && s.store[id] == s.created[id]
  }

  predicate RowInv(s: State) {
    && (forall id :: id in s.tasks ==> StatusFits(s.tasks[id]) && ClipsFit(s.tasks[id]) && RowIsCurrent(s, id))
    && (forall id :: id in s.created ==> FirstRow(s, id))
  }

  lemma ReactKeepsRow(s: State, id: Id, outcome: Outcome)
    requires id in s.tasks && StatusFits(s.tasks[id]) && RowIsCurrent(s, id)
    ensures var s' := Apply(s, id, React(s.tasks[id], outcome));
            RowIsCurrent(s', id) && (id in s'.tasks ==> StatusFits(s'.tasks[id]))
  {
  }

  lemma ReactKeepsClips(t: Task, outcome: Outcome)
    requires ClipsFit(t)
    ensures var a := React(t, outcome); a.Suspends? ==> ClipsFit(Task(a.run, a.phase, t.cancelled))
  {
  }

  lemma ResumeKeepsOthers(s: State, id: Id, outcome: Outcome, other: Id)
    requires id in s.tasks && other != id
    ensures var s' := Apply(s, id, React(s.tasks[id], outcome));
            && (other in s'.tasks <==> other in s.tasks) && (other in s.tasks ==> s'.tasks[other] == s.tasks[other])
            && (other in s'.store <==> other in s.store) && (other in s.store ==> s'.store[other] == s.store[other])
            && (other in s'.deleted <==> other in s.deleted)
  {
  }

  lemma RowStep(s: State, e: Event)
    requires TaskInv(s) && RowInv(s) && Enabled(s, e)
    ensures RowInv(Next(s, e))
  {
    var s' := Next(s, e);
    if e.Resume? {
      ReactKeepsRow(s, e.id, e.outcome);
      ReactKeepsClips(s.tasks[e.id], e.outcome);
      forall id | id in s'.tasks
        ensures StatusFits(s'.tasks[id]) && ClipsFit(s'.tasks[id]) && RowIsCurrent(s', id)
      {
        if id != e.id { ResumeKeepsOthers(s, e.id, e.outcome, id); }
      }
      forall id | id in s'.created
        ensures FirstRow(s', id)
      {
        assert FirstRow(s, id);
        if id != e.id { ResumeKeepsOthers(s, e.id, e.outcome, id); }
      }
    }
  }

  /**
   * Write-through: in every reachable state a task shows the status and the clips that belong to
   * where it is, and the row of a live, undeleted run shows its status and, before the final
   * explanation, all of its progress.
   */
  lemma {:induction false} RowsFollowTasks(maxConcurrent: nat, es: seq<Event>)
    requires IsRun(Init(maxConcurrent), es)
    ensures RowInv(After(Init(maxConcurrent), es))
  {
    if es != [] {
      var front := es[..|es| - 1];
      RowsFollowTasks(maxConcurrent, front);
      TaskInvRun(Init(maxConcurrent), front);
      RowStep(After(Init(maxConcurrent), front), es[|es| - 1]);
    }
  }

  // ---------- the capacity gate ----------

  predicate AtGate(s: State, id: Id) {
    id in s.tasks && s.tasks[id].phase.AwaitCapacity? && !s.tasks[id].cancelled
  }

  /** What run `id` learned about capacity: the outcomes that came while it stood at the gate. */
  ghost function Probes(s: State, es: seq<Event>, id: Id): seq<Outcome>
    requires IsRun(s, es)
  {
    if es == [] then []
    else
      var front, e := es[..|es| - 1], es[|es| - 1];
      Probes(s, front, id) + if Resumes(e, id) && AtGate(After(s, front), id) then [e.outcome] else []
  }

  /** The last `k` probes could not be read. */
  predicate LastUnreadable(probes: seq<Outcome>, k: nat) {
    |probes| >= k && forall j :: |probes| - k <= j < |probes| ==> probes[j].Unreadable?
  }

  /** What the gate remembers is what the probes said. */
  predicate Remembers(t: Task, probes: seq<Outcome>) {
    t.phase.AwaitCapacity? ==>
      && t.phase.fails < 3
      && LastUnreadable(probes, t.phase.fails) && !LastUnreadable(probes, t.phase.fails + 1)
      && (t.phase.announced <==> Busy in probes)
      && Raises !in probes
  }

  predicate BeforeGate(s: State, id: Id) {
    id in s.tasks ==> s.tasks[id].phase.NotBegun? || s.tasks[id].phase.NeverRan? || s.tasks[id].phase.AwaitSlot?
  }

  predicate GateInv(s: State, id: Id, probes: seq<Outcome>) {
    && (id in s.tasks ==> Remembers(s.tasks[id], probes))
    && (id !in s.started || (id in s.tasks && BeforeGate(s, id)) ==> probes == [])
  }

  lemma ProbeIsRemembered(t: Task, probes: seq<Outcome>, outcome: Outcome)
    requires t.phase.AwaitCapacity? && !t.cancelled && Remembers(t, probes)
    ensures var a := React(t, outcome);
            a.Suspends? ==> Remembers(Task(a.run, a.phase, false), probes + [outcome]) && !a.phase.AwaitSlot? && !a.phase.NotBegun? && !a.phase.NeverRan?
  {
    var more := probes + [outcome];
    assert more[|probes|] == outcome;
    assert forall j :: 0 <= j < |probes| ==> more[j] == probes[j];
    assert Busy in more <==> Busy in probes || outcome == Busy;
    assert Raises in more <==> Raises in probes || outcome == Raises;
    if outcome.Unreadable? {
      OneMoreUnreadable(probes, t.phase.fails);
      OneMoreUnreadable(probes, t.phase.fails + 1);
    } else {
      assert !LastUnreadable(more, 1);
    }
  }

  lemma OneMoreUnreadable(probes: seq<Outcome>, k: nat)
    ensures LastUnreadable(probes + [Unreadable], k + 1) <==> LastUnreadable(probes, k)
  {
    var more := probes + [Unreadable];
    if LastUnreadable(more, k + 1) {
      forall j | |probes| - k <= j < |probes|
        ensures probes[j].Unreadable?
      {
        assert probes[j] == more[j];
      }
    }
  }

  lemma GateStep(s: State, e: Event, id: Id, probes: seq<Outcome>)
    requires TaskInv(s) && GateInv(s, id, probes) && Enabled(s, e)
    ensures GateInv(Next(s, e), id, if Resumes(e, id) && AtGate(s, id) then probes + [e.outcome] else probes)
  {
    if e.Resume? && e.id == id {
      if AtGate(s, id) {
        ProbeIsRemembered(s.tasks[id], probes, e.outcome);
      }
    } else if e.Resume? {
      ResumeKeepsOthers(s, e.id, e.outcome, id);
    }
  }

  lemma {:induction false} GateRun(maxConcurrent: nat, es: seq<Event>, id: Id)
    requires IsRun(Init(maxConcurrent), es)
    ensures GateInv(After(Init(maxConcurrent), es), id, Probes(Init(maxConcurrent), es, id))
  {
    if es != [] {
      var front := es[..|es| - 1];
      GateRun(maxConcurrent, front, id);
      TaskInvRun(Init(maxConcurrent), front);
      var probes := Probes(Init(maxConcurrent), front, id);
      GateStep(After(Init(maxConcurrent), front), es[|es| - 1], id, probes);
      assert probes + [] == probes;
    }
  }

  /** The probes open the gate: the newest says there is room, or it is the third in a row that says nothing. */
  predicate Opens(probes: seq<Outcome>) {
    probes != [] &&
    var last := probes[|probes| - 1];
    !last.Raises? && !last.Busy? && (last.Unreadable? ==> LastUnreadable(probes, 3))
  }

  /**
   * The gate, in every run: a waiting sweep enters the running section if and only if its probes open
   * the gate; it fails if and only if the probe raised; otherwise it waits on, and its row says so
   * from the first busy probe.
   */
  lemma GateLetsInExactly(maxConcurrent: nat, es: seq<Event>, id: Id, outcome: Outcome)
    requires IsRun(Init(maxConcurrent), es) && AtGate(After(Init(maxConcurrent), es), id)
    ensures var s, probes := After(Init(maxConcurrent), es), Probes(Init(maxConcurrent), es, id) + [outcome];
            var s' := Next(s, Resume(id, outcome));
            && (id in s'.tasks && InSection(s'.tasks[id].phase) <==> Opens(probes))
            && s'.inflight == s.inflight + (if Opens(probes) then 1 else 0)
            && (id !in s'.tasks <==> outcome.Raises?)
            && (id !in s.deleted ==>
                  && id in s'.store
                  && s'.store[id].status ==
                     if outcome.Raises? then Error
                     else if Opens(probes) then Running
                     else if Busy in probes then WaitingForCapacity
                     else Queued)
  {
    var s, before := After(Init(maxConcurrent), es), Probes(Init(maxConcurrent), es, id);
    var probes := before + [outcome];
    GateRun(maxConcurrent, es, id);
    RowsFollowTasks(maxConcurrent, es);
    ReactKeepsRow(s, id, outcome);
    assert probes[|probes| - 1] == outcome;
    assert Busy in probes <==> Busy in before || outcome == Busy;
    if outcome.Unreadable? {
      OneMoreUnreadable(before, 2);
      ExactStreak(before, s.tasks[id].phase.fails, 2);
    }
  }

  /** The streak of unreadable probes has one length. */
  lemma ExactStreak(probes: seq<Outcome>, k: nat, m: nat)
    requires LastUnreadable(probes, k) && !LastUnreadable(probes, k + 1)
    ensures LastUnreadable(probes, m) <==> m <= k
  {
    assert |probes| < k + 1 || exists j :: |probes| - (k + 1) <= j < |probes| && !probes[j].Unreadable?;
  }

  // ---------- how a sweep ends ----------

  /** The awaited operation's failure reaches the sweep: step 0 of a clip is the source pass, the others are recipes. */
  predicate Breaks(t: Task, outcome: Outcome) {
    match t.phase
    case AwaitCapacity(_, _) => outcome.Raises?
    case Preparing => t.run.recipes == 0 || !outcome.Clips?
    case Transcribing(_, k, _) => k == 0 && outcome.Raises?
    case Judging(_, _) => outcome.Raises?
    case _ => false
  }

  /**
   * A resumed task ends if and only if it was cancelled after it began, its operation failed, or
   * it was at its last await; its row ends "done" in the last case without cancellation, otherwise
   * "error", unless the run is deleted; nothing of the task remains.
   */
  lemma EndsExactly(s: State, id: Id, outcome: Outcome)
    requires Enabled(s, Resume(id, outcome))
    ensures var t, s' := s.tasks[id], Next(s, Resume(id, outcome));
            && (id !in s'.tasks <==>
                  if t.cancelled then !t.phase.NotBegun? else Breaks(t, outcome) || t.phase.Explaining?)
            && (id !in s'.tasks ==>
                  && id !in s'.deleted
                  && s'.free == s.free + (if HoldsSlot(t.phase) then 1 else 0)
                  && s'.inflight == s.inflight - (if InSection(t.phase) then 1 else 0)
                  && (id in s.deleted ==> s'.store == s.store)
                  && (id !in s.deleted ==>
                        && id in s'.store && s'.store[id].progress == t.run.progress
                        && s'.store[id].status == if t.phase.Explaining? && !t.cancelled then Done else Error))
  {
  }

  // ---------- a stopped sweep never finishes ----------

  predicate Stopped(s: State, id: Id) {
    id in s.started && (id in s.tasks ==> s.tasks[id].cancelled) && (id in s.store ==> !s.store[id].status.Done?)
  }

  lemma StoppedStep(s: State, e: Event, id: Id)
    requires TaskInv(s) && FinalInv(s) && Stopped(s, id) && Enabled(s, e)
    ensures Stopped(Next(s, e), id)
  {
    if e.Resume? && e.id != id {
      ResumeKeepsOthers(s, e.id, e.outcome, id);
    }
  }

  lemma {:induction false} StoppedStays(s: State, es: seq<Event>, id: Id)
    requires TaskInv(s) && FinalInv(s) && Stopped(s, id) && IsRun(s, es)
    ensures Stopped(After(s, es), id)
  {
    if es != [] {
      var front := es[..|es| - 1];
      StoppedStays(s, front, id);
      TaskInvRun(s, front);
      FinalInvRun(s, front);
      StoppedStep(After(s, front), es[|es| - 1], id);
    }
  }

  /** A sweep that is live when the service closes, or when it is itself deleted, is never stored as done, whatever happens after. */
  lemma StoppedNeverFinishes(maxConcurrent: nat, before: seq<Event>, stop: Event, es: seq<Event>, id: Id)
    requires IsRun(Init(maxConcurrent), before) && (stop.Close? || stop == Delete(id))
    requires var s := After(Init(maxConcurrent), before); id in s.tasks && IsRun(Next(s, stop), es)
    ensures var s' := After(Next(After(Init(maxConcurrent), before), stop), es);
            id in s'.store ==> !s'.store[id].status.Done?
  {
    var s := After(Init(maxConcurrent), before);
    TaskInvRun(Init(maxConcurrent), before);
    FinalInvRun(Init(maxConcurrent), before);
    TaskInvStep(s, stop);
    FinalInvStep(s, stop);
    StoppedStays(Next(s, stop), es, id);
  }

  // ---------- an undisturbed sweep finishes ----------

  /** For each clip the source pass, one pass per recipe, and the judge. */
  function StepsFor(clips: nat, recipes: nat): nat { clips * (recipes + 2) }

  lemma OneClipMore(clips: nat, recipes: nat)
    ensures StepsFor(clips + 1, recipes) == StepsFor(clips, recipes) + recipes + 2
  {
  }

  /** Resumptions until the end when nothing fails and the media gives `n` clips. */
  function StepsLeft(t: Task, n: nat): nat {
    var recipes := t.run.recipes;
    match t.phase
    case NotBegun => 4 + StepsFor(n, recipes) + 2
    case AwaitSlot => 3 + StepsFor(n, recipes) + 2
    case AwaitCapacity(_, _) => 2 + StepsFor(n, recipes) + 2
    case Preparing => 1 + StepsFor(n, recipes) + 2
    case Transcribing(c, k, _) =>
      if c < n && k <= recipes then (recipes + 2 - k) + StepsFor(n - c - 1, recipes) + 2 else 0
    case Judging(c, _) => if c < n then 1 + StepsFor(n - c - 1, recipes) + 2 else 0
    case Detecting(_) => 2
    case Explaining(_) => 1
    case NeverRan => 0
  }

  /** The task works on `n` clips, if it knows its clips already. */
  predicate WorksOn(t: Task, n: nat) {
    match t.phase
    case Transcribing(_, _, m) => m == n
    case Judging(_, m) => m == n
    case Detecting(m) => m == n
    case Explaining(m) => m == n
    case _ => true
  }

  /** A sweep with something to do that nobody has cancelled or deleted. */
  predicate Healthy(s: State, id: Id, n: nat) {
    && id in s.tasks && id !in s.deleted
    && !s.tasks[id].cancelled && !s.tasks[id].phase.NeverRan?
    && s.tasks[id].run.recipes > 0 && WorksOn(s.tasks[id], n)
  }

  /** Nobody cancels run `id`, and each of its operations succeeds: asked for clips, the media gives `n`. */
  predicate LeavesAlone(e: Event, id: Id, n: nat) {
    e != Delete(id) && !e.Close? && (Resumes(e, id) ==> e.outcome == Clips(n))
  }

  function ResumesOf(es: seq<Event>, id: Id): nat {
    if es == [] then 0 else ResumesOf(es[..|es| - 1], id) + if Resumes(es[|es| - 1], id) then 1 else 0
  }

  predicate CountsDown(t: Task, n: nat) {
    var a := React(t, Clips(n));
    && (a.Ends? <==> StepsLeft(t, n) == 1)
    && StepsLeft(t, n) >= 1
    && a.run.recipes == t.run.recipes
    && (a.Suspends? ==>
          var t' := Task(a.run, a.phase, false);
          StepsLeft(t', n) == StepsLeft(t, n) - 1 && WorksOn(t', n) && !a.phase.NeverRan?)
  }

  predicate Ready(t: Task, n: nat) {
    !t.cancelled && !t.phase.NeverRan? && t.run.recipes > 0 && WorksOn(t, n) && OnTrack(t)
  }

  lemma PreparingCountsDown(t: Task, n: nat)
    requires Ready(t, n) && t.phase.Preparing?
    ensures CountsDown(t, n)
  {
    if n > 0 { OneClipMore(n - 1, t.run.recipes); }
  }

  lemma JudgingCountsDown(t: Task, n: nat)
    requires Ready(t, n) && t.phase.Judging?
    ensures CountsDown(t, n)
  {
    var c := t.phase.clip;
    if c + 1 < n { OneClipMore(n - c - 2, t.run.recipes); }
  }

  lemma TranscribingCountsDown(t: Task, n: nat)
    requires Ready(t, n) && t.phase.Transcribing?
    ensures CountsDown(t, n)
  {
  }

  lemma OneStepLess(t: Task, n: nat)
    requires Ready(t, n)
    ensures CountsDown(t, n)
  {
    match t.phase
    case Preparing => PreparingCountsDown(t, n);
    case Judging(_, _) => JudgingCountsDown(t, n);
    case Transcribing(_, _, _) => TranscribingCountsDown(t, n);
    case _ =>
  }

  /** A finished sweep of `n` clips: every pass made, every clip done. */
  predicate Finished(s: State, id: Id, n: nat, recipes: nat) {
    && id !in s.tasks && id in s.started && id in s.store
    && s.store[id].status.Done? && s.store[id].recipes == recipes
    && s.store[id].progress.done == s.store[id].progress.total == n * (recipes + 1)
    && |s.store[id].progress.clips| == n
    && forall j :: 0 <= j < n ==> s.store[id].progress.clips[j].ClipDone?
  }

  lemma HealthyStep(s: State, e: Event, id: Id, n: nat)
    requires TaskInv(s) && ProgressInv(s) && Healthy(s, id, n) && Enabled(s, e) && LeavesAlone(e, id, n)
    ensures !Resumes(e, id) ==> Healthy(Next(s, e), id, n) && Next(s, e).tasks[id] == s.tasks[id]
    ensures Resumes(e, id) && StepsLeft(s.tasks[id], n) > 1 ==>
      && Healthy(Next(s, e), id, n) && Next(s, e).tasks[id].run.recipes == s.tasks[id].run.recipes
      && StepsLeft(Next(s, e).tasks[id], n) == StepsLeft(s.tasks[id], n) - 1
    ensures Resumes(e, id) && StepsLeft(s.tasks[id], n) <= 1 ==> Finished(Next(s, e), id, n, s.tasks[id].run.recipes)
  {
    if Resumes(e, id) {
      OneStepLess(s.tasks[id], n);
    } else if e.Resume? {
      ResumeKeepsOthers(s, e.id, e.outcome, id);
    }
  }

  lemma FinishedStays(s: State, e: Event, id: Id, n: nat, recipes: nat)
    requires TaskInv(s) && Finished(s, id, n, recipes) && Enabled(s, e) && e != Delete(id)
    ensures Finished(Next(s, e), id, n, recipes) && !Resumes(e, id)
  {
    if e.Resume? {
      ResumeKeepsOthers(s, e.id, e.outcome, id);
    }
  }

  /**
   * However other sweeps interleave with it, a sweep that is left alone counts down: it is live until
   * its resumptions are used up, and with the last of them its row is "done", with every pass of
   * every clip made.
   */
  lemma {:induction false} UndisturbedSweepFinishes(s: State, es: seq<Event>, id: Id, n: nat)
    requires TaskInv(s) && FinalInv(s) && ProgressInv(s) && Healthy(s, id, n) && IsRun(s, es)
    requires forall j :: 0 <= j < |es| ==> LeavesAlone(es[j], id, n)
    ensures var s', left := After(s, es), StepsLeft(s.tasks[id], n);
            && left >= 1 && ResumesOf(es, id) <= left
            && (ResumesOf(es, id) < left ==>
                  Healthy(s', id, n) && StepsLeft(s'.tasks[id], n) == left - ResumesOf(es, id)
                  && s'.tasks[id].run.recipes == s.tasks[id].run.recipes)
            && (ResumesOf(es, id) == left ==> Finished(s', id, n, s.tasks[id].run.recipes))
  {
    OneStepLess(s.tasks[id], n);
    if es != [] {
      var front, e := es[..|es| - 1], es[|es| - 1];
      UndisturbedSweepFinishes(s, front, id, n);
      var s1 := After(s, front);
      TaskInvRun(s, front);
      ProgressRun(s, front);
      if ResumesOf(front, id) < StepsLeft(s.tasks[id], n) {
        HealthyStep(s1, e, id, n);
      } else {
        FinishedStays(s1, e, id, n, s.tasks[id].run.recipes);
      }
    }
  }

  lemma {:induction false} ProgressRun(s: State, es: seq<Event>)
    requires TaskInv(s) && FinalInv(s) && ProgressInv(s) && IsRun(s, es)
    ensures ProgressInv(After(s, es))
  {
    if es != [] {
      var front := es[..|es| - 1];
      ProgressRun(s, front);
      TaskInvRun(s, front);
      FinalInvRun(s, front);
      ProgressStep(After(s, front), es[|es| - 1]);
    }
  }

  /** A sweep that is started and left alone takes 4 resumptions to its clips, and `recipes + 2` for each of them. */
  lemma StartedSweepFinishes(maxConcurrent: nat, before: seq<Event>, es: seq<Event>, id: Id, n: nat)
    requires IsRun(Init(maxConcurrent), before)
    requires var s := After(Init(maxConcurrent), before);
             && Enabled(s, Start(id)) && id !in s.deleted && s.created[id].recipes > 0
             && IsRun(Next(s, Start(id)), es)
    requires forall j :: 0 <= j < |es| ==> LeavesAlone(es[j], id, n)
    ensures var s := After(Init(maxConcurrent), before);
            var s', left := After(Next(s, Start(id)), es), 4 + n * (s.created[id].recipes + 2) + 2;
            && ResumesOf(es, id) <= left
            && (ResumesOf(es, id) == left <==> Finished(s', id, n, s.created[id].recipes))
  {
    var init := Init(maxConcurrent);
    var s := After(init, before);
    TaskInvRun(init, before);
    FinalInvRun(init, before);
    DoneMeansComplete(maxConcurrent, before);
    TaskInvStep(s, Start(id));
    FinalInvStep(s, Start(id));
    ProgressStep(s, Start(id));
    UndisturbedSweepFinishes(Next(s, Start(id)), es, id, n);
  }
}
