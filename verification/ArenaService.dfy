/**
 * The life of a tuning sweep: concurrent tasks behind a semaphore, write-through
 * persistence, and deletion while a task is live.
 *
 * A coroutine is cut at its await points: a task rests in a `Phase` and `Resume` is the
 * code from one await to the next.  Any interleaving of tasks, creations, starts and
 * deletions is a run of `Next`.
 */
module ArenaService {
  import opened Common

  type Id = string

  datatype Status = Pending | Queued | WaitingForCapacity | Running | Done | Error

  datatype ClipStatus = ClipPending | ClipRunning | ClipDone

  /** The progress scaffold written through to the store. */
  datatype Progress = Progress(clips: seq<ClipStatus>, done: nat, total: nat)

  datatype Run = Run(recipes: nat, status: Status, progress: Progress)

  /** Where a task is suspended. */
  datatype Phase =
    | NotBegun
    | NeverRan                               // cancelled before its first step: its body never executes
    | AwaitSlot
    | AwaitCapacity(announced: bool, fails: nat)
    | Preparing
    | Transcribing(clip: nat, step: nat, n: nat)
    | Judging(clip: nat, n: nat)
    | Detecting(n: nat)
    | Explaining(n: nat)

  datatype Task = Task(run: Run, phase: Phase, cancelled: bool)

  /** What the awaited operation gives. */
  datatype Outcome = Ok | Raises | Busy | Unreadable | Clips(n: nat)

  const FAIL_OPEN_AFTER: nat := 3

  datatype State = State(
    store: map<Id, Run>,
    tasks: map<Id, Task>,
    deleted: set<Id>,
    inflight: int,
    free: int,             // semaphore permits
    created: map<Id, Run>, // the run objects handed out so far
    started: set<Id>)

  datatype Event =
    | Create(id: Id, recipes: nat)
    | Start(id: Id)
    | Delete(id: Id)
    | Close
    | Resume(id: Id, outcome: Outcome)

  predicate HoldsSlot(p: Phase) {
    !p.NotBegun? && !p.NeverRan? && !p.AwaitSlot?
  }

  predicate InSection(p: Phase) {
    HoldsSlot(p) && !p.AwaitCapacity?
  }

  predicate Live(s: State, id: Id) {
    id in s.tasks && !s.tasks[id].phase.NeverRan?
  }

  // ---------- one resumption, seen from the task ----------

  const SCAFFOLD := Progress([], 0, 0)

  function NewRun(recipes: nat): Run { Run(recipes, Pending, SCAFFOLD) }

  /** A task suspends again, after saving its run or not, or it saves and ends. */
  datatype Action = Suspends(run: Run, phase: Phase, saves: bool) | Ends(run: Run)

  function Failing(t: Task): Action { Ends(t.run.(status := Error)) }

  function Entering(t: Task): Action { Suspends(t.run.(status := Running), Preparing, true) }

  function ClipsAt(n: nat, clip: nat): seq<ClipStatus> {
    seq(n, j => if j < clip then ClipDone else if j == clip then ClipRunning else ClipPending)
  }

  /** `on_clip`: clip c of n begins. */
  function ClipBegins(run: Run, c: nat, n: nat): Action {
    var total := if run.progress.clips == [] then n * (run.recipes + 1) else run.progress.total;
    Suspends(run.(progress := Progress(ClipsAt(n, c), run.progress.done, total)), Transcribing(c, 0, n), true)
  }

  /** `on_step`: one transcription is finished. */
  function StepDone(run: Run, c: nat, k: nat, n: nat): Action {
    var run := run.(progress := run.progress.(done := run.progress.done + 1));
    Suspends(run, if k < run.recipes then Transcribing(c, k + 1, n) else Judging(c, n), true)
  }

  function AllDone(run: Run): Run {
    run.(progress := run.progress.(clips := seq(|run.progress.clips|, j => ClipDone)))
  }

  function React(t: Task, outcome: Outcome): Action {
    if t.cancelled then
      if t.phase.NotBegun? then Suspends(t.run, NeverRan, false) else Failing(t)
    else
      match t.phase
      case NeverRan => Suspends(t.run, NeverRan, false)
      case NotBegun => Suspends(t.run.(status := Queued, progress := SCAFFOLD), AwaitSlot, true)
      case AwaitSlot => Suspends(t.run, AwaitCapacity(false, 0), false)
      case AwaitCapacity(announced, fails) =>
        (match outcome
         case Raises => Failing(t)
         case Busy =>
           if announced then Suspends(t.run, AwaitCapacity(true, 0), false)
           else Suspends(t.run.(status := WaitingForCapacity), AwaitCapacity(true, 0), true)
         case Unreadable =>
           if fails + 1 >= FAIL_OPEN_AFTER then Entering(t) else Suspends(t.run, AwaitCapacity(announced, fails + 1), false)
         case _ => Entering(t))
      case Preparing =>
        if t.run.recipes == 0 || !outcome.Clips? then Failing(t)
        else if outcome.n == 0 then Suspends(t.run, Detecting(0), false)
        else ClipBegins(t.run, 0, outcome.n)
      case Transcribing(c, k, n) =>
        if k == 0 && outcome.Raises? then Failing(t) else StepDone(t.run, c, k, n)
      case Judging(c, n) =>
        if outcome.Raises? then Failing(t)
        else if c + 1 < n then ClipBegins(t.run, c + 1, n)
        else Suspends(t.run, Detecting(n), false)
      case Detecting(n) => Suspends(AllDone(t.run), Explaining(n), false)
      case Explaining(_) => Ends(t.run.(status := Done))
  }

  // ---------- one step of the service ----------

  function Bit(b: bool): int { if b then 1 else 0 }

  /** Write-through, unless the run has been deleted. */
  function Saved(s: State, id: Id, run: Run): map<Id, Run> {
    if id in s.deleted then s.store else s.store[id := run]
  }

  /** Saving, and the slot and counter that go with the phase; an ending task drops its bookkeeping. */
  function Apply(s: State, id: Id, a: Action): State
    requires id in s.tasks
  {
    var was := s.tasks[id].phase;
    match a
    case Suspends(run, phase, saves) =>
      s.(store := if saves then Saved(s, id, run) else s.store,
         tasks := s.tasks[id := Task(run, phase, s.tasks[id].cancelled)],
         inflight := s.inflight - Bit(InSection(was)) + Bit(InSection(phase)),
         free := s.free + Bit(HoldsSlot(was)) - Bit(HoldsSlot(phase)))
    case Ends(run) =>
      s.(store := Saved(s, id, run),
         tasks := s.tasks - {id},
         deleted := s.deleted - {id},
         inflight := s.inflight - Bit(InSection(was)),
         free := s.free + Bit(HoldsSlot(was)))
  }

  function Cancelled(t: Task): Task { t.(cancelled := true) }

  function Deleted(s: State, id: Id): State {
    s.(deleted := s.deleted + {id},
       tasks := if id in s.tasks then s.tasks[id := Cancelled(s.tasks[id])] else s.tasks,
       store := s.store - {id})
  }

  /** Ids are handed out once, a run is started at most once, and a task resumes only when it can. */
  predicate Enabled(s: State, e: Event) {
    match e
    case Create(id, _) => id !in s.created
    case Start(id) => id in s.created && id !in s.started
    case Delete(_) => true
    case Close => true
    case Resume(id, _) =>
      Live(s, id) && (s.tasks[id].phase.AwaitSlot? && !s.tasks[id].cancelled ==> s.free > 0)
  }

  function Next(s: State, e: Event): State
    requires Enabled(s, e)
  {
    match e
    case Create(id, recipes) => s.(store := s.store[id := NewRun(recipes)], created := s.created[id := NewRun(recipes)])
    case Start(id) => s.(tasks := s.tasks[id := Task(s.created[id], NotBegun, false)], started := s.started + {id})
    case Delete(id) => Deleted(s, id)
    case Close => s.(tasks := map id | id in s.tasks :: Cancelled(s.tasks[id]))
    case Resume(id, outcome) => Apply(s, id, React(s.tasks[id], outcome))
  }

  // ---------- the class ----------

  class ArenaService {
    var store: map<Id, Run>
    var tasks: map<Id, Task>
    var deleted: set<Id>
    var inflight: int
    var sema: int
    ghost var created: map<Id, Run>  // what callers hold
    ghost var started: set<Id>

    ghost function Model(): State
      reads this
    {
      State(store, tasks, deleted, inflight, sema, created, started)
    }

    constructor (maxConcurrent: nat)
      ensures Model() == Init(maxConcurrent)
    {
      store, tasks, deleted, inflight, sema := map[], map[], {}, 0, maxConcurrent;
      created, started := map[], {};
    }

    method CreateRun(id: Id, recipes: nat) returns (run: Run)
      requires id !in created
      modifies this
      ensures Model() == Next(old(Model()), Create(id, recipes))
      ensures run == Run(recipes, Pending, Progress([], 0, 0)) == store[id]
    {
      run := NewRun(recipes);
      store := store[id := run];
      created := created[id := run];
    }

    method StartRun(id: Id, run: Run)
      requires Enabled(Model(), Start(id)) && run == created[id]
      modifies this
      ensures Model() == Next(old(Model()), Start(id))
    {
      tasks := tasks[id := Task(run, NotBegun, false)];
      started := started + {id};
    }

    method DeleteRun(id: Id) returns (existed: bool)
      modifies this
      ensures Model() == Next(old(Model()), Delete(id)) && existed == (id in old(store))
    {
      deleted := deleted + {id};
      if id in tasks {
        tasks := tasks[id := tasks[id].(cancelled := true)];
      }
      existed := id in store;
      store := store - {id};
    }

    method Persist(id: Id, run: Run)
      modifies this`store
      ensures store == if id in deleted then old(store) else old(store)[id := run]
    {
      if id in deleted {
        return;
      }
      store := store[id := run];
    }

    method Suspend(id: Id, run: Run, phase: Phase)
      requires id in tasks
      modifies this`tasks
      ensures tasks == old(tasks)[id := Task(run, phase, old(tasks)[id].cancelled)]
    {
      tasks := tasks[id := tasks[id].(run := run, phase := phase)];
    }

    /** The `except`, the two inner `finally`s and the outer one. */
    method Unwind(id: Id, run: Run)
      requires id in tasks
      modifies this`store, this`tasks, this`deleted, this`inflight, this`sema
      ensures Model() == Apply(old(Model()), id, Ends(run))
    {
      var phase := tasks[id].phase;
      if InSection(phase) {
        inflight := inflight - 1;
      }
      if HoldsSlot(phase) {
        sema := sema + 1;
      }
      Persist(id, run);
      deleted := deleted - {id};
      tasks := tasks - {id};
    }

    /** The capacity gate lets the sweep in, or keeps it waiting. */
    method CapacityProbed(id: Id, outcome: Outcome)
      requires Live(Model(), id) && !tasks[id].cancelled && tasks[id].phase.AwaitCapacity?
      modifies this
      ensures Model() == Next(old(Model()), Resume(id, outcome))
    {
      var run, announced, fails := tasks[id].run, tasks[id].phase.announced, tasks[id].phase.fails;
      if outcome.Raises? {
        Unwind(id, run.(status := Error));
        return;
      }
      if outcome.Unreadable? {
        fails := fails + 1;
        if fails < FAIL_OPEN_AFTER {
          Suspend(id, run, AwaitCapacity(announced, fails));
          return;
        }
      } else if outcome.Busy? {
        if !announced {
          run := run.(status := WaitingForCapacity);
          Persist(id, run);
        }
        Suspend(id, run, AwaitCapacity(true, 0));
        return;
      }
      run := run.(status := Running);
      Persist(id, run);
      inflight := inflight + 1;
      Suspend(id, run, Preparing);
    }

    method OnClip(id: Id, c: nat, n: nat)
      requires id in tasks && InSection(tasks[id].phase)
      modifies this`store, this`tasks
      ensures Model() == Apply(old(Model()), id, ClipBegins(old(tasks)[id].run, c, n))
    {
      var run := tasks[id].run;
      var clips, total := run.progress.clips, run.progress.total;
      if clips == [] {
        total := n * (run.recipes + 1);
      }
      clips := [];
      for j := 0 to n
        invariant |clips| == j
        invariant forall i :: 0 <= i < j ==>
          clips[i] == if i < c then ClipDone else if i == c then ClipRunning else ClipPending
      {
        clips := clips + [if j < c then ClipDone else if j == c then ClipRunning else ClipPending];
      }
      assert clips == ClipsAt(n, c);
      run := run.(progress := Progress(clips, run.progress.done, total));
      Persist(id, run);
      Suspend(id, run, Transcribing(c, 0, n));
    }

    method OnStep(id: Id, c: nat, k: nat, n: nat)
      requires id in tasks && InSection(tasks[id].phase)
      modifies this`store, this`tasks
      ensures Model() == Apply(old(Model()), id, StepDone(old(tasks)[id].run, c, k, n))
    {
      var run := tasks[id].run;
      run := run.(progress := run.progress.(done := run.progress.done + 1));
      Persist(id, run);
      Suspend(id, run, if k < run.recipes then Transcribing(c, k + 1, n) else Judging(c, n));
    }

    /** One resumption of the coroutine of run `id`. */
    method ResumeTask(id: Id, outcome: Outcome)
      requires Enabled(Model(), Resume(id, outcome))
      modifies this
      ensures Model() == Next(old(Model()), Resume(id, outcome))
    {
      var run, phase := tasks[id].run, tasks[id].phase;
      if tasks[id].cancelled {
        if phase.NotBegun? {
          Suspend(id, run, NeverRan);
        } else {
          Unwind(id, run.(status := Error));
        }
        return;
      }
      match phase {
        case NeverRan =>
        case NotBegun =>
          run := run.(status := Queued, progress := SCAFFOLD);
          Persist(id, run);
          Suspend(id, run, AwaitSlot);
        case AwaitSlot =>
          sema := sema - 1;
          Suspend(id, run, AwaitCapacity(false, 0));
        case AwaitCapacity(_, _) =>
          CapacityProbed(id, outcome);
        case Preparing =>
          if run.recipes == 0 || !outcome.Clips? {
            Unwind(id, run.(status := Error));
          } else if outcome.n == 0 {
            Suspend(id, run, Detecting(0));
          } else {
            OnClip(id, 0, outcome.n);
          }
        case Transcribing(c, k, n) =>
          if k == 0 && outcome.Raises? {
            Unwind(id, run.(status := Error));
          } else {
            OnStep(id, c, k, n);
          }
        case Judging(c, n) =>
          if outcome.Raises? {
            Unwind(id, run.(status := Error));
          } else if c + 1 < n {
            OnClip(id, c + 1, n);
          } else {
            Suspend(id, run, Detecting(n));
          }
        case Detecting(n) =>
          Suspend(id, AllDone(run), Explaining(n));
        case Explaining(_) =>
          Unwind(id, run.(status := Done));
      }
    }
  }

  // ---------- runs ----------

  function Init(maxConcurrent: nat): State {
    State(map[], map[], {}, 0, maxConcurrent, map[], {})
  }

  ghost predicate IsRun(s: State, es: seq<Event>)
    decreases |es|, 0
  {
    es == [] || (IsRun(s, es[..|es| - 1]) && Enabled(After(s, es[..|es| - 1]), es[|es| - 1]))
  }

  ghost function After(s: State, es: seq<Event>): State
    requires IsRun(s, es)
    decreases |es|, 1
  {
    if es == [] then s else Next(After(s, es[..|es| - 1]), es[|es| - 1])
  }

  // ---------- deletion is final ----------

  /** The id was deleted: it is not stored, and whatever could still save it sees the mark. */
  predicate Buried(s: State, id: Id) {
    && id in s.created && id !in s.store
    && (id !in s.started ==> id in s.deleted)
    && (Live(s, id) ==> id in s.deleted)
  }

  lemma BuriedStays(s: State, e: Event, id: Id)
    requires TaskInv(s) && Buried(s, id) && Enabled(s, e)
    ensures Buried(Next(s, e), id)
  {
  }

  lemma {:induction false} BuriedForever(s: State, es: seq<Event>, id: Id)
    requires TaskInv(s) && Buried(s, id) && IsRun(s, es)
    ensures Buried(After(s, es), id)
  {
    if es != [] {
      BuriedForever(s, es[..|es| - 1], id);
      TaskInvRun(s, es[..|es| - 1]);
      BuriedStays(After(s, es[..|es| - 1]), es[|es| - 1], id);
    }
  }

  /** Once a created run is deleted, no interleaving of the rest of the program stores it again. */
  lemma DeletedNeverComesBack(maxConcurrent: nat, es: seq<Event>, i: nat)
    requires IsRun(Init(maxConcurrent), es) && i < |es| && es[i].Delete?
    requires IsRun(Init(maxConcurrent), es[..i]) && es[i].id in After(Init(maxConcurrent), es[..i]).created
    ensures es[i].id !in After(Init(maxConcurrent), es).store
  {
    DeletedStaysBuried(Init(maxConcurrent), es, i);
  }

  lemma {:induction false} DeletedStaysBuried(s: State, es: seq<Event>, i: nat)
    requires TaskInv(s) && IsRun(s, es) && i < |es| && es[i].Delete?
    requires IsRun(s, es[..i]) && es[i].id in After(s, es[..i]).created
    ensures Buried(After(s, es), es[i].id)
  {
    var front := es[..|es| - 1];
    if i == |es| - 1 {
      assert es[..i] == front;
    } else {
      assert front[..i] == es[..i];
      DeletedStaysBuried(s, front, i);
      TaskInvRun(s, front);
      BuriedStays(After(s, front), es[|es| - 1], es[i].id);
    }
  }

  /** The body of the run's task has begun and not ended: it will unwind. */
  predicate Begun(s: State, id: Id) {
    id in s.tasks && !s.tasks[id].phase.NotBegun? && !s.tasks[id].phase.NeverRan?
  }

  /** The mark of a started run is there, and no task will drop it. */
  predicate MarkKept(s: State, id: Id) {
    id in s.deleted && id in s.started && !Begun(s, id)
    && (id in s.tasks && s.tasks[id].phase.NotBegun? ==> s.tasks[id].cancelled)
  }

  lemma MarkWithoutTaskStep(s: State, e: Event, id: Id)
    requires TaskInv(s) && MarkKept(s, id) && Enabled(s, e)
    ensures MarkKept(Next(s, e), id)
  {
  }

  /** The mark of a run whose task's body has not begun and never will, or has ended, is never dropped. */
  lemma {:induction false} MarkWithoutTaskStays(s: State, es: seq<Event>, id: Id)
    requires TaskInv(s) && IsRun(s, es) && MarkKept(s, id)
    ensures MarkKept(After(s, es), id)
  {
    if es != [] {
      MarkWithoutTaskStays(s, es[..|es| - 1], id);
      TaskInvRun(s, es[..|es| - 1]);
      MarkWithoutTaskStep(After(s, es[..|es| - 1]), es[|es| - 1], id);
    }
  }

  predicate Resumes(e: Event, id: Id) { e.Resume? && e.id == id }

  /** The mark waits for a cancelled body to unwind. */
  predicate MarkDue(s: State, id: Id) {
    id in s.deleted && id in s.started && Begun(s, id) && s.tasks[id].cancelled
  }

  lemma MarkDueStep(s: State, e: Event, id: Id)
    requires MarkDue(s, id) && Enabled(s, e)
    ensures Resumes(e, id) ==> id !in Next(s, e).deleted && id in Next(s, e).started && id !in Next(s, e).tasks
    ensures !Resumes(e, id) && id in s.created ==> MarkDue(Next(s, e), id)
  {
  }

  /** A mark that is gone stays away, until the run is deleted again. */
  predicate MarkGone(s: State, id: Id) {
    id !in s.deleted && id in s.started && id !in s.tasks
  }

  lemma MarkGoneStep(s: State, e: Event, id: Id)
    requires TaskInv(s) && MarkGone(s, id) && Enabled(s, e) && e != Delete(id)
    ensures MarkGone(Next(s, e), id)
  {
  }

  ghost predicate SomeResume(es: seq<Event>, id: Id) {
    exists j :: 0 <= j < |es| && Resumes(es[j], id)
  }

  lemma SomeResumeSnoc(es: seq<Event>, id: Id)
    requires es != []
    ensures SomeResume(es, id) <==> SomeResume(es[..|es| - 1], id) || Resumes(es[|es| - 1], id)
  {
    if SomeResume(es, id) && !Resumes(es[|es| - 1], id) {
      var j :| 0 <= j < |es| && Resumes(es[j], id);
      assert Resumes(es[..|es| - 1][j], id);
    }
    var front := es[..|es| - 1];
    if j :| 0 <= j < |front| && Resumes(front[j], id) {
      assert Resumes(es[j], id);
    }
  }

  lemma {:induction false} DueMarkGoesOnResume(s: State, es: seq<Event>, id: Id)
    requires TaskInv(s) && MarkDue(s, id) && IsRun(s, es)
    requires forall j :: 0 <= j < |es| ==> es[j] != Delete(id)
    ensures SomeResume(es, id) ==> MarkGone(After(s, es), id)
    ensures !SomeResume(es, id) ==> MarkDue(After(s, es), id)
  {
    if es != [] {
      var front, e := es[..|es| - 1], es[|es| - 1];
      DueMarkGoesOnResume(s, front, id);
      TaskInvRun(s, front);
      SomeResumeSnoc(es, id);
      if SomeResume(front, id) {
        MarkGoneStep(After(s, front), e, id);
      } else {
        MarkDueStep(After(s, front), e, id);
      }
    }
  }

  /**
   * The mark of a deleted run goes if and only if the body of its task had begun and had not ended
   * when the deletion came, and then with the task's next resumption.
   */
  lemma MarkGoesOnlyWithItsTask(s: State, es: seq<Event>, id: Id)
    requires TaskInv(s) && id in s.started && IsRun(Next(s, Delete(id)), es)
    requires forall j :: 0 <= j < |es| ==> es[j] != Delete(id)
    ensures id !in After(Next(s, Delete(id)), es).deleted <==> Begun(s, id) && SomeResume(es, id)
  {
    var s' := Next(s, Delete(id));
    if Begun(s, id) {
      DueMarkGoesOnResume(s', es, id);
    } else {
      MarkWithoutTaskStays(s', es, id);
    }
  }

  /** And that resumption is possible at any time: nothing the other tasks do can hold the mark. */
  lemma DueMarkCanGo(s: State, es: seq<Event>, id: Id, outcome: Outcome)
    requires TaskInv(s) && Begun(s, id) && id in s.started && IsRun(Next(s, Delete(id)), es)
    requires forall j :: 0 <= j < |es| ==> es[j] != Delete(id)
    requires id in After(Next(s, Delete(id)), es).deleted
    ensures Enabled(After(Next(s, Delete(id)), es), Resume(id, outcome))
    ensures id !in Next(After(Next(s, Delete(id)), es), Resume(id, outcome)).deleted
  {
    DueMarkGoesOnResume(Next(s, Delete(id)), es, id);
  }

  lemma Extended(s: State, es: seq<Event>, e: Event)
    requires IsRun(s, es) && Enabled(After(s, es), e)
    ensures IsRun(s, es + [e]) && After(s, es + [e]) == Next(After(s, es), e)
  {
    assert (es + [e])[..|es|] == es;
  }

  /** A sweep deleted before its task's first step: the task never runs, and the mark is never dropped. */
  lemma DeletedBeforeItBegan(maxConcurrent: nat, id: Id) returns (es: seq<Event>)
    ensures es == [Create(id, 1), Start(id), Delete(id), Resume(id, Ok)]
    ensures IsRun(Init(maxConcurrent), es) && MarkKept(After(Init(maxConcurrent), es), id)
  {
    var s := Init(maxConcurrent);
    es := [];
    Extended(s, es, Create(id, 1));
    es := es + [Create(id, 1)];
    Extended(s, es, Start(id));
    es := es + [Start(id)];
    Extended(s, es, Delete(id));
    es := es + [Delete(id)];
    Extended(s, es, Resume(id, Ok));
    es := es + [Resume(id, Ok)];
  }

  /** A sweep deleted after it ended, here by a probe that raised: again nothing is left to drop the mark. */
  lemma DeletedAfterItEnded(maxConcurrent: nat, id: Id) returns (es: seq<Event>)
    requires maxConcurrent > 0
    ensures es == [Create(id, 1), Start(id), Resume(id, Ok), Resume(id, Ok), Resume(id, Raises), Delete(id)]
    ensures IsRun(Init(maxConcurrent), es) && MarkKept(After(Init(maxConcurrent), es), id)
  {
    var s := Init(maxConcurrent);
    es := [];
    Extended(s, es, Create(id, 1));
    es := es + [Create(id, 1)];
    Extended(s, es, Start(id));
    es := es + [Start(id)];
    Extended(s, es, Resume(id, Ok));
    es := es + [Resume(id, Ok)];
    Extended(s, es, Resume(id, Ok));
    es := es + [Resume(id, Ok)];
    Extended(s, es, Resume(id, Raises));
    es := es + [Resume(id, Raises)];
    Extended(s, es, Delete(id));
    es := es + [Delete(id)];
  }

  // ---------- a final status is absorbing ----------

  predicate Final(r: Run) { r.status.Done? || r.status.Error? }

  /** Tasks belong to started runs; runs are handed out new. */
  predicate TaskInv(s: State) {
    && (forall id :: id in s.tasks ==> id in s.started)
    && (forall id :: id in s.started ==> id in s.created)
    && (forall id :: id in s.store ==> id in s.created)
    && (forall id :: id in s.created ==> s.created[id] == NewRun(s.created[id].recipes))
  }

  /** The memory of a task is never final, and a final row has no task left that could save over it. */
  predicate FinalInv(s: State) {
    && (forall id :: id in s.tasks ==> !Final(s.tasks[id].run))
    && (forall id :: id in s.store && Final(s.store[id]) ==> id in s.started && id !in s.tasks)
  }

  lemma TaskInvStep(s: State, e: Event)
    requires TaskInv(s) && Enabled(s, e)
    ensures TaskInv(Next(s, e))
  {
  }

  lemma {:induction false} TaskInvRun(s: State, es: seq<Event>)
    requires TaskInv(s) && IsRun(s, es)
    ensures TaskInv(After(s, es))
  {
    if es != [] {
      TaskInvRun(s, es[..|es| - 1]);
      TaskInvStep(After(s, es[..|es| - 1]), es[|es| - 1]);
    }
  }

  lemma ReactIsFinalOnlyAtTheEnd(t: Task, outcome: Outcome)
    requires !Final(t.run)
    ensures React(t, outcome).Suspends? ==> !Final(React(t, outcome).run)
    ensures React(t, outcome).Ends? ==> Final(React(t, outcome).run)
  {
  }

  lemma FinalInvStep(s: State, e: Event)
    requires TaskInv(s) && FinalInv(s) && Enabled(s, e)
    ensures FinalInv(Next(s, e))
  {
    if e.Resume? {
      ReactIsFinalOnlyAtTheEnd(s.tasks[e.id], e.outcome);
    }
  }

  lemma FinishedRowStays(s: State, e: Event, id: Id)
    requires TaskInv(s) && Enabled(s, e) && id in s.started && id !in s.tasks
    ensures id in Next(s, e).started && id !in Next(s, e).tasks
    ensures id in Next(s, e).store ==> id in s.store && Next(s, e).store[id] == s.store[id]
  {
  }

  /** A stored "done" or "error" row never changes again; it can only be deleted. */
  lemma {:induction false} FinalIsAbsorbing(s: State, es: seq<Event>, id: Id)
    requires TaskInv(s) && FinalInv(s) && IsRun(s, es) && id in s.store && Final(s.store[id])
    ensures id in After(s, es).store ==> After(s, es).store[id] == s.store[id]
    ensures id in After(s, es).started && id !in After(s, es).tasks
  {
    if es != [] {
      FinalIsAbsorbing(s, es[..|es| - 1], id);
      TaskInvRun(s, es[..|es| - 1]);
      FinishedRowStays(After(s, es[..|es| - 1]), es[|es| - 1], id);
    }
  }

  lemma {:induction false} FinalInvRun(s: State, es: seq<Event>)
    requires TaskInv(s) && FinalInv(s) && IsRun(s, es)
    ensures FinalInv(After(s, es))
  {
    if es != [] {
      FinalInvRun(s, es[..|es| - 1]);
      TaskInvRun(s, es[..|es| - 1]);
      FinalInvStep(After(s, es[..|es| - 1]), es[|es| - 1]);
    }
  }

  // ---------- concurrency ----------

  function Holders(s: State): set<Id> { set id | id in s.tasks && HoldsSlot(s.tasks[id].phase) }

  function Section(s: State): set<Id> { set id | id in s.tasks && InSection(s.tasks[id].phase) }

  /** Permits and holders add up, and the counter counts the running section. */
  predicate Counts(s: State, maxConcurrent: nat) {
    s.free + |Holders(s)| == maxConcurrent && s.inflight == |Section(s)| && s.free >= 0
  }

  function Toggled(a: set<Id>, id: Id, on: bool): set<Id> { if on then a + {id} else a - {id} }

  lemma ToggledSize(a: set<Id>, id: Id, on: bool)
    ensures |Toggled(a, id, on)| == |a| - Bit(id in a) + Bit(on)
  {
    if id in a {
      assert a + {id} == a;
    } else {
      assert a - {id} == a;
    }
  }

  lemma ApplyToggles(s: State, id: Id, a: Action)
    requires id in s.tasks
    ensures Holders(Apply(s, id, a)) == Toggled(Holders(s), id, a.Suspends? && HoldsSlot(a.phase))
    ensures Section(Apply(s, id, a)) == Toggled(Section(s), id, a.Suspends? && InSection(a.phase))
  {
  }

  lemma ApplyCounts(s: State, id: Id, a: Action, maxConcurrent: nat)
    requires id in s.tasks && Counts(s, maxConcurrent)
    requires Apply(s, id, a).free >= 0
    ensures Counts(Apply(s, id, a), maxConcurrent)
  {
    ApplyToggles(s, id, a);
    ToggledSize(Holders(s), id, a.Suspends? && HoldsSlot(a.phase));
    ToggledSize(Section(s), id, a.Suspends? && InSection(a.phase));
  }

  /** Only a task waiting for a slot takes one, and then one is free. */
  lemma ReactTakesOnlyFreeSlots(t: Task, outcome: Outcome)
    ensures React(t, outcome).Suspends? && HoldsSlot(React(t, outcome).phase) ==>
      HoldsSlot(t.phase) || (t.phase.AwaitSlot? && !t.cancelled)
  {
  }

  lemma CountsStep(s: State, e: Event, maxConcurrent: nat)
    requires Counts(s, maxConcurrent) && TaskInv(s) && Enabled(s, e)
    ensures Counts(Next(s, e), maxConcurrent)
  {
    var s' := Next(s, e);
    if e.Resume? {
      ReactTakesOnlyFreeSlots(s.tasks[e.id], e.outcome);
      ApplyCounts(s, e.id, React(s.tasks[e.id], e.outcome), maxConcurrent);
    } else {
      assert Holders(s') == Holders(s);
      assert Section(s') == Section(s);
    }
  }

  /** In every reachable state at most `maxConcurrent` sweeps are in the running section, and the counter says how many. */
  lemma {:induction false} SectionIsBounded(maxConcurrent: nat, es: seq<Event>)
    requires IsRun(Init(maxConcurrent), es)
    ensures Counts(After(Init(maxConcurrent), es), maxConcurrent)
    ensures After(Init(maxConcurrent), es).inflight <= maxConcurrent
  {
    var s := After(Init(maxConcurrent), es);
    if es == [] {
      assert Holders(s) == {} && Section(s) == {};
    } else {
      SectionIsBounded(maxConcurrent, es[..|es| - 1]);
      TaskInvRun(Init(maxConcurrent), es[..|es| - 1]);
      CountsStep(After(Init(maxConcurrent), es[..|es| - 1]), es[|es| - 1], maxConcurrent);
    }
    SectionWithinHolders(s);
  }

  lemma SectionWithinHolders(s: State)
    ensures |Section(s)| <= |Holders(s)|
  {
    assert Section(s) <= Holders(s);
    SubsetSize(Section(s), Holders(s));
  }

  // ---------- progress ----------

  /** Transcriptions of a whole sweep: one source pass and one per recipe, for each clip. */
  function Passes(clips: nat, recipes: nat): nat { clips * (recipes + 1) }

  lemma PassesStep(clips: nat, recipes: nat)
    ensures Passes(clips + 1, recipes) == Passes(clips, recipes) + recipes + 1
  {
  }

  lemma {:induction false} PassesMonotone(a: nat, b: nat, recipes: nat)
    requires a <= b
    ensures Passes(a, recipes) <= Passes(b, recipes)
  {
    if a < b {
      PassesMonotone(a, b - 1, recipes);
      PassesStep(b - 1, recipes);
    }
  }

  /** The progress of a task is where its phase says. */
  predicate OnTrack(t: Task) {
    var p, r := t.run.progress, t.run.recipes;
    match t.phase
    case Transcribing(c, k, n) =>
      c < n && k <= r && |p.clips| == n && p.total == Passes(n, r) && p.done == Passes(c, r) + k
    case Judging(c, n) => c < n && |p.clips| == n && p.total == Passes(n, r) && p.done == Passes(c + 1, r)
    case Detecting(n) => |p.clips| == n && p.total == Passes(n, r) == p.done
    case Explaining(n) =>
      |p.clips| == n && p.total == Passes(n, r) == p.done && forall j :: 0 <= j < n ==> p.clips[j] == ClipDone
    case _ => p == SCAFFOLD
  }

  /** A finished sweep did every pass of every clip. */
  predicate Complete(r: Run) {
    && r.progress.done == r.progress.total == Passes(|r.progress.clips|, r.recipes)
    && forall j :: 0 <= j < |r.progress.clips| ==> r.progress.clips[j] == ClipDone
  }

  predicate WithinTotal(r: Run) { r.progress.done <= r.progress.total }

  predicate GoodRow(r: Run) { WithinTotal(r) && (r.status.Done? ==> Complete(r)) }

  predicate ProgressInv(s: State) {
    && (forall id :: id in s.tasks ==> OnTrack(s.tasks[id]))
    && (forall id :: id in s.store ==> GoodRow(s.store[id]))
  }

  lemma OnTrackWithinTotal(t: Task)
    requires OnTrack(t)
    ensures WithinTotal(t.run)
  {
    match t.phase
    case Transcribing(c, k, n) =>
      PassesStep(c, t.run.recipes);
      PassesMonotone(c + 1, n, t.run.recipes);
    case Judging(c, n) => PassesMonotone(c + 1, n, t.run.recipes);
    case _ =>
  }

  lemma SuspendedOnTrack(t: Task, outcome: Outcome)
    requires OnTrack(t) && !Final(t.run) && React(t, outcome).Suspends?
    ensures OnTrack(Task(React(t, outcome).run, React(t, outcome).phase, t.cancelled))
  {
    match t.phase
    case Transcribing(c, k, n) => PassesStep(c, t.run.recipes);
    case Judging(c, n) =>
    case _ =>
  }

  lemma EndedIsGood(t: Task, outcome: Outcome)
    requires OnTrack(t) && !Final(t.run) && React(t, outcome).Ends?
    ensures GoodRow(React(t, outcome).run)
  {
    OnTrackWithinTotal(t);
    match t.phase
    case Transcribing(c, k, n) => PassesStep(c, t.run.recipes);
    case Judging(c, n) =>
    case _ =>
  }

  /** A resumption keeps its task on track, and what it saves is good. */
  lemma ReactStaysOnTrack(t: Task, outcome: Outcome)
    requires OnTrack(t) && !Final(t.run)
    ensures var a := React(t, outcome);
            && (a.Suspends? ==> OnTrack(Task(a.run, a.phase, t.cancelled)))
            && GoodRow(a.run)
  {
    var a := React(t, outcome);
    ReactIsFinalOnlyAtTheEnd(t, outcome);
    if a.Suspends? {
      SuspendedOnTrack(t, outcome);
      OnTrackWithinTotal(Task(a.run, a.phase, t.cancelled));
    } else {
      EndedIsGood(t, outcome);
    }
  }

  lemma ProgressStep(s: State, e: Event)
    requires ProgressInv(s) && TaskInv(s) && FinalInv(s) && Enabled(s, e)
    ensures ProgressInv(Next(s, e))
  {
    if e.Resume? {
      ReactStaysOnTrack(s.tasks[e.id], e.outcome);
    }
  }

  /** Every stored "done" row, in every reachable state, has done == total == clips x (recipes + 1). */
  lemma {:induction false} DoneMeansComplete(maxConcurrent: nat, es: seq<Event>)
    requires IsRun(Init(maxConcurrent), es)
    ensures ProgressInv(After(Init(maxConcurrent), es))
  {
    if es != [] {
      var front := es[..|es| - 1];
      DoneMeansComplete(maxConcurrent, front);
      TaskInvRun(Init(maxConcurrent), front);
      FinalInvRun(Init(maxConcurrent), front);
      ProgressStep(After(Init(maxConcurrent), front), es[|es| - 1]);
    }
  }
}
