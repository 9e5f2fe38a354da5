/**
 * The persisted overrides file: a locked read-modify-write with a temporary file and an
 * atomic replace.  `Next` interleaves the file-system steps of any number of saves, clears
 * and loads; a crash is any point at which a run stops.
 */
module ConfigStore {
  import opened Common

  type Value = string

  type Overrides = map<string, Value>

  /** What a path holds.  `Corrupt` does not parse; `Partial` is a file still being written. */
  datatype File = Absent | Json(data: Overrides) | NotADict | Corrupt(bytes: nat) | Partial

  datatype Disk = Disk(main: File, tmp: File, asides: map<int, File>)

  datatype Op = Save(key: string, value: Value) | Clear(key: string) | Load

  /** The overrides a file stands for. */
  function View(f: File): Overrides {
    if f.Json? then f.data else map[]
  }

  /** What the file says about one key. */
  function Entry(f: File, key: string): Option<Value> {
    if f.Json? && key in f.data then Some(f.data[key]) else None
  }

  function Effect(op: Op, data: Overrides): Overrides {
    match op
    case Save(key, value) => data[key := value]
    case Clear(key) => data - {key}
    case Load => data
  }

  /** A load writes nothing, nor does a clear of a key that is not there. */
  predicate Writes(op: Op, data: Overrides) {
    op.Save? || (op.Clear? && op.key in data)
  }

  // ---------- reading ----------

  /** Moving a corrupt file aside under the current time, if the rename goes through. */
  function Preserved(d: Disk, now: int, renameOk: bool): Disk {
    if d.main.Corrupt? && renameOk then Disk(Absent, d.tmp, d.asides[now := d.main]) else d
  }

  datatype ReadResult = Unreadable | Data(data: Overrides, readOk: bool)

  function Reading(f: File, readable: bool): ReadResult {
    match f
    case Absent => Data(map[], true)
    case _ =>
      if !readable then Unreadable
      else if f.Json? then Data(f.data, true)
      else Data(map[], !f.Corrupt? && !f.Partial?)
  }

  class ConfigStore {
    var disk: Disk

    constructor (disk: Disk)
      ensures this.disk == disk
    {
      this.disk := disk;
    }

    method PreserveCorrupt(now: int, renameOk: bool)
      requires disk.main.Corrupt?
      modifies this
      ensures disk == Preserved(old(disk), now, renameOk)
    {
      if renameOk {
        disk := Disk(Absent, disk.tmp, disk.asides[now := disk.main]);
      }
    }

    /** `readable` is whether the operating system lets this read through. */
    method ReadFile(now: int, readable: bool, renameOk: bool) returns (r: ReadResult)
      requires !disk.main.Partial?
      modifies this
      ensures r == Reading(old(disk).main, readable)
      ensures disk == if r.Unreadable? then old(disk) else Preserved(old(disk), now, renameOk)
      ensures r.Data? ==> r.data == View(old(disk).main) == View(disk.main)
    {
      if disk.main.Absent? {
        return Data(map[], true);
      }
      if !readable {
        return Unreadable;
      }
      if disk.main.Corrupt? {
        PreserveCorrupt(now, renameOk);
        return Data(map[], false);
      }
      r := Data(if disk.main.Json? then disk.main.data else map[], true);
    }

    /** Write the temporary file, make it durable, replace.  `history` is the main file after each step. */
    method Write(data: Overrides, writeOk: bool) returns (ok: bool, ghost history: seq<File>)
      modifies this
      ensures ok == writeOk
      ensures disk.main == if ok then Json(data) else old(disk).main
      ensures disk.asides == old(disk).asides
      ensures forall f :: f in history ==> f == old(disk).main || f == Json(data)
    {
      disk := disk.(tmp := Partial);
      history := [disk.main];
      if !writeOk {
        return false, history;
      }
      disk := disk.(tmp := Json(data));
      history := history + [disk.main];
      disk := disk.(main := disk.tmp, tmp := Absent);
      history := history + [disk.main];
      ok := true;
    }

    /** A load, alone under the lock: what is stored, and whether that could be told. */
    method LoadOverridesResult(now: int, readable: bool, renameOk: bool) returns (data: Overrides, ok: bool)
      requires !disk.main.Partial?
      modifies this
      ensures ok <==> old(disk).main.Absent? || (readable && !old(disk).main.Corrupt?)
      ensures data == if old(disk).main.Absent? || readable then View(old(disk).main) else map[]
      ensures View(disk.main) == View(old(disk).main)
      ensures disk == if readable then Preserved(old(disk), now, renameOk) else old(disk)
    {
      var r := ReadFile(now, readable, renameOk);
      if r.Unreadable? {
        return map[], false;
      }
      data, ok := r.data, r.readOk;
    }

    /** A save or a clear, alone under the lock. */
    method Run(op: Op, now: int, readable: bool, renameOk: bool, writeOk: bool)
      returns (ok: bool, ghost history: seq<File>)
      requires !disk.main.Partial? && !op.Load?
      modifies this
      ensures ok <==> (old(disk).main.Absent? || readable) && (Writes(op, View(old(disk).main)) ==> writeOk)
      ensures ok ==> View(disk.main) == Effect(op, View(old(disk).main))
      ensures !ok ==> View(disk.main) == View(old(disk).main)
      ensures ok && op.Save? ==> Entry(disk.main, op.key) == Some(op.value)
      ensures ok && op.Clear? ==> Entry(disk.main, op.key) == None
      ensures forall k :: !ok || k != op.key ==> Entry(disk.main, k) == Entry(old(disk).main, k)
      ensures !readable && !old(disk).main.Absent? ==> disk == old(disk)
      ensures disk.asides == if old(disk).main.Corrupt? && readable && renameOk then old(disk).asides[now := old(disk).main]
                             else old(disk).asides
      ensures forall f :: f in history ==>
        f == old(disk).main || f == Preserved(old(disk), now, renameOk).main || f == Json(Effect(op, View(old(disk).main)))
    {
      history := [disk.main];
      var r := ReadFile(now, readable, renameOk);
      history := history + [disk.main];
      if r.Unreadable? {
        return false, history;
      }
      if op.Clear? && op.key !in r.data {
        assert Effect(op, r.data) == r.data;
        return true, history;
      }
      ghost var steps;
      ok, steps := Write(if op.Save? then r.data[op.key := op.value] else r.data - {op.key}, writeOk);
      history := history + steps;
    }
  }

  // ---------- interleaved and interrupted ----------

  /** Where a caller is inside `with _lock`; `ok` is false for an exception and for a load that cannot tell what is stored. */
  datatype Phase =
    | Waiting
    | Locked
    | Loaded(data: Overrides)
    | Writing(data: Overrides)
    | Synced(data: Overrides)
    | Returning(ok: bool)
    | Finished(ok: bool)

  datatype Call = Call(op: Op, phase: Phase)

  /** `log` records the operations in the order in which they took effect. */
  datatype State = State(disk: Disk, calls: map<nat, Call>, holder: Option<nat>, log: seq<nat>)

  datatype Step =
    | Begin(c: nat, op: Op)
    | Acquire(c: nat)
    | Read(c: nat, now: int, readable: bool, renameOk: bool)
    | OpenTmp(c: nat)
    | SyncTmp(c: nat)
    | WriteFails(c: nat)
    | Replace(c: nat)
    | Release(c: nat)

  predicate At(s: State, c: nat) { c in s.calls && s.holder == Some(c) }

  predicate Enabled(s: State, e: Step) {
    match e
    case Begin(c, _) => c !in s.calls
    case Acquire(c) => c in s.calls && s.calls[c].phase.Waiting? && s.holder.None?
    case Read(c, _, _, _) => At(s, c) && s.calls[c].phase.Locked?
    case OpenTmp(c) => At(s, c) && s.calls[c].phase.Loaded?
    case SyncTmp(c) => At(s, c) && s.calls[c].phase.Writing?
    case WriteFails(c) => At(s, c) && (s.calls[c].phase.Loaded? || s.calls[c].phase.Writing?)
    case Replace(c) => At(s, c) && s.calls[c].phase.Synced?
    case Release(c) => At(s, c) && s.calls[c].phase.Returning?
  }

  function To(s: State, c: nat, phase: Phase): State
    requires c in s.calls
  {
    s.(calls := s.calls[c := s.calls[c].(phase := phase)])
  }

  function Next(s: State, e: Step): State
    requires Enabled(s, e)
  {
    match e
    case Begin(c, op) => s.(calls := s.calls[c := Call(op, Waiting)])
    case Acquire(c) => To(s, c, Locked).(holder := Some(c))
    case Read(c, now, readable, renameOk) =>
      var r, op := Reading(s.disk.main, readable), s.calls[c].op;
      if r.Unreadable? then To(s, c, Returning(false))
      else if op.Load? && !r.readOk then To(s, c, Returning(false)).(disk := Preserved(s.disk, now, renameOk))
      else if !Writes(op, r.data) then
        To(s, c, Returning(true)).(disk := Preserved(s.disk, now, renameOk), log := s.log + [c])
      else To(s, c, Loaded(Effect(op, r.data))).(disk := Preserved(s.disk, now, renameOk))
    case OpenTmp(c) => To(s, c, Writing(s.calls[c].phase.data)).(disk := s.disk.(tmp := Partial))
    case SyncTmp(c) => To(s, c, Synced(s.calls[c].phase.data)).(disk := s.disk.(tmp := Json(s.calls[c].phase.data)))
    case WriteFails(c) => To(s, c, Returning(false))
    case Replace(c) =>
      To(s, c, Returning(true)).(disk := Disk(s.disk.tmp, Absent, s.disk.asides), log := s.log + [c])
    case Release(c) => To(s, c, Finished(s.calls[c].phase.ok)).(holder := None)
  }

  ghost predicate IsRun(s: State, es: seq<Step>)
    decreases |es|, 0
  {
    es == [] || (IsRun(s, es[..|es| - 1]) && Enabled(After(s, es[..|es| - 1]), es[|es| - 1]))
  }

  ghost function After(s: State, es: seq<Step>): State
    requires IsRun(s, es)
    decreases |es|, 1
  {
    if es == [] then s else Next(After(s, es[..|es| - 1]), es[|es| - 1])
  }

  function Start(disk: Disk): State { State(disk, map[], None, []) }

  /** The overrides after applying the logged operations one after another. */
  function Sequential(start: Overrides, calls: map<nat, Call>, log: seq<nat>): Overrides
    requires forall i :: 0 <= i < |log| ==> log[i] in calls
  {
    if log == [] then start
    else Effect(calls[log[|log| - 1]].op, Sequential(start, calls, log[..|log| - 1]))
  }

  /** A call inside the lock has the data its operation gives on the current file, and its own temporary file. */
  predicate CallInv(s: State, c: nat) {
    c in s.calls &&
    match s.calls[c].phase
    case Waiting => s.holder != Some(c) && c !in s.log
    case Locked => s.holder == Some(c) && c !in s.log
    case Loaded(data) => s.holder == Some(c) && c !in s.log && data == Effect(s.calls[c].op, View(s.disk.main))
    case Writing(data) => s.holder == Some(c) && c !in s.log && data == Effect(s.calls[c].op, View(s.disk.main))
    case Synced(data) =>
      s.holder == Some(c) && c !in s.log && data == Effect(s.calls[c].op, View(s.disk.main)) && s.disk.tmp == Json(data)
    case Returning(ok) => s.holder == Some(c) && (ok <==> c in s.log)
    case Finished(ok) => s.holder != Some(c) && (ok <==> c in s.log)
  }

  predicate Inv(start: Overrides, s: State) {
    && !s.disk.main.Partial?
    && (s.holder.Some? ==> s.holder.value in s.calls)
    && (forall c :: c in s.calls ==> CallInv(s, c))
    && (forall i :: 0 <= i < |s.log| ==> s.log[i] in s.calls)
    && (forall i, j :: 0 <= i < j < |s.log| ==> s.log[i] != s.log[j])
    && View(s.disk.main) == Sequential(start, s.calls, s.log)
  }

  /** The operations of the logged calls are all that `Sequential` looks at. */
  lemma {:induction false} SequentialSameOps(start: Overrides, a: map<nat, Call>, b: map<nat, Call>, log: seq<nat>)
    requires forall i :: 0 <= i < |log| ==> log[i] in a && log[i] in b && a[log[i]].op == b[log[i]].op
    ensures Sequential(start, a, log) == Sequential(start, b, log)
  {
    if log != [] {
      SequentialSameOps(start, a, b, log[..|log| - 1]);
    }
  }

  lemma NoWriteNoEffect(op: Op, data: Overrides)
    requires !Writes(op, data)
    ensures Effect(op, data) == data
  {
  }

  lemma CallInvStep(start: Overrides, s: State, e: Step, c: nat)
    requires Inv(start, s) && Enabled(s, e) && c in Next(s, e).calls
    ensures CallInv(Next(s, e), c)
  {
    if c in s.calls {
      assert CallInv(s, c);
    }
    if e.c in s.calls {
      assert CallInv(s, e.c);
    }
  }

  /** The file changes only together with the log, or not in what it stands for. */
  lemma ViewStep(start: Overrides, s: State, e: Step)
    requires Inv(start, s) && Enabled(s, e)
    ensures !Next(s, e).disk.main.Partial?
    ensures var s' := Next(s, e);
            || (s'.log == s.log && View(s'.disk.main) == View(s.disk.main))
            || (s'.log == s.log + [e.c] && e.c in s.calls && e.c !in s.log
                && View(s'.disk.main) == Effect(s.calls[e.c].op, View(s.disk.main)))
  {
    if e.c in s.calls {
      assert CallInv(s, e.c);
      if e.Read? && !Writes(s.calls[e.c].op, View(s.disk.main)) {
        NoWriteNoEffect(s.calls[e.c].op, View(s.disk.main));
      }
    }
  }

  lemma OpsStay(s: State, e: Step, c: nat)
    requires Enabled(s, e) && c in s.calls
    ensures c in Next(s, e).calls && Next(s, e).calls[c].op == s.calls[c].op
  {
  }

  lemma InvStep(start: Overrides, s: State, e: Step)
    requires Inv(start, s) && Enabled(s, e)
    ensures Inv(start, Next(s, e))
  {
    var s' := Next(s, e);
    forall c | c in s'.calls ensures CallInv(s', c) {
      CallInvStep(start, s, e, c);
    }
    forall c | c in s.calls ensures c in s'.calls && s'.calls[c].op == s.calls[c].op {
      OpsStay(s, e, c);
    }
    ViewStep(start, s, e);
    SequentialSameOps(start, s.calls, s'.calls, s.log);
    if s'.log != s.log {
      assert s'.log[..|s.log|] == s.log;
    }
  }

  /**
   * Every interleaving is a sequential execution: at any moment the file holds exactly the logged
   * operations applied in order, each call that returned normally is in the log once, no failed one is.
   */
  lemma {:induction false} SavesLinearise(disk: Disk, es: seq<Step>)
    requires !disk.main.Partial? && IsRun(Start(disk), es)
    ensures Inv(View(disk.main), After(Start(disk), es))
  {
    if es != [] {
      SavesLinearise(disk, es[..|es| - 1]);
      InvStep(View(disk.main), After(Start(disk), es[..|es| - 1]), es[|es| - 1]);
    }
  }

  // ---------- key by key ----------

  /** The call saves or clears the key. */
  predicate Touches(op: Op, key: string) {
    (op.Save? || op.Clear?) && op.key == key
  }

  /** The i-th logged call is the last one that saves or clears the key. */
  ghost predicate IsLastWord(s: State, key: string, i: nat) {
    && i < |s.log| && s.log[i] in s.calls && Touches(s.calls[s.log[i]].op, key)
    && forall j :: i < j < |s.log| && s.log[j] in s.calls ==> !Touches(s.calls[s.log[j]].op, key)
  }

  ghost predicate NeverTouched(s: State, key: string) {
    forall j :: 0 <= j < |s.log| && s.log[j] in s.calls ==> !Touches(s.calls[s.log[j]].op, key)
  }

  function ValueAt(data: Overrides, key: string): Option<Value> {
    if key in data then Some(data[key]) else None
  }

  lemma EntryOfView(f: File, key: string)
    ensures Entry(f, key) == ValueAt(View(f), key)
  {
  }

  /** Calls that do not touch the key leave its entry. */
  lemma {:induction false} UntouchedStays(start: Overrides, calls: map<nat, Call>, log: seq<nat>, n: nat, key: string)
    requires n <= |log| && forall j :: 0 <= j < |log| ==> log[j] in calls
    requires forall j :: n <= j < |log| ==> !Touches(calls[log[j]].op, key)
    ensures ValueAt(Sequential(start, calls, log), key) == ValueAt(Sequential(start, calls, log[..n]), key)
  {
    if n == |log| {
      assert log[..n] == log;
    } else {
      UntouchedStays(start, calls, log[..|log| - 1], n, key);
      assert log[..|log| - 1][..n] == log[..n];
    }
  }

  lemma LastWordDecides(start: Overrides, calls: map<nat, Call>, log: seq<nat>, i: nat, key: string)
    requires i < |log| && forall j :: 0 <= j < |log| ==> log[j] in calls
    requires Touches(calls[log[i]].op, key) && forall j :: i < j < |log| ==> !Touches(calls[log[j]].op, key)
    ensures var op := calls[log[i]].op;
      ValueAt(Sequential(start, calls, log), key) == if op.Save? then Some(op.value) else None
  {
    UntouchedStays(start, calls, log, i + 1, key);
    assert log[..i + 1][..i] == log[..i];
  }

  /**
   * In every interleaving the file's entry at a key is what the last logged call on that key says:
   * the saved value, or none after a clear; and the entry at the start if no logged call was on it.
   */
  lemma LastSaveWins(disk: Disk, es: seq<Step>, key: string)
    requires !disk.main.Partial? && IsRun(Start(disk), es)
    ensures var s := After(Start(disk), es);
      && (NeverTouched(s, key) ==> Entry(s.disk.main, key) == Entry(disk.main, key))
      && (forall i: nat :: IsLastWord(s, key, i) ==>
            Entry(s.disk.main, key) ==
              if s.calls[s.log[i]].op.Save? then Some(s.calls[s.log[i]].op.value) else None)
  {
    SavesLinearise(disk, es);
    var s := After(Start(disk), es);
    EntryOfView(s.disk.main, key);
    EntryOfView(disk.main, key);
    if NeverTouched(s, key) {
      UntouchedStays(View(disk.main), s.calls, s.log, 0, key);
      assert s.log[..0] == [];
    }
    forall i: nat | IsLastWord(s, key, i)
      ensures Entry(s.disk.main, key) ==
        if s.calls[s.log[i]].op.Save? then Some(s.calls[s.log[i]].op.value) else None
    {
      LastWordDecides(View(disk.main), s.calls, s.log, i, key);
    }
  }

  lemma {:induction false} PrefixIsRun(s: State, es: seq<Step>, m: nat)
    requires IsRun(s, es) && m <= |es|
    ensures IsRun(s, es[..m])
  {
    if m == |es| {
      assert es[..m] == es;
    } else {
      PrefixIsRun(s, es[..|es| - 1], m);
      assert es[..|es| - 1][..m] == es[..m];
    }
  }

  /** From one moment to a later one the log only grows, and finished calls stay as they are. */
  ghost predicate Later(s: State, s': State) {
    s.log <= s'.log
    && forall c :: c in s.calls && s.calls[c].phase.Finished? ==> c in s'.calls && s'.calls[c] == s.calls[c]
  }

  lemma LaterStep(s: State, e: Step)
    requires Enabled(s, e)
    ensures Later(s, Next(s, e))
  {
  }

  lemma LaterStill(a: State, b: State, c: State)
    requires Later(a, b) && Later(b, c)
    ensures Later(a, c)
  {
  }

  lemma {:induction false} LogGrows(s: State, es: seq<Step>, m: nat)
    requires IsRun(s, es) && m <= |es| && IsRun(s, es[..m])
    ensures Later(After(s, es[..m]), After(s, es))
  {
    if m == |es| {
      assert es[..m] == es;
    } else {
      var front := es[..|es| - 1];
      assert front[..m] == es[..m];
      LogGrows(s, front, m);
      LaterStep(After(s, front), es[|es| - 1]);
      LaterStill(After(s, es[..m]), After(s, front), After(s, es));
    }
  }

  /** The order of the log is the real one: a call that finished before another began comes before it. */
  lemma LogRespectsTime(disk: Disk, es: seq<Step>, m: nat, i: nat, j: nat)
    requires !disk.main.Partial? && IsRun(Start(disk), es) && m <= |es| && IsRun(Start(disk), es[..m])
    requires i < |After(Start(disk), es).log| && j < |After(Start(disk), es).log|
    requires var s, log := After(Start(disk), es[..m]), After(Start(disk), es).log;
      log[i] in s.calls && s.calls[log[i]].phase.Finished? && log[j] !in s.calls
    ensures i < j
  {
    var s, end := After(Start(disk), es[..m]), After(Start(disk), es);
    LogGrows(Start(disk), es, m);
    SavesLinearise(disk, es[..m]);
    SavesLinearise(disk, es);
    var c := end.log[i];
    assert CallInv(s, c) && CallInv(end, c);
    assert c in s.log;
    var k :| 0 <= k < |s.log| && s.log[k] == c;
    assert end.log[k] == c && k == i;
    assert forall l :: 0 <= l < |s.log| ==> s.log[l] in s.calls && end.log[l] == s.log[l];
  }

  /** What a load that can tell returns is what the operations logged so far add up to. */
  lemma LoadSeesTheLog(disk: Disk, es: seq<Step>, e: Step)
    requires !disk.main.Partial? && IsRun(Start(disk), es) && Enabled(After(Start(disk), es), e)
    requires e.Read? && After(Start(disk), es).calls[e.c].op.Load?
    ensures Inv(View(disk.main), After(Start(disk), es))
    ensures var s, s' := After(Start(disk), es), Next(After(Start(disk), es), e);
      && (s'.calls[e.c].phase == Returning(true) <==> s'.log == s.log + [e.c])
      && (s'.calls[e.c].phase == Returning(true) ==>
            Reading(s.disk.main, e.readable) == Data(Sequential(View(disk.main), s.calls, s.log), true))
      && View(s'.disk.main) == View(s.disk.main)
  {
    SavesLinearise(disk, es);
  }

  /**
   * Stop anywhere: one step leaves the file as it was, moves a corrupt file aside intact, or puts a
   * complete new version of it in place.
   */
  lemma StepIsAtomic(start: Overrides, s: State, e: Step)
    requires Inv(start, s) && Enabled(s, e)
    ensures var f, f' := s.disk.main, Next(s, e).disk.main;
            || f' == f
            || (e.Read? && f.Corrupt? && f'.Absent? && e.now in Next(s, e).disk.asides && Next(s, e).disk.asides[e.now] == f)
            || (e.Replace? && e.c in s.calls && f' == Json(Effect(s.calls[e.c].op, View(f))))
  {
    if e.Replace? {
      assert CallInv(s, e.c);
    }
  }

  /** A present file that cannot be read is left alone and its save fails. */
  lemma UnreadableIsNeverReplaced(s: State, e: Step)
    requires Enabled(s, e) && e.Read? && !e.readable && !s.disk.main.Absent?
    ensures Next(s, e).disk == s.disk && Next(s, e).calls[e.c].phase == Returning(false)
  {
  }

  ghost predicate RenamesSucceed(es: seq<Step>) {
    forall i :: 0 <= i < |es| && es[i].Read? ==> es[i].renameOk
  }

  /** The call has read the file and may still replace it. */
  predicate PastRead(s: State, c: nat) {
    c in s.calls && (s.calls[c].phase.Loaded? || s.calls[c].phase.Writing? || s.calls[c].phase.Synced?)
  }

  lemma PastReadStep(start: Overrides, s: State, e: Step, c: nat)
    requires Inv(start, s) && Enabled(s, e) && PastRead(Next(s, e), c)
    ensures !(e.Read? && e.c == c) ==> PastRead(s, c) && Next(s, e).disk.main == s.disk.main
    ensures e.Read? && e.c == c ==> Next(s, e).disk.main == Preserved(s.disk, e.now, e.renameOk).main
  {
    if c in s.calls {
      assert CallInv(s, c);
    }
    if e.c in s.calls {
      assert CallInv(s, e.c);
    }
  }

  ghost predicate NonePastRead(s: State) {
    forall c :: !PastRead(s, c)
  }

  lemma ReplacerIsPastRead(s: State, e: Step)
    requires Enabled(s, e) && e.Replace?
    ensures PastRead(s, e.c)
  {
  }

  lemma NonePastReadStep(start: Overrides, s: State, e: Step)
    requires Inv(start, s) && Enabled(s, e) && (e.Read? ==> e.renameOk)
    requires s.disk.main.Corrupt? ==> NonePastRead(s)
    ensures Next(s, e).disk.main.Corrupt? ==> NonePastRead(Next(s, e))
  {
    if Next(s, e).disk.main.Corrupt? {
      forall c ensures !PastRead(Next(s, e), c) {
        if PastRead(Next(s, e), c) {
          PastReadStep(start, s, e, c);
        }
      }
    }
  }

  /** While renames succeed, no call past its read faces a corrupt file. */
  lemma {:induction false} CorruptFileIsGoneAfterRead(disk: Disk, es: seq<Step>)
    requires !disk.main.Partial? && IsRun(Start(disk), es) && RenamesSucceed(es)
    ensures After(Start(disk), es).disk.main.Corrupt? ==> NonePastRead(After(Start(disk), es))
  {
    if es != [] {
      var front, e := es[..|es| - 1], es[|es| - 1];
      assert forall i :: 0 <= i < |front| ==> front[i] == es[i];
      CorruptFileIsGoneAfterRead(disk, front);
      SavesLinearise(disk, front);
      assert e.Read? ==> e.renameOk;
      NonePastReadStep(View(disk.main), After(Start(disk), front), e);
    }
  }

  /** So with renames that succeed a corrupt file only ever leaves its place by being preserved. */
  lemma CorruptFileIsPreserved(disk: Disk, es: seq<Step>, e: Step)
    requires !disk.main.Partial? && IsRun(Start(disk), es) && RenamesSucceed(es)
    requires Enabled(After(Start(disk), es), e) && (e.Read? ==> e.renameOk)
    requires After(Start(disk), es).disk.main.Corrupt?
    ensures var s, s' := After(Start(disk), es), Next(After(Start(disk), es), e);
            s'.disk.main == s.disk.main || (e.Read? && e.now in s'.disk.asides && s'.disk.asides[e.now] == s.disk.main)
  {
    CorruptFileIsGoneAfterRead(disk, es);
    if e.Replace? {
      ReplacerIsPastRead(After(Start(disk), es), e);
    }
  }

  /** Where call c last read the file. */
  function ReadOf(es: seq<Step>, c: nat): (r: Option<nat>)
    ensures r.Some? ==> r.value < |es| && es[r.value].Read? && es[r.value].c == c
  {
    if es == [] then None
    else if es[|es| - 1].Read? && es[|es| - 1].c == c then Some(|es| - 1)
    else ReadOf(es[..|es| - 1], c)
  }

  /** Until the call replaces it, the file is as the call's own read left it. */
  lemma {:induction false} ReadStands(disk: Disk, es: seq<Step>, c: nat)
    requires !disk.main.Partial? && IsRun(Start(disk), es) && PastRead(After(Start(disk), es), c)
    ensures ReadOf(es, c).Some? && IsRun(Start(disk), es[..ReadOf(es, c).value])
    ensures var r := ReadOf(es, c).value;
      After(Start(disk), es).disk.main
        == Preserved(After(Start(disk), es[..r]).disk, es[r].now, es[r].renameOk).main
  {
    if es != [] {
      var front, e := es[..|es| - 1], es[|es| - 1];
      SavesLinearise(disk, front);
      PastReadStep(View(disk.main), After(Start(disk), front), e, c);
      if !(e.Read? && e.c == c) {
        ReadStands(disk, front, c);
        var r := ReadOf(front, c).value;
        assert es[..r] == front[..r] && es[r] == front[r];
      }
    }
  }

  /**
   * The file a call is about to replace is corrupt if and only if the call's own read found it
   * corrupt and could not rename it aside.
   */
  lemma CorruptFileLostExactly(disk: Disk, es: seq<Step>, c: nat)
    requires !disk.main.Partial? && IsRun(Start(disk), es) && Enabled(After(Start(disk), es), Replace(c))
    ensures ReadOf(es, c).Some? && IsRun(Start(disk), es[..ReadOf(es, c).value])
    ensures var r := ReadOf(es, c).value;
      After(Start(disk), es).disk.main.Corrupt? <==> (After(Start(disk), es[..r]).disk.main.Corrupt? && !es[r].renameOk)
  {
    ReadStands(disk, es, c);
  }

  /**
   * So a corrupt file leaves its place in two ways only: preserved by a read whose rename succeeds,
   * or replaced by a call whose own read had failed to rename it.
   */
  lemma CorruptFileLeaves(disk: Disk, es: seq<Step>, e: Step)
    requires !disk.main.Partial? && IsRun(Start(disk), es) && Enabled(After(Start(disk), es), e)
    requires After(Start(disk), es).disk.main.Corrupt?
    ensures var s, s' := After(Start(disk), es), Next(After(Start(disk), es), e);
      && (s'.disk.main != s.disk.main <==> e.Replace? || (e.Read? && e.readable && e.renameOk))
      && (e.Read? && e.readable && e.renameOk ==> e.now in s'.disk.asides && s'.disk.asides[e.now] == s.disk.main)
      && (e.Replace? ==> ReadOf(es, e.c).Some? && !es[ReadOf(es, e.c).value].renameOk)
  {
    SavesLinearise(disk, es);
    if e.Replace? {
      assert CallInv(After(Start(disk), es), e.c);
      CorruptFileLostExactly(disk, es, e.c);
    }
  }

  /** A rename that fails loses the corrupt file: the save goes on and replaces it. */
  lemma FailedRenameLosesCorruptFile(bytes: nat)
    ensures var es := [Begin(0, Save("k", "v")), Acquire(0), Read(0, 0, true, false), OpenTmp(0), SyncTmp(0), Replace(0)];
            var start := Start(Disk(Corrupt(bytes), Absent, map[]));
            IsRun(start, es) && After(start, es).disk == Disk(Json(map["k" := "v"]), Absent, map[])
  {
    var corrupt, op := Disk(Corrupt(bytes), Absent, map[]), Save("k", "v");
    var data: Overrides := map["k" := "v"];
    var start := Start(corrupt);
    var es: seq<Step> := [];
    es := Then(start, es, Begin(0, op));
    assert After(start, es) == State(corrupt, map[0 := Call(op, Waiting)], None, []);
    es := Then(start, es, Acquire(0));
    assert After(start, es) == State(corrupt, map[0 := Call(op, Locked)], Some(0), []);
    es := Then(start, es, Read(0, 0, true, false));
    assert After(start, es) == State(corrupt, map[0 := Call(op, Loaded(data))], Some(0), []);
    es := Then(start, es, OpenTmp(0));
    assert After(start, es) == State(corrupt.(tmp := Partial), map[0 := Call(op, Writing(data))], Some(0), []);
    es := Then(start, es, SyncTmp(0));
    assert After(start, es) == State(corrupt.(tmp := Json(data)), map[0 := Call(op, Synced(data))], Some(0), []);
    es := Then(start, es, Replace(0));
    assert es == [Begin(0, op), Acquire(0), Read(0, 0, true, false), OpenTmp(0), SyncTmp(0), Replace(0)];
  }

  lemma Then(s: State, es: seq<Step>, e: Step) returns (more: seq<Step>)
    requires IsRun(s, es) && Enabled(After(s, es), e)
    ensures more == es + [e] && IsRun(s, more) && After(s, more) == Next(After(s, es), e)
  {
    more := es + [e];
    assert more[..|es|] == es;
  }
}
