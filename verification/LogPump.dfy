/**
 * Log stream reassembly: a worker thread turns byte chunks into lines and posts them
 * to a bounded queue that drops lines, but never the end marker, when it is full.
 */
module LogPump {
  import opened Common

  type Byte = bv8

  type Bytes = seq<Byte>

  const NEWLINE: Byte := 10

  const MAX_SIZE: nat := 1024

  // ---------- lines of a byte string ----------

  function FindFrom(bs: Bytes, i: nat): (r: nat)
    requires i <= |bs|
    ensures i <= r <= |bs| && (r < |bs| ==> bs[r] == NEWLINE)
    ensures forall k :: i <= k < r ==> bs[k] != NEWLINE
    decreases |bs| - i
  {
    if i == |bs| || bs[i] == NEWLINE then i else FindFrom(bs, i + 1)
  }

  /** The index of the first newline, or the length. */
  function Find(bs: Bytes): (r: nat)
    ensures r <= |bs| && (r < |bs| ==> bs[r] == NEWLINE)
    ensures forall k :: 0 <= k < r ==> bs[k] != NEWLINE
  {
    FindFrom(bs, 0)
  }

  /** The newline-terminated lines of `bs`, without their newlines. */
  function Lines(bs: Bytes): seq<Bytes>
    decreases |bs|
  {
    var nl := Find(bs);
    if nl == |bs| then [] else [bs[..nl]] + Lines(bs[nl + 1..])
  }

  /** What follows the last newline. */
  function Rest(bs: Bytes): Bytes
    decreases |bs|
  {
    var nl := Find(bs);
    if nl == |bs| then bs else Rest(bs[nl + 1..])
  }

  function Unlines(lines: seq<Bytes>): Bytes {
    if lines == [] then [] else lines[0] + [NEWLINE] + Unlines(lines[1..])
  }

  lemma CutAt(bs: Bytes, nl: nat)
    requires nl < |bs| && bs[nl] == NEWLINE
    ensures bs == bs[..nl] + [NEWLINE] + bs[nl + 1..]
  {
  }

  lemma UnlinesCons(line: Bytes, lines: seq<Bytes>, rest: Bytes)
    ensures Unlines([line] + lines) + rest == line + [NEWLINE] + (Unlines(lines) + rest)
  {
    assert ([line] + lines)[1..] == lines;
    Assoc(line + [NEWLINE], Unlines(lines), rest);
  }

  lemma {:induction false} LinesAreClean(bs: Bytes)
    ensures NEWLINE !in Rest(bs)
    ensures forall l :: l in Lines(bs) ==> NEWLINE !in l
    decreases |bs|
  {
    if Find(bs) < |bs| {
      LinesAreClean(bs[Find(bs) + 1..]);
      FirstLine(bs);
    }
  }

  /** Lines and remainder are the byte string cut at its newlines, nothing lost or moved. */
  lemma {:induction false} LinesRebuild(bs: Bytes)
    ensures Unlines(Lines(bs)) + Rest(bs) == bs
    ensures NEWLINE !in Rest(bs)
    ensures forall l :: l in Lines(bs) ==> NEWLINE !in l
    decreases |bs|
  {
    var nl := Find(bs);
    LinesAreClean(bs);
    if nl == |bs| {
      assert Lines(bs) == [] && Rest(bs) == bs && Unlines([]) == [];
    } else {
      var line, tail := bs[..nl], bs[nl + 1..];
      LinesRebuild(tail);
      FirstLine(bs);
      UnlinesCons(line, Lines(tail), Rest(tail));
      CutAt(bs, nl);
    }
  }

  lemma FindAppend(a: Bytes, b: Bytes)
    requires Find(a) < |a|
    ensures Find(a + b) == Find(a)
    ensures (a + b)[..Find(a)] == a[..Find(a)] && (a + b)[Find(a) + 1..] == a[Find(a) + 1..] + b
  {
    var nl := Find(a);
    assert forall k :: 0 <= k < nl ==> (a + b)[k] == a[k];
    assert (a + b)[nl] == NEWLINE;
  }

  lemma FirstLine(bs: Bytes)
    requires Find(bs) < |bs|
    ensures Lines(bs) == [bs[..Find(bs)]] + Lines(bs[Find(bs) + 1..]) && Rest(bs) == Rest(bs[Find(bs) + 1..])
  {
  }

  /** Appending bytes keeps the complete lines and continues from the remainder. */
  lemma {:induction false} LinesAppend(a: Bytes, b: Bytes)
    ensures Lines(a + b) == Lines(a) + Lines(Rest(a) + b)
    ensures Rest(a + b) == Rest(Rest(a) + b)
    decreases |a|
  {
    var nl := Find(a);
    if nl < |a| {
      var line, tail := a[..nl], a[nl + 1..];
      FindAppend(a, b);
      FirstLine(a);
      FirstLine(a + b);
      LinesAppend(tail, b);
      Assoc([line], Lines(tail), Lines(Rest(tail) + b));
    } else {
      assert Lines(a) == [] && Rest(a) == a;
    }
  }

  function Flatten(chunks: seq<Bytes>): Bytes {
    if chunks == [] then [] else Flatten(chunks[..|chunks| - 1]) + chunks[|chunks| - 1]
  }

  lemma {:induction false} FlattenSplit(chunks: seq<Bytes>, i: nat)
    requires i <= |chunks|
    ensures exists tail :: Flatten(chunks) == Flatten(chunks[..i]) + tail
  {
    if i == |chunks| {
      assert chunks[..i] == chunks;
      assert Flatten(chunks) == Flatten(chunks[..i]) + [];
    } else {
      var front := chunks[..|chunks| - 1];
      FlattenSplit(front, i);
      assert front[..i] == chunks[..i];
      var tail :| Flatten(front) == Flatten(chunks[..i]) + tail;
      assert Flatten(chunks) == Flatten(chunks[..i]) + (tail + chunks[|chunks| - 1]);
    }
  }

  /** Every line a byte stream yields, an unterminated last line included. */
  function AllLines(bs: Bytes): seq<Bytes> {
    Lines(bs) + (if Rest(bs) == [] then [] else [Rest(bs)])
  }

  lemma {:induction false} UnlinesSnoc(lines: seq<Bytes>, line: Bytes)
    ensures Unlines(lines + [line]) == Unlines(lines) + line + [NEWLINE]
  {
    if lines == [] {
      assert lines + [line] == [line];
      assert Unlines([line]) == line + [NEWLINE] + Unlines([]);
    } else {
      UnlinesSnoc(lines[1..], line);
      assert (lines + [line])[1..] == lines[1..] + [line];
    }
  }

  lemma {:induction false} UnlinesEnd(lines: seq<Bytes>)
    ensures Unlines(lines) == [] <==> lines == []
    ensures lines != [] ==> Unlines(lines)[|Unlines(lines)| - 1] == NEWLINE
  {
    if lines != [] {
      UnlinesEnd(lines[1..]);
    }
  }

  /** Its lines, each with a newline after it, are the stream, with a newline added if the last line lacked one. */
  lemma AllLinesRebuild(bs: Bytes)
    ensures Unlines(AllLines(bs)) == bs + (if bs == [] || bs[|bs| - 1] == 10 then [] else [10])
    ensures forall l: Bytes, i :: l in AllLines(bs) && 0 <= i < |l| ==> l[i] != 10
  {
    LinesRebuild(bs);
    UnlinesEnd(Lines(bs));
    if Rest(bs) == [] {
      assert AllLines(bs) == Lines(bs);
      assert Unlines(Lines(bs)) + [] == Unlines(Lines(bs));
    } else {
      UnlinesSnoc(Lines(bs), Rest(bs));
      assert bs[|bs| - 1] == Rest(bs)[|Rest(bs)| - 1];
      assert Rest(bs)[|Rest(bs)| - 1] in Rest(bs);
    }
  }

  /** `render` stands for decoding, trimming carriage returns and stripping ANSI escapes. */
  function Rendered(lines: seq<Bytes>, render: Bytes -> string): (r: seq<Option<string>>)
    ensures |r| == |lines| && forall i :: 0 <= i < |r| ==> r[i] == Some(render(lines[i]))
  {
    seq(|lines|, i requires 0 <= i < |lines| => Some(render(lines[i])))
  }

  lemma RenderedParts(a: seq<Bytes>, b: seq<Bytes>, render: Bytes -> string)
    ensures Rendered(a + b, render) == Rendered(a, render) + Rendered(b, render)
  {
  }

  lemma RenderedPrefix(a: seq<Bytes>, b: seq<Bytes>, render: Bytes -> string)
    requires a <= b
    ensures Rendered(a, render) <= Rendered(b, render)
  {
  }

  /** The posts of a stream that is read to its end. */
  function Posts(bs: Bytes, render: Bytes -> string): seq<Option<string>> {
    Rendered(AllLines(bs), render) + [None]
  }

  ghost predicate Latching(stop: nat -> bool) {
    forall i, j :: i <= j && stop(i) ==> stop(j)
  }

  ghost predicate NeverSet(stop: nat -> bool) {
    forall i :: !stop(i)
  }

  lemma CompleteLinesFirst(bs: Bytes, tail: Bytes)
    ensures Lines(bs) <= AllLines(bs + tail)
  {
    LinesAppend(bs, tail);
  }

  lemma TakeFirstLine(before: seq<Bytes>, buf: Bytes)
    requires Find(buf) < |buf|
    ensures var nl := Find(buf);
            before + Lines(buf) == before + [buf[..nl]] + Lines(buf[nl + 1..]) && Rest(buf) == Rest(buf[nl + 1..])
  {
    FirstLine(buf);
  }

  lemma NoLine(buf: Bytes)
    requires Find(buf) == |buf|
    ensures Lines(buf) == [] && Rest(buf) == buf
  {
  }

  /** The inner loop: take the complete lines off the buffer, looking at the stop flag before each post. */
  method PostCompleteLines(buffer: Bytes, stop: nat -> bool, looks: nat, render: Bytes -> string)
    returns (posts: seq<Option<string>>, buf: Bytes, polls: nat, stopped: bool)
    ensures |posts| <= |Lines(buffer)| && posts == Rendered(Lines(buffer)[..|posts|], render)
    ensures !stopped ==> |posts| == |Lines(buffer)| && buf == Rest(buffer)
    ensures stopped ==> |posts| < |Lines(buffer)| && polls > looks && stop(polls - 1)
  {
    posts, buf, polls, stopped := [], buffer, looks, false;
    ghost var lines: seq<Bytes> := [];
    while true
      invariant polls >= looks && posts == Rendered(lines, render)
      invariant lines + Lines(buf) == Lines(buffer) && Rest(buf) == Rest(buffer)
      decreases |buf|
    {
      var nl := Find(buf);
      if nl == |buf| {
        NoLine(buf);
        return;
      }
      TakeFirstLine(lines, buf);
      var raw := buf[..nl];
      buf := buf[nl + 1..];
      stopped := stop(polls);
      polls := polls + 1;
      if stopped {
        return;
      }
      posts := posts + [Some(render(raw))];
      lines := lines + [raw];
    }
  }

  /** What one more chunk does to the lines of the stream so far. */
  lemma ChunkArrives(chunks: seq<Bytes>, i: nat)
    requires i < |chunks|
    ensures var before, after := Flatten(chunks[..i]), Flatten(chunks[..i + 1]);
            Lines(after) == Lines(before) + Lines(Rest(before) + chunks[i]) && Rest(after) == Rest(Rest(before) + chunks[i])
    ensures Lines(Flatten(chunks[..i + 1])) <= AllLines(Flatten(chunks))
  {
    assert chunks[..i + 1][..i] == chunks[..i];
    LinesAppend(Flatten(chunks[..i]), chunks[i]);
    FlattenSplit(chunks, i + 1);
    var tail :| Flatten(chunks) == Flatten(chunks[..i + 1]) + tail;
    CompleteLinesFirst(Flatten(chunks[..i + 1]), tail);
  }

  lemma RestHasNoLine(bs: Bytes)
    ensures Lines(Rest(bs)) == [] && Rest(Rest(bs)) == Rest(bs)
    decreases |bs|
  {
    if Find(bs) < |bs| {
      RestHasNoLine(bs[Find(bs) + 1..]);
    }
  }

  /**
   * The worker.  `chunks` is what the stream delivers before it ends or raises; `stop(n)` is what
   * the n-th look at the stop flag sees.
   */
  method Pump(chunks: seq<Bytes>, stop: nat -> bool, render: Bytes -> string) returns (posted: seq<Option<string>>)
    requires Latching(stop)
    ensures posted != [] && posted[|posted| - 1] == None
    ensures posted[..|posted| - 1] <= Rendered(AllLines(Flatten(chunks)), render)
    ensures NeverSet(stop) ==> posted == Posts(Flatten(chunks), render)
  {
    posted := [];
    var buf: Bytes := [];
    var polls := 0;
    ghost var lines: seq<Bytes> := [];  // what has been posted, before rendering
    for i := 0 to |chunks|
      invariant posted == Rendered(lines, render) && lines <= AllLines(Flatten(chunks))
      invariant lines == Lines(Flatten(chunks[..i])) && buf == Rest(Flatten(chunks[..i]))
    {
      if stop(polls) {
        break;
      }
      polls := polls + 1;
      ChunkArrives(chunks, i);
      if chunks[i] == [] {
        RestHasNoLine(Flatten(chunks[..i]));
        assert buf + chunks[i] == buf;
        continue;
      }
      var posts, halted;
      ghost var arrived := Lines(buf + chunks[i]);
      posts, buf, polls, halted := PostCompleteLines(buf + chunks[i], stop, polls, render);
      ghost var more := arrived[..|posts|];
      assert !halted ==> more == arrived;
      posted := posted + posts;
      RenderedParts(lines, more, render);
      lines := lines + more;
      if halted {
        break;
      }
    }
    assert chunks[..|chunks|] == chunks;
    if buf != [] && !stop(polls) {
      posted := posted + [Some(render(buf))];
      RenderedParts(lines, [buf], render);
      lines := lines + [buf];
    }
    RenderedPrefix(lines, AllLines(Flatten(chunks)), render);
    posted := posted + [None];
  }

  // ---------- the bounded queue ----------

  function Offered(q: seq<Option<string>>, item: Option<string>): seq<Option<string>> {
    if |q| < MAX_SIZE then q + [item]
    else if item.None? then q[1..] + [None]
    else q
  }

  class LineQueue {
    var items: seq<Option<string>>

    ghost predicate Valid()
      reads this
    {
      |items| <= MAX_SIZE
    }

    constructor ()
      ensures Valid() && items == []
    {
      items := [];
    }

    method PutNowait(item: Option<string>) returns (full: bool)
      requires Valid()
      modifies this
      ensures Valid() && full == (|old(items)| == MAX_SIZE)
      ensures items == if full then old(items) else old(items) + [item]
    {
      full := |items| >= MAX_SIZE;
      if !full {
        items := items + [item];
      }
    }

    method GetNowait() returns (item: Option<Option<string>>)
      requires Valid()
      modifies this
      ensures Valid()
      ensures old(items) == [] ==> item == None && items == []
      ensures old(items) != [] ==> item == Some(old(items)[0]) && items == old(items)[1..]
    {
      if items == [] {
        return None;
      }
      item := Some(items[0]);
      items := items[1..];
    }

    method Offer(item: Option<string>)
      requires Valid()
      modifies this
      ensures Valid() && items == Offered(old(items), item)
      ensures |old(items)| < 1024 ==> items == old(items) + [item]
      ensures |old(items)| >= 1024 && item.Some? ==> items == old(items)
      ensures |old(items)| >= 1024 && item.None? ==> items == old(items)[1..] + [None]
    {
      var full := PutNowait(item);
      if full && item.None? {
        var _ := GetNowait();
        var _ := PutNowait(None);
      }
    }
  }

  // ---------- any schedule of posting and consuming ----------

  datatype Step = Post | Take

  /** How far posting has got, what is queued, and what the consumer has taken. */
  datatype Flow = Flow(sent: nat, queue: seq<Option<string>>, taken: seq<Option<string>>)

  predicate Finished(f: Flow) { f.taken != [] && f.taken[|f.taken| - 1] == None }

  predicate CanStep(posted: seq<Option<string>>, f: Flow, step: Step) {
    match step
    case Post => f.sent < |posted|
    case Take => f.queue != [] && !Finished(f)
  }

  function Moved(posted: seq<Option<string>>, f: Flow, step: Step): Flow
    requires CanStep(posted, f, step)
  {
    match step
    case Post => Flow(f.sent + 1, Offered(f.queue, posted[f.sent]), f.taken)
    case Take => Flow(f.sent, f.queue[1..], f.taken + [f.queue[0]])
  }

  ghost predicate IsSchedule(posted: seq<Option<string>>, steps: seq<Step>)
    decreases |steps|, 0
  {
    steps == []
    || (IsSchedule(posted, steps[..|steps| - 1])
        && CanStep(posted, Ran(posted, steps[..|steps| - 1]), steps[|steps| - 1]))
  }

  ghost function Ran(posted: seq<Option<string>>, steps: seq<Step>): Flow
    requires IsSchedule(posted, steps)
    decreases |steps|, 1
  {
    if steps == [] then Flow(0, [], []) else Moved(posted, Ran(posted, steps[..|steps| - 1]), steps[|steps| - 1])
  }

  predicate Subsequence<T(==)>(a: seq<T>, b: seq<T>) {
    if a == [] then true
    else if b == [] then false
    else if a[|a| - 1] == b[|b| - 1] && Subsequence(a[..|a| - 1], b[..|b| - 1]) then true
    else Subsequence(a, b[..|b| - 1])
  }

  lemma {:induction false} SubsequenceDropsLast<T>(a: seq<T>, b: seq<T>)
    requires a != [] && Subsequence(a, b)
    ensures Subsequence(a[..|a| - 1], b)
    decreases |b|
  {
    var a', b' := a[..|a| - 1], b[..|b| - 1];
    if a' != [] {
      if a[|a| - 1] == b[|b| - 1] && Subsequence(a', b') {
      } else {
        SubsequenceDropsLast(a, b');
      }
    }
  }

  lemma {:induction false} SubsequenceDropsAny<T>(a: seq<T>, b: seq<T>, i: nat)
    requires i < |a| && Subsequence(a, b)
    ensures Subsequence(a[..i] + a[i + 1..], b)
    decreases |b|
  {
    var a', b' := a[..|a| - 1], b[..|b| - 1];
    if i == |a| - 1 {
      SubsequenceDropsLast(a, b);
      assert a[..i] + a[i + 1..] == a';
    } else {
      var d := a[..i] + a[i + 1..];
      assert d[..|d| - 1] == a'[..i] + a'[i + 1..];
      if a[|a| - 1] == b[|b| - 1] && Subsequence(a', b') {
        SubsequenceDropsAny(a', b', i);
      } else {
        SubsequenceDropsAny(a, b', i);
      }
    }
  }

  /** What `Pump` posts: lines, then one end marker. */
  ghost predicate EndsOnce(posted: seq<Option<string>>) {
    && posted != [] && posted[|posted| - 1] == None
    && forall i :: 0 <= i < |posted| - 1 ==> posted[i] != None
  }

  /** The end marker is in sight exactly when everything has been posted, and then it is last. */
  ghost predicate Marked(posted: seq<Option<string>>, f: Flow) {
    var log := f.taken + f.queue;
    if f.sent == |posted| then
      log != [] && log[|log| - 1] == None && forall i :: 0 <= i < |log| - 1 ==> log[i] != None
    else
      forall i :: 0 <= i < |log| ==> log[i] != None
  }

  /** The queue is bounded under any schedule. */
  lemma {:induction false} QueueIsBounded(posted: seq<Option<string>>, steps: seq<Step>)
    requires IsSchedule(posted, steps)
    ensures Ran(posted, steps).sent <= |posted| && |Ran(posted, steps).queue| <= MAX_SIZE
  {
    if steps != [] {
      QueueIsBounded(posted, steps[..|steps| - 1]);
    }
  }

  /** What an offer does to everything received so far: append, replace the oldest queued item by the marker, or drop. */
  lemma OfferedLog(taken: seq<Option<string>>, q: seq<Option<string>>, item: Option<string>)
    ensures |q| < MAX_SIZE ==> taken + Offered(q, item) == (taken + q) + [item]
    ensures |q| >= MAX_SIZE && item.None? ==>
      taken + Offered(q, item) == ((taken + q)[..|taken|] + (taken + q)[|taken| + 1..]) + [None]
  {
  }

  lemma TakeKeepsLog(f: Flow)
    requires f.queue != []
    ensures (f.taken + [f.queue[0]]) + f.queue[1..] == f.taken + f.queue
  {
  }

  lemma MarkedStep(posted: seq<Option<string>>, f: Flow, step: Step)
    requires EndsOnce(posted) && CanStep(posted, f, step) && Marked(posted, f) && |f.queue| <= MAX_SIZE
    ensures Marked(posted, Moved(posted, f, step))
  {
    if step.Take? {
      TakeKeepsLog(f);
    } else {
      OfferedLog(f.taken, f.queue, posted[f.sent]);
    }
  }

  lemma {:induction false} MarkerArrivesLast(posted: seq<Option<string>>, steps: seq<Step>)
    requires EndsOnce(posted) && IsSchedule(posted, steps)
    ensures Marked(posted, Ran(posted, steps))
  {
    if steps != [] {
      var front := steps[..|steps| - 1];
      MarkerArrivesLast(posted, front);
      QueueIsBounded(posted, front);
      MarkedStep(posted, Ran(posted, front), steps[|steps| - 1]);
    }
  }

  ghost predicate Kept(posted: seq<Option<string>>, f: Flow) {
    f.sent <= |posted| && Subsequence(f.taken + f.queue, posted[..f.sent])
  }

  lemma KeptStep(posted: seq<Option<string>>, f: Flow, step: Step)
    requires CanStep(posted, f, step) && Kept(posted, f)
    ensures Kept(posted, Moved(posted, f, step))
  {
    if step.Take? {
      TakeKeepsLog(f);
    } else {
      PostKeepsSubsequence(f.taken, f.queue, posted[f.sent], posted[..f.sent]);
      assert posted[..f.sent] + [posted[f.sent]] == posted[..f.sent + 1];
    }
  }

  /** Under any schedule, what was taken and what is queued is a subsequence of what was posted. */
  lemma {:induction false} FlowIsSubsequence(posted: seq<Option<string>>, steps: seq<Step>)
    requires IsSchedule(posted, steps)
    ensures Ran(posted, steps).sent <= |posted|
    ensures Subsequence(Ran(posted, steps).taken + Ran(posted, steps).queue, posted[..Ran(posted, steps).sent])
  {
    if steps == [] {
      assert [] + [] == Ran(posted, steps).taken + Ran(posted, steps).queue;
    } else {
      var front := steps[..|steps| - 1];
      FlowIsSubsequence(posted, front);
      KeptStep(posted, Ran(posted, front), steps[|steps| - 1]);
    }
  }

  lemma SubsequenceSnoc<T>(a: seq<T>, b: seq<T>, x: T)
    requires Subsequence(a, b)
    ensures Subsequence(a + [x], b + [x]) && Subsequence(a, b + [x])
  {
    assert (a + [x])[..|a|] == a && (b + [x])[..|b|] == b;
  }

  lemma PostKeepsSubsequence(taken: seq<Option<string>>, q: seq<Option<string>>, item: Option<string>,
                             sent: seq<Option<string>>)
    requires Subsequence(taken + q, sent)
    ensures Subsequence(taken + Offered(q, item), sent + [item])
  {
    var log := taken + q;
    OfferedLog(taken, q, item);
    SubsequenceSnoc(log, sent, item);
    if |q| >= MAX_SIZE && item.None? {
      SubsequenceDropsAny(log, sent, |taken|);
      SubsequenceSnoc(log[..|taken|] + log[|taken| + 1..], sent, item);
    }
  }

  /** A consumer that has finished received a subsequence of the lines, then the end marker. */
  lemma ConsumerSeesSubsequence(posted: seq<Option<string>>, steps: seq<Step>)
    requires EndsOnce(posted) && IsSchedule(posted, steps) && Finished(Ran(posted, steps))
    ensures var f := Ran(posted, steps);
            f.queue == [] && f.sent == |posted| && Subsequence(f.taken, posted)
            && forall i :: 0 <= i < |f.taken| - 1 ==> f.taken[i].Some?
  {
    MarkerArrivesLast(posted, steps);
    FlowIsSubsequence(posted, steps);
    var f := Ran(posted, steps);
    var log := f.taken + f.queue;
    assert log[|f.taken| - 1] == None;
    assert f.queue == [];
    assert log == f.taken;
    assert posted[..f.sent] == posted;
  }

  /** Once everything is posted, an unfinished consumer always has something to take: it cannot hang. */
  lemma ConsumerCannotHang(posted: seq<Option<string>>, steps: seq<Step>)
    requires EndsOnce(posted) && IsSchedule(posted, steps)
    requires Ran(posted, steps).sent == |posted| && !Finished(Ran(posted, steps))
    ensures Ran(posted, steps).queue != [] && None in Ran(posted, steps).queue
  {
    MarkerArrivesLast(posted, steps);
    var f := Ran(posted, steps);
    var log := f.taken + f.queue;
    assert log[|log| - 1] == None;
    assert f.queue == [] ==> log == f.taken;
    assert f.queue[|f.queue| - 1] == None;
  }

  /** The queue had room at every post. */
  ghost predicate KeptUp(posted: seq<Option<string>>, steps: seq<Step>)
    requires IsSchedule(posted, steps)
    decreases |steps|
  {
    steps == []
    || (KeptUp(posted, steps[..|steps| - 1])
        && (steps[|steps| - 1].Post? ==> |Ran(posted, steps[..|steps| - 1]).queue| < MAX_SIZE))
  }

  /** A consumer that keeps up loses nothing. */
  lemma {:induction false} KeepingUpLosesNothing(posted: seq<Option<string>>, steps: seq<Step>)
    requires IsSchedule(posted, steps) && KeptUp(posted, steps)
    ensures Ran(posted, steps).sent <= |posted|
    ensures Ran(posted, steps).taken + Ran(posted, steps).queue == posted[..Ran(posted, steps).sent]
  {
    if steps != [] {
      KeepingUpLosesNothing(posted, steps[..|steps| - 1]);
    }
  }

  lemma FinishedConsumer(posted: seq<Option<string>>, steps: seq<Step>)
    requires EndsOnce(posted) && IsSchedule(posted, steps) && Finished(Ran(posted, steps))
    ensures Subsequence(Ran(posted, steps).taken, posted)
    ensures KeptUp(posted, steps) ==> Ran(posted, steps).taken == posted
  {
    ConsumerSeesSubsequence(posted, steps);
    if KeptUp(posted, steps) {
      KeepingUpLosesNothing(posted, steps);
    }
  }

  lemma PostsEndOnce(bs: Bytes, render: Bytes -> string)
    ensures EndsOnce(Posts(bs, render))
  {
  }

  /** End to end: however the stream is cut and scheduled, the reader gets lines of the stream, in order, then stops. */
  lemma StreamedLines(bs: Bytes, render: Bytes -> string, steps: seq<Step>)
    requires IsSchedule(Posts(bs, render), steps) && Finished(Ran(Posts(bs, render), steps))
    ensures Subsequence(Ran(Posts(bs, render), steps).taken, Posts(bs, render))
    ensures KeptUp(Posts(bs, render), steps) ==> Ran(Posts(bs, render), steps).taken == Posts(bs, render)
  {
    PostsEndOnce(bs, render);
    FinishedConsumer(Posts(bs, render), steps);
  }
}
