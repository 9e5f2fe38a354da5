/**
 * What the arena roll-up promises: nothing is counted twice or lost, one file has one vote
 * however often it is swept, and ranks have no gaps.
 */
module ArenaStandings {
  import opened Common
  import opened Dicts
  import opened Sorting
  import opened ArenaAggregate

  // ---------- one file ----------

  /** The scored rows of a file's sweeps, in order. */
  function AllRows(sweeps: seq<SweepResult>): seq<(string, real)> {
    if |sweeps| == 0 then [] else AllRows(sweeps[..|sweeps| - 1]) + Labelled(sweeps[|sweeps| - 1].aggregate)
  }

  function AllVotes(sweeps: seq<SweepResult>): seq<(string, nat)> {
    if |sweeps| == 0 then [] else AllVotes(sweeps[..|sweeps| - 1]) + WinVotes(sweeps[|sweeps| - 1])
  }

  function FileOf(sweeps: seq<SweepResult>): FileAcc {
    Fold(sweeps, NO_SWEEPS, AddSweep)
  }

  /** A file's accumulators are determined by its own sweeps' rows and votes. */
  lemma {:induction false} FileMeans(sweeps: seq<SweepResult>)
    ensures FileOf(sweeps) == FileAcc(|sweeps|, Group(AllRows(sweeps), NO_SCORES, AddMean), Group(AllVotes(sweeps), 0, AddVotes))
  {
    if |sweeps| > 0 {
      var front, last := sweeps[..|sweeps| - 1], sweeps[|sweeps| - 1];
      FileMeans(front);
      GroupFromAppend(Empty(), AllRows(front), Labelled(last.aggregate), NO_SCORES, AddMean);
      GroupFromAppend<string, nat, nat>(Empty(), AllVotes(front), WinVotes(last), 0, AddVotes);
    }
  }

  lemma {:induction false} ScoresAdd(xs: seq<real>)
    ensures Fold(xs, NO_SCORES, AddMean) == Rec(SumOf(xs), |xs|)
  {
    if |xs| > 0 {
      ScoresAdd(xs[..|xs| - 1]);
    }
  }

  function Average(xs: seq<real>): real {
    if |xs| > 0 then SumOf(xs) / |xs| as real else 0.0
  }

  /** A file's mean for a recipe is the plain average of the recipe's scores over the file's sweeps. */
  lemma FileMeanIsAverage(sweeps: seq<SweepResult>, recipe: string)
    ensures MeanOf(FileOf(sweeps).rec, recipe) == Average(Values(AllRows(sweeps), recipe))
  {
    FileMeans(sweeps);
    GroupAt(AllRows(sweeps), NO_SCORES, AddMean, recipe);
    ScoresAdd(Values(AllRows(sweeps), recipe));
  }

  lemma {:induction false} VotesAdd(ns: seq<nat>)
    requires forall i :: 0 <= i < |ns| ==> ns[i] == 1
    ensures Fold<nat, nat>(ns, 0, AddVotes) == |ns|
  {
    if |ns| > 0 {
      VotesAdd(ns[..|ns| - 1]);
    }
  }

  lemma {:induction false} VotesAreOnes(sweeps: seq<SweepResult>, recipe: string)
    ensures forall i :: 0 <= i < |Values(AllVotes(sweeps), recipe)| ==> Values(AllVotes(sweeps), recipe)[i] == 1
  {
    if |sweeps| > 0 {
      VotesAreOnes(sweeps[..|sweeps| - 1], recipe);
      ValuesAppend<string, nat>(AllVotes(sweeps[..|sweeps| - 1]), WinVotes(sweeps[|sweeps| - 1]), recipe);
      ValuesOfOne(WinVotes(sweeps[|sweeps| - 1]), recipe);
    }
  }

  lemma ValuesOfOne<K, V>(xs: seq<(K, V)>, k: K)
    requires |xs| <= 1
    ensures Values(xs, k) == if |xs| == 1 && xs[0].0 == k then [xs[0].1] else []
  {
    if |xs| == 1 {
      assert |Values(xs[..0], k)| == 0;
    }
  }

  /** The number of sweeps of the file that the recipe won outright. */
  function SweepsWon(sweeps: seq<SweepResult>, recipe: string): nat {
    |Values(AllVotes(sweeps), recipe)|
  }

  lemma FileVotesAreSweepsWon(sweeps: seq<SweepResult>, recipe: string)
    ensures FileOf(sweeps).votes.Get(recipe, 0) == SweepsWon(sweeps, recipe)
    ensures recipe in FileOf(sweeps).votes.keys <==> SweepsWon(sweeps, recipe) > 0
  {
    FileMeans(sweeps);
    GroupAt<string, nat, nat>(AllVotes(sweeps), 0, AddVotes, recipe);
    GroupKeys<string, nat, nat>(AllVotes(sweeps), 0, AddVotes);
    VotesAreOnes(sweeps, recipe);
    VotesAdd(Values(AllVotes(sweeps), recipe));
  }

  lemma {:induction false} RowsInRec(sweeps: seq<SweepResult>, recipe: string)
    ensures recipe in FileOf(sweeps).rec.keys <==> |Values(AllRows(sweeps), recipe)| > 0
    ensures Distinct(FileOf(sweeps).rec.keys)
  {
    FileMeans(sweeps);
    GroupAt(AllRows(sweeps), NO_SCORES, AddMean, recipe);
    GroupKeys(AllRows(sweeps), NO_SCORES, AddMean);
    FirstSeenIsDistinct(Keys(AllRows(sweeps)));
  }

  /**
   * The file's winner won the most sweeps outright; when no sweep was won outright it is a recipe
   * with the best mean.  There is none exactly when the file has neither a won sweep nor a score.
   */
  lemma FileWinnerIsBest(sweeps: seq<SweepResult>)
    ensures FileWinner(FileOf(sweeps)).None? <==> AllVotes(sweeps) == [] && AllRows(sweeps) == []
    ensures FileWinner(FileOf(sweeps)).Some? && AllVotes(sweeps) != [] ==>
      forall r :: SweepsWon(sweeps, r) <= SweepsWon(sweeps, FileWinner(FileOf(sweeps)).value)
    ensures FileWinner(FileOf(sweeps)).Some? && AllVotes(sweeps) == [] ==>
      forall r :: r in FileOf(sweeps).rec.keys ==>
        MeanOf(FileOf(sweeps).rec, r) <= MeanOf(FileOf(sweeps).rec, FileWinner(FileOf(sweeps)).value)
  {
    FileMeans(sweeps);
    GroupKeys<string, nat, nat>(AllVotes(sweeps), 0, AddVotes);
    GroupKeys(AllRows(sweeps), NO_SCORES, AddMean);
    SeenSomething(Keys(AllVotes(sweeps)));
    SeenSomething(Keys(AllRows(sweeps)));
    var f := FileOf(sweeps);
    if |f.votes.keys| > 0 {
      forall r ensures SweepsWon(sweeps, r) <= SweepsWon(sweeps, FileWinner(f).value) {
        FileVotesAreSweepsWon(sweeps, r);
        FileVotesAreSweepsWon(sweeps, FileWinner(f).value);
        if r in f.votes.keys {
          var i :| 0 <= i < |f.votes.keys| && f.votes.keys[i] == r;
          assert VotesOf(f.votes)[i] <= VotesOf(f.votes)[FirstMax(VotesOf(f.votes))];
        }
      }
    } else if |f.rec.keys| > 0 {
      forall r | r in f.rec.keys ensures MeanOf(f.rec, r) <= MeanOf(f.rec, FileWinner(f).value) {
        var i :| 0 <= i < |f.rec.keys| && f.rec.keys[i] == r;
        assert MeansOf(f.rec)[i] <= MeansOf(f.rec)[FirstMax(MeansOf(f.rec))];
      }
    }
  }

  lemma SeenSomething(ks: seq<string>)
    ensures |FirstSeen(ks)| == 0 <==> |ks| == 0
  {
    FirstSeenIsDistinct(ks);
    if |ks| > 0 {
      assert ks[0] in FirstSeen(ks);
    }
  }

  // ---------- repeating a file's sweeps ----------

  function Repeat<T>(s: seq<T>, m: nat): seq<T> {
    if m == 0 then [] else Repeat(s, m - 1) + s
  }

  lemma {:induction false} RepeatFront<T>(s: seq<T>, m: nat)
    ensures s + Repeat(s, m) == Repeat(s, m + 1)
  {
    if m == 0 {
      assert s + [] == s && [] + s == s;
    } else {
      RepeatFront(s, m - 1);
      assert s + Repeat(s, m) == s + Repeat(s, m - 1) + s;
    }
  }

  lemma {:induction false} AllRowsAppend(a: seq<SweepResult>, b: seq<SweepResult>)
    ensures AllRows(a + b) == AllRows(a) + AllRows(b)
  {
    if |b| == 0 {
      assert a + b == a;
    } else {
      var front, last := b[..|b| - 1], b[|b| - 1];
      AllRowsAppend(a, front);
      assert (a + b)[..|a + b| - 1] == a + front && (a + b)[|a + b| - 1] == last;
    }
  }

  lemma {:induction false} AllVotesAppend(a: seq<SweepResult>, b: seq<SweepResult>)
    ensures AllVotes(a + b) == AllVotes(a) + AllVotes(b)
  {
    if |b| == 0 {
      assert a + b == a;
    } else {
      var front, last := b[..|b| - 1], b[|b| - 1];
      AllVotesAppend(a, front);
      assert (a + b)[..|a + b| - 1] == a + front && (a + b)[|a + b| - 1] == last;
    }
  }

  lemma {:induction false} AllRowsRepeat(s: seq<SweepResult>, m: nat)
    ensures AllRows(Repeat(s, m)) == Repeat(AllRows(s), m)
    ensures AllVotes(Repeat(s, m)) == Repeat(AllVotes(s), m)
  {
    if m > 0 {
      AllRowsRepeat(s, m - 1);
      AllRowsAppend(Repeat(s, m - 1), s);
      AllVotesAppend(Repeat(s, m - 1), s);
    }
  }

  lemma {:induction false} ValuesRepeat<K, V>(xs: seq<(K, V)>, m: nat, k: K)
    ensures Values(Repeat(xs, m), k) == Repeat(Values(xs, k), m)
  {
    if m > 0 {
      ValuesRepeat(xs, m - 1, k);
      ValuesAppend(Repeat(xs, m - 1), xs, k);
    }
  }

  lemma {:induction false} SumOfAppend(a: seq<real>, b: seq<real>)
    ensures SumOf(a + b) == SumOf(a) + SumOf(b)
  {
    if |b| == 0 {
      assert a + b == a;
    } else {
      SumOfAppend(a, b[..|b| - 1]);
      assert (a + b)[..|a + b| - 1] == a + b[..|b| - 1];
    }
  }

  lemma {:induction false} SumOfRepeat(xs: seq<real>, m: nat)
    ensures SumOf(Repeat(xs, m)) == m as real * SumOf(xs)
  {
    if m > 0 {
      SumOfRepeat(xs, m - 1);
      SumOfAppend(Repeat(xs, m - 1), xs);
      assert m as real * SumOf(xs) == (m - 1) as real * SumOf(xs) + SumOf(xs);
    }
  }

  lemma {:induction false} LengthOfRepeat<T>(s: seq<T>, m: nat)
    ensures |Repeat(s, m)| == m * |s|
  {
    if m > 0 {
      LengthOfRepeat(s, m - 1);
      assert m * |s| == (m - 1) * |s| + |s|;
    }
  }

  lemma Cancel(m: real, a: real, n: real)
    requires m > 0.0 && n > 0.0
    ensures m * n > 0.0 && (m * a) / (m * n) == a / n
  {
    var q := a / n;
    assert q * n == a;
    assert q * (m * n) == m * a;
  }

  lemma RealProduct(m: nat, n: nat)
    ensures (m * n) as real == m as real * n as real
  {
  }

  /** Averaging copies of the same numbers gives the same average. */
  lemma AverageOfRepeat(xs: seq<real>, m: nat)
    requires m > 0
    ensures Average(Repeat(xs, m)) == Average(xs)
  {
    LengthOfRepeat(xs, m);
    SumOfRepeat(xs, m);
    RealProduct(m, |xs|);
    if |xs| > 0 {
      Cancel(m as real, SumOf(xs), |xs| as real);
    }
  }

  lemma {:induction false} KeysRepeat<V>(xs: seq<(string, V)>, m: nat)
    requires m > 0
    ensures FirstSeen(Keys(Repeat(xs, m))) == FirstSeen(Keys(xs))
    ensures forall k :: k in Keys(xs) ==> k in Keys(Repeat(xs, m))
  {
    assert Keys(Repeat(xs, m)) == Keys(Repeat(xs, m - 1)) + Keys(xs);
    if m == 1 {
      assert Repeat(xs, 1) == xs;
    } else {
      KeysRepeat(xs, m - 1);
      FirstSeenAgain(Keys(Repeat(xs, m - 1)), Keys(xs));
    }
  }

  ghost predicate SameOrder(xs: seq<real>, ys: seq<real>) {
    |xs| == |ys| && forall i, j :: 0 <= i < |xs| && 0 <= j < |xs| ==> (xs[i] < xs[j] <==> ys[i] < ys[j])
  }

  lemma {:induction false} FirstMaxByOrder(xs: seq<real>, ys: seq<real>)
    requires SameOrder(xs, ys) && |xs| > 0
    ensures FirstMax(xs) == FirstMax(ys)
  {
    if |xs| > 1 {
      FirstMaxByOrder(xs[..|xs| - 1], ys[..|ys| - 1]);
    }
  }

  predicate IsScaled(x: real, y: real, c: real) {
    y == c * x
  }

  lemma ScaledOrder(c: real, x1: real, y1: real, x2: real, y2: real)
    requires c > 0.0 && IsScaled(x1, y1, c) && IsScaled(x2, y2, c)
    ensures x1 < x2 <==> y1 < y2
  {
    assert y2 - y1 == c * (x2 - x1);
  }

  lemma FirstMaxOfScaled(xs: seq<real>, ys: seq<real>, c: real)
    requires |xs| == |ys| > 0 && c > 0.0
    requires forall i :: 0 <= i < |xs| ==> IsScaled(xs[i], ys[i], c)
    ensures FirstMax(xs) == FirstMax(ys)
  {
    forall i, j | 0 <= i < |xs| && 0 <= j < |xs| ensures xs[i] < xs[j] <==> ys[i] < ys[j] {
      ScaledOrder(c, xs[i], ys[i], xs[j], ys[j]);
    }
    FirstMaxByOrder(xs, ys);
  }

  lemma RepeatKeepsMeans(s: seq<SweepResult>, m: nat)
    requires m > 0
    ensures FileOf(Repeat(s, m)).rec.keys == FileOf(s).rec.keys
    ensures forall r :: MeanOf(FileOf(Repeat(s, m)).rec, r) == MeanOf(FileOf(s).rec, r)
  {
    FileMeans(s);
    FileMeans(Repeat(s, m));
    AllRowsRepeat(s, m);
    KeysRepeat(AllRows(s), m);
    GroupKeys(AllRows(s), NO_SCORES, AddMean);
    GroupKeys(AllRows(Repeat(s, m)), NO_SCORES, AddMean);
    forall r ensures MeanOf(FileOf(Repeat(s, m)).rec, r) == MeanOf(FileOf(s).rec, r) {
      FileMeanIsAverage(s, r);
      FileMeanIsAverage(Repeat(s, m), r);
      ValuesRepeat(AllRows(s), m, r);
      AverageOfRepeat(Values(AllRows(s), r), m);
    }
  }

  lemma RepeatScalesVotes(s: seq<SweepResult>, m: nat)
    requires m > 0
    ensures FileOf(Repeat(s, m)).votes.keys == FileOf(s).votes.keys
    ensures forall r :: FileOf(Repeat(s, m)).votes.Get(r, 0) == m * FileOf(s).votes.Get(r, 0)
  {
    FileMeans(s);
    FileMeans(Repeat(s, m));
    AllRowsRepeat(s, m);
    KeysRepeat(AllVotes(s), m);
    GroupKeys<string, nat, nat>(AllVotes(s), 0, AddVotes);
    GroupKeys<string, nat, nat>(AllVotes(Repeat(s, m)), 0, AddVotes);
    forall r ensures FileOf(Repeat(s, m)).votes.Get(r, 0) == m * FileOf(s).votes.Get(r, 0) {
      FileVotesAreSweepsWon(s, r);
      FileVotesAreSweepsWon(Repeat(s, m), r);
      ValuesRepeat(AllVotes(s), m, r);
      LengthOfRepeat(Values(AllVotes(s), r), m);
    }
  }

  lemma SameWinner(f: FileAcc, g: FileAcc, m: nat)
    requires m > 0
    requires f.rec.keys == g.rec.keys && MeansOf(f.rec) == MeansOf(g.rec)
    requires f.votes.keys == g.votes.keys
    requires forall r :: g.votes.Get(r, 0) == m * f.votes.Get(r, 0)
    ensures FileWinner(f) == FileWinner(g)
  {
    if |f.votes.keys| > 0 {
      forall i | 0 <= i < |f.votes.keys| ensures IsScaled(VotesOf(f.votes)[i], VotesOf(g.votes)[i], m as real) {
        var n := f.votes.Get(f.votes.keys[i], 0);
        RealProduct(m, n);
      }
      FirstMaxOfScaled(VotesOf(f.votes), VotesOf(g.votes), m as real);
    }
  }

  /** A file says the same about its recipes however often its sweeps are repeated. */
  lemma RepeatKeepsBallots(s: seq<SweepResult>, m: nat)
    requires m > 0
    ensures Ballots(FileOf(Repeat(s, m))) == Ballots(FileOf(s))
  {
    RepeatKeepsMeans(s, m);
    RepeatScalesVotes(s, m);
    SameWinner(FileOf(s), FileOf(Repeat(s, m)), m);
  }

  // ---------- all files ----------

  lemma {:induction false} SweptAppend(a: seq<Run>, b: seq<Run>)
    ensures Swept(a + b) == Swept(a) + Swept(b)
  {
    if |b| == 0 {
      assert a + b == a;
    } else {
      SweptAppend(a, b[..|b| - 1]);
      assert (a + b)[..|a + b| - 1] == a + b[..|b| - 1];
    }
  }

  lemma {:induction false} SweptRepeat(runs: seq<Run>, m: nat)
    ensures Swept(Repeat(runs, m)) == Repeat(Swept(runs), m)
  {
    if m > 0 {
      SweptRepeat(runs, m - 1);
      SweptAppend(Repeat(runs, m - 1), runs);
    }
  }

  /** The runs of one file. */
  function RunsOf(runs: seq<Run>, key: FileKey): seq<Run> {
    if |runs| == 0 then []
    else RunsOf(runs[..|runs| - 1], key) + (if KeyOf(runs[|runs| - 1]) == key then [runs[|runs| - 1]] else [])
  }

  /** The results of one file's sweeps, in order. */
  function ResultsOf(runs: seq<Run>, key: FileKey): seq<SweepResult> {
    Values(Swept(runs), key)
  }

  lemma ResultsOfSnoc(runs: seq<Run>, r: Run, k: FileKey)
    ensures ResultsOf(runs + [r], k) == ResultsOf(runs, k) + (if r.result.Some? && KeyOf(r) == k then [r.result.value] else [])
  {
    var one := if r.result.Some? then [(KeyOf(r), r.result.value)] else [];
    assert (runs + [r])[..|runs + [r]| - 1] == runs;
    assert Swept(runs + [r]) == Swept(runs) + one;
    ValuesAppend(Swept(runs), one, k);
    ValuesOfOne(one, k);
  }

  lemma {:induction false} ResultsOfOneFile(runs: seq<Run>, key: FileKey, k: FileKey)
    ensures ResultsOf(RunsOf(runs, key), k) == if k == key then ResultsOf(runs, k) else []
  {
    if |runs| == 0 {
      assert |Swept(runs)| == 0 && |Swept(RunsOf(runs, key))| == 0;
    } else {
      var front, r := runs[..|runs| - 1], runs[|runs| - 1];
      assert runs == front + [r];
      ResultsOfOneFile(front, key, k);
      ResultsOfSnoc(front, r, k);
      if KeyOf(r) == key {
        ResultsOfSnoc(RunsOf(front, key), r, k);
      } else {
        assert RunsOf(runs, key) == RunsOf(front, key);
      }
    }
  }

  lemma {:induction false} RepeatNothing<T>(m: nat)
    ensures Repeat<T>([], m) == []
  {
    if m > 0 {
      RepeatNothing<T>(m - 1);
    }
  }

  /** The runs, followed by m copies of all of one file's runs. */
  function WithCopies(runs: seq<Run>, key: FileKey, m: nat): seq<Run> {
    runs + Repeat(RunsOf(runs, key), m)
  }

  lemma ResultsWithCopies(runs: seq<Run>, key: FileKey, m: nat, k: FileKey)
    ensures ResultsOf(WithCopies(runs, key, m), k)
         == if k == key then Repeat(ResultsOf(runs, k), m + 1) else ResultsOf(runs, k)
    ensures Values(Repeat(Swept(RunsOf(runs, key)), m), k) == if k == key then Repeat(ResultsOf(runs, k), m) else []
  {
    SweptAppend(runs, Repeat(RunsOf(runs, key), m));
    SweptRepeat(RunsOf(runs, key), m);
    ValuesAppend(Swept(runs), Repeat(Swept(RunsOf(runs, key)), m), k);
    ValuesRepeat(Swept(RunsOf(runs, key)), m, k);
    ResultsOfOneFile(runs, key, k);
    RepeatFront(ResultsOf(runs, k), m);
    RepeatNothing<SweepResult>(m);
  }

  lemma {:induction false} KeyHasValues<K, V>(xs: seq<(K, V)>, k: K)
    ensures k in Keys(xs) <==> |Values(xs, k)| > 0
  {
    if |xs| > 0 {
      KeyHasValues(xs[..|xs| - 1], k);
      KeysFront(xs);
      assert Keys(xs) == Keys(xs)[..|xs| - 1] + [xs[|xs| - 1].0];
    }
  }

  /** The distinct files, by first sweep. */
  function FileKeys(runs: seq<Run>): seq<FileKey> {
    FirstSeen(Keys(Swept(runs)))
  }

  lemma FilesAt(runs: seq<Run>, k: FileKey)
    ensures Files(runs).keys == FileKeys(runs) && Distinct(FileKeys(runs))
    ensures Files(runs).Get(k, NO_SWEEPS) == FileOf(ResultsOf(runs, k))
    ensures k in FileKeys(runs) <==> |ResultsOf(runs, k)| > 0
  {
    GroupKeys(Swept(runs), NO_SWEEPS, AddSweep);
    GroupAt(Swept(runs), NO_SWEEPS, AddSweep, k);
    FirstSeenIsDistinct(Keys(Swept(runs)));
  }

  lemma RepeatOfNothing<T>(s: seq<T>, m: nat)
    ensures |Repeat(s, m)| > 0 ==> |s| > 0
  {
    LengthOfRepeat(s, m);
  }

  lemma CopiedKeyIsThere(runs: seq<Run>, key: FileKey, m: nat, k: FileKey)
    requires k in Keys(Repeat(Swept(RunsOf(runs, key)), m))
    ensures k in Keys(Swept(runs))
  {
    KeyHasValues(Repeat(Swept(RunsOf(runs, key)), m), k);
    KeyHasValues(Swept(runs), k);
    ResultsWithCopies(runs, key, m, k);
    RepeatOfNothing(ResultsOf(runs, k), m);
  }

  lemma CopiesKeepFileKeys(runs: seq<Run>, key: FileKey, m: nat)
    ensures FileKeys(WithCopies(runs, key, m)) == FileKeys(runs)
  {
    var extra := Repeat(Swept(RunsOf(runs, key)), m);
    SweptAppend(runs, Repeat(RunsOf(runs, key), m));
    SweptRepeat(RunsOf(runs, key), m);
    assert Keys(Swept(runs) + extra) == Keys(Swept(runs)) + Keys(extra);
    forall k | k in Keys(extra) ensures k in Keys(Swept(runs)) {
      CopiedKeyIsThere(runs, key, m, k);
    }
    FirstSeenAgain(Keys(Swept(runs)), Keys(extra));
  }

  lemma CopiesKeepBallots(runs: seq<Run>, key: FileKey, m: nat, k: FileKey)
    ensures Ballots(Files(WithCopies(runs, key, m)).Get(k, NO_SWEEPS)) == Ballots(Files(runs).Get(k, NO_SWEEPS))
  {
    FilesAt(runs, k);
    FilesAt(WithCopies(runs, key, m), k);
    ResultsWithCopies(runs, key, m, k);
    RepeatKeepsBallots(ResultsOf(runs, k), m + 1);
  }

  // ---------- language buckets ----------

  predicate Alike(b: Bucket, c: Bucket) {
    b.files == c.files && b.rec == c.rec
  }

  ghost predicate AllAlike(d: Dict<string, Bucket>, e: Dict<string, Bucket>) {
    && d.keys == e.keys && d.vals.Keys == e.vals.Keys
    && forall k :: k in d.vals ==> Alike(d.vals[k], e.vals[k])
  }

  function FirstBuckets(files: Dict<FileKey, FileAcc>, n: nat): Dict<string, Bucket>
    requires n <= |files.keys|
  {
    Group(ByLanguage(files, n), NO_FILES, AddFile)
  }

  lemma FirstBucketsNext(files: Dict<FileKey, FileAcc>, n: nat)
    requires n < |files.keys|
    ensures var f := files.Get(files.keys[n], NO_SWEEPS); var d := FirstBuckets(files, n);
      FirstBuckets(files, n + 1) == d.Put(files.keys[n].language, AddFile(d.Get(files.keys[n].language, NO_FILES), f))
  {
    GroupFromSnoc(Empty(), ByLanguage(files, n), files.keys[n].language, files.Get(files.keys[n], NO_SWEEPS), NO_FILES, AddFile);
  }

  lemma PutAlike(d: Dict<string, Bucket>, e: Dict<string, Bucket>, k: string, b: Bucket, c: Bucket)
    requires AllAlike(d, e) && Alike(b, c)
    ensures AllAlike(d.Put(k, b), e.Put(k, c))
  {
  }

  lemma AddFileAlike(b: Bucket, c: Bucket, f: FileAcc, g: FileAcc)
    requires Alike(b, c) && Ballots(f) == Ballots(g)
    ensures Alike(AddFile(b, f), AddFile(c, g))
  {
  }

  lemma AlikeAfterFile(d: Dict<string, Bucket>, e: Dict<string, Bucket>, language: string, f: FileAcc, g: FileAcc)
    requires AllAlike(d, e) && Ballots(f) == Ballots(g)
    ensures AllAlike(d.Put(language, AddFile(d.Get(language, NO_FILES), f)), e.Put(language, AddFile(e.Get(language, NO_FILES), g)))
  {
    var b, c := d.Get(language, NO_FILES), e.Get(language, NO_FILES);
    AddFileAlike(b, c, f, g);
    PutAlike(d, e, language, AddFile(b, f), AddFile(c, g));
  }

  lemma AlikeNext(files: Dict<FileKey, FileAcc>, others: Dict<FileKey, FileAcc>, n: nat)
    requires files.keys == others.keys && n < |files.keys|
    requires Ballots(files.Get(files.keys[n], NO_SWEEPS)) == Ballots(others.Get(files.keys[n], NO_SWEEPS))
    requires AllAlike(FirstBuckets(files, n), FirstBuckets(others, n))
    ensures AllAlike(FirstBuckets(files, n + 1), FirstBuckets(others, n + 1))
  {
    FirstBucketsNext(files, n);
    FirstBucketsNext(others, n);
    var k := files.keys[n];
    AlikeAfterFile(FirstBuckets(files, n), FirstBuckets(others, n), k.language,
                   files.Get(k, NO_SWEEPS), others.Get(k, NO_SWEEPS));
  }

  ghost predicate SameBallots(files: Dict<FileKey, FileAcc>, others: Dict<FileKey, FileAcc>) {
    && files.keys == others.keys
    && forall k :: k in files.keys ==> Ballots(files.Get(k, NO_SWEEPS)) == Ballots(others.Get(k, NO_SWEEPS))
  }

  lemma SameBallotsAt(files: Dict<FileKey, FileAcc>, others: Dict<FileKey, FileAcc>, n: nat)
    requires SameBallots(files, others) && n < |files.keys|
    ensures Ballots(files.Get(files.keys[n], NO_SWEEPS)) == Ballots(others.Get(files.keys[n], NO_SWEEPS))
  {
    assert files.keys[n] in files.keys;
  }

  lemma NoFilesAlike(files: Dict<FileKey, FileAcc>, others: Dict<FileKey, FileAcc>)
    ensures AllAlike(FirstBuckets(files, 0), FirstBuckets(others, 0))
  {
    assert ByLanguage(files, 0) == [] && ByLanguage(others, 0) == [];
  }

  lemma {:induction false} SameBallotsSameBuckets(files: Dict<FileKey, FileAcc>, others: Dict<FileKey, FileAcc>, n: nat)
    requires SameBallots(files, others) && n <= |files.keys|
    ensures AllAlike(FirstBuckets(files, n), FirstBuckets(others, n))
  {
    if n == 0 {
      NoFilesAlike(files, others);
    } else {
      SameBallotsSameBuckets(files, others, n - 1);
      SameBallotsAt(files, others, n - 1);
      AlikeNext(files, others, n - 1);
    }
  }

  /** Repeating a file's sweeps changes no bucket, except for its sweep count. */
  lemma CopiesKeepBuckets(runs: seq<Run>, key: FileKey, m: nat)
    ensures AllAlike(Buckets(runs), Buckets(WithCopies(runs, key, m)))
  {
    var files, others := Files(runs), Files(WithCopies(runs, key, m));
    FilesAt(runs, key);
    FilesAt(WithCopies(runs, key, m), key);
    CopiesKeepFileKeys(runs, key, m);
    forall k | k in files.keys ensures Ballots(files.Get(k, NO_SWEEPS)) == Ballots(others.Get(k, NO_SWEEPS)) {
      CopiesKeepBallots(runs, key, m, k);
    }
    SameBallotsSameBuckets(files, others, |files.keys|);
  }
}
