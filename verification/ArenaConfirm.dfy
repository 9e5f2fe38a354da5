/**
 * Repeat sweeps confirm and do not skew: what appending copies of one file's runs does to the
 * language report and to the leaderboard.
 */
module ArenaConfirm {
  import opened Common
  import opened Dicts
  import opened Sorting
  import opened ArenaAggregate
  import opened ArenaStandings
  import opened ArenaBoard

  // ---------- sweeps per language ----------

  /** The runs of one language that have a result. */
  function RunsIn(runs: seq<Run>, language: string): nat {
    if |runs| == 0 then 0
    else
      var r := runs[|runs| - 1];
      RunsIn(runs[..|runs| - 1], language) + (if r.result.Some? && KeyOf(r).language == language then 1 else 0)
  }

  function SweepsUnder(language: string): (FileKey, FileAcc) -> int {
    (k: FileKey, f: FileAcc) => if k.language == language then f.sweeps else 0
  }

  function SweepUnder(language: string): (FileKey, SweepResult) -> int {
    (k: FileKey, r: SweepResult) => if k.language == language then 1 else 0
  }

  lemma {:induction false} RunsInIsWeight(runs: seq<Run>, language: string)
    ensures Weight(Swept(runs), SweepUnder(language)) == RunsIn(runs, language)
  {
    if |runs| > 0 {
      var front, r := runs[..|runs| - 1], runs[|runs| - 1];
      RunsInIsWeight(front, language);
      if r.result.Some? {
        var x := (KeyOf(r), r.result.value);
        assert (Swept(front) + [x])[..|Swept(front)|] == Swept(front);
      } else {
        assert Swept(runs) == Swept(front);
      }
    }
  }

  lemma SweepsOfSnoc(fs: seq<FileAcc>, f: FileAcc)
    ensures SweepsOf(fs + [f]) == SweepsOf(fs) + f.sweeps
  {
    assert (fs + [f])[..|fs|] == fs;
  }

  lemma NextSweeps(files: Dict<FileKey, FileAcc>, n: nat, language: string)
    requires n < |files.keys|
    ensures SweepsOf(LanguageFiles(files, n + 1, language))
         == SweepsOf(LanguageFiles(files, n, language)) + SweepsUnder(language)(files.keys[n], files.Get(files.keys[n], NO_SWEEPS))
  {
    var fs := LanguageFiles(files, n, language);
    SweepsOfSnoc(fs, files.Get(files.keys[n], NO_SWEEPS));
    assert fs + [] == fs;
  }

  lemma {:induction false} SweepsOfLanguage(files: Dict<FileKey, FileAcc>, n: nat, language: string)
    requires n <= |files.keys|
    ensures SweepsOf(LanguageFiles(files, n, language)) == TotalOf(files.keys[..n], files, NO_SWEEPS, SweepsUnder(language))
  {
    if n > 0 {
      SweepsOfLanguage(files, n - 1, language);
      NextTotal(files, n - 1, SweepsUnder(language));
      NextSweeps(files, n - 1, language);
    }
  }

  /** A bucket's sweep count is the number of its language's runs that have a result. */
  lemma BucketSweepsAreRuns(runs: seq<Run>, language: string)
    ensures Buckets(runs).Get(language, NO_FILES).sweeps == RunsIn(runs, language)
  {
    var files := Files(runs);
    BucketOfFiles(runs, language);
    LanguageFilesAreValues(files, |files.keys|, language);
    SweepsOfLanguage(files, |files.keys|, language);
    assert files.keys[..|files.keys|] == files.keys;
    GroupConserves(Swept(runs), NO_SWEEPS, AddSweep, SweepsUnder(language), SweepUnder(language));
    RunsInIsWeight(runs, language);
  }

  lemma {:induction false} RunsInAppend(a: seq<Run>, b: seq<Run>, language: string)
    ensures RunsIn(a + b, language) == RunsIn(a, language) + RunsIn(b, language)
  {
    if |b| == 0 {
      assert a + b == a;
    } else {
      RunsInAppend(a, b[..|b| - 1], language);
      assert (a + b)[..|a + b| - 1] == a + b[..|b| - 1];
    }
  }

  lemma {:induction false} RunsInRepeat(runs: seq<Run>, m: nat, language: string)
    ensures RunsIn(Repeat(runs, m), language) == m * RunsIn(runs, language)
  {
    if m > 0 {
      RunsInRepeat(runs, m - 1, language);
      RunsInAppend(Repeat(runs, m - 1), runs, language);
      assert m * RunsIn(runs, language) == (m - 1) * RunsIn(runs, language) + RunsIn(runs, language);
    }
  }

  lemma {:induction false} RunsInOneFile(runs: seq<Run>, key: FileKey, language: string)
    ensures RunsIn(RunsOf(runs, key), language) == if language == key.language then |ResultsOf(runs, key)| else 0
  {
    if |runs| == 0 {
      assert |Swept(runs)| == 0;
    } else {
      var front, r := runs[..|runs| - 1], runs[|runs| - 1];
      assert runs == front + [r];
      RunsInOneFile(front, key, language);
      ResultsOfSnoc(front, r, key);
      if KeyOf(r) == key {
        assert RunsOf(runs, key)[..|RunsOf(front, key)|] == RunsOf(front, key);
      } else {
        assert RunsOf(runs, key) == RunsOf(front, key);
      }
    }
  }

  // ---------- the language report ----------

  /** A language's row after m copies of the file's runs: its own sweeps are counted, nothing else moves. */
  function Confirmed(row: LanguageRow, runs: seq<Run>, key: FileKey, m: nat): LanguageRow {
    row.(sweeps := row.sweeps + (if row.language == key.language then m * |ResultsOf(runs, key)| else 0))
  }

  lemma RunsInCopies(runs: seq<Run>, key: FileKey, m: nat, language: string)
    ensures RunsIn(WithCopies(runs, key, m), language)
         == RunsIn(runs, language) + (if language == key.language then m * |ResultsOf(runs, key)| else 0)
  {
    RunsInAppend(runs, Repeat(RunsOf(runs, key), m), language);
    RunsInRepeat(RunsOf(runs, key), m, language);
    RunsInOneFile(runs, key, language);
    if language != key.language {
      assert m * 0 == 0;
    }
  }

  lemma CopiesAddSweeps(runs: seq<Run>, key: FileKey, m: nat, language: string)
    ensures Buckets(WithCopies(runs, key, m)).Get(language, NO_FILES).sweeps
         == Buckets(runs).Get(language, NO_FILES).sweeps + (if language == key.language then m * |ResultsOf(runs, key)| else 0)
  {
    BucketSweepsAreRuns(runs, language);
    BucketSweepsAreRuns(WithCopies(runs, key, m), language);
    RunsInCopies(runs, key, m, language);
  }

  lemma BucketKeysHaveValues(runs: seq<Run>)
    ensures forall i :: 0 <= i < |Buckets(runs).keys| ==> Buckets(runs).keys[i] in Buckets(runs).vals
    ensures Distinct(Buckets(runs).keys)
  {
    var xs := ByLanguage(Files(runs), |Files(runs).keys|);
    GroupKeys(xs, NO_FILES, AddFile);
    FirstSeenIsDistinct(Keys(xs));
  }

  lemma AlikeRows(d: Dict<string, Bucket>, e: Dict<string, Bucket>, i: nat)
    requires AllAlike(d, e) && i < |d.keys| && d.keys[i] in d.vals
    ensures |RowsOf(e)| == |RowsOf(d)|
    ensures RowsOf(e)[i] == RowsOf(d)[i].(sweeps := e.Get(d.keys[i], NO_FILES).sweeps)
  {
    assert Alike(d.vals[d.keys[i]], e.vals[d.keys[i]]);
  }

  lemma CopiesKeepRows(runs: seq<Run>, key: FileKey, m: nat, i: nat)
    requires i < |RowsOf(Buckets(runs))|
    ensures |RowsOf(Buckets(WithCopies(runs, key, m)))| == |RowsOf(Buckets(runs))|
    ensures RowsOf(Buckets(WithCopies(runs, key, m)))[i] == Confirmed(RowsOf(Buckets(runs))[i], runs, key, m)
  {
    CopiesKeepBuckets(runs, key, m);
    BucketKeysHaveValues(runs);
    AlikeRows(Buckets(runs), Buckets(WithCopies(runs, key, m)), i);
    CopiesAddSweeps(runs, key, m, Buckets(runs).keys[i]);
  }

  /**
   * Sweeping one file again and again changes no recipe's files, wins or mean in any language, nor
   * the recipes' order; only the sweep count of the file's own language grows, by those sweeps.
   */
  lemma RepeatSweepsConfirm(runs: seq<Run>, key: FileKey, m: nat)
    ensures |LanguageRows(WithCopies(runs, key, m))| == |LanguageRows(runs)|
    ensures forall row :: row in LanguageRows(runs) ==> Confirmed(row, runs, key, m) in LanguageRows(WithCopies(runs, key, m))
  {
    var rows, after := RowsOf(Buckets(runs)), RowsOf(Buckets(WithCopies(runs, key, m)));
    SortedPermutes(rows, MoreFilesFirst);
    SortedPermutes(after, MoreFilesFirst);
    CopiesKeepBuckets(runs, key, m);
    forall row | row in LanguageRows(runs) ensures Confirmed(row, runs, key, m) in LanguageRows(WithCopies(runs, key, m)) {
      SameElements(rows, Sorted(rows, MoreFilesFirst), row);
      var i :| 0 <= i < |rows| && rows[i] == row;
      CopiesKeepRows(runs, key, m, i);
      assert after[i] in after;
      SameElements(after, Sorted(after, MoreFilesFirst), after[i]);
    }
  }
}
