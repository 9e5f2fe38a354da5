/**
 * The language report and the leaderboard: totals, votes, invariance under repeated sweeps, ranks.
 */
module ArenaBoard {
  import opened Common
  import opened Dicts
  import opened Sorting
  import opened ArenaAggregate
  import opened ArenaStandings

  // ---------- one language ----------

  /** The files of one language, in order. */
  function FilesIn(runs: seq<Run>, language: string): seq<FileAcc> {
    Values(ByLanguage(Files(runs), |Files(runs).keys|), language)
  }

  function AllBallots(fs: seq<FileAcc>): seq<(string, Ballot)> {
    if |fs| == 0 then [] else AllBallots(fs[..|fs| - 1]) + Ballots(fs[|fs| - 1])
  }

  function SweepsOf(fs: seq<FileAcc>): nat {
    if |fs| == 0 then 0 else SweepsOf(fs[..|fs| - 1]) + fs[|fs| - 1].sweeps
  }

  lemma {:induction false} BucketMeans(fs: seq<FileAcc>)
    ensures Fold(fs, NO_FILES, AddFile) == Bucket(|fs|, SweepsOf(fs), Group(AllBallots(fs), NO_BALLOTS, AddBallot))
  {
    if |fs| > 0 {
      BucketMeans(fs[..|fs| - 1]);
      GroupFromAppend(Empty(), AllBallots(fs[..|fs| - 1]), Ballots(fs[|fs| - 1]), NO_BALLOTS, AddBallot);
    }
  }

  lemma {:induction false} ValuesOfDistinct<K(!new), V>(xs: seq<(K, V)>, i: nat)
    requires Distinct(Keys(xs)) && i < |xs|
    ensures Values(xs, xs[i].0) == [xs[i].1]
  {
    var front := xs[..|xs| - 1];
    KeysFront(xs);
    assert Distinct(Keys(front)) by {
      assert forall j :: 0 <= j < |front| ==> Keys(front)[j] == Keys(xs)[j];
    }
    if i < |front| {
      ValuesOfDistinct(front, i);
      assert Keys(xs)[i] != Keys(xs)[|xs| - 1];
    } else {
      KeyHasValues(front, xs[i].0);
      forall j | 0 <= j < |front| ensures Keys(front)[j] != xs[i].0 {
        assert Keys(xs)[j] != Keys(xs)[i];
      }
    }
  }

  /** A file casts one ballot for each recipe it scored, and none for any other. */
  lemma OneBallotPerRecipe(f: FileAcc, recipe: string)
    requires Distinct(f.rec.keys)
    ensures Values(Ballots(f), recipe)
         == if recipe in f.rec.keys then [Ballot(MeanOf(f.rec, recipe), Some(recipe) == FileWinner(f))] else []
  {
    assert Keys(Ballots(f)) == f.rec.keys;
    if recipe in f.rec.keys {
      var i :| 0 <= i < |f.rec.keys| && f.rec.keys[i] == recipe;
      ValuesOfDistinct(Ballots(f), i);
    } else {
      KeyHasValues(Ballots(f), recipe);
    }
  }

  /** The number of files that scored the recipe, that it won, and the sum of their means. */
  function Scored(fs: seq<FileAcc>, recipe: string): Tally {
    if |fs| == 0 then Tally(0, 0, 0.0)
    else
      var t, f := Scored(fs[..|fs| - 1], recipe), fs[|fs| - 1];
      if recipe !in f.rec.keys then t
      else Tally(t.files + 1, t.wins + (if FileWinner(f) == Some(recipe) then 1 else 0), t.sum + MeanOf(f.rec, recipe))
  }

  ghost predicate WellKept(fs: seq<FileAcc>) {
    forall i :: 0 <= i < |fs| ==> Distinct(fs[i].rec.keys)
  }

  /** The ballots cast for the recipe. */
  function BallotsFor(fs: seq<FileAcc>, recipe: string): seq<Ballot> {
    Values(AllBallots(fs), recipe)
  }

  lemma FoldSnoc(bs: seq<Ballot>, b: Ballot)
    ensures Fold(bs + [b], NO_BALLOTS, AddBallot) == AddBallot(Fold(bs, NO_BALLOTS, AddBallot), b)
  {
    assert (bs + [b])[..|bs|] == bs;
  }

  lemma BallotsForSnoc(fs: seq<FileAcc>, f: FileAcc, recipe: string)
    requires Distinct(f.rec.keys)
    ensures recipe in f.rec.keys ==>
      BallotsFor(fs + [f], recipe) == BallotsFor(fs, recipe) + [Ballot(MeanOf(f.rec, recipe), Some(recipe) == FileWinner(f))]
    ensures recipe !in f.rec.keys ==> BallotsFor(fs + [f], recipe) == BallotsFor(fs, recipe)
  {
    assert (fs + [f])[..|fs|] == fs;
    ValuesAppend(AllBallots(fs), Ballots(f), recipe);
    OneBallotPerRecipe(f, recipe);
  }

  lemma {:induction false} TallyCountsFiles(fs: seq<FileAcc>, recipe: string)
    requires WellKept(fs)
    ensures Fold(BallotsFor(fs, recipe), NO_BALLOTS, AddBallot) == Scored(fs, recipe)
    ensures Scored(fs, recipe).wins <= Scored(fs, recipe).files <= |fs|
  {
    if |fs| > 0 {
      var front, f := fs[..|fs| - 1], fs[|fs| - 1];
      TallyCountsFiles(front, recipe);
      assert fs == front + [f];
      BallotsForSnoc(front, f, recipe);
      FoldSnoc(BallotsFor(front, recipe), Ballot(MeanOf(f.rec, recipe), Some(recipe) == FileWinner(f)));
    }
  }

  lemma FileIsWellKept(runs: seq<Run>, k: FileKey)
    ensures Distinct(Files(runs).Get(k, NO_SWEEPS).rec.keys)
  {
    FilesAt(runs, k);
    RowsInRec(ResultsOf(runs, k), "");
  }

  /** Those of the first n files that are in the language. */
  function LanguageFiles(files: Dict<FileKey, FileAcc>, n: nat, language: string): seq<FileAcc>
    requires n <= |files.keys|
  {
    if n == 0 then []
    else
      LanguageFiles(files, n - 1, language)
        + (if files.keys[n - 1].language == language then [files.Get(files.keys[n - 1], NO_SWEEPS)] else [])
  }

  lemma {:induction false} LanguageFilesAreValues(files: Dict<FileKey, FileAcc>, n: nat, language: string)
    requires n <= |files.keys|
    ensures Values(ByLanguage(files, n), language) == LanguageFiles(files, n, language)
  {
    if n > 0 {
      LanguageFilesAreValues(files, n - 1, language);
      var x := (files.keys[n - 1].language, files.Get(files.keys[n - 1], NO_SWEEPS));
      ValuesAppend(ByLanguage(files, n - 1), [x], language);
      ValuesOfOne([x], language);
    }
  }

  lemma {:induction false} FilesAreWellKept(runs: seq<Run>, n: nat, language: string)
    requires n <= |Files(runs).keys|
    ensures WellKept(LanguageFiles(Files(runs), n, language))
  {
    if n > 0 {
      FilesAreWellKept(runs, n - 1, language);
      FileIsWellKept(runs, Files(runs).keys[n - 1]);
    }
  }

  lemma BucketOfFiles(runs: seq<Run>, language: string)
    ensures var fs := FilesIn(runs, language);
      && Buckets(runs).Get(language, NO_FILES) == Bucket(|fs|, SweepsOf(fs), Group(AllBallots(fs), NO_BALLOTS, AddBallot))
      && WellKept(fs)
  {
    GroupAt(ByLanguage(Files(runs), |Files(runs).keys|), NO_FILES, AddFile, language);
    BucketMeans(FilesIn(runs, language));
    LanguageFilesAreValues(Files(runs), |Files(runs).keys|, language);
    FilesAreWellKept(runs, |Files(runs).keys|, language);
  }

  /**
   * One file, one vote: a recipe's row in a language counts each file that scored it once, averages
   * the files' means, and wins a file when it is that file's winner.
   */
  lemma RecipeCountsFiles(runs: seq<Run>, language: string, recipe: string)
    ensures Buckets(runs).Get(language, NO_FILES).rec.Get(recipe, NO_BALLOTS) == Scored(FilesIn(runs, language), recipe)
    ensures Scored(FilesIn(runs, language), recipe).wins <= Scored(FilesIn(runs, language), recipe).files
         <= Buckets(runs).Get(language, NO_FILES).files
  {
    var fs := FilesIn(runs, language);
    BucketOfFiles(runs, language);
    GroupAt(AllBallots(fs), NO_BALLOTS, AddBallot, recipe);
    TallyCountsFiles(fs, recipe);
  }

  // ---------- wins ----------

  function TallyWins(recipe: string, t: Tally): int { t.wins }

  function BallotWin(recipe: string, b: Ballot): int { if b.won then 1 else 0 }

  lemma {:induction false} WinsGoToTheWinner(xs: seq<(string, Ballot)>, winner: Option<string>)
    requires forall i :: 0 <= i < |xs| ==> (xs[i].1.won ==> winner == Some(xs[i].0))
    ensures Weight(xs, BallotWin) <= if winner.None? then 0 else |Values(xs, winner.value)|
  {
    if |xs| > 0 {
      WinsGoToTheWinner(xs[..|xs| - 1], winner);
    }
  }

  lemma {:induction false} WeightAppend<K, V>(a: seq<(K, V)>, b: seq<(K, V)>, weight: (K, V) -> int)
    ensures Weight(a + b, weight) == Weight(a, weight) + Weight(b, weight)
  {
    if |b| == 0 {
      assert a + b == a;
    } else {
      WeightAppend(a, b[..|b| - 1], weight);
      assert (a + b)[..|a + b| - 1] == a + b[..|b| - 1];
    }
  }

  lemma {:induction false} AtMostOneWinPerFile(fs: seq<FileAcc>)
    requires WellKept(fs)
    ensures Weight(AllBallots(fs), BallotWin) <= |fs|
  {
    if |fs| > 0 {
      var front, f := fs[..|fs| - 1], fs[|fs| - 1];
      AtMostOneWinPerFile(front);
      WeightAppend(AllBallots(front), Ballots(f), BallotWin);
      WinsGoToTheWinner(Ballots(f), FileWinner(f));
      if FileWinner(f).Some? {
        OneBallotPerRecipe(f, FileWinner(f).value);
      }
    }
  }

  /** The recipes of a language together win at most as many files as the language has. */
  lemma WinsAreFiles(runs: seq<Run>, language: string)
    ensures Total(Buckets(runs).Get(language, NO_FILES).rec, NO_BALLOTS, TallyWins) <= Buckets(runs).Get(language, NO_FILES).files
  {
    var fs := FilesIn(runs, language);
    BucketOfFiles(runs, language);
    AtMostOneWinPerFile(fs);
    GroupConserves(AllBallots(fs), NO_BALLOTS, AddBallot, TallyWins, BallotWin);
  }

  // ---------- totals ----------

  function BucketFiles(language: string, b: Bucket): int { b.files }

  function BucketSweeps(language: string, b: Bucket): int { b.sweeps }

  function OneFile(language: string, f: FileAcc): int { 1 }

  function FileSweeps(language: string, f: FileAcc): int { f.sweeps }

  function KeySweeps(key: FileKey, f: FileAcc): int { f.sweeps }

  function OneSweep(key: FileKey, r: SweepResult): int { 1 }

  lemma WeightSnoc<K, V>(xs: seq<(K, V)>, k: K, v: V, weight: (K, V) -> int)
    ensures Weight(xs + [(k, v)], weight) == Weight(xs, weight) + weight(k, v)
  {
    assert (xs + [(k, v)])[..|xs|] == xs;
  }

  lemma NextTotal(files: Dict<FileKey, FileAcc>, n: nat, measure: (FileKey, FileAcc) -> int)
    requires n < |files.keys|
    ensures TotalOf(files.keys[..n + 1], files, NO_SWEEPS, measure)
         == TotalOf(files.keys[..n], files, NO_SWEEPS, measure) + measure(files.keys[n], files.Get(files.keys[n], NO_SWEEPS))
  {
    assert files.keys[..n + 1][..n] == files.keys[..n];
  }

  lemma {:induction false} WeightsOfFiles(files: Dict<FileKey, FileAcc>, n: nat)
    requires n <= |files.keys|
    ensures Weight(ByLanguage(files, n), OneFile) == n
    ensures Weight(ByLanguage(files, n), FileSweeps) == TotalOf(files.keys[..n], files, NO_SWEEPS, KeySweeps)
  {
    if n > 0 {
      WeightsOfFiles(files, n - 1);
      var k := files.keys[n - 1];
      WeightSnoc(ByLanguage(files, n - 1), k.language, files.Get(k, NO_SWEEPS), OneFile);
      WeightSnoc(ByLanguage(files, n - 1), k.language, files.Get(k, NO_SWEEPS), FileSweeps);
      NextTotal(files, n - 1, KeySweeps);
    }
  }

  lemma {:induction false} OneEach(xs: seq<(FileKey, SweepResult)>)
    ensures Weight(xs, OneSweep) == |xs|
  {
    if |xs| > 0 {
      OneEach(xs[..|xs| - 1]);
    }
  }

  lemma SweepTotal(runs: seq<Run>)
    ensures Total(Files(runs), NO_SWEEPS, KeySweeps) == |Swept(runs)|
  {
    GroupConserves(Swept(runs), NO_SWEEPS, AddSweep, KeySweeps, OneSweep);
    OneEach(Swept(runs));
  }

  lemma BucketFileTotal(files: Dict<FileKey, FileAcc>)
    ensures Total(BucketsOf(files), NO_FILES, BucketFiles) == |files.keys|
  {
    GroupConserves(ByLanguage(files, |files.keys|), NO_FILES, AddFile, BucketFiles, OneFile);
    WeightsOfFiles(files, |files.keys|);
  }

  lemma BucketSweepTotal(files: Dict<FileKey, FileAcc>)
    ensures Total(BucketsOf(files), NO_FILES, BucketSweeps) == Total(files, NO_SWEEPS, KeySweeps)
  {
    GroupConserves(ByLanguage(files, |files.keys|), NO_FILES, AddFile, BucketSweeps, FileSweeps);
    WeightsOfFiles(files, |files.keys|);
    assert files.keys[..|files.keys|] == files.keys;
  }

  function RowFiles(row: LanguageRow): int { row.files }

  function RowSweeps(row: LanguageRow): int { row.sweeps }

  lemma {:induction false} RowSums(d: Dict<string, Bucket>, n: nat)
    requires n <= |d.keys|
    ensures SumBy(RowsOf(d)[..n], RowFiles) == TotalOf(d.keys[..n], d, NO_FILES, BucketFiles)
    ensures SumBy(RowsOf(d)[..n], RowSweeps) == TotalOf(d.keys[..n], d, NO_FILES, BucketSweeps)
  {
    if n > 0 {
      RowSums(d, n - 1);
      SumBySnoc(RowsOf(d)[..n - 1], RowsOf(d)[n - 1], RowFiles);
      SumBySnoc(RowsOf(d)[..n - 1], RowsOf(d)[n - 1], RowSweeps);
      assert RowsOf(d)[..n] == RowsOf(d)[..n - 1] + [RowsOf(d)[n - 1]];
      assert d.keys[..n][..n - 1] == d.keys[..n - 1];
    }
  }

  /** The report counts every distinct (language, path) once and every run with a result once. */
  lemma ReportConserves(runs: seq<Run>)
    ensures SumBy(LanguageRows(runs), RowFiles) == |FileKeys(runs)|
    ensures SumBy(LanguageRows(runs), RowSweeps) == |Swept(runs)|
  {
    var d := Buckets(runs);
    FilesAt(runs, FileKey("", None));
    BucketFileTotal(Files(runs));
    BucketSweepTotal(Files(runs));
    SweepTotal(runs);
    RowSums(d, |d.keys|);
    assert d.keys[..|d.keys|] == d.keys && RowsOf(d)[..|d.keys|] == RowsOf(d);
    SortedKeepsSum(RowsOf(d), MoreFilesFirst, RowFiles);
    SortedKeepsSum(RowsOf(d), MoreFilesFirst, RowSweeps);
  }

  // ---------- ranks ----------

  lemma BetterFirstIsTotal()
    ensures TotalPreorder(BetterFirst)
  {
  }

  lemma {:induction false} LengthOfNumbered(rows: seq<BoardRow>)
    ensures |Numbered(rows)| == |rows|
  {
    if |rows| > 0 {
      LengthOfNumbered(rows[..|rows| - 1]);
    }
  }

  lemma {:induction false} NumberedAt(rows: seq<BoardRow>, i: nat)
    requires i < |Numbered(rows)|
    ensures |Numbered(rows)| == |rows|
    ensures Numbered(rows)[i] == rows[i].(rank := if rows[i].eligible then Some(Eligibles(rows[..i + 1])) else None)
  {
    LengthOfNumbered(rows);
    LengthOfNumbered(rows[..|rows| - 1]);
    if i < |rows| - 1 {
      NumberedAt(rows[..|rows| - 1], i);
      assert rows[..|rows| - 1][..i + 1] == rows[..i + 1];
    } else {
      assert rows[..i + 1] == rows;
    }
  }

  lemma {:induction false} EligiblesOfPrefix(rows: seq<BoardRow>, n: nat)
    requires n <= |rows|
    requires forall i, j :: 0 <= i < j < |rows| && rows[j].eligible ==> rows[i].eligible
    ensures Eligibles(rows[..n]) <= n
    ensures n > 0 && rows[n - 1].eligible ==> Eligibles(rows[..n]) == n
    ensures n < |rows| && rows[n].eligible ==> Eligibles(rows[..n]) == n
  {
    if n > 0 {
      EligiblesOfPrefix(rows, n - 1);
      assert rows[..n][..n - 1] == rows[..n - 1];
    }
  }

  lemma UnrankedInOrder(runs: seq<Run>, minLanguages: int)
    ensures InOrder(Unranked(runs, minLanguages), BetterFirst)
    ensures forall i, j :: 0 <= i < j < |Unranked(runs, minLanguages)| && Unranked(runs, minLanguages)[j].eligible ==>
      Unranked(runs, minLanguages)[i].eligible
  {
    BetterFirstIsTotal();
    SortedInOrder(BoardRowsOf(Entries(LanguageRows(runs)), minLanguages), BetterFirst);
    var rows := Unranked(runs, minLanguages);
    forall i, j | 0 <= i < j < |rows| && rows[j].eligible ensures rows[i].eligible {
      assert BetterFirst(rows[i], rows[j]);
    }
  }

  /** Every row on the board is the summary of one recipe's entry. */
  lemma UnrankedRow(runs: seq<Run>, minLanguages: int, row: BoardRow)
    requires row in Unranked(runs, minLanguages)
    ensures row.recipe in Entries(LanguageRows(runs)).keys
    ensures row == BoardRowOf(row.recipe, Entries(LanguageRows(runs)).Get(row.recipe, NO_ENTRY), minLanguages)
  {
    var rows := BoardRowsOf(Entries(LanguageRows(runs)), minLanguages);
    SortedPermutes(rows, BetterFirst);
    SameElements(rows, Sorted(rows, BetterFirst), row);
    var i :| 0 <= i < |rows| && rows[i] == row;
  }

  /** When the eligible rows come first they are numbered by their places. */
  lemma NumberedByPlace(rows: seq<BoardRow>, i: nat)
    requires i < |Numbered(rows)|
    requires forall i, j :: 0 <= i < j < |rows| && rows[j].eligible ==> rows[i].eligible
    ensures |Numbered(rows)| == |rows|
    ensures Numbered(rows)[i] == rows[i].(rank := if rows[i].eligible then Some(i + 1) else None)
    ensures Numbered(rows)[i].eligible && i > 0 ==> Numbered(rows)[i - 1].eligible
  {
    NumberedAt(rows, i);
    EligiblesOfPrefix(rows, i + 1);
    if i > 0 {
      NumberedAt(rows, i - 1);
    }
  }

  /** The eligible recipes come first, ranked 1, 2, 3 and so on without a gap; the rest carry no rank. */
  lemma RanksHaveNoGaps(runs: seq<Run>, minLanguages: int, i: nat)
    requires i < |Leaderboard(runs, minLanguages)|
    ensures var b := Leaderboard(runs, minLanguages);
      && b[i].rank == (if b[i].eligible then Some(i + 1) else None)
      && (b[i].eligible <==> b[i].languages >= minLanguages)
      && (b[i].eligible && i > 0 ==> b[i - 1].eligible)
  {
    var rows := Unranked(runs, minLanguages);
    UnrankedInOrder(runs, minLanguages);
    NumberedByPlace(rows, i);
    UnrankedRow(runs, minLanguages, rows[i]);
  }

  /** Along the ranks the mean does not rise, and at equal means the wins do not rise. */
  lemma RanksAreByMean(runs: seq<Run>, minLanguages: int, i: nat, j: nat)
    requires i < j < |Leaderboard(runs, minLanguages)|
    ensures var b := Leaderboard(runs, minLanguages);
      b[i].eligible == b[j].eligible ==>
        b[i].globalMean > b[j].globalMean || (b[i].globalMean == b[j].globalMean && b[i].wins >= b[j].wins)
  {
    var rows := Unranked(runs, minLanguages);
    UnrankedInOrder(runs, minLanguages);
    NumberedAt(rows, i);
    NumberedAt(rows, j);
    assert BetterFirst(rows[i], rows[j]);
  }
}
