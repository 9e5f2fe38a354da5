/**
 * What the language report and the leaderboard say, told of the runs themselves: no figure goes
 * through the dictionaries that compute it.
 */
module ArenaReport {
  import opened Common
  import opened Dicts
  import opened Sorting
  import opened ArenaAggregate
  import opened ArenaStandings
  import opened ArenaBoard
  import opened ArenaConfirm
  import opened ArenaPlaces

  // ---------- one file ----------

  /** The run is a finished sweep of the file; a run without a language counts as undetermined. */
  predicate Sweeps(r: Run, key: FileKey) {
    r.result.Some? && r.path == key.path && key.language == if r.language == "" then "und" else r.language
  }

  /** The recipe's scores among the rows. */
  function ScoresIn(rows: seq<Row>, recipe: string): seq<real> {
    if |rows| == 0 then []
    else ScoresIn(rows[..|rows| - 1], recipe) + (if rows[|rows| - 1].recipe == recipe then [rows[|rows| - 1].mean] else [])
  }

  /** The recipe's scores in all sweeps of the file. */
  function ScoresOf(runs: seq<Run>, key: FileKey, recipe: string): seq<real> {
    if |runs| == 0 then []
    else
      var r := runs[|runs| - 1];
      ScoresOf(runs[..|runs| - 1], key, recipe) + (if Sweeps(r, key) then ScoresIn(r.result.value.aggregate, recipe) else [])
  }

  /** The sweeps of the file that the recipe won and did not tie. */
  function WonOutright(runs: seq<Run>, key: FileKey, recipe: string): nat {
    if |runs| == 0 then 0
    else
      var r := runs[|runs| - 1];
      WonOutright(runs[..|runs| - 1], key, recipe)
        + (if Sweeps(r, key) && !r.result.value.tie && r.result.value.winner == recipe then 1 else 0)
  }

  lemma {:induction false} LabelledScores(rows: seq<Row>, recipe: string)
    ensures Values(Labelled(rows), recipe) == if recipe == "" then [] else ScoresIn(rows, recipe)
  {
    if |rows| > 0 {
      var front, row := rows[..|rows| - 1], rows[|rows| - 1];
      var one := if row.recipe != "" then [(row.recipe, row.mean)] else [];
      LabelledScores(front, recipe);
      ValuesAppend(Labelled(front), one, recipe);
      ValuesOfOne(one, recipe);
    }
  }

  lemma SweepsByKey(r: Run, key: FileKey)
    ensures Sweeps(r, key) <==> r.result.Some? && KeyOf(r) == key
  {
  }

  lemma AllRowsSnoc(sweeps: seq<SweepResult>, s: SweepResult)
    ensures AllRows(sweeps + [s]) == AllRows(sweeps) + Labelled(s.aggregate)
    ensures AllVotes(sweeps + [s]) == AllVotes(sweeps) + WinVotes(s)
  {
    assert (sweeps + [s])[..|sweeps|] == sweeps;
  }

  lemma ScoresSnoc(sweeps: seq<SweepResult>, s: SweepResult, recipe: string)
    requires recipe != ""
    ensures Values(AllRows(sweeps + [s]), recipe) == Values(AllRows(sweeps), recipe) + ScoresIn(s.aggregate, recipe)
    ensures SweepsWon(sweeps + [s], recipe)
         == SweepsWon(sweeps, recipe) + (if !s.tie && s.winner == recipe then 1 else 0)
  {
    AllRowsSnoc(sweeps, s);
    ValuesAppend(AllRows(sweeps), Labelled(s.aggregate), recipe);
    LabelledScores(s.aggregate, recipe);
    ValuesAppend<string, nat>(AllVotes(sweeps), WinVotes(s), recipe);
    ValuesOfOne<string, nat>(WinVotes(s), recipe);
  }

  lemma {:induction false} ScoresOfFile(runs: seq<Run>, key: FileKey, recipe: string)
    requires recipe != ""
    ensures Values(AllRows(ResultsOf(runs, key)), recipe) == ScoresOf(runs, key, recipe)
    ensures SweepsWon(ResultsOf(runs, key), recipe) == WonOutright(runs, key, recipe)
  {
    if |runs| == 0 {
      assert |Swept(runs)| == 0 && |ResultsOf(runs, key)| == 0;
    } else {
      var front, r := runs[..|runs| - 1], runs[|runs| - 1];
      assert runs == front + [r];
      ScoresOfFile(front, key, recipe);
      ResultsOfSnoc(front, r, key);
      SweepsByKey(r, key);
      if Sweeps(r, key) {
        ScoresSnoc(ResultsOf(front, key), r.result.value, recipe);
      } else {
        assert ResultsOf(runs, key) == ResultsOf(front, key);
        assert ScoresOf(runs, key, recipe) == ScoresOf(front, key, recipe);
      }
    }
  }

  lemma {:induction false} NothingIsUnnamed(sweeps: seq<SweepResult>)
    ensures Values(AllRows(sweeps), "") == [] && SweepsWon(sweeps, "") == 0
  {
    if |sweeps| == 0 {
      assert |AllRows(sweeps)| == 0 && |AllVotes(sweeps)| == 0;
    } else {
      var front, s := sweeps[..|sweeps| - 1], sweeps[|sweeps| - 1];
      NothingIsUnnamed(front);
      ValuesAppend(AllRows(front), Labelled(s.aggregate), "");
      LabelledScores(s.aggregate, "");
      ValuesAppend<string, nat>(AllVotes(front), WinVotes(s), "");
      ValuesOfOne<string, nat>(WinVotes(s), "");
    }
  }

  function FileAt(runs: seq<Run>, key: FileKey): FileAcc {
    Files(runs).Get(key, NO_SWEEPS)
  }

  /** A file lists a recipe exactly if one of its sweeps scored it, and its mean is the plain average of the scores. */
  lemma FileListsExactly(runs: seq<Run>, key: FileKey, recipe: string)
    ensures recipe in FileAt(runs, key).rec.keys <==> recipe != "" && ScoresOf(runs, key, recipe) != []
    ensures recipe != "" ==> MeanOf(FileAt(runs, key).rec, recipe) == Average(ScoresOf(runs, key, recipe))
  {
    FilesAt(runs, key);
    RowsInRec(ResultsOf(runs, key), recipe);
    FileMeanIsAverage(ResultsOf(runs, key), recipe);
    if recipe != "" {
      ScoresOfFile(runs, key, recipe);
    } else {
      NothingIsUnnamed(ResultsOf(runs, key));
    }
  }

  ghost predicate SomethingWon(runs: seq<Run>, key: FileKey) {
    exists r :: r != "" && WonOutright(runs, key, r) > 0
  }

  ghost predicate SomethingScored(runs: seq<Run>, key: FileKey) {
    exists r :: r != "" && ScoresOf(runs, key, r) != []
  }

  /** No recipe won more of the file's sweeps; or none was won and no recipe has a better average. */
  ghost predicate IsBest(runs: seq<Run>, key: FileKey, w: string) {
    && w != ""
    && if SomethingWon(runs, key) then forall r :: r != "" ==> WonOutright(runs, key, r) <= WonOutright(runs, key, w)
       else ScoresOf(runs, key, w) != []
            && forall r :: r != "" && ScoresOf(runs, key, r) != [] ==>
                 Average(ScoresOf(runs, key, r)) <= Average(ScoresOf(runs, key, w))
  }

  function WinnerOf(runs: seq<Run>, key: FileKey): Option<string> {
    FileWinner(FileAt(runs, key))
  }

  lemma VotesExist(runs: seq<Run>, key: FileKey)
    ensures AllVotes(ResultsOf(runs, key)) != [] <==> SomethingWon(runs, key)
  {
    var votes := AllVotes(ResultsOf(runs, key));
    if votes != [] {
      assert Keys(votes)[0] in Keys(votes);
      KeyHasValues<string, nat>(votes, votes[0].0);
      NothingIsUnnamed(ResultsOf(runs, key));
      ScoresOfFile(runs, key, votes[0].0);
    }
    if r :| r != "" && WonOutright(runs, key, r) > 0 {
      ScoresOfFile(runs, key, r);
      KeyHasValues<string, nat>(votes, r);
    }
  }

  lemma RowsExist(runs: seq<Run>, key: FileKey)
    ensures AllRows(ResultsOf(runs, key)) != [] <==> SomethingScored(runs, key)
  {
    var rows := AllRows(ResultsOf(runs, key));
    if rows != [] {
      assert Keys(rows)[0] in Keys(rows);
      KeyHasValues(rows, rows[0].0);
      NothingIsUnnamed(ResultsOf(runs, key));
      ScoresOfFile(runs, key, rows[0].0);
    }
    if r :| r != "" && ScoresOf(runs, key, r) != [] {
      ScoresOfFile(runs, key, r);
      KeyHasValues(rows, r);
    }
  }

  lemma WinnerIsNamed(runs: seq<Run>, key: FileKey)
    requires WinnerOf(runs, key).Some?
    ensures var w := WinnerOf(runs, key).value;
      if SomethingWon(runs, key) then SweepsWon(ResultsOf(runs, key), w) > 0
      else w in FileAt(runs, key).rec.keys
  {
    FilesAt(runs, key);
    VotesExist(runs, key);
    var sweeps, w := ResultsOf(runs, key), WinnerOf(runs, key).value;
    FileMeans(sweeps);
    GroupKeys<string, nat, nat>(AllVotes(sweeps), 0, AddVotes);
    SeenSomething(Keys(AllVotes(sweeps)));
    FileVotesAreSweepsWon(sweeps, w);
  }

  /** The file has a winner exactly if a sweep of it was won or scored, and the winner is a best one. */
  lemma WinnerExactly(runs: seq<Run>, key: FileKey)
    ensures WinnerOf(runs, key).None? <==> !SomethingWon(runs, key) && !SomethingScored(runs, key)
    ensures WinnerOf(runs, key).Some? ==> IsBest(runs, key, WinnerOf(runs, key).value)
  {
    FilesAt(runs, key);
    VotesExist(runs, key);
    RowsExist(runs, key);
    FileWinnerIsBest(ResultsOf(runs, key));
    if WinnerOf(runs, key).Some? {
      var w := WinnerOf(runs, key).value;
      WinnerIsNamed(runs, key);
      NothingIsUnnamed(ResultsOf(runs, key));
      FileListsExactly(runs, key, w);
      ScoresOfFileIfNamed(runs, key, w);
      forall r | r != ""
        ensures SomethingWon(runs, key) ==> WonOutright(runs, key, r) <= WonOutright(runs, key, w)
        ensures !SomethingWon(runs, key) && ScoresOf(runs, key, r) != [] ==>
          Average(ScoresOf(runs, key, r)) <= Average(ScoresOf(runs, key, w))
      {
        ScoresOfFile(runs, key, r);
        FileListsExactly(runs, key, r);
      }
    }
  }

  lemma ScoresOfFileIfNamed(runs: seq<Run>, key: FileKey, recipe: string)
    ensures recipe != "" ==> SweepsWon(ResultsOf(runs, key), recipe) == WonOutright(runs, key, recipe)
  {
    if recipe != "" {
      ScoresOfFile(runs, key, recipe);
    }
  }

  // ---------- the files of a language ----------

  /** The files of the language that were swept, by first sweep. */
  function KeysIn(runs: seq<Run>, language: string): seq<FileKey> {
    if |runs| == 0 then []
    else
      var front, r := KeysIn(runs[..|runs| - 1], language), runs[|runs| - 1];
      var key := FileKey(language, r.path);
      if Sweeps(r, key) && key !in front then front + [key] else front
  }

  function OfLanguage(keys: seq<FileKey>, language: string): seq<FileKey> {
    if |keys| == 0 then []
    else
      OfLanguage(keys[..|keys| - 1], language)
        + (if keys[|keys| - 1].language == language then [keys[|keys| - 1]] else [])
  }

  lemma {:induction false} OfLanguageHas(keys: seq<FileKey>, language: string, key: FileKey)
    ensures key in OfLanguage(keys, language) <==> key in keys && key.language == language
  {
    if |keys| > 0 {
      OfLanguageHas(keys[..|keys| - 1], language, key);
      assert keys == keys[..|keys| - 1] + [keys[|keys| - 1]];
    }
  }

  lemma FileKeysSnoc(runs: seq<Run>, r: Run)
    ensures FileKeys(runs + [r]) ==
      if r.result.Some? && KeyOf(r) !in FileKeys(runs) then FileKeys(runs) + [KeyOf(r)] else FileKeys(runs)
  {
    assert (runs + [r])[..|runs|] == runs;
    if r.result.Some? {
      var xs := Swept(runs) + [(KeyOf(r), r.result.value)];
      assert Swept(runs + [r]) == xs;
      assert Keys(xs)[..|xs| - 1] == Keys(Swept(runs));
      assert FirstSeen(Keys(xs)) ==
        if KeyOf(r) in FileKeys(runs) then FileKeys(runs) else FileKeys(runs) + [KeyOf(r)];
    } else {
      assert Swept(runs + [r]) == Swept(runs);
    }
  }

  lemma OfLanguageSnoc(keys: seq<FileKey>, key: FileKey, language: string)
    ensures OfLanguage(keys + [key], language) == OfLanguage(keys, language) + (if key.language == language then [key] else [])
  {
    assert (keys + [key])[..|keys|] == keys;
  }

  lemma {:induction false} KeysInExactly(runs: seq<Run>, language: string)
    ensures OfLanguage(FileKeys(runs), language) == KeysIn(runs, language)
  {
    if |runs| == 0 {
      assert |Swept(runs)| == 0 && |FileKeys(runs)| == 0;
    } else {
      var front, r := runs[..|runs| - 1], runs[|runs| - 1];
      assert runs == front + [r];
      KeysInExactly(front, language);
      FileKeysSnoc(front, r);
      OfLanguageSnoc(FileKeys(front), KeyOf(r), language);
      OfLanguageHas(FileKeys(front), language, KeyOf(r));
      SweepsByKey(r, FileKey(language, r.path));
    }
  }

  function FilesAtKeys(runs: seq<Run>, keys: seq<FileKey>): (fs: seq<FileAcc>)
    ensures |fs| == |keys| && forall i :: 0 <= i < |keys| ==> fs[i] == FileAt(runs, keys[i])
  {
    seq(|keys|, i requires 0 <= i < |keys| => FileAt(runs, keys[i]))
  }

  lemma {:induction false} FilesByKey(runs: seq<Run>, n: nat, language: string)
    requires n <= |Files(runs).keys|
    ensures LanguageFiles(Files(runs), n, language) == FilesAtKeys(runs, OfLanguage(Files(runs).keys[..n], language))
  {
    if n > 0 {
      FilesByKey(runs, n - 1, language);
      assert Files(runs).keys[..n][..n - 1] == Files(runs).keys[..n - 1];
    } else {
      assert |Files(runs).keys[..n]| == 0;
    }
  }

  lemma FilesOfLanguage(runs: seq<Run>, language: string)
    ensures FilesIn(runs, language) == FilesAtKeys(runs, KeysIn(runs, language))
  {
    LanguageFilesAreValues(Files(runs), |Files(runs).keys|, language);
    FilesByKey(runs, |Files(runs).keys|, language);
    assert Files(runs).keys[..|Files(runs).keys|] == Files(runs).keys;
    FilesAt(runs, FileKey("", None));
    KeysInExactly(runs, language);
  }

  /** Over the files: how many scored the recipe, how many it won, and the sum of its averages. */
  function FiguresOf(runs: seq<Run>, keys: seq<FileKey>, recipe: string): Tally {
    if |keys| == 0 then Tally(0, 0, 0.0)
    else
      var t, key := FiguresOf(runs, keys[..|keys| - 1], recipe), keys[|keys| - 1];
      if recipe == "" || ScoresOf(runs, key, recipe) == [] then t
      else Tally(t.files + 1,
                 t.wins + (if WinnerOf(runs, key) == Some(recipe) then 1 else 0),
                 t.sum + Average(ScoresOf(runs, key, recipe)))
  }

  lemma {:induction false} FiguresAreScored(runs: seq<Run>, keys: seq<FileKey>, recipe: string)
    ensures Scored(FilesAtKeys(runs, keys), recipe) == FiguresOf(runs, keys, recipe)
    ensures FiguresOf(runs, keys, recipe).wins <= FiguresOf(runs, keys, recipe).files <= |keys|
  {
    if |keys| == 0 {
      assert |FilesAtKeys(runs, keys)| == 0;
    } else {
      var front, key := keys[..|keys| - 1], keys[|keys| - 1];
      FiguresAreScored(runs, front, recipe);
      FileListsExactly(runs, key, recipe);
      var fs := FilesAtKeys(runs, keys);
      assert fs[..|keys| - 1] == FilesAtKeys(runs, front);
      assert fs[|keys| - 1] == FileAt(runs, key);
    }
  }

  // ---------- the report ----------

  /** The nearest hundredth, of two equally near ones the even. */
  ghost predicate IsRounded(x: real, r: real) {
    exists n: int :: IsHundredths(x, r, n)
  }

  predicate IsHundredths(x: real, r: real, n: int) {
    && r == n as real / 100.0 && -0.5 <= x * 100.0 - n as real <= 0.5
    && (x * 100.0 - n as real == 0.5 || x * 100.0 - n as real == -0.5 ==> n % 2 == 0)
  }

  lemma Round2Exactly(x: real)
    ensures IsRounded(x, Round2(x))
  {
    var floor := (x * 100.0).Floor;
    var rest := x * 100.0 - floor as real;
    var n := if rest < 0.5 || (rest == 0.5 && floor % 2 == 0) then floor else floor + 1;
    assert IsHundredths(x, Round2(x), n);
  }

  lemma RoundedOnce(x: real, r: real, s: real)
    requires IsRounded(x, r) && IsRounded(x, s)
    ensures r == s
  {
    var m :| IsHundredths(x, r, m);
    var n :| IsHundredths(x, s, n);
    assert -1.0 <= (m - n) as real <= 1.0;
    assert m == n || m == n + 1 || n == m + 1;
  }

  lemma {:induction false} TallyFiles(bs: seq<Ballot>)
    ensures Fold(bs, NO_BALLOTS, AddBallot).files == |bs|
  {
    if |bs| > 0 {
      TallyFiles(bs[..|bs| - 1]);
    }
  }

  /** The bucket of a language lists exactly the recipes its files scored, with their figures. */
  lemma BucketListsExactly(runs: seq<Run>, language: string, recipe: string)
    ensures var b, t := Buckets(runs).Get(language, NO_FILES), FiguresOf(runs, KeysIn(runs, language), recipe);
      && b.files == |KeysIn(runs, language)|
      && b.rec.Get(recipe, NO_BALLOTS) == t
      && (recipe in b.rec.keys <==> t.files > 0)
      && Distinct(b.rec.keys)
  {
    BucketOfFiles(runs, language);
    FilesOfLanguage(runs, language);
    RecipeCountsFiles(runs, language, recipe);
    FiguresAreScored(runs, KeysIn(runs, language), recipe);
    var ballots := AllBallots(FilesIn(runs, language));
    GroupAt(ballots, NO_BALLOTS, AddBallot, recipe);
    GroupKeys(ballots, NO_BALLOTS, AddBallot);
    FirstSeenIsDistinct(Keys(ballots));
    TallyFiles(Values(ballots, recipe));
  }

  lemma RowIsOfBucket(runs: seq<Run>, row: LanguageRow)
    requires row in LanguageRows(runs)
    ensures row == LanguageRowOf(row.language, Buckets(runs).Get(row.language, NO_FILES))
    ensures row.language in Buckets(runs).keys
  {
    var rows := RowsOf(Buckets(runs));
    SortedPermutes(rows, MoreFilesFirst);
    SameElements(LanguageRows(runs), rows, row);
    var i :| 0 <= i < |rows| && rows[i] == row;
  }

  lemma RecipeRowIsOfTally(rec: Dict<string, Tally>, r: RecipeRow)
    ensures r in Sorted(RecipeRowsOf(rec), MoreWinsFirst) <==>
      r.recipe in rec.keys && r == RecipeRowOf(r.recipe, rec.Get(r.recipe, NO_BALLOTS))
  {
    var rows := RecipeRowsOf(rec);
    SortedPermutes(rows, MoreWinsFirst);
    SameElements(Sorted(rows, MoreWinsFirst), rows, r);
    if r in rows {
      var i :| 0 <= i < |rows| && rows[i] == r;
    }
    if r.recipe in rec.keys {
      var i :| 0 <= i < |rec.keys| && rec.keys[i] == r.recipe;
      assert rows[i] == RecipeRowOf(r.recipe, rec.Get(r.recipe, NO_BALLOTS));
    }
  }

  /** The recipe's line in the language: files that scored it, files it won, the rounded mean of its averages. */
  ghost predicate SaysExactly(runs: seq<Run>, language: string, r: RecipeRow) {
    var t := FiguresOf(runs, KeysIn(runs, language), r.recipe);
    t.files > 0 && r.files == t.files && r.wins == t.wins && IsRounded(t.sum / t.files as real, r.mean)
  }

  /**
   * A language's row: its files and sweeps, and for exactly the recipes its files scored their files,
   * wins and mean.
   */
  lemma ReportRowExactly(runs: seq<Run>, row: LanguageRow, r: RecipeRow)
    requires row in LanguageRows(runs)
    ensures row.files == |KeysIn(runs, row.language)| && row.sweeps == RunsIn(runs, row.language)
    ensures r in row.recipes <==> SaysExactly(runs, row.language, r)
    ensures r in row.recipes ==> r.wins <= r.files <= row.files
  {
    RowIsOfBucket(runs, row);
    BucketSweepsAreRuns(runs, row.language);
    BucketListsExactly(runs, row.language, r.recipe);
    FiguresAreScored(runs, KeysIn(runs, row.language), r.recipe);
    var t := FiguresOf(runs, KeysIn(runs, row.language), r.recipe);
    RecipeRowIsOfTally(Buckets(runs).Get(row.language, NO_FILES).rec, r);
    if t.files > 0 {
      Round2Exactly(t.sum / t.files as real);
      if IsRounded(t.sum / t.files as real, r.mean) {
        RoundedOnce(t.sum / t.files as real, r.mean, Round2(t.sum / t.files as real));
      }
    }
  }

  lemma OrdersAreTotal()
    ensures TotalPreorder(MoreWinsFirst) && TotalPreorder(MoreFilesFirst) && TotalPreorder(MoreDetailFirst)
  {
  }

  /** The recipes come by wins and then by mean, each once. */
  ghost predicate ByWinsThenMean(recipes: seq<RecipeRow>) {
    forall i, j :: 0 <= i < j < |recipes| ==>
      && recipes[i].recipe != recipes[j].recipe
      && (recipes[i].wins > recipes[j].wins || (recipes[i].wins == recipes[j].wins && recipes[i].mean >= recipes[j].mean))
  }

  lemma SortedRecipes(rec: Dict<string, Tally>)
    requires Distinct(rec.keys)
    ensures ByWinsThenMean(Sorted(RecipeRowsOf(rec), MoreWinsFirst))
  {
    var s := Sorted(RecipeRowsOf(rec), MoreWinsFirst);
    OrdersAreTotal();
    SortedInOrder(RecipeRowsOf(rec), MoreWinsFirst);
    SortedNamesDistinct(rec);
    forall i, j | 0 <= i < j < |s|
      ensures s[i].wins > s[j].wins || (s[i].wins == s[j].wins && s[i].mean >= s[j].mean)
    {
      assert MoreWinsFirst(s[i], s[j]);
    }
  }

  /** Within a language the recipes come by wins and then by mean; equal ones as they were first met. */
  lemma RecipesInOrder(runs: seq<Run>, row: LanguageRow, x: RecipeRow)
    requires row in LanguageRows(runs)
    ensures ByWinsThenMean(row.recipes)
    ensures Ties(row.recipes, x, MoreWinsFirst)
         == Ties(RecipeRowsOf(Buckets(runs).Get(row.language, NO_FILES).rec), x, MoreWinsFirst)
  {
    RowIsOfBucket(runs, row);
    BucketListsExactly(runs, row.language, "");
    SortedRecipes(Buckets(runs).Get(row.language, NO_FILES).rec);
    OrdersAreTotal();
    SortedKeepsTies(RecipeRowsOf(Buckets(runs).Get(row.language, NO_FILES).rec), x, MoreWinsFirst);
  }

  /** Sorting keeps distinct elements distinct. */
  lemma DistinctSorted<T(!new)>(s: seq<T>, le: (T, T) -> bool)
    requires Distinct(s)
    ensures Distinct(Sorted(s, le))
  {
    var t := Sorted(s, le);
    SortedPermutes(s, le);
    forall x ensures multiset(s)[x] <= 1 {
      OnceInDistinct(s, x);
    }
    forall i, j | 0 <= i < j < |t| ensures t[i] != t[j] {
      if t[i] == t[j] {
        TwiceCounted(t, i, j);
      }
    }
  }

  lemma {:induction false} OnceInDistinct<T(!new)>(s: seq<T>, x: T)
    requires Distinct(s)
    ensures multiset(s)[x] <= 1
  {
    if |s| > 0 {
      var front := s[..|s| - 1];
      assert s == front + [s[|s| - 1]];
      OnceInDistinct(front, x);
      assert s[|s| - 1] == x ==> x !in front;
    }
  }

  lemma TwiceCounted<T>(t: seq<T>, i: nat, j: nat)
    requires i < j < |t| && t[i] == t[j]
    ensures multiset(t)[t[i]] >= 2
  {
    assert t == t[..j] + [t[j]] + t[j + 1..];
    assert t[..j][i] == t[i];
    assert t[i] in multiset(t[..j]);
  }

  lemma SortedNamesDistinct(rec: Dict<string, Tally>)
    requires Distinct(rec.keys)
    ensures var s := Sorted(RecipeRowsOf(rec), MoreWinsFirst);
      forall i, j :: 0 <= i < j < |s| ==> s[i].recipe != s[j].recipe
  {
    var rows := RecipeRowsOf(rec);
    assert forall i :: 0 <= i < |rows| ==> rows[i].recipe == rec.keys[i];
    DistinctSorted(rows, MoreWinsFirst);
    var s := Sorted(rows, MoreWinsFirst);
    forall i | 0 <= i < |s| ensures s[i] == RecipeRowOf(s[i].recipe, rec.Get(s[i].recipe, NO_BALLOTS)) {
      assert s[i] in s;
      RecipeRowIsOfTally(rec, s[i]);
    }
  }

  lemma LanguagesListed(runs: seq<Run>, language: string)
    ensures language in Buckets(runs).keys <==> KeysIn(runs, language) != []
    ensures Distinct(Buckets(runs).keys)
  {
    var xs := ByLanguage(Files(runs), |Files(runs).keys|);
    GroupKeys(xs, NO_FILES, AddFile);
    GroupAt(xs, NO_FILES, AddFile, language);
    FirstSeenIsDistinct(Keys(xs));
    FilesOfLanguage(runs, language);
  }

  /** The report has one row for each language with a swept file, by files and then by sweeps; equal ones as they were first met. */
  lemma LanguagesInOrder(runs: seq<Run>)
    ensures forall i, j :: 0 <= i < j < |LanguageRows(runs)| ==>
      var a, b := LanguageRows(runs)[i], LanguageRows(runs)[j];
      a.language != b.language && (a.files > b.files || (a.files == b.files && a.sweeps >= b.sweeps))
    ensures forall language :: KeysIn(runs, language) != [] <==> exists row :: row in LanguageRows(runs) && row.language == language
    ensures forall x :: Ties(LanguageRows(runs), x, MoreFilesFirst) == Ties(RowsOf(Buckets(runs)), x, MoreFilesFirst)
  {
    var d, rows := Buckets(runs), RowsOf(Buckets(runs));
    OrdersAreTotal();
    SortedInOrder(rows, MoreFilesFirst);
    SortedPermutes(rows, MoreFilesFirst);
    LanguagesListed(runs, "");
    assert forall i :: 0 <= i < |rows| ==> rows[i].language == d.keys[i];
    DistinctSorted(rows, MoreFilesFirst);
    var s := LanguageRows(runs);
    forall i, j | 0 <= i < j < |s|
      ensures s[i].language != s[j].language && (s[i].files > s[j].files || (s[i].files == s[j].files && s[i].sweeps >= s[j].sweeps))
    {
      assert s[i] in s && s[j] in s && MoreFilesFirst(s[i], s[j]);
      RowIsOfBucket(runs, s[i]);
      RowIsOfBucket(runs, s[j]);
    }
    forall language
      ensures KeysIn(runs, language) != [] <==> exists row :: row in s && row.language == language
    {
      LanguagesListed(runs, language);
      if language in d.keys {
        var i :| 0 <= i < |d.keys| && d.keys[i] == language;
        assert rows[i] in rows;
        SameElements(s, rows, rows[i]);
      }
      if row :| row in s && row.language == language {
        RowIsOfBucket(runs, row);
      }
    }
    forall x ensures Ties(s, x, MoreFilesFirst) == Ties(rows, x, MoreFilesFirst) {
      SortedKeepsTies(rows, x, MoreFilesFirst);
    }
  }

  // ---------- the leaderboard ----------

  function LinesIn(language: string, recipes: seq<RecipeRow>, recipe: string): seq<Detail> {
    if |recipes| == 0 then []
    else
      var r := recipes[|recipes| - 1];
      LinesIn(language, recipes[..|recipes| - 1], recipe)
        + (if r.recipe == recipe then [Detail(language, r.files, r.wins, r.mean)] else [])
  }

  /** The lines of the report about a recipe, those of the undetermined language left out. */
  function LinesOf(rows: seq<LanguageRow>, recipe: string): seq<Detail> {
    if |rows| == 0 then []
    else
      var row := rows[|rows| - 1];
      LinesOf(rows[..|rows| - 1], recipe) + (if row.language == "und" then [] else LinesIn(row.language, row.recipes, recipe))
  }

  lemma {:induction false} LinesInExactly(language: string, recipes: seq<RecipeRow>, n: nat, recipe: string)
    requires n <= |recipes| && language != "und"
    ensures Values(DetailsIn(LanguageRow(language, 0, 0, recipes))[..n], recipe) == LinesIn(language, recipes[..n], recipe)
  {
    var ds := DetailsIn(LanguageRow(language, 0, 0, recipes));
    if n > 0 {
      LinesInExactly(language, recipes, n - 1, recipe);
      assert ds[..n][..n - 1] == ds[..n - 1] && recipes[..n][..n - 1] == recipes[..n - 1];
    } else {
      assert |ds[..n]| == 0 && |recipes[..n]| == 0;
    }
  }

  lemma {:induction false} LinesOfExactly(rows: seq<LanguageRow>, recipe: string)
    ensures Values(Details(rows), recipe) == LinesOf(rows, recipe)
  {
    if |rows| == 0 {
      assert |Details(rows)| == 0;
    } else {
      var front, row := rows[..|rows| - 1], rows[|rows| - 1];
      LinesOfExactly(front, recipe);
      ValuesAppend(Details(front), DetailsIn(row), recipe);
      if row.language != "und" {
        LinesInExactly(row.language, row.recipes, |row.recipes|, recipe);
        assert DetailsIn(row) == DetailsIn(LanguageRow(row.language, 0, 0, row.recipes))[..|row.recipes|];
        assert row.recipes[..|row.recipes|] == row.recipes;
      } else {
        assert |DetailsIn(row)| == 0;
      }
    }
  }

  /** The lines by files, equal ones in the report's order. */
  ghost predicate ListsByFiles(listed: seq<Detail>, lines: seq<Detail>) {
    && multiset(listed) == multiset(lines)
    && (forall i, j :: 0 <= i < j < |listed| ==> listed[i].files >= listed[j].files)
    && forall x :: Ties(listed, x, MoreDetailFirst) == Ties(lines, x, MoreDetailFirst)
  }

  lemma SortedByFiles(lines: seq<Detail>)
    ensures ListsByFiles(Sorted(lines, MoreDetailFirst), lines)
  {
    var listed := Sorted(lines, MoreDetailFirst);
    OrdersAreTotal();
    SortedPermutes(lines, MoreDetailFirst);
    SortedInOrder(lines, MoreDetailFirst);
    forall i, j | 0 <= i < j < |listed| ensures listed[i].files >= listed[j].files {
      assert MoreDetailFirst(listed[i], listed[j]);
    }
    forall x ensures Ties(listed, x, MoreDetailFirst) == Ties(lines, x, MoreDetailFirst) {
      SortedKeepsTies(lines, x, MoreDetailFirst);
    }
  }

  /** The board's line of a recipe, from the recipe's lines in the report. */
  ghost predicate AddsUp(row: BoardRow, lines: seq<Detail>, minLanguages: int) {
    && lines != [] && row.languages == |lines|
    && row.files == SumBy(lines, DetailFiles) && row.wins == SumBy(lines, DetailWins)
    && IsRounded(MeanSum(lines) / |lines| as real, row.globalMean)
    && (row.eligible <==> |lines| >= minLanguages)
    && (row.confidence.High? <==> |lines| >= 3 && row.files >= 10)
    && (row.confidence.Low? <==> |lines| < 2 && row.files < 5)
    && ListsByFiles(row.perLanguage, lines)
  }

  lemma LineAddsUp(runs: seq<Run>, minLanguages: int, recipe: string)
    requires LinesOf(LanguageRows(runs), recipe) != []
    ensures AddsUp(LineOf(runs, minLanguages, recipe), LinesOf(LanguageRows(runs), recipe), minLanguages)
  {
    var lines := LinesOf(LanguageRows(runs), recipe);
    LinesOfExactly(LanguageRows(runs), recipe);
    EntryAt(runs, recipe);
    EntryAddsUp(recipe, lines, minLanguages);
  }

  lemma EntryAddsUp(recipe: string, lines: seq<Detail>, minLanguages: int)
    requires lines != []
    ensures AddsUp(BoardRowOf(recipe, EntryOf(lines), minLanguages), lines, minLanguages)
  {
    var row := BoardRowOf(recipe, EntryOf(lines), minLanguages);
    EntryDetails(lines);
    EntryMeans(lines);
    assert IsRounded(MeanSum(lines) / |lines| as real, row.globalMean) by {
      Round2Exactly(MeanSum(lines) / |lines| as real);
    }
    assert ListsByFiles(row.perLanguage, lines) by {
      SortedByFiles(lines);
    }
  }

  lemma BoardHasRow(runs: seq<Run>, minLanguages: int, row: BoardRow)
    ensures row in Unranked(runs, minLanguages) <==>
      LinesOf(LanguageRows(runs), row.recipe) != [] && row == LineOf(runs, minLanguages, row.recipe)
  {
    var entries := Entries(LanguageRows(runs));
    var rows := BoardRowsOf(entries, minLanguages);
    SortedPermutes(rows, BetterFirst);
    SameElements(Unranked(runs, minLanguages), rows, row);
    EntryAt(runs, row.recipe);
    LinesOfExactly(LanguageRows(runs), row.recipe);
    if row in rows {
      var i :| 0 <= i < |rows| && rows[i] == row;
      assert entries.keys[i] == row.recipe;
    }
    if row.recipe in entries.keys {
      var i :| 0 <= i < |entries.keys| && entries.keys[i] == row.recipe;
      assert rows[i] == LineOf(runs, minLanguages, row.recipe);
    }
  }

  /**
   * The board has one row for each recipe the report lists outside the undetermined language, and the
   * row's figures are the totals of those lines.
   */
  lemma BoardRowExactly(runs: seq<Run>, minLanguages: int, i: nat)
    requires i < |Leaderboard(runs, minLanguages)|
    ensures var row := Leaderboard(runs, minLanguages)[i];
      AddsUp(row, LinesOf(LanguageRows(runs), row.recipe), minLanguages)
  {
    var rows := Unranked(runs, minLanguages);
    NumberedAt(rows, i);
    assert rows[i] in rows;
    BoardHasRow(runs, minLanguages, rows[i]);
    LineAddsUp(runs, minLanguages, rows[i].recipe);
  }

  lemma UnrankedNamesDistinct(runs: seq<Run>, minLanguages: int)
    ensures var rows := Unranked(runs, minLanguages);
      forall i, j :: 0 <= i < j < |rows| ==> rows[i].recipe != rows[j].recipe
  {
    var entries := Entries(LanguageRows(runs));
    var rows := BoardRowsOf(entries, minLanguages);
    EntryAt(runs, "");
    assert forall i :: 0 <= i < |rows| ==> rows[i].recipe == entries.keys[i];
    DistinctSorted(rows, BetterFirst);
    var s := Unranked(runs, minLanguages);
    forall i | 0 <= i < |s| ensures s[i] == LineOf(runs, minLanguages, s[i].recipe) {
      assert s[i] in s;
      BoardHasRow(runs, minLanguages, s[i]);
    }
  }

  lemma BoardListsOnce(runs: seq<Run>, minLanguages: int, recipe: string)
    ensures LinesOf(LanguageRows(runs), recipe) != [] <==>
      exists i :: 0 <= i < |Leaderboard(runs, minLanguages)| && Leaderboard(runs, minLanguages)[i].recipe == recipe
    ensures forall i, j :: 0 <= i < j < |Leaderboard(runs, minLanguages)| ==>
      Leaderboard(runs, minLanguages)[i].recipe != Leaderboard(runs, minLanguages)[j].recipe
  {
    var rows, board := Unranked(runs, minLanguages), Leaderboard(runs, minLanguages);
    LengthOfNumbered(rows);
    forall i | 0 <= i < |rows| ensures board[i].recipe == rows[i].recipe {
      NumberedAt(rows, i);
    }
    UnrankedNamesDistinct(runs, minLanguages);
    BoardHasRow(runs, minLanguages, LineOf(runs, minLanguages, recipe));
    if LinesOf(LanguageRows(runs), recipe) != [] {
      var i :| 0 <= i < |rows| && rows[i] == LineOf(runs, minLanguages, recipe);
      assert board[i].recipe == recipe;
    }
    if i :| 0 <= i < |board| && board[i].recipe == recipe {
      assert rows[i] in rows;
      BoardHasRow(runs, minLanguages, rows[i]);
    }
  }
}
