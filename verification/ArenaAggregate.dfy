/**
 * Rolling arena sweeps up: sweeps into files, files into language buckets, buckets into the
 * global recipe leaderboard.  Scores are reals; rounding them to two decimals is kept.
 */
module ArenaAggregate {
  import opened Common
  import opened Dicts
  import opened Sorting

  datatype Row = Row(recipe: string, mean: real)

  datatype SweepResult = SweepResult(winner: string, tie: bool, aggregate: seq<Row>)

  /** A run; language is the normalised code, empty when there is none. */
  datatype Run = Run(language: string, path: Option<string>, result: Option<SweepResult>)

  datatype FileKey = FileKey(language: string, path: Option<string>)

  function KeyOf(r: Run): FileKey {
    FileKey(if r.language == "" then "und" else r.language, r.path)
  }

  /** `round(x, 2)`: to the nearest hundredth, halves to the even one. */
  function Round2(x: real): real {
    var floor := (x * 100.0).Floor;
    var rest := x * 100.0 - floor as real;
    (if rest < 0.5 || (rest == 0.5 && floor % 2 == 0) then floor else floor + 1) as real / 100.0
  }

  // ---------- 1. sweeps into files ----------

  datatype Rec = Rec(sum: real, n: nat)

  datatype FileAcc = FileAcc(sweeps: nat, rec: Dict<string, Rec>, votes: Dict<string, nat>)

  const NO_SCORES := Rec(0.0, 0)
  const NO_SWEEPS := FileAcc(0, Dict([], map[]), Dict([], map[]))

  function AddMean(r: Rec, mean: real): Rec {
    Rec(r.sum + mean, r.n + 1)
  }

  function AddVotes(n: nat, votes: nat): nat {
    n + votes
  }

  /** The rows that name a recipe. */
  function Labelled(rows: seq<Row>): seq<(string, real)> {
    if |rows| == 0 then []
    else
      var row := rows[|rows| - 1];
      Labelled(rows[..|rows| - 1]) + (if row.recipe != "" then [(row.recipe, row.mean)] else [])
  }

  /** A sweep votes for its winner, unless it was a tie. */
  function WinVotes(result: SweepResult): seq<(string, nat)> {
    if !result.tie && result.winner != "" then [(result.winner, 1)] else []
  }

  function AddSweep(f: FileAcc, result: SweepResult): FileAcc {
    FileAcc(f.sweeps + 1,
            GroupFrom(f.rec, Labelled(result.aggregate), NO_SCORES, AddMean),
            GroupFrom(f.votes, WinVotes(result), 0, AddVotes))
  }

  /** The runs that have a result, filed under their file. */
  function Swept(runs: seq<Run>): seq<(FileKey, SweepResult)> {
    if |runs| == 0 then []
    else
      var r := runs[|runs| - 1];
      Swept(runs[..|runs| - 1]) + (if r.result.Some? then [(KeyOf(r), r.result.value)] else [])
  }

  function Files(runs: seq<Run>): Dict<FileKey, FileAcc> {
    Group(Swept(runs), NO_SWEEPS, AddSweep)
  }

  method AddRows(before: Dict<string, Rec>, rows: seq<Row>) returns (rec: Dict<string, Rec>)
    ensures rec == GroupFrom(before, Labelled(rows), NO_SCORES, AddMean)
  {
    rec := before;
    for i := 0 to |rows|
      invariant rec == GroupFrom(before, Labelled(rows[..i]), NO_SCORES, AddMean)
    {
      var row := rows[i];
      assert rows[..i + 1][..i] == rows[..i];
      GroupFromSnoc(before, Labelled(rows[..i]), row.recipe, row.mean, NO_SCORES, AddMean);
      if row.recipe == "" {
        assert Labelled(rows[..i + 1]) == Labelled(rows[..i]);
        continue;
      }
      var r := rec.Get(row.recipe, NO_SCORES);
      rec := rec.Put(row.recipe, Rec(r.sum + row.mean, r.n + 1));
    }
    assert rows[..|rows|] == rows;
  }

  method TakeSweep(before: FileAcc, result: SweepResult) returns (f: FileAcc)
    ensures f == AddSweep(before, result)
  {
    var votes := before.votes;
    var winner := if !result.tie then result.winner else "";
    if winner != "" {
      votes := votes.Put(winner, votes.Get(winner, 0) + 1);
      GroupFromSnoc<string, nat, nat>(before.votes, [], winner, 1, 0, AddVotes);
      assert WinVotes(result) == [] + [(winner, 1)];
    }
    var rec := AddRows(before.rec, result.aggregate);
    f := FileAcc(before.sweeps + 1, rec, votes);
  }

  method CollectFiles(runs: seq<Run>) returns (files: Dict<FileKey, FileAcc>)
    ensures files == Files(runs)
  {
    files := Dict([], map[]);
    for i := 0 to |runs|
      invariant files == Files(runs[..i])
    {
      var r := runs[i];
      assert runs[..i + 1][..i] == runs[..i];
      if r.result.None? {
        assert Swept(runs[..i + 1]) == Swept(runs[..i]);
        continue;
      }
      var key := FileKey(if r.language == "" then "und" else r.language, r.path);
      var f := TakeSweep(files.Get(key, NO_SWEEPS), r.result.value);
      GroupFromSnoc(Empty(), Swept(runs[..i]), key, r.result.value, NO_SWEEPS, AddSweep);
      assert Swept(runs[..i + 1]) == Swept(runs[..i]) + [(key, r.result.value)];
      files := files.Put(key, f);
    }
    assert runs[..|runs|] == runs;
  }

  // ---------- 2. files into buckets ----------

  /** The index of the first largest value, as `max` finds it. */
  function FirstMax(xs: seq<real>): (k: nat)
    requires |xs| > 0
    ensures k < |xs|
    ensures forall i :: 0 <= i < |xs| ==> xs[i] <= xs[k]
    ensures forall i :: 0 <= i < k ==> xs[i] < xs[k]
  {
    if |xs| == 1 then 0
    else
      var k := FirstMax(xs[..|xs| - 1]);
      if xs[k] < xs[|xs| - 1] then |xs| - 1 else k
  }

  function RecMean(r: Rec): real {
    if r.n > 0 then r.sum / r.n as real else 0.0
  }

  function MeanOf(rec: Dict<string, Rec>, recipe: string): real {
    RecMean(rec.Get(recipe, NO_SCORES))
  }

  function MeansOf(rec: Dict<string, Rec>): seq<real> {
    seq(|rec.keys|, i requires 0 <= i < |rec.keys| => MeanOf(rec, rec.keys[i]))
  }

  function VotesOf(votes: Dict<string, nat>): seq<real> {
    seq(|votes.keys|, i requires 0 <= i < |votes.keys| => votes.Get(votes.keys[i], 0) as real)
  }

  /** The file's winner: most sweeps won; if every sweep tied, the best mean. */
  function FileWinner(f: FileAcc): Option<string> {
    if |f.votes.keys| > 0 then Some(f.votes.keys[FirstMax(VotesOf(f.votes))])
    else if |f.rec.keys| > 0 then Some(f.rec.keys[FirstMax(MeansOf(f.rec))])
    else None
  }

  datatype Ballot = Ballot(mean: real, won: bool)

  /** What a file with that winner says about its first n recipes. */
  function FirstBallots(rec: Dict<string, Rec>, winner: Option<string>, n: nat): (xs: seq<(string, Ballot)>)
    requires n <= |rec.keys|
    ensures |xs| == n
    ensures forall i :: 0 <= i < n ==> xs[i] == (rec.keys[i], Ballot(MeanOf(rec, rec.keys[i]), Some(rec.keys[i]) == winner))
  {
    if n == 0 then []
    else
      var recipe := rec.keys[n - 1];
      FirstBallots(rec, winner, n - 1) + [(recipe, Ballot(MeanOf(rec, recipe), Some(recipe) == winner))]
  }

  /** What one file says about each of its recipes. */
  function Ballots(f: FileAcc): seq<(string, Ballot)> {
    FirstBallots(f.rec, FileWinner(f), |f.rec.keys|)
  }

  datatype Tally = Tally(files: nat, wins: nat, sum: real)

  datatype Bucket = Bucket(files: nat, sweeps: nat, rec: Dict<string, Tally>)

  const NO_BALLOTS := Tally(0, 0, 0.0)
  const NO_FILES := Bucket(0, 0, Dict([], map[]))

  function AddBallot(t: Tally, b: Ballot): Tally {
    Tally(t.files + 1, t.wins + (if b.won then 1 else 0), t.sum + b.mean)
  }

  function AddFile(b: Bucket, f: FileAcc): Bucket {
    Bucket(b.files + 1, b.sweeps + f.sweeps, GroupFrom(b.rec, Ballots(f), NO_BALLOTS, AddBallot))
  }

  /** The first n files in order, filed under their language. */
  function ByLanguage(files: Dict<FileKey, FileAcc>, n: nat): seq<(string, FileAcc)>
    requires n <= |files.keys|
  {
    if n == 0 then []
    else ByLanguage(files, n - 1) + [(files.keys[n - 1].language, files.Get(files.keys[n - 1], NO_SWEEPS))]
  }

  function BucketsOf(files: Dict<FileKey, FileAcc>): Dict<string, Bucket> {
    Group(ByLanguage(files, |files.keys|), NO_FILES, AddFile)
  }

  function Buckets(runs: seq<Run>): Dict<string, Bucket> {
    BucketsOf(Files(runs))
  }

  method CastBallots(before: Dict<string, Tally>, f: FileAcc) returns (tallies: Dict<string, Tally>)
    ensures tallies == GroupFrom(before, Ballots(f), NO_BALLOTS, AddBallot)
  {
    var winner := FileWinner(f);
    tallies := before;
    for i := 0 to |f.rec.keys|
      invariant tallies == GroupFrom(before, FirstBallots(f.rec, winner, i), NO_BALLOTS, AddBallot)
    {
      var recipe := f.rec.keys[i];
      var b := Ballot(MeanOf(f.rec, recipe), Some(recipe) == winner);
      GroupFromSnoc(before, FirstBallots(f.rec, winner, i), recipe, b, NO_BALLOTS, AddBallot);
      tallies := tallies.Put(recipe, AddBallot(tallies.Get(recipe, NO_BALLOTS), b));
    }
  }

  method TakeFile(before: Bucket, f: FileAcc) returns (b: Bucket)
    ensures b == AddFile(before, f)
  {
    var rec := CastBallots(before.rec, f);
    b := Bucket(before.files + 1, before.sweeps + f.sweeps, rec);
  }

  method CollectBuckets(files: Dict<FileKey, FileAcc>) returns (buckets: Dict<string, Bucket>)
    ensures buckets == BucketsOf(files)
  {
    buckets := Dict([], map[]);
    for i := 0 to |files.keys|
      invariant buckets == Group(ByLanguage(files, i), NO_FILES, AddFile)
    {
      var language, f := files.keys[i].language, files.Get(files.keys[i], NO_SWEEPS);
      var b := TakeFile(buckets.Get(language, NO_FILES), f);
      GroupFromSnoc(Empty(), ByLanguage(files, i), language, f, NO_FILES, AddFile);
      buckets := buckets.Put(language, b);
    }
  }

  // ---------- 3. the report by language ----------

  datatype RecipeRow = RecipeRow(recipe: string, files: nat, wins: nat, mean: real)

  datatype LanguageRow = LanguageRow(language: string, files: nat, sweeps: nat, recipes: seq<RecipeRow>)

  function RecipeRowOf(recipe: string, t: Tally): RecipeRow {
    RecipeRow(recipe, t.files, t.wins, if t.files > 0 then Round2(t.sum / t.files as real) else 0.0)
  }

  function RecipeRowsOf(rec: Dict<string, Tally>): seq<RecipeRow> {
    seq(|rec.keys|, i requires 0 <= i < |rec.keys| => RecipeRowOf(rec.keys[i], rec.Get(rec.keys[i], NO_BALLOTS)))
  }

  const MoreWinsFirst: (RecipeRow, RecipeRow) -> bool :=
    (a: RecipeRow, b: RecipeRow) => a.wins > b.wins || (a.wins == b.wins && a.mean >= b.mean)

  const MoreFilesFirst: (LanguageRow, LanguageRow) -> bool :=
    (a: LanguageRow, b: LanguageRow) => a.files > b.files || (a.files == b.files && a.sweeps >= b.sweeps)

  function LanguageRowOf(language: string, b: Bucket): LanguageRow {
    LanguageRow(language, b.files, b.sweeps, Sorted(RecipeRowsOf(b.rec), MoreWinsFirst))
  }

  function RowsOf(buckets: Dict<string, Bucket>): seq<LanguageRow> {
    seq(|buckets.keys|, i requires 0 <= i < |buckets.keys| =>
      LanguageRowOf(buckets.keys[i], buckets.Get(buckets.keys[i], NO_FILES)))
  }

  function LanguageRows(runs: seq<Run>): seq<LanguageRow> {
    Sorted(RowsOf(Buckets(runs)), MoreFilesFirst)
  }

  method ListRecipes(rec: Dict<string, Tally>) returns (recipes: seq<RecipeRow>)
    ensures recipes == RecipeRowsOf(rec)
  {
    recipes := [];
    for i := 0 to |rec.keys|
      invariant recipes == RecipeRowsOf(rec)[..i]
    {
      var t := rec.Get(rec.keys[i], NO_BALLOTS);
      var mean := if t.files > 0 then Round2(t.sum / t.files as real) else 0.0;
      recipes := recipes + [RecipeRow(rec.keys[i], t.files, t.wins, mean)];
    }
    assert RecipeRowsOf(rec)[..|rec.keys|] == RecipeRowsOf(rec);
  }

  method ListLanguages(buckets: Dict<string, Bucket>) returns (out: seq<LanguageRow>)
    ensures out == RowsOf(buckets)
  {
    out := [];
    ghost var rows := RowsOf(buckets);
    for i := 0 to |buckets.keys|
      invariant out == rows[..i]
    {
      var b := buckets.Get(buckets.keys[i], NO_FILES);
      var recipes := ListRecipes(b.rec);
      out := out + [LanguageRow(buckets.keys[i], b.files, b.sweeps, Sorted(recipes, MoreWinsFirst))];
    }
  }

  method AggregateRunsByLanguage(runs: seq<Run>) returns (out: seq<LanguageRow>)
    ensures out == LanguageRows(runs)
  {
    var files := CollectFiles(runs);
    var buckets := CollectBuckets(files);
    out := ListLanguages(buckets);
    out := Sorted(out, MoreFilesFirst);
  }

  // ---------- 4. the leaderboard ----------

  datatype Detail = Detail(language: string, files: nat, wins: nat, mean: real)

  datatype Entry = Entry(means: seq<real>, detail: seq<Detail>, wins: nat, files: nat)

  const NO_ENTRY := Entry([], [], 0, 0)

  function AddDetail(e: Entry, d: Detail): Entry {
    Entry(e.means + [d.mean], e.detail + [d], e.wins + d.wins, e.files + d.files)
  }

  function DetailsIn(row: LanguageRow): seq<(string, Detail)> {
    if row.language == "und" then []
    else
      seq(|row.recipes|, i requires 0 <= i < |row.recipes| =>
        (row.recipes[i].recipe, Detail(row.language, row.recipes[i].files, row.recipes[i].wins, row.recipes[i].mean)))
  }

  /** Every recipe of every real language, filed under its name. */
  function Details(rows: seq<LanguageRow>): seq<(string, Detail)> {
    if |rows| == 0 then [] else Details(rows[..|rows| - 1]) + DetailsIn(rows[|rows| - 1])
  }

  function Entries(rows: seq<LanguageRow>): Dict<string, Entry> {
    Group(Details(rows), NO_ENTRY, AddDetail)
  }

  datatype Confidence = High | Moderate | Low

  datatype BoardRow = BoardRow(
    recipe: string, globalMean: real, languages: nat, files: nat, wins: nat,
    eligible: bool, confidence: Confidence, perLanguage: seq<Detail>, rank: Option<nat>)

  function SumOf(xs: seq<real>): real {
    if |xs| == 0 then 0.0 else SumOf(xs[..|xs| - 1]) + xs[|xs| - 1]
  }

  function ConfidenceOf(languages: nat, files: nat): Confidence {
    if languages >= 3 && files >= 10 then High
    else if languages >= 2 || files >= 5 then Moderate
    else Low
  }

  const MoreDetailFirst: (Detail, Detail) -> bool := (a: Detail, b: Detail) => a.files >= b.files

  function BoardRowOf(recipe: string, e: Entry, minLanguages: int): BoardRow {
    BoardRow(recipe,
             if |e.means| > 0 then Round2(SumOf(e.means) / |e.means| as real) else 0.0,
             |e.means|, e.files, e.wins,
             |e.means| >= minLanguages, ConfidenceOf(|e.means|, e.files),
             Sorted(e.detail, MoreDetailFirst), None)
  }

  const BetterFirst: (BoardRow, BoardRow) -> bool :=
    (a: BoardRow, b: BoardRow) =>
      if a.eligible != b.eligible then a.eligible
      else if a.globalMean != b.globalMean then a.globalMean > b.globalMean
      else a.wins >= b.wins

  function BoardRowsOf(entries: Dict<string, Entry>, minLanguages: int): seq<BoardRow> {
    seq(|entries.keys|, i requires 0 <= i < |entries.keys| =>
      BoardRowOf(entries.keys[i], entries.Get(entries.keys[i], NO_ENTRY), minLanguages))
  }

  function Eligibles(rows: seq<BoardRow>): nat {
    if |rows| == 0 then 0 else Eligibles(rows[..|rows| - 1]) + (if rows[|rows| - 1].eligible then 1 else 0)
  }

  /** Eligible rows numbered from 1 as they come. */
  function Numbered(rows: seq<BoardRow>): seq<BoardRow> {
    if |rows| == 0 then []
    else
      var row := rows[|rows| - 1];
      Numbered(rows[..|rows| - 1]) + [row.(rank := if row.eligible then Some(Eligibles(rows)) else None)]
  }

  function Unranked(runs: seq<Run>, minLanguages: int): seq<BoardRow> {
    Sorted(BoardRowsOf(Entries(LanguageRows(runs)), minLanguages), BetterFirst)
  }

  function Leaderboard(runs: seq<Run>, minLanguages: int): seq<BoardRow> {
    Numbered(Unranked(runs, minLanguages))
  }

  method TakeRow(before: Dict<string, Entry>, row: LanguageRow) returns (entries: Dict<string, Entry>)
    requires row.language != "und"
    ensures entries == GroupFrom(before, DetailsIn(row), NO_ENTRY, AddDetail)
  {
    entries := before;
    ghost var details := DetailsIn(row);
    for i := 0 to |row.recipes|
      invariant entries == GroupFrom(before, details[..i], NO_ENTRY, AddDetail)
    {
      var r := row.recipes[i];
      var e := entries.Get(r.recipe, NO_ENTRY);
      var d := Detail(row.language, r.files, r.wins, r.mean);
      GroupFromSnoc(before, details[..i], r.recipe, d, NO_ENTRY, AddDetail);
      assert details[..i + 1] == details[..i] + [(r.recipe, d)];
      entries := entries.Put(r.recipe, Entry(e.means + [r.mean], e.detail + [d], e.wins + r.wins, e.files + r.files));
    }
    assert details[..|row.recipes|] == details;
  }

  method CollectEntries(rows: seq<LanguageRow>) returns (entries: Dict<string, Entry>)
    ensures entries == Entries(rows)
  {
    entries := Dict([], map[]);
    for i := 0 to |rows|
      invariant entries == Entries(rows[..i])
    {
      var row := rows[i];
      assert rows[..i + 1][..i] == rows[..i];
      if row.language == "und" {
        assert Details(rows[..i + 1]) == Details(rows[..i]);
        continue;
      }
      entries := TakeRow(entries, row);
      GroupFromAppend(Empty(), Details(rows[..i]), DetailsIn(row), NO_ENTRY, AddDetail);
    }
    assert rows[..|rows|] == rows;
  }

  method NumberRows(unranked: seq<BoardRow>) returns (board: seq<BoardRow>)
    ensures board == Numbered(unranked)
  {
    board := [];
    var rank := 0;
    for i := 0 to |unranked|
      invariant rank == Eligibles(unranked[..i])
      invariant board == Numbered(unranked[..i])
    {
      var row := unranked[i];
      assert unranked[..i + 1][..i] == unranked[..i];
      if row.eligible {
        rank := rank + 1;
        board := board + [row.(rank := Some(rank))];
      } else {
        board := board + [row.(rank := None)];
      }
    }
    assert unranked[..|unranked|] == unranked;
  }

  method ListEntries(entries: Dict<string, Entry>, minLanguages: int) returns (rows: seq<BoardRow>)
    ensures rows == BoardRowsOf(entries, minLanguages)
  {
    rows := [];
    ghost var all := BoardRowsOf(entries, minLanguages);
    for i := 0 to |entries.keys|
      invariant rows == all[..i]
    {
      var row := BoardRowOf(entries.keys[i], entries.Get(entries.keys[i], NO_ENTRY), minLanguages);
      assert all[..i + 1] == all[..i] + [row];
      rows := rows + [row];
    }
    assert all[..|entries.keys|] == all;
  }

  lemma NoRowsNoBoard(runs: seq<Run>, minLanguages: int)
    requires LanguageRows(runs) == []
    ensures Leaderboard(runs, minLanguages) == []
  {
    assert |Details(LanguageRows(runs))| == 0;
    assert |BoardRowsOf(Entries(LanguageRows(runs)), minLanguages)| == 0;
  }

  method AggregateGlobalLeaderboard(runs: seq<Run>, minLanguages: int) returns (board: seq<BoardRow>)
    ensures board == Leaderboard(runs, minLanguages)
  {
    var rows := AggregateRunsByLanguage(runs);
    if rows == [] {
      NoRowsNoBoard(runs, minLanguages);
      return [];
    }
    var entries := CollectEntries(rows);
    var unranked := ListEntries(entries, minLanguages);
    board := NumberRows(Sorted(unranked, BetterFirst));
  }
}
