/**
 * The leaderboard under repeated sweeps: every recipe keeps its figures, and the places stay
 * as they were.
 */
module ArenaPlaces {
  import opened Common
  import opened Dicts
  import opened Sorting
  import opened ArenaAggregate
  import opened ArenaStandings
  import opened ArenaBoard
  import opened ArenaConfirm

  // ---------- one recipe's entry ----------

  /** What the report says about a recipe, language by language. */
  function DetailsFor(runs: seq<Run>, recipe: string): seq<Detail> {
    Values(Details(LanguageRows(runs)), recipe)
  }

  function EntryOf(ds: seq<Detail>): Entry {
    Fold(ds, NO_ENTRY, AddDetail)
  }

  function DetailWins(d: Detail): int { d.wins }

  function DetailFiles(d: Detail): int { d.files }

  function MeanSum(ds: seq<Detail>): real {
    if ds == [] then 0.0 else ds[0].mean + MeanSum(ds[1..])
  }

  lemma {:induction false} MeanSumAppend(a: seq<Detail>, b: seq<Detail>)
    ensures MeanSum(a + b) == MeanSum(a) + MeanSum(b)
  {
    if a == [] {
      assert a + b == b;
    } else {
      MeanSumAppend(a[1..], b);
      assert (a + b)[1..] == a[1..] + b;
    }
  }

  lemma {:induction false} EntryDetails(ds: seq<Detail>)
    ensures EntryOf(ds).detail == ds && |EntryOf(ds).means| == |ds|
    ensures EntryOf(ds).wins == SumBy(ds, DetailWins) && EntryOf(ds).files == SumBy(ds, DetailFiles)
  {
    if |ds| > 0 {
      var front, d := ds[..|ds| - 1], ds[|ds| - 1];
      EntryDetails(front);
      assert ds == front + [d];
      SumBySnoc(front, d, DetailWins);
      SumBySnoc(front, d, DetailFiles);
    }
  }

  lemma {:induction false} EntryMeans(ds: seq<Detail>)
    ensures SumOf(EntryOf(ds).means) == MeanSum(ds)
  {
    if |ds| > 0 {
      var front, d := ds[..|ds| - 1], ds[|ds| - 1];
      EntryMeans(front);
      MeanSumAppend(front, [d]);
      assert ds == front + [d];
      SumOfAppend(EntryOf(front).means, [d.mean]);
      assert [d.mean][..0] == [];
    }
  }

  lemma EntryAt(runs: seq<Run>, recipe: string)
    ensures Entries(LanguageRows(runs)).Get(recipe, NO_ENTRY) == EntryOf(DetailsFor(runs, recipe))
    ensures recipe in Entries(LanguageRows(runs)).keys <==> |DetailsFor(runs, recipe)| > 0
    ensures Distinct(Entries(LanguageRows(runs)).keys)
  {
    var xs := Details(LanguageRows(runs));
    GroupAt(xs, NO_ENTRY, AddDetail, recipe);
    GroupKeys(xs, NO_ENTRY, AddDetail);
    FirstSeenIsDistinct(Keys(xs));
  }

  lemma MeanSumWithout(b: seq<Detail>, i: nat)
    requires i < |b|
    ensures MeanSum(b) == b[i].mean + MeanSum(b[..i] + b[i + 1..])
  {
    MeanSumAppend(b[..i], b[i + 1..]);
    MeanSumAppend(b[..i], b[i..]);
    assert b == b[..i] + b[i..] && b[i..][1..] == b[i + 1..];
  }

  lemma {:induction false} MeanSumPermutes(a: seq<Detail>, b: seq<Detail>)
    requires multiset(a) == multiset(b)
    ensures MeanSum(a) == MeanSum(b)
  {
    if a == [] {
      assert |multiset(b)| == 0;
    } else {
      SameElements(a, b, a[0]);
      var i :| 0 <= i < |b| && b[i] == a[0];
      Without(a, b, i);
      MeanSumPermutes(a[1..], b[..i] + b[i + 1..]);
      MeanSumWithout(b, i);
    }
  }

  /** Equal figures; the languages may be listed in another order. */
  ghost predicate SameStanding(a: BoardRow, b: BoardRow) {
    && a.(perLanguage := [], rank := None) == b.(perLanguage := [], rank := None)
    && multiset(a.perLanguage) == multiset(b.perLanguage)
  }

  lemma SameDetailsSameStanding(recipe: string, a: seq<Detail>, b: seq<Detail>, minLanguages: int)
    requires multiset(a) == multiset(b)
    ensures SameStanding(BoardRowOf(recipe, EntryOf(a), minLanguages), BoardRowOf(recipe, EntryOf(b), minLanguages))
  {
    EntryDetails(a);
    EntryDetails(b);
    EntryMeans(a);
    EntryMeans(b);
    MeanSumPermutes(a, b);
    SumByPermutes(a, b, DetailWins, DetailWins);
    SumByPermutes(a, b, DetailFiles, DetailFiles);
    assert |a| == |multiset(a)| == |multiset(b)| == |b|;
    SortedPermutes(a, MoreDetailFirst);
    SortedPermutes(b, MoreDetailFirst);
  }

  // ---------- the entries after repeated sweeps ----------

  /** How often a row lists d for the recipe. */
  function Listed(recipe: string, d: Detail): LanguageRow -> int {
    (row: LanguageRow) => multiset(Values(DetailsIn(row), recipe))[d]
  }

  lemma DetailsSnoc(rows: seq<LanguageRow>, row: LanguageRow, recipe: string)
    ensures Values(Details(rows + [row]), recipe) == Values(Details(rows), recipe) + Values(DetailsIn(row), recipe)
  {
    assert (rows + [row])[..|rows|] == rows;
    ValuesAppend(Details(rows), DetailsIn(row), recipe);
  }

  lemma NextListed(rows: seq<LanguageRow>, row: LanguageRow, recipe: string, d: Detail)
    ensures ListedCount(rows + [row], recipe, d) == ListedCount(rows, recipe, d) + Listed(recipe, d)(row)
    ensures SumBy(rows + [row], Listed(recipe, d)) == SumBy(rows, Listed(recipe, d)) + Listed(recipe, d)(row)
  {
    SumBySnoc(rows, row, Listed(recipe, d));
    DetailsSnoc(rows, row, recipe);
  }

  function ListedCount(rows: seq<LanguageRow>, recipe: string, d: Detail): nat {
    multiset(Values(Details(rows), recipe))[d]
  }

  lemma {:induction false} DetailsAreListed(rows: seq<LanguageRow>, recipe: string, d: Detail)
    ensures ListedCount(rows, recipe, d) == SumBy(rows, Listed(recipe, d))
  {
    if rows == [] {
      assert Details(rows) == [];
    } else {
      FrontLast(rows);
      var front, row := rows[..|rows| - 1], rows[|rows| - 1];
      DetailsAreListed(front, recipe, d);
      NextListed(front, row, recipe, d);
    }
  }

  lemma {:induction false} SumByPointwise<T>(a: seq<T>, b: seq<T>, f: T -> int)
    requires |a| == |b| && forall i :: 0 <= i < |a| ==> f(a[i]) == f(b[i])
    ensures SumBy(a, f) == SumBy(b, f)
  {
    if a != [] {
      SumByPointwise(a[1..], b[1..], f);
    }
  }

  lemma SweepsAreNotListed(row: LanguageRow, sweeps: nat)
    ensures DetailsIn(row.(sweeps := sweeps)) == DetailsIn(row)
  {
  }

  lemma CopiesKeepListings(runs: seq<Run>, key: FileKey, m: nat, recipe: string, d: Detail)
    ensures SumBy(LanguageRows(runs), Listed(recipe, d)) == SumBy(LanguageRows(WithCopies(runs, key, m)), Listed(recipe, d))
  {
    var rows, after := RowsOf(Buckets(runs)), RowsOf(Buckets(WithCopies(runs, key, m)));
    SortedKeepsSum(rows, MoreFilesFirst, Listed(recipe, d));
    SortedKeepsSum(after, MoreFilesFirst, Listed(recipe, d));
    CopiesKeepBuckets(runs, key, m);
    forall i | 0 <= i < |rows| ensures Listed(recipe, d)(rows[i]) == Listed(recipe, d)(after[i]) {
      CopiesKeepRows(runs, key, m, i);
      SweepsAreNotListed(rows[i], after[i].sweeps);
    }
    SumByPointwise(rows, after, Listed(recipe, d));
  }

  lemma CopiesKeepDetails(runs: seq<Run>, key: FileKey, m: nat, recipe: string)
    ensures multiset(DetailsFor(runs, recipe)) == multiset(DetailsFor(WithCopies(runs, key, m), recipe))
  {
    forall d ensures multiset(DetailsFor(runs, recipe))[d] == multiset(DetailsFor(WithCopies(runs, key, m), recipe))[d] {
      DetailsAreListed(LanguageRows(runs), recipe, d);
      DetailsAreListed(LanguageRows(WithCopies(runs, key, m)), recipe, d);
      CopiesKeepListings(runs, key, m, recipe, d);
    }
  }

  /** A recipe's line on the board, before ranking. */
  function LineOf(runs: seq<Run>, minLanguages: int, recipe: string): BoardRow {
    BoardRowOf(recipe, Entries(LanguageRows(runs)).Get(recipe, NO_ENTRY), minLanguages)
  }

  /** Sweeping one file again and again changes no recipe's global mean, languages, files, wins or confidence. */
  lemma RepeatSweepsKeepStandings(runs: seq<Run>, key: FileKey, m: nat, minLanguages: int, recipe: string)
    ensures SameStanding(LineOf(runs, minLanguages, recipe), LineOf(WithCopies(runs, key, m), minLanguages, recipe))
    ensures recipe in Entries(LanguageRows(runs)).keys <==> recipe in Entries(LanguageRows(WithCopies(runs, key, m))).keys
  {
    EntryAt(runs, recipe);
    EntryAt(WithCopies(runs, key, m), recipe);
    CopiesKeepDetails(runs, key, m, recipe);
    assert |multiset(DetailsFor(runs, recipe))| == |multiset(DetailsFor(WithCopies(runs, key, m), recipe))|;
    SameDetailsSameStanding(recipe, DetailsFor(runs, recipe), DetailsFor(WithCopies(runs, key, m), recipe), minLanguages);
  }

  // ---------- the places after repeated sweeps ----------

  datatype Place = Place(eligible: bool, mean: real, wins: nat)

  function PlaceOf(row: BoardRow): Place {
    Place(row.eligible, row.globalMean, row.wins)
  }

  function Places(rows: seq<BoardRow>): seq<Place> {
    seq(|rows|, i requires 0 <= i < |rows| => PlaceOf(rows[i]))
  }

  const BetterPlace: (Place, Place) -> bool :=
    (a: Place, b: Place) =>
      if a.eligible != b.eligible then a.eligible
      else if a.mean != b.mean then a.mean > b.mean
      else a.wins >= b.wins

  function At(p: Place): BoardRow -> int {
    (row: BoardRow) => if PlaceOf(row) == p then 1 else 0
  }

  lemma {:induction false} PlacesCounted(rows: seq<BoardRow>, p: Place)
    ensures multiset(Places(rows))[p] == SumBy(rows, At(p))
  {
    if rows != [] {
      PlacesCounted(rows[1..], p);
      assert Places(rows) == [PlaceOf(rows[0])] + Places(rows[1..]);
    }
  }

  function LineAt(runs: seq<Run>, minLanguages: int, p: Place): string -> int {
    (recipe: string) => if PlaceOf(LineOf(runs, minLanguages, recipe)) == p then 1 else 0
  }

  lemma {:induction false} SumByRecipes(runs: seq<Run>, minLanguages: int, p: Place, rows: seq<BoardRow>, recipes: seq<string>)
    requires |rows| == |recipes| && forall i :: 0 <= i < |rows| ==> rows[i] == LineOf(runs, minLanguages, recipes[i])
    ensures SumBy(rows, At(p)) == SumBy(recipes, LineAt(runs, minLanguages, p))
  {
    if rows != [] {
      SumByRecipes(runs, minLanguages, p, rows[1..], recipes[1..]);
    }
  }

  function RecipesOn(runs: seq<Run>): seq<string> {
    Entries(LanguageRows(runs)).keys
  }

  lemma PlaceCount(runs: seq<Run>, minLanguages: int, p: Place)
    ensures multiset(Places(Unranked(runs, minLanguages)))[p] == SumBy(RecipesOn(runs), LineAt(runs, minLanguages, p))
  {
    var rows := BoardRowsOf(Entries(LanguageRows(runs)), minLanguages);
    PlacesCounted(Unranked(runs, minLanguages), p);
    SortedKeepsSum(rows, BetterFirst, At(p));
    SumByRecipes(runs, minLanguages, p, rows, RecipesOn(runs));
  }

  lemma {:induction false} CountInDistinct(ks: seq<string>, k: string)
    requires Distinct(ks)
    ensures multiset(ks)[k] == if k in ks then 1 else 0
  {
    if ks != [] {
      CountInDistinct(ks[1..], k);
      assert ks == [ks[0]] + ks[1..];
    }
  }

  lemma CopiesKeepRecipes(runs: seq<Run>, key: FileKey, m: nat)
    ensures multiset(RecipesOn(runs)) == multiset(RecipesOn(WithCopies(runs, key, m)))
  {
    forall k: string ensures multiset(RecipesOn(runs))[k] == multiset(RecipesOn(WithCopies(runs, key, m)))[k] {
      EntryAt(runs, k);
      EntryAt(WithCopies(runs, key, m), k);
      CountInDistinct(RecipesOn(runs), k);
      CountInDistinct(RecipesOn(WithCopies(runs, key, m)), k);
      RepeatSweepsKeepStandings(runs, key, m, 0, k);
    }
  }

  lemma CopiesKeepLines(runs: seq<Run>, key: FileKey, m: nat, minLanguages: int, p: Place)
    ensures var after := WithCopies(runs, key, m);
      SumBy(RecipesOn(runs), LineAt(runs, minLanguages, p)) == SumBy(RecipesOn(after), LineAt(after, minLanguages, p))
  {
    var after := WithCopies(runs, key, m);
    CopiesKeepRecipes(runs, key, m);
    forall k | k in RecipesOn(runs) ensures LineAt(runs, minLanguages, p)(k) == LineAt(after, minLanguages, p)(k) {
      RepeatSweepsKeepStandings(runs, key, m, minLanguages, k);
    }
    SumByPermutes(RecipesOn(runs), RecipesOn(after), LineAt(runs, minLanguages, p), LineAt(after, minLanguages, p));
  }

  lemma CopiesKeepPlaceCounts(runs: seq<Run>, key: FileKey, m: nat, minLanguages: int)
    ensures multiset(Places(Unranked(runs, minLanguages))) == multiset(Places(Unranked(WithCopies(runs, key, m), minLanguages)))
  {
    var after := WithCopies(runs, key, m);
    forall p ensures multiset(Places(Unranked(runs, minLanguages)))[p] == multiset(Places(Unranked(after, minLanguages)))[p] {
      PlaceCount(runs, minLanguages, p);
      PlaceCount(after, minLanguages, p);
      CopiesKeepLines(runs, key, m, minLanguages, p);
    }
  }

  lemma BetterPlaceIsTotal()
    ensures TotalPreorder(BetterPlace) && Antisymmetric(BetterPlace)
  {
  }

  lemma PlacesInOrder(runs: seq<Run>, minLanguages: int)
    ensures InOrder(Places(Unranked(runs, minLanguages)), BetterPlace)
  {
    UnrankedInOrder(runs, minLanguages);
    var rows := Unranked(runs, minLanguages);
    forall i, j | 0 <= i < j < |rows| ensures BetterPlace(Places(rows)[i], Places(rows)[j]) {
      assert BetterFirst(rows[i], rows[j]);
    }
  }

  lemma NumberedKeepsPlaces(rows: seq<BoardRow>)
    ensures Places(Numbered(rows)) == Places(rows)
  {
    LengthOfNumbered(rows);
    forall i | 0 <= i < |rows| ensures PlaceOf(Numbered(rows)[i]) == PlaceOf(rows[i]) {
      NumberedAt(rows, i);
    }
  }

  /**
   * The board reads the same place by place: at every rank stand the same eligibility, mean and
   * wins.  So a recipe's rank can change only against one with exactly its own figures.
   */
  lemma RepeatSweepsKeepPlaces(runs: seq<Run>, key: FileKey, m: nat, minLanguages: int)
    ensures Places(Leaderboard(WithCopies(runs, key, m), minLanguages)) == Places(Leaderboard(runs, minLanguages))
  {
    var after := WithCopies(runs, key, m);
    CopiesKeepPlaceCounts(runs, key, m, minLanguages);
    BetterPlaceIsTotal();
    PlacesInOrder(runs, minLanguages);
    PlacesInOrder(after, minLanguages);
    OrderedUnique(Places(Unranked(after, minLanguages)), Places(Unranked(runs, minLanguages)), BetterPlace);
    NumberedKeepsPlaces(Unranked(runs, minLanguages));
    NumberedKeepsPlaces(Unranked(after, minLanguages));
  }

  // ---------- languages count once ----------

  /** The details of one language among ds. */
  function InLanguage(ds: seq<Detail>, language: string): seq<Detail> {
    if |ds| == 0 then []
    else
      var d := ds[|ds| - 1];
      InLanguage(ds[..|ds| - 1], language) + (if d.language == language then [d] else [])
  }

  lemma {:induction false} InLanguageAppend(a: seq<Detail>, b: seq<Detail>, language: string)
    ensures InLanguage(a + b, language) == InLanguage(a, language) + InLanguage(b, language)
  {
    if |b| == 0 {
      assert a + b == a;
    } else {
      InLanguageAppend(a, b[..|b| - 1], language);
      assert (a + b)[..|a + b| - 1] == a + b[..|b| - 1];
    }
  }

  lemma {:induction false} InLanguageOfOther(ds: seq<Detail>, language: string)
    requires forall i :: 0 <= i < |ds| ==> ds[i].language != language
    ensures InLanguage(ds, language) == []
  {
    if |ds| > 0 {
      InLanguageOfOther(ds[..|ds| - 1], language);
    }
  }

  ghost predicate AllIn(ds: seq<Detail>, language: string) {
    forall i :: 0 <= i < |ds| ==> ds[i].language == language
  }

  lemma {:induction false} ValuesAreIn(xs: seq<(string, Detail)>, k: string, language: string)
    requires forall i :: 0 <= i < |xs| ==> xs[i].1.language == language
    ensures AllIn(Values(xs, k), language)
  {
    if |xs| > 0 {
      ValuesAreIn(xs[..|xs| - 1], k, language);
    }
  }

  lemma {:induction false} ValuesCounted<V>(xs: seq<(string, V)>, k: string)
    ensures |Values(xs, k)| == multiset(Keys(xs))[k]
  {
    if |xs| > 0 {
      ValuesCounted(xs[..|xs| - 1], k);
      KeysFront(xs);
      assert Keys(xs) == Keys(xs)[..|xs| - 1] + [xs[|xs| - 1].0];
    }
  }

  function Names(recipes: seq<RecipeRow>): seq<string> {
    seq(|recipes|, i requires 0 <= i < |recipes| => recipes[i].recipe)
  }

  function Named(recipe: string): RecipeRow -> int {
    (r: RecipeRow) => if r.recipe == recipe then 1 else 0
  }

  lemma {:induction false} NamesCounted(recipes: seq<RecipeRow>, recipe: string)
    ensures multiset(Names(recipes))[recipe] == SumBy(recipes, Named(recipe))
  {
    if recipes != [] {
      NamesCounted(recipes[1..], recipe);
      assert Names(recipes) == [recipes[0].recipe] + Names(recipes[1..]);
    }
  }

  /** A language's row lists each of its recipes once. */
  lemma RowListsRecipeOnce(language: string, b: Bucket, recipe: string)
    requires Distinct(b.rec.keys) && language != "und"
    ensures |Values(DetailsIn(LanguageRowOf(language, b)), recipe)| == if recipe in b.rec.keys then 1 else 0
  {
    var row, recipes := LanguageRowOf(language, b), RecipeRowsOf(b.rec);
    ValuesCounted(DetailsIn(row), recipe);
    assert Keys(DetailsIn(row)) == Names(row.recipes);
    NamesCounted(row.recipes, recipe);
    SortedKeepsSum(recipes, MoreWinsFirst, Named(recipe));
    NamesCounted(recipes, recipe);
    assert Names(recipes) == b.rec.keys;
    CountInDistinct(b.rec.keys, recipe);
  }

  /** How often a row lists the recipe, if it is the row of that real language. */
  function ListsIn(language: string, recipe: string): LanguageRow -> int {
    (row: LanguageRow) => if row.language == language then |Values(DetailsIn(row), recipe)| else 0
  }

  lemma OneRowInLanguage(row: LanguageRow, recipe: string, language: string)
    ensures |InLanguage(Values(DetailsIn(row), recipe), language)| == ListsIn(language, recipe)(row)
  {
    ValuesAreIn(DetailsIn(row), recipe, row.language);
    if row.language == language {
      InLanguageOfSame(Values(DetailsIn(row), recipe), language);
    } else {
      InLanguageOfOther(Values(DetailsIn(row), recipe), language);
    }
  }

  lemma {:induction false} InLanguageOfSame(ds: seq<Detail>, language: string)
    requires AllIn(ds, language)
    ensures InLanguage(ds, language) == ds
  {
    if |ds| > 0 {
      InLanguageOfSame(ds[..|ds| - 1], language);
    }
  }

  function LanguageCount(rows: seq<LanguageRow>, recipe: string, language: string): nat {
    |InLanguage(Values(Details(rows), recipe), language)|
  }

  lemma InLanguageSnoc(rows: seq<LanguageRow>, row: LanguageRow, recipe: string, language: string)
    ensures LanguageCount(rows + [row], recipe, language) == LanguageCount(rows, recipe, language) + ListsIn(language, recipe)(row)
  {
    DetailsSnoc(rows, row, recipe);
    InLanguageAppend(Values(Details(rows), recipe), Values(DetailsIn(row), recipe), language);
    OneRowInLanguage(row, recipe, language);
  }

  lemma {:induction false} RowsInLanguage(rows: seq<LanguageRow>, recipe: string, language: string)
    ensures LanguageCount(rows, recipe, language) == SumBy(rows, ListsIn(language, recipe))
  {
    if rows == [] {
      assert Details(rows) == [];
    } else {
      FrontLast(rows);
      var front, row := rows[..|rows| - 1], rows[|rows| - 1];
      RowsInLanguage(front, recipe, language);
      SumBySnoc(front, row, ListsIn(language, recipe));
      InLanguageSnoc(front, row, recipe, language);
    }
  }

  lemma {:induction false} OneRowPerLanguage(d: Dict<string, Bucket>, n: nat, recipe: string, language: string)
    requires n <= |d.keys| && Distinct(d.keys)
    ensures SumBy(RowsOf(d)[..n], ListsIn(language, recipe))
         == if language in d.keys[..n] then |Values(DetailsIn(LanguageRowOf(language, d.Get(language, NO_FILES))), recipe)| else 0
  {
    if n > 0 {
      OneRowPerLanguage(d, n - 1, recipe, language);
      SumBySnoc(RowsOf(d)[..n - 1], RowsOf(d)[n - 1], ListsIn(language, recipe));
      assert RowsOf(d)[..n] == RowsOf(d)[..n - 1] + [RowsOf(d)[n - 1]];
      assert d.keys[..n] == d.keys[..n - 1] + [d.keys[n - 1]];
      assert d.keys[n - 1] !in d.keys[..n - 1];
    }
  }

  /** The recipe was scored in the language: some file of it has a mean for the recipe. */
  predicate ScoredIn(runs: seq<Run>, language: string, recipe: string) {
    language in Buckets(runs).keys && recipe in Buckets(runs).Get(language, NO_FILES).rec.keys
  }

  lemma OneRowInAll(d: Dict<string, Bucket>, recipe: string, language: string)
    requires Distinct(d.keys)
    ensures SumBy(RowsOf(d), ListsIn(language, recipe))
         == if language in d.keys then |Values(DetailsIn(LanguageRowOf(language, d.Get(language, NO_FILES))), recipe)| else 0
  {
    OneRowPerLanguage(d, |d.keys|, recipe, language);
    assert RowsOf(d)[..|d.keys|] == RowsOf(d) && d.keys[..|d.keys|] == d.keys;
  }

  lemma InLanguageIsRow(runs: seq<Run>, recipe: string, language: string)
    ensures |InLanguage(DetailsFor(runs, recipe), language)|
         == if language in Buckets(runs).keys
            then |Values(DetailsIn(LanguageRowOf(language, Buckets(runs).Get(language, NO_FILES))), recipe)| else 0
  {
    RowsInLanguage(LanguageRows(runs), recipe, language);
    SortedKeepsSum(RowsOf(Buckets(runs)), MoreFilesFirst, ListsIn(language, recipe));
    BucketKeysHaveValues(runs);
    OneRowInAll(Buckets(runs), recipe, language);
  }

  /**
   * Every real language in which a recipe was scored weighs once in its global mean, and no other
   * language weighs at all; "und" never does.
   */
  lemma LanguagesWeighOnce(runs: seq<Run>, minLanguages: int, recipe: string, language: string)
    ensures |InLanguage(DetailsFor(runs, recipe), language)| == if language != "und" && ScoredIn(runs, language, recipe) then 1 else 0
    ensures DetailsFor(runs, recipe) != [] ==>
      LineOf(runs, minLanguages, recipe).globalMean == Round2(MeanSum(DetailsFor(runs, recipe)) / |DetailsFor(runs, recipe)| as real)
    ensures LineOf(runs, minLanguages, recipe).languages == |DetailsFor(runs, recipe)|
  {
    var b := Buckets(runs).Get(language, NO_FILES);
    InLanguageIsRow(runs, recipe, language);
    BucketOfFiles(runs, language);
    GroupKeys(AllBallots(FilesIn(runs, language)), NO_BALLOTS, AddBallot);
    FirstSeenIsDistinct(Keys(AllBallots(FilesIn(runs, language))));
    if language != "und" {
      RowListsRecipeOnce(language, b, recipe);
    }
    EntryAt(runs, recipe);
    EntryDetails(DetailsFor(runs, recipe));
    EntryMeans(DetailsFor(runs, recipe));
  }
}
