/**
 * The probe index of a coverage build: each probed path is listed under every folder above it,
 * and each row takes its probe from that index.
 */
module ProbeIndex {
  import opened Common
  import opened Text

  /** A probed file and what the probe found. */
  datatype Entry<P> = Entry(path: string, probe: P)

  type Index<T> = map<string, seq<T>>

  function Listed<T>(index: Index<T>, folder: string): seq<T> {
    if folder in index then index[folder] else []
  }

  /** `folder` has two or more components and the path lies strictly below it. */
  predicate Below(path: string, folder: string) {
    '/' in folder && StartsWith(path, folder + "/")
  }

  /** The plain filter the index stands for. */
  function FilterBelow<T>(xs: seq<T>, pathOf: T -> string, folder: string): seq<T> {
    if |xs| == 0 then []
    else
      FilterBelow(xs[..|xs| - 1], pathOf, folder) + (if Below(pathOf(xs[|xs| - 1]), folder) then [xs[|xs| - 1]] else [])
  }

  /** The folders a path is listed under: its first i components, for i from 2 up to n. */
  function Prefix(path: string, i: nat): string
    requires 0 < i <= |Split(path, '/')|
  {
    Join(Split(path, '/')[..i], '/')
  }

  lemma PrefixIsAbove(path: string, i: nat)
    requires 2 <= i < |Split(path, '/')|
    ensures Below(path, Prefix(path, i))
    ensures |Split(Prefix(path, i), '/')| == i
  {
    var parts := Split(path, '/');
    SplitParts(path, '/');
    JoinSplit(path, '/');
    assert parts == parts[..i] + parts[i..];
    JoinAround(parts[..i], parts[i..], '/');
    SplitJoin(parts[..i], '/');
    SplitParts(Prefix(path, i), '/');
  }

  lemma AboveIsPrefix(path: string, folder: string)
    requires Below(path, folder)
    ensures var i := |Split(folder, '/')|; 2 <= i < |Split(path, '/')| && Prefix(path, i) == folder
  {
    var rest := path[|folder| + 1..];
    assert path == folder + "/" + rest;
    SplitAround(folder, rest, '/');
    SplitParts(folder, '/');
    JoinSplit(folder, '/');
    var i := |Split(folder, '/')|;
    assert Split(path, '/')[..i] == Split(folder, '/');
  }

  /** What listing x under the first i components and fewer adds at a folder. */
  function AddedAt<T>(x: T, path: string, folder: string, i: nat): seq<T> {
    if Below(path, folder) && |Split(folder, '/')| < i then [x] else []
  }

  lemma AddedAtStart<T>(x: T, path: string, folder: string)
    ensures AddedAt(x, path, folder, 2) == []
  {
    SplitParts(folder, '/');
  }

  lemma AddedAtEnd<T>(x: T, path: string, folder: string, i: nat)
    requires i >= |Split(path, '/')|
    ensures AddedAt(x, path, folder, i) == if Below(path, folder) then [x] else []
  {
    if Below(path, folder) {
      AboveIsPrefix(path, folder);
    }
  }

  lemma AddedAtNext<T>(x: T, path: string, folder: string, i: nat)
    requires 2 <= i < |Split(path, '/')|
    ensures AddedAt(x, path, folder, i + 1) == if folder == Prefix(path, i) then [x] else AddedAt(x, path, folder, i)
    ensures AddedAt(x, path, Prefix(path, i), i) == []
  {
    PrefixIsAbove(path, i);
    if Below(path, folder) {
      AboveIsPrefix(path, folder);
    }
  }

  /** Listing one more path: under exactly the folders above it, once each. */
  method ListUnderAncestors<T>(before: Index<T>, x: T, path: string) returns (index: Index<T>)
    ensures forall folder :: Listed(index, folder) == Listed(before, folder) + (if Below(path, folder) then [x] else [])
  {
    index := before;
    var parts := Split(path, '/');
    var i := 2;
    forall folder ensures AddedAt(x, path, folder, 2) == [] {
      AddedAtStart(x, path, folder);
    }
    while i < |parts|
      invariant i >= 2
      invariant forall folder :: Listed(index, folder) == Listed(before, folder) + AddedAt(x, path, folder, i)
    {
      var prefix := Join(parts[..i], '/');
      index := index[prefix := Listed(index, prefix) + [x]];
      forall folder ensures Listed(index, folder) == Listed(before, folder) + AddedAt(x, path, folder, i + 1) {
        AddedAtNext(x, path, folder, i);
      }
      i := i + 1;
    }
    forall folder ensures Listed(index, folder) == Listed(before, folder) + (if Below(path, folder) then [x] else []) {
      AddedAtEnd(x, path, folder, i);
    }
  }

  ghost predicate Indexes<T>(index: Index<T>, xs: seq<T>, pathOf: T -> string) {
    forall folder :: Listed(index, folder) == FilterBelow(xs, pathOf, folder)
  }

  /** The index agrees with the filter at every folder, in store order. */
  method BuildIndex<T>(xs: seq<T>, pathOf: T -> string) returns (index: Index<T>)
    ensures Indexes(index, xs, pathOf)
  {
    index := map[];
    for k := 0 to |xs|
      invariant Indexes(index, xs[..k], pathOf)
    {
      assert xs[..k + 1][..k] == xs[..k];
      index := ListUnderAncestors(index, xs[k], pathOf(xs[k]));
    }
    assert xs[..|xs|] == xs;
  }

  // ---------- rows ----------

  function EntryPath<P>(e: Entry<P>): string { e.path }

  function Itself(path: string): string { path }

  function FirstAt<P>(es: seq<Entry<P>>, path: string): Option<Entry<P>> {
    if |es| == 0 then None else if es[0].path == path then Some(es[0]) else FirstAt(es[1..], path)
  }

  /** The first entry whose file name holds the episode pattern. */
  function FirstNamed<P>(es: seq<Entry<P>>, pattern: string): Option<Entry<P>> {
    if |es| == 0 then None
    else if Contains(Lower(AfterLast(es[0].path, '/')), pattern) then Some(es[0])
    else FirstNamed(es[1..], pattern)
  }

  predicate SomeNamed(paths: seq<string>, pattern: string) {
    exists i :: 0 <= i < |paths| && Contains(Lower(AfterLast(paths[i], '/')), pattern)
  }

  datatype VerificationState = Unprobed | ProbeFailed | Verified

  /** What attaching does to a row. */
  datatype Outcome<P> = Attach(entry: Entry<P>) | MarkFailed | Leave

  /** What the store knows: the probed files and the failed ones. */
  datatype Store<P> = Store(entries: seq<Entry<P>>, failed: seq<string>)

  ghost predicate IndexesStore<P>(index: Index<Entry<P>>, failed: Index<string>, store: Store<P>) {
    Indexes(index, store.entries, EntryPath) && Indexes(failed, store.failed, Itself)
  }

  function EntriesBelow<P>(store: Store<P>, folder: string): seq<Entry<P>> {
    FilterBelow(store.entries, EntryPath, folder)
  }

  function FailedBelow<P>(store: Store<P>, folder: string): seq<string> {
    FilterBelow(store.failed, Itself, folder)
  }

  /** An episode row: by its own file when that is resolved, else by the episode pattern in the series folder. */
  function EpisodeOutcome<P>(store: Store<P>, canonicalPath: string, file: string, pattern: Option<string>): Outcome<P> {
    if file != "" then
      var own := FirstAt(EntriesBelow(store, BeforeLast(file, '/')), file);
      if own.Some? then Attach(own.value)
      else if file in FailedBelow(store, BeforeLast(file, '/')) then MarkFailed
      else Leave
    else if canonicalPath == "" || pattern.None? then Leave
    else
      var named := FirstNamed(EntriesBelow(store, canonicalPath), pattern.value);
      if named.Some? then Attach(named.value)
      else if SomeNamed(FailedBelow(store, canonicalPath), pattern.value) then MarkFailed
      else Leave
  }

  /** A movie row: the first probe in its folder, of its own file when that is resolved. */
  function MovieOutcome<P>(store: Store<P>, canonicalPath: string, file: string): Outcome<P> {
    var candidates := EntriesBelow(store, canonicalPath);
    if canonicalPath == "" then Leave
    else
      var own := if file != "" then FirstAt(candidates, file)
                 else if |candidates| > 0 then Some(candidates[0]) else None;
      if own.Some? then Attach(own.value)
      else if |FailedBelow(store, canonicalPath)| > 0 then MarkFailed
      else Leave
  }

  /** A coverage row, as far as probes concern it. */
  class CoverageItem<P> {
    const canonicalPath: string          // the series or movie folder; empty when not set
    const episodePattern: Option<string> // "1x3" as "s01e03", when it parses
    var fileCanonicalPath: string        // empty until the file is resolved
    var state: VerificationState
    var probe: Option<P>                 // whose facts the row shows

    constructor (canonicalPath: string, episodePattern: Option<string>, file: string)
      ensures this.canonicalPath == canonicalPath && this.episodePattern == episodePattern
      ensures fileCanonicalPath == file && state == Unprobed && probe == None
    {
      this.canonicalPath, this.episodePattern, fileCanonicalPath := canonicalPath, episodePattern, file;
      state, probe := Unprobed, None;
    }

    /** The row after an outcome: a probe brings its own path along. */
    twostate predicate Follows(new o: Outcome<P>)
      reads this
    {
      match o
      case Attach(e) => fileCanonicalPath == e.path && state == Verified && probe == Some(e.probe)
      case MarkFailed => fileCanonicalPath == old(fileCanonicalPath) && state == ProbeFailed && probe == old(probe)
      case Leave => fileCanonicalPath == old(fileCanonicalPath) && state == old(state) && probe == old(probe)
    }

    method ApplyProbe(e: Entry<P>)
      modifies this
      ensures Follows(Attach(e))
    {
      fileCanonicalPath, state, probe := e.path, Verified, Some(e.probe);
    }

    method AttachEpisode(index: Index<Entry<P>>, failed: Index<string>, ghost store: Store<P>)
      requires IndexesStore(index, failed, store)
      modifies this
      ensures Follows(EpisodeOutcome(store, canonicalPath, old(fileCanonicalPath), episodePattern))
    {
      if fileCanonicalPath != "" {
        var folder := BeforeLast(fileCanonicalPath, '/');
        AttachExact(Listed(index, folder), Listed(failed, folder));
      } else if canonicalPath != "" && episodePattern.Some? {
        AttachNamed(Listed(index, canonicalPath), Listed(failed, canonicalPath), episodePattern.value);
      }
    }

    method AttachExact(listed: seq<Entry<P>>, failed: seq<string>)
      modifies this
      ensures var own := FirstAt(listed, old(fileCanonicalPath));
        Follows(if own.Some? then Attach(own.value)
                else if old(fileCanonicalPath) in failed then MarkFailed else Leave)
    {
      var exact := fileCanonicalPath;
      for i := 0 to |listed|
        invariant FirstAt(listed, exact) == FirstAt(listed[i..], exact)
        invariant unchanged(this)
      {
        assert listed[i..][1..] == listed[i + 1..];
        if listed[i].path == exact {
          ApplyProbe(listed[i]);
          return;
        }
      }
      if exact in failed {
        state := ProbeFailed;
      }
    }

    method AttachNamed(listed: seq<Entry<P>>, failed: seq<string>, pattern: string)
      modifies this
      ensures var named := FirstNamed(listed, pattern);
        Follows(if named.Some? then Attach(named.value)
                else if SomeNamed(failed, pattern) then MarkFailed else Leave)
    {
      for i := 0 to |listed|
        invariant FirstNamed(listed, pattern) == FirstNamed(listed[i..], pattern)
        invariant unchanged(this)
      {
        assert listed[i..][1..] == listed[i + 1..];
        if Contains(Lower(AfterLast(listed[i].path, '/')), pattern) {
          ApplyProbe(listed[i]);
          return;
        }
      }
      for i := 0 to |failed|
        invariant forall j :: 0 <= j < i ==> !Contains(Lower(AfterLast(failed[j], '/')), pattern)
        invariant unchanged(this)
      {
        if Contains(Lower(AfterLast(failed[i], '/')), pattern) {
          state := ProbeFailed;
          return;
        }
      }
    }

    method AttachMovie(index: Index<Entry<P>>, failed: Index<string>, ghost store: Store<P>)
      requires IndexesStore(index, failed, store)
      modifies this
      ensures Follows(MovieOutcome(store, canonicalPath, old(fileCanonicalPath)))
    {
      if canonicalPath == "" {
        return;
      }
      var candidates := Listed(index, canonicalPath);
      var own := if fileCanonicalPath != "" then FirstAt(candidates, fileCanonicalPath)
                 else if |candidates| > 0 then Some(candidates[0]) else None;
      if own.None? {
        if |Listed(failed, canonicalPath)| > 0 {
          state := ProbeFailed;
        }
        return;
      }
      ApplyProbe(own.value);
    }
  }

  // ---------- never another file's probe ----------

  lemma {:induction false} FilterHolds<T>(xs: seq<T>, pathOf: T -> string, folder: string, x: T)
    ensures x in FilterBelow(xs, pathOf, folder) <==> x in xs && Below(pathOf(x), folder)
  {
    if |xs| > 0 {
      FilterHolds(xs[..|xs| - 1], pathOf, folder, x);
      assert xs == xs[..|xs| - 1] + [xs[|xs| - 1]];
    }
  }

  lemma {:induction false} FirstAtFinds<P>(es: seq<Entry<P>>, path: string)
    ensures FirstAt(es, path).Some? <==> exists e :: e in es && e.path == path
    ensures FirstAt(es, path).Some? ==> FirstAt(es, path).value in es && FirstAt(es, path).value.path == path
  {
    if |es| > 0 {
      FirstAtFinds(es[1..], path);
      assert es == [es[0]] + es[1..];
    }
  }

  lemma {:induction false} FirstNamedFinds<P>(es: seq<Entry<P>>, pattern: string)
    ensures FirstNamed(es, pattern).Some? ==> FirstNamed(es, pattern).value in es
  {
    if |es| > 0 {
      FirstNamedFinds(es[1..], pattern);
    }
  }

  /** A row becomes verified only by a probed file of the store, whose path it takes, and that path is never empty. */
  lemma VerifiedRowsHaveFiles<P>(store: Store<P>, canonicalPath: string, file: string, pattern: Option<string>)
    ensures var o := EpisodeOutcome(store, canonicalPath, file, pattern);
      o.Attach? ==> o.entry in store.entries && o.entry.path != ""
    ensures var o := MovieOutcome(store, canonicalPath, file);
      o.Attach? ==> o.entry in store.entries && o.entry.path != ""
  {
    var own, folder := EntriesBelow(store, BeforeLast(file, '/')), EntriesBelow(store, canonicalPath);
    FirstAtFinds(own, file);
    FirstAtFinds(folder, file);
    if pattern.Some? {
      FirstNamedFinds(folder, pattern.value);
    }
    forall e ensures e in own || e in folder ==> e in store.entries && e.path != "" {
      FilterHolds(store.entries, EntryPath, BeforeLast(file, '/'), e);
      FilterHolds(store.entries, EntryPath, canonicalPath, e);
    }
  }

  /** The file has three or more components, so that its own folder is indexed. */
  predicate Deep(file: string) {
    '/' in BeforeLast(file, '/')
  }

  lemma OwnFolder(file: string)
    ensures Below(file, BeforeLast(file, '/')) <==> Deep(file)
  {
    if '/' in file {
      AroundLast(file, '/');
    }
  }

  predicate Probed<P>(store: Store<P>, file: string) {
    exists i :: 0 <= i < |store.entries| && store.entries[i].path == file
  }

  /**
   * An episode row with a resolved file is verified exactly when that very file was probed, with
   * that file's probe, and marked failed exactly when that very file failed and was not probed;
   * a file with fewer than three components is never found.
   */
  lemma ResolvedEpisodeUsesItsOwnFile<P>(store: Store<P>, canonicalPath: string, file: string, pattern: Option<string>)
    requires file != ""
    ensures var o := EpisodeOutcome(store, canonicalPath, file, pattern);
      && (o.Attach? <==> Deep(file) && Probed(store, file))
      && (o.Attach? ==> o.entry in store.entries && o.entry.path == file)
      && (o.MarkFailed? <==> Deep(file) && file in store.failed && !Probed(store, file))
  {
    var folder := BeforeLast(file, '/');
    var listed := EntriesBelow(store, folder);
    OwnFolder(file);
    FirstAtFinds(listed, file);
    FilterHolds(store.failed, Itself, folder, file);
    forall e: Entry<P> | e.path == file ensures e in listed <==> e in store.entries && Deep(file) {
      FilterHolds(store.entries, EntryPath, folder, e);
    }
    if Probed(store, file) && Deep(file) {
      var i :| 0 <= i < |store.entries| && store.entries[i].path == file;
      assert store.entries[i] in listed;
    }
  }

  /** A movie row with a resolved file, likewise, as long as the file lies in the movie's folder. */
  lemma ResolvedMovieUsesItsOwnProbe<P>(store: Store<P>, canonicalPath: string, file: string)
    requires file != "" && canonicalPath != ""
    ensures var o := MovieOutcome(store, canonicalPath, file);
      && (o.Attach? <==> Below(file, canonicalPath) && Probed(store, file))
      && (o.Attach? ==> o.entry in store.entries && o.entry.path == file)
      && (o.MarkFailed? <==> !o.Attach? && exists bad :: bad in store.failed && Below(bad, canonicalPath))
  {
    var listed := EntriesBelow(store, canonicalPath);
    FirstAtFinds(listed, file);
    forall e: Entry<P> | e.path == file ensures e in listed <==> e in store.entries && Below(file, canonicalPath) {
      FilterHolds(store.entries, EntryPath, canonicalPath, e);
    }
    if Probed(store, file) && Below(file, canonicalPath) {
      var i :| 0 <= i < |store.entries| && store.entries[i].path == file;
      assert store.entries[i] in listed;
    }
    var bad := FailedBelow(store, canonicalPath);
    forall b ensures b in bad <==> b in store.failed && Below(b, canonicalPath) {
      FilterHolds(store.failed, Itself, canonicalPath, b);
    }
    if |bad| > 0 {
      assert bad[0] in bad;
    }
  }

  /**
   * Unlike an episode, a movie row can be marked failed for another file: exactly when its own file
   * is neither attached nor among the failures of its folder, and some other file there failed.
   */
  lemma MovieBlamedForAnotherFile<P>(store: Store<P>, canonicalPath: string, file: string)
    requires file != "" && canonicalPath != ""
    ensures MovieOutcome(store, canonicalPath, file).MarkFailed? && !(file in store.failed && Below(file, canonicalPath))
       <==> && !(Probed(store, file) && Below(file, canonicalPath))
            && !(file in store.failed && Below(file, canonicalPath))
            && exists bad :: bad in store.failed && bad != file && Below(bad, canonicalPath)
  {
    ResolvedMovieUsesItsOwnProbe(store, canonicalPath, file);
  }

  /** A movie whose own file was never probed, beside an extra that could not be. */
  lemma MovieBlamedForItsExtra<P>()
    ensures MovieOutcome(Store<P>.Store([], ["Movies/m/extra"]), "Movies/m", "Movies/m/film") == MarkFailed
  {
    var failed := ["Movies/m/extra"];
    assert "Movies/m/" + "extra" == "Movies/m/extra" && "Movies/m"[6] == '/';
    assert Below("Movies/m/extra", "Movies/m");
    FilterHolds(failed, Itself, "Movies/m", failed[0]);
    assert FailedBelow(Store<P>.Store([], failed), "Movies/m") != [];
  }

  // ---------- rows whose file is not resolved ----------

  /** A file strictly below the folder whose own name, in lower case, holds the pattern. */
  predicate Matches(path: string, folder: string, pattern: string) {
    Below(path, folder) && Contains(Lower(AfterLast(path, '/')), pattern)
  }

  /** Entry i is the first of the store that matches. */
  ghost predicate IsFirstMatch<P>(entries: seq<Entry<P>>, folder: string, pattern: string, i: nat) {
    i < |entries| && Matches(entries[i].path, folder, pattern)
    && forall j :: 0 <= j < i ==> !Matches(entries[j].path, folder, pattern)
  }

  lemma {:induction false} FirstNamedAppend<P>(a: seq<Entry<P>>, b: seq<Entry<P>>, pattern: string)
    ensures FirstNamed(a + b, pattern) == if FirstNamed(a, pattern).Some? then FirstNamed(a, pattern) else FirstNamed(b, pattern)
  {
    if |a| == 0 {
      assert a + b == b;
    } else {
      FirstNamedAppend(a[1..], b, pattern);
      assert (a + b)[1..] == a[1..] + b;
    }
  }

  lemma FirstMatchOfMore<P>(entries: seq<Entry<P>>, folder: string, pattern: string, i: nat)
    requires |entries| > 0 && IsFirstMatch(entries[..|entries| - 1], folder, pattern, i)
    ensures IsFirstMatch(entries, folder, pattern, i)
  {
    var front := entries[..|entries| - 1];
    forall j | 0 <= j < i ensures !Matches(entries[j].path, folder, pattern) {
      assert entries[j] == front[j];
    }
  }

  lemma {:induction false} FirstNamedBelow<P>(entries: seq<Entry<P>>, folder: string, pattern: string)
    ensures var r := FirstNamed(FilterBelow(entries, EntryPath, folder), pattern);
      && (r.None? ==> forall i :: 0 <= i < |entries| ==> !Matches(entries[i].path, folder, pattern))
      && (r.Some? ==> exists i: nat :: IsFirstMatch(entries, folder, pattern, i) && r.value == entries[i])
  {
    if |entries| > 0 {
      var front, last := entries[..|entries| - 1], entries[|entries| - 1];
      FirstNamedBelow(front, folder, pattern);
      var before := FilterBelow(front, EntryPath, folder);
      var more := if Below(last.path, folder) then [last] else [];
      FirstNamedAppend(before, more, pattern);
      if FirstNamed(before, pattern).Some? {
        var i: nat :| IsFirstMatch(front, folder, pattern, i) && FirstNamed(before, pattern).value == front[i];
        FirstMatchOfMore(entries, folder, pattern, i);
      } else if Matches(last.path, folder, pattern) {
        assert IsFirstMatch(entries, folder, pattern, |entries| - 1);
      } else {
        assert more == [] || more[1..] == [];
      }
    }
  }

  lemma SomeNamedBelow(failed: seq<string>, folder: string, pattern: string)
    ensures SomeNamed(FilterBelow(failed, Itself, folder), pattern)
       <==> exists bad :: bad in failed && Matches(bad, folder, pattern)
  {
    var below := FilterBelow(failed, Itself, folder);
    forall b ensures b in below <==> b in failed && Below(b, folder) {
      FilterHolds(failed, Itself, folder, b);
    }
    if SomeNamed(below, pattern) {
      var i :| 0 <= i < |below| && Contains(Lower(AfterLast(below[i], '/')), pattern);
      assert below[i] in below;
    }
    if bad :| bad in failed && Matches(bad, folder, pattern) {
      assert bad in below;
      var i :| 0 <= i < |below| && below[i] == bad;
    }
  }

  /**
   * An episode row without a resolved file takes the first probe of the store, in its order, whose
   * file lies in the series folder and is named like the episode; without one it is marked failed
   * exactly when such a file failed; and it is left alone without a folder or a pattern.
   */
  lemma UnresolvedEpisodeGoesByName<P>(store: Store<P>, canonicalPath: string, pattern: Option<string>)
    ensures var o := EpisodeOutcome(store, canonicalPath, "", pattern);
      if canonicalPath == "" || pattern.None? then o.Leave?
      else
        && (o.Attach? ==> exists i: nat :: IsFirstMatch(store.entries, canonicalPath, pattern.value, i) && o.entry == store.entries[i])
        && (!o.Attach? ==> forall i :: 0 <= i < |store.entries| ==> !Matches(store.entries[i].path, canonicalPath, pattern.value))
        && (!o.Attach? ==> (o.MarkFailed? <==> exists bad :: bad in store.failed && Matches(bad, canonicalPath, pattern.value)))
  {
    if canonicalPath != "" && pattern.Some? {
      FirstNamedBelow(store.entries, canonicalPath, pattern.value);
      SomeNamedBelow(store.failed, canonicalPath, pattern.value);
    }
  }

  lemma AnyNameHoldsNothing<P>(es: seq<Entry<P>>)
    ensures FirstNamed(es, "") == if |es| > 0 then Some(es[0]) else None
    ensures forall s :: Contains(s, "")
  {
    forall s ensures Contains(s, "") {
      assert StartsWith(s[0..], "");
    }
  }

  /** Entry i is the first of the store below the folder. */
  ghost predicate IsFirstBelow<P>(entries: seq<Entry<P>>, folder: string, i: nat) {
    i < |entries| && Below(entries[i].path, folder) && forall j :: 0 <= j < i ==> !Below(entries[j].path, folder)
  }

  /** A movie row without a resolved file takes the first probe of the store in its folder; without one, any failure there marks it. */
  lemma UnresolvedMovieGoesByFolder<P>(store: Store<P>, canonicalPath: string)
    ensures var o := MovieOutcome(store, canonicalPath, "");
      if canonicalPath == "" then o.Leave?
      else
        && (o.Attach? ==> exists i: nat :: IsFirstBelow(store.entries, canonicalPath, i) && o.entry == store.entries[i])
        && (!o.Attach? ==> forall i :: 0 <= i < |store.entries| ==> !Below(store.entries[i].path, canonicalPath))
        && (!o.Attach? ==> (o.MarkFailed? <==> exists bad :: bad in store.failed && Below(bad, canonicalPath)))
  {
    if canonicalPath != "" {
      var candidates, failed := EntriesBelow(store, canonicalPath), FailedBelow(store, canonicalPath);
      AnyNameHoldsNothing(candidates);
      FirstNamedBelow(store.entries, canonicalPath, "");
      if i: nat :| IsFirstMatch(store.entries, canonicalPath, "", i) && FirstNamed(candidates, "") == Some(store.entries[i]) {
        assert IsFirstBelow(store.entries, canonicalPath, i);
      }
      forall b ensures b in failed <==> b in store.failed && Below(b, canonicalPath) {
        FilterHolds(store.failed, Itself, canonicalPath, b);
      }
      if |failed| > 0 {
        assert failed[0] in failed;
      }
    }
  }
}
