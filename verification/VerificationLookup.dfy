/**
 * The bulk form of the verdict lookup that one coverage build uses: per-file rows in a
 * dictionary whose misses fall back to the longest series intent, split into a user layer
 * and a machine layer.
 */
module VerificationLookup {
  import opened Common
  import opened Sorting
  import opened AudioLangStore
  import Text

  type Entry = (Path, string)

  const LongerFirst: (Entry, Entry) -> bool := (a: Entry, b: Entry) => |a.0| >= |b.0|

  /** The value of the first entry from i on whose prefix the key starts with. */
  function FirstMatch(entries: seq<Entry>, key: Path, i: nat): Option<string>
    requires i <= |entries|
    decreases |entries| - i
  {
    if i == |entries| then None
    else if Text.StartsWith(key, entries[i].0) then Some(entries[i].1)
    else FirstMatch(entries, key, i + 1)
  }

  /** Among entries sorted longest first, the first match is a longest one. */
  lemma {:induction false} FirstMatchIsLongest(entries: seq<Entry>, key: Path, i: nat)
    requires i <= |entries| && InOrder(entries, LongerFirst)
    ensures FirstMatch(entries, key, i).None? ==> forall j :: i <= j < |entries| ==> !Text.StartsWith(key, entries[j].0)
    ensures FirstMatch(entries, key, i).Some? ==>
      exists j :: i <= j < |entries| && Text.StartsWith(key, entries[j].0) && FirstMatch(entries, key, i) == Some(entries[j].1)
        && forall k :: i <= k < |entries| && Text.StartsWith(key, entries[k].0) ==> |entries[k].0| <= |entries[j].0|
    decreases |entries| - i
  {
    if i < |entries| {
      if Text.StartsWith(key, entries[i].0) {
        forall k | i <= k < |entries| ensures |entries[k].0| <= |entries[i].0| {
          assert i < k ==> LongerFirst(entries[i], entries[k]);
        }
      } else {
        FirstMatchIsLongest(entries, key, i + 1);
      }
    }
  }

  class SeriesIntentLookup {
    var base: map<Path, string>
    var entries: seq<Entry>

    ghost function Value(key: Path): Option<string>
      reads this
    {
      if key in base then Some(base[key]) else FirstMatch(entries, key, 0)
    }

    constructor (base: map<Path, string>, entries: seq<Entry>)
      ensures this.base == base && this.entries == Sorted(entries, LongerFirst)
    {
      this.base := base;
      this.entries := Sorted(entries, LongerFirst);
    }

    method MatchIntent(key: Path) returns (value: Option<string>)
      ensures value == FirstMatch(entries, key, 0)
    {
      for i := 0 to |entries|
        invariant FirstMatch(entries, key, 0) == FirstMatch(entries, key, i)
      {
        if Text.StartsWith(key, entries[i].0) {
          return Some(entries[i].1);
        }
      }
      value := None;
    }

    method Contains(key: Path) returns (found: bool)
      ensures found <==> Value(key).Some?
    {
      if key in base {
        return true;
      }
      var value := MatchIntent(key);
      found := value.Some?;
    }

    method Get(key: Path) returns (value: Option<string>)
      ensures value == Value(key)
    {
      if key in base {
        return Some(base[key]);
      }
      value := MatchIntent(key);
    }

    method Pop(key: Path)
      modifies this`base
      ensures base == old(base) - {key}
    {
      base := base - {key};
    }
  }

  function IntentSource(intent: Intent): string { "series_intent:" + intent.source }

  /** The entries are the declared intents, in some order, each with its value. */
  ghost predicate Lists(entries: seq<Entry>, intents: Intents, value: Intent -> string) {
    && (forall i :: 0 <= i < |entries| ==> entries[i].0 in intents && entries[i].1 == value(intents[entries[i].0]))
    && (forall p :: p in intents ==> exists i :: 0 <= i < |entries| && entries[i].0 == p)
  }

  method ListSeriesIntents(intents: Intents, value: Intent -> string) returns (entries: seq<Entry>)
    ensures Lists(entries, intents, value)
    ensures forall i, j :: 0 <= i < j < |entries| ==> entries[i].0 != entries[j].0
  {
    var scan := AnyOrder(intents.Keys);
    entries := [];
    for i := 0 to |scan|
      invariant |entries| == i
      invariant forall j :: 0 <= j < i ==> entries[j] == (scan[j], value(intents[scan[j]]))
    {
      entries := entries + [(scan[i], value(intents[scan[i]]))];
    }
    forall p | p in intents ensures exists i :: 0 <= i < |entries| && entries[i].0 == p {
      var i :| 0 <= i < |scan| && scan[i] == p;
      assert entries[i].0 == p;
    }
  }

  lemma SortedStillLists(entries: seq<Entry>, intents: Intents, value: Intent -> string)
    requires Lists(entries, intents, value)
    ensures Lists(Sorted(entries, LongerFirst), intents, value)
    ensures InOrder(Sorted(entries, LongerFirst), LongerFirst)
  {
    var s := Sorted(entries, LongerFirst);
    SortedPermutes(entries, LongerFirst);
    SortedInOrder(entries, LongerFirst);
    forall i | 0 <= i < |s| ensures s[i].0 in intents && s[i].1 == value(intents[s[i].0]) {
      SameElements(s, entries, s[i]);
      var j :| 0 <= j < |entries| && entries[j] == s[i];
    }
    forall p | p in intents ensures exists i :: 0 <= i < |s| && s[i].0 == p {
      var j :| 0 <= j < |entries| && entries[j].0 == p;
      SameElements(s, entries, entries[j]);
      var i :| 0 <= i < |s| && s[i] == entries[j];
    }
  }

  /** The first match in the sorted list is the value of the intent the path inherits. */
  lemma MatchIsInherited(entries: seq<Entry>, intents: Intents, value: Intent -> string, key: Path)
    requires Lists(entries, intents, value) && InOrder(entries, LongerFirst)
    ensures FirstMatch(entries, key, 0).None? ==> forall q :: !Inherits(intents, key, q)
    ensures FirstMatch(entries, key, 0).Some? ==>
      exists q :: Inherits(intents, key, q) && FirstMatch(entries, key, 0) == Some(value(intents[q]))
  {
    FirstMatchIsLongest(entries, key, 0);
    if FirstMatch(entries, key, 0).None? {
      forall q ensures !Inherits(intents, key, q) {
        if q in intents {
          var i :| 0 <= i < |entries| && entries[i].0 == q;
        }
      }
    } else {
      var j :| 0 <= j < |entries| && Text.StartsWith(key, entries[j].0) && FirstMatch(entries, key, 0) == Some(entries[j].1)
        && forall k :: 0 <= k < |entries| && Text.StartsWith(key, entries[k].0) ==> |entries[k].0| <= |entries[j].0|;
      forall q | q in intents && Text.StartsWith(key, q) ensures |q| <= |entries[j].0| {
        var i :| 0 <= i < |entries| && entries[i].0 == q;
      }
      assert Inherits(intents, key, entries[j].0);
    }
  }

  /** The two lookups agree with the store: for every path, language and source are those of `get`. */
  ghost predicate Mirrors(users: SeriesIntentLookup, sources: SeriesIntentLookup, t: Table, intents: Intents)
    reads users, sources
  {
    && (forall p :: p in users.base <==> p in t) && (forall p :: p in sources.base <==> p in t)
    && (forall p :: p in t ==> users.base[p] == t[p].lang && sources.base[p] == t[p].source)
    && InOrder(users.entries, LongerFirst) && Lists(users.entries, intents, IntentLang)
    && InOrder(sources.entries, LongerFirst) && Lists(sources.entries, intents, IntentSourceOf)
  }

  const IntentLang: Intent -> string := (i: Intent) => i.lang
  const IntentSourceOf: Intent -> string := (i: Intent) => IntentSource(i)

  method BuildVerificationLookup(store: AudioLangStore)
    returns (users: SeriesIntentLookup, sources: SeriesIntentLookup)
    ensures fresh(users) && fresh(sources) && users != sources
    ensures Mirrors(users, sources, store.verdicts, store.intents)
  {
    var t := store.verdicts;
    var baseLangs := map p | p in t :: t[p].lang;
    var baseSources := map p | p in t :: t[p].source;
    var langIntents := ListSeriesIntents(store.intents, IntentLang);
    var sourceIntents := ListSeriesIntents(store.intents, IntentSourceOf);
    SortedStillLists(langIntents, store.intents, IntentLang);
    SortedStillLists(sourceIntents, store.intents, IntentSourceOf);
    users := new SeriesIntentLookup(baseLangs, langIntents);
    sources := new SeriesIntentLookup(baseSources, sourceIntents);
  }

  /** Bulk and per-path lookups return the same language and the same source. */
  lemma BulkAgreesWithGet(users: SeriesIntentLookup, sources: SeriesIntentLookup, t: Table, intents: Intents, path: Path)
    requires Mirrors(users, sources, t, intents)
    ensures Answer(t, intents, path).None? ==> users.Value(path).None? && sources.Value(path).None?
    ensures Answer(t, intents, path).Some? ==>
      users.Value(path) == Some(Answer(t, intents, path).value.0) && sources.Value(path) == Some(Answer(t, intents, path).value.1)
  {
    if path !in t {
      MatchIsInherited(users.entries, intents, IntentLang, path);
      MatchIsInherited(sources.entries, intents, IntentSourceOf, path);
      InheritsUnique(intents, path);
    }
  }

  // ---------- the split into user and machine layers ----------

  predicate IsMachine(source: string) {
    Text.Contains(Text.Lower(source), "whisper") || Text.Contains(Text.Lower(source), "auto")
  }

  /** Somewhere the text spells the word, in any case. */
  ghost predicate Spells(s: string, word: string) {
    exists a, w, b :: s == a + w + b && Text.Lower(w) == word
  }

  lemma SpellsExactly(s: string, word: string)
    ensures Text.Contains(Text.Lower(s), word) <==> Spells(s, word)
  {
    Text.ContainsExactly(Text.Lower(s), word);
    if a, b :| Text.Lower(s) == a + word + b {
      SpelledAt(s, a, word, b);
    }
    if a, w, b :| s == a + w + b && Text.Lower(w) == word {
      LowerParts(a, w, b);
    }
  }

  lemma LowerParts(a: string, w: string, b: string)
    ensures Text.Lower(a + w + b) == Text.Lower(a) + Text.Lower(w) + Text.Lower(b)
  {
  }

  lemma SpelledAt(s: string, a: string, word: string, b: string)
    requires Text.Lower(s) == a + word + b
    ensures Spells(s, word)
  {
    var start, w, rest := s[..|a|], s[|a|..|a| + |word|], s[|a| + |word|..];
    assert s == start + w + rest;
    assert Text.Lower(w) == (a + word + b)[|a|..|a| + |word|] == word;
  }

  /** A verdict counts as a machine's exactly when its source spells `whisper` or `auto`. */
  lemma MachineExactly(source: string)
    ensures IsMachine(source) <==> Spells(source, "whisper") || Spells(source, "auto")
  {
    SpellsExactly(source, "whisper");
    SpellsExactly(source, "auto");
  }

  /** The machine rows among the lookup's rows. */
  method CollectMachineRows(users: SeriesIntentLookup, sources: SeriesIntentLookup, ghost t: Table, ghost intents: Intents)
    returns (whisper: map<Path, string>)
    requires Mirrors(users, sources, t, intents)
    ensures forall p :: p in whisper <==> p in t && IsMachine(t[p].source)
    ensures forall p :: p in whisper ==> whisper[p] == t[p].lang
  {
    var scan := AnyOrder(users.base.Keys);
    whisper := map[];
    for i := 0 to |scan|
      invariant forall p :: p in whisper <==> p in scan[..i] && IsMachine(t[p].source)
      invariant forall p :: p in whisper ==> whisper[p] == t[p].lang
    {
      assert scan[..i + 1] == scan[..i] + [scan[i]];
      var source := sources.Get(scan[i]);
      if source.Some? && IsMachine(source.value) {
        whisper := whisper[scan[i] := users.base[scan[i]]];
      }
    }
    assert scan[..|scan|] == scan;
  }

  /** Machine rows leave the user lookup for a layer of their own; the intents stay. */
  method SplitMachineRows(users: SeriesIntentLookup, sources: SeriesIntentLookup, ghost t: Table, ghost intents: Intents)
    returns (whisper: map<Path, string>)
    requires Mirrors(users, sources, t, intents) && users != sources
    modifies users
    ensures forall p :: p in whisper <==> p in t && IsMachine(t[p].source)
    ensures forall p :: p in whisper ==> whisper[p] == t[p].lang
    ensures forall p :: p in users.base <==> p in t && !IsMachine(t[p].source)
    ensures forall p :: p in users.base ==> users.base[p] == t[p].lang
    ensures users.entries == old(users.entries)
  {
    whisper := CollectMachineRows(users, sources, t, intents);
    var rows := AnyOrder(whisper.Keys);
    ghost var before := users.base;
    for i := 0 to |rows|
      invariant users.entries == old(users.entries)
      invariant forall p :: p in users.base <==> p in before && p !in rows[..i]
      invariant forall p :: p in users.base ==> users.base[p] == before[p]
    {
      assert rows[..i + 1] == rows[..i] + [rows[i]];
      users.Pop(rows[i]);
    }
    assert rows[..|rows|] == rows;
  }

  /** What the classifier takes for a file: the user layer first, then the machine layer. */
  method EffectiveLanguage(users: SeriesIntentLookup, whisper: map<Path, string>, path: Path) returns (r: Option<string>)
    ensures r == if path == "" then None
                 else if users.Value(path).Some? then users.Value(path)
                 else if path in whisper then Some(Text.Lower(whisper[path]))
                 else None
  {
    if path != "" {
      var found := users.Contains(path);
      if found {
        r := users.Get(path);
        return;
      }
      if path in whisper {
        return Some(Text.Lower(whisper[path]));
      }
    }
    r := None;
  }

  /** The user's row, else the longest intent, else the machine's row. */
  ghost function Effective(t: Table, intents: Intents, path: Path): Option<string> {
    if path in t && !IsMachine(t[path].source) then Some(t[path].lang)
    else if q :| Inherits(intents, path, q) then Some(intents[q].lang)
    else if path in t then Some(Text.Lower(t[path].lang))
    else None
  }

  /** Build, split and classify: the whole pipeline gives exactly the effective language. */
  method ClassifyFile(store: AudioLangStore, path: Path) returns (r: Option<string>)
    ensures path != "" ==> r == Effective(store.verdicts, store.intents, path)
  {
    var users, sources := BuildVerificationLookup(store);
    ghost var t, intents := store.verdicts, store.intents;
    var whisper := SplitMachineRows(users, sources, t, intents);
    r := EffectiveLanguage(users, whisper, path);
    MatchIsInherited(users.entries, intents, IntentLang, path);
    InheritsUnique(intents, path);
  }

  ghost function GetLanguage(t: Table, intents: Intents, path: Path): Option<string> {
    match Answer(t, intents, path)
    case None => None
    case Some((lang, _)) => Some(lang)
  }

  /** The bulk answer and `get` differ only for a machine row: overruled by an intent, or not in lower case. */
  lemma EffectiveDiffersFromGet(t: Table, intents: Intents, path: Path)
    ensures Effective(t, intents, path) != GetLanguage(t, intents, path)
       <==> path in t && IsMachine(t[path].source)
            && (if q :| Inherits(intents, path, q) then intents[q].lang != t[path].lang
                else Text.Lower(t[path].lang) != t[path].lang)
  {
    InheritsUnique(intents, path);
  }

  /** A machine said English, the series was declared Danish: the build says Danish, `get` English. */
  lemma IntentOverrulesMachine()
    ensures var row := Verdict("en", "whisper", 1.0, 0.0, "single", "", Ids(None, None), Evidence(None, None, ""));
            var t, intents := map["TV/x" := row], map["TV/" := Intent("da", "user", 1.0, 0.0)];
            Effective(t, intents, "TV/x") == Some("da") && GetLanguage(t, intents, "TV/x") == Some("en")
  {
    var intents := map["TV/" := Intent("da", "user", 1.0, 0.0)];
    assert "TV/x"[..3] == "TV/";
    assert Inherits(intents, "TV/x", "TV/");
    InheritsUnique(intents, "TV/x");
    WhisperIsMachine();
  }

  lemma WhisperIsMachine()
    ensures IsMachine("whisper")
  {
    assert Text.Lower("whisper") == "whisper";
    assert "whisper"[0..] == "whisper";
  }
}
