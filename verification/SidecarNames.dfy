/**
 * Forced-sidecar names: the one writer and its three readers (the no-clobber gate, the coverage
 * scan, and the choice of a job's output).
 */
module SidecarNames {
  import opened Common
  import opened Text

  // ---------- writer ----------

  function ForcedSidecarName(stem: string, lang: string): string {
    stem + "." + lang + ".forced.srt"
  }

  /** The order an earlier release wrote. */
  function OldForcedSidecarName(stem: string, lang: string): string {
    stem + ".forced." + lang + ".srt"
  }

  // ---------- reader 1: is it the forced sidecar for this stem and language? ----------

  function Wanted(lang: string): set<string> {
    if Lower(lang) == "en" then {"en", "eng"} else {Lower(lang)}
  }

  predicate IsForcedSidecarFor(filename: string, stem: string, lang: string) {
    var name := AfterLast(filename, '/');
    EndsWith(Lower(name), ".srt")
    && var base := name[..|name| - 4];
       StartsWith(base, stem)
       && HasPart(Split(Lower(base[|stem|..]), '.'), {"forced"})
       && HasPart(Split(Lower(base[|stem|..]), '.'), Wanted(lang))
  }

  /** Some nonempty part is one of the words. */
  predicate HasPart(parts: seq<string>, words: set<string>) {
    exists i :: 0 <= i < |parts| && parts[i] != "" && parts[i] in words
  }

  // ---------- reader 2: which languages do the sidecars cover? ----------

  /** Split on dots and hyphens alike. */
  function Tokens(s: string): seq<string> {
    Split(seq(|s|, i requires 0 <= i < |s| => if s[i] == '-' then '.' else s[i]), '.')
  }

  /** The tokens of a sidecar that counts as coverage; none for a forced sidecar or another file. */
  function CoverageTokens(path: string): Option<seq<string>> {
    var name := Lower(AfterLast(path, '/'));
    if !EndsWith(name, ".srt") then None
    else if "forced" in Tokens(name[..|name| - 4]) then None
    else Some(Tokens(name[..|name| - 4]))
  }

  /** `langOf` reads the language off the tokens. */
  function LangOr(tokens: seq<string>, langOf: seq<string> -> Option<string>): string {
    if langOf(tokens).Some? then langOf(tokens).value else "und"
  }

  /** The languages the sidecars cover. */
  function Covered(sidecars: seq<string>, langOf: seq<string> -> Option<string>): set<string> {
    set p | p in sidecars && CoverageTokens(p).Some? :: LangOr(CoverageTokens(p).value, langOf)
  }

  lemma CoveredSnoc(sidecars: seq<string>, p: string, langOf: seq<string> -> Option<string>)
    ensures Covered(sidecars + [p], langOf) == Covered(sidecars, langOf)
         + (if CoverageTokens(p).Some? then {LangOr(CoverageTokens(p).value, langOf)} else {})
  {
  }

  method LangsInSidecars(sidecars: seq<string>, langOf: seq<string> -> Option<string>) returns (langs: set<string>)
    ensures langs == Covered(sidecars, langOf)
  {
    langs := {};
    for i := 0 to |sidecars|
      invariant langs == Covered(sidecars[..i], langOf)
    {
      assert sidecars[..i + 1] == sidecars[..i] + [sidecars[i]];
      CoveredSnoc(sidecars[..i], sidecars[i], langOf);
      var name := Lower(AfterLast(sidecars[i], '/'));
      if !EndsWith(name, ".srt") {
        continue;
      }
      var tokens := Tokens(name[..|name| - 4]);
      if "forced" in tokens {
        continue;
      }
      langs := langs + {LangOr(tokens, langOf)};
    }
    assert sidecars[..|sidecars|] == sidecars;
  }

  // ---------- reader 3: which sidecar did the job write? ----------

  const MTIME_SLACK := 300.0

  /** The names modified late enough; a file whose time cannot be read is not fresh. */
  method FreshNames(names: seq<string>, mtime: string -> Option<real>, since: real) returns (freshNames: set<string>)
    ensures freshNames == set n | n in names && mtime(n).Some? && mtime(n).value >= since - 300.0
  {
    freshNames := {};
    var cutoff := since - MTIME_SLACK;
    for i := 0 to |names|
      invariant freshNames == set n | n in names[..i] && mtime(n).Some? && mtime(n).value >= cutoff
    {
      assert names[..i + 1] == names[..i] + [names[i]];
      var t := mtime(names[i]);
      if t.Some? && t.value >= cutoff {
        freshNames := freshNames + {names[i]};
      }
    }
    assert names[..|names|] == names;
  }

  function Filter(names: seq<string>, p: string -> bool): seq<string> {
    if names == [] then []
    else (if p(names[0]) then [names[0]] else []) + Filter(names[1..], p)
  }

  predicate IsSibling(stem: string, name: string) {
    StartsWith(name, stem + ".") && EndsWith(Lower(name), ".srt")
  }

  function Siblings(stem: string, names: seq<string>): seq<string> {
    Filter(names, n => IsSibling(stem, n))
  }

  /** The siblings that compete: the fresh ones if there are any, else all. */
  function Candidates(stem: string, names: seq<string>, freshNames: set<string>): seq<string> {
    var recent := Filter(Siblings(stem, names), n => n in freshNames);
    if recent != [] then recent else Siblings(stem, names)
  }

  function Tail(stem: string, name: string): string {
    if |stem| <= |name| then Lower(name[|stem|..]) else ""
  }

  predicate IsForced(stem: string, name: string) {
    Contains(Tail(stem, name), ".forced.")
  }

  function Rank(stem: string, name: string): nat {
    var tail := Tail(stem, name);
    var subgen := Contains(tail, ".subgen.");
    var english := Contains(tail, ".en.") || Contains(tail, ".eng.");
    if IsForced(stem, name) then 4
    else if subgen && english then 1
    else if subgen then 2
    else 3
  }

  /** By rank, then by name. */
  predicate Before(stem: string, a: string, b: string) {
    Rank(stem, a) < Rank(stem, b) || (Rank(stem, a) == Rank(stem, b) && Le(a, b))
  }

  function MinBy(stem: string, names: seq<string>): string
    requires names != []
  {
    if |names| == 1 then names[0]
    else
      var m := MinBy(stem, names[..|names| - 1]);
      if Before(stem, m, names[|names| - 1]) then m else names[|names| - 1]
  }

  function ChooseSrtSidecar(stem: string, names: seq<string>, freshNames: set<string>): Option<string> {
    var candidates := Candidates(stem, names, freshNames);
    if candidates == [] then None
    else if stem + ".en.srt" in candidates then Some(stem + ".en.srt")
    else Some(MinBy(stem, candidates))
  }

  // ---------- the gate recognises what the writer writes ----------

  lemma {:induction false} AfterLastOf(a: string, b: string, c: char)
    requires c !in b
    ensures AfterLast(a + b, c) == AfterLast(a, c) + b
  {
    if b == "" {
      assert a + b == a;
    } else {
      var front, last := b[..|b| - 1], b[|b| - 1];
      assert b == front + [last];
      assert last in b;
      AfterLastOf(a, front, c);
      assert (a + b)[..|a + b| - 1] == a + front;
    }
  }

  lemma {:induction false} AfterLastWhole(a: string, c: char)
    ensures c !in a ==> AfterLast(a, c) == a
    ensures c !in AfterLast(a, c)
  {
    if a != "" {
      AfterLastWhole(a[..|a| - 1], c);
      assert a == a[..|a| - 1] + [a[|a| - 1]];
    }
  }

  lemma LowerParts(a: string, b: string)
    ensures Lower(a + b) == Lower(a) + Lower(b)
  {
  }

  lemma LowerKeeps(s: string, c: char)
    requires c in "./"
    ensures c in Lower(s) <==> c in s
  {
    if c in s {
      var i :| 0 <= i < |s| && s[i] == c;
      assert Lower(s)[i] == c;
    }
    if c in Lower(s) {
      var i :| 0 <= i < |s| && Lower(s)[i] == c;
      assert s[i] == c;
    }
  }

  lemma SplitWritten(lang: string)
    ensures Split("." + lang + ".forced", '.') == [""] + Split(lang, '.') + ["forced"]
  {
    var rest := lang + ".forced";
    assert "." + lang + ".forced" == "" + ['.'] + rest && rest == lang + ['.'] + "forced";
    SplitAround("", rest, '.');
    SplitAround(lang, "forced", '.');
    SplitWhole("", '.');
    SplitWhole("forced", '.');
  }

  lemma SplitOldWritten(lang: string)
    ensures Split(".forced." + lang, '.') == ["", "forced"] + Split(lang, '.')
  {
    var rest := "forced." + lang;
    assert ".forced." + lang == "" + ['.'] + rest && rest == "forced" + ['.'] + lang;
    SplitAround("", rest, '.');
    SplitAround("forced", lang, '.');
    SplitWhole("", '.');
    SplitWhole("forced", '.');
  }

  /** A code the gate can find again: nonempty, without dots and slashes. */
  predicate PlainCode(lang: string) {
    lang != "" && '.' !in lang && '/' !in lang
  }

  /** Words between the dots of a language part: the wanted code is among them exactly when it is one word. */
  lemma WantedPart(lang: string)
    requires '/' !in lang
    ensures HasPart(Split(Lower(lang), '.'), Wanted(lang)) <==> PlainCode(lang)
    ensures PlainCode(lang) ==> Split(Lower(lang), '.') == [Lower(lang)]
  {
    LowerKeeps(lang, '.');
    if '.' !in lang {
      SplitWhole(Lower(lang), '.');
      assert Split(Lower(lang), '.')[0] == Lower(lang);
    } else {
      SplitParts(Lower(lang), '.');
      assert Lower(lang) != "en";
    }
  }

  lemma HasPartAppend(a: seq<string>, b: seq<string>, words: set<string>)
    ensures HasPart(a + b, words) <==> HasPart(a, words) || HasPart(b, words)
  {
    if HasPart(a, words) {
      var i :| 0 <= i < |a| && a[i] != "" && a[i] in words;
      assert (a + b)[i] in words;
    }
    if HasPart(b, words) {
      var i :| 0 <= i < |b| && b[i] != "" && b[i] in words;
      assert (a + b)[|a| + i] in words;
    }
  }

  lemma OnePart(part: string, words: set<string>)
    ensures HasPart([part], words) <==> part != "" && part in words
  {
    assert [part][0] == part;
  }

  /** The parts after the stem, in either order of the two tokens: both are found exactly for a plain code. */
  lemma TailRecognised(lang: string)
    requires '/' !in lang
    ensures var parts := Split(Lower("." + lang + ".forced"), '.');
      HasPart(parts, {"forced"}) && (HasPart(parts, Wanted(lang)) <==> PlainCode(lang))
  {
    var parts := Split(Lower("." + lang + ".forced"), '.');
    LowerParts("." + lang, ".forced");
    LowerParts(".", lang);
    assert Lower(".") == "." && Lower(".forced") == ".forced";
    SplitWritten(Lower(lang));
    WantedPart(lang);
    LowerKeeps(lang, '.');
    HasPartAppend([""] + Split(Lower(lang), '.'), ["forced"], Wanted(lang));
    HasPartAppend([""], Split(Lower(lang), '.'), Wanted(lang));
    OnePart("", Wanted(lang));
    OnePart("forced", Wanted(lang));
    assert parts[|parts| - 1] == "forced";
    assert Lower(lang) == "forced" ==> PlainCode(lang);
  }

  lemma OldTailRecognised(lang: string)
    requires '/' !in lang
    ensures var parts := Split(Lower(".forced." + lang), '.');
      HasPart(parts, {"forced"}) && (HasPart(parts, Wanted(lang)) <==> PlainCode(lang))
  {
    var parts := Split(Lower(".forced." + lang), '.');
    LowerParts(".forced.", lang);
    assert Lower(".forced.") == ".forced.";
    SplitOldWritten(Lower(lang));
    WantedPart(lang);
    LowerKeeps(lang, '.');
    HasPartAppend(["", "forced"], Split(Lower(lang), '.'), Wanted(lang));
    assert ["", "forced"] == [""] + ["forced"];
    HasPartAppend([""], ["forced"], Wanted(lang));
    OnePart("", Wanted(lang));
    OnePart("forced", Wanted(lang));
    assert parts[1] == "forced";
  }

  lemma PrefixHolds(s: string, prefix: string, c: char)
    ensures StartsWith(s, prefix) && c in prefix ==> c in s
  {
    if StartsWith(s, prefix) && c in prefix {
      var i :| 0 <= i < |prefix| && prefix[i] == c;
      assert s[i] == c;
    }
  }

  /** What the gate reads from a bare name. */
  predicate TailIsForced(tail: string, lang: string) {
    HasPart(Split(Lower(tail), '.'), {"forced"}) && HasPart(Split(Lower(tail), '.'), Wanted(lang))
  }

  lemma EndsWithSrt(base: string)
    ensures EndsWith(Lower(base + ".srt"), ".srt")
  {
    LowerParts(base, ".srt");
    assert Lower(".srt") == ".srt";
  }

  lemma GateReadsName(filename: string, base: string, stem: string, lang: string)
    requires AfterLast(filename, '/') == base + ".srt"
    ensures IsForcedSidecarFor(filename, stem, lang) <==> StartsWith(base, stem) && TailIsForced(base[|stem|..], lang)
  {
    var name := base + ".srt";
    EndsWithSrt(base);
    assert name[..|name| - 4] == base;
  }

  /** What the gate reads from `stem + tail + ".srt"`, when nothing in it is cut off at a slash. */
  lemma GateReadsTail(stem: string, tail: string, lang: string)
    requires '/' !in tail
    ensures IsForcedSidecarFor(stem + tail + ".srt", stem, lang) <==> '/' !in stem && TailIsForced(tail, lang)
  {
    Assoc(stem, tail, ".srt");
    assert '/' !in ".srt";
    AfterLastOf(stem, tail + ".srt", '/');
    AfterLastWhole(stem, '/');
    var base := AfterLast(stem, '/') + tail;
    Assoc(AfterLast(stem, '/'), tail, ".srt");
    GateReadsName(stem + tail + ".srt", base, stem, lang);
    PrefixHolds(base, stem, '/');
    if '/' !in stem {
      assert base[|stem|..] == tail;
    }
  }

  lemma {:induction false} PartsHold(s: string, c: char, d: char)
    ensures forall i :: 0 <= i < |Split(s, c)| && d in Split(s, c)[i] ==> d in s
  {
    if s != "" {
      PartsHold(s[1..], c, d);
      assert s == [s[0]] + s[1..];
    }
  }

  /** No file name is the forced sidecar of a code with a slash. */
  lemma SlashedCodeIsNeverFound(filename: string, stem: string, lang: string)
    requires '/' in lang
    ensures !IsForcedSidecarFor(filename, stem, lang)
  {
    var name := AfterLast(filename, '/');
    AfterLastWhole(filename, '/');
    LowerKeeps(lang, '/');
    assert Wanted(lang) == {Lower(lang)};
    if EndsWith(Lower(name), ".srt") && StartsWith(name[..|name| - 4], stem) {
      var tail := name[..|name| - 4][|stem|..];
      LowerKeeps(tail, '/');
      assert forall c :: c in tail ==> c in name;
      PartsHold(Lower(tail), '.', '/');
    }
  }

  /**
   * Write one form, read either: the gate recognises the written name, and the name in the old
   * token order, exactly when the stem has no slash and the code is nonempty, without dots or slashes.
   */
  lemma WrittenNameIsRecognised(stem: string, lang: string)
    ensures IsForcedSidecarFor(ForcedSidecarName(stem, lang), stem, lang) <==> '/' !in stem && PlainCode(lang)
    ensures IsForcedSidecarFor(OldForcedSidecarName(stem, lang), stem, lang) <==> '/' !in stem && PlainCode(lang)
  {
    if '/' in lang {
      SlashedCodeIsNeverFound(ForcedSidecarName(stem, lang), stem, lang);
      SlashedCodeIsNeverFound(OldForcedSidecarName(stem, lang), stem, lang);
    } else {
      var tail, oldTail := "." + lang + ".forced", ".forced." + lang;
      assert ForcedSidecarName(stem, lang) == stem + tail + ".srt";
      assert OldForcedSidecarName(stem, lang) == stem + oldTail + ".srt";
      GateReadsTail(stem, tail, lang);
      GateReadsTail(stem, oldTail, lang);
      TailRecognised(lang);
      OldTailRecognised(lang);
    }
  }

  lemma WordInTails(word: string, words: set<string>)
    requires word != "" && '.' !in word && word in words
    ensures HasPart(Split("." + word + ".forced", '.'), {"forced"}) && HasPart(Split("." + word + ".forced", '.'), words)
    ensures HasPart(Split(".forced." + word, '.'), {"forced"}) && HasPart(Split(".forced." + word, '.'), words)
  {
    SplitWritten(word);
    SplitOldWritten(word);
    SplitWhole(word, '.');
    var parts, oldParts := [""] + [word] + ["forced"], ["", "forced"] + [word];
    assert parts[1] == word && parts[2] == "forced";
    assert oldParts[2] == word && oldParts[1] == "forced";
  }

  /** Asked about one code, the gate finds any name written for a code it wants: for English, also `eng`. */
  lemma WantedCodeIsRecognised(stem: string, code: string, lang: string)
    requires PlainCode(code) && Lower(code) in Wanted(lang) && '/' !in stem
    ensures IsForcedSidecarFor(ForcedSidecarName(stem, code), stem, lang)
    ensures IsForcedSidecarFor(OldForcedSidecarName(stem, code), stem, lang)
  {
    var tail, oldTail := "." + code + ".forced", ".forced." + code;
    assert ForcedSidecarName(stem, code) == stem + tail + ".srt";
    assert OldForcedSidecarName(stem, code) == stem + oldTail + ".srt";
    GateReadsTail(stem, tail, lang);
    GateReadsTail(stem, oldTail, lang);
    LowerKeeps(code, '.');
    LowerTails(code);
    WordInTails(Lower(code), Wanted(lang));
  }

  lemma LowerTails(code: string)
    ensures Lower("." + code + ".forced") == "." + Lower(code) + ".forced"
    ensures Lower(".forced." + code) == ".forced." + Lower(code)
  {
    LowerParts("." + code, ".forced");
    LowerParts(".", code);
    LowerParts(".forced.", code);
    assert Lower(".") == "." && Lower(".forced") == ".forced" && Lower(".forced.") == ".forced.";
  }

  // ---------- a forced sidecar is no coverage ----------

  function Dotted(s: string): string {
    seq(|s|, i requires 0 <= i < |s| => if s[i] == '-' then '.' else s[i])
  }

  lemma TokensAround(a: string, b: string)
    ensures Tokens(a + "." + b) == Tokens(a) + Tokens(b)
  {
    assert Dotted(a + "." + b) == Dotted(a) + ['.'] + Dotted(b);
    SplitAround(Dotted(a), Dotted(b), '.');
  }

  lemma TokensOfForced()
    ensures Tokens("forced") == ["forced"]
  {
    assert Dotted("forced") == "forced";
    SplitWhole("forced", '.');
  }

  /** A name that says `forced` between two dots counts for no language. */
  lemma ForcedTokenIsNoCoverage(path: string, before: string, after: string)
    requires Lower(AfterLast(path, '/')) == before + ".forced" + after + ".srt"
    requires after == "" || after[0] == '.'
    ensures CoverageTokens(path).None?
  {
    var name := Lower(AfterLast(path, '/'));
    assert name[..|name| - 4] == before + ".forced" + after;
    TokensOfForced();
    if after == "" {
      assert before + ".forced" + after == before + "." + "forced";
      TokensAround(before, "forced");
      assert Tokens(before + "." + "forced")[|Tokens(before)|] == "forced";
    } else {
      var rest := "forced" + "." + after[1..];
      assert before + ".forced" + after == before + "." + rest;
      TokensAround(before, rest);
      TokensAround("forced", after[1..]);
      assert (Tokens(before) + (["forced"] + Tokens(after[1..])))[|Tokens(before)|] == "forced";
    }
  }

  lemma NewNameIsNoCoverage(stem: string, lang: string)
    ensures CoverageTokens(ForcedSidecarName(stem, lang)).None?
  {
    var front := stem + "." + lang;
    assert ForcedSidecarName(stem, lang) == front + ".forced.srt";
    assert '/' !in ".forced.srt";
    AfterLastOf(front, ".forced.srt", '/');
    var before := AfterLast(front, '/');
    LowerParts(before, ".forced.srt");
    assert Lower(".forced.srt") == ".forced.srt";
    assert Lower(before) + ".forced.srt" == Lower(before) + ".forced" + "" + ".srt";
    ForcedTokenIsNoCoverage(ForcedSidecarName(stem, lang), Lower(before), "");
  }

  /**
   * The written name is never counted as coverage.  Neither is the old form, unless its code holds a
   * slash and what follows the last one does not say `forced`.
   */
  lemma WrittenNameIsNoCoverage(stem: string, lang: string)
    ensures CoverageTokens(ForcedSidecarName(stem, lang)).None?
    ensures CoverageTokens(OldForcedSidecarName(stem, lang)).None?
       <==> '/' !in lang || "forced" in Tokens(Lower(AfterLast(lang, '/')))
  {
    NewNameIsNoCoverage(stem, lang);
    if '/' !in lang {
      OldNameIsNoCoverage(stem, lang);
    } else {
      OldNameCutAtSlash(stem, lang);
    }
  }

  lemma LowerOldTail(before: string, lang: string)
    ensures Lower(before + (".forced." + lang + ".srt")) == Lower(before) + ".forced" + ("." + Lower(lang)) + ".srt"
  {
    LowerParts(before, ".forced." + lang + ".srt");
    LowerParts(".forced." + lang, ".srt");
    LowerParts(".forced.", lang);
    assert Lower(".forced.") == ".forced" + "." && Lower(".srt") == ".srt";
  }

  lemma OldNameIsNoCoverage(stem: string, lang: string)
    requires '/' !in lang
    ensures CoverageTokens(OldForcedSidecarName(stem, lang)).None?
  {
    var back := ".forced." + lang + ".srt";
    assert OldForcedSidecarName(stem, lang) == stem + back;
    assert '/' !in ".forced." && '/' !in ".srt";
    AfterLastOf(stem, back, '/');
    LowerOldTail(AfterLast(stem, '/'), lang);
    ForcedTokenIsNoCoverage(OldForcedSidecarName(stem, lang), Lower(AfterLast(stem, '/')), "." + Lower(lang));
  }

  lemma {:induction false} AfterLastIn(a: string, b: string, c: char)
    requires c in b
    ensures AfterLast(a + b, c) == AfterLast(b, c)
  {
    if b[|b| - 1] != c {
      var front := b[..|b| - 1];
      assert b == front + [b[|b| - 1]];
      AfterLastIn(a, front, c);
      assert (a + b)[..|a + b| - 1] == a + front;
    }
  }

  lemma OldNameCutAtSlash(stem: string, lang: string)
    requires '/' in lang
    ensures CoverageTokens(OldForcedSidecarName(stem, lang)).None? <==> "forced" in Tokens(Lower(AfterLast(lang, '/')))
  {
    assert '/' !in ".srt";
    AfterLastOf(stem + ".forced." + lang, ".srt", '/');
    AfterLastIn(stem + ".forced.", lang, '/');
    var base := AfterLast(lang, '/');
    LowerParts(base, ".srt");
    assert Lower(".srt") == ".srt";
    assert (Lower(base) + ".srt")[..|base|] == Lower(base);
  }

  /** Writing a forced sidecar leaves the covered languages as they were. */
  lemma ForcedSidecarAddsNoCoverage(sidecars: seq<string>, stem: string, lang: string, langOf: seq<string> -> Option<string>)
    ensures Covered(sidecars + [ForcedSidecarName(stem, lang)], langOf) == Covered(sidecars, langOf)
  {
    WrittenNameIsNoCoverage(stem, lang);
    CoveredSnoc(sidecars, ForcedSidecarName(stem, lang), langOf);
  }

  // ---------- where gate and scan part ways ----------

  function Front(parts: seq<string>): seq<string>
    requires |parts| > 0
  {
    parts[..|parts| - 1]
  }

  function Last(parts: seq<string>): string
    requires |parts| > 0
  {
    parts[|parts| - 1]
  }

  /** Text without the separator is glued to the last part. */
  lemma {:induction false} SplitGlue(a: string, b: string, c: char)
    requires c !in b
    ensures Split(a + b, c) == Front(Split(a, c)) + [Last(Split(a, c)) + b]
  {
    if a == "" {
      assert a + b == b;
      SplitWhole(b, c);
    } else {
      var x, rest := a[0], a[1..];
      SplitGlue(rest, b, c);
      assert a == [x] + rest;
      ConsAppend(x, rest, b);
      SplitCons(x, rest + b, c);
      SplitCons(x, rest, c);
      HeadedGlue(x, Split(rest, c), b, c);
    }
  }

  lemma HeadedGlue(x: char, parts: seq<string>, b: string, c: char)
    requires |parts| > 0
    ensures Headed(x, Front(parts) + [Last(parts) + b], c) == Front(Headed(x, parts, c)) + [Last(Headed(x, parts, c)) + b]
  {
    if x != c && |parts| == 1 {
      assert parts == [parts[0]];
      assert [x] + (parts[0] + b) == ([x] + parts[0]) + b;
    }
  }

  /** The last part is empty exactly when the text is, or ends in the separator. */
  lemma {:induction false} LastPartEmpty(s: string, c: char)
    ensures Last(Split(s, c)) == "" <==> s == "" || s[|s| - 1] == c
  {
    if s != "" {
      var x, front := s[|s| - 1], s[..|s| - 1];
      assert s == front + [x];
      if x == c {
        assert s == front + [c] + "";
        SplitAround(front, "", c);
        SplitWhole("", c);
      } else {
        SplitGlue(front, [x], c);
      }
    }
  }

  lemma TokensGlue(a: string, b: string)
    requires '.' !in b && '-' !in b
    ensures Tokens(a + b) == Front(Tokens(a)) + [Last(Tokens(a)) + b]
    ensures Last(Tokens(a)) == "" <==> a == "" || a[|a| - 1] in ".-"
  {
    forall i | 0 <= i < |b| ensures Dotted(b)[i] == b[i] {
      assert b[i] in b;
    }
    assert Dotted(b) == b && Dotted(a + b) == Dotted(a) + Dotted(b);
    SplitGlue(Dotted(a), b, '.');
    LastPartEmpty(Dotted(a), '.');
  }

  /** No token says `forced`. */
  predicate NoForced(tokens: seq<string>) { "forced" !in tokens }

  /**
   * What the gate sees as `forced` is only the end of the stem's own last word: the tail begins with
   * it, the stem ends in a letter, and no other token of the name says it.
   */
  predicate ForcedOnlyGlued(stem: string, tail: string) {
    && stem != "" && stem[|stem| - 1] !in ".-"
    && Split(tail, '.')[0] == "forced" && StartsWith(tail, "forced")
    && NoForced(Front(Tokens(stem))) && NoForced(Tokens(tail[|"forced"|..]))
  }

  /** The first part of a split is how the text begins. */
  lemma {:induction false} FirstPart(s: string, c: char)
    ensures |Split(s, c)[0]| <= |s| && s[..|Split(s, c)[0]|] == Split(s, c)[0]
    ensures |Split(s, c)[0]| < |s| ==> s[|Split(s, c)[0]|] == c
    ensures |Split(s, c)[0]| < |s| ==> Split(s, c) == [Split(s, c)[0]] + Split(s[|Split(s, c)[0]| + 1..], c)
    ensures |Split(s, c)[0]| == |s| ==> Split(s, c) == [s]
  {
    if s != "" && s[0] != c {
      FirstPart(s[1..], c);
      var first := Split(s[1..], c)[0];
      assert s == [s[0]] + s[1..];
      assert s[1..][|first|..] == s[|first| + 1..];
      if |first| < |s| - 1 {
        assert s[1..][|first| + 1..] == s[|first| + 2..];
      }
    }
  }

  lemma TokensBothSides(a: string, b: string)
    ensures "forced" in Tokens(a + "." + b) <==> "forced" in Tokens(a) || "forced" in Tokens(b)
  {
    TokensAround(a, b);
  }

  /** A part between dots is made of whole tokens. */
  lemma {:induction false} PartIsToken(s: string)
    requires "forced" in Split(s, '.')
    ensures "forced" in Tokens(s)
    decreases |s|
  {
    FirstPart(s, '.');
    TokensOfForced();
    var first := Split(s, '.')[0];
    if |first| < |s| {
      var rest := s[|first| + 1..];
      assert s == first + "." + rest;
      TokensBothSides(first, rest);
      if first != "forced" {
        assert Split(s, '.') == [first] + Split(rest, '.');
        PartIsToken(rest);
      }
    }
  }

  /** A part after the first is a token whatever stands before the text. */
  lemma LaterPartIsToken(stem: string, tail: string)
    requires "forced" in Split(tail, '.')[1..]
    ensures "forced" in Tokens(stem + tail)
  {
    FirstPart(tail, '.');
    var first := Split(tail, '.')[0];
    var rest := tail[|first| + 1..];
    assert tail == first + "." + rest;
    assert stem + tail == (stem + first) + "." + rest;
    TokensAround(stem + first, rest);
    PartIsToken(rest);
  }

  lemma TokensOfGlued(stem: string, rest: string)
    requires rest == "" || rest[0] == '.'
    ensures NoForced(Tokens(stem + "forced" + rest))
       <==> NoForced(Front(Tokens(stem)) + [Last(Tokens(stem)) + "forced"]) && NoForced(Tokens(rest))
  {
    TokensGlue(stem, "forced");
    if rest == "" {
      assert stem + "forced" + "" == stem + "forced";
      assert Tokens("") == [""];
    } else {
      var after := rest[1..];
      assert rest == "" + "." + after;
      assert stem + "forced" + rest == (stem + "forced") + "." + after;
      TokensAround(stem + "forced", after);
      TokensAround("", after);
      assert Tokens("") == [""];
    }
  }

  /** A word with `forced` glued on is `forced` only if it was empty. */
  lemma GluedWord(word: string)
    ensures word + "forced" == "forced" <==> word == ""
  {
    assert word + "forced" == "forced" ==> |word + "forced"| == |"forced"|;
  }

  lemma NoForcedSnoc(words: seq<string>, word: string)
    ensures NoForced(words + [word]) <==> NoForced(words) && word != "forced"
  {
  }

  lemma GluedWhole(stem: string, rest: string)
    requires rest == "" || rest[0] == '.'
    ensures NoForced(Tokens(stem + "forced" + rest))
       <==> NoForced(Front(Tokens(stem))) && stem != "" && stem[|stem| - 1] !in ".-" && NoForced(Tokens(rest))
  {
    TokensOfGlued(stem, rest);
    TokensGlue(stem, "forced");
    GluedWord(Last(Tokens(stem)));
    NoForcedSnoc(Front(Tokens(stem)), Last(Tokens(stem)) + "forced");
  }

  lemma GluedTail(stem: string, tail: string)
    requires Split(tail, '.')[0] == "forced"
    ensures NoForced(Tokens(stem + tail)) <==> ForcedOnlyGlued(stem, tail)
  {
    FirstPart(tail, '.');
    var rest := tail[|"forced"|..];
    assert tail == "forced" + rest;
    Assoc(stem, "forced", rest);
    GluedWhole(stem, rest);
  }

  /** The name's part before `.srt`, in lower case, after the stem. */
  function GateTail(filename: string, stem: string): string
    requires |stem| + 4 <= |AfterLast(filename, '/')|
  {
    var name := AfterLast(filename, '/');
    Lower(name[..|name| - 4][|stem|..])
  }

  lemma GateMeetsScan(filename: string, stem: string, lang: string)
    requires IsForcedSidecarFor(filename, stem, lang)
    ensures |stem| + 4 <= |AfterLast(filename, '/')|
    ensures "forced" in Split(GateTail(filename, stem), '.')
    ensures CoverageTokens(filename).Some? <==> NoForced(Tokens(Lower(stem) + GateTail(filename, stem)))
  {
    var name := AfterLast(filename, '/');
    var base := name[..|name| - 4];
    assert base == stem + base[|stem|..];
    LowerParts(stem, base[|stem|..]);
    assert Lower(name)[..|name| - 4] == Lower(base);
    var parts := Split(GateTail(filename, stem), '.');
    var i :| 0 <= i < |parts| && parts[i] != "" && parts[i] in {"forced"};
    assert parts[i] == "forced";
  }

  /**
   * Of the names the gate accepts, the coverage scan still counts exactly those whose only `forced`
   * is glued to a stem that does not end in a separator.
   */
  lemma GateLooserExactly(filename: string, stem: string, lang: string)
    requires IsForcedSidecarFor(filename, stem, lang)
    ensures |stem| + 4 <= |AfterLast(filename, '/')|
    ensures CoverageTokens(filename).Some? <==> ForcedOnlyGlued(Lower(stem), GateTail(filename, stem))
  {
    GateMeetsScan(filename, stem, lang);
    var tail := GateTail(filename, stem);
    var parts := Split(tail, '.');
    if parts[0] == "forced" {
      GluedTail(Lower(stem), tail);
    } else {
      assert parts == [parts[0]] + parts[1..];
      LaterPartIsToken(Lower(stem), tail);
    }
  }

  /** A name of the form `stemforced.lang.srt`. */
  function GluedName(stem: string, lang: string): string {
    stem + ("forced." + lang) + ".srt"
  }

  lemma SplitGlued(lang: string)
    requires '.' !in lang
    ensures Split("forced" + ['.'] + Lower(lang), '.') == ["forced", Lower(lang)]
  {
    LowerKeeps(lang, '.');
    SplitAround("forced", Lower(lang), '.');
    SplitWhole("forced", '.');
    SplitWhole(Lower(lang), '.');
  }

  lemma GluedForcedPasses(stem: string, lang: string)
    requires '/' !in stem && PlainCode(lang)
    ensures IsForcedSidecarFor(GluedName(stem, lang), stem, lang)
  {
    GateReadsTail(stem, "forced." + lang, lang);
    LowerParts("forced.", lang);
    assert Lower("forced.") == "forced" + ['.'];
    SplitGlued(lang);
    var parts := ["forced", Lower(lang)];
    assert parts[0] == "forced" && parts[1] == Lower(lang);
  }

  /** Letters only, as far as the separators go. */
  predicate OneToken(s: string) {
    s != "" && '.' !in s && '-' !in s && '/' !in s
  }

  lemma TokensOfOne(s: string)
    requires OneToken(s)
    ensures Tokens(Lower(s)) == [Lower(s)]
  {
    LowerKeeps(s, '.');
    forall i | 0 <= i < |s| ensures Lower(s)[i] != '-' {
      assert s[i] in s;
    }
    assert Dotted(Lower(s)) == Lower(s);
    SplitWhole(Lower(s), '.');
  }

  lemma LowerGlued(stem: string, lang: string)
    ensures Lower(GluedName(stem, lang)) == Lower(stem + "forced") + "." + Lower(lang) + ".srt"
  {
    assert stem + ("forced." + lang) + ".srt" == (stem + "forced") + "." + lang + ".srt" by {
      assert "forced." == "forced" + ".";
    }
    LowerParts((stem + "forced") + "." + lang, ".srt");
    LowerParts((stem + "forced") + ".", lang);
    LowerParts(stem + "forced", ".");
    assert Lower(".srt") == ".srt" && Lower(".") == ".";
  }

  lemma GluedTokens(stem: string, lang: string)
    requires OneToken(stem) && OneToken(lang)
    ensures var tokens := Tokens(Lower(stem + "forced") + "." + Lower(lang));
      tokens == [Lower(stem + "forced"), Lower(lang)] && tokens[0] != "forced"
  {
    assert OneToken("forced");
    TokensAround(Lower(stem + "forced"), Lower(lang));
    TokensOfOne(stem + "forced");
    TokensOfOne(lang);
    assert |Lower(stem + "forced")| > |"forced"|;
  }

  /** Such names exist for every one-word stem and code: they pass the gate and are still counted. */
  lemma GluedForcedCounts(stem: string, lang: string)
    requires OneToken(stem) && OneToken(lang) && Lower(lang) != "forced"
    ensures IsForcedSidecarFor(GluedName(stem, lang), stem, lang)
    ensures CoverageTokens(GluedName(stem, lang)) == Some([Lower(stem + "forced"), Lower(lang)])
  {
    GluedForcedPasses(stem, lang);
    GluedTokens(stem, lang);
    GluedHasNoSlash(stem, lang);
    AfterLastWhole(GluedName(stem, lang), '/');
    LowerGlued(stem, lang);
    var name := Lower(GluedName(stem, lang));
    assert name[..|name| - 4] == Lower(stem + "forced") + "." + Lower(lang);
  }

  lemma GluedHasNoSlash(stem: string, lang: string)
    requires '/' !in stem && '/' !in lang
    ensures '/' !in GluedName(stem, lang)
  {
    assert '/' !in "forced." && '/' !in ".srt";
  }

  // ---------- a forced sidecar is the last resort ----------

  lemma {:induction false} FilterHolds(names: seq<string>, p: string -> bool, n: string)
    ensures n in Filter(names, p) <==> n in names && p(n)
  {
    if names != [] {
      FilterHolds(names[1..], p, n);
      assert names == [names[0]] + names[1..];
    }
  }

  lemma CandidateIs(stem: string, names: seq<string>, freshNames: set<string>, n: string)
    ensures n in Candidates(stem, names, freshNames)
       <==> n in names && IsSibling(stem, n)
            && (n in freshNames || forall o :: o in names && IsSibling(stem, o) ==> o !in freshNames)
  {
    var siblings := Siblings(stem, names);
    var recent := Filter(siblings, n => n in freshNames);
    forall o ensures o in siblings <==> o in names && IsSibling(stem, o) {
      FilterHolds(names, n => IsSibling(stem, n), o);
    }
    forall o ensures o in recent <==> o in siblings && o in freshNames {
      FilterHolds(siblings, n => n in freshNames, o);
    }
    if recent != [] {
      assert recent[0] in recent;
    }
  }

  lemma BeforeIsTotal(stem: string, a: string, b: string, c: string)
    ensures Before(stem, a, b) || Before(stem, b, a)
    ensures Before(stem, a, b) && Before(stem, b, a) ==> a == b
    ensures Before(stem, a, b) && Before(stem, b, c) ==> Before(stem, a, c)
  {
    LeTotal(a, b);
    if Le(a, b) && Le(b, a) {
      LeAntisymmetric(a, b);
    }
    if Le(a, b) && Le(b, c) {
      LeTransitive(a, b, c);
    }
  }

  lemma FirstOfAll(stem: string, m: string, front: seq<string>, last: string)
    requires forall n :: n in front ==> Before(stem, m, n)
    requires m in front
    ensures var first := if Before(stem, m, last) then m else last;
      first in front + [last] && forall n :: n in front + [last] ==> Before(stem, first, n)
  {
    BeforeIsTotal(stem, last, last, last);
    BeforeIsTotal(stem, m, last, last);
    forall n | n in front ensures Before(stem, m, last) || Before(stem, last, n) {
      BeforeIsTotal(stem, last, m, n);
    }
  }

  lemma {:induction false} MinByIsFirst(stem: string, names: seq<string>)
    requires names != []
    ensures MinBy(stem, names) in names
    ensures forall n :: n in names ==> Before(stem, MinBy(stem, names), n)
  {
    FrontLast(names);
    if |names| == 1 {
      BeforeIsTotal(stem, names[0], names[0], names[0]);
    } else {
      MinByIsFirst(stem, names[..|names| - 1]);
      FirstOfAll(stem, MinBy(stem, names[..|names| - 1]), names[..|names| - 1], names[|names| - 1]);
    }
  }

  lemma ContainsFits(s: string, part: string)
    ensures Contains(s, part) ==> |part| <= |s|
  {
  }

  lemma ExactIsNotForced(stem: string)
    ensures !IsForced(stem, stem + ".en.srt") && IsSibling(stem, stem + ".en.srt")
  {
    assert (stem + ".en.srt")[|stem|..] == ".en.srt";
    ContainsFits(Lower(".en.srt"), ".forced.");
    SrtSibling(stem, "en");
    assert stem + "." + "en" + ".srt" == stem + ".en.srt" by {
      assert "." + "en" + ".srt" == ".en.srt";
    }
  }

  lemma SomeCandidate(stem: string, names: seq<string>, freshNames: set<string>)
    ensures Candidates(stem, names, freshNames) == [] <==> !exists n :: n in names && IsSibling(stem, n)
  {
    var siblings := Siblings(stem, names);
    forall n ensures n in siblings <==> n in names && IsSibling(stem, n) {
      FilterHolds(names, n => IsSibling(stem, n), n);
    }
    if siblings != [] {
      assert siblings[0] in siblings;
    }
  }

  lemma ChosenIsFirst(stem: string, names: seq<string>, freshNames: set<string>)
    ensures var chosen, candidates := ChooseSrtSidecar(stem, names, freshNames), Candidates(stem, names, freshNames);
      && (chosen.None? <==> candidates == [])
      && (chosen.Some? ==> chosen.value in candidates)
      && (chosen.Some? && chosen.value != stem + ".en.srt" ==> forall n :: n in candidates ==> Before(stem, chosen.value, n))
  {
    if Candidates(stem, names, freshNames) != [] {
      MinByIsFirst(stem, Candidates(stem, names, freshNames));
    }
  }

  /**
   * There is a choice whenever a sibling exists; it is one of the candidates; and it is a forced
   * sidecar exactly when every candidate is forced.
   */
  lemma ForcedIsLastResort(stem: string, names: seq<string>, freshNames: set<string>)
    ensures var chosen, candidates := ChooseSrtSidecar(stem, names, freshNames), Candidates(stem, names, freshNames);
      && (chosen.None? <==> !exists n :: n in names && IsSibling(stem, n))
      && (chosen.Some? ==> chosen.value in candidates)
      && (chosen.Some? ==> (IsForced(stem, chosen.value) <==> forall n :: n in candidates ==> IsForced(stem, n)))
  {
    SomeCandidate(stem, names, freshNames);
    ChosenIsFirst(stem, names, freshNames);
    ExactIsNotForced(stem);
    ForcedAfterAllOthers(stem);
  }

  lemma ForcedAfterAllOthers(stem: string)
    ensures forall a, b :: Before(stem, a, b) && IsForced(stem, a) ==> IsForced(stem, b)
  {
  }

  /** A written forced sidecar competes, and ranks as forced, in either token order and whatever the code. */
  lemma WrittenNameRanksLast(stem: string, lang: string)
    ensures IsForced(stem, ForcedSidecarName(stem, lang)) && IsSibling(stem, ForcedSidecarName(stem, lang))
    ensures IsForced(stem, OldForcedSidecarName(stem, lang)) && IsSibling(stem, OldForcedSidecarName(stem, lang))
  {
    var name, oldName := ForcedSidecarName(stem, lang), OldForcedSidecarName(stem, lang);
    assert name == stem + ("." + lang) + ".forced." + "srt" by {
      assert ".forced.srt" == ".forced." + "srt";
    }
    assert name == stem + "." + (lang + ".forced") + ".srt" by {
      assert ".forced.srt" == ".forced" + ".srt";
    }
    assert oldName == stem + "" + ".forced." + (lang + ".srt");
    assert oldName == stem + "." + ("forced." + lang) + ".srt" by {
      assert ".forced." == "." + "forced.";
    }
    WrittenRanksLast(stem, "." + lang, "srt");
    WrittenRanksLast(stem, "", lang + ".srt");
    SrtSibling(stem, lang + ".forced");
    SrtSibling(stem, "forced." + lang);
  }

  lemma WrittenRanksLast(stem: string, a: string, b: string)
    ensures IsForced(stem, stem + a + ".forced." + b)
  {
    var name := stem + a + ".forced." + b;
    var tail := a + ".forced." + b;
    assert name[|stem|..] == tail;
    LowerParts(a + ".forced.", b);
    LowerParts(a, ".forced.");
    assert Lower(".forced.") == ".forced.";
    assert Lower(tail)[|a|..] == ".forced." + Lower(b);
    assert StartsWith(Lower(tail)[|a|..], ".forced.");
  }

  lemma SrtSibling(stem: string, middle: string)
    ensures IsSibling(stem, stem + "." + middle + ".srt")
  {
    var name := stem + "." + middle + ".srt";
    assert name == (stem + ".") + (middle + ".srt");
    LowerParts(stem + "." + middle, ".srt");
    assert Lower(".srt") == ".srt";
  }

  /** So a forced sidecar subarr wrote is chosen only when no candidate is anything else. */
  lemma WrittenNameIsLastResort(stem: string, lang: string, names: seq<string>, freshNames: set<string>)
    requires ChooseSrtSidecar(stem, names, freshNames) in {Some(ForcedSidecarName(stem, lang)), Some(OldForcedSidecarName(stem, lang))}
    ensures forall n :: n in Candidates(stem, names, freshNames) ==> IsForced(stem, n)
  {
    WrittenNameRanksLast(stem, lang);
    ForcedIsLastResort(stem, names, freshNames);
  }

  lemma SameMembers(a: seq<string>, b: seq<string>)
    requires forall n :: n in a <==> n in b
    ensures a == [] <==> b == []
  {
    if a != [] {
      assert a[0] in a;
    }
    if b != [] {
      assert b[0] in b;
    }
  }

  /** The choice depends on which names there are, not on the order the directory lists them in. */
  lemma ChoiceForgetsOrder(stem: string, names: seq<string>, others: seq<string>, freshNames: set<string>)
    requires forall n :: n in names <==> n in others
    ensures ChooseSrtSidecar(stem, names, freshNames) == ChooseSrtSidecar(stem, others, freshNames)
  {
    var a, b := Candidates(stem, names, freshNames), Candidates(stem, others, freshNames);
    forall n ensures n in a <==> n in b {
      CandidateIs(stem, names, freshNames, n);
      CandidateIs(stem, others, freshNames, n);
    }
    SameMembers(a, b);
    if a != [] {
      MinByIsFirst(stem, a);
      MinByIsFirst(stem, b);
      BeforeIsTotal(stem, MinBy(stem, a), MinBy(stem, b), MinBy(stem, a));
    }
  }

  // ---------- the readers, told of the names themselves ----------

  predicate IsCut(filename: string, stem: string, tail: string, ext: string) {
    AfterLast(filename, '/') == stem + tail + ext && Lower(ext) == ".srt"
  }

  /** A name that is cut this way is judged by its tail. */
  lemma CutNameIsJudged(filename: string, stem: string, lang: string, tail: string, ext: string)
    requires IsCut(filename, stem, tail, ext)
    ensures IsForcedSidecarFor(filename, stem, lang) <==> TailIsForced(tail, lang)
  {
    var name := AfterLast(filename, '/');
    assert |ext| == 4;
    assert name[..|name| - 4] == stem + tail;
    assert (stem + tail)[|stem|..] == tail;
    assert Lower(name)[|name| - 4..] == Lower(ext);
  }

  lemma GateCuts(filename: string, stem: string, lang: string) returns (tail: string, ext: string)
    requires IsForcedSidecarFor(filename, stem, lang)
    ensures IsCut(filename, stem, tail, ext)
  {
    var name := AfterLast(filename, '/');
    var base := name[..|name| - 4];
    tail, ext := base[|stem|..], name[|name| - 4..];
    assert name == stem + tail + ext;
    assert Lower(ext) == Lower(name)[|name| - 4..];
  }

  /**
   * The gate accepts a name exactly when, after its last slash, it is the stem, a tail and `.srt` in
   * any case, and between the dots of the tail stand, in any order and case, the word `forced` and
   * the code, or `eng` for English.
   */
  lemma GateExactly(filename: string, stem: string, lang: string)
    ensures IsForcedSidecarFor(filename, stem, lang) <==>
      exists tail, ext :: IsCut(filename, stem, tail, ext) && TailNames(tail, lang)
  {
    if IsForcedSidecarFor(filename, stem, lang) {
      var tail, ext := GateCuts(filename, stem, lang);
      CutNameIsJudged(filename, stem, lang, tail, ext);
      PartsNamed(tail, lang);
    }
    if tail, ext :| IsCut(filename, stem, tail, ext) && TailNames(tail, lang) {
      CutNameIsJudged(filename, stem, lang, tail, ext);
      PartsNamed(tail, lang);
    }
  }

  ghost predicate TailNames(tail: string, lang: string) {
    var parts := Split(Lower(tail), '.');
    && "forced" in parts
    && exists code :: code in parts && code != "" && (code == Lower(lang) || (Lower(lang) == "en" && code == "eng"))
  }

  lemma PartsNamed(tail: string, lang: string)
    ensures TailIsForced(tail, lang) <==> TailNames(tail, lang)
  {
    var parts := Split(Lower(tail), '.');
    if TailIsForced(tail, lang) {
      var i :| 0 <= i < |parts| && parts[i] != "" && parts[i] in Wanted(lang);
      var j :| 0 <= j < |parts| && parts[j] != "" && parts[j] in {"forced"};
      assert parts[i] in parts && parts[j] in parts;
    }
    if TailNames(tail, lang) {
      var code :| code in parts && code != "" && (code == Lower(lang) || (Lower(lang) == "en" && code == "eng"));
      var i :| 0 <= i < |parts| && parts[i] == code;
      var j :| 0 <= j < |parts| && parts[j] == "forced";
      assert parts[i] in Wanted(lang) && parts[j] in {"forced"};
    }
  }

  /** The file's name is `base` and `.srt`, it has no word `forced`, and its language is `lang`. */
  predicate Speaks(p: string, base: string, langOf: seq<string> -> Option<string>, lang: string) {
    && Lower(AfterLast(p, '/')) == base + ".srt" && "forced" !in Tokens(base)
    && (langOf(Tokens(base)) == Some(lang) || (langOf(Tokens(base)).None? && lang == "und"))
  }

  lemma SpeaksExactly(p: string, langOf: seq<string> -> Option<string>, lang: string)
    ensures CoverageTokens(p).Some? && LangOr(CoverageTokens(p).value, langOf) == lang <==> exists base :: Speaks(p, base, langOf, lang)
  {
    var name := Lower(AfterLast(p, '/'));
    if EndsWith(name, ".srt") {
      assert name == name[..|name| - 4] + ".srt";
      assert CoverageTokens(p).Some? && LangOr(CoverageTokens(p).value, langOf) == lang ==> Speaks(p, name[..|name| - 4], langOf, lang);
    }
    if base :| Speaks(p, base, langOf, lang) {
      assert (base + ".srt")[..|base + ".srt"| - 4] == base;
    }
  }

  /** A language is covered exactly when some .srt file, none of whose words is `forced`, has it, or has none for `und`. */
  lemma CoveredExactly(sidecars: seq<string>, langOf: seq<string> -> Option<string>, lang: string)
    ensures lang in Covered(sidecars, langOf) <==> exists p, base :: p in sidecars && Speaks(p, base, langOf, lang)
  {
    forall p ensures CoverageTokens(p).Some? && LangOr(CoverageTokens(p).value, langOf) == lang <==> exists base :: Speaks(p, base, langOf, lang) {
      SpeaksExactly(p, langOf, lang);
    }
  }

  /** The siblings that compete: those of the stem with `.srt` in any case, and only the fresh ones if any is fresh. */
  lemma CandidatesExactly(stem: string, names: seq<string>, freshNames: set<string>, n: string)
    ensures n in Candidates(stem, names, freshNames) <==>
      && n in names && stem + "." <= n && EndsWith(Lower(n), ".srt")
      && (n in freshNames || forall o :: o in names && stem + "." <= o && EndsWith(Lower(o), ".srt") ==> o !in freshNames)
  {
    CandidateIs(stem, names, freshNames, n);
  }

  /** The name says the word somewhere after the stem. */
  predicate Says(stem: string, name: string, word: string) {
    stem <= name && Contains(Lower(name[|stem|..]), word)
  }

  predicate ByWhisper(stem: string, name: string) {
    Says(stem, name, ".subgen.") && !Says(stem, name, ".forced.")
  }

  predicate InEnglish(stem: string, name: string) {
    Says(stem, name, ".en.") || Says(stem, name, ".eng.")
  }

  /** `n` is the first by name of the candidates for which p holds. */
  ghost predicate FirstByName(candidates: seq<string>, p: string -> bool, n: string) {
    n in candidates && p(n) && forall o :: o in candidates && p(o) ==> Le(n, o)
  }

  /**
   * The exact `<stem>.en.srt` is preferred; else an English name that carries the transcriber's mark,
   * else any with the mark, else any that is not forced, else a forced one; the first by name among
   * its equals.
   */
  ghost predicate IsPreferred(stem: string, candidates: seq<string>, n: string) {
    if stem + ".en.srt" in candidates then n == stem + ".en.srt"
    else if exists c :: c in candidates && ByWhisper(stem, c) && InEnglish(stem, c) then
      FirstByName(candidates, c => ByWhisper(stem, c) && InEnglish(stem, c), n)
    else if exists c :: c in candidates && ByWhisper(stem, c) then
      FirstByName(candidates, c => ByWhisper(stem, c), n)
    else if exists c :: c in candidates && !Says(stem, c, ".forced.") then
      FirstByName(candidates, c => !Says(stem, c, ".forced."), n)
    else
      FirstByName(candidates, c => true, n)
  }

  lemma ChoiceExactly(stem: string, names: seq<string>, freshNames: set<string>)
    ensures ChooseSrtSidecar(stem, names, freshNames).None? <==> Candidates(stem, names, freshNames) == []
    ensures ChooseSrtSidecar(stem, names, freshNames).Some? ==>
      IsPreferred(stem, Candidates(stem, names, freshNames), ChooseSrtSidecar(stem, names, freshNames).value)
  {
    var candidates := Candidates(stem, names, freshNames);
    ChosenIsFirst(stem, names, freshNames);
    forall n | n in candidates
      ensures Rank(stem, n) == if Says(stem, n, ".forced.") then 4
                               else if ByWhisper(stem, n) && InEnglish(stem, n) then 1
                               else if ByWhisper(stem, n) then 2 else 3
    {
      CandidateIs(stem, names, freshNames, n);
      RankOfSibling(stem, n);
    }
  }

  lemma RankOfSibling(stem: string, n: string)
    requires IsSibling(stem, n)
    ensures Rank(stem, n) == if Says(stem, n, ".forced.") then 4
                             else if ByWhisper(stem, n) && InEnglish(stem, n) then 1
                             else if ByWhisper(stem, n) then 2 else 3
  {
    assert stem + "." <= n ==> stem <= n;
    assert Tail(stem, n) == Lower(n[|stem|..]);
  }
}
