/**
 * Forced-segment detection: greedy windowing of speech utterances, one language
 * verdict per window, and merging of foreign spans.  Times are in seconds, before
 * any rounding.
 */
module ForcedSegment {
  import opened Common
  import opened Sorting
  import Text

  datatype Utterance = Utterance(start: real, end: real)

  datatype Window = Window(start: real, end: real, idxs: seq<nat>)

  datatype Params = Params(
    primaryLang: string,
    minSpanS: real,
    mergeGapS: real,
    lidWindowS: real,
    lidMinConfidence: real,
    lidMaxEnglishProb: real)

  // ---------- windows ----------

  /** Utterances i..j-1 may share a window: all but the first end within `w` of its start. */
  ghost predicate Fits(us: seq<Utterance>, w: real, i: nat, j: nat)
    requires i < j <= |us|
  {
    forall k :: i < k < j ==> us[k].end - us[i].start <= w
  }

  ghost predicate Cuts(us: seq<Utterance>, cuts: seq<nat>) {
    && |cuts| >= 1 && cuts[0] == 0 && cuts[|cuts| - 1] == |us|
    && forall m, m' :: 0 <= m < m' < |cuts| ==> cuts[m] < cuts[m']
  }

  /** Run m of a division is a singleton or fits. */
  ghost predicate RunFits(us: seq<Utterance>, w: real, cuts: seq<nat>, m: nat)
    requires m + 1 < |cuts|
  {
    cuts[m] < cuts[m + 1] <= |us| && Fits(us, w, cuts[m], cuts[m + 1])
  }

  /** Run m could not absorb the utterance after it. */
  ghost predicate RunIsMaximal(us: seq<Utterance>, w: real, cuts: seq<nat>, m: nat)
    requires m + 1 < |cuts|
  {
    cuts[m] < cuts[m + 1] < |us| ==> us[cuts[m + 1]].end - us[cuts[m]].start > w
  }

  /** A division of the utterances into consecutive runs that each fit. */
  ghost predicate Split(us: seq<Utterance>, w: real, cuts: seq<nat>) {
    Cuts(us, cuts) && forall m :: 0 <= m < |cuts| - 1 ==> RunFits(us, w, cuts, m)
  }

  ghost predicate Greedy(us: seq<Utterance>, w: real, cuts: seq<nat>) {
    Split(us, w, cuts) && forall m :: 0 <= m < |cuts| - 1 ==> RunIsMaximal(us, w, cuts, m)
  }

  function Range(i: nat, j: nat): (r: seq<nat>)
    requires i <= j
    ensures |r| == j - i && forall k :: 0 <= k < |r| ==> r[k] == i + k
  {
    seq(j - i, k requires 0 <= k < j - i => i + k)
  }

  lemma RangeHas(i: nat, j: nat, k: nat)
    requires i <= j
    ensures k in Range(i, j) <==> i <= k < j
  {
    if i <= k < j {
      assert Range(i, j)[k - i] == k;
    }
  }

  ghost predicate WindowIs(us: seq<Utterance>, cuts: seq<nat>, windows: seq<Window>, m: nat)
    requires m < |windows| && m + 1 < |cuts|
  {
    && cuts[m] < cuts[m + 1] <= |us|
    && windows[m] == Window(us[cuts[m]].start, us[cuts[m + 1] - 1].end, Range(cuts[m], cuts[m + 1]))
  }

  ghost predicate WindowsAre(us: seq<Utterance>, cuts: seq<nat>, windows: seq<Window>) {
    |windows| + 1 == |cuts| && forall m :: 0 <= m < |windows| ==> WindowIs(us, cuts, windows, m)
  }

  /** The windows are a greedy division of the utterances. */
  ghost predicate Assembled(us: seq<Utterance>, w: real, windows: seq<Window>) {
    exists cuts :: Greedy(us, w, cuts) && WindowsAre(us, cuts, windows)
  }

  method AssembleWindows(us: seq<Utterance>, w: real) returns (windows: seq<Window>)
    ensures Assembled(us, w, windows)
  {
    windows := [];
    ghost var cuts: seq<nat> := [0];
    var i := 0;
    while i < |us|
      invariant |cuts| >= 1 && cuts[0] == 0
      invariant i <= |us| && i == cuts[|cuts| - 1]
      invariant forall m, m' :: 0 <= m < m' < |cuts| ==> cuts[m] < cuts[m']
      invariant forall m :: 0 <= m < |cuts| - 1 ==> RunFits(us, w, cuts, m)
      invariant forall m :: 0 <= m < |cuts| - 1 ==> RunIsMaximal(us, w, cuts, m)
      invariant WindowsAre(us, cuts, windows)
    {
      var wStart := us[i].start;
      var idxs := [i];
      var j := i + 1;
      while j < |us| && us[j].end - wStart <= w
        invariant i < j <= |us| && idxs == Range(i, j)
        invariant Fits(us, w, i, j)
      {
        idxs := idxs + [j];
        j := j + 1;
      }
      var wEnd := us[idxs[|idxs| - 1]].end;
      ghost var before, wins := cuts, windows;
      windows := windows + [Window(wStart, wEnd, idxs)];
      cuts := cuts + [j];
      forall m | 0 <= m < |cuts| - 1
        ensures RunFits(us, w, cuts, m) && RunIsMaximal(us, w, cuts, m) && WindowIs(us, cuts, windows, m)
      {
        if m < |before| - 1 {
          assert RunFits(us, w, before, m) && RunIsMaximal(us, w, before, m) && WindowIs(us, before, wins, m);
        }
      }
      i := j;
    }
    assert Greedy(us, w, cuts);
  }

  ghost predicate StartsAscend(us: seq<Utterance>) {
    forall i, j :: 0 <= i < j < |us| ==> us[i].start <= us[j].start
  }

  /** Greedy stays ahead: after any number of windows it has consumed at least as many utterances. */
  lemma {:induction false} GreedyStaysAhead(us: seq<Utterance>, w: real, cuts: seq<nat>, other: seq<nat>, m: nat)
    requires StartsAscend(us) && Greedy(us, w, cuts) && Split(us, w, other)
    requires m < |cuts| && m < |other|
    ensures cuts[m] >= other[m]
  {
    if m > 0 {
      GreedyStaysAhead(us, w, cuts, other, m - 1);
      assert RunFits(us, w, other, m - 1);
      assert RunIsMaximal(us, w, cuts, m - 1) && RunFits(us, w, cuts, m - 1);
      assert other[m - 1] == cuts[m - 1] || us[other[m - 1]].start <= us[cuts[m - 1]].start;
    }
  }

  /** For utterances in order of start, no other split uses fewer windows. */
  lemma GreedyIsOptimal(us: seq<Utterance>, w: real, cuts: seq<nat>, other: seq<nat>)
    requires StartsAscend(us) && Greedy(us, w, cuts) && Split(us, w, other)
    ensures |cuts| <= |other|
  {
    var m := if |other| < |cuts| then |other| - 1 else 0;
    GreedyStaysAhead(us, w, cuts, other, m);
  }

  /** With ends in order too, a run of two or more fits exactly when its last end is within `w` of its first start. */
  lemma FitsByLastEnd(us: seq<Utterance>, w: real, i: nat, j: nat)
    requires i + 1 < j <= |us|
    requires forall a, b :: 0 <= a < b < |us| ==> us[a].end <= us[b].end
    ensures Fits(us, w, i, j) <==> us[j - 1].end - us[i].start <= w
  {
    forall k | i < k < j ensures us[k].end <= us[j - 1].end {}
  }

  // ---------- one verdict per window ----------

  predicate IsEnglish(lang: Option<string>, params: Params) {
    lang.Some? && lang.value != "" && Text.Lower(lang.value) in [Text.Lower(params.primaryLang), "eng", "en"]
  }

  predicate WindowIsForeign(topLang: Option<string>, topProb: real, englishProb: real, params: Params) {
    && !(topLang.None? || IsEnglish(topLang, params))
    && topProb >= params.lidMinConfidence
    && englishProb <= params.lidMaxEnglishProb
  }

  /** What classifying one window's audio gives: a raised error, no model, or a verdict. */
  datatype LidResult = Failed | Unavailable | Verdict(topLang: Option<string>, topProb: real, englishProb: real)

  predicate Flag(result: LidResult, params: Params) {
    match result
    case Failed => true
    case Unavailable => true
    case Verdict(lang, top, english) => WindowIsForeign(lang, top, english, params)
  }

  /** The language is written like the primary one, `en` or `eng`, in any case. */
  predicate ReadsAsPrimary(lang: string, params: Params) {
    && lang != ""
    && exists tag :: tag in {params.primaryLang, "en", "eng"} && |tag| == |lang|
         && forall i :: 0 <= i < |lang| ==> Text.SameLetter(tag[i], lang[i])
  }

  lemma SameLower(a: string, b: string)
    ensures Text.Lower(a) == Text.Lower(b) <==> |a| == |b| && forall i :: 0 <= i < |b| ==> Text.SameLetter(a[i], b[i])
  {
    if Text.Lower(a) == Text.Lower(b) {
      assert |a| == |b|;
      forall i | 0 <= i < |b| ensures Text.SameLetter(a[i], b[i]) {
        assert Text.Lower(a)[i] == Text.Lower(b)[i];
      }
    }
  }

  /**
   * A window counts as foreign when its audio could not be classified, or when a language other than
   * the primary one was heard with enough confidence and English was implausible enough.
   */
  lemma FlagExactly(result: LidResult, params: Params)
    ensures Flag(result, params) <==>
      match result
      case Failed => true
      case Unavailable => true
      case Verdict(None, _, _) => false
      case Verdict(Some(lang), top, english) =>
        !ReadsAsPrimary(lang, params) && top >= params.lidMinConfidence && english <= params.lidMaxEnglishProb
  {
    if result.Verdict? && result.topLang.Some? {
      var lang := result.topLang.value;
      assert Text.Lower("en") == "en" && Text.Lower("eng") == "eng";
      forall tag | tag in {params.primaryLang, "en", "eng"}
        ensures Text.Lower(lang) == Text.Lower(tag) <==>
          |tag| == |lang| && forall i :: 0 <= i < |lang| ==> Text.SameLetter(tag[i], lang[i])
      {
        SameLower(tag, lang);
      }
    }
  }

  /** Index of the last of the first m windows that lists utterance k, if any. */
  ghost function OwnerAmong(windows: seq<Window>, m: nat, k: nat): Option<nat>
    requires m <= |windows|
  {
    if m == 0 then None
    else if k in windows[m - 1].idxs then Some(m - 1)
    else OwnerAmong(windows, m - 1, k)
  }

  method ExpandWindowVerdicts(us: seq<Utterance>, windows: seq<Window>, flags: seq<bool>)
    returns (classified: seq<(Utterance, bool)>)
    requires |flags| == |windows|
    ensures |classified| == |us|
    ensures forall k :: 0 <= k < |us| ==> classified[k].0 == us[k]
    ensures forall k :: 0 <= k < |us| ==>
      var owner := OwnerAmong(windows, |windows|, k);
      (owner.None? ==> !classified[k].1) && (owner.Some? ==> owner.value < |flags| && classified[k].1 == flags[owner.value])
  {
    var flagByIdx: map<nat, bool> := map[];
    for m := 0 to |windows|
      invariant forall k: nat :: k in flagByIdx <==> OwnerAmong(windows, m, k).Some?
      invariant forall k: nat :: k in flagByIdx ==>
        var o := OwnerAmong(windows, m, k); o.Some? && o.value < |flags| && flagByIdx[k] == flags[o.value]
    {
      ghost var before := flagByIdx;
      var idxs := windows[m].idxs;
      for n := 0 to |idxs|
        invariant forall k: nat :: k in flagByIdx <==> k in before || k in idxs[..n]
        invariant forall k: nat :: k in idxs[..n] ==> flagByIdx[k] == flags[m]
        invariant forall k: nat :: k in before && k !in idxs[..n] ==> flagByIdx[k] == before[k]
      {
        assert idxs[..n + 1] == idxs[..n] + [idxs[n]];
        flagByIdx := flagByIdx[idxs[n] := flags[m]];
      }
      assert idxs[..|idxs|] == idxs;
    }
    classified := [];
    for k := 0 to |us|
      invariant |classified| == k
      invariant forall i :: 0 <= i < k ==> classified[i] == (us[i], i in flagByIdx && flagByIdx[i])
    {
      classified := classified + [(us[k], if k in flagByIdx then flagByIdx[k] else false)];
    }
  }

  /** In an assembled partition the window listing utterance k is the one whose run contains it. */
  lemma {:induction false} OwnerInPartition(us: seq<Utterance>, cuts: seq<nat>, windows: seq<Window>, n: nat, m: nat, k: nat)
    requires Cuts(us, cuts) && WindowsAre(us, cuts, windows)
    requires m < n <= |windows| && cuts[m] <= k < cuts[m + 1]
    ensures OwnerAmong(windows, n, k) == Some(m)
  {
    assert WindowIs(us, cuts, windows, n - 1);
    RangeHas(cuts[n - 1], cuts[n], k);
    if m < n - 1 {
      assert m + 1 == n - 1 || cuts[m + 1] < cuts[n - 1];
      OwnerInPartition(us, cuts, windows, n - 1, m, k);
    }
  }

  /** Utterance k of run m carries the verdict on run m's audio. */
  ghost predicate OwnVerdict(us: seq<Utterance>, cuts: seq<nat>, classified: seq<(Utterance, bool)>,
                             lid: (real, real) -> LidResult, params: Params, m: nat, k: nat)
    requires m + 1 < |cuts|
  {
    cuts[m] <= k < cuts[m + 1] <= |us| && k < |classified|
    && classified[k] == (us[k], Flag(lid(us[cuts[m]].start, us[cuts[m + 1] - 1].end), params))
  }

  /** Every utterance belongs to some run. */
  lemma RunOf(us: seq<Utterance>, cuts: seq<nat>, k: nat) returns (m: nat)
    requires Cuts(us, cuts) && k < |us|
    ensures m < |cuts| - 1 && cuts[m] <= k < cuts[m + 1]
  {
    m := 0;
    while cuts[m + 1] <= k
      invariant m < |cuts| - 1 && cuts[m] <= k
      decreases |cuts| - m
    {
      m := m + 1;
    }
  }

  ghost predicate HasOwnVerdict(us: seq<Utterance>, cuts: seq<nat>, classified: seq<(Utterance, bool)>,
                                lid: (real, real) -> LidResult, params: Params, k: nat)
  {
    exists m :: 0 <= m < |cuts| - 1 && OwnVerdict(us, cuts, classified, lid, params, m, k)
  }

  /** Each utterance gets the verdict of its own window, in the original order, never the default. */
  method Classify(us: seq<Utterance>, lid: (real, real) -> LidResult, params: Params)
    returns (classified: seq<(Utterance, bool)>, ghost cuts: seq<nat>)
    ensures Greedy(us, params.lidWindowS, cuts)
    ensures |classified| == |us|
    ensures forall k :: 0 <= k < |us| ==> HasOwnVerdict(us, cuts, classified, lid, params, k)
  {
    var windows := AssembleWindows(us, params.lidWindowS);
    cuts :| Greedy(us, params.lidWindowS, cuts) && WindowsAre(us, cuts, windows);
    var flags: seq<bool> := [];
    for i := 0 to |windows|
      invariant |flags| == i
      invariant forall n :: 0 <= n < i ==> flags[n] == Flag(lid(windows[n].start, windows[n].end), params)
    {
      var result := lid(windows[i].start, windows[i].end);
      if result.Failed? {
        flags := flags + [true];
        continue;
      }
      if result.Unavailable? {
        flags := flags + [true];
        continue;
      }
      flags := flags + [WindowIsForeign(result.topLang, result.topProb, result.englishProb, params)];
    }
    classified := ExpandWindowVerdicts(us, windows, flags);
    forall k | 0 <= k < |us|
      ensures HasOwnVerdict(us, cuts, classified, lid, params, k)
    {
      var m := RunOf(us, cuts, k);
      OwnerInPartition(us, cuts, windows, |windows|, m, k);
      assert WindowIs(us, cuts, windows, m);
      assert OwnVerdict(us, cuts, classified, lid, params, m, k);
    }
  }

  // ---------- merging foreign spans ----------

  /** Python's order on (start, end) pairs. */
  predicate Le(a: Utterance, b: Utterance) {
    a.start < b.start || (a.start == b.start && a.end <= b.end)
  }

  const PairLe: (Utterance, Utterance) -> bool := (a, b) => Le(a, b)

  lemma PairLeIsTotal()
    ensures TotalPreorder(PairLe) && Antisymmetric(PairLe)
  {
  }

  function Foreign(classified: seq<(Utterance, bool)>): seq<Utterance> {
    if classified == [] then []
    else (if classified[0].1 then [classified[0].0] else []) + Foreign(classified[1..])
  }

  /** The gap between two utterances, from the end of the earlier to the start of the later. */
  function Gap(a: Utterance, b: Utterance): real {
    if Le(a, b) then b.start - a.end else a.start - b.end
  }

  predicate Near(a: Utterance, b: Utterance, gap: real) { Gap(a, b) <= gap }

  function Max(x: real, y: real): real { if x >= y then x else y }

  /** The groups of the first n utterances of a sorted list, built from the left. */
  function Groups(fs: seq<Utterance>, gap: real, n: nat): (gs: seq<Utterance>)
    requires n <= |fs|
    ensures n > 0 ==> 0 < |gs| <= n
  {
    if n == 0 then []
    else if n == 1 then [fs[0]]
    else
      var gs := Groups(fs, gap, n - 1);
      var u, g := fs[n - 1], gs[|gs| - 1];
      if u.start - g.end <= gap then gs[|gs| - 1 := Utterance(g.start, Max(g.end, u.end))] else gs + [u]
  }

  /** Which group the i-th utterance of a sorted list ends up in. */
  function GroupOf(fs: seq<Utterance>, gap: real, i: nat): (g: nat)
    requires i < |fs|
  {
    |Groups(fs, gap, i + 1)| - 1
  }

  /** Those of the first n groups that reach the minimum length. */
  function LongEnough(gs: seq<Utterance>, minSpan: real, n: nat): seq<Utterance>
    requires n <= |gs|
  {
    if n == 0 then []
    else
      var rest := LongEnough(gs, minSpan, n - 1);
      if gs[n - 1].end - gs[n - 1].start >= minSpan then rest + [gs[n - 1]] else rest
  }

  /** The declared result: sort, group, keep the long groups. */
  function Merged(classified: seq<(Utterance, bool)>, params: Params): seq<Utterance> {
    var fs := Sorted(Foreign(classified), PairLe);
    var gs := Groups(fs, params.mergeGapS, |fs|);
    LongEnough(gs, params.minSpanS, |gs|)
  }

  method MergeForeignSpans(classified: seq<(Utterance, bool)>, params: Params) returns (spans: seq<Utterance>)
    ensures spans == Merged(classified, params)
    ensures EmittedExactly(classified, params.mergeGapS, params.minSpanS, spans)
    ensures Apart(spans, params.mergeGapS)
  {
    var foreign := Sorted(Foreign(classified), PairLe);
    if foreign == [] {
      MergedIsExact(classified, params);
      return [];
    }
    var merged := [foreign[0]];
    for i := 1 to |foreign|
      invariant merged == Groups(foreign, params.mergeGapS, i)
    {
      var u, g := foreign[i], merged[|merged| - 1];
      if u.start - g.end <= params.mergeGapS {
        merged := merged[|merged| - 1 := Utterance(g.start, Max(g.end, u.end))];
      } else {
        merged := merged + [u];
      }
    }
    spans := [];
    for i := 0 to |merged|
      invariant spans == LongEnough(merged, params.minSpanS, i)
    {
      if merged[i].end - merged[i].start >= params.minSpanS {
        spans := spans + [merged[i]];
      }
    }
    MergedIsExact(classified, params);
  }

  ghost predicate SortedUtterances(fs: seq<Utterance>) { InOrder(fs, PairLe) }

  /** Group numbers never decrease along the list. */
  lemma {:induction false} GroupOfAscends(fs: seq<Utterance>, gap: real, i: nat, j: nat)
    requires i <= j < |fs|
    ensures GroupOf(fs, gap, i) <= GroupOf(fs, gap, j)
  {
    if i < j {
      GroupOfAscends(fs, gap, i, j - 1);
    }
  }

  /** The first utterance of group g of the first n; every earlier one is in an earlier group. */
  lemma {:induction false} GroupHasFirst(fs: seq<Utterance>, gap: real, n: nat, g: nat) returns (first: nat)
    requires n <= |fs| && g < |Groups(fs, gap, n)|
    ensures first < n && GroupOf(fs, gap, first) == g && Groups(fs, gap, n)[g].start == fs[first].start
    ensures forall k :: 0 <= k < first ==> GroupOf(fs, gap, k) < g
  {
    if n == 1 {
      first := 0;
    } else if g < |Groups(fs, gap, n - 1)| {
      first := GroupHasFirst(fs, gap, n - 1, g);
    } else {
      first := n - 1;
      forall k | 0 <= k < first ensures GroupOf(fs, gap, k) < g {
        GroupOfAscends(fs, gap, k, n - 2);
      }
    }
  }

  /** The end of group g of the first n is the largest end of its members, and one of them attains it. */
  lemma {:induction false} GroupEndIsMax(fs: seq<Utterance>, gap: real, n: nat, g: nat) returns (last: nat)
    requires n <= |fs| && g < |Groups(fs, gap, n)|
    ensures last < n && GroupOf(fs, gap, last) == g && Groups(fs, gap, n)[g].end == fs[last].end
    ensures forall k :: 0 <= k < n && GroupOf(fs, gap, k) == g ==> fs[k].end <= fs[last].end
  {
    if n == 1 {
      last := 0;
    } else if g < |Groups(fs, gap, n - 1)| {
      last := GroupEndIsMax(fs, gap, n - 1, g);
      if GroupOf(fs, gap, n - 1) == g && fs[n - 1].end > fs[last].end {
        last := n - 1;
      }
    } else {
      last := n - 1;
      forall k | 0 <= k < n - 1 ensures GroupOf(fs, gap, k) < g {
        GroupOfAscends(fs, gap, k, n - 2);
      }
    }
  }

  lemma LaterStarts(fs: seq<Utterance>, i: nat, j: nat)
    requires SortedUtterances(fs) && i < j < |fs|
    ensures fs[i].start <= fs[j].start
  {
    assert PairLe(fs[i], fs[j]);
  }

  /** All groups but the last are finished; a new group starts more than the gap after the one before. */
  lemma GroupSettles(fs: seq<Utterance>, gap: real, n: nat, g: nat)
    requires 1 < n <= |fs| && g + 1 < |Groups(fs, gap, n)|
    ensures g < |Groups(fs, gap, n - 1)| && Groups(fs, gap, n)[g] == Groups(fs, gap, n - 1)[g]
    ensures g + 1 == |Groups(fs, gap, n - 1)| ==> fs[n - 1].start - Groups(fs, gap, n)[g].end > gap
  {
  }

  lemma StillSeparated(fs: seq<Utterance>, gap: real, n: nat, g: nat, first: nat)
    requires 1 < n <= |fs| && first < n - 1 && g + 1 < |Groups(fs, gap, n)| && g < |Groups(fs, gap, n - 1)|
    requires fs[first].start - Groups(fs, gap, n - 1)[g].end > gap && fs[first].start <= fs[n - 1].start
    ensures fs[n - 1].start - Groups(fs, gap, n)[g].end > gap
  {
    GroupSettles(fs, gap, n, g);
  }

  /** A later group's utterances start more than the gap after the group's end. */
  lemma {:induction false} GroupsSeparated(fs: seq<Utterance>, gap: real, n: nat, g: nat, k: nat)
    requires SortedUtterances(fs) && n <= |fs|
    requires g < |Groups(fs, gap, n)| && k < n && GroupOf(fs, gap, k) > g
    ensures fs[k].start - Groups(fs, gap, n)[g].end > gap
  {
    if n > 1 {
      GroupOfAscends(fs, gap, k, n - 1);
      assert g < GroupOf(fs, gap, n - 1) == |Groups(fs, gap, n)| - 1;
      GroupSettles(fs, gap, n, g);
      var last := |Groups(fs, gap, n - 1)| - 1;
      if k < n - 1 {
        GroupsSeparated(fs, gap, n - 1, g, k);
      } else if g < last {
        var first := GroupHasFirst(fs, gap, n - 1, last);
        GroupsSeparated(fs, gap, n - 1, g, first);
        LaterStarts(fs, first, n - 1);
        StillSeparated(fs, gap, n, g, first);
      }
    }
  }

  ghost predicate Link(fs: seq<Utterance>, gap: real, p: seq<nat>, n: nat)
    requires n + 1 < |p|
  {
    p[n] < |fs| && p[n + 1] < |fs| && Near(fs[p[n]], fs[p[n + 1]], gap)
  }

  /** A path through near utterances. */
  ghost predicate Chain(fs: seq<Utterance>, gap: real, p: seq<nat>) {
    && p != [] && (forall n :: 0 <= n < |p| ==> p[n] < |fs|)
    && (forall n :: 0 <= n < |p| - 1 ==> Link(fs, gap, p, n))
  }

  ghost predicate Connected(fs: seq<Utterance>, gap: real, i: nat, j: nat) {
    exists p :: Chain(fs, gap, p) && p[0] == i && p[|p| - 1] == j
  }

  lemma JoinChains(fs: seq<Utterance>, gap: real, p: seq<nat>, q: seq<nat>)
    requires Chain(fs, gap, p) && Chain(fs, gap, q) && Near(fs[p[|p| - 1]], fs[q[0]], gap)
    ensures Chain(fs, gap, p + q) && (p + q)[0] == p[0] && (p + q)[|p + q| - 1] == q[|q| - 1]
  {
    var r := p + q;
    forall n | 0 <= n < |r| - 1 ensures Link(fs, gap, r, n) {
      if n < |p| - 1 {
        assert Link(fs, gap, p, n);
      } else if n >= |p| {
        assert Link(fs, gap, q, n - |p|);
      }
    }
  }

  lemma {:induction false} ReverseChain(fs: seq<Utterance>, gap: real, p: seq<nat>) returns (q: seq<nat>)
    requires Chain(fs, gap, p)
    ensures Chain(fs, gap, q) && q[0] == p[|p| - 1] && q[|q| - 1] == p[0]
  {
    if |p| == 1 {
      q := p;
    } else {
      forall n | 0 <= n < |p[1..]| - 1 ensures Link(fs, gap, p[1..], n) {
        assert Link(fs, gap, p, n + 1);
      }
      var r := ReverseChain(fs, gap, p[1..]);
      assert Link(fs, gap, p, 0);
      NearSymmetric(fs[p[0]], fs[p[1]], gap);
      JoinChains(fs, gap, r, [p[0]]);
      q := r + [p[0]];
    }
  }

  lemma NearSymmetric(a: Utterance, b: Utterance, gap: real)
    ensures Near(a, b, gap) <==> Near(b, a, gap)
  {
  }

  /** From any member of a group a chain leads back to the group's first utterance. */
  lemma {:induction false} ChainToFirst(fs: seq<Utterance>, gap: real, i: nat, first: nat) returns (p: seq<nat>)
    requires SortedUtterances(fs) && first <= i < |fs|
    requires GroupOf(fs, gap, i) == GroupOf(fs, gap, first)
    requires forall k :: 0 <= k < first ==> GroupOf(fs, gap, k) < GroupOf(fs, gap, first)
    ensures Chain(fs, gap, p) && p[0] == i && p[|p| - 1] == first
  {
    if i == first {
      p := [i];
    } else {
      GroupOfAscends(fs, gap, first, i - 1);
      GroupOfAscends(fs, gap, i - 1, i);
      var m := GroupEndIsMax(fs, gap, i, GroupOf(fs, gap, i));
      assert PairLe(fs[m], fs[i]);
      var rest := ChainToFirst(fs, gap, m, first);
      JoinChains(fs, gap, [i], rest) by { NearSymmetric(fs[m], fs[i], gap); }
      p := [i] + rest;
    }
  }

  /** Near utterances share a group. */
  lemma NearSharesGroup(fs: seq<Utterance>, gap: real, i: nat, j: nat)
    requires SortedUtterances(fs) && i <= j < |fs| && Near(fs[i], fs[j], gap)
    ensures GroupOf(fs, gap, i) == GroupOf(fs, gap, j)
  {
    GroupOfAscends(fs, gap, i, j);
    if i < j && GroupOf(fs, gap, i) < GroupOf(fs, gap, j) {
      assert PairLe(fs[i], fs[j]);
      var g := GroupOf(fs, gap, i);
      var last := GroupEndIsMax(fs, gap, j + 1, g);
      GroupsSeparated(fs, gap, j + 1, g, j);
    }
  }

  lemma {:induction false} ChainStaysInGroup(fs: seq<Utterance>, gap: real, p: seq<nat>, n: nat)
    requires SortedUtterances(fs) && Chain(fs, gap, p) && n < |p|
    ensures GroupOf(fs, gap, p[n]) == GroupOf(fs, gap, p[0])
  {
    if n > 0 {
      ChainStaysInGroup(fs, gap, p, n - 1);
      assert Link(fs, gap, p, n - 1);
      NearSymmetric(fs[p[n - 1]], fs[p[n]], gap);
      if p[n - 1] <= p[n] {
        NearSharesGroup(fs, gap, p[n - 1], p[n]);
      } else {
        NearSharesGroup(fs, gap, p[n], p[n - 1]);
      }
    }
  }

  lemma ChainTail(fs: seq<Utterance>, gap: real, q: seq<nat>)
    requires Chain(fs, gap, q) && |q| > 1
    ensures Near(fs[q[0]], fs[q[1]], gap) && Chain(fs, gap, q[1..])
  {
    assert Link(fs, gap, q, 0);
    forall n | 0 <= n < |q[1..]| - 1 ensures Link(fs, gap, q[1..], n) {
      assert Link(fs, gap, q, n + 1);
    }
  }

  lemma SameGroupConnected(fs: seq<Utterance>, gap: real, i: nat, j: nat)
    requires SortedUtterances(fs) && i < |fs| && j < |fs| && GroupOf(fs, gap, i) == GroupOf(fs, gap, j)
    ensures Connected(fs, gap, i, j)
  {
    var g := GroupOf(fs, gap, i);
    GroupOfAscends(fs, gap, i, |fs| - 1);
    var first := GroupHasFirst(fs, gap, |fs|, g);
    var p := ChainToFirst(fs, gap, i, first);
    var back := ChainToFirst(fs, gap, j, first);
    var q := ReverseChain(fs, gap, back);
    if |q| == 1 {
      assert p[|p| - 1] == j;
    } else {
      ChainTail(fs, gap, q);
      JoinChains(fs, gap, p, q[1..]);
    }
  }

  /** The groups are exactly the connected components of "near". */
  lemma GroupsAreComponents(fs: seq<Utterance>, gap: real, i: nat, j: nat)
    requires SortedUtterances(fs) && i < |fs| && j < |fs|
    ensures GroupOf(fs, gap, i) == GroupOf(fs, gap, j) <==> Connected(fs, gap, i, j)
  {
    if GroupOf(fs, gap, i) == GroupOf(fs, gap, j) {
      SameGroupConnected(fs, gap, i, j);
    }
    if Connected(fs, gap, i, j) {
      var p :| Chain(fs, gap, p) && p[0] == i && p[|p| - 1] == j;
      ChainStaysInGroup(fs, gap, p, |p| - 1);
    }
  }

  lemma EarlierGroup(fs: seq<Utterance>, gap: real, i: nat, j: nat)
    requires i < |fs| && j < |fs| && GroupOf(fs, gap, i) < GroupOf(fs, gap, j)
    ensures i < j
  {
    if j <= i {
      GroupOfAscends(fs, gap, j, i);
    }
  }

  /** The groups come in order, each more than the gap after the one before. */
  lemma GroupsAscendApart(fs: seq<Utterance>, gap: real, g: nat, h: nat)
    requires SortedUtterances(fs) && g < h < |Groups(fs, gap, |fs|)|
    ensures Groups(fs, gap, |fs|)[h].start - Groups(fs, gap, |fs|)[g].end > gap
    ensures Groups(fs, gap, |fs|)[g].start <= Groups(fs, gap, |fs|)[h].start
  {
    var firstH := GroupHasFirst(fs, gap, |fs|, h);
    GroupsSeparated(fs, gap, |fs|, g, firstH);
    var firstG := GroupHasFirst(fs, gap, |fs|, g);
    EarlierGroup(fs, gap, firstG, firstH);
    assert PairLe(fs[firstG], fs[firstH]);
  }

  /** A group spans from the least start to the greatest end of its members. */
  lemma GroupSpansItsMembers(fs: seq<Utterance>, gap: real, g: nat)
    requires SortedUtterances(fs) && g < |Groups(fs, gap, |fs|)|
    ensures exists i :: 0 <= i < |fs| && GroupOf(fs, gap, i) == g && fs[i].start == Groups(fs, gap, |fs|)[g].start
    ensures exists i :: 0 <= i < |fs| && GroupOf(fs, gap, i) == g && fs[i].end == Groups(fs, gap, |fs|)[g].end
    ensures forall i :: 0 <= i < |fs| && GroupOf(fs, gap, i) == g ==>
      Groups(fs, gap, |fs|)[g].start <= fs[i].start && fs[i].end <= Groups(fs, gap, |fs|)[g].end
  {
    var first := GroupHasFirst(fs, gap, |fs|, g);
    var last := GroupEndIsMax(fs, gap, |fs|, g);
    forall i | 0 <= i < |fs| && GroupOf(fs, gap, i) == g
      ensures Groups(fs, gap, |fs|)[g].start <= fs[i].start
    {
      assert i == first || PairLe(fs[first], fs[i]);
    }
  }

  /** The emitted spans are exactly the groups of at least the minimum length. */
  lemma {:induction false} EmitsLongGroups(gs: seq<Utterance>, minSpan: real, n: nat, span: Utterance)
    requires n <= |gs|
    ensures span in LongEnough(gs, minSpan, n) <==> span in gs[..n] && span.end - span.start >= minSpan
  {
    if n > 0 {
      EmitsLongGroups(gs, minSpan, n - 1, span);
      assert gs[..n] == gs[..n - 1] + [gs[n - 1]];
    }
  }

  // ---------- what is emitted, told of the utterances themselves ----------

  /** A path through foreign utterances, each at most the gap from the next. */
  ghost predicate ForeignPath(classified: seq<(Utterance, bool)>, gap: real, p: seq<Utterance>) {
    && |p| > 0
    && (forall n :: 0 <= n < |p| ==> (p[n], true) in classified)
    && (forall n :: 0 <= n < |p| - 1 ==> Adjacent(p, gap, n))
  }

  /** The earlier of the two ends at most the gap before the later one starts. */
  ghost predicate Adjacent(p: seq<Utterance>, gap: real, n: nat)
    requires n + 1 < |p|
  {
    if Le(p[n], p[n + 1]) then p[n + 1].start - p[n].end <= gap else p[n].start - p[n + 1].end <= gap
  }

  ghost predicate Linked(classified: seq<(Utterance, bool)>, gap: real, u: Utterance, v: Utterance) {
    exists p :: ForeignPath(classified, gap, p) && p[0] == u && p[|p| - 1] == v
  }

  /** The span runs from the least start to the greatest end of the foreign utterances linked to `u`. */
  ghost predicate Spans(classified: seq<(Utterance, bool)>, gap: real, u: Utterance, span: Utterance) {
    && (exists v :: Linked(classified, gap, u, v) && v.start == span.start)
    && (exists v :: Linked(classified, gap, u, v) && v.end == span.end)
    && forall v :: Linked(classified, gap, u, v) ==> span.start <= v.start && v.end <= span.end
  }

  ghost predicate SpansSome(classified: seq<(Utterance, bool)>, gap: real, span: Utterance) {
    exists u :: (u, true) in classified && Spans(classified, gap, u, span)
  }

  ghost predicate EmittedExactly(classified: seq<(Utterance, bool)>, gap: real, minSpan: real, spans: seq<Utterance>) {
    forall span :: span in spans <==> SpansSome(classified, gap, span) && span.end - span.start >= minSpan
  }

  ghost predicate Apart(spans: seq<Utterance>, gap: real) {
    forall i, j :: 0 <= i < j < |spans| ==> spans[i].start <= spans[j].start && spans[j].start - spans[i].end > gap
  }

  lemma {:induction false} ForeignHas(classified: seq<(Utterance, bool)>, u: Utterance)
    ensures u in Foreign(classified) <==> (u, true) in classified
  {
    if classified != [] {
      ForeignHas(classified[1..], u);
      assert classified == [classified[0]] + classified[1..];
    }
  }

  /** The list that is merged holds the foreign utterances in order. */
  ghost predicate ListsForeign(fs: seq<Utterance>, classified: seq<(Utterance, bool)>) {
    SortedUtterances(fs) && forall u :: u in fs <==> (u, true) in classified
  }

  lemma SortedListsForeign(classified: seq<(Utterance, bool)>)
    ensures ListsForeign(Sorted(Foreign(classified), PairLe), classified)
  {
    var fs := Sorted(Foreign(classified), PairLe);
    PairLeIsTotal();
    SortedInOrder(Foreign(classified), PairLe);
    SortedPermutes(Foreign(classified), PairLe);
    forall u ensures u in fs <==> (u, true) in classified {
      SameElements(fs, Foreign(classified), u);
      ForeignHas(classified, u);
    }
  }

  lemma UtterancesAlong(fs: seq<Utterance>, classified: seq<(Utterance, bool)>, gap: real, p: seq<nat>) returns (q: seq<Utterance>)
    requires ListsForeign(fs, classified) && Chain(fs, gap, p)
    ensures ForeignPath(classified, gap, q) && q[0] == fs[p[0]] && q[|q| - 1] == fs[p[|p| - 1]]
  {
    q := seq(|p|, n requires 0 <= n < |p| => fs[p[n]]);
    forall n | 0 <= n < |q| - 1 ensures Adjacent(q, gap, n) {
      assert Link(fs, gap, p, n);
    }
  }

  /** Members of one group are linked. */
  lemma GroupIsLinked(fs: seq<Utterance>, classified: seq<(Utterance, bool)>, gap: real, i: nat, j: nat)
    requires ListsForeign(fs, classified) && i < |fs| && j < |fs| && GroupOf(fs, gap, i) == GroupOf(fs, gap, j)
    ensures Linked(classified, gap, fs[i], fs[j])
  {
    GroupsAreComponents(fs, gap, i, j);
    var p :| Chain(fs, gap, p) && p[0] == i && p[|p| - 1] == j;
    var q := UtterancesAlong(fs, classified, gap, p);
    assert ForeignPath(classified, gap, q);
  }

  lemma ShorterPath(classified: seq<(Utterance, bool)>, gap: real, p: seq<Utterance>)
    requires ForeignPath(classified, gap, p) && |p| > 1
    ensures ForeignPath(classified, gap, p[..|p| - 1])
  {
    var front := p[..|p| - 1];
    forall n | 0 <= n < |front| - 1 ensures Adjacent(front, gap, n) {
      assert Adjacent(p, gap, n);
    }
  }

  lemma ChainSnoc(fs: seq<Utterance>, gap: real, p: seq<nat>, k: nat)
    requires Chain(fs, gap, p) && k < |fs| && Near(fs[p[|p| - 1]], fs[k], gap)
    ensures Chain(fs, gap, p + [k])
  {
    var q := p + [k];
    forall n | 0 <= n < |q| - 1 ensures Link(fs, gap, q, n) {
      assert n < |p| - 1 ==> Link(fs, gap, p, n);
    }
  }

  /** A path of foreign utterances, as places in the list, from place i. */
  lemma {:induction false} PathOfPlaces(fs: seq<Utterance>, classified: seq<(Utterance, bool)>, gap: real,
                                        p: seq<Utterance>, i: nat) returns (q: seq<nat>)
    requires ListsForeign(fs, classified) && ForeignPath(classified, gap, p) && i < |fs| && fs[i] == p[0]
    ensures |q| == |p| && q[0] == i && Chain(fs, gap, q) && forall n :: 0 <= n < |q| ==> q[n] < |fs| && fs[q[n]] == p[n]
  {
    if |p| == 1 {
      q := [i];
    } else {
      var front, last := p[..|p| - 1], p[|p| - 1];
      ShorterPath(classified, gap, p);
      var rest := PathOfPlaces(fs, classified, gap, front, i);
      assert (last, true) in classified;
      var k :| 0 <= k < |fs| && fs[k] == last;
      q := rest + [k];
      assert Adjacent(p, gap, |p| - 2);
      ChainSnoc(fs, gap, rest, k);
    }
  }

  /** What is linked to a member of a group is, as an utterance, a member of the group. */
  lemma LinkedIsInGroup(fs: seq<Utterance>, classified: seq<(Utterance, bool)>, gap: real, i: nat, v: Utterance)
    requires ListsForeign(fs, classified) && i < |fs| && Linked(classified, gap, fs[i], v)
    ensures exists j :: 0 <= j < |fs| && fs[j] == v && GroupOf(fs, gap, j) == GroupOf(fs, gap, i)
  {
    var p :| ForeignPath(classified, gap, p) && p[0] == fs[i] && p[|p| - 1] == v;
    var q := PathOfPlaces(fs, classified, gap, p, i);
    var j := q[|q| - 1];
    assert Connected(fs, gap, i, j);
    GroupsAreComponents(fs, gap, i, j);
  }

  /** A group is the span of everything linked to any of its members. */
  lemma GroupSpansLinked(fs: seq<Utterance>, classified: seq<(Utterance, bool)>, gap: real, i: nat)
    requires ListsForeign(fs, classified) && i < |fs| && GroupOf(fs, gap, i) < |Groups(fs, gap, |fs|)|
    ensures Spans(classified, gap, fs[i], Groups(fs, gap, |fs|)[GroupOf(fs, gap, i)])
  {
    var g := GroupOf(fs, gap, i);
    var span := Groups(fs, gap, |fs|)[g];
    GroupSpansItsMembers(fs, gap, g);
    var a :| 0 <= a < |fs| && GroupOf(fs, gap, a) == g && fs[a].start == span.start;
    var b :| 0 <= b < |fs| && GroupOf(fs, gap, b) == g && fs[b].end == span.end;
    GroupIsLinked(fs, classified, gap, i, a);
    GroupIsLinked(fs, classified, gap, i, b);
    forall v | Linked(classified, gap, fs[i], v) ensures span.start <= v.start && v.end <= span.end {
      LinkedIsInGroup(fs, classified, gap, i, v);
    }
  }

  lemma OneSpan(classified: seq<(Utterance, bool)>, gap: real, u: Utterance, a: Utterance, b: Utterance)
    requires Spans(classified, gap, u, a) && Spans(classified, gap, u, b)
    ensures a == b
  {
  }

  lemma GroupInRange(fs: seq<Utterance>, gap: real, i: nat)
    requires i < |fs|
    ensures GroupOf(fs, gap, i) < |Groups(fs, gap, |fs|)|
  {
    GroupOfAscends(fs, gap, i, |fs| - 1);
  }

  lemma GroupsAreSpans(fs: seq<Utterance>, classified: seq<(Utterance, bool)>, gap: real, span: Utterance)
    requires ListsForeign(fs, classified)
    ensures span in Groups(fs, gap, |fs|) <==> SpansSome(classified, gap, span)
  {
    var gs := Groups(fs, gap, |fs|);
    if span in gs {
      var g :| 0 <= g < |gs| && gs[g] == span;
      var first := GroupHasFirst(fs, gap, |fs|, g);
      GroupSpansLinked(fs, classified, gap, first);
      assert fs[first] in fs;
    }
    if SpansSome(classified, gap, span) {
      var u :| (u, true) in classified && Spans(classified, gap, u, span);
      assert u in fs;
      var i :| 0 <= i < |fs| && fs[i] == u;
      GroupInRange(fs, gap, i);
      GroupSpansLinked(fs, classified, gap, i);
      OneSpan(classified, gap, u, span, gs[GroupOf(fs, gap, i)]);
    }
  }

  lemma {:induction false} LongEnoughStaysApart(gs: seq<Utterance>, gap: real, minSpan: real, n: nat)
    requires n <= |gs| && Apart(gs, gap)
    ensures Apart(LongEnough(gs, minSpan, n), gap)
  {
    if n > 0 {
      LongEnoughStaysApart(gs, gap, minSpan, n - 1);
      var rest := LongEnough(gs, minSpan, n - 1);
      forall i | 0 <= i < |rest| ensures rest[i].start <= gs[n - 1].start && gs[n - 1].start - rest[i].end > gap {
        assert rest[i] in rest;
        EmitsLongGroups(gs, minSpan, n - 1, rest[i]);
        var k :| 0 <= k < n - 1 && gs[k] == rest[i];
      }
    }
  }

  /**
   * A span is emitted if and only if it runs from the least start to the greatest end of the foreign
   * utterances linked to one of them by gaps of at most the merge gap, and is long enough; the
   * emitted spans come in order, more than the merge gap apart.
   */
  lemma MergedIsExact(classified: seq<(Utterance, bool)>, params: Params)
    ensures EmittedExactly(classified, params.mergeGapS, params.minSpanS, Merged(classified, params))
    ensures Apart(Merged(classified, params), params.mergeGapS)
  {
    var fs := Sorted(Foreign(classified), PairLe);
    var gs := Groups(fs, params.mergeGapS, |fs|);
    SortedListsForeign(classified);
    forall span
      ensures span in Merged(classified, params) <==>
        SpansSome(classified, params.mergeGapS, span) && span.end - span.start >= params.minSpanS
    {
      EmitsLongGroups(gs, params.minSpanS, |gs|, span);
      assert gs[..|gs|] == gs;
      GroupsAreSpans(fs, classified, params.mergeGapS, span);
    }
    forall g, h | 0 <= g < h < |gs| ensures gs[g].start <= gs[h].start && gs[h].start - gs[g].end > params.mergeGapS {
      GroupsAscendApart(fs, params.mergeGapS, g, h);
    }
    LongEnoughStaysApart(gs, params.mergeGapS, params.minSpanS, |gs|);
  }

  lemma {:induction false} ForeignCounts(classified: seq<(Utterance, bool)>, u: Utterance)
    ensures multiset(Foreign(classified))[u] == multiset(classified)[(u, true)]
  {
    if classified != [] {
      ForeignCounts(classified[1..], u);
      assert classified == [classified[0]] + classified[1..];
    }
  }

  /** The merged spans depend on which utterances are foreign, not on the order they come in. */
  lemma MergeForgetsInputOrder(a: seq<(Utterance, bool)>, b: seq<(Utterance, bool)>, params: Params)
    requires forall u :: multiset(a)[(u, true)] == multiset(b)[(u, true)]
    ensures Merged(a, params) == Merged(b, params)
  {
    forall u ensures multiset(Foreign(a))[u] == multiset(Foreign(b))[u] {
      ForeignCounts(a, u);
      ForeignCounts(b, u);
    }
    PairLeIsTotal();
    SortedForgetsInputOrder(Foreign(a), Foreign(b), PairLe);
  }
}
