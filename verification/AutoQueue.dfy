/**
 * The auto-queue decision: which coverage items to send for transcription, and the
 * backfill list and batch built on it.
 */
module AutoQueue {
  import opened Common
  import opened Sorting
  import Text

  datatype MediaType = Movie | Episode | Other

  /** A coverage item; an empty string or a zero time stands for "not set". */
  datatype Item = Item(
    mediaType: MediaType,
    canonicalPath: string,
    fileCanonicalPath: string,
    episodePattern: Option<string>,  // "1x3" as "s01e03"
    score: int,
    verified: bool,
    importTs: real,
    hasSubOnDisk: bool,
    embeddedEn: string,
    imageOnlySubgenWillSkip: bool,
    forcedOnlySubgenWillSkip: bool,
    wantedLangSubgenCannotProduce: bool,
    monitored: Option<bool>,
    originalLanguage: string,
    tags: set<string>)

  datatype Mode = Dashboard | AutoRules | ManualConfirm

  datatype Rules = Rules(
    mode: Mode,
    settleMinutes: int,
    maxPerRun: int,
    minScore: int,
    allowLanguages: set<string>,
    denyLanguages: set<string>,
    allowTags: set<string>,
    denyTags: set<string>,
    requireMonitored: bool,
    skipStaleDisk: bool,
    skipEmbeddedEn: bool)

  datatype Reason =
    | ModeIsDashboard | AlreadyInFlight | LastAttemptEmpty | NotProbedYet | Settling(minutes: int)
    | StaleOnDisk | EmbeddedEnglish | ImageOnly | ForcedOnly | CannotProduce | NotMonitored | LowScore
    | LanguageNotAllowed | LanguageDenied | NoAllowedTag | TagDenied | OverMaxPerRun | MatchesRules

  datatype Decision = Decision(item: Item, queue: bool, reason: Reason)

  /** What stays the same during one evaluation. */
  datatype Context = Context(rules: Rules, inFlight: set<string>, suppressed: set<string>, now: real)

  // ---------- one item ----------

  function SettleSecondsLeft(item: Item, settleMinutes: int, now: real): int {
    if settleMinutes <= 0 || item.importTs == 0.0 then 0
    else
      var left := item.importTs + (settleMinutes * 60) as real - now;
      if left <= 0.0 then 0 else left.Floor
  }

  predicate IsInFlight(item: Item, paths: set<string>) {
    || (item.fileCanonicalPath != "" && item.fileCanonicalPath in paths)
    || (item.mediaType.Movie? && item.canonicalPath in paths)
    || (item.mediaType.Episode? && item.canonicalPath != "" && item.episodePattern.Some?
        && exists p :: p in paths && Text.StartsWith(p, Text.RStrip(item.canonicalPath, '/') + "/")
                       && Text.Contains(Text.Lower(p), item.episodePattern.value))
  }

  function FilterReason(item: Item, rules: Rules): Option<Reason> {
    if rules.skipStaleDisk && item.hasSubOnDisk then Some(StaleOnDisk)
    else if rules.skipEmbeddedEn && item.embeddedEn in {"EN", "EN(SDH)"} then Some(EmbeddedEnglish)
    else if item.imageOnlySubgenWillSkip then Some(ImageOnly)
    else if item.forcedOnlySubgenWillSkip then Some(ForcedOnly)
    else if item.wantedLangSubgenCannotProduce then Some(CannotProduce)
    else if rules.requireMonitored && item.monitored == Some(false) then Some(NotMonitored)
    else if item.score < rules.minScore then Some(LowScore)
    else if rules.allowLanguages != {} && item.originalLanguage !in rules.allowLanguages then Some(LanguageNotAllowed)
    else if item.originalLanguage != "" && item.originalLanguage in rules.denyLanguages then Some(LanguageDenied)
    else if rules.allowTags != {} && item.tags * rules.allowTags == {} then Some(NoAllowedTag)
    else if rules.denyTags != {} && item.tags * rules.denyTags != {} then Some(TagDenied)
    else None
  }

  /** Why an item is skipped before the cap, if it is. */
  function SkipReason(item: Item, c: Context): Option<Reason> {
    if IsInFlight(item, c.inFlight) then Some(AlreadyInFlight)
    else if IsInFlight(item, c.suppressed) then Some(LastAttemptEmpty)
    else if !item.verified then Some(NotProbedYet)
    else
      var left := SettleSecondsLeft(item, c.rules.settleMinutes, c.now);
      if left > 0 then Some(Settling((left + 59) / 60)) else FilterReason(item, c.rules)
  }

  // ---------- what the reasons mean ----------

  /** A path that is known covers the item: its own file, the movie itself, or a file below the series that is named like the episode. */
  predicate Covers(path: string, item: Item) {
    || (item.fileCanonicalPath != "" && path == item.fileCanonicalPath)
    || (item.mediaType.Movie? && path == item.canonicalPath)
    || (item.mediaType.Episode? && item.canonicalPath != "" && item.episodePattern.Some?
        && Text.RStrip(item.canonicalPath, '/') + "/" <= path && Text.Contains(Text.Lower(path), item.episodePattern.value))
  }

  /** The settle window is off, does not apply, or has run to within its last second. */
  predicate Settled(item: Item, settleMinutes: int, now: real) {
    settleMinutes <= 0 || item.importTs == 0.0 || now - item.importTs > (60 * settleMinutes - 1) as real
  }

  predicate LanguageAllowed(item: Item, rules: Rules) {
    && (rules.allowLanguages == {} || item.originalLanguage in rules.allowLanguages)
    && (item.originalLanguage == "" || item.originalLanguage !in rules.denyLanguages)
  }

  predicate TagsAllowed(item: Item, rules: Rules) {
    && (rules.allowTags == {} || exists tag :: tag in item.tags && tag in rules.allowTags)
    && forall tag :: tag in item.tags ==> tag !in rules.denyTags
  }

  /** The transcriber would take the job and produce what is wanted. */
  predicate Producible(item: Item) {
    !item.imageOnlySubgenWillSkip && !item.forcedOnlySubgenWillSkip && !item.wantedLangSubgenCannotProduce
  }

  predicate StillNeeded(item: Item, rules: Rules) {
    && !(rules.skipStaleDisk && item.hasSubOnDisk)
    && !(rules.skipEmbeddedEn && (item.embeddedEn == "EN" || item.embeddedEn == "EN(SDH)"))
    && !(rules.requireMonitored && item.monitored == Some(false))
    && item.score >= rules.minScore
  }

  predicate PassesRules(item: Item, rules: Rules) {
    StillNeeded(item, rules) && Producible(item) && LanguageAllowed(item, rules) && TagsAllowed(item, rules)
  }

  lemma CoveredExactly(item: Item, paths: set<string>)
    ensures IsInFlight(item, paths) <==> exists p :: p in paths && Covers(p, item)
  {
    if item.fileCanonicalPath in paths && item.fileCanonicalPath != "" {
      assert Covers(item.fileCanonicalPath, item);
    }
    if item.mediaType.Movie? && item.canonicalPath in paths {
      assert Covers(item.canonicalPath, item);
    }
    if p :| p in paths && Text.StartsWith(p, Text.RStrip(item.canonicalPath, '/') + "/")
            && item.episodePattern.Some? && Text.Contains(Text.Lower(p), item.episodePattern.value) {
      assert item.mediaType.Episode? && item.canonicalPath != "" ==> Covers(p, item);
    }
  }

  lemma TagsMeet(a: set<string>, b: set<string>)
    ensures a * b == {} <==> forall tag :: tag in a ==> tag !in b
  {
    if tag :| tag in a && tag in b {
      assert tag in a * b;
    }
  }

  lemma FilterExactly(item: Item, rules: Rules)
    ensures FilterReason(item, rules).None? <==> PassesRules(item, rules)
  {
    TagsMeet(item.tags, rules.allowTags);
    TagsMeet(item.tags, rules.denyTags);
  }

  lemma SettledExactly(item: Item, settleMinutes: int, now: real)
    ensures SettleSecondsLeft(item, settleMinutes, now) > 0 <==> !Settled(item, settleMinutes, now)
  {
  }

  /**
   * An item is eligible exactly when no path in flight or held back covers it, it was probed, its
   * settle window has passed, and the rules let it pass.
   */
  lemma EligibleExactly(item: Item, c: Context)
    ensures SkipReason(item, c).None? <==>
      && (forall p :: p in c.inFlight || p in c.suppressed ==> !Covers(p, item))
      && item.verified && Settled(item, c.rules.settleMinutes, c.now) && PassesRules(item, c.rules)
  {
    CoveredExactly(item, c.inFlight);
    CoveredExactly(item, c.suppressed);
    SettledExactly(item, c.rules.settleMinutes, c.now);
    FilterExactly(item, c.rules);
  }

  /** A reason that is given is true of the item. */
  lemma ReasonIsTrue(item: Item, c: Context)
    requires SkipReason(item, c).Some?
    ensures match SkipReason(item, c).value
      case AlreadyInFlight => exists p :: p in c.inFlight && Covers(p, item)
      case LastAttemptEmpty => exists p :: p in c.suppressed && Covers(p, item)
      case NotProbedYet => !item.verified
      case Settling(minutes) =>
        var left := item.importTs + (60 * c.rules.settleMinutes) as real - c.now;
        left > 0.0 && (minutes - 1) * 60 < left.Floor <= minutes * 60
      case StaleOnDisk => item.hasSubOnDisk && c.rules.skipStaleDisk
      case EmbeddedEnglish => c.rules.skipEmbeddedEn && (item.embeddedEn == "EN" || item.embeddedEn == "EN(SDH)")
      case ImageOnly => item.imageOnlySubgenWillSkip
      case ForcedOnly => item.forcedOnlySubgenWillSkip
      case CannotProduce => item.wantedLangSubgenCannotProduce
      case NotMonitored => c.rules.requireMonitored && item.monitored == Some(false)
      case LowScore => item.score < c.rules.minScore
      case LanguageNotAllowed => item.originalLanguage !in c.rules.allowLanguages
      case LanguageDenied => item.originalLanguage in c.rules.denyLanguages
      case NoAllowedTag => forall tag :: tag in item.tags ==> tag !in c.rules.allowTags
      case TagDenied => exists tag :: tag in item.tags && tag in c.rules.denyTags
      case _ => false
  {
    CoveredExactly(item, c.inFlight);
    CoveredExactly(item, c.suppressed);
    TagsMeet(item.tags, c.rules.allowTags);
    TagsMeet(item.tags, c.rules.denyTags);
  }

  // ---------- all items ----------

  /** `s[:m]` and `s[m:]`, negative m counting from the end. */
  function Cut(n: nat, m: int): (k: nat)
    ensures k <= n
  {
    if m >= 0 then (if m <= n then m else n) else (if n + m >= 0 then n + m else 0)
  }

  const HigherScoreFirst: (Item, Item) -> bool := (a: Item, b: Item) => a.score >= b.score

  function Eligible(items: seq<Item>, c: Context): seq<Item> {
    if items == [] then []
    else
      var front := Eligible(items[..|items| - 1], c);
      if SkipReason(items[|items| - 1], c).None? then front + [items[|items| - 1]] else front
  }

  function Skipped(items: seq<Item>, c: Context): seq<Decision> {
    if items == [] then []
    else
      var front, item := Skipped(items[..|items| - 1], c), items[|items| - 1];
      if SkipReason(item, c).Some? then front + [Decision(item, false, SkipReason(item, c).value)] else front
  }

  function Ranked(items: seq<Item>, c: Context): seq<Item> {
    Sorted(Eligible(items, c), HigherScoreFirst)
  }

  /** The items one evaluation queues. */
  function Queued(items: seq<Item>, c: Context): seq<Item> {
    if c.rules.mode.Dashboard? then [] else Ranked(items, c)[..Cut(|Ranked(items, c)|, c.rules.maxPerRun)]
  }

  /** The eligible items the cap leaves out. */
  function Over(items: seq<Item>, c: Context): seq<Item> {
    if c.rules.mode.Dashboard? then [] else Ranked(items, c)[Cut(|Ranked(items, c)|, c.rules.maxPerRun)..]
  }

  function All(items: seq<Item>, queue: bool, reason: Reason): seq<Decision> {
    seq(|items|, i requires 0 <= i < |items| => Decision(items[i], queue, reason))
  }

  function Decisions(items: seq<Item>, c: Context): seq<Decision> {
    if c.rules.mode.Dashboard? then All(items, false, ModeIsDashboard)
    else Skipped(items, c) + All(Queued(items, c), true, MatchesRules) + All(Over(items, c), false, OverMaxPerRun)
  }

  method Evaluate(items: seq<Item>, c: Context) returns (decisions: seq<Decision>)
    ensures decisions == Decisions(items, c)
  {
    decisions := [];
    if c.rules.mode.Dashboard? {
      for i := 0 to |items|
        invariant |decisions| == i
        invariant forall j :: 0 <= j < i ==> decisions[j] == Decision(items[j], false, ModeIsDashboard)
      {
        decisions := decisions + [Decision(items[i], false, ModeIsDashboard)];
      }
      return;
    }
    var eligible: seq<Item> := [];
    for i := 0 to |items|
      invariant decisions == Skipped(items[..i], c)
      invariant eligible == Eligible(items[..i], c)
    {
      var item := items[i];
      assert items[..i + 1][..i] == items[..i];
      if IsInFlight(item, c.inFlight) {
        decisions := decisions + [Decision(item, false, AlreadyInFlight)];
        continue;
      }
      if IsInFlight(item, c.suppressed) {
        decisions := decisions + [Decision(item, false, LastAttemptEmpty)];
        continue;
      }
      if !item.verified {
        decisions := decisions + [Decision(item, false, NotProbedYet)];
        continue;
      }
      var left := SettleSecondsLeft(item, c.rules.settleMinutes, c.now);
      if left > 0 {
        decisions := decisions + [Decision(item, false, Settling((left + 59) / 60))];
        continue;
      }
      var reason := FilterReason(item, c.rules);
      if reason.Some? {
        decisions := decisions + [Decision(item, false, reason.value)];
      } else {
        eligible := eligible + [item];
      }
    }
    assert items[..|items|] == items;
    eligible := Sorted(eligible, HigherScoreFirst);
    var k := Cut(|eligible|, c.rules.maxPerRun);
    var queued, cut := eligible[..k], eligible[k..];
    var more := AppendAll(decisions, queued, true, MatchesRules);
    decisions := AppendAll(more, cut, false, OverMaxPerRun);
  }

  method AppendAll(before: seq<Decision>, items: seq<Item>, queue: bool, reason: Reason) returns (decisions: seq<Decision>)
    ensures decisions == before + All(items, queue, reason)
  {
    decisions := before;
    for i := 0 to |items|
      invariant |decisions| == |before| + i && decisions[..|before|] == before
      invariant forall j :: 0 <= j < i ==> decisions[|before| + j] == Decision(items[j], queue, reason)
    {
      decisions := decisions + [Decision(items[i], queue, reason)];
    }
  }

  // ---------- every item once, the best ones queued ----------

  function ItemsOf(ds: seq<Decision>): (r: seq<Item>)
    ensures |r| == |ds| && forall i :: 0 <= i < |r| ==> r[i] == ds[i].item
  {
    seq(|ds|, i requires 0 <= i < |ds| => ds[i].item)
  }

  lemma ItemsOfAll(items: seq<Item>, queue: bool, reason: Reason)
    ensures ItemsOf(All(items, queue, reason)) == items
  {
  }

  lemma ItemsOfParts(a: seq<Decision>, b: seq<Decision>)
    ensures ItemsOf(a + b) == ItemsOf(a) + ItemsOf(b)
  {
  }

  lemma {:induction false} SkippedAndEligible(items: seq<Item>, c: Context)
    ensures multiset(ItemsOf(Skipped(items, c))) + multiset(Eligible(items, c)) == multiset(items)
  {
    if items != [] {
      var front, item := items[..|items| - 1], items[|items| - 1];
      SkippedAndEligible(front, c);
      MultisetSnoc(items);
      if SkipReason(item, c).Some? {
        var one := [Decision(item, false, SkipReason(item, c).value)];
        ItemsOfParts(Skipped(front, c), one);
        MultisetAppend(ItemsOf(Skipped(front, c)), ItemsOf(one));
        assert ItemsOf(one) == [item];
      } else {
        MultisetAppend(Eligible(front, c), [item]);
      }
    }
  }

  /** The eligible items are the queued ones and the ones over the cap. */
  lemma QueuedAndOver(items: seq<Item>, c: Context)
    requires !c.rules.mode.Dashboard?
    ensures multiset(Queued(items, c)) + multiset(Over(items, c)) == multiset(Eligible(items, c))
  {
    SortedPermutes(Eligible(items, c), HigherScoreFirst);
    MultisetCut(Ranked(items, c), Cut(|Ranked(items, c)|, c.rules.maxPerRun));
  }

  /** The decisions are a permutation of the items: nothing is dropped, nothing decided twice. */
  lemma EveryItemDecidedOnce(items: seq<Item>, c: Context)
    ensures multiset(ItemsOf(Decisions(items, c))) == multiset(items)
  {
    if c.rules.mode.Dashboard? {
      ItemsOfAll(items, false, ModeIsDashboard);
    } else {
      var queued, over := All(Queued(items, c), true, MatchesRules), All(Over(items, c), false, OverMaxPerRun);
      ItemsOfAll(Queued(items, c), true, MatchesRules);
      ItemsOfAll(Over(items, c), false, OverMaxPerRun);
      ItemsOfParts(Skipped(items, c) + queued, over);
      ItemsOfParts(Skipped(items, c), queued);
      SkippedAndEligible(items, c);
      QueuedAndOver(items, c);
    }
  }

  /** The items that the decisions say to queue, in order. */
  function ToQueue(ds: seq<Decision>): seq<Item> {
    if ds == [] then [] else ToQueue(ds[..|ds| - 1]) + (if ds[|ds| - 1].queue then [ds[|ds| - 1].item] else [])
  }

  lemma {:induction false} ToQueueParts(a: seq<Decision>, b: seq<Decision>)
    ensures ToQueue(a + b) == ToQueue(a) + ToQueue(b)
  {
    if b == [] {
      assert a + b == a;
    } else {
      ToQueueParts(a, b[..|b| - 1]);
      assert (a + b)[..|a + b| - 1] == a + b[..|b| - 1];
    }
  }

  lemma {:induction false} ToQueueOfAll(items: seq<Item>, queue: bool, reason: Reason)
    ensures ToQueue(All(items, queue, reason)) == if queue then items else []
  {
    if items != [] {
      var ds := All(items, queue, reason);
      ToQueueOfAll(items[..|items| - 1], queue, reason);
      assert ds[..|ds| - 1] == All(items[..|items| - 1], queue, reason);
    }
  }

  lemma {:induction false} SkippedAreHonest(items: seq<Item>, c: Context)
    ensures ToQueue(Skipped(items, c)) == []
    ensures forall d :: d in Skipped(items, c) ==> !d.queue && SkipReason(d.item, c) == Some(d.reason)
  {
    if items != [] {
      SkippedAreHonest(items[..|items| - 1], c);
    }
  }

  predicate SkippedForAReason(d: Decision, items: seq<Item>, c: Context) {
    SkipReason(d.item, c) == Some(d.reason) || (d.reason == OverMaxPerRun && d.item in Over(items, c))
  }

  /** Outside dashboard mode. */
  lemma SkipsAreHonest(items: seq<Item>, c: Context, d: Decision)
    requires !c.rules.mode.Dashboard? && d in Decisions(items, c) && !d.queue
    ensures SkippedForAReason(d, items, c)
  {
    SkippedAreHonest(items, c);
    var over := All(Over(items, c), false, OverMaxPerRun);
    assert d !in All(Queued(items, c), true, MatchesRules);
    if d in over {
      var i :| 0 <= i < |over| && over[i] == d;
      assert over[i].item == Over(items, c)[i];
    }
  }

  lemma ToQueueOfThree(skipped: seq<Decision>, chosen: seq<Item>, rest: seq<Item>)
    requires ToQueue(skipped) == []
    ensures ToQueue(skipped + All(chosen, true, MatchesRules) + All(rest, false, OverMaxPerRun)) == chosen
  {
    var queued, over := All(chosen, true, MatchesRules), All(rest, false, OverMaxPerRun);
    ToQueueParts(skipped + queued, over);
    ToQueueParts(skipped, queued);
    ToQueueOfAll(chosen, true, MatchesRules);
    ToQueueOfAll(rest, false, OverMaxPerRun);
  }

  lemma QueuesExactly(items: seq<Item>, c: Context)
    requires !c.rules.mode.Dashboard?
    ensures ToQueue(Decisions(items, c)) == Queued(items, c)
  {
    SkippedAreHonest(items, c);
    ToQueueOfThree(Skipped(items, c), Queued(items, c), Over(items, c));
  }

  /**
   * What is decided: in dashboard mode nothing is queued; otherwise exactly the chosen items are, in
   * order, and every other item is skipped for its own reason or as one too many.
   */
  lemma DecisionsAreHonest(items: seq<Item>, c: Context)
    ensures ToQueue(Decisions(items, c)) == if c.rules.mode.Dashboard? then [] else Queued(items, c)
    ensures forall d :: d in Decisions(items, c) && !d.queue ==>
      if c.rules.mode.Dashboard? then d.reason == ModeIsDashboard
      else SkippedForAReason(d, items, c)
  {
    if c.rules.mode.Dashboard? {
      ToQueueOfAll(items, false, ModeIsDashboard);
    } else {
      QueuesExactly(items, c);
      forall d | d in Decisions(items, c) && !d.queue ensures SkippedForAReason(d, items, c) {
        SkipsAreHonest(items, c, d);
      }
    }
  }

  lemma HigherScoreFirstIsTotal()
    ensures TotalPreorder(HigherScoreFirst)
  {
  }

  /** No item left out by the cap outscores a queued one; the queued come by falling score, ties in the report's order. */
  lemma BestAreQueued(items: seq<Item>, c: Context)
    ensures forall q, o :: q in Queued(items, c) && o in Over(items, c) ==> q.score >= o.score
    ensures forall i, j :: 0 <= i < j < |Queued(items, c)| ==> Queued(items, c)[i].score >= Queued(items, c)[j].score
    ensures forall x :: Ties(Ranked(items, c), x, HigherScoreFirst) == Ties(Eligible(items, c), x, HigherScoreFirst)
  {
    HigherScoreFirstIsTotal();
    var ranked := Ranked(items, c);
    SortedInOrder(Eligible(items, c), HigherScoreFirst);
    forall q, o | q in Queued(items, c) && o in Over(items, c) ensures q.score >= o.score {
      var k := Cut(|ranked|, c.rules.maxPerRun);
      var i :| 0 <= i < |Queued(items, c)| && Queued(items, c)[i] == q;
      var j :| 0 <= j < |Over(items, c)| && Over(items, c)[j] == o;
      assert HigherScoreFirst(ranked[i], ranked[k + j]);
    }
    forall i, j | 0 <= i < j < |Queued(items, c)| ensures Queued(items, c)[i].score >= Queued(items, c)[j].score {
      assert HigherScoreFirst(ranked[i], ranked[j]);
    }
    forall x ensures Ties(Ranked(items, c), x, HigherScoreFirst) == Ties(Eligible(items, c), x, HigherScoreFirst) {
      SortedKeepsTies(Eligible(items, c), x, HigherScoreFirst);
    }
  }

  function Least(a: int, b: int): int { if a <= b then a else b }

  /**
   * The cap is respected exactly when it is not negative, and is filled before anything is left
   * over; a negative cap leaves over as many as it says and queues all the others.
   */
  lemma CapHolds(items: seq<Item>, c: Context)
    ensures |Queued(items, c)| <= c.rules.maxPerRun <==> c.rules.maxPerRun >= 0
    ensures !c.rules.mode.Dashboard? ==>
      var n := |Eligible(items, c)|;
      && |Queued(items, c)| + |Over(items, c)| == n
      && (c.rules.maxPerRun >= 0 ==> |Queued(items, c)| == Least(c.rules.maxPerRun, n))
      && (c.rules.maxPerRun < 0 ==> |Over(items, c)| == Least(-c.rules.maxPerRun, n))
  {
    SortedPermutes(Eligible(items, c), HigherScoreFirst);
  }

  lemma {:induction false} EligiblePassed(items: seq<Item>, c: Context, item: Item)
    ensures item in Eligible(items, c) <==> item in items && SkipReason(item, c).None?
  {
    if items != [] {
      EligiblePassed(items[..|items| - 1], c, item);
      assert items == items[..|items| - 1] + [items[|items| - 1]];
    }
  }

  /** Whatever is queued passed every rule; in particular it was not in flight. */
  lemma QueuedPassed(items: seq<Item>, c: Context, item: Item)
    requires item in Queued(items, c)
    ensures item in items && SkipReason(item, c).None?
  {
    SortedPermutes(Eligible(items, c), HigherScoreFirst);
    assert item in Ranked(items, c);
    SameElements(Ranked(items, c), Eligible(items, c), item);
    EligiblePassed(items, c, item);
  }

  // ---------- round after round ----------

  /** The files of the queued items join the in-flight set. */
  function Fed(items: seq<Item>, c: Context): set<string> {
    c.inFlight + set q | q in Queued(items, c) && q.fileCanonicalPath != "" :: q.fileCanonicalPath
  }

  /** Round n of a series; rules, suppressions and clock may change from round to round. */
  function ContextAt(rounds: seq<Context>, flights: seq<set<string>>, n: nat): Context
    requires n < |rounds| && n < |flights|
  {
    rounds[n].(inFlight := flights[n])
  }

  ghost predicate RoundAt(items: seq<Item>, rounds: seq<Context>, flights: seq<set<string>>, n: nat) {
    n < |rounds| && n + 1 < |flights| && flights[n + 1] == Fed(items, ContextAt(rounds, flights, n))
  }

  /** Rounds over the same report, each fed back the files queued before: `flights` holds the in-flight sets. */
  ghost predicate IsSeries(items: seq<Item>, rounds: seq<Context>, flights: seq<set<string>>) {
    |flights| == |rounds| + 1 && forall n :: 0 <= n < |rounds| ==> RoundAt(items, rounds, flights, n)
  }

  function QueuedAt(items: seq<Item>, rounds: seq<Context>, flights: seq<set<string>>, n: nat): seq<Item>
    requires n < |rounds| && n < |flights|
  {
    Queued(items, ContextAt(rounds, flights, n))
  }

  lemma {:induction false} InFlightGrows(items: seq<Item>, rounds: seq<Context>, flights: seq<set<string>>, m: nat, n: nat)
    requires IsSeries(items, rounds, flights) && m <= n <= |rounds|
    ensures flights[m] <= flights[n]
  {
    if m < n {
      InFlightGrows(items, rounds, flights, m, n - 1);
      assert RoundAt(items, rounds, flights, n - 1);
    }
  }

  /** A queued item's file was not in flight before the round and is afterwards. */
  lemma QueuedFileIsNew(items: seq<Item>, c: Context, q: Item)
    requires q in Queued(items, c) && q.fileCanonicalPath != ""
    ensures q.fileCanonicalPath !in c.inFlight && q.fileCanonicalPath in Fed(items, c)
    ensures q in items
  {
    QueuedPassed(items, c, q);
    assert !IsInFlight(q, c.inFlight);
  }

  /** A file queued in one round is queued in no later one. */
  lemma NoFileQueuedTwice(items: seq<Item>, rounds: seq<Context>, flights: seq<set<string>>, m: nat, n: nat, a: Item, b: Item)
    requires IsSeries(items, rounds, flights) && m < n < |rounds|
    requires a in QueuedAt(items, rounds, flights, m) && b in QueuedAt(items, rounds, flights, n)
    requires a.fileCanonicalPath != ""
    ensures a.fileCanonicalPath != b.fileCanonicalPath
  {
    QueuedFileIsNew(items, ContextAt(rounds, flights, m), a);
    assert RoundAt(items, rounds, flights, m);
    InFlightGrows(items, rounds, flights, m + 1, n);
    if b.fileCanonicalPath != "" {
      QueuedFileIsNew(items, ContextAt(rounds, flights, n), b);
    }
  }

  function Files(items: seq<Item>): set<string> {
    set item | item in items :: item.fileCanonicalPath
  }

  /** A row is marked verified only together with the file that was probed. */
  ghost predicate ProbesBringFiles(items: seq<Item>) {
    forall item :: item in items && item.verified ==> item.fileCanonicalPath != ""
  }

  /** How many of the items' files are not in flight. */
  function Left(items: seq<Item>, inFlight: set<string>): nat {
    |Files(items) - inFlight|
  }

  /** A round that queues something uses up a file. */
  lemma BusyRoundUsesAFile(items: seq<Item>, c: Context)
    requires ProbesBringFiles(items) && Queued(items, c) != []
    ensures Left(items, Fed(items, c)) < Left(items, c.inFlight)
  {
    var q := Queued(items, c)[0];
    QueuedPassed(items, c, q);
    QueuedFileIsNew(items, c, q);
    var left := Files(items) - c.inFlight;
    assert q.fileCanonicalPath in left;
    SubsetSize(Files(items) - Fed(items, c), left - {q.fileCanonicalPath});
  }

  /** How many of the first n rounds queue anything. */
  function BusyRounds(items: seq<Item>, rounds: seq<Context>, flights: seq<set<string>>, n: nat): nat
    requires n <= |rounds| && n <= |flights|
  {
    if n == 0 then 0
    else BusyRounds(items, rounds, flights, n - 1) + (if QueuedAt(items, rounds, flights, n - 1) != [] then 1 else 0)
  }

  lemma RoundUsesFiles(items: seq<Item>, rounds: seq<Context>, flights: seq<set<string>>, n: nat)
    requires ProbesBringFiles(items) && IsSeries(items, rounds, flights) && n < |rounds|
    ensures Left(items, flights[n + 1]) + (if QueuedAt(items, rounds, flights, n) != [] then 1 else 0) <= Left(items, flights[n])
  {
    var c := ContextAt(rounds, flights, n);
    assert RoundAt(items, rounds, flights, n);
    if Queued(items, c) == [] {
      assert Fed(items, c) == flights[n];
    } else {
      BusyRoundUsesAFile(items, c);
    }
  }

  /** At most as many rounds queue anything as there are files not yet in flight. */
  lemma {:induction false} RoundsRunDry(items: seq<Item>, rounds: seq<Context>, flights: seq<set<string>>, n: nat)
    requires IsSeries(items, rounds, flights) && n <= |rounds| && ProbesBringFiles(items)
    ensures BusyRounds(items, rounds, flights, n) + Left(items, flights[n]) <= Left(items, flights[0])
  {
    if n > 0 {
      RoundsRunDry(items, rounds, flights, n - 1);
      RoundUsesFiles(items, rounds, flights, n - 1);
    }
  }

  /** An eligible item within the cap is queued, whatever earlier rounds queued. */
  lemma EligibleIsQueued(items: seq<Item>, c: Context, item: Item)
    requires item in items && SkipReason(item, c).None? && !c.rules.mode.Dashboard?
    requires |Eligible(items, c)| <= c.rules.maxPerRun
    ensures item in Queued(items, c)
  {
    EligiblePassed(items, c, item);
    SortedPermutes(Eligible(items, c), HigherScoreFirst);
    SameElements(Ranked(items, c), Eligible(items, c), item);
    assert Queued(items, c) == Ranked(items, c);
  }

  /** With these paths in flight the round would queue the item, if its cap reached it. */
  ghost predicate Reaches(item: Item, c: Context, inFlight: set<string>) {
    && SkipReason(item, c.(inFlight := inFlight)).None? && !c.rules.mode.Dashboard? && c.rules.maxPerRun >= 1
  }

  lemma FilelessItemLeavesNoTrace(item: Item, c: Context)
    requires item.fileCanonicalPath == "" && SkipReason(item, c).None? && !c.rules.mode.Dashboard? && c.rules.maxPerRun >= 1
    ensures Queued([item], c) != [] && Fed([item], c) == c.inFlight
  {
    assert [item][..0] == [];
    assert |Eligible([item], c)| <= 1;
    EligibleIsQueued([item], c, item);
    forall q | q in Queued([item], c) ensures q == item {
      QueuedPassed([item], c, q);
    }
  }

  /**
   * The proviso is needed: a verified item without a file leaves no trace in flight, so a report of
   * it alone is queued in every round and never runs dry.
   */
  lemma {:induction false} FilelessItemNeverRunsDry(item: Item, rounds: seq<Context>, flights: seq<set<string>>, n: nat)
    requires IsSeries([item], rounds, flights) && n <= |rounds| && item.fileCanonicalPath == ""
    requires forall m :: 0 <= m < n ==> Reaches(item, rounds[m], flights[0])
    ensures BusyRounds([item], rounds, flights, n) == n && flights[n] == flights[0]
    ensures n > 0 ==> BusyRounds([item], rounds, flights, n) + Left([item], flights[n]) > Left([item], flights[0])
  {
    if n > 0 {
      FilelessItemNeverRunsDry(item, rounds, flights, n - 1);
      assert Reaches(item, rounds[n - 1], flights[0]) && RoundAt([item], rounds, flights, n - 1);
      FilelessItemLeavesNoTrace(item, ContextAt(rounds, flights, n - 1));
    }
  }

  // ---------- backfill ----------

  const BACKFILL_CAP := 10_000_000

  function BackfillContext(c: Context): Context {
    c.(rules := c.rules.(mode := AutoRules, maxPerRun := BACKFILL_CAP, settleMinutes := 0))
  }

  function EligibleBackfillItems(items: seq<Item>, c: Context): seq<Item> {
    Queued(items, BackfillContext(c))
  }

  lemma {:induction false} EligibleForBackfill(items: seq<Item>, c: Context)
    ensures multiset(Eligible(items, c)) <= multiset(Eligible(items, BackfillContext(c)))
  {
    if items != [] {
      EligibleForBackfill(items[..|items| - 1], c);
    }
  }

  /** The backlog holds every eligible item exactly when there are no more of them than the cap. */
  lemma BackfillIsComplete(items: seq<Item>, c: Context)
    ensures multiset(EligibleBackfillItems(items, c)) == multiset(Eligible(items, BackfillContext(c)))
       <==> |Eligible(items, BackfillContext(c))| <= BACKFILL_CAP
  {
    var d := BackfillContext(c);
    SortedPermutes(Eligible(items, d), HigherScoreFirst);
    var ranked := Ranked(items, d);
    if |ranked| <= BACKFILL_CAP {
      assert Queued(items, d) == ranked;
    } else {
      assert |multiset(Queued(items, d))| == BACKFILL_CAP;
      assert |multiset(Eligible(items, d))| == |ranked|;
    }
  }

  /** Up to that size, whatever auto-queue queues is in the backlog. */
  lemma AutoQueueWithinBackfill(items: seq<Item>, c: Context)
    requires |Eligible(items, BackfillContext(c))| <= BACKFILL_CAP
    ensures multiset(Queued(items, c)) <= multiset(EligibleBackfillItems(items, c))
  {
    BackfillIsComplete(items, c);
    EligibleForBackfill(items, c);
    if !c.rules.mode.Dashboard? {
      QueuedAndOver(items, c);
    }
  }

  /** Up to that size the backlog holds exactly what is uncovered, probed and passes the rules; settling and the run's cap do not matter. */
  lemma BacklogExactly(items: seq<Item>, c: Context, item: Item)
    requires |Eligible(items, BackfillContext(c))| <= 10_000_000
    ensures item in EligibleBackfillItems(items, c) <==>
      && item in items && (forall p :: p in c.inFlight || p in c.suppressed ==> !Covers(p, item))
      && item.verified && PassesRules(item, c.rules)
  {
    var d := BackfillContext(c);
    EligibleExactly(item, d);
    FilterExactly(item, c.rules);
    FilterExactly(item, d.rules);
    if item in EligibleBackfillItems(items, c) {
      QueuedPassed(items, d, item);
    }
    if item in items && SkipReason(item, d).None? {
      EligibleIsQueued(items, d, item);
    }
  }

  datatype BackfillConfig = BackfillConfig(enabled: bool, targetQueueDepth: int, batch: int)

  function SelectBackfillBatch(gaps: seq<Item>, queueDepth: int, config: BackfillConfig): seq<Item> {
    var headroom := config.targetQueueDepth - queueDepth;
    if !config.enabled || headroom <= 0 then []
    else gaps[..Cut(|gaps|, Least(Least(headroom, config.batch), |gaps|))]
  }

  /**
   * The batch is a front slice of the gaps that never fills the queue past its target, exactly
   * unless a negative batch size makes the slice count from the end.
   */
  lemma BatchKeepsDepth(gaps: seq<Item>, queueDepth: int, config: BackfillConfig)
    ensures SelectBackfillBatch(gaps, queueDepth, config) <= gaps
    ensures SelectBackfillBatch(gaps, queueDepth, config) != [] && config.batch >= 0 ==>
      |SelectBackfillBatch(gaps, queueDepth, config)| <= config.batch
    ensures (SelectBackfillBatch(gaps, queueDepth, config) == []
             || queueDepth + |SelectBackfillBatch(gaps, queueDepth, config)| <= config.targetQueueDepth)
       <==> !(config.enabled && queueDepth < config.targetQueueDepth && config.batch < 0
              && |gaps| + config.batch > config.targetQueueDepth - queueDepth)
  {
  }

  /** How many: none when off or without headroom; else what fits in the headroom, the batch and the backlog; a negative batch leaves that many out. */
  lemma BatchSizeExactly(gaps: seq<Item>, queueDepth: int, config: BackfillConfig)
    ensures var n, headroom := |SelectBackfillBatch(gaps, queueDepth, config)|, config.targetQueueDepth - queueDepth;
      if !config.enabled || headroom <= 0 then n == 0
      else if config.batch < 0 then n == if |gaps| + config.batch >= 0 then |gaps| + config.batch else 0
      else n <= headroom && n <= config.batch && n <= |gaps| && (n == headroom || n == config.batch || n == |gaps|)
  {
  }
}
