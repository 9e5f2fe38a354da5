/**
 * The store of audio-language verdicts: one row per file, moved when the file is
 * replaced (by episode token or by arr id) or relinked, and series-prefix intents
 * that files without a row inherit.
 *
 * The disk, the library layout and the parsing of names are a `World` given to each
 * operation.  A SELECT without ORDER BY may return its rows in any order.
 */
module AudioLangStore {
  import opened Common
  import opened Sorting
  import Text

  type Path = string

  datatype Key = Key(season: nat, episode: nat)

  datatype Ids = Ids(sonarr: Option<int>, radarr: Option<int>)

  datatype Evidence = Evidence(carriedFrom: Option<Path>, relinkedFrom: Option<Path>, other: string)

  datatype Verdict = Verdict(
    lang: string,
    source: string,
    confidence: real,
    verifiedAt: real,
    langClass: string,
    langCodes: string,
    ids: Ids,
    evidence: Evidence)

  type Table = map<Path, Verdict>

  /** Outside: the path does not resolve inside any library. */
  datatype Place = Outside | Present | Gone

  /** A place in the file system. */
  type Location = string

  /** A video found by the walk of a show: the path it gets in its library, and the place where it was listed. */
  datatype Video = Video(name: Path, at: Location)

  datatype Surroundings = Surroundings(
    place: Path -> Place,
    resolve: Path -> Location,  // with all links followed
    episodeKey: Path -> Option<Key>,
    seriesFolder: Path -> Option<Path>,
    library: Path -> string,
    videos: (Path, Key) -> seq<Video>)  // the walk of a show: its video files for one episode

  /**
   * A walk lists files and links.  A file whose path resolves to the very place that was listed is
   * not reached through a link there, so it exists.
   */
  ghost predicate WalkIsReal(w: Surroundings) {
    forall series, key, p ::
      (exists i :: 0 <= i < |w.videos(series, key)| && w.videos(series, key)[i].at == w.resolve(p)) ==> w.place(p).Present?
  }

  type World = w: Surroundings | WalkIsReal(w)
    ghost witness Surroundings(p => Gone, p => p, p => None, p => None, p => p, (series, key) => [])

  // ---------- moves ----------

  datatype Kind = Carried | Relinked

  datatype Move = Move(src: Path, dst: Path, kind: Kind)

  function Noted(e: Evidence, src: Path, kind: Kind): Evidence {
    if kind.Carried? then e.(carriedFrom := Some(src)) else e.(relinkedFrom := Some(src))
  }

  predicate Movable(t: Table, m: Move) {
    m.src in t && m.dst !in t
  }

  function Moved(t: Table, m: Move): Table {
    if Movable(t, m) then (t - {m.src})[m.dst := t[m.src].(evidence := Noted(t[m.src].evidence, m.src, m.kind))] else t
  }

  /** The row has gone from one path to the other, with a note of where it came from; nothing else has changed. */
  ghost predicate MovedRow(t: Table, t': Table, src: Path, dst: Path, kind: Kind)
    requires src in t
  {
    && t'.Keys == t.Keys - {src} + {dst}
    && (forall p :: p in t && p != src && p != dst ==> p in t' && t'[p] == t[p])
    && dst in t'
    && t'[dst].(evidence := t[src].evidence) == t[src]
    && t'[dst].evidence.other == t[src].evidence.other
    && t'[dst].evidence.carriedFrom == (if kind.Carried? then Some(src) else t[src].evidence.carriedFrom)
    && t'[dst].evidence.relinkedFrom == (if kind.Relinked? then Some(src) else t[src].evidence.relinkedFrom)
  }

  function After(t: Table, moves: seq<Move>): Table {
    if moves == [] then t else Moved(After(t, moves[..|moves| - 1]), moves[|moves| - 1])
  }

  // ---------- when a verdict may be carried ----------

  function Tongue(v: Verdict): (string, string, string) { (v.lang, v.langClass, v.langCodes) }

  /** A row for the same episode in the same show as `dst`. */
  predicate Candidate(t: Table, w: World, dst: Path, p: Path) {
    && w.seriesFolder(dst).Some? && p in t && p != dst
    && Text.Under(w.seriesFolder(dst).value, p) && w.episodeKey(p) == w.episodeKey(dst)
  }

  predicate Orphan(t: Table, w: World, dst: Path, p: Path) {
    Candidate(t, w, dst, p) && w.place(p).Gone?
  }

  /** The walk of the show finds one video of the episode, at the place the path resolves to; a link never is. */
  predicate SoleVideo(w: World, dst: Path)
    requires w.episodeKey(dst).Some? && w.seriesFolder(dst).Some?
  {
    var same := w.videos(w.seriesFolder(dst).value, w.episodeKey(dst).value);
    |same| == 1 && same[0].at == w.resolve(dst)
  }

  lemma SoleVideoExists(w: World, dst: Path)
    requires w.episodeKey(dst).Some? && w.seriesFolder(dst).Some? && SoleVideo(w, dst)
    ensures w.place(dst).Present?
  {
    var series, key := w.seriesFolder(dst).value, w.episodeKey(dst).value;
    assert w.videos(series, key)[0].at == w.resolve(dst);
  }

  /** By episode token: the only video of the episode takes the newest of the orphans, when they agree. */
  ghost predicate TokenMove(t: Table, w: World, src: Path, dst: Path) {
    && w.episodeKey(dst).Some? && w.seriesFolder(dst).Some?
    && dst !in t
    && !w.place(w.seriesFolder(dst).value).Outside? && !w.place(dst).Outside?
    && SoleVideo(w, dst)
    && Orphan(t, w, dst, src)
    && forall p :: Orphan(t, w, dst, p) ==> Tongue(t[p]) == Tongue(t[src]) && t[p].verifiedAt <= t[src].verifiedAt
  }

  /** A row of the same episode, somewhere under the show folder, whose file is gone. */
  predicate GoneRow(t: Table, w: World, series: Path, key: Key, p: Path) {
    p in t && w.place(p).Gone? && w.episodeKey(p) == Some(key) && Text.Under(series, p)
  }

  /**
   * A token move is open when the file has no row and is the only video of its episode, reached
   * through no link, and the gone rows of the episode agree on language, class and codes; the
   * latest of them moves.
   */
  lemma TokenMoveExactly(t: Table, w: World, series: Path, key: Key, src: Path, dst: Path)
    requires w.seriesFolder(dst) == Some(series) && w.episodeKey(dst) == Some(key)
    ensures TokenMove(t, w, src, dst) <==>
      && dst !in t && !w.place(series).Outside?
      && |w.videos(series, key)| == 1 && w.videos(series, key)[0].at == w.resolve(dst)
      && GoneRow(t, w, series, key, src)
      && forall p :: GoneRow(t, w, series, key, p) ==>
           && t[p].lang == t[src].lang && t[p].langClass == t[src].langClass && t[p].langCodes == t[src].langCodes
           && t[p].verifiedAt <= t[src].verifiedAt
  {
    if SoleVideo(w, dst) {
      SoleVideoExists(w, dst);
    }
    if dst !in t {
      assert forall p :: Orphan(t, w, dst, p) <==> GoneRow(t, w, series, key, p);
    }
  }

  /** A show without a season and episode in its name, or outside any show folder, gets nothing by token. */
  lemma NoTokenNoMove(t: Table, w: World, src: Path, dst: Path)
    requires w.seriesFolder(dst).None? || w.episodeKey(dst).None?
    ensures !TokenMove(t, w, src, dst)
  {
  }

  datatype Source = Sonarr | Radarr

  datatype Claim = Claim(source: Source, id: int, library: string)

  type PathIds = map<Path, Ids>

  function RowClaim(w: World, p: Path, ids: Ids): Option<Claim> {
    if ids.sonarr.Some? then Some(Claim(Sonarr, ids.sonarr.value, w.library(p)))
    else if ids.radarr.Some? then Some(Claim(Radarr, ids.radarr.value, w.library(p)))
    else None
  }

  /** The snapshot names file `p` for this id in this library. */
  predicate Claims(w: World, pathIds: PathIds, p: Path, c: Claim) {
    && p in pathIds && w.library(p) == c.library
    && (match c.source case Sonarr => pathIds[p].sonarr case Radarr => pathIds[p].radarr) == Some(c.id)
  }

  /** The one existing file, of the row's own library, that carries the id of a row whose file is gone. */
  ghost predicate IdTarget(w: World, pathIds: PathIds, src: Path, ids: Ids, dst: Path) {
    && w.place(src).Gone? && RowClaim(w, src, ids).Some?
    && Claims(w, pathIds, dst, RowClaim(w, src, ids).value)
    && (forall p :: Claims(w, pathIds, p, RowClaim(w, src, ids).value) ==> p == dst)
    && dst != src && w.place(dst).Present?
  }

  /** By arr id: the row moves to its target, when that has no row yet. */
  ghost predicate IdMove(t: Table, w: World, pathIds: PathIds, src: Path, dst: Path) {
    src in t && dst !in t && IdTarget(w, pathIds, src, t[src].ids, dst)
  }

  /** The snapshot gives the file the id a row goes by: its sonarr id, or without one its radarr id. */
  predicate NamedAs(pathIds: PathIds, p: Path, ids: Ids) {
    && p in pathIds
    && if ids.sonarr.Some? then pathIds[p].sonarr == ids.sonarr
       else ids.radarr.Some? && pathIds[p].radarr == ids.radarr
  }

  /** An id move is open when the file is gone, and of the files of its library exactly one other has its id, exists and has no row. */
  lemma IdMoveExactly(t: Table, w: World, pathIds: PathIds, src: Path, dst: Path)
    ensures IdMove(t, w, pathIds, src, dst) <==>
      && src in t && dst !in t && dst != src && w.place(src).Gone? && w.place(dst).Present?
      && NamedAs(pathIds, dst, t[src].ids) && w.library(dst) == w.library(src)
      && forall p :: NamedAs(pathIds, p, t[src].ids) && w.library(p) == w.library(src) ==> p == dst
  {
    if src in t && RowClaim(w, src, t[src].ids).Some? {
      assert forall p :: Claims(w, pathIds, p, RowClaim(w, src, t[src].ids).value)
                    <==> NamedAs(pathIds, p, t[src].ids) && w.library(p) == w.library(src);
    }
  }

  ghost predicate NoIdMove(t: Table, w: World, pathIds: PathIds, src: Path) {
    forall dst :: !IdMove(t, w, pathIds, src, dst)
  }

  /** A gone episode file whose show holds exactly one video of that episode. */
  predicate HasSuccessor(w: World, src: Path) {
    && w.episodeKey(src).Some? && w.seriesFolder(src).Some? && w.place(src).Gone?
    && !w.place(w.seriesFolder(src).value).Outside?
    && |w.videos(w.seriesFolder(src).value, w.episodeKey(src).value)| == 1
  }

  function Successor(w: World, src: Path): Path
    requires HasSuccessor(w, src)
  {
    w.videos(w.seriesFolder(src).value, w.episodeKey(src).value)[0].name
  }

  ghost predicate IsSuccessor(t: Table, w: World, dst: Path) {
    exists p :: p in t && HasSuccessor(w, p) && Successor(w, p) == dst
  }

  /** The file of a row is gone, and the walk of its show lists one video of the episode: `dst`, at that place. */
  predicate ReplacedBy(t: Table, w: World, p: Path, series: Path, key: Key, dst: Path, at: Location) {
    && p in t && w.place(p).Gone? && w.seriesFolder(p) == Some(series) && w.episodeKey(p) == Some(key)
    && !w.place(series).Outside? && w.videos(series, key) == [Video(dst, at)]
  }

  /** The replacement files are those that are listed alone for the episode of a gone row. */
  lemma SuccessorExactly(t: Table, w: World, dst: Path)
    ensures IsSuccessor(t, w, dst) <==> exists p, series, key, at :: ReplacedBy(t, w, p, series, key, dst, at)
  {
    if IsSuccessor(t, w, dst) {
      var p :| p in t && HasSuccessor(w, p) && Successor(w, p) == dst;
      var series, key := w.seriesFolder(p).value, w.episodeKey(p).value;
      assert ReplacedBy(t, w, p, series, key, dst, w.videos(series, key)[0].at);
    }
    if p, series, key, at :| ReplacedBy(t, w, p, series, key, dst, at) {
      assert HasSuccessor(w, p) && Successor(w, p) == dst;
    }
  }

  /** No move is open to the sweep. */
  ghost predicate Settled(t: Table, w: World, pathIds: PathIds) {
    && (forall src, dst :: IsSuccessor(t, w, dst) ==> !TokenMove(t, w, src, dst))
    && (forall src, dst :: !IdMove(t, w, pathIds, src, dst))
  }

  ghost predicate SweepStep(t: Table, w: World, pathIds: PathIds, m: Move) {
    m.kind.Carried? && (TokenMove(t, w, m.src, m.dst) || IdMove(t, w, pathIds, m.src, m.dst))
  }

  ghost predicate SweepSteps(t: Table, w: World, pathIds: PathIds, moves: seq<Move>) {
    moves == []
    || (SweepSteps(t, w, pathIds, moves[..|moves| - 1])
        && SweepStep(After(t, moves[..|moves| - 1]), w, pathIds, moves[|moves| - 1]))
  }

  ghost predicate NoTokenMove(t: Table, w: World, dst: Path) {
    forall src :: !TokenMove(t, w, src, dst)
  }

  /** At some point of the sweep no token move to the file was open. */
  ghost predicate TurnedDown(t: Table, w: World, moves: seq<Move>, dst: Path) {
    exists k :: 0 <= k <= |moves| && NoTokenMove(After(t, moves[..k]), w, dst)
  }

  /** The sweep moved a row to the file, or found nothing to move there when its turn came. */
  ghost predicate Tried(t: Table, w: World, moves: seq<Move>, dst: Path) {
    (exists i :: 0 <= i < |moves| && moves[i].dst == dst) || TurnedDown(t, w, moves, dst)
  }

  /** Every replacement file had its turn. */
  ghost predicate AllTried(t: Table, w: World, moves: seq<Move>) {
    forall dst :: IsSuccessor(t, w, dst) ==> Tried(t, w, moves, dst)
  }

  ghost predicate GoesByToken(t: Table, w: World, moves: seq<Move>, i: nat)
    requires i < |moves|
  {
    IsSuccessor(t, w, moves[i].dst) && TokenMove(After(t, moves[..i]), w, moves[i].src, moves[i].dst)
  }

  ghost predicate GoesById(t: Table, w: World, pathIds: PathIds, moves: seq<Move>, i: nat)
    requires i < |moves|
  {
    IdMove(After(t, moves[..i]), w, pathIds, moves[i].src, moves[i].dst)
  }

  /** The first n moves are the token pass, in which every replacement file has its turn; the rest go by id. */
  ghost predicate Passes(t: Table, w: World, pathIds: PathIds, moves: seq<Move>, n: nat) {
    && n <= |moves| && AllTried(t, w, moves[..n])
    && (forall i :: 0 <= i < n ==> GoesByToken(t, w, moves, i))
    && (forall i :: n <= i < |moves| ==> GoesById(t, w, pathIds, moves, i))
  }

  /**
   * What one sweep may do: legal steps, and none exactly when none is open; first a token pass in
   * which every replacement file has its turn, then an id pass that leaves no id move open.
   */
  ghost predicate IsSweep(t: Table, w: World, pathIds: PathIds, moves: seq<Move>) {
    && SweepSteps(t, w, pathIds, moves) && (moves == [] <==> Settled(t, w, pathIds))
    && (exists n :: Passes(t, w, pathIds, moves, n))
    && forall src :: NoIdMove(After(t, moves), w, pathIds, src)
  }

  // ---------- the class ----------

  datatype Intent = Intent(lang: string, source: string, confidence: real, declaredAt: real)

  type Intents = map<Path, Intent>

  /** Any order a table scan may return. */
  method AnyOrder(s: set<Path>) returns (order: seq<Path>)
    ensures forall p :: p in order <==> p in s
    ensures forall i, j :: 0 <= i < j < |order| ==> order[i] != order[j]
  {
    order := [];
    var rest := s;
    while rest != {}
      invariant forall p :: p in s <==> p in order || p in rest
      invariant forall p :: p in order ==> p !in rest
      invariant forall i, j :: 0 <= i < j < |order| ==> order[i] != order[j]
      decreases rest
    {
      var p :| p in rest;
      order := order + [p];
      rest := rest - {p};
    }
  }

  lemma OnlyOne<T>(s: set<T>, x: T)
    requires x in s
    ensures |s| == 1 <==> forall y :: y in s ==> y == x
  {
    if |s| == 1 {
      assert |s - {x}| == 0;
    }
    if forall y :: y in s ==> y == x {
      assert s == {x};
    }
  }

  function Coalesce<T>(a: Option<T>, b: Option<T>): Option<T> { if a.Some? then a else b }

  function WithSlash(prefix: string): string {
    if Text.EndsWith(prefix, "/") then prefix else prefix + "/"
  }

  /** The declaration a path inherits: the longest declared prefix of it. */
  ghost predicate Inherits(intents: Intents, path: Path, prefix: Path) {
    && prefix in intents && Text.StartsWith(path, prefix)
    && forall q :: q in intents && Text.StartsWith(path, q) ==> |q| <= |prefix|
  }

  function Languages(t: Table, ps: seq<Path>): set<(string, string, string)>
    requires forall p :: p in ps ==> p in t
  {
    set p | p in ps :: Tongue(t[p])
  }

  ghost predicate Agree(t: Table, ps: seq<Path>, q: Path)
    requires q in t && forall p :: p in ps ==> p in t
  {
    forall p :: p in ps ==> Tongue(t[p]) == Tongue(t[q])
  }

  lemma OneLanguage(t: Table, ps: seq<Path>, q: Path)
    requires q in ps && forall p :: p in ps ==> p in t
    ensures |Languages(t, ps)| == 1 <==> Agree(t, ps, q)
  {
    var languages := Languages(t, ps);
    assert Tongue(t[q]) in languages;
    OnlyOne(languages, Tongue(t[q]));
    forall p | p in ps ensures Tongue(t[p]) in languages {}
  }

  ghost predicate NoDups(s: seq<Path>) {
    forall i, j :: 0 <= i < j < |s| ==> s[i] != s[j]
  }

  lemma OneElement(s: seq<Path>, x: Path)
    requires NoDups(s) && x in s && forall y :: y in s ==> y == x
    ensures |s| == 1
  {
    assert s[0] in s && s[|s| - 1] in s;
    assert s[0] == x && s[|s| - 1] == x;
  }

  function Added(claims: map<Claim, seq<Path>>, c: Claim, p: Path): map<Claim, seq<Path>> {
    claims[c := (if c in claims then claims[c] else []) + [p]]
  }

  ghost predicate Claimed(claims: map<Claim, seq<Path>>, c: Claim, p: Path) {
    c in claims && p in claims[c]
  }

  lemma AddedClaims(claims: map<Claim, seq<Path>>, c: Claim, p: Path)
    requires !Claimed(claims, c, p) && forall d :: d in claims ==> NoDups(claims[d])
    ensures forall d :: d in Added(claims, c, p) ==> NoDups(Added(claims, c, p)[d])
    ensures forall d, q :: Claimed(Added(claims, c, p), d, q) <==> Claimed(claims, d, q) || (d == c && q == p)
  {
  }

  class AudioLangStore {
    var verdicts: Table
    var intents: Intents

    constructor ()
      ensures verdicts == map[] && intents == map[]
    {
      verdicts, intents := map[], map[];
    }

    /** Re-verifying replaces the row but keeps an id the new row does not bring. */
    method Upsert(path: Path, v: Verdict)
      modifies this`verdicts
      ensures verdicts.Keys == old(verdicts).Keys + {path}
      ensures forall p :: p in old(verdicts) && p != path ==> verdicts[p] == old(verdicts)[p]
      ensures verdicts[path].(ids := v.ids) == v
      ensures verdicts[path].ids.sonarr ==
        if v.ids.sonarr.Some? || path !in old(verdicts) then v.ids.sonarr else old(verdicts)[path].ids.sonarr
      ensures verdicts[path].ids.radarr ==
        if v.ids.radarr.Some? || path !in old(verdicts) then v.ids.radarr else old(verdicts)[path].ids.radarr
    {
      if path in verdicts {
        var known := verdicts[path].ids;
        verdicts := verdicts[path := v.(ids := Ids(Coalesce(v.ids.sonarr, known.sonarr), Coalesce(v.ids.radarr, known.radarr)))];
      } else {
        verdicts := verdicts[path := v];
      }
    }

    method FindCarryOver(newPath: Path, w: World) returns (r: Option<Path>)
      ensures r.Some? ==> TokenMove(verdicts, w, r.value, newPath)
      ensures r.None? ==> forall src' :: !TokenMove(verdicts, w, src', newPath)
    {
      var key, series := w.episodeKey(newPath), w.seriesFolder(newPath);
      if key.None? || series.None? || newPath in verdicts {
        return None;
      }
      var scan := AnyOrder(verdicts.Keys);
      var rows: seq<Path> := [];
      for i := 0 to |scan|
        invariant forall p :: p in rows <==> p in scan[..i] && Candidate(verdicts, w, newPath, p)
      {
        assert scan[..i + 1] == scan[..i] + [scan[i]];
        Text.LikePrefixMatchesUnder(series.value, scan[i]);
        if Text.Like(Text.LikePrefix(series.value), scan[i]) && scan[i] != newPath && w.episodeKey(scan[i]) == key {
          rows := rows + [scan[i]];
        }
      }
      assert scan[..|scan|] == scan;
      assert forall p :: Candidate(verdicts, w, newPath, p) ==> p in scan;
      if rows == [] {
        assert forall p :: Candidate(verdicts, w, newPath, p) ==> p in rows;
        return None;
      }
      if w.place(series.value).Outside? || w.place(newPath).Outside? {
        return None;
      }
      var orphans: seq<Path> := [];
      for i := 0 to |rows|
        invariant forall p :: p in orphans <==> p in rows[..i] && w.place(p).Gone?
      {
        assert rows[..i + 1] == rows[..i] + [rows[i]];
        if !w.place(rows[i]).Outside? && !w.place(rows[i]).Present? {
          orphans := orphans + [rows[i]];
        }
      }
      assert rows[..|rows|] == rows;
      assert forall p :: Orphan(verdicts, w, newPath, p) <==> p in orphans;
      if orphans == [] {
        return None;
      }
      var same := w.videos(series.value, key.value);
      if |same| != 1 || same[0].at != w.resolve(newPath) {
        assert !SoleVideo(w, newPath);
        return None;
      }
      r := AgreedNewest(orphans);
    }

    /** The languages of the orphans must agree; the most recent one moves. */
    method AgreedNewest(orphans: seq<Path>) returns (r: Option<Path>)
      requires orphans != [] && forall p :: p in orphans ==> p in verdicts
      ensures r.Some? ==> r.value in orphans && Agree(verdicts, orphans, r.value)
      ensures r.Some? ==> forall p :: p in orphans ==> verdicts[p].verifiedAt <= verdicts[r.value].verifiedAt
      ensures r.None? ==> forall q :: q in orphans ==> !Agree(verdicts, orphans, q)
    {
      var languages := Languages(verdicts, orphans);
      forall q | q in orphans ensures |languages| == 1 <==> Agree(verdicts, orphans, q) {
        OneLanguage(verdicts, orphans, q);
      }
      if |languages| != 1 {
        return None;
      }
      var best := orphans[0];
      for i := 1 to |orphans|
        invariant best in orphans
        invariant forall j :: 0 <= j < i ==> verdicts[orphans[j]].verifiedAt <= verdicts[best].verifiedAt
      {
        if verdicts[orphans[i]].verifiedAt > verdicts[best].verifiedAt {
          best := orphans[i];
        }
      }
      r := Some(best);
    }

    method MoveVerdict(source: Path, newPath: Path, kind: Kind) returns (ok: bool)
      modifies this`verdicts
      ensures ok <==> source in old(verdicts) && newPath !in old(verdicts)
      ensures !ok ==> verdicts == old(verdicts)
      ensures ok ==> MovedRow(old(verdicts), verdicts, source, newPath, kind)
      ensures ok == Movable(old(verdicts), Move(source, newPath, kind))
      ensures verdicts == Moved(old(verdicts), Move(source, newPath, kind))
    {
      if source !in verdicts {
        return false;
      }
      var evidence := Noted(verdicts[source].evidence, source, kind);
      if newPath in verdicts {
        return false;
      }
      var row := verdicts[source];
      verdicts := (verdicts - {source})[newPath := row.(evidence := evidence)];
      ok := true;
    }

    method CarryOver(newPath: Path, w: World) returns (carried: Option<Path>)
      modifies this`verdicts
      ensures carried.Some? ==> TokenMove(old(verdicts), w, carried.value, newPath)
                                && verdicts == Moved(old(verdicts), Move(carried.value, newPath, Carried))
      ensures carried.None? ==> verdicts == old(verdicts) && forall src' :: !TokenMove(old(verdicts), w, src', newPath)
    {
      carried := FindCarryOver(newPath, w);
      if carried.Some? {
        var ok := MoveVerdict(carried.value, newPath, Carried);
      }
    }

    method Relink(source: Path, newPath: Path) returns (ok: bool)
      modifies this`verdicts
      ensures ok == Movable(old(verdicts), Move(source, newPath, Relinked))
      ensures verdicts == Moved(old(verdicts), Move(source, newPath, Relinked))
    {
      ok := MoveVerdict(source, newPath, Relinked);
    }

    method SweepSuccessors(w: World) returns (successors: set<Path>)
      ensures forall p :: p in successors <==> IsSuccessor(verdicts, w, p)
    {
      var paths := AnyOrder(verdicts.Keys);
      successors := {};
      for i := 0 to |paths|
        invariant forall q :: q in successors <==>
          exists p :: p in paths[..i] && HasSuccessor(w, p) && Successor(w, p) == q
      {
        assert paths[..i + 1] == paths[..i] + [paths[i]];
        var gone := paths[i];
        var key, series := w.episodeKey(gone), w.seriesFolder(gone);
        if key.None? || series.None? {
          continue;
        }
        if !w.place(gone).Gone? || w.place(series.value).Outside? {
          continue;
        }
        var same := w.videos(series.value, key.value);
        if |same| == 1 {
          successors := successors + {same[0].name};
          assert HasSuccessor(w, gone) && Successor(w, gone) == same[0].name;
        }
      }
      assert paths[..|paths|] == paths;
    }

    method SweepCarryOvers(w: World, pathIds: PathIds) returns (moved: seq<Move>)
      modifies this`verdicts
      ensures IsSweep(old(verdicts), w, pathIds, moved)
      ensures exists n :: Passes(old(verdicts), w, pathIds, moved, n) && ByName(moved, n)
      ensures verdicts == After(old(verdicts), moved)
    {
      ghost var start := verdicts;
      var successors := SweepSuccessors(w);
      var scan := AnyOrder(successors);
      var order := Sorted(scan, PathLe);
      forall p ensures p in order <==> IsSuccessor(start, w, p) {
        SortedPermutes(scan, PathLe);
        SameElements(order, scan, p);
      }
      PathLeIsTotal();
      SortedInOrder(scan, PathLe);
      moved := CarrySuccessors(w, pathIds, order);
      TokenPassEnds(start, w, pathIds, moved, order);
      moved := CarryById(w, pathIds, moved, start);
    }

    /** The token pass of the sweep: each replacement file in turn. */
    method CarrySuccessors(w: World, ghost pathIds: PathIds, order: seq<Path>) returns (moved: seq<Move>)
      requires forall p :: p in order ==> IsSuccessor(verdicts, w, p)
      requires InOrder(order, PathLe)
      modifies this`verdicts
      ensures verdicts == After(old(verdicts), moved)
      ensures TokenPass(old(verdicts), w, pathIds, moved, order, |order|) && Along(moved, order, |order|)
    {
      ghost var start := verdicts;
      moved := [];
      for i := 0 to |order|
        invariant verdicts == After(start, moved)
        invariant TokenPass(start, w, pathIds, moved, order, i) && Along(moved, order, i)
      {
        var carried := CarryOver(order[i], w);
        if carried.Some? {
          var m := Move(carried.value, order[i], Carried);
          TokenPassMoves(start, w, pathIds, moved, order, i, m);
          AlongSnoc(moved, order, i, m);
          moved := moved + [m];
        } else {
          TokenPassTurnsDown(start, w, pathIds, moved, order, i);
        }
      }
    }

    /** The id pass of the sweep, continuing the moves of the token pass. */
    method CarryById(w: World, pathIds: PathIds, before: seq<Move>, ghost start: Table) returns (moved: seq<Move>)
      requires verdicts == After(start, before) && IdPass(start, w, pathIds, before, |before|)
      modifies this`verdicts
      ensures before <= moved && IdPass(start, w, pathIds, moved, |before|) && IsSweep(start, w, pathIds, moved)
      ensures verdicts == After(start, moved)
    {
      moved := before;
      var claims := CollectClaims(w, pathIds);
      var scan := AnyOrder(verdicts.Keys);
      for i := 0 to |scan|
        invariant verdicts == After(start, moved) && before <= moved && IdPass(start, w, pathIds, moved, |before|)
        invariant Scanned(verdicts, w, pathIds, scan, i)
      {
        ghost var t := verdicts;
        var m := CarryOneById(w, pathIds, claims, scan[i]);
        ScannedNext(t, w, pathIds, scan, i, m);
        if m.Some? {
          IdPassMoves(start, w, pathIds, moved, |before|, m.value);
          moved := moved + [m.value];
        }
      }
      ScannedAll(verdicts, w, pathIds, scan);
      IdPassEnds(start, w, pathIds, moved, |before|);
    }

    /** One row of the id pass: its move is made when it is open. */
    method CarryOneById(w: World, pathIds: PathIds, claims: map<Claim, seq<Path>>, src: Path) returns (m: Option<Move>)
      requires src in verdicts
      requires forall c, p :: Claims(w, pathIds, p, c) <==> Claimed(claims, c, p)
      requires forall c :: c in claims ==> NoDups(claims[c])
      modifies this`verdicts
      ensures m.Some? ==> m.value.src == src && m.value.kind.Carried?
      ensures m.Some? ==> IdMove(old(verdicts), w, pathIds, src, m.value.dst) && verdicts == Moved(old(verdicts), m.value)
      ensures m.None? ==> verdicts == old(verdicts) && NoIdMove(verdicts, w, pathIds, src)
    {
      var dst := SoleClaimant(w, pathIds, claims, src, verdicts[src].ids);
      if dst.None? {
        return None;
      }
      var ok := MoveVerdict(src, dst.value, Carried);
      m := if ok then Some(Move(src, dst.value, Carried)) else None;
    }

    /** The unambiguous successor of a row by id, whether or not it has a row of its own. */
    static method SoleClaimant(w: World, pathIds: PathIds, claims: map<Claim, seq<Path>>, src: Path, ids: Ids)
      returns (r: Option<Path>)
      requires forall c, p :: Claims(w, pathIds, p, c) <==> Claimed(claims, c, p)
      requires forall c :: c in claims ==> NoDups(claims[c])
      ensures forall dst :: IdTarget(w, pathIds, src, ids, dst) <==> r == Some(dst)
    {
      var claim := RowClaim(w, src, ids);
      if claim.None? || !w.place(src).Gone? {
        return None;
      }
      var candidates := if claim.value in claims then claims[claim.value] else [];
      assert forall p :: p in candidates <==> Claims(w, pathIds, p, claim.value) by {
        assert forall p :: p in candidates <==> Claimed(claims, claim.value, p);
      }
      if |candidates| != 1 {
        forall dst ensures !IdTarget(w, pathIds, src, ids, dst) {
          if IdTarget(w, pathIds, src, ids, dst) {
            OneElement(candidates, dst);
          }
        }
        return None;
      }
      assert forall p :: p in candidates ==> p == candidates[0];
      assert candidates[0] in candidates;
      if candidates[0] == src || !w.place(candidates[0]).Present? {
        return None;
      }
      r := Some(candidates[0]);
    }

    /** (source, id, library) to the existing files the snapshot names for it. */
    method CollectClaims(w: World, pathIds: PathIds) returns (claims: map<Claim, seq<Path>>)
      ensures forall c, p :: Claims(w, pathIds, p, c) <==> Claimed(claims, c, p)
      ensures forall c :: c in claims ==> NoDups(claims[c])
    {
      var scan := AnyOrder(pathIds.Keys);
      claims := map[];
      for i := 0 to |scan|
        invariant forall c, p :: Claimed(claims, c, p) <==> p in scan[..i] && Claims(w, pathIds, p, c)
        invariant forall c :: c in claims ==> NoDups(claims[c])
      {
        assert scan[..i + 1] == scan[..i] + [scan[i]];
        var p := scan[i];
        assert p !in scan[..i];
        var ids := pathIds[p];
        if ids.sonarr.Some? {
          AddedClaims(claims, Claim(Sonarr, ids.sonarr.value, w.library(p)), p);
          claims := Added(claims, Claim(Sonarr, ids.sonarr.value, w.library(p)), p);
        }
        if ids.radarr.Some? {
          AddedClaims(claims, Claim(Radarr, ids.radarr.value, w.library(p)), p);
          claims := Added(claims, Claim(Radarr, ids.radarr.value, w.library(p)), p);
        }
      }
      assert scan[..|scan|] == scan;
    }

    /** Give rows without any id the id of the file they name, if that file is on disk. */
    method BackfillIds(w: World, pathIds: PathIds)
      modifies this`verdicts
      ensures verdicts == Backfilled(old(verdicts), w, pathIds)
      ensures FillsIds(old(verdicts), verdicts, w, pathIds)
    {
      ghost var start := verdicts;
      var scan := AnyOrder(verdicts.Keys);
      for i := 0 to |scan|
        invariant BackfilledUpTo(verdicts, start, w, pathIds, scan, i)
      {
        BackfillNext(verdicts, start, w, pathIds, scan, i);
        var p := scan[i];
        if verdicts[p].ids != Ids(None, None) || p !in pathIds {
          continue;
        }
        if pathIds[p] == Ids(None, None) {
          continue;
        }
        if !w.place(p).Present? {
          continue;
        }
        verdicts := verdicts[p := verdicts[p].(ids := pathIds[p])];
      }
      assert scan[..|scan|] == scan;
    }

    method SetSeriesIntent(prefix: Path, intent: Intent)
      modifies this`intents
      ensures intents == old(intents)[WithSlash(prefix) := intent]
      ensures prefix != "" && prefix[|prefix| - 1] == '/' ==> intents == old(intents)[prefix := intent]
      ensures prefix == "" || prefix[|prefix| - 1] != '/' ==> intents == old(intents)[prefix + "/" := intent]
    {
      intents := intents[WithSlash(prefix) := intent];
    }

    /** The longest declared prefix of the path, by a scan in any order. */
    method LookupSeriesIntent(path: Path) returns (best: Option<Path>)
      ensures best.Some? ==> Inherits(intents, path, best.value)
      ensures best.Some? ==> best.value in intents && Text.StartsWith(path, best.value)
      ensures best.Some? ==> forall q :: q in intents && Text.StartsWith(path, q) ==> |q| <= |best.value|
      ensures best.None? ==> forall q :: q in intents ==> !Text.StartsWith(path, q)
    {
      var scan := AnyOrder(intents.Keys);
      best := None;
      var bestLen := -1;
      for i := 0 to |scan|
        invariant best.None? ==> bestLen == -1 && forall j :: 0 <= j < i ==> !Text.StartsWith(path, scan[j])
        invariant best.Some? ==> best.value in intents && Text.StartsWith(path, best.value) && bestLen == |best.value|
        invariant best.Some? ==> forall j :: 0 <= j < i && Text.StartsWith(path, scan[j]) ==> |scan[j]| <= bestLen
      {
        if Text.StartsWith(path, scan[i]) && |scan[i]| > bestLen {
          best := Some(scan[i]);
          bestLen := |scan[i]|;
        }
      }
      forall q | q in intents && best.None? ensures !Text.StartsWith(path, q) { assert q in scan; }
      forall q | q in intents && best.Some? && Text.StartsWith(path, q) ensures |q| <= bestLen { assert q in scan; }
    }

    /** The language and source a path resolves to, without following replacements. */
    method Get(path: Path) returns (r: Option<(string, string)>)
      ensures r == Answer(verdicts, intents, path)
    {
      if path in verdicts {
        return Some((verdicts[path].lang, verdicts[path].source));
      }
      var best := LookupSeriesIntent(path);
      if best.None? {
        return None;
      }
      InheritsUnique(intents, path);
      r := Some((intents[best.value].lang, "series_intent:" + intents[best.value].source));
    }

    /** The queue-time lookup: a verdict orphaned by a replacement of this file is first moved here. */
    method GetFollowingReplaced(path: Path, w: World) returns (r: Option<(string, string)>)
      modifies this`verdicts
      ensures r == Answer(verdicts, intents, path)
      ensures path in old(verdicts) ==> verdicts == old(verdicts)
      ensures verdicts == old(verdicts) ==> path in verdicts || NoTokenMove(verdicts, w, path)
      ensures verdicts == old(verdicts)
        || exists src :: TokenMove(old(verdicts), w, src, path) && verdicts == Moved(old(verdicts), Move(src, path, Carried))
    {
      if path !in verdicts {
        var carried := CarryOver(path, w);
      }
      r := Get(path);
    }
  }

  const PathLe: (Path, Path) -> bool := (a, b) => Text.Le(a, b)

  lemma StepExtends(t: Table, w: World, pathIds: PathIds, moves: seq<Move>, m: Move)
    requires SweepSteps(t, w, pathIds, moves) && SweepStep(After(t, moves), w, pathIds, m)
    ensures SweepSteps(t, w, pathIds, moves + [m])
    ensures After(t, moves + [m]) == Moved(After(t, moves), m)
  {
    assert (moves + [m])[..|moves|] == moves;
  }

  // ---------- the bookkeeping of a sweep ----------

  lemma TriedStays(t: Table, w: World, moves: seq<Move>, m: Move, dst: Path)
    requires Tried(t, w, moves, dst)
    ensures Tried(t, w, moves + [m], dst)
  {
    if i :| 0 <= i < |moves| && moves[i].dst == dst {
      assert (moves + [m])[i].dst == dst;
    } else {
      var k :| 0 <= k <= |moves| && NoTokenMove(After(t, moves[..k]), w, dst);
      assert (moves + [m])[..k] == moves[..k];
    }
  }

  lemma TurnedDownNow(t: Table, w: World, moves: seq<Move>, dst: Path)
    requires NoTokenMove(After(t, moves), w, dst)
    ensures Tried(t, w, moves, dst)
  {
    assert moves[..|moves|] == moves;
  }

  lemma TokenMoveUnsettles(t: Table, w: World, pathIds: PathIds, src: Path, dst: Path)
    requires TokenMove(t, w, src, dst) && IsSuccessor(t, w, dst)
    ensures !Settled(t, w, pathIds)
  {
  }

  lemma OwnTurn(t: Table, w: World, moves: seq<Move>, m: Move)
    ensures Tried(t, w, moves + [m], m.dst)
  {
    assert (moves + [m])[|moves|].dst == m.dst;
  }

  /** The token pass has given the first i files their turn. */
  ghost predicate TokenPass(t: Table, w: World, pathIds: PathIds, moves: seq<Move>, order: seq<Path>, i: nat) {
    && SweepSteps(t, w, pathIds, moves) && i <= |order|
    && (forall j :: 0 <= j < i ==> Tried(t, w, moves, order[j]))
    && (moves != [] ==> !Settled(t, w, pathIds)) && TokenSteps(t, w, moves)
  }

  lemma PathLeIsTotal()
    ensures TotalPreorder(PathLe)
  {
    forall a, b ensures PathLe(a, b) || PathLe(b, a) { Text.LeTotal(a, b); }
    forall a, b, c | PathLe(a, b) && PathLe(b, c) ensures PathLe(a, c) { Text.LeTransitive(a, b, c); }
  }

  /** The first n moves go to files in the order of their names. */
  ghost predicate ByName(moves: seq<Move>, n: nat) {
    n <= |moves| && forall j, k :: 0 <= j < k < n ==> Text.Le(moves[j].dst, moves[k].dst)
  }

  /** The moves went, by name, to some of the first i files. */
  ghost predicate Along(moves: seq<Move>, order: seq<Path>, i: nat) {
    i <= |order| && ByName(moves, |moves|) && forall k :: 0 <= k < |moves| ==> moves[k].dst in order[..i]
  }

  lemma AlongSnoc(moves: seq<Move>, order: seq<Path>, i: nat, m: Move)
    requires InOrder(order, PathLe) && Along(moves, order, i) && i < |order| && m.dst == order[i]
    ensures Along(moves + [m], order, i + 1)
  {
    var longer := moves + [m];
    forall k | 0 <= k < |moves| ensures Text.Le(moves[k].dst, m.dst) && moves[k].dst in order[..i + 1] {
      var j :| 0 <= j < i && order[..i][j] == moves[k].dst;
      assert PathLe(order[j], order[i]) && order[..i + 1][j] == moves[k].dst;
    }
    assert order[..i + 1][i] == longer[|moves|].dst;
  }

  ghost predicate TokenSteps(t: Table, w: World, moves: seq<Move>) {
    forall i :: 0 <= i < |moves| ==> GoesByToken(t, w, moves, i)
  }

  lemma MovesOfLonger(t: Table, w: World, pathIds: PathIds, moves: seq<Move>, m: Move, i: nat)
    requires i < |moves|
    ensures GoesByToken(t, w, moves + [m], i) <==> GoesByToken(t, w, moves, i)
    ensures GoesById(t, w, pathIds, moves + [m], i) <==> GoesById(t, w, pathIds, moves, i)
  {
    assert (moves + [m])[..i] == moves[..i];
  }

  lemma TokenStepsExtend(t: Table, w: World, pathIds: PathIds, moves: seq<Move>, m: Move)
    requires TokenSteps(t, w, moves) && TokenMove(After(t, moves), w, m.src, m.dst) && IsSuccessor(t, w, m.dst)
    ensures TokenSteps(t, w, moves + [m])
  {
    forall i | 0 <= i < |moves| ensures GoesByToken(t, w, moves + [m], i) {
      MovesOfLonger(t, w, pathIds, moves, m, i);
    }
    assert (moves + [m])[..|moves|] == moves;
  }

  lemma TokenPassMoves(t: Table, w: World, pathIds: PathIds, moves: seq<Move>, order: seq<Path>, i: nat, m: Move)
    requires TokenPass(t, w, pathIds, moves, order, i) && i < |order| && m.dst == order[i] && IsSuccessor(t, w, m.dst)
    requires m.kind.Carried? && TokenMove(After(t, moves), w, m.src, m.dst)
    ensures TokenPass(t, w, pathIds, moves + [m], order, i + 1) && After(t, moves + [m]) == Moved(After(t, moves), m)
  {
    StepExtends(t, w, pathIds, moves, m);
    TokenStepsExtend(t, w, pathIds, moves, m);
    OwnTurn(t, w, moves, m);
    if moves == [] {
      TokenMoveUnsettles(t, w, pathIds, m.src, m.dst);
    }
    forall j | 0 <= j < i ensures Tried(t, w, moves + [m], order[j]) {
      TriedStays(t, w, moves, m, order[j]);
    }
  }

  lemma TokenPassTurnsDown(t: Table, w: World, pathIds: PathIds, moves: seq<Move>, order: seq<Path>, i: nat)
    requires TokenPass(t, w, pathIds, moves, order, i) && i < |order| && NoTokenMove(After(t, moves), w, order[i])
    ensures TokenPass(t, w, pathIds, moves, order, i + 1)
  {
    TurnedDownNow(t, w, moves, order[i]);
  }

  /** The first n moves were the token pass, and only id moves followed. */
  ghost predicate IdPass(t: Table, w: World, pathIds: PathIds, moves: seq<Move>, n: nat) {
    && SweepSteps(t, w, pathIds, moves) && (moves != [] ==> !Settled(t, w, pathIds)) && Passes(t, w, pathIds, moves, n)
  }

  lemma TokenPassEnds(t: Table, w: World, pathIds: PathIds, moves: seq<Move>, order: seq<Path>)
    requires TokenPass(t, w, pathIds, moves, order, |order|)
    requires forall p :: IsSuccessor(t, w, p) ==> p in order
    ensures IdPass(t, w, pathIds, moves, |moves|)
  {
    assert moves[..|moves|] == moves;
    forall dst | IsSuccessor(t, w, dst) ensures Tried(t, w, moves, dst) {
      var j :| 0 <= j < |order| && order[j] == dst;
    }
  }

  lemma OpenIdMoveUnsettles(t: Table, w: World, pathIds: PathIds, src: Path, dst: Path)
    requires IdMove(t, w, pathIds, src, dst)
    ensures !Settled(t, w, pathIds)
  {
  }

  lemma PassesExtend(t: Table, w: World, pathIds: PathIds, moves: seq<Move>, n: nat, m: Move)
    requires Passes(t, w, pathIds, moves, n) && IdMove(After(t, moves), w, pathIds, m.src, m.dst)
    ensures Passes(t, w, pathIds, moves + [m], n)
  {
    forall i | 0 <= i < |moves|
      ensures i < n ==> GoesByToken(t, w, moves + [m], i)
      ensures n <= i ==> GoesById(t, w, pathIds, moves + [m], i)
    {
      MovesOfLonger(t, w, pathIds, moves, m, i);
    }
    assert (moves + [m])[..n] == moves[..n];
    assert (moves + [m])[..|moves|] == moves;
  }

  lemma IdPassMoves(t: Table, w: World, pathIds: PathIds, moves: seq<Move>, n: nat, m: Move)
    requires IdPass(t, w, pathIds, moves, n)
    requires m.kind.Carried? && IdMove(After(t, moves), w, pathIds, m.src, m.dst)
    ensures IdPass(t, w, pathIds, moves + [m], n) && After(t, moves + [m]) == Moved(After(t, moves), m)
  {
    StepExtends(t, w, pathIds, moves, m);
    PassesExtend(t, w, pathIds, moves, n, m);
    if moves == [] {
      OpenIdMoveUnsettles(t, w, pathIds, m.src, m.dst);
    }
  }

  /** The id pass has dealt with the first i rows it found; rows that appeared since are at existing files. */
  ghost predicate Scanned(t: Table, w: World, pathIds: PathIds, scan: seq<Path>, i: nat) {
    && i <= |scan|
    && (forall j, k :: 0 <= j < k < |scan| ==> scan[j] != scan[k])
    && (forall j :: 0 <= j < i ==> NoIdMove(t, w, pathIds, scan[j]))
    && (forall j :: i <= j < |scan| ==> scan[j] in t)
    && (forall p :: p in t ==> p in scan || w.place(p).Present?)
  }

  /** An id move opens no other: its source is a gone file, and what it fills is an existing one. */
  lemma IdMoveOpensNone(t: Table, w: World, pathIds: PathIds, m: Move, p: Path)
    requires IdMove(t, w, pathIds, m.src, m.dst) && (p == m.src || NoIdMove(t, w, pathIds, p))
    ensures NoIdMove(Moved(t, m), w, pathIds, p)
  {
    var t' := Moved(t, m);
    forall dst ensures !IdMove(t', w, pathIds, p, dst) {
      if p in t' && p != m.dst {
        assert t'[p] == t[p];
        assert !IdMove(t, w, pathIds, p, dst);
      }
    }
  }

  lemma ScannedNext(t: Table, w: World, pathIds: PathIds, scan: seq<Path>, i: nat, m: Option<Move>)
    requires Scanned(t, w, pathIds, scan, i) && i < |scan|
    requires m.Some? ==> m.value.src == scan[i] && IdMove(t, w, pathIds, m.value.src, m.value.dst)
    requires m.None? ==> NoIdMove(t, w, pathIds, scan[i])
    ensures Scanned(if m.Some? then Moved(t, m.value) else t, w, pathIds, scan, i + 1)
  {
    if m.Some? {
      forall j | 0 <= j < i + 1 ensures NoIdMove(Moved(t, m.value), w, pathIds, scan[j]) {
        IdMoveOpensNone(t, w, pathIds, m.value, scan[j]);
      }
    }
  }

  lemma ScannedAll(t: Table, w: World, pathIds: PathIds, scan: seq<Path>)
    requires Scanned(t, w, pathIds, scan, |scan|)
    ensures forall src :: NoIdMove(t, w, pathIds, src)
  {
    forall src ensures NoIdMove(t, w, pathIds, src) {
      if src in scan {
        var j :| 0 <= j < |scan| && scan[j] == src;
        assert NoIdMove(t, w, pathIds, scan[j]);
      }
    }
  }

  /** A sweep that made no move found none open. */
  lemma IdPassEnds(t: Table, w: World, pathIds: PathIds, moves: seq<Move>, n: nat)
    requires IdPass(t, w, pathIds, moves, n) && forall src :: NoIdMove(After(t, moves), w, pathIds, src)
    ensures IsSweep(t, w, pathIds, moves)
  {
    if moves == [] {
      forall src, dst ensures !IdMove(t, w, pathIds, src, dst) {
        assert NoIdMove(After(t, moves), w, pathIds, src);
      }
      forall src, dst | IsSuccessor(t, w, dst) ensures !TokenMove(t, w, src, dst) {
        assert moves[..n] == [];
        assert Tried(t, w, [], dst);
        var k :| 0 <= k <= 0 && NoTokenMove(After(t, [][..k]), w, dst);
      }
    }
  }

  // ---------- id back-fill ----------

  function BackfilledRow(w: World, pathIds: PathIds, p: Path, v: Verdict): Verdict {
    if v.ids == Ids(None, None) && p in pathIds && w.place(p).Present? then v.(ids := pathIds[p]) else v
  }

  /** A row without any id whose file is on disk and has some id in the snapshot. */
  predicate LacksIds(t: Table, w: World, pathIds: PathIds, p: Path) {
    && p in t && t[p].ids.sonarr.None? && t[p].ids.radarr.None?
    && p in pathIds && (pathIds[p].sonarr.Some? || pathIds[p].radarr.Some?)
    && w.place(p).Present?
  }

  /** Those rows carry exactly the ids of their files afterwards; nothing else has changed. */
  ghost predicate FillsIds(t: Table, t': Table, w: World, pathIds: PathIds) {
    && t'.Keys == t.Keys
    && forall p :: p in t ==> t'[p] == if LacksIds(t, w, pathIds, p) then t[p].(ids := pathIds[p]) else t[p]
  }

  function Backfilled(t: Table, w: World, pathIds: PathIds): Table {
    map p | p in t :: BackfilledRow(w, pathIds, p, t[p])
  }

  /** The rows of the first i paths of the scan are back-filled, the others as they were. */
  ghost predicate BackfilledUpTo(t: Table, start: Table, w: World, pathIds: PathIds, scan: seq<Path>, i: nat) {
    && i <= |scan| && t.Keys == start.Keys && (forall p :: p in scan <==> p in start) && NoDups(scan)
    && forall p :: p in start ==> t[p] == if p in scan[..i] then BackfilledRow(w, pathIds, p, start[p]) else start[p]
  }

  lemma BackfillNext(t: Table, start: Table, w: World, pathIds: PathIds, scan: seq<Path>, i: nat)
    requires BackfilledUpTo(t, start, w, pathIds, scan, i) && i < |scan|
    ensures scan[i] in start && t[scan[i]] == start[scan[i]]
    ensures var row := BackfilledRow(w, pathIds, scan[i], start[scan[i]]);
      && BackfilledUpTo(t[scan[i] := row], start, w, pathIds, scan, i + 1)
      && (row == start[scan[i]] ==> BackfilledUpTo(t, start, w, pathIds, scan, i + 1))
  {
    assert scan[..i + 1] == scan[..i] + [scan[i]];
    assert scan[i] !in scan[..i];
  }

  /**
   * What the back-fill is for: a row whose file was on disk when it ran can be carried by id once the
   * file is gone and exactly one other file of its library, existing and without a row, has its id.
   */
  lemma BackfilledRowCanBeCarried(t: Table, t': Table, w: World, pathIds: PathIds,
                                  later: World, laterIds: PathIds, src: Path, dst: Path)
    requires FillsIds(t, t', w, pathIds) && LacksIds(t, w, pathIds, src)
    requires later.place(src).Gone? && later.place(dst).Present? && dst !in t' && dst != src
    requires NamedAs(laterIds, dst, pathIds[src]) && later.library(dst) == later.library(src)
    requires forall p :: NamedAs(laterIds, p, pathIds[src]) && later.library(p) == later.library(src) ==> p == dst
    ensures IdMove(t', later, laterIds, src, dst)
  {
    IdMoveExactly(t', later, laterIds, src, dst);
  }

  // ---------- inheritance ----------

  /** Two longest declared prefixes of one path are the same prefix. */
  lemma InheritsUnique(intents: Intents, path: Path)
    ensures forall p, q :: Inherits(intents, path, p) && Inherits(intents, path, q) ==> p == q
  {
    forall p, q | Inherits(intents, path, p) && Inherits(intents, path, q) ensures p == q {
      assert p == path[..|p|] && q == path[..|q|];
    }
  }

  /** What `get` promises: the exact row, else the longest declared prefix, else nothing. */
  ghost function Answer(t: Table, intents: Intents, path: Path): Option<(string, string)> {
    if path in t then Some((t[path].lang, t[path].source))
    else if q :| Inherits(intents, path, q) then Some((intents[q].lang, "series_intent:" + intents[q].source))
    else None
  }
}
