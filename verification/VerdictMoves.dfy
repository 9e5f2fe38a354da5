/** What sequences of verdict moves, sweeps and back-fills keep, on an unchanged disk. */
module VerdictMoves {
  import opened Common
  import opened AudioLangStore
  import Text

  // ---------- any sequence of moves ----------

  /** Everything about a row but the note of where it came from. */
  predicate SameVerdict(a: Verdict, b: Verdict) {
    a.(evidence := b.evidence) == b
  }

  /** Where the row that is at `p` after the moves was before them. */
  function Origin(t: Table, moves: seq<Move>, p: Path): Path {
    if moves == [] then p
    else
      var front, last := moves[..|moves| - 1], moves[|moves| - 1];
      Origin(t, front, if Movable(After(t, front), last) && last.dst == p then last.src else p)
  }

  /** Carry-overs, relinks and id moves in any order lose no row, merge no rows and change no verdict. */
  lemma {:induction false} MovesConserve(t: Table, moves: seq<Move>)
    ensures |After(t, moves)| == |t|
    ensures forall p :: p in After(t, moves) ==>
      Origin(t, moves, p) in t && SameVerdict(After(t, moves)[p], t[Origin(t, moves, p)])
    ensures forall p, q :: p in After(t, moves) && q in After(t, moves) && Origin(t, moves, p) == Origin(t, moves, q) ==> p == q
  {
    if moves != [] {
      var front, last := moves[..|moves| - 1], moves[|moves| - 1];
      MovesConserve(t, front);
      MoveKeepsCount(After(t, front), last);
    }
  }

  lemma MoveKeepsCount(t: Table, m: Move)
    ensures |Moved(t, m)| == |t|
  {
    if Movable(t, m) {
      var rest := t - {m.src};
      assert t.Keys == rest.Keys + {m.src};
      assert Moved(t, m).Keys == rest.Keys + {m.dst};
      assert |t.Keys| == |rest.Keys| + 1;
    }
  }

  /** A row nobody moves is untouched: no move overwrites it. */
  lemma {:induction false} UnmovedRowStays(t: Table, moves: seq<Move>, p: Path)
    requires p in t && forall i :: 0 <= i < |moves| ==> moves[i].src != p
    ensures p in After(t, moves) && After(t, moves)[p] == t[p]
  {
    if moves != [] {
      UnmovedRowStays(t, moves[..|moves| - 1], p);
      assert moves[|moves| - 1].src != p;
    }
  }

  // ---------- sweeps ----------

  /** Verdicts whose file is gone. */
  function OrphanRows(t: Table, w: World): set<Path> {
    set p | p in t && w.place(p).Gone?
  }

  /** Each step of a sweep takes a verdict away from a gone file, for one that exists. */
  lemma StepClearsOrphan(t: Table, w: World, pathIds: PathIds, m: Move)
    requires SweepStep(t, w, pathIds, m)
    ensures w.place(m.src).Gone? && w.place(m.dst).Present? && Movable(t, m) && m.src in OrphanRows(t, w)
    ensures OrphanRows(Moved(t, m), w) == OrphanRows(t, w) - {m.src}
  {
    if TokenMove(t, w, m.src, m.dst) {
      SoleVideoExists(w, m.dst);
    }
  }

  /** A sweep removes exactly as many orphans as it makes moves. */
  lemma {:induction false} SweepClearsOrphans(t: Table, w: World, pathIds: PathIds, moves: seq<Move>)
    requires SweepSteps(t, w, pathIds, moves)
    ensures |OrphanRows(After(t, moves), w)| + |moves| == |OrphanRows(t, w)|
  {
    if moves != [] {
      var front, last := moves[..|moves| - 1], moves[|moves| - 1];
      SweepClearsOrphans(t, w, pathIds, front);
      StepClearsOrphan(After(t, front), w, pathIds, last);
    }
  }

  /** Every move of a sweep leaves a gone file, for one that exists. */
  lemma {:induction false} SweepMovesForward(t: Table, w: World, pathIds: PathIds, moves: seq<Move>, i: nat)
    requires SweepSteps(t, w, pathIds, moves) && i < |moves|
    ensures w.place(moves[i].src).Gone? && w.place(moves[i].dst).Present?
  {
    var front, last := moves[..|moves| - 1], moves[|moves| - 1];
    if i < |moves| - 1 {
      SweepMovesForward(t, w, pathIds, front, i);
    } else {
      StepClearsOrphan(After(t, front), w, pathIds, last);
    }
  }

  lemma {:induction false} MovedRowsSettle(t: Table, w: World, pathIds: PathIds, moves: seq<Move>, i: nat)
    requires SweepSteps(t, w, pathIds, moves) && i < |moves|
    ensures moves[i].src !in After(t, moves) && moves[i].dst in After(t, moves)
  {
    var front, last := moves[..|moves| - 1], moves[|moves| - 1];
    StepClearsOrphan(After(t, front), w, pathIds, last);
    SweepMovesForward(t, w, pathIds, moves, i);
    if i < |moves| - 1 {
      MovedRowsSettle(t, w, pathIds, front, i);
      assert front[i] == moves[i];
    }
  }

  /** No file is moved from twice, moved to twice, or both. */
  lemma {:induction false} SweepMovesAreDistinct(t: Table, w: World, pathIds: PathIds, moves: seq<Move>, i: nat, j: nat)
    requires SweepSteps(t, w, pathIds, moves) && i < j < |moves|
    ensures moves[i].src != moves[j].src && moves[i].dst != moves[j].dst
    ensures moves[i].src != moves[j].dst && moves[j].src != moves[i].dst
  {
    SweepMovesForward(t, w, pathIds, moves, i);
    SweepMovesForward(t, w, pathIds, moves, j);
    var front, last := moves[..|moves| - 1], moves[|moves| - 1];
    assert front[i] == moves[i];
    if j < |moves| - 1 {
      assert front[j] == moves[j];
      SweepMovesAreDistinct(t, w, pathIds, front, i, j);
    } else {
      StepClearsOrphan(After(t, front), w, pathIds, last);
      MovedRowsSettle(t, w, pathIds, front, i);
    }
  }

  /** Sweep k of a series of sweeps with nothing in between. */
  ghost predicate SweepAt(ts: seq<Table>, sweeps: seq<seq<Move>>, w: World, pathIds: PathIds, k: nat)
    requires k < |sweeps| && |ts| == |sweeps| + 1
  {
    IsSweep(ts[k], w, pathIds, sweeps[k]) && ts[k + 1] == After(ts[k], sweeps[k])
  }

  ghost predicate SweepSeries(ts: seq<Table>, sweeps: seq<seq<Move>>, w: World, pathIds: PathIds) {
    |ts| == |sweeps| + 1 && forall k :: 0 <= k < |sweeps| ==> SweepAt(ts, sweeps, w, pathIds, k)
  }

  lemma QuietTwice(t: Table, w: World, pathIds: PathIds, moves: seq<Move>)
    requires IsSweep(t, w, pathIds, []) && IsSweep(t, w, pathIds, moves)
    ensures moves == []
  {
  }

  lemma QuietOnceMore(ts: seq<Table>, sweeps: seq<seq<Move>>, w: World, pathIds: PathIds, k: nat)
    requires SweepSeries(ts, sweeps, w, pathIds) && 0 < k < |sweeps| && sweeps[k - 1] == []
    ensures sweeps[k] == []
  {
    assert SweepAt(ts, sweeps, w, pathIds, k - 1) && SweepAt(ts, sweeps, w, pathIds, k);
    assert ts[k] == ts[k - 1];
    QuietTwice(ts[k], w, pathIds, sweeps[k]);
  }

  /** Once a sweep moves nothing, no later one does. */
  lemma {:induction false} QuietStaysQuiet(ts: seq<Table>, sweeps: seq<seq<Move>>, w: World, pathIds: PathIds, j: nat, k: nat)
    requires SweepSeries(ts, sweeps, w, pathIds) && j <= k < |sweeps| && sweeps[j] == []
    ensures sweeps[k] == []
  {
    if j < k {
      QuietStaysQuiet(ts, sweeps, w, pathIds, j, k - 1);
      QuietOnceMore(ts, sweeps, w, pathIds, k);
    }
  }

  lemma BusySweepUsesUpOrphan(ts: seq<Table>, sweeps: seq<seq<Move>>, w: World, pathIds: PathIds, k: nat)
    requires SweepSeries(ts, sweeps, w, pathIds) && k < |sweeps| && sweeps[k] != []
    ensures |OrphanRows(ts[k + 1], w)| < |OrphanRows(ts[k], w)|
  {
    assert SweepAt(ts, sweeps, w, pathIds, k);
    SweepClearsOrphans(ts[k], w, pathIds, sweeps[k]);
  }

  lemma BusyBefore(ts: seq<Table>, sweeps: seq<seq<Move>>, w: World, pathIds: PathIds, k: nat)
    requires SweepSeries(ts, sweeps, w, pathIds) && 0 < k < |sweeps| && sweeps[k] != []
    ensures sweeps[k - 1] != []
  {
    if sweeps[k - 1] == [] {
      QuietStaysQuiet(ts, sweeps, w, pathIds, k - 1, k);
    }
  }

  lemma {:induction false} BusySweepsUseUpOrphans(ts: seq<Table>, sweeps: seq<seq<Move>>, w: World, pathIds: PathIds, k: nat)
    requires SweepSeries(ts, sweeps, w, pathIds) && k < |sweeps| && sweeps[k] != []
    ensures |OrphanRows(ts[k + 1], w)| + k + 1 <= |OrphanRows(ts[0], w)|
  {
    BusySweepUsesUpOrphan(ts, sweeps, w, pathIds, k);
    if k > 0 {
      BusyBefore(ts, sweeps, w, pathIds, k);
      BusySweepsUseUpOrphans(ts, sweeps, w, pathIds, k - 1);
    }
  }

  /** Repeated sweeps stop moving after at most as many sweeps as there were orphans. */
  lemma SweepsStabilise(ts: seq<Table>, sweeps: seq<seq<Move>>, w: World, pathIds: PathIds, k: nat)
    requires SweepSeries(ts, sweeps, w, pathIds)
    requires |OrphanRows(ts[0], w)| <= k < |sweeps|
    ensures sweeps[k] == []
  {
    if sweeps[k] != [] {
      BusySweepsUseUpOrphans(ts, sweeps, w, pathIds, k);
    }
  }

  // ---------- when one sweep is enough ----------

  /** Nothing but the rows decides whether a verdict may be carried to the file by its token. */
  predicate Ready(w: World, dst: Path) {
    && w.episodeKey(dst).Some? && w.seriesFolder(dst).Some?
    && !w.place(w.seriesFolder(dst).value).Outside? && SoleVideo(w, dst)
  }

  function OrphansOf(t: Table, w: World, dst: Path): set<Path> {
    set p | p in t && Orphan(t, w, dst, p)
  }

  ghost predicate OrphansAgree(t: Table, w: World, dst: Path) {
    forall p, q :: p in OrphansOf(t, w, dst) && q in OrphansOf(t, w, dst) ==> Tongue(t[p]) == Tongue(t[q])
  }

  lemma {:induction false} NewestOf(t: Table, ps: set<Path>) returns (p: Path)
    requires ps != {} && forall q :: q in ps ==> q in t
    ensures p in ps && forall q :: q in ps ==> t[q].verifiedAt <= t[p].verifiedAt
  {
    var x :| x in ps;
    if ps == {x} {
      p := x;
    } else {
      var y := NewestOf(t, ps - {x});
      p := if t[x].verifiedAt <= t[y].verifiedAt then y else x;
    }
  }

  /** A token move to the file is open exactly if it is ready, has no row, and its orphans exist and agree. */
  lemma OpenExactly(t: Table, w: World, dst: Path)
    ensures !NoTokenMove(t, w, dst)
       <==> Ready(w, dst) && dst !in t && OrphansOf(t, w, dst) != {} && OrphansAgree(t, w, dst)
  {
    if src :| TokenMove(t, w, src, dst) {
      assert src in OrphansOf(t, w, dst);
    }
    if Ready(w, dst) && dst !in t && OrphansOf(t, w, dst) != {} && OrphansAgree(t, w, dst) {
      var src := NewestOf(t, OrphansOf(t, w, dst));
      SoleVideoExists(w, dst);
      assert TokenMove(t, w, src, dst);
    }
  }

  /** Rows at gone files only ever leave: what is there after the sweep was there, the same, after each of its steps. */
  lemma {:induction false} GoneRowsOnlyLeave(t: Table, w: World, pathIds: PathIds, moves: seq<Move>, k: nat, p: Path)
    requires SweepSteps(t, w, pathIds, moves) && k <= |moves| && p in After(t, moves) && w.place(p).Gone?
    ensures p in After(t, moves[..k]) && After(t, moves[..k])[p] == After(t, moves)[p]
  {
    if k == |moves| {
      assert moves[..k] == moves;
    } else {
      var front, last := moves[..|moves| - 1], moves[|moves| - 1];
      SweepMovesForward(t, w, pathIds, moves, |moves| - 1);
      assert After(t, moves) == Moved(After(t, front), last);
      GoneRowsOnlyLeave(t, w, pathIds, front, k, p);
      assert front[..k] == moves[..k];
    }
  }

  lemma {:induction false} PrefixSteps(t: Table, w: World, pathIds: PathIds, moves: seq<Move>, k: nat)
    requires SweepSteps(t, w, pathIds, moves) && k <= |moves|
    ensures SweepSteps(t, w, pathIds, moves[..k])
  {
    if k == |moves| {
      assert moves[..k] == moves;
    } else {
      PrefixSteps(t, w, pathIds, moves[..|moves| - 1], k);
      assert moves[..|moves| - 1][..k] == moves[..k];
    }
  }

  /** A row of a gone file that is there after some steps was there, the same, before the sweep. */
  lemma GoneRowWasThere(t: Table, w: World, pathIds: PathIds, moves: seq<Move>, k: nat, p: Path)
    requires SweepSteps(t, w, pathIds, moves) && k <= |moves| && p in After(t, moves[..k]) && w.place(p).Gone?
    ensures p in t && t[p] == After(t, moves[..k])[p]
  {
    PrefixSteps(t, w, pathIds, moves, k);
    GoneRowsOnlyLeave(t, w, pathIds, moves[..k], 0, p);
    assert moves[..k][..0] == [];
  }

  lemma GoneRowWasThereAtFirst(t: Table, w: World, pathIds: PathIds, moves: seq<Move>, p: Path)
    requires SweepSteps(t, w, pathIds, moves) && p in After(t, moves) && w.place(p).Gone?
    ensures p in t && t[p] == After(t, moves)[p]
  {
    assert moves[..|moves|] == moves;
    GoneRowWasThere(t, w, pathIds, moves, |moves|, p);
  }

  /** A row that was there at some step and is not at the end was moved away by a later one. */
  lemma {:induction false} LostRowWasMoved(t: Table, moves: seq<Move>, k: nat, p: Path)
    requires k <= |moves|
    ensures p in After(t, moves[..k]) && p !in After(t, moves) ==> exists i :: k <= i < |moves| && moves[i].src == p
  {
    if k == |moves| {
      assert moves[..k] == moves;
    } else {
      var front, last := moves[..|moves| - 1], moves[|moves| - 1];
      assert front[..k] == moves[..k];
      LostRowWasMoved(t, front, k, p);
      if i :| k <= i < |front| && front[i].src == p {
        assert moves[i].src == p;
      } else {
        assert moves[|moves| - 1] == last;
      }
    }
  }

  /** A row that was not there before the sweep was moved in. */
  lemma {:induction false} NewRowWasMovedIn(t: Table, moves: seq<Move>, p: Path)
    requires p in After(t, moves) && p !in t
    ensures exists i :: 0 <= i < |moves| && moves[i].dst == p
  {
    var front, last := moves[..|moves| - 1], moves[|moves| - 1];
    if p in After(t, front) {
      NewRowWasMovedIn(t, front, p);
      var i :| 0 <= i < |front| && front[i].dst == p;
      assert moves[i].dst == p;
    } else {
      assert moves[|moves| - 1] == last;
    }
  }

  /** Rows of existing files never leave. */
  lemma PresentRowStays(t: Table, w: World, pathIds: PathIds, moves: seq<Move>, k: nat, p: Path)
    requires SweepSteps(t, w, pathIds, moves) && k <= |moves| && w.place(p).Present? && p in After(t, moves[..k])
    ensures p in After(t, moves)
  {
    LostRowWasMoved(t, moves, k, p);
    if i :| k <= i < |moves| && moves[i].src == p {
      SweepMovesForward(t, w, pathIds, moves, i);
    }
  }

  lemma PresentRowStaysUntil(t: Table, w: World, pathIds: PathIds, moves: seq<Move>, k: nat, p: Path)
    requires SweepSteps(t, w, pathIds, moves) && k <= |moves| && w.place(p).Present? && p in t
    ensures p in After(t, moves[..k])
  {
    PrefixSteps(t, w, pathIds, moves, k);
    assert moves[..k][..0] == [];
    PresentRowStays(t, w, pathIds, moves[..k], 0, p);
  }

  lemma SuccessorsWereThere(t: Table, w: World, pathIds: PathIds, moves: seq<Move>, dst: Path)
    requires SweepSteps(t, w, pathIds, moves) && IsSuccessor(After(t, moves), w, dst)
    ensures IsSuccessor(t, w, dst)
  {
    var p :| p in After(t, moves) && HasSuccessor(w, p) && Successor(w, p) == dst;
    GoneRowWasThereAtFirst(t, w, pathIds, moves, p);
  }

  /** A replacement file without a row whose orphans disagree: the token pass turns it down. */
  ghost predicate Contested(t: Table, w: World, dst: Path) {
    IsSuccessor(t, w, dst) && Ready(w, dst) && dst !in t && !OrphansAgree(t, w, dst)
  }

  /** Move i carried away an orphan of the file whose language was another than that of `rest`. */
  ghost predicate TookDissenter(t: Table, w: World, moves: seq<Move>, dst: Path, rest: Path, i: nat) {
    && i < |moves| && rest in t && Orphan(t, w, dst, moves[i].src)
    && Tongue(t[moves[i].src]) != Tongue(t[rest])
  }

  /** At some step the orphans disagreed; at the end those left agree with `rest`: a dissenter was carried away. */
  lemma DissenterLeft(t: Table, w: World, pathIds: PathIds, moves: seq<Move>, k: nat, dst: Path, rest: Path)
    requires SweepSteps(t, w, pathIds, moves) && k <= |moves|
    requires rest in OrphansOf(After(t, moves), w, dst) && OrphansAgree(After(t, moves), w, dst)
    requires !OrphansAgree(After(t, moves[..k]), w, dst)
    ensures !OrphansAgree(t, w, dst) && exists i :: TookDissenter(t, w, moves, dst, rest, i)
  {
    var mid, end := After(t, moves[..k]), After(t, moves);
    GoneRowWasThereAtFirst(t, w, pathIds, moves, rest);
    var p, q :| p in OrphansOf(mid, w, dst) && q in OrphansOf(mid, w, dst) && Tongue(mid[p]) != Tongue(mid[q]);
    var other := if Tongue(mid[p]) != Tongue(end[rest]) then p else q;
    GoneRowWasThere(t, w, pathIds, moves, k, other);
    assert rest in OrphansOf(t, w, dst) && other in OrphansOf(t, w, dst);
    if other in end {
      GoneRowsOnlyLeave(t, w, pathIds, moves, k, other);
    }
    LostRowWasMoved(t, moves, k, other);
    var i :| k <= i < |moves| && moves[i].src == other;
    assert TookDissenter(t, w, moves, dst, rest, i);
  }

  /** A file that received a row during the sweep keeps it. */
  lemma FilledFileStaysFilled(t: Table, w: World, pathIds: PathIds, moves: seq<Move>, i: nat)
    requires SweepSteps(t, w, pathIds, moves) && i < |moves|
    ensures moves[i].dst in After(t, moves)
  {
    MovedRowsSettle(t, w, pathIds, moves, i);
  }

  /**
   * Whatever a sweep leaves open it opened itself: a token move to a file that was contested before
   * the sweep, from which the sweep has carried away an orphan that disagreed with the row left open.
   */
  lemma LeftOpenWasContested(t: Table, w: World, pathIds: PathIds, moves: seq<Move>, src: Path, dst: Path)
    requires IsSweep(t, w, pathIds, moves)
    requires IsSuccessor(After(t, moves), w, dst) && TokenMove(After(t, moves), w, src, dst)
    ensures Contested(t, w, dst) && exists i :: TookDissenter(t, w, moves, dst, src, i)
  {
    var end := After(t, moves);
    OpenExactly(end, w, dst);
    SoleVideoExists(w, dst);
    SuccessorsWereThere(t, w, pathIds, moves, dst);
    NoRowAtFirst(t, w, pathIds, moves, dst);
    var n :| Passes(t, w, pathIds, moves, n);
    var k := TurnedDownAt(t, w, pathIds, moves, n, dst);
    OpenExactly(After(t, moves[..k]), w, dst);
    GoneRowsOnlyLeave(t, w, pathIds, moves, k, src);
    assert src in OrphansOf(After(t, moves[..k]), w, dst) && src in OrphansOf(end, w, dst);
    if dst in After(t, moves[..k]) {
      PresentRowStays(t, w, pathIds, moves, k, dst);
    }
    DissenterLeft(t, w, pathIds, moves, k, dst, src);
  }

  lemma NoRowAtFirst(t: Table, w: World, pathIds: PathIds, moves: seq<Move>, p: Path)
    requires SweepSteps(t, w, pathIds, moves) && w.place(p).Present? && p !in After(t, moves)
    ensures p !in t
  {
    assert moves[..0] == [];
    if p in t {
      PresentRowStays(t, w, pathIds, moves, 0, p);
    }
  }

  /** A replacement file that has no row after the sweep was turned down in the token pass. */
  lemma TurnedDownAt(t: Table, w: World, pathIds: PathIds, moves: seq<Move>, n: nat, dst: Path) returns (k: nat)
    requires SweepSteps(t, w, pathIds, moves) && Passes(t, w, pathIds, moves, n)
    requires IsSuccessor(t, w, dst) && dst !in After(t, moves)
    ensures k <= n && NoTokenMove(After(t, moves[..k]), w, dst)
  {
    assert Tried(t, w, moves[..n], dst);
    if i :| 0 <= i < n && moves[..n][i].dst == dst {
      FilledFileStaysFilled(t, w, pathIds, moves, i);
    }
    k :| 0 <= k <= n && NoTokenMove(After(t, moves[..n][..k]), w, dst);
    assert moves[..n][..k] == moves[..k];
  }

  // ---------- what a caller can tell before the sweep ----------

  /** The snapshot names `dst` for the row's id. */
  ghost predicate Aimed(t: Table, w: World, pathIds: PathIds, p: Path, dst: Path) {
    p in t && IdTarget(w, pathIds, p, t[p].ids, dst)
  }

  /** Its id leads nowhere, or to a file that has a row already. */
  ghost predicate Stays(t: Table, w: World, pathIds: PathIds, p: Path) {
    forall dst :: Aimed(t, w, pathIds, p, dst) ==> dst in t
  }

  /** The sweep may try to carry the row to the replacement file by its token. */
  ghost predicate CouldTake(t: Table, w: World, dst: Path, p: Path) {
    IsSuccessor(t, w, dst) && Ready(w, dst) && Orphan(t, w, dst, p)
  }

  /** No orphan of the file could be carried to another by its token. */
  ghost predicate Unshared(t: Table, w: World, dst: Path) {
    forall p, other :: p in OrphansOf(t, w, dst) && CouldTake(t, w, other, p) ==> other == dst
  }

  /** Nothing can carry away an orphan of the file. */
  ghost predicate Calm(t: Table, w: World, pathIds: PathIds, dst: Path) {
    Unshared(t, w, dst) && forall p :: p in OrphansOf(t, w, dst) ==> Stays(t, w, pathIds, p)
  }

  /** What an id move of the sweep takes was aimed at its target before the sweep. */
  lemma IdMoveWasAimed(t: Table, w: World, pathIds: PathIds, moves: seq<Move>, i: nat)
    requires SweepSteps(t, w, pathIds, moves) && i < |moves|
    requires GoesById(t, w, pathIds, moves, i)
    ensures Aimed(t, w, pathIds, moves[i].src, moves[i].dst) && moves[i].dst !in t
  {
    GoneRowWasThere(t, w, pathIds, moves, i, moves[i].src);
    if moves[i].dst in t {
      PresentRowStaysUntil(t, w, pathIds, moves, i, moves[i].dst);
    }
  }

  /** What a token move of the sweep takes was an orphan of its target before the sweep. */
  lemma TokenMoveWasOrphan(t: Table, w: World, pathIds: PathIds, moves: seq<Move>, i: nat)
    requires SweepSteps(t, w, pathIds, moves) && i < |moves|
    requires GoesByToken(t, w, moves, i)
    ensures CouldTake(t, w, moves[i].dst, moves[i].src)
    ensures moves[i].src in OrphansOf(t, w, moves[i].dst)
  {
    GoneRowWasThere(t, w, pathIds, moves, i, moves[i].src);
  }

  /** An orphan of a calm file goes nowhere but to that file. */
  lemma CalmOrphanGoesHome(t: Table, w: World, pathIds: PathIds, moves: seq<Move>, n: nat, i: nat, dst: Path)
    requires SweepSteps(t, w, pathIds, moves) && Passes(t, w, pathIds, moves, n) && i < |moves|
    requires Calm(t, w, pathIds, dst) && moves[i].src in OrphansOf(t, w, dst)
    ensures moves[i].dst == dst
  {
    if i < n {
      TokenMoveWasOrphan(t, w, pathIds, moves, i);
    } else {
      IdMoveWasAimed(t, w, pathIds, moves, i);
    }
  }

  /** When nothing can carry away an orphan of a contested file, one sweep settles the table. */
  lemma CalmSweepSettles(t: Table, w: World, pathIds: PathIds, moves: seq<Move>)
    requires forall dst :: Contested(t, w, dst) ==> Calm(t, w, pathIds, dst)
    requires IsSweep(t, w, pathIds, moves)
    ensures Settled(After(t, moves), w, pathIds)
  {
    var end := After(t, moves);
    forall src, dst ensures !IdMove(end, w, pathIds, src, dst) {
      assert NoIdMove(end, w, pathIds, src);
    }
    forall src, dst | IsSuccessor(end, w, dst) ensures !TokenMove(end, w, src, dst) {
      if TokenMove(end, w, src, dst) {
        LeftOpenWasContested(t, w, pathIds, moves, src, dst);
        var i :| TookDissenter(t, w, moves, dst, src, i);
        var n :| Passes(t, w, pathIds, moves, n);
        CalmOrphanGoesHome(t, w, pathIds, moves, n, i, dst);
        FilledFileStaysFilled(t, w, pathIds, moves, i);
      }
    }
  }

  /** The token pass neither takes an orphan of a contested file nor fills the file. */
  lemma {:induction false} TokenPassSparesContested(t: Table, w: World, pathIds: PathIds, moves: seq<Move>, n: nat, dst: Path, i: nat)
    requires SweepSteps(t, w, pathIds, moves) && Passes(t, w, pathIds, moves, n) && i < n
    requires Contested(t, w, dst) && Unshared(t, w, dst)
    ensures moves[i].dst != dst && moves[i].src !in OrphansOf(t, w, dst)
  {
    var mid := After(t, moves[..i]);
    assert moves[..i][..0] == [];
    forall p | p in OrphansOf(t, w, dst) ensures p in OrphansOf(mid, w, dst) && mid[p] == t[p] {
      LostRowWasMoved(t, moves[..i], 0, p);
      if p !in mid {
        var j :| 0 <= j < i && moves[..i][j].src == p;
        TokenPassSparesContested(t, w, pathIds, moves, n, dst, j);
      }
      GoneRowWasThere(t, w, pathIds, moves, i, p);
    }
    TokenMoveWasOrphan(t, w, pathIds, moves, i);
    assert !OrphansAgree(mid, w, dst);
    if moves[i].dst == dst {
      OpenExactly(mid, w, dst);
    }
  }

  /** An orphan of a contested file that stays is there, the same, after the sweep. */
  lemma StayerStays(t: Table, w: World, pathIds: PathIds, moves: seq<Move>, n: nat, dst: Path, p: Path)
    requires SweepSteps(t, w, pathIds, moves) && Passes(t, w, pathIds, moves, n)
    requires Contested(t, w, dst) && Unshared(t, w, dst) && p in Stayers(t, w, pathIds, dst)
    ensures p in OrphansOf(After(t, moves), w, dst) && After(t, moves)[p] == t[p]
  {
    assert moves[..0] == [];
    LostRowWasMoved(t, moves, 0, p);
    if i :| 0 <= i < |moves| && moves[i].src == p {
      if i < n {
        TokenPassSparesContested(t, w, pathIds, moves, n, dst, i);
      } else {
        IdMoveWasAimed(t, w, pathIds, moves, i);
      }
    }
    GoneRowWasThereAtFirst(t, w, pathIds, moves, p);
  }

  /** No verdict can be carried to the file by its token. */
  ghost predicate OutOfTokenPass(t: Table, w: World, dst: Path) {
    forall p :: !CouldTake(t, w, dst, p)
  }

  /** Its id leads to a file without a row that nothing else can take. */
  ghost predicate Leaves(t: Table, w: World, pathIds: PathIds, p: Path, dst: Path) {
    && Aimed(t, w, pathIds, p, dst) && dst !in t && OutOfTokenPass(t, w, dst)
    && forall q :: Aimed(t, w, pathIds, q, dst) ==> q == p
  }

  /** Only a row that aims at the file can fill it. */
  lemma FilledByAimed(t: Table, w: World, pathIds: PathIds, moves: seq<Move>, n: nat, i: nat)
    requires SweepSteps(t, w, pathIds, moves) && Passes(t, w, pathIds, moves, n) && i < |moves| && OutOfTokenPass(t, w, moves[i].dst)
    ensures Aimed(t, w, pathIds, moves[i].src, moves[i].dst)
  {
    if i < n {
      TokenMoveWasOrphan(t, w, pathIds, moves, i);
    } else {
      IdMoveWasAimed(t, w, pathIds, moves, i);
    }
  }

  lemma UntakenAimIsOpen(end: Table, w: World, pathIds: PathIds, p: Path, dst: Path)
    requires Aimed(end, w, pathIds, p, dst) && dst !in end
    ensures !NoIdMove(end, w, pathIds, p)
  {
    assert IdMove(end, w, pathIds, p, dst);
  }

  /** A row that aims at a file leaves, or the file has a row after the sweep. */
  lemma AimedLeavesOrFilled(t: Table, w: World, pathIds: PathIds, moves: seq<Move>, p: Path, dst: Path)
    requires IsSweep(t, w, pathIds, moves) && Aimed(t, w, pathIds, p, dst)
    ensures p in After(t, moves) ==> dst in After(t, moves)
  {
    if p in After(t, moves) && dst !in After(t, moves) {
      GoneRowWasThereAtFirst(t, w, pathIds, moves, p);
      UntakenAimIsOpen(After(t, moves), w, pathIds, p, dst);
    }
  }

  lemma LeaverLeaves(t: Table, w: World, pathIds: PathIds, moves: seq<Move>, p: Path, dst: Path)
    requires IsSweep(t, w, pathIds, moves) && Leaves(t, w, pathIds, p, dst)
    ensures p !in After(t, moves)
  {
    AimedLeavesOrFilled(t, w, pathIds, moves, p, dst);
    if p in After(t, moves) {
      NewRowWasMovedIn(t, moves, dst);
      var i :| 0 <= i < |moves| && moves[i].dst == dst;
      var n :| Passes(t, w, pathIds, moves, n);
      FilledByAimed(t, w, pathIds, moves, n, i);
      MovedRowsSettle(t, w, pathIds, moves, i);
    }
  }

  lemma OneTarget(t: Table, w: World, pathIds: PathIds, p: Path, d: Path, e: Path)
    requires Aimed(t, w, pathIds, p, d) && Aimed(t, w, pathIds, p, e)
    ensures d == e
  {
  }

  /** A contested file that an orphan's id names has a row after the sweep. */
  lemma AimedFileIsFilled(t: Table, w: World, pathIds: PathIds, moves: seq<Move>, dst: Path, p: Path)
    requires IsSweep(t, w, pathIds, moves) && Contested(t, w, dst) && Unshared(t, w, dst)
    requires p in OrphansOf(t, w, dst) && Aimed(t, w, pathIds, p, dst)
    ensures dst in After(t, moves)
  {
    AimedLeavesOrFilled(t, w, pathIds, moves, p, dst);
    if p !in After(t, moves) {
      var n :| Passes(t, w, pathIds, moves, n);
      assert moves[..0] == [];
      LostRowWasMoved(t, moves, 0, p);
      var i :| 0 <= i < |moves| && moves[i].src == p;
      LeftForTarget(t, w, pathIds, moves, n, i, dst);
      FilledFileStaysFilled(t, w, pathIds, moves, i);
    }
  }

  lemma LeftForTarget(t: Table, w: World, pathIds: PathIds, moves: seq<Move>, n: nat, i: nat, dst: Path)
    requires SweepSteps(t, w, pathIds, moves) && Passes(t, w, pathIds, moves, n) && i < |moves|
    requires Contested(t, w, dst) && Unshared(t, w, dst)
    requires moves[i].src in OrphansOf(t, w, dst) && Aimed(t, w, pathIds, moves[i].src, dst)
    ensures moves[i].dst == dst
  {
    if i < n {
      TokenPassSparesContested(t, w, pathIds, moves, n, dst, i);
    } else {
      IdMoveWasAimed(t, w, pathIds, moves, i);
      OneTarget(t, w, pathIds, moves[i].src, moves[i].dst, dst);
    }
  }

  /** A contested file that no row's id names has no row after the sweep. */
  lemma UnaimedFileIsNotFilled(t: Table, w: World, pathIds: PathIds, moves: seq<Move>, n: nat, dst: Path)
    requires SweepSteps(t, w, pathIds, moves) && Passes(t, w, pathIds, moves, n)
    requires Contested(t, w, dst) && Unshared(t, w, dst) && forall p :: !Aimed(t, w, pathIds, p, dst)
    ensures dst !in After(t, moves)
  {
    if dst in After(t, moves) {
      NewRowWasMovedIn(t, moves, dst);
      var i :| 0 <= i < |moves| && moves[i].dst == dst;
      if i < n {
        TokenPassSparesContested(t, w, pathIds, moves, n, dst, i);
      } else {
        IdMoveWasAimed(t, w, pathIds, moves, i);
      }
    }
  }

  /** The row's one replacement is the file. */
  predicate Announces(t: Table, w: World, p: Path, dst: Path) {
    p in t && HasSuccessor(w, p) && Successor(w, p) == dst
  }

  /**
   * Before the sweep it is plain what each orphan of the file will do: go by id to the file itself,
   * stay, or leave; and only its orphans announce the file or are aimed at it.
   */
  ghost predicate Foreseeable(t: Table, w: World, pathIds: PathIds, dst: Path) {
    && Unshared(t, w, dst)
    && (forall p :: Aimed(t, w, pathIds, p, dst) || Announces(t, w, p, dst) ==> p in OrphansOf(t, w, dst))
    && (forall p :: p in OrphansOf(t, w, dst) ==>
          Aimed(t, w, pathIds, p, dst) || Stays(t, w, pathIds, p) || exists d :: Leaves(t, w, pathIds, p, d))
  }

  ghost function Stayers(t: Table, w: World, pathIds: PathIds, dst: Path): set<Path> {
    set p | p in OrphansOf(t, w, dst) && Stays(t, w, pathIds, p)
  }

  ghost predicate StayersAgree(t: Table, w: World, pathIds: PathIds, dst: Path) {
    forall p, q :: p in Stayers(t, w, pathIds, dst) && q in Stayers(t, w, pathIds, dst) ==> Tongue(t[p]) == Tongue(t[q])
  }

  /** No id names the file, some orphan that announces it stays, and those that stay agree. */
  ghost predicate Opens(t: Table, w: World, pathIds: PathIds, dst: Path) {
    && (forall p :: !Aimed(t, w, pathIds, p, dst))
    && StayersAgree(t, w, pathIds, dst)
    && exists p :: p in Stayers(t, w, pathIds, dst) && Announces(t, w, p, dst)
  }

  /** The row is an orphan of the file at the end if and only if it was one that stays, and is as it was. */
  ghost predicate LeftIfStayer(t: Table, end: Table, w: World, pathIds: PathIds, dst: Path, p: Path) {
    && (p in OrphansOf(end, w, dst) <==> p in Stayers(t, w, pathIds, dst))
    && (p in OrphansOf(end, w, dst) && p in t ==> end[p] == t[p])
  }

  lemma LeftIsStayer(t: Table, w: World, pathIds: PathIds, moves: seq<Move>, dst: Path, p: Path)
    requires IsSweep(t, w, pathIds, moves) && Contested(t, w, dst) && Foreseeable(t, w, pathIds, dst)
    requires forall q :: !Aimed(t, w, pathIds, q, dst)
    ensures LeftIfStayer(t, After(t, moves), w, pathIds, dst, p)
  {
    var n :| Passes(t, w, pathIds, moves, n);
    if p in OrphansOf(After(t, moves), w, dst) {
      GoneRowWasThereAtFirst(t, w, pathIds, moves, p);
      assert p in OrphansOf(t, w, dst);
      if d :| Leaves(t, w, pathIds, p, d) {
        LeaverLeaves(t, w, pathIds, moves, p, d);
      }
    }
    if p in Stayers(t, w, pathIds, dst) {
      StayerStays(t, w, pathIds, moves, n, dst, p);
    }
  }

  lemma StayersAreLeft(t: Table, end: Table, w: World, pathIds: PathIds, dst: Path)
    requires forall p :: LeftIfStayer(t, end, w, pathIds, dst, p)
    ensures OrphansOf(end, w, dst) == Stayers(t, w, pathIds, dst)
    ensures OrphansAgree(end, w, dst) <==> StayersAgree(t, w, pathIds, dst)
  {
    forall p ensures p in OrphansOf(end, w, dst) <==> p in Stayers(t, w, pathIds, dst)
      ensures p in OrphansOf(end, w, dst) ==> p in t && end[p] == t[p]
    {
      assert LeftIfStayer(t, end, w, pathIds, dst, p);
    }
  }

  /** When no id names the file, what is left after the sweep are the orphans that stay. */
  lemma LeftAreStayers(t: Table, w: World, pathIds: PathIds, moves: seq<Move>, dst: Path)
    requires IsSweep(t, w, pathIds, moves) && Contested(t, w, dst) && Foreseeable(t, w, pathIds, dst)
    requires forall q :: !Aimed(t, w, pathIds, q, dst)
    ensures OrphansOf(After(t, moves), w, dst) == Stayers(t, w, pathIds, dst)
    ensures OrphansAgree(After(t, moves), w, dst) <==> StayersAgree(t, w, pathIds, dst)
  {
    forall p ensures LeftIfStayer(t, After(t, moves), w, pathIds, dst, p) {
      LeftIsStayer(t, w, pathIds, moves, dst, p);
    }
    StayersAreLeft(t, After(t, moves), w, pathIds, dst);
  }

  lemma OpensStaysOpen(t: Table, w: World, pathIds: PathIds, moves: seq<Move>, dst: Path)
    requires IsSweep(t, w, pathIds, moves) && Contested(t, w, dst) && Foreseeable(t, w, pathIds, dst)
    requires Opens(t, w, pathIds, dst)
    ensures IsSuccessor(After(t, moves), w, dst) && !NoTokenMove(After(t, moves), w, dst)
  {
    var n :| Passes(t, w, pathIds, moves, n);
    UnaimedFileIsNotFilled(t, w, pathIds, moves, n, dst);
    LeftAreStayers(t, w, pathIds, moves, dst);
    var p :| p in Stayers(t, w, pathIds, dst) && Announces(t, w, p, dst);
    assert p in OrphansOf(After(t, moves), w, dst);
    OpenExactly(After(t, moves), w, dst);
  }

  /** A row announcing the file that is left after the sweep is one of the file's orphans. */
  lemma AnnouncerIsLeft(t: Table, w: World, pathIds: PathIds, moves: seq<Move>, dst: Path, p: Path)
    requires SweepSteps(t, w, pathIds, moves) && Foreseeable(t, w, pathIds, dst)
    requires Announces(After(t, moves), w, p, dst)
    ensures Announces(t, w, p, dst) && p in OrphansOf(After(t, moves), w, dst)
  {
    GoneRowWasThereAtFirst(t, w, pathIds, moves, p);
    assert p in OrphansOf(t, w, dst);
  }

  lemma OpenMeansOpens(t: Table, w: World, pathIds: PathIds, moves: seq<Move>, dst: Path)
    requires IsSweep(t, w, pathIds, moves) && Contested(t, w, dst) && Foreseeable(t, w, pathIds, dst)
    requires IsSuccessor(After(t, moves), w, dst) && !NoTokenMove(After(t, moves), w, dst)
    ensures Opens(t, w, pathIds, dst)
  {
    OpenExactly(After(t, moves), w, dst);
    forall p ensures !Aimed(t, w, pathIds, p, dst) {
      if Aimed(t, w, pathIds, p, dst) {
        AimedFileIsFilled(t, w, pathIds, moves, dst, p);
      }
    }
    LeftAreStayers(t, w, pathIds, moves, dst);
    var p :| p in After(t, moves) && HasSuccessor(w, p) && Successor(w, p) == dst;
    AnnouncerIsLeft(t, w, pathIds, moves, dst, p);
  }

  /**
   * Where the contested files are foreseeable, every sweep leaves a move open if and only if some
   * contested file opens: once the orphans that leave have left, those that stay agree.
   */
  lemma SweepSettlesExactly(t: Table, w: World, pathIds: PathIds, moves: seq<Move>)
    requires forall dst :: Contested(t, w, dst) ==> Foreseeable(t, w, pathIds, dst)
    requires IsSweep(t, w, pathIds, moves)
    ensures Settled(After(t, moves), w, pathIds) <==> forall dst :: Contested(t, w, dst) ==> !Opens(t, w, pathIds, dst)
  {
    var end := After(t, moves);
    if dst :| Contested(t, w, dst) && Opens(t, w, pathIds, dst) {
      OpensStaysOpen(t, w, pathIds, moves, dst);
    } else {
      forall src, dst ensures !IdMove(end, w, pathIds, src, dst) {
        assert NoIdMove(end, w, pathIds, src);
      }
      forall src, dst | IsSuccessor(end, w, dst) ensures !TokenMove(end, w, src, dst) {
        if TokenMove(end, w, src, dst) {
          LeftOpenWasContested(t, w, pathIds, moves, src, dst);
          OpenMeansOpens(t, w, pathIds, moves, dst);
        }
      }
    }
  }

  // ---------- the plain replacement ----------

  lemma {:induction false} PresentRowUnchanged(t: Table, w: World, pathIds: PathIds, moves: seq<Move>, k: nat, p: Path)
    requires SweepSteps(t, w, pathIds, moves) && k <= |moves| && w.place(p).Present? && p in After(t, moves[..k])
    ensures p in After(t, moves) && After(t, moves)[p] == After(t, moves[..k])[p]
  {
    if k == |moves| {
      assert moves[..k] == moves;
    } else {
      var front := moves[..|moves| - 1];
      assert front[..k] == moves[..k];
      PresentRowUnchanged(t, w, pathIds, front, k, p);
      SweepMovesForward(t, w, pathIds, moves, |moves| - 1);
    }
  }

  /** Until the file is filled its orphans wait. */
  lemma OrphanWaits(t: Table, w: World, pathIds: PathIds, moves: seq<Move>, n: nat, i: nat, dst: Path, p: Path)
    requires SweepSteps(t, w, pathIds, moves) && Passes(t, w, pathIds, moves, n) && i <= n && Unshared(t, w, dst)
    requires forall j :: 0 <= j < i ==> moves[j].dst != dst
    requires p in OrphansOf(t, w, dst)
    ensures p in After(t, moves[..i]) && After(t, moves[..i])[p] == t[p]
  {
    assert moves[..i][..0] == [];
    LostRowWasMoved(t, moves[..i], 0, p);
    if j :| 0 <= j < i && moves[..i][j].src == p {
      TokenMoveWasOrphan(t, w, pathIds, moves, j);
    }
    GoneRowWasThere(t, w, pathIds, moves, i, p);
  }

  lemma OrphansWait(t: Table, w: World, pathIds: PathIds, moves: seq<Move>, n: nat, i: nat, dst: Path)
    requires SweepSteps(t, w, pathIds, moves) && Passes(t, w, pathIds, moves, n) && i <= n && Unshared(t, w, dst)
    requires forall j :: 0 <= j < i ==> moves[j].dst != dst
    ensures OrphansOf(After(t, moves[..i]), w, dst) == OrphansOf(t, w, dst)
    ensures forall p :: p in OrphansOf(t, w, dst) ==> After(t, moves[..i])[p] == t[p]
  {
    forall p ensures p in OrphansOf(After(t, moves[..i]), w, dst) <==> p in OrphansOf(t, w, dst)
      ensures p in OrphansOf(t, w, dst) ==> p in After(t, moves[..i]) && After(t, moves[..i])[p] == t[p]
    {
      if p in OrphansOf(t, w, dst) {
        OrphanWaits(t, w, pathIds, moves, n, i, dst, p);
      }
      if p in OrphansOf(After(t, moves[..i]), w, dst) {
        GoneRowWasThere(t, w, pathIds, moves, i, p);
      }
    }
  }

  /** Turned down with its orphans waiting, a ready file with agreeing orphans already had a row. */
  lemma TurnedDownHasRow(t: Table, mid: Table, w: World, dst: Path)
    requires Ready(w, dst) && OrphansOf(t, w, dst) != {} && OrphansAgree(t, w, dst) && NoTokenMove(mid, w, dst)
    requires OrphansOf(mid, w, dst) == OrphansOf(t, w, dst) && forall p :: p in OrphansOf(t, w, dst) ==> mid[p] == t[p]
    ensures dst in mid
  {
    OpenExactly(mid, w, dst);
  }

  /** The file of a plain replacement gets a row in the token pass. */
  lemma FilledInTokenPass(t: Table, w: World, pathIds: PathIds, moves: seq<Move>, n: nat, dst: Path)
    requires SweepSteps(t, w, pathIds, moves) && Passes(t, w, pathIds, moves, n)
    requires IsSuccessor(t, w, dst) && Ready(w, dst) && dst !in t && Unshared(t, w, dst)
    requires OrphansOf(t, w, dst) != {} && OrphansAgree(t, w, dst)
    ensures exists i :: 0 <= i < n && moves[i].dst == dst
  {
    assert Tried(t, w, moves[..n], dst);
    if i :| 0 <= i < n && moves[..n][i].dst == dst {
      assert moves[i].dst == dst;
    } else {
      var k :| 0 <= k <= n && NoTokenMove(After(t, moves[..n][..k]), w, dst);
      assert moves[..n][..k] == moves[..k];
      forall j | 0 <= j < n ensures moves[j].dst != dst {
        assert moves[..n][j] == moves[j];
      }
      OrphansWait(t, w, pathIds, moves, n, k, dst);
      TurnedDownHasRow(t, After(t, moves[..k]), w, dst);
      NewRowWasMovedIn(t, moves[..k], dst);
    }
  }

  /** The move that fills the file brings the row that is the latest of its orphans. */
  lemma LatestIsBrought(t: Table, w: World, pathIds: PathIds, moves: seq<Move>, n: nat, i: nat, src: Path)
    requires SweepSteps(t, w, pathIds, moves) && Passes(t, w, pathIds, moves, n) && i < n
    requires Unshared(t, w, moves[i].dst) && src in OrphansOf(t, w, moves[i].dst)
    requires forall p :: p in OrphansOf(t, w, moves[i].dst) && p != src ==> t[p].verifiedAt < t[src].verifiedAt
    ensures moves[i].src == src && src in After(t, moves[..i]) && After(t, moves[..i])[src] == t[src]
  {
    forall j | 0 <= j < i ensures moves[j].dst != moves[i].dst {
      SweepMovesAreDistinct(t, w, pathIds, moves, j, i);
    }
    OrphansWait(t, w, pathIds, moves, n, i, moves[i].dst);
    assert src in OrphansOf(After(t, moves[..i]), w, moves[i].dst);
    TokenMoveWasOrphan(t, w, pathIds, moves, i);
  }

  /** After the move and to the end of the sweep the file has that row. */
  lemma BroughtRowStays(t: Table, w: World, pathIds: PathIds, moves: seq<Move>, i: nat)
    requires SweepSteps(t, w, pathIds, moves) && i < |moves| && moves[i].src in After(t, moves[..i])
    ensures moves[i].src !in After(t, moves) && moves[i].dst in After(t, moves)
    ensures var row := After(t, moves[..i])[moves[i].src];
      After(t, moves)[moves[i].dst] == row.(evidence := row.evidence.(carriedFrom := Some(moves[i].src)))
  {
    PrefixSteps(t, w, pathIds, moves, i + 1);
    assert moves[..i + 1][..i] == moves[..i];
    StepClearsOrphan(After(t, moves[..i]), w, pathIds, moves[i]);
    MovedRowsSettle(t, w, pathIds, moves, i);
    PresentRowUnchanged(t, w, pathIds, moves, i + 1, moves[i].dst);
  }

  /**
   * The case the sweep is for: an episode file is gone, the walk of its show finds one video of the
   * episode, which has no row, and the gone rows of the episode agree on the language; no other
   * replacement file could take any of them.
   */
  ghost predicate IsReplaced(t: Table, w: World, series: Path, key: Key, src: Path, dst: Path) {
    && w.seriesFolder(src) == w.seriesFolder(dst) == Some(series) && w.episodeKey(dst) == Some(key)
    && !w.place(series).Outside? && w.videos(series, key) == [Video(dst, w.resolve(dst))] && dst !in t
    && GoneRow(t, w, series, key, src)
    && (forall p :: GoneRow(t, w, series, key, p) && p != src ==> AgreesAndIsEarlier(t, p, src))
    && (forall p, other :: GoneRow(t, w, series, key, p) && CouldTake(t, w, other, p) ==> other == dst)
  }

  predicate AgreesAndIsEarlier(t: Table, p: Path, q: Path) {
    && p in t && q in t && t[p].verifiedAt < t[q].verifiedAt
    && t[p].lang == t[q].lang && t[p].langClass == t[q].langClass && t[p].langCodes == t[q].langCodes
  }

  lemma ReplacedOrphans(t: Table, w: World, series: Path, key: Key, src: Path, dst: Path, p: Path)
    requires IsReplaced(t, w, series, key, src, dst)
    ensures p in OrphansOf(t, w, dst) <==> GoneRow(t, w, series, key, p)
  {
  }

  lemma ReplacedIsReady(t: Table, w: World, series: Path, key: Key, src: Path, dst: Path)
    requires IsReplaced(t, w, series, key, src, dst)
    ensures IsSuccessor(t, w, dst) && Ready(w, dst) && Unshared(t, w, dst)
    ensures src in OrphansOf(t, w, dst) && OrphansAgree(t, w, dst)
    ensures forall p :: p in OrphansOf(t, w, dst) && p != src ==> t[p].verifiedAt < t[src].verifiedAt
  {
    assert HasSuccessor(w, src) && Successor(w, src) == dst;
    forall p ensures p in OrphansOf(t, w, dst) <==> GoneRow(t, w, series, key, p) {
      ReplacedOrphans(t, w, series, key, src, dst, p);
    }
    forall p | p in OrphansOf(t, w, dst) ensures Tongue(t[p]) == Tongue(t[src]) {
      assert p == src || AgreesAndIsEarlier(t, p, src);
    }
  }

  lemma TokenPassBrings(t: Table, w: World, pathIds: PathIds, moves: seq<Move>, n: nat, src: Path, dst: Path)
    requires SweepSteps(t, w, pathIds, moves) && Passes(t, w, pathIds, moves, n)
    requires IsSuccessor(t, w, dst) && Ready(w, dst) && Unshared(t, w, dst) && dst !in t
    requires src in OrphansOf(t, w, dst) && OrphansAgree(t, w, dst)
    requires forall p :: p in OrphansOf(t, w, dst) && p != src ==> t[p].verifiedAt < t[src].verifiedAt
    ensures src !in After(t, moves) && dst in After(t, moves)
    ensures After(t, moves)[dst] == t[src].(evidence := t[src].evidence.(carriedFrom := Some(src)))
  {
    FilledInTokenPass(t, w, pathIds, moves, n, dst);
    var i :| 0 <= i < n && moves[i].dst == dst;
    LatestIsBrought(t, w, pathIds, moves, n, i, src);
    BroughtRowStays(t, w, pathIds, moves, i);
  }

  /** After the sweep the new file has the latest row, unchanged but for the note of where it came from. */
  lemma ReplacementInherits(t: Table, w: World, pathIds: PathIds, moves: seq<Move>,
                            series: Path, key: Key, src: Path, dst: Path)
    requires IsSweep(t, w, pathIds, moves) && IsReplaced(t, w, series, key, src, dst)
    ensures src !in After(t, moves) && dst in After(t, moves)
    ensures After(t, moves)[dst] == t[src].(evidence := t[src].evidence.(carriedFrom := Some(src)))
  {
    var n :| Passes(t, w, pathIds, moves, n);
    ReplacedIsReady(t, w, series, key, src, dst);
    TokenPassBrings(t, w, pathIds, moves, n, src, dst);
  }

  /**
   * Likewise by id: a row that no token could carry, whose id leads to a file without a row that
   * nothing else can take, is at that file after the sweep.
   */
  lemma IdReplacementInherits(t: Table, w: World, pathIds: PathIds, moves: seq<Move>, src: Path, dst: Path)
    requires IsSweep(t, w, pathIds, moves) && Leaves(t, w, pathIds, src, dst)
    requires forall other :: !CouldTake(t, w, other, src)
    ensures src !in After(t, moves) && dst in After(t, moves)
    ensures After(t, moves)[dst] == t[src].(evidence := t[src].evidence.(carriedFrom := Some(src)))
  {
    var n :| Passes(t, w, pathIds, moves, n);
    LeaverLeaves(t, w, pathIds, moves, src, dst);
    IdPassBrings(t, w, pathIds, moves, n, src, dst);
  }

  lemma IdPassBrings(t: Table, w: World, pathIds: PathIds, moves: seq<Move>, n: nat, src: Path, dst: Path)
    requires SweepSteps(t, w, pathIds, moves) && Passes(t, w, pathIds, moves, n)
    requires Aimed(t, w, pathIds, src, dst) && src !in After(t, moves)
    requires forall other :: !CouldTake(t, w, other, src)
    ensures dst in After(t, moves)
    ensures After(t, moves)[dst] == t[src].(evidence := t[src].evidence.(carriedFrom := Some(src)))
  {
    assert moves[..0] == [];
    LostRowWasMoved(t, moves, 0, src);
    var i :| 0 <= i < |moves| && moves[i].src == src;
    if i < n {
      TokenMoveWasOrphan(t, w, pathIds, moves, i);
    }
    IdMoveWasAimed(t, w, pathIds, moves, i);
    OneTarget(t, w, pathIds, src, moves[i].dst, dst);
    GoneRowWasThere(t, w, pathIds, moves, i, src);
    BroughtRowStays(t, w, pathIds, moves, i);
  }

  // One sweep need not be enough: its id pass can remove the orphan whose language blocked a token move.

  const A := "s/1"
  const B := "s/2"
  const N := "s/n"
  const D := "d/d"

  function ExampleWorld(): World {
    Surroundings(
      p => if p == A || p == B then Gone else Present,
      p => p,
      p => if p == A || p == B || p == N then Some(Key(1, 1)) else None,
      p => if p == A || p == B || p == N then Some("s") else None,
      p => "",
      (series, key) => if series == "s" && key == Key(1, 1) then [Video(N, N)] else [])
  }

  function ExampleRow(lang: string, ids: Ids): Verdict {
    Verdict(lang, "user", 1.0, 0.0, "single", "", ids, Evidence(None, None, ""))
  }

  const EXAMPLE_IDS: PathIds := map[D := Ids(Some(7), None)]
  const EXAMPLE: Table := map[A := ExampleRow("en", Ids(Some(7), None)), B := ExampleRow("fr", Ids(None, None))]
  const EXAMPLE_MOVE := Move(A, D, Carried)

  /** What is left after the move: only B's row and the one moved to D. */
  lemma ExampleAfter()
    ensures var t' := After(EXAMPLE, [EXAMPLE_MOVE]);
      t' == Moved(EXAMPLE, EXAMPLE_MOVE) && t'.Keys == {B, D} && t'[B] == EXAMPLE[B]
    ensures After(EXAMPLE, []) == EXAMPLE
  {
    assert [EXAMPLE_MOVE][..0] == [];
  }

  lemma ExampleIdMove()
    ensures IdMove(EXAMPLE, ExampleWorld(), EXAMPLE_IDS, A, D)
  {
    assert RowClaim(ExampleWorld(), A, EXAMPLE[A].ids) == Some(Claim(Sonarr, 7, ""));
    assert IdTarget(ExampleWorld(), EXAMPLE_IDS, A, EXAMPLE[A].ids, D);
  }

  /** Its orphans disagree, so the token pass turns N down. */
  lemma ExampleTurnsDown()
    ensures NoTokenMove(EXAMPLE, ExampleWorld(), N)
  {
    assert Text.Under("s", A) && Text.Under("s", B);
    assert Orphan(EXAMPLE, ExampleWorld(), N, A) && Orphan(EXAMPLE, ExampleWorld(), N, B);
    assert Tongue(EXAMPLE[A]).0 == "en" && Tongue(EXAMPLE[B]).0 == "fr";
  }

  lemma ExampleIsSweep()
    ensures IsSweep(EXAMPLE, ExampleWorld(), EXAMPLE_IDS, [EXAMPLE_MOVE])
  {
    var w, moves := ExampleWorld(), [EXAMPLE_MOVE];
    ExampleAfter();
    ExampleIdMove();
    ExampleTurnsDown();
    assert moves[..0] == [];
    assert SweepSteps(EXAMPLE, w, EXAMPLE_IDS, []);
    assert SweepSteps(EXAMPLE, w, EXAMPLE_IDS, moves);
    forall dst | IsSuccessor(EXAMPLE, w, dst) ensures Tried(EXAMPLE, w, moves[..0], dst) {
      assert dst == N;
      TurnedDownNow(EXAMPLE, w, moves[..0], N);
    }
    assert Passes(EXAMPLE, w, EXAMPLE_IDS, moves, 0);
    forall src ensures NoIdMove(After(EXAMPLE, moves), w, EXAMPLE_IDS, src) {
      ExampleClosesIds(src);
    }
  }

  lemma ExampleClosesIds(src: Path)
    ensures NoIdMove(After(EXAMPLE, [EXAMPLE_MOVE]), ExampleWorld(), EXAMPLE_IDS, src)
  {
    ExampleAfter();
    forall dst ensures !IdMove(After(EXAMPLE, [EXAMPLE_MOVE]), ExampleWorld(), EXAMPLE_IDS, src, dst) {
      if src == B {
        assert RowClaim(ExampleWorld(), B, EXAMPLE[B].ids) == None;
      }
    }
  }

  lemma ExampleOpens()
    ensures TokenMove(After(EXAMPLE, [EXAMPLE_MOVE]), ExampleWorld(), B, N)
    ensures IsSuccessor(After(EXAMPLE, [EXAMPLE_MOVE]), ExampleWorld(), N)
  {
    var w, t' := ExampleWorld(), After(EXAMPLE, [EXAMPLE_MOVE]);
    ExampleAfter();
    assert Text.Under("s", B);
    assert forall p :: Orphan(t', w, N, p) ==> p == B;
    assert HasSuccessor(w, B) && Successor(w, B) == N;
  }

  lemma ExampleAim(p: Path, d: Path)
    ensures Aimed(EXAMPLE, ExampleWorld(), EXAMPLE_IDS, p, d) <==> p == A && d == D
  {
    ExampleIdMove();
    if p == B {
      assert RowClaim(ExampleWorld(), B, EXAMPLE[B].ids) == None;
    }
  }

  lemma ExampleOrphans()
    ensures OrphansOf(EXAMPLE, ExampleWorld(), N) == {A, B}
  {
    assert Text.Under("s", A) && Text.Under("s", B);
  }

  lemma ExampleIsContested()
    ensures Contested(EXAMPLE, ExampleWorld(), N)
  {
    ExampleOrphans();
    assert Tongue(EXAMPLE[A]).0 == "en" && Tongue(EXAMPLE[B]).0 == "fr";
    assert HasSuccessor(ExampleWorld(), B) && Successor(ExampleWorld(), B) == N;
  }

  lemma ExampleTakers(d: Path, p: Path)
    requires CouldTake(EXAMPLE, ExampleWorld(), d, p)
    ensures d == N
  {
  }

  lemma ExampleStayers()
    ensures Leaves(EXAMPLE, ExampleWorld(), EXAMPLE_IDS, A, D)
    ensures Stayers(EXAMPLE, ExampleWorld(), EXAMPLE_IDS, N) == {B}
  {
    var w := ExampleWorld();
    ExampleOrphans();
    forall p, d ensures Aimed(EXAMPLE, w, EXAMPLE_IDS, p, d) <==> p == A && d == D {
      ExampleAim(p, d);
    }
    forall p ensures !CouldTake(EXAMPLE, w, D, p) {
      if CouldTake(EXAMPLE, w, D, p) {
        ExampleTakers(D, p);
      }
    }
    assert Aimed(EXAMPLE, w, EXAMPLE_IDS, A, D) && D !in EXAMPLE;
    assert !Stays(EXAMPLE, w, EXAMPLE_IDS, A) && Stays(EXAMPLE, w, EXAMPLE_IDS, B);
  }

  /** Two orphans, one of which leaves by id while the other stays and announces the file. */
  lemma PairOpens(t: Table, w: World, pathIds: PathIds, dst: Path, a: Path, b: Path, d: Path)
    requires OrphansOf(t, w, dst) == {a, b} && Stayers(t, w, pathIds, dst) == {b} && Announces(t, w, b, dst)
    requires Leaves(t, w, pathIds, a, d) && d != dst
    requires forall p, e :: Aimed(t, w, pathIds, p, e) ==> p == a && e == d
    requires forall p, e :: CouldTake(t, w, e, p) ==> e == dst
    requires forall p :: Announces(t, w, p, dst) ==> p in {a, b}
    ensures Foreseeable(t, w, pathIds, dst) && Opens(t, w, pathIds, dst)
  {
    assert b in Stayers(t, w, pathIds, dst);
  }

  lemma ExampleAnnouncers(p: Path)
    ensures Announces(EXAMPLE, ExampleWorld(), p, N) <==> p in {A, B}
  {
  }

  /** All this can be told before the sweep: N is contested, A's row leaves for D, B's stays and opens N. */
  lemma ExampleIsForeseen()
    ensures Contested(EXAMPLE, ExampleWorld(), N)
    ensures Foreseeable(EXAMPLE, ExampleWorld(), EXAMPLE_IDS, N) && Opens(EXAMPLE, ExampleWorld(), EXAMPLE_IDS, N)
  {
    var w := ExampleWorld();
    ExampleIsContested();
    ExampleOrphans();
    ExampleStayers();
    forall p, d | CouldTake(EXAMPLE, w, d, p) ensures d == N {
      ExampleTakers(d, p);
    }
    forall p, d | Aimed(EXAMPLE, w, EXAMPLE_IDS, p, d) ensures p == A && d == D {
      ExampleAim(p, d);
    }
    forall p ensures Announces(EXAMPLE, w, p, N) <==> p in {A, B} {
      ExampleAnnouncers(p);
    }
    PairOpens(EXAMPLE, w, EXAMPLE_IDS, N, A, B, D);
  }

  /** With A's row gone, B's is the only orphan, and it may be carried to N. */
  lemma OneSweepMayNotSettle()
    ensures IsSweep(EXAMPLE, ExampleWorld(), EXAMPLE_IDS, [EXAMPLE_MOVE])
    ensures !Settled(After(EXAMPLE, [EXAMPLE_MOVE]), ExampleWorld(), EXAMPLE_IDS)
  {
    ExampleIsSweep();
    ExampleOpens();
  }

  // ---------- id back-fill ----------

  /** Back-filling twice is back-filling once, and a recorded id is never replaced. */
  lemma BackfillIsIdempotent(t: Table, w: World, pathIds: PathIds)
    ensures Backfilled(Backfilled(t, w, pathIds), w, pathIds) == Backfilled(t, w, pathIds)
    ensures forall p :: p in t && t[p].ids != Ids(None, None) ==> Backfilled(t, w, pathIds)[p] == t[p]
    ensures forall p :: p in t ==> Backfilled(t, w, pathIds)[p].(ids := t[p].ids) == t[p]
  {
  }

  /** The back-fill that runs before a sweep opens and closes none of the sweep's moves. */
  lemma BackfillLeavesMovesAlone(t: Table, w: World, pathIds: PathIds, src: Path, dst: Path)
    ensures TokenMove(Backfilled(t, w, pathIds), w, src, dst) <==> TokenMove(t, w, src, dst)
    ensures IdMove(Backfilled(t, w, pathIds), w, pathIds, src, dst) <==> IdMove(t, w, pathIds, src, dst)
  {
    var t' := Backfilled(t, w, pathIds);
    forall p ensures Orphan(t', w, dst, p) <==> Orphan(t, w, dst, p) {}
    assert forall p :: p in t && w.place(p).Gone? ==> t'[p] == t[p];
  }
}
