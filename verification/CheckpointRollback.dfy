/**
 Rolling back the newest turns in one call: what it means, how calls compose,
 that it inverts finished turns, and when repeating it is harmless.
 */
module CheckpointRollback {
  import opened Wrappers
  import opened CheckpointImages
  import opened CheckpointRecords

  function Selected(turns: seq<Record>, n: nat): seq<Record>
    requires n <= |turns|
  {
    turns[|turns| - n..]
  }

  function MarkRestored(records: seq<Record>): (r: seq<Record>)
    ensures |r| == |records|
  {
    seq(|records|, i requires 0 <= i < |records| =>
      if records[i].Checkpoint? then records[i].(filesRestored := true) else records[i])
  }

  function TurnsAfter(turns: seq<Record>, n: nat, consume: bool): seq<Record>
    requires n <= |turns|
  {
    turns[..|turns| - n] + (if consume then [] else MarkRestored(Selected(turns, n)))
  }

  predicate NeedsApply(selected: seq<Record>) {
    exists i | 0 <= i < |selected| :: selected[i].Checkpoint? && !selected[i].filesRestored
  }

  function UnavailableTurns(selected: seq<Record>): set<string> {
    set i | 0 <= i < |selected| && selected[i].Tombstone? :: selected[i].turnId
  }

  /** The preflight of one call: the images it is to write, or why it refuses. */
  function Plan(w: World, n: int): Result<map<Path, Image>, CheckpointError> {
    var turns := w.manifest.turns;
    if n < 1 then Err(InvalidCount)
    else if w.manifest.active.Some? then Err(ActiveTurn)
    else if n > |turns| then Err(NotEnough)
    else if !AllAvailable(Selected(turns, n)) then Err(Unavailable(UnavailableTurns(Selected(turns, n))))
    else if !Capturable(w.work) then Err(CaptureFailed)
    else Preflight(Selected(turns, n), Capture(w.work), w.index, map[], {})
  }

  /** The whole effect of a rollback that no fault and no outside edit disturbs. */
  ghost function RollBack(w: World, n: int, consume: bool): Result<World, CheckpointError>
    requires AllWellFormed(w.manifest.turns)
  {
    var plan := Plan(w, n);
    if plan.Err? then Err(plan.error)
    else
      var m := w.manifest;
      var turns := TurnsAfter(m.turns, n, consume);
      if NeedsApply(Selected(m.turns, n))
      then
        PlanRestorable(w, n);
        Ok(World(Patch(w.work, plan.value), w.index, Manifest(m.active, None, turns)))
      else Ok(World(w.work, w.index, m.(turns := turns)))
  }

  lemma {:induction false} PlanRestorable(w: World, n: int)
    requires AllWellFormed(w.manifest.turns) && Plan(w, n).Ok?
    ensures 1 <= n <= |w.manifest.turns| && AllRestorable(Plan(w, n).value)
    ensures Plan(w, n).value.Keys == Touched(Selected(w.manifest.turns, n))
  {
    PreflightIsUndo(Selected(w.manifest.turns, n), w.work, w.index, map[], {});
  }

  // ---------- a rollback is turn-by-turn undo ----------

  ghost predicate CanUndo(w: World, n: int)
    requires AllWellFormed(w.manifest.turns)
  {
    && 1 <= n <= |w.manifest.turns|
    && w.manifest.active.None?
    && Capturable(w.work)
    && UndoTurns(Selected(w.manifest.turns, n), w.work, w.index).Some?
  }

  lemma {:induction false} UndoNeedsAvailable(records: seq<Record>, work: Worktree, index: Index)
    requires AllWellFormed(records) && UndoTurns(records, work, index).Some?
    ensures AllAvailable(records)
  {
    if records != [] {
      UndoNeedsAvailable(records[..|records| - 1], Patch(work, PreImages(records[|records| - 1])), index);
    }
  }

  /** Undoing turns whose files are already restored changes no file. */
  lemma {:induction false} RestoredUndoKeepsFiles(records: seq<Record>, work: Worktree, index: Index)
    requires AllWellFormed(records) && Capturable(work)
    requires UndoTurns(records, work, index).Some? && !NeedsApply(records)
    ensures UndoTurns(records, work, index).value == work
  {
    if records != [] {
      var last, older := records[|records| - 1], records[..|records| - 1];
      var now := Patch(work, PreImages(last));
      assert last.filesRestored;
      forall p ensures Get(now, p) == Get(work, p) {
        assert Get(now, p) == Patched(work, PreImages(last), p);
        if p in last.paths {
          assert DiskImage(Get(work, p)) == Pre(last, p);
          ImagesRoundTrip(Pre(last, p), Get(work, p));
        }
      }
      SameWorktree(now, work);
      assert forall i | 0 <= i < |older| :: older[i] == records[i];
      RestoredUndoKeepsFiles(older, work, index);
    }
  }

  /** A marker an earlier call has left is overwritten by the first turn whose files are still to be restored. */
  function MarkerAfter(m: Manifest, n: nat): Option<Restore>
    requires n <= |m.turns|
  {
    if NeedsApply(Selected(m.turns, n)) then None else m.restore
  }

  lemma {:induction false} RollBackMeansUndo(w: World, n: int, consume: bool)
    requires AllWellFormed(w.manifest.turns)
    ensures RollBack(w, n, consume).Ok? <==> CanUndo(w, n)
    ensures CanUndo(w, n) ==>
              RollBack(w, n, consume).value ==
              World(UndoTurns(Selected(w.manifest.turns, n), w.work, w.index).value, w.index,
                    Manifest(None, MarkerAfter(w.manifest, n), TurnsAfter(w.manifest.turns, n, consume)))
  {
    var turns := w.manifest.turns;
    if 1 <= n <= |turns| && w.manifest.active.None? && Capturable(w.work) {
      var selected := Selected(turns, n);
      SameWorktree(Patch(w.work, map[]), w.work);
      if UndoTurns(selected, w.work, w.index).Some? {
        UndoNeedsAvailable(selected, w.work, w.index);
        if !NeedsApply(selected) { RestoredUndoKeepsFiles(selected, w.work, w.index); }
      }
      if AllAvailable(selected) {
        PreflightIsUndo(selected, w.work, w.index, map[], {});
      }
    }
  }

  /** One consuming call for j + k turns is a call for j followed by a call for k. */
  lemma {:induction false} RollBackComposes(w: World, j: int, k: int)
    requires AllWellFormed(w.manifest.turns)
    requires j >= 1 && k >= 1
    ensures var first := RollBack(w, j, true);
            && (first.Ok? ==> AllWellFormed(first.value.manifest.turns))
            && (RollBack(w, j + k, true).Ok? <==> first.Ok? && RollBack(first.value, k, true).Ok?)
            && (RollBack(w, j + k, true).Ok? ==> RollBack(w, j + k, true) == RollBack(first.value, k, true))
  {
    var turns := w.manifest.turns;
    RollBackMeansUndo(w, j, true);
    RollBackMeansUndo(w, j + k, true);
    if j <= |turns| && RollBack(w, j, true).Ok? {
      UndoKeepsCapturable(Selected(turns, j), w.work, w.index);
      RollBackMeansUndo(RollBack(w, j, true).value, k, true);
    }
    if j + k <= |turns| {
      SelectedSplit(turns, j, k, w);
      UndoTurnsSplit(Selected(TurnsAfter(turns, j, true), k), Selected(turns, j), w.work, w.index);
    }
  }

  lemma {:induction false} SelectedSplit(turns: seq<Record>, j: nat, k: nat, w: World)
    requires 1 <= j && 1 <= k && j + k <= |turns| && AllWellFormed(turns)
    ensures var rest := TurnsAfter(turns, j, true);
            && rest == turns[..|turns| - j] && AllWellFormed(rest)
            && TurnsAfter(turns, j + k, true) == TurnsAfter(rest, k, true)
            && Selected(turns, j + k) == Selected(rest, k) + Selected(turns, j)
            && (NeedsApply(Selected(turns, j + k)) <==> NeedsApply(Selected(rest, k)) || NeedsApply(Selected(turns, j)))
            && AllWellFormed(Selected(rest, k)) && AllWellFormed(Selected(turns, j))
  {
    var rest := TurnsAfter(turns, j, true);
    assert rest == turns[..|turns| - j];
    assert Selected(turns, j + k) == Selected(rest, k) + Selected(turns, j);
    assert TurnsAfter(turns, j + k, true) == TurnsAfter(rest, k, true);
    NeedsApplyPlus(Selected(rest, k), Selected(turns, j));
  }

  lemma {:induction false} NeedsApplyPlus(a: seq<Record>, b: seq<Record>)
    ensures NeedsApply(a + b) <==> NeedsApply(a) || NeedsApply(b)
  {
    forall i | 0 <= i < |b| ensures (a + b)[|a| + i] == b[i] {
    }
    forall i | 0 <= i < |a| ensures (a + b)[i] == a[i] {
    }
  }

  /** A successful call changes only paths its turns list, never the index. */
  lemma {:induction false} RollBackFrames(w: World, n: int, consume: bool, p: Path)
    requires AllWellFormed(w.manifest.turns)
    requires RollBack(w, n, consume).Ok?
    requires p !in Touched(Selected(w.manifest.turns, n))
    ensures Get(RollBack(w, n, consume).value.work, p) == Get(w.work, p)
    ensures RollBack(w, n, consume).value.index == w.index
  {
    RollBackMeansUndo(w, n, consume);
    UndoFrames(Selected(w.manifest.turns, n), w.work, w.index, p);
  }

  // ---------- a rollback inverts contiguous turns ----------

  /** `r` is the record of a turn that took `before` to `after`. */
  ghost predicate RecordsTurn(r: Record, before: Worktree, after: Worktree, index: Index) {
    exists a: Active :: a.pre == Capture(before) && r == Completed(a, Capture(after), index)
  }

  ghost predicate Contiguous(records: seq<Record>, works: seq<Worktree>, index: Index) {
    && |works| == |records| + 1
    && (forall i | 0 <= i < |works| :: Capturable(works[i]))
    && forall i | 0 <= i < |records| :: RecordsTurn(records[i], works[i], works[i + 1], index)
  }

  /** A record lists exactly the paths whose file changed, with their images before and after. */
  lemma {:induction false} CompletedImages(a: Active, before: Worktree, after: Worktree, index: Index, p: Path)
    requires Capturable(before) && Capturable(after) && a.pre == Capture(before)
    ensures var r := Completed(a, Capture(after), index);
            && (p in r.paths <==> Get(before, p) != Get(after, p))
            && (p in r.paths ==> Pre(r, p) == DiskImage(Get(before, p)) && Expected(r, p) == DiskImage(Get(after, p)))
  {
    CaptureKeepsImages(before, p);
    CaptureKeepsImages(after, p);
    ImagesRoundTrip(ABSENT, Get(before, p));
    ImagesRoundTrip(ABSENT, Get(after, p));
  }

  lemma {:induction false} CompletedUndoes(a: Active, before: Worktree, after: Worktree, index: Index)
    requires Capturable(before) && Capturable(after) && a.pre == Capture(before)
    ensures var r := Completed(a, Capture(after), index);
            WellFormed(r) && Undoable(r, after, index) && Patch(after, PreImages(r)) == before
  {
    var r := Completed(a, Capture(after), index);
    forall p
      ensures p in r.paths ==> Restorable(Pre(r, p)) && FileFor(Pre(r, p)) == Get(before, p)
      ensures p in r.paths ==> Expected(r, p) == DiskImage(Get(after, p))
    {
      CompletedImages(a, before, after, index, p);
      ImagesRoundTrip(ABSENT, Get(before, p));
    }
    forall p ensures Get(Patch(after, PreImages(r)), p) == Get(before, p) {
      CompletedImages(a, before, after, index, p);
      assert Get(Patch(after, PreImages(r)), p) == Patched(after, PreImages(r), p);
    }
    SameWorktree(Patch(after, PreImages(r)), before);
  }

  lemma {:induction false} ContiguousWellFormed(records: seq<Record>, works: seq<Worktree>, index: Index)
    requires Contiguous(records, works, index)
    ensures AllWellFormed(records)
  {
    forall i | 0 <= i < |records| ensures WellFormed(records[i]) {
      assert RecordsTurn(records[i], works[i], works[i + 1], index);
      var a: Active :| a.pre == Capture(works[i]) && records[i] == Completed(a, Capture(works[i + 1]), index);
      CompletedUndoes(a, works[i], works[i + 1], index);
    }
  }

  lemma {:induction false} ContiguousFront(records: seq<Record>, works: seq<Worktree>, index: Index)
    requires Contiguous(records, works, index) && records != []
    ensures var n := |records| - 1;
            Contiguous(records[..n], works[..n + 1], index) && RecordsTurn(records[n], works[n], works[n + 1], index)
  {
    var n := |records| - 1;
    forall i | 0 <= i < n ensures RecordsTurn(records[..n][i], works[..n + 1][i], works[..n + 1][i + 1], index) {
      assert RecordsTurn(records[i], works[i], works[i + 1], index);
    }
    assert RecordsTurn(records[n], works[n], works[n + 1], index);
  }

  lemma {:induction false} ContiguousUndo(records: seq<Record>, works: seq<Worktree>, index: Index)
    requires Contiguous(records, works, index)
    ensures AllWellFormed(records)
    ensures UndoTurns(records, works[|records|], index) == Some(works[0])
  {
    ContiguousWellFormed(records, works, index);
    if records != [] {
      var n := |records| - 1;
      ContiguousFront(records, works, index);
      var a: Active :| a.pre == Capture(works[n]) && records[n] == Completed(a, Capture(works[n + 1]), index);
      CompletedUndoes(a, works[n], works[n + 1], index);
      ContiguousUndo(records[..n], works[..n + 1], index);
    }
  }

  /** Rolling back k contiguous turns gives back, file by file, what the first of them started from. */
  lemma {:induction false} RollBackInverts(w: World, k: int, works: seq<Worktree>, consume: bool)
    requires AllWellFormed(w.manifest.turns) && w.manifest.active.None?
    requires 1 <= k <= |w.manifest.turns|
    requires Contiguous(Selected(w.manifest.turns, k), works, w.index) && works[k] == w.work
    ensures RollBack(w, k, consume).Ok?
    ensures RollBack(w, k, consume).value.work == works[0]
  {
    ContiguousUndo(Selected(w.manifest.turns, k), works, w.index);
    RollBackMeansUndo(w, k, consume);
  }

  // ---------- repeating a non-consuming rollback ----------

  /** Turns that touch a common path started from the same image of it. */
  ghost predicate SharedPreImages(selected: seq<Record>)
    requires AllAvailable(selected)
  {
    forall i, j, p | 0 <= i < |selected| && 0 <= j < |selected| && p in selected[i].paths && p in selected[j].paths ::
      Pre(selected[i], p) == Pre(selected[j], p)
  }

  /** After an undo a path holds what the oldest turn that lists it started from. */
  lemma {:induction false} OldestWins(records: seq<Record>, work: Worktree, index: Index, i: nat, p: Path)
    returns (m: nat)
    requires AllWellFormed(records) && UndoTurns(records, work, index).Some? && AllAvailable(records)
    requires i < |records| && p in records[i].paths
    ensures m < |records| && p in records[m].paths
    ensures DiskImage(Get(UndoTurns(records, work, index).value, p)) == Pre(records[m], p)
  {
    var n := |records| - 1;
    var last, older := records[n], records[..n];
    var now := Patch(work, PreImages(last));
    if k: nat :| k < n && p in records[k].paths {
      assert older[k] == records[k];
      m := OldestWins(older, now, index, k, p);
    } else {
      m := n;
      assert p !in Touched(older);
      UndoFrames(older, now, index, p);
      assert Get(now, p) == Patched(work, PreImages(last), p);
      ImagesRoundTrip(Pre(last, p), None);
    }
  }

  lemma {:induction false} UndoRestored(records: seq<Record>, work: Worktree, index: Index)
    requires AllWellFormed(records) && AllAvailable(records) && !NeedsApply(records) && Capturable(work)
    ensures UndoTurns(records, work, index).Some? <==>
            forall i | 0 <= i < |records| :: Undoable(records[i], work, index)
    ensures UndoTurns(records, work, index).Some? ==> UndoTurns(records, work, index).value == work
  {
    if records != [] {
      var n := |records| - 1;
      var last, older := records[n], records[..n];
      assert forall i | 0 <= i < n :: older[i] == records[i];
      if Undoable(last, work, index) {
        assert UndoTurns([last], work, index).Some? by { assert [last][..0] == []; }
        RestoredUndoKeepsFiles([last], work, index);
        assert Patch(work, PreImages(last)) == work by { assert [last][..0] == []; }
        UndoRestored(older, work, index);
      }
    }
  }

  lemma {:induction false} UndoNeedsStaged(records: seq<Record>, work: Worktree, index: Index, i: nat, p: Path)
    requires AllWellFormed(records) && UndoTurns(records, work, index).Some? && AllAvailable(records)
    requires i < |records| && p in records[i].paths
    ensures Staged(records[i].staged, p) == Staged(index.entries, p)
    decreases |records|
  {
    var n := |records| - 1;
    if i < n {
      assert records[..n][i] == records[i];
      UndoNeedsStaged(records[..n], Patch(work, PreImages(records[n])), index, i, p);
    }
  }

  lemma {:induction false} RestoredExpects(selected: seq<Record>, before: Worktree, after: Worktree, index: Index,
      i: nat)
    requires AllWellFormed(selected) && AllAvailable(selected) && UndoTurns(selected, before, index) == Some(after)
    requires i < |selected|
    ensures var marked := MarkRestored(selected);
            Undoable(marked[i], after, index) <==>
            forall p | p in selected[i].paths :: DiskImage(Get(after, p)) == Pre(selected[i], p)
  {
    var marked := MarkRestored(selected);
    assert forall p :: Expected(marked[i], p) == Pre(selected[i], p);
    forall p | p in selected[i].paths ensures Staged(selected[i].staged, p) == Staged(index.entries, p) {
      UndoNeedsStaged(selected, before, index, i, p);
    }
  }

  /** The restored records can all be undone again exactly when records of one path share its pre-image. */
  lemma {:induction false} RestoredUndoable(selected: seq<Record>, before: Worktree, after: Worktree, index: Index)
    requires AllWellFormed(selected) && AllAvailable(selected) && UndoTurns(selected, before, index) == Some(after)
    ensures var marked := MarkRestored(selected);
            (forall i | 0 <= i < |selected| :: Undoable(marked[i], after, index)) <==> SharedPreImages(selected)
  {
    var marked := MarkRestored(selected);
    forall i | 0 <= i < |selected|
      ensures Undoable(marked[i], after, index) <==>
              forall p | p in selected[i].paths :: DiskImage(Get(after, p)) == Pre(selected[i], p)
    {
      RestoredExpects(selected, before, after, index, i);
    }
    if SharedPreImages(selected) {
      forall i | 0 <= i < |selected| ensures Undoable(marked[i], after, index) {
        forall p | p in selected[i].paths ensures DiskImage(Get(after, p)) == Pre(selected[i], p) {
          var m := OldestWins(selected, before, index, i, p);
        }
      }
    }
    if forall i | 0 <= i < |selected| :: Undoable(marked[i], after, index) {
      forall i, j, p | 0 <= i < |selected| && 0 <= j < |selected| && p in selected[i].paths && p in selected[j].paths
        ensures Pre(selected[i], p) == Pre(selected[j], p)
      {
        assert Undoable(marked[i], after, index) && Undoable(marked[j], after, index);
      }
    }
  }

  /**
   Repeating a non-consuming rollback succeeds, and is then a no-op, exactly when
   the selected turns that share a path agree on the image they started from.
   */
  lemma {:induction false} RepeatedRollBack(w: World, n: int)
    requires AllWellFormed(w.manifest.turns)
    requires RollBack(w, n, false).Ok?
    ensures CanUndo(w, n) && AllAvailable(Selected(w.manifest.turns, n))
    ensures var once := RollBack(w, n, false).value;
            && AllWellFormed(once.manifest.turns)
            && (RollBack(once, n, false).Ok? <==> SharedPreImages(Selected(w.manifest.turns, n)))
            && (RollBack(once, n, false).Ok? ==> RollBack(once, n, false).value == once)
  {
    RollBackMeansUndo(w, n, false);
    var turns := w.manifest.turns;
    var selected := Selected(turns, n);
    var once := RollBack(w, n, false).value;
    UndoNeedsAvailable(selected, w.work, w.index);
    UndoKeepsCapturable(selected, w.work, w.index);
    var marked := MarkRestored(selected);
    assert Selected(once.manifest.turns, n) == marked;
    MarkedWellFormed(turns, n);
    assert MarkRestored(marked) == marked;
    assert TurnsAfter(once.manifest.turns, n, false) == once.manifest.turns;
    RollBackMeansUndo(once, n, false);
    UndoRestored(marked, once.work, w.index);
    RestoredUndoable(selected, w.work, once.work, w.index);
  }

  lemma {:induction false} MarkedWellFormed(turns: seq<Record>, n: nat)
    requires AllWellFormed(turns) && n <= |turns|
    ensures AllWellFormed(TurnsAfter(turns, n, false)) && AllWellFormed(TurnsAfter(turns, n, true))
    ensures AllWellFormed(MarkRestored(Selected(turns, n)))
  {
    var marked := MarkRestored(Selected(turns, n));
    forall i | 0 <= i < n ensures WellFormed(marked[i]) {
      var r := turns[|turns| - n + i];
      assert WellFormed(r);
      if r.Checkpoint? { assert PreImages(marked[i]) == PreImages(r); }
    }
  }

  ghost function TwoTurns(a: Active, b: Active, one: Worktree, two: Worktree, index: Index): World {
    World(two, index, Manifest(None, None, [Completed(a, Capture(one), index), Completed(b, Capture(two), index)]))
  }

  lemma {:induction false} TwoTurnsRollBack(a: Active, b: Active, zero: Worktree, one: Worktree, two: Worktree,
      index: Index)
    requires Capturable(zero) && Capturable(one) && Capturable(two)
    requires a.pre == Capture(zero) && b.pre == Capture(one)
    ensures var w := TwoTurns(a, b, one, two, index);
            && AllWellFormed(w.manifest.turns) && Selected(w.manifest.turns, 2) == w.manifest.turns
            && RollBack(w, 2, false).Ok?
  {
    var w := TwoTurns(a, b, one, two, index);
    var records := w.manifest.turns;
    assert RecordsTurn(records[0], zero, one, index);
    assert RecordsTurn(records[1], one, two, index);
    ContiguousUndo(records, [zero, one, two], index);
    assert Selected(records, 2) == records;
    RollBackInverts(w, 2, [zero, one, two], false);
  }

  lemma {:induction false} TwoEditsDiffer(a: Active, b: Active, zero: Worktree, one: Worktree, two: Worktree,
      index: Index, p: Path)
    requires Capturable(zero) && Capturable(one) && Capturable(two)
    requires a.pre == Capture(zero) && b.pre == Capture(one)
    requires Get(zero, p) != Get(one, p) && Get(one, p) != Get(two, p)
    ensures var first, second := Completed(a, Capture(one), index), Completed(b, Capture(two), index);
            p in first.paths && p in second.paths && Pre(first, p) != Pre(second, p)
  {
    CompletedImages(a, zero, one, index, p);
    CompletedImages(b, one, two, index, p);
    ImagesRoundTrip(ABSENT, Get(zero, p));
    ImagesRoundTrip(ABSENT, Get(one, p));
  }

  /** Two contiguous turns that both changed a file: restored once, a second try is refused. */
  lemma {:induction false} TwoEditsRefuseRepeat(a: Active, b: Active, zero: Worktree, one: Worktree, two: Worktree,
      index: Index, p: Path)
    requires Capturable(zero) && Capturable(one) && Capturable(two)
    requires a.pre == Capture(zero) && b.pre == Capture(one)
    requires Get(zero, p) != Get(one, p) && Get(one, p) != Get(two, p)
    ensures var w := TwoTurns(a, b, one, two, index);
            && AllWellFormed(w.manifest.turns) && RollBack(w, 2, false).Ok?
            && AllWellFormed(RollBack(w, 2, false).value.manifest.turns)
            && RollBack(RollBack(w, 2, false).value, 2, false).Err?
  {
    var w := TwoTurns(a, b, one, two, index);
    TwoTurnsRollBack(a, b, zero, one, two, index);
    RepeatedRollBack(w, 2);
    TwoEditsDiffer(a, b, zero, one, two, index, p);
    var records := w.manifest.turns;
    assert Pre(records[0], p) != Pre(records[1], p);
  }

  lemma {:induction false} RepeatCanBeRefused() returns (w: World)
    ensures AllWellFormed(w.manifest.turns) && w.manifest.restore.None? && RollBack(w, 2, false).Ok?
    ensures AllWellFormed(RollBack(w, 2, false).value.manifest.turns)
    ensures RollBack(RollBack(w, 2, false).value, 2, false).Err?
  {
    var zero: Worktree := map["f" := Plain("0", CANONICAL_REGULAR)];
    var one: Worktree := map["f" := Plain("1", CANONICAL_REGULAR)];
    var a := Active(0, "a", Capture(zero), Index(map[], ""), true);
    var b := Active(1, "b", Capture(one), Index(map[], ""), true);
    assert zero["f"] != one["f"];
    TwoEditsRefuseRepeat(a, b, zero, one, zero, Index(map[], ""), "f");
    w := TwoTurns(a, b, one, zero, Index(map[], ""));
  }
}
