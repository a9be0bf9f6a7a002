/**
 Completed turn records, the manifest that holds them, and what rolling turns
 back means: undoing them one at a time, newest first, each on the files the
 previous one left.
 */
module CheckpointRecords {
  import opened Wrappers
  import opened CheckpointImages

  const MAX_RETAINED_TURNS := 100

  /** The user's Git index: rows by path, and whatever else its raw bytes hold. */
  datatype Index = Index(entries: map<Path, seq<string>>, metadata: string)

  function Staged(entries: map<Path, seq<string>>, p: Path): seq<string> {
    if p in entries then entries[p] else []
  }

  datatype Record =
    | Checkpoint(id: nat, turnId: string, filesRestored: bool, paths: set<Path>,
                 pre: Snapshot, post: Snapshot, staged: map<Path, seq<string>>)
    | Tombstone(id: nat, turnId: string)

  datatype Active = Active(id: nat, turnId: string, pre: Snapshot, index: Index, accepted: bool)

  /** The write-ahead marker of a restore; both maps have the touched paths as keys. */
  datatype Restore = Restore(ids: seq<nat>, consume: bool, original: map<Path, Image>, target: map<Path, Image>)

  datatype Manifest = Manifest(active: Option<Active>, restore: Option<Restore>, turns: seq<Record>)

  /** Everything durable: the worktree, the index and the manifest file. */
  datatype World = World(work: Worktree, index: Index, manifest: Manifest)

  datatype CheckpointError =
    | InvalidCount | ActiveTurn | DuplicateTurn | NoMatchingActive | NotAccepted | CaptureFailed
    | UnsupportedEntries(paths: set<Path>) | IndexChanged(paths: set<Path>) | IndexMetadataChanged
    | NotEnough | Unavailable(turnIds: set<string>) | Conflict(files: set<Path>, staged: set<Path>)
    | InvalidMarker | TailMismatch | StorageFailed | RestoreFailed | RestoreAndRecoveryFailed
    | CommitFailed | CommitAndRecoveryFailed | RetentionLimit

  // ---------- finishing a turn ----------

  function ChangedPaths(pre: Snapshot, post: Snapshot): set<Path> {
    set p | p in pre.tree.Keys + post.tree.Keys && ImageIn(pre, p) != ImageIn(post, p)
  }

  function UnsupportedPaths(pre: Snapshot, post: Snapshot): set<Path> {
    set p | p in ChangedPaths(pre, post)
            && ((p in pre.tree && pre.tree[p].mode == Gitlink) || (p in post.tree && post.tree[p].mode == Gitlink))
  }

  function Restrict<V>(m: map<Path, V>, paths: set<Path>): map<Path, V> {
    map p | p in m && p in paths :: m[p]
  }

  function Completed(a: Active, post: Snapshot, index: Index): Record {
    var changed := ChangedPaths(a.pre, post);
    Checkpoint(a.id, a.turnId, false, changed,
               Snapshot(a.pre.tree, Restrict(a.pre.overrides, changed)),
               Snapshot(post.tree, Restrict(post.overrides, changed)),
               map p | p in changed :: Staged(index.entries, p))
  }

  // ---------- undoing one turn, then several ----------

  function Pre(r: Record, p: Path): Image
    requires r.Checkpoint?
  {
    ImageIn(r.pre, p)
  }

  function Expected(r: Record, p: Path): Image
    requires r.Checkpoint?
  {
    ImageIn(if r.filesRestored then r.pre else r.post, p)
  }

  function PreImages(r: Record): map<Path, Image>
    requires r.Checkpoint?
  {
    map p | p in r.paths :: Pre(r, p)
  }

  ghost predicate WellFormed(r: Record) {
    r.Checkpoint? ==> AllRestorable(PreImages(r))
  }

  ghost predicate AllWellFormed(records: seq<Record>) {
    forall i | 0 <= i < |records| :: WellFormed(records[i])
  }

  /** Every path of the record is as the record left it, in the worktree and in the index. */
  ghost predicate Undoable(r: Record, work: Worktree, index: Index) {
    && r.Checkpoint?
    && forall p | p in r.paths ::
         DiskImage(Get(work, p)) == Expected(r, p) && Staged(r.staged, p) == Staged(index.entries, p)
  }

  /** Undo records newest first; None when one of them cannot be undone. */
  ghost function UndoTurns(records: seq<Record>, work: Worktree, index: Index): Option<Worktree>
    requires AllWellFormed(records)
  {
    if records == [] then Some(work)
    else
      var last := records[|records| - 1];
      if Undoable(last, work, index)
      then UndoTurns(records[..|records| - 1], Patch(work, PreImages(last)), index)
      else None
  }

  lemma {:induction false} UndoTurnsSplit(older: seq<Record>, newer: seq<Record>, work: Worktree, index: Index)
    requires AllWellFormed(older) && AllWellFormed(newer)
    ensures AllWellFormed(older + newer)
    ensures UndoTurns(older + newer, work, index) ==
            var u := UndoTurns(newer, work, index);
            if u.None? then None else UndoTurns(older, u.value, index)
  {
    var all := older + newer;
    if newer == [] {
      assert all == older;
    } else {
      var last := newer[|newer| - 1];
      assert all[|all| - 1] == last && all[..|all| - 1] == older + newer[..|newer| - 1];
      if Undoable(last, work, index) {
        UndoTurnsSplit(older, newer[..|newer| - 1], Patch(work, PreImages(last)), index);
      }
    }
  }

  lemma {:induction false} UndoKeepsCapturable(records: seq<Record>, work: Worktree, index: Index)
    requires AllWellFormed(records) && Capturable(work)
    ensures UndoTurns(records, work, index).Some? ==> Capturable(UndoTurns(records, work, index).value)
  {
    if records != [] && Undoable(records[|records| - 1], work, index) {
      var images := PreImages(records[|records| - 1]);
      PatchCapturable(work, images);
      UndoKeepsCapturable(records[..|records| - 1], Patch(work, images), index);
    }
  }

  ghost function Touched(records: seq<Record>): set<Path> {
    set i, p | 0 <= i < |records| && records[i].Checkpoint? && p in records[i].paths :: p
  }

  /** Only paths of the undone records change. */
  lemma {:induction false} UndoFrames(records: seq<Record>, work: Worktree, index: Index, p: Path)
    requires AllWellFormed(records) && UndoTurns(records, work, index).Some?
    requires p !in Touched(records)
    ensures Get(UndoTurns(records, work, index).value, p) == Get(work, p)
  {
    if records != [] {
      var last, older := records[|records| - 1], records[..|records| - 1];
      assert p !in last.paths;
      assert Touched(older) <= Touched(records);
      UndoFrames(older, Patch(work, PreImages(last)), index, p);
      assert Get(Patch(work, PreImages(last)), p) == Patched(work, PreImages(last), p);
    }
  }

  // ---------- the rollback preflight ----------

  /** The image of p in the worktree the preflight has worked out so far. */
  function View(current: Snapshot, targets: map<Path, Image>, p: Path): Image {
    if p in targets then targets[p] else ImageIn(current, p)
  }

  function FileConflicts(r: Record, current: Snapshot, targets: map<Path, Image>): set<Path>
    requires r.Checkpoint?
  {
    set p | p in r.paths && View(current, targets, p) != Expected(r, p)
  }

  function StagedConflicts(r: Record, index: Index): set<Path>
    requires r.Checkpoint?
  {
    set p | p in r.paths && Staged(r.staged, p) != Staged(index.entries, p)
  }

  predicate AllAvailable(records: seq<Record>) {
    forall i | 0 <= i < |records| :: records[i].Checkpoint?
  }

  /** Works out, newest first, the image every touched path is to get, without touching a file. */
  function Preflight(selected: seq<Record>, current: Snapshot, index: Index,
                     targets: map<Path, Image>, staged: set<Path>): Result<map<Path, Image>, CheckpointError>
    requires AllAvailable(selected)
  {
    if selected == [] then
      if staged == {} then Ok(targets) else Err(Conflict({}, staged))
    else
      var r := selected[|selected| - 1];
      var staged' := staged + StagedConflicts(r, index);
      var files := FileConflicts(r, current, targets);
      if files != {} then Err(Conflict(files, staged'))
      else Preflight(selected[..|selected| - 1], current, index, targets + PreImages(r), staged')
  }

  /** Planning on images and undoing turn by turn on files agree, in success and in result. */
  lemma {:induction false} PreflightIsUndo(selected: seq<Record>, work: Worktree, index: Index,
                                           targets: map<Path, Image>, staged: set<Path>)
    requires AllAvailable(selected) && AllWellFormed(selected)
    requires Capturable(work) && AllRestorable(targets)
    ensures var plan := Preflight(selected, Capture(work), index, targets, staged);
            var undone := UndoTurns(selected, Patch(work, targets), index);
            && (plan.Ok? <==> staged == {} && undone.Some?)
            && (plan.Ok? ==>
                  && AllRestorable(plan.value)
                  && Patch(work, plan.value) == undone.value
                  && plan.value.Keys == targets.Keys + Touched(selected))
    ensures var plan := Preflight(selected, Capture(work), index, targets, staged);
            plan.Err? ==> plan.error.Conflict? && plan.error.files + plan.error.staged != {}
  {
    if selected == [] {
      assert Touched(selected) == {};
    } else {
      var r, older := selected[|selected| - 1], selected[..|selected| - 1];
      FirstUndo(r, work, index, targets);
      PreflightIsUndo(older, work, index, targets + PreImages(r), staged + StagedConflicts(r, index));
      TouchedSplit(selected);
    }
  }

  /** The newest record, checked against the files planned so far and on the files themselves. */
  lemma {:induction false} FirstUndo(r: Record, work: Worktree, index: Index, targets: map<Path, Image>)
    requires r.Checkpoint? && WellFormed(r) && Capturable(work) && AllRestorable(targets)
    ensures var now := Patch(work, targets);
            && (Undoable(r, now, index) <==>
                  FileConflicts(r, Capture(work), targets) == {} && StagedConflicts(r, index) == {})
            && AllRestorable(targets + PreImages(r))
            && Patch(now, PreImages(r)) == Patch(work, targets + PreImages(r))
  {
    ViewIsDisk(work, targets);
    UndoableIffNoConflict(r, Capture(work), targets, Patch(work, targets), index);
    PatchTwice(work, targets, PreImages(r));
  }

  lemma {:induction false} TouchedSplit(records: seq<Record>)
    requires records != [] && AllAvailable(records)
    ensures Touched(records) == Touched(records[..|records| - 1]) + records[|records| - 1].paths
  {
    var r, older := records[|records| - 1], records[..|records| - 1];
    forall p | p in Touched(records) ensures p in Touched(older) + r.paths {
      var i :| 0 <= i < |records| && records[i].Checkpoint? && p in records[i].paths;
      if i < |older| { assert older[i] == records[i]; }
    }
    forall p | p in Touched(older) + r.paths ensures p in Touched(records) {
      if p in Touched(older) {
        var i :| 0 <= i < |older| && older[i].Checkpoint? && p in older[i].paths;
        assert records[i] == older[i];
      }
    }
  }

  lemma {:induction false} ViewIsDisk(work: Worktree, targets: map<Path, Image>)
    requires Capturable(work) && AllRestorable(targets)
    ensures forall p :: View(Capture(work), targets, p) == DiskImage(Get(Patch(work, targets), p))
  {
    forall p ensures View(Capture(work), targets, p) == DiskImage(Get(Patch(work, targets), p)) {
      CaptureKeepsImages(work, p);
      assert Get(Patch(work, targets), p) == Patched(work, targets, p);
      if p in targets { ImagesRoundTrip(targets[p], None); }
    }
  }

  lemma {:induction false} UndoableIffNoConflict(r: Record, current: Snapshot, targets: map<Path, Image>,
      now: Worktree, index: Index)
    requires r.Checkpoint?
    requires forall p :: View(current, targets, p) == DiskImage(Get(now, p))
    ensures Undoable(r, now, index) <==> FileConflicts(r, current, targets) == {} && StagedConflicts(r, index) == {}
  {
    if FileConflicts(r, current, targets) == {} && StagedConflicts(r, index) == {} {
      forall p | p in r.paths
        ensures DiskImage(Get(now, p)) == Expected(r, p) && Staged(r.staged, p) == Staged(index.entries, p)
      {
        assert p !in FileConflicts(r, current, targets);
        assert p !in StagedConflicts(r, index);
        assert View(current, targets, p) == DiskImage(Get(now, p));
      }
    }
    if Undoable(r, now, index) {
      forall p ensures p !in FileConflicts(r, current, targets) {
        assert View(current, targets, p) == DiskImage(Get(now, p));
      }
    }
  }
}
