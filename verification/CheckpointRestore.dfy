/**
 The write-ahead restore protocol: the durable states a rollback passes through,
 what reopening the journal does in each, and why any number of crashes leaves
 either the original files and turns or the target files and finalized turns.
 */
module CheckpointRestore {
  import opened Wrappers
  import opened CheckpointImages
  import opened CheckpointRecords
  import opened CheckpointRollback

  predicate Matches(work: Worktree, images: map<Path, Image>, p: Path)
    requires p in images
  {
    DiskImage(Get(work, p)) == images[p]
  }

  predicate AllMatch(work: Worktree, images: map<Path, Image>) {
    forall p | p in images :: Matches(work, images, p)
  }

  function RecordIds(records: seq<Record>): (ids: seq<nat>)
    ensures |ids| == |records|
  {
    seq(|records|, i requires 0 <= i < |records| => records[i].id)
  }

  /** Drop or mark the turns named by the marker, which must still be the newest ones. */
  function Finalize(m: Manifest, r: Restore): Result<Manifest, CheckpointError> {
    var n := |r.ids|;
    if n == 0 then Err(InvalidMarker)
    else if n > |m.turns| || RecordIds(Selected(m.turns, n)) != r.ids then Err(TailMismatch)
    else Ok(m.(restore := None, turns := TurnsAfter(m.turns, n, r.consume)))
  }

  /** Some path holds neither image of the marker. */
  predicate ThirdState(work: Worktree, r: Restore)
    requires r.original.Keys == r.target.Keys
  {
    exists p | p in r.target :: !Matches(work, r.original, p) && !Matches(work, r.target, p)
  }

  predicate ValidRestore(r: Restore) {
    && r.original.Keys == r.target.Keys
    && (forall p | p in r.original :: Restorable(r.original[p]))
    && (forall p | p in r.target :: Restorable(r.target[p]))
  }

  predicate ValidMarker(m: Manifest) {
    m.restore.Some? ==> ValidRestore(m.restore.value)
  }

  /** Everything the journal's manifests hold can be written back to files. */
  ghost predicate ValidManifest(m: Manifest) {
    && AllWellFormed(m.turns)
    && ValidMarker(m)
    && (m.active.Some? ==> forall p :: Restorable(ImageIn(m.active.value.pre, p)))
  }

  lemma {:induction false} CaptureRestorable(work: Worktree)
    requires Capturable(work)
    ensures forall p :: Restorable(ImageIn(Capture(work), p))
  {
    forall p ensures Restorable(ImageIn(Capture(work), p)) {
      CaptureKeepsImages(work, p);
      ImagesRoundTrip(ABSENT, Get(work, p));
    }
  }

  lemma {:induction false} CompletedWellFormed(a: Active, post: Snapshot, index: Index)
    requires forall p :: Restorable(ImageIn(a.pre, p))
    ensures WellFormed(Completed(a, post, index))
  {
    var r := Completed(a, post, index);
    forall p | p in r.paths ensures Restorable(Pre(r, p)) {
      assert Pre(r, p) == ImageIn(a.pre, p);
    }
  }

  const OUTSIDE_EDIT := Conflict({}, {})

  /** What opening the journal leaves when nothing fails; an error leaves everything as it was. */
  function Reopened(w: World): Result<World, CheckpointError>
    requires ValidMarker(w.manifest)
  {
    if w.manifest.restore.None? then Ok(w)
    else
      var r := w.manifest.restore.value;
      if r.target == map[] then Err(InvalidMarker)
      else if !Capturable(w.work) then Err(CaptureFailed)
      else if AllMatch(w.work, r.target) then
        var m := Finalize(w.manifest, r);
        if m.Err? then Err(m.error) else Ok(w.(manifest := m.value))
      else if AllMatch(w.work, r.original) then Ok(w.(manifest := w.manifest.(restore := None)))
      else if ThirdState(w.work, r) then Err(OUTSIDE_EDIT)
      else Ok(World(Patch(w.work, r.original), w.index, w.manifest.(restore := None)))
  }

  /** When recovery refuses: with a file in neither recorded state it always does. */
  lemma {:induction false} ReopenRefusedIff(w: World)
    requires ValidMarker(w.manifest) && w.manifest.restore.Some?
    ensures var r := w.manifest.restore.value;
            && (Reopened(w).Err? <==>
                  || r.target.Keys == {} || !Capturable(w.work) || ThirdState(w.work, r)
                  || (AllMatch(w.work, r.target) && Finalize(w.manifest, r).Err?))
            && (ThirdState(w.work, r) && r.target.Keys != {} && Capturable(w.work) ==> Reopened(w) == Err(OUTSIDE_EDIT))
  {
    var r := w.manifest.restore.value;
    assert r.target == map[] <==> r.target.Keys == {};
    if p :| p in r.target && !Matches(w.work, r.original, p) && !Matches(w.work, r.target, p) {
      assert p in r.original;
      assert !AllMatch(w.work, r.target) && !AllMatch(w.work, r.original);
    }
  }

  /** Every listed file holds one of its two images, but neither side is complete. */
  predicate HalfWritten(work: Worktree, r: Restore)
    requires r.original.Keys == r.target.Keys
  {
    && r.target != map[] && Capturable(work) && !AllMatch(work, r.target) && !AllMatch(work, r.original)
    && !ThirdState(work, r)
  }

  lemma {:induction false} HalfWrittenReopens(w: World)
    requires ValidMarker(w.manifest) && w.manifest.restore.Some? && HalfWritten(w.work, w.manifest.restore.value)
    ensures var r := w.manifest.restore.value;
            Reopened(w) == Ok(World(Patch(w.work, r.original), w.index, w.manifest.(restore := None)))
  {
  }

  /**
   Whatever turns have done since a failed rollback left its marker: opening the
   journal rewrites a file exactly when the listed files are half written, and
   then every listed file gets its original image back.
   */
  lemma {:induction false} ReopenRewritesIff(w: World)
    requires ValidMarker(w.manifest) && w.manifest.restore.Some?
    ensures var r, after := w.manifest.restore.value, Reopened(w);
            && (after.Ok? && after.value.work != w.work <==> HalfWritten(w.work, r))
            && (HalfWritten(w.work, r) ==>
                  forall p :: Get(after.value.work, p) ==
                      if p in r.original then FileFor(r.original[p]) else Get(w.work, p))
  {
    var r := w.manifest.restore.value;
    if HalfWritten(w.work, r) {
      HalfWrittenReopens(w);
      var after := Patch(w.work, r.original);
      assert forall p :: Get(after, p) == Patched(w.work, r.original, p);
      var p :| p in r.original && !Matches(w.work, r.original, p);
      ImagesRoundTrip(r.original[p], None);
      assert Get(after, p) != Get(w.work, p);
    }
  }

  /** With all target images there and a newer turn recorded, no opening succeeds until a file changes. */
  lemma {:induction false} LaterTurnBlocksReopen(w: World)
    requires ValidMarker(w.manifest) && w.manifest.restore.Some? && w.manifest.turns != []
    requires var r := w.manifest.restore.value;
             r.target.Keys != {} && r.ids != [] && Capturable(w.work) && AllMatch(w.work, r.target)
    requires w.manifest.turns[|w.manifest.turns| - 1].id !in w.manifest.restore.value.ids
    ensures Reopened(w) == Err(TailMismatch)
  {
    var r, turns := w.manifest.restore.value, w.manifest.turns;
    var n := |r.ids|;
    assert r.target != map[];
    if n <= |turns| { NewestId(turns, n); }
  }

  lemma {:induction false} NewestId(turns: seq<Record>, n: nat)
    requires 1 <= n <= |turns|
    ensures turns[|turns| - 1].id in RecordIds(Selected(turns, n))
  {
    assert RecordIds(Selected(turns, n))[n - 1] == turns[|turns| - 1].id;
  }

  // ---------- durable states ----------

  /** `r` is the marker a rollback of the newest turns writes over `base`. */
  ghost predicate MarkerFor(base: World, r: Restore) {
    && ValidRestore(r)
    && Capturable(base.work)
    && (forall p | p in r.original :: r.original[p] == DiskImage(Get(base.work, p)))
    && 1 <= |r.ids| <= |base.manifest.turns|
    && r.ids == RecordIds(Selected(base.manifest.turns, |r.ids|))
  }

  ghost function Committed(base: World, r: Restore): World
    requires ValidRestore(r) && |r.ids| <= |base.manifest.turns|
  {
    World(Patch(base.work, r.target), base.index,
          base.manifest.(restore := None, turns := TurnsAfter(base.manifest.turns, |r.ids|, r.consume)))
  }

  /** Marker saved; each listed path still original or already rewritten, every other path untouched. */
  ghost predicate InFlight(base: World, r: Restore, w: World)
    requires ValidRestore(r)
  {
    && w.index == base.index
    && w.manifest == base.manifest.(restore := Some(r))
    && Blend(base.work, r.target, w.work)
  }

  ghost function Aborted(base: World): World {
    base.(manifest := base.manifest.(restore := None))
  }

  /** Every state in which a crash can find the disk. */
  ghost predicate CrashPoint(base: World, r: Restore, w: World)
    requires MarkerFor(base, r)
  {
    w == base || PastMarker(base, r, w)
  }

  /** The new marker has been saved, and a marker of an earlier call with it is gone. */
  ghost predicate PastMarker(base: World, r: Restore, w: World)
    requires MarkerFor(base, r)
  {
    w == Aborted(base) || w == Committed(base, r) || InFlight(base, r, w)
  }

  /** A crash leaves a manifest the journal can read. */
  lemma {:induction false} CrashPointValid(base: World, r: Restore, w: World)
    requires MarkerFor(base, r) && CrashPoint(base, r, w) && ValidManifest(base.manifest)
    ensures ValidManifest(w.manifest)
  {
    MarkedWellFormed(base.manifest.turns, |r.ids|);
  }

  /** A state in which a crash can find the disk while it is being reopened from `w`. */
  ghost predicate ReopenPoint(w: World, w': World)
    requires ValidMarker(w.manifest)
  {
    || w' == w
    || (Reopened(w).Ok? && w' == Reopened(w).value)
    || (&& w.manifest.restore.Some? && HalfWritten(w.work, w.manifest.restore.value)
        && w'.index == w.index && w'.manifest == w.manifest
        && Blend(w.work, w.manifest.restore.value.original, w'.work))
  }

  /** One file while the originals are being written back. */
  lemma {:induction false} HalfBackAt(work: Worktree, r: Restore, now: Worktree, p: Path)
    requires ValidRestore(r) && HalfWritten(work, r) && Blend(work, r.original, now)
    ensures Patched(now, r.original, p) == Patched(work, r.original, p)
    ensures p in r.original && Matches(work, r.original, p) ==> Matches(now, r.original, p)
    ensures p in r.original ==> Matches(now, r.original, p) || Matches(now, r.target, p)
    ensures p in r.original && Matches(now, r.original, p) ==> Get(now, p) == FileFor(r.original[p])
    ensures !(Get(now, p).Some? && Get(now, p).value.Submodule?)
  {
    assert Get(now, p) == Get(work, p) || Get(now, p) == Patched(work, r.original, p);
    assert Get(work, p).Some? ==> p in work;
    if p in r.original {
      assert p in r.target && (Matches(work, r.original, p) || Matches(work, r.target, p));
      ImagesRoundTrip(r.original[p], Get(now, p));
    }
  }

  /** While the originals are being written back the files stay half written, or are all original again. */
  lemma {:induction false} HalfBack(work: Worktree, r: Restore, now: Worktree)
    requires ValidRestore(r) && HalfWritten(work, r) && Blend(work, r.original, now)
    ensures Patch(now, r.original) == Patch(work, r.original)
    ensures if AllMatch(now, r.original) then now == Patch(work, r.original) else HalfWritten(now, r)
    ensures Capturable(now) && !AllMatch(now, r.target)
  {
    forall p
      ensures Patched(now, r.original, p) == Patched(work, r.original, p)
      ensures p in r.original && Matches(work, r.original, p) ==> Matches(now, r.original, p)
      ensures p in r.original ==> Matches(now, r.original, p) || Matches(now, r.target, p)
      ensures p in r.original && Matches(now, r.original, p) ==> Get(now, p) == FileFor(r.original[p])
      ensures !(Get(now, p).Some? && Get(now, p).value.Submodule?)
    {
      HalfBackAt(work, r, now, p);
    }
    assert forall p | p in now :: Get(now, p) == Some(now[p]);
    BothPatched(now, work, r.original);
    SomeOriginal(work, r, now);
    if AllMatch(now, r.original) {
      forall p ensures Get(now, p) == Get(Patch(work, r.original), p) {
        assert Get(Patch(work, r.original), p) == Patched(now, r.original, p);
      }
      SameWorktree(now, Patch(work, r.original));
    }
  }

  lemma {:induction false} BothPatched(a: Worktree, b: Worktree, images: map<Path, Image>)
    requires AllRestorable(images) && forall p :: Patched(a, images, p) == Patched(b, images, p)
    ensures Patch(a, images) == Patch(b, images)
  {
    forall p ensures Get(Patch(a, images), p) == Get(Patch(b, images), p) {
      assert Get(Patch(a, images), p) == Patched(a, images, p) && Get(Patch(b, images), p) == Patched(b, images, p);
    }
    SameWorktree(Patch(a, images), Patch(b, images));
  }

  /** A file that is not at its target is original, and stays so. */
  lemma {:induction false} SomeOriginal(work: Worktree, r: Restore, now: Worktree)
    requires ValidRestore(r) && HalfWritten(work, r) && Blend(work, r.original, now)
    ensures !AllMatch(now, r.target)
  {
    var p :| p in r.target && !Matches(work, r.target, p);
    assert Matches(work, r.original, p);
    assert Get(now, p) == Get(work, p) || Get(now, p) == Patched(work, r.original, p);
    ImagesRoundTrip(r.original[p], None);
    assert !Matches(now, r.target, p);
  }

  /** Opening a journal is atomic: cut short anywhere, the next opening does what the first one would have done. */
  lemma {:induction false} ReopenAgain(w: World, w': World)
    requires ValidMarker(w.manifest) && ReopenPoint(w, w')
    ensures ValidMarker(w'.manifest) && Reopened(w') == Reopened(w)
  {
    if w' != w && !(Reopened(w).Ok? && w' == Reopened(w).value) {
      HalfWrittenReopens(w);
      HalfBack(w.work, w.manifest.restore.value, w'.work);
    }
  }

  lemma {:induction false} InFlightFacts(base: World, r: Restore, w: World)
    requires MarkerFor(base, r) && InFlight(base, r, w)
    ensures ValidMarker(w.manifest) && Capturable(w.work) && !ThirdState(w.work, r)
    ensures Patch(w.work, r.original) == base.work
    ensures AllMatch(w.work, r.original) ==> w.work == base.work
    ensures AllMatch(w.work, r.target) ==> w.work == Patch(base.work, r.target)
  {
    forall p
      ensures Patched(w.work, r.original, p) == Get(base.work, p)
      ensures p in r.target ==> Matches(w.work, r.original, p) || Matches(w.work, r.target, p)
      ensures p in r.target && Matches(w.work, r.original, p) ==> Get(w.work, p) == Get(base.work, p)
      ensures p in r.target && Matches(w.work, r.target, p) ==> Get(w.work, p) == FileFor(r.target[p])
      ensures p !in r.target ==> Get(w.work, p) == Get(base.work, p)
      ensures !(Get(w.work, p).Some? && Get(w.work, p).value.Submodule?)
    {
      assert Get(w.work, p) == Get(base.work, p) || Get(w.work, p) == Patched(base.work, r.target, p);
      ImagesRoundTrip(ABSENT, Get(base.work, p));
      if p in r.target {
        ImagesRoundTrip(r.target[p], Get(w.work, p));
      }
    }
    SameWorktree(Patch(w.work, r.original), base.work);
    if AllMatch(w.work, r.original) { SameWorktree(w.work, base.work); }
    if AllMatch(w.work, r.target) {
      forall p ensures Get(w.work, p) == Get(Patch(base.work, r.target), p) {
        assert Get(Patch(base.work, r.target), p) == Patched(base.work, r.target, p);
      }
      SameWorktree(w.work, Patch(base.work, r.target));
    }
    assert forall p | p in w.work :: Get(w.work, p) == Some(w.work[p]);
  }

  /**
   Reopening an in-flight restore completes exactly when the marker lists a path,
   that is, when the rolled-back turns changed some file; it then leaves the
   original files and turns or the target files and finalized turns.
   */
  lemma {:induction false} ReopenSettles(base: World, r: Restore, w: World)
    requires MarkerFor(base, r) && InFlight(base, r, w)
    ensures ValidMarker(w.manifest)
    ensures Reopened(w).Ok? <==> r.target.Keys != {}
    ensures Reopened(w).Ok? ==> Reopened(w).value == Aborted(base) || Reopened(w).value == Committed(base, r)
  {
    InFlightFacts(base, r, w);
    assert r.target == map[] <==> r.target.Keys == {};
  }

  lemma {:induction false} ReopenPointPastMarker(base: World, r: Restore, w: World, w': World)
    requires MarkerFor(base, r) && PastMarker(base, r, w)
    ensures ValidMarker(w.manifest)
    ensures ReopenPoint(w, w') ==> PastMarker(base, r, w')
  {
    if InFlight(base, r, w) {
      ReopenSettles(base, r, w);
      InFlightFacts(base, r, w);
      if ReopenPoint(w, w') && w' != w && !(Reopened(w).Ok? && w' == Reopened(w).value) {
        forall p ensures Get(w'.work, p) == Get(base.work, p) || Get(w'.work, p) == Patched(base.work, r.target, p) {
          assert Get(w'.work, p) == Get(w.work, p) || Get(w'.work, p) == Patched(w.work, r.original, p);
          assert Get(Patch(w.work, r.original), p) == Patched(w.work, r.original, p);
          assert Get(w.work, p) == Get(base.work, p) || Get(w.work, p) == Patched(base.work, r.target, p);
        }
        assert InFlight(base, r, w');
      }
    }
  }

  /** Crashes: the first hits the rollback, each later one hits the reopening after it. */
  ghost predicate CrashRun(base: World, r: Restore, ws: seq<World>)
    requires MarkerFor(base, r)
  {
    && ws != []
    && CrashPoint(base, r, ws[0])
    && forall i | 0 <= i < |ws| - 1 :: ValidMarker(ws[i].manifest) && ReopenPoint(ws[i], ws[i + 1])
  }

  /** Once past the marker save, every later state is, whatever marker an earlier call had left. */
  lemma {:induction false} CrashRunStays(base: World, r: Restore, ws: seq<World>)
    requires MarkerFor(base, r) && CrashRun(base, r, ws) && PastMarker(base, r, ws[0])
    ensures PastMarker(base, r, ws[|ws| - 1])
  {
    var n := |ws| - 1;
    if n > 0 {
      CrashRunStays(base, r, ws[..n]);
      assert ValidMarker(ws[n - 1].manifest) && ReopenPoint(ws[n - 1], ws[n]);
      ReopenPointPastMarker(base, r, ws[n - 1], ws[n]);
    }
  }

  /** However often the opening is cut short, it leads where the first opening led. */
  lemma {:induction false} ReopenRunSettles(base: World, r: Restore, ws: seq<World>)
    requires MarkerFor(base, r) && CrashRun(base, r, ws) && ValidMarker(ws[0].manifest)
    ensures var w := ws[|ws| - 1]; ValidMarker(w.manifest) && Reopened(w) == Reopened(ws[0])
  {
    var n := |ws| - 1;
    if n > 0 {
      ReopenRunSettles(base, r, ws[..n]);
      assert ValidMarker(ws[n - 1].manifest) && ReopenPoint(ws[n - 1], ws[n]);
      ReopenAgain(ws[n - 1], ws[n]);
    }
  }

  /**
   Restore is atomic, over every journal. After any number of crashes of which the
   first came past the marker save, reopening completes exactly when the marker is
   gone or lists a path, and then leaves one of the two whole states. If the first
   came before, nothing of this call is there, and the outcome is that of opening
   the journal before the call, which is that journal when it held no marker.
   */
  lemma {:induction false} RestoreIsAtomic(base: World, r: Restore, ws: seq<World>)
    requires MarkerFor(base, r) && ValidMarker(base.manifest) && CrashRun(base, r, ws)
    ensures var w := ws[|ws| - 1];
            && ValidMarker(w.manifest)
            && (PastMarker(base, r, ws[0]) ==>
                  && (Reopened(w).Ok? <==> w.manifest.restore.None? || r.target.Keys != {})
                  && (Reopened(w).Ok? ==>
                        Reopened(w).value == Aborted(base) || Reopened(w).value == Committed(base, r)))
            && (!PastMarker(base, r, ws[0]) ==> ws[0] == base && Reopened(w) == Reopened(base))
            && (base.manifest.restore.None? ==> Aborted(base) == base && PastMarker(base, r, ws[0]))
  {
    var w := ws[|ws| - 1];
    if PastMarker(base, r, ws[0]) {
      CrashRunStays(base, r, ws);
      if InFlight(base, r, w) { ReopenSettles(base, r, w); }
    } else {
      ReopenRunSettles(base, r, ws);
    }
  }

  /** A turn that changed no file, rolled back and cut short after the marker save, cannot be reopened. */
  lemma {:induction false} EmptyRestoreCannotReopen() returns (base: World, r: Restore, w: World)
    ensures AllWellFormed(base.manifest.turns) && RollBack(base, 1, true).Ok?
    ensures MarkerFor(base, r) && base.manifest.restore.None? && CrashRun(base, r, [w]) && ValidMarker(w.manifest)
    ensures Reopened(w) == Err(InvalidMarker)
  {
    var nothing := Snapshot(map[], map[]);
    var record := Checkpoint(0, "t", false, {}, nothing, nothing, map[]);
    base := World(map[], Index(map[], ""), Manifest(None, None, [record]));
    r := Restore([0], true, map[], map[]);
    w := base.(manifest := base.manifest.(restore := Some(r)));
    EmptyRecordRollsBack(base, record);
    EmptyMarker(base, record, r, w);
  }

  lemma {:induction false} EmptyMarker(base: World, record: Record, r: Restore, w: World)
    requires base.work == map[] && base.manifest.turns == [record] && r == Restore([record.id], true, map[], map[])
    requires w == base.(manifest := base.manifest.(restore := Some(r)))
    ensures MarkerFor(base, r) && InFlight(base, r, w) && CrashRun(base, r, [w])
  {
    MarkerOfOne(base, r, record);
    assert InFlight(base, r, w);
  }

  lemma {:induction false} MarkerOfOne(base: World, r: Restore, record: Record)
    requires ValidRestore(r) && Capturable(base.work)
    requires forall p | p in r.original :: r.original[p] == DiskImage(Get(base.work, p))
    requires base.manifest.turns == [record] && r.ids == [record.id]
    ensures MarkerFor(base, r)
  {
    OneId(base.manifest.turns, r.ids, record);
  }

  lemma {:induction false} OneId(turns: seq<Record>, ids: seq<nat>, record: Record)
    requires |turns| == 1 && turns[0] == record && |ids| == 1 && ids[0] == record.id
    ensures ids == RecordIds(Selected(turns, 1))
  {
    var all := RecordIds(Selected(turns, 1));
    assert |all| == 1 && all[0] == ids[0];
  }

  lemma {:induction false} EmptyRecordRollsBack(base: World, record: Record)
    requires record.Checkpoint? && record.paths == {} && Capturable(base.work)
    requires base.manifest == Manifest(None, None, [record])
    ensures AllWellFormed(base.manifest.turns) && RollBack(base, 1, true).Ok?
  {
    var turns := base.manifest.turns;
    assert Selected(turns, 1) == turns && turns[..0] == [];
    assert UndoTurns(turns, base.work, base.index).Some?;
    RollBackMeansUndo(base, 1, true);
  }

  // ---------- a turn after a failed rollback ----------

  /** The journal after a turn took the files of `w` to `edited` and was recorded. */
  function AfterTurn(w: World, turn: Active, edited: Worktree): World {
    World(edited, w.index,
          w.manifest.(turns := w.manifest.turns + [Completed(turn, Capture(edited), w.index)]))
  }

  /**
   A failed rollback left `w` with its marker, and a later turn took the files to
   `edited`. Opening the journal then undoes that turn at a path exactly when the
   listed files are half written and the path is listed and not original.
   */
  lemma {:induction false} LaterEditIsLostIff(base: World, r: Restore, w: World, turn: Active, edited: Worktree,
      p: Path)
    requires MarkerFor(base, r) && InFlight(base, r, w)
    ensures var after := AfterTurn(w, turn, edited);
            && ValidMarker(after.manifest)
            && (Reopened(after).Ok? && Get(Reopened(after).value.work, p) != Get(edited, p) <==>
                  HalfWritten(edited, r) && p in r.original && Get(edited, p) != Get(base.work, p))
  {
    var after := AfterTurn(w, turn, edited);
    ReopenRewritesIff(after);
    if p in r.original { ImagesRoundTrip(ABSENT, Get(base.work, p)); }
    assert Get(base.work, p).Some? ==> p in base.work;
  }

  function Two<T>(a: Path, b: Path, x: T, y: T): map<Path, T> {
    map[a := x, b := y]
  }

  function ImageOf(f: File): Image {
    DiskImage(Some(f))
  }

  predicate Whole(f: File) {
    !f.Submodule?
  }

  lemma {:induction false} TwoMatch(a: Path, b: Path, x: File, y: File, c: File, d: File)
    requires a != b && Whole(x) && Whole(y) && Whole(c) && Whole(d)
    ensures var work, images := Two(a, b, x, y), Two(a, b, ImageOf(c), ImageOf(d));
            && Capturable(work) && AllRestorable(images) && images.Keys == {a, b}
            && (Matches(work, images, a) <==> x == c) && (Matches(work, images, b) <==> y == d)
  {
    ImagesRoundTrip(ABSENT, Some(x));
    ImagesRoundTrip(ABSENT, Some(y));
    ImagesRoundTrip(ABSENT, Some(c));
    ImagesRoundTrip(ABSENT, Some(d));
  }

  /** The rollback of a turn that took two files from `before` to `after`. */
  function TwoBack(a: Path, b: Path, before: File, after: File): Restore {
    Restore([0], true, Two(a, b, ImageOf(after), ImageOf(after)), Two(a, b, ImageOf(before), ImageOf(before)))
  }

  lemma {:induction false} TwoHalfWritten(a: Path, b: Path, x: File, y: File)
    requires a != b && x != y && Whole(x) && Whole(y)
    ensures ValidRestore(TwoBack(a, b, x, y)) && HalfWritten(Two(a, b, y, x), TwoBack(a, b, x, y))
  {
    TwoMatch(a, b, y, x, y, y);
    TwoMatch(a, b, y, x, x, x);
    assert a in TwoBack(a, b, x, y).target && b in TwoBack(a, b, x, y).original;
  }

  lemma {:induction false} TwoBlend(a: Path, b: Path, x: File, y: File)
    requires a != b && Whole(x) && Whole(y) && ValidRestore(TwoBack(a, b, x, y))
    ensures Blend(Two(a, b, y, y), TwoBack(a, b, x, y).target, Two(a, b, x, y))
  {
    ImagesRoundTrip(ABSENT, Some(x));
  }

  lemma {:induction false} TwoMarker(a: Path, b: Path, x: File, y: File, base: World, first: Record)
    requires a != b && Whole(x) && Whole(y) && ValidRestore(TwoBack(a, b, x, y))
    requires base.work == Two(a, b, y, y) && base.manifest.turns == [first] && first.id == 0
    ensures MarkerFor(base, TwoBack(a, b, x, y))
  {
    MarkerOfOne(base, TwoBack(a, b, x, y), first);
  }

  /**
   The family: two files that a failed rollback left one restored and one not, and
   a later turn swapped. Opening the journal undoes the edit of the second one,
   though that turn stays recorded.
   */
  lemma {:induction false} LaterEditIsLost(a: Path, b: Path, x: File, y: File, index: Index)
    returns (base: World, r: Restore, w: World, turn: Active)
    requires a != b && x != y && Whole(x) && Whole(y)
    ensures MarkerFor(base, r) && base.manifest.restore.None? && InFlight(base, r, w)
    ensures w.work == Two(a, b, x, y) && turn.pre == Capture(w.work)
    ensures var after := AfterTurn(w, turn, Two(a, b, y, x));
            && ValidMarker(after.manifest) && Reopened(after).Ok?
            && Get(Reopened(after).value.work, b) != Get(after.work, b)
            && Reopened(after).value.manifest.turns == after.manifest.turns
  {
    r := TwoBack(a, b, x, y);
    var started := Active(0, "s", Capture(Two(a, b, x, x)), index, true);
    var first := Completed(started, Capture(Two(a, b, y, y)), index);
    base := World(Two(a, b, y, y), index, Manifest(None, None, [first]));
    w := World(Two(a, b, x, y), index, base.manifest.(restore := Some(r)));
    turn := Active(1, "t", Capture(w.work), index, true);
    TwoHalfWritten(a, b, x, y);
    TwoBlend(a, b, x, y);
    TwoMarker(a, b, x, y, base, first);
    LaterEditIsLostIff(base, r, w, turn, Two(a, b, y, x), b);
    HalfWrittenReopens(AfterTurn(w, turn, Two(a, b, y, x)));
  }
}
