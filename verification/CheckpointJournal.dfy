/**
 The checkpoint journal of one Git worktree, as an object over the durable state.

 `trail` lists the durable state after every write the journal makes, so the
 places a crash can strike are visible in the contracts. A caller that passes
 `faulty` lets the environment fail any capture or write; otherwise none fails.
 */
module CheckpointJournal {
  import opened Wrappers
  import opened CheckpointImages
  import opened CheckpointRecords
  import opened CheckpointRollback
  import opened CheckpointRestore
  import Turns = CheckpointTurns

  datatype RollbackResult = RollbackResult(turnIds: seq<string>, restoredPaths: set<Path>)

  function NewestFirst(selected: seq<Record>): (r: seq<string>)
    ensures |r| == |selected|
    ensures forall i | 0 <= i < |r| :: r[i] == selected[|selected| - 1 - i].turnId
  {
    seq(|selected|, i requires 0 <= i < |selected| => selected[|selected| - 1 - i].turnId)
  }

  /** The marker of a restore planned on `w`. */
  function Marker(w: World, targets: map<Path, Image>, n: nat, consume: bool): Restore
    requires n <= |w.manifest.turns|
  {
    Restore(RecordIds(Selected(w.manifest.turns, n)), consume,
            map p | p in targets :: ImageIn(Capture(w.work), p), targets)
  }

  /** The second look at the touched paths: what changed since the preflight. */
  function LateConflict(w: World, lateWork: Worktree, lateIndex: Index, touched: set<Path>): Option<CheckpointError> {
    if !Capturable(lateWork) then Some(CaptureFailed)
    else
      var staged := set p | p in touched && Staged(lateIndex.entries, p) != Staged(w.index.entries, p);
      var files := set p | p in touched && ImageIn(Capture(lateWork), p) != ImageIn(Capture(w.work), p);
      if staged != {} then Some(Conflict({}, staged))
      else if files != {} then Some(Conflict(files, {}))
      else None
  }

  /** Why a rollback of n turns is refused when others edit files to `lateWork` during its preflight. */
  function Refused(w: World, lateWork: Worktree, lateIndex: Index, n: int): Option<CheckpointError> {
    var plan := Plan(w, n);
    if plan.Err? then Some(plan.error) else LateConflict(w, lateWork, lateIndex, plan.value.Keys)
  }

  predicate EnvironmentError(e: CheckpointError) {
    e in {CaptureFailed, StorageFailed, RestoreFailed, RestoreAndRecoveryFailed, CommitFailed, CommitAndRecoveryFailed}
  }

  lemma {:induction false} NoLateConflict(w: World, lateWork: Worktree, lateIndex: Index, touched: set<Path>, p: Path)
    requires LateConflict(w, lateWork, lateIndex, touched).None? && p in touched && Capturable(w.work)
    ensures Capturable(lateWork)
    ensures ImageIn(Capture(w.work), p) == DiskImage(Get(lateWork, p))
    ensures Restorable(ImageIn(Capture(w.work), p))
  {
    CaptureKeepsImages(lateWork, p);
    ImagesRoundTrip(ABSENT, Get(lateWork, p));
    var files := set q | q in touched && ImageIn(Capture(lateWork), q) != ImageIn(Capture(w.work), q);
    assert files == {};
    assert p !in files;
  }

  /** Without a late conflict the planned marker fits the files that are there now. */
  lemma {:induction false} MarkerFits(w: World, lateWork: Worktree, lateIndex: Index, n: int, consume: bool)
    requires AllWellFormed(w.manifest.turns) && Refused(w, lateWork, lateIndex, n).None?
    ensures 1 <= n <= |w.manifest.turns|
    ensures MarkerFor(World(lateWork, lateIndex, w.manifest), Marker(w, Plan(w, n).value, n, consume))
  {
    var targets := Plan(w, n).value;
    PlanRestorable(w, n);
    forall p | p in targets
      ensures ImageIn(Capture(w.work), p) == DiskImage(Get(lateWork, p)) && Restorable(ImageIn(Capture(w.work), p))
    {
      NoLateConflict(w, lateWork, lateIndex, targets.Keys, p);
    }
  }

  /** What a rollback that is not refused leaves. */
  ghost function RolledBack(w: World, lateWork: Worktree, lateIndex: Index, n: int, consume: bool): World
    requires AllWellFormed(w.manifest.turns) && Refused(w, lateWork, lateIndex, n).None?
  {
    MarkerFits(w, lateWork, lateIndex, n, consume);
    var base := World(lateWork, lateIndex, w.manifest);
    if NeedsApply(Selected(w.manifest.turns, n)) then Committed(base, Marker(w, Plan(w, n).value, n, consume))
    else base.(manifest := w.manifest.(turns := TurnsAfter(w.manifest.turns, n, consume)))
  }

  lemma {:induction false} NoLateEdit(w: World, touched: set<Path>)
    requires Capturable(w.work)
    ensures LateConflict(w, w.work, w.index, touched).None?
  {
    assert (set p | p in touched && Staged(w.index.entries, p) != Staged(w.index.entries, p)) == {};
    assert (set p | p in touched && ImageIn(Capture(w.work), p) != ImageIn(Capture(w.work), p)) == {};
  }

  /** With no outside edit a rollback is refused exactly when its plan is. */
  lemma {:induction false} QuietRefusal(w: World, n: int)
    requires AllWellFormed(w.manifest.turns)
    ensures Refused(w, w.work, w.index, n) == if Plan(w, n).Err? then Some(Plan(w, n).error) else None
  {
    if Plan(w, n).Ok? { NoLateEdit(w, Plan(w, n).value.Keys); }
  }

  /** With no outside edit this is the rollback whose laws are proved apart from the object. */
  lemma {:induction false} QuietRollback(w: World, n: int, consume: bool)
    requires AllWellFormed(w.manifest.turns)
    ensures RollBack(w, n, consume).Ok? <==> Refused(w, w.work, w.index, n).None?
    ensures RollBack(w, n, consume).Ok? ==> RolledBack(w, w.work, w.index, n, consume) == RollBack(w, n, consume).value
    ensures RollBack(w, n, consume).Err? ==> Refused(w, w.work, w.index, n) == Some(RollBack(w, n, consume).error)
  {
    QuietRefusal(w, n);
    if Plan(w, n).Ok? {
      PlanRestorable(w, n);
      MarkerFits(w, w.work, w.index, n, consume);
    }
  }

  /** A record that is restored already and fits plans its own pre-images. */
  lemma {:induction false} RestoredKeepsTargets(r: Record, current: Snapshot, targets: map<Path, Image>)
    requires r.Checkpoint? && r.filesRestored && FileConflicts(r, current, targets) == {}
    ensures (map p | p in r.paths :: View(current, targets, p)) == PreImages(r)
  {
    forall p | p in r.paths ensures View(current, targets, p) == Pre(r, p) {
      assert p !in FileConflicts(r, current, targets);
    }
  }

  class CodexCheckpointJournal {
    var work: Worktree
    var index: Index
    var manifest: Manifest
    var nextId: nat
    ghost var trail: seq<World>

    ghost function State(): World
      reads this
    {
      World(work, index, manifest)
    }

    /** Kept by every call, and by a crash at any point of one. */
    ghost predicate Valid()
      reads this
    {
      ValidManifest(manifest)
    }

    constructor (work: Worktree, index: Index)
      ensures State() == World(work, index, Turns.NEW_MANIFEST)
      ensures Valid() && trail == [State()]
    {
      this.work, this.index, this.manifest, this.nextId := work, index, Turns.NEW_MANIFEST, 0;
      this.trail := [World(work, index, Turns.NEW_MANIFEST)];
    }

    /** Replaces the manifest file atomically. */
    method SaveManifest(m: Manifest, faulty: bool) returns (ok: bool)
      modifies this`manifest, this`trail
      ensures ok ==> manifest == m && trail == old(trail) + [State()]
      ensures !ok ==> faulty && manifest == old(manifest) && trail == old(trail)
    {
      ok := true;
      if faulty { ok := *; }
      if ok {
        manifest := m;
        trail := trail + [World(work, index, m)];
      }
    }

    method TakeCapture(faulty: bool) returns (s: Result<Snapshot, CheckpointError>)
      ensures s.Ok? ==> Capturable(work) && s.value == Capture(work)
      ensures s.Err? ==> s.error == CaptureFailed && (faulty || !Capturable(work))
    {
      if exists p | p in work :: work[p].Submodule? { return Err(CaptureFailed); }
      var stable := true;
      if faulty { stable := *; }
      return if stable then Ok(Capture(work)) else Err(CaptureFailed);
    }

    // ---------- turns ----------

    method BeginTurn(turnId: string, faulty: bool) returns (r: Result<Snapshot, CheckpointError>)
      requires Valid()
      modifies this
      ensures Valid()
      ensures work == old(work) && index == old(index)
      ensures var s := Turns.BeginTurn(old(manifest), turnId, old(nextId), Capture(work), index);
              && manifest == (if r.Ok? then s.manifest else old(manifest))
              && (r.Ok? ==> s.error.None? && r.value == Capture(work))
              && (s.error.Some? ==> r == Err(s.error.value))
              && (!faulty && Capturable(work) && s.error.None? ==> r.Ok?)
    {
      if manifest.active.Some? { return Err(ActiveTurn); }
      if exists t | t in manifest.turns :: t.turnId == turnId {
        assert turnId in Turns.TurnIds(manifest.turns) by {
          var t :| t in manifest.turns && t.turnId == turnId;
          var i :| 0 <= i < |manifest.turns| && manifest.turns[i] == t;
          assert Turns.TurnIds(manifest.turns)[i] == turnId;
        }
        return Err(DuplicateTurn);
      }
      var pre := TakeCapture(faulty);
      if pre.Err? { return Err(pre.error); }
      CaptureRestorable(work);
      var id := nextId;
      nextId := nextId + 1;
      var ok := SaveManifest(manifest.(active := Some(Active(id, turnId, pre.value, index, false))), faulty);
      return if ok then pre else Err(StorageFailed);
    }

    method AcceptTurn(turnId: string, faulty: bool) returns (e: Option<CheckpointError>)
      requires Valid()
      modifies this
      ensures Valid()
      ensures work == old(work) && index == old(index)
      ensures var s := Turns.AcceptTurn(old(manifest), turnId);
              && manifest == (if e.None? then s.manifest else old(manifest))
              && (e == s.error || (faulty && e == Some(StorageFailed)))
    {
      if manifest.active.None? || manifest.active.value.turnId != turnId { return Some(NoMatchingActive); }
      if manifest.active.value.accepted { return None; }
      var ok := SaveManifest(manifest.(active := Some(manifest.active.value.(accepted := true))), faulty);
      return if ok then None else Some(StorageFailed);
    }

    /** `overLimit` says whether the object store has outgrown its limit after the save. */
    method FinishTurn(turnId: string, overLimit: bool, faulty: bool) returns (r: Result<set<Path>, CheckpointError>)
      requires Valid()
      modifies this
      ensures Valid()
      ensures work == old(work) && index == old(index)
      ensures var s := Turns.FinishTurn(old(manifest), turnId, Capture(work), index, false);
              var t := Turns.FinishTurn(old(manifest), turnId, Capture(work), index, true);
              && manifest in {old(manifest), s.manifest, t.manifest}
              && (r.Ok? ==> !overLimit && s.error.None? && manifest == s.manifest
                            && r.value == ChangedPaths(old(manifest).active.value.pre, Capture(work)))
              && (!faulty && Capturable(work) ==>
                    var u := if overLimit then t else s;
                    manifest == u.manifest && (r.Err? ==> u.error == Some(r.error)) && (r.Ok? ==> u.error.None?))
              && (forall i | |old(trail)| <= i < |trail| :: trail[i].manifest in {s.manifest, t.manifest})
    {
      if manifest.active.None? || manifest.active.value.turnId != turnId { return Err(NoMatchingActive); }
      var a := manifest.active.value;
      if !a.accepted { return Err(NotAccepted); }
      var post := TakeCapture(faulty);
      if post.Err? { return Err(post.error); }
      var refusal := Turns.Refusal(a, post.value, index);
      if refusal.Some? {
        var saved := SaveManifest(manifest.(active := None), faulty);
        return Err(if saved then refusal.value else StorageFailed);
      }
      var record := Completed(a, post.value, index);
      CompletedWellFormed(a, post.value, index);
      var turns := Turns.Trim(manifest.turns + [record]);
      var ok := SaveManifest(manifest.(active := None, turns := turns), faulty);
      if !ok { return Err(StorageFailed); }
      if overLimit {
        ok := SaveManifest(manifest.(turns := Turns.Tombstones(turns)), faulty);
        return Err(if ok then RetentionLimit else StorageFailed);
      }
      return Ok(record.paths);
    }

    method AbortTurn(turnId: string, faulty: bool) returns (r: Result<bool, CheckpointError>)
      requires Valid()
      modifies this
      ensures Valid()
      ensures work == old(work) && index == old(index)
      ensures var s := Turns.AbortTurn(old(manifest), turnId);
              && manifest == (if r.Ok? then s.manifest else old(manifest))
              && (r.Ok? ==> s.error.None? && r.value == old(manifest).active.Some?)
              && (r.Err? ==> s.error == Some(r.error) || (faulty && r.error == StorageFailed))
    {
      if manifest.active.None? { return Ok(false); }
      if manifest.active.value.turnId != turnId { return Err(NoMatchingActive); }
      var ok := SaveManifest(manifest.(active := None), faulty);
      return if ok then Ok(true) else Err(StorageFailed);
    }

    method RecordUnavailable(turnId: string, faulty: bool) returns (e: Option<CheckpointError>)
      requires Valid()
      modifies this
      ensures Valid()
      ensures work == old(work) && index == old(index)
      ensures var s := Turns.RecordUnavailable(old(manifest), turnId, old(nextId));
              && manifest == (if e.None? then s.manifest else old(manifest))
              && (e == s.error || (faulty && e == Some(StorageFailed)))
    {
      if manifest.active.Some? { return Some(ActiveTurn); }
      if turnId in Turns.TurnIds(manifest.turns) { return None; }
      var id := nextId;
      nextId := nextId + 1;
      var ok := SaveManifest(manifest.(turns := Turns.Trim(manifest.turns + [Tombstone(id, turnId)])), faulty);
      return if ok then None else Some(StorageFailed);
    }

    method RecoverActiveAsUnavailable(faulty: bool) returns (r: Result<Option<(string, bool)>, CheckpointError>)
      requires Valid()
      modifies this
      ensures Valid()
      ensures work == old(work) && index == old(index)
      ensures manifest == (if r.Ok? then Turns.RecoverActive(old(manifest)).manifest else old(manifest))
      ensures r.Ok? ==> r.value == (if old(manifest).active.None? then None
                                    else Some((old(manifest).active.value.turnId, old(manifest).active.value.accepted)))
      ensures r.Err? ==> faulty && r.error == StorageFailed
    {
      if manifest.active.None? { return Ok(None); }
      var a := manifest.active.value;
      var turns := manifest.turns;
      if a.accepted && a.turnId !in Turns.TurnIds(turns) {
        turns := turns + [Tombstone(a.id, a.turnId)];
      }
      var ok := SaveManifest(manifest.(active := None, turns := Turns.Trim(turns)), faulty);
      return if ok then Ok(Some((a.turnId, a.accepted))) else Err(StorageFailed);
    }

    method Discard(n: int, allowPartial: bool, faulty: bool) returns (r: Result<seq<string>, CheckpointError>)
      requires Valid()
      modifies this
      ensures Valid()
      ensures work == old(work) && index == old(index)
      ensures var s := Turns.Discard(old(manifest), n, allowPartial);
              && manifest == (if r.Ok? then s.manifest else old(manifest))
              && (r.Ok? ==> s.error.None? && |r.value| == |old(manifest).turns| - |manifest.turns|)
              && (r.Ok? ==> forall i | 0 <= i < |r.value| ::
                              r.value[i] == old(manifest).turns[|old(manifest).turns| - 1 - i].turnId)
              && (r.Err? ==> s.error == Some(r.error) || (faulty && r.error == StorageFailed))
    {
      if n < 1 { return Err(InvalidCount); }
      if manifest.active.Some? { return Err(ActiveTurn); }
      var turns := manifest.turns;
      if n > |turns| && !allowPartial { return Err(NotEnough); }
      var count := if n < |turns| then n else |turns|;
      if count == 0 { return Ok([]); }
      var ok := SaveManifest(manifest.(turns := turns[..|turns| - count]), faulty);
      return if ok then Ok(NewestFirst(Selected(turns, count))) else Err(StorageFailed);
    }

    // ---------- restores ----------

    /** Writes the images of `paths` one file at a time; the order is left open. */
    method WriteFiles(images: map<Path, Image>, paths: set<Path>, faulty: bool) returns (ok: bool)
      requires AllRestorable(images) && paths <= images.Keys
      modifies this`work, this`trail
      ensures ok ==> forall p :: Get(work, p) == if p in paths then FileFor(images[p]) else old(Get(work, p))
      ensures !ok ==> faulty
      ensures Blend(old(work), images, work)
      ensures |old(trail)| <= |trail| && trail[..|old(trail)|] == old(trail)
      ensures forall i | |old(trail)| <= i < |trail| ::
                trail[i] == World(trail[i].work, index, manifest) && Blend(old(work), images, trail[i].work)
    {
      var todo := paths;
      while todo != {}
        invariant todo <= paths
        invariant forall p :: Get(work, p) == if p in paths - todo then FileFor(images[p]) else old(Get(work, p))
        invariant |old(trail)| <= |trail| && trail[..|old(trail)|] == old(trail)
        invariant forall i | |old(trail)| <= i < |trail| ::
                    trail[i] == World(trail[i].work, index, manifest) && Blend(old(work), images, trail[i].work)
      {
        if faulty {
          var failed := *;
          if failed { return false; }
        }
        var path :| path in todo;
        work := Put(work, path, FileFor(images[path]));
        todo := todo - {path};
        trail := trail + [World(work, index, manifest)];
      }
      return true;
    }

    /** Deletions first, then writes. */
    method ApplyEntries(images: map<Path, Image>, faulty: bool) returns (ok: bool)
      requires AllRestorable(images)
      modifies this`work, this`trail
      ensures ok ==> work == Patch(old(work), images)
      ensures !ok ==> faulty
      ensures Blend(old(work), images, work)
      ensures |old(trail)| <= |trail| && trail[..|old(trail)|] == old(trail)
      ensures forall i | |old(trail)| <= i < |trail| ::
                trail[i] == World(trail[i].work, index, manifest) && Blend(old(work), images, trail[i].work)
    {
      var deletions := set p | p in images && images[p].entry.None?;
      ok := WriteFiles(images, deletions, faulty);
      if ok {
        ghost var middle, between := work, |trail|;
        ok := WriteFiles(images, images.Keys - deletions, faulty);
        assert forall w: Worktree :: Blend(middle, images, w) ==> Blend(old(work), images, w) by {
          forall w: Worktree, p | Blend(middle, images, w)
            ensures Get(w, p) == Get(old(work), p) || Get(w, p) == Patched(old(work), images, p)
          {
            assert Get(w, p) == Get(middle, p) || Get(w, p) == Patched(middle, images, p);
          }
        }
        assert forall i | |old(trail)| <= i < between :: trail[i] == trail[..between][i];
        if ok { SameWorktree(work, Patch(old(work), images)); }
      }
    }

    /** Newest first, the image every touched path is to get. */
    method PlanTargets(selected: seq<Record>) returns (r: Result<map<Path, Image>, CheckpointError>)
      requires AllAvailable(selected)
      ensures r == Preflight(selected, Capture(work), index, map[], {})
    {
      var current := Capture(work);
      var targets: map<Path, Image>, staged: set<Path> := map[], {};
      var i := |selected|;
      assert selected[..i] == selected;
      while i > 0
        invariant 0 <= i <= |selected|
        invariant Preflight(selected, current, index, map[], {}) ==
                Preflight(selected[..i], current, index, targets, staged)
      {
        var record := selected[i - 1];
        assert selected[..i][..i - 1] == selected[..i - 1];
        staged := staged + StagedConflicts(record, index);
        var files := FileConflicts(record, current, targets);
        if files != {} { return Err(Conflict(files, staged)); }
        if record.filesRestored {
          RestoredKeepsTargets(record, current, targets);
          targets := targets + map p | p in record.paths :: View(current, targets, p);
        } else {
          targets := targets + PreImages(record);
        }
        i := i - 1;
      }
      return if staged != {} then Err(Conflict({}, staged)) else Ok(targets);
    }

    /** Marker, files, final save; a failure writes the original files back. */
    method CommitRestore(r: Restore, faulty: bool) returns (e: Option<CheckpointError>)
      requires MarkerFor(State(), r)
      modifies this`work, this`manifest, this`trail
      ensures e.None? ==> State() == Committed(old(State()), r)
      ensures e.Some? ==> faulty && EnvironmentError(e.value) && CrashPoint(old(State()), r, State())
      ensures e in {Some(RestoreFailed), Some(CommitFailed)} ==> State() == Aborted(old(State()))
      ensures |old(trail)| <= |trail| && forall i | |old(trail)| <= i < |trail| :: CrashPoint(old(State()), r, trail[i])
    {
      ghost var base := State();
      ghost var mark := |trail|;
      var baseManifest := manifest;
      var ok := SaveManifest(manifest.(restore := Some(r)), faulty);
      if !ok { return Some(StorageFailed); }
      assert InFlight(base, r, State());
      ok := ApplyEntries(r.target, faulty);
      assert forall i | mark < i < |trail| :: InFlight(base, r, trail[i]);
      assert trail[mark] == base.(manifest := manifest) && InFlight(base, r, trail[mark]);
      var finished := false;
      if ok {
        assert RecordIds(Selected(manifest.turns, |r.ids|)) == r.ids;
        var final := Finalize(manifest, r);
        finished := SaveManifest(final.value, faulty);
        if finished { return None; }
      }
      e := RestoreOriginals(base, r, if ok then CommitFailed else RestoreFailed,
                            if ok then CommitAndRecoveryFailed else RestoreAndRecoveryFailed, baseManifest);
    }

    /** The failure path of a restore: only reached when the environment fails. */
    method RestoreOriginals(ghost base: World, r: Restore, failed: CheckpointError, unrecovered: CheckpointError,
                            baseManifest: Manifest) returns (e: Option<CheckpointError>)
      requires MarkerFor(base, r) && InFlight(base, r, State()) && baseManifest == base.manifest
      modifies this`work, this`manifest, this`trail
      ensures e in {Some(failed), Some(unrecovered), Some(StorageFailed)}
      ensures e == Some(failed) && failed !in {unrecovered, StorageFailed} ==> State() == Aborted(base)
      ensures CrashPoint(base, r, State())
      ensures |old(trail)| <= |trail| && trail[..|old(trail)|] == old(trail)
      ensures forall i | |old(trail)| <= i < |trail| :: CrashPoint(base, r, trail[i])
    {
      var ok := WriteOriginals(base, r);
      if !ok { return Some(unrecovered); }
      ok := SaveManifest(baseManifest.(restore := None), true);
      return Some(if ok then failed else StorageFailed);
    }

    method WriteOriginals(ghost base: World, r: Restore) returns (ok: bool)
      requires MarkerFor(base, r) && InFlight(base, r, State())
      modifies this`work, this`trail
      ensures InFlight(base, r, State()) && (ok ==> work == base.work)
      ensures |old(trail)| <= |trail| && trail[..|old(trail)|] == old(trail)
      ensures forall i | |old(trail)| <= i < |trail| :: InFlight(base, r, trail[i])
    {
      BlendBack(base, r, State());
      ok := ApplyEntries(r.original, true);
    }

    /** Everything that is checked before the files are looked at a second time. */
    method CheckTurns(n: int, faulty: bool) returns (r: Result<map<Path, Image>, CheckpointError>)
      requires Valid()
      ensures r.Ok? ==> Plan(State(), n) == r
      ensures r.Err? ==> Plan(State(), n) == r || (faulty && r.error == CaptureFailed)
    {
      if n < 1 { return Err(InvalidCount); }
      if manifest.active.Some? { return Err(ActiveTurn); }
      var turns := manifest.turns;
      if n > |turns| { return Err(NotEnough); }
      var selected := Selected(turns, n);
      if !AllAvailable(selected) { return Err(Unavailable(UnavailableTurns(selected))); }
      var current := TakeCapture(faulty);
      if current.Err? { return Err(current.error); }
      r := PlanTargets(selected);
    }

    /** Files as the preflight saw them may be edited to `lateWork` and `lateIndex` before the restore begins. */
    method Rollback(n: int, consume: bool, lateWork: Worktree, lateIndex: Index, faulty: bool)
      returns (r: Result<RollbackResult, CheckpointError>)
      requires Valid()
      modifies this
      ensures Valid()
      // A refusal writes nothing: only the outside edits are there.
      ensures var refused := Refused(old(State()), lateWork, lateIndex, n);
              refused.Some? ==>
                && r.Err? && (r == Err(refused.value) || (faulty && EnvironmentError(r.error)))
                && manifest == old(manifest) && trail == old(trail)
                && (State() == old(State()) || State() == World(lateWork, lateIndex, old(manifest)))
      // Otherwise every durable state is a crash point of one planned restore, and success is its commit.
      ensures Refused(old(State()), lateWork, lateIndex, n).None? ==>
                (MarkerFits(old(State()), lateWork, lateIndex, n, consume);
                var base := World(lateWork, lateIndex, old(manifest));
                var marker := Marker(old(State()), Plan(old(State()), n).value, n, consume);
                var final := RolledBack(old(State()), lateWork, lateIndex, n, consume);
                && (r.Ok? ==> State() == final
                              && r.value == RollbackResult(NewestFirst(Selected(old(manifest).turns, n)),
                                                           Touched(Selected(old(manifest).turns, n))))
                && (r.Err? ==> faulty && EnvironmentError(r.error))
                && (r.Err? ==> State() == old(State()) || CrashPoint(base, marker, State()))
                && |old(trail)| <= |trail|
                && forall i | |old(trail)| <= i < |trail| :: trail[i] == final || CrashPoint(base, marker, trail[i]))
    {
      var plan := CheckTurns(n, faulty);
      if plan.Err? { return Err(plan.error); }
      var before := World(work, index, manifest);
      PlanRestorable(before, n);
      var selected := Selected(manifest.turns, n);
      var needsApply := NeedsApply(selected);
      if needsApply && faulty {
        var missing := *;
        if missing { return Err(StorageFailed); }
      }

      work, index := lateWork, lateIndex;
      var latest := TakeCapture(faulty);
      if latest.Err? { return Err(latest.error); }
      var late := LateConflict(before, lateWork, lateIndex, plan.value.Keys);
      if late.Some? { return Err(late.value); }
      var e := ApplyPlan(before, plan.value, n, consume, faulty);
      if e.Some? { return Err(e.value); }
      return Ok(RollbackResult(NewestFirst(selected), plan.value.Keys));
    }

    /** Everything after the checks: the planned restore, or only the record list when there is nothing to apply. */
    method ApplyPlan(before: World, targets: map<Path, Image>, n: nat, consume: bool, faulty: bool)
      returns (e: Option<CheckpointError>)
      requires Valid() && manifest == before.manifest && AllWellFormed(manifest.turns)
      requires Refused(before, work, index, n).None? && Plan(before, n) == Ok(targets)
      modifies this`work, this`manifest, this`trail
      ensures Valid()
      ensures (MarkerFits(before, old(work), old(index), n, consume);
               var marker := Marker(before, targets, n, consume);
               var final := RolledBack(before, old(work), old(index), n, consume);
               && (e.None? ==> State() == final)
               && (e.Some? ==>
                     && faulty && EnvironmentError(e.value)
                     && (State() == old(State()) || CrashPoint(old(State()), marker, State())))
               && |old(trail)| <= |trail|
               && forall i | |old(trail)| <= i < |trail| ::
                   trail[i] == final || CrashPoint(old(State()), marker, trail[i]))
    {
      var turns := manifest.turns;
      MarkerFits(before, work, index, n, consume);
      MarkedWellFormed(turns, n);
      if NeedsApply(Selected(turns, n)) {
        e := CommitRestore(Marker(before, targets, n, consume), faulty);
        CrashPointValid(old(State()), Marker(before, targets, n, consume), State());
      } else {
        var ok := SaveManifest(manifest.(turns := TurnsAfter(turns, n, consume)), faulty);
        e := if ok then None else Some(StorageFailed);
      }
    }

    /** What opening an existing journal does with a leftover marker. */
    method Reopen(faulty: bool) returns (e: Option<CheckpointError>)
      requires Valid()
      modifies this
      ensures Valid()
      ensures e.None? ==> Reopened(old(State())).Ok? && State() == Reopened(old(State())).value
      ensures Reopened(old(State())).Err? ==>
                e.Some? && State() == old(State()) && trail == old(trail)
      ensures e.Some? ==> (faulty && EnvironmentError(e.value)) || Reopened(old(State())) == Err(e.value)
      ensures ReopenPoint(old(State()), State())
      ensures |old(trail)| <= |trail|
      ensures forall i | |old(trail)| <= i < |trail| :: ReopenPoint(old(State()), trail[i])
    {
      if manifest.restore.None? { return None; }
      var r := manifest.restore.value;
      if r.target == map[] { return Some(InvalidMarker); }
      var current := TakeCapture(faulty);
      if current.Err? { return Some(current.error); }
      if AllMatch(work, r.target) {
        var m := Finalize(manifest, r);
        if m.Err? { return Some(m.error); }
        MarkedWellFormed(manifest.turns, |r.ids|);
        var saved := SaveManifest(m.value, faulty);
        return if saved then None else Some(StorageFailed);
      }
      if !AllMatch(work, r.original) {
        if ThirdState(work, r) { return Some(OUTSIDE_EDIT); }
        e := UndoHalfWritten(r, faulty);
        return;
      }
      var ok := SaveManifest(manifest.(restore := None), faulty);
      return if ok then None else Some(StorageFailed);
    }

    /** Some files are original and some are rewritten: all go back. */
    method UndoHalfWritten(r: Restore, faulty: bool) returns (e: Option<CheckpointError>)
      requires Valid() && manifest.restore == Some(r) && HalfWritten(work, r)
      modifies this
      ensures Valid()
      ensures e.None? ==> State() == Reopened(old(State())).value
      ensures e.Some? ==> faulty && e.value == StorageFailed
      ensures ReopenPoint(old(State()), State())
      ensures |old(trail)| <= |trail|
      ensures forall i | |old(trail)| <= i < |trail| :: ReopenPoint(old(State()), trail[i])
    {
      HalfWrittenReopens(State());
      var ok := ApplyEntries(r.original, faulty);
      if !ok { return Some(StorageFailed); }
      ok := SaveManifest(manifest.(restore := None), faulty);
      return if ok then None else Some(StorageFailed);
    }
  }

  lemma {:induction false} BlendBack(base: World, r: Restore, start: World)
    requires MarkerFor(base, r) && InFlight(base, r, start)
    ensures ValidMarker(start.manifest) && Patch(start.work, r.original) == base.work
    ensures forall w: Worktree :: Blend(start.work, r.original, w) ==> Blend(base.work, r.target, w)
  {
    InFlightFacts(base, r, start);
    forall w: Worktree, p | Blend(start.work, r.original, w)
      ensures Get(w, p) == Get(base.work, p) || Get(w, p) == Patched(base.work, r.target, p)
    {
      assert Get(w, p) == Get(start.work, p) || Get(w, p) == Patched(start.work, r.original, p);
      assert Get(Patch(start.work, r.original), p) == Patched(start.work, r.original, p);
      assert Get(start.work, p) == Get(base.work, p) || Get(start.work, p) == Patched(base.work, r.target, p);
    }
  }
}
