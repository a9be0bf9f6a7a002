/**
 Files of a Git worktree, the tree snapshots the checkpoint journal captures of
 them, and the image (tree entry plus permission) of one path.

 A tree records only whether a file is executable, so a snapshot also keeps the
 permission of every file whose bits differ from the canonical 0755 or 0644.
 */
module CheckpointImages {
  import opened Wrappers

  type Path = string

  const MAX_PERMISSION := 4095
  const CANONICAL_EXECUTABLE := 493
  const CANONICAL_REGULAR := 420

  /** Permission bits, 0 to 07777. */
  type Permission = p: int | 0 <= p <= MAX_PERMISSION

  datatype Mode = Regular | Executable | Symlink | Gitlink

  /** A row of `git ls-tree`: a Gitlink row has kind "commit", all others "blob". */
  datatype TreeEntry = TreeEntry(mode: Mode, oid: string)

  /** What is on disk at a path. */
  datatype File =
    | Plain(oid: string, permission: Permission)
    | Link(target: string)
    | Submodule(commit: string)

  type Worktree = map<Path, File>

  datatype Snapshot = Snapshot(tree: map<Path, TreeEntry>, overrides: map<Path, Permission>)

  datatype Image = Image(entry: Option<TreeEntry>, permission: Option<Permission>)

  const ABSENT := Image(None, None)

  function Get<K, V>(m: map<K, V>, k: K): Option<V> {
    if k in m then Some(m[k]) else None
  }

  /** The user-execute bit decides the mode Git records. */
  predicate UserExecutable(p: Permission) {
    (p / 64) % 2 == 1
  }

  function EntryOf(f: File): TreeEntry {
    match f
    case Plain(oid, p) => TreeEntry(if UserExecutable(p) then Executable else Regular, oid)
    case Link(target) => TreeEntry(Symlink, target)
    case Submodule(commit) => TreeEntry(Gitlink, commit)
  }

  function CanonicalPermission(entry: Option<TreeEntry>): Option<Permission> {
    if entry.None? || entry.value.mode == Symlink then None
    else if entry.value.mode == Executable then Some(CANONICAL_EXECUTABLE)
    else Some(CANONICAL_REGULAR)
  }

  function PermissionFor(path: Path, entry: Option<TreeEntry>, overrides: map<Path, Permission>): Option<Permission> {
    var canonical := CanonicalPermission(entry);
    if canonical.None? then None
    else if path in overrides then Some(overrides[path])
    else canonical
  }

  function ImageIn(s: Snapshot, path: Path): Image {
    var entry := Get(s.tree, path);
    Image(entry, PermissionFor(path, entry, s.overrides))
  }

  /** A capture fails on a path that is neither a regular file nor a symbolic link. */
  predicate Capturable(work: Worktree) {
    forall p | p in work :: !work[p].Submodule?
  }

  function Capture(work: Worktree): Snapshot {
    Snapshot(
      map p | p in work :: EntryOf(work[p]),
      map p | p in work && work[p].Plain? && Some(work[p].permission) != CanonicalPermission(Some(EntryOf(work[p])))
        :: work[p].permission)
  }

  /** The image of a path read directly off the disk. */
  function DiskImage(file: Option<File>): Image {
    match file
    case None => ABSENT
    case Some(f) => Image(Some(EntryOf(f)), if f.Plain? then Some(f.permission) else None)
  }

  /** Splitting a worktree into tree and overrides loses nothing. */
  lemma {:induction false} CaptureKeepsImages(work: Worktree, path: Path)
    requires Capturable(work)
    ensures ImageIn(Capture(work), path) == DiskImage(Get(work, path))
  {
    if path in work {
      assert Capture(work).tree[path] == EntryOf(work[path]);
    }
  }

  /** Images a restore can write: no submodule, and permission bits that agree with the mode. */
  predicate Restorable(i: Image) {
    match i.entry
    case None => i.permission.None?
    case Some(e) =>
      && e.mode != Gitlink
      && (e.mode == Symlink <==> i.permission.None?)
      && (i.permission.Some? ==> (e.mode == Executable <==> UserExecutable(i.permission.value)))
  }

  /** The file a restore leaves at a path. */
  function FileFor(i: Image): Option<File>
    requires Restorable(i)
  {
    match i.entry
    case None => None
    case Some(e) => Some(if e.mode == Symlink then Link(e.oid) else Plain(e.oid, i.permission.value))
  }

  function Put(work: Worktree, path: Path, file: Option<File>): Worktree {
    match file
    case None => work - {path}
    case Some(f) => work[path := f]
  }

  /** A restored image reads back as itself, and an image read off the disk restores the same file. */
  lemma {:induction false} ImagesRoundTrip(i: Image, file: Option<File>)
    ensures Restorable(i) ==> DiskImage(FileFor(i)) == i && !(FileFor(i).Some? && FileFor(i).value.Submodule?)
    ensures !(file.Some? && file.value.Submodule?) ==>
              Restorable(DiskImage(file)) && FileFor(DiskImage(file)) == file
  {
  }

  /** The images a restore is to write, all of them writable. */
  ghost predicate AllRestorable(images: map<Path, Image>) {
    forall p | p in images :: Restorable(images[p])
  }

  /** What path p holds once every one of `images` is written over `work`. */
  ghost function Patched(work: Worktree, images: map<Path, Image>, p: Path): Option<File>
    requires AllRestorable(images)
  {
    if p in images then FileFor(images[p]) else Get(work, p)
  }

  function Patch(work: Worktree, images: map<Path, Image>): Worktree
    requires AllRestorable(images)
    ensures forall p :: Get(Patch(work, images), p) == Patched(work, images, p)
  {
    var written := map p | p in images && images[p].entry.Some? :: FileFor(images[p]).value;
    (work - images.Keys) + written
  }

  /** Every path holds its file of `work` or its image of `images`. */
  ghost predicate Blend(work: Worktree, images: map<Path, Image>, now: Worktree)
    requires AllRestorable(images)
  {
    forall p :: Get(now, p) == Get(work, p) || Get(now, p) == Patched(work, images, p)
  }

  lemma {:induction false} SameWorktree(a: Worktree, b: Worktree)
    requires forall p :: Get(a, p) == Get(b, p)
    ensures a == b
  {
    assert forall p :: p in a ==> Get(b, p).Some?;
    assert forall p :: p in b ==> Get(a, p).Some?;
    assert a.Keys == b.Keys;
    forall p | p in a ensures a[p] == b[p] {
      assert Get(a, p) == Some(a[p]);
    }
  }

  /** A restore of captured images keeps the worktree capturable. */
  lemma {:induction false} PatchCapturable(work: Worktree, images: map<Path, Image>)
    requires Capturable(work) && AllRestorable(images)
    ensures Capturable(Patch(work, images))
  {
    var now := Patch(work, images);
    forall p | p in now ensures !now[p].Submodule? {
      assert Get(now, p) == Patched(work, images, p);
      if p in images { ImagesRoundTrip(images[p], None); }
    }
  }

  /** Writing over what was written before is writing the later images only. */
  lemma {:induction false} PatchTwice(work: Worktree, first: map<Path, Image>, second: map<Path, Image>)
    requires AllRestorable(first) && AllRestorable(second)
    ensures AllRestorable(first + second)
    ensures Patch(Patch(work, first), second) == Patch(work, first + second)
  {
    SameWorktree(Patch(Patch(work, first), second), Patch(work, first + second));
  }
}
