/**
 * An abstract filesystem: a table from paths to nodes, and the effect that each
 * FileUtils / Pathname primitive used by the file actions has on that table.
 * Symbolic links are followed one level, and only at the last segment of a path.
 */
module FileSystem {
  import opened Paths

  /** What a path names: a regular file with its modification time, a directory, or a symlink. */
  datatype Node = File(mtime: int) | Dir | Symlink(target: Path)

  type Fs = map<Path, Node>

  /** Pathname#symlink?: looks at the entry itself (lstat). */
  predicate IsSymlink(fs: Fs, p: Path)
  {
    p in fs && fs[p].Symlink?
  }

  /** Pathname#exist?: follows a symlink, so a dangling symlink does not exist. */
  predicate Exists(fs: Fs, p: Path)
  {
    p in fs && (fs[p].Symlink? ==> fs[p].target in fs)
  }

  /** Pathname#directory? / File.directory?: follows a symlink. */
  predicate IsDirectory(fs: Fs, p: Path)
  {
    p in fs &&
    (fs[p].Dir? || (fs[p].Symlink? && fs[p].target in fs && fs[fs[p].target].Dir?))
  }

  /** FileUtils.rm_r / rm_rf / Pathname#rmtree: p and everything below it are gone. */
  function RemoveTree(fs: Fs, p: Path): Fs
  {
    map q | q in fs && !(p <= q) :: fs[q]
  }

  /** FileUtils.rm with force: true: unlinks a file or symlink; a directory or a
      missing path makes the unlink fail, and force swallows the failure. */
  function RemoveFile(fs: Fs, p: Path): Fs
  {
    if p in fs && !fs[p].Dir? then fs - {p} else fs
  }

  /** Pathname#delete on an existing entry: the entry is unlinked. */
  function Delete(fs: Fs, p: Path): Fs
  {
    fs - {p}
  }

  /** FileUtils.mkdir_p: every missing ancestor of d (d included) becomes a directory. */
  function MakeDirs(fs: Fs, d: Path): (r: Fs)
    ensures forall q :: q in fs ==> q in r && r[q] == fs[q]
    ensures forall q :: q in r && q !in fs ==> r[q] == Dir && q != [] && q <= d
    ensures forall q :: q != [] && q <= d ==> q in r
  {
    map q | q in fs.Keys + Ancestors(d) :: if q in fs then fs[q] else Dir
  }

  /** File.rename: the tree at s replaces whatever was at d. */
  function Rename(fs: Fs, s: Path, d: Path): Fs
  {
    var kept := map q | q in fs && !(s <= q) && !(d <= q) :: fs[q];
    RebaseInjective(s, d);
    var moved := map q | q in fs && s <= q :: Rebase(q, s, d) := fs[q];
    kept + moved
  }

  /** Where FileUtils.mv and FileUtils.ln_s put s when asked to put it at d:
      into d when d is a directory (following a symlink), else at d itself. */
  function Placement(fs: Fs, s: Path, d: Path): Path
    requires s != []
  {
    if IsDirectory(fs, d) then d + [Basename(s)] else d
  }

  /** FileUtils.mv s, d. */
  function Move(fs: Fs, s: Path, d: Path): Fs
    requires s != []
  {
    Rename(fs, s, Placement(fs, s, d))
  }

  /** FileUtils.ln_s s, d, force: true: a symlink to s replaces the entry at the placement. */
  function Link(fs: Fs, s: Path, d: Path): Fs
    requires s != []
  {
    fs[Placement(fs, s, d) := Symlink(s)]
  }

  /** Renaming s to d, neither inside the other, carries the whole tree at s
      over to d, and everything at or below d afterwards came from s. */
  lemma RenameCarriesTree(fs: Fs, s: Path, d: Path)
    requires !(s <= d) && !(d <= s)
    ensures var r := Rename(fs, s, d);
      && (forall q :: q in fs && s <= q ==> Rebase(q, s, d) in r && r[Rebase(q, s, d)] == fs[q])
      && (forall q :: q in r && d <= q ==> Rebase(q, d, s) in fs && fs[Rebase(q, d, s)] == r[q])
  {
    var r := Rename(fs, s, d);
    RebaseInjective(s, d);
    forall q | q in r && d <= q
      ensures Rebase(q, d, s) in fs && fs[Rebase(q, d, s)] == r[q]
    {
      var w :| w in fs && s <= w && Rebase(w, s, d) == q;
      RebaseInverse(w, s, d);
    }
  }

  /** Renaming s to d, neither inside the other, leaves nothing at or below s
      and changes nothing outside s and d. */
  lemma RenameKeepsRest(fs: Fs, s: Path, d: Path)
    requires !(s <= d) && !(d <= s)
    ensures var r := Rename(fs, s, d);
      && (forall q :: s <= q ==> q !in r)
      && (forall q :: !(s <= q) && !(d <= q) ==> (q in r <==> q in fs))
      && (forall q :: q in r && !(d <= q) ==> q in fs && r[q] == fs[q])
  {
    var r := Rename(fs, s, d);
    forall q | s <= q
      ensures q !in r
    {
      if d <= q { PrefixesOfOnePath(s, d, q); }
    }
  }

  /** In particular a single entry moved to an empty slot keeps its node. */
  lemma RenamePlaces(fs: Fs, s: Path, d: Path)
    requires s in fs && !(s <= d) && !(d <= s)
    ensures var r := Rename(fs, s, d); d in r && r[d] == fs[s] && s !in r
  {
    RenameCarriesTree(fs, s, d);
    RenameKeepsRest(fs, s, d);
    assert Rebase(s, s, d) == d;
  }
}
