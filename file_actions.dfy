/**
 * Homesick::Actions::FileActions: linking castle files into the home directory,
 * guarded removal and move primitives, and moving a home file into a castle.
 *
 * The state is the filesystem table and a log of what the actions report through
 * say_status, of the prompt mv puts to the user, and of the calls to
 * move_dir_contents and subdir_remove. The user's answers, the command-line
 * options and the helpers whose code is not part of this model
 * (collision_accepted?, more_recent?, move_dir_contents) are parameters.
 */
module Actions {
  import opened Paths
  import opened FileSystem

  /** The --force and --pretend command-line options. */
  datatype Options = Options(force: bool, pretend: bool)

  /** What ln_s decides to do about a destination (:success, :identical, ...). */
  datatype LinkAction = Success | Identical | SymlinkConflict | Conflict

  /** The first argument of say_status. */
  datatype Verb =
    | ConflictVerb | UnlinkVerb | IdenticalVerb | SymlinkVerb | TrackVerb
    | RmVerb(file: Path) | RmRVerb(dir: Path) | RmRfVerb(dir: Path)

  /** The text of a status line, kept as the values it is built from. */
  datatype Message =
    | Blank                                              // ''
    | At(path: Path)                                     // path.expand_path
    | PathExists(path: Path)                             // "<path> exists"
    | PointsTo(path: Path, target: Path)                 // "<path> exists and points to <target>"
    | SourceToDestination(source: Path, destination: Path)  // "<source> to <destination>"
    | NotASymlink(path: Path)                            // "<path> is not a symlink"
    | AlreadyMoreRecent(target: Path, file: Path)        // "<target> already exists, and is more recent than <file>. ..."

  /** One thing the file actions report, ask, or hand over to a helper outside this model. */
  datatype Event =
    | Say(verb: Verb, message: Message)
    | Prompt(path: Path)                 // shell.file_collision(path)
    | MoveDirContents(target: Path, live: Path)
    | SubdirRemove(castle: string, relative: Path)

  // ---------------------------------------------------------------------------
  // Linking: ln_s and handle_symlink_action
  // ---------------------------------------------------------------------------

  /** The action the chain of assignments in ln_s leaves behind: each later
      test that matches overrides the earlier ones. */
  function ChosenAction(fs: Fs, destination: Path): LinkAction
  {
    if Exists(fs, destination) then Conflict
    else if IsSymlink(fs, destination) then SymlinkConflict
    else Success
  }

  /** The classification the `:identical` case of handle_symlink_action is
      written for: the first test that matches decides. */
  function IntendedAction(fs: Fs, source: Path, destination: Path): LinkAction
  {
    if IsSymlink(fs, destination) && fs[destination].target == source then Identical
    else if IsSymlink(fs, destination) then SymlinkConflict
    else if Exists(fs, destination) then Conflict
    else Success
  }

  /** generate_symlink_message. */
  function SymlinkMessage(fs: Fs, action: LinkAction, source: Path, destination: Path): (m: Message)
    requires action == SymlinkConflict ==> IsSymlink(fs, destination)
    ensures action == Conflict ==> m == PathExists(destination)
    ensures action == SymlinkConflict ==> m == PointsTo(destination, fs[destination].target)
    ensures action == Success || action == Identical ==> m == SourceToDestination(source, destination)
  {
    var m := SourceToDestination(source, destination);
    var m := if action == SymlinkConflict then PointsTo(destination, fs[destination].target) else m;
    var m := if action == Conflict then PathExists(destination) else m;
    m
  }

  predicate IsConflict(action: LinkAction)
  {
    action == SymlinkConflict || action == Conflict
  }

  /** The filesystem after handle_symlink_action. */
  function SymlinkActionEffect(fs: Fs, action: LinkAction, source: Path, destination: Path,
                               opts: Options, accepted: bool): Fs
    requires source != []
  {
    if action == Identical || opts.pretend then fs
    else
      var cleared := if IsConflict(action) && accepted then RemoveTree(fs, destination) else fs;
      Link(cleared, source, destination)
  }

  /** What handle_symlink_action reports. */
  function SymlinkActionLog(fs: Fs, action: LinkAction, source: Path, destination: Path): seq<Event>
    requires action == SymlinkConflict ==> IsSymlink(fs, destination)
  {
    if action == Identical then [Say(IdenticalVerb, At(destination))]
    else if IsConflict(action) then [Say(ConflictVerb, SymlinkMessage(fs, action, source, destination))]
    else [Say(SymlinkVerb, SymlinkMessage(fs, action, source, destination))]
  }

  /** The filesystem after ln_s: parent directories first, then the chosen action. */
  function LinkEffect(fs: Fs, source: Path, destination: Path, opts: Options, accepted: bool): Fs
    requires source != [] && destination != []
  {
    var made := MakeDirs(fs, Dirname(destination));
    SymlinkActionEffect(made, ChosenAction(made, destination), source, destination, opts, accepted)
  }

  /** What ln_s reports. */
  function LinkLog(fs: Fs, source: Path, destination: Path): seq<Event>
    requires destination != []
  {
    var made := MakeDirs(fs, Dirname(destination));
    SymlinkActionLog(made, ChosenAction(made, destination), source, destination)
  }

  // ---------------------------------------------------------------------------
  // Moving and tracking: mv and handle_tracking_file
  // ---------------------------------------------------------------------------

  /** The filesystem after mv(source, destination). */
  function MvEffect(fs: Fs, source: Path, destination: Path, opts: Options): Fs
    requires source != []
  {
    if opts.pretend then fs else Move(fs, source, destination + [Basename(source)])
  }

  /** What mv reports and asks: when the path exists, --force announces the
      collision at once; otherwise the user is prompted, and a yes announces it. */
  function MvLog(fs: Fs, source: Path, destination: Path, opts: Options, answer: bool): seq<Event>
    requires source != []
  {
    var target := destination + [Basename(source)];
    if !Exists(fs, target) then []
    else if opts.force then [Say(ConflictVerb, PathExists(target))]
    else [Prompt(target)] + (if answer then [Say(ConflictVerb, PathExists(target))] else [])
  }

  /** castle_path: the castle directory a home file belongs in, which mirrors
      the file's directory relative to home. */
  function CastlePath(home: Path, castleDir: Path, file: Path): (r: Path)
    requires home < file
    ensures r + [Basename(file)] == Rebase(file, home, castleDir)
  {
    castleDir + Dirname(file[|home|..])
  }

  /** target: the path a home file has in the castle. */
  function TrackedPath(home: Path, castleDir: Path, file: Path): (r: Path)
    requires home < file
    ensures r == Rebase(file, home, castleDir)
  {
    CastlePath(home, castleDir, file) + [Basename(file)]
  }

  /** The filesystem after handle_tracking_file; `afterMerge` is what
      move_dir_contents leaves behind. */
  function TrackEffect(fs: Fs, file: Path, home: Path, castleDir: Path, opts: Options,
                       moreRecent: bool, afterMerge: Fs): Fs
    requires home < file
  {
    var castlePath := CastlePath(home, castleDir, file);
    var target := TrackedPath(home, castleDir, file);
    if !Exists(fs, target) then MvEffect(fs, file, castlePath, opts)
    else if IsDirectory(fs, file) then RemoveTree(afterMerge, file)
    else if moreRecent then MvEffect(Delete(fs, target), file, castlePath, opts)
    else fs
  }

  /** What handle_tracking_file reports and hands over. */
  function TrackLog(fs: Fs, file: Path, castle: string, home: Path, castleDir: Path, opts: Options,
                    answer: bool, moreRecent: bool): seq<Event>
    requires home < file
  {
    var castlePath := CastlePath(home, castleDir, file);
    var target := TrackedPath(home, castleDir, file);
    var relative := file[|home|..];
    if !Exists(fs, target) then MvLog(fs, file, castlePath, opts, answer)
    else if IsDirectory(fs, file) then
      [MoveDirContents(target, file), SubdirRemove(castle, Dirname(relative) + [Basename(file)])]
    else if moreRecent then MvLog(Delete(fs, target), file, castlePath, opts, answer)
    else [Say(TrackVerb, AlreadyMoreRecent(target, file))]
  }

  // ---------------------------------------------------------------------------
  // The actions, over the filesystem and the status log
  // ---------------------------------------------------------------------------

  class FileActions {
    var fs: Fs
    var log: seq<Event>

    constructor (initial: Fs)
      ensures fs == initial && log == []
    {
      fs := initial;
      log := [];
    }

    /** mv: moves source into the directory destination. The prompt only
        decides whether the collision is reported; the move happens anyway. */
    method Mv(source: Path, destination: Path, opts: Options, answer: bool)
      requires source != []
      requires opts.pretend || source in fs
      modifies this
      ensures fs == MvEffect(old(fs), source, destination, opts)
      ensures log == old(log) + MvLog(old(fs), source, destination, opts, answer)
    {
      var target := destination + [Basename(source)];
      if Exists(fs, target) {
        if opts.force {
          log := log + [Say(ConflictVerb, PathExists(target))];
        } else {
          log := log + [Prompt(target)];
          if answer {
            log := log + [Say(ConflictVerb, PathExists(target))];
          }
        }
      }
      if !opts.pretend {
        fs := Move(fs, source, target);
      }
    }

    /** rm_rf: reports, then removes dir and everything below it. */
    method RmRf(dir: Path)
      modifies this
      ensures fs == RemoveTree(old(fs), dir)
      ensures log == old(log) + [Say(RmRfVerb(dir), Blank)]
    {
      log := log + [Say(RmRfVerb(dir), Blank)];
      fs := RemoveTree(fs, dir);
    }

    /** rm_link: removes target only when it is a symlink; anything else is
        reported as a conflict and left alone. */
    method RmLink(target: Path)
      modifies this
      ensures IsSymlink(old(fs), target) ==>
        fs == RemoveTree(old(fs), target) && log == old(log) + [Say(UnlinkVerb, At(target))]
      ensures !IsSymlink(old(fs), target) ==>
        fs == old(fs) && log == old(log) + [Say(ConflictVerb, NotASymlink(target))]
    {
      if IsSymlink(fs, target) {
        log := log + [Say(UnlinkVerb, At(target))];
        fs := RemoveTree(fs, target);
      } else {
        log := log + [Say(ConflictVerb, NotASymlink(target))];
      }
    }

    /** rm: reports, then unlinks file if it is not a directory. */
    method Rm(file: Path)
      modifies this
      ensures fs == RemoveFile(old(fs), file)
      ensures log == old(log) + [Say(RmVerb(file), Blank)]
    {
      log := log + [Say(RmVerb(file), Blank)];
      fs := RemoveFile(fs, file);
    }

    /** rm_r: reports, then removes dir and everything below it. */
    method RmR(dir: Path)
      modifies this
      ensures fs == RemoveTree(old(fs), dir)
      ensures log == old(log) + [Say(RmRVerb(dir), Blank)]
    {
      log := log + [Say(RmRVerb(dir), Blank)];
      fs := RemoveTree(fs, dir);
    }

    /** The classification in ln_s, one assignment after another. */
    method ClassifyLink(source: Path, destination: Path) returns (action: LinkAction)
      ensures action == ChosenAction(fs, destination)
      ensures action != Identical
      ensures action == Conflict <==> Exists(fs, destination)
      ensures action == SymlinkConflict <==> IsSymlink(fs, destination) && fs[destination].target !in fs
      ensures action == Success <==> destination !in fs
    {
      action := Success;
      if IsSymlink(fs, destination) && fs[destination].target == source {
        action := Identical;
      }
      if IsSymlink(fs, destination) {
        action := SymlinkConflict;
      }
      if Exists(fs, destination) {
        action := Conflict;
      }
    }

    /** ln_s: source is already its own real path. */
    method LnS(source: Path, destination: Path, opts: Options, accepted: bool)
      requires source != [] && destination != []
      requires source in fs && !fs[source].Symlink?
      modifies this
      ensures fs == LinkEffect(old(fs), source, destination, opts, accepted)
      ensures log == old(log) + LinkLog(old(fs), source, destination)
    {
      fs := MakeDirs(fs, Dirname(destination));
      var action := ClassifyLink(source, destination);
      HandleSymlinkAction(action, source, destination, opts, accepted);
    }

    /** handle_symlink_action; `accepted` is the answer of collision_accepted?. */
    method HandleSymlinkAction(action: LinkAction, source: Path, destination: Path,
                               opts: Options, accepted: bool)
      requires source != []
      requires action == SymlinkConflict ==> IsSymlink(fs, destination)
      modifies this
      ensures fs == SymlinkActionEffect(old(fs), action, source, destination, opts, accepted)
      ensures log == old(log) + SymlinkActionLog(old(fs), action, source, destination)
    {
      if action == Identical {
        log := log + [Say(IdenticalVerb, At(destination))];
        return;
      }
      var message := SymlinkMessage(fs, action, source, destination);
      if IsConflict(action) {
        log := log + [Say(ConflictVerb, message)];
        if accepted {
          if !opts.pretend {
            fs := RemoveTree(fs, destination);
          }
        }
      } else {
        log := log + [Say(SymlinkVerb, message)];
      }
      if !opts.pretend {
        fs := Link(fs, source, destination);
      }
    }

    /** handle_tracking_file: file is an absolute path below home, castleDir
        the castle's directory; `answer` is the reply to mv's prompt,
        `moreRecent` the answer of more_recent?(file, target) and `afterMerge`
        the filesystem move_dir_contents leaves behind. */
    method HandleTrackingFile(file: Path, castle: string, home: Path, castleDir: Path,
                              opts: Options, answer: bool, moreRecent: bool, afterMerge: Fs)
      requires home < file && castleDir != home
      requires opts.pretend || file in fs
      modifies this
      ensures fs == TrackEffect(old(fs), file, home, castleDir, opts, moreRecent, afterMerge)
      ensures log == old(log) + TrackLog(old(fs), file, castle, home, castleDir, opts, answer, moreRecent)
    {
      var relativeDir := Dirname(file[|home|..]);
      var castlePath := CastlePath(home, castleDir, file);
      var target := TrackedPath(home, castleDir, file);

      if !Exists(fs, target) {
        Mv(file, castlePath, opts, answer);
        return;
      }

      if IsDirectory(fs, file) {
        log := log + [MoveDirContents(target, file)];
        fs := afterMerge;
        fs := RemoveTree(fs, file);
        log := log + [SubdirRemove(castle, relativeDir + [Basename(file)])];
        return;
      }

      if moreRecent {
        fs := Delete(fs, target);
        Mv(file, castlePath, opts, answer);
        return;
      }
      log := log + [Say(TrackVerb, AlreadyMoreRecent(target, file))];
    }
  }

  // ---------------------------------------------------------------------------
  // Properties
  // ---------------------------------------------------------------------------

  /** The tracked path is the file's path with the home directory replaced by
      the castle directory, and it lies in castle_path under the file's own name. */
  lemma TrackedPathMirrorsHome(home: Path, castleDir: Path, file: Path)
    requires home < file
    ensures var target := TrackedPath(home, castleDir, file);
      && target == Rebase(file, home, castleDir)
      && target != [] && Dirname(target) == CastlePath(home, castleDir, file)
      && Basename(target) == Basename(file)
  {
    var rest := file[|home|..];
    assert Dirname(rest) + [Basename(rest)] == rest;
  }

  /** A castle directory other than home never maps a home file onto itself. */
  lemma TargetIsNotFile(file: Path, home: Path, castleDir: Path)
    requires home < file && castleDir != home
    ensures TrackedPath(home, castleDir, file) != file
  {
    var rest := file[|home|..];
    var target := TrackedPath(home, castleDir, file);
    assert file == home + rest && target == castleDir + rest;
    if |castleDir| == |home| {
      assert target[..|home|] == castleDir && file[..|home|] == home;
    }
  }

  /** Distinct home files are tracked at distinct castle paths. */
  lemma TrackedTargetInjective(home: Path, castleDir: Path, file1: Path, file2: Path)
    requires home < file1 && home < file2 && file1 != file2
    ensures TrackedPath(home, castleDir, file1) != TrackedPath(home, castleDir, file2)
  {
    TrackedPathMirrorsHome(home, castleDir, file1);
    TrackedPathMirrorsHome(home, castleDir, file2);
    RebaseInjective(home, castleDir);
  }

  /** The last-match-wins chain differs from the first-match-wins one exactly
      on destinations that are symlinks to something present: those, including
      a link to the source itself, are reported as plain conflicts. */
  lemma ChosenDiffersFromIntended(fs: Fs, source: Path, destination: Path)
    requires source in fs
    ensures ChosenAction(fs, destination) != IntendedAction(fs, source, destination)
        <==> IsSymlink(fs, destination) && fs[destination].target in fs
    ensures ChosenAction(fs, destination) != Identical
  {
  }

  /** mkdir_p of the parent never touches the destination itself. */
  lemma MakeParentsKeepsDestination(fs: Fs, destination: Path)
    requires destination != []
    ensures var made := MakeDirs(fs, Dirname(destination));
      (destination in made <==> destination in fs)
      && (destination in fs ==> made[destination] == fs[destination])
  {
    var made := MakeDirs(fs, Dirname(destination));
    assert forall q :: q in made && q !in fs ==> |q| < |destination|;
  }

  /** Running ln_s again on a destination it has already linked is reported as
      a conflict ("exists"), never as identical. */
  lemma RelinkReportsConflict(fs: Fs, source: Path, destination: Path)
    requires source != [] && destination != []
    requires source in fs && !fs[source].Symlink? && source != destination
    requires destination in fs && fs[destination] == Symlink(source)
    ensures LinkLog(fs, source, destination) == [Say(ConflictVerb, PathExists(destination))]
    ensures IntendedAction(fs, source, destination) == Identical
  {
    var made := MakeDirs(fs, Dirname(destination));
    MakeParentsKeepsDestination(fs, destination);
    assert made[source] == fs[source];
    assert ChosenAction(made, destination) == Conflict;
  }

  /** handle_symlink_action on :identical reports and changes nothing. */
  lemma IdenticalChangesNothing(fs: Fs, source: Path, destination: Path, opts: Options, accepted: bool)
    requires source != []
    ensures SymlinkActionEffect(fs, Identical, source, destination, opts, accepted) == fs
    ensures SymlinkActionLog(fs, Identical, source, destination) == [Say(IdenticalVerb, At(destination))]
  {
  }

  /** With --pretend, handle_symlink_action changes nothing, whatever the
      action and the answer, and still reports one status line. */
  lemma PretendChangesNothing(fs: Fs, action: LinkAction, source: Path, destination: Path,
                              opts: Options, accepted: bool)
    requires source != [] && opts.pretend
    requires action == SymlinkConflict ==> IsSymlink(fs, destination)
    ensures SymlinkActionEffect(fs, action, source, destination, opts, accepted) == fs
    ensures |SymlinkActionLog(fs, action, source, destination)| == 1
  {
  }

  /** Without --pretend, every action but :identical ends by creating the
      symlink, whatever the user answered; the destination is removed first
      only for an accepted conflict. */
  lemma LinkRunsWhateverTheAnswer(fs: Fs, action: LinkAction, source: Path, destination: Path,
                                  opts: Options, accepted: bool)
    requires source != [] && !opts.pretend && action != Identical
    ensures var cleared := if IsConflict(action) && accepted then RemoveTree(fs, destination) else fs;
      var r := SymlinkActionEffect(fs, action, source, destination, opts, accepted);
      var placed := Placement(cleared, source, destination);
      && placed in r && r[placed] == Symlink(source)
      && (forall q :: q != placed ==> (q in r <==> q in cleared))
      && (forall q :: q in r && q != placed ==> r[q] == cleared[q])
      && (IsConflict(action) && accepted ==> placed == destination)
  {
    if IsConflict(action) && accepted {
      assert destination !in RemoveTree(fs, destination);
    }
  }

  /** With --pretend, ln_s changes nothing but the parent directories it
      creates, and still reports one status line. */
  lemma PretendOnlyMakesParents(fs: Fs, source: Path, destination: Path, opts: Options, accepted: bool)
    requires source != [] && destination != [] && opts.pretend
    ensures LinkEffect(fs, source, destination, opts, accepted) == MakeDirs(fs, Dirname(destination))
    ensures |LinkLog(fs, source, destination)| == 1
  {
  }

  /** When the destination was free, or the user accepted the collision, ln_s
      leaves a symlink to the source at the destination, and every path outside
      the destination is as mkdir_p left it. */
  lemma LinkPlacesSymlink(fs: Fs, source: Path, destination: Path, opts: Options, accepted: bool)
    requires source != [] && destination != [] && !opts.pretend
    requires destination !in fs || accepted
    ensures var r := LinkEffect(fs, source, destination, opts, accepted);
      var made := MakeDirs(fs, Dirname(destination));
      && destination in r && r[destination] == Symlink(source)
      && (forall q :: !(destination <= q) ==> (q in r <==> q in made))
      && (forall q :: q in r && !(destination <= q) ==> r[q] == made[q])
  {
    MakeParentsKeepsDestination(fs, destination);
  }

  /** Declining the collision does not stop the link: a regular file at the
      destination is replaced by the symlink all the same. */
  lemma DeclinedFileConflictStillLinks(fs: Fs, source: Path, destination: Path, opts: Options)
    requires source != [] && destination != [] && !opts.pretend
    requires destination in fs && fs[destination].File?
    ensures LinkLog(fs, source, destination) == [Say(ConflictVerb, PathExists(destination))]
    ensures var r := LinkEffect(fs, source, destination, opts, false);
      destination in r && r[destination] == Symlink(source)
  {
    MakeParentsKeepsDestination(fs, destination);
  }

  /** Declining the collision on a directory puts the symlink inside it. */
  lemma DeclinedDirectoryConflictLinksInside(fs: Fs, source: Path, destination: Path, opts: Options)
    requires source != [] && destination != [] && !opts.pretend
    requires destination in fs && fs[destination].Dir?
    ensures var r := LinkEffect(fs, source, destination, opts, false);
      && destination in r && r[destination] == Dir
      && destination + [Basename(source)] in r
      && r[destination + [Basename(source)]] == Symlink(source)
  {
    MakeParentsKeepsDestination(fs, destination);
  }

  /** Re-linking a destination that already links to a directory, and
      declining the collision, nests a second link inside the linked directory:
      the link stays and a link to the source appears at destination/basename. */
  lemma DeclinedRelinkOfDirectoryNestsLink(fs: Fs, source: Path, destination: Path, opts: Options)
    requires source != [] && destination != [] && !opts.pretend && source != destination
    requires source in fs && fs[source].Dir?
    requires destination in fs && fs[destination] == Symlink(source)
    ensures LinkLog(fs, source, destination) == [Say(ConflictVerb, PathExists(destination))]
    ensures var r := LinkEffect(fs, source, destination, opts, false);
      var nested := destination + [Basename(source)];
      && destination in r && r[destination] == Symlink(source)
      && nested in r && r[nested] == Symlink(source)
  {
    var made := MakeDirs(fs, Dirname(destination));
    MakeParentsKeepsDestination(fs, destination);
    assert made[source] == Dir;
    assert IsDirectory(made, destination);
  }

  /** Re-linking a file that is already linked, with its parents in place and
      nothing stored below the link, leaves the filesystem as it was, whatever
      the user answers, although it is reported as a conflict. */
  lemma RelinkOfFileKeepsFilesystem(fs: Fs, source: Path, destination: Path, opts: Options, accepted: bool)
    requires source != [] && destination != []
    requires source in fs && fs[source].File?
    requires destination in fs && fs[destination] == Symlink(source)
    requires forall q :: q != [] && q <= Dirname(destination) ==> q in fs
    requires forall q :: q in fs && destination <= q ==> q == destination
    ensures LinkEffect(fs, source, destination, opts, accepted) == fs
  {
    var made := MakeDirs(fs, Dirname(destination));
    assert made == fs;
    if !opts.pretend {
      var cleared := if accepted then RemoveTree(fs, destination) else fs;
      assert cleared == fs || cleared == fs - {destination};
      assert !IsDirectory(cleared, destination);
      assert Link(cleared, source, destination) == fs;
    }
  }

  /** rm_link on a symlink with nothing stored below it removes just the link. */
  lemma RemoveLinkRemovesOnlyLink(fs: Fs, target: Path)
    requires IsSymlink(fs, target)
    requires forall q :: q in fs && target <= q ==> q == target
    ensures RemoveTree(fs, target) == fs - {target}
  {
    assert RemoveTree(fs, target).Keys == (fs - {target}).Keys;
  }

  /** mv prompts exactly when destination/basename exists and --force is off,
      and announces the collision exactly when it exists and --force is on or
      the user says yes. */
  lemma MvAsksOnlyWithoutForce(fs: Fs, source: Path, destination: Path, opts: Options, answer: bool)
    requires source != []
    ensures var target := destination + [Basename(source)];
      var events := MvLog(fs, source, destination, opts, answer);
      && (Prompt(target) in events <==> Exists(fs, target) && !opts.force)
      && (Say(ConflictVerb, PathExists(target)) in events <==> Exists(fs, target) && (opts.force || answer))
      && (forall e :: e in events ==> e == Prompt(target) || e == Say(ConflictVerb, PathExists(target)))
  {
  }

  /** mv into an existing directory puts the source, with everything below it,
      at destination/basename when that path is not a directory; the source
      path is gone afterwards. */
  lemma MvPlacesSource(fs: Fs, source: Path, destination: Path, opts: Options)
    requires source != [] && source in fs && !opts.pretend && IsDirectory(fs, destination)
    requires var target := destination + [Basename(source)];
      !IsDirectory(fs, target) && !(source <= target) && !(target <= source)
    ensures var target := destination + [Basename(source)];
      var r := MvEffect(fs, source, destination, opts);
      target in r && r[target] == fs[source] && source !in r
  {
    RenamePlaces(fs, source, destination + [Basename(source)]);
  }

  /** A file not yet in the castle ends up exactly at its castle path, with
      its node (and so its modification time) unchanged, and is gone from home. */
  lemma TrackMovesUntrackedFile(fs: Fs, file: Path, home: Path, castleDir: Path, opts: Options,
                                moreRecent: bool, afterMerge: Fs)
    requires home < file && file in fs && !opts.pretend
    requires IsDirectory(fs, CastlePath(home, castleDir, file))
    requires var target := TrackedPath(home, castleDir, file);
      !Exists(fs, target) && !(file <= target) && !(target <= file)
    ensures var target := TrackedPath(home, castleDir, file);
      var r := TrackEffect(fs, file, home, castleDir, opts, moreRecent, afterMerge);
      target in r && r[target] == fs[file] && file !in r
  {
    var castlePath := CastlePath(home, castleDir, file);
    var target := TrackedPath(home, castleDir, file);
    MvPlacesSource(fs, file, castlePath, opts);
  }

  /** A live file newer than its tracked copy replaces it. */
  lemma TrackReplacesOlderCopy(fs: Fs, file: Path, home: Path, castleDir: Path, opts: Options,
                               afterMerge: Fs)
    requires home < file && castleDir != home && file in fs && !opts.pretend
    requires IsDirectory(fs, CastlePath(home, castleDir, file))
    requires var target := TrackedPath(home, castleDir, file);
      Exists(fs, target) && !IsDirectory(fs, file) && !(file <= target) && !(target <= file)
    ensures var target := TrackedPath(home, castleDir, file);
      var r := TrackEffect(fs, file, home, castleDir, opts, true, afterMerge);
      target in r && r[target] == fs[file] && file !in r
  {
    var castlePath := CastlePath(home, castleDir, file);
    var target := TrackedPath(home, castleDir, file);
    TargetIsNotFile(file, home, castleDir);
    TrackedPathMirrorsHome(home, castleDir, file);
    RenamePlaces(Delete(fs, target), file, target);
  }

  /** A tracked copy at least as recent as the live file is left alone, and
      so is everything else; only the :track status is reported. */
  lemma TrackKeepsNewerCopy(fs: Fs, file: Path, castle: string, home: Path, castleDir: Path,
                            opts: Options, answer: bool, afterMerge: Fs)
    requires home < file
    requires var target := TrackedPath(home, castleDir, file);
      Exists(fs, target) && !IsDirectory(fs, file)
    ensures TrackEffect(fs, file, home, castleDir, opts, false, afterMerge) == fs
    ensures var target := TrackedPath(home, castleDir, file);
      TrackLog(fs, file, castle, home, castleDir, opts, answer, false)
        == [Say(TrackVerb, AlreadyMoreRecent(target, file))]
  {
  }

  /** Merging a directory removes the whole live tree from home. */
  lemma TrackDirectoryRemovesLiveTree(fs: Fs, file: Path, home: Path, castleDir: Path,
                                      opts: Options, moreRecent: bool, afterMerge: Fs)
    requires home < file
    requires Exists(fs, TrackedPath(home, castleDir, file)) && IsDirectory(fs, file)
    ensures var r := TrackEffect(fs, file, home, castleDir, opts, moreRecent, afterMerge);
      forall q :: file <= q ==> q !in r
  {
  }

  /** --pretend does not protect a stale tracked copy: it is deleted before mv,
      and only the move itself is skipped. */
  lemma PretendStillDeletesOlderCopy(fs: Fs, file: Path, home: Path, castleDir: Path, opts: Options,
                                     afterMerge: Fs)
    requires home < file && opts.pretend
    requires var target := TrackedPath(home, castleDir, file);
      Exists(fs, target) && !IsDirectory(fs, file)
    ensures var target := TrackedPath(home, castleDir, file);
      TrackEffect(fs, file, home, castleDir, opts, true, afterMerge) == fs - {target}
  {
  }

  /** handle_tracking_file never prompts the user: each mv it issues targets a
      path that is absent, so the report does not depend on the answer or on
      --force, and it holds neither a prompt nor a conflict line. */
  lemma TrackNeverPrompts(fs: Fs, file: Path, castle: string, home: Path, castleDir: Path,
                          opts: Options, answer: bool, moreRecent: bool)
    requires home < file
    ensures TrackLog(fs, file, castle, home, castleDir, opts, answer, moreRecent)
         == TrackLog(fs, file, castle, home, castleDir, Options(false, opts.pretend), false, moreRecent)
    ensures forall e :: e in TrackLog(fs, file, castle, home, castleDir, opts, answer, moreRecent) ==>
              !e.Prompt? && !(e.Say? && e.verb == ConflictVerb)
  {
    var castlePath := CastlePath(home, castleDir, file);
    var target := TrackedPath(home, castleDir, file);
    assert target !in Delete(fs, target);
  }
}
