# Homesick file actions, modelled in Dafny

Homesick keeps dotfiles in version-controlled "castles" and links them back into
the home directory. This project models the module that does the filesystem work,
`Homesick::Actions::FileActions`:

- `ln_s` classifies a destination as `:success`, `:identical`, `:symlink_conflict`
  or `:conflict`.
- `handle_symlink_action` carries out that action under `--force`/`--pretend` and
  the user's confirmation.
- `generate_symlink_message` builds the status text.
- `rm_link`, `rm`, `rm_r`, `rm_rf` and `mv` are the guarded removal and move
  primitives.
- `handle_tracking_file` moves a home file or directory into a castle.

The filesystem is a table from paths to nodes, held in the field `fs` of the
class `Actions.FileActions`. A path is a sequence of segments. A node is
`File(mtime)`, `Dir` or `Symlink(target)`. The field `log` collects three kinds
of event: everything passed to `say_status`, the `shell.file_collision` prompt
that `mv` puts to the user, and the calls to `move_dir_contents` and
`subdir_remove`. The options and the user's answers are explicit parameters,
and leave no event of their own. So are the helpers
whose code is not part of this model: `collision_accepted?` is `accepted`,
`shell.file_collision` is `answer`, `more_recent?` is `moreRecent`, and the
filesystem `move_dir_contents` leaves behind is `afterMerge`.

`Pathname#symlink?` looks at the entry itself. `exist?` and `directory?` follow a
symlink, one level deep. Each state-changing method states its whole new state
through a specification function (`LinkEffect`, `SymlinkActionEffect`,
`MvEffect`, `TrackEffect`, and their `...Log` partners). The lemmas state the
properties of those functions.

The model follows the code as written. The `:identical` branch of
`handle_symlink_action` presupposes a first-match-wins classification, in which
an existing link to the source is recognised before anything else; the model
states that order as `IntendedAction`. The model keeps three behaviours of the
code that depart from that order or make a user's answer count for less than the
prompt suggests:

- **Classification order.** Lines 45-48 are independent assignments, so the last
  test that matches wins. `exist?` follows symlinks, so a destination that already
  links to the source is classified `:conflict`. `:identical` is never chosen.
  `ChosenDiffersFromIntended` and `RelinkReportsConflict` state this. A dangling
  symlink is the only way to get `:symlink_conflict`.
- **Declined conflicts still link.** `FileUtils.ln_s ..., force: true` (line 67)
  runs whatever the answer. A declined regular file is replaced by the link. A
  declined directory receives the link inside it.
- **`mv` ignores the answer.** The prompt at line 10 only decides whether the
  collision is reported. The move at line 11 is gated only by `--pretend`.

Two more behaviours follow from the code:

- `--pretend` does not cover `mkdir_p` (line 43), `target.delete` (line 94) or
  `rmtree` (line 88).
- `FileUtils.mv` and `FileUtils.ln_s` place their source inside the destination
  when the destination is a directory (`Placement`).

## Model

| member | source | states |
|---|---|---|
| `Actions.FileActions.Mv` | lib/homesick/actions/file_actions.rb:7-12 | When destination/basename exists, `--force` announces the collision; without it the user is prompted and a yes announces it. The filesystem becomes `MvEffect`: moved unless `--pretend`, and independent of the answer. |
| `Actions.MvAsksOnlyWithoutForce` | lib/homesick/actions/file_actions.rb:10 | The prompt is shown iff destination/basename exists and `--force` is off (the short-circuit `||`). The collision is announced iff it exists and `--force` is on or the answer is yes. Nothing else is logged. |
| `Actions.FileActions.RmRf` | lib/homesick/actions/file_actions.rb:14-17 | Reports `rm -rf dir`, then removes dir and everything below it. |
| `Actions.FileActions.RmLink` | lib/homesick/actions/file_actions.rb:19-28 | A symlink is reported (`:unlink`) and removed. Anything else is left unchanged and a conflict "is not a symlink" is reported. |
| `Actions.FileActions.Rm` | lib/homesick/actions/file_actions.rb:30-33 | Reports `rm file`, then unlinks it unless it is a directory or missing (`force: true` swallows the failure). |
| `Actions.FileActions.RmR` | lib/homesick/actions/file_actions.rb:35-38 | Reports `rm -r dir`, then removes dir and everything below it. |
| `Actions.FileActions.LnS` | lib/homesick/actions/file_actions.rb:40-51 | The new state is `mkdir_p` of the parent (always), then the action chosen on that state; the log is that action's single status line. |
| `Actions.FileActions.ClassifyLink` | lib/homesick/actions/file_actions.rb:45-48 | The chain yields `:conflict` iff the destination exists (following a symlink), `:symlink_conflict` iff it is a dangling symlink, `:success` iff nothing is there, and never `:identical`. |
| `Actions.FileActions.HandleSymlinkAction` | lib/homesick/actions/file_actions.rb:53-68 | `:identical` only reports. A conflict reports and removes the destination only if accepted and not pretending. The link is created whenever not pretending. |
| `Actions.SymlinkMessage` | lib/homesick/actions/file_actions.rb:70-75 | "exists" for `:conflict`, "exists and points to readlink" for `:symlink_conflict`, "source to destination" otherwise. |
| `Actions.FileActions.HandleTrackingFile` | lib/homesick/actions/file_actions.rb:77-101 | The new state and log follow the three mutually exclusive branches: target absent, then mv; live directory, then merge, rmtree and subdir_remove; live file, then mtime comparison. |
| `Actions.CastlePath` | lib/homesick/actions/file_actions.rb:80-81 | `castle_path` is the parent of the file's path with the home prefix replaced by the castle directory. |
| `Actions.TrackedPath` | lib/homesick/actions/file_actions.rb:82 | `target` is the file's path with the home prefix replaced by the castle directory. |
| `Actions.TrackedTargetInjective` | lib/homesick/actions/file_actions.rb:79-82 | Distinct home files get distinct castle paths. |
| `Actions.TargetIsNotFile` | lib/homesick/actions/file_actions.rb:79-82 | With a castle directory other than home, the target is never the live file itself. |
| `Actions.ChosenDiffersFromIntended` | lib/homesick/actions/file_actions.rb:45-48 | The last-match-wins chain disagrees with first-match-wins exactly on symlinks whose target is present. It never yields `:identical`. |
| `Actions.MakeParentsKeepsDestination` | lib/homesick/actions/file_actions.rb:43 | `mkdir_p` of the parent leaves the destination entry as it was. |
| `Actions.RelinkReportsConflict` | lib/homesick/actions/file_actions.rb:45-50 | Re-running `ln_s` on a destination that already links to the source reports "exists" as a conflict, where first-match-wins would say `:identical`. |
| `Actions.RelinkOfFileKeepsFilesystem` | lib/homesick/actions/file_actions.rb:40-68 | Re-linking an already-linked file, with its parent directories present and nothing stored below the link, leaves the filesystem unchanged, whatever the answer. |
| `Actions.IdenticalChangesNothing` | lib/homesick/actions/file_actions.rb:53-57 | `:identical` changes nothing and reports one `:identical` line. |
| `Actions.PretendChangesNothing` | lib/homesick/actions/file_actions.rb:59-67 | Under `--pretend`, `handle_symlink_action` changes nothing for any action and still reports one line. |
| `Actions.PretendOnlyMakesParents` | lib/homesick/actions/file_actions.rb:40-67 | Under `--pretend`, `ln_s` still creates the parent directories and nothing else, and reports one line. |
| `Actions.LinkRunsWhateverTheAnswer` | lib/homesick/actions/file_actions.rb:59-67 | Without `--pretend`, every non-identical action ends with the symlink at its placement, whatever the answer, and every other path is as it was after the optional clearing. An accepted conflict first clears the destination, so the link lands exactly there. |
| `Actions.LinkPlacesSymlink` | lib/homesick/actions/file_actions.rb:40-68 | A free destination, or an accepted conflict, ends as a symlink to the source. Every path outside the destination is as `mkdir_p` left it. |
| `Actions.DeclinedFileConflictStillLinks` | lib/homesick/actions/file_actions.rb:59-67 | A declined conflict on a regular file is reported and the file is still replaced by the symlink. |
| `Actions.DeclinedRelinkOfDirectoryNestsLink` | lib/homesick/actions/file_actions.rb:40-67 | Re-running `ln_s` on a destination that already links to a directory, and declining, reports "exists", keeps the link and adds a second link to the source at destination/basename, which really lies inside the linked directory. |
| `Actions.DeclinedDirectoryConflictLinksInside` | lib/homesick/actions/file_actions.rb:59-67 | A declined conflict on a directory keeps it and puts the symlink inside it. |
| `Actions.RemoveLinkRemovesOnlyLink` | lib/homesick/actions/file_actions.rb:19-28 | Removing a symlink with nothing below it removes exactly that entry. |
| `Actions.MvPlacesSource` | lib/homesick/actions/file_actions.rb:7-12 | Without `--pretend`, and with destination an existing directory, the source's node lands at destination/basename, when that is not a directory, and the source path is gone. |
| `Actions.TrackMovesUntrackedFile` | lib/homesick/actions/file_actions.rb:84 | With `castle_path` an existing directory, an untracked file ends up exactly at its castle path with the same node (so the same mtime), and leaves home. |
| `Actions.TrackReplacesOlderCopy` | lib/homesick/actions/file_actions.rb:93-97 | With `castle_path` an existing directory, a newer live file replaces the tracked copy at the castle path and leaves home. |
| `Actions.TrackKeepsNewerCopy` | lib/homesick/actions/file_actions.rb:98-100 | A tracked copy at least as recent is left alone, like everything else; only the `:track` status is reported. |
| `Actions.TrackDirectoryRemovesLiveTree` | lib/homesick/actions/file_actions.rb:86-91 | Merging a live directory leaves nothing at or below its home path. |
| `Actions.PretendStillDeletesOlderCopy` | lib/homesick/actions/file_actions.rb:93-97 | Under `--pretend` the older tracked copy is still deleted; only the move is skipped. |
| `Actions.TrackNeverPrompts` | lib/homesick/actions/file_actions.rb:84-97 | The report of tracking is the same with any answer and without `--force`, and it holds no prompt and no conflict line: every mv it issues targets an absent path. |
| `FileSystem.MakeDirs` | lib/homesick/actions/file_actions.rb:43 | `mkdir_p` keeps every existing entry, makes every ancestor of the directory present, and adds nothing but directories on that ancestor chain. |
| `FileSystem.RenameCarriesTree` | lib/homesick/actions/file_actions.rb:11 | The move carries every entry below the source to the same place below the destination. Everything below the destination afterwards came from the source. |
| `FileSystem.RenameKeepsRest` | lib/homesick/actions/file_actions.rb:11 | After the move nothing is left below the source, and paths outside source and destination are unchanged. |
| `FileSystem.RenamePlaces` | lib/homesick/actions/file_actions.rb:11 | A moved entry keeps its node at the destination, and the source path is gone. |

## Left out

- `lib/homesick/actions/git_actions.rb` is not part of this model: every method there shells out to git.
- `move_dir_contents`, `subdir_remove`, `more_recent?`, `castle_dir`, `home_dir`, `collision_accepted?` and `shell.file_collision` are defined outside the modelled file. They appear as parameters (`afterMerge`, `moreRecent`, `castleDir`, `home`, `accepted`, `answer`) or as `MoveDirContents` / `SubdirRemove` / `Prompt` log events; `collision_accepted?` and `more_recent?` leave no event. The content merge of a directory is therefore not modelled.
- Actions.FileActions.HandleTrackingFile: the directory branch states only that the live tree is removed from what `move_dir_contents` left, not what the merge puts in the castle. The statuses printed by `move_dir_contents` are not in the log.
- `realpath` and `expand_path` are not modelled. Paths are assumed absolute and canonical. `ln_s` requires an existing, non-symlink source. `handle_tracking_file` requires a file strictly below home and a castle directory other than home.
- Symlinks are followed only at the last segment of a path, and only one level. An entry created below a symlinked directory is keyed by its literal path. Removal follows the same keying: `RemoveTree` on a symlink also drops every entry keyed below the link, whereas `FileUtils.rm_r`/`rm_rf` remove only the link itself. This affects `RmLink`, `RmRf`, `RmR` and the accepted clearing at line 62. For example, the nested link that `DeclinedRelinkOfDirectoryNestsLink` creates really sits inside the linked castle directory and survives a later `rm_link` of the outer link, but the model drops it.
- Exceptions raised by `FileUtils` and `Pathname` are not modelled. In the real code these cases raise:
  - `rm_r` without force on a missing path;
  - `mkdir_p` over a file;
  - `ln_s` or `mv` onto an existing directory at destination/basename;
  - `mv` into a directory that does not exist (`File.rename` fails with ENOENT). `handle_tracking_file` calls `mv` at lines 84 and 95 without creating `castle_path` first; the model still moves the entry there, so the tracking lemmas that promise arrival require `castle_path` to be a directory;
  - moving a directory into its own subtree;
  - `Pathname#delete` of a non-empty directory;
  - permission errors.
  The model instead computes the table update: `Delete` drops one entry, and `Rename` and `Link` replace the entry. Three exceptions are preconditions instead:
  - a missing source for `mv` without `--pretend`;
  - a missing source for `ln_s` (`realpath` raises, line 41); a symlinked source is excluded too, because `realpath` would resolve it;
  - `:symlink_conflict` on something that is not a symlink in `handle_symlink_action` (`readlink`, line 72).
- Status texts are kept as structured `Message` values, not formatted strings. Colours are dropped.
- Filesystem entries do not carry file contents. A moved file keeps its node, including its mtime, and that stands for "same content".
- The window between classification and mutation (time of check to time of use) is not modelled. The tool is single-threaded and does not guard it.
