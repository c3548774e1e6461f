# Video sync engine — Dafny model

`main.py` mirrors a *raw* directory tree into a *public* one. Each pass runs
under a single-instance lock file, `.sync.lock`. Within a pass it:

1. sweeps temporary `*.tmp.webm` files left by earlier passes, and repairs
   the progress records in `.progress/<md5>.json`;
2. makes the public directories the same as the raw ones;
3. deletes public files that have no raw counterpart;
4. walks the raw tree and, for each file, skips it if it is up to date,
   converts it with ffmpeg if it is a video, or copies it otherwise.

A conversion writes to `<output>.tmp.webm` and renames that file over the
output only when ffmpeg exits with status 0. Each progress record is keyed by
the MD5 of the first 10 MiB of its source. The record keeps the source's
fingerprint, its output path and a status, `in_progress` or `completed`.

The model is in eleven modules, compiled together:

| module | file | models |
|---|---|---|
| `Wrappers` | `wrappers.dfy` | `Option` |
| `Files` | `files.dfy` | relative paths, file and directory trees; the public tree as class `PublicDir`, with `mkdir(parents=True)`, `unlink`, writing, `rename` and `rmtree` |
| `Paths` | `paths.dfy` | `suffix`, `with_suffix`, `is_video_file`, `get_output_path`, the temporary name |
| `Fingerprint` | `fingerprint.dfy` | `calculate_file_hash` |
| `Lock` | `lock.dfy` | `acquire_lock` and `release_lock` on class `LockFile` |
| `Progress` | `progress.dfy` | the metadata store as class `ProgressStore`: `get_progress_metadata_path`, save, load, delete |
| `Detect` | `detect.dfy` | `should_process_file` |
| `Convert` | `convert.dfy` | `convert_video_to_webm`, `copy_file` |
| `Reconcile` | `reconcile.dfy` | `cleanup_incomplete_conversions`, `sync_folder_structure`, `clean_orphaned_files` |
| `Pass` | `pass.dfy` | `process_files`, `main` |
| `Rerun` | `rerun.dfy` | a second run of `main` after a clean one |

The raw tree is an immutable `Tree` value, because the script never writes
to it. The public tree, the metadata store and the lock file change in place,
so they are classes whose methods carry `modifies` clauses. Each method that
walks or changes them is proved against a function on values: `ProcessOne`
against `Step`, `ProcessFiles` against `Walk`, `RunSteps` against `Walk`
after `Reconciled`, `ConvertVideoToWebm` against `FilesAfter` and
`RecordsAfter`, `CopyFile` against `CopiedFiles`. The lemmas about those
functions carry the properties.

Every step that depends on the outside world is an explicit input:

- the order `os.walk` yields files in;
- how each ffmpeg run ends (`EncoderRun`): an exit status and what it left at
  the temporary path, an exception, ffmpeg not being installed, or a
  KeyboardInterrupt;
- how each copy ends (`CopyRun`): it completes, fails before the destination
  is opened, or fails or is interrupted after some bytes were written;
- whether the lock file can be written;
- the current time.

Loops over unordered listings (`rglob`, `glob`, set iteration) choose their
next element with `:|`, so each such contract holds for every order.

## Behaviours of note

Each note sets what the code does against what main.py's own docstrings and
comments say. The model follows the code.

- **Record key.** `get_progress_metadata_path` is documented as giving the
  metadata file "for a source file" (main.py:138). It names the file after
  the MD5 of the source's first 10 MiB (main.py:139-143), so two sources
  whose first 10 MiB agree share one record
  (`Progress.SharedPrefixSharesRecord`). Each save for one of them
  overwrites the other's record, whose source and output paths then differ
  (main.py:226-237). Within each pass the first is converted because it finds
  the second's record, and the second is converted because it now finds the
  first's, so both are converted again on every pass
  (`Detect.SharedPrefixReprocesses`, stated for either order).
- **Kept temporary files are never resumed.** The comments at main.py:407
  ("will be cleaned up on next run") and main.py:417 ("for resume") keep
  the temporary file after a non-zero exit and after a KeyboardInterrupt,
  and the docstring of `convert_video_to_webm` promises "resume support"
  (main.py:283). Nothing resumes: the next pass's sweep removes every
  `*.tmp.webm` file (main.py:446-454, `Reconcile.SweepTempFiles`), and the
  conversion itself removes a leftover temporary file before ffmpeg starts
  (main.py:294-297, `Convert.PrepareConversion`). After any other
  exception the temporary file and the record are both deleted
  (main.py:419-425).
- **Non-videos decided by mtime.** `should_process_file` is documented as
  detecting "new or modified" files (main.py:216). No record is ever written
  for a copied file, so for copies only the output check, the temporary-file
  check and the modification-time fallback decide
  (`Detect.ChangedSourceDecidedByMtime`). The exception is a copied file
  whose first 10 MiB agree with a video's, such as a backup `movie.mp4.bak`
  of `movie.mp4`. The video's record then lies under the copy's fingerprint
  and names another output (main.py:226-237), so the record decides: the file
  is copied again on every pass, while the video stays skipped
  (`Detect.SharedPrefixReprocesses`, which puts no condition on the kind of
  either file).
- **A broken copy is left in place and then skipped.** `copy_file` is
  documented as copying the file (main.py:429). When `shutil.copy2` fails or
  is interrupted after opening the destination, a truncated file stamped
  with the current time stays at the output. The mtime fallback
  (main.py:245-249) then declines the source on every later pass
  (`Pass.PartialCopyLaterSkipped`).
- **Step order.** The docstring of `sync_folder_structure` says "Delete
  folders in public that don't exist in raw" (main.py:496). It deletes them
  with their files, before the orphan-file step runs (main.py:525-531,
  640-647).
- **Cleanup also promotes records.** The cleanup step's docstring speaks of
  "orphaned metadata" (main.py:441). It also promotes an `in_progress` record
  to `completed` when the output exists and the fingerprint still matches
  (main.py:470-479, `Reconcile.RecoveredRecordIsCompleted`).
- **A failed re-conversion is later taken as done.** The comment at main.py:480
  reads the promotion as "Conversion was actually completed". Consider a video
  whose content changed after it was converted. No record lies under its new
  fingerprint and it is newer than its output, so it is converted again. If
  ffmpeg then exits non-zero, the old output stays and an `in_progress`
  record is saved under the new fingerprint (main.py:291, 404-408). The next
  cleanup finds that record with an output present and a matching
  fingerprint, and marks it `completed`. From then on `should_process_file`
  skips the source on every pass, although the output was made from the old
  content. This runs against the "new or modified" docstring (main.py:216)
  and the comment at main.py:407 (`Rerun.StaleOutputCompleted`).
- **Exit status.** The comment at main.py:623 calls exit status 2 "already
  running". It is also returned when the lock file cannot be written
  (main.py:102-104). `main` returns 1 both when the raw directory is missing
  and when any file failed or the pass was interrupted (main.py:632-634,
  664-672).
- **Exit 0 without output.** The comment at main.py:391 says the temporary
  file is moved to the final destination, but only if it exists. An ffmpeg
  run that exits 0 without leaving one counts as a success although it
  leaves no new output (main.py:390-403; `Pass.BareExit`). Where there is no
  old output, none exists afterwards. Where an old output exists, it stays
  as it was, and a `completed` record for the current content is saved
  beside it (main.py:392-400; `Convert.FilesAfterShape`,
  `Convert.RecordAfterConversion`). This is the same stale output as in
  "A failed re-conversion is later taken as done" above.
- **Redundant `.webm` fallback.** The comment at main.py:565 looks for a
  `.webm` file "converted from another format". `raw_files` already holds
  the `.webm` name of every raw video (main.py:550-553), so the fallback
  never keeps a file the first test would delete
  (`Reconcile.WebmRuleRedundant`).
- **Raw file with a temporary name.** A raw file named `*.tmp.webm` is its
  own output. The sweep in step 1 removes that output, so the file is
  converted again on every pass (`Pass.TempNamedSourceReprocessed`).
- **Temporary-name clash.** In a directory holding both `x.mp4` and
  `x.tmp.webm`, the first file's temporary file is the second file's output
  (`Pass.TempClashExample`). The completeness guarantee of a successful pass
  is therefore proved under the hypothesis `Pass.NoTempClash`.
- **Files and directories at one path.** In the script, `exists()` is true
  for a file or a directory. If the raw tree turns a file `a` into a folder
  `a/sub/`, the sync finds the old public file `a` (main.py:521), and
  `mkdir(parents=True)` on `a/sub` then raises. `main` returns 1 before the
  orphan step could remove `a`, so every later pass fails the same way. A
  raw directory `clip.webm/` beside `clip.mp4` makes `output_path.exists()`
  true for the video (main.py:218). The model keeps files and directories
  apart; see "Left out".
- **Running twice.** After a pass that ends with exit status 0, a second
  pass over the same raw tree skips every file, whatever its encoder, copier
  and clock (`Rerun.SecondPassSkipsEverything`). This needs conditions the
  script takes for granted:
  - distinct sources have distinct outputs and distinct fingerprints;
  - no output has the temporary suffix;
  - every source is readable;
  - every readable record lies under its own fingerprint, and none under the
    fingerprint of a copied file;
  - no encoder run is a bare exit 0.

## Model

| member | source | states |
|---|---|---|
| `Files.DirsOfShape` | main.py:289 | the directories `mkdir(parents=True)` creates for `d` are non-empty prefixes of `d`, every non-empty prefix is among them, and so is `d` |
| `Files.PublicDir.MakeDirs` | main.py:289 | `mkdir(parents=True)` adds the directory and all its parents, leaves files alone, and keeps the tree well formed |
| `Files.PublicDir.Unlink` | main.py:297 | `unlink` removes exactly one file |
| `Files.PublicDir.Write` | main.py:432 | writing a file in an existing directory sets exactly that path |
| `Files.PublicDir.Rename` | main.py:397 | `rename` moves the file's content to the destination in one step and frees the source path |
| `Files.PublicDir.RemoveTree` | main.py:530 | `rmtree(d)` removes exactly the directories and files at or below `d`, keeps every other file's content, and leaves a well-formed tree |
| `Paths.LastDot` | main.py:200 | the index found is a dot, and no later character is a dot |
| `Paths.Suffix` | main.py:200 | the suffix is empty or a single-dot extension, strictly shorter than the name, found at its end |
| `Paths.SuffixNonEmpty` | main.py:200 | a name has a suffix exactly when its last dot is neither its first nor its last character, and the suffix then runs from that dot to the end |
| `Paths.Lower` | main.py:200 | lower-casing keeps the length, leaves no capital letter, and keeps every other character |
| `Paths.LowerIdempotent` | main.py:200 | lower-casing twice is lower-casing once |
| `Paths.StemSuffix` | main.py:210 | a name is its stem (`Stem`) followed by its suffix |
| `Paths.LowerNoUpper` | main.py:200 | a string without capitals is unchanged by lower-casing |
| `Paths.VideoExtensionsLower` | main.py:28-31 | each video extension is lower-case and is a valid single-dot suffix |
| `Paths.StemNonEmpty` | main.py:210 | a non-empty name has a non-empty stem |
| `Paths.LastDotOfAppend` | main.py:210 | after a suffix is appended, the last dot is the one that starts it |
| `Paths.SuffixOfWithSuffix` | main.py:210 | `with_suffix(s).suffix == s` (`WithSuffix`), and the stem is preserved |
| `Paths.WithSuffixTwice` | main.py:210 | replacing the suffix twice equals replacing it once with the second suffix |
| `Paths.OutputPathShape` | main.py:203-212 | `get_output_path` (`OutputPath`) keeps the directory. It is the source path unless the source is a video whose suffix is not `.webm` in some case; then only the suffix becomes `.webm`. A video's output always has suffix `.webm` in some case |
| `Paths.OutputOfVideoIsVideo` | main.py:198-212 | a video's output is itself classified as a video by `is_video_file` (`IsVideoFile`) |
| `Paths.UpperCaseVideo` | main.py:198-212 | the video test ignores the suffix's case: `x.MP4` is a video whose output is `x.webm` |
| `Paths.UpperCaseWebm` | main.py:198-212 | `x.WEBM` is a video and its own output, since its lower-cased suffix is `.webm` |
| `Paths.TempPathShape` | main.py:285 | the temporary path differs from the output, lies in the same directory and matches the sweep glob `*.tmp.webm` |
| `Paths.TempNameIsOwnOutput` | main.py:198-212 | a `*.tmp.webm` name is a video already ending in `.webm`, so it is its own output |
| `Fingerprint.CalculateFileHash` | main.py:117-134 | the chunked read loop hashes exactly the first min(size, 10 MiB) bytes, and yields `None` for a missing or unreadable file |
| `Fingerprint.FileHashCovers` | main.py:117-134 | a readable file's fingerprint exists and covers min(size, 10 MiB) leading bytes |
| `Fingerprint.SamePrefixSameHash` | main.py:122-131 | files agreeing on their first 10 MiB have the same fingerprint |
| `Fingerprint.TailInvisible` | main.py:122-131 | appending bytes past 10 MiB leaves the fingerprint unchanged |
| `Fingerprint.SameHashSamePrefix` | main.py:117-134 | equal fingerprints mean equal hashed prefixes, and files under 10 MiB are identical |
| `Lock.LockFile.AcquireLock` | main.py:68-105 | the lock is acquired exactly when no readable lock at most 86400 s old exists (`Blocks`) and the write succeeds. A live lock is left untouched; a stale or unreadable one is removed; on success the lock is stamped with `now` |
| `Lock.LockFile.ReleaseLock` | main.py:107-114 | afterwards there is no lock file |
| `Lock.FreshLockExcludes` | main.py:79-86 | a lock stamped `t` blocks every acquisition from `t` up to and including `t + 86400` |
| `Lock.StaleOrUnreadableNeverBlocks` | main.py:79-89 | a stale or unreadable lock never blocks an acquisition |
| `Progress.MetadataKey` | main.py:137-143 | a source has a metadata key exactly when it exists and can be read; the key covers a prefix of its content of length min(size, 10 MiB) |
| `Progress.ProgressStore.SaveProgressMetadata` | main.py:146-168 | saving succeeds exactly when the source can be hashed. It then stores, under that hash, a record with the source's path, output, hash, size, mtime, status and time; otherwise nothing changes. The store stays well keyed |
| `Progress.ProgressStore.DeleteProgressMetadata` | main.py:185-195 | removes the record under the source's hash if there is one, and always reports success |
| `Progress.ProgressStore.Unlink` | main.py:467 | unlinking one metadata file removes exactly that key |
| `Progress.LoadAfterSave` | main.py:146-182 | loading right after a save returns the record just saved |
| `Progress.LoadAfterDelete` | main.py:171-195 | loading right after a delete finds no record |
| `Progress.LoadElsewhere` | main.py:171-182 | a change to the store under another key leaves what loads for the source unchanged |
| `Progress.SharedPrefixSharesRecord` | main.py:137-143 | two sources sharing their first 10 MiB share a key, so saving one overwrites what loading the other returns |
| `Progress.LoadedHashMatches` | main.py:171-182 | in a well-keyed store, a loaded record's `source_hash` is the source's current fingerprint |
| `Detect.ShouldProcessFile` | main.py:215-249 | a file is processed exactly when it is not up to date. Up to date means: the output exists; no temporary file is present; any record names the current fingerprint and this output; and the record is completed or the source is no newer than the output |
| `Detect.ConvertedIsSkipped` | main.py:215-249 | after a committed conversion recorded as completed, the source is skipped |
| `Detect.CopiedIsSkipped` | main.py:215-249 | after `copy2`, which keeps the mtime, the source is skipped when no readable record loads for it and no temporary file is present |
| `Detect.ChangedSourceDecidedByMtime` | main.py:224-249 | in a well-keyed store without a record for the source, only output presence, the temporary file and the mtime comparison decide |
| `Detect.SharedPrefixReprocesses` | main.py:226-237 | a source whose fingerprint's record was taken over by another source with a different output is processed again |
| `Convert.RecordAfterConversion` | main.py:386-425 | once a conversion ends (`OutcomeOf`, `RecordsAfter`), loading finds a completed record after success, the in-progress record after an interrupt or a non-zero exit, and nothing after the two exceptions that delete it; other sources' records are untouched |
| `Convert.RecordsAfterOverrides` | main.py:291-425 | only the last record written for a source matters: the in-progress record saved at the start is overridden by the ending |
| `Convert.FilesAfterShape` | main.py:282-425 | the output changes only when the run commits, and then it holds the encoder's file. The temporary path holds what the run leaves there. Every other public file is untouched |
| `Convert.ConversionFrame` | main.py:282-425 | a conversion adds at most the output, and the temporary file only when it does not succeed; it removes at most the temporary file; a success leaves the output in place unless ffmpeg left no file |
| `Convert.PrepareConversion` | main.py:289-297 | creates the output's directories, saves an `in_progress` record and removes a stale temporary file |
| `Convert.CommitConversion` | main.py:390-403 | renames the temporary file over the output if it exists, then records the source as completed |
| `Convert.FinishRun` | main.py:299-425 | after the encoder, the public files and the store reach the state each way of ending prescribes, and the matching outcome is returned |
| `Convert.ConvertVideoToWebm` | main.py:282-425 | returns success for exit 0, re-raises an interrupt, and fails otherwise. The output's directories are created, the public files become those described by `FilesAfterShape`, and the record ends as `RecordAfterConversion` says |
| `Convert.CopyShape` | main.py:428-437 | a copy reports success exactly when the source is readable and `copy2` completes, and then the destination holds the source's bytes and mtime. A failed or interrupted copy leaves the destination as it was, or a prefix of the source's bytes stamped `now`. It reports an interrupt exactly when `copy2` is interrupted on a readable source. No other path changes |
| `Convert.CopyFrame` | main.py:428-437 | a copy adds at most the destination, removes nothing, and a success leaves the destination in place |
| `Convert.CopyFile` | main.py:428-437 | creates the output's directories, returns the outcome `CopyShape` describes, and leaves the public files `CopyShape` describes |
| `Reconcile.RepairKeepsKey` | main.py:457-486 | a repaired record (`RepairRecord`) stays under its own fingerprint |
| `Reconcile.SweepTempFiles` | main.py:447-454 | removes exactly the `*.tmp.webm` files, one count each, and nothing else |
| `Reconcile.RepairOne` | main.py:459-486 | one metadata file is unlinked, promoted or left as it is. It is unlinked exactly when its source is gone, or when it is an in-progress record whose output exists but whose fingerprint changed |
| `Reconcile.RepairStep` | main.py:457-486 | repairing one more metadata file changes only that key and counts it only if it is unlinked |
| `Reconcile.RepairBounds` | main.py:457-486 | before the pass nothing has been repaired; after it every record has |
| `Reconcile.RepairProgressRecords` | main.py:457-486 | the metadata pass leaves each record repaired as `RepairOne` decides, in any listing order, and counts the unlinked ones |
| `Reconcile.CleanupIncompleteConversions` | main.py:440-489 | all temporary files go, the store is repaired against the swept tree, and `cleaned_count` is the number of files swept plus records unlinked |
| `Reconcile.RepairedSourcesExist` | main.py:463-469 | after the cleanup, every readable record names a source that exists |
| `Reconcile.RecoveredRecordIsCompleted` | main.py:470-479 | an in-progress record whose output exists and whose source is unchanged becomes completed |
| `Reconcile.SyncFolderStructure` | main.py:492-531 | the public directories become exactly the raw ones, and a public file survives exactly when its directory is the root or a raw directory |
| `Reconcile.CreateMissingDirs` | main.py:518-523 | every raw directory is created, and files are untouched |
| `Reconcile.DeleteExtraDirs` | main.py:525-531 | every public directory not in the raw tree is removed with its contents, and raw directories survive |
| `Reconcile.KeepSetOfAdd` | main.py:545-553 | adding one raw file adds it and, for a video, its `.webm` name |
| `Reconcile.BuildKeepSet` | main.py:542-553 | the walk collects every raw file plus the `.webm` name of every raw video |
| `Reconcile.HasVideoSource` | main.py:568-572 | the extension loop finds a match exactly when some video extension swapped in gives a kept path |
| `Reconcile.SourceExists` | main.py:561-572 | a public file counts as having a source exactly when the keep rule holds for it |
| `Reconcile.CleanOrphanedFiles` | main.py:534-576 | exactly the public files without a raw counterpart are unlinked, the others keep their content; directories stay |
| `Reconcile.CleanStep` | main.py:556-576 | checking one more public file removes it exactly when it has no raw counterpart, and changes nothing else |
| `Reconcile.CleanBounds` | main.py:556-576 | before the walk every file is present; after it exactly the kept files remain |
| `Reconcile.WebmRuleRedundant` | main.py:561-572 | the `.webm` fallback keeps nothing extra: a file is kept exactly when it is in the keep set |
| `Reconcile.SwappedNameInKeepSet` | main.py:566-572 | a `.webm` name whose video-extension twin is kept is itself in the keep set |
| `Reconcile.OutputIsKept` | main.py:542-553 | no raw file's output is ever deleted as an orphan |
| `Pass.InOutputs` | main.py:594-596 | each walked file contributes its output and its temporary path |
| `Pass.OutputsFromOrder` | main.py:594-596 | every output and every temporary path comes from some walked file |
| `Pass.SeqsAt` | main.py:594-596 | position `j` of the per-source output sequence is source `j`'s output, and its flag says whether source `j` is a bare exit-0 run |
| `Pass.OutputsAvoidTemp` | main.py:594-596 | when outputs and temporary paths are disjoint, no output is the current file's temporary path |
| `Pass.KeptAcrossStep` | main.py:599-614 | handling one file keeps earlier outputs when it only removes that file's temporary path |
| `Pass.WithinAcrossStep` | main.py:599-614 | handling one file adds at most its output and, when something went wrong, its temporary file |
| `Pass.StepOutcome` | main.py:599-614 | a file is counted skipped exactly when `should_process_file` declines it, and then nothing changes. Otherwise it is counted converted (a video) or copied exactly on success, an error exactly on failure, and interrupts the walk exactly when the encoder or the copy is interrupted |
| `Pass.StepFrame` | main.py:594-614 | handling one file adds directories only along its own directory, adds no file but its output and (after a failure or interrupt) its temporary file, removes at most its temporary file, and leaves its output in place unless it failed, was interrupted or was a bare exit 0 |
| `Pass.StepRecords` | main.py:594-614 | handling one file changes only its own record, and an interrupt comes only from the encoder (a video) or the copy (any other file) |
| `Pass.ProcessOne` | main.py:594-614 | the outcome and the new public files, directories and store are those of `Step` on the old state, whose properties `StepOutcome`, `StepFrame` and `StepRecords` state |
| `Pass.Tally` | main.py:599-614 | each handled file adds exactly one to the statistics, an interrupted one adds nothing, and the error count grows exactly on a failure |
| `Pass.WalkFromFrame` | main.py:590-616 | from any position on, every handled file is counted once, directories are added only along raw ones, and each new file is an output or, after an error or interrupt, a temporary file |
| `Pass.WalkFromOutputs` | main.py:590-616 | without an error or interrupt and without a clash of outputs and temporary files, every output so far stays and each later one is added, except after a bare exit 0 |
| `Pass.WalkErrorsGrow` | main.py:590-616 | the error count of a walk never goes down |
| `Pass.KeptOutputs` | main.py:590-616 | outputs kept position by position are every source's output in place |
| `Pass.WalkFacts` | main.py:579-616 | every walk counts each file once until an interrupt (the interrupted file uncounted), only adds raw directories, adds only outputs and (after trouble) temporary files, and after a clean walk without a clash has every output in place except after a bare exit 0 |
| `Pass.ProcessFiles` | main.py:579-616 | the statistics, the interrupt and the new state are those of `Walk`, and the facts `WalkFacts` proves hold of them |
| `Pass.ReconciledWalk` | main.py:640-650 | after steps 1-4 the public directories are exactly the raw ones, every public file is kept, an output, or a temporary file after an error, and a clean pass without a clash leaves every output in place |
| `Pass.WithinAccounted` | main.py:534-616 | a walk starting from files the orphan rule keeps leaves only files that are kept, outputs, or (after trouble) temporary files |
| `Pass.ReconciledStages` | main.py:640-647 | the three reconciliation steps, run one after the other, leave the state `Reconciled` describes |
| `Pass.RunSteps` | main.py:640-650 | the statistics, the interrupt and the new state are those of `Walk` on `Reconciled`; public directories equal the raw ones; every file is kept, an output, or a temporary file after an error; a clean pass without a clash leaves every output in place |
| `Pass.ClashFreeDisjoint` | main.py:590-596 | without a temporary-name clash, the outputs and the temporary paths of a walk are disjoint |
| `Pass.SuccessfulPassKept` | main.py:534-576 | after a pass, every public file that is kept or is an output lies in the keep set |
| `Pass.RunPass` | main.py:619-676 | exit 2 exactly when the lock is held or cannot be written, and then nothing changes. Exit 1 with nothing changed when the raw tree is missing. Otherwise the lock is released, the result is that of `Walk` on `Reconciled`, and the exit status is 0 exactly when nothing failed and nothing was interrupted. Exit 0 means: directories mirrored, no orphan, and (without a clash) every output in place |
| `Pass.PartialCopyLaterSkipped` | main.py:428-437 | a copy broken after the destination was opened reports no success and leaves an output that differs from the source, which `should_process_file` then declines |
| `Pass.TempNamedSourceReprocessed` | main.py:215-222 | a raw `*.tmp.webm` file is its own output, and the sweep makes it due for processing on every pass |
| `Pass.TempClashExample` | main.py:285 | `x.mp4`'s temporary path is `x.tmp.webm`'s output |
| `Pass.ClashMp4Output` | main.py:203-212 | the output of `x.mp4` is `x.webm` |
| `Pass.ClashTempName` | main.py:285 | the temporary path of `x.webm` is `x.tmp.webm` |
| `Pass.ClashTempOutput` | main.py:203-212 | `x.tmp.webm` is its own output |
| `Rerun.SkipSettles` | main.py:598-601 | a file `should_process_file` declines is settled: its output exists, its record (if any) names that output, and the record is completed or the source is no newer than the output |
| `Rerun.SuccessSettles` | main.py:604-614 | a successful conversion or copy settles its source |
| `Rerun.StepSameAt` | main.py:594-614 | handling one file leaves every public path other than its output and its temporary path as it was |
| `Rerun.StepLoadsElsewhere` | main.py:594-614 | with distinct fingerprints, handling one file leaves what loads for every other source unchanged |
| `Rerun.StepKeepsSettled` | main.py:594-614 | with distinct outputs and fingerprints, handling one file keeps every other settled source settled |
| `Rerun.RecordsAfterTidy` | main.py:386-425 | a conversion keeps the store well keyed, writes no record for a copied file, and writes only records whose source exists |
| `Rerun.StepKeepsTidy` | main.py:594-614 | handling one file keeps the store tidy in that sense |
| `Rerun.StepSettlesSource` | main.py:594-614 | a handled file that neither failed nor was interrupted, and was no bare exit 0, ends settled |
| `Rerun.StepKeepsOthersSettled` | main.py:594-614 | handling one file unsettles no other source |
| `Rerun.SettledAcrossStep` | main.py:590-616 | settling one more file while unsettling no other extends the settled prefix of the walk by one |
| `Rerun.CleanWalkSettles` | main.py:579-616 | a walk without an error or interrupt leaves every walked source settled and the store tidy |
| `Rerun.ReconcileKeepsOutput` | main.py:440-576 | the next reconciliation keeps a source's output with its content, since it is no temporary file, lies in a raw directory and is never an orphan, and it sweeps the output's temporary file |
| `Rerun.RepairKeepsSettledRecord` | main.py:457-486 | the record repair keeps what a settled source's record says: a surviving record has the source's fingerprint and names its output, and a completed one stays completed |
| `Rerun.SettledSurvivesReconcile` | main.py:215-249 | a settled source is up to date after the next reconciliation |
| `Rerun.TidyAfterReconcile` | main.py:457-486 | the reconciliation leaves a tidy store, given one without records for copied files |
| `Rerun.StepSkips` | main.py:598-601 | a file `should_process_file` declines is skipped and changes nothing |
| `Rerun.SkipAll` | main.py:590-616 | a walk over files that are all up to date skips each of them, counts them all as skipped, and changes nothing |
| `Rerun.SettledAllUpToDate` | main.py:640-650 | once every source is settled, the next reconciliation leaves every one of them up to date |
| `Rerun.SecondPassSkipsEverything` | main.py:619-676 | after a pass that ends without an error or interrupt, a second pass over the same raw tree, with any encoder, copier and clock, skips every file, counts `|order|` files as skipped and nothing else, is not interrupted, and changes nothing after its reconciliation |
| `Rerun.FailedBesideOutput` | main.py:215-249 | a changed video (newer than its output, no record under its fingerprint) whose re-conversion exits non-zero counts as an error, keeps the old output, leaves a well-keyed store, and has an `in_progress` record under its fingerprint (main.py:291, 404-408) |
| `Rerun.PromotedRecord` | main.py:470-479 | the next cleanup turns an `in_progress` record whose output exists and whose fingerprint matches into a completed one under the same key |
| `Rerun.PromotedIsSkipped` | main.py:470-479 | the next cleanup promotes an `in_progress` record whose output exists to completed, keeps the output as it was, and the source is then skipped whatever the encoder would do |
| `Rerun.StaleOutputCompleted` | main.py:215-249 | a failed re-conversion beside an old output makes the source count as up to date: the first pass fails it, and every later pass skips it with the old output in place |

## Left out

- ffmpeg and ffprobe: the subprocess, its arguments, the stderr reader
  thread, the progress bar and ETA (`get_video_duration`,
  `parse_time_to_seconds`, main.py:252-388). The encoder's result is the
  `EncoderRun` input, and the time it takes is not modelled.
- The MD5 algorithm: `Fingerprint.Md5Of` names the hashed bytes, so the model
  treats MD5 as collision-free.
- JSON serialisation: unparsable files are the values `Corrupt` and
  `Unreadable`; the lock's `pid` and `hostname` fields are not kept.
- Logging, `argparse` and the root-directory constants. The roots are
  implicit: paths are relative to them.
- The clock: one `now` per pass, given as a parameter. An encoded file
  carries its own mtime.
- The `os.walk` order: it is the `order` input, tied to the raw tree by
  `Pass.Enumerates`.
- `PUBLIC_DIR.mkdir` and `PROGRESS_DIR.mkdir`: the roots always exist in the
  model.
- Exceptions other than KeyboardInterrupt raised out of the steps of `main`
  (main.py:670-672), and I/O errors inside `unlink`, `rename` and `rmtree`.
  Both are modelled as not happening; only the copy and the lock write
  carry a failure input.
- Pass.RunPass: a KeyboardInterrupt can arrive only while ffmpeg runs
  (`EncoderRun.Interrupted`) or while `copy2` runs (`CopyRun.CopyInterrupted`).
  The model does not capture an interrupt anywhere else in steps 1-4
  (main.py:640-650, 670-672). Such places are the sweep, the record repair,
  the directory sync, the orphan loop, the hashing in `should_process_file`,
  and the gap between the rename (main.py:397) and the completed save
  (main.py:400). The script leaves a partly finished state there, whereas the
  model's status-1 pass always leaves exactly the state `Walk` on
  `Reconciled` describes.
- Progress.ProgressStore.SaveProgressMetadata: the write of the JSON file
  (main.py:163-168) has no failure input. In the script it can fail after
  `open(..., 'w')` has already emptied the file, leaving a record that no
  longer parses, and the function then returns False. The model fails only
  when the source cannot be hashed.
- Lower-casing is ASCII only. `suffix` follows the rules of Python before 3.14:
  a leading or trailing dot does not start a suffix.
- File permissions beyond readable or not, symbolic links, and other
  processes writing the trees during a pass.
- Files.PublicDir.MakeDirs: files and directories are separate namespaces in
  the model, so a directory can be created on the path of an existing public
  file; `mkdir(parents=True, exist_ok=True)` raises there instead.
- Reconcile.CreateMissingDirs: the guard `public_path.exists()`
  (main.py:521) is also true for a public file on that path, and the
  `mkdir` of a directory below it raises (main.py:519-522). The model tests
  directories only, creates the directory beside the file and does not
  model the exception that ends the pass with status 1.
- Reconcile.SyncFolderStructure: its promise that the public directories
  become the raw ones also covers a raw directory standing where a public
  file is; the script fails on every pass in that state (see
  CreateMissingDirs).
- Detect.ShouldProcessFile: `output_path.exists()` and the temporary-file
  check (main.py:218, 223) are also true for a directory. The model looks
  for files only, so for a raw directory `clip.webm/` beside `clip.mp4` it
  processes the video where the script would compare the directory's mtime.
- Reconcile.RepairRecord: `output_path.exists()` in the record repair
  (main.py:473) is also true for a directory; the model tests files only.
- Pass.RunPass: the guarantee that every output is in place after exit 0 is
  proved only without a temporary-name clash (`NoTempClash`), and excludes
  bare exit-0 runs. Both exceptions are real behaviours of the code, shown by
  `Pass.TempClashExample` and `Pass.BareExit`. Where a raw directory stands
  on the path of a public file, RunPass can return 0 where the script
  returns 1 (see Reconcile.CreateMissingDirs).
- Pass.ProcessFiles: the same two hypotheses apply to its completeness
  clause.
- Pass.RunSteps: the same two hypotheses apply to its completeness clause.
- Rerun.SecondPassSkipsEverything: proved only under the conditions listed
  in "Behaviours of note". The first pass's reconciliation and walk are
  those of `RunPass`; the lock steps around them are not repeated.
