/**
 * Producing one output: `convert_video_to_webm` (main.py:282-425) and
 * `copy_file` (main.py:428-437).  The ffmpeg run itself is an input, an
 * EncoderRun describing how the subprocess ended and what it left at the
 * temporary path; everything the script does around it is modelled step by
 * step.
 */
module Convert {
  import opened Wrappers
  import opened Files
  import opened Paths
  import opened Progress

  /** How the encoder step (main.py:299-388) ended. */
  datatype EncoderRun =
    | Exited(code: int, written: Option<File>)   // ffmpeg ran to completion with this exit status
    | Raised(written: Option<File>)              // any other exception while encoding
    | NotInstalled                               // FileNotFoundError: ffmpeg could not be started
    | Interrupted(written: Option<File>)         // KeyboardInterrupt, re-raised to the caller

  /** `True`, `False`, or the re-raised KeyboardInterrupt. */
  datatype Outcome = Success | Failure | Interrupt

  /** The run commits: exit status 0 with a file at the temporary path, which the rename then publishes. */
  predicate Commits(run: EncoderRun) {
    run.Exited? && run.code == 0 && run.written.Some?
  }

  /** What `convert_video_to_webm` returns for a run. */
  function OutcomeOf(run: EncoderRun): Outcome {
    if run.Exited? && run.code == 0 then Success
    else if run.Interrupted? then Interrupt
    else Failure
  }

  /** What remains at the temporary path once the conversion is over. */
  function LeftAtTemp(run: EncoderRun): Option<File> {
    match run
    case Exited(code, written) => if code == 0 then None else written
    case Raised(_) => None
    case NotInstalled => None
    case Interrupted(written) => written
  }

  /** The status the source's record is left with, `None` when the record is deleted. */
  function StatusAfter(run: EncoderRun): Option<Status> {
    match run
    case Exited(code, _) => if code == 0 then Some(Completed) else Some(InProgress)
    case Raised(_) => None
    case NotInstalled => None
    case Interrupted(_) => Some(InProgress)
  }

  /** The store after the conversion of `src` into `out`. */
  function RecordsAfter(records: Store, raw: Tree, src: FilePath, out: FilePath, run: EncoderRun, now: int): Store {
    var key := MetadataKey(raw, src);
    if key.None? then records
    else match StatusAfter(run)
      case Some(st) => records[key.value := Parsed(NewRecord(raw, src, out, st, now))]
      case None => records - {key.value}
  }

  /** Only the last outcome recorded for a source matters. */
  lemma RecordsAfterOverrides(records: Store, raw: Tree, src: FilePath, out: FilePath,
                              first: EncoderRun, second: EncoderRun, now: int)
    ensures RecordsAfter(RecordsAfter(records, raw, src, out, first, now), raw, src, out, second, now)
         == RecordsAfter(records, raw, src, out, second, now)
  {
  }

  /**
   * What a later `load_progress_metadata` finds once the conversion is over:
   * a completed record after success, the in-progress record after an
   * interruption or a non-zero exit (kept for the next pass, main.py:407 and
   * 417), nothing after the two exceptions that delete it (main.py:411-413
   * and 419-422).  The records of other sources are untouched.
   */
  lemma RecordAfterConversion(records: Store, raw: Tree, src: FilePath, out: FilePath, run: EncoderRun, now: int)
    requires MetadataKey(raw, src).Some?
    ensures OutcomeOf(run) == Success ==>
      LoadProgressMetadata(RecordsAfter(records, raw, src, out, run, now), raw, src) == Some(NewRecord(raw, src, out, Completed, now))
    ensures OutcomeOf(run) == Interrupt || (run.Exited? && run.code != 0) ==>
      LoadProgressMetadata(RecordsAfter(records, raw, src, out, run, now), raw, src) == Some(NewRecord(raw, src, out, InProgress, now))
    ensures run.Raised? || run.NotInstalled? ==>
      LoadProgressMetadata(RecordsAfter(records, raw, src, out, run, now), raw, src) == None
    ensures forall k :: k != MetadataKey(raw, src).value ==>
      (k in records <==> k in RecordsAfter(records, raw, src, out, run, now)) &&
      (k in records ==> records[k] == RecordsAfter(records, raw, src, out, run, now)[k])
  {
    var key := MetadataKey(raw, src).value;
    match StatusAfter(run)
    case Some(st) => LoadAfterSave(records, raw, src, out, st, now);
    case None => LoadAfterDelete(records, raw, src);
  }

  /** The public files after the conversion, given the files before it. */
  function FilesAfter(files: map<FilePath, File>, out: FilePath, run: EncoderRun): map<FilePath, File> {
    FilesAfterAt(files, out, TempPath(out), run)
  }

  function FilesAfterAt(files: map<FilePath, File>, out: FilePath, temp: FilePath, run: EncoderRun): map<FilePath, File> {
    var swept := files - {temp};
    var published := if Commits(run) then swept[out := run.written.value] else swept;
    if LeftAtTemp(run).Some? then published[temp := LeftAtTemp(run).value] else published
  }

  /**
   * The final path holds the encoder's file exactly when the run commits and
   * is otherwise as it was; the temporary path holds what LeftAtTemp says;
   * every other public file is untouched.
   */
  lemma FilesAfterShape(files: map<FilePath, File>, out: FilePath, run: EncoderRun)
    ensures Commits(run) ==> out in FilesAfter(files, out, run) && FilesAfter(files, out, run)[out] == run.written.value
    ensures !Commits(run) ==> SameAt(FilesAfter(files, out, run), files, out)
    ensures LeftAtTemp(run).Some? ==>
      TempPath(out) in FilesAfter(files, out, run) && FilesAfter(files, out, run)[TempPath(out)] == LeftAtTemp(run).value
    ensures LeftAtTemp(run).None? ==> TempPath(out) !in FilesAfter(files, out, run)
    ensures forall p :: p != out && p != TempPath(out) ==> SameAt(FilesAfter(files, out, run), files, p)
  {
    TempPathShape(out);
  }

  /**
   * The paths a conversion adds and removes: it adds at most the output, and
   * the temporary file only when it does not succeed; it removes at most the
   * temporary file; after a success the output is in place unless the
   * encoder left no file.
   */
  lemma ConversionFrame(files: map<FilePath, File>, out: FilePath, run: EncoderRun)
    ensures forall p :: p in FilesAfter(files, out, run) ==>
      p in files || p == out || (p == TempPath(out) && OutcomeOf(run) != Success)
    ensures forall p :: p in files && p != TempPath(out) ==> p in FilesAfter(files, out, run)
    ensures OutcomeOf(run) == Success && run != Exited(0, None) ==> out in FilesAfter(files, out, run)
  {
    FilesAfterShape(files, out, run);
  }

  /** main.py:289-297: create the output directory, record the source as in progress, remove a stale temporary file. */
  method PrepareConversion(raw: Tree, src: FilePath, out: FilePath, temp: FilePath, now: int, store: ProgressStore, pub: PublicDir)
    requires store.Valid() && pub.Valid()
    modifies store, pub
    ensures store.Valid() && pub.Valid()
    ensures pub.dirs == old(pub.dirs) + DirsOf(out.dir)
    ensures pub.files == old(pub.files) - {temp}
    ensures store.records == RecordsAfter(old(store.records), raw, src, out, Exited(1, None), now)
  {
    pub.MakeDirs(out.dir);
    var _ := store.SaveProgressMetadata(raw, src, out, InProgress, now);
    if temp in pub.files {
      pub.Unlink(temp);
    }
  }

  /** main.py:390-403: on exit status 0, rename the temporary file over the output, then record completion. */
  method CommitConversion(raw: Tree, src: FilePath, out: FilePath, temp: FilePath, now: int, store: ProgressStore, pub: PublicDir)
    requires store.Valid() && pub.Valid() && DirsOf(out.dir) <= pub.dirs && temp != out
    modifies store, pub
    ensures store.Valid() && pub.Valid() && pub.dirs == old(pub.dirs)
    ensures pub.files == if temp in old(pub.files)
      then (old(pub.files) - {temp})[out := old(pub.files)[temp]]
      else old(pub.files)
    ensures MetadataKey(raw, src).Some? ==>
      store.records == old(store.records)[MetadataKey(raw, src).value := Parsed(NewRecord(raw, src, out, Completed, now))]
    ensures MetadataKey(raw, src).None? ==> store.records == old(store.records)
  {
    if temp in pub.files {
      if out in pub.files {
        pub.Unlink(out);
      }
      pub.Rename(temp, out);
    }
    var _ := store.SaveProgressMetadata(raw, src, out, Completed, now);
  }

  /**
   * `convert_video_to_webm`.  The public files become FilesAfter (see
   * FilesAfterShape: only the commit writes the final path), the output's
   * parent directories are created, and the store becomes RecordsAfter.
   */
  method ConvertVideoToWebm(raw: Tree, src: FilePath, out: FilePath, run: EncoderRun, now: int,
                            store: ProgressStore, pub: PublicDir)
    returns (res: Outcome)
    requires store.Valid() && pub.Valid()
    modifies store, pub
    ensures store.Valid() && pub.Valid()
    ensures res == OutcomeOf(run)
    ensures pub.dirs == old(pub.dirs) + DirsOf(out.dir)
    ensures pub.files == FilesAfter(old(pub.files), out, run)
    ensures store.records == RecordsAfter(old(store.records), raw, src, out, run, now)
  {
    var temp := TempPath(out);
    TempPathShape(out);
    PrepareConversion(raw, src, out, temp, now, store, pub);
    res := FinishRun(raw, src, out, temp, run, now, old(pub.files), old(store.records), store, pub);
  }

  /** main.py:299-425 after the encoder has been started: what is done with its result. */
  method FinishRun(raw: Tree, src: FilePath, out: FilePath, temp: FilePath, run: EncoderRun, now: int,
                   ghost files0: map<FilePath, File>, ghost records0: Store,
                   store: ProgressStore, pub: PublicDir)
    returns (res: Outcome)
    requires store.Valid() && pub.Valid() && temp != out && temp.dir == out.dir
    requires DirsOf(out.dir) <= pub.dirs && pub.files == files0 - {temp}
    requires store.records == RecordsAfter(records0, raw, src, out, Exited(1, None), now)
    modifies store, pub
    ensures store.Valid() && pub.Valid()
    ensures res == OutcomeOf(run)
    ensures pub.dirs == old(pub.dirs)
    ensures pub.files == FilesAfterAt(files0, out, temp, run)
    ensures store.records == RecordsAfter(records0, raw, src, out, run, now)
  {
    match run {
      case Exited(code, written) =>
        if written.Some? {
          pub.Write(temp, written.value);
        }
        if code == 0 {
          CommitConversion(raw, src, out, temp, now, store, pub);
          res := Success;
        } else {
          res := Failure;
        }
      case NotInstalled =>
        var _ := store.DeleteProgressMetadata(raw, src);
        res := Failure;
      case Interrupted(written) =>
        if written.Some? {
          pub.Write(temp, written.value);
        }
        res := Interrupt;
      case Raised(written) =>
        if written.Some? {
          pub.Write(temp, written.value);
        }
        var _ := store.DeleteProgressMetadata(raw, src);
        if temp in pub.files {
          pub.Unlink(temp);
        }
        res := Failure;
    }
    RecordsAfterOverrides(records0, raw, src, out, Exited(1, None), run, now);
  }

  /**
   * How `shutil.copy2` (main.py:432) ends once the source could be opened:
   * it completes, raises before the destination is opened, raises after
   * `written` bytes have reached the destination, or is interrupted after
   * `written` bytes.  `copyfile` opens the source before the destination,
   * so a missing or unreadable source always fails before the destination
   * is touched.
   */
  datatype CopyRun =
    | Completes
    | FailsBeforeOpen
    | FailsAfterOpen(written: nat)
    | CopyInterrupted(written: nat)

  /** Whether the source can be opened for reading. */
  predicate CanRead(raw: Tree, src: FilePath) {
    src in raw.files && raw.files[src].readable
  }

  /** What `copy_file` returns; the KeyboardInterrupt is not caught by its `except Exception`. */
  function CopyOutcome(raw: Tree, src: FilePath, run: CopyRun): Outcome {
    if !CanRead(raw, src) then Failure
    else match run
      case Completes => Success
      case FailsBeforeOpen => Failure
      case FailsAfterOpen(_) => Failure
      case CopyInterrupted(_) => Interrupt
  }

  /** The destination file a copy leaves after `written` bytes: that prefix of the source, stamped `now`. */
  function Partial(f: File, written: nat, now: int): File {
    File(f.content[..if written < |f.content| then written else |f.content|], now, true)
  }

  /** The public files after `copy_file`: a full copy keeps the source's mtime (copy2), a broken one leaves a partial file. */
  function CopiedFiles(files: map<FilePath, File>, raw: Tree, src: FilePath, out: FilePath, run: CopyRun, now: int): map<FilePath, File> {
    if !CanRead(raw, src) then files
    else match run
      case Completes => files[out := raw.files[src]]
      case FailsBeforeOpen => files
      case FailsAfterOpen(n) => files[out := Partial(raw.files[src], n, now)]
      case CopyInterrupted(n) => files[out := Partial(raw.files[src], n, now)]
  }

  /**
   * A copy reports success exactly when the destination then holds the
   * source's bytes with the source's mtime; an interrupted or failed copy
   * that got past opening leaves a prefix of the source's bytes, stamped
   * `now`, at the destination, and no other path changes.
   */
  lemma CopyShape(files: map<FilePath, File>, raw: Tree, src: FilePath, out: FilePath, run: CopyRun, now: int)
    ensures CopyOutcome(raw, src, run) == Success <==>
      CanRead(raw, src) && out in CopiedFiles(files, raw, src, out, run, now) &&
      CopiedFiles(files, raw, src, out, run, now)[out] == raw.files[src] && run.Completes?
    ensures CopyOutcome(raw, src, run) != Success && out in CopiedFiles(files, raw, src, out, run, now) ==>
      SameAt(CopiedFiles(files, raw, src, out, run, now), files, out) ||
      (CopiedFiles(files, raw, src, out, run, now)[out].mtime == now &&
       CopiedFiles(files, raw, src, out, run, now)[out].content <= raw.files[src].content)
    ensures CopyOutcome(raw, src, run) == Interrupt <==> CanRead(raw, src) && run.CopyInterrupted?
    ensures forall p :: p != out ==> SameAt(CopiedFiles(files, raw, src, out, run, now), files, p)
  {
  }

  /** The paths a copy adds and removes: it adds at most the destination, removes nothing, and a success leaves the destination in place. */
  lemma CopyFrame(files: map<FilePath, File>, raw: Tree, src: FilePath, out: FilePath, run: CopyRun, now: int)
    ensures forall p :: p in CopiedFiles(files, raw, src, out, run, now) ==> p in files || p == out
    ensures forall p :: p in files ==> p in CopiedFiles(files, raw, src, out, run, now)
    ensures CopyOutcome(raw, src, run) == Success ==> out in CopiedFiles(files, raw, src, out, run, now)
  {
  }

  /**
   * `copy_file`: creates the output's directory, then `shutil.copy2`.  The
   * public files become CopiedFiles and the result is CopyOutcome.
   */
  method CopyFile(raw: Tree, src: FilePath, out: FilePath, run: CopyRun, now: int, pub: PublicDir)
    returns (res: Outcome)
    requires pub.Valid()
    modifies pub
    ensures pub.Valid()
    ensures res == CopyOutcome(raw, src, run)
    ensures pub.dirs == old(pub.dirs) + DirsOf(out.dir)
    ensures pub.files == CopiedFiles(old(pub.files), raw, src, out, run, now)
  {
    pub.MakeDirs(out.dir);
    if !CanRead(raw, src) {
      return Failure;
    }
    var f := raw.files[src];
    match run {
      case Completes =>
        pub.Write(out, f);
        res := Success;
      case FailsBeforeOpen =>
        res := Failure;
      case FailsAfterOpen(n) =>
        pub.Write(out, Partial(f, n, now));
        res := Failure;
      case CopyInterrupted(n) =>
        pub.Write(out, Partial(f, n, now));
        res := Interrupt;
    }
  }
}
