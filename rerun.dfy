/**
 * Running the script twice on an unchanged raw tree.  The progress store and
 * the change detection of `should_process_file` (main.py:215-249) exist so
 * that a second pass does no work: once a pass has ended without an error
 * and without an interrupt (exit status 0, main.py:664-669), the next pass
 * over the same raw tree skips every file and changes nothing.
 *
 * This holds under conditions on the raw tree that the script takes for
 * granted: distinct sources have distinct outputs (no `x.mp4` beside
 * `x.avi`) and distinct fingerprints (no two sources sharing their first
 * 10 MiB), no output carries the temporary suffix `.tmp.webm`, every source
 * can be read, and no readable record lies under the fingerprint of a file
 * that is copied rather than converted.  A video whose encoder exits with
 * status 0 without writing a file (BareExit) is reported as converted
 * although no output exists, and is converted again on the next pass.
 */
module Rerun {
  import opened Wrappers
  import opened Files
  import opened Paths
  import opened Progress
  import opened Detect
  import opened Convert
  import opened Reconcile
  import opened Pass

  /** Distinct raw files have distinct outputs, and no output matches the sweep's `*.tmp.webm`. */
  ghost predicate DistinctOutputs(raw: Tree) {
    && (forall a, b :: a in raw.files && b in raw.files && OutputFor(a) == OutputFor(b) ==> a == b)
    && (forall s :: s in raw.files ==> !IsTempName(OutputFor(s).name))
  }

  /** Every raw file can be read, and distinct raw files have distinct fingerprints. */
  ghost predicate Fingerprinted(raw: Tree) {
    && (forall s :: s in raw.files ==> raw.files[s].readable)
    && (forall a, b :: a in raw.files && b in raw.files && MetadataKey(raw, a) == MetadataKey(raw, b) ==> a == b)
  }

  ghost predicate Quiet(raw: Tree) {
    DistinctOutputs(raw) && Fingerprinted(raw)
  }

  /** No readable record lies under the fingerprint of a file that is copied. */
  ghost predicate NoCopyRecords(raw: Tree, records: Store) {
    forall s :: s in raw.files && !IsVideoFile(s) ==> LoadProgressMetadata(records, raw, s).None?
  }

  /** Every readable record names a source that exists, as the repair step of `cleanup_incomplete_conversions` ensures. */
  ghost predicate SourcesExist(raw: Tree, records: Store) {
    forall k :: k in records && records[k].Parsed? ==> ExistsIn(raw, records[k].record.sourcePath)
  }

  ghost predicate Tidy(raw: Tree, records: Store) {
    WellKeyed(records) && NoCopyRecords(raw, records) && SourcesExist(raw, records)
  }

  /**
   * Source `s` is settled in `st`: its output exists, a readable record for
   * it names that output, and either the record is completed or the source
   * is no newer than the output.  Unlike UpToDate it says nothing about the
   * temporary file, which the next sweep removes, and it survives the repair
   * of in-progress records.
   */
  ghost predicate Settled(raw: Tree, s: FilePath, st: State)
    requires s in raw.files
  {
    var out := OutputFor(s);
    var meta := LoadProgressMetadata(st.records, raw, s);
    && out in st.files
    && (meta.Some? ==> meta.value.outputPath == out)
    && ((meta.Some? && meta.value.status == Completed) || raw.files[s].mtime <= st.files[out].mtime)
  }

  /** A source the walk skips was settled. */
  lemma SkipSettles(raw: Tree, src: FilePath, st: State)
    requires src in raw.files && !ShouldProcessFile(raw, src, OutputFor(src), st.files, st.records)
    ensures Settled(raw, src, st)
  {
  }

  /**
   * A source that is converted or copied without failure, interrupt or bare
   * exit 0 is settled afterwards: a video has its output and a completed
   * record, a copy has its output with the source's own mtime.
   */
  lemma SuccessSettles(raw: Tree, src: FilePath, run: EncoderRun, copy: CopyRun, now: int, st: State, r: StepResult)
    requires src in raw.files && raw.files[src].readable && r == Step(raw, src, run, copy, now, st)
    requires NoCopyRecords(raw, st.records) && !(IsVideoFile(src) && run == Exited(0, None))
    requires r.handled == Converted || r.handled == Copied
    ensures Settled(raw, src, r.after)
  {
    var out := OutputFor(src);
    if IsVideoFile(src) {
      assert r.after.files == FilesAfter(st.files, out, run);
      assert r.after.records == RecordsAfter(st.records, raw, src, out, run, now);
      assert OutcomeOf(run) == Success;
      FilesAfterShape(st.files, out, run);
      RecordAfterConversion(st.records, raw, src, out, run, now);
    } else {
      assert r.after.files == CopiedFiles(st.files, raw, src, out, copy, now);
      assert r.after.records == st.records;
      assert CopyOutcome(raw, src, copy) == Success;
      CopyShape(st.files, raw, src, out, copy, now);
    }
  }

  /** A step changes the public files only at its source's output and temporary file. */
  lemma StepSameAt(raw: Tree, src: FilePath, run: EncoderRun, copy: CopyRun, now: int, st: State, r: StepResult, p: FilePath)
    requires src in raw.files && r == Step(raw, src, run, copy, now, st)
    requires p != OutputFor(src) && p != TempPath(OutputFor(src))
    ensures SameAt(r.after.files, st.files, p)
  {
    var out := OutputFor(src);
    if !ShouldProcessFile(raw, src, out, st.files, st.records) {
    } else if IsVideoFile(src) {
      assert r.after.files == FilesAfter(st.files, out, run);
      FilesAfterShape(st.files, out, run);
    } else {
      assert r.after.files == CopiedFiles(st.files, raw, src, out, copy, now);
      CopyShape(st.files, raw, src, out, copy, now);
    }
  }

  /** A step for another source leaves what loads for `s` as it was. */
  lemma StepLoadsElsewhere(raw: Tree, src: FilePath, run: EncoderRun, copy: CopyRun, now: int, st: State, r: StepResult,
                           s: FilePath)
    requires src in raw.files && s in raw.files && s != src && Fingerprinted(raw)
    requires r == Step(raw, src, run, copy, now, st)
    ensures LoadProgressMetadata(r.after.records, raw, s) == LoadProgressMetadata(st.records, raw, s)
  {
    StepRecords(raw, src, run, copy, now, st, r);
    LoadElsewhere(st.records, r.after.records, raw, s);
  }

  /** A step for another source keeps `s` settled. */
  lemma StepKeepsSettled(raw: Tree, src: FilePath, run: EncoderRun, copy: CopyRun, now: int, st: State, r: StepResult,
                         s: FilePath)
    requires src in raw.files && s in raw.files && s != src && Quiet(raw)
    requires r == Step(raw, src, run, copy, now, st) && Settled(raw, s, st)
    ensures Settled(raw, s, r.after)
  {
    TempPathShape(OutputFor(src));
    StepSameAt(raw, src, run, copy, now, st, r, OutputFor(s));
    StepLoadsElsewhere(raw, src, run, copy, now, st, r, s);
  }

  /** What the conversion of a video writes to the store keeps it tidy: its own record, under its own key. */
  lemma RecordsAfterTidy(records: Store, raw: Tree, src: FilePath, out: FilePath, run: EncoderRun, now: int)
    requires src in raw.files && IsVideoFile(src) && Fingerprinted(raw) && Tidy(raw, records)
    ensures Tidy(raw, RecordsAfter(records, raw, src, out, run, now))
  {
    var after := RecordsAfter(records, raw, src, out, run, now);
    var key := MetadataKey(raw, src);
    forall k | k in after && after[k].Parsed?
      ensures after[k].record.sourceHash == k && ExistsIn(raw, after[k].record.sourcePath)
    {
      if key.Some? && k == key.value {
        assert after[k].record == NewRecord(raw, src, out, StatusAfter(run).value, now);
      } else {
        assert after[k] == records[k];
      }
    }
    forall s | s in raw.files && !IsVideoFile(s)
      ensures LoadProgressMetadata(after, raw, s).None?
    {
      assert MetadataKey(raw, s) != key;
      LoadElsewhere(records, after, raw, s);
    }
  }

  /** Every step keeps the store tidy. */
  lemma StepKeepsTidy(raw: Tree, src: FilePath, run: EncoderRun, copy: CopyRun, now: int, st: State, r: StepResult)
    requires src in raw.files && Fingerprinted(raw) && Tidy(raw, st.records)
    requires r == Step(raw, src, run, copy, now, st)
    ensures Tidy(raw, r.after.records)
  {
    var out := OutputFor(src);
    if ShouldProcessFile(raw, src, out, st.files, st.records) && IsVideoFile(src) {
      assert r.after.records == RecordsAfter(st.records, raw, src, out, run, now);
      RecordsAfterTidy(st.records, raw, src, out, run, now);
    } else {
      assert r.after.records == st.records;
    }
  }

  /** A step that neither fails nor is interrupted leaves its source settled, whether it skipped it or not. */
  lemma StepSettlesSource(raw: Tree, src: FilePath, run: EncoderRun, copy: CopyRun, now: int, st: State, r: StepResult)
    requires src in raw.files && raw.files[src].readable && r == Step(raw, src, run, copy, now, st)
    requires NoCopyRecords(raw, st.records) && !(IsVideoFile(src) && run == Exited(0, None))
    requires r.handled != Failed && r.handled != Stopped
    ensures Settled(raw, src, r.after)
  {
    if !ShouldProcessFile(raw, src, OutputFor(src), st.files, st.records) {
      SkipSettles(raw, src, st);
    } else {
      SuccessSettles(raw, src, run, copy, now, st, r);
    }
  }

  /** Every source at a position below `i` is settled. */
  ghost predicate SettledUpTo(raw: Tree, order: seq<FilePath>, i: nat, st: State)
    requires i <= |order| && forall j :: 0 <= j < |order| ==> order[j] in raw.files
  {
    forall j :: 0 <= j < i ==> Settled(raw, order[j], st)
  }

  /** Every source other than `src` that is settled in `st` is settled in `after`. */
  ghost predicate OthersStaySettled(raw: Tree, src: FilePath, st: State, after: State) {
    forall s :: s in raw.files && s != src && Settled(raw, s, st) ==> Settled(raw, s, after)
  }

  /** A step on `src` unsettles no other source. */
  lemma StepKeepsOthersSettled(raw: Tree, src: FilePath, run: EncoderRun, copy: CopyRun, now: int, st: State, r: StepResult)
    requires src in raw.files && Quiet(raw)
    requires r == Step(raw, src, run, copy, now, st)
    ensures OthersStaySettled(raw, src, st, r.after)
  {
    forall s | s in raw.files && s != src && Settled(raw, s, st)
      ensures Settled(raw, s, r.after)
    {
      StepKeepsSettled(raw, src, run, copy, now, st, r, s);
    }
  }

  /** Settling source `i` while unsettling no other source extends the settled prefix by one. */
  lemma SettledAcrossStep(raw: Tree, order: seq<FilePath>, i: nat, st: State, after: State)
    requires i < |order| && forall j :: 0 <= j < |order| ==> order[j] in raw.files
    requires SettledUpTo(raw, order, i, st)
    requires Settled(raw, order[i], after) && OthersStaySettled(raw, order[i], st, after)
    ensures SettledUpTo(raw, order, i + 1, after)
  {
    forall j | 0 <= j < i + 1
      ensures Settled(raw, order[j], after)
    {
      if j < i {
        assert Settled(raw, order[j], st);
      }
    }
  }

  /**
   * A walk from position `i` that ends without an error beyond those in
   * `stats` and without an interrupt leaves every source settled and the
   * store tidy.
   */
  lemma {:induction false} CleanWalkSettles(raw: Tree, order: seq<FilePath>, encode: FilePath -> EncoderRun,
                                            copy: FilePath -> CopyRun, now: int, i: nat, stats: Stats, st: State)
    requires i <= |order| && forall j :: 0 <= j < |order| ==> order[j] in raw.files
    requires Quiet(raw) && forall j :: 0 <= j < |order| ==> !BareExit(encode, order[j])
    requires Tidy(raw, st.records) && SettledUpTo(raw, order, i, st)
    ensures var w := WalkFrom(raw, order, encode, copy, now, i, stats, st);
      !w.interrupted && w.stats.errors == stats.errors ==>
        Tidy(raw, w.after.records) && SettledUpTo(raw, order, |order|, w.after)
    decreases |order| - i
  {
    if i < |order| {
      var src := order[i];
      var r := Step(raw, src, encode(src), copy(src), now, st);
      StepKeepsTidy(raw, src, encode(src), copy(src), now, st, r);
      if r.handled == Failed {
        WalkErrorsGrow(raw, order, encode, copy, now, i + 1, Tally(stats, r.handled), r.after);
      } else if r.handled != Stopped {
        StepSettlesSource(raw, src, encode(src), copy(src), now, st, r);
        StepKeepsOthersSettled(raw, src, encode(src), copy(src), now, st, r);
        SettledAcrossStep(raw, order, i, st, r.after);
        CleanWalkSettles(raw, order, encode, copy, now, i + 1, Tally(stats, r.handled), r.after);
      }
    }
  }

  /** The reconciliation keeps a public file that is no temporary file, lies in a raw directory and is a source's output. */
  lemma ReconcileKeepsOutput(raw: Tree, now: int, st: State, s: FilePath)
    requires WellFormedTree(raw) && s in raw.files && !IsTempName(OutputFor(s).name) && OutputFor(s) in st.files
    ensures OutputFor(s) in Reconciled(raw, now, st).files
    ensures Reconciled(raw, now, st).files[OutputFor(s)] == st.files[OutputFor(s)]
    ensures TempPath(OutputFor(s)) !in Reconciled(raw, now, st).files
  {
    var out := OutputFor(s);
    DirsOfFileInTree(raw.files, raw.dirs, s);
    DirsOfShape(s.dir);
    assert out.dir == s.dir;
    OutputIsKept(raw, s);
    TempPathShape(out);
  }

  /**
   * The metadata repair keeps what a settled source's record says: a record
   * for `s` that survives still has the source's fingerprint and names `out`,
   * and a completed one survives as completed.
   */
  lemma RepairKeepsSettledRecord(raw: Tree, files: map<FilePath, File>, records: Store, now: int, s: FilePath, out: FilePath)
    requires WellKeyed(records) && SourcesExist(raw, records) && out in files
    requires LoadProgressMetadata(records, raw, s).Some? ==> LoadProgressMetadata(records, raw, s).value.outputPath == out
    ensures var m' := LoadProgressMetadata(RepairStore(raw, files, records, now), raw, s);
      m'.Some? ==> MetadataKey(raw, s) == Some(m'.value.sourceHash) && m'.value.outputPath == out
    ensures var m := LoadProgressMetadata(records, raw, s);
      var m' := LoadProgressMetadata(RepairStore(raw, files, records, now), raw, s);
      m.Some? && m.value.status == Completed ==> m'.Some? && m'.value.status == Completed
  {
    var key := MetadataKey(raw, s);
    if key.Some? && key.value in RepairStore(raw, files, records, now) {
      RepairKeepsKey(raw, files, records, key.value, now);
    }
  }

  /**
   * The reconciliation at the start of the next pass leaves a settled source
   * up to date: its output stays, its temporary file is swept, and its record
   * is kept, promoted with the same fingerprint and output, or removed only
   * when it was in progress and the source no newer than the output.
   */
  lemma SettledSurvivesReconcile(raw: Tree, now: int, st: State, s: FilePath)
    requires WellFormedTree(raw) && s in raw.files && !IsTempName(OutputFor(s).name)
    requires WellKeyed(st.records) && SourcesExist(raw, st.records) && Settled(raw, s, st)
    ensures UpToDate(raw, s, OutputFor(s), Reconciled(raw, now, st).files, Reconciled(raw, now, st).records)
  {
    var out := OutputFor(s);
    ReconcileKeepsOutput(raw, now, st, s);
    assert out in st.files - TempFiles(st.files);
    RepairKeepsSettledRecord(raw, st.files - TempFiles(st.files), st.records, now, s, out);
  }

  /** The reconciliation leaves a store that is tidy, provided no copied file had a readable record. */
  lemma TidyAfterReconcile(raw: Tree, now: int, st: State)
    requires WellKeyed(st.records) && NoCopyRecords(raw, st.records)
    ensures Tidy(raw, Reconciled(raw, now, st).records)
  {
    var swept := st.files - TempFiles(st.files);
    var records := Reconciled(raw, now, st).records;
    forall k | k in records && records[k].Parsed?
      ensures records[k].record.sourceHash == k && ExistsIn(raw, records[k].record.sourcePath)
    {
      RepairKeepsKey(raw, swept, st.records, k, now);
      RepairedSourcesExist(raw, swept, st.records, now, k);
    }
    forall s | s in raw.files && !IsVideoFile(s)
      ensures LoadProgressMetadata(records, raw, s).None?
    {
      var key := MetadataKey(raw, s);
      if key.Some? && key.value in st.records {
        assert st.records[key.value] == Corrupt;
      }
    }
  }

  /** Every file from position `i` on is one `should_process_file` declines in `st`. */
  ghost predicate AllUpToDate(raw: Tree, order: seq<FilePath>, i: nat, st: State)
    requires forall j :: 0 <= j < |order| ==> order[j] in raw.files
  {
    forall j :: i <= j < |order| ==> !ShouldProcessFile(raw, order[j], OutputFor(order[j]), st.files, st.records)
  }

  /** A file `should_process_file` declines is skipped and changes nothing. */
  lemma StepSkips(raw: Tree, src: FilePath, run: EncoderRun, copy: CopyRun, now: int, st: State)
    requires src in raw.files && !ShouldProcessFile(raw, src, OutputFor(src), st.files, st.records)
    ensures Step(raw, src, run, copy, now, st) == StepResult(Skipped, st)
  {
  }

  /** A walk over files that are all up to date skips each of them and changes nothing. */
  lemma {:induction false} SkipAll(raw: Tree, order: seq<FilePath>, encode: FilePath -> EncoderRun, copy: FilePath -> CopyRun,
                                   now: int, i: nat, stats: Stats, st: State)
    requires i <= |order| && forall j :: 0 <= j < |order| ==> order[j] in raw.files
    requires AllUpToDate(raw, order, i, st)
    ensures WalkFrom(raw, order, encode, copy, now, i, stats, st)
         == WalkResult(stats.(skipped := stats.skipped + |order| - i), false, st)
    decreases |order| - i
  {
    if i < |order| {
      StepSkips(raw, order[i], encode(order[i]), copy(order[i]), now, st);
      assert Tally(stats, Skipped) == stats.(skipped := stats.skipped + 1);
      SkipAll(raw, order, encode, copy, now, i + 1, Tally(stats, Skipped), st);
    }
  }

  /** Once every source is settled, the next reconciliation leaves every one of them up to date. */
  lemma SettledAllUpToDate(raw: Tree, order: seq<FilePath>, now: int, st: State)
    requires WellFormedTree(raw) && forall j :: 0 <= j < |order| ==> order[j] in raw.files
    requires DistinctOutputs(raw) && WellKeyed(st.records) && SourcesExist(raw, st.records)
    requires SettledUpTo(raw, order, |order|, st)
    ensures AllUpToDate(raw, order, 0, Reconciled(raw, now, st))
  {
    forall j | 0 <= j < |order|
      ensures !ShouldProcessFile(raw, order[j], OutputFor(order[j]), Reconciled(raw, now, st).files,
                                 Reconciled(raw, now, st).records)
    {
      assert Settled(raw, order[j], st);
      SettledSurvivesReconcile(raw, now, st, order[j]);
    }
  }

  /**
   * The property the progress store exists for: after a pass that ends
   * without an error and without an interrupt (exit status 0; steps 1-4 of
   * `main`), a second pass over the same raw tree, whatever its encoder,
   * copier and clock, skips every file and leaves the state the second
   * reconciliation made.
   */
  lemma SecondPassSkipsEverything(raw: Tree, order: seq<FilePath>, encode: FilePath -> EncoderRun, copy: FilePath -> CopyRun,
                                  now: int, encode': FilePath -> EncoderRun, copy': FilePath -> CopyRun, now': int,
                                  st: State)
    requires WellFormedTree(raw) && Enumerates(order, raw) && Quiet(raw)
    requires WellKeyed(st.records) && NoCopyRecords(raw, st.records)
    requires forall s :: s in raw.files ==> !BareExit(encode, s)
    ensures var first := Walk(raw, order, encode, copy, now, Reconciled(raw, now, st));
            var second := Reconciled(raw, now', first.after);
            !first.interrupted && first.stats.errors == 0 ==>
              Walk(raw, order, encode', copy', now', second) == WalkResult(Stats(0, 0, |order|, 0), false, second)
  {
    var start := Reconciled(raw, now, st);
    TidyAfterReconcile(raw, now, st);
    CleanWalkSettles(raw, order, encode, copy, now, 0, Stats(0, 0, 0, 0), start);
    var first := Walk(raw, order, encode, copy, now, start);
    if !first.interrupted && first.stats.errors == 0 {
      var second := Reconciled(raw, now', first.after);
      SettledAllUpToDate(raw, order, now', first.after);
      SkipAll(raw, order, encode', copy', now', 0, Stats(0, 0, 0, 0), second);
    }
  }

  /**
   * A video newer than its output and without a record under its fingerprint
   * is converted again; when ffmpeg exits non-zero the old output stays and
   * the in-progress record is saved under the fingerprint (main.py:291,
   * 404-408).
   */
  lemma FailedBesideOutput(raw: Tree, src: FilePath, st: State, w: File, copy: CopyRun, now: int)
    requires src in raw.files && raw.files[src].readable && IsVideoFile(src) && WellKeyed(st.records)
    requires OutputFor(src) in st.files && TempPath(OutputFor(src)) !in st.files
    requires MetadataKey(raw, src).value !in st.records
    requires raw.files[src].mtime > st.files[OutputFor(src)].mtime
    ensures var r := Step(raw, src, Exited(1, Some(w)), copy, now, st);
            && r.handled == Failed
            && OutputFor(src) in r.after.files && r.after.files[OutputFor(src)] == st.files[OutputFor(src)]
            && WellKeyed(r.after.records) && MetadataKey(raw, src).value in r.after.records
            && r.after.records[MetadataKey(raw, src).value] == Parsed(NewRecord(raw, src, OutputFor(src), InProgress, now))
  {
    var out := OutputFor(src);
    var run := Exited(1, Some(w));
    var key := MetadataKey(raw, src).value;
    var r := Step(raw, src, run, copy, now, st);
    assert ShouldProcessFile(raw, src, out, st.files, st.records);
    FilesAfterShape(st.files, out, run);
    RecordAfterConversion(st.records, raw, src, out, run, now);
    forall k | k in r.after.records && r.after.records[k].Parsed?
      ensures r.after.records[k].record.sourceHash == k
    {
      if k != key {
        assert r.after.records[k] == st.records[k];
      }
    }
  }

  /**
   * The cleanup promotes an in-progress record whose output exists and whose
   * fingerprint matches to a completed one (main.py:470-479).
   */
  lemma PromotedRecord(raw: Tree, src: FilePath, st: State, t: int, now: int)
    requires src in raw.files && raw.files[src].readable
    requires !IsTempName(OutputFor(src).name) && OutputFor(src) in st.files && WellKeyed(st.records)
    requires MetadataKey(raw, src).value in st.records
    requires st.records[MetadataKey(raw, src).value] == Parsed(NewRecord(raw, src, OutputFor(src), InProgress, t))
    ensures MetadataKey(raw, src).value in Reconciled(raw, now, st).records
    ensures Reconciled(raw, now, st).records[MetadataKey(raw, src).value]
         == Parsed(NewRecord(raw, src, OutputFor(src), Completed, now))
  {
    var swept := st.files - TempFiles(st.files);
    assert OutputFor(src) in swept;
    RecoveredRecordIsCompleted(raw, swept, st.records, now, MetadataKey(raw, src).value);
  }

  /**
   * After that promotion the source is skipped, with its output as it was,
   * whatever the encoder would do.
   */
  lemma PromotedIsSkipped(raw: Tree, src: FilePath, st: State, t: int, now: int,
                          run: EncoderRun, copy: CopyRun, now': int)
    requires WellFormedTree(raw) && src in raw.files && raw.files[src].readable
    requires !IsTempName(OutputFor(src).name) && OutputFor(src) in st.files && WellKeyed(st.records)
    requires MetadataKey(raw, src).value in st.records
    requires st.records[MetadataKey(raw, src).value] == Parsed(NewRecord(raw, src, OutputFor(src), InProgress, t))
    ensures var next := Reconciled(raw, now, st);
            && OutputFor(src) in next.files && next.files[OutputFor(src)] == st.files[OutputFor(src)]
            && Step(raw, src, run, copy, now', next) == StepResult(Skipped, next)
  {
    var next := Reconciled(raw, now, st);
    PromotedRecord(raw, src, st, t, now);
    ReconcileKeepsOutput(raw, now, st, src);
    ConvertedIsSkipped(raw, src, OutputFor(src), next.files, next.records, now);
    StepSkips(raw, src, run, copy, now', next);
  }

  /**
   * A conversion that fails beside an old output marks that output completed.
   * A video whose content changed (no record under its new fingerprint, and
   * newer than its output) fails its re-conversion; the next pass's cleanup
   * promotes the in-progress record, and from then on the source is skipped
   * with the old output still in place.
   */
  lemma StaleOutputCompleted(raw: Tree, src: FilePath, st: State, w: File, copy: CopyRun, now: int,
                             now2: int, run2: EncoderRun, copy2: CopyRun, now3: int)
    requires WellFormedTree(raw) && src in raw.files && raw.files[src].readable && IsVideoFile(src)
    requires !IsTempName(OutputFor(src).name) && WellKeyed(st.records)
    requires OutputFor(src) in st.files && TempPath(OutputFor(src)) !in st.files
    requires MetadataKey(raw, src).value !in st.records
    requires raw.files[src].mtime > st.files[OutputFor(src)].mtime
    ensures var r := Step(raw, src, Exited(1, Some(w)), copy, now, st);
            var next := Reconciled(raw, now2, r.after);
            && r.handled == Failed
            && OutputFor(src) in next.files && next.files[OutputFor(src)] == st.files[OutputFor(src)]
            && Step(raw, src, run2, copy2, now3, next) == StepResult(Skipped, next)
  {
    var r := Step(raw, src, Exited(1, Some(w)), copy, now, st);
    FailedBesideOutput(raw, src, st, w, copy, now);
    PromotedIsSkipped(raw, src, r.after, now, now2, run2, copy2, now3);
  }
}
