/**
 * One run of the script: `process_files` (main.py:579-616), which walks the
 * raw tree and converts, copies or skips each file, and `main`
 * (main.py:619-676), which takes the lock and runs the four steps in order.
 * The walk order of `os.walk` is the input `order`; the encoder run for each
 * video and the way each copy ends are the inputs `encode` and `copy`.
 *
 * Each method is proved against a function on values: ProcessOne against
 * Step, ProcessFiles against Walk, and RunSteps against Walk after
 * Reconciled (steps 1-3).
 */
module Pass {
  import opened Wrappers
  import opened Files
  import opened Paths
  import opened Progress
  import opened Lock
  import opened Detect
  import opened Convert
  import opened Reconcile

  /** The `stats` dictionary of `process_files`. */
  datatype Stats = Stats(converted: nat, copied: nat, skipped: nat, errors: nat)

  /** The outputs of the sources in `order`. */
  function Outputs(order: seq<FilePath>): set<FilePath> {
    if order == [] then {} else Outputs(order[..|order| - 1]) + {OutputFor(order[|order| - 1])}
  }

  /** The temporary files of the sources in `order`. */
  function Temps(order: seq<FilePath>): set<FilePath> {
    if order == [] then {} else Temps(order[..|order| - 1]) + {TempPath(OutputFor(order[|order| - 1]))}
  }

  /** Every source contributes its output and its temporary file. */
  lemma {:induction false} InOutputs(order: seq<FilePath>, i: nat)
    requires i < |order|
    ensures OutputFor(order[i]) in Outputs(order) && TempPath(OutputFor(order[i])) in Temps(order)
    decreases |order|
  {
    if i < |order| - 1 {
      var init := order[..|order| - 1];
      InOutputs(init, i);
      assert init[i] == order[i];
    }
  }

  /** Only the sources contribute: each output and each temporary file comes from some source. */
  lemma {:induction false} OutputsFromOrder(order: seq<FilePath>, p: FilePath)
    ensures p in Outputs(order) ==> exists i :: 0 <= i < |order| && p == OutputFor(order[i])
    ensures p in Temps(order) ==> exists i :: 0 <= i < |order| && p == TempPath(OutputFor(order[i]))
    decreases |order|
  {
    if order != [] {
      var init := order[..|order| - 1];
      OutputsFromOrder(init, p);
      if p in Outputs(init) {
        var i :| 0 <= i < |init| && p == OutputFor(init[i]);
        assert order[i] == init[i];
      }
      if p in Temps(init) {
        var i :| 0 <= i < |init| && p == TempPath(OutputFor(init[i]));
        assert order[i] == init[i];
      }
    }
  }

  /** The output of each source of `order`, position by position. */
  function OutputSeq(order: seq<FilePath>): (r: seq<FilePath>)
    ensures |r| == |order|
  {
    if order == [] then [] else OutputSeq(order[..|order| - 1]) + [OutputFor(order[|order| - 1])]
  }

  /** Which sources of `order` are bare exit-0 runs, position by position. */
  function BareSeq(order: seq<FilePath>, encode: FilePath -> EncoderRun): (r: seq<bool>)
    ensures |r| == |order|
  {
    if order == [] then [] else BareSeq(order[..|order| - 1], encode) + [BareExit(encode, order[|order| - 1])]
  }

  lemma {:induction false} SeqsAt(order: seq<FilePath>, encode: FilePath -> EncoderRun, j: nat)
    requires j < |order|
    ensures OutputSeq(order)[j] == OutputFor(order[j])
    ensures BareSeq(order, encode)[j] == BareExit(encode, order[j])
    decreases |order|
  {
    if j < |order| - 1 {
      var init := order[..|order| - 1];
      SeqsAt(init, encode, j);
      assert init[j] == order[j];
    }
  }

  /** The outputs `outs[j]` of the first `i` sources are in place, except where `bare[j]` (a bare exit 0). */
  ghost predicate OutputsKept(files: map<FilePath, File>, outs: seq<FilePath>, bare: seq<bool>, i: nat)
    requires i <= |outs| == |bare|
  {
    forall j :: 0 <= j < i && !bare[j] ==> outs[j] in files
  }

  /** With disjoint outputs and temporary files, no source's output is the temporary file of source `i`. */
  lemma OutputsAvoidTemp(order: seq<FilePath>, encode: FilePath -> EncoderRun, i: nat)
    requires i < |order| && Outputs(order) !! Temps(order)
    ensures forall j :: 0 <= j < |order| ==> OutputSeq(order)[j] != TempPath(OutputSeq(order)[i])
  {
    InOutputs(order, i);
    SeqsAt(order, encode, i);
    forall j | 0 <= j < |order|
      ensures OutputSeq(order)[j] != TempPath(OutputSeq(order)[i])
    {
      InOutputs(order, j);
      SeqsAt(order, encode, j);
    }
  }

  /** Handling source `i` keeps the earlier outputs when it removes at most `temp`, which is none of them. */
  lemma KeptAcrossStep(before: map<FilePath, File>, after: map<FilePath, File>, outs: seq<FilePath>, bare: seq<bool>,
                       i: nat, temp: FilePath)
    requires i < |outs| == |bare| && OutputsKept(before, outs, bare, i)
    requires forall p :: p in before && p != temp ==> p in after
    requires forall j :: 0 <= j < |outs| ==> outs[j] != temp
    requires !bare[i] ==> outs[i] in after
    ensures OutputsKept(after, outs, bare, i + 1)
  {
    forall j | 0 <= j < i + 1 && !bare[j]
      ensures outs[j] in after
    {
      if j < i {
        assert outs[j] in before;
      }
    }
  }

  /**
   * A video whose encoder exits with status 0 without leaving a temporary
   * file: `convert_video_to_webm` reports success although no output was
   * produced (main.py:390-403).
   */
  predicate BareExit(encode: FilePath -> EncoderRun, s: FilePath) {
    IsVideoFile(s) && encode(s) == Exited(0, None)
  }

  /**
   * No source's temporary file is another source's output.  It fails for a
   * directory holding both `x.mp4` and `x.tmp.webm` (see TempClashExample).
   */
  ghost predicate NoTempClash(raw: Tree) {
    forall a, b :: a in raw.files && b in raw.files ==> TempPath(OutputFor(a)) != OutputFor(b)
  }

  /** `os.walk` of the raw tree: `order` lists exactly its files. */
  ghost predicate Enumerates(order: seq<FilePath>, raw: Tree) {
    && (forall i :: 0 <= i < |order| ==> order[i] in raw.files)
    && (forall p :: p in raw.files ==> p in order)
  }

  /** How `process_files` handled one source: counted in one of the four statistics, or interrupted. */
  datatype Handled = Skipped | Converted | Copied | Failed | Stopped

  /** The state a pass works on: the public files and directories and the progress store. */
  datatype State = State(files: map<FilePath, File>, dirs: set<DirPath>, records: Store)

  /** How one source was handled, and the state after it. */
  datatype StepResult = StepResult(handled: Handled, after: State)

  /** What `process_files` counts a conversion's or a copy's result as (main.py:605-614). */
  function HandledAs(isVideo: bool, res: Outcome): Handled {
    match res
    case Success => if isVideo then Converted else Copied
    case Failure => Failed
    case Interrupt => Stopped
  }

  /**
   * The body of the walk in `process_files` (main.py:594-614) for one source:
   * skipped when `should_process_file` says it is up to date, otherwise
   * converted (a video) or copied, with the state the conversion or the copy
   * leaves.
   */
  function Step(raw: Tree, src: FilePath, run: EncoderRun, copy: CopyRun, now: int, st: State): StepResult
    requires src in raw.files
  {
    var out := OutputFor(src);
    if !ShouldProcessFile(raw, src, out, st.files, st.records) then StepResult(Skipped, st)
    else if IsVideoFile(src) then
      StepResult(HandledAs(true, OutcomeOf(run)),
                 State(FilesAfter(st.files, out, run), st.dirs + DirsOf(out.dir), RecordsAfter(st.records, raw, src, out, run, now)))
    else
      StepResult(HandledAs(false, CopyOutcome(raw, src, copy)),
                 State(CopiedFiles(st.files, raw, src, out, copy, now), st.dirs + DirsOf(out.dir), st.records))
  }

  /**
   * What one step may do to the public tree.  Only the source's output and its
   * temporary file change; directories are added only along the source's own
   * directory; the temporary file is left only on failure or interrupt; and
   * the output is in place unless the source failed, was interrupted or was a
   * bare exit 0.
   */
  lemma StepFrame(raw: Tree, src: FilePath, run: EncoderRun, copy: CopyRun, now: int, st: State, r: StepResult)
    requires src in raw.files && r == Step(raw, src, run, copy, now, st)
    ensures st.dirs <= r.after.dirs <= st.dirs + DirsOf(src.dir)
    ensures forall p :: p in r.after.files ==>
      p in st.files || p == OutputFor(src) || (p == TempPath(OutputFor(src)) && (r.handled == Failed || r.handled == Stopped))
    ensures forall p :: p in st.files && p != TempPath(OutputFor(src)) ==> p in r.after.files
    ensures r.handled != Failed && r.handled != Stopped && !(IsVideoFile(src) && run == Exited(0, None)) ==>
      OutputFor(src) in r.after.files
  {
    var out := OutputFor(src);
    assert out.dir == src.dir;
    if !ShouldProcessFile(raw, src, out, st.files, st.records) {
      assert r == StepResult(Skipped, st);
    } else if IsVideoFile(src) {
      assert r.after == State(FilesAfter(st.files, out, run), st.dirs + DirsOf(out.dir), RecordsAfter(st.records, raw, src, out, run, now));
      assert r.handled == HandledAs(true, OutcomeOf(run));
      ConversionFrame(st.files, out, run);
    } else {
      assert r.after == State(CopiedFiles(st.files, raw, src, out, copy, now), st.dirs + DirsOf(out.dir), st.records);
      assert r.handled == HandledAs(false, CopyOutcome(raw, src, copy));
      CopyFrame(st.files, raw, src, out, copy, now);
    }
  }

  /**
   * What one step may do to the store, and where an interrupt comes from:
   * only the source's own record can change, and a step is interrupted only
   * by the encoder (a video) or the copy (any other file).
   */
  lemma StepRecords(raw: Tree, src: FilePath, run: EncoderRun, copy: CopyRun, now: int, st: State, r: StepResult)
    requires src in raw.files && r == Step(raw, src, run, copy, now, st)
    ensures r.handled == Stopped ==> if IsVideoFile(src) then run.Interrupted? else copy.CopyInterrupted?
    ensures forall k :: (MetadataKey(raw, src).None? || k != MetadataKey(raw, src).value) ==>
      (k in r.after.records <==> k in st.records) && (k in st.records ==> r.after.records[k] == st.records[k])
  {
    var out := OutputFor(src);
    if ShouldProcessFile(raw, src, out, st.files, st.records) && IsVideoFile(src) {
      assert r.after.records == RecordsAfter(st.records, raw, src, out, run, now);
      if MetadataKey(raw, src).Some? {
        RecordAfterConversion(st.records, raw, src, out, run, now);
      }
    }
  }

  /**
   * How a step is counted (main.py:600-614): skipped, leaving the state as it
   * was, exactly when `should_process_file` declines; otherwise converted or
   * copied exactly when the conversion or the copy succeeds, an error when it
   * fails, and an interrupt when it is interrupted.
   */
  lemma StepOutcome(raw: Tree, src: FilePath, run: EncoderRun, copy: CopyRun, now: int, st: State, r: StepResult)
    requires src in raw.files && r == Step(raw, src, run, copy, now, st)
    ensures var todo := ShouldProcessFile(raw, src, OutputFor(src), st.files, st.records);
      var res := if IsVideoFile(src) then OutcomeOf(run) else CopyOutcome(raw, src, copy);
      && (r.handled == Skipped <==> !todo)
      && (r.handled == Skipped ==> r.after == st)
      && (r.handled == Converted <==> todo && IsVideoFile(src) && res == Success)
      && (r.handled == Copied <==> todo && !IsVideoFile(src) && res == Success)
      && (r.handled == Failed <==> todo && res == Failure)
      && (r.handled == Stopped <==> todo && res == Interrupt)
  {
  }

  /** `process_files` for one source; the state becomes the one Step describes. */
  method ProcessOne(raw: Tree, src: FilePath, run: EncoderRun, copy: CopyRun, now: int,
                    store: ProgressStore, pub: PublicDir)
    returns (h: Handled)
    requires store.Valid() && pub.Valid() && src in raw.files
    modifies store, pub
    ensures store.Valid() && pub.Valid()
    ensures StepResult(h, State(pub.files, pub.dirs, store.records))
         == Step(raw, src, run, copy, now, State(old(pub.files), old(pub.dirs), old(store.records)))
  {
    var isVideo := IsVideoFile(src);
    var out := OutputPath(src, isVideo);
    if !ShouldProcessFile(raw, src, out, pub.files, store.records) {
      h := Skipped;
    } else if isVideo {
      var res := ConvertVideoToWebm(raw, src, out, run, now, store, pub);
      h := HandledAs(true, res);
    } else {
      var res := CopyFile(raw, src, out, copy, now, pub);
      h := HandledAs(false, res);
    }
  }

  /** The statistics after one more source was handled; an interrupted one is not counted. */
  function Tally(s: Stats, h: Handled): (r: Stats)
    ensures h != Stopped ==> r.converted + r.copied + r.skipped + r.errors == s.converted + s.copied + s.skipped + s.errors + 1
    ensures h == Stopped ==> r == s
    ensures r.errors == s.errors + (if h == Failed then 1 else 0)
  {
    match h
    case Skipped => s.(skipped := s.skipped + 1)
    case Converted => s.(converted := s.converted + 1)
    case Copied => s.(copied := s.copied + 1)
    case Failed => s.(errors := s.errors + 1)
    case Stopped => s
  }

  /** Every file is one of `files0`, the output of a source, or (when `bad`) a source's temporary file. */
  ghost predicate Within(files: map<FilePath, File>, files0: map<FilePath, File>, order: seq<FilePath>, bad: bool) {
    forall p :: p in files ==> p in files0 || p in Outputs(order) || (p in Temps(order) && bad)
  }

  /** Handling source `i` adds at most its output and, when things went wrong, its temporary file. */
  lemma WithinAcrossStep(before: map<FilePath, File>, after: map<FilePath, File>, files0: map<FilePath, File>,
                         order: seq<FilePath>, i: nat, bad: bool, bad': bool)
    requires i < |order| && Within(before, files0, order, bad) && (bad ==> bad')
    requires forall p :: p in after ==>
      p in before || p == OutputFor(order[i]) || (p == TempPath(OutputFor(order[i])) && bad')
    ensures Within(after, files0, order, bad')
  {
    InOutputs(order, i);
  }

  /** The result of the walk: the statistics, whether a KeyboardInterrupt ended it, and the state it leaves. */
  datatype WalkResult = WalkResult(stats: Stats, interrupted: bool, after: State)

  /**
   * The walk of `process_files` from position `i` on, with `stats` counted so
   * far: each source is handled by Step in turn and counted, until one is
   * interrupted, which ends the walk uncounted.
   */
  function WalkFrom(raw: Tree, order: seq<FilePath>, encode: FilePath -> EncoderRun, copy: FilePath -> CopyRun,
                    now: int, i: nat, stats: Stats, st: State): WalkResult
    requires i <= |order| && forall j :: 0 <= j < |order| ==> order[j] in raw.files
    decreases |order| - i
  {
    if i == |order| then WalkResult(stats, false, st)
    else
      var r := Step(raw, order[i], encode(order[i]), copy(order[i]), now, st);
      if r.handled == Stopped then WalkResult(stats, true, r.after)
      else WalkFrom(raw, order, encode, copy, now, i + 1, Tally(stats, r.handled), r.after)
  }

  function Walk(raw: Tree, order: seq<FilePath>, encode: FilePath -> EncoderRun, copy: FilePath -> CopyRun,
                now: int, st: State): WalkResult
    requires forall j :: 0 <= j < |order| ==> order[j] in raw.files
  {
    WalkFrom(raw, order, encode, copy, now, 0, Stats(0, 0, 0, 0), st)
  }

  /**
   * What the walk from position `i` on keeps, given that it held for the
   * first `i` sources: every handled source is counted once, directories are
   * added only along raw ones, and each new file is an output or (after an
   * error or interrupt) a temporary file.
   */
  lemma {:induction false} WalkFromFrame(raw: Tree, order: seq<FilePath>, encode: FilePath -> EncoderRun,
                                         copy: FilePath -> CopyRun, now: int, i: nat, stats: Stats, st: State,
                                         dirs0: set<DirPath>, files0: map<FilePath, File>, w: WalkResult)
    requires FileDirsListed(raw) && i <= |order| && forall j :: 0 <= j < |order| ==> order[j] in raw.files
    requires w == WalkFrom(raw, order, encode, copy, now, i, stats, st)
    requires stats.converted + stats.copied + stats.skipped + stats.errors == i
    requires dirs0 <= st.dirs <= dirs0 + raw.dirs
    requires Within(st.files, files0, order, stats.errors > 0)
    ensures !w.interrupted ==> w.stats.converted + w.stats.copied + w.stats.skipped + w.stats.errors == |order|
    ensures w.interrupted ==> w.stats.converted + w.stats.copied + w.stats.skipped + w.stats.errors < |order|
    ensures dirs0 <= w.after.dirs <= dirs0 + raw.dirs
    ensures Within(w.after.files, files0, order, w.interrupted || w.stats.errors > 0)
    decreases |order| - i
  {
    if i < |order| {
      var src := order[i];
      var r := Step(raw, src, encode(src), copy(src), now, st);
      StepFrame(raw, src, encode(src), copy(src), now, st, r);
      var stats' := Tally(stats, r.handled);
      var stopped := r.handled == Stopped;
      WithinAcrossStep(st.files, r.after.files, files0, order, i, stats.errors > 0, stopped || stats'.errors > 0);
      if stopped {
        assert w == WalkResult(stats, true, r.after);
      } else {
        WalkFromFrame(raw, order, encode, copy, now, i + 1, stats', r.after, dirs0, files0, w);
      }
    }
  }

  /**
   * Without an error or an interrupt from position `i` on, and with no output
   * that is also a temporary file, the outputs kept so far stay and each
   * later source's output is added, except after a bare exit status 0.
   */
  lemma {:induction false} WalkFromOutputs(raw: Tree, order: seq<FilePath>, encode: FilePath -> EncoderRun,
                                           copy: FilePath -> CopyRun, now: int, i: nat, stats: Stats, st: State,
                                           outs: seq<FilePath>, bare: seq<bool>, w: WalkResult)
    requires i <= |order| && forall j :: 0 <= j < |order| ==> order[j] in raw.files
    requires outs == OutputSeq(order) && bare == BareSeq(order, encode)
    requires w == WalkFrom(raw, order, encode, copy, now, i, stats, st)
    requires Outputs(order) !! Temps(order) && OutputsKept(st.files, outs, bare, i)
    ensures !w.interrupted && w.stats.errors == stats.errors ==> OutputsKept(w.after.files, outs, bare, |order|)
    decreases |order| - i
  {
    if i < |order| {
      var src := order[i];
      var r := Step(raw, src, encode(src), copy(src), now, st);
      var stats' := Tally(stats, r.handled);
      if r.handled != Stopped && r.handled != Failed {
        StepFrame(raw, src, encode(src), copy(src), now, st, r);
        SeqsAt(order, encode, i);
        OutputsAvoidTemp(order, encode, i);
        KeptAcrossStep(st.files, r.after.files, outs, bare, i, TempPath(outs[i]));
        WalkFromOutputs(raw, order, encode, copy, now, i + 1, stats', r.after, outs, bare, w);
      } else if r.handled == Failed {
        WalkErrorsGrow(raw, order, encode, copy, now, i + 1, stats', r.after);
      }
    }
  }

  /** The error count of a walk never goes down. */
  lemma {:induction false} WalkErrorsGrow(raw: Tree, order: seq<FilePath>, encode: FilePath -> EncoderRun,
                                          copy: FilePath -> CopyRun, now: int, i: nat, stats: Stats, st: State)
    requires i <= |order| && forall j :: 0 <= j < |order| ==> order[j] in raw.files
    ensures WalkFrom(raw, order, encode, copy, now, i, stats, st).stats.errors >= stats.errors
    decreases |order| - i
  {
    if i < |order| {
      var r := Step(raw, order[i], encode(order[i]), copy(order[i]), now, st);
      if r.handled != Stopped {
        WalkErrorsGrow(raw, order, encode, copy, now, i + 1, Tally(stats, r.handled), r.after);
      }
    }
  }

  /**
   * What a walk from `st` that ended in `w` guarantees: each file is counted
   * once until an interrupt ends the walk (the file being handled is not
   * counted); directories are only added, and only raw ones; every file
   * afterwards was there before, or is the output of some source, or its
   * temporary file when something went wrong; and when no error and no
   * interrupt occurred and no output is also some source's temporary file,
   * every source's output exists, except after a bare exit status 0.
   */
  ghost predicate WalkKeeps(raw: Tree, order: seq<FilePath>, encode: FilePath -> EncoderRun, st: State, w: WalkResult) {
    && (!w.interrupted ==> w.stats.converted + w.stats.copied + w.stats.skipped + w.stats.errors == |order|)
    && (w.interrupted ==> w.stats.converted + w.stats.copied + w.stats.skipped + w.stats.errors < |order|)
    && st.dirs <= w.after.dirs <= st.dirs + raw.dirs
    && Within(w.after.files, st.files, order, w.interrupted || w.stats.errors > 0)
    && (Outputs(order) !! Temps(order) && !w.interrupted && w.stats.errors == 0 ==>
          OutputsInPlace(w.after.files, order, encode))
  }

  /** Every walk keeps WalkKeeps. */
  lemma WalkFacts(raw: Tree, order: seq<FilePath>, encode: FilePath -> EncoderRun, copy: FilePath -> CopyRun,
                  now: int, st: State)
    requires FileDirsListed(raw) && forall j :: 0 <= j < |order| ==> order[j] in raw.files
    ensures WalkKeeps(raw, order, encode, st, Walk(raw, order, encode, copy, now, st))
  {
    var w := Walk(raw, order, encode, copy, now, st);
    WalkFromFrame(raw, order, encode, copy, now, 0, Stats(0, 0, 0, 0), st, st.dirs, st.files, w);
    if Outputs(order) !! Temps(order) {
      WalkFromOutputs(raw, order, encode, copy, now, 0, Stats(0, 0, 0, 0), st, OutputSeq(order), BareSeq(order, encode), w);
      if !w.interrupted && w.stats.errors == 0 {
        KeptOutputs(order, encode, w.after.files, OutputSeq(order), BareSeq(order, encode));
      }
    }
  }

  /** Every source's output is in `files`, except after a bare exit status 0. */
  ghost predicate OutputsInPlace(files: map<FilePath, File>, order: seq<FilePath>, encode: FilePath -> EncoderRun) {
    forall s :: s in order && !BareExit(encode, s) ==> OutputFor(s) in files
  }

  /** OutputsKept over the whole of `order`, source by source. */
  lemma KeptOutputs(order: seq<FilePath>, encode: FilePath -> EncoderRun, files: map<FilePath, File>,
                    outs: seq<FilePath>, bare: seq<bool>)
    requires outs == OutputSeq(order) && bare == BareSeq(order, encode)
    requires OutputsKept(files, outs, bare, |order|)
    ensures OutputsInPlace(files, order, encode)
  {
    forall s | s in order && !BareExit(encode, s)
      ensures OutputFor(s) in files
    {
      var j :| 0 <= j < |order| && order[j] == s;
      SeqsAt(order, encode, j);
    }
  }

  /**
   * `process_files`: the statistics, the interrupt and the new state are
   * those of Walk, and WalkKeeps holds of them.
   */
  method ProcessFiles(raw: Tree, order: seq<FilePath>, encode: FilePath -> EncoderRun, copy: FilePath -> CopyRun,
                      now: int, store: ProgressStore, pub: PublicDir)
    returns (stats: Stats, interrupted: bool)
    requires store.Valid() && pub.Valid() && FileDirsListed(raw)
    requires forall i :: 0 <= i < |order| ==> order[i] in raw.files
    modifies store, pub
    ensures store.Valid() && pub.Valid()
    ensures WalkResult(stats, interrupted, State(pub.files, pub.dirs, store.records))
         == Walk(raw, order, encode, copy, now, State(old(pub.files), old(pub.dirs), old(store.records)))
    ensures WalkKeeps(raw, order, encode, State(old(pub.files), old(pub.dirs), old(store.records)),
                      WalkResult(stats, interrupted, State(pub.files, pub.dirs, store.records)))
  {
    stats := Stats(0, 0, 0, 0);
    interrupted := false;
    ghost var whole := Walk(raw, order, encode, copy, now, State(old(pub.files), old(pub.dirs), old(store.records)));
    var i: nat := 0;
    while i < |order|
      invariant i <= |order| && !interrupted
      invariant store.Valid() && pub.Valid()
      invariant whole == WalkFrom(raw, order, encode, copy, now, i, stats, State(pub.files, pub.dirs, store.records))
    {
      var src := order[i];
      var h := ProcessOne(raw, src, encode(src), copy(src), now, store, pub);
      stats := Tally(stats, h);
      interrupted := h == Stopped;
      if interrupted {
        break;
      }
      i := i + 1;
    }
    WalkFacts(raw, order, encode, copy, now, State(old(pub.files), old(pub.dirs), old(store.records)));
  }

  /**
   * Steps 1-3 of `main` as one function: the sweep of temporary files and the
   * repair of the store (`cleanup_incomplete_conversions`), the directory
   * sync (`sync_folder_structure`) and the orphan cleanup
   * (`clean_orphaned_files`).
   */
  function Reconciled(raw: Tree, now: int, st: State): State {
    var swept := st.files - TempFiles(st.files);
    State(KeptFiles(FilesInDirs(swept, raw.dirs), KeepSet(raw)), raw.dirs, RepairStore(raw, swept, st.records, now))
  }

  /**
   * Steps 1-4 of `main` (main.py:640-650) on an existing raw tree: the
   * outcome is Walk on the state Reconciled leaves.  The public directories
   * end up exactly the raw ones; every public file is
   * kept by the orphan rule, or is the output of a source, or (after an
   * error or interrupt) a source's temporary file; and without errors,
   * interrupt or disjointness failure every output is in place.
   */
  method RunSteps(raw: Tree, order: seq<FilePath>, encode: FilePath -> EncoderRun, copy: FilePath -> CopyRun,
                  now: int, store: ProgressStore, pub: PublicDir)
    returns (stats: Stats, interrupted: bool)
    requires store.Valid() && pub.Valid() && WellFormedTree(raw) && Enumerates(order, raw)
    modifies store, pub
    ensures store.Valid() && pub.Valid()
    ensures WalkResult(stats, interrupted, State(pub.files, pub.dirs, store.records))
         == Walk(raw, order, encode, copy, now, Reconciled(raw, now, State(old(pub.files), old(pub.dirs), old(store.records))))
    ensures pub.dirs == raw.dirs
    ensures Accounted(pub.files, raw, order, interrupted || stats.errors > 0)
    ensures Outputs(order) !! Temps(order) && !interrupted && stats.errors == 0 ==> OutputsInPlace(pub.files, order, encode)
  {
    WellFormedListsFileDirs(raw);
    ReconciledWalk(raw, order, encode, copy, now, State(pub.files, pub.dirs, store.records));
    var _ := CleanupIncompleteConversions(raw, now, store, pub);
    ghost var swept := pub.files;
    SyncFolderStructure(raw, pub);
    ghost var synced := pub.files;
    CleanOrphanedFiles(raw, pub);
    ReconciledStages(raw, order, encode, copy, now, State(old(pub.files), old(pub.dirs), old(store.records)), swept, synced,
                     State(pub.files, pub.dirs, store.records));
    stats, interrupted := ProcessFiles(raw, order, encode, copy, now, store, pub);
  }

  /**
   * Every file is kept by the orphan rule, is the output of a source, or
   * (when `bad`) is a source's temporary file.
   */
  ghost predicate Accounted(files: map<FilePath, File>, raw: Tree, order: seq<FilePath>, bad: bool) {
    forall p :: p in files ==> Kept(KeepSet(raw), p) || p in Outputs(order) || (p in Temps(order) && bad)
  }

  /**
   * What steps 1-4 leave: the public directories are exactly the raw ones;
   * every public file is kept by the orphan rule, or is the output of a
   * source, or (after an error or interrupt) a source's temporary file; and
   * without errors, interrupt or a clash of outputs with temporary files,
   * every output is in place.
   */
  lemma ReconciledWalk(raw: Tree, order: seq<FilePath>, encode: FilePath -> EncoderRun, copy: FilePath -> CopyRun,
                       now: int, st: State)
    requires FileDirsListed(raw) && forall j :: 0 <= j < |order| ==> order[j] in raw.files
    ensures var w := Walk(raw, order, encode, copy, now, Reconciled(raw, now, st));
      && w.after.dirs == raw.dirs
      && Accounted(w.after.files, raw, order, w.interrupted || w.stats.errors > 0)
      && (Outputs(order) !! Temps(order) && !w.interrupted && w.stats.errors == 0 ==>
            OutputsInPlace(w.after.files, order, encode))
  {
    var mid := Reconciled(raw, now, st);
    var w := Walk(raw, order, encode, copy, now, mid);
    WalkFacts(raw, order, encode, copy, now, mid);
    WithinAccounted(w.after.files, mid.files, raw, order, w.interrupted || w.stats.errors > 0);
  }

  /** A walk that starts from files the orphan rule keeps leaves only accounted files. */
  lemma WithinAccounted(files: map<FilePath, File>, files0: map<FilePath, File>, raw: Tree, order: seq<FilePath>, bad: bool)
    requires Within(files, files0, order, bad)
    requires forall p :: p in files0 ==> Kept(KeepSet(raw), p)
    ensures Accounted(files, raw, order, bad)
  {
  }

  /** Reconciled, assembled from the states the three steps leave one after the other, and the walk on it. */
  lemma ReconciledStages(raw: Tree, order: seq<FilePath>, encode: FilePath -> EncoderRun, copy: FilePath -> CopyRun, now: int,
                         st: State, swept: map<FilePath, File>, synced: map<FilePath, File>, mid: State)
    requires forall j :: 0 <= j < |order| ==> order[j] in raw.files
    requires swept == st.files - TempFiles(st.files) && synced == FilesInDirs(swept, raw.dirs)
    requires mid == State(KeptFiles(synced, KeepSet(raw)), raw.dirs, RepairStore(raw, swept, st.records, now))
    ensures Walk(raw, order, encode, copy, now, mid) == Walk(raw, order, encode, copy, now, Reconciled(raw, now, st))
  {
  }

  /** Without a temporary-name clash, the outputs and the temporary files of a walk are disjoint. */
  lemma ClashFreeDisjoint(raw: Tree, order: seq<FilePath>)
    requires Enumerates(order, raw) && NoTempClash(raw)
    ensures Outputs(order) !! Temps(order)
  {
    forall p | p in Outputs(order)
      ensures p !in Temps(order)
    {
      OutputsFromOrder(order, p);
      var i :| 0 <= i < |order| && p == OutputFor(order[i]);
      assert order[i] in raw.files;
      assert forall k :: 0 <= k < |order| ==> TempPath(OutputFor(order[k])) != p;
    }
  }

  /** The files a successful pass leaves are all kept by the orphan rule (main.py:534-576). */
  lemma SuccessfulPassKept(raw: Tree, order: seq<FilePath>, files: map<FilePath, File>)
    requires Enumerates(order, raw)
    requires forall p :: p in files ==> Kept(KeepSet(raw), p) || p in Outputs(order)
    ensures forall p :: p in files ==> p in KeepSet(raw)
  {
    forall p | p in files
      ensures p in KeepSet(raw)
    {
      WebmRuleRedundant(raw, p);
      if !Kept(KeepSet(raw), p) {
        OutputsFromOrder(order, p);
        var i :| 0 <= i < |order| && p == OutputFor(order[i]);
        OutputIsKept(raw, order[i]);
      }
    }
  }

  /**
   * `main`.  Exit status 2 exactly when the lock cannot be taken, and then
   * nothing else is touched; otherwise the lock is released on every path.
   * A missing raw directory gives 1 before anything changes.  Otherwise the
   * pass is RunSteps, `stats` and `interrupted` are its result, and the
   * status is 0 exactly when it was neither interrupted nor had an error
   * (main.py:664-669).  Status 0 means
   * the public tree mirrors the raw one: the same directories, no file
   * without a raw counterpart and, when no temporary name clashes with an
   * output, the output of every raw file in place (barring bare exit-0 runs).
   */
  method RunPass(lock: LockFile, store: ProgressStore, pub: PublicDir, raw: Option<Tree>, order: seq<FilePath>,
                 encode: FilePath -> EncoderRun, copy: FilePath -> CopyRun, lockWritable: bool, now: int)
    returns (code: int, stats: Stats, interrupted: bool)
    requires store.Valid() && pub.Valid()
    requires raw.Some? ==> WellFormedTree(raw.value) && Enumerates(order, raw.value)
    modifies lock, store, pub
    ensures store.Valid() && pub.Valid()
    ensures code == 0 || code == 1 || code == 2
    ensures code == 2 <==> Blocks(old(lock.content), now) || !lockWritable
    ensures code == 2 ==> pub.files == old(pub.files) && pub.dirs == old(pub.dirs) && store.records == old(store.records)
    ensures Blocks(old(lock.content), now) ==> lock.content == old(lock.content)
    ensures code != 2 ==> lock.content == None
    ensures raw.None? && code != 2 ==>
      code == 1 && pub.files == old(pub.files) && pub.dirs == old(pub.dirs) && store.records == old(store.records)
    ensures code != 2 && raw.Some? ==>
      WalkResult(stats, interrupted, State(pub.files, pub.dirs, store.records))
        == Walk(raw.value, order, encode, copy, now,
                Reconciled(raw.value, now, State(old(pub.files), old(pub.dirs), old(store.records))))
    ensures code != 2 && raw.Some? ==> (code == 0 <==> !interrupted && stats.errors == 0)
    ensures code == 0 ==> raw.Some? && pub.dirs == raw.value.dirs
    ensures code == 0 ==> forall p :: p in pub.files ==> p in KeepSet(raw.value)
    ensures code == 0 && NoTempClash(raw.value) ==>
      forall s :: s in raw.value.files && !BareExit(encode, s) ==> OutputFor(s) in pub.files
  {
    stats, interrupted := Stats(0, 0, 0, 0), false;
    var acquired := lock.AcquireLock(now, lockWritable);
    if !acquired {
      return 2, stats, interrupted;
    }
    if raw.None? {
      lock.ReleaseLock();
      return 1, stats, interrupted;
    }
    stats, interrupted := RunSteps(raw.value, order, encode, copy, now, store, pub);
    code := if interrupted || stats.errors > 0 then 1 else 0;
    lock.ReleaseLock();
    if code == 0 {
      SuccessfulPassKept(raw.value, order, pub.files);
      if NoTempClash(raw.value) {
        ClashFreeDisjoint(raw.value, order);
      }
    }
  }

  /**
   * A copy that breaks after `shutil.copy2` opened the destination (an I/O
   * error caught at main.py:435, or a KeyboardInterrupt) leaves a truncated
   * file stamped with the current time at the output.  Unless a record
   * shares the source's fingerprint, the mtime rule of `should_process_file`
   * (main.py:246-249) then declines the source on every later pass, although
   * the output is not a copy of it.
   */
  lemma PartialCopyLaterSkipped(raw: Tree, src: FilePath, files: map<FilePath, File>, records: Store,
                                run: CopyRun, now: int)
    requires src in raw.files && raw.files[src].readable
    requires (run.FailsAfterOpen? || run.CopyInterrupted?) && run.written < |raw.files[src].content|
    requires raw.files[src].mtime <= now
    requires LoadProgressMetadata(records, raw, src).None? && TempPath(OutputFor(src)) !in files
    ensures var after := CopiedFiles(files, raw, src, OutputFor(src), run, now);
      && CopyOutcome(raw, src, run) != Success
      && OutputFor(src) in after && after[OutputFor(src)] != raw.files[src]
      && !ShouldProcessFile(raw, src, OutputFor(src), after, records)
  {
    var out := OutputFor(src);
    var after := CopiedFiles(files, raw, src, out, run, now);
    TempPathShape(out);
    assert |after[out].content| == run.written;
  }

  /**
   * A raw file named `*.tmp.webm` is its own output, and the sweep of step 1
   * removes that output again, so every pass converts it anew.
   */
  lemma TempNamedSourceReprocessed(raw: Tree, r: FilePath, files: map<FilePath, File>, records: Store)
    requires r in raw.files && IsTempName(r.name)
    ensures OutputFor(r) == r
    ensures ShouldProcessFile(raw, r, OutputFor(r), files - TempFiles(files), records)
  {
    TempNameIsOwnOutput(r);
  }

  /** `x.mp4` and `x.tmp.webm` side by side: the first one's temporary file is the second one's output. */
  lemma TempClashExample()
    ensures TempPath(OutputFor(FilePath([], "x.mp4"))) == OutputFor(FilePath([], "x.tmp.webm"))
  {
    ClashMp4Output();
    ClashTempName();
    ClashTempOutput();
  }

  lemma ClashMp4Output()
    ensures OutputFor(FilePath([], "x.mp4")) == FilePath([], "x.webm")
  {
    VideoExtensionsLower();
    assert "x.mp4" == "x" + ".mp4";
    LastDotOfAppend("x", ".mp4");
    assert Suffix("x.mp4") == ".mp4";
  }

  lemma ClashTempName()
    ensures TempPath(FilePath([], "x.webm")) == FilePath([], "x.tmp.webm")
  {
    assert "x.webm" == "x" + Webm;
    LastDotOfAppend("x", Webm);
    assert Stem("x.webm") == "x";
  }

  lemma ClashTempOutput()
    ensures OutputFor(FilePath([], "x.tmp.webm")) == FilePath([], "x.tmp.webm")
  {
    VideoExtensionsLower();
    assert "x.tmp.webm" == "x.tmp" + Webm;
    LastDotOfAppend("x.tmp", Webm);
    assert Suffix("x.tmp.webm") == Webm;
    LowerNoUpper(Webm);
  }
}
