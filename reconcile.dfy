/**
 * The three reconciliation steps that run before any file is processed:
 * `cleanup_incomplete_conversions` (main.py:440-489), `sync_folder_structure`
 * (main.py:492-531) and `clean_orphaned_files` (main.py:534-576).  Each walks
 * a snapshot taken before it starts changing anything, in whatever order the
 * directory listing yields; the loops below pick the next element with `:|`,
 * and the contracts hold for every order.
 */
module Reconcile {
  import opened Wrappers
  import opened Files
  import opened Paths
  import opened Fingerprint
  import opened Progress

  // ---------------------------------------------------------------------------
  // cleanup_incomplete_conversions
  // ---------------------------------------------------------------------------

  /** The public files matching the sweep's glob `*.tmp.webm`. */
  function TempFiles(files: map<FilePath, File>): set<FilePath>
  {
    set p | p in files && IsTempName(p.name)
  }

  /**
   * What the metadata step does with one `.json` file, given the raw tree and
   * the public files after the sweep: `None` when it is unlinked, otherwise
   * what it holds afterwards.  Unparsable files raise inside the `try` and are
   * left alone; a record whose source is gone is removed; an in-progress record
   * whose output exists is promoted to completed when the source still has the
   * recorded fingerprint and removed otherwise.
   */
  function RepairRecord(raw: Tree, files: map<FilePath, File>, m: MetaFile, now: int): Option<MetaFile> {
    match m
    case Corrupt => Some(Corrupt)
    case Parsed(rec) =>
      if !ExistsIn(raw, rec.sourcePath) then None
      else if rec.status == InProgress && rec.outputPath in files then
        if MetadataKey(raw, rec.sourcePath) == Some(rec.sourceHash)
        then Some(Parsed(NewRecord(raw, rec.sourcePath, rec.outputPath, Completed, now)))
        else None
      else Some(m)
  }

  /** The store after the metadata step. */
  function RepairStore(raw: Tree, files: map<FilePath, File>, records: Store, now: int): Store {
    map k | k in records && RepairRecord(raw, files, records[k], now).Some? :: RepairRecord(raw, files, records[k], now).value
  }

  /** The keys the metadata step unlinks, each counted once in `cleaned_count`. */
  function RemovedKeys(raw: Tree, files: map<FilePath, File>, records: Store, now: int): set<Digest> {
    set k | k in records && RepairRecord(raw, files, records[k], now).None?
  }

  /** A repaired record still lies under its own fingerprint. */
  lemma RepairKeepsKey(raw: Tree, files: map<FilePath, File>, records: Store, k: Digest, now: int)
    requires WellKeyed(records) && k in records
    requires RepairRecord(raw, files, records[k], now).Some?
    ensures RepairRecord(raw, files, records[k], now).value.Parsed? ==>
      RepairRecord(raw, files, records[k], now).value.record.sourceHash == k
  {
  }

  /**
   * `cleanup_incomplete_conversions`.  Every `*.tmp.webm` file goes; then each
   * progress file is repaired as RepairRecord says.  `cleaned` is the number
   * the script logs: one per temporary file and one per unlinked record.
   */
  method CleanupIncompleteConversions(raw: Tree, now: int, store: ProgressStore, pub: PublicDir)
    returns (cleaned: nat)
    requires store.Valid() && pub.Valid()
    modifies store, pub
    ensures store.Valid() && pub.Valid()
    ensures pub.dirs == old(pub.dirs)
    ensures pub.files == old(pub.files) - TempFiles(old(pub.files))
    ensures store.records == RepairStore(raw, pub.files, old(store.records), now)
    ensures cleaned == |TempFiles(old(pub.files))| + |RemovedKeys(raw, pub.files, old(store.records), now)|
  {
    var swept := SweepTempFiles(pub);
    var removed := RepairProgressRecords(raw, now, store, pub.files);
    cleaned := swept + removed;
  }

  /** main.py:447-454: unlink every public file matching `*.tmp.webm`, counting them. */
  method SweepTempFiles(pub: PublicDir) returns (count: nat)
    requires pub.Valid()
    modifies pub
    ensures pub.Valid() && pub.dirs == old(pub.dirs)
    ensures pub.files == old(pub.files) - TempFiles(old(pub.files))
    ensures count == |TempFiles(old(pub.files))|
  {
    var temps := TempFiles(pub.files);
    var todo := temps;
    count := 0;
    while todo != {}
      invariant pub.Valid() && pub.dirs == old(pub.dirs)
      invariant todo <= temps
      invariant forall p :: p in pub.files <==> p in old(pub.files) && (p !in temps || p in todo)
      invariant forall p :: p in pub.files ==> pub.files[p] == old(pub.files)[p]
      invariant count + |todo| == |temps|
      decreases |todo|
    {
      var t :| t in todo;
      pub.Unlink(t);
      todo := todo - {t};
      count := count + 1;
    }
    assert pub.files == old(pub.files) - temps;
  }

  /**
   * main.py:461-486 for one progress file: unlinks it, promotes it to
   * completed, or leaves it, as RepairRecord says.
   */
  method RepairOne(raw: Tree, now: int, store: ProgressStore, files: map<FilePath, File>, k: Digest)
    returns (unlinked: bool)
    requires store.Valid() && k in store.records
    modifies store
    ensures store.Valid()
    ensures unlinked <==> RepairRecord(raw, files, old(store.records)[k], now).None?
    ensures store.records == if unlinked then old(store.records) - {k}
      else old(store.records)[k := RepairRecord(raw, files, old(store.records)[k], now).value]
  {
    unlinked := false;
    match store.records[k] {
      case Corrupt =>
        // json.load raises; the error is logged and the file left alone
      case Parsed(rec) =>
        if !ExistsIn(raw, rec.sourcePath) {
          store.Unlink(k);
          unlinked := true;
        } else if rec.status == InProgress && rec.outputPath in files {
          var current := CalculateFileHash(Lookup(raw, rec.sourcePath));
          if current == Some(rec.sourceHash) {
            var _ := store.SaveProgressMetadata(raw, rec.sourcePath, rec.outputPath, Completed, now);
          } else {
            store.Unlink(k);
            unlinked := true;
          }
        }
    }
  }

  /** The store once the keys outside `todo` have been repaired. */
  function PartlyRepaired(raw: Tree, files: map<FilePath, File>, records: Store, todo: set<Digest>, now: int): Store {
    map k | k in records && (k in todo || RepairRecord(raw, files, records[k], now).Some?) ::
      if k in todo then records[k] else RepairRecord(raw, files, records[k], now).value
  }

  /** The keys outside `todo` that the repair unlinks. */
  function RemovedOutside(raw: Tree, files: map<FilePath, File>, records: Store, todo: set<Digest>, now: int): set<Digest> {
    set k | k in records && k !in todo && RepairRecord(raw, files, records[k], now).None?
  }

  /** Repairing one more key `k` of `todo` unlinks it or replaces it, and nothing else. */
  lemma RepairStep(raw: Tree, files: map<FilePath, File>, records: Store, todo: set<Digest>, k: Digest, now: int)
    requires k in todo && k in records
    ensures RepairRecord(raw, files, records[k], now).None? ==>
      PartlyRepaired(raw, files, records, todo - {k}, now) == PartlyRepaired(raw, files, records, todo, now) - {k}
    ensures RepairRecord(raw, files, records[k], now).Some? ==>
      PartlyRepaired(raw, files, records, todo - {k}, now)
      == PartlyRepaired(raw, files, records, todo, now)[k := RepairRecord(raw, files, records[k], now).value]
    ensures RemovedOutside(raw, files, records, todo - {k}, now)
      == RemovedOutside(raw, files, records, todo, now)
         + (if RepairRecord(raw, files, records[k], now).None? then {k} else {})
    ensures k !in RemovedOutside(raw, files, records, todo, now)
  {
  }

  /** Before the pass nothing is repaired; after it everything is. */
  lemma RepairBounds(raw: Tree, files: map<FilePath, File>, records: Store, now: int)
    ensures PartlyRepaired(raw, files, records, records.Keys, now) == records
    ensures RemovedOutside(raw, files, records, records.Keys, now) == {}
    ensures PartlyRepaired(raw, files, records, {}, now) == RepairStore(raw, files, records, now)
    ensures RemovedOutside(raw, files, records, {}, now) == RemovedKeys(raw, files, records, now)
  {
  }

  /**
   * main.py:457-486: the metadata pass over a snapshot of the store.  Each file
   * only ever rewrites or unlinks itself (a promoted record is saved under the
   * key of its recorded fingerprint, which is its own key), so the order of
   * the listing does not matter.
   */
  method RepairProgressRecords(raw: Tree, now: int, store: ProgressStore, files: map<FilePath, File>)
    returns (count: nat)
    requires store.Valid()
    modifies store
    ensures store.Valid()
    ensures store.records == RepairStore(raw, files, old(store.records), now)
    ensures count == |RemovedKeys(raw, files, old(store.records), now)|
  {
    ghost var records0 := store.records;
    var todo := store.records.Keys;
    RepairBounds(raw, files, records0, now);
    count := 0;
    while todo != {}
      invariant store.Valid()
      invariant todo <= records0.Keys
      invariant store.records == PartlyRepaired(raw, files, records0, todo, now)
      invariant count == |RemovedOutside(raw, files, records0, todo, now)|
      decreases |todo|
    {
      var k :| k in todo;
      RepairStep(raw, files, records0, todo, k, now);
      var unlinked := RepairOne(raw, now, store, files, k);
      if unlinked {
        count := count + 1;
      }
      todo := todo - {k};
    }
  }

  /** After the cleanup every readable record names a source that still exists in the raw tree. */
  lemma RepairedSourcesExist(raw: Tree, files: map<FilePath, File>, records: Store, now: int, k: Digest)
    requires k in RepairStore(raw, files, records, now) && RepairStore(raw, files, records, now)[k].Parsed?
    ensures ExistsIn(raw, RepairStore(raw, files, records, now)[k].record.sourcePath)
  {
  }

  /**
   * An in-progress record whose output exists and whose fingerprint still
   * matches becomes completed.  The script intends this for a conversion
   * stopped after the rename but before the completed record was saved; in
   * this model an interrupt cannot fall there, and the state comes instead
   * from a re-conversion that failed beside an old output
   * (`Rerun.StaleOutputCompleted`).
   */
  lemma RecoveredRecordIsCompleted(raw: Tree, files: map<FilePath, File>, records: Store, now: int, k: Digest)
    requires WellKeyed(records) && k in records && records[k].Parsed?
    requires records[k].record.status == InProgress
    requires records[k].record.sourcePath in raw.files && records[k].record.outputPath in files
    requires MetadataKey(raw, records[k].record.sourcePath) == Some(k)
    ensures k in RepairStore(raw, files, records, now)
    ensures RepairStore(raw, files, records, now)[k]
         == Parsed(NewRecord(raw, records[k].record.sourcePath, records[k].record.outputPath, Completed, now))
  {
  }

  // ---------------------------------------------------------------------------
  // sync_folder_structure
  // ---------------------------------------------------------------------------

  /** The public files that survive the folder sync: those whose directory exists in the raw tree. */
  function FilesInDirs(files: map<FilePath, File>, dirs: set<DirPath>): map<FilePath, File>
  {
    map p | p in files && (p.dir == [] || p.dir in dirs) :: files[p]
  }

  /**
   * `sync_folder_structure`: the public directories become exactly the raw
   * ones, and a public file survives exactly when its directory exists in the
   * raw tree.
   */
  method SyncFolderStructure(raw: Tree, pub: PublicDir)
    requires pub.Valid() && WellFormedTree(raw)
    modifies pub
    ensures pub.Valid()
    ensures pub.dirs == raw.dirs
    ensures pub.files == FilesInDirs(old(pub.files), raw.dirs)
  {
    var publicDirs := pub.dirs;
    CreateMissingDirs(raw, pub);
    DeleteExtraDirs(raw, publicDirs, pub);
  }

  /** main.py:518-523: every raw directory missing from the public tree is created. */
  method CreateMissingDirs(raw: Tree, pub: PublicDir)
    requires pub.Valid() && WellFormedTree(raw)
    modifies pub
    ensures pub.Valid()
    ensures pub.dirs == old(pub.dirs) + raw.dirs
    ensures pub.files == old(pub.files)
  {
    var todo := raw.dirs;
    while todo != {}
      invariant pub.Valid() && pub.files == old(pub.files)
      invariant todo <= raw.dirs
      invariant old(pub.dirs) + (raw.dirs - todo) <= pub.dirs <= old(pub.dirs) + raw.dirs
      decreases |todo|
    {
      var d :| d in todo;
      todo := todo - {d};
      if d !in pub.dirs {
        DirsOfDirInTree(raw.files, raw.dirs, d);
        DirsOfShape(d);
        pub.MakeDirs(d);
      }
    }
  }

  /**
   * main.py:525-531: each directory of the snapshot `publicDirs` that is not a
   * raw directory is removed with its contents, unless an earlier removal
   * already took it.
   */
  method DeleteExtraDirs(raw: Tree, publicDirs: set<DirPath>, pub: PublicDir)
    requires pub.Valid() && WellFormedTree(raw)
    requires pub.dirs == publicDirs + raw.dirs
    modifies pub
    ensures pub.Valid()
    ensures pub.dirs == raw.dirs
    ensures pub.files == FilesInDirs(old(pub.files), raw.dirs)
  {
    ghost var files1 := pub.files;
    var todo := publicDirs;
    while todo != {}
      invariant pub.Valid()
      invariant todo <= publicDirs
      invariant raw.dirs <= pub.dirs <= publicDirs + raw.dirs
      invariant forall e :: e in publicDirs - todo && e !in raw.dirs ==> e !in pub.dirs
      invariant forall p :: p in files1 && (p.dir == [] || p.dir in raw.dirs) ==> p in pub.files
      invariant forall p :: p in pub.files ==> p in files1 && pub.files[p] == files1[p]
      decreases |todo|
    {
      var d :| d in todo;
      todo := todo - {d};
      if d !in raw.dirs && d in pub.dirs {
        forall x | x in raw.dirs && IsPrefix(d, x)
          ensures false
        {
          PrefixOfDirIsDir(raw.files, raw.dirs, d, x);
        }
        forall p | p in files1 && p.dir in raw.dirs && IsPrefix(d, p.dir)
          ensures false
        {
          PrefixOfDirIsDir(raw.files, raw.dirs, d, p.dir);
        }
        assert IsPrefix(d, d);
        pub.RemoveTree(d);
      }
    }
    forall p | p in pub.files
      ensures p.dir == [] || p.dir in raw.dirs
    {
      if p.dir != [] {
        assert p.dir[..|p.dir|] == p.dir;
      }
    }
    assert pub.files == FilesInDirs(files1, raw.dirs);
  }

  // ---------------------------------------------------------------------------
  // clean_orphaned_files
  // ---------------------------------------------------------------------------

  /** `raw_files` of `clean_orphaned_files`, built from the given raw paths. */
  function KeepSetOf(srcs: set<FilePath>): set<FilePath> {
    srcs + set r | r in srcs && IsVideoFile(r) :: PathWithSuffix(r, Webm)
  }

  /** Every raw file, plus the `.webm` name of every raw video (main.py:542-553). */
  function KeepSet(raw: Tree): set<FilePath> {
    KeepSetOf(raw.files.Keys)
  }

  /**
   * Whether `clean_orphaned_files` keeps the public file `p`: it is in
   * `keep`, or its suffix is exactly `.webm` and swapping in some video
   * extension gives a path in `keep`.
   */
  predicate Kept(keep: set<FilePath>, p: FilePath) {
    p in keep || (Suffix(p.name) == Webm && exists ext :: ext in VideoExtensions && PathWithSuffix(p, ext) in keep)
  }

  lemma KeepSetOfAdd(srcs: set<FilePath>, r: FilePath)
    ensures KeepSetOf(srcs + {r}) == KeepSetOf(srcs) + {r} + (if IsVideoFile(r) then {PathWithSuffix(r, Webm)} else {})
  {
  }

  /** main.py:542-553: the set of paths with a raw counterpart, built by walking the raw tree. */
  method BuildKeepSet(raw: Tree) returns (keep: set<FilePath>)
    ensures keep == KeepSet(raw)
  {
    keep := {};
    var todo := raw.files.Keys;
    ghost var done: set<FilePath> := {};
    while todo != {}
      invariant done + todo == raw.files.Keys
      invariant keep == KeepSetOf(done)
      decreases |todo|
    {
      var r :| r in todo;
      KeepSetOfAdd(done, r);
      done := done + {r};
      todo := todo - {r};
      keep := keep + {r} + (if IsVideoFile(r) then {PathWithSuffix(r, Webm)} else {});
    }
  }

  /** main.py:568-572: the loop over VIDEO_EXTENSIONS looking for a source of a `.webm` file. */
  method HasVideoSource(keep: set<FilePath>, p: FilePath) returns (found: bool)
    ensures found <==> exists ext :: ext in VideoExtensions && PathWithSuffix(p, ext) in keep
  {
    found := false;
    var todo := VideoExtensions;
    while todo != {}
      invariant todo <= VideoExtensions
      invariant forall ext :: ext in VideoExtensions - todo ==> PathWithSuffix(p, ext) !in keep
      decreases |todo|
    {
      var ext :| ext in todo;
      if PathWithSuffix(p, ext) in keep {
        found := true;
        break;
      }
      todo := todo - {ext};
    }
  }

  /** main.py:561-572: whether the public file `p` has a raw counterpart. */
  method SourceExists(keep: set<FilePath>, p: FilePath) returns (found: bool)
    ensures found == Kept(keep, p)
  {
    found := p in keep;
    if !found && Suffix(p.name) == Webm {
      found := HasVideoSource(keep, p);
    }
  }

  /** The public files `clean_orphaned_files` leaves. */
  function KeptFiles(files: map<FilePath, File>, keep: set<FilePath>): map<FilePath, File>
  {
    map p | p in files && Kept(keep, p) :: files[p]
  }

  /** The public files once those outside `todo` have been checked. */
  function PartlyCleaned(files: map<FilePath, File>, keep: set<FilePath>, todo: set<FilePath>): map<FilePath, File> {
    map p | p in files && (p in todo || Kept(keep, p)) :: files[p]
  }

  /** Checking one more file `p` of `todo` unlinks it exactly when it has no raw counterpart. */
  lemma CleanStep(files: map<FilePath, File>, keep: set<FilePath>, todo: set<FilePath>, p: FilePath)
    requires p in todo
    ensures Kept(keep, p) ==> PartlyCleaned(files, keep, todo - {p}) == PartlyCleaned(files, keep, todo)
    ensures !Kept(keep, p) ==> PartlyCleaned(files, keep, todo - {p}) == PartlyCleaned(files, keep, todo) - {p}
  {
  }

  /** Before the walk nothing is removed; after it exactly the orphans are. */
  lemma CleanBounds(files: map<FilePath, File>, keep: set<FilePath>)
    ensures PartlyCleaned(files, keep, files.Keys) == files
    ensures PartlyCleaned(files, keep, {}) == KeptFiles(files, keep)
  {
  }

  /** `clean_orphaned_files`: every public file without a raw counterpart is unlinked; directories stay. */
  method CleanOrphanedFiles(raw: Tree, pub: PublicDir)
    requires pub.Valid()
    modifies pub
    ensures pub.Valid() && pub.dirs == old(pub.dirs)
    ensures pub.files == KeptFiles(old(pub.files), KeepSet(raw))
  {
    var keep := BuildKeepSet(raw);
    ghost var files0 := pub.files;
    var todo := pub.files.Keys;
    CleanBounds(files0, keep);
    while todo != {}
      invariant pub.Valid() && pub.dirs == old(pub.dirs)
      invariant pub.files == PartlyCleaned(files0, keep, todo)
      decreases |todo|
    {
      var p :| p in todo;
      CleanStep(files0, keep, todo, p);
      todo := todo - {p};
      var sourceExists := SourceExists(keep, p);
      if !sourceExists {
        pub.Unlink(p);
      }
    }
  }

  /**
   * The `.webm` fallback of main.py:566-572 never keeps a file the first test
   * would delete: a path obtained by swapping a video extension into a `.webm`
   * name is in `raw_files` only if the `.webm` name itself already is.  So a
   * public file survives exactly when it is a raw file or the `.webm` name of a
   * raw video.
   */
  lemma WebmRuleRedundant(raw: Tree, p: FilePath)
    ensures Kept(KeepSet(raw), p) <==> p in KeepSet(raw)
  {
    if Suffix(p.name) == Webm && exists ext :: ext in VideoExtensions && PathWithSuffix(p, ext) in KeepSet(raw) {
      var ext :| ext in VideoExtensions && PathWithSuffix(p, ext) in KeepSet(raw);
      SwappedNameInKeepSet(raw, p, ext);
    }
  }

  /** A `.webm` name whose video-extension twin has a raw counterpart has one itself. */
  lemma SwappedNameInKeepSet(raw: Tree, p: FilePath, ext: string)
    requires Suffix(p.name) == Webm && ext in VideoExtensions && PathWithSuffix(p, ext) in KeepSet(raw)
    ensures p in KeepSet(raw)
  {
    var q := PathWithSuffix(p, ext);
    VideoExtensionsLower();
    StemSuffix(p.name);
    SuffixOfWithSuffix(p.name, ext);
    if q in raw.files {
      assert IsVideoFile(q);
      assert PathWithSuffix(q, Webm) == p;
    } else {
      var r :| r in raw.files && IsVideoFile(r) && q == PathWithSuffix(r, Webm);
      SuffixOfWithSuffix(r.name, Webm);
      assert q == p;
    }
  }

  /** The output `process_files` computes for any raw file is never treated as an orphan. */
  lemma OutputIsKept(raw: Tree, r: FilePath)
    requires r in raw.files
    ensures Kept(KeepSet(raw), OutputFor(r))
  {
    if IsVideoFile(r) && Lower(Suffix(r.name)) != Webm {
      assert OutputFor(r) == PathWithSuffix(r, Webm);
    }
  }
}
