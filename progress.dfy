/**
 * The progress-metadata store `.progress/<hash>.json` (main.py:137-195): one
 * record per source fingerprint, written by `save_progress_metadata`, read by
 * `load_progress_metadata`, removed by `delete_progress_metadata`.  Records are
 * keyed by the fingerprint of the source's content (main.py:139-143), so two
 * sources whose first 10 MiB agree share one record.
 */
module Progress {
  import opened Wrappers
  import opened Files
  import opened Fingerprint

  datatype Status = InProgress | Completed

  /** The JSON object written at main.py:153-161 (paths relative to the raw and public roots). */
  datatype Record = Record(
    sourcePath: FilePath,
    outputPath: FilePath,
    sourceHash: Digest,
    sourceSize: nat,
    sourceMtime: int,
    status: Status,
    timestamp: int)

  /** One `.json` file of the store: a record, or content `json.load` rejects. */
  datatype MetaFile = Parsed(record: Record) | Corrupt

  type Store = map<Digest, MetaFile>

  /** `get_progress_metadata_path`: the key of a source's record, `None` when its hash cannot be computed. */
  function MetadataKey(raw: Tree, src: FilePath): (r: Option<Digest>)
    ensures r.Some? <==> src in raw.files && raw.files[src].readable
    ensures r.Some? ==> r.value.hashed <= raw.files[src].content
    ensures r.Some? ==> |r.value.hashed| == HashedLength(|raw.files[src].content|)
  {
    FileHash(Lookup(raw, src))
  }

  /** The record `save_progress_metadata` writes for `src` as it currently is. */
  function NewRecord(raw: Tree, src: FilePath, out: FilePath, status: Status, now: int): Record
    requires MetadataKey(raw, src).Some?
  {
    var f := raw.files[src];
    Record(src, out, MetadataKey(raw, src).value, |f.content|, f.mtime, status, now)
  }

  /** Every readable record lies under the key that is its own `source_hash`, as every record this program writes does. */
  ghost predicate WellKeyed(records: Store) {
    forall k :: k in records && records[k].Parsed? ==> records[k].record.sourceHash == k
  }

  /** `load_progress_metadata`: the readable record under the source's key, if any. */
  function LoadProgressMetadata(records: Store, raw: Tree, src: FilePath): (r: Option<Record>)
    ensures r.Some? <==>
      MetadataKey(raw, src).Some? && MetadataKey(raw, src).value in records
      && records[MetadataKey(raw, src).value].Parsed?
    ensures r.Some? ==> r.value == records[MetadataKey(raw, src).value].record
  {
    var key := MetadataKey(raw, src);
    if key.None? || key.value !in records then None
    else match records[key.value]
      case Parsed(rec) => Some(rec)
      case Corrupt => None
  }

  class ProgressStore {
    var records: Store

    ghost predicate Valid()
      reads this
    {
      WellKeyed(records)
    }

    /** An empty `.progress` directory. */
    constructor()
      ensures Valid() && records == map[]
    {
      records := map[];
    }

    /** `save_progress_metadata`: fails (returns false, writes nothing) only when the source cannot be hashed. */
    method SaveProgressMetadata(raw: Tree, src: FilePath, out: FilePath, status: Status, now: int)
      returns (saved: bool)
      requires Valid()
      modifies this
      ensures Valid()
      ensures saved <==> MetadataKey(raw, src).Some?
      ensures saved ==>
        records == old(records)[MetadataKey(raw, src).value := Parsed(NewRecord(raw, src, out, status, now))]
      ensures !saved ==> records == old(records)
    {
      var key := CalculateFileHash(Lookup(raw, src));
      if key.None? {
        return false;
      }
      var hash := CalculateFileHash(Lookup(raw, src));
      var f := raw.files[src];
      records := records[key.value := Parsed(Record(src, out, hash.value, |f.content|, f.mtime, status, now))];
      return true;
    }

    /** `delete_progress_metadata`: removes the record under the source's key, if there is one; always reports success. */
    method DeleteProgressMetadata(raw: Tree, src: FilePath) returns (deleted: bool)
      requires Valid()
      modifies this
      ensures Valid() && deleted
      ensures records == if MetadataKey(raw, src).Some? then old(records) - {MetadataKey(raw, src).value} else old(records)
    {
      var key := CalculateFileHash(Lookup(raw, src));
      if key.Some? && key.value in records {
        records := records - {key.value};
      }
      return true;
    }

    /** `metadata_file.unlink()` on one file of the store, as the cleanup pass does. */
    method Unlink(key: Digest)
      requires Valid()
      modifies this
      ensures Valid()
      ensures records == old(records) - {key}
    {
      records := records - {key};
    }
  }

  /**
   * Two distinct sources that agree on their first 10 MiB share a record: once
   * the second is saved, loading the first yields the second's record.
   */
  lemma SharedPrefixSharesRecord(records: Store, raw: Tree, a: FilePath, b: FilePath,
                                 out: FilePath, status: Status, now: int)
    requires a in raw.files && b in raw.files && raw.files[a].readable && raw.files[b].readable
    requires |raw.files[a].content| >= MaxHashBytes && |raw.files[b].content| >= MaxHashBytes
    requires raw.files[a].content[..MaxHashBytes] == raw.files[b].content[..MaxHashBytes]
    ensures MetadataKey(raw, a) == MetadataKey(raw, b)
    ensures LoadProgressMetadata(
              records[MetadataKey(raw, b).value := Parsed(NewRecord(raw, b, out, status, now))], raw, a)
            == Some(NewRecord(raw, b, out, status, now))
  {
    SamePrefixSameHash(raw.files[a], raw.files[b]);
  }

  /** In a well-keyed store, a loaded record's `source_hash` always equals the source's current fingerprint. */
  lemma LoadedHashMatches(records: Store, raw: Tree, src: FilePath)
    requires WellKeyed(records)
    requires LoadProgressMetadata(records, raw, src).Some?
    ensures MetadataKey(raw, src) == Some(LoadProgressMetadata(records, raw, src).value.sourceHash)
  {
  }

  /** Loading right after a save returns the record just written. */
  lemma LoadAfterSave(records: Store, raw: Tree, src: FilePath, out: FilePath, status: Status, now: int)
    requires MetadataKey(raw, src).Some?
    ensures LoadProgressMetadata(records[MetadataKey(raw, src).value := Parsed(NewRecord(raw, src, out, status, now))], raw, src)
         == Some(NewRecord(raw, src, out, status, now))
  {
  }

  /** Loading right after a delete finds nothing. */
  lemma LoadAfterDelete(records: Store, raw: Tree, src: FilePath)
    requires MetadataKey(raw, src).Some?
    ensures LoadProgressMetadata(records - {MetadataKey(raw, src).value}, raw, src) == None
  {
  }

  /** Writing or removing the record under another key leaves what loads for `src` as it was. */
  lemma LoadElsewhere(records: Store, records': Store, raw: Tree, src: FilePath)
    requires MetadataKey(raw, src).Some? ==>
      (MetadataKey(raw, src).value in records <==> MetadataKey(raw, src).value in records') &&
      (MetadataKey(raw, src).value in records ==> records[MetadataKey(raw, src).value] == records'[MetadataKey(raw, src).value])
    ensures LoadProgressMetadata(records, raw, src) == LoadProgressMetadata(records', raw, src)
  {
  }
}
