/**
 * Change detection, `should_process_file` (main.py:215-249): an ordered list
 * of rules deciding whether a source must be converted or copied again.
 */
module Detect {
  import opened Wrappers
  import opened Files
  import opened Paths
  import opened Fingerprint
  import opened Progress

  /**
   * When a source counts as up to date: its output exists with no temporary
   * file beside it, any readable record for the source names this fingerprint
   * and this output, and either that record is completed or the source is no
   * newer than the output.
   */
  ghost predicate UpToDate(raw: Tree, src: FilePath, out: FilePath, pub: map<FilePath, File>, records: Store)
    requires src in raw.files
  {
    var meta := LoadProgressMetadata(records, raw, src);
    && out in pub
    && TempPath(out) !in pub
    && (meta.Some? ==> MetadataKey(raw, src) == Some(meta.value.sourceHash) && meta.value.outputPath == out)
    && ((meta.Some? && meta.value.status == Completed) || raw.files[src].mtime <= pub[out].mtime)
  }

  /**
   * The rules in the script's order: output missing; temporary file present;
   * record for another fingerprint or another output path; completed record;
   * otherwise the source is newer than the output.
   */
  function ShouldProcessFile(raw: Tree, src: FilePath, out: FilePath, pub: map<FilePath, File>, records: Store): (r: bool)
    requires src in raw.files
    ensures r <==> !UpToDate(raw, src, out, pub, records)
  {
    if out !in pub then true
    else if TempPath(out) in pub then true
    else
      var meta := LoadProgressMetadata(records, raw, src);
      if meta.Some? && MetadataKey(raw, src) != Some(meta.value.sourceHash) then true
      else if meta.Some? && meta.value.outputPath != out then true
      else if meta.Some? && meta.value.status == Completed then false
      else raw.files[src].mtime > pub[out].mtime
  }

  /** After a conversion committed and recorded `completed`, the source is skipped. */
  lemma ConvertedIsSkipped(raw: Tree, src: FilePath, out: FilePath, pub: map<FilePath, File>,
                           records: Store, t: int)
    requires src in raw.files && MetadataKey(raw, src).Some?
    requires out in pub && TempPath(out) !in pub
    requires MetadataKey(raw, src).value in records
    requires records[MetadataKey(raw, src).value] == Parsed(NewRecord(raw, src, out, Completed, t))
    ensures !ShouldProcessFile(raw, src, out, pub, records)
  {
  }

  /**
   * After `copy_file` (which keeps the source's mtime) the source is skipped,
   * provided no readable record shares its fingerprint.
   */
  lemma CopiedIsSkipped(raw: Tree, src: FilePath, out: FilePath, pub: map<FilePath, File>, records: Store)
    requires src in raw.files
    requires out in pub && pub[out] == raw.files[src] && TempPath(out) !in pub
    requires LoadProgressMetadata(records, raw, src).None?
    ensures !ShouldProcessFile(raw, src, out, pub, records)
  {
  }

  /**
   * In a well-keyed store the fingerprint rule never decides: a source whose
   * content changed has a new key, so unless a record already sits under that
   * key the decision falls through to the modification-time comparison.
   */
  lemma ChangedSourceDecidedByMtime(raw: Tree, src: FilePath, out: FilePath, pub: map<FilePath, File>, records: Store)
    requires WellKeyed(records)
    requires src in raw.files
    requires LoadProgressMetadata(records, raw, src).None?
    ensures ShouldProcessFile(raw, src, out, pub, records) <==>
      out !in pub || TempPath(out) in pub || raw.files[src].mtime > pub[out].mtime
  {
  }

  /**
   * Two sources sharing their first 10 MiB but with different outputs: once
   * the second has been recorded as completed, the first is due for
   * processing again even though its output is in place.
   */
  lemma SharedPrefixReprocesses(raw: Tree, a: FilePath, b: FilePath, outA: FilePath, outB: FilePath,
                                pub: map<FilePath, File>, records: Store, t: int)
    requires a in raw.files && b in raw.files && raw.files[a].readable && raw.files[b].readable
    requires |raw.files[a].content| >= MaxHashBytes && |raw.files[b].content| >= MaxHashBytes
    requires raw.files[a].content[..MaxHashBytes] == raw.files[b].content[..MaxHashBytes]
    requires outA != outB
    ensures ShouldProcessFile(raw, a, outA, pub,
              records[MetadataKey(raw, b).value := Parsed(NewRecord(raw, b, outB, Completed, t))])
  {
    SharedPrefixSharesRecord(records, raw, a, b, outB, Completed, t);
  }
}
