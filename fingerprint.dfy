/**
 * `calculate_file_hash` (main.py:117-134): MD5 over at most the first
 * 10 MiB of a file, read in 8 KiB chunks.
 */
module Fingerprint {
  import opened Wrappers
  import opened Files

  const ChunkSize := 8192
  const MaxHashBytes := 10 * 1024 * 1024

  /**
   * An MD5 digest.  The algorithm itself is not modelled: a digest is named
   * by the bytes that were fed to the hasher, so two digests are equal exactly
   * when those bytes are (MD5 taken as collision-free).
   */
  datatype Digest = Md5Of(hashed: seq<Byte>)

  /** The part of a file the fingerprint covers. */
  function HashedPrefix(content: seq<Byte>): seq<Byte> {
    content[..HashedLength(|content|)]
  }

  function HashedLength(size: nat): nat {
    if size < MaxHashBytes then size else MaxHashBytes
  }

  /** The fingerprint of a file, `None` when it is missing or cannot be opened (the `except` branch). */
  function FileHash(f: Option<File>): Option<Digest> {
    if f.Some? && f.value.readable then Some(Md5Of(HashedPrefix(f.value.content))) else None
  }

  /** The read loop: stops at end of file or once 10 MiB have been consumed. */
  method CalculateFileHash(f: Option<File>) returns (h: Option<Digest>)
    ensures h == FileHash(f)
  {
    if f.None? || !f.value.readable {
      return None;
    }
    var content := f.value.content;
    var hashed: seq<Byte> := [];
    var bytesRead := 0;
    while bytesRead < MaxHashBytes
      invariant bytesRead <= |content| && bytesRead <= MaxHashBytes
      invariant hashed == content[..bytesRead]
      invariant bytesRead % ChunkSize == 0 || bytesRead == |content|
    {
      var end := if bytesRead + ChunkSize <= |content| then bytesRead + ChunkSize else |content|;
      var chunk := content[bytesRead..end];
      if chunk == [] {
        break;
      }
      hashed := hashed + chunk;
      bytesRead := bytesRead + |chunk|;
    }
    assert bytesRead == HashedLength(|content|);
    return Some(Md5Of(hashed));
  }

  /** A file's fingerprint exists exactly when it can be read, and covers min(size, 10 MiB) bytes of it. */
  lemma FileHashCovers(f: File)
    requires f.readable
    ensures FileHash(Some(f)).Some?
    ensures |FileHash(Some(f)).value.hashed| == HashedLength(|f.content|)
    ensures FileHash(Some(f)).value.hashed <= f.content
  {
  }

  /** Two readable files that agree on their first 10 MiB have the same fingerprint. */
  lemma SamePrefixSameHash(f: File, g: File)
    requires f.readable && g.readable
    requires |f.content| >= MaxHashBytes && |g.content| >= MaxHashBytes
    requires f.content[..MaxHashBytes] == g.content[..MaxHashBytes]
    ensures FileHash(Some(f)) == FileHash(Some(g))
  {
  }

  /** Bytes past the first 10 MiB never change the fingerprint: an edit confined to them goes undetected. */
  lemma TailInvisible(f: File, tail: seq<Byte>)
    requires f.readable && |f.content| >= MaxHashBytes
    ensures FileHash(Some(f.(content := f.content + tail))) == FileHash(Some(f))
  {
    assert (f.content + tail)[..MaxHashBytes] == f.content[..MaxHashBytes];
  }

  /** Equal fingerprints of readable files mean equal hashed prefixes, and so equal sizes below 10 MiB. */
  lemma SameHashSamePrefix(f: File, g: File)
    requires f.readable && g.readable
    requires FileHash(Some(f)) == FileHash(Some(g))
    ensures HashedPrefix(f.content) == HashedPrefix(g.content)
    ensures |f.content| < MaxHashBytes ==> f.content == g.content
  {
  }
}
