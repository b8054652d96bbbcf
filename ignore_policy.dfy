/** `RepositoryAnalyzer._should_ignore_file`: which walked files are dropped. */
module IgnorePolicy {
  import opened Wrappers
  import opened Entries

  /** Directory names whose contents are never analyzed. */
  const IgnoredDirs: set<string> := {".git", "__pycache__", ".pytest_cache", "node_modules", ".venv", "venv"}

  /** Files larger than this many bytes (1 MiB) are dropped. */
  const MaxFileSize: nat := 1024 * 1024

  /** How many leading bytes are inspected for a null byte. */
  const ChunkSize: nat := 1024

  /** The failures that escape the walk: `is_file()` or `stat()` raising. */
  datatype ScanError = IsFileFailed(parts: seq<string>) | StatFailed(parts: seq<string>)

  /** Some component of the path, as the repository path was given, is an ignored name. */
  predicate InIgnoredDir(parts: seq<string>)
  {
    exists i :: 0 <= i < |parts| && parts[i] in IgnoredDirs
  }

  /** `f.read(1024)`: at most the first `ChunkSize` bytes. */
  function Chunk(data: seq<byte>): (c: seq<byte>)
    ensures |c| == if |data| <= ChunkSize then |data| else ChunkSize
    ensures c == data[..|c|]
  {
    if |data| <= ChunkSize then data else data[..ChunkSize]
  }

  /** The file could not be read, or its first chunk holds a null byte. */
  predicate LooksBinary(data: Option<seq<byte>>)
  {
    match data
    case None => true
    case Some(d) => 0 in Chunk(d)
  }

  /**
   * `_should_ignore_file`: the directory test first, then the size from
   * `stat()` (whose failure is not caught), then the null-byte test, in
   * which any failure to open or read means "ignore".
   */
  function ShouldIgnore(e: FileEntry): (r: Result<bool, ScanError>)
    ensures InIgnoredDir(e.parts) ==> r == Success(true)
    ensures r.Failure? ==> r.error == StatFailed(e.parts)
    ensures r == Success(false) ==> e.size.Some? && e.size.value <= MaxFileSize && e.data.Some?
  {
    if InIgnoredDir(e.parts) then Success(true)
    else match e.size
      case None => Failure(StatFailed(e.parts))
      case Some(n) => if n > MaxFileSize then Success(true) else Success(LooksBinary(e.data))
  }

  /** A file is kept exactly when no rule of the ignore policy applies to it. */
  lemma KeptExactly(e: FileEntry)
    ensures ShouldIgnore(e) == Success(false) <==>
      && !InIgnoredDir(e.parts)
      && e.size.Some? && e.size.value <= MaxFileSize
      && e.data.Some? && forall k :: 0 <= k < |e.data.value| && k < ChunkSize ==> e.data.value[k] != 0
  {
    if e.data.Some? {
      var d := e.data.value;
      assert 0 in Chunk(d) <==> exists k :: 0 <= k < |d| && k < ChunkSize && d[k] == 0;
    }
  }

  /** The walk fails exactly on a file outside the ignored directories whose size cannot be read. */
  lemma StatFailureExactly(e: FileEntry)
    ensures ShouldIgnore(e).Failure? <==> !InIgnoredDir(e.parts) && e.size.None?
    ensures ShouldIgnore(e).Failure? ==> ShouldIgnore(e).error == StatFailed(e.parts)
  {
  }

  /** A file under an ignored directory is dropped whatever its size or content. */
  lemma IgnoredDirectoryExcludes(e: FileEntry, i: nat)
    requires i < |e.parts| && e.parts[i] in IgnoredDirs
    ensures ShouldIgnore(e) == Success(true)
  {
  }

  /** Names are compared as whole components: containing an ignored name is not enough. */
  lemma WholeComponentsOnly()
    ensures !InIgnoredDir(["/", "home", "venvs", "my.git", "node_modules_old", "a.py"])
  {
  }

  /**
   * When the repository path is given with a part named like an ignored
   * directory (an absolute path through a `venv`, say), every file is hidden.
   */
  lemma IgnoredAncestorHidesAll(root: seq<string>, below: seq<string>, e: FileEntry)
    requires "venv" in root && e.parts == root + below
    ensures ShouldIgnore(e) == Success(true)
  {
    var i :| 0 <= i < |root| && root[i] == "venv";
    assert e.parts[i] == "venv";
  }

  /** A file of exactly 1 MiB passes the size test; one byte more does not. */
  lemma SizeBoundary(e: FileEntry)
    requires !InIgnoredDir(e.parts)
    ensures e.size == Some(MaxFileSize) ==> ShouldIgnore(e) == Success(LooksBinary(e.data))
    ensures e.size == Some(MaxFileSize + 1) ==> ShouldIgnore(e) == Success(true)
  {
  }

  /** A null byte beyond the first chunk does not make a file look binary. */
  lemma NullBeyondChunkIgnored(d: seq<byte>, k: nat)
    requires ChunkSize <= k < |d| && d[k] == 0
    requires forall j :: 0 <= j < ChunkSize ==> d[j] != 0
    ensures !LooksBinary(Some(d))
  {
    assert Chunk(d) == d[..ChunkSize];
    assert forall j :: 0 <= j < |Chunk(d)| ==> Chunk(d)[j] == d[j];
  }
}
