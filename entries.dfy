/**
 * One entry of the repository walk (`Path.rglob('*')`), with every fact the
 * analyzer asks the file system about it already answered.
 */
module Entries {
  import opened Wrappers
  import opened Text
  import opened Paths

  newtype byte = b: int | 0 <= b < 256

  /**
   * parts    `file_path.parts`: the parts of the repository path as it was
   *          given (all its ancestors when it is absolute, none for `.`),
   *          then those of the path below it
   * relative `str(file_path.relative_to(repo_path))`
   * isFile   `file_path.is_file()`; None when it raises (an error other than
   *          a missing file or a broken link, such as a denied permission)
   * size     `file_path.stat().st_size`; None when stat raises
   * data     the bytes `open(file_path, 'rb')` reads; None when opening or reading raises
   * text     `file_path.read_text()`; None when it raises
   */
  datatype FileEntry = FileEntry(
    parts: seq<string>,
    relative: string,
    isFile: Option<bool>,
    size: Option<nat>,
    data: Option<seq<byte>>,
    text: Option<string>)

  /** `file_path.name.lower()`. */
  function FileName(e: FileEntry): string
  {
    Lower(Name(e.parts))
  }

  /** `file_path.suffix.lower()`. */
  function FileType(e: FileEntry): string
  {
    Lower(Suffix(Name(e.parts)))
  }

  /** Lower-casing keeps the dots of a name where they are. */
  lemma {:induction false} LastDotOfLower(s: string)
    ensures LastIndexOf(Lower(s), '.') == LastIndexOf(s, '.')
    decreases |s|
  {
    if s != [] {
      var init := s[..|s| - 1];
      LowerSlice(s, 0, |s| - 1);
      LowerAtIndex(s, |s| - 1);
      LastDotOfLower(init);
    }
  }

  /** Lower-casing and taking the suffix commute. */
  lemma SuffixOfLower(n: string)
    ensures Lower(Suffix(n)) == Suffix(Lower(n))
  {
    LastDotOfLower(n);
    var l := Lower(n);
    match LastIndexOf(n, '.')
    case Some(i) =>
      if 0 < i < |n| - 1 {
        LowerSlice(n, i, |n|);
        assert Suffix(n) == n[i..|n|];
        assert LastIndexOf(l, '.') == Some(i) && |l| == |n|;
        assert Suffix(l) == l[i..|l|];
      }
    case None =>
  }

  /**
   * The lower-cased suffix is the suffix of the lower-cased name, so a file
   * type is always the tail of its file name.
   */
  lemma FileTypeEndsFileName(e: FileEntry)
    ensures FileType(e) == Suffix(FileName(e))
    ensures FileType(e) != [] ==> FileType(e) == FileName(e)[|FileName(e)| - |FileType(e)|..]
  {
    SuffixOfLower(Name(e.parts));
    SuffixSpec(FileName(e));
  }
}
