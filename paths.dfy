/** The parts of Python's `pathlib.PurePath` that the analyzer reads. */
module Paths {
  import opened Wrappers

  /** `s.rfind(c)`: the index of the last occurrence of `c`, `None` for -1. */
  function LastIndexOf(s: string, c: char): (r: Option<nat>)
    ensures r.Some? ==> r.value < |s| && s[r.value] == c && c !in s[r.value + 1..]
    ensures r.None? ==> c !in s
  {
    if s == [] then None
    else if s[|s| - 1] == c then Some(|s| - 1)
    else
      var r := LastIndexOf(s[..|s| - 1], c);
      assert s == s[..|s| - 1] + [s[|s| - 1]];
      r
  }

  /**
   * `PurePath(name).suffix`: from the last dot to the end, provided that dot
   * is neither the first nor the last character of the name; otherwise "".
   */
  function Suffix(name: string): (r: string)
    ensures |r| <= |name|
  {
    match LastIndexOf(name, '.')
    case Some(i) => if 0 < i < |name| - 1 then name[i..] else []
    case None => []
  }

  /**
   * The suffix starts at the last dot of the name when that dot is an inner
   * one; otherwise it is empty. A non-empty suffix is a tail of the name made
   * of a dot and at least one further character, none of them a dot.
   */
  lemma SuffixSpec(name: string)
    ensures forall i :: 0 < i < |name| - 1 && name[i] == '.' && '.' !in name[i + 1..] ==> Suffix(name) == name[i..]
    ensures Suffix(name) != [] ==> 2 <= |Suffix(name)| < |name| && Suffix(name) == name[|name| - |Suffix(name)|..]
    ensures Suffix(name) != [] ==> Suffix(name)[0] == '.' && '.' !in Suffix(name)[1..]
  {
  }

  /** A name whose dots are all at its ends, or that has none, has no suffix. */
  lemma NoInnerDotNoSuffix(name: string)
    requires forall i :: 0 < i < |name| - 1 ==> name[i] != '.'
    ensures Suffix(name) == ""
  {
  }

  /** A dot file has no suffix: the only dot is the first character. */
  lemma DotFileHasNoSuffix()
    ensures Suffix(".gitignore") == ""
  {
    SuffixSpec(".gitignore");
    assert '.' !in ".gitignore"[1..];
  }

  /** A dot file with a second dot has the part after that dot as suffix. */
  lemma DottedDotFileSuffix()
    ensures Suffix(".env.example") == ".example"
  {
    SuffixSpec(".env.example");
    assert ".env.example"[4] == '.' && '.' !in ".env.example"[5..];
  }

  /** Only the last extension of a name counts. */
  lemma LastExtensionOnly()
    ensures Suffix("archive.tar.gz") == ".gz"
  {
    SuffixSpec("archive.tar.gz");
    assert "archive.tar.gz"[11] == '.' && '.' !in "archive.tar.gz"[12..];
  }

  /** A name ending in a dot, or without a dot, has no suffix. */
  lemma NoSuffixWithoutInnerDot()
    ensures Suffix("notes.") == ""
    ensures Suffix("Makefile") == ""
  {
    SuffixSpec("notes.");
    SuffixSpec("Makefile");
    assert "notes."[5] == '.';
    assert '.' !in "Makefile";
  }

  /** `PurePath.name` from `PurePath.parts`: the last part, "" when there is none. */
  function Name(parts: seq<string>): string
  {
    if parts == [] then "" else parts[|parts| - 1]
  }
}
