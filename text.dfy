/**
 * The Python string built-ins the analyzer relies on: `str.lower`,
 * `str.strip`, `str.split(sep)`, `str.startswith` and the substring
 * test `sub in s`.
 */
module Text {

  /**
   * Lower-cases one character (the ASCII letters A-Z): no upper-case letter
   * is left, and a character is a letter after exactly when it was before.
   */
  function LowerChar(c: char): (r: char)
    ensures !('A' <= r <= 'Z')
    ensures ('A' <= c <= 'Z' || 'a' <= c <= 'z') <==> 'a' <= r <= 'z'
  {
    if 'A' <= c <= 'Z' then (c as int + 32) as char else c
  }

  /** `s.lower()`: lower-cases every character, keeping the length. */
  function Lower(s: string): (r: string)
    ensures |r| == |s|
  {
    if s == [] then [] else [LowerChar(s[0])] + Lower(s[1..])
  }

  /** `s.lower()` maps each character by itself. */
  lemma {:induction false} LowerAtIndex(s: string, i: nat)
    requires i < |s|
    ensures Lower(s)[i] == LowerChar(s[i])
  {
    if i > 0 {
      LowerAtIndex(s[1..], i - 1);
    }
  }

  /** Lower-casing a slice is slicing the lower-cased string. */
  lemma LowerSlice(s: string, i: nat, j: nat)
    requires i <= j <= |s|
    ensures Lower(s[i..j]) == Lower(s)[i..j]
  {
    forall k | 0 <= k < j - i
      ensures Lower(s[i..j])[k] == Lower(s)[i..j][k]
    {
      LowerAtIndex(s, i + k);
      LowerAtIndex(s[i..j], k);
    }
  }

  /** Lower-casing twice is lower-casing once. */
  lemma LowerIdempotent(s: string)
    ensures Lower(Lower(s)) == Lower(s)
  {
    forall k | 0 <= k < |s|
      ensures Lower(Lower(s))[k] == Lower(s)[k]
    {
      LowerAtIndex(s, k);
      LowerAtIndex(Lower(s), k);
    }
  }

  /** The characters for which Python's `str.isspace()` holds. */
  predicate IsSpace(c: char)
  {
    var n := c as int;
    || 0x09 <= n <= 0x0D || 0x1C <= n <= 0x20
    || n == 0x85 || n == 0xA0 || n == 0x1680
    || 0x2000 <= n <= 0x200A
    || n == 0x2028 || n == 0x2029 || n == 0x202F || n == 0x205F || n == 0x3000
  }

  /** Every character of `s` is white space. */
  predicate AllSpace(s: string)
  {
    forall k :: 0 <= k < |s| ==> IsSpace(s[k])
  }

  /** `s.lstrip()`: drops the longest run of white space at the front. */
  function StripLeading(s: string): (r: string)
    ensures |r| <= |s|
    ensures r != [] ==> !IsSpace(r[0])
  {
    if s != [] && IsSpace(s[0]) then StripLeading(s[1..]) else s
  }

  /** `s.lstrip()` keeps a tail of `s` and drops only white space. */
  lemma {:induction false} StripLeadingDropsSpace(s: string)
    ensures StripLeading(s) == s[|s| - |StripLeading(s)|..]
    ensures AllSpace(s[..|s| - |StripLeading(s)|])
  {
    if s != [] && IsSpace(s[0]) {
      StripLeadingDropsSpace(s[1..]);
      var n := |s| - |StripLeading(s)|;
      assert forall k :: 1 <= k < n ==> s[..n][k] == s[1..][..n - 1][k - 1];
    }
  }

  /** `s.rstrip()`: drops the longest run of white space at the back. */
  function StripTrailing(s: string): (r: string)
    ensures |r| <= |s|
    ensures r != [] ==> !IsSpace(r[|r| - 1])
  {
    if s != [] && IsSpace(s[|s| - 1]) then StripTrailing(s[..|s| - 1]) else s
  }

  /** `s.rstrip()` keeps a head of `s` and drops only white space. */
  lemma {:induction false} StripTrailingDropsSpace(s: string)
    ensures StripTrailing(s) == s[..|StripTrailing(s)|]
    ensures AllSpace(s[|StripTrailing(s)|..])
  {
    if s != [] && IsSpace(s[|s| - 1]) {
      var init := s[..|s| - 1];
      StripTrailingDropsSpace(init);
      var n := |StripTrailing(s)|;
      assert forall k :: 0 <= k < |s| - 1 - n ==> s[n..][k] == init[n..][k];
    }
  }

  /** `s.strip()`: white space removed at both ends. */
  function Strip(s: string): (r: string)
    ensures |r| <= |s|
    ensures r != [] ==> !IsSpace(r[|r| - 1])
  {
    StripTrailing(StripLeading(s))
  }

  /** A stripped string neither starts nor ends with white space. */
  lemma StripEnds(s: string)
    ensures Strip(s) != [] ==> !IsSpace(Strip(s)[0]) && !IsSpace(Strip(s)[|Strip(s)| - 1])
  {
    StripTrailingDropsSpace(StripLeading(s));
  }

  /**
   * What `s.strip()` keeps is a slice of `s`, and everything it removes from
   * either end is white space.
   */
  lemma StripSlice(s: string)
    ensures exists i, j :: 0 <= i <= j <= |s| && Strip(s) == s[i..j] && AllSpace(s[..i]) && AllSpace(s[j..])
  {
    var left := StripLeading(s);
    var r := StripTrailing(left);
    var i := |s| - |left|;
    var j := i + |r|;
    StripLeadingDropsSpace(s);
    StripTrailingDropsSpace(left);
    assert r == s[i..j];
    assert s[j..] == left[|r|..];
  }

  /** Stripping a stripped string changes nothing. */
  lemma StripIdempotent(s: string)
    ensures Strip(Strip(s)) == Strip(s)
  {
    var t := Strip(s);
    if t != [] {
      StripEnds(s);
      assert StripLeading(t) == t;
      assert StripTrailing(t) == t;
    }
  }

  /** The inverse of `Split`: the pieces glued back with `sep` between them. */
  function Join(pieces: seq<string>, sep: char): string
  {
    if pieces == [] then []
    else if |pieces| == 1 then pieces[0]
    else pieces[0] + [sep] + Join(pieces[1..], sep)
  }

  /**
   * `s.split(sep)`: the maximal runs of `s` that do not contain `sep`;
   * there is always at least one piece (`"".split("\n") == [""]`).
   */
  function Split(s: string, sep: char): (r: seq<string>)
    ensures |r| >= 1
  {
    if s == [] then [[]]
    else
      var rest := Split(s[1..], sep);
      if s[0] == sep then [[]] + rest
      else [[s[0]] + rest[0]] + rest[1..]
  }

  /** No piece of a split holds the separator. */
  lemma {:induction false} SplitPiecesLackSeparator(s: string, sep: char)
    ensures forall k :: 0 <= k < |Split(s, sep)| ==> sep !in Split(s, sep)[k]
  {
    if s != [] {
      SplitPiecesLackSeparator(s[1..], sep);
      var rest := Split(s[1..], sep);
      if s[0] != sep {
        var r := Split(s, sep);
        assert r[0] == [s[0]] + rest[0];
        assert forall k :: 1 <= k < |r| ==> r[k] == rest[k];
      }
    }
  }

  /** Joining the pieces of a split gives back the string, and no piece holds the separator. */
  lemma {:induction false} SplitJoin(s: string, sep: char)
    ensures forall k :: 0 <= k < |Split(s, sep)| ==> sep !in Split(s, sep)[k]
    ensures Join(Split(s, sep), sep) == s
  {
    SplitPiecesLackSeparator(s, sep);
    if s != [] {
      SplitJoin(s[1..], sep);
      var rest := Split(s[1..], sep);
      var r := Split(s, sep);
      if s[0] == sep {
        assert Join(r, sep) == [] + [sep] + Join(rest, sep);
      } else if |rest| == 1 {
        assert Join(r, sep) == [s[0]] + rest[0];
      } else {
        assert r[1..] == rest[1..];
        assert Join(rest, sep) == rest[0] + [sep] + Join(rest[1..], sep);
        assert Join(r, sep) == ([s[0]] + rest[0]) + [sep] + Join(rest[1..], sep);
      }
      assert [s[0]] + s[1..] == s;
    }
  }

  /** A string without the separator is a single piece. */
  lemma {:induction false} SplitWithoutSeparator(s: string, sep: char)
    requires sep !in s
    ensures Split(s, sep) == [s]
  {
    if s != [] {
      SplitWithoutSeparator(s[1..], sep);
      assert s[0] != sep && [s[0]] + s[1..] == s;
    }
  }

  /** Splitting at the first separator: the part before it, then the pieces of the rest. */
  lemma {:induction false} SplitAtFirst(a: string, sep: char, b: string)
    requires sep !in a
    ensures Split(a + [sep] + b, sep) == [a] + Split(b, sep)
  {
    if a != [] {
      var s := a + [sep] + b;
      assert s[0] == a[0] && s[1..] == a[1..] + [sep] + b;
      SplitAtFirst(a[1..], sep, b);
      assert [a[0]] + a[1..] == a;
    } else {
      assert (a + [sep] + b)[1..] == b;
    }
  }

  /** `s.startswith(prefix)`. */
  predicate StartsWith(s: string, prefix: string)
  {
    |prefix| <= |s| && s[..|prefix|] == prefix
  }

  /** `sub` occurs in `s` starting at index `i`. */
  predicate OccursAt(s: string, sub: string, i: int)
  {
    0 <= i <= |s| - |sub| && s[i..i + |sub|] == sub
  }

  /** `sub in s`: `sub` occurs in `s` as a contiguous slice. */
  predicate Contains(s: string, sub: string)
  {
    exists i :: 0 <= i <= |s| && OccursAt(s, sub, i)
  }
}

module TextSlices {
  import opened Text

  /** Where piece `k` starts in `Join(pieces, sep)`. */
  function Offset(pieces: seq<string>, k: nat): nat
    requires k < |pieces|
  {
    if k == 0 then 0 else |pieces[0]| + 1 + Offset(pieces[1..], k - 1)
  }

  /** Every piece of a join occurs in it, at its offset. */
  lemma {:induction false} PieceOccurs(pieces: seq<string>, sep: char, k: nat)
    requires k < |pieces|
    ensures OccursAt(Join(pieces, sep), pieces[k], Offset(pieces, k))
  {
    var s := Join(pieces, sep);
    if k == 0 {
      if |pieces| > 1 {
        assert s == pieces[0] + ([sep] + Join(pieces[1..], sep));
      }
      assert s[..|pieces[0]|] == pieces[0];
    } else {
      var rest := Join(pieces[1..], sep);
      PieceOccurs(pieces[1..], sep, k - 1);
      var o := Offset(pieces[1..], k - 1);
      var n := |pieces[0]| + 1;
      assert s == (pieces[0] + [sep]) + rest;
      assert s[n + o..n + o + |pieces[k]|] == rest[o..o + |pieces[k]|];
    }
  }

  /** Occurrence is transitive: a slice of a slice is a slice. */
  lemma OccursTrans(s: string, t: string, u: string, i: int, j: int)
    requires OccursAt(s, t, i) && OccursAt(t, u, j)
    ensures OccursAt(s, u, i + j)
  {
    forall m | 0 <= m < |u|
      ensures s[i + j + m] == u[m]
    {
      assert s[i + (j + m)] == t[j + m];
    }
    assert s[i + j..i + j + |u|] == u;
  }

  /** A stripped string occurs in the string it was stripped from. */
  lemma StripOccurs(t: string)
    ensures OccursAt(t, Strip(t), |t| - |StripLeading(t)|)
  {
    var left := StripLeading(t);
    var i := |t| - |left|;
    StripLeadingDropsSpace(t);
    StripTrailingDropsSpace(left);
    var st := Strip(t);
    assert st == StripTrailing(left) && st == left[..|st|];
    assert left == t[i..];
    assert t[i..i + |st|] == left[..|st|];
  }

  /** A stripped piece of `s.split(sep)` is still a slice of `s`. */
  lemma StrippedPieceInText(s: string, sep: char, k: nat)
    requires k < |Split(s, sep)|
    ensures Contains(s, Strip(Split(s, sep)[k]))
  {
    var pieces := Split(s, sep);
    var t := pieces[k];
    SplitJoin(s, sep);
    PieceOccurs(pieces, sep, k);
    StripOccurs(t);
    OccursTrans(s, t, Strip(t), Offset(pieces, k), |t| - |StripLeading(t)|);
  }
}
