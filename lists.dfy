/** Filtering, flattening and searching sequences, with the facts the analysis proofs use. */
module Lists {
  import opened Wrappers

  /** The elements of `s` that satisfy `p`, in order. */
  function Filter<T>(s: seq<T>, p: T -> bool): (r: seq<T>)
    ensures |r| <= |s|
  {
    if s == [] then [] else (if p(s[0]) then [s[0]] else []) + Filter(s[1..], p)
  }

  /** Filtering distributes over concatenation. */
  lemma {:induction false} FilterAppend<T>(a: seq<T>, b: seq<T>, p: T -> bool)
    ensures Filter(a + b, p) == Filter(a, p) + Filter(b, p)
  {
    if a == [] {
      assert a + b == b;
    } else {
      var head := if p(a[0]) then [a[0]] else [];
      assert (a + b)[0] == a[0] && (a + b)[1..] == a[1..] + b;
      assert Filter(a + b, p) == head + Filter(a[1..] + b, p);
      FilterAppend(a[1..], b, p);
      assert Filter(a, p) == head + Filter(a[1..], p);
    }
  }

  /** A filter keeps exactly the elements that satisfy the predicate. */
  lemma {:induction false} FilterMembers<T>(s: seq<T>, p: T -> bool, x: T)
    ensures x in Filter(s, p) <==> x in s && p(x)
  {
    if s != [] {
      FilterMembers(s[1..], p, x);
      assert s == [s[0]] + s[1..];
    }
  }

  /** The sequences `f` gives the elements of `s`, one after another. */
  function FlatMap<T, U>(s: seq<T>, f: T -> seq<U>): seq<U>
  {
    if s == [] then [] else f(s[0]) + FlatMap(s[1..], f)
  }

  /** Flattening distributes over concatenation. */
  lemma {:induction false} FlatMapAppend<T, U>(a: seq<T>, b: seq<T>, f: T -> seq<U>)
    ensures FlatMap(a + b, f) == FlatMap(a, f) + FlatMap(b, f)
  {
    if a == [] {
      assert a + b == b;
    } else {
      assert (a + b)[0] == a[0] && (a + b)[1..] == a[1..] + b;
      FlatMapAppend(a[1..], b, f);
    }
  }

  /** Everything in a flattening comes from one of the elements, and everything of every element is in it. */
  lemma {:induction false} FlatMapMembers<T, U>(s: seq<T>, f: T -> seq<U>, u: U)
    ensures u in FlatMap(s, f) <==> exists x :: x in s && u in f(x)
  {
    if s != [] {
      FlatMapMembers(s[1..], f, u);
      assert s == [s[0]] + s[1..];
      if exists x :: x in s && u in f(x) {
        var x :| x in s && u in f(x);
        assert x == s[0] || x in s[1..];
      }
    }
  }

  /** The first element of `s` that satisfies `p`. */
  function FirstWhere<T>(s: seq<T>, p: T -> bool): (r: Option<T>)
    ensures r.Some? ==> p(r.value)
  {
    if s == [] then None else if p(s[0]) then Some(s[0]) else FirstWhere(s[1..], p)
  }

  /** The first match of `a + b` is the first match of `a`, or failing that of `b`. */
  lemma {:induction false} FirstWhereAppend<T>(a: seq<T>, b: seq<T>, p: T -> bool)
    ensures FirstWhere(a + b, p) == if FirstWhere(a, p).Some? then FirstWhere(a, p) else FirstWhere(b, p)
  {
    if a == [] {
      assert a + b == b;
    } else {
      assert (a + b)[0] == a[0] && (a + b)[1..] == a[1..] + b;
      FirstWhereAppend(a[1..], b, p);
    }
  }

  /** There is no first match exactly when nothing matches; a match found is an element. */
  lemma {:induction false} FirstWhereNone<T>(s: seq<T>, p: T -> bool)
    ensures FirstWhere(s, p).None? <==> forall x :: x in s ==> !p(x)
    ensures FirstWhere(s, p).Some? ==> FirstWhere(s, p).value in s
  {
    if s != [] {
      FirstWhereNone(s[1..], p);
      assert s == [s[0]] + s[1..];
    }
  }

  /**
   * The first element of the `keep`-filter of `s` that satisfies `p` is the
   * element at the first index where both hold.
   */
  lemma {:induction false} FirstWhereOfFilter<T>(s: seq<T>, keep: T -> bool, p: T -> bool, i: nat)
    requires i < |s| && keep(s[i]) && p(s[i])
    requires forall j :: 0 <= j < i ==> !(keep(s[j]) && p(s[j]))
    ensures FirstWhere(Filter(s, keep), p) == Some(s[i])
  {
    if i == 0 {
      assert Filter(s, keep) == [s[0]] + Filter(s[1..], keep);
    } else {
      var t := s[1..];
      assert t[i - 1] == s[i];
      assert forall j :: 0 <= j < i - 1 ==> t[j] == s[j + 1];
      FirstWhereOfFilter(t, keep, p, i - 1);
      if keep(s[0]) {
        assert Filter(s, keep) == [s[0]] + Filter(t, keep);
      } else {
        assert Filter(s, keep) == Filter(t, keep);
      }
    }
  }
}
