/** Sequence helpers shared by the calendar and the text functions. */
module Seqs {
  import opened Options

  /** The position of the first occurrence of `x` in `s`, as Python's
      `list.index` / `str.find` report it; `None` where Python raises
      `ValueError` or returns -1. */
  function IndexOf<T(==)>(s: seq<T>, x: T): (r: Option<nat>)
    ensures r.None? <==> x !in s
    ensures r.Some? ==> r.value < |s| && s[r.value] == x && x !in s[..r.value]
  {
    if |s| == 0 then None
    else if s[0] == x then Some(0)
    else
      match IndexOf(s[1..], x)
      case None => None
      case Some(i) =>
        assert s[1..][..i] == s[1..i + 1];
        assert s[..i + 1] == [s[0]] + s[1..i + 1];
        Some(i + 1)
  }

  /** Where `x` first occurs after a prefix free of `x`, its index is the
      length of that prefix. */
  lemma IndexOfAfterPrefix<T>(a: seq<T>, x: T, b: seq<T>)
    requires x !in a
    ensures IndexOf(a + [x] + b, x) == Some(|a|)
  {
    var s := a + [x] + b;
    assert s[|a|] == x;
    assert s[..|a|] == a;
  }

  /** A separator that occurs in `a` is found at the same place in any
      extension of `a`. */
  lemma IndexOfInPrefix<T>(a: seq<T>, x: T, b: seq<T>)
    requires x in a
    ensures IndexOf(a + b, x) == IndexOf(a, x)
  {
    var i := IndexOf(a, x).value;
    var s := a + b;
    assert s[..i] == a[..i];
    assert s[i] == x;
  }

  /** Splitting at the last occurrence of a separator `x` is unique: when
      neither suffix contains `x`, equal joins have equal halves. */
  lemma SplitAtLast<T>(a1: seq<T>, b1: seq<T>, a2: seq<T>, b2: seq<T>, x: T)
    requires x !in b1 && x !in b2
    requires a1 + [x] + b1 == a2 + [x] + b2
    ensures a1 == a2 && b1 == b2
  {
    var s := a1 + [x] + b1;
    assert s[|a1|] == x && s[|a2|] == x;
    assert s[|a1| + 1..] == b1 && s[|a2| + 1..] == b2;
    assert a1 == s[..|a1|];
    assert a2 == s[..|a2|];
  }
}
