/** Order-preserving filtering of a sequence: `Array.prototype.filter`. */
module Filtering {

  /** The elements of s that satisfy keep, in their original order. */
  function Filter<T>(s: seq<T>, keep: T -> bool): (r: seq<T>)
    ensures |r| <= |s|
    decreases |s|
  {
    if |s| == 0 then []
    else if keep(s[0]) then [s[0]] + Filter(s[1..], keep)
    else Filter(s[1..], keep)
  }

  /** An element is kept exactly when it occurs in s and satisfies keep. */
  lemma {:induction false} FilterMembership<T>(s: seq<T>, keep: T -> bool, e: T)
    ensures e in Filter(s, keep) <==> e in s && keep(e)
    decreases |s|
  {
    if |s| > 0 {
      FilterMembership(s[1..], keep, e);
      assert s == [s[0]] + s[1..];
    }
  }

  /** Filtering distributes over concatenation, so the kept elements keep their order. */
  lemma {:induction false} FilterConcat<T>(a: seq<T>, b: seq<T>, keep: T -> bool)
    ensures Filter(a + b, keep) == Filter(a, keep) + Filter(b, keep)
    decreases |a|
  {
    if |a| > 0 {
      FilterConcat(a[1..], b, keep);
      assert (a + b)[1..] == a[1..] + b;
    } else {
      assert a + b == b;
    }
  }

  /** When every element satisfies keep, nothing is removed. */
  lemma {:induction false} FilterKeepsAll<T>(s: seq<T>, keep: T -> bool)
    requires forall i :: 0 <= i < |s| ==> keep(s[i])
    ensures Filter(s, keep) == s
    decreases |s|
  {
    if |s| > 0 {
      FilterKeepsAll(s[1..], keep);
      assert s == [s[0]] + s[1..];
    }
  }

  /** When no element satisfies keep, the result is empty. */
  lemma {:induction false} FilterKeepsNone<T>(s: seq<T>, keep: T -> bool)
    requires forall i :: 0 <= i < |s| ==> !keep(s[i])
    ensures Filter(s, keep) == []
    decreases |s|
  {
    if |s| > 0 {
      FilterKeepsNone(s[1..], keep);
    }
  }

  /** Every element of the result satisfies keep. */
  lemma {:induction false} FilterSound<T>(s: seq<T>, keep: T -> bool)
    ensures forall i :: 0 <= i < |Filter(s, keep)| ==> keep(Filter(s, keep)[i])
  {
    forall i | 0 <= i < |Filter(s, keep)|
      ensures keep(Filter(s, keep)[i])
    {
      FilterMembership(s, keep, Filter(s, keep)[i]);
    }
  }
}
