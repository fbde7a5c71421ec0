/** Sequence helpers shared by the table store and the handlers. */
module Seqs {
  /** The elements of s that satisfy keep, in their original order (an SQL `where`). */
  function Filter<T(!new)>(s: seq<T>, keep: T -> bool): (r: seq<T>)
    ensures |r| <= |s|
    ensures forall x :: x in r <==> x in s && keep(x)
    ensures multiset(r) <= multiset(s)
  {
    if |s| == 0 then []
    else
      assert s == [s[0]] + s[1..];
      (if keep(s[0]) then [s[0]] else []) + Filter(s[1..], keep)
  }

  lemma {:induction false} FilterAppend<T(!new)>(a: seq<T>, b: seq<T>, keep: T -> bool)
    ensures Filter(a + b, keep) == Filter(a, keep) + Filter(b, keep)
  {
    if |a| > 0 {
      assert (a + b)[1..] == a[1..] + b;
      FilterAppend(a[1..], b, keep);
    } else {
      assert a + b == b;
    }
  }

  /** Keeping everything keeps the sequence. */
  lemma {:induction false} FilterAll<T(!new)>(s: seq<T>, keep: T -> bool)
    requires forall x :: x in s ==> keep(x)
    ensures Filter(s, keep) == s
  {
    if |s| > 0 {
      var t := s[1..];
      forall x | x in t
        ensures keep(x)
      {
        var i :| 0 <= i < |t| && t[i] == x;
        assert s[i + 1] == x;
      }
      FilterAll(t, keep);
      assert keep(s[0]);
      assert s == [s[0]] + t;
    }
  }

  /** Keeping nothing empties the sequence. */
  lemma FilterNone<T(!new)>(s: seq<T>, keep: T -> bool)
    requires forall x :: x in s ==> !keep(x)
    ensures Filter(s, keep) == []
  {
  }

  /**
   * Filtering by a weaker condition first changes nothing: rows a later
   * filter keeps are never removed by an earlier, looser one.
   */
  lemma {:induction false} FilterWeaker<T(!new)>(s: seq<T>, loose: T -> bool, strict: T -> bool)
    requires forall x :: strict(x) ==> loose(x)
    ensures Filter(Filter(s, loose), strict) == Filter(s, strict)
  {
    if |s| > 0 {
      FilterWeaker(s[1..], loose, strict);
      var head := if loose(s[0]) then [s[0]] else [];
      FilterAppend(head, Filter(s[1..], loose), strict);
      if loose(s[0]) {
        assert head[1..] == [];
      }
    }
  }

  /** Applies f to every element, in order. */
  function Map<T, U>(s: seq<T>, f: T -> U): (r: seq<U>)
    ensures |r| == |s| && forall i :: 0 <= i < |s| ==> r[i] == f(s[i])
  {
    seq(|s|, i requires 0 <= i < |s| => f(s[i]))
  }

  /** The number of true entries. */
  function CountTrue(s: seq<bool>): (n: nat)
    ensures n <= |s|
  {
    if |s| == 0 then 0 else (if s[0] then 1 else 0) + CountTrue(s[1..])
  }
}
