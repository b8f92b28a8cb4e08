/**
 * A stable insertion sort by a caller-given "may precede" relation. It stands for
 * the orderings the modelled code asks for: Items by descending timestamp,
 * registered models by ascending priority, commits by descending revision.
 */
module Sorting {
  /** Every neighbouring pair is in order. */
  ghost predicate Sorted<T>(s: seq<T>, le: (T, T) -> bool) {
    forall i :: 0 <= i < |s| - 1 ==> le(s[i], s[i + 1])
  }

  ghost predicate Total<T(!new)>(le: (T, T) -> bool) {
    forall a: T, b: T :: le(a, b) || le(b, a)
  }

  /** Places `x` before the first element it may precede; everything before it strictly precedes it. */
  function Insert<T>(x: T, t: seq<T>, le: (T, T) -> bool): (r: seq<T>)
    ensures multiset(r) == multiset(t) + multiset{x}
    ensures |r| == |t| + 1
    decreases |t|
  {
    if |t| == 0 then [x]
    else if le(x, t[0]) then [x] + t
    else
      assert t == [t[0]] + t[1..];
      [t[0]] + Insert(x, t[1..], le)
  }

  /** Stable sort: the earlier of two equal elements stays first. */
  function Sort<T>(s: seq<T>, le: (T, T) -> bool): (r: seq<T>)
    ensures multiset(r) == multiset(s)
    ensures |r| == |s|
    decreases |s|
  {
    if |s| == 0 then []
    else
      assert s == [s[0]] + s[1..];
      Insert(s[0], Sort(s[1..], le), le)
  }

  lemma {:induction false} InsertSorted<T(!new)>(x: T, t: seq<T>, le: (T, T) -> bool)
    requires Total(le) && Sorted(t, le)
    ensures Sorted(Insert(x, t, le), le)
    ensures |t| > 0 ==> var r := Insert(x, t, le); r[0] == x || r[0] == t[0]
    decreases |t|
  {
    if |t| > 0 && !le(x, t[0]) {
      InsertSorted(x, t[1..], le);
      assert le(t[0], x);
      var r := Insert(x, t, le);
      var r' := Insert(x, t[1..], le);
      assert r == [t[0]] + r';
      forall i | 0 <= i < |r| - 1 ensures le(r[i], r[i + 1]) {
        if i > 0 {
          assert r[i] == r'[i - 1] && r[i + 1] == r'[i];
        }
      }
    }
  }

  /** The sort's output is in order and is a permutation of its input. */
  lemma {:induction false} SortSorted<T(!new)>(s: seq<T>, le: (T, T) -> bool)
    requires Total(le)
    ensures Sorted(Sort(s, le), le)
    ensures multiset(Sort(s, le)) == multiset(s)
    decreases |s|
  {
    if |s| > 0 {
      SortSorted(s[1..], le);
      InsertSorted(s[0], Sort(s[1..], le), le);
    }
  }

  /** An input already in order comes back unchanged: sorting it again is the identity. */
  lemma {:induction false} SortOfSorted<T>(s: seq<T>, le: (T, T) -> bool)
    requires Sorted(s, le)
    ensures Sort(s, le) == s
    decreases |s|
  {
    if |s| > 0 {
      assert Sorted(s[1..], le) by {
        forall i | 0 <= i < |s[1..]| - 1 ensures le(s[1..][i], s[1..][i + 1]) {
          assert s[1..][i] == s[i + 1] && s[1..][i + 1] == s[i + 2];
        }
      }
      SortOfSorted(s[1..], le);
      if |s| > 1 {
        assert le(s[0], s[1]);
      }
      assert s == [s[0]] + s[1..];
    }
  }
}
