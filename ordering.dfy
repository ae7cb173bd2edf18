/**
 * The order in which discovered archives are tested: PHP's sort() and Python's
 * sorted() on path strings, taken as character-wise lexicographic order.
 */
module Ordering {

  /** `a` sorts before or equal to `b`: character by character, a prefix first. */
  predicate LexLe(a: string, b: string)
    decreases |a|
  {
    a == [] || (b != [] && (a[0] < b[0] || (a[0] == b[0] && LexLe(a[1..], b[1..]))))
  }

  lemma {:induction false} LexTotal(a: string, b: string)
    ensures LexLe(a, b) || LexLe(b, a)
    decreases |a|
  {
    if a != [] && b != [] && a[0] == b[0] {
      LexTotal(a[1..], b[1..]);
    }
  }

  lemma {:induction false} LexTransitive(a: string, b: string, c: string)
    requires LexLe(a, b) && LexLe(b, c)
    ensures LexLe(a, c)
    decreases |a|
  {
    if a != [] && a[0] == b[0] && b[0] == c[0] {
      LexTransitive(a[1..], b[1..], c[1..]);
    }
  }

  lemma {:induction false} LexAntisymmetric(a: string, b: string)
    requires LexLe(a, b) && LexLe(b, a)
    ensures a == b
    decreases |a|
  {
    if a != [] {
      LexAntisymmetric(a[1..], b[1..]);
      assert a == [a[0]] + a[1..] && b == [b[0]] + b[1..];
    }
  }

  predicate Sorted(s: seq<string>) {
    forall i, j :: 0 <= i < j < |s| ==> LexLe(s[i], s[j])
  }

  /** One step of insertion sort. */
  function Insert(x: string, s: seq<string>): seq<string> {
    if s == [] then [x]
    else if LexLe(x, s[0]) then [x] + s
    else [s[0]] + Insert(x, s[1..])
  }

  lemma {:induction false} InsertPermutes(x: string, s: seq<string>)
    ensures multiset(Insert(x, s)) == multiset(s) + multiset{x}
    ensures |Insert(x, s)| == |s| + 1
  {
    if s != [] && !LexLe(x, s[0]) {
      InsertPermutes(x, s[1..]);
      assert s == [s[0]] + s[1..];
    }
  }

  lemma MultisetCons(s: seq<string>)
    requires s != []
    ensures multiset(s) == multiset(s[1..]) + multiset{s[0]}
  {
    assert s == [s[0]] + s[1..];
  }

  /** Every element of `s` sorts at or after `y`. */
  predicate LowerBound(y: string, s: seq<string>) {
    forall k :: 0 <= k < |s| ==> LexLe(y, s[k])
  }

  lemma SortedCons(y: string, s: seq<string>)
    requires LowerBound(y, s) && Sorted(s)
    ensures Sorted([y] + s)
  {
    var r := [y] + s;
    forall i, j | 0 <= i < j < |r|
      ensures LexLe(r[i], r[j])
    {
      assert r[j] == s[j - 1];
      if i > 0 { assert r[i] == s[i - 1]; }
    }
  }

  lemma {:induction false} InsertKeepsLowerBound(y: string, x: string, s: seq<string>)
    requires LowerBound(y, s) && LexLe(y, x)
    ensures LowerBound(y, Insert(x, s))
  {
    if s != [] && !LexLe(x, s[0]) {
      assert LowerBound(y, s[1..]) by {
        forall k | 0 <= k < |s[1..]|
          ensures LexLe(y, s[1..][k])
        {
          assert s[1..][k] == s[k + 1];
        }
      }
      InsertKeepsLowerBound(y, x, s[1..]);
      var t := Insert(x, s[1..]);
      forall k | 0 <= k < |[s[0]] + t|
        ensures LexLe(y, ([s[0]] + t)[k])
      {
        if k > 0 { assert ([s[0]] + t)[k] == t[k - 1]; }
      }
    }
  }

  lemma {:induction false} InsertKeepsSorted(x: string, s: seq<string>)
    requires Sorted(s)
    ensures Sorted(Insert(x, s))
  {
    if s == [] {
    } else if LexLe(x, s[0]) {
      forall j | 0 <= j < |s|
        ensures LexLe(x, s[j])
      {
        if j > 0 { LexTransitive(x, s[0], s[j]); }
      }
      SortedCons(x, s);
    } else {
      LexTotal(x, s[0]);
      var rest := s[1..];
      assert Sorted(rest) && LowerBound(s[0], rest) by {
        forall k | 0 <= k < |rest|
          ensures rest[k] == s[k + 1]
        {
        }
      }
      InsertKeepsSorted(x, rest);
      InsertKeepsLowerBound(s[0], x, rest);
      SortedCons(s[0], Insert(x, rest));
    }
  }

  /** sort(): an ascending permutation of its input. */
  function Sort(s: seq<string>): (r: seq<string>)
    ensures Sorted(r)
    ensures multiset(r) == multiset(s)
    ensures |r| == |s|
  {
    if s == [] then []
    else
      var rest := Sort(s[1..]);
      InsertKeepsSorted(s[0], rest);
      InsertPermutes(s[0], rest);
      MultisetCons(s);
      Insert(s[0], rest)
  }

  /** The head of an ascending sequence sorts at or before each of its elements. */
  lemma HeadIsLeast(s: seq<string>, x: string)
    requires Sorted(s) && x in s
    ensures LexLe(s[0], x)
  {
    var i :| 0 <= i < |s| && s[i] == x;
    if i == 0 { LexTotal(x, x); }
  }

  /** Equal multisets with equal heads have equal tails. */
  lemma MultisetTails(a: seq<string>, b: seq<string>)
    requires a != [] && b != [] && a[0] == b[0]
    requires multiset(a) == multiset(b)
    ensures multiset(a[1..]) == multiset(b[1..])
  {
    assert a == [a[0]] + a[1..] && b == [b[0]] + b[1..];
    calc {
      multiset(a[1..]);
      multiset(a) - multiset{a[0]};
      multiset(b) - multiset{b[0]};
      multiset(b[1..]);
    }
  }

  /** Two ascending sequences holding the same paths are the same sequence. */
  lemma {:induction false} SortedUnique(a: seq<string>, b: seq<string>)
    requires Sorted(a) && Sorted(b)
    requires multiset(a) == multiset(b)
    ensures a == b
  {
    if a != [] {
      assert |b| == |multiset(b)| == |multiset(a)| == |a|;
      assert a[0] in multiset(b) && b[0] in multiset(a);
      HeadIsLeast(b, a[0]);
      HeadIsLeast(a, b[0]);
      LexAntisymmetric(a[0], b[0]);
      MultisetTails(a, b);
      SortedUnique(a[1..], b[1..]);
      assert a == [a[0]] + a[1..] && b == [b[0]] + b[1..];
    }
  }

  /** Sorting depends on nothing but which paths there are. */
  lemma SortIgnoresOrder(a: seq<string>, b: seq<string>)
    requires multiset(a) == multiset(b)
    ensures Sort(a) == Sort(b)
  {
    SortedUnique(Sort(a), Sort(b));
  }
}
