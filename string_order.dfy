/**
 * Python's ordering of `str` values (code point by code point, a proper
 * prefix first) and the `sorted` built-in over a list of strings, modelled
 * as an insertion sort.
 */
module StringOrder {

  /** `a <= b` on Python strings. */
  predicate LessOrEqual(a: string, b: string)
    decreases |a|
  {
    a == [] || (b != [] && (a[0] < b[0] || (a[0] == b[0] && LessOrEqual(a[1..], b[1..]))))
  }

  lemma {:induction false} LessOrEqualTotal(a: string, b: string)
    ensures LessOrEqual(a, b) || LessOrEqual(b, a)
    decreases |a|
  {
    if a != [] && b != [] && a[0] == b[0] {
      LessOrEqualTotal(a[1..], b[1..]);
    }
  }

  lemma {:induction false} LessOrEqualTransitive(a: string, b: string, c: string)
    requires LessOrEqual(a, b) && LessOrEqual(b, c)
    ensures LessOrEqual(a, c)
    decreases |a|
  {
    if a != [] && a[0] == b[0] && b[0] == c[0] {
      LessOrEqualTransitive(a[1..], b[1..], c[1..]);
    }
  }

  lemma {:induction false} LessOrEqualAntisymmetric(a: string, b: string)
    requires LessOrEqual(a, b) && LessOrEqual(b, a)
    ensures a == b
    decreases |a|
  {
    if a != [] {
      LessOrEqualAntisymmetric(a[1..], b[1..]);
      assert a == [a[0]] + a[1..] && b == [b[0]] + b[1..];
    }
  }

  predicate Sorted(s: seq<string>) {
    forall i, j :: 0 <= i < j < |s| ==> LessOrEqual(s[i], s[j])
  }

  /** Places `x` into an already sorted list. */
  function Insert(x: string, s: seq<string>): (r: seq<string>)
    requires Sorted(s)
    ensures Sorted(r)
    ensures multiset(r) == multiset(s) + multiset{x}
  {
    if s == [] then [x]
    else if LessOrEqual(x, s[0]) then
      assert forall j :: 0 < j < |s| ==> LessOrEqual(x, s[j]) by {
        forall j | 0 < j < |s| ensures LessOrEqual(x, s[j]) { LessOrEqualTransitive(x, s[0], s[j]); }
      }
      PrependSorted(x, s);
      [x] + s
    else
      LessOrEqualTotal(x, s[0]);
      var t := Insert(x, s[1..]);
      assert s == [s[0]] + s[1..];
      InsertKeepsLowerBound(s[0], x, s[1..], t);
      PrependSorted(s[0], t);
      [s[0]] + t
  }

  /** A lower bound of a list and of a new element bounds the list with the element added. */
  lemma InsertKeepsLowerBound(y: string, x: string, s: seq<string>, t: seq<string>)
    requires LessOrEqual(y, x) && forall j :: 0 <= j < |s| ==> LessOrEqual(y, s[j])
    requires multiset(t) == multiset(s) + multiset{x}
    ensures forall j :: 0 <= j < |t| ==> LessOrEqual(y, t[j])
  {
    forall j | 0 <= j < |t| ensures LessOrEqual(y, t[j]) {
      assert t[j] in multiset(t);
      if t[j] != x {
        assert t[j] in multiset(s);
      }
    }
  }

  lemma PrependSorted(y: string, t: seq<string>)
    requires Sorted(t) && forall j :: 0 <= j < |t| ==> LessOrEqual(y, t[j])
    ensures Sorted([y] + t)
  {
  }

  /** Python's `sorted(names)`: a sorted permutation of `names`. */
  function Sort(names: seq<string>): (r: seq<string>)
    ensures Sorted(r)
    ensures multiset(r) == multiset(names)
  {
    if names == [] then []
    else
      var r := Insert(names[0], Sort(names[1..]));
      assert names == [names[0]] + names[1..];
      r
  }

  /**
   * The order is total and antisymmetric, so a list has one sorted
   * permutation only: Sort agrees with any correct sort.
   */
  lemma {:induction false} SortedPermutationIsUnique(a: seq<string>, b: seq<string>)
    requires Sorted(a) && Sorted(b) && multiset(a) == multiset(b)
    ensures a == b
    decreases |a|
  {
    assert |a| == |b| by { assert |multiset(a)| == |multiset(b)|; }
    if a != [] {
      assert a[0] == b[0] by {
        assert a[0] in multiset(b) && b[0] in multiset(a);
        HeadIsLeast(b, a[0]);
        HeadIsLeast(a, b[0]);
        LessOrEqualAntisymmetric(a[0], b[0]);
      }
      assert multiset(a[1..]) == multiset(b[1..]) by {
        TailMultiset(a);
        TailMultiset(b);
      }
      assert Sorted(a[1..]) && Sorted(b[1..]) by {
        SortedTail(a);
        SortedTail(b);
      }
      SortedPermutationIsUnique(a[1..], b[1..]);
      assert a == [a[0]] + a[1..] && b == [b[0]] + b[1..];
    }
  }

  lemma HeadIsLeast(s: seq<string>, x: string)
    requires Sorted(s) && x in s
    ensures LessOrEqual(s[0], x)
  {
    var i :| 0 <= i < |s| && s[i] == x;
    if i == 0 { LessOrEqualReflexive(x); }
  }

  lemma TailMultiset(s: seq<string>)
    requires s != []
    ensures multiset(s[1..]) == multiset(s) - multiset{s[0]}
  {
    assert s == [s[0]] + s[1..];
  }

  lemma SortedTail(s: seq<string>)
    requires s != [] && Sorted(s)
    ensures Sorted(s[1..])
  {
  }

  lemma {:induction false} LessOrEqualReflexive(a: string)
    ensures LessOrEqual(a, a)
    decreases |a|
  {
    if a != [] { LessOrEqualReflexive(a[1..]); }
  }
}
