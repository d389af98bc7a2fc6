/**
 The default JavaScript sort of strings: stable, ascending by code unit. Values are compared through
 a `code` function that gives the code units of a value.
 */
module Sorting {

  predicate LexLess(a: seq<int>, b: seq<int>)
  {
    b != [] && (a == [] || a[0] < b[0] || (a[0] == b[0] && LexLess(a[1..], b[1..])))
  }

  predicate LexAtMost(a: seq<int>, b: seq<int>)
  {
    a == b || LexLess(a, b)
  }

  lemma {:induction false} LexTransitive(a: seq<int>, b: seq<int>, c: seq<int>)
    requires LexLess(a, b) && LexLess(b, c)
    ensures LexLess(a, c)
  {
    if a != [] && a[0] == b[0] == c[0] {
      LexTransitive(a[1..], b[1..], c[1..]);
    }
  }

  lemma {:induction false} LexIrreflexive(a: seq<int>)
    ensures !LexLess(a, a)
  {
    if a != [] {
      LexIrreflexive(a[1..]);
    }
  }

  lemma {:induction false} LexTotal(a: seq<int>, b: seq<int>)
    ensures LexLess(a, b) || a == b || LexLess(b, a)
  {
    if a != [] && b != [] && a[0] == b[0] {
      LexTotal(a[1..], b[1..]);
      assert a == [a[0]] + a[1..] && b == [b[0]] + b[1..];
    }
  }

  /** Where two texts first differ, the one that ends there or has the smaller unit there comes first. */
  lemma {:induction false} LexLessExactly(a: seq<int>, b: seq<int>)
    ensures LexLess(a, b) <==>
              exists k :: 0 <= k < |b| && k <= |a| && a[..k] == b[..k] && (k == |a| || (k < |a| && a[k] < b[k]))
  {
    if a != [] && b != [] && a[0] == b[0] {
      LexLessExactly(a[1..], b[1..]);
      assert forall k :: 1 <= k <= |a| ==> a[..k] == [a[0]] + a[1..][..k - 1];
      assert forall k :: 1 <= k <= |b| ==> b[..k] == [b[0]] + b[1..][..k - 1];
      if LexLess(a, b) {
        var k :| 0 <= k < |b[1..]| && k <= |a[1..]| && a[1..][..k] == b[1..][..k] && (k == |a[1..]| || (k < |a[1..]| && a[1..][k] < b[1..][k]));
        assert a[..k + 1] == b[..k + 1];
      }
      if k :| 0 <= k < |b| && k <= |a| && a[..k] == b[..k] && (k == |a| || (k < |a| && a[k] < b[k])) {
        assert k > 0 && a[1..][..k - 1] == a[..k][1..] && b[1..][..k - 1] == b[..k][1..];
      }
    } else if b != [] {
      assert a[..0] == b[..0];
    }
  }

  function Insert<T>(code: T -> seq<int>, x: T, s: seq<T>): (r: seq<T>)
    ensures multiset(r) == multiset(s) + multiset{x}
  {
    if s == [] || LexAtMost(code(x), code(s[0])) then
      assert multiset([x] + s) == multiset(s) + multiset{x};
      [x] + s
    else
      assert s == [s[0]] + s[1..];
      [s[0]] + Insert(code, x, s[1..])
  }

  function Sort<T>(code: T -> seq<int>, s: seq<T>): (r: seq<T>)
    ensures multiset(r) == multiset(s)
  {
    if s == [] then [] else
      assert s == [s[0]] + s[1..];
      Insert(code, s[0], Sort(code, s[1..]))
  }

  ghost predicate StrictlySorted<T>(code: T -> seq<int>, s: seq<T>)
  {
    forall i, j :: 0 <= i < j < |s| ==> LexLess(code(s[i]), code(s[j]))
  }

  ghost predicate Injective<T(!new)>(code: T -> seq<int>)
  {
    forall x, y :: code(x) == code(y) ==> x == y
  }

  ghost predicate NoDuplicates<T>(s: seq<T>)
  {
    forall i, j :: 0 <= i < j < |s| ==> s[i] != s[j]
  }

  lemma MembersOfSort<T(!new)>(code: T -> seq<int>, s: seq<T>)
    ensures |Sort(code, s)| == |s|
    ensures forall x :: x in Sort(code, s) <==> x in s
  {
    var r := Sort(code, s);
    assert |r| == |multiset(r)| == |multiset(s)| == |s|;
    forall x ensures x in r <==> x in s {
      assert x in r <==> x in multiset(r);
      assert x in s <==> x in multiset(s);
    }
  }

  lemma {:induction false} InsertKeepsOrder<T(!new)>(code: T -> seq<int>, x: T, s: seq<T>)
    requires Injective(code) && StrictlySorted(code, s) && x !in s
    ensures StrictlySorted(code, Insert(code, x, s))
  {
    if s == [] {
    } else if LexAtMost(code(x), code(s[0])) {
      assert code(x) != code(s[0]) by { assert s[0] in s; }
      forall j | 0 <= j < |s| ensures LexLess(code(x), code(s[j])) {
        if j > 0 { LexTransitive(code(x), code(s[0]), code(s[j])); }
      }
    } else {
      var rest := Insert(code, x, s[1..]);
      InsertKeepsOrder(code, x, s[1..]);
      LexTotal(code(x), code(s[0]));
      forall j | 0 <= j < |rest| ensures LexLess(code(s[0]), code(rest[j])) {
        assert rest[j] in multiset(rest);
        assert rest[j] == x || rest[j] in s[1..];
      }
    }
  }

  /** Distinct values come out strictly ascending. */
  lemma {:induction false} SortSorts<T(!new)>(code: T -> seq<int>, s: seq<T>)
    requires Injective(code) && NoDuplicates(s)
    ensures StrictlySorted(code, Sort(code, s))
  {
    if s != [] {
      SortSorts(code, s[1..]);
      MembersOfSort(code, s[1..]);
      assert s[0] !in s[1..];
      InsertKeepsOrder(code, s[0], Sort(code, s[1..]));
    }
  }

  /** A strictly ascending sequence is determined by its elements. */
  lemma {:induction false} SortedIsUnique<T(!new)>(code: T -> seq<int>, a: seq<T>, b: seq<T>)
    requires StrictlySorted(code, a) && StrictlySorted(code, b)
    requires forall x :: x in a <==> x in b
    ensures a == b
  {
    assert b != [] ==> b[0] in b;
    if a != [] {
      assert a[0] in a;
      assert b != [];
      if a[0] != b[0] {
        var i :| 0 <= i < |b| && b[i] == a[0];
        var j :| 0 <= j < |a| && a[j] == b[0];
        LexTransitive(code(a[0]), code(b[0]), code(a[0]));
        LexIrreflexive(code(a[0]));
      }
      forall x ensures x in a[1..] <==> x in b[1..] {
        LexIrreflexive(code(a[0]));
        assert a == [a[0]] + a[1..] && b == [b[0]] + b[1..];
        if x in a[1..] { assert x in a; assert x != a[0]; }
        if x in b[1..] { assert x in b; assert x != b[0]; }
      }
      SortedIsUnique(code, a[1..], b[1..]);
    }
  }

  /** Sorting forgets the order it was given. */
  lemma SortIgnoresOrder<T(!new)>(code: T -> seq<int>, s: seq<T>, t: seq<T>)
    requires Injective(code) && NoDuplicates(s) && NoDuplicates(t)
    requires forall x :: x in s <==> x in t
    ensures Sort(code, s) == Sort(code, t)
  {
    SortSorts(code, s);
    SortSorts(code, t);
    MembersOfSort(code, s);
    MembersOfSort(code, t);
    SortedIsUnique(code, Sort(code, s), Sort(code, t));
  }
}
