/** Python's ordering of `str` values (code-point lexicographic, a proper prefix
    first) and `sorted(...)` of a list of strings. */
module Lexicon {
  import opened Common

  /** `a < b` on Python strings. */
  predicate StrLess(a: string, b: string)
  {
    StrLessFrom(a, b, 0)
  }

  /** `a[i:] < b[i:]`, given that the first i characters agree. */
  predicate StrLessFrom(a: string, b: string, i: nat)
    decreases |a| - i
  {
    if i >= |a| then i < |b|
    else if i >= |b| then false
    else a[i] < b[i] || (a[i] == b[i] && StrLessFrom(a, b, i + 1))
  }

  lemma {:induction false} StrLessFromIrreflexive(a: string, i: nat)
    ensures !StrLessFrom(a, a, i)
    decreases |a| - i
  {
    if i < |a| {
      StrLessFromIrreflexive(a, i + 1);
    }
  }

  lemma StrLessIrreflexive(a: string)
    ensures !StrLess(a, a)
  {
    StrLessFromIrreflexive(a, 0);
  }

  lemma {:induction false} StrLessFromTransitive(a: string, b: string, c: string, i: nat)
    requires StrLessFrom(a, b, i) && StrLessFrom(b, c, i)
    ensures StrLessFrom(a, c, i)
    decreases |a| - i
  {
    if i < |a| && i < |b| && i < |c| && a[i] == b[i] && b[i] == c[i] {
      StrLessFromTransitive(a, b, c, i + 1);
    }
  }

  lemma StrLessTransitive(a: string, b: string, c: string)
    requires StrLess(a, b) && StrLess(b, c)
    ensures StrLess(a, c)
  {
    StrLessFromTransitive(a, b, c, 0);
  }

  lemma {:induction false} StrLessFromTotal(a: string, b: string, i: nat)
    requires i <= |a| && i <= |b| && a[..i] == b[..i]
    ensures a == b || StrLessFrom(a, b, i) || StrLessFrom(b, a, i)
    ensures !(StrLessFrom(a, b, i) && StrLessFrom(b, a, i))
    decreases |a| - i
  {
    if i == |a| && i == |b| {
      assert a == a[..i] && b == b[..i];
    } else if i < |a| && i < |b| && a[i] == b[i] {
      assert a[..i + 1] == a[..i] + [a[i]] && b[..i + 1] == b[..i] + [b[i]];
      StrLessFromTotal(a, b, i + 1);
    }
  }

  /** Any two strings are equal or ordered one way, and never both ways. */
  lemma StrLessTotal(a: string, b: string)
    ensures a == b || StrLess(a, b) || StrLess(b, a)
    ensures !(StrLess(a, b) && StrLess(b, a))
  {
    StrLessFromTotal(a, b, 0);
  }

  /** Non-decreasing in Python's string order. */
  predicate Ascending(s: seq<string>)
  {
    forall i, j :: 0 <= i < j < |s| ==> !StrLess(s[j], s[i])
  }

  /** Strictly increasing: ascending with no repeated string. */
  predicate StrictlyAscending(s: seq<string>)
  {
    forall i, j :: 0 <= i < j < |s| ==> StrLess(s[i], s[j])
  }

  function InsertAsc(x: string, r: seq<string>): (r': seq<string>)
    requires Ascending(r)
    ensures Ascending(r')
    ensures multiset(r') == multiset(r) + multiset{x}
  {
    if r == [] then [x]
    else if StrLess(r[0], x) then
      var tail := InsertAsc(x, r[1..]);
      assert r == [r[0]] + r[1..];
      InsertAscHead(x, r, tail);
      [r[0]] + tail
    else
      StrLessTotal(r[0], x);
      AscendingCons(x, r);
      [x] + r
  }

  lemma AscendingCons(x: string, r: seq<string>)
    requires Ascending(r) && r != [] && !StrLess(r[0], x)
    ensures Ascending([x] + r)
  {
    forall j | 0 < j < |r| + 1
      ensures !StrLess(([x] + r)[j], x)
    {
      if j > 1 && StrLess(r[j - 1], x) {
        StrLessTotal(r[0], r[j - 1]);
        StrLessTotal(r[0], x);
        if r[0] != r[j - 1] {
          StrLessTransitive(r[0], r[j - 1], x);
        }
      }
    }
  }

  lemma InsertAscHead(x: string, r: seq<string>, tail: seq<string>)
    requires Ascending(r) && r != [] && StrLess(r[0], x) && Ascending(tail)
    requires multiset(tail) == multiset(r[1..]) + multiset{x}
    ensures Ascending([r[0]] + tail)
  {
    forall j | 0 <= j < |tail|
      ensures !StrLess(tail[j], r[0])
    {
      assert tail[j] in multiset(tail);
      StrLessTotal(tail[j], r[0]);
      if tail[j] == x {
      } else {
        assert tail[j] in multiset(r[1..]);
        var m :| 0 <= m < |r[1..]| && r[1..][m] == tail[j];
        assert r[m + 1] == tail[j];
      }
    }
  }

  /** `sorted(s)` for a list of strings: ascending and a permutation of `s`. */
  function SortAsc(s: seq<string>): (r: seq<string>)
    ensures Ascending(r)
    ensures multiset(r) == multiset(s)
  {
    if s == [] then []
    else
      assert s == [s[0]] + s[1..];
      InsertAsc(s[0], SortAsc(s[1..]))
  }

  /** Sorting a duplicate-free list gives a strictly increasing one. */
  lemma {:induction false} SortAscNoDup(s: seq<string>)
    requires NoDup(s)
    ensures StrictlyAscending(SortAsc(s))
    ensures ToSet(SortAsc(s)) == ToSet(s)
  {
    var r := SortAsc(s);
    forall x
      ensures x in r <==> x in s
    {
      assert x in r <==> x in multiset(r);
      assert x in s <==> x in multiset(s);
    }
    forall i, j | 0 <= i < j < |r|
      ensures StrLess(r[i], r[j])
    {
      StrLessTotal(r[i], r[j]);
      if r[i] == r[j] {
        MultisetTwice(r, i, j);
        NoDupMultiset(s, r[i]);
      }
    }
  }

  lemma MultisetTwice<T>(r: seq<T>, i: nat, j: nat)
    requires i < j < |r| && r[i] == r[j]
    ensures multiset(r)[r[i]] >= 2
  {
    assert r == r[..i] + [r[i]] + r[i + 1..j] + [r[j]] + r[j + 1..];
  }

  lemma {:induction false} NoDupMultiset<T>(s: seq<T>, x: T)
    requires NoDup(s)
    ensures multiset(s)[x] <= 1
    decreases |s|
  {
    if s != [] {
      assert s == [s[0]] + s[1..];
      assert NoDup(s[1..]);
      NoDupMultiset(s[1..], x);
      if s[0] == x {
        assert x !in s[1..];
      }
    }
  }

  /** A strictly increasing list is fixed by its set of elements; so
      `sorted(set(...))` does not depend on the set's iteration order. */
  lemma {:induction false} StrictlyAscendingUnique(a: seq<string>, b: seq<string>)
    requires StrictlyAscending(a) && StrictlyAscending(b) && ToSet(a) == ToSet(b)
    ensures a == b
    decreases |a|
  {
    assert b != [] ==> b[0] in ToSet(b);
    if a != [] {
      assert a[0] in ToSet(a);
      assert b[0] in ToSet(b);
      var i :| 0 <= i < |a| && a[i] == b[0];
      var j :| 0 <= j < |b| && b[j] == a[0];
      if i > 0 && j > 0 {
        StrLessTotal(b[0], b[j]);
      }
      var x0 := a[0];
      StrLessIrreflexive(x0);
      forall x
        ensures x in ToSet(a[1..]) <==> x in ToSet(b[1..])
      {
        if x in a[1..] {
          var k :| 0 <= k < |a| - 1 && a[1..][k] == x;
          assert StrLess(x0, a[k + 1]);
          assert x in ToSet(b);
          var m :| 0 <= m < |b| && b[m] == x;
          assert m != 0;
          assert b[1..][m - 1] == x;
        }
        if x in b[1..] {
          var k :| 0 <= k < |b| - 1 && b[1..][k] == x;
          assert StrLess(b[0], b[k + 1]);
          assert x in ToSet(a);
          var m :| 0 <= m < |a| && a[m] == x;
          assert m != 0;
          assert a[1..][m - 1] == x;
        }
      }
      assert ToSet(a[1..]) == ToSet(b[1..]);
      StrictlyAscendingUnique(a[1..], b[1..]);
      assert a == [a[0]] + a[1..] && b == [b[0]] + b[1..];
    }
  }
}
