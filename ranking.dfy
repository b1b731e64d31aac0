/** Ranking of scored terms: Python's order on `(score, token)` tuples and
    `sorted(data, reverse=True)[:k]`, and the stable sort by score alone that
    `sorted(..., key=lambda x: x[1], reverse=True)` and `list.sort(key=..., reverse=True)`
    perform on `(term, score)` pairs. */
module Ranking {
  import opened Common
  import opened Lexicon

  // ---------------------------------------------------------------------------
  // (score, token) tuples in Python's tuple order

  type Scored = (real, string)

  /** Python's `x < y` on `(score, token)` tuples. */
  predicate Below(x: Scored, y: Scored)
  {
    x.0 < y.0 || (x.0 == y.0 && StrLess(x.1, y.1))
  }

  predicate AtMost(x: Scored, y: Scored)
  {
    x == y || Below(x, y)
  }

  lemma BelowTotal(x: Scored, y: Scored)
    ensures x == y || Below(x, y) || Below(y, x)
    ensures !(Below(x, y) && Below(y, x))
    ensures !Below(x, x)
  {
    StrLessTotal(x.1, y.1);
    StrLessIrreflexive(x.1);
  }

  lemma BelowTransitive(x: Scored, y: Scored, z: Scored)
    requires Below(x, y) && Below(y, z)
    ensures Below(x, z)
  {
    if x.0 == y.0 && y.0 == z.0 {
      StrLessTransitive(x.1, y.1, z.1);
    }
  }

  lemma AtMostTransitive(x: Scored, y: Scored, z: Scored)
    requires AtMost(x, y) && AtMost(y, z)
    ensures AtMost(x, z)
  {
    if x != y && y != z {
      BelowTransitive(x, y, z);
    }
  }

  lemma AtMostTotal(x: Scored, y: Scored)
    ensures AtMost(x, y) || AtMost(y, x)
  {
    BelowTotal(x, y);
  }

  lemma AtMostAntisymmetric(x: Scored, y: Scored)
    requires AtMost(x, y) && AtMost(y, x)
    ensures x == y
  {
    BelowTotal(x, y);
  }

  // ---------------------------------------------------------------------------
  // sorted(data, reverse=True)

  /** Non-increasing in tuple order. */
  predicate Descending(r: seq<Scored>)
  {
    forall i, j :: 0 <= i < j < |r| ==> AtMost(r[j], r[i])
  }

  /** Putting `h` in front of a descending `t` keeps it descending when `h` is at
      least the head of `t`. */
  lemma DescendingCons(h: Scored, t: seq<Scored>)
    ensures Descending(t) && (t == [] || AtMost(t[0], h)) ==> Descending([h] + t)
  {
    if Descending(t) && (t == [] || AtMost(t[0], h)) {
      forall j | 0 < j < |t| + 1
        ensures AtMost(([h] + t)[j], h)
      {
        if j > 1 {
          AtMostTransitive(t[j - 1], t[0], h);
        }
      }
    }
  }

  lemma DescendingTail(r: seq<Scored>)
    ensures Descending(r) && r != [] ==> Descending(r[1..])
  {
    if r != [] {
      assert forall i :: 0 <= i < |r| - 1 ==> r[1..][i] == r[i + 1];
    }
  }

  lemma DescendingPrefix(r: seq<Scored>, n: nat)
    requires Descending(r) && n <= |r|
    ensures Descending(r[..n])
  {
    assert forall i :: 0 <= i < n ==> r[..n][i] == r[i];
  }

  /** The head of a descending sequence is at least each of its elements. */
  lemma DescendingHead(r: seq<Scored>, x: Scored)
    requires Descending(r) && x in multiset(r)
    ensures AtMost(x, r[0])
  {
    var i :| 0 <= i < |r| && r[i] == x;
  }

  /** Inserts `x` after every element greater than it. */
  function InsertDesc(x: Scored, r: seq<Scored>): (r': seq<Scored>)
    ensures |r'| == |r| + 1
  {
    if r == [] then [x]
    else if Below(x, r[0]) then [r[0]] + InsertDesc(x, r[1..])
    else [x] + r
  }

  /** Insertion into a descending sequence keeps it descending and adds exactly `x`. */
  lemma {:induction false} InsertDescFacts(x: Scored, r: seq<Scored>)
    requires Descending(r)
    ensures Descending(InsertDesc(x, r))
    ensures multiset(InsertDesc(x, r)) == multiset(r) + multiset{x}
    ensures InsertDesc(x, r)[0] == x || (r != [] && InsertDesc(x, r)[0] == r[0])
    decreases |r|
  {
    if r != [] {
      if Below(x, r[0]) {
        assert r == [r[0]] + r[1..];
        DescendingTail(r);
        InsertDescFacts(x, r[1..]);
        DescendingCons(r[0], InsertDesc(x, r[1..]));
      } else {
        AtMostTotal(x, r[0]);
        DescendingCons(x, r);
      }
    }
  }

  /** `sorted(s, reverse=True)` on `(score, token)` tuples, by insertion. */
  function SortDesc(s: seq<Scored>): (r: seq<Scored>)
    ensures |r| == |s|
  {
    if s == [] then [] else InsertDesc(s[0], SortDesc(s[1..]))
  }

  /** Sorting yields a descending permutation of its input. */
  lemma {:induction false} SortDescFacts(s: seq<Scored>)
    ensures Descending(SortDesc(s))
    ensures multiset(SortDesc(s)) == multiset(s)
    decreases |s|
  {
    if s != [] {
      assert s == [s[0]] + s[1..];
      SortDescFacts(s[1..]);
      InsertDescFacts(s[0], SortDesc(s[1..]));
    }
  }

  /** A descending permutation is unique: whatever algorithm sorts, the result is
      this one. */
  lemma {:induction false} DescendingUnique(a: seq<Scored>, b: seq<Scored>)
    requires Descending(a) && Descending(b) && multiset(a) == multiset(b)
    ensures a == b
    decreases |a|
  {
    assert |a| == |multiset(a)| == |b|;
    if a != [] {
      SameHeads(a, b);
      DescendingTail(a);
      DescendingTail(b);
      DescendingUnique(a[1..], b[1..]);
      assert a == [a[0]] + a[1..] && b == [b[0]] + b[1..];
    }
  }

  /** Two non-empty descending permutations of each other start alike. */
  lemma SameHeads(a: seq<Scored>, b: seq<Scored>)
    requires Descending(a) && Descending(b) && multiset(a) == multiset(b) && a != [] && b != []
    ensures a[0] == b[0] && multiset(a[1..]) == multiset(b[1..])
  {
    assert a[0] in multiset(b) && b[0] in multiset(a);
    DescendingHead(b, a[0]);
    DescendingHead(a, b[0]);
    AtMostAntisymmetric(a[0], b[0]);
    MultisetTail(a);
    MultisetTail(b);
  }

  lemma MultisetTail<T>(a: seq<T>)
    requires a != []
    ensures multiset(a[1..]) == multiset(a) - multiset{a[0]}
  {
    assert a == [a[0]] + a[1..];
  }

  lemma SortDescOfDescending(a: seq<Scored>)
    requires Descending(a)
    ensures SortDesc(a) == a
  {
    SortDescFacts(a);
    DescendingUnique(SortDesc(a), a);
  }

  /** Merges two sequences, taking the head of `a` unless the head of `b` is greater. */
  function Merge(a: seq<Scored>, b: seq<Scored>): (r: seq<Scored>)
    ensures |r| == |a| + |b|
    decreases |a| + |b|
  {
    if a == [] then b
    else if b == [] then a
    else if AtMost(b[0], a[0]) then [a[0]] + Merge(a[1..], b)
    else [b[0]] + Merge(a, b[1..])
  }

  /** Merging keeps every element, and the head of a merge is the head of one side. */
  lemma {:induction false} MergeMultiset(a: seq<Scored>, b: seq<Scored>)
    ensures multiset(Merge(a, b)) == multiset(a) + multiset(b)
    ensures Merge(a, b) != [] ==> (a != [] && Merge(a, b)[0] == a[0]) || (b != [] && Merge(a, b)[0] == b[0])
    decreases |a| + |b|
  {
    if a != [] && b != [] {
      if AtMost(b[0], a[0]) {
        assert a == [a[0]] + a[1..];
        MergeMultiset(a[1..], b);
      } else {
        assert b == [b[0]] + b[1..];
        MergeMultiset(a, b[1..]);
      }
    }
  }

  /** Merging descending sequences gives a descending sequence. */
  lemma {:induction false} MergeDescending(a: seq<Scored>, b: seq<Scored>)
    requires Descending(a) && Descending(b)
    ensures Descending(Merge(a, b))
    decreases |a| + |b|
  {
    if a != [] && b != [] {
      if AtMost(b[0], a[0]) {
        DescendingTail(a);
        MergeDescending(a[1..], b);
        MergeMultiset(a[1..], b);
        DescendingCons(a[0], Merge(a[1..], b));
      } else {
        DescendingTail(b);
        AtMostTotal(a[0], b[0]);
        MergeDescending(a, b[1..]);
        MergeMultiset(a, b[1..]);
        DescendingCons(b[0], Merge(a, b[1..]));
      }
    }
  }

  /** Sorting a concatenation merges the two sorted parts. */
  lemma SortDescAppend(s1: seq<Scored>, s2: seq<Scored>)
    ensures SortDesc(s1 + s2) == Merge(SortDesc(s1), SortDesc(s2))
  {
    assert multiset(s1 + s2) == multiset(s1) + multiset(s2);
    SortDescFacts(s1);
    SortDescFacts(s2);
    SortDescFacts(s1 + s2);
    MergeMultiset(SortDesc(s1), SortDesc(s2));
    MergeDescending(SortDesc(s1), SortDesc(s2));
    DescendingUnique(SortDesc(s1 + s2), Merge(SortDesc(s1), SortDesc(s2)));
  }

  /** The first k elements of a merge depend only on the first k elements of each side. */
  lemma {:induction false} MergePrefix(a: seq<Scored>, b: seq<Scored>, i: nat, j: nat, k: nat)
    requires i <= |a| && j <= |b| && k <= i + j
    requires (i == |a| || k <= i) && (j == |b| || k <= j)
    ensures k <= |Merge(a[..i], b[..j])| && k <= |Merge(a, b)|
    ensures Merge(a[..i], b[..j])[..k] == Merge(a, b)[..k]
    decreases k, 1
  {
    if k == 0 {
    } else if a == [] {
      assert a[..i] == [];
    } else if b == [] {
      assert b[..j] == [];
    } else if AtMost(b[0], a[0]) {
      MergePrefixLeft(a, b, i, j, k);
    } else {
      MergePrefixRight(a, b, i, j, k);
    }
  }

  lemma {:induction false} MergePrefixLeft(a: seq<Scored>, b: seq<Scored>, i: nat, j: nat, k: nat)
    requires 0 < i <= |a| && 0 < j <= |b| && 0 < k <= i + j
    requires (i == |a| || k <= i) && (j == |b| || k <= j)
    requires AtMost(b[0], a[0])
    ensures Merge(a[..i], b[..j])[..k] == Merge(a, b)[..k]
    decreases k, 0
  {
    assert a[..i] == [a[0]] + a[1..][..i - 1] && b[..j][0] == b[0];
    MergePrefix(a[1..], b, i - 1, j, k - 1);
    ConsPrefix(a[0], Merge(a[1..][..i - 1], b[..j]), Merge(a[1..], b), k);
  }

  lemma {:induction false} MergePrefixRight(a: seq<Scored>, b: seq<Scored>, i: nat, j: nat, k: nat)
    requires 0 < i <= |a| && 0 < j <= |b| && 0 < k <= i + j
    requires (i == |a| || k <= i) && (j == |b| || k <= j)
    requires !AtMost(b[0], a[0])
    ensures Merge(a[..i], b[..j])[..k] == Merge(a, b)[..k]
    decreases k, 0
  {
    assert b[..j] == [b[0]] + b[1..][..j - 1] && a[..i][0] == a[0];
    MergePrefix(a, b[1..], i, j - 1, k - 1);
    ConsPrefix(b[0], Merge(a[..i], b[1..][..j - 1]), Merge(a, b[1..]), k);
  }

  lemma ConsPrefix(x: Scored, p: seq<Scored>, q: seq<Scored>, k: nat)
    requires 0 < k && k - 1 <= |p| && k - 1 <= |q| && p[..k - 1] == q[..k - 1]
    ensures ([x] + p)[..k] == ([x] + q)[..k]
  {
    assert ([x] + p)[..k] == [x] + p[..k - 1];
    assert ([x] + q)[..k] == [x] + q[..k - 1];
  }

  function MinNat(a: nat, b: nat): nat
  {
    if a <= b then a else b
  }

  /** Python's `[:k]` end index, for any integer k (a negative k counts from the end). */
  function SliceEnd(len: nat, k: int): (e: nat)
    ensures e <= len
    ensures k >= 0 ==> e == MinNat(k, len)
    ensures k < 0 ==> e == if len + k > 0 then len + k else 0
  {
    if k >= 0 then MinNat(k, len) else if len + k > 0 then len + k else 0
  }

  /** `sorted(data, reverse=True)[:k]`. */
  function TopK(data: seq<Scored>, k: int): seq<Scored>
  {
    SortDesc(data)[..SliceEnd(|data|, k)]
  }

  /** The result is drawn from `data` in non-increasing tuple order; for k >= 0
      it holds min(k, |data|) elements, and k = 0 gives nothing. */
  lemma TopKShape(data: seq<Scored>, k: int)
    ensures k >= 0 ==> |TopK(data, k)| == MinNat(k, |data|)
    ensures Descending(TopK(data, k))
    ensures multiset(TopK(data, k)) <= multiset(data)
    ensures k == 0 ==> TopK(data, k) == []
  {
    SortDescFacts(data);
    var r := SortDesc(data);
    var n := SliceEnd(|data|, k);
    DescendingPrefix(r, n);
    assert r == r[..n] + r[n..];
    assert multiset(r) == multiset(r[..n]) + multiset(r[n..]);
  }

  /** Tuples with equal scores are kept in decreasing token order. */
  lemma TopKTies(data: seq<Scored>, k: int, i: nat, j: nat)
    requires i < j < |TopK(data, k)| && TopK(data, k)[i].0 == TopK(data, k)[j].0
    ensures !StrLess(TopK(data, k)[i].1, TopK(data, k)[j].1)
  {
    SortDescFacts(data);
    DescendingPrefix(SortDesc(data), SliceEnd(|data|, k));
    var r := TopK(data, k);
    assert AtMost(r[j], r[i]);
    StrLessTotal(r[i].1, r[j].1);
  }

  /** Every kept tuple is at least every dropped one. */
  lemma TopKKeepsLargest(data: seq<Scored>, k: int, x: Scored, y: Scored)
    requires x in TopK(data, k)
    requires y in multiset(data) - multiset(TopK(data, k))
    ensures AtMost(y, x)
  {
    SortDescFacts(data);
    var n := SliceEnd(|data|, k);
    assert SortDesc(data) == SortDesc(data)[..n] + SortDesc(data)[n..];
    assert y in multiset(SortDesc(data)[n..]);
    DescendingSplit(SortDesc(data), n, x, y);
  }

  /** In a descending sequence everything before a cut is at least everything after it. */
  lemma DescendingSplit(r: seq<Scored>, n: nat, x: Scored, y: Scored)
    requires Descending(r) && n <= |r| && x in r[..n] && y in r[n..]
    ensures AtMost(y, x)
  {
    var p :| 0 <= p < n && r[..n][p] == x;
    var q :| 0 <= q < |r| - n && r[n..][q] == y;
    assert r[p] == x && r[n + q] == y;
  }

  /** Reducing after combining: the top k of the concatenated top j1 and top j2 of
      two parts of a group (j1, j2 >= k >= 0) is the top k of the whole group. */
  lemma TopKOfTopK(s1: seq<Scored>, s2: seq<Scored>, k: int, j1: int, j2: int)
    requires 0 <= k <= j1 && k <= j2
    ensures TopK(TopK(s1, j1) + TopK(s2, j2), k) == TopK(s1 + s2, k)
  {
    SortDescAppend(s1, s2);
    MergeOfPrefixes(s1, s2, SliceEnd(|s1|, j1), SliceEnd(|s2|, j2), k);
  }

  /** Sorting the concatenation of prefixes of the two sorted parts, cut at k,
      gives the merge of the sorted parts cut at k, when each prefix is whole or
      at least k long. */
  lemma MergeOfPrefixes(s1: seq<Scored>, s2: seq<Scored>, i: nat, j: nat, k: int)
    requires i <= |s1| && j <= |s2| && k >= 0
    requires (i == |s1| || k <= i) && (j == |s2| || k <= j)
    ensures SortDesc(SortDesc(s1)[..i] + SortDesc(s2)[..j])[..SliceEnd(i + j, k)]
      == Merge(SortDesc(s1), SortDesc(s2))[..SliceEnd(|s1| + |s2|, k)]
  {
    SortedPrefixes(s1, s2, i, j);
    MergePrefix(SortDesc(s1), SortDesc(s2), i, j, MinNat(k, i + j));
  }

  /** Prefixes of sorted sequences are sorted, so sorting their concatenation merges them. */
  lemma SortedPrefixes(s1: seq<Scored>, s2: seq<Scored>, i: nat, j: nat)
    requires i <= |s1| && j <= |s2|
    ensures SortDesc(SortDesc(s1)[..i] + SortDesc(s2)[..j]) == Merge(SortDesc(s1)[..i], SortDesc(s2)[..j])
  {
    SortDescFacts(s1);
    SortDescFacts(s2);
    DescendingPrefix(SortDesc(s1), i);
    DescendingPrefix(SortDesc(s2), j);
    SortDescOfDescending(SortDesc(s1)[..i]);
    SortDescOfDescending(SortDesc(s2)[..j]);
    SortDescAppend(SortDesc(s1)[..i], SortDesc(s2)[..j]);
  }

  /** The result depends only on the multiset of the group, not on the order in
      which its values arrive. */
  lemma TopKPermutation(a: seq<Scored>, b: seq<Scored>, k: int)
    requires multiset(a) == multiset(b)
    ensures TopK(a, k) == TopK(b, k)
  {
    SortDescFacts(a);
    SortDescFacts(b);
    DescendingUnique(SortDesc(a), SortDesc(b));
    assert |a| == |multiset(a)| == |b|;
  }

  /** Combining a group part by part: the top k of the concatenated top k's of
      any number of parts is the top k of the whole group (k >= 0). */
  lemma {:induction false} TopKOfParts(parts: seq<seq<Scored>>, k: int)
    requires k >= 0
    ensures TopK(Flatten(TopKEach(parts, k)), k) == TopK(Flatten(parts), k)
    decreases |parts|
  {
    if parts == [] {
    } else {
      var n := |parts| - 1;
      var x := Flatten(TopKEach(parts[..n], k));
      var f := Flatten(parts[..n]);
      var p := parts[n];
      assert TopKEach(parts, k)[..n] == TopKEach(parts[..n], k);
      assert Flatten(TopKEach(parts, k)) == x + TopK(p, k);
      TopKOfParts(parts[..n], k);
      // the top k of the top k of the last part is that top k
      TopKOfTopK(p, [], k, k, k);
      assert TopK([], k) == [] && TopK(p, k) + [] == TopK(p, k) && p + [] == p;
      assert TopK(TopK(p, k), k) == TopK(p, k);
      TopKOfTopK(x, TopK(p, k), k, k, k);
      TopKOfTopK(f, p, k, k, k);
    }
  }

  /** Each part replaced by its top k. */
  function TopKEach(parts: seq<seq<Scored>>, k: int): (r: seq<seq<Scored>>)
    ensures |r| == |parts|
    ensures forall i :: 0 <= i < |parts| ==> r[i] == TopK(parts[i], k)
  {
    seq(|parts|, i requires 0 <= i < |parts| => TopK(parts[i], k))
  }

  /** With a negative k the combiner is not safe: `[:-1]` drops one tuple per pass. */
  lemma TopKOfTopKNegative()
    ensures var s1 := [(1.0, "a"), (0.0, "a")];
      TopK(TopK(s1, -1) + TopK([], -1), -1) != TopK(s1 + [], -1)
  {
    var s1 := [(1.0, "a"), (0.0, "a")];
    assert SortDesc(s1[1..]) == [(0.0, "a")];
    assert SortDesc(s1) == s1;
    assert TopK(s1, -1) == [(1.0, "a")];
    assert SortDesc([(1.0, "a")]) == [(1.0, "a")];
    assert s1 + [] == s1;
  }

  // ---------------------------------------------------------------------------
  // (term, score) pairs, stable-sorted by score alone

  type TermScore = (string, real)

  /** Scores never increase along the sequence. */
  predicate ScoresDescending(r: seq<TermScore>)
  {
    forall i, j :: 0 <= i < j < |r| ==> r[j].1 <= r[i].1
  }

  /** The pairs with score `v`, in order. */
  function WithScore(s: seq<TermScore>, v: real): seq<TermScore>
  {
    if s == [] then []
    else WithScore(s[..|s| - 1], v) + (if s[|s| - 1].1 == v then [s[|s| - 1]] else [])
  }

  lemma WithScoreSnoc(s: seq<TermScore>, x: TermScore, v: real)
    ensures WithScore(s + [x], v) == WithScore(s, v) + (if x.1 == v then [x] else [])
  {
    assert (s + [x])[..|s|] == s;
  }

  /** Inserts `x` after every pair whose score is at least its own. */
  function InsertByScore(r: seq<TermScore>, x: TermScore): seq<TermScore>
  {
    if r == [] || r[|r| - 1].1 >= x.1 then r + [x]
    else InsertByScore(r[..|r| - 1], x) + [r[|r| - 1]]
  }

  /** Insertion into a score-descending sequence keeps it score-descending, adds
      exactly `x`, and puts `x` after the pairs with its score. */
  lemma {:induction false} InsertByScoreFacts(r: seq<TermScore>, x: TermScore)
    requires ScoresDescending(r)
    ensures ScoresDescending(InsertByScore(r, x))
    ensures multiset(InsertByScore(r, x)) == multiset(r) + multiset{x}
    ensures forall v :: WithScore(InsertByScore(r, x), v) == WithScore(r, v) + (if x.1 == v then [x] else [])
    decreases |r|
  {
    if r == [] || r[|r| - 1].1 >= x.1 {
      forall v ensures WithScore(r + [x], v) == WithScore(r, v) + (if x.1 == v then [x] else []) {
        WithScoreSnoc(r, x, v);
      }
    } else {
      var prefix := r[..|r| - 1];
      assert r == prefix + [r[|r| - 1]];
      InsertByScoreFacts(prefix, x);
      InsertByScoreShift(r, x, InsertByScore(prefix, x));
    }
  }

  lemma InsertByScoreShift(r: seq<TermScore>, x: TermScore, t: seq<TermScore>)
    requires ScoresDescending(r) && r != [] && r[|r| - 1].1 < x.1
    requires ScoresDescending(t)
    requires multiset(t) == multiset(r[..|r| - 1]) + multiset{x}
    requires forall v :: WithScore(t, v) == WithScore(r[..|r| - 1], v) + (if x.1 == v then [x] else [])
    ensures ScoresDescending(t + [r[|r| - 1]])
    ensures multiset(t + [r[|r| - 1]]) == multiset(r) + multiset{x}
    ensures forall v :: WithScore(t + [r[|r| - 1]], v) == WithScore(r, v) + (if x.1 == v then [x] else [])
  {
    var prefix := r[..|r| - 1];
    var last := r[|r| - 1];
    assert r == prefix + [last];
    ShiftAbove(r, x, t);
    ShiftWithScore(r, x, t);
  }

  lemma ShiftWithScore(r: seq<TermScore>, x: TermScore, t: seq<TermScore>)
    requires r != [] && r[|r| - 1].1 < x.1
    requires forall v :: WithScore(t, v) == WithScore(r[..|r| - 1], v) + (if x.1 == v then [x] else [])
    ensures forall v :: WithScore(t + [r[|r| - 1]], v) == WithScore(r, v) + (if x.1 == v then [x] else [])
  {
    var prefix := r[..|r| - 1];
    var last := r[|r| - 1];
    assert r == prefix + [last];
    forall v
      ensures WithScore(t + [last], v) == WithScore(r, v) + (if x.1 == v then [x] else [])
    {
      WithScoreSnoc(t, last, v);
      WithScoreSnoc(prefix, last, v);
    }
  }

  /** Every pair of the insertion into the prefix scores at least the last pair. */
  lemma ShiftAbove(r: seq<TermScore>, x: TermScore, t: seq<TermScore>)
    requires ScoresDescending(r) && r != [] && r[|r| - 1].1 < x.1
    requires ScoresDescending(t)
    requires multiset(t) == multiset(r[..|r| - 1]) + multiset{x}
    ensures ScoresDescending(t + [r[|r| - 1]])
  {
    var prefix := r[..|r| - 1];
    forall i | 0 <= i < |t|
      ensures r[|r| - 1].1 <= t[i].1
    {
      assert t[i] in multiset(t);
      if t[i] != x {
        assert t[i] in multiset(prefix);
        assert t[i] in prefix;
        var m :| 0 <= m < |prefix| && prefix[m] == t[i];
        assert r[m] == t[i];
      }
    }
    var u := t + [r[|r| - 1]];
    assert forall i :: 0 <= i < |t| ==> u[i] == t[i];
  }

  /** `sorted(s, key=lambda x: x[1], reverse=True)`, by insertion. */
  function StableSortByScore(s: seq<TermScore>): seq<TermScore>
  {
    if s == [] then []
    else InsertByScore(StableSortByScore(s[..|s| - 1]), s[|s| - 1])
  }

  /** The stable sort by score: scores non-increasing, a permutation of `s`, and the
      pairs with equal scores in their input order. */
  lemma {:induction false} StableSortByScoreFacts(s: seq<TermScore>)
    ensures ScoresDescending(StableSortByScore(s))
    ensures multiset(StableSortByScore(s)) == multiset(s)
    ensures forall v :: WithScore(StableSortByScore(s), v) == WithScore(s, v)
    decreases |s|
  {
    if s != [] {
      var prefix := s[..|s| - 1];
      assert s == prefix + [s[|s| - 1]];
      StableSortByScoreFacts(prefix);
      InsertByScoreFacts(StableSortByScore(prefix), s[|s| - 1]);
      forall v ensures WithScore(s, v) == WithScore(prefix, v) + (if s[|s| - 1].1 == v then [s[|s| - 1]] else []) {
        WithScoreSnoc(prefix, s[|s| - 1], v);
      }
    }
  }

  /** Where the insertion puts `x`: after the last pair whose score is at least
      its own. */
  lemma {:induction false} InsertByScoreAt(r: seq<TermScore>, x: TermScore, j: nat)
    requires j <= |r| && (j == 0 || r[j - 1].1 >= x.1)
    requires forall m :: j <= m < |r| ==> r[m].1 < x.1
    ensures InsertByScore(r, x) == r[..j] + [x] + r[j..]
    decreases |r|
  {
    if |r| == j {
      assert r[..j] == r && r[j..] == [];
    } else {
      var p := r[..|r| - 1];
      InsertByScoreAt(p, x, j);
      assert p[..j] == r[..j];
      assert p[j..] + [r[|r| - 1]] == r[j..];
    }
  }

  /** `list.sort(key=lambda x: x[1], reverse=True)` on an array, in place (insertion
      sort, which is stable like Python's sort). */
  method SortByScoreInPlace(a: array<TermScore>)
    modifies a
    ensures a[..] == StableSortByScore(old(a[..]))
  {
    ghost var input := a[..];
    var i := 0;
    while i < a.Length
      invariant 0 <= i <= a.Length
      invariant a[..i] == StableSortByScore(input[..i])
      invariant a[i..] == input[i..]
    {
      assert input[..i + 1] == input[..i] + [input[i]];
      assert a[i] == a[i..][0] == input[i..][0] == input[i];
      assert a[i + 1..] == a[i..][1..] && input[i + 1..] == input[i..][1..];
      InsertLast(a, i);
      i := i + 1;
    }
    assert input[..a.Length] == input;
  }

  /** Moves `a[i]` left past the pairs with a lower score: the first i + 1 pairs
      become the insertion of the old `a[i]` into the old first i pairs. */
  method InsertLast(a: array<TermScore>, i: nat)
    requires i < a.Length
    modifies a
    ensures a[..i + 1] == InsertByScore(old(a[..i]), old(a[i]))
    ensures a[i + 1..] == old(a[i + 1..])
  {
    var x := a[i];
    ghost var r := a[..i];
    var j := i;
    while j > 0 && a[j - 1].1 < x.1
      invariant 0 <= j <= i
      invariant forall m :: 0 <= m < j ==> a[m] == r[m]
      invariant forall m :: j < m <= i ==> a[m] == r[m - 1]
      invariant forall m :: i < m < a.Length ==> a[m] == old(a[m])
      invariant forall m :: j <= m < i ==> r[m].1 < x.1
    {
      a[j] := a[j - 1];
      j := j - 1;
    }
    InsertByScoreAt(r, x, j);
    a[j] := x;
    ghost var result := r[..j] + [x] + r[j..];
    forall m | 0 <= m <= i
      ensures a[m] == result[m]
    {
    }
    assert a[..i + 1] == result;
  }

  /** `[:k]` on a list of (term, score) pairs. */
  function TakeFirst(s: seq<TermScore>, k: int): seq<TermScore>
  {
    s[..SliceEnd(|s|, k)]
  }

  /** `sorted(s, key=lambda x: x[1], reverse=True)[:k]`. */
  function TopScores(s: seq<TermScore>, k: int): seq<TermScore>
  {
    TakeFirst(StableSortByScore(s), k)
  }

  /** Only pairs with score `v` are selected, so cutting a sequence short cuts
      its selection short. */
  lemma {:induction false} WithScorePrefix(t: seq<TermScore>, n: nat, v: real)
    requires n <= |t|
    ensures WithScore(t[..n], v) <= WithScore(t, v)
    decreases |t|
  {
    if n < |t| {
      var p := t[..|t| - 1];
      assert p[..n] == t[..n];
      WithScorePrefix(p, n, v);
    } else {
      assert t[..n] == t;
    }
  }

  /** The k best pairs by score: scores non-increasing, drawn from `s`, and
      min(k, |s|) of them for k >= 0. */
  lemma TopScoresShape(s: seq<TermScore>, k: int)
    ensures var r := TopScores(s, k);
      ScoresDescending(r) && multiset(r) <= multiset(s) && (k >= 0 ==> |r| == MinNat(k, |s|))
  {
    var t := StableSortByScore(s);
    StableSortByScoreFacts(s);
    var n := SliceEnd(|t|, k);
    assert t == t[..n] + t[n..];
    assert multiset(t) == multiset(t[..n]) + multiset(t[n..]);
  }

  /** No dropped pair scores above a kept one. */
  lemma TopScoresKeepsBest(s: seq<TermScore>, k: int, x: TermScore, y: TermScore)
    requires x in TopScores(s, k) && y in multiset(s) - multiset(TopScores(s, k))
    ensures y.1 <= x.1
  {
    var t := StableSortByScore(s);
    StableSortByScoreFacts(s);
    DescendingCut(t, SliceEnd(|t|, k), x, y);
  }

  /** In a score-descending sequence nothing after a cut scores above anything
      before it. */
  lemma DescendingCut(t: seq<TermScore>, n: nat, x: TermScore, y: TermScore)
    requires ScoresDescending(t) && n <= |t|
    requires x in t[..n] && y in multiset(t) - multiset(t[..n])
    ensures y.1 <= x.1
  {
    assert t == t[..n] + t[n..];
    assert multiset(t) == multiset(t[..n]) + multiset(t[n..]);
    var i :| 0 <= i < n && t[..n][i] == x;
    assert y in t[n..];
    var j :| 0 <= j < |t| - n && t[n..][j] == y;
    assert t[n + j] == y && t[i] == x;
  }

  /** Pairs with equal scores are kept in their input order, the earliest ones. */
  lemma TopScoresStable(s: seq<TermScore>, k: int, v: real)
    ensures WithScore(TopScores(s, k), v) <= WithScore(s, v)
  {
    var t := StableSortByScore(s);
    StableSortByScoreFacts(s);
    assert WithScore(t, v) == WithScore(s, v);
    WithScorePrefix(t, SliceEnd(|t|, k), v);
  }
}
