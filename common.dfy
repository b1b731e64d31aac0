/** Value types and sequence helpers shared by every pipeline variant, and the
    key-partitioned shuffle of the MapReduce runtime modelled as a pure function. */
module Common {

  datatype Option<T> = None | Some(value: T)

  /** The Python exceptions a reducer can raise on well-typed input. */
  datatype Error =
    | ZeroDivisionError   // `/` with a zero denominator
    | KeyError            // a dict lookup or `pop` of an absent key
    | NameError           // a loop variable read after a loop that never ran

  datatype Result<T> = Ok(value: T) | Err(error: Error)

  /** Python's `sum(...)` over integers. */
  function Sum(s: seq<int>): int
  {
    if s == [] then 0 else Sum(s[..|s| - 1]) + s[|s| - 1]
  }

  lemma {:induction false} SumAppend(a: seq<int>, b: seq<int>)
    ensures Sum(a + b) == Sum(a) + Sum(b)
    decreases |b|
  {
    if b == [] {
      assert a + b == a;
    } else {
      assert (a + b)[..|a + b| - 1] == a + b[..|b| - 1];
      SumAppend(a, b[..|b| - 1]);
    }
  }

  /** Every element is 1, as in the `(key, 1)` records of the counting mappers. */
  predicate AllOnes(s: seq<int>)
  {
    forall i :: 0 <= i < |s| ==> s[i] == 1
  }

  lemma {:induction false} SumOfOnes(s: seq<int>)
    requires AllOnes(s)
    ensures Sum(s) == |s|
    decreases |s|
  {
    if s != [] {
      SumOfOnes(s[..|s| - 1]);
    }
  }

  function ToSet<T>(s: seq<T>): set<T>
  {
    set x | x in s
  }

  predicate NoDup<T(==)>(s: seq<T>)
  {
    forall i, j :: 0 <= i < j < |s| ==> s[i] != s[j]
  }

  /** Number of occurrences of `x` in `s`. */
  function Occurrences<T(==)>(s: seq<T>, x: T): nat
  {
    if s == [] then 0
    else Occurrences(s[..|s| - 1], x) + (if s[|s| - 1] == x then 1 else 0)
  }

  /** The distinct elements of `s` in order of first occurrence. */
  function Dedup<T(==)>(s: seq<T>): (r: seq<T>)
    ensures NoDup(r)
    ensures ToSet(r) == ToSet(s)
    ensures |r| <= |s|
  {
    if s == [] then []
    else
      var prefix := Dedup(s[..|s| - 1]);
      assert ToSet(s) == ToSet(s[..|s| - 1]) + {s[|s| - 1]} by {
        assert s == s[..|s| - 1] + [s[|s| - 1]];
      }
      if s[|s| - 1] in prefix then prefix else prefix + [s[|s| - 1]]
  }

  lemma DedupMembers<T>(s: seq<T>, x: T)
    ensures x in Dedup(s) <==> x in s
  {
    assert x in ToSet(Dedup(s)) <==> x in Dedup(s);
    assert x in ToSet(s) <==> x in s;
  }

  /** The values of the records whose key is `k`, in arrival order. */
  function ValuesOf<K(==), V>(records: seq<(K, V)>, k: K): seq<V>
  {
    if records == [] then []
    else
      var last := records[|records| - 1];
      ValuesOf(records[..|records| - 1], k) + (if last.0 == k then [last.1] else [])
  }

  /** The keys carried by the records. */
  function KeysOf<K, V>(records: seq<(K, V)>): set<K>
  {
    set i | 0 <= i < |records| :: records[i].0
  }

  lemma KeysOfSnoc<K, V>(records: seq<(K, V)>)
    requires records != []
    ensures KeysOf(records) == KeysOf(records[..|records| - 1]) + {records[|records| - 1].0}
  {
    var prefix := records[..|records| - 1];
    assert forall i :: 0 <= i < |prefix| ==> prefix[i] == records[i];
    assert records[|records| - 1].0 in KeysOf(records);
  }

  /** The shuffle: every key that occurs is mapped to the values sent to it in
      arrival order, and no other key is present. */
  function GroupBy<K(==), V>(records: seq<(K, V)>): (groups: map<K, seq<V>>)
    ensures groups.Keys == KeysOf(records)
    ensures forall k :: k in groups ==> groups[k] == ValuesOf(records, k)
  {
    if records == [] then map[]
    else
      var prefix := records[..|records| - 1];
      var last := records[|records| - 1];
      var g := GroupBy(prefix);
      KeysOfSnoc(records);
      ValuesOfAbsent(prefix, last.0);
      assert last.0 !in g ==> forall i :: 0 <= i < |prefix| ==> prefix[i].0 != last.0;
      g[last.0 := (if last.0 in g then g[last.0] else []) + [last.1]]
  }

  /** A key that no record carries has no values. */
  lemma {:induction false} ValuesOfAbsent<K, V>(records: seq<(K, V)>, k: K)
    ensures ValuesOf(records, k) == [] <==> forall i :: 0 <= i < |records| ==> records[i].0 != k
    decreases |records|
  {
    if records != [] {
      var prefix := records[..|records| - 1];
      ValuesOfAbsent(prefix, k);
      assert forall i :: 0 <= i < |prefix| ==> prefix[i] == records[i];
    }
  }

  lemma {:induction false} ValuesOfAppend<K, V>(a: seq<(K, V)>, b: seq<(K, V)>, k: K)
    ensures ValuesOf(a + b, k) == ValuesOf(a, k) + ValuesOf(b, k)
    decreases |b|
  {
    if b == [] {
      assert a + b == a;
    } else {
      assert (a + b)[..|a + b| - 1] == a + b[..|b| - 1];
      ValuesOfAppend(a, b[..|b| - 1], k);
    }
  }

  /** Sum over the keys listed in `keys` of the sizes of their groups. */
  function GroupSizes<K(==), V>(records: seq<(K, V)>, keys: seq<K>): nat
  {
    if keys == [] then 0 else |ValuesOf(records, keys[0])| + GroupSizes(records, keys[1..])
  }

  lemma {:induction false} GroupSizesStep<K, V>(records: seq<(K, V)>, r: (K, V), keys: seq<K>)
    ensures GroupSizes(records + [r], keys) == GroupSizes(records, keys) + Occurrences(keys, r.0)
    decreases |keys|
  {
    if keys != [] {
      ValuesOfAppend(records, [r], keys[0]);
      assert [r][..0] == [];
      GroupSizesStep(records, r, keys[1..]);
      OccurrencesCons(keys[0], keys[1..], r.0);
      assert [keys[0]] + keys[1..] == keys;
    }
  }

  lemma {:induction false} OccurrencesCons<T>(x: T, s: seq<T>, y: T)
    ensures Occurrences([x] + s, y) == (if x == y then 1 else 0) + Occurrences(s, y)
    decreases |s|
  {
    if s != [] {
      assert ([x] + s)[..|[x] + s| - 1] == [x] + s[..|s| - 1];
      OccurrencesCons(x, s[..|s| - 1], y);
    }
  }

  lemma {:induction false} OccurrencesNoDup<T>(s: seq<T>, x: T)
    requires NoDup(s)
    ensures Occurrences(s, x) == (if x in s then 1 else 0)
    decreases |s|
  {
    if s != [] {
      var p := s[..|s| - 1];
      assert NoDup(p);
      OccurrencesNoDup(p, x);
      assert s == p + [s[|s| - 1]];
      assert x in s <==> x in p || x == s[|s| - 1];
      if s[|s| - 1] == x {
        assert x !in p;
      }
    }
  }

  /** The shuffle neither loses nor duplicates a record: listing every key once,
      the group sizes add up to the number of records. */
  lemma {:induction false} GroupByConservesRecords<K, V>(records: seq<(K, V)>, keys: seq<K>)
    requires NoDup(keys)
    requires forall i :: 0 <= i < |records| ==> records[i].0 in keys
    ensures GroupSizes(records, keys) == |records|
    decreases |records|
  {
    if records == [] {
      GroupSizesEmpty(records, keys);
    } else {
      var prefix := records[..|records| - 1];
      var last := records[|records| - 1];
      assert records == prefix + [last];
      GroupByConservesRecords(prefix, keys);
      GroupSizesStep(prefix, last, keys);
      OccurrencesNoDup(keys, last.0);
    }
  }

  lemma {:induction false} GroupSizesEmpty<K, V>(records: seq<(K, V)>, keys: seq<K>)
    requires records == []
    ensures GroupSizes(records, keys) == 0
    decreases |keys|
  {
    if keys != [] {
      GroupSizesEmpty(records, keys[1..]);
    }
  }

  /** A duplicate-free list has as many elements as its set. */
  lemma {:induction false} NoDupCard<T>(s: seq<T>)
    requires NoDup(s)
    ensures |ToSet(s)| == |s|
  {
    if s != [] {
      var p := s[..|s| - 1];
      var x := s[|s| - 1];
      assert NoDup(p);
      NoDupCard(p);
      assert s == p + [x];
      ToSetAppend(p, [x]);
      assert ToSet([x]) == {x};
      assert x !in ToSet(p);
    }
  }

  lemma ToSetAppend<T>(a: seq<T>, b: seq<T>)
    ensures ToSet(a + b) == ToSet(a) + ToSet(b)
  {
    assert forall x :: x in a + b <==> x in a || x in b;
  }

  /** The parts one after the other. */
  function Flatten<T>(parts: seq<seq<T>>): seq<T>
  {
    if parts == [] then [] else Flatten(parts[..|parts| - 1]) + parts[|parts| - 1]
  }

  /** A value is among those of key `k` exactly when a record `(k, value)` was sent. */
  lemma {:induction false} ValuesOfMembers<K, V>(records: seq<(K, V)>, k: K, v: V)
    ensures v in ValuesOf(records, k) <==> (k, v) in records
    decreases |records|
  {
    if records != [] {
      var prefix := records[..|records| - 1];
      ValuesOfMembers(prefix, k, v);
      assert records == prefix + [records[|records| - 1]];
    }
  }

  /** `{k: v for k, v in pairs}`: every key that occurs, with the last value given
      for it. */
  function DictOf<K, V>(pairs: seq<(K, V)>): (d: map<K, V>)
    ensures d.Keys == KeysOf(pairs)
  {
    if pairs == [] then map[]
    else
      KeysOfSnoc(pairs);
      var last := pairs[|pairs| - 1];
      DictOf(pairs[..|pairs| - 1])[last.0 := last.1]
  }

  /** When every pair with key `k` carries the value `v`, the dict maps `k` to `v`,
      however often and in whatever order the pairs occur. */
  lemma {:induction false} DictOfConsistent<K, V>(pairs: seq<(K, V)>, k: K, v: V)
    requires (k, v) in pairs
    requires forall i :: 0 <= i < |pairs| && pairs[i].0 == k ==> pairs[i].1 == v
    ensures k in DictOf(pairs) && DictOf(pairs)[k] == v
    decreases |pairs|
  {
    var prefix := pairs[..|pairs| - 1];
    var last := pairs[|pairs| - 1];
    if last.0 != k {
      assert pairs == prefix + [last];
      assert (k, v) in prefix;
      DictOfConsistent(prefix, k, v);
    }
  }

  /** Every value in the dict is one of the values given for its key. */
  lemma {:induction false} DictOfMember<K, V>(pairs: seq<(K, V)>, k: K)
    requires k in DictOf(pairs)
    ensures exists j :: 0 <= j < |pairs| && pairs[j] == (k, DictOf(pairs)[k])
    decreases |pairs|
  {
    var n := |pairs| - 1;
    if pairs[n].0 != k {
      DictOfMember(pairs[..n], k);
      var j :| 0 <= j < n && pairs[..n][j] == (k, DictOf(pairs[..n])[k]);
      assert pairs[j] == (k, DictOf(pairs)[k]);
    }
  }

  /** `data.get(field, '')`: a missing string field reads as the empty string. */
  function OrEmpty(field: Option<string>): string
  {
    if field.Some? then field.value else ""
  }

  /** `dict.get(k, default)`. */
  function Get<K, V>(d: map<K, V>, k: K, default: V): V
  {
    if k in d then d[k] else default
  }

  lemma {:induction false} CardSubset<T>(a: set<T>, b: set<T>)
    requires a <= b
    ensures |a| <= |b|
    decreases |b|
  {
    if a != {} {
      var x :| x in a;
      CardSubset(a - {x}, b - {x});
    }
  }
  lemma {:induction false} OccurrencesAppend<T>(a: seq<T>, b: seq<T>, x: T)
    ensures Occurrences(a + b, x) == Occurrences(a, x) + Occurrences(b, x)
    decreases |b|
  {
    if b == [] {
      assert a + b == a;
    } else {
      assert (a + b)[..|a + b| - 1] == a + b[..|b| - 1];
      OccurrencesAppend(a, b[..|b| - 1], x);
    }
  }

  /** An element at a valid index occurs at least once. */
  lemma {:induction false} OccurrencesPositive<T>(s: seq<T>, i: nat)
    requires i < |s|
    ensures Occurrences(s, s[i]) > 0
    decreases |s|
  {
    if i < |s| - 1 {
      OccurrencesPositive(s[..|s| - 1], i);
    }
  }
  /** `n` counts of one. */
  function OnesOf(n: nat): (r: seq<int>)
    ensures |r| == n && AllOnes(r)
  {
    seq(n, _ => 1)
  }

  lemma OnesOfAppend(a: nat, b: nat)
    ensures OnesOf(a) + OnesOf(b) == OnesOf(a + b)
  {
  }

  /** A count of one for each key, in order: `yield key, 1`. */
  function Ones<K>(keys: seq<K>): (out: seq<(K, int)>)
    ensures |out| == |keys|
    ensures forall i :: 0 <= i < |keys| ==> out[i] == (keys[i], 1)
  {
    seq(|keys|, i requires 0 <= i < |keys| => (keys[i], 1))
  }

  /** The keys of a list of records. */
  function FirstsOf<K, V>(records: seq<(K, V)>): (r: seq<K>)
    ensures |r| == |records| && forall i :: 0 <= i < |r| ==> r[i] == records[i].0
  {
    seq(|records|, i requires 0 <= i < |records| => records[i].0)
  }

  /** The values of a list of records. */
  function SecondsOf<K, V>(records: seq<(K, V)>): (r: seq<V>)
    ensures |r| == |records| && forall i :: 0 <= i < |r| ==> r[i] == records[i].1
  {
    seq(|records|, i requires 0 <= i < |records| => records[i].1)
  }

  lemma OnesAppend<K>(a: seq<K>, b: seq<K>)
    ensures Ones(a + b) == Ones(a) + Ones(b)
  {
  }

  /** The shuffle gives a key one count of one per occurrence of the key. */
  lemma {:induction false} OnesValues<K>(keys: seq<K>, k: K)
    ensures ValuesOf(Ones(keys), k) == OnesOf(Occurrences(keys, k))
    decreases |keys|
  {
    if keys != [] {
      var n := |keys| - 1;
      OnesValues(keys[..n], k);
      assert Ones(keys)[..n] == Ones(keys[..n]);
      if keys[n] == k {
        OnesOfAppend(Occurrences(keys[..n], k), 1);
      }
    }
  }

  lemma KeysOfOnes<K>(keys: seq<K>, k: K)
    ensures k in KeysOf(Ones(keys)) <==> k in keys
  {
    if k in keys {
      var i :| 0 <= i < |keys| && keys[i] == k;
      assert Ones(keys)[i].0 == k;
    }
  }

  /** Sum over the listed keys of how often each occurs in `s`. */
  function SumOccurrences<T(==)>(s: seq<T>, keys: seq<T>): nat
  {
    if keys == [] then 0 else Occurrences(s, keys[0]) + SumOccurrences(s, keys[1..])
  }

  lemma {:induction false} SumOccurrencesSnoc<T>(s: seq<T>, x: T, keys: seq<T>)
    ensures SumOccurrences(s + [x], keys) == SumOccurrences(s, keys) + Occurrences(keys, x)
    decreases |keys|
  {
    if keys != [] {
      assert (s + [x])[..|s|] == s;
      SumOccurrencesSnoc(s, x, keys[1..]);
      OccurrencesCons(keys[0], keys[1..], x);
      assert [keys[0]] + keys[1..] == keys;
    }
  }

  /** Listing every element of `s` once, the occurrences add up to `|s|`. */
  lemma {:induction false} SumOccurrencesAll<T>(s: seq<T>, keys: seq<T>)
    requires NoDup(keys)
    requires forall i :: 0 <= i < |s| ==> s[i] in keys
    ensures SumOccurrences(s, keys) == |s|
    decreases |s|
  {
    if s == [] {
      SumOccurrencesEmpty(keys);
    } else {
      var p := s[..|s| - 1];
      SumOccurrencesAll(p, keys);
      assert s == p + [s[|s| - 1]];
      SumOccurrencesSnoc(p, s[|s| - 1], keys);
      OccurrencesNoDup(keys, s[|s| - 1]);
    }
  }

  lemma {:induction false} SumOccurrencesEmpty<T>(keys: seq<T>)
    ensures SumOccurrences([], keys) == 0
    decreases |keys|
  {
    if keys != [] {
      SumOccurrencesEmpty(keys[1..]);
    }
  }

  /** Records that carry, for each of their keys, the number of occurrences of the
      key in `s` add up to the sum of those occurrences. */
  lemma {:induction false} SumOfOccurrenceCounts<T>(s: seq<T>, records: seq<(T, int)>)
    requires forall i :: 0 <= i < |records| ==> records[i].1 == Occurrences(s, records[i].0)
    ensures Sum(SecondsOf(records)) == SumOccurrences(s, FirstsOf(records))
    decreases |records|
  {
    if records != [] {
      SumOfOccurrenceCounts(s, records[1..]);
      assert SecondsOf(records) == [records[0].1] + SecondsOf(records[1..]);
      SumCons(records[0].1, SecondsOf(records[1..]));
      assert FirstsOf(records)[1..] == FirstsOf(records[1..]);
    }
  }

  lemma SumCons(x: int, s: seq<int>)
    ensures Sum([x] + s) == x + Sum(s)
  {
    SumAppend([x], s);
    assert [x][..0] == [];
  }

  /** `tuple(s)` or `list(s)` of a set: its elements once each, in an order the set
      does not fix. */
  method SetToSeq<T(==)>(s: set<T>) returns (r: seq<T>)
    ensures ToSet(r) == s && NoDup(r) && |r| == |s|
  {
    r := [];
    var rest := s;
    while rest != {}
      invariant ToSet(r) + rest == s && ToSet(r) * rest == {}
      invariant NoDup(r) && |ToSet(r)| == |r|
      decreases |rest|
    {
      var x :| x in rest;
      AppendFresh(r, x);
      r := r + [x];
      rest := rest - {x};
    }
  }
  lemma AppendFresh<T>(r: seq<T>, x: T)
    requires NoDup(r) && |ToSet(r)| == |r| && x !in ToSet(r)
    ensures ToSet(r + [x]) == ToSet(r) + {x}
    ensures NoDup(r + [x]) && |ToSet(r + [x])| == |r + [x]|
  {
    ToSetAppend(r, [x]);
    assert ToSet([x]) == {x};
    assert forall i :: 0 <= i < |r| ==> r[i] in ToSet(r);
  }

  /** The iteration order of `{k: v for k, v in pairs}`: each key once, where it was
      first inserted. */
  function DictOrder<K(==), V>(pairs: seq<(K, V)>): (keys: seq<K>)
    ensures NoDup(keys)
    ensures ToSet(keys) == KeysOf(pairs)
    ensures forall i :: 0 <= i < |keys| ==> keys[i] in DictOf(pairs)
  {
    var firsts := FirstsOf(pairs);
    assert ToSet(firsts) == KeysOf(pairs) by {
      forall k | k in KeysOf(pairs) ensures k in firsts {
        var i :| 0 <= i < |pairs| && pairs[i].0 == k;
        assert firsts[i] == k;
      }
    }
    Dedup(firsts)
  }

  lemma {:induction false} DedupOfNoDup<T>(s: seq<T>)
    requires NoDup(s)
    ensures Dedup(s) == s
    decreases |s|
  {
    if s != [] {
      var p := s[..|s| - 1];
      assert NoDup(p);
      DedupOfNoDup(p);
      DedupMembers(p, s[|s| - 1]);
      assert s == p + [s[|s| - 1]];
    }
  }

  /** With distinct keys the dict keeps every pair, in order. */
  lemma DictOfDistinct<K, V>(pairs: seq<(K, V)>)
    requires NoDup(FirstsOf(pairs))
    ensures DictOrder(pairs) == FirstsOf(pairs)
    ensures forall i :: 0 <= i < |pairs| ==> pairs[i].0 in DictOf(pairs) && DictOf(pairs)[pairs[i].0] == pairs[i].1
  {
    DedupOfNoDup(FirstsOf(pairs));
    forall i | 0 <= i < |pairs|
      ensures pairs[i].0 in DictOf(pairs) && DictOf(pairs)[pairs[i].0] == pairs[i].1
    {
      DictOfAt(pairs, i);
    }
  }

  lemma DictOfAt<K, V>(pairs: seq<(K, V)>, i: nat)
    requires NoDup(FirstsOf(pairs)) && i < |pairs|
    ensures pairs[i].0 in DictOf(pairs) && DictOf(pairs)[pairs[i].0] == pairs[i].1
  {
    assert pairs[i] in pairs;
    forall j | 0 <= j < |pairs| && pairs[j].0 == pairs[i].0
      ensures pairs[j].1 == pairs[i].1
    {
      assert FirstsOf(pairs)[j] == FirstsOf(pairs)[i];
    }
    DictOfConsistent(pairs, pairs[i].0, pairs[i].1);
  }

  /** `sum(d[k] for k in keys)`. */
  function SumOver<K>(d: map<K, int>, keys: seq<K>): int
    requires forall i :: 0 <= i < |keys| ==> keys[i] in d
  {
    if keys == [] then 0 else SumOver(d, keys[..|keys| - 1]) + d[keys[|keys| - 1]]
  }

  lemma {:induction false} SumOverUpdate<K>(d: map<K, int>, keys: seq<K>, x: K, v: int)
    requires forall i :: 0 <= i < |keys| ==> keys[i] in d
    requires x !in keys
    ensures SumOver(d[x := v], keys) == SumOver(d, keys)
    decreases |keys|
  {
    if keys != [] {
      SumOverUpdate(d, keys[..|keys| - 1], x, v);
    }
  }

  /** With distinct keys, summing the dict's values sums the pairs' values. */
  lemma {:induction false} SumOverDistinct<K>(pairs: seq<(K, int)>)
    requires NoDup(FirstsOf(pairs))
    ensures forall i :: 0 <= i < |FirstsOf(pairs)| ==> FirstsOf(pairs)[i] in DictOf(pairs)
    ensures SumOver(DictOf(pairs), FirstsOf(pairs)) == Sum(SecondsOf(pairs))
    decreases |pairs|
  {
    assert forall i :: 0 <= i < |pairs| ==> pairs[i].0 in KeysOf(pairs);
    if pairs != [] {
      var p := pairs[..|pairs| - 1];
      var last := pairs[|pairs| - 1];
      var firsts := FirstsOf(pairs);
      assert |p| == |pairs| - 1 && |firsts| == |pairs|;
      assert FirstsOf(p) == firsts[..|p|];
      assert SecondsOf(p) == SecondsOf(pairs)[..|p|];
      SumOverDistinct(p);
      assert last.0 !in FirstsOf(p) by {
        assert firsts[|p|] == last.0;
      }
      SumOverUpdate(DictOf(p), FirstsOf(p), last.0, last.1);
      calc {
        SumOver(DictOf(pairs), firsts);
        SumOver(DictOf(pairs), firsts[..|p|]) + DictOf(pairs)[firsts[|p|]];
        { assert DictOf(pairs) == DictOf(p)[last.0 := last.1]; }
        SumOver(DictOf(p)[last.0 := last.1], FirstsOf(p)) + last.1;
        Sum(SecondsOf(p)) + last.1;
        Sum(SecondsOf(pairs));
      }
    }
  }

  /** The list without `x`. */
  function Without<T(==)>(s: seq<T>, x: T): (r: seq<T>)
    ensures ToSet(r) == ToSet(s) - {x}
    ensures NoDup(s) ==> NoDup(r)
  {
    if s == [] then []
    else
      var p := s[..|s| - 1];
      assert s == p + [s[|s| - 1]];
      ToSetAppend(p, [s[|s| - 1]]);
      var r := Without(p, x) + (if s[|s| - 1] == x then [] else [s[|s| - 1]]);
      ToSetAppend(Without(p, x), if s[|s| - 1] == x then [] else [s[|s| - 1]]);
      assert NoDup(s) ==> NoDup(p) && s[|s| - 1] !in ToSet(p);
      r
  }
  /** Inserting a pair appends its key to the iteration order unless the key is
      already present. */
  lemma DictOrderSnoc<K, V>(pairs: seq<(K, V)>, x: (K, V))
    ensures DictOrder(pairs + [x]) == DictOrder(pairs) + (if x.0 in DictOf(pairs) then [] else [x.0])
    ensures DictOf(pairs + [x]) == DictOf(pairs)[x.0 := x.1]
  {
    var s := pairs + [x];
    assert s[..|s| - 1] == pairs;
    assert FirstsOf(s)[..|pairs|] == FirstsOf(pairs);
    assert FirstsOf(s)[|pairs|] == x.0;
    assert x.0 in DictOrder(pairs) <==> x.0 in ToSet(DictOrder(pairs));
  }

  /** One more insertion into a dict built from a list of pairs. */
  lemma DictStep<K, V>(pairs: seq<(K, V)>, i: nat)
    requires i < |pairs|
    ensures DictOf(pairs[..i + 1]) == DictOf(pairs[..i])[pairs[i].0 := pairs[i].1]
    ensures DictOrder(pairs[..i + 1]) ==
      DictOrder(pairs[..i]) + (if pairs[i].0 in DictOf(pairs[..i]) then [] else [pairs[i].0])
  {
    assert pairs[..i + 1] == pairs[..i] + [pairs[i]];
    DictOrderSnoc(pairs[..i], pairs[i]);
  }

  /** The summing reducer of the counting jobs, `yield key, sum(counts)`: the key
      with the sum of its counts, which for counts of one is their number. */
  function SumReducer<K>(key: K, counts: seq<int>): (out: (K, int))
    ensures out.0 == key
    ensures AllOnes(counts) ==> out.1 == |counts|
  {
    if AllOnes(counts) then
      SumOfOnes(counts);
      (key, Sum(counts))
    else
      (key, Sum(counts))
  }

  /** An element occurs a positive number of times exactly when it is present. */
  lemma {:induction false} OccurrencesPresent<T>(s: seq<T>, x: T)
    ensures Occurrences(s, x) > 0 <==> x in s
    decreases |s|
  {
    if s != [] {
      var p := s[..|s| - 1];
      OccurrencesPresent(p, x);
      assert s == p + [s[|s| - 1]];
    }
  }
}
