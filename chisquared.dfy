/** The document-identity variant of the pipeline (`src/chi_squared.py`): every
    preprocessed record is counted under four keys, identities are deduplicated by
    set union (in the combiner and again in the reducer), the three marginal groups
    are fanned back out to every observed (category, token) pair, and each pair's
    four counts are turned into a chi-squared score. */
module ChiSquared {
  import opened Common
  import opened Contingency

  /** The identity of a document, the key of a preprocessed record. */
  type DocId = (string, string)

  /** A count key `(category, token)`; `None` marks a marginal. */
  type Key = (Option<string>, Option<string>)

  const AllKey: Key := (None, None)

  /** A payload element: a (category, token) pair under the all-document key, a
      token or a category under the marginal keys. */
  datatype Item = Pair(category: string, token: string) | Name(name: string)

  /** `(document identities, payload)` as sent by the mapper or the combiner. */
  type Value = (seq<DocId>, seq<Item>)

  type Record = (Key, Value)

  /** A preprocessed record `(key, (category, token))`. */
  type Input = (DocId, (string, string))

  // ---------------------------------------------------------------------------
  // Mapper

  /** `mapper_count`: the four count records of one (document, category, token). */
  function MapperCount(key: DocId, category: string, token: string): seq<Record>
  {
    [ (AllKey, ([key], [Pair(category, token)])),
      ((Some(category), None), ([key], [Name(token)])),
      ((None, Some(token)), ([key], [Name(category)])),
      ((Some(category), Some(token)), ([key], [])) ]
  }

  /** The mapper applied to every preprocessed record, outputs in input order. */
  function MapAll(inputs: seq<Input>): seq<Record>
  {
    if inputs == [] then []
    else
      var x := inputs[|inputs| - 1];
      MapAll(inputs[..|inputs| - 1]) + MapperCount(x.0, x.1.0, x.1.1)
  }

  /** Whether a record with (category, token) `ct` is counted under `key`. */
  predicate Hits(key: Key, ct: (string, string))
  {
    (key.0 == None || key.0 == Some(ct.0)) && (key.1 == None || key.1 == Some(ct.1))
  }

  /** Whether `key` is one of the three marginal keys, whose payload is not empty. */
  predicate IsMarginal(key: Key)
  {
    key.0.None? || key.1.None?
  }

  /** The payload element the mapper sends under a marginal `key` for `ct`. */
  function ItemOf(key: Key, ct: (string, string)): Item
  {
    if key.0.None? && key.1.None? then Pair(ct.0, ct.1)
    else if key.0.None? then Name(ct.0)
    else Name(ct.1)
  }

  /** The payload the mapper sends under `key` for `ct`. */
  function PayloadOf(key: Key, ct: (string, string)): seq<Item>
  {
    if IsMarginal(key) then [ItemOf(key, ct)] else []
  }

  /** Under each key the mapper sends one value, carrying the document identity
      and the key's payload, exactly when the key covers the record. */
  lemma MapperCountValues(d: DocId, c: string, t: string, key: Key)
    ensures ValuesOf(MapperCount(d, c, t), key) == if Hits(key, (c, t)) then [([d], PayloadOf(key, (c, t)))] else []
  {
    var r := MapperCount(d, c, t);
    var hit := seq(4, i requires 0 <= i < 4 => if r[i].0 == key then [r[i].1] else []);
    assert r[..1][..0] == [];
    assert ValuesOf(r[..1], key) == hit[0];
    assert r[..2][..1] == r[..1];
    assert ValuesOf(r[..2], key) == hit[0] + hit[1];
    assert r[..3][..2] == r[..2];
    assert ValuesOf(r[..3], key) == hit[0] + hit[1] + hit[2];
    assert r[..4][..3] == r[..3] && r[..4] == r;
    assert ValuesOf(r, key) == hit[0] + hit[1] + hit[2] + hit[3];
  }

  // ---------------------------------------------------------------------------
  // Deduplication by set union

  /** The union of the identity lists of the values. */
  function UnionKeys(values: seq<Value>): set<DocId>
  {
    if values == [] then {} else UnionKeys(values[..|values| - 1]) + ToSet(values[|values| - 1].0)
  }

  /** The union of the payloads of the values. */
  function UnionItems(values: seq<Value>): set<Item>
  {
    if values == [] then {} else UnionItems(values[..|values| - 1]) + ToSet(values[|values| - 1].1)
  }

  /** `_eliminate_duplicates`: both sets are grown value by value. On this model's
      values the two branches of the source (list keys converted to tuples or not)
      do the same. */
  method EliminateDuplicates(values: seq<Value>) returns (keys: set<DocId>, items: set<Item>)
    ensures keys == UnionKeys(values) && items == UnionItems(values)
  {
    keys, items := {}, {};
    var i := 0;
    while i < |values|
      invariant 0 <= i <= |values|
      invariant keys == UnionKeys(values[..i]) && items == UnionItems(values[..i])
    {
      assert values[..i + 1][..i] == values[..i];
      keys := keys + ToSet(values[i].0);
      items := items + ToSet(values[i].1);
      i := i + 1;
    }
    assert values[..i] == values;
  }

  /** A document identity is in the union exactly when some value lists it. */
  lemma {:induction false} UnionKeysMembers(values: seq<Value>, d: DocId)
    ensures d in UnionKeys(values) <==> exists i :: 0 <= i < |values| && d in values[i].0
    decreases |values|
  {
    if values != [] {
      var prefix := values[..|values| - 1];
      UnionKeysMembers(prefix, d);
      assert forall i :: 0 <= i < |prefix| ==> prefix[i] == values[i];
    }
  }

  lemma {:induction false} UnionItemsMembers(values: seq<Value>, it: Item)
    ensures it in UnionItems(values) <==> exists i :: 0 <= i < |values| && it in values[i].1
    decreases |values|
  {
    if values != [] {
      var prefix := values[..|values| - 1];
      UnionItemsMembers(prefix, it);
      assert forall i :: 0 <= i < |prefix| ==> prefix[i] == values[i];
    }
  }

  /** The unions distribute over concatenation of groups. */
  lemma {:induction false} UnionAppend(a: seq<Value>, b: seq<Value>)
    ensures UnionKeys(a + b) == UnionKeys(a) + UnionKeys(b)
    ensures UnionItems(a + b) == UnionItems(a) + UnionItems(b)
    decreases |b|
  {
    if b == [] {
      assert a + b == a;
    } else {
      assert (a + b)[..|a + b| - 1] == a + b[..|b| - 1];
      UnionAppend(a, b[..|b| - 1]);
    }
  }

  /** The unions depend only on which values arrive: delivering a value twice or
      in another order changes neither set. */
  lemma UnionSameValues(a: seq<Value>, b: seq<Value>)
    requires ToSet(a) == ToSet(b)
    ensures UnionKeys(a) == UnionKeys(b) && UnionItems(a) == UnionItems(b)
  {
    forall d
      ensures d in UnionKeys(a) <==> d in UnionKeys(b)
    {
      UnionKeysMembers(a, d);
      UnionKeysMembers(b, d);
      if d in UnionKeys(a) {
        var i :| 0 <= i < |a| && d in a[i].0;
        assert a[i] in ToSet(b);
      }
      if d in UnionKeys(b) {
        var i :| 0 <= i < |b| && d in b[i].0;
        assert b[i] in ToSet(a);
      }
    }
    forall it
      ensures it in UnionItems(a) <==> it in UnionItems(b)
    {
      UnionItemsMembers(a, it);
      UnionItemsMembers(b, it);
      if it in UnionItems(a) {
        var i :| 0 <= i < |a| && it in a[i].1;
        assert a[i] in ToSet(b);
      }
      if it in UnionItems(b) {
        var i :| 0 <= i < |b| && it in b[i].1;
        assert b[i] in ToSet(a);
      }
    }
  }

  // ---------------------------------------------------------------------------
  // Combiner

  /** `combiner_count`: one value holding the two unions of the values it received. */
  method CombinerCount(key: Key, values: seq<Value>) returns (out: Record)
    ensures out.0 == key
    ensures ToSet(out.1.0) == UnionKeys(values) && NoDup(out.1.0)
    ensures ToSet(out.1.1) == UnionItems(values) && NoDup(out.1.1)
  {
    var keys, items := EliminateDuplicates(values);
    var keyList := SetToSeq(keys);
    var itemList := SetToSeq(items);
    out := (key, (keyList, itemList));
  }

  /** The combiner is safe: split a group into parts in any way, replace each part
      by a value listing the part's unions (as `CombinerCount` does, or leave a
      single value as it is), and the reducer's unions are those of the whole group. */
  lemma {:induction false} CombinedUnions(parts: seq<seq<Value>>, combined: seq<Value>)
    requires |combined| == |parts|
    requires forall i :: 0 <= i < |parts| ==>
      ToSet(combined[i].0) == UnionKeys(parts[i]) && ToSet(combined[i].1) == UnionItems(parts[i])
    ensures UnionKeys(combined) == UnionKeys(Flatten(parts))
    ensures UnionItems(combined) == UnionItems(Flatten(parts))
    decreases |parts|
  {
    if parts != [] {
      var n := |parts| - 1;
      CombinedUnions(parts[..n], combined[..n]);
      UnionAppend(Flatten(parts[..n]), parts[n]);
    }
  }

  // ---------------------------------------------------------------------------
  // The groups of the count step

  /** The identities of the documents counted under `key`. */
  function KeyDocs(inputs: seq<Input>, key: Key): set<DocId>
  {
    set x | x in inputs && Hits(key, x.1) :: x.0
  }

  /** The payload elements sent under `key`. */
  function KeyItems(inputs: seq<Input>, key: Key): set<Item>
  {
    set x | x in inputs && Hits(key, x.1) && IsMarginal(key) :: ItemOf(key, x.1)
  }

  lemma KeySetsSnoc(inputs: seq<Input>, key: Key)
    requires inputs != []
    ensures var x := inputs[|inputs| - 1];
      KeyDocs(inputs, key) == KeyDocs(inputs[..|inputs| - 1], key) + (if Hits(key, x.1) then {x.0} else {}) &&
      KeyItems(inputs, key) == KeyItems(inputs[..|inputs| - 1], key) + ToSet(if Hits(key, x.1) then PayloadOf(key, x.1) else [])
  {
    var prefix := inputs[..|inputs| - 1];
    assert inputs == prefix + [inputs[|inputs| - 1]];
    assert forall y :: y in inputs <==> y in prefix || y == inputs[|inputs| - 1];
  }

  /** The reducer of `key` receives a value exactly when some record is counted
      under `key`, and its two unions are the identities and payload elements of
      those records. */
  lemma {:induction false} GroupUnions(inputs: seq<Input>, key: Key)
    ensures ValuesOf(MapAll(inputs), key) == [] <==> KeyDocs(inputs, key) == {}
    ensures UnionKeys(ValuesOf(MapAll(inputs), key)) == KeyDocs(inputs, key)
    ensures UnionItems(ValuesOf(MapAll(inputs), key)) == KeyItems(inputs, key)
    decreases |inputs|
  {
    if inputs != [] {
      var prefix := inputs[..|inputs| - 1];
      var x := inputs[|inputs| - 1];
      GroupUnions(prefix, key);
      MapAllValuesSnoc(inputs, key);
      var mine := if Hits(key, x.1) then [([x.0], PayloadOf(key, x.1))] else [];
      UnionAppend(ValuesOf(MapAll(prefix), key), mine);
      UnionsOfOne(x.0, PayloadOf(key, x.1));
      KeySetsSnoc(inputs, key);
    }
  }

  lemma MapAllValuesSnoc(inputs: seq<Input>, key: Key)
    requires inputs != []
    ensures var x := inputs[|inputs| - 1];
      ValuesOf(MapAll(inputs), key) ==
        ValuesOf(MapAll(inputs[..|inputs| - 1]), key) + (if Hits(key, x.1) then [([x.0], PayloadOf(key, x.1))] else [])
  {
    var x := inputs[|inputs| - 1];
    ValuesOfAppend(MapAll(inputs[..|inputs| - 1]), MapperCount(x.0, x.1.0, x.1.1), key);
    MapperCountValues(x.0, x.1.0, x.1.1, key);
  }

  lemma UnionsOfOne(d: DocId, payload: seq<Item>)
    ensures UnionKeys([([d], payload)]) == {d}
    ensures UnionItems([([d], payload)]) == ToSet(payload)
  {
    assert [([d], payload)][..0] == [];
    assert ToSet([d]) == {d};
  }

  /** The key of a group is present exactly when some record is counted under it. */
  lemma GroupKeys(inputs: seq<Input>, key: Key)
    ensures key in GroupBy(MapAll(inputs)) <==> KeyDocs(inputs, key) != {}
  {
    var records := MapAll(inputs);
    GroupUnions(inputs, key);
    ValuesOfAbsent(records, key);
    if key in KeysOf(records) {
      var i :| 0 <= i < |records| && records[i].0 == key;
    }
  }

  // ---------------------------------------------------------------------------
  // Fan-out

  /** The count tags `'n'`, `'t'`, `'c'` and `'ct'`. */
  datatype Tag = N | T | C | CT

  /** A record of the second step: `((category, token), (tag, count))`. */
  type Count = (Key, (Tag, nat))

  /** Payload elements as the mapper sends them under `key`: pairs under the
      all-document key, names under the other marginals, none under a pair key. */
  predicate ItemFits(key: Key, it: Item)
  {
    if key.0.None? && key.1.None? then it.Pair?
    else if IsMarginal(key) then it.Name?
    else false
  }

  /** The record the reducer of the marginal `key` sends for one payload element. */
  function Emit(key: Key, it: Item, n: nat): Count
    requires ItemFits(key, it)
  {
    if key.0.None? && key.1.None? then ((Some(it.category), Some(it.token)), (N, n))
    else if key.0.None? then ((Some(it.name), key.1), (T, n))
    else ((key.0, Some(it.name)), (C, n))
  }

  function EmitAll(key: Key, items: set<Item>, n: nat): set<Count>
  {
    set it | it in items && ItemFits(key, it) :: Emit(key, it, n)
  }

  /** Handling one more payload element adds its record, which is new. */
  lemma EmitAllStep(key: Key, items: set<Item>, rest: set<Item>, it: Item, n: nat)
    requires rest <= items && it in rest
    requires forall x :: x in items ==> ItemFits(key, x)
    ensures Emit(key, it, n) !in EmitAll(key, items - rest, n)
    ensures EmitAll(key, items - (rest - {it}), n) == EmitAll(key, items - rest, n) + {Emit(key, it, n)}
  {
  }

  /** What the reducer of `key` sends, given the two unions of its group. */
  function FanOut(key: Key, ids: set<DocId>, items: set<Item>): set<Count>
  {
    if IsMarginal(key) then EmitAll(key, items, |ids|) else {(key, (CT, |ids|))}
  }

  /** `reducer_count`: `n` is the number of distinct identities; the all-document
      group sends `('n', n)` to every pair it saw, the token group `('t', n)` to the
      pair of every category it saw, the category group `('c', n)` to the pair of
      every token it saw, and a pair group `('ct', n)` to itself. Each record is
      sent once, in an order the sets do not fix. */
  method ReducerCount(key: Key, values: seq<Value>) returns (out: seq<Count>)
    requires forall it :: it in UnionItems(values) ==> ItemFits(key, it)
    ensures ToSet(out) == FanOut(key, UnionKeys(values), UnionItems(values))
    ensures NoDup(out)
  {
    var ids, items := EliminateDuplicates(values);
    var n := |ids|;
    if !IsMarginal(key) {
      out := [(key, (CT, n))];
      assert ToSet(out) == {(key, (CT, n))};
    } else {
      out := [];
      var rest := items;
      while rest != {}
        invariant rest <= items
        invariant ToSet(out) == EmitAll(key, items - rest, n)
        invariant NoDup(out)
        decreases |rest|
      {
        var it :| it in rest;
        var r := Emit(key, it, n);
        EmitAllStep(key, items, rest, it, n);
        ToSetAppend(out, [r]);
        assert ToSet([r]) == {r};
        out := out + [r];
        rest := rest - {it};
      }
    }
  }

  /** The records of the whole second step as a set: everything the reducers of
      the groups send. */
  function StageSet(groups: map<Key, seq<Value>>): set<Count>
  {
    set k, r | k in groups && r in FanOut(k, UnionKeys(groups[k]), UnionItems(groups[k])) :: r
  }

  lemma StageSetAdd(groups: map<Key, seq<Value>>, rest: set<Key>, k: Key)
    requires k in rest && rest <= groups.Keys
    ensures StageSet(groups - (rest - {k})) == StageSet(groups - rest) + FanOut(k, UnionKeys(groups[k]), UnionItems(groups[k]))
  {
    var before := groups - rest;
    var after := groups - (rest - {k});
    assert after.Keys == before.Keys + {k};
    assert forall j :: j in after ==> after[j] == groups[j];
    assert forall j :: j in before ==> before[j] == groups[j];
  }

  /** Every group has the payload shape `reducer_count` expects of its key. */
  lemma GroupShape(inputs: seq<Input>, key: Key)
    ensures forall it :: it in UnionItems(ValuesOf(MapAll(inputs), key)) ==> ItemFits(key, it)
  {
    GroupUnions(inputs, key);
  }

  /** The count step: every group reduced with `reducer_count`, in an order the
      shuffle does not fix, all outputs together. */
  method CountStage(inputs: seq<Input>) returns (out: seq<Count>)
    ensures ToSet(out) == StageSet(GroupBy(MapAll(inputs)))
  {
    var groups := GroupBy(MapAll(inputs));
    var rest := groups.Keys;
    out := [];
    assert groups - rest == map[];
    while rest != {}
      invariant rest <= groups.Keys
      invariant ToSet(out) == StageSet(groups - rest)
      decreases |rest|
    {
      var k :| k in rest;
      GroupShape(inputs, k);
      var part := ReducerCount(k, groups[k]);
      ToSetAppend(out, part);
      StageSetAdd(groups, rest, k);
      out := out + part;
      rest := rest - {k};
    }
    assert groups - rest == groups;
  }

  // ---------------------------------------------------------------------------
  // What the second step receives

  /** The (category, token) pairs that occur in the input. */
  function Pairs(inputs: seq<Input>): set<(string, string)>
  {
    set x | x in inputs :: x.1
  }

  /** The group whose size a tag carries, for the pair `ct`. */
  function TagKey(tag: Tag, ct: (string, string)): Key
  {
    match tag
    case N => AllKey
    case T => (None, Some(ct.1))
    case C => (Some(ct.0), None)
    case CT => (Some(ct.0), Some(ct.1))
  }

  /** The count record with tag `tag` for the pair `ct`. */
  function StageRecord(inputs: seq<Input>, ct: (string, string), tag: Tag): Count
  {
    ((Some(ct.0), Some(ct.1)), (tag, |KeyDocs(inputs, TagKey(tag, ct))|))
  }

  /** One record per observed pair and tag, carrying the number of distinct
      documents of the tag's group. */
  function Expected(inputs: seq<Input>): set<Count>
  {
    set ct, tag | ct in Pairs(inputs) && tag in {N, T, C, CT} :: StageRecord(inputs, ct, tag)
  }

  lemma StageSubsetExpected(inputs: seq<Input>, k: Key, r: Count)
    requires k in GroupBy(MapAll(inputs))
    requires r in FanOut(k, UnionKeys(GroupBy(MapAll(inputs))[k]), UnionItems(GroupBy(MapAll(inputs))[k]))
    ensures r in Expected(inputs)
  {
    GroupKeys(inputs, k);
    GroupUnions(inputs, k);
    if IsMarginal(k) {
      var it :| it in KeyItems(inputs, k) && ItemFits(k, it) && r == Emit(k, it, |KeyDocs(inputs, k)|);
      var x :| x in inputs && Hits(k, x.1) && it == ItemOf(k, x.1);
      var tag := if k.0.None? && k.1.None? then N else if k.0.None? then T else C;
      assert TagKey(tag, x.1) == k;
      assert r == StageRecord(inputs, x.1, tag);
    } else {
      var x :| x in inputs && Hits(k, x.1);
      assert TagKey(CT, x.1) == k;
      assert r == StageRecord(inputs, x.1, CT);
    }
  }

  lemma ExpectedSubsetStage(inputs: seq<Input>, ct: (string, string), tag: Tag)
    requires ct in Pairs(inputs)
    ensures StageRecord(inputs, ct, tag) in StageSet(GroupBy(MapAll(inputs)))
  {
    var groups := GroupBy(MapAll(inputs));
    var k := TagKey(tag, ct);
    var x :| x in inputs && x.1 == ct;
    assert Hits(k, x.1);
    assert x.0 in KeyDocs(inputs, k);
    GroupKeys(inputs, k);
    GroupUnions(inputs, k);
    if IsMarginal(k) {
      assert ItemOf(k, ct) in KeyItems(inputs, k);
      assert Emit(k, ItemOf(k, ct), |KeyDocs(inputs, k)|) == StageRecord(inputs, ct, tag);
    }
    assert StageRecord(inputs, ct, tag) in FanOut(k, UnionKeys(groups[k]), UnionItems(groups[k]));
  }

  /** The count step sends exactly one record per observed pair and tag, and the
      count it carries is the number of distinct documents of the tag's group. */
  lemma StageExact(inputs: seq<Input>)
    ensures StageSet(GroupBy(MapAll(inputs))) == Expected(inputs)
  {
    var groups := GroupBy(MapAll(inputs));
    forall r | r in StageSet(groups)
      ensures r in Expected(inputs)
    {
      var k :| k in groups && r in FanOut(k, UnionKeys(groups[k]), UnionItems(groups[k]));
      StageSubsetExpected(inputs, k, r);
    }
    forall r | r in Expected(inputs)
      ensures r in StageSet(groups)
    {
      var ct, tag :| ct in Pairs(inputs) && tag in {N, T, C, CT} && r == StageRecord(inputs, ct, tag);
      ExpectedSubsetStage(inputs, ct, tag);
    }
  }

  /** Every key of the second step is an observed pair, both components present. */
  lemma StageKeys(inputs: seq<Input>, r: Count)
    requires r in StageSet(GroupBy(MapAll(inputs)))
    ensures r.0.0.Some? && r.0.1.Some? && (r.0.0.value, r.0.1.value) in Pairs(inputs)
  {
    StageExact(inputs);
  }

  lemma ExpectedSameInputs(inputs: seq<Input>, inputs': seq<Input>)
    requires forall x :: x in inputs <==> x in inputs'
    ensures Expected(inputs) == Expected(inputs')
  {
    assert Pairs(inputs) == Pairs(inputs');
    forall k
      ensures KeyDocs(inputs, k) == KeyDocs(inputs', k)
    {
    }
    forall ct, tag
      ensures StageRecord(inputs, ct, tag) == StageRecord(inputs', ct, tag)
    {
      assert KeyDocs(inputs, TagKey(tag, ct)) == KeyDocs(inputs', TagKey(tag, ct));
    }
  }

  /** Delivering an input record twice, or the records in another order, changes
      nothing the count step sends. */
  lemma StageSameInputs(inputs: seq<Input>, inputs': seq<Input>)
    requires ToSet(inputs) == ToSet(inputs')
    ensures StageSet(GroupBy(MapAll(inputs))) == StageSet(GroupBy(MapAll(inputs')))
  {
    StageExact(inputs);
    StageExact(inputs');
    forall x
      ensures x in inputs <==> x in inputs'
    {
      assert x in inputs <==> x in ToSet(inputs);
      assert x in inputs' <==> x in ToSet(inputs');
    }
    ExpectedSameInputs(inputs, inputs');
  }

  // ---------------------------------------------------------------------------
  // Scoring

  /** The cells `(n_c_t, n_nc_t, n_c_nt, n_nc_nt)` derived from `n`, `n_c`, `n_t`
      and `n_c_t`, in the order the score formula takes them. */
  function Cells(n: int, nc: int, nt: int, nct: int): (cells: (int, int, int, int))
    ensures cells.0 + cells.1 + cells.2 + cells.3 == n
    ensures cells.0 + cells.1 == nt && cells.0 + cells.2 == nc
    ensures cells.1 + cells.3 == n - nc && cells.2 + cells.3 == n - nt
  {
    var nCNt := nc - nct;
    var nNt := n - nt;
    var nNcT := nt - nct;
    (nct, nNcT, nCNt, nNt - nCNt)
  }

  /** `reducer_chi_squared`: the counts become a dict (the last value of a tag
      wins); `'n'` must be present, the other tags default to 0. The output record
      is `(category, (score, token))`. */
  function ReducerChiSquared(key: Key, values: seq<(Tag, nat)>): (r: Result<(string, (real, string))>)
    requires key.0.Some? && key.1.Some?
    ensures r == Err(KeyError) <==> N !in KeysOf(values)
    ensures r.Ok? ==> r.value.0 == key.0.value && r.value.1.1 == key.1.value
  {
    var counts := DictOf(values);
    if N !in counts then Err(KeyError)
    else
      var n := counts[N];
      var cells := Cells(n, Get(counts, C, 0), Get(counts, T, 0), Get(counts, CT, 0));
      var chi := Chi(n, cells.0, cells.1, cells.2, cells.3);
      if chi.Err? then Err(chi.error) else Ok((key.0.value, (chi.value, key.1.value)))
  }

  /** A score fails, with a division by zero, exactly when the token occurs in no
      document or in all of them, or the category holds no document or all of them. */
  lemma ReducerChiSquaredDivision(c: string, t: string, n: nat, nc: nat, nt: nat, nct: nat)
    ensures var r := ReducerChiSquared((Some(c), Some(t)), [(N, n), (T, nt), (C, nc), (CT, nct)]);
      (r == Err(ZeroDivisionError) <==> nt == 0 || nt == n || nc == 0 || nc == n) &&
      (r.Ok? <==> !(nt == 0 || nt == n || nc == 0 || nc == n))
  {
    FourCounts(n, nt, nc, nct);
    var cells := Cells(n, nc, nt, nct);
    ChiErrIffZeroMarginal(n, cells.0, cells.1, cells.2, cells.3);
  }

  /** The records the count step sends to a key. */
  lemma ExpectedMember(inputs: seq<Input>, p: Key, v: (Tag, nat))
    ensures (p, v) in Expected(inputs) <==>
      p.0.Some? && p.1.Some? && (p.0.value, p.1.value) in Pairs(inputs) &&
      v.1 == |KeyDocs(inputs, TagKey(v.0, (p.0.value, p.1.value)))|
  {
    if p.0.Some? && p.1.Some? && (p.0.value, p.1.value) in Pairs(inputs) &&
      v.1 == |KeyDocs(inputs, TagKey(v.0, (p.0.value, p.1.value)))| {
      assert (p, v) == StageRecord(inputs, (p.0.value, p.1.value), v.0);
    }
  }

  lemma OutMember(inputs: seq<Input>, out: seq<Count>, p: Key, v: (Tag, nat))
    requires ToSet(out) == StageSet(GroupBy(MapAll(inputs)))
    ensures v in ValuesOf(out, p) <==> (p, v) in Expected(inputs)
  {
    StageExact(inputs);
    ValuesOfMembers(out, p, v);
    assert (p, v) in out <==> (p, v) in ToSet(out);
  }

  /** The values a pair's reducer receives: for each tag, the number of distinct
      documents of the tag's group. */
  lemma PairValues(inputs: seq<Input>, out: seq<Count>, ct: (string, string))
    requires ToSet(out) == StageSet(GroupBy(MapAll(inputs)))
    requires ct in Pairs(inputs)
    ensures forall v :: v in ValuesOf(out, (Some(ct.0), Some(ct.1))) <==> v.1 == |KeyDocs(inputs, TagKey(v.0, ct))|
  {
    var p := (Some(ct.0), Some(ct.1));
    forall v
      ensures v in ValuesOf(out, p) <==> v.1 == |KeyDocs(inputs, TagKey(v.0, ct))|
    {
      OutMember(inputs, out, p, v);
      ExpectedMember(inputs, p, v);
    }
  }

  /** A dict built from values that hold exactly one count per tag. */
  lemma DictOfCounts(vs: seq<(Tag, nat)>, count: Tag -> nat, tag: Tag)
    requires forall v :: v in vs <==> v.1 == count(v.0)
    ensures tag in DictOf(vs) && DictOf(vs)[tag] == count(tag)
  {
    assert (tag, count(tag)) in vs;
    forall i | 0 <= i < |vs| && vs[i].0 == tag
      ensures vs[i].1 == count(tag)
    {
      assert vs[i] in vs;
    }
    DictOfConsistent(vs, tag, count(tag));
  }

  lemma TagKeys<V>(m: map<Tag, V>)
    ensures m.Keys <= {N, T, C, CT}
  {
    forall g | g in m
      ensures g in {N, T, C, CT}
    {
      match g
      case N =>
      case T =>
      case C =>
      case CT =>
    }
  }

  /** The dict of four distinct tags. */
  lemma FourCounts(n: nat, nt: nat, nc: nat, nct: nat)
    ensures DictOf([(N, n), (T, nt), (C, nc), (CT, nct)]) == map[N := n, T := nt, C := nc, CT := nct]
  {
    var values := [(N, n), (T, nt), (C, nc), (CT, nct)];
    DictOfConsistent(values, N, n);
    DictOfConsistent(values, T, nt);
    DictOfConsistent(values, C, nc);
    DictOfConsistent(values, CT, nct);
    TagKeys(DictOf(values));
  }

  /** Values holding exactly one count per tag give the dict of those counts. */
  lemma DictOfTagCounts(vs: seq<(Tag, nat)>, count: Tag -> nat)
    requires forall v :: v in vs <==> v.1 == count(v.0)
    ensures DictOf(vs) == map[N := count(N), T := count(T), C := count(C), CT := count(CT)]
  {
    DictOfCounts(vs, count, N);
    DictOfCounts(vs, count, T);
    DictOfCounts(vs, count, C);
    DictOfCounts(vs, count, CT);
    TagKeys(DictOf(vs));
  }

  /** End to end: the reducer of an observed pair scores exactly the four document
      counts of that pair, each as if received once. */
  lemma PipelineScore(inputs: seq<Input>, out: seq<Count>, c: string, t: string)
    requires ToSet(out) == StageSet(GroupBy(MapAll(inputs)))
    requires (c, t) in Pairs(inputs)
    ensures ReducerChiSquared((Some(c), Some(t)), ValuesOf(out, (Some(c), Some(t)))) ==
      ReducerChiSquared((Some(c), Some(t)),
        [(N, |KeyDocs(inputs, AllKey)|), (T, |KeyDocs(inputs, (None, Some(t)))|),
         (C, |KeyDocs(inputs, (Some(c), None))|), (CT, |KeyDocs(inputs, (Some(c), Some(t)))|)])
  {
    PairValues(inputs, out, (c, t));
    PairScore(inputs, ValuesOf(out, (Some(c), Some(t))), c, t);
  }

  /** Values holding each tag's document count, however often, score as the four
      counts received once each. */
  lemma PairScore(inputs: seq<Input>, vs: seq<(Tag, nat)>, c: string, t: string)
    requires forall v :: v in vs <==> v.1 == |KeyDocs(inputs, TagKey(v.0, (c, t)))|
    ensures ReducerChiSquared((Some(c), Some(t)), vs) ==
      ReducerChiSquared((Some(c), Some(t)),
        [(N, |KeyDocs(inputs, AllKey)|), (T, |KeyDocs(inputs, (None, Some(t)))|),
         (C, |KeyDocs(inputs, (Some(c), None))|), (CT, |KeyDocs(inputs, (Some(c), Some(t)))|)])
  {
    var n, nt, nc, nct := |KeyDocs(inputs, AllKey)|, |KeyDocs(inputs, (None, Some(t)))|,
      |KeyDocs(inputs, (Some(c), None))|, |KeyDocs(inputs, (Some(c), Some(t)))|;
    DictOfTagCounts(vs, (g: Tag) => |KeyDocs(inputs, TagKey(g, (c, t)))|);
    FourCounts(n, nt, nc, nct);
    ReducerSameDict((Some(c), Some(t)), vs, [(N, n), (T, nt), (C, nc), (CT, nct)]);
  }

  /** The reducer depends on its values only through the dict it builds from them. */
  lemma ReducerSameDict(key: Key, vs1: seq<(Tag, nat)>, vs2: seq<(Tag, nat)>)
    requires key.0.Some? && key.1.Some?
    requires DictOf(vs1) == DictOf(vs2)
    ensures ReducerChiSquared(key, vs1) == ReducerChiSquared(key, vs2)
  {
  }

  // ---------------------------------------------------------------------------
  // The counts

  /** The identity sets nest: documents with the pair are documents of the category
      and documents with the token, and those are documents; so
      `0 <= N_ct <= N_c <= N` and `N_ct <= N_t <= N`. */
  lemma CountInclusions(inputs: seq<Input>, c: string, t: string)
    ensures KeyDocs(inputs, (Some(c), Some(t))) <= KeyDocs(inputs, (Some(c), None)) <= KeyDocs(inputs, AllKey)
    ensures KeyDocs(inputs, (Some(c), Some(t))) <= KeyDocs(inputs, (None, Some(t))) <= KeyDocs(inputs, AllKey)
    ensures |KeyDocs(inputs, (Some(c), Some(t)))| <= |KeyDocs(inputs, (Some(c), None))| <= |KeyDocs(inputs, AllKey)|
    ensures |KeyDocs(inputs, (Some(c), Some(t)))| <= |KeyDocs(inputs, (None, Some(t)))| <= |KeyDocs(inputs, AllKey)|
  {
    CardSubset(KeyDocs(inputs, (Some(c), Some(t))), KeyDocs(inputs, (Some(c), None)));
    CardSubset(KeyDocs(inputs, (Some(c), None)), KeyDocs(inputs, AllKey));
    CardSubset(KeyDocs(inputs, (Some(c), Some(t))), KeyDocs(inputs, (None, Some(t))));
    CardSubset(KeyDocs(inputs, (None, Some(t))), KeyDocs(inputs, AllKey));
  }

  /** Each document identity comes with a single category, as for a review. */
  predicate OneCategory(inputs: seq<Input>)
  {
    forall x, y :: x in inputs && y in inputs && x.0 == y.0 ==> x.1.0 == y.1.0
  }

  /** With one category per document, a document of the category that has the
      token is a document with the pair. */
  lemma OneCategoryMeet(inputs: seq<Input>, c: string, t: string)
    requires OneCategory(inputs)
    ensures KeyDocs(inputs, (Some(c), None)) * KeyDocs(inputs, (None, Some(t))) <= KeyDocs(inputs, (Some(c), Some(t)))
  {
    forall d | d in KeyDocs(inputs, (Some(c), None)) * KeyDocs(inputs, (None, Some(t)))
      ensures d in KeyDocs(inputs, (Some(c), Some(t)))
    {
      var x :| x in inputs && Hits((None, Some(t)), x.1) && x.0 == d;
      var y :| y in inputs && Hits((Some(c), None), y.1) && y.0 == d;
      assert Hits((Some(c), Some(t)), x.1);
    }
  }

  /** With one category per document the four cells are non-negative, and a
      defined score lies between 0 and N. */
  lemma CellsNonNegative(inputs: seq<Input>, c: string, t: string)
    requires OneCategory(inputs)
    ensures var n := |KeyDocs(inputs, AllKey)|;
      var cells := Cells(n, |KeyDocs(inputs, (Some(c), None))|, |KeyDocs(inputs, (None, Some(t)))|, |KeyDocs(inputs, (Some(c), Some(t)))|);
      cells.0 >= 0 && cells.1 >= 0 && cells.2 >= 0 && cells.3 >= 0
  {
    var docsC := KeyDocs(inputs, (Some(c), None));
    var docsT := KeyDocs(inputs, (None, Some(t)));
    CountInclusions(inputs, c, t);
    OneCategoryMeet(inputs, c, t);
    CardSubset(docsC * docsT, KeyDocs(inputs, (Some(c), Some(t))));
    assert docsC + docsT <= KeyDocs(inputs, AllKey);
    CardSubset(docsC + docsT, KeyDocs(inputs, AllKey));
  }

  /** The score of a pair from its document counts, when defined, lies between 0
      and N. */
  lemma ScoreBounds(inputs: seq<Input>, c: string, t: string)
    requires OneCategory(inputs)
    ensures var n := |KeyDocs(inputs, AllKey)|;
      var r := ReducerChiSquared((Some(c), Some(t)),
        [(N, n), (T, |KeyDocs(inputs, (None, Some(t)))|),
         (C, |KeyDocs(inputs, (Some(c), None))|), (CT, |KeyDocs(inputs, (Some(c), Some(t)))|)]);
      r.Ok? ==> 0.0 <= r.value.1.0 <= n as real
  {
    var n := |KeyDocs(inputs, AllKey)|;
    var nc := |KeyDocs(inputs, (Some(c), None))|;
    var nt := |KeyDocs(inputs, (None, Some(t)))|;
    var nct := |KeyDocs(inputs, (Some(c), Some(t)))|;
    CellsNonNegative(inputs, c, t);
    CountScoreBounds(c, t, n, nt, nc, nct);
  }

  /** With non-negative cells a defined score lies between 0 and N. */
  lemma CountScoreBounds(c: string, t: string, n: nat, nt: nat, nc: nat, nct: nat)
    requires var cells := Cells(n, nc, nt, nct); cells.0 >= 0 && cells.1 >= 0 && cells.2 >= 0 && cells.3 >= 0
    ensures var r := ReducerChiSquared((Some(c), Some(t)), [(N, n), (T, nt), (C, nc), (CT, nct)]);
      r.Ok? ==> 0.0 <= r.value.1.0 <= n as real
  {
    FourCounts(n, nt, nc, nct);
    var cells := Cells(n, nc, nt, nct);
    if Chi(n, cells.0, cells.1, cells.2, cells.3).Ok? {
      ChiBounds(n, cells.0, cells.1, cells.2, cells.3);
    }
  }

  /** End to end, with one category per document: the score of an observed pair,
      when defined, lies between 0 and N. */
  lemma PipelineScoreBounds(inputs: seq<Input>, out: seq<Count>, c: string, t: string)
    requires OneCategory(inputs)
    requires ToSet(out) == StageSet(GroupBy(MapAll(inputs)))
    requires (c, t) in Pairs(inputs)
    ensures var r := ReducerChiSquared((Some(c), Some(t)), ValuesOf(out, (Some(c), Some(t))));
      r.Ok? ==> 0.0 <= r.value.1.0 <= |KeyDocs(inputs, AllKey)| as real
  {
    PipelineScore(inputs, out, c, t);
    ScoreBounds(inputs, c, t);
  }

  /** Without one category per document the last cell can be negative: d1 is in
      category e with token a and in category b with token x, d2 has e and x. */
  lemma CellsNeedOneCategory()
    ensures var inputs := [(("d1", ""), ("e", "a")), (("d1", ""), ("b", "x")), (("d2", ""), ("e", "x"))];
      Cells(|KeyDocs(inputs, AllKey)|, |KeyDocs(inputs, (Some("e"), None))|,
            |KeyDocs(inputs, (None, Some("x")))|, |KeyDocs(inputs, (Some("e"), Some("x")))|).3 < 0
  {
    var inputs := [(("d1", ""), ("e", "a")), (("d1", ""), ("b", "x")), (("d2", ""), ("e", "x"))];
    assert KeyDocs(inputs, AllKey) == {("d1", ""), ("d2", "")};
    assert KeyDocs(inputs, (Some("e"), None)) == {("d1", ""), ("d2", "")};
    assert KeyDocs(inputs, (None, Some("x"))) == {("d1", ""), ("d2", "")};
    assert KeyDocs(inputs, (Some("e"), Some("x"))) == {("d2", "")};
  }
}
