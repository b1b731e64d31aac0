/** The counting stage shared by the server, `src/chiSquaredReduce.py` and the
    optimized variants: each review sends `((category, None), 1)` once and
    `((category, term), 1)` once per distinct term it kept, so the summed counts
    are review counts (document frequencies), not word counts. */
module DocFrequency {
  import opened Common
  import opened Contingency

  /** A review as the counting stage sees it: its category and the distinct terms
      the variant's mapper kept. */
  type Review = (string, seq<string>)

  /** `(category, None)` or `(category, term)`. */
  type Key = (string, Option<string>)

  predicate DistinctTerms(reviews: seq<Review>)
  {
    forall i :: 0 <= i < |reviews| ==> NoDup(reviews[i].1)
  }

  /** The reviews that kept the term `t`, in order. */
  function Containing(reviews: seq<Review>, t: string): seq<Review>
  {
    if reviews == [] then []
    else
      var r := reviews[|reviews| - 1];
      Containing(reviews[..|reviews| - 1], t) + (if t in r.1 then [r] else [])
  }

  /** N_c: the number of reviews in category `c`. */
  function ReviewsIn(reviews: seq<Review>, c: string): nat
  {
    Occurrences(FirstsOf(reviews), c)
  }

  /** N_t: the number of reviews that contain `t`. */
  function ReviewsWith(reviews: seq<Review>, t: string): nat
  {
    |Containing(reviews, t)|
  }

  /** N_ct: the number of reviews in category `c` that contain `t`. */
  function Frequency(reviews: seq<Review>, c: string, t: string): nat
  {
    ReviewsIn(Containing(reviews, t), c)
  }

  /** The count the stage sums for a key: N_c for `(c, None)`, N_ct for `(c, t)`. */
  function DocCount(reviews: seq<Review>, key: Key): nat
  {
    if key.1.None? then ReviewsIn(reviews, key.0) else Frequency(reviews, key.0, key.1.value)
  }

  lemma ReviewsInSnoc(reviews: seq<Review>, r: Review, c: string)
    ensures ReviewsIn(reviews + [r], c) == ReviewsIn(reviews, c) + (if r.0 == c then 1 else 0)
  {
    var s := reviews + [r];
    assert FirstsOf(s) == FirstsOf(reviews) + [r.0];
    assert FirstsOf(s)[..|reviews|] == FirstsOf(reviews);
  }

  lemma CountsSnoc(reviews: seq<Review>, r: Review, c: string, t: string)
    ensures ReviewsIn(reviews + [r], c) == ReviewsIn(reviews, c) + (if r.0 == c then 1 else 0)
    ensures Containing(reviews + [r], t) == Containing(reviews, t) + (if t in r.1 then [r] else [])
    ensures Frequency(reviews + [r], c, t) == Frequency(reviews, c, t) + (if r.0 == c && t in r.1 then 1 else 0)
  {
    var s := reviews + [r];
    assert s[..|s| - 1] == reviews;
    ReviewsInSnoc(reviews, r, c);
    var before := Containing(reviews, t);
    assert Containing(s, t) == before + (if t in r.1 then [r] else []);
    if t in r.1 {
      ReviewsInSnoc(before, r, c);
    } else {
      assert Containing(s, t) == before;
    }
  }

  /** The cells of the 2x2 table, counted over reviews: in `c` with `t`, outside
      `c` with `t`, in `c` without `t`, and the rest are never negative, and they
      add up to the number of reviews. */
  lemma {:induction false} CellsNonNegative(reviews: seq<Review>, c: string, t: string)
    ensures Frequency(reviews, c, t) <= ReviewsIn(reviews, c)
    ensures Frequency(reviews, c, t) <= ReviewsWith(reviews, t)
    ensures ReviewsIn(reviews, c) + ReviewsWith(reviews, t) - Frequency(reviews, c, t) <= |reviews|
    decreases |reviews|
  {
    if reviews != [] {
      var p := reviews[..|reviews| - 1];
      var r := reviews[|reviews| - 1];
      CellsNonNegative(p, c, t);
      assert reviews == p + [r];
      CountsSnoc(p, r, c, t);
    }
  }

  /** The records one review sends under the terms it kept. */
  function TermOnes(category: string, terms: seq<string>): (out: seq<(Key, int)>)
    ensures |out| == |terms|
    ensures forall i :: 0 <= i < |terms| ==> out[i] == ((category, Some(terms[i])), 1)
  {
    seq(|terms|, i requires 0 <= i < |terms| => ((category, Some(terms[i])), 1))
  }

  /** The records one review sends: the category total first, then its terms. */
  function Emit(review: Review): seq<(Key, int)>
  {
    [((review.0, None), 1)] + TermOnes(review.0, review.1)
  }

  /** The mapper outputs of all reviews, review after review. */
  function MapAll(reviews: seq<Review>): seq<(Key, int)>
  {
    if reviews == [] then []
    else MapAll(reviews[..|reviews| - 1]) + Emit(reviews[|reviews| - 1])
  }

  /** The same without the category totals (`chiSquaredReduceOptimized.py`). */
  function MapTerms(reviews: seq<Review>): seq<(Key, int)>
  {
    if reviews == [] then []
    else
      var r := reviews[|reviews| - 1];
      MapTerms(reviews[..|reviews| - 1]) + TermOnes(r.0, r.1)
  }

  lemma {:induction false} TermOnesValues(category: string, terms: seq<string>, key: Key)
    requires NoDup(terms)
    ensures ValuesOf(TermOnes(category, terms), key) ==
      OnesOf(if key.0 == category && key.1.Some? && key.1.value in terms then 1 else 0)
    decreases |terms|
  {
    if terms != [] {
      var n := |terms| - 1;
      assert TermOnes(category, terms)[..n] == TermOnes(category, terms[..n]);
      assert NoDup(terms[..n]);
      TermOnesValues(category, terms[..n], key);
      assert terms == terms[..n] + [terms[n]];
      assert forall w :: w in terms <==> w in terms[..n] || w == terms[n];
    }
  }

  lemma EmitValues(r: Review, key: Key)
    requires NoDup(r.1)
    ensures ValuesOf(Emit(r), key) ==
      OnesOf((if key == (r.0, None) then 1 else 0) + (if key.0 == r.0 && key.1.Some? && key.1.value in r.1 then 1 else 0))
  {
    var head: seq<(Key, int)> := [((r.0, None), 1)];
    ValuesOfAppend(head, TermOnes(r.0, r.1), key);
    assert head[..0] == [];
    TermOnesValues(r.0, r.1, key);
    OnesOfAppend(if key == (r.0, None) then 1 else 0,
      if key.0 == r.0 && key.1.Some? && key.1.value in r.1 then 1 else 0);
  }

  /** The shuffle gives every key of the counting stage one count of one per
      review it counts: N_c of them for `(c, None)` and N_ct for `(c, t)`. */
  lemma StageValues(reviews: seq<Review>, key: Key)
    requires DistinctTerms(reviews)
    ensures ValuesOf(MapAll(reviews), key) == OnesOf(DocCount(reviews, key))
    ensures ValuesOf(MapTerms(reviews), key) == OnesOf(if key.1.None? then 0 else DocCount(reviews, key))
  {
    AllStageValues(reviews, key);
    TermStageValues(reviews, key);
  }

  /** One review more adds its own count to the key's. */
  lemma DocCountSnoc(p: seq<Review>, r: Review, key: Key)
    ensures DocCount(p + [r], key) == DocCount(p, key) +
      (if key == (r.0, None) then 1 else 0) + (if key.0 == r.0 && key.1.Some? && key.1.value in r.1 then 1 else 0)
  {
    if key.1.Some? {
      CountsSnoc(p, r, key.0, key.1.value);
    } else {
      CountsSnoc(p, r, key.0, "");
    }
  }

  lemma {:induction false} AllStageValues(reviews: seq<Review>, key: Key)
    requires DistinctTerms(reviews)
    ensures ValuesOf(MapAll(reviews), key) == OnesOf(DocCount(reviews, key))
    decreases |reviews|
  {
    if reviews != [] {
      var p := reviews[..|reviews| - 1];
      var r := reviews[|reviews| - 1];
      assert DistinctTerms(p);
      AllStageValues(p, key);
      ValuesOfAppend(MapAll(p), Emit(r), key);
      EmitValues(r, key);
      assert reviews == p + [r];
      DocCountSnoc(p, r, key);
      var mine := (if key == (r.0, None) then 1 else 0) + (if key.0 == r.0 && key.1.Some? && key.1.value in r.1 then 1 else 0);
      OnesOfAppend(DocCount(p, key), mine);
    }
  }

  lemma {:induction false} TermStageValues(reviews: seq<Review>, key: Key)
    requires DistinctTerms(reviews)
    ensures ValuesOf(MapTerms(reviews), key) == OnesOf(if key.1.None? then 0 else DocCount(reviews, key))
    decreases |reviews|
  {
    if reviews != [] {
      var p := reviews[..|reviews| - 1];
      var r := reviews[|reviews| - 1];
      assert DistinctTerms(p);
      TermStageValues(p, key);
      ValuesOfAppend(MapTerms(p), TermOnes(r.0, r.1), key);
      TermOnesValues(r.0, r.1, key);
      assert reviews == p + [r];
      DocCountSnoc(p, r, key);
      OnesOfAppend(if key.1.None? then 0 else DocCount(p, key), if key.0 == r.0 && key.1.Some? && key.1.value in r.1 then 1 else 0);
    }
  }

  /** The first reducer's sum: a key is reduced exactly when it counts a review,
      and its counts add up to that number of reviews. */
  lemma StageCounts(reviews: seq<Review>, key: Key)
    requires DistinctTerms(reviews)
    ensures key in GroupBy(MapAll(reviews)) <==> DocCount(reviews, key) > 0
    ensures key in GroupBy(MapAll(reviews)) ==> Sum(GroupBy(MapAll(reviews))[key]) == DocCount(reviews, key)
    ensures key in GroupBy(MapTerms(reviews)) <==> key.1.Some? && DocCount(reviews, key) > 0
    ensures key in GroupBy(MapTerms(reviews)) ==> Sum(GroupBy(MapTerms(reviews))[key]) == DocCount(reviews, key)
  {
    StageValues(reviews, key);
    ValuesPresent(MapAll(reviews), key);
    ValuesPresent(MapTerms(reviews), key);
    SumOfOnes(OnesOf(DocCount(reviews, key)));
  }

  lemma ValuesPresent<K, V>(records: seq<(K, V)>, k: K)
    ensures k in KeysOf(records) <==> ValuesOf(records, k) != []
  {
    ValuesOfAbsent(records, k);
    if k in KeysOf(records) {
      var i :| 0 <= i < |records| && records[i].0 == k;
    }
  }

  /** The second reducer's total for the `None` term: the first reducer's
      `(category, N_c)` outputs, one per category, add up to N. */
  lemma ReviewTotal(reviews: seq<Review>, counts: seq<(string, int)>)
    requires NoDup(FirstsOf(counts))
    requires forall i :: 0 <= i < |counts| ==> counts[i].1 == ReviewsIn(reviews, counts[i].0)
    requires forall i :: 0 <= i < |reviews| ==> reviews[i].0 in FirstsOf(counts)
    ensures Sum(SecondsOf(counts)) == |reviews|
  {
    var cats := FirstsOf(reviews);
    SumOfOccurrenceCounts(cats, counts);
    SumOccurrencesAll(cats, FirstsOf(counts));
  }

  /** The second reducer's total for a term `t`: the first reducer's
      `(category, N_ct)` outputs, one per category where `t` occurs, add up to N_t. */
  lemma TermTotal(reviews: seq<Review>, t: string, counts: seq<(string, int)>)
    requires NoDup(FirstsOf(counts))
    requires forall i :: 0 <= i < |counts| ==> counts[i].1 == Frequency(reviews, counts[i].0, t)
    requires forall i :: 0 <= i < |reviews| && t in reviews[i].1 ==> reviews[i].0 in FirstsOf(counts)
    ensures Sum(SecondsOf(counts)) == ReviewsWith(reviews, t)
  {
    var with := Containing(reviews, t);
    ContainingMembers(reviews, t);
    var cats := FirstsOf(with);
    SumOfOccurrenceCounts(cats, counts);
    SumOccurrencesAll(cats, FirstsOf(counts));
  }

  lemma {:induction false} ContainingMembers(reviews: seq<Review>, t: string)
    ensures forall j :: 0 <= j < |Containing(reviews, t)| ==>
      Containing(reviews, t)[j] in reviews && t in Containing(reviews, t)[j].1
    decreases |reviews|
  {
    if reviews != [] {
      var p := reviews[..|reviews| - 1];
      ContainingMembers(p, t);
      assert reviews == p + [reviews[|reviews| - 1]];
      assert forall x :: x in p ==> x in reviews;
    }
  }
  /** Every defined score of the document-frequency variants lies in [0, N]. */
  lemma ScoreBounds(reviews: seq<Review>, c: string, t: string)
    requires CellScore(|reviews|, ReviewsIn(reviews, c), ReviewsWith(reviews, t), Frequency(reviews, c, t)).Ok?
    ensures 0.0 <= CellScore(|reviews|, ReviewsIn(reviews, c), ReviewsWith(reviews, t), Frequency(reviews, c, t)).value <= |reviews| as real
  {
    CellsNonNegative(reviews, c, t);
    CellScoreBounds(|reviews|, ReviewsIn(reviews, c), ReviewsWith(reviews, t), Frequency(reviews, c, t));
  }

  /** The mapper of a review sends the category total once, first, and one count
      of one for each of its terms, each once. */
  lemma EmitFacts(r: Review)
    requires NoDup(r.1)
    ensures Emit(r) != [] && Emit(r)[0] == ((r.0, None), 1)
    ensures forall i :: 1 <= i < |Emit(r)| ==> Emit(r)[i].0.0 == r.0 && Emit(r)[i].0.1.Some? && Emit(r)[i].1 == 1
    ensures forall w :: ((r.0, Some(w)), 1) in Emit(r) <==> w in r.1
    ensures NoDup(Emit(r))
  {
    var out := Emit(r);
    forall w ensures ((r.0, Some(w)), 1) in out <==> w in r.1 {
      if w in r.1 {
        var i :| 0 <= i < |r.1| && r.1[i] == w;
        assert out[i + 1] == ((r.0, Some(w)), 1);
      }
    }
  }
  /** What the first reducer sends for the reduced keys, in the order listed:
      `(term, (category, count))`, the `None` term carrying the category total. */
  function ByTerm(reviews: seq<Review>, keys: seq<Key>): (out: seq<(Option<string>, (string, int))>)
    ensures |out| == |keys|
    ensures forall i :: 0 <= i < |keys| ==> out[i] == (keys[i].1, (keys[i].0, DocCount(reviews, keys[i]) as int))
  {
    seq(|keys|, i requires 0 <= i < |keys| => (keys[i].1, (keys[i].0, DocCount(reviews, keys[i]) as int)))
  }

  /** The group of a term after the first step: one `(category, count)` per reduced
      key of that term, so the categories are distinct and each count is the key's
      review count. */
  lemma ByTermGroup(reviews: seq<Review>, keys: seq<Key>, t: Option<string>)
    requires NoDup(keys)
    ensures NoDup(FirstsOf(ValuesOf(ByTerm(reviews, keys), t)))
    ensures forall i :: 0 <= i < |ValuesOf(ByTerm(reviews, keys), t)| ==>
      ValuesOf(ByTerm(reviews, keys), t)[i].1 == DocCount(reviews, (ValuesOf(ByTerm(reviews, keys), t)[i].0, t))
    ensures forall c :: (c, t) in keys ==> c in FirstsOf(ValuesOf(ByTerm(reviews, keys), t))
  {
    ByTermDistinct(reviews, keys, t);
    var group := ValuesOf(ByTerm(reviews, keys), t);
    forall i | 0 <= i < |group| ensures group[i].1 == DocCount(reviews, (group[i].0, t)) {
      ValuesOfMembers(ByTerm(reviews, keys), t, group[i]);
    }
    forall c | (c, t) in keys ensures c in FirstsOf(group) {
      var j :| 0 <= j < |keys| && keys[j] == (c, t);
      ValuesOfMembers(ByTerm(reviews, keys), t, (c, DocCount(reviews, keys[j]) as int));
      var i :| 0 <= i < |group| && group[i] == (c, DocCount(reviews, keys[j]) as int);
      assert FirstsOf(group)[i] == c;
    }
  }

  lemma {:induction false} ByTermDistinct(reviews: seq<Review>, keys: seq<Key>, t: Option<string>)
    requires NoDup(keys)
    ensures NoDup(FirstsOf(ValuesOf(ByTerm(reviews, keys), t)))
    decreases |keys|
  {
    if keys != [] {
      var n := |keys| - 1;
      var p := keys[..n];
      assert NoDup(p);
      ByTermDistinct(reviews, p, t);
      assert ByTerm(reviews, keys)[..n] == ByTerm(reviews, p);
      var before := ValuesOf(ByTerm(reviews, p), t);
      var after := ValuesOf(ByTerm(reviews, keys), t);
      assert keys == p + [keys[n]];
      if keys[n].1 == t {
        assert after == before + [(keys[n].0, DocCount(reviews, keys[n]) as int)];
        assert FirstsOf(after) == FirstsOf(before) + [keys[n].0];
        forall i | 0 <= i < |before| ensures before[i].0 != keys[n].0 {
          ValuesOfMembers(ByTerm(reviews, p), t, before[i]);
          var j :| 0 <= j < |p| && ByTerm(reviews, p)[j] == (t, before[i]);
          assert p[j] != keys[n];
        }
      } else {
        assert after == before;
      }
    }
  }

  lemma ReviewCountsPositive(reviews: seq<Review>, i: nat)
    requires i < |reviews|
    ensures ReviewsIn(reviews, reviews[i].0) > 0
    ensures forall t :: t in reviews[i].1 ==> Frequency(reviews, reviews[i].0, t) > 0
  {
    OccurrencesPositive(FirstsOf(reviews), i);
    forall t | t in reviews[i].1 ensures Frequency(reviews, reviews[i].0, t) > 0 {
      ContainingHas(reviews, i, t);
    }
  }

  lemma {:induction false} ContainingHas(reviews: seq<Review>, i: nat, t: string)
    requires i < |reviews| && t in reviews[i].1
    ensures Frequency(reviews, reviews[i].0, t) > 0
    decreases |reviews|
  {
    var p := reviews[..|reviews| - 1];
    var r := reviews[|reviews| - 1];
    assert reviews == p + [r];
    CountsSnoc(p, r, reviews[i].0, t);
    if i < |p| {
      ContainingHas(p, i, t);
    }
  }

  /** The second step's totals: listing the reduced keys of the first step once
      each, in any order, the counts a term's group receives add up to N_t, and
      those of the `None` group add up to N. */
  lemma StepTwoTotals(reviews: seq<Review>, keys: seq<Key>, t: Option<string>)
    requires DistinctTerms(reviews)
    requires NoDup(keys) && ToSet(keys) == GroupBy(MapAll(reviews)).Keys
    ensures Sum(SecondsOf(ValuesOf(ByTerm(reviews, keys), t))) ==
      if t.None? then |reviews| else ReviewsWith(reviews, t.value)
  {
    var vals := ValuesOf(ByTerm(reviews, keys), t);
    ByTermGroup(reviews, keys, t);
    forall i | 0 <= i < |reviews| && (t.None? || t.value in reviews[i].1)
      ensures reviews[i].0 in FirstsOf(vals)
    {
      ReviewCountsPositive(reviews, i);
      StageCounts(reviews, (reviews[i].0, t));
      assert (reviews[i].0, t) in ToSet(keys);
    }
    if t.None? {
      ReviewTotal(reviews, vals);
    } else {
      TermTotal(reviews, t.value, vals);
    }
  }

  // ---------------------------------------------------------------------------
  // The reducers shared by the three-step variants

  /** The first reducer of both three-step variants (`reducer_1`,
      `reducer_count_terms`): the key turned round, `(token, (category, count))`,
      with the sum of the counts, which for counts of one is their number. */
  function Regroup(key: Key, counts: seq<int>): (out: (Option<string>, (string, int)))
    ensures out.0 == key.1 && out.1.0 == key.0
    ensures AllOnes(counts) ==> out.1.1 == |counts|
  {
    if AllOnes(counts) then
      SumOfOnes(counts);
      (key.1, (key.0, Sum(counts)))
    else
      (key.1, (key.0, Sum(counts)))
  }

  /** The first step over the reduced keys, each listed once in any order. */
  function RegroupAll(records: seq<(Key, int)>, keys: seq<Key>): (out: seq<(Option<string>, (string, int))>)
    requires forall i :: 0 <= i < |keys| ==> keys[i] in GroupBy(records)
  {
    seq(|keys|, i requires 0 <= i < |keys| => Regroup(keys[i], GroupBy(records)[keys[i]]))
  }

  /** Over the mapper outputs of a corpus, a key is reduced exactly when it counts
      a review, and the first step sends `(t, (c, N_ct))` for a term and
      `(None, (c, N_c))` for a category total. */
  lemma RegroupCounts(reviews: seq<Review>, keys: seq<Key>)
    requires DistinctTerms(reviews)
    requires forall i :: 0 <= i < |keys| ==> keys[i] in GroupBy(MapAll(reviews))
    ensures forall key :: key in GroupBy(MapAll(reviews)) <==> DocCount(reviews, key) > 0
    ensures RegroupAll(MapAll(reviews), keys) == ByTerm(reviews, keys)
  {
    forall key ensures key in GroupBy(MapAll(reviews)) <==> DocCount(reviews, key) > 0 {
      StageCounts(reviews, key);
    }
    forall i | 0 <= i < |keys|
      ensures RegroupAll(MapAll(reviews), keys)[i] == ByTerm(reviews, keys)[i]
    {
      StageValues(reviews, keys[i]);
    }
  }

  /** The dict a category group of the third step builds from its
      `(token, count, total)` values, keyed by token. */
  function CountsOf(values: seq<(Option<string>, int, int)>): map<Option<string>, (int, int)>
  {
    DictOf(Pairs(values))
  }

  function Pairs(values: seq<(Option<string>, int, int)>): (r: seq<(Option<string>, (int, int))>)
    ensures |r| == |values| && forall i :: 0 <= i < |values| ==> r[i] == (values[i].0, (values[i].1, values[i].2))
  {
    seq(|values|, i requires 0 <= i < |values| => (values[i].0, (values[i].1, values[i].2)))
  }

  /** The tokens left in the dict after `pop(None)`, in iteration order. */
  function GroupTokens(values: seq<(Option<string>, int, int)>): (r: seq<Option<string>>)
    ensures NoDup(r)
    ensures forall i :: 0 <= i < |r| ==> r[i].Some? && r[i] in CountsOf(values)
  {
    var order := DictOrder(Pairs(values));
    var r := Without(order, None);
    assert forall i :: 0 <= i < |r| ==> r[i] in ToSet(r);
    r
  }

  /** A value of category `c`'s group as the earlier steps of a corpus send it:
      N_ct and N_t for a token, N_c and N for `None`. */
  predicate CorpusValue(reviews: seq<Review>, c: string, v: (Option<string>, int, int))
  {
    if v.0.Some? then v.1 == Frequency(reviews, c, v.0.value) && v.2 == ReviewsWith(reviews, v.0.value)
    else v.1 == ReviewsIn(reviews, c) && v.2 == |reviews|
  }

  /** Every value of the group is a value of the corpus. */
  predicate CorpusCounts(reviews: seq<Review>, c: string, values: seq<(Option<string>, int, int)>)
  {
    forall j :: 0 <= j < |values| ==> CorpusValue(reviews, c, values[j])
  }

  /** The shuffle keeps that property: when every record of the second step
      carries its category's corpus counts, so does every group. */
  lemma ShuffleCorpus(reviews: seq<Review>, records: seq<(string, (Option<string>, int, int))>, c: string)
    requires forall i :: 0 <= i < |records| ==> CorpusValue(reviews, records[i].0, records[i].1)
    ensures CorpusCounts(reviews, c, ValuesOf(records, c))
  {
    var vs := ValuesOf(records, c);
    forall j | 0 <= j < |vs| ensures CorpusValue(reviews, c, vs[j]) {
      ValuesOfMembers(records, c, vs[j]);
      var i :| 0 <= i < |records| && records[i] == (c, vs[j]);
    }
  }

  lemma CountsOfCorpus(reviews: seq<Review>, c: string, values: seq<(Option<string>, int, int)>, t: Option<string>)
    requires CorpusCounts(reviews, c, values) && t in CountsOf(values)
    ensures t.Some? ==> CountsOf(values)[t] == (Frequency(reviews, c, t.value), ReviewsWith(reviews, t.value))
    ensures t.None? ==> CountsOf(values)[t] == (ReviewsIn(reviews, c), |reviews|)
  {
    var pairs := Pairs(values);
    DictOfMember(pairs, t);
    var j :| 0 <= j < |pairs| && pairs[j] == (t, DictOf(pairs)[t]);
    assert values[j].0 == t;
  }

  /** The scores of `tokens` in order, N_c and N taken from the `None` entry; the
      first zero marginal raises `ZeroDivisionError`. */
  function ScoreAll(counts: map<Option<string>, (int, int)>, tokens: seq<Option<string>>, nc: int, n: int): Result<seq<(real, string)>>
    requires forall i :: 0 <= i < |tokens| ==> tokens[i].Some? && tokens[i] in counts
  {
    if tokens == [] then Ok([])
    else
      var t := tokens[|tokens| - 1];
      match ScoreAll(counts, tokens[..|tokens| - 1], nc, n)
      case Err(e) => Err(e)
      case Ok(s) =>
        match CellScore(n, nc, counts[t].1, counts[t].0)
        case Err(e) => Err(e)
        case Ok(v) => Ok(s + [(v, t.value)])
  }

  lemma ScoreAllSnoc(counts: map<Option<string>, (int, int)>, tokens: seq<Option<string>>, nc: int, n: int, j: nat, s: seq<(real, string)>)
    requires forall i :: 0 <= i < |tokens| ==> tokens[i].Some? && tokens[i] in counts
    requires j < |tokens| && ScoreAll(counts, tokens[..j], nc, n) == Ok(s)
    ensures var score := CellScore(n, nc, counts[tokens[j]].1, counts[tokens[j]].0);
      ScoreAll(counts, tokens[..j + 1], nc, n) ==
        if score.Err? then Err(score.error) else Ok(s + [(score.value, tokens[j].value)])
  {
    assert tokens[..j + 1][..j] == tokens[..j];
  }

  lemma {:induction false} ScoreAllErrPrefix(counts: map<Option<string>, (int, int)>, tokens: seq<Option<string>>, nc: int, n: int, j: nat)
    requires forall i :: 0 <= i < |tokens| ==> tokens[i].Some? && tokens[i] in counts
    requires j <= |tokens| && ScoreAll(counts, tokens[..j], nc, n).Err?
    ensures ScoreAll(counts, tokens, nc, n) == ScoreAll(counts, tokens[..j], nc, n)
    decreases |tokens| - j
  {
    if j < |tokens| {
      assert tokens[..j + 1][..j] == tokens[..j];
      ScoreAllErrPrefix(counts, tokens, nc, n, j + 1);
    } else {
      assert tokens[..j] == tokens;
    }
  }

  /** The scores are computed for every token of the group, each in order. */
  lemma {:induction false} ScoreAllValues(counts: map<Option<string>, (int, int)>, tokens: seq<Option<string>>, nc: int, n: int)
    requires forall i :: 0 <= i < |tokens| ==> tokens[i].Some? && tokens[i] in counts
    ensures ScoreAll(counts, tokens, nc, n).Ok? <==>
      forall i :: 0 <= i < |tokens| ==> CellScore(n, nc, counts[tokens[i]].1, counts[tokens[i]].0).Ok?
    ensures ScoreAll(counts, tokens, nc, n).Err? ==> ScoreAll(counts, tokens, nc, n).error == ZeroDivisionError
    ensures ScoreAll(counts, tokens, nc, n).Ok? ==>
      var s := ScoreAll(counts, tokens, nc, n).value;
      |s| == |tokens| &&
      forall i :: 0 <= i < |tokens| ==> s[i] == (CellScore(n, nc, counts[tokens[i]].1, counts[tokens[i]].0).value, tokens[i].value)
    decreases |tokens|
  {
    if tokens != [] {
      var p := tokens[..|tokens| - 1];
      var t := tokens[|tokens| - 1];
      ScoreAllValues(counts, p, nc, n);
      CellScoreDefined(n, nc, counts[t].1, counts[t].0);
    }
  }

  /** The scores of a category group in dict order, or the error its reducer
      raises: `KeyError` when the `None` entry with N_c and N is missing,
      `ZeroDivisionError` at the first token with a zero marginal. */
  function GroupScores(values: seq<(Option<string>, int, int)>): (r: Result<seq<(real, string)>>)
    ensures r.Ok? ==> None in CountsOf(values)
  {
    var counts := CountsOf(values);
    if None !in counts then Err(KeyError)
    else ScoreAll(counts, GroupTokens(values), counts[None].0, counts[None].1)
  }

  /** A `KeyError` exactly when no value carries the category total. */
  lemma GroupScoresKeyError(values: seq<(Option<string>, int, int)>)
    ensures GroupScores(values) == Err(KeyError) <==> forall i :: 0 <= i < |values| ==> values[i].0 != None
  {
    var counts := CountsOf(values);
    var pairs := Pairs(values);
    if None in counts {
      ScoreAllValues(counts, GroupTokens(values), counts[None].0, counts[None].1);
      var i :| 0 <= i < |pairs| && pairs[i].0 == None;
      assert values[i].0 == None;
    } else {
      forall i | 0 <= i < |values| ensures values[i].0 != None {
        assert pairs[i].0 in KeysOf(pairs);
      }
    }
  }

  /** With the category total present, the division fails exactly when some
      token is scored and the category holds no review or every review, or some
      token occurs in no review or in every review. */
  lemma GroupScoresDivision(values: seq<(Option<string>, int, int)>)
    requires None in CountsOf(values)
    ensures var counts := CountsOf(values);
      var nc := counts[None].0;
      var n := counts[None].1;
      var tokens := GroupTokens(values);
      GroupScores(values) == Err(ZeroDivisionError) <==>
        tokens != [] &&
        (nc == 0 || nc == n || exists i :: 0 <= i < |tokens| && (counts[tokens[i]].1 == 0 || counts[tokens[i]].1 == n))
    ensures GroupScores(values).Err? ==> GroupScores(values).error == ZeroDivisionError
  {
    var counts := CountsOf(values);
    var tokens := GroupTokens(values);
    var nc := counts[None].0;
    var n := counts[None].1;
    ScoreAllValues(counts, tokens, nc, n);
    forall i | 0 <= i < |tokens|
      ensures CellScore(n, nc, counts[tokens[i]].1, counts[tokens[i]].0).Err? <==>
        counts[tokens[i]].1 == 0 || nc == 0 || nc == n || counts[tokens[i]].1 == n
    {
      CellScoreDefined(n, nc, counts[tokens[i]].1, counts[tokens[i]].0);
    }
  }

  /** A defined result scores every token of the group once, in dict order, from
      its own counts and the category total. */
  lemma GroupScoresValues(values: seq<(Option<string>, int, int)>)
    requires GroupScores(values).Ok?
    ensures var counts := CountsOf(values);
      var tokens := GroupTokens(values);
      var s := GroupScores(values).value;
      None in counts && |s| == |tokens| &&
      forall i :: 0 <= i < |s| ==>
        CellScore(counts[None].1, counts[None].0, counts[tokens[i]].1, counts[tokens[i]].0) == Ok(s[i].0) &&
        s[i].1 == tokens[i].value
  {
    var counts := CountsOf(values);
    ScoreAllValues(counts, GroupTokens(values), counts[None].0, counts[None].1);
  }

  /** Fed with the counts of a corpus, every score lies in [0, N]. */
  lemma GroupScoresBounds(reviews: seq<Review>, c: string, values: seq<(Option<string>, int, int)>)
    requires CorpusCounts(reviews, c, values) && GroupScores(values).Ok?
    ensures var s := GroupScores(values).value;
      forall m :: 0 <= m < |s| ==> 0.0 <= s[m].0 <= |reviews| as real
  {
    var tokens := GroupTokens(values);
    GroupScoresValues(values);
    var s := GroupScores(values).value;
    CountsOfCorpus(reviews, c, values, None);
    forall m | 0 <= m < |s| ensures 0.0 <= s[m].0 <= |reviews| as real {
      CountsOfCorpus(reviews, c, values, tokens[m]);
      ScoreBounds(reviews, c, tokens[m].value);
    }
  }

  // ---------------------------------------------------------------------------
  // A worked corpus

  /** Three reviews as the counting stage sees them: two in electronics with the
      terms {good, cheap} and {good}, one in books with {cheap, novel}. */
  function ExampleCorpus(): (r: seq<Review>)
    ensures DistinctTerms(r)
  {
    [("electronics", ["good", "cheap"]), ("electronics", ["good"]), ("books", ["cheap", "novel"])]
  }

  /** Its counts for electronics: N = 3 and N_c = 2; "good" has N_t = 2 and
      N_ct = 2 (cells 2, 0, 0, 1, score 3), "cheap" has N_t = 2 and N_ct = 1
      (cells 1, 1, 1, 0, score 0.75). */
  lemma ExampleCounts()
    ensures var r := ExampleCorpus();
      |r| == 3 && ReviewsIn(r, "electronics") == 2 &&
      ReviewsWith(r, "good") == 2 && Frequency(r, "electronics", "good") == 2 &&
      ReviewsWith(r, "cheap") == 2 && Frequency(r, "electronics", "cheap") == 1
    ensures CellScore(3, 2, 2, 2) == Ok(3.0) && CellScore(3, 2, 2, 1) == Ok(0.75)
  {
    var r := ExampleCorpus();
    var e := ["electronics", "electronics", "books"];
    assert r[..2][..1] == r[..1] && r[..1][..0] == [];
    assert "good" in r[0].1 && "good" in r[1].1 && "good" !in r[2].1;
    assert "cheap" in r[0].1 && "cheap" !in r[1].1 && "cheap" in r[2].1;
    assert Containing(r[..1], "good") == [r[0]];
    assert Containing(r[..2], "good") == [r[0], r[1]];
    assert Containing(r, "good") == [r[0], r[1]];
    assert Containing(r[..1], "cheap") == [r[0]];
    assert Containing(r[..2], "cheap") == [r[0]];
    assert Containing(r, "cheap") == [r[0], r[2]];
    assert FirstsOf(r) == e;
    assert e[..2][..1] == e[..1] && e[..1][..0] == [];
    assert Occurrences(e[..1], "electronics") == 1;
    assert Occurrences(e[..2], "electronics") == 2;
    assert Occurrences(e, "electronics") == 2;
    var g := ["electronics", "electronics"];
    assert FirstsOf([r[0], r[1]]) == g;
    assert g[..1][..0] == [];
    assert Occurrences(g[..1], "electronics") == 1;
    assert Occurrences(g, "electronics") == 2;
    var h := ["electronics", "books"];
    assert FirstsOf([r[0], r[2]]) == h;
    assert h[..1][..0] == [];
    assert Occurrences(h[..1], "electronics") == 1;
    assert Occurrences(h, "electronics") == 1;
    ChiExampleFirst();
    ChiExampleSecond();
  }
}
