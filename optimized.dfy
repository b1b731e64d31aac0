/** The four-step variant `chiSquaredReduceOptimized.py`. A first job counts the
    reviews of every category, and the driver keeps those counts in a dict, with
    their sum stored under the key "N". The main job then runs four steps. Step one
    counts, per (category, term), the reviews that contain the term, the terms of a
    review being read as in `src/chiSquaredReduce.py`. Step two adds each term's
    total over the categories. Step three scores every (category, term) pair from
    those counts and the driver's dict. Step four lists the whole vocabulary in
    sorted order and, for each category, its 75 best (term, score) pairs. */
module ChiSquaredOptimized {
  import opened Common
  import opened Tokens
  import opened Lexicon
  import opened Ranking
  import opened Contingency
  import opened DocFrequency
  import ChiSquaredReduce

  /** How many pairs `reducer_4` keeps per category. */
  const TopCount: int := 75

  type Input = ChiSquaredReduce.Input

  /** `(category, term)`, the key of steps one and three. */
  type TermPair = (string, string)

  /** The reviews as the main job reads them. */
  function ReviewsOf(inputs: seq<Input>, stopwords: set<string>): seq<Review>
  {
    ChiSquaredReduce.ReviewsOf(inputs, stopwords)
  }

  // ---------------------------------------------------------------------------
  // The counting job and the driver's dict

  /** `CountingProcessor.mapper`: `(category, 1)`, a missing category read as ''. */
  function CountingMapper(input: Input): (string, int)
  {
    (OrEmpty(input.0), 1)
  }

  function CountingMap(inputs: seq<Input>): seq<(string, int)>
  {
    seq(|inputs|, i requires 0 <= i < |inputs| => CountingMapper(inputs[i]))
  }

  /** `CountingProcessor.reducer` (the summing reducer) on the reduced categories,
      each listed once, in the order the runner delivers them. */
  function CountingOutput(inputs: seq<Input>, cats: seq<string>): seq<(string, int)>
    requires forall i :: 0 <= i < |cats| ==> cats[i] in GroupBy(CountingMap(inputs))
  {
    seq(|cats|, i requires 0 <= i < |cats| => SumReducer(cats[i], GroupBy(CountingMap(inputs))[cats[i]]))
  }

  /** The dict the driver builds: `category_counts[key] = value` for every output
      of the counting job, then `category_counts["N"]` set to the sum of all the
      values stored so far. */
  function CategoryCountsOf(outputs: seq<(string, int)>): map<string, int>
  {
    DictOf(outputs)["N" := SumOver(DictOf(outputs), DictOrder(outputs))]
  }

  /** The driver loop over the counting job's outputs and the sum of the dict's
      values. */
  method CategoryCounts(outputs: seq<(string, int)>) returns (counts: map<string, int>)
    ensures counts == CategoryCountsOf(outputs)
  {
    counts := map[];
    var order: seq<string> := [];
    for i := 0 to |outputs|
      invariant counts == DictOf(outputs[..i])
      invariant order == DictOrder(outputs[..i])
    {
      var (key, value) := outputs[i];
      DictStep(outputs, i);
      if key !in counts {
        order := order + [key];
      }
      counts := counts[key := value];
    }
    assert outputs[..|outputs|] == outputs;
    var total := 0;
    for j := 0 to |order|
      invariant total == SumOver(counts, order[..j])
    {
      assert order[..j + 1][..j] == order[..j];
      total := total + counts[order[j]];
    }
    assert order[..|order|] == order;
    counts := counts["N" := total];
  }

  /** The counting mapper sends one count of one per review, under its category. */
  lemma CountingMapOnes(inputs: seq<Input>, stopwords: set<string>)
    ensures CountingMap(inputs) == Ones(FirstsOf(ReviewsOf(inputs, stopwords)))
  {
  }

  /** The counting job yields every listed category with its number of reviews. */
  lemma CountingOutputCounts(inputs: seq<Input>, stopwords: set<string>, cats: seq<string>)
    requires forall i :: 0 <= i < |cats| ==> cats[i] in GroupBy(CountingMap(inputs))
    ensures FirstsOf(CountingOutput(inputs, cats)) == cats
    ensures forall i :: 0 <= i < |cats| ==>
      CountingOutput(inputs, cats)[i].1 == ReviewsIn(ReviewsOf(inputs, stopwords), cats[i])
  {
    var names := FirstsOf(ReviewsOf(inputs, stopwords));
    CountingMapOnes(inputs, stopwords);
    forall i | 0 <= i < |cats|
      ensures CountingOutput(inputs, cats)[i].1 == ReviewsIn(ReviewsOf(inputs, stopwords), cats[i])
    {
      OnesValues(names, cats[i]);
    }
  }

  /** Over a corpus the dict holds N under "N" and, under every other category
      of the corpus, its number of reviews N_c; a category named "N" has its own
      count overwritten by N. */
  lemma CategoryTotals(inputs: seq<Input>, stopwords: set<string>, cats: seq<string>)
    requires NoDup(cats) && ToSet(cats) == GroupBy(CountingMap(inputs)).Keys
    ensures forall i :: 0 <= i < |cats| ==> cats[i] in GroupBy(CountingMap(inputs))
    ensures var counts := CategoryCountsOf(CountingOutput(inputs, cats));
      var reviews := ReviewsOf(inputs, stopwords);
      "N" in counts && counts["N"] == |inputs| &&
      (forall c :: c != "N" ==> (c in counts <==> ReviewsIn(reviews, c) > 0)) &&
      (forall c :: c != "N" && c in counts ==> counts[c] == ReviewsIn(reviews, c))
  {
    forall i | 0 <= i < |cats| ensures cats[i] in GroupBy(CountingMap(inputs)) {
      assert cats[i] in ToSet(cats);
    }
    var reviews := ReviewsOf(inputs, stopwords);
    var outputs := CountingOutput(inputs, cats);
    CountingOutputCounts(inputs, stopwords, cats);
    CountingSum(inputs, stopwords, cats);
    DictOfDistinct(outputs);
    forall c | c != "N"
      ensures c in DictOf(outputs) <==> ReviewsIn(reviews, c) > 0
      ensures c in DictOf(outputs) ==> DictOf(outputs)[c] == ReviewsIn(reviews, c)
    {
      CountingEntry(inputs, stopwords, cats, c);
    }
  }

  /** The values of the dict add up to the number of reviews. */
  lemma CountingSum(inputs: seq<Input>, stopwords: set<string>, cats: seq<string>)
    requires NoDup(cats) && ToSet(cats) == GroupBy(CountingMap(inputs)).Keys
    requires forall i :: 0 <= i < |cats| ==> cats[i] in GroupBy(CountingMap(inputs))
    ensures SumOver(DictOf(CountingOutput(inputs, cats)), DictOrder(CountingOutput(inputs, cats))) == |inputs|
  {
    var reviews := ReviewsOf(inputs, stopwords);
    var names := FirstsOf(reviews);
    var outputs := CountingOutput(inputs, cats);
    CountingOutputCounts(inputs, stopwords, cats);
    CountingMapOnes(inputs, stopwords);
    forall i | 0 <= i < |reviews| ensures reviews[i].0 in FirstsOf(outputs) {
      KeysOfOnes(names, names[i]);
      assert names[i] in ToSet(cats);
    }
    ReviewTotal(reviews, outputs);
    DictOfDistinct(outputs);
    SumOverDistinct(outputs);
  }

  /** A category other than "N" is in the dict exactly when it has reviews, with
      their number. */
  lemma CountingEntry(inputs: seq<Input>, stopwords: set<string>, cats: seq<string>, c: string)
    requires NoDup(cats) && ToSet(cats) == GroupBy(CountingMap(inputs)).Keys
    requires forall i :: 0 <= i < |cats| ==> cats[i] in GroupBy(CountingMap(inputs))
    ensures c in DictOf(CountingOutput(inputs, cats)) <==> ReviewsIn(ReviewsOf(inputs, stopwords), c) > 0
    ensures c in DictOf(CountingOutput(inputs, cats)) ==>
      DictOf(CountingOutput(inputs, cats))[c] == ReviewsIn(ReviewsOf(inputs, stopwords), c)
  {
    var names := FirstsOf(ReviewsOf(inputs, stopwords));
    var outputs := CountingOutput(inputs, cats);
    CountingOutputCounts(inputs, stopwords, cats);
    CountingMapOnes(inputs, stopwords);
    KeysOfOnes(names, c);
    OccurrencesPresent(names, c);
    assert c in KeysOf(outputs) <==> c in ToSet(cats) by {
      if c in ToSet(cats) {
        var i :| 0 <= i < |cats| && cats[i] == c;
        assert outputs[i].0 == c;
      }
    }
    if c in DictOf(outputs) {
      var i :| 0 <= i < |cats| && cats[i] == c;
      DictOfAt(outputs, i);
    }
  }

  // ---------------------------------------------------------------------------
  // Step one

  /** `mapper_1`: `((category, term), 1)` once per distinct term of the review. */
  function MapperOne(input: Input, stopwords: set<string>): (out: seq<(TermPair, int)>)
    ensures forall i :: 0 <= i < |out| ==> out[i].0.0 == OrEmpty(input.0) && out[i].1 == 1
    ensures NoDup(out)
  {
    var category := OrEmpty(input.0);
    var terms := SplitTerms(OrEmpty(input.1), stopwords);
    seq(|terms|, i requires 0 <= i < |terms| => ((category, terms[i]), 1))
  }

  /** A term is counted for the review exactly when it is a piece of the
      lower-cased text, longer than one character and not a stopword. */
  lemma MapperOneTerms(input: Input, stopwords: set<string>, w: string)
    ensures ((OrEmpty(input.0), w), 1) in MapperOne(input, stopwords) <==>
      w in Split(Lower(OrEmpty(input.1))) && IsTerm(w, stopwords)
  {
    SplitTermsMembers(OrEmpty(input.1), stopwords, w);
    var out := MapperOne(input, stopwords);
    var terms := SplitTerms(OrEmpty(input.1), stopwords);
    if w in terms {
      var i :| 0 <= i < |terms| && terms[i] == w;
      assert out[i] == ((OrEmpty(input.0), w), 1);
    }
  }

  function MapStageOne(inputs: seq<Input>, stopwords: set<string>): seq<(TermPair, int)>
  {
    if inputs == [] then []
    else MapStageOne(inputs[..|inputs| - 1], stopwords) + MapperOne(inputs[|inputs| - 1], stopwords)
  }

  /** A (category, term) pair as a key of the shared counting stage. */
  function KeyOf(k: TermPair): Key
  {
    (k.0, Some(k.1))
  }

  function Lift<V>(records: seq<(TermPair, V)>): (r: seq<(Key, V)>)
    ensures |r| == |records| && forall i :: 0 <= i < |r| ==> r[i] == (KeyOf(records[i].0), records[i].1)
  {
    seq(|records|, i requires 0 <= i < |records| => (KeyOf(records[i].0), records[i].1))
  }

  lemma {:induction false} ValuesOfLift<V>(records: seq<(TermPair, V)>, k: TermPair)
    ensures ValuesOf(Lift(records), KeyOf(k)) == ValuesOf(records, k)
    decreases |records|
  {
    if records != [] {
      var n := |records| - 1;
      assert Lift(records)[..n] == Lift(records[..n]);
      ValuesOfLift(records[..n], k);
    }
  }

  lemma LiftAppend<V>(a: seq<(TermPair, V)>, b: seq<(TermPair, V)>)
    ensures Lift(a + b) == Lift(a) + Lift(b)
  {
  }

  lemma LiftMapperOne(input: Input, stopwords: set<string>)
    ensures Lift(MapperOne(input, stopwords)) == TermOnes(OrEmpty(input.0), SplitTerms(OrEmpty(input.1), stopwords))
  {
  }

  /** Step one's mapper outputs are those of the shared counting stage without
      the category totals. */
  lemma {:induction false} MapStageOneIsCounting(inputs: seq<Input>, stopwords: set<string>)
    ensures Lift(MapStageOne(inputs, stopwords)) == MapTerms(ReviewsOf(inputs, stopwords))
    decreases |inputs|
  {
    if inputs != [] {
      var n := |inputs| - 1;
      var reviews := ReviewsOf(inputs, stopwords);
      MapStageOneIsCounting(inputs[..n], stopwords);
      assert reviews[..n] == ReviewsOf(inputs[..n], stopwords);
      LiftAppend(MapStageOne(inputs[..n], stopwords), MapperOne(inputs[n], stopwords));
      LiftMapperOne(inputs[n], stopwords);
      assert reviews[n] == (OrEmpty(inputs[n].0), SplitTerms(OrEmpty(inputs[n].1), stopwords));
    }
  }

  /** `reducer_1` (the summing reducer): a (category, term) pair is reduced
      exactly when some review of the category contains the term, and its sum is
      the number N_ct of those reviews. */
  lemma StepOneCounts(inputs: seq<Input>, stopwords: set<string>, k: TermPair)
    ensures k in GroupBy(MapStageOne(inputs, stopwords)) <==> Frequency(ReviewsOf(inputs, stopwords), k.0, k.1) > 0
    ensures k in GroupBy(MapStageOne(inputs, stopwords)) ==>
      SumReducer(k, GroupBy(MapStageOne(inputs, stopwords))[k]) == (k, Frequency(ReviewsOf(inputs, stopwords), k.0, k.1) as int)
  {
    var reviews := ReviewsOf(inputs, stopwords);
    var records := MapStageOne(inputs, stopwords);
    MapStageOneIsCounting(inputs, stopwords);
    StageCounts(reviews, KeyOf(k));
    ValuesOfLift(records, k);
    ValuesPresent(records, k);
    ValuesPresent(MapTerms(reviews), KeyOf(k));
  }

  /** What step one yields for the reduced pairs, in the order listed. */
  function StepOne(inputs: seq<Input>, stopwords: set<string>, keys: seq<TermPair>): seq<(TermPair, int)>
    requires forall i :: 0 <= i < |keys| ==> keys[i] in GroupBy(MapStageOne(inputs, stopwords))
  {
    seq(|keys|, i requires 0 <= i < |keys| => SumReducer(keys[i], GroupBy(MapStageOne(inputs, stopwords))[keys[i]]))
  }

  // ---------------------------------------------------------------------------
  // Step two

  /** `mapper_2`: `(term, (category, count))`. */
  function MapperTwo(record: (TermPair, int)): (string, (string, int))
  {
    (record.0.1, (record.0.0, record.1))
  }

  function MapStageTwo(records: seq<(TermPair, int)>): seq<(string, (string, int))>
  {
    seq(|records|, i requires 0 <= i < |records| => MapperTwo(records[i]))
  }

  /** `reducer_2`: one record for the term, listing every `(category, count)`
      received with the sum of all the counts. */
  function ReducerTwo(term: string, values: seq<(string, int)>): (out: (string, seq<(string, int, int)>))
    ensures out.0 == term && |out.1| == |values|
    ensures forall i :: 0 <= i < |values| ==> out.1[i] == (values[i].0, values[i].1, Sum(SecondsOf(values)))
  {
    var total := Sum(SecondsOf(values));
    (term, seq(|values|, i requires 0 <= i < |values| => (values[i].0, values[i].1, total)))
  }

  /** `mapper_3`: the list taken apart again, one `((category, term), (count,
      total))` per element. */
  function MapperThree(term: string, list: seq<(string, int, int)>): (out: seq<(TermPair, (int, int))>)
    ensures |out| == |list|
    ensures forall i :: 0 <= i < |list| ==> out[i] == ((list[i].0, term), (list[i].1, list[i].2))
  {
    seq(|list|, i requires 0 <= i < |list| => ((list[i].0, term), (list[i].1, list[i].2)))
  }

  function SomeKeys<V>(records: seq<(string, V)>): (r: seq<(Option<string>, V)>)
    ensures |r| == |records| && forall i :: 0 <= i < |r| ==> r[i] == (Some(records[i].0), records[i].1)
  {
    seq(|records|, i requires 0 <= i < |records| => (Some(records[i].0), records[i].1))
  }

  lemma {:induction false} ValuesOfSome<V>(records: seq<(string, V)>, t: string)
    ensures ValuesOf(SomeKeys(records), Some(t)) == ValuesOf(records, t)
    decreases |records|
  {
    if records != [] {
      var n := |records| - 1;
      assert SomeKeys(records)[..n] == SomeKeys(records[..n]);
      ValuesOfSome(records[..n], t);
    }
  }

  function KeysOfPairs(keys: seq<TermPair>): (r: seq<Key>)
    ensures |r| == |keys| && forall i :: 0 <= i < |r| ==> r[i] == KeyOf(keys[i])
  {
    seq(|keys|, i requires 0 <= i < |keys| => KeyOf(keys[i]))
  }

  /** The group a term receives in step two: one `(category, N_ct)` per category
      where the term occurs, the categories distinct. */
  lemma StepTwoGroup(inputs: seq<Input>, stopwords: set<string>, keys: seq<TermPair>, t: string)
    requires NoDup(keys) && ToSet(keys) == GroupBy(MapStageOne(inputs, stopwords)).Keys
    ensures forall i :: 0 <= i < |keys| ==> keys[i] in GroupBy(MapStageOne(inputs, stopwords))
    ensures var group := ValuesOf(MapStageTwo(StepOne(inputs, stopwords, keys)), t);
      var reviews := ReviewsOf(inputs, stopwords);
      NoDup(FirstsOf(group)) &&
      (forall i :: 0 <= i < |group| ==> group[i].1 == Frequency(reviews, group[i].0, t)) &&
      (forall i :: 0 <= i < |reviews| && t in reviews[i].1 ==> reviews[i].0 in FirstsOf(group))
  {
    forall i | 0 <= i < |keys| ensures keys[i] in GroupBy(MapStageOne(inputs, stopwords)) {
      assert keys[i] in ToSet(keys);
    }
    var reviews := ReviewsOf(inputs, stopwords);
    var records := MapStageTwo(StepOne(inputs, stopwords, keys));
    var lifted := KeysOfPairs(keys);
    assert NoDup(lifted) by {
      forall i, j | 0 <= i < j < |lifted| ensures lifted[i] != lifted[j] {
        assert keys[i] != keys[j];
      }
    }
    forall i | 0 <= i < |keys| ensures SomeKeys(records)[i] == ByTerm(reviews, lifted)[i] {
      StepOneCounts(inputs, stopwords, keys[i]);
    }
    assert SomeKeys(records) == ByTerm(reviews, lifted);
    ValuesOfSome(records, t);
    ByTermGroup(reviews, lifted, Some(t));
    forall i | 0 <= i < |reviews| && t in reviews[i].1
      ensures reviews[i].0 in FirstsOf(ValuesOf(records, t))
    {
      ReviewCountsPositive(reviews, i);
      StepOneCounts(inputs, stopwords, (reviews[i].0, t));
      assert (reviews[i].0, t) in ToSet(keys);
      var j :| 0 <= j < |keys| && keys[j] == (reviews[i].0, t);
      assert lifted[j] == (reviews[i].0, Some(t));
    }
  }

  /** The third step's counts for a pair: N_ct and N_t. */
  predicate PairCorpus(reviews: seq<Review>, k: TermPair, v: (int, int))
  {
    v == (Frequency(reviews, k.0, k.1) as int, ReviewsWith(reviews, k.1) as int)
  }

  /** After steps one and two, every record `mapper_3` yields for a term carries
      the pair's corpus counts N_ct and N_t, with a different category each. */
  lemma StepThreeCorpus(inputs: seq<Input>, stopwords: set<string>, keys: seq<TermPair>, t: string)
    requires NoDup(keys) && ToSet(keys) == GroupBy(MapStageOne(inputs, stopwords)).Keys
    ensures forall i :: 0 <= i < |keys| ==> keys[i] in GroupBy(MapStageOne(inputs, stopwords))
    ensures var out := ReducerTwo(t, ValuesOf(MapStageTwo(StepOne(inputs, stopwords, keys)), t));
      var records := MapperThree(out.0, out.1);
      NoDup(FirstsOf(records)) &&
      forall i :: 0 <= i < |records| ==>
        records[i].0.1 == t && PairCorpus(ReviewsOf(inputs, stopwords), records[i].0, records[i].1)
  {
    StepTwoGroup(inputs, stopwords, keys, t);
    var reviews := ReviewsOf(inputs, stopwords);
    var group := ValuesOf(MapStageTwo(StepOne(inputs, stopwords, keys)), t);
    TermTotal(reviews, t, group);
    var out := ReducerTwo(t, group);
    var records := MapperThree(out.0, out.1);
    forall i, j | 0 <= i < j < |records| ensures FirstsOf(records)[i] != FirstsOf(records)[j] {
      assert FirstsOf(group)[i] != FirstsOf(group)[j];
    }
  }

  /** The shuffle keeps that property: when every record carries its pair's
      corpus counts, so does every value of every group. */
  lemma StepThreeShuffle(reviews: seq<Review>, records: seq<(TermPair, (int, int))>, k: TermPair)
    requires forall i :: 0 <= i < |records| ==> PairCorpus(reviews, records[i].0, records[i].1)
    ensures forall j :: 0 <= j < |ValuesOf(records, k)| ==> PairCorpus(reviews, k, ValuesOf(records, k)[j])
  {
    var vs := ValuesOf(records, k);
    forall j | 0 <= j < |vs| ensures PairCorpus(reviews, k, vs[j]) {
      ValuesOfMembers(records, k, vs[j]);
      var i :| 0 <= i < |records| && records[i] == (k, vs[j]);
    }
  }

  // ---------------------------------------------------------------------------
  // Step three

  /** `reducer_3`: for every `(count, total)` received, A = count, B = total - A,
      C = N_c - A and D = N - N_c - B from the driver's dict, and one score per
      value. A lookup of an absent category or of "N" raises `KeyError`, a zero
      marginal `ZeroDivisionError`. */
  function ReducerThree(key: TermPair, values: seq<(int, int)>, counts: map<string, int>): (r: Result<seq<(TermPair, real)>>)
    ensures r.Ok? ==> |r.value| == |values| && forall i :: 0 <= i < |r.value| ==> r.value[i].0 == key
    decreases |values|
  {
    if values == [] then Ok([])
    else
      match ReducerThree(key, values[..|values| - 1], counts)
      case Err(e) => Err(e)
      case Ok(s) =>
        if key.0 !in counts || "N" !in counts then Err(KeyError)
        else
          var (countTerm, occurrences) := values[|values| - 1];
          var b := occurrences - countTerm;
          match Chi(counts["N"], countTerm, b, counts[key.0] - countTerm, counts["N"] - counts[key.0] - b)
          case Err(e) => Err(e)
          case Ok(chi) => Ok(s + [(key, chi)])
  }

  /** Every score is the 2x2 statistic of the pair's marginal counts: N and N_c
      from the dict, N_t and N_ct from the value. */
  lemma {:induction false} ReducerThreeScores(key: TermPair, values: seq<(int, int)>, counts: map<string, int>)
    requires ReducerThree(key, values, counts).Ok?
    ensures values != [] ==> key.0 in counts && "N" in counts
    ensures var s := ReducerThree(key, values, counts).value;
      forall i :: 0 <= i < |values| ==>
        CellScore(counts["N"], counts[key.0], values[i].1, values[i].0) == Ok(s[i].1)
    decreases |values|
  {
    if values != [] {
      var n := |values| - 1;
      ReducerThreeScores(key, values[..n], counts);
      var (countTerm, occurrences) := values[n];
      var b := occurrences - countTerm;
      CellScoreCells(counts["N"], counts[key.0], occurrences, countTerm,
        countTerm, b, counts[key.0] - countTerm, counts["N"] - counts[key.0] - b);
    }
  }

  /** `KeyError` exactly when a value arrives and the category or "N" is missing
      from the dict; otherwise `ZeroDivisionError` exactly when some value has a
      term in no review or every review, or the category holds no review or every
      review; no other error. */
  lemma {:induction false} ReducerThreeErrors(key: TermPair, values: seq<(int, int)>, counts: map<string, int>)
    ensures ReducerThree(key, values, counts) == Err(KeyError) <==>
      values != [] && (key.0 !in counts || "N" !in counts)
    ensures key.0 in counts && "N" in counts ==>
      (ReducerThree(key, values, counts).Err? <==>
        exists i :: 0 <= i < |values| &&
          (values[i].1 == 0 || values[i].1 == counts["N"] || counts[key.0] == 0 || counts[key.0] == counts["N"])) &&
      (ReducerThree(key, values, counts).Err? ==> ReducerThree(key, values, counts).error == ZeroDivisionError)
    decreases |values|
  {
    if values != [] {
      var n := |values| - 1;
      ReducerThreeErrors(key, values[..n], counts);
      if key.0 in counts && "N" in counts {
        var (countTerm, occurrences) := values[n];
        var b := occurrences - countTerm;
        CellScoreCells(counts["N"], counts[key.0], occurrences, countTerm,
          countTerm, b, counts[key.0] - countTerm, counts["N"] - counts[key.0] - b);
        CellScoreDefined(counts["N"], counts[key.0], occurrences, countTerm);
        assert forall i :: 0 <= i < n ==> values[..n][i] == values[i];
      }
    }
  }

  /** Fed with the corpus counts of the pair and the driver's dict for a corpus,
      every score lies in [0, N]. */
  lemma ReducerThreeBounds(reviews: seq<Review>, key: TermPair, values: seq<(int, int)>, counts: map<string, int>)
    requires forall j :: 0 <= j < |values| ==> PairCorpus(reviews, key, values[j])
    requires key.0 in counts && counts[key.0] == ReviewsIn(reviews, key.0)
    requires "N" in counts && counts["N"] == |reviews|
    requires ReducerThree(key, values, counts).Ok?
    ensures var s := ReducerThree(key, values, counts).value;
      forall i :: 0 <= i < |s| ==> 0.0 <= s[i].1 <= |reviews| as real
  {
    ReducerThreeScores(key, values, counts);
    forall i | 0 <= i < |values| ensures 0.0 <= ReducerThree(key, values, counts).value[i].1 <= |reviews| as real {
      ScoreBounds(reviews, key.0, key.1);
    }
  }

  // ---------------------------------------------------------------------------
  // Step four

  /** What `mapper_4` sends: a scored pair to its category, a term to `None`. */
  datatype Sent = Scored(term: string, score: real) | Word(term: string)

  /** `mapper_4`: `(category, (term, score))` and `(None, term)`. */
  function MapperFour(record: (TermPair, real)): seq<(Option<string>, Sent)>
  {
    [(Some(record.0.0), Scored(record.0.1, record.1)), (None, Word(record.0.1))]
  }

  function MapStageFour(records: seq<(TermPair, real)>): seq<(Option<string>, Sent)>
  {
    if records == [] then []
    else MapStageFour(records[..|records| - 1]) + MapperFour(records[|records| - 1])
  }

  /** The terms of the scored records, in order. */
  function TermsOf(records: seq<(TermPair, real)>): (r: seq<string>)
    ensures |r| == |records| && forall i :: 0 <= i < |r| ==> r[i] == records[i].0.1
  {
    seq(|records|, i requires 0 <= i < |records| => records[i].0.1)
  }

  /** The (term, score) pairs of category `c`, in order. */
  function PairsIn(records: seq<(TermPair, real)>, c: string): seq<TermScore>
  {
    if records == [] then []
    else
      var last := records[|records| - 1];
      PairsIn(records[..|records| - 1], c) + (if last.0.0 == c then [(last.0.1, last.1)] else [])
  }

  function Words(terms: seq<string>): (r: seq<Sent>)
    ensures |r| == |terms| && forall i :: 0 <= i < |r| ==> r[i] == Word(terms[i])
  {
    seq(|terms|, i requires 0 <= i < |terms| => Word(terms[i]))
  }

  function ScoredPairs(pairs: seq<TermScore>): (r: seq<Sent>)
    ensures |r| == |pairs| && forall i :: 0 <= i < |r| ==> r[i] == Scored(pairs[i].0, pairs[i].1)
  {
    seq(|pairs|, i requires 0 <= i < |pairs| => Scored(pairs[i].0, pairs[i].1))
  }

  /** The shuffle of step four: the `None` group receives every scored term, once
      per score, and a category's group receives its own (term, score) pairs. */
  lemma {:induction false} StepFourGroups(records: seq<(TermPair, real)>, c: string)
    ensures ValuesOf(MapStageFour(records), None) == Words(TermsOf(records))
    ensures ValuesOf(MapStageFour(records), Some(c)) == ScoredPairs(PairsIn(records, c))
    decreases |records|
  {
    if records != [] {
      var n := |records| - 1;
      StepFourGroups(records[..n], c);
      var sent := MapperFour(records[n]);
      ValuesOfAppend(MapStageFour(records[..n]), sent, None);
      ValuesOfAppend(MapStageFour(records[..n]), sent, Some(c));
      assert sent == [sent[0]] + [sent[1]];
      ValuesOfAppend([sent[0]], [sent[1]], None);
      ValuesOfAppend([sent[0]], [sent[1]], Some(c));
      assert [sent[0]][..0] == [] && [sent[1]][..0] == [];
      assert TermsOf(records) == TermsOf(records[..n]) + [records[n].0.1];
    }
  }

  /** `reducer_4` for `None`: `sorted(set(terms))`, the distinct terms in
      increasing order. */
  function ReducerFourVocabulary(terms: seq<string>): (r: seq<string>)
    ensures StrictlyAscending(r)
    ensures forall w :: w in r <==> w in terms
  {
    var distinct := Dedup(terms);
    SortAscNoDup(distinct);
    forall w ensures w in SortAsc(distinct) <==> w in terms {
      assert w in ToSet(SortAsc(distinct)) <==> w in SortAsc(distinct);
      DedupMembers(terms, w);
    }
    SortAsc(distinct)
  }

  /** The vocabulary depends only on the set of terms, not on the order in which
      the set is iterated. */
  lemma VocabularyOfSet(a: seq<string>, b: seq<string>)
    requires ToSet(a) == ToSet(b)
    ensures ReducerFourVocabulary(a) == ReducerFourVocabulary(b)
  {
    var ra := ReducerFourVocabulary(a);
    var rb := ReducerFourVocabulary(b);
    forall w ensures w in ToSet(ra) <==> w in ToSet(rb) {
      assert w in a <==> w in ToSet(a);
      assert w in b <==> w in ToSet(b);
    }
    StrictlyAscendingUnique(ra, rb);
  }

  /** `reducer_4` for a category: the pairs copied into a list, sorted in place by
      score, highest first and stable among equal scores, then cut to the first
      75. */
  method ReducerFourTop(pairs: seq<TermScore>) returns (top: seq<TermScore>)
    ensures top == TopScores(pairs, TopCount)
  {
    var a := new TermScore[|pairs|](i requires 0 <= i < |pairs| => pairs[i]);
    assert a[..] == pairs;
    SortByScoreInPlace(a);
    top := a[..SliceEnd(a.Length, TopCount)];
  }
}
