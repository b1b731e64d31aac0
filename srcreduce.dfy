/** The three-step variant `src/chiSquaredReduce.py`. Step one counts, per
    category, the reviews and the reviews containing each term, where the terms of
    a review are the distinct lower-cased pieces of `re.split`. Step two sends
    every count of a term on to its category with the term's total. Step three
    scores every term of a category and keeps the k best `(term, score)` pairs. */
module ChiSquaredReduce {
  import opened Common
  import opened Tokens
  import opened Ranking
  import opened Contingency
  import opened DocFrequency

  /** The default of the `-k` option. */
  const DefaultK: int := 75

  /** A review as parsed: its category and its text, either of which may be missing. */
  type Input = (Option<string>, Option<string>)

  // ---------------------------------------------------------------------------
  // Step one

  /** `mapper_preprocessing`: the category total once, first, then one count of
      one per distinct term of the lower-cased text. */
  function MapperPreprocessing(input: Input, stopwords: set<string>): (out: seq<(Key, int)>)
    ensures out != [] && out[0] == ((OrEmpty(input.0), None), 1)
    ensures forall i :: 1 <= i < |out| ==> out[i].0.0 == OrEmpty(input.0) && out[i].0.1.Some? && out[i].1 == 1
    ensures NoDup(out)
  {
    var review := (OrEmpty(input.0), SplitTerms(OrEmpty(input.1), stopwords));
    EmitFacts(review);
    Emit(review)
  }

  /** A term is counted for the review exactly when it is a piece of the
      lower-cased text, longer than one character and not a stopword; a missing
      text has no terms. */
  lemma MapperTerms(input: Input, stopwords: set<string>, w: string)
    ensures ((OrEmpty(input.0), Some(w)), 1) in MapperPreprocessing(input, stopwords) <==>
      w in Split(Lower(OrEmpty(input.1))) && IsTerm(w, stopwords)
  {
    var review := (OrEmpty(input.0), SplitTerms(OrEmpty(input.1), stopwords));
    EmitFacts(review);
    SplitTermsMembers(OrEmpty(input.1), stopwords, w);
  }

  /** The reviews as the counting stage sees them. */
  function ReviewsOf(inputs: seq<Input>, stopwords: set<string>): (r: seq<Review>)
    ensures |r| == |inputs| && DistinctTerms(r)
    ensures forall i :: 0 <= i < |inputs| ==> r[i] == (OrEmpty(inputs[i].0), SplitTerms(OrEmpty(inputs[i].1), stopwords))
  {
    seq(|inputs|, i requires 0 <= i < |inputs| => (OrEmpty(inputs[i].0), SplitTerms(OrEmpty(inputs[i].1), stopwords)))
  }

  /** The mapper outputs of all reviews, review after review. */
  function MapStage(inputs: seq<Input>, stopwords: set<string>): seq<(Key, int)>
  {
    if inputs == [] then []
    else MapStage(inputs[..|inputs| - 1], stopwords) + MapperPreprocessing(inputs[|inputs| - 1], stopwords)
  }

  lemma {:induction false} MapStageIsCounting(inputs: seq<Input>, stopwords: set<string>)
    ensures MapStage(inputs, stopwords) == MapAll(ReviewsOf(inputs, stopwords))
    decreases |inputs|
  {
    if inputs != [] {
      var n := |inputs| - 1;
      MapStageIsCounting(inputs[..n], stopwords);
      assert ReviewsOf(inputs, stopwords)[..n] == ReviewsOf(inputs[..n], stopwords);
    }
  }

  /** `reducer_count_terms` is the shared first reducer `Regroup`: a key is
      reduced exactly when it counts a review, and it is sent on as
      `(t, (c, N_ct))` or `(None, (c, N_c))`. */
  lemma StepOneCounts(inputs: seq<Input>, stopwords: set<string>, keys: seq<Key>)
    requires forall i :: 0 <= i < |keys| ==> keys[i] in GroupBy(MapStage(inputs, stopwords))
    ensures forall key :: key in GroupBy(MapStage(inputs, stopwords)) <==> DocCount(ReviewsOf(inputs, stopwords), key) > 0
    ensures RegroupAll(MapStage(inputs, stopwords), keys) == ByTerm(ReviewsOf(inputs, stopwords), keys)
  {
    MapStageIsCounting(inputs, stopwords);
    RegroupCounts(ReviewsOf(inputs, stopwords), keys);
  }

  // ---------------------------------------------------------------------------
  // Step two

  /** `reducer_count_terms_over_categories`: every `(category, count)` received is
      sent on to its category, with the term and the sum of all the counts. */
  function ReducerCountTermsOverCategories(term: Option<string>, values: seq<(string, int)>): (out: seq<(string, (Option<string>, int, int))>)
    ensures |out| == |values|
    ensures forall i :: 0 <= i < |values| ==> out[i] == (values[i].0, (term, values[i].1, Sum(SecondsOf(values))))
  {
    var total := Sum(SecondsOf(values));
    seq(|values|, i requires 0 <= i < |values| => (values[i].0, (term, values[i].1, total)))
  }

  /** In the pipeline every record of the second step carries its category's
      corpus counts: N_ct and N_t for a term, N_c and N for `None`. So every group
      of the third step receives the counts of the corpus. */
  lemma StepTwoCorpus(inputs: seq<Input>, stopwords: set<string>, keys: seq<Key>, t: Option<string>)
    requires NoDup(keys) && ToSet(keys) == GroupBy(MapStage(inputs, stopwords)).Keys
    ensures forall i :: 0 <= i < |keys| ==> keys[i] in GroupBy(MapStage(inputs, stopwords))
    ensures var out := ReducerCountTermsOverCategories(t, ValuesOf(RegroupAll(MapStage(inputs, stopwords), keys), t));
      forall i :: 0 <= i < |out| ==> CorpusValue(ReviewsOf(inputs, stopwords), out[i].0, out[i].1)
  {
    forall i | 0 <= i < |keys| ensures keys[i] in GroupBy(MapStage(inputs, stopwords)) {
      assert keys[i] in ToSet(keys);
    }
    var reviews := ReviewsOf(inputs, stopwords);
    StepOneCounts(inputs, stopwords, keys);
    MapStageIsCounting(inputs, stopwords);
    ByTermGroup(reviews, keys, t);
    StepTwoTotals(reviews, keys, t);
  }

  // ---------------------------------------------------------------------------
  // Step three

  /** The (score, term) pairs turned round into (term, score). */
  function Swapped(s: seq<(real, string)>): (r: seq<TermScore>)
    ensures |r| == |s| && forall i :: 0 <= i < |s| ==> r[i] == (s[i].1, s[i].0)
  {
    seq(|s|, i requires 0 <= i < |s| => (s[i].1, s[i].0))
  }

  /** What `reducer_calc_chi_squared` yields for a category group. */
  function ReducerCalcChiSquaredOut(values: seq<(Option<string>, int, int)>, k: int): Result<seq<TermScore>>
  {
    match GroupScores(values)
    case Err(e) => Err(e)
    case Ok(s) => Ok(TopScores(Swapped(s), k))
  }

  /** `reducer_calc_chi_squared` for a category: the dict comprehension,
      `pop(None)` (a `KeyError` when the category total is missing), then a loop
      that scores each term with A = count, B = total - A, C = N_c - A and
      D = N - N_c - B, appending `(term, score)`; the result is the list sorted
      by score, highest first, cut to k. */
  method ReducerCalcChiSquared(values: seq<(Option<string>, int, int)>, k: int) returns (r: Result<seq<TermScore>>)
    ensures r == ReducerCalcChiSquaredOut(values, k)
  {
    var counts := CountsOf(values);
    if None !in counts {
      return Err(KeyError);
    }
    var (categoryCount, n) := counts[None];
    var terms := GroupTokens(values);
    var results: seq<TermScore> := [];
    ghost var scored: seq<(real, string)> := [];
    var j := 0;
    while j < |terms|
      invariant 0 <= j <= |terms|
      invariant ScoreAll(counts, terms[..j], categoryCount, n) == Ok(scored)
      invariant results == Swapped(scored)
    {
      var term := terms[j];
      var (countTerm, occurrences) := counts[term];
      var a := countTerm;
      var b := occurrences - countTerm;
      var c := categoryCount - countTerm;
      var d := n - categoryCount - b;
      var chi := Chi(n, a, b, c, d);
      CellScoreCells(n, categoryCount, occurrences, countTerm, a, b, c, d);
      ScoreAllSnoc(counts, terms, categoryCount, n, j, scored);
      if chi.Err? {
        ScoreAllErrPrefix(counts, terms, categoryCount, n, j + 1);
        return Err(chi.error);
      }
      results := results + [(term.value, chi.value)];
      scored := scored + [(chi.value, term.value)];
      j := j + 1;
    }
    assert terms[..j] == terms;
    r := Ok(TopScores(results, k));
  }

  /** A `KeyError` exactly when the category total is missing; otherwise a
      `ZeroDivisionError` exactly when some term is scored and the category holds
      no review or every review, or some term occurs in no review or in every
      review; no other error. */
  lemma ReducerCalcChiSquaredErrors(values: seq<(Option<string>, int, int)>, k: int)
    ensures ReducerCalcChiSquaredOut(values, k) == Err(KeyError) <==> forall i :: 0 <= i < |values| ==> values[i].0 != None
    ensures None in CountsOf(values) ==>
      var counts := CountsOf(values);
      var terms := GroupTokens(values);
      (ReducerCalcChiSquaredOut(values, k).Err? <==>
        terms != [] &&
        (counts[None].0 == 0 || counts[None].0 == counts[None].1 ||
         exists i :: 0 <= i < |terms| && (counts[terms[i]].1 == 0 || counts[terms[i]].1 == counts[None].1))) &&
      (ReducerCalcChiSquaredOut(values, k).Err? ==> ReducerCalcChiSquaredOut(values, k).error == ZeroDivisionError)
  {
    GroupScoresKeyError(values);
    if None in CountsOf(values) {
      GroupScoresDivision(values);
    }
  }

  /** A defined result holds min(k, number of terms) pairs, scores never
      increasing, drawn from the terms' scores, one score per term. */
  lemma ReducerCalcChiSquaredRanked(values: seq<(Option<string>, int, int)>, k: int)
    requires ReducerCalcChiSquaredOut(values, k).Ok?
    ensures var counts := CountsOf(values);
      var terms := GroupTokens(values);
      var s := Swapped(GroupScores(values).value);
      var r := ReducerCalcChiSquaredOut(values, k).value;
      ScoresDescending(r) && multiset(r) <= multiset(s) &&
      (k >= 0 ==> |r| == MinNat(k, |terms|)) &&
      |s| == |terms| &&
      forall i :: 0 <= i < |s| ==>
        s[i].0 == terms[i].value &&
        CellScore(counts[None].1, counts[None].0, counts[terms[i]].1, counts[terms[i]].0) == Ok(s[i].1)
  {
    GroupScoresValues(values);
    TopScoresShape(Swapped(GroupScores(values).value), k);
  }

  /** No dropped pair scores above a kept one, and terms with equal scores are
      kept in dict order, the earliest ones. */
  lemma ReducerCalcChiSquaredKeepsBest(values: seq<(Option<string>, int, int)>, k: int, x: TermScore, y: TermScore, v: real)
    requires ReducerCalcChiSquaredOut(values, k).Ok?
    ensures var s := Swapped(GroupScores(values).value);
      var r := ReducerCalcChiSquaredOut(values, k).value;
      (x in r && y in multiset(s) - multiset(r) ==> y.1 <= x.1) &&
      WithScore(r, v) <= WithScore(s, v)
  {
    var s := Swapped(GroupScores(values).value);
    var r := ReducerCalcChiSquaredOut(values, k).value;
    if x in r && y in multiset(s) - multiset(r) {
      TopScoresKeepsBest(s, k, x, y);
    }
    TopScoresStable(s, k, v);
  }

  /** Fed with the counts of a corpus, every kept score lies in [0, N]. */
  lemma ReducerCalcChiSquaredBounds(reviews: seq<Review>, c: string, values: seq<(Option<string>, int, int)>, k: int)
    requires CorpusCounts(reviews, c, values)
    requires ReducerCalcChiSquaredOut(values, k).Ok?
    ensures var r := ReducerCalcChiSquaredOut(values, k).value;
      forall i :: 0 <= i < |r| ==> 0.0 <= r[i].1 <= |reviews| as real
  {
    var s := Swapped(GroupScores(values).value);
    var r := ReducerCalcChiSquaredOut(values, k).value;
    TopScoresShape(s, k);
    GroupScoresBounds(reviews, c, values);
    forall i | 0 <= i < |r| ensures 0.0 <= r[i].1 <= |reviews| as real {
      assert r[i] in multiset(s);
    }
  }
}
