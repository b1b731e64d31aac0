/** The three-step variant `src/ChiSquared_server.py`. Step one counts, per
    category, the reviews and the reviews containing each term. Step two regroups
    the counts by term, adds the term's total over the categories, and announces
    each term to the vocabulary. Step three scores every term of a category and
    keeps the k best; the `None` group sorts the vocabulary. */
module ChiSquaredServer {
  import opened Common
  import opened Tokens
  import opened Lexicon
  import opened Ranking
  import opened Contingency
  import opened DocFrequency

  /** The default of the `-k` option. */
  const DefaultK: int := 75

  /** A review: `(category, reviewText)`. */
  type Input = (string, string)

  // ---------------------------------------------------------------------------
  // Step one

  /** `mapper_preprocessing`: the category total once, first, then one count of
      one per distinct lower-cased token of the pattern that is longer than one
      character and not a stopword. */
  function MapperPreprocessing(category: string, text: string, stopwords: set<string>): (out: seq<(Key, int)>)
    ensures out != [] && out[0] == ((category, None), 1)
    ensures forall i :: 1 <= i < |out| ==> out[i].0.0 == category && out[i].0.1.Some? && out[i].1 == 1
    ensures forall w :: ((category, Some(w)), 1) in out <==> w in FindAll(Lower(text)) && IsTerm(w, stopwords)
    ensures NoDup(out)
  {
    EmitFacts((category, FindTerms(text, stopwords)));
    Emit((category, FindTerms(text, stopwords)))
  }

  /** The reviews as the counting stage sees them. */
  function ReviewsOf(inputs: seq<Input>, stopwords: set<string>): (r: seq<Review>)
    ensures |r| == |inputs| && DistinctTerms(r)
    ensures forall i :: 0 <= i < |inputs| ==> r[i] == (inputs[i].0, FindTerms(inputs[i].1, stopwords))
  {
    seq(|inputs|, i requires 0 <= i < |inputs| => (inputs[i].0, FindTerms(inputs[i].1, stopwords)))
  }

  /** The mapper outputs of all reviews, review after review. */
  function MapStage(inputs: seq<Input>, stopwords: set<string>): seq<(Key, int)>
  {
    if inputs == [] then []
    else
      var x := inputs[|inputs| - 1];
      MapStage(inputs[..|inputs| - 1], stopwords) + MapperPreprocessing(x.0, x.1, stopwords)
  }

  lemma {:induction false} MapStageIsCounting(inputs: seq<Input>, stopwords: set<string>)
    ensures MapStage(inputs, stopwords) == MapAll(ReviewsOf(inputs, stopwords))
    decreases |inputs|
  {
    if inputs != [] {
      var n := |inputs| - 1;
      MapStageIsCounting(inputs[..n], stopwords);
      assert ReviewsOf(inputs, stopwords)[..n] == ReviewsOf(inputs[..n], stopwords);
    }
  }

  /** A key is reduced exactly when it counts a review, and the first step sends
      `(t, (c, N_ct))` for a term and `(None, (c, N_c))` for a category total. */
  lemma StepOneCounts(inputs: seq<Input>, stopwords: set<string>, keys: seq<Key>)
    requires forall i :: 0 <= i < |keys| ==> keys[i] in GroupBy(MapStage(inputs, stopwords))
    ensures forall key :: key in GroupBy(MapStage(inputs, stopwords)) <==> DocCount(ReviewsOf(inputs, stopwords), key) > 0
    ensures RegroupAll(MapStage(inputs, stopwords), keys) == ByTerm(ReviewsOf(inputs, stopwords), keys)
  {
    MapStageIsCounting(inputs, stopwords);
    RegroupCounts(ReviewsOf(inputs, stopwords), keys);
  }

  // ---------------------------------------------------------------------------
  // Step two

  /** What `reducer_2` sends: a token to the vocabulary, or a category's counts. */
  datatype Payload = Word(word: string) | Counts(token: Option<string>, count: int, total: int)

  function Entries(token: Option<string>, d: map<string, int>, cats: seq<string>, total: int): (out: seq<(Option<string>, Payload)>)
    requires forall i :: 0 <= i < |cats| ==> cats[i] in d
    ensures |out| == |cats|
    ensures forall i :: 0 <= i < |cats| ==> out[i] == (Some(cats[i]), Counts(token, d[cats[i]], total))
  {
    seq(|cats|, i requires 0 <= i < |cats| => (Some(cats[i]), Counts(token, d[cats[i]], total)))
  }

  /** `total_count_of_token`: the sum of the dict's counts. */
  function TokenTotal(values: seq<(string, int)>): int
  {
    SumOver(DictOf(values), DictOrder(values))
  }

  /** The vocabulary record `(None, token)`, sent for every token but `None`. */
  function Head(token: Option<string>): (out: seq<(Option<string>, Payload)>)
    ensures |out| == if token.Some? then 1 else 0
  {
    if token.Some? then [(None, Word(token.value))] else []
  }

  /** The records of `reducer_2`, in the order it yields them. */
  function ReducerTwoOut(token: Option<string>, values: seq<(string, int)>): seq<(Option<string>, Payload)>
  {
    Head(token) + Entries(token, DictOf(values), DictOrder(values), TokenTotal(values))
  }

  lemma EmitShape(token: Option<string>, d: map<string, int>, cats: seq<string>, total: int)
    requires forall i :: 0 <= i < |cats| ==> cats[i] in d
    ensures var out := Head(token) + Entries(token, d, cats, total);
      |out| == |Head(token)| + |cats| &&
      (token.Some? ==> out[0] == (None, Word(token.value))) &&
      forall i :: |Head(token)| <= i < |out| ==>
        out[i] == (Some(cats[i - |Head(token)|]), Counts(token, d[cats[i - |Head(token)|]], total))
  {
  }

  /** `reducer_2`: the dict `token_counts_by_category` filled in a loop, insertion
      order kept, the last count of a category winning. */
  method ReducerTwo(token: Option<string>, values: seq<(string, int)>) returns (out: seq<(Option<string>, Payload)>)
    ensures out == ReducerTwoOut(token, values)
  {
    var byCategory: map<string, int> := map[];
    var order: seq<string> := [];
    var i := 0;
    while i < |values|
      invariant 0 <= i <= |values|
      invariant byCategory == DictOf(values[..i])
      invariant order == DictOrder(values[..i])
    {
      var (c, n) := values[i];
      DictStep(values, i);
      if c !in byCategory {
        byCategory := byCategory[c := 0];
        order := order + [c];
      }
      byCategory := byCategory[c := n];
      i := i + 1;
    }
    assert values[..i] == values;
    var total := SumOver(byCategory, order);
    out := Emitted(token, byCategory, order, total);
  }

  /** The loop of `reducer_2` that yields the dict's items with the total. */
  method Emitted(token: Option<string>, d: map<string, int>, cats: seq<string>, total: int) returns (out: seq<(Option<string>, Payload)>)
    requires forall i :: 0 <= i < |cats| ==> cats[i] in d
    ensures out == Head(token) + Entries(token, d, cats, total)
  {
    out := Head(token);
    var j := 0;
    while j < |cats|
      invariant 0 <= j <= |cats|
      invariant out == Head(token) + Entries(token, d, cats[..j], total)
    {
      assert cats[..j + 1] == cats[..j] + [cats[j]];
      out := out + [(Some(cats[j]), Counts(token, d[cats[j]], total))];
      j := j + 1;
    }
    assert cats[..j] == cats;
  }

  /** A token is sent to the vocabulary exactly once, first, and the `None` token
      not at all; every other record goes to a category. */
  lemma ReducerTwoVocabulary(token: Option<string>, values: seq<(string, int)>)
    ensures var out := ReducerTwoOut(token, values);
      (token.Some? ==> out != [] && out[0] == (None, Word(token.value))) &&
      forall i :: 0 <= i < |out| ==> (out[i].0.None? <==> token.Some? && i == 0)
  {
    EmitShape(token, DictOf(values), DictOrder(values), TokenTotal(values));
  }

  lemma EmitMembers(token: Option<string>, d: map<string, int>, cats: seq<string>, total: int, c: string, p: Payload)
    requires forall i :: 0 <= i < |cats| ==> cats[i] in d
    ensures (Some(c), p) in Head(token) + Entries(token, d, cats, total) <==>
      c in ToSet(cats) && p == Counts(token, d[c], total)
  {
    var out := Head(token) + Entries(token, d, cats, total);
    var offset := |Head(token)|;
    EmitShape(token, d, cats, total);
    if c in ToSet(cats) {
      var i :| 0 <= i < |cats| && cats[i] == c;
      assert out[i + offset] == (Some(c), Counts(token, d[c], total));
    }
    if (Some(c), p) in out {
      var i :| 0 <= i < |out| && out[i] == (Some(c), p);
      assert cats[i - offset] in ToSet(cats);
    }
  }

  /** One record per category received, each once, carrying the last count sent
      for it and the common total. */
  lemma ReducerTwoCategories(token: Option<string>, values: seq<(string, int)>, c: string, p: Payload)
    ensures (Some(c), p) in ReducerTwoOut(token, values) <==>
      c in KeysOf(values) && p == Counts(token, DictOf(values)[c], TokenTotal(values))
  {
    EmitMembers(token, DictOf(values), DictOrder(values), TokenTotal(values), c, p);
  }

  /** No record is sent twice. */
  lemma ReducerTwoDistinct(token: Option<string>, values: seq<(string, int)>)
    ensures NoDup(ReducerTwoOut(token, values))
  {
    EmitDistinct(token, DictOf(values), DictOrder(values), TokenTotal(values));
  }

  lemma EmitDistinct(token: Option<string>, d: map<string, int>, cats: seq<string>, total: int)
    requires forall i :: 0 <= i < |cats| ==> cats[i] in d
    requires NoDup(cats)
    ensures NoDup(Head(token) + Entries(token, d, cats, total))
  {
    var out := Head(token) + Entries(token, d, cats, total);
    var offset := |Head(token)|;
    EmitShape(token, d, cats, total);
    forall i, j | 0 <= i < j < |out| ensures out[i] != out[j] {
      if i >= offset {
        assert cats[i - offset] != cats[j - offset];
      }
    }
  }

  /** With distinct categories, as every group of the pipeline has, the total is
      the sum of the counts received. */
  lemma ReducerTwoTotal(values: seq<(string, int)>)
    requires NoDup(FirstsOf(values))
    ensures TokenTotal(values) == Sum(SecondsOf(values))
  {
    DictOfDistinct(values);
    SumOverDistinct(values);
  }

  /** In the pipeline the total of a term is the number of reviews containing it,
      and the total of the `None` token is the number of reviews N. */
  lemma StepTwoTotal(inputs: seq<Input>, stopwords: set<string>, keys: seq<Key>, t: Option<string>)
    requires NoDup(keys) && ToSet(keys) == GroupBy(MapStage(inputs, stopwords)).Keys
    ensures forall i :: 0 <= i < |keys| ==> keys[i] in GroupBy(MapStage(inputs, stopwords))
    ensures TokenTotal(ValuesOf(RegroupAll(MapStage(inputs, stopwords), keys), t)) ==
      if t.None? then |inputs| else ReviewsWith(ReviewsOf(inputs, stopwords), t.value)
  {
    forall i | 0 <= i < |keys| ensures keys[i] in GroupBy(MapStage(inputs, stopwords)) {
      assert keys[i] in ToSet(keys);
    }
    var reviews := ReviewsOf(inputs, stopwords);
    StepOneCounts(inputs, stopwords, keys);
    MapStageIsCounting(inputs, stopwords);
    ByTermGroup(reviews, keys, t);
    StepTwoTotals(reviews, keys, t);
    ReducerTwoTotal(ValuesOf(ByTerm(reviews, keys), t));
  }

  /** In the pipeline every count a category receives from the second step is a
      count of the corpus: N_ct and N_t for a term, N_c and N for `None`. So
      every group of the third step receives the counts of the corpus. */
  lemma StepTwoCorpus(inputs: seq<Input>, stopwords: set<string>, keys: seq<Key>, t: Option<string>, c: string, p: Payload)
    requires NoDup(keys) && ToSet(keys) == GroupBy(MapStage(inputs, stopwords)).Keys
    ensures forall i :: 0 <= i < |keys| ==> keys[i] in GroupBy(MapStage(inputs, stopwords))
    ensures (Some(c), p) in ReducerTwoOut(t, ValuesOf(RegroupAll(MapStage(inputs, stopwords), keys), t)) ==>
      p.Counts? && CorpusValue(ReviewsOf(inputs, stopwords), c, (p.token, p.count, p.total))
  {
    StepTwoTotal(inputs, stopwords, keys, t);
    var reviews := ReviewsOf(inputs, stopwords);
    StepOneCounts(inputs, stopwords, keys);
    var vals := ValuesOf(ByTerm(reviews, keys), t);
    if (Some(c), p) in ReducerTwoOut(t, vals) {
      ReducerTwoCategories(t, vals, c, p);
      ByTermGroup(reviews, keys, t);
      DictOfDistinct(vals);
      var i :| 0 <= i < |vals| && vals[i].0 == c;
    }
  }

  // ---------------------------------------------------------------------------
  // Step three

  /** `sorted(values)` of the `None` group: ascending, nothing lost or added, and
      strictly ascending with the same tokens when every token arrived once, as
      `reducer_2` sends each token once. */
  function ReducerVocabulary(values: seq<string>): (r: seq<string>)
    ensures Ascending(r) && multiset(r) == multiset(values)
    ensures NoDup(values) ==> StrictlyAscending(r) && ToSet(r) == ToSet(values)
  {
    if NoDup(values) then
      SortAscNoDup(values);
      SortAsc(values)
    else
      SortAsc(values)
  }

  /** What `reducer_chi_squared` yields for a category group. */
  function ReducerChiSquaredOut(values: seq<(Option<string>, int, int)>, k: int): Result<seq<Scored>>
  {
    match GroupScores(values)
    case Err(e) => Err(e)
    case Ok(s) => Ok(TopK(s, k))
  }

  /** `reducer_chi_squared` for a category: the dict comprehension, `pop(None)`
      (a `KeyError` when the category total is missing), then a loop that scores
      each token with A = count, B = total - A, C = N_c - A, D = N - A - B - C and
      appends `(score, token)`; the result is `sorted(result, reverse=True)[:k]`. */
  method ReducerChiSquared(values: seq<(Option<string>, int, int)>, k: int) returns (r: Result<seq<Scored>>)
    ensures r == ReducerChiSquaredOut(values, k)
  {
    var counts := CountsOf(values);
    if None !in counts {
      return Err(KeyError);
    }
    var (nc, n) := counts[None];
    var order := GroupTokens(values);
    var result: seq<Scored> := [];
    var j := 0;
    while j < |order|
      invariant 0 <= j <= |order|
      invariant ScoreAll(counts, order[..j], nc, n) == Ok(result)
    {
      var token := order[j];
      var (a, total) := counts[token];
      var b := total - a;
      var c := nc - a;
      var d := n - a - b - c;
      var chi := Chi(n, a, b, c, d);
      CellScoreCells(n, nc, total, a, a, b, c, d);
      ScoreAllSnoc(counts, order, nc, n, j, result);
      if chi.Err? {
        ScoreAllErrPrefix(counts, order, nc, n, j + 1);
        return Err(chi.error);
      }
      result := result + [(chi.value, token.value)];
      j := j + 1;
    }
    assert order[..j] == order;
    r := Ok(TopK(result, k));
  }

  /** A `KeyError` exactly when the category total is missing; otherwise a
      `ZeroDivisionError` exactly when some token is scored and the category
      holds no review or every review, or some token occurs in no review or in
      every review; no other error. */
  lemma ReducerChiSquaredErrors(values: seq<(Option<string>, int, int)>, k: int)
    ensures ReducerChiSquaredOut(values, k) == Err(KeyError) <==> forall i :: 0 <= i < |values| ==> values[i].0 != None
    ensures None in CountsOf(values) ==>
      var counts := CountsOf(values);
      var tokens := GroupTokens(values);
      (ReducerChiSquaredOut(values, k).Err? <==>
        tokens != [] &&
        (counts[None].0 == 0 || counts[None].0 == counts[None].1 ||
         exists i :: 0 <= i < |tokens| && (counts[tokens[i]].1 == 0 || counts[tokens[i]].1 == counts[None].1))) &&
      (ReducerChiSquaredOut(values, k).Err? ==> ReducerChiSquaredOut(values, k).error == ZeroDivisionError)
  {
    GroupScoresKeyError(values);
    if None in CountsOf(values) {
      GroupScoresDivision(values);
    }
  }

  /** A defined result keeps min(k, number of tokens) pairs, best first, drawn
      from the scores of the group's tokens, one score per token. */
  lemma ReducerChiSquaredRanked(values: seq<(Option<string>, int, int)>, k: int)
    requires ReducerChiSquaredOut(values, k).Ok?
    ensures var counts := CountsOf(values);
      var tokens := GroupTokens(values);
      var s := GroupScores(values).value;
      var r := ReducerChiSquaredOut(values, k).value;
      r == TopK(s, k) && Descending(r) && multiset(r) <= multiset(s) &&
      (k >= 0 ==> |r| == MinNat(k, |tokens|)) &&
      |s| == |tokens| &&
      forall i :: 0 <= i < |s| ==>
        CellScore(counts[None].1, counts[None].0, counts[tokens[i]].1, counts[tokens[i]].0) == Ok(s[i].0) &&
        s[i].1 == tokens[i].value
  {
    GroupScoresValues(values);
    TopKShape(GroupScores(values).value, k);
  }

  /** Fed with the counts of a corpus, every kept score lies in [0, N]. */
  lemma ReducerChiSquaredBounds(reviews: seq<Review>, c: string, values: seq<(Option<string>, int, int)>, k: int)
    requires CorpusCounts(reviews, c, values)
    requires ReducerChiSquaredOut(values, k).Ok?
    ensures var r := ReducerChiSquaredOut(values, k).value;
      forall i :: 0 <= i < |r| ==> 0.0 <= r[i].0 <= |reviews| as real
  {
    var s := GroupScores(values).value;
    var r := ReducerChiSquaredOut(values, k).value;
    TopKShape(s, k);
    GroupScoresBounds(reviews, c, values);
    forall i | 0 <= i < |r| ensures 0.0 <= r[i].0 <= |reviews| as real {
      assert r[i] in multiset(s);
    }
  }

  /** The dict and the token order of an electronics group of the worked corpus. */
  lemma ExampleGroup(values: seq<(Option<string>, int, int)>)
    requires CorpusCounts(ExampleCorpus(), "electronics", values)
    requires forall j :: 0 <= j < |values| ==>
      values[j].0 == None || values[j].0 == Some("good") || values[j].0 == Some("cheap")
    requires exists j :: 0 <= j < |values| && values[j].0 == None
    requires exists j :: 0 <= j < |values| && values[j].0 == Some("good")
    requires exists j :: 0 <= j < |values| && values[j].0 == Some("cheap")
    ensures var counts := CountsOf(values);
      None in counts && Some("good") in counts && Some("cheap") in counts &&
      counts[None] == (2, 3) && counts[Some("good")] == (2, 2) && counts[Some("cheap")] == (1, 2)
    ensures ToSet(GroupTokens(values)) == {Some("good"), Some("cheap")}
  {
    var reviews := ExampleCorpus();
    ExampleCounts();
    var good, cheap: Option<string> := Some("good"), Some("cheap");
    var pairs := Pairs(values);
    assert KeysOf(pairs) == {None, good, cheap} by {
      forall t | t in KeysOf(pairs) ensures t == None || t == good || t == cheap {
        var i :| 0 <= i < |pairs| && pairs[i].0 == t;
        assert values[i].0 == t;
      }
      var j0 :| 0 <= j0 < |values| && values[j0].0 == None;
      var j1 :| 0 <= j1 < |values| && values[j1].0 == good;
      var j2 :| 0 <= j2 < |values| && values[j2].0 == cheap;
      assert pairs[j0].0 == None && pairs[j1].0 == good && pairs[j2].0 == cheap;
    }
    CountsOfCorpus(reviews, "electronics", values, None);
    CountsOfCorpus(reviews, "electronics", values, good);
    CountsOfCorpus(reviews, "electronics", values, cheap);
  }

  /** A duplicate-free list of two distinct elements is one of their two orders. */
  lemma TwoOrders<T>(s: seq<T>, x: T, y: T)
    requires NoDup(s) && ToSet(s) == {x, y} && x != y
    ensures s == [x, y] || s == [y, x]
  {
    NoDupCard(s);
    assert |s| == 2;
    assert s[0] in ToSet(s) && s[1] in ToSet(s);
    if s[0] == x {
      assert s == [x, y];
    } else {
      assert s == [y, x];
    }
  }

  /** The scores of an electronics group of the worked corpus, in its dict order. */
  lemma ExampleScores(values: seq<(Option<string>, int, int)>)
    requires CorpusCounts(ExampleCorpus(), "electronics", values)
    requires forall j :: 0 <= j < |values| ==>
      values[j].0 == None || values[j].0 == Some("good") || values[j].0 == Some("cheap")
    requires exists j :: 0 <= j < |values| && values[j].0 == None
    requires exists j :: 0 <= j < |values| && values[j].0 == Some("good")
    requires exists j :: 0 <= j < |values| && values[j].0 == Some("cheap")
    ensures GroupScores(values) == Ok([(3.0, "good"), (0.75, "cheap")]) ||
            GroupScores(values) == Ok([(0.75, "cheap"), (3.0, "good")])
  {
    ExampleGroup(values);
    var tokens := GroupTokens(values);
    TwoOrders(tokens, Some("good"), Some("cheap"));
    ExampleScoreAll(CountsOf(values), tokens);
  }

  /** The scoring loop over the two tokens, in either order. */
  lemma ExampleScoreAll(counts: map<Option<string>, (int, int)>, tokens: seq<Option<string>>)
    requires Some("good") in counts && Some("cheap") in counts
    requires counts[Some("good")] == (2, 2) && counts[Some("cheap")] == (1, 2)
    requires tokens == [Some("good"), Some("cheap")] || tokens == [Some("cheap"), Some("good")]
    ensures ScoreAll(counts, tokens, 2, 3) ==
      if tokens[0] == Some("good") then Ok([(3.0, "good"), (0.75, "cheap")])
      else Ok([(0.75, "cheap"), (3.0, "good")])
  {
    ExampleCounts();
    var good: Scored := (3.0, "good");
    var cheap: Scored := (0.75, "cheap");
    var first := if tokens[0] == Some("good") then good else cheap;
    var second := if tokens[0] == Some("good") then cheap else good;
    assert tokens[..0] == [];
    ScoreAllSnoc(counts, tokens, 2, 3, 0, []);
    assert CellScore(3, 2, counts[tokens[0]].1, counts[tokens[0]].0) == Ok(first.0);
    assert tokens[0].value == first.1;
    assert [] + [(first.0, first.1)] == [first];
    assert ScoreAll(counts, tokens[..1], 2, 3) == Ok([first]);
    assert CellScore(3, 2, counts[tokens[1]].1, counts[tokens[1]].0) == Ok(second.0);
    assert tokens[1].value == second.1;
    ScoreAllSnoc(counts, tokens, 2, 3, 1, [first]);
    assert tokens[..2] == tokens;
    assert [first] + [second] == [first, second];
  }

  /** The worked corpus of `DocFrequency.ExampleCorpus`: whatever the order and
      repetition in which step two delivers electronics' values, as long as they
      carry the corpus's counts for None, "good" and "cheap" and nothing else,
      the category's output ranks "good" (score 3) before "cheap" (score 0.75). */
  lemma ExampleRanking(values: seq<(Option<string>, int, int)>, k: int)
    requires k >= 2
    requires CorpusCounts(ExampleCorpus(), "electronics", values)
    requires forall j :: 0 <= j < |values| ==>
      values[j].0 == None || values[j].0 == Some("good") || values[j].0 == Some("cheap")
    requires exists j :: 0 <= j < |values| && values[j].0 == None
    requires exists j :: 0 <= j < |values| && values[j].0 == Some("good")
    requires exists j :: 0 <= j < |values| && values[j].0 == Some("cheap")
    ensures ReducerChiSquaredOut(values, k) == Ok([(3.0, "good"), (0.75, "cheap")])
  {
    ExampleScores(values);
    var best: seq<Scored> := [(3.0, "good"), (0.75, "cheap")];
    var s := GroupScores(values).value;
    assert multiset(s) == multiset(best) by {
      if s != best {
        assert s == [(0.75, "cheap"), (3.0, "good")];
      }
    }
    TopKPermutation(s, best, k);
    ExampleSorted(k);
  }

  lemma ExampleSorted(k: int)
    requires k >= 2
    ensures TopK([(3.0, "good"), (0.75, "cheap")], k) == [(3.0, "good"), (0.75, "cheap")]
  {
    var best: seq<Scored> := [(3.0, "good"), (0.75, "cheap")];
    assert SortDesc(best[1..]) == [(0.75, "cheap")];
    assert !Below(best[0], best[1]);
    assert SortDesc(best) == best;
  }
}
