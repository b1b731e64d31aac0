/** The word-count variant `src/ex1.py`. Three mapper steps tokenize the raw text
    with `re.findall`, fold the tokens to lower case and drop short tokens and
    stopwords; the count reducer sums, per (category, term), the occurrences (word
    counts, not review counts). Two reducer steps then build, per category, a dict
    of totals for every term, and per term a score for every category, the latter
    with a `not_term_total_count` its own comment calls probably wrong; the last
    step keeps the 75 best (term, score) pairs of every category. */
module Ex1 {
  import opened Common
  import opened Tokens
  import opened Ranking
  import opened Contingency

  /** How many pairs `reducer_output` keeps per category. */
  const TopCount: int := 75

  /** A review as parsed: `review['category']` and `review['reviewText']`. */
  type Input = (string, string)

  /** `(category, term)`. */
  type TermPair = (string, string)

  // ---------------------------------------------------------------------------
  // The mapper steps

  /** `tokenizer`: `(category, token)` for every match of the pattern in the raw
      text, left to right and repeats included; every token is a single symbol of
      the pattern or a run of ASCII letters. */
  function Tokenizer(input: Input): (out: seq<TermPair>)
    ensures |out| == |FindAll(input.1)|
    ensures forall i :: 0 <= i < |out| ==> out[i].0 == input.0 && out[i].1 == FindAll(input.1)[i]
    ensures forall i :: 0 <= i < |out| ==>
      (|out[i].1| == 1 && IsPunct(out[i].1[0])) ||
      (|out[i].1| >= 1 && forall q :: 0 <= q < |out[i].1| ==> IsAsciiLetter(out[i].1[q]))
  {
    var tokens := FindAll(input.1);
    FindAllShape(input.1, 0);
    seq(|tokens|, i requires 0 <= i < |tokens| => (input.0, tokens[i]))
  }

  /** `case_folder`: the term in lower case, the category untouched. */
  function CaseFolder(record: TermPair): (out: TermPair)
    ensures out.0 == record.0 && |out.1| == |record.1|
    ensures forall i :: 0 <= i < |out.1| ==> !('A' <= out.1[i] <= 'Z')
  {
    LowerPointwise(record.1);
    (record.0, Lower(record.1))
  }

  /** Folding twice folds once. */
  lemma CaseFolderIdempotent(record: TermPair)
    ensures CaseFolder(CaseFolder(record)) == CaseFolder(record)
  {
    LowerIdempotent(record.1);
  }

  /** `stopword_remover`: `((category, term), 1)` when the term is longer than one
      character and not a stopword, nothing otherwise. */
  function StopwordRemover(record: TermPair, stopwords: set<string>): (out: seq<(TermPair, int)>)
    ensures out != [] <==> IsTerm(record.1, stopwords)
    ensures out != [] ==> out == [(record, 1)]
  {
    if IsTerm(record.1, stopwords) then [(record, 1)] else []
  }

  /** Every token sent through `case_folder` and `stopword_remover`, in order. */
  function Chain(records: seq<TermPair>, stopwords: set<string>): seq<(TermPair, int)>
  {
    if records == [] then []
    else Chain(records[..|records| - 1], stopwords) + StopwordRemover(CaseFolder(records[|records| - 1]), stopwords)
  }

  /** The folded pairs that pass the filter, in order. */
  function KeptPairs(records: seq<TermPair>, stopwords: set<string>): seq<TermPair>
  {
    if records == [] then []
    else
      var last := CaseFolder(records[|records| - 1]);
      KeptPairs(records[..|records| - 1], stopwords) + (if IsTerm(last.1, stopwords) then [last] else [])
  }

  /** The mapper steps send a count of one per kept pair. */
  lemma {:induction false} ChainOnes(records: seq<TermPair>, stopwords: set<string>)
    ensures Chain(records, stopwords) == Ones(KeptPairs(records, stopwords))
    decreases |records|
  {
    if records != [] {
      var n := |records| - 1;
      ChainOnes(records[..n], stopwords);
      var last := CaseFolder(records[n]);
      OnesAppend(KeptPairs(records[..n], stopwords), if IsTerm(last.1, stopwords) then [last] else []);
    }
  }

  /** A pair is kept exactly when some token of its category folds to the term
      and the term passes the filter. */
  lemma {:induction false} KeptPairsMembers(records: seq<TermPair>, stopwords: set<string>, k: TermPair)
    ensures k in KeptPairs(records, stopwords) <==>
      IsTerm(k.1, stopwords) && exists i :: 0 <= i < |records| && records[i].0 == k.0 && Lower(records[i].1) == k.1
    decreases |records|
  {
    if records != [] {
      var n := |records| - 1;
      var prefix := records[..n];
      var last := CaseFolder(records[n]);
      KeptPairsMembers(prefix, stopwords, k);
      assert KeptPairs(records, stopwords) == KeptPairs(prefix, stopwords) + (if IsTerm(last.1, stopwords) then [last] else []);
      assert forall i :: 0 <= i < n ==> prefix[i] == records[i];
      if IsTerm(k.1, stopwords) && exists i :: 0 <= i < |records| && records[i].0 == k.0 && Lower(records[i].1) == k.1 {
        var i :| 0 <= i < |records| && records[i].0 == k.0 && Lower(records[i].1) == k.1;
        if i == n {
          assert k == last;
        }
      }
    }
  }

  /** Every token of every review, review after review. */
  function AllTokens(inputs: seq<Input>): seq<TermPair>
  {
    if inputs == [] then []
    else AllTokens(inputs[..|inputs| - 1]) + Tokenizer(inputs[|inputs| - 1])
  }

  // ---------------------------------------------------------------------------
  // The count reducer

  /** `reducer_count_terms`: `(category, (term, sum))`, which for counts of one is
      their number. */
  function ReducerCountTerms(key: TermPair, counts: seq<int>): (out: (string, (string, int)))
    ensures out.0 == key.0 && out.1.0 == key.1
    ensures AllOnes(counts) ==> out.1.1 == |counts|
  {
    var summed := SumReducer(key, counts);
    (key.0, (key.1, summed.1))
  }

  /** Over a corpus a pair is reduced exactly when it is kept, and its sum is its
      number of occurrences among the kept pairs: a word count, repeats within a
      review included. */
  lemma StepCounts(inputs: seq<Input>, stopwords: set<string>, k: TermPair)
    ensures k in GroupBy(Chain(AllTokens(inputs), stopwords)) <==> k in KeptPairs(AllTokens(inputs), stopwords)
    ensures k in GroupBy(Chain(AllTokens(inputs), stopwords)) ==>
      ReducerCountTerms(k, GroupBy(Chain(AllTokens(inputs), stopwords))[k]) ==
        (k.0, (k.1, Occurrences(KeptPairs(AllTokens(inputs), stopwords), k) as int))
  {
    var kept := KeptPairs(AllTokens(inputs), stopwords);
    ChainOnes(AllTokens(inputs), stopwords);
    KeysOfOnes(kept, k);
    OnesValues(kept, k);
  }

  // ---------------------------------------------------------------------------
  // The intermediate reducer

  /** The snapshot `category_counts.copy()` yielded for one term. */
  datatype Tally = Tally(totalCount: int, termCount: int, notTermCount: int,
                         termCategoryCount: int, notTermCategoryCount: int)

  /** The entries the intermediate reducer yields for the listed terms: every
      field set afresh from the term's count, `total_count` shared. */
  function TallyEntries(category: string, d: map<string, int>, terms: seq<string>, total: int): (out: seq<(string, (string, Tally))>)
    requires forall i :: 0 <= i < |terms| ==> terms[i] in d
    ensures |out| == |terms|
  {
    if terms == [] then []
    else
      var t := terms[|terms| - 1];
      var count := d[t];
      TallyEntries(category, d, terms[..|terms| - 1], total) +
        [(t, (category, Tally(total, count, total - count, count, total - count)))]
  }

  /** What `reducer_chi_square_intermediate` yields for a category. */
  function IntermediateOut(category: string, termCounts: seq<(string, int)>): seq<(string, (string, Tally))>
  {
    TallyEntries(category, DictOf(termCounts), DictOrder(termCounts), Sum(SecondsOf(termCounts)))
  }

  /** `reducer_chi_square_intermediate`: one loop sums the counts into
      `total_count` and fills the dict of term counts; a second loop yields, for
      every term of the dict, the term with the category and a copy of the dict
      of totals. */
  method ReducerChiSquareIntermediate(category: string, termCounts: seq<(string, int)>) returns (out: seq<(string, (string, Tally))>)
    ensures out == IntermediateOut(category, termCounts)
  {
    var total, termCountsByCat, order := CollectTermCounts(termCounts);
    out := EmitTallies(category, termCountsByCat, order, total);
  }

  /** The first loop of `reducer_chi_square_intermediate`: the running total and
      the dict `{token: count}` with its insertion order. */
  method CollectTermCounts(termCounts: seq<(string, int)>) returns (total: int, termCountsByCat: map<string, int>, order: seq<string>)
    ensures total == Sum(SecondsOf(termCounts))
    ensures termCountsByCat == DictOf(termCounts) && order == DictOrder(termCounts)
  {
    total := 0;
    termCountsByCat := map[];
    order := [];
    for i := 0 to |termCounts|
      invariant total == Sum(SecondsOf(termCounts[..i]))
      invariant termCountsByCat == DictOf(termCounts[..i])
      invariant order == DictOrder(termCounts[..i])
    {
      var token := termCounts[i].0;
      var count := termCounts[i].1;
      SumSecondsStep(termCounts, i);
      total := total + count;
      DictStep(termCounts, i);
      if token !in termCountsByCat {
        order := order + [token];
      }
      termCountsByCat := termCountsByCat[token := count];
    }
    assert termCounts[..|termCounts|] == termCounts;
  }

  /** The second loop of `reducer_chi_square_intermediate`: one entry per term of
      the dict, in its order. */
  method EmitTallies(category: string, termCountsByCat: map<string, int>, order: seq<string>, total: int) returns (out: seq<(string, (string, Tally))>)
    requires forall i :: 0 <= i < |order| ==> order[i] in termCountsByCat
    ensures out == TallyEntries(category, termCountsByCat, order, total)
  {
    out := [];
    for j := 0 to |order|
      invariant out == TallyEntries(category, termCountsByCat, order[..j], total)
    {
      var term := order[j];
      var termCount := termCountsByCat[term];
      var tally := Tally(total, termCount, total - termCount, termCount, total - termCount);
      TallyEntriesStep(category, termCountsByCat, order, total, j);
      out := out + [(term, (category, tally))];
    }
    assert order[..|order|] == order;
  }

  lemma SumSecondsStep<K>(pairs: seq<(K, int)>, i: nat)
    requires i < |pairs|
    ensures Sum(SecondsOf(pairs[..i + 1])) == Sum(SecondsOf(pairs[..i])) + pairs[i].1
  {
    assert SecondsOf(pairs[..i + 1]) == SecondsOf(pairs[..i]) + [pairs[i].1];
    SumAppend(SecondsOf(pairs[..i]), [pairs[i].1]);
  }

  lemma TallyEntriesStep(category: string, d: map<string, int>, terms: seq<string>, total: int, j: nat)
    requires forall i :: 0 <= i < |terms| ==> terms[i] in d
    requires j < |terms|
    ensures TallyEntries(category, d, terms[..j + 1], total) == TallyEntries(category, d, terms[..j], total) +
      [(terms[j], (category, Tally(total, d[terms[j]], total - d[terms[j]], d[terms[j]], total - d[terms[j]])))]
  {
    assert terms[..j + 1][..j] == terms[..j];
  }

  /** The entries name the listed terms in order, each with its own count. */
  lemma TallyEntriesShape(category: string, d: map<string, int>, terms: seq<string>, total: int)
    requires forall j :: 0 <= j < |terms| ==> terms[j] in d
    ensures var out := TallyEntries(category, d, terms, total);
      FirstsOf(out) == terms &&
      forall i :: 0 <= i < |out| ==>
        out[i].1 == (category, Tally(total, d[terms[i]], total - d[terms[i]], d[terms[i]], total - d[terms[i]]))
  {
    var out := TallyEntries(category, d, terms, total);
    forall i | 0 <= i < |out|
      ensures out[i] == (terms[i], (category, Tally(total, d[terms[i]], total - d[terms[i]], d[terms[i]], total - d[terms[i]])))
    {
      TallyEntriesAt(category, d, terms, total, i);
    }
  }

  lemma {:induction false} TallyEntriesAt(category: string, d: map<string, int>, terms: seq<string>, total: int, i: nat)
    requires forall j :: 0 <= j < |terms| ==> terms[j] in d
    requires i < |terms|
    ensures TallyEntries(category, d, terms, total)[i] ==
      (terms[i], (category, Tally(total, d[terms[i]], total - d[terms[i]], d[terms[i]], total - d[terms[i]])))
    decreases |terms|
  {
    if i < |terms| - 1 {
      TallyEntriesAt(category, d, terms[..|terms| - 1], total, i);
    }
  }

  /** Every term of the group is yielded exactly once. */
  lemma IntermediateTerms(category: string, termCounts: seq<(string, int)>)
    ensures var out := IntermediateOut(category, termCounts);
      NoDup(FirstsOf(out)) && forall t :: t in FirstsOf(out) <==> t in FirstsOf(termCounts)
  {
    var order := DictOrder(termCounts);
    TallyEntriesShape(category, DictOf(termCounts), order, Sum(SecondsOf(termCounts)));
    forall t ensures t in FirstsOf(termCounts) <==> t in ToSet(order) {
      if t in KeysOf(termCounts) {
        var i :| 0 <= i < |termCounts| && termCounts[i].0 == t;
        assert FirstsOf(termCounts)[i] == t;
      }
    }
  }

  /** Every entry carries the category, the term's count in the dict and the same
      `total_count`, the sum of the group's counts;
      `term_count + not_term_count == total_count`, and the category fields repeat
      the term fields. */
  lemma IntermediateTallies(category: string, termCounts: seq<(string, int)>)
    ensures var out := IntermediateOut(category, termCounts);
      forall i :: 0 <= i < |out| ==>
        var tally := out[i].1.1;
        out[i].1.0 == category && out[i].0 in DictOf(termCounts) &&
        tally.totalCount == Sum(SecondsOf(termCounts)) &&
        tally.termCount == DictOf(termCounts)[out[i].0] &&
        tally.termCount + tally.notTermCount == tally.totalCount &&
        tally.termCategoryCount == tally.termCount && tally.notTermCategoryCount == tally.notTermCount
  {
    TallyEntriesShape(category, DictOf(termCounts), DictOrder(termCounts), Sum(SecondsOf(termCounts)));
  }

  /** With the counts the count reducer delivers to a category, one per distinct
      kept term with its number of occurrences among the category's kept tokens,
      `total_count` is the number of those tokens. */
  lemma IntermediateTotal(tokens: seq<string>, termCounts: seq<(string, int)>)
    requires NoDup(FirstsOf(termCounts))
    requires forall i :: 0 <= i < |termCounts| ==> termCounts[i].1 == Occurrences(tokens, termCounts[i].0)
    requires forall i :: 0 <= i < |tokens| ==> tokens[i] in FirstsOf(termCounts)
    ensures Sum(SecondsOf(termCounts)) == |tokens|
  {
    SumOfOccurrenceCounts(tokens, termCounts);
    SumOccurrencesAll(tokens, FirstsOf(termCounts));
  }

  // ---------------------------------------------------------------------------
  // The score

  /** `calculate_chi_square`: A = term_category_count, B = not_term_category_count,
      C = term_count - A, D = not_term_count - B and N = total_count_of_words,
      with no guard against a zero denominator. */
  function CalculateChiSquare(termCount: int, notTermCount: int, termCategoryCount: int, notTermCategoryCount: int, totalCountOfWords: int): Result<real>
  {
    Chi(totalCountOfWords, termCategoryCount, notTermCategoryCount,
      termCount - termCategoryCount, notTermCount - notTermCategoryCount)
  }

  /** With N the sum of the two counts the score is the 2x2 statistic of the
      table whose rows are split by `term_count` and whose columns by
      `term_category_count + not_term_category_count`; it fails exactly when one
      of the four marginals is zero. */
  lemma CalculateChiSquareTable(termCount: int, notTermCount: int, termCategoryCount: int, notTermCategoryCount: int)
    ensures CalculateChiSquare(termCount, notTermCount, termCategoryCount, notTermCategoryCount, termCount + notTermCount) ==
      CellScore(termCount + notTermCount, termCount, termCategoryCount + notTermCategoryCount, termCategoryCount)
    ensures CalculateChiSquare(termCount, notTermCount, termCategoryCount, notTermCategoryCount, termCount + notTermCount).Err? <==>
      termCategoryCount + notTermCategoryCount == 0 || termCount == 0 || notTermCount == 0 ||
      termCount + notTermCount - termCategoryCount - notTermCategoryCount == 0
  {
    var a := termCategoryCount;
    var b := notTermCategoryCount;
    var c := termCount - termCategoryCount;
    var d := notTermCount - notTermCategoryCount;
    CellScoreCells(termCount + notTermCount, termCount, a + b, a, a, b, c, d);
    ChiErrIffZeroMarginal(termCount + notTermCount, a, b, c, d);
  }

  // ---------------------------------------------------------------------------
  // The final reducer

  /** `sum(counts['term_count'] ...)` over the group. */
  function TermTotal(values: seq<(string, Tally)>): int
  {
    if values == [] then 0 else TermTotal(values[..|values| - 1]) + values[|values| - 1].1.termCount
  }

  /** `sum(counts['total_count'] ...)` over the group. */
  function WordTotal(values: seq<(string, Tally)>): int
  {
    if values == [] then 0 else WordTotal(values[..|values| - 1]) + values[|values| - 1].1.totalCount
  }

  /** `(category, counts['term_category_count'])` for every value, the pairs the
      dict `term_category_counts` is built from. */
  function CategoryPairs(values: seq<(string, Tally)>): (r: seq<(string, int)>)
    ensures |r| == |values| && forall i :: 0 <= i < |r| ==> r[i] == (values[i].0, values[i].1.termCategoryCount)
  {
    seq(|values|, i requires 0 <= i < |values| => (values[i].0, values[i].1.termCategoryCount))
  }

  /** The scores of the listed categories, in order; the first failing score
      raises. */
  function FinalScores(term: string, d: map<string, int>, cats: seq<string>, termTotal: int, notTermTotal: int, words: int): Result<seq<(string, TermScore)>>
    requires forall i :: 0 <= i < |cats| ==> cats[i] in d
  {
    if cats == [] then Ok([])
    else
      match FinalScores(term, d, cats[..|cats| - 1], termTotal, notTermTotal, words)
      case Err(e) => Err(e)
      case Ok(s) =>
        var c := cats[|cats| - 1];
        match CalculateChiSquare(termTotal, notTermTotal, d[c], termTotal - d[c], words)
        case Err(e) => Err(e)
        case Ok(chi) => Ok(s + [(c, (term, chi))])
  }

  /** `term_total_count * len(category) - term_total_count`, `category` being
      what the first loop left in the variable: the last value's category. An
      empty group leaves it unbound. */
  function NotTermTotal(values: seq<(string, Tally)>): Result<int>
  {
    if values == [] then Err(NameError)
    else Ok(TermTotal(values) * |values[|values| - 1].0| - TermTotal(values))
  }

  /** What `reducer_chi_square_final` yields for a term. */
  function FinalOut(term: string, values: seq<(string, Tally)>): Result<seq<(string, TermScore)>>
  {
    match NotTermTotal(values)
    case Err(e) => Err(e)
    case Ok(notTermTotal) =>
      FinalScores(term, DictOf(CategoryPairs(values)), DictOrder(CategoryPairs(values)),
        TermTotal(values), notTermTotal, WordTotal(values))
  }

  /** `reducer_chi_square_final`: one loop adds up the term counts and the word
      totals and fills the dict of per-category counts; a second loop scores every
      category of the dict with B = term_total_count - A. */
  method ReducerChiSquareFinal(term: string, values: seq<(string, Tally)>) returns (r: Result<seq<(string, TermScore)>>)
    ensures r == FinalOut(term, values)
  {
    var termTotalCount, totalCountOfWords, termCategoryCounts, order, category := CollectCategoryCounts(values);
    if category.None? {
      return Err(NameError);
    }
    assert category.value == values[|values| - 1].0;
    var notTermTotalCount := termTotalCount * |category.value| - termTotalCount;
    assert NotTermTotal(values) == Ok(notTermTotalCount);
    r := ScoreCategories(term, termCategoryCounts, order, termTotalCount, notTermTotalCount, totalCountOfWords);
  }

  /** The first loop of `reducer_chi_square_final`: the two sums, the dict
      `{category: term_category_count}` with its insertion order, and what the
      loop variable `category` holds afterwards (unbound for an empty group). */
  method CollectCategoryCounts(values: seq<(string, Tally)>)
    returns (termTotalCount: int, totalCountOfWords: int, termCategoryCounts: map<string, int>, order: seq<string>, category: Option<string>)
    ensures termTotalCount == TermTotal(values) && totalCountOfWords == WordTotal(values)
    ensures termCategoryCounts == DictOf(CategoryPairs(values)) && order == DictOrder(CategoryPairs(values))
    ensures category == if values == [] then None else Some(values[|values| - 1].0)
  {
    termTotalCount := 0;
    totalCountOfWords := 0;
    termCategoryCounts := map[];
    ghost var pairs := CategoryPairs(values);
    order := [];
    category := None;
    for i := 0 to |values|
      invariant termTotalCount == TermTotal(values[..i])
      invariant totalCountOfWords == WordTotal(values[..i])
      invariant termCategoryCounts == DictOf(pairs[..i])
      invariant order == DictOrder(pairs[..i])
      invariant category == if i == 0 then None else Some(values[i - 1].0)
    {
      var c := values[i].0;
      var counts := values[i].1;
      assert values[..i + 1][..i] == values[..i];
      termTotalCount := termTotalCount + counts.termCount;
      DictStep(pairs, i);
      if c !in termCategoryCounts {
        order := order + [c];
      }
      termCategoryCounts := termCategoryCounts[c := counts.termCategoryCount];
      totalCountOfWords := totalCountOfWords + counts.totalCount;
      category := Some(c);
    }
    assert values[..|values|] == values;
    assert pairs[..|values|] == pairs;
  }

  /** The second loop of `reducer_chi_square_final`: the categories scored in
      order, the first failing score raising. */
  method ScoreCategories(term: string, termCategoryCounts: map<string, int>, order: seq<string>,
                         termTotalCount: int, notTermTotalCount: int, totalCountOfWords: int)
    returns (r: Result<seq<(string, TermScore)>>)
    requires forall i :: 0 <= i < |order| ==> order[i] in termCategoryCounts
    ensures r == FinalScores(term, termCategoryCounts, order, termTotalCount, notTermTotalCount, totalCountOfWords)
  {
    var scores: seq<(string, TermScore)> := [];
    for j := 0 to |order|
      invariant FinalScores(term, termCategoryCounts, order[..j], termTotalCount, notTermTotalCount, totalCountOfWords) == Ok(scores)
    {
      var c := order[j];
      var termCategoryCount := termCategoryCounts[c];
      var notTermCategoryCount := termTotalCount - termCategoryCount;
      var chi := CalculateChiSquare(termTotalCount, notTermTotalCount, termCategoryCount, notTermCategoryCount, totalCountOfWords);
      FinalScoresStep(term, termCategoryCounts, order, termTotalCount, notTermTotalCount, totalCountOfWords, j, scores);
      if chi.Err? {
        FinalScoresErrPrefix(term, termCategoryCounts, order, termTotalCount, notTermTotalCount, totalCountOfWords, j + 1);
        return Err(chi.error);
      }
      scores := scores + [(c, (term, chi.value))];
    }
    assert order[..|order|] == order;
    r := Ok(scores);
  }

  /** Scoring one more category of the list. */
  lemma FinalScoresStep(term: string, d: map<string, int>, cats: seq<string>, termTotal: int, notTermTotal: int, words: int, j: nat, s: seq<(string, TermScore)>)
    requires forall i :: 0 <= i < |cats| ==> cats[i] in d
    requires j < |cats|
    requires FinalScores(term, d, cats[..j], termTotal, notTermTotal, words) == Ok(s)
    ensures var chi := CalculateChiSquare(termTotal, notTermTotal, d[cats[j]], termTotal - d[cats[j]], words);
      FinalScores(term, d, cats[..j + 1], termTotal, notTermTotal, words) ==
        if chi.Err? then Err(chi.error) else Ok(s + [(cats[j], (term, chi.value))])
  {
    assert cats[..j + 1][..j] == cats[..j];
  }

  /** A failure among the first j categories is a failure of the whole list. */
  lemma {:induction false} FinalScoresErrPrefix(term: string, d: map<string, int>, cats: seq<string>, termTotal: int, notTermTotal: int, words: int, j: nat)
    requires forall i :: 0 <= i < |cats| ==> cats[i] in d
    requires j <= |cats|
    requires FinalScores(term, d, cats[..j], termTotal, notTermTotal, words).Err?
    ensures FinalScores(term, d, cats, termTotal, notTermTotal, words) == FinalScores(term, d, cats[..j], termTotal, notTermTotal, words)
    decreases |cats| - j
  {
    if j < |cats| {
      assert cats[..j + 1][..j] == cats[..j];
      FinalScoresErrPrefix(term, d, cats, termTotal, notTermTotal, words, j + 1);
    } else {
      assert cats[..j] == cats;
    }
  }

  /** Every category of the dict is scored once, in dict order, and its B and C
      cells coincide: both are `term_total_count - A`, and D is
      `not_term_total_count - B`. */
  lemma {:induction false} FinalScoresCells(term: string, d: map<string, int>, cats: seq<string>, termTotal: int, notTermTotal: int, words: int)
    requires forall i :: 0 <= i < |cats| ==> cats[i] in d
    requires FinalScores(term, d, cats, termTotal, notTermTotal, words).Ok?
    ensures var s := FinalScores(term, d, cats, termTotal, notTermTotal, words).value;
      |s| == |cats| &&
      forall i :: 0 <= i < |s| ==> (s[i].0 == cats[i] && s[i].1.0 == term &&
        Chi(words, d[cats[i]], termTotal - d[cats[i]], termTotal - d[cats[i]], notTermTotal - termTotal + d[cats[i]]) == Ok(s[i].1.1))
    decreases |cats|
  {
    if cats != [] {
      FinalScoresCells(term, d, cats[..|cats| - 1], termTotal, notTermTotal, words);
    }
  }

  /** The scores fail exactly when some category is scored and the term total or
      `not_term_total_count` is zero: the four marginals are the term total twice
      and `not_term_total_count` twice. */
  lemma {:induction false} FinalScoresErrors(term: string, d: map<string, int>, cats: seq<string>, termTotal: int, notTermTotal: int, words: int)
    requires forall i :: 0 <= i < |cats| ==> cats[i] in d
    ensures FinalScores(term, d, cats, termTotal, notTermTotal, words).Err? <==>
      cats != [] && (termTotal == 0 || notTermTotal == 0)
    ensures FinalScores(term, d, cats, termTotal, notTermTotal, words).Err? ==>
      FinalScores(term, d, cats, termTotal, notTermTotal, words).error == ZeroDivisionError
    decreases |cats|
  {
    if cats != [] {
      FinalScoresErrors(term, d, cats[..|cats| - 1], termTotal, notTermTotal, words);
      var a := d[cats[|cats| - 1]];
      ChiErrIffZeroMarginal(words, a, termTotal - a, termTotal - a, notTermTotal - termTotal + a);
    }
  }

  /** `reducer_chi_square_final` raises `NameError` exactly for an empty group,
      and otherwise `ZeroDivisionError` exactly when the term total is zero or the
      last category's name is one character long: the leftover `len(category)`
      decides every score of the term. */
  lemma FinalErrors(term: string, values: seq<(string, Tally)>)
    ensures FinalOut(term, values) == Err(NameError) <==> values == []
    ensures values != [] ==>
      (FinalOut(term, values).Err? <==> TermTotal(values) == 0 || |values[|values| - 1].0| == 1) &&
      (FinalOut(term, values).Err? ==> FinalOut(term, values).error == ZeroDivisionError)
  {
    if values != [] {
      var pairs := CategoryPairs(values);
      NotTermTotalZero(values);
      FinalScoresErrors(term, DictOf(pairs), DictOrder(pairs), TermTotal(values), NotTermTotal(values).value, WordTotal(values));
      assert pairs[0].0 in KeysOf(pairs);
      assert DictOrder(pairs) != [] by {
        assert pairs[0].0 in ToSet(DictOrder(pairs));
      }
    }
  }

  /** `term_total_count * len(category) - term_total_count` is zero exactly when
      the term total is or the name is one character long. */
  lemma NotTermTotalZero(values: seq<(string, Tally)>)
    requires values != []
    ensures NotTermTotal(values).Ok?
    ensures NotTermTotal(values).value == 0 <==> TermTotal(values) == 0 || |values[|values| - 1].0| == 1
  {
    var t := TermTotal(values);
    var len := |values[|values| - 1].0|;
    assert t * len - t == t * (len - 1);
    ProductZero(t, len - 1);
  }

  /** For a group of two categories the dict holds both, in order. */
  lemma FinalOutPair(term: string, values: seq<(string, Tally)>)
    requires |values| == 2 && values[0].0 != values[1].0
    ensures var d := DictOf(CategoryPairs(values));
      values[0].0 in d && d[values[0].0] == values[0].1.termCategoryCount &&
      values[1].0 in d && d[values[1].0] == values[1].1.termCategoryCount
    ensures TermTotal(values) == values[0].1.termCount + values[1].1.termCount
    ensures WordTotal(values) == values[0].1.totalCount + values[1].1.totalCount
    ensures NotTermTotal(values).Ok? && FinalOut(term, values) ==
      FinalScores(term, DictOf(CategoryPairs(values)), [values[0].0, values[1].0], TermTotal(values), NotTermTotal(values).value, WordTotal(values))
  {
    var pairs := CategoryPairs(values);
    assert values[..1] == [values[0]] && values[..1][..0] == [];
    assert TermTotal(values[..1][..0]) == 0 && WordTotal(values[..1][..0]) == 0;
    assert TermTotal(values[..1]) == values[0].1.termCount;
    assert WordTotal(values[..1]) == values[0].1.totalCount;
    assert pairs[..2] == pairs && pairs[..0] == [];
    assert FirstsOf(pairs) == [values[0].0, values[1].0];
    DedupOfNoDup(FirstsOf(pairs));
    DictStep(pairs, 0);
    DictStep(pairs, 1);
    assert pairs[1] == (values[1].0, values[1].1.termCategoryCount);
    assert DictOf(pairs)[pairs[1].0] == pairs[1].1;
  }

  lemma FinalScoresTwo(term: string, d: map<string, int>, x: string, y: string, termTotal: int, notTermTotal: int, words: int)
    requires x in d && y in d
    ensures var cx := CalculateChiSquare(termTotal, notTermTotal, d[x], termTotal - d[x], words);
      var cy := CalculateChiSquare(termTotal, notTermTotal, d[y], termTotal - d[y], words);
      cx.Ok? && cy.Ok? ==>
        FinalScores(term, d, [x, y], termTotal, notTermTotal, words) == Ok([(x, (term, cx.value)), (y, (term, cy.value))])
  {
    var cats := [x, y];
    assert cats[..0] == [] && cats[..2] == cats;
    FinalScoresStep(term, d, cats, termTotal, notTermTotal, words, 0, []);
    var cx := CalculateChiSquare(termTotal, notTermTotal, d[x], termTotal - d[x], words);
    if cx.Ok? {
      var first := [(x, (term, cx.value))];
      assert [] + first == first;
      FinalScoresStep(term, d, cats, termTotal, notTermTotal, words, 1, first);
      var cy := CalculateChiSquare(termTotal, notTermTotal, d[y], termTotal - d[y], words);
      if cy.Ok? {
        assert first + [(y, (term, cy.value))] == [(x, (term, cx.value)), (y, (term, cy.value))];
      }
    }
  }

  /** The four scores of the example below. */
  lemma ScoreSamples()
    ensures CalculateChiSquare(3, 3, 2, 1, 16) == Ok(16.0 / 9.0)
    ensures CalculateChiSquare(3, 3, 1, 2, 16) == Ok(16.0 / 9.0)
    ensures CalculateChiSquare(3, 6, 2, 1, 16) == Ok(4.0)
    ensures CalculateChiSquare(3, 6, 1, 2, 16) == Ok(0.0)
  {
    assert Numerator(16, 2, 1, 1, 2) == 144 && Denominator(2, 1, 1, 2) == 81;
    assert Numerator(16, 1, 2, 2, 1) == 144 && Denominator(1, 2, 2, 1) == 81;
    assert Numerator(16, 2, 1, 1, 5) == 1296 && Denominator(2, 1, 1, 5) == 324;
    assert Numerator(16, 1, 2, 2, 4) == 0 && Denominator(1, 2, 2, 4) == 324;
  }

  /** The same counts under a last category named "cd" or "cde" give the first
      category different scores, and the second category a non-zero score or a
      zero one. */
  lemma FinalDependsOnLastName()
    ensures FinalOut("t", [("ab", Tally(10, 2, 8, 2, 8)), ("cd", Tally(6, 1, 5, 1, 5))]) ==
      Ok([("ab", ("t", 16.0 / 9.0)), ("cd", ("t", 16.0 / 9.0))])
    ensures FinalOut("t", [("ab", Tally(10, 2, 8, 2, 8)), ("cde", Tally(6, 1, 5, 1, 5))]) ==
      Ok([("ab", ("t", 4.0)), ("cde", ("t", 0.0))])
  {
    var v1 := [("ab", Tally(10, 2, 8, 2, 8)), ("cd", Tally(6, 1, 5, 1, 5))];
    var v2 := [("ab", Tally(10, 2, 8, 2, 8)), ("cde", Tally(6, 1, 5, 1, 5))];
    FinalOutPair("t", v1);
    FinalOutPair("t", v2);
    assert NotTermTotal(v1) == Ok(3) && NotTermTotal(v2) == Ok(6);
    ScoreSamples();
    FinalScoresTwo("t", DictOf(CategoryPairs(v1)), "ab", "cd", 3, 3, 16);
    FinalScoresTwo("t", DictOf(CategoryPairs(v2)), "ab", "cde", 3, 6, 16);
  }

  // ---------------------------------------------------------------------------
  // The output reducer

  /** `reducer_output`: `sorted(pairs, key=score, reverse=True)[:75]`, at most 75
      pairs, scores never increasing, drawn from the category's pairs, none
      dropped above a kept one. */
  function ReducerOutput(values: seq<TermScore>): (r: seq<TermScore>)
    ensures ScoresDescending(r) && multiset(r) <= multiset(values)
    ensures |r| == MinNat(TopCount, |values|)
    ensures forall x, y: TermScore :: x in r && y in multiset(values) - multiset(r) ==> y.1 <= x.1
  {
    TopScoresShape(values, TopCount);
    forall x: TermScore, y: TermScore | x in TopScores(values, TopCount) && y in multiset(values) - multiset(TopScores(values, TopCount))
      ensures y.1 <= x.1
    {
      TopScoresKeepsBest(values, TopCount, x, y);
    }
    TopScores(values, TopCount)
  }
}
