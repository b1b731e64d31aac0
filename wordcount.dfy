/** The word-count job at the repository root (`chiSquaredReduce.py`): every piece
    of `re.split('[^a-zA-Z<>^|]+', reviewText)` is sent with a count of one, without
    case folding or filtering, and the reducer sums the counts of each piece. */
module RawWordCount {
  import opened Common
  import opened Tokens

  /** `(word, count)`. */
  type Count = (string, int)

  /** `mapper`: one `(word, 1)` per piece of the text, in order, the empty pieces
      included: the words put together are the text without its delimiters, and
      there is one more of them than there are delimiter runs. */
  function Mapper(review: Option<string>): (out: seq<Count>)
    ensures forall i :: 0 <= i < |out| ==> out[i].1 == 1
    ensures Concat(FirstsOf(out)) == KeptChars(OrEmpty(review))
    ensures |out| == DelimiterRuns(OrEmpty(review)) + 1
  {
    var text := OrEmpty(review);
    SplitConcat(text);
    SplitCount(text);
    var out := Ones(Split(text));
    assert FirstsOf(out) == Split(text);
    out
  }

  /** Every mapper output, review after review. */
  function MapAll(reviews: seq<Option<string>>): seq<Count>
  {
    if reviews == [] then []
    else MapAll(reviews[..|reviews| - 1]) + Mapper(reviews[|reviews| - 1])
  }

  /** Every piece of every review, review after review. */
  function AllWords(reviews: seq<Option<string>>): seq<string>
  {
    if reviews == [] then []
    else AllWords(reviews[..|reviews| - 1]) + Split(OrEmpty(reviews[|reviews| - 1]))
  }

  /** The single step: the shuffle, then `reducer_count` on every group. */
  function Job(reviews: seq<Option<string>>): map<string, int>
  {
    var groups := GroupBy(MapAll(reviews));
    map w | w in groups :: SumReducer(w, groups[w]).1
  }

  /** The mapper outputs are the counts of one of all the pieces. */
  lemma {:induction false} MapAllOnes(reviews: seq<Option<string>>)
    ensures MapAll(reviews) == Ones(AllWords(reviews))
    decreases |reviews|
  {
    if reviews != [] {
      MapAllOnes(reviews[..|reviews| - 1]);
      OnesAppend(AllWords(reviews[..|reviews| - 1]), Split(OrEmpty(reviews[|reviews| - 1])));
    }
  }

  /** What the shuffle and the reducer make of the records sent for `w`. */
  lemma JobValue(reviews: seq<Option<string>>, w: string)
    ensures w in Job(reviews) <==> w in KeysOf(MapAll(reviews))
    ensures w in Job(reviews) ==> Job(reviews)[w] == SumReducer(w, ValuesOf(MapAll(reviews), w)).1
  {
  }

  /** The job counts exactly the pieces that occur, each as often as it occurs
      across all reviews; `The` and `the` are different words. */
  lemma JobCounts(reviews: seq<Option<string>>, w: string)
    ensures w in Job(reviews) <==> w in AllWords(reviews)
    ensures w in Job(reviews) ==> Job(reviews)[w] == Occurrences(AllWords(reviews), w)
  {
    JobValue(reviews, w);
    MapAllOnes(reviews);
    KeysOfOnes(AllWords(reviews), w);
    OnesValues(AllWords(reviews), w);
  }

  /** Sum of the counts of the listed words. */
  function SumCounts(counts: map<string, int>, words: seq<string>): int
    requires forall i :: 0 <= i < |words| ==> words[i] in counts
  {
    if words == [] then 0 else counts[words[0]] + SumCounts(counts, words[1..])
  }

  lemma {:induction false} SumCountsGroupSizes(reviews: seq<Option<string>>, words: seq<string>)
    requires forall i :: 0 <= i < |words| ==> words[i] in Job(reviews)
    ensures SumCounts(Job(reviews), words) == GroupSizes(MapAll(reviews), words)
    decreases |words|
  {
    if words != [] {
      SumCountsGroupSizes(reviews, words[1..]);
      JobCounts(reviews, words[0]);
      MapAllOnes(reviews);
      OnesValues(AllWords(reviews), words[0]);
    }
  }

  /** Listing every counted word once, the counts add up to the number of pieces:
      no piece is lost or counted twice by the shuffle. */
  lemma JobTotal(reviews: seq<Option<string>>, words: seq<string>)
    requires NoDup(words) && ToSet(words) == Job(reviews).Keys
    ensures SumCounts(Job(reviews), words) == |AllWords(reviews)|
  {
    var records := MapAll(reviews);
    forall i | 0 <= i < |records|
      ensures records[i].0 in words
    {
      assert records[i].0 in KeysOf(records);
      JobValue(reviews, records[i].0);
      assert records[i].0 in ToSet(words);
    }
    GroupByConservesRecords(records, words);
    SumCountsGroupSizes(reviews, words);
    MapAllOnes(reviews);
  }

  /** A review without a text sends the empty word once. */
  lemma MissingText()
    ensures Mapper(None) == [("", 1)]
    ensures Job([None]) == map["" := 1]
  {
    var reviews: seq<Option<string>> := [None];
    assert Split("") == [""];
    assert Mapper(None) == [("", 1)];
    assert reviews[..0] == [];
    var records := MapAll(reviews);
    assert records == [("", 1)];
    assert KeysOf(records) == {""} by {
      assert records[0].0 == "";
    }
    assert records[..0] == [];
    assert ValuesOf(records, "") == [1];
    JobValue(reviews, "");
    assert Job(reviews).Keys == {""} by {
      forall w | w in Job(reviews) ensures w == "" {
        JobValue(reviews, w);
      }
    }
  }
}
