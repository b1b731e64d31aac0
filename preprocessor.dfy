/** The preprocessing job (`src/pre_processer.py`): three map-only steps that split
    each review text into pieces, lower-case every piece, and drop short pieces and
    stopwords. Nothing is deduplicated. The stopword set is a parameter. */
module PreProcessor {
  import opened Common
  import opened Tokens

  /** The identity of a review. */
  type DocId = (string, string)

  /** `(key, (category, text))` before tokenization, `(key, (category, token))` after. */
  type Record = (DocId, (string, string))

  /** One record per word, under the review's key and category. */
  function Tagged(key: DocId, category: string, words: seq<string>): (out: seq<Record>)
    ensures |out| == |words|
    ensures forall i :: 0 <= i < |words| ==> out[i] == (key, (category, words[i]))
  {
    seq(|words|, i requires 0 <= i < |words| => (key, (category, words[i])))
  }

  /** The tokens of a list of records. */
  function TokensOf(records: seq<Record>): (r: seq<string>)
    ensures |r| == |records| && forall i :: 0 <= i < |r| ==> r[i] == records[i].1.1
  {
    seq(|records|, i requires 0 <= i < |records| => records[i].1.1)
  }

  /** `mapper_tokenization`: one record per piece of `re.split('[^a-zA-Z<>^|]+', text)`,
      in order, under the review's key and category. The pieces put together are
      the text without its delimiters, no piece holds a delimiter, there is one
      piece more than there are delimiter runs, and only the first and last piece
      can be empty. */
  function MapperTokenization(key: DocId, category: string, text: string): (out: seq<Record>)
    ensures forall i :: 0 <= i < |out| ==> out[i].0 == key && out[i].1.0 == category
    ensures Concat(TokensOf(out)) == KeptChars(text)
    ensures forall i, j :: 0 <= i < |out| && 0 <= j < |out[i].1.1| ==> IsKept(out[i].1.1[j])
    ensures |out| == DelimiterRuns(text) + 1
    ensures forall i :: 0 < i < |out| - 1 ==> out[i].1.1 != ""
  {
    var pieces := Split(text);
    SplitConcat(text);
    SplitPiecesKept(text);
    SplitCount(text);
    SplitEmptyPieces(text);
    var out := Tagged(key, category, pieces);
    assert TokensOf(out) == pieces;
    out
  }

  /** `mapper_case_fold`: the token lower-cased, key and category kept. */
  function MapperCaseFold(r: Record): (out: Record)
    ensures out.0 == r.0 && out.1.0 == r.1.0 && |out.1.1| == |r.1.1|
    ensures forall i :: 0 <= i < |r.1.1| ==> out.1.1[i] == LowerChar(r.1.1[i])
    ensures forall i :: 0 <= i < |r.1.1| ==> !('A' <= out.1.1[i] <= 'Z')
  {
    LowerPointwise(r.1.1);
    (r.0, (r.1.0, Lower(r.1.1)))
  }

  /** Case folding twice is case folding once. */
  lemma CaseFoldIdempotent(r: Record)
    ensures MapperCaseFold(MapperCaseFold(r)) == MapperCaseFold(r)
  {
    LowerIdempotent(r.1.1);
  }

  /** `mapper_stopword_removal`: the record passes unchanged exactly when its token
      is longer than one character and not a stopword. */
  function MapperStopwordRemoval(r: Record, stopwords: set<string>): seq<Record>
  {
    if IsTerm(r.1.1, stopwords) then [r] else []
  }

  /** The three steps over a whole input, each map-only step's outputs in input order. */
  function TokenizeAll(docs: seq<Record>): seq<Record>
  {
    if docs == [] then []
    else
      var d := docs[|docs| - 1];
      TokenizeAll(docs[..|docs| - 1]) + MapperTokenization(d.0, d.1.0, d.1.1)
  }

  function CaseFoldAll(records: seq<Record>): (out: seq<Record>)
    ensures |out| == |records|
  {
    if records == [] then [] else CaseFoldAll(records[..|records| - 1]) + [MapperCaseFold(records[|records| - 1])]
  }

  function StopwordRemovalAll(records: seq<Record>, stopwords: set<string>): seq<Record>
  {
    if records == [] then []
    else StopwordRemovalAll(records[..|records| - 1], stopwords) + MapperStopwordRemoval(records[|records| - 1], stopwords)
  }

  /** The whole preprocessing of a list of reviews. */
  function Preprocess(docs: seq<Record>, stopwords: set<string>): seq<Record>
  {
    StopwordRemovalAll(CaseFoldAll(TokenizeAll(docs)), stopwords)
  }

  /** Case folding a list of records folds each record in place. */
  lemma {:induction false} CaseFoldAllPointwise(records: seq<Record>)
    ensures forall i :: 0 <= i < |records| ==> CaseFoldAll(records)[i] == MapperCaseFold(records[i])
    decreases |records|
  {
    if records != [] {
      CaseFoldAllPointwise(records[..|records| - 1]);
    }
  }

  /** The case-folding step is idempotent. */
  lemma CaseFoldAllIdempotent(records: seq<Record>)
    ensures CaseFoldAll(CaseFoldAll(records)) == CaseFoldAll(records)
  {
    CaseFoldAllPointwise(records);
    CaseFoldAllPointwise(CaseFoldAll(records));
    forall i | 0 <= i < |records|
      ensures CaseFoldAll(CaseFoldAll(records))[i] == CaseFoldAll(records)[i]
    {
      CaseFoldIdempotent(records[i]);
    }
  }

  lemma {:induction false} StopwordRemovalAppend(a: seq<Record>, b: seq<Record>, stopwords: set<string>)
    ensures StopwordRemovalAll(a + b, stopwords) == StopwordRemovalAll(a, stopwords) + StopwordRemovalAll(b, stopwords)
    decreases |b|
  {
    if b == [] {
      assert a + b == a;
    } else {
      assert (a + b)[..|a + b| - 1] == a + b[..|b| - 1];
      StopwordRemovalAppend(a, b[..|b| - 1], stopwords);
    }
  }

  /** Stopword removal is a filter that keeps every occurrence of a passing record
      and none of the others: a word repeated in a review stays repeated. */
  lemma {:induction false} StopwordRemovalOccurrences(records: seq<Record>, stopwords: set<string>, x: Record)
    ensures Occurrences(StopwordRemovalAll(records, stopwords), x) ==
      if IsTerm(x.1.1, stopwords) then Occurrences(records, x) else 0
    decreases |records|
  {
    if records != [] {
      var prefix := records[..|records| - 1];
      var last := records[|records| - 1];
      StopwordRemovalOccurrences(prefix, stopwords, x);
      OccurrencesAppend(StopwordRemovalAll(prefix, stopwords), MapperStopwordRemoval(last, stopwords), x);
      OccurrencesAppend(prefix, [last], x);
      assert [last][..0] == [];
      assert records == prefix + [last];
    }
  }

  /** Every record that passes has a token longer than one character (so empty
      pieces are removed) that is not a stopword. */
  lemma StopwordRemovalPasses(records: seq<Record>, stopwords: set<string>, i: nat)
    requires i < |StopwordRemovalAll(records, stopwords)|
    ensures IsTerm(StopwordRemovalAll(records, stopwords)[i].1.1, stopwords)
  {
    var out := StopwordRemovalAll(records, stopwords);
    OccurrencesPositive(out, i);
    StopwordRemovalOccurrences(records, stopwords, out[i]);
  }

  /** The stopword-removal step is idempotent. */
  lemma {:induction false} StopwordRemovalIdempotent(records: seq<Record>, stopwords: set<string>)
    ensures StopwordRemovalAll(StopwordRemovalAll(records, stopwords), stopwords) == StopwordRemovalAll(records, stopwords)
    decreases |records|
  {
    if records != [] {
      var prefix := records[..|records| - 1];
      var last := records[|records| - 1];
      StopwordRemovalIdempotent(prefix, stopwords);
      var mine := MapperStopwordRemoval(last, stopwords);
      StopwordRemovalAppend(StopwordRemovalAll(prefix, stopwords), mine, stopwords);
      if mine != [] {
        assert mine[..0] == [];
      }
    }
  }

  /** The records of one word list, counted: only the review's own key and category
      occur, each word as often as in the list. */
  lemma {:induction false} TaggedOccurrences(key: DocId, category: string, words: seq<string>, x: Record)
    ensures Occurrences(Tagged(key, category, words), x) ==
      if x.0 == key && x.1.0 == category then Occurrences(words, x.1.1) else 0
    decreases |words|
  {
    if words != [] {
      var n := |words| - 1;
      TaggedOccurrences(key, category, words[..n], x);
      assert Tagged(key, category, words)[..n] == Tagged(key, category, words[..n]);
    }
  }

  /** The pieces of a text, lower-cased. */
  function LowerAll(words: seq<string>): (r: seq<string>)
    ensures |r| == |words| && forall i :: 0 <= i < |r| ==> r[i] == Lower(words[i])
  {
    seq(|words|, i requires 0 <= i < |words| => Lower(words[i]))
  }

  /** The preprocessing of one review emits, under its key and category, every
      lower-cased piece that is a term, as many times as it occurs, and nothing
      else. */
  lemma PreprocessReview(key: DocId, category: string, text: string, stopwords: set<string>, x: Record)
    ensures Occurrences(Preprocess([(key, (category, text))], stopwords), x) ==
      if x.0 == key && x.1.0 == category && IsTerm(x.1.1, stopwords)
      then Occurrences(LowerAll(Split(text)), x.1.1) else 0
  {
    FoldedReview(key, category, text);
    var docs := [(key, (category, text))];
    StopwordRemovalOccurrences(CaseFoldAll(TokenizeAll(docs)), stopwords, x);
    TaggedOccurrences(key, category, LowerAll(Split(text)), x);
  }

  /** The first two steps on one review give its lower-cased pieces, tagged. */
  lemma FoldedReview(key: DocId, category: string, text: string)
    ensures CaseFoldAll(TokenizeAll([(key, (category, text))])) == Tagged(key, category, LowerAll(Split(text)))
  {
    TokenizeOne(key, category, text);
    CaseFoldTagged(key, category, Split(text));
  }

  lemma TokenizeOne(key: DocId, category: string, text: string)
    ensures TokenizeAll([(key, (category, text))]) == Tagged(key, category, Split(text))
  {
    var docs := [(key, (category, text))];
    assert docs[..|docs| - 1] == [];
    assert TokenizeAll([]) == [];
    assert TokenizeAll(docs) == TokenizeAll([]) + MapperTokenization(key, category, text);
  }

  lemma CaseFoldTagged(key: DocId, category: string, words: seq<string>)
    ensures CaseFoldAll(Tagged(key, category, words)) == Tagged(key, category, LowerAll(words))
  {
    CaseFoldAllPointwise(Tagged(key, category, words));
  }
}
