# Chi-squared term selection on MapReduce, modelled in Dafny

The repository computes, for every product category of a corpus of labelled
reviews, the terms whose χ² score against that category is highest. Every
variant is a chain of mrjob steps with the same four parts:

- a tokenizer: split, lowercase, filter stopwords and short tokens, and, in most
  variants, keep each term once per review;
- a contingency counter: N (reviews), N_c (reviews in the category), N_t
  (reviews containing the term) and N_ct (reviews in the category containing
  the term);
- the 2×2 χ² score `N·(A·D − B·C)² / ((A+B)(A+C)(B+D)(C+D))`;
- a top-k selection per category.

This project models eight source files, one Dafny module each, plus shared
modules:

| module | models |
|---|---|
| `ChiSquared` (chisquared.dfy) | src/chi_squared.py: records carry document identities that are deduplicated by set union in the combiner and the reducer; marginal groups are fanned out to every (category, token) pair |
| `TopKJob` (topk.dfy) | src/top_k.py: `sorted(data, reverse=True)[:k]` as combiner and reducer |
| `PreProcessor` (preprocessor.dfy) | src/pre_processer.py: three mappers of `re.split`, `lower()` and the stopword filter |
| `ChiSquaredServer` (server.dfy) | src/ChiSquared_server.py: three-stage document-frequency job with the vocabulary |
| `ChiSquaredReduce` (srcreduce.dfy) | src/chiSquaredReduce.py: three-stage document-frequency job |
| `ChiSquaredOptimized` (optimized.dfy) | chiSquaredReduceOptimized.py: a counting job, then four steps |
| `Ex1` (ex1.dfy) | src/ex1.py: six steps over raw word counts |
| `RawWordCount` (wordcount.dfy) | chiSquaredReduce.py: word count of the raw split pieces |
| `Common` | Option/Result/Error, sums, sets of sequences, the shuffle, Python dicts |
| `Tokens` | the `re.split` delimiter class, ASCII `lower()`, the length and stopword filter, an approximation of the `re.findall` pattern |
| `Contingency` | the χ² formula, shared by all variants |
| `Lexicon` | Python's string order and an ascending sort |
| `Ranking` | tuple order on (score, token), top-k, and the stable sort by score |
| `DocFrequency` | the review counts and their regrouping, shared by the three document-frequency variants |

Conventions of the model:

- **Shuffle.** The shuffle between steps is `Common.GroupBy`. It maps each key to the
  sequence of its values in emission order. A step is a function or method
  applied to one group. A job is the composition of its steps.
- **Dicts.** A Python dict built by assignment in a loop or a comprehension is
  `Common.DictOf` (the last value for a key wins). Its iteration order is
  `Common.DictOrder` (first-insertion order).
- **Scores and errors.** Scores are exact `real`s. Python's true division by zero
  is `Err(ZeroDivisionError)`. A missing dict key is `Err(KeyError)`. A loop
  variable read after a loop that never ran is `Err(NameError)`.
- **Imperative code.** Code that updates dicts, sets or lists in loops is a
  `method` with loop invariants. Each such method is proved equal to a
  specification function, and the properties are lemmas about that function:
  - `_eliminate_duplicates`;
  - `reducer_count`;
  - `reducer_2` of the server job;
  - both `reducer_chi_squared` variants;
  - the counting driver of the optimized job;
  - the `reducer_4` sort;
  - the two `ex1` reducers that fill dicts.

  The in-place sort at chiSquaredReduceOptimized.py:128 keeps its array.

Three behaviours of the code that the model keeps as they are:
- **Zero marginal.** Every variant divides without a guard, so a zero marginal
  raises `ZeroDivisionError` (`Contingency.ChiErrIffZeroMarginal` and the
  per-variant `*Errors` lemmas).
- **Term counting in src/ex1.py.** src/ex1.py counts raw occurrences, not
  reviews, and `Ex1` models occurrences, as the file's own note says.
- **Missing fields.** A missing category or text defaults to `''` via
  `.get(..., '')`, and a missing dict entry raises `KeyError`.

## Model

| member | source | states |
|---|---|---|
| ChiSquared.MapperCountValues | src/chi_squared.py:8-14 | the group of any key in one input's four records is `[([doc], payload)]` for exactly the keys (None,None), (c,None), (None,t), (c,t) it hits, with payloads (c,t), t, c and nothing, and empty otherwise |
| ChiSquared.EliminateDuplicates | src/chi_squared.py:17-29 | the loop's two sets are the union of all identity lists and the union of all payloads of the group |
| ChiSquared.UnionKeysMembers | src/chi_squared.py:21-27 | a document identity is in the union iff some value of the group lists it |
| ChiSquared.UnionItemsMembers | src/chi_squared.py:21-27 | a payload item is in the union iff some value of the group carries it |
| ChiSquared.UnionAppend | src/chi_squared.py:17-29 | the unions distribute over concatenation of groups (set union is associative) |
| ChiSquared.UnionSameValues | src/chi_squared.py:17-29 | groups with the same set of values, in any order and with any repetition, have the same unions (duplicate delivery changes nothing) |
| ChiSquared.CombinerCount | src/chi_squared.py:32-35 | the combiner keeps the key and emits duplicate-free tuples holding exactly the two unions |
| ChiSquared.CombinedUnions | src/chi_squared.py:32-41 | reducing the combiner outputs of any partition of a group gives the same unions as reducing the whole group |
| ChiSquared.GroupUnions | src/chi_squared.py:8-14 | after the shuffle, a key's group is empty iff no input hits it; its identity union is the set of documents hitting the key, its payload union the matching payloads |
| ChiSquared.GroupKeys | src/chi_squared.py:8-14 | a key reaches a reducer iff some document hits it |
| ChiSquared.ReducerCount | src/chi_squared.py:38-53 | the fan-out loop emits, without repetition, exactly ('n', n) to every observed (c,t), ('t', n) to every category seen with t, ('c', n) to every token seen in c, and ('ct', n) to (c,t) itself, with n the number of distinct identities |
| ChiSquared.CountStage | src/chi_squared.py:38-53 | the first step's output, over all groups, is the set `StageSet` of fanned-out counts |
| ChiSquared.StageExact | src/chi_squared.py:8-53 | that set is exactly four records per observed (c,t), tagged n, t, c and ct, counting the distinct documents of the matching marginal |
| ChiSquared.StageKeys | src/chi_squared.py:43-53 | every key leaving the first step has both components set and is an observed (category, token) pair |
| ChiSquared.StageSameInputs | src/chi_squared.py:11-41 | inputs with the same set of records, whatever their order or repetition, give the same first-step output |
| ChiSquared.Cells | src/chi_squared.py:60-67 | the derived cells sum to n and have the row and column totals N_t, N_c, n − N_c and n − N_t |
| ChiSquared.ReducerChiSquared | src/chi_squared.py:56-71 | a `KeyError` iff no 'n' tag reached the key; otherwise the record is (category, (score, token)) |
| ChiSquared.ReducerChiSquaredDivision | src/chi_squared.py:60-69 | with all four tags present, the score raises `ZeroDivisionError` iff N_t or N_c is 0 or n, and is defined otherwise |
| ChiSquared.PipelineScore | src/chi_squared.py:56-69 | fed from the first step, each pair is scored from the distinct-document counts of its four marginals |
| ChiSquared.PairScore | src/chi_squared.py:58-63 | any group holding exactly the four tagged counts gives that score, whatever the order of its values |
| ChiSquared.ReducerSameDict | src/chi_squared.py:58 | the reducer depends on its values only through the dict they build |
| ChiSquared.CountInclusions | src/chi_squared.py:8-14 | N_ct ≤ N_c ≤ N and N_ct ≤ N_t ≤ N, as inclusions of the identity sets |
| ChiSquared.CellsNonNegative | src/chi_squared.py:60-67 | when every document identity has one category, all four derived cells are non-negative |
| ChiSquared.ScoreBounds | src/chi_squared.py:69 | for such inputs a defined score lies in [0, N] |
| ChiSquared.PipelineScoreBounds | src/chi_squared.py:56-71 | the same bound for the scores the pipeline actually produces |
| ChiSquared.CellsNeedOneCategory | src/chi_squared.py:64-67 | a document listed under two categories drives the cell n_nc_nt below zero |
| TopKJob.Combiner | src/top_k.py:10-14 | the combiner keeps its key, emits min(k, \|data\|) values for k ≥ 0, each from its group, namely `TopK(data, k)` |
| TopKJob.Reducer | src/top_k.py:17-20 | the reducer keeps its key and yields min(k, \|data\|) values for k ≥ 0, in non-increasing tuple order, a sub-multiset of the input; k = 0 gives an empty tuple |
| TopKJob.CombinerSafe | src/top_k.py:23-26 | for k ≥ 0, reducing the combiner outputs of any partition equals reducing the whole group |
| TopKJob.ReducerAnyOrder | src/top_k.py:17-20 | the reducer's result does not depend on the order values arrive in |
| Ranking.SortDescFacts | src/top_k.py:11 | `sorted(data, reverse=True)` is in non-increasing tuple order and a permutation of data |
| Ranking.DescendingUnique | src/top_k.py:11 | there is only one non-increasing arrangement of a multiset, so the sort is determined by its input |
| Ranking.TopKShape | src/top_k.py:18 | `sorted(data, reverse=True)[:k]` has min(k, \|data\|) elements for k ≥ 0, is non-increasing, a sub-multiset of data, and empty for k = 0 |
| Ranking.SliceEnd | src/top_k.py:11 | the end of a Python slice `[:k]`: min(k, len) for k ≥ 0, len + k clamped at 0 for negative k |
| Ranking.TopKTies | src/top_k.py:11 | among kept elements with equal score, the later one never has a larger token (ties fall back to descending token) |
| Ranking.TopKKeepsLargest | src/top_k.py:18 | every dropped element is at most every kept one |
| Ranking.TopKOfTopK | src/top_k.py:11-18 | top-k of the concatenation of two top-j's (j ≥ k) equals top-k of the concatenation |
| Ranking.TopKOfParts | src/top_k.py:10-26 | the same for any number of parts |
| Ranking.TopKPermutation | src/top_k.py:18 | top-k depends only on the multiset of its input |
| Ranking.TopKOfTopKNegative | src/top_k.py:11-18 | with k = −1 the combiner is not safe: a two-element group loses an element twice |
| Ranking.StableSortByScoreFacts | src/chiSquaredReduce.py:79 | the stable sort by score, highest first, is non-increasing in score, a permutation, and keeps the input order of each score |
| Ranking.SortByScoreInPlace | chiSquaredReduceOptimized.py:127-128 | the in-place array sort leaves the array holding the stable descending sort of its old contents |
| Ranking.InsertLast | chiSquaredReduceOptimized.py:128 | one insertion pass places the element at i into the sorted prefix and leaves the rest of the array alone |
| Ranking.TopScoresShape | src/chiSquaredReduce.py:79 | the stable sort cut to k is non-increasing in score, a sub-multiset, with min(k, \|s\|) pairs for k ≥ 0 |
| Ranking.TopScoresKeepsBest | src/chiSquaredReduce.py:79 | no dropped pair scores above a kept one |
| Ranking.TopScoresStable | src/chiSquaredReduce.py:79 | the kept pairs of each score are a prefix of that score's pairs in input order |
| Tokens.SplitConcat | src/pre_processer.py:21 | the pieces of `re.split('[^a-zA-Z<>^\|]+', s)` concatenate to the kept characters of s, in order |
| Tokens.SplitPiecesKept | src/pre_processer.py:21 | no piece holds a delimiter character |
| Tokens.SplitCount | src/pre_processer.py:21 | there is one more piece than there are maximal delimiter runs |
| Tokens.SplitEmptyPieces | src/pre_processer.py:21 | the first piece is empty iff s is empty or starts with a delimiter, and no inner piece is empty |
| Tokens.LowerPointwise | src/pre_processer.py:29 | `lower()` maps A–Z to a–z (code point + 32) and leaves every other character |
| Tokens.LowerIdempotent | src/pre_processer.py:29 | lowercasing twice is lowercasing once |
| Tokens.LowerKeepsKept | src/chiSquaredReduce.py:30 | for the ASCII lowercasing modelled here, lowercasing keeps every character's delimiter status, so it commutes with the split |
| Tokens.FindAllShape | src/ChiSquared_server.py:48 | every `findall` match is a single punctuation character of the class or a run of ASCII letters |
| Tokens.FindAllCurlyQuotes | src/ChiSquared_server.py:48 | a word between curly quotes is matched: `“great”` gives `["great"]` |
| Tokens.FindAllApostrophe | src/ex1.py:39 | a typographic apostrophe separates words: `don’t` gives `["don", "t"]` |
| Tokens.FindAllAccented | src/ChiSquared_server.py:48 | an accented letter is a word character, so `café` gives no match |
| Tokens.FilterTerms | src/ChiSquared_server.py:51 | the filtered list holds exactly the words with len > 1 that are not stopwords, without repetition when the input has none |
| Tokens.SplitTerms | src/chiSquaredReduce.py:30-32 | the per-review term set is duplicate-free |
| Tokens.SplitTermsMembers | src/chiSquaredReduce.py:30-32 | a word is in it iff it is a piece of the lowercased split with len > 1 and not a stopword (such a piece is never blank) |
| Tokens.PieceNotBlank | src/chiSquaredReduce.py:32 | a piece of kept characters longer than one is never blank, so the `strip()` test adds nothing |
| Tokens.FindTerms | src/ChiSquared_server.py:48-51 | the per-review term set is duplicate-free and holds exactly the lowercased matches with len > 1 that are not stopwords |
| Tokens.FindTermsLetters | src/ChiSquared_server.py:48-51 | every such term is a run of at least two ASCII letters |
| PreProcessor.MapperTokenization | src/pre_processer.py:17-24 | one record per split piece, in order, each with the review's key and category; the pieces concatenate to the kept characters, contain no delimiter, number the delimiter runs plus one, and only the end pieces can be empty |
| PreProcessor.MapperCaseFold | src/pre_processer.py:27-29 | key, category and length are kept; each character is lowercased and no A–Z remains |
| PreProcessor.CaseFoldIdempotent | src/pre_processer.py:27-29 | case folding a folded record changes nothing |
| PreProcessor.CaseFoldAllIdempotent | src/pre_processer.py:27-29 | the same for the whole step |
| PreProcessor.StopwordRemovalPasses | src/pre_processer.py:32-36 | every record passing the filter has a token with len > 1 that is not a stopword (so no empty piece passes) |
| PreProcessor.StopwordRemovalOccurrences | src/pre_processer.py:32-36 | the filter keeps each record exactly as often as it occurs when its token passes, and never otherwise |
| PreProcessor.StopwordRemovalIdempotent | src/pre_processer.py:32-36 | filtering twice is filtering once |
| PreProcessor.StopwordRemovalAppend | src/pre_processer.py:32-36 | the filter distributes over concatenation (it is a per-record mapper) |
| PreProcessor.PreprocessReview | src/pre_processer.py:39-44 | the three steps emit each (key, (category, word)) once per occurrence in the lowercased split of a passing word: repeated words are not deduplicated |
| PreProcessor.FoldedReview | src/pre_processer.py:17-29 | tokenizing and then case folding a review gives its lowercased split pieces, tagged |
| RawWordCount.Mapper | chiSquaredReduce.py:10-23 | one (piece, 1) per split piece of the raw text, empty pieces included; a missing text is `''` |
| RawWordCount.MapAllOnes | chiSquaredReduce.py:10-23 | the mapper output of the corpus is (w, 1) for every raw piece in order |
| RawWordCount.JobCounts | chiSquaredReduce.py:25-27 | a word is counted iff it occurs as a raw piece (case-sensitive), and its count is its number of occurrences |
| RawWordCount.JobTotal | chiSquaredReduce.py:25-27 | the counts sum to the number of split pieces of the corpus |
| RawWordCount.MissingText | chiSquaredReduce.py:15-23 | a review without text yields exactly ('', 1) |
| ChiSquaredServer.MapperPreprocessing | src/ChiSquared_server.py:41-56 | ((category, None), 1) first and once, then ((category, t), 1) once for each distinct lowercased match t with len > 1 that is not a stopword |
| ChiSquaredServer.MapStageIsCounting | src/ChiSquared_server.py:41-56 | the mapper output of the corpus is the shared review-count emission of its term sets |
| ChiSquaredServer.StepOneCounts | src/ChiSquared_server.py:60-62 | after `reducer_1`, (c, t) becomes (t, (c, reviews of c containing t)) and (c, None) becomes (None, (c, reviews in c)), for exactly the keys with a positive count |
| ChiSquaredServer.ReducerTwo | src/ChiSquared_server.py:66-81 | the dict-filling loop and emission equal `ReducerTwoOut` |
| ChiSquaredServer.ReducerTwoVocabulary | src/ChiSquared_server.py:69-70 | for a token, (None, token) is emitted first and exactly once; for the None token it is not emitted |
| ChiSquaredServer.ReducerTwoCategories | src/ChiSquared_server.py:72-81 | (category, (token, count, total)) is emitted iff the category occurs in the group, with its last count and the sum over the dict |
| ChiSquaredServer.ReducerTwoDistinct | src/ChiSquared_server.py:72-81 | each category is emitted once |
| ChiSquaredServer.ReducerTwoTotal | src/ChiSquared_server.py:78 | with distinct categories, the total is the sum of the incoming counts |
| ChiSquaredServer.StepTwoTotal | src/ChiSquared_server.py:78 | for a term the total is the number of reviews containing it; for None it is N |
| ChiSquaredServer.StepTwoCorpus | src/ChiSquared_server.py:66-81 | every (category, counts) record leaving the second step carries the corpus's true (N_ct, N_t) or (N_c, N) |
| ChiSquaredServer.ReducerVocabulary | src/ChiSquared_server.py:87-89 | the None category yields its values sorted ascending, a permutation of them; for distinct tokens, strictly ascending with the same set |
| ChiSquaredServer.ReducerChiSquared | src/ChiSquared_server.py:85-103 | the dict-popping scoring loop equals `ReducerChiSquaredOut` |
| ChiSquaredServer.ReducerChiSquaredErrors | src/ChiSquared_server.py:91-100 | a `KeyError` iff no None entry; otherwise a `ZeroDivisionError` iff some token is scored and N_c is 0 or N, or some N_t is 0 or N |
| ChiSquaredServer.ReducerChiSquaredRanked | src/ChiSquared_server.py:95-103 | a defined result is `sorted(result, reverse=True)[:k]`: min(k, tokens) pairs, non-increasing, each token's score computed from (N, N_c, N_t, A) |
| ChiSquaredServer.ReducerChiSquaredBounds | src/ChiSquared_server.py:95-100 | fed with the counts of a corpus, every kept score lies in [0, N] |
| ChiSquaredServer.ExampleGroup | src/ChiSquared_server.py:91-92 | for the worked three-review corpus, the dict of electronics holds (2, 3) under None, (2, 2) for "good" and (1, 2) for "cheap", and its tokens are exactly "good" and "cheap" |
| ChiSquaredServer.ExampleScores | src/ChiSquared_server.py:91-101 | for that corpus, the electronics scores are 3 for "good" and 0.75 for "cheap", in whichever dict order the values arrive |
| ChiSquaredServer.ExampleRanking | src/ChiSquared_server.py:85-103 | for that corpus, in any arrival order and with any repetition and k ≥ 2, electronics outputs `[(3.0, "good"), (0.75, "cheap")]` |
| ChiSquaredServer.ExampleSorted | src/ChiSquared_server.py:103 | the sorted slice of those two pairs keeps "good" first |
| DocFrequency.CellsNonNegative | src/ChiSquared_server.py:95-98 | A ≤ N_c, A ≤ N_t and N_c + N_t − A ≤ N: the four cells A, N_t − A, N_c − A and N − N_c − N_t + A are non-negative |
| DocFrequency.StageCounts | src/ChiSquared_server.py:53-62 | the summed group of (c, None) is the review count of c, that of (c, t) the number of reviews of c containing t, present iff positive |
| DocFrequency.RegroupCounts | src/ChiSquared_server.py:60-62 | re-keying the summed groups by term gives (t, (c, count)) for every key |
| DocFrequency.StepTwoTotals | src/chiSquaredReduce.py:54 | per term, the counts over categories sum to the reviews containing it, and for None to N |
| DocFrequency.CountsOfCorpus | src/ChiSquared_server.py:91-92 | the third step's dict holds the corpus's (A, N_t) per token and (N_c, N) under None |
| DocFrequency.GroupScoresKeyError | src/ChiSquared_server.py:92 | `pop(None)` raises `KeyError` iff no value carries the category total |
| DocFrequency.GroupScoresValues | src/ChiSquared_server.py:95-101 | a defined score list holds one score per distinct token, in dict order |
| DocFrequency.GroupScoresBounds | src/ChiSquared_server.py:95-100 | fed with corpus counts, every score lies in [0, N] |
| ChiSquaredReduce.MapperPreprocessing | src/chiSquaredReduce.py:21-36 | ((category, None), 1) first and once, then one ((category, term), 1) per distinct term; a missing category is `''` |
| ChiSquaredReduce.MapperTerms | src/chiSquaredReduce.py:28-36 | a term is emitted iff it is a lowercased split piece with len > 1 that is not a stopword; a missing text is `''` |
| ChiSquaredReduce.MapStageIsCounting | src/chiSquaredReduce.py:21-36 | the mapper output of the corpus is the shared review-count emission |
| ChiSquaredReduce.StepOneCounts | src/chiSquaredReduce.py:38-45 | `reducer_count_terms` gives (term, (category, document frequency)) |
| ChiSquaredReduce.ReducerCountTermsOverCategories | src/chiSquaredReduce.py:47-56 | one (category, (term, count, total)) per value in order, with total the sum of the counts |
| ChiSquaredReduce.StepTwoCorpus | src/chiSquaredReduce.py:47-56 | every record leaving the second step carries the corpus's true counts |
| ChiSquaredReduce.ReducerCalcChiSquared | src/chiSquaredReduce.py:58-79 | the dict-popping scoring loop equals `ReducerCalcChiSquaredOut` |
| ChiSquaredReduce.ReducerCalcChiSquaredErrors | src/chiSquaredReduce.py:67-77 | a `KeyError` iff no None entry; otherwise a `ZeroDivisionError` iff some term is scored with a zero marginal |
| ChiSquaredReduce.ReducerCalcChiSquaredRanked | src/chiSquaredReduce.py:71-79 | min(k, terms) (term, score) pairs, non-increasing, each term scored with D = N − N_c − B |
| ChiSquaredReduce.ReducerCalcChiSquaredKeepsBest | src/chiSquaredReduce.py:79 | no dropped pair scores above a kept one, and ties keep dict order |
| ChiSquaredReduce.ReducerCalcChiSquaredBounds | src/chiSquaredReduce.py:71-77 | fed with corpus counts, every kept score lies in [0, N] |
| ChiSquaredOptimized.CategoryCounts | chiSquaredReduceOptimized.py:152-158 | the driver loop builds the dict of per-category counts plus the "N" entry |
| ChiSquaredOptimized.CountingOutputCounts | chiSquaredReduceOptimized.py:10-25 | the counting job yields each category with its number of reviews |
| ChiSquaredOptimized.CountingEntry | chiSquaredReduceOptimized.py:10-25 | a category is in the dict iff it has a review, with its review count |
| ChiSquaredOptimized.CategoryTotals | chiSquaredReduceOptimized.py:156-158 | `"N"` maps to the number of reviews, and every other category is present iff it has a review, mapped to its review count (a category named "N" is overwritten) |
| ChiSquaredOptimized.CountingSum | chiSquaredReduceOptimized.py:158 | the per-category counts sum to the number of reviews |
| ChiSquaredOptimized.MapperOne | chiSquaredReduceOptimized.py:37-50 | ((category, word), 1) once per distinct filtered word |
| ChiSquaredOptimized.MapperOneTerms | chiSquaredReduceOptimized.py:46-50 | a word is emitted iff it is a lowercased split piece with len > 1 that is not a stopword |
| ChiSquaredOptimized.MapStageOneIsCounting | chiSquaredReduceOptimized.py:37-50 | the mapper output of the corpus is the shared term emission |
| ChiSquaredOptimized.StepOneCounts | chiSquaredReduceOptimized.py:52-58 | `reducer_1` yields (category, term) with its document frequency, for exactly the pairs that occur |
| ChiSquaredOptimized.ReducerTwo | chiSquaredReduceOptimized.py:69-77 | one (category, count, total) per value in order, total the sum over the group |
| ChiSquaredOptimized.MapperThree | chiSquaredReduceOptimized.py:79-87 | one ((category, term), (count, total)) per list element |
| ChiSquaredOptimized.StepTwoGroup | chiSquaredReduceOptimized.py:60-77 | after `mapper_2`, a term's group holds each category in which the term occurs, once, with its document frequency |
| ChiSquaredOptimized.StepThreeCorpus | chiSquaredReduceOptimized.py:69-87 | every record leaving `mapper_3` carries the corpus's (A, N_t) for its pair |
| ChiSquaredOptimized.ReducerThree | chiSquaredReduceOptimized.py:89-104 | one score per incoming value, each under the group's key |
| ChiSquaredOptimized.ReducerThreeScores | chiSquaredReduceOptimized.py:97-104 | each score is that of (N, N_c, N_t, A) with D = N − N_c − B |
| ChiSquaredOptimized.ReducerThreeErrors | chiSquaredReduceOptimized.py:101-103 | a `KeyError` iff a value arrives and the category or "N" is missing from the dict; otherwise a `ZeroDivisionError` iff some value has a zero marginal |
| ChiSquaredOptimized.ReducerThreeBounds | chiSquaredReduceOptimized.py:97-104 | with the dict of the counting job and corpus counts, every score lies in [0, N] |
| ChiSquaredOptimized.StepFourGroups | chiSquaredReduceOptimized.py:106-114 | after `mapper_4`, the None group holds every scored term and a category's group its (term, score) pairs, in order |
| ChiSquaredOptimized.ReducerFourVocabulary | chiSquaredReduceOptimized.py:122-125 | the None branch yields the distinct terms strictly ascending, exactly the terms it received |
| ChiSquaredOptimized.VocabularyOfSet | chiSquaredReduceOptimized.py:123-124 | the vocabulary depends only on the set of terms received |
| ChiSquaredOptimized.ReducerFourTop | chiSquaredReduceOptimized.py:126-129 | the category branch sorts in place, stable by score, and keeps the first 75 |
| Ex1.Tokenizer | src/ex1.py:32-42 | one (category, match) per `findall` match in order, no deduplication; each match is one punctuation character or a run of ASCII letters |
| Ex1.CaseFolder | src/ex1.py:48-49 | category and length are kept, and no A–Z remains |
| Ex1.CaseFolderIdempotent | src/ex1.py:48-49 | folding twice is folding once |
| Ex1.StopwordRemover | src/ex1.py:55-58 | ((category, term), 1) is emitted iff the term has len > 1 and is not a stopword |
| Ex1.ChainOnes | src/ex1.py:121-126 | the three mappers emit ((category, term), 1) for every kept lowercased match |
| Ex1.KeptPairsMembers | src/ex1.py:32-58 | (c, t) is kept iff t passes the filter and is the lowercased form of some match of a review of c |
| Ex1.ReducerCountTerms | src/ex1.py:64-66 | (category, (term, n)) with n the number of ones received |
| Ex1.StepCounts | src/ex1.py:64-66 | (c, t) reaches the reducer iff it was kept, and its count is its number of occurrences: words, not documents |
| Ex1.ReducerChiSquareIntermediate | src/ex1.py:74-87 | the two dict loops equal `IntermediateOut` |
| Ex1.CollectTermCounts | src/ex1.py:78-80 | the first loop's total is the sum of the counts; the dict and its order are those of the assignments |
| Ex1.EmitTallies | src/ex1.py:82-87 | the second loop emits one tally per dict entry, in dict order |
| Ex1.IntermediateTerms | src/ex1.py:82-87 | each distinct term of the group is emitted once |
| Ex1.IntermediateTallies | src/ex1.py:82-87 | every tally has the same total, term_count equals term_category_count, and term_count + not_term_count = total |
| Ex1.IntermediateTotal | src/ex1.py:79 | when the counts are the term occurrences of a category, total_count is the number of its kept words |
| Ex1.CalculateChiSquareTable | src/ex1.py:134-143 | with N = term_count + not_term_count, the score is the shared contingency score, and it raises `ZeroDivisionError` iff a marginal is zero |
| Ex1.ScoreCategories | src/ex1.py:107-110 | the scoring loop equals `FinalScores` over the dict order |
| Ex1.CollectCategoryCounts | src/ex1.py:94-101 | the first loop's sums, dict and dict order, and the loop variable left by the last iteration |
| Ex1.ReducerChiSquareFinal | src/ex1.py:93-110 | the reducer equals `FinalOut` |
| Ex1.FinalScoresCells | src/ex1.py:107-110 | each category's cells are A = its count, B = C = term total − A, D = not-term total − term total + A |
| Ex1.FinalScoresErrors | src/ex1.py:107-110 | scoring fails iff there is a category and the term total or the not-term total is zero, always with `ZeroDivisionError` |
| Ex1.FinalErrors | src/ex1.py:93-110 | an empty group raises `NameError`; otherwise an error iff the term total is zero or the last category's name has length 1, always `ZeroDivisionError` |
| Ex1.FinalDependsOnLastName | src/ex1.py:103-105 | renaming the last category from "cd" to "cde" changes both scores, because the not-term total uses `len(category)` |
| Ex1.ReducerOutput | src/ex1.py:115-118 | at most 75 pairs, non-increasing in score, a sub-multiset, and no dropped pair scores above a kept one |
| Contingency.ChiErrIffZeroMarginal | src/chi_squared.py:69 | the division fails iff one of the four marginals is zero |
| Contingency.ChiBounds | src/chi_squared.py:69 | non-negative cells summing to N give a defined score in [0, N] |
| Contingency.ChiZeroWhenIndependent | src/chi_squared.py:69 | A·D = B·C gives score 0 |
| Contingency.ChiExampleFirst | src/ChiSquared_server.py:100 | the formula gives 3 on the cells (2, 0, 0, 1) with N = 3 |
| Contingency.ChiExampleSecond | src/ChiSquared_server.py:100 | the formula gives 0.75 on the cells (1, 1, 1, 0) with N = 3 |
| Contingency.CellScoreDefined | src/ChiSquared_server.py:96-100 | from (N, N_c, N_t, A), the score is undefined iff N_t or N_c is 0 or N |
| Contingency.CellScoreBounds | src/ChiSquared_server.py:96-100 | counts a corpus can produce give a score in [0, N] |
| Contingency.PerfectAssociation | src/ChiSquared_server.py:95-100 | for 0 < N_c < N, a term in every review of the category and no other scores exactly N, which is positive |
| Contingency.PerfectAssociationMaximal | src/ChiSquared_server.py:95-100 | no corpus counts with the same N and N_c score above a perfectly associated term |
| Common.GroupBy | src/chi_squared.py:74-78 | the shuffle groups exactly the emitted keys, each with its values in emission order |
| Common.GroupByConservesRecords | src/chi_squared.py:74-78 | the shuffle neither drops nor invents records |
| Common.DictOfConsistent | src/chi_squared.py:58 | when every pair with key k carries the value v, the dict maps k to v, however often and in whatever order the pairs occur |
| Common.DictOrder | src/ChiSquared_server.py:80 | dict iteration order is first-insertion order, without repetition, over exactly the keys |
| Common.SumOverDistinct | src/ChiSquared_server.py:78 | with distinct keys, the sum over the dict's values is the sum of the pairs' values |
| Common.SumReducer | chiSquaredReduce.py:25-27 | `sum(counts)` of a group of ones is its size |
| Common.SetToSeq | src/chi_squared.py:35 | `tuple(a_set)` lists each element once, and nothing else |
| Common.Dedup | src/ChiSquared_server.py:51 | iterating `set(tokens)` visits each distinct token once |

## Left out

- mrjob plumbing (`steps`, `MRStep`, `configure_args`, runners, `parse_output`), combiner scheduling and distributed retries. The shuffle is `GroupBy`, and duplicate delivery is a repeated input record.
- JSON decoding (`json.loads`, src/parse_json.py) is not modelled. Inputs are (id, category, text) values, and a field read with `.get(name, '')` is an `Option`.
- Ex1.Tokenizer and ChiSquaredServer.MapperPreprocessing: a `KeyError` from a missing `reviewText` or `category` field (src/ex1.py:35-36, src/ChiSquared_server.py:44-45) is not modelled, because it is part of JSON decoding; both fields are taken as given.
- Loading the stopword file is left out; the stopword set is a parameter. So is `readlines()` keeping newlines at src/pre_processer.py:14.
- Output formatting is left out: the `', '.join` and `' '.join(f"{x}:{y}")` strings at chiSquaredReduceOptimized.py:125,129 and src/ex1.py:118, and runner.py / src/runner.py. Reducers return the values that would be joined.
- The module-level globals `stopwords` and `category_counts` of chiSquaredReduceOptimized.py are parameters of the functions that read them.
- IEEE floating point is left out. Scores are exact reals, so neither float rounding nor ties that only rounding creates are modelled.
- Tokens.FindAll: `\b` in `re.findall(r'\b[A-Za-z]+\b|[...]')` needs Python's set of word characters (`str.isalnum()` or `_`) over all of Unicode. The model has it exactly below U+0100. From U+0100 up it treats every character as a word character unless it lies in a listed block of punctuation and symbols (general punctuation, currency, arrows and operators, box drawing to dingbats, CJK punctuation, full-width punctuation, emoji). So a letter run next to any other non-alphanumeric character above U+00FF, such as the Greek question mark U+037E or the Arabic comma U+060C, is not matched, while Python matches it. Next to a digit or letter above U+00FF that is outside those blocks, the model agrees with Python.
- Tokens.Lower: `str.lower()` is modelled on ASCII A–Z only; other characters are left unchanged.
- Iterating a Python `set` (src/ChiSquared_server.py:51, src/chiSquaredReduce.py:32, chiSquaredReduceOptimized.py:48) is modelled in first-occurrence order. Set iteration order is an implementation detail, and every property proved is about the set's contents or is stated up to order.
- Common.SetToSeq and ChiSquared.ReducerCount pick set elements in an unspecified order, as CPython does; their contracts state contents and distinctness, not order.
- The `category is None` branch of src/chiSquaredReduce.py:63-65 is not modelled. No step of that job emits a `None` category, because a missing category defaults to `''`.
- The `[None, None]` list-versus-tuple comparison at src/chi_squared.py:20 is modelled as "the key is the all-marginal key".
- Ex1.IntermediateTotal takes the group's counts as a hypothesis about one category; it is not derived from the shuffle of the whole corpus.
- The passage from step 3 to step 4 of chiSquaredReduceOptimized.py is stated per group (ChiSquaredOptimized.ReducerThree, ChiSquaredOptimized.StepFourGroups), not as one end-to-end composition.
- Ex1.FinalErrors and Ex1.ReducerChiSquareFinal model the `not_term_total_count` line of src/ex1.py:103-105 as written, `len(category)` of the leftover loop variable included; the code's own comment marks it as probably wrong, and no corrected version is modelled.
- The `subtask` base class is not part of this model.
