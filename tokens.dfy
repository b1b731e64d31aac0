/** Text normalisation shared by the pipeline variants: `re.split` on the delimiter
    class `[^a-zA-Z<>^|]+`, ASCII case folding, the length/stopword filter, and an
    approximation of the `re.findall` word pattern. */
module Tokens {
  import opened Common

  /** Characters NOT matched by `[^a-zA-Z<>^|]`, that is the characters a piece keeps. */
  predicate IsKept(ch: char)
  {
    ('a' <= ch <= 'z') || ('A' <= ch <= 'Z') || ch == '<' || ch == '>' || ch == '^' || ch == '|'
  }

  /** Drops the delimiters at the front of `s`. */
  function SkipDelimiters(s: string): (r: string)
    ensures |r| <= |s| && r == s[|s| - |r|..]
    ensures r == [] || IsKept(r[0])
    ensures forall i :: 0 <= i < |s| - |r| ==> !IsKept(s[i])
  {
    if s != [] && !IsKept(s[0]) then
      var r := SkipDelimiters(s[1..]);
      assert s[1..][|s| - 1 - |r|..] == s[|s| - |r|..];
      assert forall i :: 1 <= i < |s| - |r| ==> s[i] == s[1..][i - 1];
      r
    else s
  }

  /** `re.split('[^a-zA-Z<>^|]+', s)`: the pieces between maximal delimiter runs. */
  function Split(s: string): (pieces: seq<string>)
    ensures |pieces| >= 1
    decreases |s|
  {
    if s == [] then [""]
    else if IsKept(s[0]) then
      var rest := Split(s[1..]);
      [[s[0]] + rest[0]] + rest[1..]
    else
      [""] + Split(SkipDelimiters(s[1..]))
  }

  /** The kept characters of `s`, in order. */
  function KeptChars(s: string): string
  {
    if s == [] then [] else (if IsKept(s[0]) then [s[0]] else []) + KeptChars(s[1..])
  }

  function Concat(pieces: seq<string>): string
  {
    if pieces == [] then [] else pieces[0] + Concat(pieces[1..])
  }

  /** Number of maximal delimiter runs in `s`, counted at the first delimiter of
      each run; `afterKept` says whether the character before `s` was kept (or
      whether `s` is at the start of the text). */
  function RunsFrom(s: string, afterKept: bool): nat
  {
    if s == [] then 0
    else (if !IsKept(s[0]) && afterKept then 1 else 0) + RunsFrom(s[1..], IsKept(s[0]))
  }

  function DelimiterRuns(s: string): nat
  {
    RunsFrom(s, true)
  }

  lemma {:induction false} KeptCharsOfDelimiters(s: string)
    ensures KeptChars(s) == KeptChars(SkipDelimiters(s))
    decreases |s|
  {
    if s != [] && !IsKept(s[0]) {
      KeptCharsOfDelimiters(s[1..]);
    }
  }

  /** Splitting loses exactly the delimiters: the pieces put back together are the
      kept characters of the text. */
  lemma {:induction false} SplitConcat(s: string)
    ensures Concat(Split(s)) == KeptChars(s)
    decreases |s|
  {
    if s == [] {
    } else if IsKept(s[0]) {
      var rest := Split(s[1..]);
      var p := Split(s);
      SplitConcat(s[1..]);
      assert p[0] == [s[0]] + rest[0] && p[1..] == rest[1..];
      assert Concat(p) == ([s[0]] + rest[0]) + Concat(rest[1..]);
      assert KeptChars(s) == [s[0]] + KeptChars(s[1..]);
    } else {
      KeptCharsOfDelimiters(s[1..]);
      SplitConcat(SkipDelimiters(s[1..]));
    }
  }

  /** No piece contains a delimiter character. */
  lemma {:induction false} SplitPiecesKept(s: string)
    ensures forall i, j :: 0 <= i < |Split(s)| && 0 <= j < |Split(s)[i]| ==> IsKept(Split(s)[i][j])
    decreases |s|
  {
    if s != [] {
      if IsKept(s[0]) {
        SplitPiecesKept(s[1..]);
        var rest := Split(s[1..]);
        assert forall j :: 0 <= j < |rest[0]| ==> IsKept(rest[0][j]);
        assert forall i :: 1 <= i < |rest| ==> Split(s)[i] == rest[i];
      } else {
        SplitPiecesKept(SkipDelimiters(s[1..]));
      }
    }
  }

  lemma {:induction false} RunsAfterDelimiters(s: string)
    ensures RunsFrom(s, false) == RunsFrom(SkipDelimiters(s), true)
    decreases |s|
  {
    if s != [] && !IsKept(s[0]) {
      RunsAfterDelimiters(s[1..]);
    }
  }

  /** `re.split` returns one piece more than there are maximal delimiter runs. */
  lemma {:induction false} SplitCount(s: string)
    ensures |Split(s)| == DelimiterRuns(s) + 1
    decreases |s|
  {
    if s != [] {
      if IsKept(s[0]) {
        SplitCount(s[1..]);
      } else {
        RunsAfterDelimiters(s[1..]);
        SplitCount(SkipDelimiters(s[1..]));
      }
    }
  }

  /** Empty pieces occur only at the ends: the first piece is empty exactly when the
      text is empty or starts with a delimiter, and every inner piece is non-empty. */
  lemma SplitEmptyPieces(s: string)
    ensures Split(s)[0] == "" <==> s == [] || !IsKept(s[0])
    ensures forall i :: 0 < i < |Split(s)| - 1 ==> Split(s)[i] != ""
  {
    SplitFirstPiece(s);
    SplitInnerPieces(s);
  }

  lemma SplitFirstPiece(s: string)
    ensures Split(s)[0] == "" <==> s == [] || !IsKept(s[0])
  {
    if s != [] && IsKept(s[0]) {
      assert Split(s)[0] == [s[0]] + Split(s[1..])[0];
    }
  }

  lemma {:induction false} SplitInnerPieces(s: string)
    ensures forall i :: 0 < i < |Split(s)| - 1 ==> Split(s)[i] != ""
    decreases |s|
  {
    if s != [] {
      if IsKept(s[0]) {
        SplitInnerPieces(s[1..]);
        var rest := Split(s[1..]);
        assert forall i :: 1 <= i < |rest| ==> Split(s)[i] == rest[i];
      } else {
        var t := SkipDelimiters(s[1..]);
        SplitInnerPieces(t);
        SplitFirstPiece(t);
        assert forall i :: 1 <= i < |Split(s)| ==> Split(s)[i] == Split(t)[i - 1];
      }
    }
  }

  /** Python's `str.lower()` on the characters a piece can hold (ASCII). */
  function LowerChar(ch: char): char
  {
    if 'A' <= ch <= 'Z' then (ch as int + 32) as char else ch
  }

  function Lower(s: string): (r: string)
    ensures |r| == |s|
  {
    if s == [] then [] else [LowerChar(s[0])] + Lower(s[1..])
  }

  /** Case folding keeps the length, lowers A-Z and leaves every other character. */
  lemma {:induction false} LowerPointwise(s: string)
    ensures forall i :: 0 <= i < |s| ==> Lower(s)[i] == LowerChar(s[i])
    ensures forall i :: 0 <= i < |s| ==> !('A' <= Lower(s)[i] <= 'Z')
    ensures forall i :: 0 <= i < |s| && 'A' <= s[i] <= 'Z' ==> Lower(s)[i] as int == s[i] as int + 32
    decreases |s|
  {
    if s != [] {
      LowerPointwise(s[1..]);
      assert forall i :: 1 <= i < |s| ==> Lower(s)[i] == Lower(s[1..])[i - 1];
    }
  }

  /** Case folding is idempotent. */
  lemma {:induction false} LowerIdempotent(s: string)
    ensures Lower(Lower(s)) == Lower(s)
    decreases |s|
  {
    if s != [] {
      LowerIdempotent(s[1..]);
    }
  }

  lemma {:induction false} LowerKeepsKept(s: string)
    ensures forall i :: 0 <= i < |s| ==> (IsKept(Lower(s)[i]) <==> IsKept(s[i]))
  {
    LowerPointwise(s);
  }

  /** The filter every variant applies to a folded token: longer than one
      character and not a stopword. */
  predicate IsTerm(token: string, stopwords: set<string>)
  {
    |token| > 1 && token !in stopwords
  }

  /** Whitespace as `str.strip()` removes it, on ASCII. */
  predicate IsSpace(ch: char)
  {
    ch == ' ' || ch == '\t' || ch == '\n' || ch == '\r' || ch == '\U{B}' || ch == '\U{C}'
  }

  /** `word.strip() != ''`: the word holds a non-whitespace character. */
  predicate NotBlank(word: string)
  {
    exists i :: 0 <= i < |word| && !IsSpace(word[i])
  }

  /** On split pieces the `strip() != ''` test adds nothing to `len(word) > 1`. */
  lemma PieceNotBlank(word: string)
    requires forall j :: 0 <= j < |word| ==> IsKept(word[j])
    requires |word| > 1
    ensures NotBlank(word)
  {
    assert !IsSpace(word[0]);
  }

  // ---------------------------------------------------------------------------
  // The word pattern `\b[A-Za-z]+\b|[(){}\[\].!?,;:+=\-_"'`~#@&*%€$§\\/]` of
  // `re.findall`. `\b` stands between a word character (`str.isalnum()` or `_`)
  // and a non-word character. Below U+0100 the model's word characters are
  // exactly Python's; from U+0100 up, a character is a word character unless it
  // lies in one of the punctuation and symbol blocks of `NonWordBlock`.

  predicate IsAsciiLetter(ch: char)
  {
    ('a' <= ch <= 'z') || ('A' <= ch <= 'Z')
  }

  /** The alphanumerics of Latin-1 Supplement: ª ² ³ µ ¹ º ¼ ½ ¾ and the
      letters À–ÿ other than × and ÷. */
  predicate IsLatin1Alnum(ch: char)
  {
    var n := ch as int;
    n == 0xAA || n == 0xB2 || n == 0xB3 || n == 0xB5 || n == 0xB9 || n == 0xBA ||
    (0xBC <= n <= 0xBE) || (0xC0 <= n <= 0xFF && n != 0xD7 && n != 0xF7)
  }

  /** Blocks from U+0100 up that hold no alphanumeric character: combining
      diacritics, general punctuation (dashes, curly quotes, …), currency
      signs, arrows and operators, box drawing to dingbats (without the
      circled digits ❶–➓), CJK punctuation, variation selectors, small and
      full-width punctuation, and the emoji planes (without 🄀–🄌). */
  predicate NonWordBlock(ch: char)
  {
    var n := ch as int;
    (0x300 <= n <= 0x36F) || (0x2000 <= n <= 0x206F) || (0x20A0 <= n <= 0x20CF) ||
    (0x2190 <= n <= 0x23FF) || (0x2500 <= n <= 0x2775) || (0x2794 <= n <= 0x2BFF) ||
    (0x3000 <= n <= 0x3004) || (0x3008 <= n <= 0x3020) || (0xFE00 <= n <= 0xFE0F) ||
    (0xFE30 <= n <= 0xFE4F) || (0xFF01 <= n <= 0xFF0F) ||
    (0x1F000 <= n <= 0x1F0FF) || (0x1F10D <= n <= 0x1FAFF)
  }

  predicate IsWordChar(ch: char)
  {
    IsAsciiLetter(ch) || ('0' <= ch <= '9') || ch == '_' || IsLatin1Alnum(ch) ||
    (ch as int >= 0x100 && !NonWordBlock(ch))
  }

  /** The single-character alternative of the pattern. */
  predicate IsPunct(ch: char)
  {
    ch in "(){}[].!?,;:+=-_\"'`~#@&*%€$§\\/"
  }

  /** The end of the run of ASCII letters that starts at `i`. */
  function LetterRunEnd(s: string, i: nat): (j: nat)
    requires i <= |s|
    ensures i <= j <= |s|
    ensures forall m :: i <= m < j ==> IsAsciiLetter(s[m])
    ensures j == |s| || !IsAsciiLetter(s[j])
    decreases |s| - i
  {
    if i < |s| && IsAsciiLetter(s[i]) then LetterRunEnd(s, i + 1) else i
  }

  /** Every match of the pattern at or after position `i`, left to right. */
  function FindAllFrom(s: string, i: nat): seq<string>
    requires i <= |s|
    decreases |s| - i
  {
    if i == |s| then []
    else if IsAsciiLetter(s[i]) then
      var j := LetterRunEnd(s, i);
      if (i == 0 || !IsWordChar(s[i - 1])) && (j == |s| || !IsWordChar(s[j])) then
        [s[i..j]] + FindAllFrom(s, j)
      else
        FindAllFrom(s, j)
    else if IsPunct(s[i]) then [[s[i]]] + FindAllFrom(s, i + 1)
    else FindAllFrom(s, i + 1)
  }

  function FindAll(s: string): seq<string>
  {
    FindAllFrom(s, 0)
  }

  /** Curly quotes are not word characters, so the word between them matches. */
  lemma FindAllCurlyQuotes()
    ensures FindAll("\U{201c}great\U{201d}") == ["great"]
  {
    var s := "\U{201c}great\U{201d}";
    assert !IsPunct(s[0]) && !IsPunct(s[6]) && !IsWordChar(s[0]) && !IsWordChar(s[6]);
    assert FindAllFrom(s, 7) == [];
    assert FindAllFrom(s, 6) == [];
    assert LetterRunEnd(s, 1) == 6 by {
      assert LetterRunEnd(s, 6) == 6;
    }
    assert s[1..6] == "great";
    assert FindAllFrom(s, 1) == ["great"];
  }

  /** A typographic apostrophe splits a word as a non-word character does. */
  lemma FindAllApostrophe()
    ensures FindAll("don\U{2019}t") == ["don", "t"]
  {
    var s := "don\U{2019}t";
    assert !IsPunct(s[3]) && !IsWordChar(s[3]);
    assert FindAllFrom(s, 5) == [];
    assert LetterRunEnd(s, 4) == 5 by {
      assert LetterRunEnd(s, 5) == 5;
    }
    assert s[4..5] == "t";
    assert FindAllFrom(s, 4) == ["t"];
    assert FindAllFrom(s, 3) == ["t"];
    assert LetterRunEnd(s, 0) == 3 by {
      assert LetterRunEnd(s, 3) == 3;
      assert LetterRunEnd(s, 2) == 3;
      assert LetterRunEnd(s, 1) == 3;
    }
    assert s[0..3] == "don";
  }

  /** An accented letter is a word character, so no `\b` lies inside "café" and
      its ASCII prefix does not match. */
  lemma FindAllAccented()
    ensures FindAll("caf\U{e9}") == []
  {
    var s := "caf\U{e9}";
    assert !IsPunct(s[3]) && !IsAsciiLetter(s[3]) && IsWordChar(s[3]);
    assert FindAllFrom(s, 4) == [];
    assert FindAllFrom(s, 3) == [];
    assert LetterRunEnd(s, 0) == 3 by {
      assert LetterRunEnd(s, 3) == 3;
      assert LetterRunEnd(s, 2) == 3;
      assert LetterRunEnd(s, 1) == 3;
    }
  }

  /** Every match is a single symbol of the pattern or a non-empty run of ASCII
      letters that no other word character touches. */
  lemma {:induction false} FindAllShape(s: string, i: nat)
    requires i <= |s|
    ensures forall m :: 0 <= m < |FindAllFrom(s, i)| ==>
      var t := FindAllFrom(s, i)[m];
      (|t| == 1 && IsPunct(t[0])) ||
      (|t| >= 1 && forall q :: 0 <= q < |t| ==> IsAsciiLetter(t[q]))
    decreases |s| - i
  {
    if i < |s| {
      if IsAsciiLetter(s[i]) {
        var j := LetterRunEnd(s, i);
        FindAllShape(s, j);
      } else {
        FindAllShape(s, i + 1);
      }
    }
  }
  // ---------------------------------------------------------------------------
  // Per-review term lists of the document-frequency variants

  /** `[w for w in words if w not in stopwords and len(w) > 1]`, in order. */
  function FilterTerms(words: seq<string>, stopwords: set<string>): (r: seq<string>)
    ensures forall w :: w in r <==> w in words && IsTerm(w, stopwords)
    ensures NoDup(words) ==> NoDup(r)
  {
    if words == [] then []
    else
      var p := words[..|words| - 1];
      var w := words[|words| - 1];
      assert words == p + [w];
      FilterTerms(p, stopwords) + (if IsTerm(w, stopwords) then [w] else [])
  }

  /** The filter of `src/chiSquaredReduce.py` and `chiSquaredReduceOptimized.py`:
      not a stopword, `strip()` not empty, and longer than one character. */
  predicate KeepWord(w: string, stopwords: set<string>)
  {
    w !in stopwords && NotBlank(w) && |w| > 1
  }

  function FilterKept(words: seq<string>, stopwords: set<string>): (r: seq<string>)
    ensures forall w :: w in r <==> w in words && KeepWord(w, stopwords)
  {
    if words == [] then []
    else
      var p := words[..|words| - 1];
      var w := words[|words| - 1];
      assert words == p + [w];
      FilterKept(p, stopwords) + (if KeepWord(w, stopwords) then [w] else [])
  }

  /** `set([w for w in re.split('[^a-zA-Z<>^|]+', text.lower()) if ...])`, listed
      in order of first occurrence. */
  function SplitTerms(text: string, stopwords: set<string>): (r: seq<string>)
    ensures NoDup(r)
  {
    Dedup(FilterKept(Split(Lower(text)), stopwords))
  }

  /** The terms of a review are exactly the distinct lower-cased pieces that are
      longer than one character and not stopwords: on pieces the blank test adds
      nothing. */
  lemma SplitTermsMembers(text: string, stopwords: set<string>, w: string)
    ensures w in SplitTerms(text, stopwords) <==> w in Split(Lower(text)) && IsTerm(w, stopwords)
  {
    var pieces := Split(Lower(text));
    DedupMembers(FilterKept(pieces, stopwords), w);
    if w in pieces && IsTerm(w, stopwords) {
      var i :| 0 <= i < |pieces| && pieces[i] == w;
      SplitPiecesKept(Lower(text));
      assert forall j :: 0 <= j < |w| ==> IsKept(w[j]);
      PieceNotBlank(w);
    }
  }

  /** `[t for t in set(re.findall(..., text.lower())) if t not in stopwords and
      len(t) > 1]`, listed in order of first occurrence. */
  function FindTerms(text: string, stopwords: set<string>): (r: seq<string>)
    ensures NoDup(r)
    ensures forall w :: w in r <==> w in FindAll(Lower(text)) && IsTerm(w, stopwords)
  {
    var tokens := FindAll(Lower(text));
    forall w ensures w in Dedup(tokens) <==> w in tokens {
      DedupMembers(tokens, w);
    }
    FilterTerms(Dedup(tokens), stopwords)
  }

  /** A term found by the pattern is a run of at least two ASCII letters: the
      single symbols are too short to pass the filter. */
  lemma FindTermsLetters(text: string, stopwords: set<string>, w: string)
    requires w in FindTerms(text, stopwords)
    ensures |w| > 1 && forall q :: 0 <= q < |w| ==> IsAsciiLetter(w[q])
  {
    FindAllShape(Lower(text), 0);
  }
}
