/**
 * LuceneWrapper: the process-wide stop-word set, initialised once, and
 * `tokenize`, which collects the terms of an external analyzer's token stream
 * into a set.
 */
module Tokenizer {
  import opened Lang
  import opened Strings

  /** Lucene's English stop-word list (EnglishAnalyzer.ENGLISH_STOP_WORDS_SET). */
  const EnglishStopWords: set<string> := {
    "a", "an", "and", "are", "as", "at", "be", "but", "by", "for", "if", "in",
    "into", "is", "it", "no", "not", "of", "on", "or", "such", "that", "the",
    "their", "then", "there", "these", "they", "this", "to", "was", "will", "with"
  }

  /** What a case-insensitive CharArraySet stores for `words`: each one lower-cased. */
  function Folded(words: set<string>): set<string> {
    set w | w in words :: Lower(w)
  }

  /**
   * The stop words after a first initialisation: the English list, plus the
   * lines of the stop-words file when one is given and could be read
   * (`fileLines` is None when reading it fails).
   */
  function InitialStopWords(stopwordsFile: Nullable<File>, fileLines: Option<seq<string>>): (r: set<string>)
    ensures forall w :: w in EnglishStopWords ==> Lower(w) in r
    ensures stopwordsFile.Null? || fileLines.None? ==> r == Folded(EnglishStopWords)
    ensures stopwordsFile.NonNull? && fileLines.Some? ==>
      forall k :: 0 <= k < |fileLines.value| ==> Lower(fileLines.value[k]) in r
    ensures forall w :: w in r ==> w == Lower(w)
  {
    var base := Folded(EnglishStopWords);
    var r := if stopwordsFile.Null? || fileLines.None? then base
             else base + Folded(set k | 0 <= k < |fileLines.value| :: fileLines.value[k]);
    assert forall w :: w in r ==> w == Lower(w) by {
      forall w | w in r ensures w == Lower(w) {
        var v :| Lower(v) == w;
        LowerIdempotent(v);
      }
    }
    r
  }

  /** The static `stopWords` field of LuceneWrapper. */
  class StopWordRegistry {
    /** None while the static field is still null. */
    var stopWords: Option<set<string>>

    constructor ()
      ensures stopWords.None?
    {
      stopWords := None;
    }

    /** Membership in the case-insensitive set. */
    predicate IsStopWord(w: string)
      reads this
      requires stopWords.Some?
    {
      Lower(w) in stopWords.value
    }

    /**
     * initializeStopWords: refused once the set exists. Otherwise the set is
     * created with the English list before the file is read, so a read
     * failure still leaves it initialised and every later call refused.
     */
    method InitializeStopWords(stopwordsFile: Nullable<File>, fileLines: Option<seq<string>>)
      returns (o: Outcome)
      modifies this
      ensures old(stopWords).Some? ==> o == Fail(StopWordsAlreadyInitialized) && stopWords == old(stopWords)
      ensures old(stopWords).None? ==> (o.Fail? <==> stopwordsFile.NonNull? && fileLines.None?)
      ensures old(stopWords).None? && o.Fail? ==> o.error == UnreadableStopWords
      ensures old(stopWords).None? ==> stopWords == Some(InitialStopWords(stopwordsFile, fileLines))
      ensures old(stopWords).None? ==> stopWords.Some? && forall w :: w in EnglishStopWords ==> IsStopWord(w)
    {
      if stopWords.Some? {
        return Fail(StopWordsAlreadyInitialized);
      }
      stopWords := Some(Folded(EnglishStopWords));
      if stopwordsFile.NonNull? {
        if fileLines.None? {
          return Fail(UnreadableStopWords);
        }
        var lines := fileLines.value;
        stopWords := Some(stopWords.value + Folded(set k | 0 <= k < |lines| :: lines[k]));
      }
      o := Pass;
    }
  }

  /** The initialised set holds nothing but lower-cased English stop words and file lines. */
  lemma InitialStopWordsOnly(stopwordsFile: Nullable<File>, fileLines: Option<seq<string>>, w: string)
    requires w in InitialStopWords(stopwordsFile, fileLines)
    ensures exists v ::
      && (v in EnglishStopWords || (stopwordsFile.NonNull? && fileLines.Some? && v in fileLines.value))
      && w == Lower(v)
  {
  }

  /**
   * A word of the English list or of a readable stop-words file is a stop
   * word after initialisation in every ASCII letter case.
   */
  lemma StopWordInAnyCase(stopwordsFile: Nullable<File>, fileLines: Option<seq<string>>, w: string, v: string)
    requires w in EnglishStopWords || (stopwordsFile.NonNull? && fileLines.Some? && w in fileLines.value)
    requires Lower(v) == Lower(w)
    ensures Lower(v) in InitialStopWords(stopwordsFile, fileLines)
  {
  }

  /**
   * tokenize: refuses a null file and blank text; otherwise the set of the
   * terms the analyzer's stream yields. `stream` is that stream, up to an I/O
   * error if one happens: the error is only logged, and the terms read before
   * it are returned.
   */
  method Tokenize(sourceFile: Nullable<File>, rawText: JString, stream: seq<string>)
    returns (r: Result<set<string>>)
    ensures sourceFile.Null? ==> r == Err(NullSourceFile)
    ensures sourceFile.NonNull? && IsBlank(rawText) ==> r == Err(BlankText)
    ensures r.Ok? <==> sourceFile.NonNull? && !IsBlank(rawText)
    ensures r.Ok? ==> forall t :: t in r.value <==> t in stream
  {
    if sourceFile.Null? {
      return Err(NullSourceFile);
    }
    if IsBlank(rawText) {
      return Err(BlankText);
    }
    var result: set<string> := {};
    var i := 0;
    while i < |stream|
      invariant 0 <= i <= |stream|
      invariant forall t :: t in result <==> t in stream[..i]
    {
      result := result + {stream[i]};
      i := i + 1;
    }
    assert stream[..i] == stream;
    return Ok(result);
  }
}
