/**
 * WorkerFactory and its workers. A factory is made for one index type: the
 * Lucene factory's workers build each entry and then drop it, the JSON (lunr)
 * factory's workers hand it to the shared output writer, which the factory
 * closes. Building a factory initialises the shared stop words first.
 */
module Workers {
  import opened Lang
  import opened Strings
  import opened Entries
  import opened Extraction
  import opened Tokenizer

  datatype IndexType = Lucene | Lunr

  /** The command-line arguments a factory reads. */
  datatype IndexerArgs = IndexerArgs(indexType: IndexType, stopwordsFile: Nullable<File>, minTokenLength: int)

  /**
   * The shared, synchronized output writer of the JSON index. Its encoding
   * and file handling are not part of this model: it records the entries it
   * is given and whether it has been closed. Whether a write fails is an
   * input; a failed write records nothing.
   */
  class OutputWriter {
    var written: seq<IndexEntry>
    var closed: bool

    constructor ()
      ensures written == [] && !closed
    {
      written, closed := [], false;
    }

    method Write(entry: IndexEntry, ioError: bool) returns (o: Outcome)
      modifies this
      ensures closed == old(closed)
      ensures ioError ==> o == Fail(WriteFailed) && written == old(written)
      ensures !ioError ==> o == Pass && written == old(written) + [entry]
    {
      if ioError {
        return Fail(WriteFailed);
      }
      written := written + [entry];
      o := Pass;
    }

    method Close()
      modifies this
      ensures closed && written == old(written)
    {
      closed := true;
    }
  }

  /** Whether `s` is ".pdf" in any mix of ASCII letter case, as `(?i)\.pdf` matches. */
  predicate IsPdfExtension(s: string) {
    Lower(s) == ".pdf"
  }

  /**
   * How many characters at the end of `s` form the line terminator that `$`
   * may match before: "\r\n" counts as one terminator, a lone "\n" after a
   * "\r" does not end a line on its own.
   */
  function FinalTerminator(s: string): (n: nat)
    ensures n <= 2 && n <= |s|
    ensures n == 0 <==> s == [] || !IsLineTerminator(s[|s| - 1])
    ensures n == 2 <==> |s| >= 2 && s[|s| - 2] == '\r' && s[|s| - 1] == '\n'
    ensures forall k :: |s| - n <= k < |s| ==> IsLineTerminator(s[k])
  {
    if |s| >= 2 && s[|s| - 2] == '\r' && s[|s| - 1] == '\n' then 2
    else if |s| >= 1 && IsLineTerminator(s[|s| - 1]) then 1
    else 0
  }

  /**
   * The audio file name derived from a source file name by replacing a
   * ".pdf" extension, in any ASCII letter case, with ".mp3". As with
   * java.util.regex's `$`, the extension may also sit just before a final
   * line terminator, which is kept.
   */
  function AudioName(name: string): (r: string)
    ensures |r| == |name|
  {
    var t := FinalTerminator(name);
    var body := name[..|name| - t];
    if |body| >= 4 && IsPdfExtension(body[|body| - 4..]) then
      body[..|body| - 4] + ".mp3" + name[|body|..]
    else
      name
  }

  predicate EndsWithPdf(name: string) {
    |name| >= 4 && IsPdfExtension(name[|name| - 4..])
  }

  /** On a name without line terminators: the extension is replaced iff it is ".pdf". */
  lemma AudioNameSingleLine(name: string)
    requires !HasLineTerminator(name)
    ensures EndsWithPdf(name) ==> AudioName(name) == name[..|name| - 4] + ".mp3"
    ensures !EndsWithPdf(name) ==> AudioName(name) == name
  {
    if |name| > 0 {
      assert !IsLineTerminator(name[|name| - 1]);
    }
    assert name[..|name|] == name;
  }

  /** The derived name keeps everything but the extension, which becomes ".mp3". */
  lemma AudioNameKeepsStem(name: string)
    requires EndsWithPdf(name) && !HasLineTerminator(name)
    ensures AudioName(name)[..|name| - 4] == name[..|name| - 4]
    ensures AudioName(name)[|name| - 4..] == ".mp3"
  {
    AudioNameSingleLine(name);
  }

  /** Deriving the audio name twice changes nothing more: ".mp3" is not ".pdf". */
  lemma AudioNameIdempotent(name: string)
    ensures AudioName(AudioName(name)) == AudioName(name)
  {
    var t := FinalTerminator(name);
    var body := name[..|name| - t];
    if |body| >= 4 && IsPdfExtension(body[|body| - 4..]) {
      var r := AudioName(name);
      var tail := name[|body|..];
      assert r == body[..|body| - 4] + ".mp3" + tail;
      assert r[|body| - 1] == '3';
      if t == 0 {
        assert FinalTerminator(r) == 0;
      } else if t == 1 {
        assert r[|r| - 1] == name[|name| - 1] && r[|r| - 2] == '3';
        assert FinalTerminator(r) == 1;
      } else {
        assert r[|r| - 2] == name[|name| - 2] && r[|r| - 1] == name[|name| - 1];
        assert FinalTerminator(r) == 2;
      }
      assert r[..|r| - t][|body| - 4..] == ".mp3";
      assert Lower(".mp3") != ".pdf" by {
        assert Lower(".mp3")[1] == 'm';
      }
    }
  }

  /** The example name of the metadata documents. */
  lemma AudioNameExample(name: string)
    requires name == "1John01.pdf"
    ensures AudioName(name) == "1John01.mp3"
  {
    assert !HasLineTerminator(name);
    assert Lower(name[|name| - 4..]) == ".pdf";
    AudioNameSingleLine(name);
  }

  /** An upper-case extension is replaced too. */
  lemma AudioNameUpperCase(name: string)
    requires name == "1John01.PDF"
    ensures AudioName(name) == "1John01.mp3"
  {
    assert !HasLineTerminator(name);
    assert Lower(name[|name| - 4..]) == ".pdf";
    AudioNameSingleLine(name);
  }

  /**
   * The entry a worker builds from its source file name and extraction:
   * audio from the name, pdf the name itself, keywords the token string and
   * rawText the extracted text. Date, title and passage are never set.
   */
  function WorkerEntry(name: string, keywords: string, text: string): (e: Entry)
    ensures !HasLineTerminator(name) && EndsWithPdf(name) ==> e.audio == NonNull(name[..|name| - 4] + ".mp3")
    ensures !HasLineTerminator(name) && !EndsWithPdf(name) ==> e.audio == NonNull(name)
    ensures e.audio.NonNull? && |e.audio.value| == |e.pdf|
  {
    var audio := AudioName(name);
    assert !HasLineTerminator(name) ==>
      audio == if EndsWithPdf(name) then name[..|name| - 4] + ".mp3" else name by {
      if !HasLineTerminator(name) {
        AudioNameSingleLine(name);
      }
    }
    Entry(name, NonNull(AudioName(name)), NonNull(keywords), NonNull(text), Null, Null, Null)
  }

  /**
   * A worker for one source file. The extraction (text extraction, and for
   * the JSON index tokenizing as well) is done outside this model and handed
   * to Run.
   */
  class Worker {
    const sourceFile: File
    const kind: IndexType
    /** The factory's output writer for the JSON index; null for Lucene. */
    const writer: OutputWriter?

    ghost predicate Valid()
      reads this
    {
      (kind == Lunr) == (writer != null)
    }

    constructor (sourceFile: File, kind: IndexType, writer: OutputWriter?)
      requires (kind == Lunr) == (writer != null)
      ensures Valid()
      ensures this.sourceFile == sourceFile && this.kind == kind && this.writer == writer
    {
      this.sourceFile := sourceFile;
      this.kind := kind;
      this.writer := writer;
    }

    /**
     * processIndexEntry: the JSON worker writes the entry, which fails when
     * the writer does (`ioError`); the Lucene worker drops it.
     */
    method ProcessIndexEntry(entry: IndexEntry, ioError: bool) returns (o: Outcome)
      requires Valid()
      modifies writer
      ensures kind == Lucene ==> o == Pass
      ensures kind == Lunr ==> (o.Fail? <==> ioError) && (o.Fail? ==> o.error == WriteFailed)
      ensures writer != null && o.Pass? ==> writer.written == old(writer.written) + [entry]
      ensures writer != null && o.Fail? ==> writer.written == old(writer.written)
      ensures writer != null ==> writer.closed == old(writer.closed)
    {
      if kind == Lunr {
        o := writer.Write(entry, ioError);
      } else {
        o := Pass;
      }
    }

    /**
     * run: `extraction` is what `extract()` gave: an exception (Err), an
     * empty Optional (Ok(None)), or a result. Without a result nothing
     * happens; with one, the entry is built and processed. A blank file name
     * makes the build fail, and a failing write (`ioError`) the processing.
     * Any failure ends the run. The entry is not passed through the metadata
     * enhancer.
     */
    method Run(extraction: Result<Option<ExtractResult>>, ioError: bool) returns (o: Outcome)
      requires Valid()
      modifies writer
      ensures writer != null ==> writer.closed == old(writer.closed)
      ensures extraction.Err? ==> o == Fail(extraction.error)
      ensures extraction == Ok(None) ==> o == Pass
      ensures extraction.Ok? && extraction.value.Some? && IsBlank(NonNull(sourceFile.name)) ==> o == Fail(BlankPdf)
      ensures extraction.Ok? && extraction.value.Some? && !IsBlank(NonNull(sourceFile.name)) ==>
        o == if kind == Lunr && ioError then Fail(WriteFailed) else Pass
      ensures writer != null && (o.Fail? || extraction.Err? || extraction.value.None?) ==>
        writer.written == old(writer.written)
      ensures o.Pass? && extraction.Ok? && extraction.value.Some? && writer != null ==>
        writer.written == old(writer.written)
          + [WorkerEntry(sourceFile.name, extraction.value.value.TokenString(), extraction.value.value.text)]
    {
      if extraction.Err? {
        return Fail(extraction.error);
      }
      if extraction.value.None? {
        return Pass;
      }
      var x := extraction.value.value;
      var name := sourceFile.name;
      var b := new Builder();
      b := b.Audio(NonNull(AudioName(name)));
      b := b.Pdf(NonNull(name));
      b := b.Keywords(NonNull(x.TokenString()));
      b := b.RawText(NonNull(x.text));
      var built := b.Build();
      if built.Err? {
        return Fail(built.error);
      }
      o := ProcessIndexEntry(built.value, ioError);
    }
  }

  class WorkerFactory {
    const args: IndexerArgs
    const kind: IndexType
    /** LunrWorkerFactory's writer; null in a Lucene factory. */
    const lunrWriter: OutputWriter?
    /** How many times close has been called. */
    ghost var closeCount: nat

    ghost predicate Valid()
      reads this
    {
      (kind == Lunr) == (lunrWriter != null)
    }

    constructor (args: IndexerArgs, kind: IndexType, lunrWriter: OutputWriter?)
      requires (kind == Lunr) == (lunrWriter != null)
      ensures Valid() && closeCount == 0
      ensures this.args == args && this.kind == kind && this.lunrWriter == lunrWriter
    {
      this.args := args;
      this.kind := kind;
      this.lunrWriter := lunrWriter;
      closeCount := 0;
    }

    /**
     * WorkerFactory.of: initialises the stop words (which fails when they
     * already are, or when the stop-words file cannot be read), then builds
     * the factory for the requested index type, the JSON one with a new
     * writer.
     */
    static method Of(args: IndexerArgs, registry: StopWordRegistry, stopWordLines: Option<seq<string>>)
      returns (r: Result<WorkerFactory>)
      modifies registry
      ensures old(registry.stopWords).Some? ==>
        r == Err(StopWordsAlreadyInitialized) && registry.stopWords == old(registry.stopWords)
      ensures old(registry.stopWords).None? ==>
        registry.stopWords == Some(InitialStopWords(args.stopwordsFile, stopWordLines))
      ensures old(registry.stopWords).None? ==> (r.Err? <==> args.stopwordsFile.NonNull? && stopWordLines.None?)
      ensures old(registry.stopWords).None? && r.Err? ==> r.error == UnreadableStopWords
      ensures r.Ok? ==> fresh(r.value) && r.value.Valid() && r.value.closeCount == 0
      ensures r.Ok? ==> r.value.args == args && r.value.kind == args.indexType
      ensures r.Ok? && r.value.lunrWriter != null ==>
        fresh(r.value.lunrWriter) && r.value.lunrWriter.written == [] && !r.value.lunrWriter.closed
    {
      var init := registry.InitializeStopWords(args.stopwordsFile, stopWordLines);
      if init.Fail? {
        return Err(init.error);
      }
      var f;
      if args.indexType == Lucene {
        f := new WorkerFactory(args, Lucene, null);
      } else {
        var w := new OutputWriter();
        f := new WorkerFactory(args, Lunr, w);
      }
      return Ok(f);
    }

    /** newWorker: a worker of this factory's type, sharing its writer. */
    method NewWorker(sourceFile: Nullable<File>) returns (r: Result<Worker>)
      requires Valid()
      ensures sourceFile.Null? ==> r == Err(NullSourceFile)
      ensures r.Ok? <==> sourceFile.NonNull?
      ensures r.Ok? ==> fresh(r.value) && r.value.Valid()
      ensures r.Ok? ==> r.value.sourceFile == sourceFile.value && r.value.kind == kind && r.value.writer == lunrWriter
    {
      if sourceFile.Null? {
        return Err(NullSourceFile);
      }
      var w := new Worker(sourceFile.value, kind, lunrWriter);
      return Ok(w);
    }

    /** close: the JSON factory closes its writer; the Lucene factory does nothing. */
    method Close()
      requires Valid()
      modifies this, lunrWriter
      ensures closeCount == old(closeCount) + 1
      ensures lunrWriter != null ==> lunrWriter.closed && lunrWriter.written == old(lunrWriter.written)
    {
      closeCount := closeCount + 1;
      if lunrWriter != null {
        lunrWriter.Close();
      }
    }
  }
}
