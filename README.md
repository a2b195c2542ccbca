# indexer core, modelled in Dafny

This project models the core of a batch document indexer. One worker per
source file builds an index entry from the file's extracted text: the pdf
name, an audio name derived from it, the keywords and the raw text. The
worker then drops the entry (full-text Lucene index) or hands it to a shared
output writer (JSON "lunr" index). A fixed-size pool runs the workers and
records whether any of them failed. Closing the pool waits for it, closes
the worker factory and reports a timeout, an interruption or a failed
worker. The model also covers:

- the metadata enhancer, which walks a parsed JSON document, collects every
  record found under a "sermons" key into a map keyed by pdf file name, and
  overrides an entry's audio, pdf, date, title and passage from the matching
  record;
- the record type itself (`SermonData`): reading it from a JSON object, the
  pdf file name taken from the record's path, and its display string;
- the process-wide stop-word set, initialised once;
- the collecting of an analyzer's tokens into a set.

Modules, one per source file, plus three shared ones:

| file | module | models |
|---|---|---|
| lang.dfy | `Lang` | Java null (`Nullable`), `Optional`, the exceptions as `Error` values, `Result`/`Outcome` |
| strings.dfy | `Strings` | `Character.isWhitespace`, `StringUtils.isBlank`, regex line terminators, ASCII lower-casing, join/split |
| json.dfy | `JsonTree` | a parsed JSON document (objects as ordered field lists, as Jackson's `LinkedHashMap`) |
| extract_result.dfy | `Extraction` | `ExtractResult` (a class; its token set is an insertion-ordered `seq`) |
| index_entry.dfy | `Entries` | `IndexEntry` (a subset type: the pdf is never blank) and its `Builder` (a class) |
| sermon_data.dfy | `Sermons` | `SermonData`, `from`, `getPdfName`, `toString` |
| index_enhancer.dfy | `Enhancers` | `IndexEnhancer`: the tree walk (`recurse`) as a method with loops, proved equal to a reference definition |
| lucene_wrapper.dfy | `Tokenizer` | `LuceneWrapper.initializeStopWords` and `tokenize` |
| worker_factory.dfy | `Workers` | `WorkerFactory`, both factory kinds, `Worker.run`, the audio-name rewrite |
| work_manager.dfy | `WorkManagement` | `WorkManager`: argument checks, failure flag, `queueWork`, `close` |

Inputs the program reads from the outside world are parameters:
- the parsed metadata document (`None` when it cannot be read or parsed);
- the stop-words file's lines (`None` when it cannot be read);
- the analyzer's token stream;
- the outcome of a worker's extraction: an exception, nothing, or a result;
- whether a write to the output writer fails;
- how the wait for the pool ended.

Points where the code does less than its surrounding design suggests, and
the model follows the code:

- **The worker never enhances.** The enhancer exists to enrich entries with
  metadata, but `Worker.run` never calls it (WorkerFactory.java:95-115). So
  entries written in the model keep null date, title and passage
  (`Workers.WorkerEntry`).
- **The Lucene mode writes nothing.** Its `processIndexEntry` is empty, and
  its factory's `close` closes nothing.
- **Members missing from `IndexEntry.java` at this revision.** The enhancer uses
  `IndexEntry.Builder.from`, `date`, `title` and `passage`, and entries
  with date, title and passage (IndexEnhancer.java:38-45). The worker uses
  `ExtractResult.getText` (WorkerFactory.java:108). None of these is declared in
  those classes. The model gives `Entry` all seven fields and the builder all
  seven setters plus `From`, as those callers use them.

## Model

| member | source | states |
|---|---|---|
| Strings.SplitJoin | src/main/java/org/dougmcintosh/index/extract/ExtractResult.java:32-34 | splitting a space-joined token string at the separator gives back the tokens, when no token contains the separator |
| Strings.SlashIsNotBlank | src/main/java/org/dougmcintosh/index/IndexEntry.java:12-13 | a name containing a '/' is never blank, so the entry constructor accepts it |
| Extraction.Add | src/main/java/org/dougmcintosh/index/extract/ExtractResult.java:28-30 | LinkedHashSet.add: the token is present afterwards, the earlier tokens keep their order, it is appended only when absent, and no duplicates arise |
| Extraction.CollectOrder | src/main/java/org/dougmcintosh/index/extract/ExtractResult.java:14 | adding a sequence of tokens yields exactly its distinct tokens, without duplicates, ordered by first occurrence |
| Extraction.ExtractResult.Of | src/main/java/org/dougmcintosh/index/extract/ExtractResult.java:22-26 | a null file fails with a null-pointer error; blank text fails; otherwise a fresh result with that file and text and no tokens |
| Extraction.ExtractResult.AddToken | src/main/java/org/dougmcintosh/index/extract/ExtractResult.java:28-30 | returns true iff the token was absent; the tokens become the insertion-ordered set with it added |
| Extraction.ExtractResult.TokenString | src/main/java/org/dougmcintosh/index/extract/ExtractResult.java:32-34 | "" with no tokens; otherwise splitting it at spaces gives the tokens back when none holds a space |
| Entries.ToString | src/main/java/org/dougmcintosh/index/IndexEntry.java:41-43 | the entry's display string is its pdf name, never blank |
| Entries.Builder.constructor | src/main/java/org/dougmcintosh/index/IndexEntry.java:36-38 | a new builder has every field null |
| Entries.Builder.From | src/main/java/org/dougmcintosh/index/IndexEnhancer.java:38-39 | the builder takes every field of an existing entry |
| Entries.Builder.Pdf | src/main/java/org/dougmcintosh/index/IndexEntry.java:51-54 | sets pdf only, leaving the other fields, and returns the same builder |
| Entries.Builder.Audio | src/main/java/org/dougmcintosh/index/IndexEntry.java:56-59 | sets audio only and returns the same builder |
| Entries.Builder.Keywords | src/main/java/org/dougmcintosh/index/IndexEntry.java:61-64 | sets keywords only and returns the same builder |
| Entries.Builder.RawText | src/main/java/org/dougmcintosh/index/IndexEntry.java:66-69 | sets rawText only and returns the same builder |
| Entries.Builder.Date | src/main/java/org/dougmcintosh/index/IndexEnhancer.java:42 | sets date only and returns the same builder |
| Entries.Builder.Title | src/main/java/org/dougmcintosh/index/IndexEnhancer.java:43 | sets title only and returns the same builder |
| Entries.Builder.Passage | src/main/java/org/dougmcintosh/index/IndexEnhancer.java:44 | sets passage only and returns the same builder |
| Entries.Builder.Build | src/main/java/org/dougmcintosh/index/IndexEntry.java:12-18 | succeeds iff the pdf is not null or blank, with an entry holding exactly the builder's fields; otherwise fails |
| Sermons.From | src/main/java/org/dougmcintosh/index/enhance/SermonData.java:21-46 | succeeds iff "pdf" holds a string and every field is a string or null; an absent or null pdf fails; absent optional fields become "" |
| Sermons.NameMatch | src/main/java/org/dougmcintosh/index/enhance/SermonData.java:8 | a match of `.*/(.+)` found line by line: a non-empty proper part of the path that follows a '/' in it, holding no line terminator |
| Sermons.NameMatchSingleLine | src/main/java/org/dougmcintosh/index/enhance/SermonData.java:68-74 | on a one-line path: no match iff no '/' is followed by a character; otherwise the text after the last such '/' |
| Sermons.NameAfterLastSlash | src/main/java/org/dougmcintosh/index/enhance/SermonData.java:68-74 | the text after the last '/' that has a character after it is the file name found |
| Sermons.NameMatchExample | src/main/java/org/dougmcintosh/index/IndexEnhancer.java:98-103 | "pdf/1John/1John01.pdf" gives "1John01.pdf" |
| Sermons.SermonData.PdfName | src/main/java/org/dougmcintosh/index/enhance/SermonData.java:68-74 | the matched file name, non-empty and shorter than the path; failure when nothing matches |
| Sermons.SermonData.ToString | src/main/java/org/dougmcintosh/index/enhance/SermonData.java:76-79 | splitting the display string at '\|' gives pdf, audio, title, passage, date ("null" for null), when no field holds a '\|' |
| JsonTree.ToMap | src/main/java/org/dougmcintosh/index/IndexEnhancer.java:56 | a parsed object's keys are exactly its fields' keys |
| JsonTree.ToMapLastWins | src/main/java/org/dougmcintosh/index/IndexEnhancer.java:56 | a key's value is the value of its last entry in the object, so a repeated key keeps its last value |
| Enhancers.RecordEntry | src/main/java/org/dougmcintosh/index/IndexEnhancer.java:81-91 | a record without "pdf" is skipped; a non-object is a cast failure; a kept record's file name is the one its pdf path gives |
| Enhancers.AddRecordsConcat | src/main/java/org/dougmcintosh/index/IndexEnhancer.java:81-92 | adding two lists of records is adding the first, then the second |
| Enhancers.WalkObjectIsFold | src/main/java/org/dougmcintosh/index/IndexEnhancer.java:66-95 | the recursive walk over an object equals adding its records, collected nested-objects-first then nested-lists then the own "sermons" list, one by one |
| Enhancers.WalkEntryIsFold | src/main/java/org/dougmcintosh/index/IndexEnhancer.java:67-93 | the same for one field of an object |
| Enhancers.WalkItemsIsFold | src/main/java/org/dougmcintosh/index/IndexEnhancer.java:71-78 | the same for the objects inside a list |
| Enhancers.WalkIsAddRecords | src/main/java/org/dougmcintosh/index/IndexEnhancer.java:66-95 | the walk succeeds iff the records can be collected and all of them added, with that result |
| Enhancers.AddRecordsGrows | src/main/java/org/dougmcintosh/index/IndexEnhancer.java:85-88 | a successful addition never changes or removes an existing mapping |
| Enhancers.SplitWellFormed | src/main/java/org/dougmcintosh/index/IndexEnhancer.java:81-91 | a list's records all pass the casts iff its head's and its tail's do |
| Enhancers.SplitFresh | src/main/java/org/dougmcintosh/index/IndexEnhancer.java:85-87 | no name of a list is mapped already iff the head's is not and none of the tail's is |
| Enhancers.SplitDistinct | src/main/java/org/dougmcintosh/index/IndexEnhancer.java:85-87 | the names of a list are distinct iff the tail's are and the head's name is not among them |
| Enhancers.FreshAfterPut | src/main/java/org/dougmcintosh/index/IndexEnhancer.java:85-88 | names are fresh for a map with one more mapping iff fresh for the map and for that mapping |
| Enhancers.AddRecordsOk | src/main/java/org/dougmcintosh/index/IndexEnhancer.java:81-92 | adding records succeeds iff each is well formed, their names are distinct, and none is already mapped |
| Enhancers.AddRecordsMaps | src/main/java/org/dougmcintosh/index/IndexEnhancer.java:81-92 | after success every record's name maps to its data, and every key is old or some record's name |
| Enhancers.AddRecordsDistilled | src/main/java/org/dougmcintosh/index/IndexEnhancer.java:84-88 | every key stays the file name its record's pdf path gives |
| Enhancers.WalkMapsRecords | src/main/java/org/dougmcintosh/index/IndexEnhancer.java:53-95 | after a successful parse the map holds exactly the named records found anywhere in the document, each under its file name |
| Enhancers.WalkRejectsDuplicates | src/main/java/org/dougmcintosh/index/IndexEnhancer.java:85-87 | two records with the same file name anywhere in the document make the parse fail |
| Enhancers.IndexEnhancer.NoOp | src/main/java/org/dougmcintosh/index/IndexEnhancer.java:17-22 | the pass-through enhancer: inactive, empty map |
| Enhancers.IndexEnhancer.Parse | src/main/java/org/dougmcintosh/index/IndexEnhancer.java:24-27 | a null file fails; a JSON null document fails as the null dereference in the walk (line 67); an unreadable or non-object document fails as unreadable (lines 56, 61-62); otherwise fails iff the walk fails, else an active enhancer whose map is the walk's result |
| Enhancers.IndexEnhancer.Recurse | src/main/java/org/dougmcintosh/index/IndexEnhancer.java:66-95 | the imperative walk's outcome and new map equal the recursive reference definition's |
| Enhancers.IndexEnhancer.MapSermons | src/main/java/org/dougmcintosh/index/IndexEnhancer.java:79-93 | the loop over one "sermons" list equals adding its records one by one |
| Enhancers.IndexEnhancer.Enhance | src/main/java/org/dougmcintosh/index/IndexEnhancer.java:29-51 | inactive: the entry unchanged; no record for the pdf: failure; otherwise audio, pdf, date, title and passage from the record, keywords and rawText kept |
| Tokenizer.InitialStopWords | src/main/java/org/dougmcintosh/index/extract/lucene/LuceneWrapper.java:59-68 | contains the lower-cased English stop words, plus every lower-cased line of a readable stop-words file; exactly those without a readable file |
| Tokenizer.InitialStopWordsOnly | src/main/java/org/dougmcintosh/index/extract/lucene/LuceneWrapper.java:59-68 | every word of the initialised set is a lower-cased English stop word or a lower-cased line of a readable stop-words file, so with InitialStopWords the set is exactly those |
| Tokenizer.StopWordRegistry.InitializeStopWords | src/main/java/org/dougmcintosh/index/extract/lucene/LuceneWrapper.java:56-73 | refused, with no change, once initialised; otherwise fails iff a file is named and cannot be read, and either way the set becomes the initial stop words, so every English stop word is a stop word |
| Tokenizer.StopWordInAnyCase | src/main/java/org/dougmcintosh/index/extract/lucene/LuceneWrapper.java:59-68 | a word of the English list or of a readable stop-words file is in the initialised set in every ASCII letter case |
| Tokenizer.Tokenize | src/main/java/org/dougmcintosh/index/extract/lucene/LuceneWrapper.java:27-50 | a null file and blank text fail; otherwise the set holds exactly the terms the analyzer yields |
| Workers.FinalTerminator | src/main/java/org/dougmcintosh/index/WorkerFactory.java:105 | the length of the final line terminator `$` may match before: 2 exactly for a final "\r\n", else 1 for a final terminator, else 0 |
| Workers.AudioName | src/main/java/org/dougmcintosh/index/WorkerFactory.java:105 | the rewrite keeps the name's length |
| Workers.AudioNameSingleLine | src/main/java/org/dougmcintosh/index/WorkerFactory.java:105 | on a one-line name: ".pdf" in any ASCII case becomes ".mp3"; any other name is unchanged |
| Workers.AudioNameKeepsStem | src/main/java/org/dougmcintosh/index/WorkerFactory.java:105 | the name before the extension is kept and the extension becomes ".mp3" |
| Workers.AudioNameIdempotent | src/main/java/org/dougmcintosh/index/WorkerFactory.java:105 | rewriting an already rewritten name changes nothing |
| Workers.AudioNameExample | src/main/java/org/dougmcintosh/index/WorkerFactory.java:105 | "1John01.pdf" gives "1John01.mp3" |
| Workers.AudioNameUpperCase | src/main/java/org/dougmcintosh/index/WorkerFactory.java:105 | "1John01.PDF" gives "1John01.mp3" |
| Workers.WorkerEntry | src/main/java/org/dougmcintosh/index/WorkerFactory.java:104-109 | on a one-line file name, the entry's audio is the name with a trailing ".pdf" (any ASCII case) replaced by ".mp3", and the name itself otherwise; audio is never null and as long as the pdf |
| Workers.Worker.ProcessIndexEntry | src/main/java/org/dougmcintosh/index/WorkerFactory.java:131-133 | the Lucene worker does nothing; the JSON worker writes the entry, failing iff the write fails and then recording nothing (lines 150-152 for the latter) |
| Workers.Worker.Run | src/main/java/org/dougmcintosh/index/WorkerFactory.java:95-115 | an exception from extraction fails the run with it; no extraction: nothing happens; a blank name fails the build; a failing write fails the run; every failure writes nothing; otherwise exactly the built entry is written (JSON); the writer's open/closed state is unchanged |
| Workers.WorkerFactory.Of | src/main/java/org/dougmcintosh/index/WorkerFactory.java:27-35 | stop words are initialised first, and the factory fails exactly when that fails (already initialised, or an unreadable file); the factory's kind is the requested one, the JSON one with a fresh, empty, open writer |
| Workers.WorkerFactory.NewWorker | src/main/java/org/dougmcintosh/index/WorkerFactory.java:50-52 | a null file fails; otherwise a fresh worker of the factory's kind sharing its writer (lines 70-72, 87-88, 139-142 too) |
| Workers.WorkerFactory.Close | src/main/java/org/dougmcintosh/index/WorkerFactory.java:75-79 | the JSON factory's writer is closed with its contents unchanged; the Lucene factory closes nothing (lines 55-57) |
| WorkManagement.CloseOutcome | src/main/java/org/dougmcintosh/index/WorkManager.java:67-81 | success iff every worker ended in time and none failed; timeout and interruption are reported before the failure flag |
| WorkManagement.WorkManager.Create | src/main/java/org/dougmcintosh/index/WorkManager.java:23-26 | fewer than one worker fails, then a null factory; otherwise a fresh manager, not shut down, with no failure recorded |
| WorkManagement.WorkManager.QueueWork | src/main/java/org/dougmcintosh/index/WorkManager.java:54-58 | a null file fails; after shutdown the work is rejected; otherwise a fresh worker for the file |
| WorkManagement.WorkManager.RecordFailure | src/main/java/org/dougmcintosh/index/WorkManager.java:31-33 | the uncaught-exception handler sets the failure flag |
| WorkManagement.WorkManager.RunTask | src/main/java/org/dougmcintosh/index/WorkManager.java:29-43 | an extraction exception fails the task with it; the flag afterwards is the old flag or the run's failure, so it is never cleared; a failed run writes nothing |
| WorkManagement.WorkManager.Close | src/main/java/org/dougmcintosh/index/WorkManager.java:61-85 | a second close does nothing; the first shuts down, closes the factory exactly once whatever the wait's outcome, and reports that outcome |

## Left out

- Reading files is not modelled. The parsed metadata document, the
  stop-words file's lines, the outcome of a worker's extraction (an
  exception, nothing, or a result) and whether the output writer's write
  fails are parameters. Opening the Lucene directory is not represented at
  all (see the `Of` line below).
- The text analyzer (`CustomAnalyzer`, the minimum token length) is not part
  of this model; `tokenize` receives the stream of terms it yields.
- Threads and the executor are not modelled. The model does not capture
  interleaving of workers, `volatile` and `synchronized`, the atomic flag, or
  thread naming. A queued worker's run is the separate step `RunTask`.
- Logging, `Metrics` counters, the `Stopwatch` and the `main` method of
  `IndexEnhancer` (a hard-coded path) are left out: they do not affect
  results.
- The JSON output writer's encoding, compression and file handling, and a
  failure while closing it, are left out. `OutputWriter` only records
  entries and closing.
- Lucene's `IndexWriter` is left out. The Lucene factory opens it, and that
  can fail with an I/O error; neither the Lucene worker nor `close` ever
  touches it.
- Enhancers.IndexEnhancer.Recurse: an object with a repeated key is walked
  entry by entry as written. The JSON reader keeps one map entry for that
  key, holding its last value (`JsonTree.ToMapLastWins`), so the Java walk
  visits it once.
- Tokenizer.StopWordRegistry.InitializeStopWords: letter case is folded for
  ASCII letters only. `CharArraySet` folds every Unicode letter.
- Tokenizer.Tokenize: the result is tied to the analyzer's term stream, not
  to the raw text, because the analysis itself is not modelled.
- Workers.WorkerFactory.Of: the factory calls
  `CustomAnalyzer.initializeStopWords`, whose source is not part of this
  model; it is taken to behave as `LuceneWrapper.initializeStopWords`, whose
  model (`Tokenizer.StopWordRegistry.InitializeStopWords`) `Of` calls. A
  failure to open the Lucene index directory or the JSON output writer is not
  modelled, and `args` is a value that cannot be null.
- Extraction.ExtractResult.AddToken: tokens are never null in the model.
  Java accepts a null token, and `tokenString` then throws.
- Workers.Worker.Run: an exception from extraction is carried as an
  arbitrary error value; which exceptions the extractor throws is not part of
  this model.
- Enhancers.IndexEnhancer.Recurse: after a failure the map keeps the
  mappings added before it. The Java constructor then throws, so that
  enhancer is never used, and the model states nothing about that map.
- WorkManagement.WorkManager.Close: the one-hour wait and re-raising the
  thread's interrupt status are left out; how the wait ended is the
  `await` input.
- The cause logging of the uncaught-exception handler (the
  `IndexingException` target branch) is left out: it only changes the log
  message.
