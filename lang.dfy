/**
 * Values the Java code handles implicitly: references that may be null,
 * java.util.Optional, and the exceptions the indexer throws, turned into
 * explicit error values.
 */
module Lang {

  /** A Java reference that may be null. */
  datatype Nullable<+T> = Null | NonNull(value: T)

  /** A java.lang.String reference. */
  type JString = Nullable<string>

  /** java.util.Optional, and "may be absent" in general. */
  datatype Option<+T> = None | Some(value: T)

  /** A source file reference; only its name (java.io.File.getName) is used. */
  datatype File = File(name: string)

  /**
   * The exceptions the core throws, one kind per throw site. The comment
   * names the Java exception class.
   */
  datatype Error =
    | NullSourceFile                 // NullPointerException from checkNotNull
    | BlankText                      // IllegalStateException from checkState(isNotBlank)
    | BlankPdf                       // IllegalStateException: entry pdf is null/blank
    | NoPdf                          // RuntimeException: metadata record whose pdf is null
    | NotAString(key: string)        // ClassCastException: record field that is not a string
    | Undistillable(pdf: string)     // IllegalStateException: no name after a '/'
    | AlreadyMapped(name: string)    // IllegalStateException: duplicate metadata name
    | MalformedSermons               // ClassCastException / NullPointerException on a "sermons" value
    | NullMetadataFile               // NullPointerException from checkNotNull
    | UnreadableMetadata             // IndexingException wrapping an IOException from the JSON reader
    | NullDocument                   // NullPointerException: the metadata document is JSON null
    | NoSermonData(pdf: string)      // IllegalStateException: no metadata for an entry
    | StopWordsAlreadyInitialized    // IllegalStateException from checkState
    | UnreadableStopWords            // IndexingException: stop-words file could not be read
    | WorkersBelowOne                // IllegalStateException from checkState(workers >= 1)
    | NullWorkerFactory              // NullPointerException from checkNotNull
    | WriteFailed                    // exception thrown by the output writer's write
    | Rejected                       // RejectedExecutionException: pool already shut down
    | PoolTimedOut                   // IndexingException: termination wait ran out
    | PoolInterrupted                // IndexingException wrapping an InterruptedException
    | WorkersFailed                  // IndexingException: the aggregate failure flag was set

  /** The outcome of a Java call that returns a value or throws. */
  datatype Result<+T> = Ok(value: T) | Err(error: Error) {
    predicate IsFailure() {
      Err?
    }

    function PropagateFailure<U>(): Result<U>
      requires Err?
    {
      Err(error)
    }

    function Extract(): T
      requires Ok?
    {
      value
    }

    /** Forgets the value: what a caller that only cares about success sees. */
    function Status(): Outcome {
      match this
      case Ok(_) => Pass
      case Err(e) => Fail(e)
    }
  }

  /** The outcome of a Java call returning void: completes normally or throws. */
  datatype Outcome = Pass | Fail(error: Error)
}
