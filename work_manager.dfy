/**
 * WorkManager: queues one worker per source file on a fixed-size thread pool,
 * records whether any worker failed, and on close waits for the pool, closes
 * the worker factory and reports the first problem. The pool itself is not
 * modelled: how the wait for termination ended is an input of Close, and a
 * queued worker's run is the separate step RunTask.
 */
module WorkManagement {
  import opened Lang
  import opened Extraction
  import opened Workers

  /** How the wait for the pool's termination ended. */
  datatype AwaitResult = Terminated | TimedOut | Interrupted

  /**
   * What close reports when the pool was still running: success only when
   * every worker finished in time and none failed; a timeout or an
   * interruption is reported before the failure flag.
   */
  function CloseOutcome(await: AwaitResult, failureDetected: bool): (o: Outcome)
    ensures o.Pass? <==> await == Terminated && !failureDetected
    ensures await == TimedOut ==> o == Fail(PoolTimedOut)
    ensures await == Interrupted ==> o == Fail(PoolInterrupted)
    ensures await == Terminated && failureDetected ==> o == Fail(WorkersFailed)
  {
    match await
    case TimedOut => Fail(PoolTimedOut)
    case Interrupted => Fail(PoolInterrupted)
    case Terminated => if failureDetected then Fail(WorkersFailed) else Pass
  }

  class WorkManager {
    const workerFactory: WorkerFactory
    /** Set by the pool's uncaught-exception handler; never cleared. */
    var failureDetected: bool
    /** Whether the pool has been shut down. */
    var isShutdown: bool

    constructor (workerFactory: WorkerFactory)
      ensures this.workerFactory == workerFactory && !failureDetected && !isShutdown
    {
      this.workerFactory := workerFactory;
      failureDetected := false;
      isShutdown := false;
    }

    /** The constructor's argument checks: at least one worker, and a factory. */
    static method Create(workers: int, workerFactory: WorkerFactory?) returns (r: Result<WorkManager>)
      ensures workers < 1 ==> r == Err(WorkersBelowOne)
      ensures workers >= 1 && workerFactory == null ==> r == Err(NullWorkerFactory)
      ensures r.Ok? <==> workers >= 1 && workerFactory != null
      ensures r.Ok? ==> fresh(r.value) && r.value.workerFactory == workerFactory
      ensures r.Ok? ==> !r.value.failureDetected && !r.value.isShutdown
    {
      if workers < 1 {
        return Err(WorkersBelowOne);
      }
      if workerFactory == null {
        return Err(NullWorkerFactory);
      }
      var m := new WorkManager(workerFactory);
      return Ok(m);
    }

    /**
     * queueWork: a new worker for the file, accepted by the pool unless it
     * has been shut down. The worker is returned so that its run can be
     * modelled by RunTask.
     */
    method QueueWork(work: Nullable<File>) returns (r: Result<Worker>)
      requires workerFactory.Valid()
      ensures work.Null? ==> r == Err(NullSourceFile)
      ensures work.NonNull? && isShutdown ==> r == Err(Rejected)
      ensures r.Ok? <==> work.NonNull? && !isShutdown
      ensures r.Ok? ==> fresh(r.value) && r.value.Valid() && r.value.sourceFile == work.value
      ensures r.Ok? ==> r.value.kind == workerFactory.kind && r.value.writer == workerFactory.lunrWriter
    {
      if work.Null? {
        return Err(NullSourceFile);
      }
      var worker := workerFactory.NewWorker(work);
      if isShutdown {
        return Err(Rejected);
      }
      return worker;
    }

    /** The uncaught-exception handler: records that a worker failed. */
    method RecordFailure()
      modifies this
      ensures failureDetected && isShutdown == old(isShutdown)
    {
      failureDetected := true;
    }

    /** A pool thread running a queued worker; a failed run reaches the handler. */
    method RunTask(worker: Worker, extraction: Result<Option<ExtractResult>>, ioError: bool) returns (o: Outcome)
      requires worker.Valid()
      modifies this, worker.writer
      ensures failureDetected == (old(failureDetected) || o.Fail?)
      ensures isShutdown == old(isShutdown)
      ensures extraction.Err? ==> o == Fail(extraction.error)
      ensures worker.writer != null ==> worker.writer.closed == old(worker.writer.closed)
      ensures worker.writer != null && o.Pass? && extraction.Ok? && extraction.value.Some? ==>
        worker.writer.written == old(worker.writer.written)
          + [WorkerEntry(worker.sourceFile.name, extraction.value.value.TokenString(), extraction.value.value.text)]
      ensures worker.writer != null && (o.Fail? || extraction.Err? || extraction.value.None?) ==>
        worker.writer.written == old(worker.writer.written)
    {
      o := worker.Run(extraction, ioError);
      if o.Fail? {
        RecordFailure();
      }
    }

    /**
     * close: does nothing once the pool is shut down. Otherwise it shuts the
     * pool down, waits, and closes the worker factory whatever the wait's
     * outcome; then reports a timeout, an interruption, or a failed worker.
     */
    method Close(await: AwaitResult) returns (o: Outcome)
      requires workerFactory.Valid()
      modifies this, workerFactory, workerFactory.lunrWriter
      ensures isShutdown && failureDetected == old(failureDetected)
      ensures old(isShutdown) ==> o == Pass && workerFactory.closeCount == old(workerFactory.closeCount)
      ensures old(isShutdown) && workerFactory.lunrWriter != null ==>
        workerFactory.lunrWriter.closed == old(workerFactory.lunrWriter.closed)
      ensures !old(isShutdown) ==> workerFactory.closeCount == old(workerFactory.closeCount) + 1
      ensures !old(isShutdown) && workerFactory.lunrWriter != null ==> workerFactory.lunrWriter.closed
      ensures !old(isShutdown) ==> o == CloseOutcome(await, failureDetected)
      ensures workerFactory.lunrWriter != null ==>
        workerFactory.lunrWriter.written == old(workerFactory.lunrWriter.written)
    {
      if isShutdown {
        return Pass;
      }
      isShutdown := true;
      workerFactory.Close();
      o := CloseOutcome(await, failureDetected);
    }
  }
}
