// The admission-controlled worker pool: a bounded FIFO of transfer jobs that
// rejects submissions when full, drained in order by the worker loop.
module Worker {
  import opened Models
  import opened Ledger
  import opened Billing

  datatype TransferJob = TransferJob(request: TransferRequest)

  /** A transfer error as the worker logs it. */
  datatype LoggedError = LoggedError(requestId: string, error: TransferError)

  /** The non-blocking send of Submit on a channel buffered to `capacity`. */
  function Offer(queue: seq<TransferJob>, capacity: nat, job: TransferJob): (r: (seq<TransferJob>, bool))
    ensures r.1 <==> |queue| < capacity
    ensures |queue| <= capacity ==> |r.0| <= capacity
    ensures r.1 ==> |r.0| == |queue| + 1 && r.0[..|queue|] == queue && r.0[|queue|] == job
    ensures !r.1 ==> r.0 == queue
  {
    if |queue| < capacity then (queue + [job], true) else (queue, false)
  }

  /** Back-to-back submissions with nothing draining the queue: the final
      queue and whether each job was accepted. */
  function SubmitAll(queue: seq<TransferJob>, capacity: nat, batch: seq<TransferJob>): (r: (seq<TransferJob>, seq<bool>))
    ensures |r.1| == |batch|
    decreases |batch|
  {
    if batch == [] then (queue, [])
    else
      var (q1, accepted) := Offer(queue, capacity, batch[0]);
      var (q2, rest) := SubmitAll(q1, capacity, batch[1..]);
      (q2, [accepted] + rest)
  }

  /** The worker loop run until the queue is empty: each job in FIFO order is
      handed to Transfer once, with the faults its own run meets; the ledger
      afterwards and each job's result. */
  function Drain(s: Store, queue: seq<TransferJob>, faults: seq<Faults>): (r: (Store, seq<Option<TransferError>>))
    requires |faults| == |queue|
    ensures |r.1| == |queue|
    ensures r.0.accounts.Keys == s.accounts.Keys
    decreases |queue|
  {
    if queue == [] then (s, [])
    else
      var o := TransferSpec(s, queue[0].request, faults[0]);
      var (s2, results) := Drain(o.store, queue[1..], faults[1..]);
      (s2, [o.err] + results)
  }

  /** The log lines the worker writes: one per job whose transfer failed, in order. */
  function ErrorLog(queue: seq<TransferJob>, results: seq<Option<TransferError>>): (r: seq<LoggedError>)
    requires |results| == |queue|
    ensures |r| <= |queue|
    decreases |queue|
  {
    if queue == [] then []
    else
      var n := |queue| - 1;
      ErrorLog(queue[..n], results[..n])
      + (if results[n].Some? then [LoggedError(queue[n].request.requestId, results[n].value)] else [])
  }

  lemma ErrorLogExtend(queue: seq<TransferJob>, results: seq<Option<TransferError>>,
                        job: TransferJob, result: Option<TransferError>)
    requires |results| == |queue|
    ensures ErrorLog(queue + [job], results + [result])
         == ErrorLog(queue, results) + (if result.Some? then [LoggedError(job.request.requestId, result.value)] else [])
  {
    assert (queue + [job])[..|queue|] == queue;
    assert (results + [result])[..|results|] == results;
  }

  /** What the worker loop keeps after handling the first i jobs of queue:
      their results, the log lines for them, and a ledger from which draining
      the rest of the queue ends where draining all of it from the start does. */
  ghost predicate WorkerProgress(total: (Store, seq<Option<TransferError>>), queue: seq<TransferJob>,
                                 faults: seq<Faults>, i: nat, cur: Store,
                                 results: seq<Option<TransferError>>, logged: seq<LoggedError>)
  {
    && i <= |queue| == |faults| && |results| == i
    && total.0 == Drain(cur, queue[i..], faults[i..]).0
    && total.1 == results + Drain(cur, queue[i..], faults[i..]).1
    && logged == ErrorLog(queue[..i], results)
  }

  lemma WorkerStep(total: (Store, seq<Option<TransferError>>), queue: seq<TransferJob>,
                   faults: seq<Faults>, i: nat, before: Store,
                   results: seq<Option<TransferError>>, logged0: seq<LoggedError>,
                   after: Store, err: Option<TransferError>, logged: seq<LoggedError>)
    requires i < |queue| && WorkerProgress(total, queue, faults, i, before, results, logged0)
    requires Outcome(after, err) == TransferSpec(before, queue[i].request, faults[i])
    requires logged == logged0 + (if err.Some? then [LoggedError(queue[i].request.requestId, err.value)] else [])
    ensures WorkerProgress(total, queue, faults, i + 1, after, results + [err], logged)
  {
    assert queue[i..][1..] == queue[i + 1..] && faults[i..][1..] == faults[i + 1..];
    var rest := Drain(after, queue[i + 1..], faults[i + 1..]).1;
    assert Drain(before, queue[i..], faults[i..]).1 == [err] + rest;
    assert results + ([err] + rest) == (results + [err]) + rest;
    ErrorLogExtend(queue[..i], results, queue[i], err);
    assert queue[..i + 1] == queue[..i] + [queue[i]];
  }

  lemma WorkerDone(total: (Store, seq<Option<TransferError>>), queue: seq<TransferJob>,
                   faults: seq<Faults>, cur: Store,
                   results: seq<Option<TransferError>>, logged: seq<LoggedError>)
    requires WorkerProgress(total, queue, faults, |queue|, cur, results, logged)
    ensures total.0 == cur && logged == ErrorLog(queue, total.1)
  {
    assert queue[..|queue|] == queue;
    assert results + [] == results;
  }

  class Pool {
    var jobs: seq<TransferJob>
    var closed: bool
    const capacity: nat
    const service: Service

    ghost predicate Valid()
      reads this
    {
      |jobs| <= capacity
    }

    /** NewPool: an empty, open queue buffered to bufferSize. */
    constructor (bufferSize: nat, service: Service)
      ensures Valid() && jobs == [] && !closed
      ensures capacity == bufferSize && this.service == service
    {
      jobs := [];
      closed := false;
      capacity := bufferSize;
      this.service := service;
    }

    /** Enqueue the job if the buffer has room; never waits. A send on a
        closed channel panics, so the pool must still be open. */
    method Submit(job: TransferJob) returns (accepted: bool)
      requires Valid() && !closed
      modifies this
      ensures Valid() && !closed
      ensures (jobs, accepted) == Offer(old(jobs), capacity, job)
    {
      if |jobs| < capacity {
        jobs := jobs + [job];
        accepted := true;
      } else {
        accepted := false;
      }
    }

    /** One worker's range loop over the queue, run until the buffer is
        empty: take the head, run Transfer on it, log an error and move on. */
    method RunWorker(faults: seq<Faults>) returns (logged: seq<LoggedError>)
      requires Valid() && |faults| == |jobs|
      modifies this, service
      ensures Valid() && jobs == [] && closed == old(closed)
      ensures service.Snapshot() == Drain(old(service.Snapshot()), old(jobs), faults).0
      ensures logged == ErrorLog(old(jobs), Drain(old(service.Snapshot()), old(jobs), faults).1)
    {
      ghost var queue := jobs;
      ghost var total := Drain(service.Snapshot(), queue, faults);
      ghost var results: seq<Option<TransferError>> := [];
      logged := [];
      var i := 0;
      while jobs != []
        invariant 0 <= i <= |queue| && jobs == queue[i..] && |results| == i
        invariant closed == old(closed)
        invariant WorkerProgress(total, queue, faults, i, service.Snapshot(), results, logged)
        decreases |jobs|
      {
        var job := jobs[0];
        jobs := jobs[1..];
        ghost var before := service.Snapshot();
        ghost var logged0 := logged;
        var err := service.Transfer(job.request, faults[i]);
        if err.Some? {
          logged := logged + [LoggedError(job.request.requestId, err.value)];
        }
        WorkerStep(total, queue, faults, i, before, results, logged0, service.Snapshot(), err, logged);
        results := results + [err];
        i := i + 1;
      }
      WorkerDone(total, queue, faults, service.Snapshot(), results, logged);
    }

    /** Close the queue, then let the worker drain what is still buffered. */
    method Shutdown(faults: seq<Faults>) returns (logged: seq<LoggedError>)
      requires Valid() && !closed && |faults| == |jobs|
      modifies this, service
      ensures Valid() && closed && jobs == []
      ensures service.Snapshot() == Drain(old(service.Snapshot()), old(jobs), faults).0
      ensures logged == ErrorLog(old(jobs), Drain(old(service.Snapshot()), old(jobs), faults).1)
    {
      closed := true;
      logged := RunWorker(faults);
    }
  }
}
