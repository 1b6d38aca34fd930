// What the pool promises, stated over Offer, SubmitAll and Drain: admission
// control, FIFO processing with one Transfer per job, and what a drain keeps.
module PoolProperties {
  import opened Models
  import opened Ledger
  import opened Billing
  import opened TransferProperties
  import opened Worker

  function Min(a: int, b: int): int {
    if a <= b then a else b
  }

  /** Back-to-back submissions are accepted while the buffer has room and
      rejected from then on; the accepted jobs queue up in submission order
      behind what was there, and the queue never outgrows its capacity. */
  lemma {:induction false} SubmitAllFillsThenRejects(queue: seq<TransferJob>, capacity: nat, batch: seq<TransferJob>)
    requires |queue| <= capacity
    ensures var (q, accepted) := SubmitAll(queue, capacity, batch);
      && (forall i | 0 <= i < |batch| :: accepted[i] <==> |queue| + i < capacity)
      && q == queue + batch[..Min(|batch|, capacity - |queue|)]
      && |q| <= capacity
    decreases |batch|
  {
    if batch != [] {
      var (q1, ok) := Offer(queue, capacity, batch[0]);
      SubmitAllFillsThenRejects(q1, capacity, batch[1..]);
      var (q, accepted) := SubmitAll(queue, capacity, batch);
      assert accepted == [ok] + SubmitAll(q1, capacity, batch[1..]).1;
      if ok {
        assert q1 == queue + [batch[0]];
        assert batch[..Min(|batch|, capacity - |queue|)]
            == [batch[0]] + batch[1..][..Min(|batch| - 1, capacity - |queue| - 1)];
      } else {
        assert batch[1..][..Min(|batch| - 1, capacity - |queue|)] == [];
      }
    }
  }

  /** Backpressure: on an empty queue of capacity C with nothing draining it,
      C submissions are accepted and the next one is rejected. */
  lemma Backpressure(capacity: nat, batch: seq<TransferJob>)
    requires |batch| == capacity + 1
    ensures var (q, accepted) := SubmitAll([], capacity, batch);
      && (forall i | 0 <= i < capacity :: accepted[i])
      && !accepted[capacity]
      && q == batch[..capacity]
  {
    SubmitAllFillsThenRejects([], capacity, batch);
  }

  /** Draining two queues one after the other is draining their concatenation. */
  lemma DrainConcat(s: Store, q1: seq<TransferJob>, f1: seq<Faults>, q2: seq<TransferJob>, f2: seq<Faults>)
    requires |f1| == |q1| && |f2| == |q2|
    ensures var (s1, r1) := Drain(s, q1, f1);
      var (s2, r2) := Drain(s1, q2, f2);
      Drain(s, q1 + q2, f1 + f2) == (s2, r1 + r2)
  {
    DrainIsRunAll(s, q1, f1);
    DrainIsRunAll(Drain(s, q1, f1).0, q2, f2);
    DrainIsRunAll(s, q1 + q2, f1 + f2);
    RunAllConcat(RunJob, s, q1, f1, q2, f2);
  }

  /** One job of the worker loop: Transfer on the job's request. */
  function RunJob(s: Store, job: TransferJob, fault: Faults): Outcome {
    TransferSpec(s, job.request, fault)
  }

  /** The worker loop over any per-job step `run`, so that facts about the loop
      itself can be proved without unfolding Transfer. */
  function RunAll(run: (Store, TransferJob, Faults) -> Outcome, s: Store, queue: seq<TransferJob>,
                  faults: seq<Faults>): (Store, seq<Option<TransferError>>)
    requires |faults| == |queue|
    decreases |queue|
  {
    if queue == [] then (s, [])
    else
      var o := run(s, queue[0], faults[0]);
      var (s2, results) := RunAll(run, o.store, queue[1..], faults[1..]);
      (s2, [o.err] + results)
  }

  lemma {:induction false} DrainIsRunAll(s: Store, queue: seq<TransferJob>, faults: seq<Faults>)
    requires |faults| == |queue|
    ensures Drain(s, queue, faults) == RunAll(RunJob, s, queue, faults)
    decreases |queue|
  {
    if queue != [] {
      DrainIsRunAll(RunJob(s, queue[0], faults[0]).store, queue[1..], faults[1..]);
    }
  }

  lemma {:induction false} RunAllConcat(run: (Store, TransferJob, Faults) -> Outcome, s: Store,
                                        q1: seq<TransferJob>, f1: seq<Faults>, q2: seq<TransferJob>, f2: seq<Faults>)
    requires |f1| == |q1| && |f2| == |q2|
    ensures var (s1, r1) := RunAll(run, s, q1, f1);
      var (s2, r2) := RunAll(run, s1, q2, f2);
      RunAll(run, s, q1 + q2, f1 + f2) == (s2, r1 + r2)
    decreases |q1|
  {
    if q1 != [] {
      var o := run(s, q1[0], f1[0]);
      RunAllConcat(run, o.store, q1[1..], f1[1..], q2, f2);
      assert (q1 + q2)[0] == q1[0] && (f1 + f2)[0] == f1[0];
      assert (q1 + q2)[1..] == q1[1..] + q2;
      assert (f1 + f2)[1..] == f1[1..] + f2;
      var (s1, r1) := RunAll(run, o.store, q1[1..], f1[1..]);
      var r2 := RunAll(run, s1, q2, f2).1;
      assert [o.err] + (r1 + r2) == ([o.err] + r1) + r2;
    } else {
      assert q1 + q2 == q2 && f1 + f2 == f2;
      var r2 := RunAll(run, s, q2, f2).1;
      assert [] + r2 == r2;
    }
  }

  /** FIFO, once each: the i-th job's result is Transfer run on its own request
      against the ledger left by the i jobs ahead of it. */
  lemma DrainRunsJobsInOrder(s: Store, queue: seq<TransferJob>, faults: seq<Faults>, i: nat)
    requires |faults| == |queue| && i < |queue|
    ensures Drain(s, queue, faults).1[i]
         == TransferSpec(Drain(s, queue[..i], faults[..i]).0, queue[i].request, faults[i]).err
  {
    DrainConcat(s, queue[..i], faults[..i], queue[i..], faults[i..]);
    assert queue[..i] + queue[i..] == queue;
    assert faults[..i] + faults[i..] == faults;
  }

  /** Over a solvent ledger a whole drain keeps the ledger solvent and the sum
      of all balances unchanged, whatever each transfer's outcome. */
  lemma {:induction false} DrainConservesTotal(s: Store, queue: seq<TransferJob>, faults: seq<Faults>)
    requires |faults| == |queue| && Solvent(s.accounts)
    ensures Solvent(Drain(s, queue, faults).0.accounts)
    ensures Total(Drain(s, queue, faults).0.accounts) == Total(s.accounts)
    decreases |queue|
  {
    if queue != [] {
      TransferConservesTotal(s, queue[0].request, faults[0]);
      DrainConservesTotal(TransferSpec(s, queue[0].request, faults[0]).store, queue[1..], faults[1..]);
    }
  }

  /** A drain keeps the store well formed and never changes a row that existed
      before it: in particular a SUCCESS or FAILED row stays as it is. */
  lemma {:induction false} DrainKeepsEarlierRows(s: Store, queue: seq<TransferJob>, faults: seq<Faults>)
    requires |faults| == |queue| && Valid(s)
    ensures Valid(Drain(s, queue, faults).0)
    ensures forall k | k in s.txns :: k in Drain(s, queue, faults).0.txns && Drain(s, queue, faults).0.txns[k] == s.txns[k]
    decreases |queue|
  {
    if queue != [] {
      TransferKeepsOtherRows(s, queue[0].request, faults[0]);
      DrainKeepsEarlierRows(TransferSpec(s, queue[0].request, faults[0]).store, queue[1..], faults[1..]);
    }
  }

  /** Every line the worker logs names a job of the queue whose transfer failed
      with exactly that error, and every failed job is logged: the worker logs
      an error exactly when Transfer returns one. */
  lemma {:induction false} ErrorLogNamesFailedJobs(queue: seq<TransferJob>, results: seq<Option<TransferError>>)
    requires |results| == |queue|
    ensures forall e | e in ErrorLog(queue, results) ::
      exists i | 0 <= i < |queue| :: queue[i].request.requestId == e.requestId && results[i] == Some(e.error)
    ensures forall i | 0 <= i < |queue| && results[i].Some? ::
      LoggedError(queue[i].request.requestId, results[i].value) in ErrorLog(queue, results)
    ensures (forall i | 0 <= i < |results| :: results[i] == None) ==> ErrorLog(queue, results) == []
    decreases |queue|
  {
    if queue != [] {
      var n := |queue| - 1;
      ErrorLogNamesFailedJobs(queue[..n], results[..n]);
      var earlier := ErrorLog(queue[..n], results[..n]);
      assert ErrorLog(queue, results)[..|earlier|] == earlier;
      forall e | e in ErrorLog(queue, results)
        ensures exists i | 0 <= i < |queue| :: queue[i].request.requestId == e.requestId && results[i] == Some(e.error)
      {
        if e in earlier {
          var i :| 0 <= i < n && queue[..n][i].request.requestId == e.requestId && results[..n][i] == Some(e.error);
          assert queue[i] == queue[..n][i];
        } else {
          assert queue[n].request.requestId == e.requestId && results[n] == Some(e.error);
        }
      }
      forall i | 0 <= i < |queue| && results[i].Some?
        ensures LoggedError(queue[i].request.requestId, results[i].value) in ErrorLog(queue, results)
      {
        if i < n {
          assert queue[..n][i] == queue[i] && results[..n][i] == results[i];
          assert LoggedError(queue[i].request.requestId, results[i].value) in earlier;
        } else {
          assert ErrorLog(queue, results) == earlier + [LoggedError(queue[n].request.requestId, results[n].value)];
        }
      }
    }
  }

  /** The failed jobs' log lines read front to back: one line per failed job,
      in queue order. */
  function FailureLines(queue: seq<TransferJob>, results: seq<Option<TransferError>>): seq<LoggedError>
    requires |results| == |queue|
    decreases |queue|
  {
    if queue == [] then []
    else
      (if results[0].Some? then [LoggedError(queue[0].request.requestId, results[0].value)] else [])
      + FailureLines(queue[1..], results[1..])
  }

  lemma {:induction false} FailureLinesAppend(queue: seq<TransferJob>, results: seq<Option<TransferError>>,
                                              job: TransferJob, result: Option<TransferError>)
    requires |results| == |queue|
    ensures FailureLines(queue + [job], results + [result])
         == FailureLines(queue, results) + (if result.Some? then [LoggedError(job.request.requestId, result.value)] else [])
    decreases |queue|
  {
    var last := if result.Some? then [LoggedError(job.request.requestId, result.value)] else [];
    if queue == [] {
      assert queue + [job] == [job] && results + [result] == [result];
      assert FailureLines([job], [result]) == last + FailureLines([], []);
    } else {
      FailureLinesAppend(queue[1..], results[1..], job, result);
      assert (queue + [job])[1..] == queue[1..] + [job];
      assert (results + [result])[1..] == results[1..] + [result];
      var first := if results[0].Some? then [LoggedError(queue[0].request.requestId, results[0].value)] else [];
      assert first + (FailureLines(queue[1..], results[1..]) + last)
          == (first + FailureLines(queue[1..], results[1..])) + last;
    }
  }

  /** The worker's error log is exactly the failed jobs' lines, one per failed
      job and in queue order. */
  lemma {:induction false} ErrorLogIsFailureLines(queue: seq<TransferJob>, results: seq<Option<TransferError>>)
    requires |results| == |queue|
    ensures ErrorLog(queue, results) == FailureLines(queue, results)
    decreases |queue|
  {
    if queue != [] {
      var n := |queue| - 1;
      ErrorLogIsFailureLines(queue[..n], results[..n]);
      FailureLinesAppend(queue[..n], results[..n], queue[n], results[n]);
      assert queue[..n] + [queue[n]] == queue;
      assert results[..n] + [results[n]] == results;
    }
  }
}
