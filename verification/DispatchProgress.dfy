/** A job that still has work is refilled within a bounded number of ticker rounds. */
module DispatchProgress {
  import opened DispatchEffects
  import opened TransferQueue
  import opened DispatchSafety

  function Rounds(job: Job, n: nat): Job
    decreases n
  {
    if n == 0 then job else Rounds(RefillRound(job), n - 1)
  }

  function Batches(ranks: int): int {
    (ranks + TX_FETCH_BATCH_SIZE - 1) / TX_FETCH_BATCH_SIZE
  }

  ghost predicate PendingAt(tasks: seq<Entry>, k: nat) {
    k < |tasks| && tasks[k].rec.status == Pending
  }

  /** A task at or above rank `from` is pending. */
  ghost predicate PendingFrom(tasks: seq<Entry>, from: nat) {
    exists k: nat :: from <= k && PendingAt(tasks, k)
  }

  /** An active job with an empty channel. */
  ghost predicate Drained(job: Job) {
    Active(job) && job.buffer == [] && job.offset <= |job.tasks|
  }

  /** The stuck check will rewind the job's cursor once it is at the end. */
  ghost predicate Rewinds(job: Job) {
    job.row.counts.pending > 0 && !AnyRowRunning(job.tasks)
  }

  lemma {:induction false} SomethingPending(batch: seq<Entry>, k: nat)
    requires PendingAt(batch, k)
    ensures PendingOf(batch) != []
  {
    if batch[0].rec.status != Pending {
      SomethingPending(batch[1..], k - 1);
    }
  }

  /** A fill of an empty channel consumes its whole batch and finds a pending task iff there is one. */
  lemma FillOfEmpty(job: Job)
    requires job.buffer == [] && job.offset <= |job.tasks|
    ensures var stop := if job.offset + TX_FETCH_BATCH_SIZE < |job.tasks| then job.offset + TX_FETCH_BATCH_SIZE
                        else |job.tasks|;
            && Fill(job).offset == stop
            && (Fill(job).buffer == [] <==> forall k :: job.offset <= k < stop ==> !PendingAt(job.tasks, k))
  {
    var batch := Batch(job.tasks, job.offset);
    var p := Scan(batch, []).processed;
    ScanPushes(batch, []);
    PendingOfLength(batch[..p]);
    assert p == |batch| && batch[..p] == batch;
    if k :| 0 <= k < |batch| && PendingAt(batch, k) {
      SomethingPending(batch, k);
      assert PendingAt(job.tasks, job.offset + k);
    } else {
      forall k | 0 <= k < |batch| ensures batch[k].rec.status != Pending {
        assert !PendingAt(batch, k);
      }
      NothingPending(batch);
    }
  }

  lemma {:induction false} PendingOfLength(batch: seq<Entry>)
    ensures |PendingOf(batch)| <= |batch|
  {
    if batch != [] {
      PendingOfLength(batch[1..]);
    }
  }

  /** A round at which the cursor is not at the end. */
  lemma RoundAhead(job: Job)
    requires Drained(job) && job.offset < |job.tasks|
    ensures var next := RefillRound(job);
            && next.tasks == job.tasks && next.row == job.row && job.offset < next.offset <= |job.tasks|
            && Batches(|job.tasks| - next.offset) + 1 == Batches(|job.tasks| - job.offset)
            && (next.buffer == [] ==> Drained(next))
            && (next.buffer == [] <==> forall k :: job.offset <= k < next.offset ==> !PendingAt(job.tasks, k))
  {
    FillOfEmpty(job);
    hide Scan, Batch, PendingAt;
    assert StuckCheck(job) == job;
  }

  /** The round that rewinds. */
  lemma RoundAtEnd(job: Job)
    requires Drained(job) && Rewinds(job) && job.offset == |job.tasks| > 0
    ensures Drained(job.(offset := 0)) && RefillRound(job) == RefillRound(job.(offset := 0))
  {
    hide Fill;
    assert StuckCheck(job) == StuckCheck(job.(offset := 0));
  }

  lemma NextRound(job: Job, n: nat)
    ensures Rounds(job, n + 1) == Rounds(RefillRound(job), n)
  {
  }

  /** While some pending task is at or above the cursor, the cursor gets there batch by batch. */
  lemma {:induction false} ReachAhead(job: Job, k: nat) returns (n: nat)
    requires Drained(job) && job.offset <= k && PendingAt(job.tasks, k)
    ensures 0 < n <= Batches(|job.tasks| - job.offset) && Rounds(job, n).buffer != []
    decreases |job.tasks| - job.offset
  {
    RoundAhead(job);
    hide Drained, RefillRound, Batches;
    var next := RefillRound(job);
    NextRound(job, 0);
    if next.buffer != [] {
      BatchesNat(|job.tasks| - next.offset);
      n := 1;
    } else {
      n := ReachAhead(next, k);
      NextRound(job, n);
      n := n + 1;
    }
  }

  lemma BatchesNat(ranks: nat)
    ensures Batches(ranks) >= 0
  {
  }

  /** Otherwise the cursor runs to the end, is rewound there, and comes round. */
  lemma {:induction false} ReachAround(job: Job, k: nat) returns (n: nat)
    requires Drained(job) && Rewinds(job) && PendingAt(job.tasks, k)
    requires forall i :: job.offset <= i < |job.tasks| ==> !PendingAt(job.tasks, i)
    ensures n <= Batches(|job.tasks| - job.offset) + Batches(|job.tasks|) && Rounds(job, n).buffer != []
    decreases |job.tasks| - job.offset
  {
    if job.offset < |job.tasks| {
      RoundAhead(job);
      hide Drained, RefillRound, Batches;
      var next := RefillRound(job);
      n := ReachAround(next, k);
      NextRound(job, n);
      n := n + 1;
    } else {
      var rewound := job.(offset := 0);
      RoundAtEnd(job);
      hide Drained, RefillRound;
      n := ReachAhead(rewound, k);
      NextRound(job, n - 1);
      NextRound(rewound, n - 1);
    }
  }

  lemma PendingCounted(tasks: seq<Entry>, k: nat)
    requires PendingAt(tasks, k)
    ensures Count(tasks, Pending) > 0
  {
    CountZero(tasks, Pending);
  }

  lemma RefillRoundKeeps(job: Job, maxRetryCount: nat)
    requires Inv(job, maxRetryCount)
    ensures Inv(RefillRound(job), maxRetryCount)
  {
    StuckCheckKeeps(job, maxRetryCount);
    FillKeeps(StuckCheck(job), maxRetryCount);
  }

  lemma {:induction false} RoundsKeep(job: Job, n: nat, maxRetryCount: nat)
    requires Inv(job, maxRetryCount)
    ensures Inv(Rounds(job, n), maxRetryCount)
    decreases n
  {
    hide Inv, RefillRound;
    if n > 0 {
      RefillRoundKeeps(job, maxRetryCount);
      RoundsKeep(RefillRound(job), n - 1, maxRetryCount);
    }
  }

  /** What keeps a job from starving: its channel holds something, or the job is active and either a task
      at or above the cursor is pending, or one below it is and the stuck check will rewind. */
  ghost predicate CanBeServed(job: Job) {
    job.buffer != [] ||
    (Active(job) && (PendingFrom(job.tasks, job.offset) || (PendingFrom(job.tasks, 0) && Rewinds(job))))
  }

  /** A round leaves a job that cannot be served as it was, but for the cursor. */
  lemma RoundInVain(job: Job)
    requires job.offset <= |job.tasks| && !CanBeServed(job)
    ensures var next := RefillRound(job); next.offset <= |next.tasks| && !CanBeServed(next)
  {
    if Active(job) {
      var checked := StuckCheck(job);
      FillOfEmpty(checked);
      assert forall k: nat :: checked.offset <= k ==> !PendingAt(job.tasks, k);
      hide Fill, AnyRowRunning;
    }
  }

  lemma {:induction false} RoundsInVain(job: Job, n: nat)
    requires job.offset <= |job.tasks| && !CanBeServed(job)
    ensures Rounds(job, n).buffer == []
    decreases n
  {
    if n > 0 {
      RoundInVain(job);
      hide CanBeServed, RefillRound;
      RoundsInVain(RefillRound(job), n - 1);
    }
  }

  /** Two passes over the ranks are enough. */
  lemma Reach(job: Job) returns (n: nat)
    requires job.offset <= |job.tasks| && CanBeServed(job)
    ensures n <= 2 * Batches(|job.tasks|) && Rounds(job, n).buffer != []
  {
    BatchesGrow(|job.tasks| - job.offset, |job.tasks|);
    hide Batches;
    if job.buffer != [] {
      n := 0;
    } else if PendingFrom(job.tasks, job.offset) {
      var k: nat :| job.offset <= k && PendingAt(job.tasks, k);
      n := ReachAhead(job, k);
    } else {
      var k: nat :| PendingAt(job.tasks, k);
      n := ReachAround(job, k);
    }
  }

  lemma BatchesGrow(a: nat, b: nat)
    requires a <= b
    ensures 0 <= Batches(a) <= Batches(b)
  {
  }

  /** In every state: some round puts a pending task into the channel, within two passes over the ranks,
      if and only if the job can be served. One task left RUNNING by a lost worker is enough to starve
      the tasks below the cursor. */
  lemma ServedExactlyWhen(job: Job, maxRetryCount: nat)
    requires Inv(job, maxRetryCount)
    ensures (exists n: nat :: Rounds(job, n).buffer != []) <==> CanBeServed(job)
    ensures CanBeServed(job) ==>
              exists n: nat :: n <= 2 * Batches(|job.tasks|) && ServedAt(job, n)
  {
    if CanBeServed(job) {
      var n := Reach(job);
      RoundsKeep(job, n, maxRetryCount);
      var served := Rounds(job, n);
      assert served.buffer[0] in served.buffer;
      assert ServedAt(job, n);
    } else {
      forall n: nat
        ensures Rounds(job, n).buffer == []
      {
        RoundsInVain(job, n);
      }
    }
  }

  ghost predicate ServedAt(job: Job, n: nat) {
    var served := Rounds(job, n); served.buffer != [] && served.buffer[0].status == Pending
  }

  /** After any run, once the counters are flushed, an active job with a pending task at or above its
      cursor, or with a pending task anywhere and none running, is served within two passes over its
      ranks. */
  lemma ProgressAfterAnyRun(jobId: int, periodic: bool, es: seq<Event>, maxRetryCount: nat, k: nat) returns (n: nat)
    requires maxRetryCount > 0 && ValidRun(NewJob(jobId, periodic), es, maxRetryCount)
    requires CleanRun(NewJob(jobId, periodic), es, maxRetryCount)
    requires var job := Run(NewJob(jobId, periodic), es, maxRetryCount);
             Active(Flush(job)) && PendingAt(job.tasks, k)
             && (k >= job.offset || forall i :: 0 <= i < |job.tasks| ==> job.tasks[i].rec.status != Running)
    ensures var job := Flush(Run(NewJob(jobId, periodic), es, maxRetryCount));
            n <= 2 * Batches(|job.tasks|) && ServedAt(job, n)
  {
    var job := Run(NewJob(jobId, periodic), es, maxRetryCount);
    NewJobSound(jobId, periodic, maxRetryCount);
    RunKeeps(NewJob(jobId, periodic), es, maxRetryCount);
    hide Run, ValidRun, CleanRun;
    FlushKeeps(job, maxRetryCount);
    var start := Flush(job);
    if k < job.offset {
      assert start.row.counts.pending == start.row.counts.Of(Pending);
      PendingCounted(job.tasks, k);
      assert forall i :: 0 <= i < |job.tasks| ==> job.tasks[i].row.status != Running;
    }
    assert CanBeServed(start);
    hide CanBeServed, Flush;
    ServedExactlyWhen(start, maxRetryCount);
    n :| n <= 2 * Batches(|start.tasks|) && ServedAt(start, n);
  }

  /** The statuses that keep the ticker away whatever is added or retried. */
  predicate HeldUp(status: JobStatus) {
    status == JobPaused || status == JobStopped || status == JobScanning
  }

  /** The job is served within two passes over its ranks, before and after its counters are flushed. */
  ghost predicate SoonServed(job: Job) {
    && (exists n: nat :: n <= 2 * Batches(|job.tasks|) && ServedAt(job, n))
    && (exists n: nat :: n <= 2 * Batches(|job.tasks|) && ServedAt(Flush(job), n))
  }

  lemma ActiveIsServed(job: Job, m: nat)
    requires Inv(job, m) && Active(job) && PendingFrom(job.tasks, job.offset)
    ensures SoonServed(job)
  {
    FlushKeeps(job, m);
    ServedExactlyWhen(job, m);
    ServedExactlyWhen(Flush(job), m);
  }

  /** From every state of the invariant, closed or failed jobs included: a path that the job does not have,
      once added, is work that the ticker reaches. */
  lemma AddIsServed(job: Job, inputs: seq<Input>, m: nat)
    requires Inv(job, m) && m > 0 && !HeldUp(job.row.status)
    requires exists i: nat :: NewAt(inputs, job.dedup, i)
    ensures SoonServed(Add(job, inputs))
  {
    var i: nat :| NewAt(inputs, job.dedup, i);
    SomeNew(inputs, job.dedup, i, |inputs|);
    AddExtends(job, inputs);
    AddKeeps(job, inputs, m);
    var next := Add(job, inputs);
    hide Add, Inv, NewOnes;
    var n := |job.tasks|;
    assert EntryIs(job, next.tasks[n + 0], NewOnes(inputs, job.dedup, |inputs|)[0], 0);
    assert PendingAt(next.tasks, n);
    assert job.offset <= n;
    ActiveIsServed(next, m);
  }

  lemma {:induction false} SomeNew(inputs: seq<Input>, dedup: map<string, int>, i: nat, n: nat)
    requires NewAt(inputs, dedup, i) && i < n <= |inputs|
    ensures NewOnes(inputs, dedup, n) != []
  {
    if i < n - 1 {
      SomeNew(inputs, dedup, i, n - 1);
    }
  }

  /** And a manual retry that finds the channel empty and something failed is work that it reaches. */
  lemma RetryIsServed(job: Job, k: nat, m: nat)
    requires Inv(job, m) && !HeldUp(job.row.status) && job.buffer == []
    requires k < |job.tasks| && job.tasks[k].rec.status == Failed
    ensures SoonServed(Retried(job))
  {
    RetriedIs(job);
    RetryKeeps(job, m);
    var next := Retried(job);
    hide Retried, Inv;
    assert RetriedEntry(job.tasks[k], next.tasks[k]);
    assert PendingAt(next.tasks, k);
    ActiveIsServed(next, m);
  }
}
