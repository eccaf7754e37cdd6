/** The manual retry of a job's failed tasks: exact on the store and the counters, but it rewinds the
    cursor whatever the channel still holds. */
module ManualRetry {
  import opened TransferQueue
  import opened DispatchEffects
  import opened DispatchSafety
  import opened DispatchHandlers
  import opened DispatchRuns
  import opened FairAcquire

  const RETRY_BATCH: nat := 1000

  /** Tasks and delta when the first `k` ranks have been swept. */
  ghost predicate SweptTo(job: Job, k: nat, tasks: seq<Entry>, stats: Stats, any: bool) {
    && k <= |job.tasks|
    && tasks == ResetAll(job.tasks[..k]) + job.tasks[k..]
    && stats == TrackResets(job.stats, job.tasks[..k])
    && (any <==> AnyFailed(job.tasks[..k]))
  }

  /** `retryLegacyTransferTasks`: pages of 1000 by rank, until a short page. */
  method RetryLegacy(job: Job) returns (r: Job)
    ensures r == Retried(job) && RetriedByHand(job, r)
  {
    hide SweptTo, ResetEntry, Track, Reopen, Retried, RetriedByHand;
    RetriedIs(job);
    var cursor, resetCount, n := 0, 0, |job.tasks|;
    var tasks, stats := job.tasks, job.stats;
    SweepStarts(job);
    while cursor < n
      invariant 0 <= cursor
      invariant SweptTo(job, if cursor < n then cursor else n, tasks, stats, resetCount > 0)
      decreases n - cursor
    {
      var end := if cursor + RETRY_BATCH < n then cursor + RETRY_BATCH else n;
      var k := cursor;
      while k < end
        invariant cursor <= k <= end
        invariant SweptTo(job, k, tasks, stats, resetCount > 0)
      {
        SweepOne(job, k, tasks, stats, resetCount > 0);
        if tasks[k].rec.status == Failed {
          tasks := tasks[k := ResetEntry(tasks[k])];
          stats := Track(stats, Failed, Pending);
          resetCount := resetCount + 1;
        }
        k := k + 1;
      }
      var page := end - cursor;
      cursor := cursor + RETRY_BATCH;
      if page < RETRY_BATCH {
        break;
      }
    }
    SweepEnds(job, tasks, stats, resetCount > 0);
    r := job;
    if resetCount > 0 {
      r := job.(tasks := tasks, stats := stats, offset := 0, row := Reopen(job.row));
    }
  }

  lemma SweepStarts(job: Job)
    ensures SweptTo(job, 0, job.tasks, job.stats, false)
  {
    assert ResetAll(job.tasks[..0]) + job.tasks == job.tasks;
  }

  lemma SweepEnds(job: Job, tasks: seq<Entry>, stats: Stats, any: bool)
    requires SweptTo(job, |job.tasks|, tasks, stats, any)
    ensures Retried(job) == if any then job.(tasks := tasks, stats := stats, offset := 0, row := Reopen(job.row))
                            else job
  {
    assert job.tasks[..|job.tasks|] == job.tasks;
    assert tasks == ResetAll(job.tasks);
  }

  lemma SweepOne(job: Job, k: nat, tasks: seq<Entry>, stats: Stats, any: bool)
    requires k < |job.tasks| && SweptTo(job, k, tasks, stats, any)
    ensures |tasks| == |job.tasks|
    ensures tasks[k].rec.status == Failed ==>
              SweptTo(job, k + 1, tasks[k := ResetEntry(tasks[k])], Track(stats, Failed, Pending), true)
    ensures tasks[k].rec.status != Failed ==> SweptTo(job, k + 1, tasks, stats, any)
  {
    ResetOne(job.tasks, k);
    assert tasks[k := tasks[k]] == tasks;
    assert job.tasks[..k + 1][..k] == job.tasks[..k];
  }

  /** One more entry of a sweep in rank order. */
  lemma ResetOne(tasks: seq<Entry>, k: nat)
    requires k < |tasks|
    ensures var now, next := ResetAll(tasks[..k]) + tasks[k..], ResetAll(tasks[..k + 1]) + tasks[k + 1..];
            now[k] == tasks[k] && next == now[k := ResetEntry(tasks[k])]
    ensures AnyFailed(tasks[..k + 1]) <==> AnyFailed(tasks[..k]) || tasks[k].rec.status == Failed
  {
    var front, more := tasks[..k], tasks[..k + 1];
    assert forall i :: 0 <= i < k ==> more[i] == front[i];
    if AnyFailed(front) {
      var i :| 0 <= i < k && front[i].rec.status == Failed;
      assert more[i].rec.status == Failed;
    }
    assert more[k] == tasks[k];
  }

  // ---------------------------------------------------------------- what it can break

  /** The channel still holds only pending tasks below the cursor if and only if it was empty, or
      nothing was retried. */
  lemma ChannelSoundExactlyWhen(job: Job)
    requires BufferSound(job.tasks, job.offset, job.buffer)
    ensures var r := Retried(job);
            BufferSound(r.tasks, r.offset, r.buffer) <==> job.buffer == [] || !AnyFailed(job.tasks)
  {
    var r := Retried(job);
    if AnyFailed(job.tasks) && job.buffer != [] {
      assert r.buffer[0] in r.buffer;
      assert forall k: nat :: !BufferedAt(r.tasks, 0, k, r.buffer[0]);
    }
  }

  /** Redis and Postgres agree on the retries of a task. */
  ghost predicate SameRetries(tasks: seq<Entry>) {
    forall k :: 0 <= k < |tasks| ==> tasks[k].row.retries == tasks[k].rec.retries
  }

  /** If they agreed on all tasks, they still do if and only if no failed task had used up a retry: the
      row keeps its retry count. */
  lemma MirroredExactlyWhen(job: Job)
    requires SameRetries(job.tasks)
    ensures SameRetries(Retried(job).tasks) <==>
            forall k :: 0 <= k < |job.tasks| && job.tasks[k].rec.status == Failed ==> job.tasks[k].rec.retries == 0
  {
    var r := Retried(job);
    if k :| 0 <= k < |job.tasks| && job.tasks[k].rec.status == Failed && job.tasks[k].rec.retries != 0 {
      assert job.tasks[k].row.retries == job.tasks[k].rec.retries;
      assert r.tasks[k] == ResetEntry(job.tasks[k]);
    }
  }

  /** A job whose one task failed once. */
  lemma RetryForgotten() returns (job: Job)
    ensures Inv(job, 3) && SameRetries(job.tasks) && !SameRetries(Retried(job).tasks)
  {
    job := NewJob(0, false).(tasks := [FAILED_ONCE], dedup := map["a" := 0], offset := 1,
                             row := JobRow(JobRunning, 1, Tally(0, 0, 0, 1), 1, 0, false));
    assert job.tasks[..0] == [];
    assert SrcAt(job.tasks, 0, "a");
    assert job.tasks[0].rec.retries != 0;
    MirroredExactlyWhen(job);
  }

  const FAILED_ONCE: Entry := Entry(Record(0, "a", 1, Failed, 1), TaskRow(Failed, 1), 1)

  // ---------------------------------------------------------------- one task, two workers

  ghost predicate HeldTwice(leases: seq<Lease>) {
    exists i, j :: 0 <= i < j < |leases| && leases[i].task.id == leases[j].task.id
  }

  /** Task `k` is pending, the cursor has not passed it, and the channel holds its record alone. */
  ghost predicate AloneAhead(job: Job, k: nat, r: Record) {
    && Sorted(job.tasks) && job.offset <= k < |job.tasks|
    && job.tasks[k].rec == r && r.status == Pending && job.buffer == [r]
  }

  lemma MarkFrame(job: Job, worker: string, t: Record, k: nat)
    requires Sorted(job.tasks) && k < |job.tasks| && t.id != job.tasks[k].rec.id
    ensures var r := MarkRunning(job, worker, t);
            && Sorted(r.tasks) && |r.tasks| == |job.tasks| && r.tasks[k] == job.tasks[k]
            && r.offset == job.offset && r.buffer == job.buffer
  {
    var r := MarkRunning(job, worker, t);
    forall i: nat, j: nat ensures Before(r.tasks, i, j) {
      assert Before(job.tasks, i, j);
    }
  }

  lemma {:induction false} MarkAllFrame(job: Job, worker: string, taken: seq<Record>, k: nat)
    requires Sorted(job.tasks) && k < |job.tasks|
    requires forall i :: 0 <= i < |taken| ==> taken[i].id != job.tasks[k].rec.id
    ensures var r := MarkAll(job, worker, taken);
            && Sorted(r.tasks) && |r.tasks| == |job.tasks| && r.tasks[k] == job.tasks[k]
            && r.offset == job.offset && r.buffer == job.buffer
  {
    hide MarkRunning, Sorted;
    if taken != [] {
      var n := |taken| - 1;
      MarkAllFrame(job, worker, taken[..n], k);
      MarkFrame(MarkAll(job, worker, taken[..n]), worker, taken[n], k);
    }
  }

  lemma {:induction false} TakesOnly(worker: string, n: nat)
    ensures NoManualRetry(Takes(worker, n))
  {
    if n > 0 {
      TakesOnly(worker, n - 1);
    }
  }

  /** Everything but one record of task `k` is taken out of the channel. */
  lemma TakeOthers(job: Job, k: nat, r: Record, others: seq<Record>, m: nat) returns (es: seq<Event>)
    requires Sorted(job.tasks) && job.offset <= k < |job.tasks| && job.tasks[k].rec == r && r.status == Pending
    requires multiset(job.buffer) == multiset(others + [r])
    requires forall i :: 0 <= i < |others| ==> others[i].id != r.id
    ensures ValidRun(job, es, m) && NoManualRetry(es) && AloneAhead(Run(job, es, m), k, r)
    ensures Run(job, es, m).offset == job.offset && |Run(job, es, m).tasks| == |job.tasks|
  {
    es := [EvShuffle(others + [r])] + Takes("w1", |others|);
    assert multiset(others + [r]) == multiset(others) + multiset([r]);
    hide Sorted, MarkAll;
    AcquireIsRun(job, "w1", others, [r], m);
    TakesOnly("w1", |others|);
    MarkAllFrame(job.(buffer := [r]), "w1", others, k);
  }

  /** One fill with almost the whole channel free consumes its batch. */
  lemma FillAlone(job: Job, k: nat, r: Record)
    requires AloneAhead(job, k, r)
    ensures var stop := job.offset + |Batch(job.tasks, job.offset)|;
            && job.offset < stop <= |job.tasks|
            && Fill(job) == job.(offset := stop, buffer := [r] + PendingOf(job.tasks[job.offset..stop]))
  {
    var batch := Batch(job.tasks, job.offset);
    var p := Scan(batch, [r]).processed;
    ScanPushes(batch, [r]);
    PendingLength(batch[..p]);
    assert p == |batch| && batch[..p] == batch;
    assert batch == job.tasks[job.offset..job.offset + |batch|];
  }

  lemma {:induction false} PendingLength(batch: seq<Entry>)
    ensures |PendingOf(batch)| <= |batch|
  {
    if batch != [] {
      PendingLength(batch[1..]);
    }
  }

  lemma {:induction false} PendingHolds(tasks: seq<Entry>, start: nat, stop: nat, k: nat)
    requires start <= k < stop <= |tasks| && tasks[k].rec.status == Pending
    ensures tasks[k].rec in PendingOf(tasks[start..stop])
    decreases stop - start
  {
    assert tasks[start..stop][1..] == tasks[start + 1..stop];
    if start < k {
      PendingHolds(tasks, start + 1, stop, k);
    }
  }

  lemma PendingBelow(tasks: seq<Entry>, start: nat, stop: nat, k: nat)
    requires Sorted(tasks) && start <= stop <= k < |tasks|
    ensures forall i :: 0 <= i < |PendingOf(tasks[start..stop])| ==>
              PendingOf(tasks[start..stop])[i].id != tasks[k].rec.id
  {
    var rs := PendingOf(tasks[start..stop]);
    PendingOfSound(tasks, start, stop);
    forall i | 0 <= i < |rs|
      ensures rs[i].id != tasks[k].rec.id
    {
      assert rs[i] in rs;
      var j: nat :| start <= j && BufferedAt(tasks, stop, j, rs[i]);
      assert Before(tasks, j, k);
    }
  }

  /** One fill either queues task `k` again or only others. */
  lemma FillOnce(job: Job, k: nat, r: Record, m: nat) returns (filled: Job, more: seq<Record>)
    requires AloneAhead(job, k, r)
    ensures ValidRun(job, [EvFill], m) && Run(job, [EvFill], m) == filled
    ensures filled.tasks == job.tasks && filled.buffer == [r] + more && job.offset < filled.offset <= |job.tasks|
    ensures if k < filled.offset then r in more else forall i :: 0 <= i < |more| ==> more[i].id != r.id
    ensures multiset(filled.buffer) == multiset(more + [r])
  {
    filled := Fill(job);
    FillAlone(job, k, r);
    OneStep(job, EvFill, m);
    hide ValidRun, Run, Fill, PendingOf, Batch;
    more := PendingOf(job.tasks[job.offset..filled.offset]);
    if k < filled.offset {
      PendingHolds(job.tasks, job.offset, filled.offset, k);
    } else {
      PendingBelow(job.tasks, job.offset, filled.offset, k);
    }
  }

  /** The fills come round to task `k` and queue it a second time. */
  lemma {:induction false} QueuedAgain(job: Job, k: nat, r: Record, m: nat) returns (es: seq<Event>, more: seq<Record>)
    requires AloneAhead(job, k, r)
    ensures ValidRun(job, es, m) && NoManualRetry(es)
    ensures var end := Run(job, es, m);
            && Sorted(end.tasks) && k < |end.tasks| && end.tasks[k].rec == r
            && end.buffer == [r] + more && r in more
    decreases |job.tasks| - job.offset
  {
    hide ValidRun, Run, Sorted;
    var filled;
    filled, more := FillOnce(job, k, r, m);
    es := [EvFill];
    if k >= filled.offset {
      var taking := TakeOthers(filled, k, r, more, m);
      var rest;
      rest, more := QueuedAgain(Run(filled, taking, m), k, r, m);
      hide AloneAhead;
      RunAppend(filled, taking, rest, m);
      RunAppend(job, es, taking + rest, m);
      NoManualRetryAppend(taking, rest);
      NoManualRetryAppend(es, taking + rest);
      es := es + (taking + rest);
    }
  }

  lemma NoManualRetryAppend(front: seq<Event>, back: seq<Event>)
    requires NoManualRetry(front) && NoManualRetry(back)
    ensures NoManualRetry(front + back)
  {
  }

  /** A record that is in the channel twice goes to two workers. */
  lemma TakenTwice(job: Job, r: Record, more: seq<Record>, m: nat) returns (es: seq<Event>)
    requires job.buffer == [r] + more && r in more && r.status == Pending
    ensures ValidRun(job, es, m) && NoManualRetry(es) && HeldTwice(Run(job, es, m).leases)
  {
    var rest := TwiceInFront(r, more);
    hide Conserved;
    es := [EvShuffle([r, r] + rest)] + Takes("w1", 2);
    TakesOnly("w1", 2);
    assert Conserved(job.buffer, [r, r], rest);
    AcquireIsRun(job, "w1", [r, r], rest, m);
    TwoMarks(job.(buffer := rest), "w1", r);
  }

  lemma TwiceInFront(r: Record, more: seq<Record>) returns (rest: seq<Record>)
    requires r in more
    ensures Conserved([r] + more, [r, r], rest)
  {
    var x :| 0 <= x < |more| && more[x] == r;
    assert more == more[..x] + [r] + more[x + 1..];
    rest := more[..x] + more[x + 1..];
  }

  lemma TwoMarks(job: Job, worker: string, r: Record)
    requires r.status == Pending
    ensures MarkAll(job, worker, [r, r]).leases ==
            job.leases + [Lease(worker, ToRunning(r)), Lease(worker, ToRunning(r))]
    ensures HeldTwice(MarkAll(job, worker, [r, r]).leases)
  {
    var n := |job.leases|;
    var once := MarkRunning(job, worker, r);
    assert [r, r][..1] == [r] && [r][..0] == [];
    assert MarkAll(job, worker, []) == job && MarkAll(job, worker, [r]) == once;
    var leases := MarkAll(job, worker, [r, r]).leases;
    assert leases[n].task.id == leases[n + 1].task.id;
  }

  /** After a manual retry some run gives one task to two workers if and only if the channel was not
      empty and something had failed. */
  lemma RetryDispatchesTwiceExactlyWhen(job: Job, m: nat)
    requires Inv(job, m) && m > 0
    ensures (exists es :: ValidRun(Retried(job), es, m) && CleanRun(Retried(job), es, m)
                          && HeldTwice(Run(Retried(job), es, m).leases))
            <==> job.buffer != [] && AnyFailed(job.tasks)
  {
    if job.buffer != [] && AnyFailed(job.tasks) {
      var es := DispatchedTwice(job, m);
      WithoutRetryClean(Retried(job), es, m);
    } else {
      RetryKeeps(job, m);
      forall es | ValidRun(Retried(job), es, m) && CleanRun(Retried(job), es, m)
        ensures !HeldTwice(Run(Retried(job), es, m).leases)
      {
        RunKeeps(Retried(job), es, m);
      }
    }
  }

  /** After the rewind some record of the channel is one of a pending task ahead of the cursor. */
  lemma RewoundAhead(job: Job, m: nat) returns (k: nat)
    requires Inv(job, m) && job.buffer != [] && AnyFailed(job.tasks)
    ensures var r, after := job.buffer[0], Retried(job);
            && Sorted(after.tasks) && after.offset <= k < |after.tasks|
            && after.tasks[k].rec == r && r.status == Pending && after.buffer == job.buffer
    ensures forall i :: 1 <= i < |job.buffer| ==> job.buffer[i].id != job.buffer[0].id
  {
    assert job.buffer[0] in job.buffer;
    k :| BufferedAt(job.tasks, job.offset, k, job.buffer[0]);
    RetryKeepsHolders(job);
    hide Counted, LeasesSound, Mirrored, Capped, Deduplicated, Distinct, TrackResets;
    assert Retried(job).tasks[k] == ResetEntry(job.tasks[k]);
  }

  lemma DispatchedTwice(job: Job, m: nat) returns (es: seq<Event>)
    requires Inv(job, m) && job.buffer != [] && AnyFailed(job.tasks)
    ensures ValidRun(Retried(job), es, m) && NoManualRetry(es) && HeldTwice(Run(Retried(job), es, m).leases)
  {
    var k := RewoundAhead(job, m);
    hide Inv, Retried, AnyFailed, Sorted, HeldTwice;
    var r, others, after := job.buffer[0], job.buffer[1..], Retried(job);
    assert job.buffer == [r] + others;
    var emptying := TakeOthers(after, k, r, others, m);
    var alone := Run(after, emptying, m);
    var filling, more := QueuedAgain(alone, k, r, m);
    var full := Run(alone, filling, m);
    var taking := TakenTwice(full, r, more, m);
    RunAppend(alone, filling, taking, m);
    RunAppend(after, emptying, filling + taking, m);
    es := emptying + (filling + taking);
  }

  const QUEUED: Entry := Entry(Record(1, "a", 1, Pending, 0), TaskRow(Pending, 0), 0)
  const BROKEN: Entry := Entry(Record(2, "b", 1, Failed, 1), TaskRow(Failed, 1), 1)

  /** Two tasks, the first still in the channel and the second failed. */
  function TwoTasks(): Job {
    NewJob(0, false).(
      tasks := [QUEUED, BROKEN], dedup := map["a" := 1, "b" := 2], offset := 2, buffer := [QUEUED.rec],
      row := JobRow(JobRunning, 2, Tally(1, 0, 0, 1), 2, 0, false))
  }

  lemma TwoTasksCounted()
    ensures Counted(TwoTasks().tasks, TwoTasks().row, TwoTasks().stats)
  {
    assert [QUEUED, BROKEN][..1] == [QUEUED] && [QUEUED][..0] == [];
  }

  lemma TwoTasksSound()
    ensures Inv(TwoTasks(), 3)
  {
    hide Counted;
    TwoTasksCounted();
    var tasks := TwoTasks().tasks;
    assert SrcAt(tasks, 0, "a") && SrcAt(tasks, 1, "b") && BufferedAt(tasks, 2, 0, QUEUED.rec);
  }

  lemma TwoTasksRefilled()
    ensures Fill(Retried(TwoTasks())).buffer == [QUEUED.rec, QUEUED.rec, ResetEntry(BROKEN).rec]
    ensures Fill(Retried(TwoTasks())).tasks == [QUEUED, ResetEntry(BROKEN)]
    ensures Fill(Retried(TwoTasks())).leases == []
  {
    var reset := ResetEntry(BROKEN);
    assert TwoTasks().tasks[1].rec.status == Failed;
    assert ResetAll([QUEUED, BROKEN]) == [QUEUED, reset];
    assert Batch([QUEUED, reset], 0) == [QUEUED, reset];
    assert [QUEUED, reset][1..] == [reset] && [reset][1..] == [];
    var twice := [QUEUED.rec] + [QUEUED.rec];
    assert Scan([], twice + [reset.rec]).buffer == twice + [reset.rec];
    assert Scan([reset], twice).buffer == twice + [reset.rec];
    assert Scan([QUEUED, reset], [QUEUED.rec]).buffer == twice + [reset.rec];
  }

  /** From that sound state the retry followed by one fill puts the first task into the channel again,
      and it goes to two workers. */
  lemma RetryCanDispatchTwice()
    ensures Inv(TwoTasks(), 3)
    ensures var filled := Fill(Retried(TwoTasks()));
            && |filled.buffer| == 3 && |Take(filled, "w1").buffer| == 2
            && var leases := Take(Take(filled, "w1"), "w2").leases;
               leases == [Lease("w1", ToRunning(QUEUED.rec)), Lease("w2", ToRunning(QUEUED.rec))]
  {
    TwoTasksSound();
    TwoTasksRefilled();
    var filled := Fill(Retried(TwoTasks()));
    hide Fill, Retried, Inv, Track, Promote, Rank;
    assert filled.buffer[0] == filled.buffer[1] == QUEUED.rec;
  }
}
