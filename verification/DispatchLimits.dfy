/** Where the dispatcher's bookkeeping depends on its callers: the exact conditions. */
module DispatchLimits {
  import opened TransferQueue
  import opened DispatchSafety
  import opened DispatchRetries
  import opened DispatchRuns

  // ---------------------------------------------------------------- what a batch does to the books

  /** The record of rank `k` as the last of these updates that names it leaves it. */
  function Latest(tasks: seq<Entry>, updates: seq<Record>, k: nat): Record
    requires k < |tasks|
  {
    if updates == [] then tasks[k].rec
    else
      var u := updates[|updates| - 1];
      if Rank(tasks, u.id) == k then Merge(tasks[k].rec, u) else Latest(tasks, updates[..|updates| - 1], k)
  }

  /** How far a batch puts the counter of `s` off: whoever names a task again moves it from the status it had
      before the batch, not from the one that the batch itself gave it. */
  ghost function CountError(tasks: seq<Entry>, updates: seq<Record>, s: Status): int {
    if updates == [] then 0
    else
      var front, u := updates[..|updates| - 1], updates[|updates| - 1];
      var k := Rank(tasks, u.id);
      CountError(tasks, front, s)
      + if k == |tasks| then 0
        else Indicator(Latest(tasks, front, k).status == s) - Indicator(tasks[k].rec.status == s)
  }

  ghost function DoneBytes(r: Record): int {
    if r.status == Completed then PositiveSize(r.size) else 0
  }

  /** How far it puts the total size off, which no update touches. */
  ghost function SizeError(tasks: seq<Entry>, updates: seq<Record>): int {
    if updates == [] then 0
    else
      var front, u := updates[..|updates| - 1], updates[|updates| - 1];
      var k := Rank(tasks, u.id);
      SizeError(tasks, front)
      + if k == |tasks| then 0
        else PositiveSize(Latest(tasks, front, k).size) - PositiveSize(Merge(tasks[k].rec, u).size)
  }

  /** How far it puts the bytes done off, to which every update that completes an unfinished task adds. */
  ghost function DoneError(tasks: seq<Entry>, updates: seq<Record>): int {
    if updates == [] then 0
    else
      var front, u := updates[..|updates| - 1], updates[|updates| - 1];
      var k := Rank(tasks, u.id);
      DoneError(tasks, front)
      + if k == |tasks| then 0
        else DoneBytes(Latest(tasks, front, k)) - DoneBytes(Merge(tasks[k].rec, u)) + Gained(tasks[k].rec, u)
  }

  function Gained(existing: Record, u: Record): int {
    if existing.status != Completed && u.status == Completed then PositiveSize(existing.size) else 0
  }

  lemma {:induction false} WrittenIsLatest(tasks: seq<Entry>, updates: seq<Record>, k: nat)
    requires k < |tasks|
    ensures Written(tasks, tasks, updates)[k].rec == Latest(tasks, updates, k)
  {
    if updates != [] {
      WrittenIsLatest(tasks, updates[..|updates| - 1], k);
      hide Merge, Rank;
    }
  }

  /** One more update of a known task. */
  lemma {:induction false} WrittenMoves(tasks: seq<Entry>, front: seq<Record>, u: Record)
    requires Rank(tasks, u.id) < |tasks|
    ensures var k := Rank(tasks, u.id);
            var before, after := Written(tasks, tasks, front), Written(tasks, tasks, front + [u]);
            var was, now := Latest(tasks, front, k), Merge(tasks[k].rec, u);
            && (forall s :: Count(after, s) == Count(before, s) - Indicator(was.status == s) + Indicator(u.status == s))
            && Bytes(after, false) == Bytes(before, false) - PositiveSize(was.size) + PositiveSize(now.size)
            && Bytes(after, true) == Bytes(before, true) - DoneBytes(was) + DoneBytes(now)
  {
    var k := Rank(tasks, u.id);
    var before, now := Written(tasks, tasks, front), Merge(tasks[k].rec, u);
    assert (front + [u])[..|front|] == front;
    WrittenIsLatest(tasks, front, k);
    CensusUpdate(before, k, Entry(now, TaskRow(now.status, now.retries), before[k].attempts));
    assert now.status == u.status;
    hide Merge, Count, Bytes, Rank, Latest;
  }

  lemma {:induction false} TrackedOff(tasks: seq<Entry>, updates: seq<Record>, stats: Stats, s: Status)
    ensures Owed(TrackAll(stats, Actions(tasks, updates))).Of(s) - Owed(stats).Of(s)
            == Count(Written(tasks, tasks, updates), s) - Count(tasks, s) + CountError(tasks, updates, s)
  {
    if updates != [] {
      var n := |updates| - 1;
      var front, u := updates[..n], updates[n];
      var k := Rank(tasks, u.id);
      TrackedOff(tasks, front, stats, s);
      assert updates == front + [u];
      if k < |tasks| {
        WrittenMoves(tasks, front, u);
        ActionsPush(tasks, front, u, stats);
        TrackMoves(TrackAll(stats, Actions(tasks, front)), tasks[k].rec.status, u.status, s);
      }
      hide Count, Track, TrackAll, Latest, Indicator, Rank;
    }
  }

  lemma {:induction false} ActionsPush(tasks: seq<Entry>, front: seq<Record>, u: Record, stats: Stats)
    requires Rank(tasks, u.id) < |tasks|
    ensures var was := tasks[Rank(tasks, u.id)].rec.status;
            TrackAll(stats, Actions(tasks, front + [u])) == Track(TrackAll(stats, Actions(tasks, front)), was, u.status)
  {
    var was, actions := tasks[Rank(tasks, u.id)].rec.status, Actions(tasks, front);
    assert (front + [u])[..|front|] == front;
    assert (actions + [Action(was, u.status)])[..|actions|] == actions;
    assert Track(TrackAll(stats, actions), was, was) == TrackAll(stats, actions);
    hide Track, Rank;
  }

  lemma {:induction false} BytesOff(tasks: seq<Entry>, updates: seq<Record>)
    ensures Bytes(tasks, false) == Bytes(Written(tasks, tasks, updates), false) + SizeError(tasks, updates)
    ensures Bytes(tasks, true) + SuccessBytes(tasks, updates)
            == Bytes(Written(tasks, tasks, updates), true) + DoneError(tasks, updates)
  {
    if updates != [] {
      var n := |updates| - 1;
      var front, u := updates[..n], updates[n];
      BytesOff(tasks, front);
      assert updates == front + [u];
      if Rank(tasks, u.id) < |tasks| {
        WrittenMoves(tasks, front, u);
      }
      hide Bytes, Latest, Rank, Merge, DoneBytes;
    }
  }

  lemma {:induction false} RowAfterKeeps(row: JobRow, actions: seq<Action>)
    ensures RowAfter(row, actions) == row.(status := RowAfter(row, actions).status)
  {
    if actions != [] {
      RowAfterKeeps(row, actions[..|actions| - 1]);
    }
  }

  /** For any batch of updates, of whatever tasks and with whatever statuses and sizes: it puts the counters
      and the byte counts of a job off by exactly these amounts. */
  lemma BatchIsOffBy(job: Job, updates: seq<Record>)
    requires Counted(job.tasks, job.row, job.stats)
    ensures var job' := BatchUpdate(job, updates);
            && (forall s :: job'.row.counts.Of(s) + Owed(job'.stats).Of(s)
                            == Count(job'.tasks, s) + CountError(job.tasks, updates, s))
            && job'.row.total == |job'.tasks|
            && job'.row.totalSize == Bytes(job'.tasks, false) + SizeError(job.tasks, updates)
            && job'.row.successSize == Bytes(job'.tasks, true) + DoneError(job.tasks, updates)
  {
    var actions := Actions(job.tasks, updates);
    RowAfterKeeps(job.row, actions);
    forall s
      ensures Owed(TrackAll(job.stats, actions)).Of(s) - Owed(job.stats).Of(s)
              == Count(Written(job.tasks, job.tasks, updates), s) - Count(job.tasks, s)
                 + CountError(job.tasks, updates, s)
    {
      TrackedOff(job.tasks, updates, job.stats, s);
    }
    BytesOff(job.tasks, updates);
    hide Written, Actions, TrackAll, RowAfter, SuccessBytes, Count, Bytes, CountError, SizeError, DoneError;
  }

  /** The errors of a batch cancel out. */
  ghost predicate Cancels(tasks: seq<Entry>, updates: seq<Record>) {
    (forall s :: CountError(tasks, updates, s) == 0) && SizeError(tasks, updates) == 0 && DoneError(tasks, updates) == 0
  }

  /** So a batch keeps the books if and only if its errors cancel out. */
  lemma BatchExactlyWhen(job: Job, updates: seq<Record>)
    requires Counted(job.tasks, job.row, job.stats)
    ensures var job' := BatchUpdate(job, updates);
            Counted(job'.tasks, job'.row, job'.stats) <==> Cancels(job.tasks, updates)
  {
    BatchIsOffBy(job, updates);
    var job' := BatchUpdate(job, updates);
    hide BatchUpdate, Count, Bytes, CountError, SizeError, DoneError, Owed;
    OffByNothing(job'.tasks, job'.row, job'.stats, job.tasks, updates);
  }

  lemma OffByNothing(tasks: seq<Entry>, row: JobRow, stats: Stats, was: seq<Entry>, updates: seq<Record>)
    requires forall s :: row.counts.Of(s) + Owed(stats).Of(s) == Count(tasks, s) + CountError(was, updates, s)
    requires row.total == |tasks| && row.totalSize == Bytes(tasks, false) + SizeError(was, updates)
    requires row.successSize == Bytes(tasks, true) + DoneError(was, updates)
    ensures Counted(tasks, row, stats) <==> Cancels(was, updates)
  {
    hide Count, Bytes, CountError, SizeError, DoneError, Owed;
    if Counted(tasks, row, stats) {
      forall s
        ensures CountError(was, updates, s) == 0
      {
        assert row.counts.Of(s) + Owed(stats).Of(s) == Count(tasks, s) + CountError(was, updates, s);
      }
    }
    if Cancels(was, updates) {
      forall s
        ensures row.counts.Of(s) + Owed(stats).Of(s) == Count(tasks, s)
      {
        assert CountError(was, updates, s) == 0;
      }
    }
  }

  // ---------------------------------------------------------------- one update, and batches of reports

  lemma OneError(tasks: seq<Entry>, u: Record)
    requires Rank(tasks, u.id) < |tasks|
    ensures var was := tasks[Rank(tasks, u.id)].rec;
            var now := Merge(was, u);
            && (forall s :: CountError(tasks, [u], s) == 0)
            && SizeError(tasks, [u]) == PositiveSize(was.size) - PositiveSize(now.size)
            && DoneError(tasks, [u]) == DoneBytes(was) - DoneBytes(now) + Gained(was, u)
            && now.status == u.status
  {
    assert [u][..0] == [];
    hide Rank;
  }

  /** Any one update of a known task, whatever its old and new status: the job's books stay right if and
      only if it changes no size and takes no bytes that were counted as done. */
  lemma UpdateExactlyWhen(job: Job, u: Record)
    requires Counted(job.tasks, job.row, job.stats) && Rank(job.tasks, u.id) < |job.tasks|
    ensures var job', was := BatchUpdate(job, [u]), job.tasks[Rank(job.tasks, u.id)].rec;
            var size := PositiveSize(Merge(was, u).size);
            Counted(job'.tasks, job'.row, job'.stats) <==>
              size == PositiveSize(was.size) && (was.status == Completed && u.status != Completed ==> size == 0)
  {
    BatchExactlyWhen(job, [u]);
    OneError(job.tasks, u);
    hide Counted, BatchUpdate, Rank, CountError, SizeError, DoneError, Merge;
  }

  ghost function IdsOf(updates: seq<Record>): set<int> {
    set i | 0 <= i < |updates| :: updates[i].id
  }

  lemma {:induction false} IdsOfPush(updates: seq<Record>, u: Record)
    ensures IdsOf(updates + [u]) == IdsOf(updates) + {u.id}
  {
    var all := updates + [u];
    assert all[|updates|] == u;
    forall id | id in IdsOf(updates) ensures id in IdsOf(all) {
      var i :| 0 <= i < |updates| && updates[i].id == id;
      assert all[i].id == id;
    }
  }

  /** Reports on running tasks of this job, each with the task's own size or none. */
  ghost predicate IsReport(tasks: seq<Entry>, u: Record) {
    && Rank(tasks, u.id) < |tasks|
    && tasks[Rank(tasks, u.id)].rec.status == Running
    && (u.status == Completed || u.status == Failed)
    && (u.size == 0 || u.size == tasks[Rank(tasks, u.id)].rec.size)
  }

  ghost predicate AllReports(tasks: seq<Entry>, updates: seq<Record>) {
    forall i :: 0 <= i < |updates| ==> IsReport(tasks, updates[i])
  }

  lemma AllReportsFront(tasks: seq<Entry>, updates: seq<Record>)
    requires AllReports(tasks, updates) && updates != []
    ensures AllReports(tasks, updates[..|updates| - 1]) && IsReport(tasks, updates[|updates| - 1])
  {
    var front := updates[..|updates| - 1];
    forall i | 0 <= i < |front| ensures IsReport(tasks, front[i]) {
      assert IsReport(tasks, updates[i]);
    }
  }

  /** Reports leave a task they name no longer running, and sizes as they were. */
  lemma {:induction false} LatestReport(tasks: seq<Entry>, updates: seq<Record>, k: nat)
    requires Sorted(tasks) && AllReports(tasks, updates) && k < |tasks|
    ensures var r := Latest(tasks, updates, k);
            if tasks[k].rec.id in IdsOf(updates) then r.status != Running && r.size == tasks[k].rec.size
            else r == tasks[k].rec
  {
    if updates != [] {
      var n := |updates| - 1;
      AllReportsFront(tasks, updates);
      LatestReport(tasks, updates[..n], k);
      IdsOfPush(updates[..n], updates[n]);
      assert updates == updates[..n] + [updates[n]];
      RankOf(tasks, k);
      hide AllReports, Sorted, IdsOf;
    }
  }

  /** A report that names its task for the first time puts nothing off, any other the running counter. */
  lemma {:induction false} ReportError(tasks: seq<Entry>, front: seq<Record>, u: Record)
    requires Sorted(tasks) && AllReports(tasks, front) && IsReport(tasks, u)
    ensures CountError(tasks, front + [u], Running)
            == CountError(tasks, front, Running) - if u.id in IdsOf(front) then 1 else 0
    ensures u.id !in IdsOf(front) ==>
              && (forall s :: CountError(tasks, front + [u], s) == CountError(tasks, front, s))
              && SizeError(tasks, front + [u]) == SizeError(tasks, front)
              && DoneError(tasks, front + [u]) == DoneError(tasks, front)
  {
    assert (front + [u])[..|front|] == front;
    LatestReport(tasks, front, Rank(tasks, u.id));
    hide AllReports, Sorted, IdsOf, Latest, Rank;
  }

  /** Each report that names a task again puts the running counter one off. */
  lemma {:induction false} ReportErrors(tasks: seq<Entry>, updates: seq<Record>)
    requires Sorted(tasks) && AllReports(tasks, updates)
    ensures CountError(tasks, updates, Running) == |IdsOf(updates)| - |updates|
    ensures |IdsOf(updates)| == |updates| ==>
              && (forall s :: CountError(tasks, updates, s) == 0)
              && SizeError(tasks, updates) == 0 && DoneError(tasks, updates) == 0
  {
    if updates != [] {
      var n := |updates| - 1;
      var front, u := updates[..n], updates[n];
      AllReportsFront(tasks, updates);
      ReportErrors(tasks, front);
      IdsOfPush(front, u);
      assert updates == front + [u];
      ReportError(tasks, front, u);
      DistinctIds(front);
      if u.id in IdsOf(front) {
        assert IdsOf(updates) == IdsOf(front);
      }
      hide AllReports, IsReport, Sorted, IdsOf, CountError, SizeError, DoneError, Distinct;
    }
  }

  lemma {:induction false} DistinctPush(updates: seq<Record>, u: Record)
    ensures Distinct(updates + [u]) <==> Distinct(updates) && u.id !in IdsOf(updates)
  {
    var all := updates + [u];
    if Distinct(all) {
      forall i, j | 0 <= i < j < |updates| ensures updates[i].id != updates[j].id {
        assert all[i].id != all[j].id;
      }
      forall i | 0 <= i < |updates| ensures updates[i].id != u.id {
        assert all[i].id != all[|updates|].id;
      }
    } else {
      var i, j :| 0 <= i < j < |all| && all[i].id == all[j].id;
      if j < |updates| {
        assert updates[i].id == updates[j].id;
      } else {
        assert updates[i].id in IdsOf(updates);
      }
    }
  }

  lemma {:induction false} DistinctIds(updates: seq<Record>)
    ensures |IdsOf(updates)| <= |updates|
    ensures |IdsOf(updates)| == |updates| <==> Distinct(updates)
  {
    hide Distinct;
    if updates == [] {
      assert Distinct(updates) by {
        DistinctEmpty();
      }
    } else {
      var n := |updates| - 1;
      var front, u := updates[..n], updates[n];
      assert updates == front + [u];
      IdsOfPush(front, u);
      DistinctIds(front);
      DistinctPush(front, u);
      if u.id in IdsOf(front) {
        assert IdsOf(updates) == IdsOf(front);
      }
    }
  }

  lemma DistinctEmpty()
    ensures Distinct([])
  {
  }

  /** A batch of reports keeps the job's books if and only if it names no task twice. */
  lemma BatchExactlyWhenDistinct(job: Job, updates: seq<Record>)
    requires Sorted(job.tasks) && Counted(job.tasks, job.row, job.stats) && AllReports(job.tasks, updates)
    ensures var job' := BatchUpdate(job, updates);
            Counted(job'.tasks, job'.row, job'.stats) <==> Distinct(updates)
  {
    BatchExactlyWhen(job, updates);
    ReportErrors(job.tasks, updates);
    DistinctIds(updates);
    hide Counted, BatchUpdate, CountError, SizeError, DoneError, IdsOf, Distinct, AllReports, Sorted;
  }

  const BUSY_TASK: Entry := Entry(Record(0, "a", 1, Running, 0), TaskRow(Running, 0), 1)

  /** One task, running. */
  function BusyJob(): Job {
    NewJob(0, false).(tasks := [BUSY_TASK], dedup := map["a" := 0], offset := 1,
                      row := JobRow(JobRunning, 1, Tally(0, 1, 0, 0), 1, 0, false))
  }

  lemma BusyJobCounted()
    ensures Counted(BusyJob().tasks, BusyJob().row, BusyJob().stats)
  {
    assert [BUSY_TASK][..0] == [];
  }

  /** A batch that reports its failure twice. */
  lemma TwiceInABatch()
    ensures var job, u := BusyJob(), Record(0, "", 0, Failed, 1);
            && Counted(job.tasks, job.row, job.stats) && AllReports(job.tasks, [u, u])
            && var job' := BatchUpdate(job, [u, u]); !Counted(job'.tasks, job'.row, job'.stats)
  {
    var job, u := BusyJob(), Record(0, "", 0, Failed, 1);
    BusyJobCounted();
    assert Rank(job.tasks, 0) == 0 && IsReport(job.tasks, u);
    assert [u, u][0].id == [u, u][1].id;
    hide BatchUpdate, Counted, IsReport;
    BatchExactlyWhenDistinct(job, [u, u]);
  }

  const DONE_TASK: Entry := Entry(Record(0, "a", 1, Completed, 0), TaskRow(Completed, 0), 1)

  /** One task, completed. */
  function DoneJob(): Job {
    NewJob(0, false).(tasks := [DONE_TASK], dedup := map["a" := 0], offset := 1,
                      row := JobRow(JobRunning, 1, Tally(0, 0, 1, 0), 1, 1, false))
  }

  lemma DoneJobSound()
    ensures Inv(DoneJob(), 3)
  {
    assert [DONE_TASK][..0] == [];
    assert SrcAt(DoneJob().tasks, 0, "a");
  }

  /** A late failure report on a completed task: its bytes stay counted as done. */
  lemma LateFailureKeepsBytes()
    ensures Inv(DoneJob(), 3)
    ensures var job' := BatchUpdate(DoneJob(), [Record(0, "a", 1, Failed, 1)]);
            !Counted(job'.tasks, job'.row, job'.stats)
  {
    DoneJobSound();
    assert Rank(DoneJob().tasks, 0) == 0;
    UpdateExactlyWhen(DoneJob(), Record(0, "a", 1, Failed, 1));
    hide Inv, Counted, BatchUpdate;
  }

  // ---------------------------------------------------------------- whose counters a reset moves

  /** The reset handler: the record is found under its job-independent key, and the counters moved
      are those of the job being looked at when it was found. */
  function ResetTask(jobs: map<int, Job>, owner: int, credited: int, id: int): map<int, Job>
    requires owner in jobs && credited in jobs
  {
    var reset := AutoReset(jobs[owner], id);
    if credited == owner then jobs[owner := reset]
    else
      var other := jobs[credited];
      jobs[owner := jobs[owner].(tasks := reset.tasks)]
          [credited := other.(stats := Track(other.stats, Failed, Pending), row := Reactivate(other.row))]
  }

  /** The search loop of the reset handler over the listed jobs, none of them sharded. */
  method SearchAndReset(jobs: map<int, Job>, owner: int, listed: seq<int>, id: int)
    returns (jobs': map<int, Job>, found: bool)
    requires owner in jobs && forall i :: 0 <= i < |listed| ==> listed[i] in jobs
    ensures found <==> listed != [] && Rank(jobs[owner].tasks, id) < |jobs[owner].tasks|
                       && jobs[owner].tasks[Rank(jobs[owner].tasks, id)].rec.status == Failed
    ensures jobs' == if found then ResetTask(jobs, owner, listed[0], id) else jobs
  {
    hide Track, Reactivate;
    jobs', found := jobs, false;
    var i := 0;
    while i < |listed| && !found
      invariant i <= |listed|
      invariant !found ==> jobs' == jobs
      invariant !found && i > 0 ==> !(Rank(jobs[owner].tasks, id) < |jobs[owner].tasks|
                                      && jobs[owner].tasks[Rank(jobs[owner].tasks, id)].rec.status == Failed)
      invariant found ==> listed != [] && Rank(jobs[owner].tasks, id) < |jobs[owner].tasks|
                          && jobs[owner].tasks[Rank(jobs[owner].tasks, id)].rec.status == Failed
                          && jobs' == ResetTask(jobs, owner, listed[0], id)
      decreases |listed| - i, !found
    {
      var k := Rank(jobs[owner].tasks, id);
      if k < |jobs[owner].tasks| && jobs[owner].tasks[k].rec.status == Failed {
        assert i == 0;
        jobs', found := ResetTask(jobs, owner, listed[i], id), true;
      } else {
        i := i + 1;
      }
    }
  }

  /** The reset keeps every job's books exactly when it credits the job that owns the task. */
  lemma ResetExactlyWhenOwner(jobs: map<int, Job>, owner: int, credited: int, id: int, maxRetryCount: nat)
    requires owner in jobs && credited in jobs && FailedTask(jobs[owner].tasks, id)
    requires forall j :: j in jobs ==> Inv(jobs[j], maxRetryCount)
    ensures var jobs' := ResetTask(jobs, owner, credited, id);
            (forall j :: j in jobs' ==> Inv(jobs'[j], maxRetryCount)) <==> credited == owner
  {
    hide StoreSound, BufferSound, LeasesSound;
    var jobs' := ResetTask(jobs, owner, credited, id);
    AutoResetKeeps(jobs[owner], id, maxRetryCount);
    if credited != owner {
      var before, after := jobs[owner], jobs'[owner];
      ResetMoves(before, id);
      assert after.stats == before.stats && after.row == before.row;
      assert before.row.counts.Of(Failed) + Owed(before.stats).Of(Failed) == Count(before.tasks, Failed);
      assert !Counted(after.tasks, after.row, after.stats);
      assert owner in jobs' && !Inv(jobs'[owner], maxRetryCount);
    }
  }

  lemma ResetMoves(job: Job, id: int)
    requires FailedTask(job.tasks, id)
    ensures Count(AutoReset(job, id).tasks, Failed) == Count(job.tasks, Failed) - 1
  {
    var k := Rank(job.tasks, id);
    CensusUpdate(job.tasks, k, AutoReset(job, id).tasks[k]);
  }

  const FAILED_TASK: Entry := Entry(Record(1000000, "a", 1, Failed, 1), TaskRow(Failed, 1), 1)

  function OwnerJob(): Job {
    NewJob(1, false).(tasks := [FAILED_TASK], dedup := map["a" := 1000000], offset := 1,
                      row := JobRow(JobRunning, 1, Tally(0, 0, 0, 1), 1, 0, false))
  }

  lemma OwnerJobSound()
    ensures Inv(OwnerJob(), 3) && FailedTask(OwnerJob().tasks, 1000000)
  {
    assert [FAILED_TASK][..0] == [];
    assert Counted(OwnerJob().tasks, OwnerJob().row, OwnerJob().stats);
    hide Counted;
    assert SrcAt(OwnerJob().tasks, 0, "a");
  }

  /** Job 1 has a failed task and job 2 nothing. */
  function TwoJobs(): map<int, Job> {
    map[1 := OwnerJob(), 2 := NewJob(2, false)]
  }

  lemma TwoJobsSound()
    ensures 1 in TwoJobs() && 2 in TwoJobs() && FailedTask(TwoJobs()[1].tasks, 1000000)
    ensures forall j :: j in TwoJobs() ==> Inv(TwoJobs()[j], 3)
  {
    OwnerJobSound();
    NewJobSound(2, false, 3);
    hide Inv, FailedTask;
  }

  /** With job 2 listed first the reset of job 1's task breaks the books. */
  lemma WrongJobCredited()
    ensures 1 in TwoJobs() && 2 in TwoJobs() && forall j :: j in TwoJobs() ==> Inv(TwoJobs()[j], 3)
    ensures var jobs' := ResetTask(TwoJobs(), 1, 2, 1000000); exists j :: j in jobs' && !Inv(jobs'[j], 3)
  {
    TwoJobsSound();
    hide Inv, ResetTask, FailedTask, TwoJobs;
    SomeJobBroken(TwoJobs(), 1, 2, 1000000, 3);
    var jobs' := ResetTask(TwoJobs(), 1, 2, 1000000);
    assert exists j :: j in jobs' && !Inv(jobs'[j], 3);
  }

  lemma SomeJobBroken(jobs: map<int, Job>, owner: int, credited: int, id: int, maxRetryCount: nat)
    requires owner in jobs && credited in jobs && FailedTask(jobs[owner].tasks, id) && owner != credited
    requires forall j :: j in jobs ==> Inv(jobs[j], maxRetryCount)
    ensures var jobs' := ResetTask(jobs, owner, credited, id); exists j :: j in jobs' && !Inv(jobs'[j], maxRetryCount)
  {
    hide Inv, ResetTask, FailedTask;
    ResetExactlyWhenOwner(jobs, owner, credited, id, maxRetryCount);
  }

  // ---------------------------------------------------------------- whose ids are whose

  /** The ids a job has given to its first `n` tasks. */
  ghost predicate IdOfJob(jobId: int, n: nat, id: int) {
    jobId * ID_BLOCK <= id < jobId * ID_BLOCK + n
  }

  /** Over every run the tasks of a job, added in any number of calls, carry consecutive ids from the
      start of its block. */
  lemma {:induction false} IdsAreARange(job: Job, es: seq<Event>, m: nat)
    requires ValidRun(job, es, m) && IdsInRange(job)
    ensures IdsInRange(Run(job, es, m)) && Run(job, es, m).jobId == job.jobId
    decreases |es|
  {
    if es != [] {
      IdsStep(job, es[0], m);
      hide Next, Enabled, IdsInRange;
      IdsAreARange(Next(job, es[0], m), es[1..], m);
    }
  }

  ghost predicate IdsInRange(job: Job) {
    forall k :: 0 <= k < |job.tasks| ==> job.tasks[k].rec.id == job.jobId * ID_BLOCK + k
  }

  /** The same tasks in the same order. */
  ghost predicate SameIds(tasks: seq<Entry>, tasks': seq<Entry>) {
    |tasks'| == |tasks| && forall k :: 0 <= k < |tasks| ==> tasks'[k].rec.id == tasks[k].rec.id
  }

  lemma {:induction false} WrittenSameIds(tasks: seq<Entry>, updates: seq<Record>)
    ensures SameIds(tasks, Written(tasks, tasks, updates))
  {
    if updates != [] {
      WrittenSameIds(tasks, updates[..|updates| - 1]);
    }
  }

  lemma IdsStep(job: Job, e: Event, m: nat)
    requires Enabled(job, e, m) && IdsInRange(job)
    ensures IdsInRange(Next(job, e, m)) && Next(job, e, m).jobId == job.jobId
  {
    if e.EvAdd? {
      IdsAdded(job, Unknown(Unique(e.inputs), job.dedup));
    } else {
      SameIdsStep(job, e, m);
      hide Next, Enabled;
    }
  }

  lemma IdsAdded(job: Job, added: seq<Input>)
    requires IdsInRange(job)
    ensures IdsInRange(job.(tasks := job.tasks + NewEntries(StartId(job), added)))
  {
    assert StartId(job) == job.jobId * ID_BLOCK + |job.tasks|;
  }

  lemma SameIdsStep(job: Job, e: Event, m: nat)
    requires Enabled(job, e, m) && !e.EvAdd?
    ensures SameIds(job.tasks, Next(job, e, m).tasks) && Next(job, e, m).jobId == job.jobId
  {
    if e.EvReport? {
      WrittenSameIds(job.tasks, [ReportOf(job.leases[e.lease].task, e.outcome, m)]);
      hide Written;
    }
  }

  /** Two jobs never share a task id exactly when the lower one has no more tasks than the blocks
      between them hold, or one of them has none. */
  lemma RangesDisjointExactly(low: int, n: nat, high: int, m: nat)
    requires low < high
    ensures (forall id :: !(IdOfJob(low, n, id) && IdOfJob(high, m, id)))
            <==> (n == 0 || m == 0 || n <= (high - low) * ID_BLOCK)
  {
    if n > 0 && m > 0 && n > (high - low) * ID_BLOCK {
      assert IdOfJob(low, n, high * ID_BLOCK) && IdOfJob(high, m, high * ID_BLOCK);
    }
  }

  ghost predicate HasTask(job: Job, id: int) {
    exists k :: 0 <= k < |job.tasks| && job.tasks[k].rec.id == id
  }

  lemma HasTaskInRange(job: Job, id: int)
    requires IdsInRange(job)
    ensures HasTask(job, id) <==> IdOfJob(job.jobId, |job.tasks|, id)
  {
    if IdOfJob(job.jobId, |job.tasks|, id) {
      assert job.tasks[id - job.jobId * ID_BLOCK].rec.id == id;
    }
  }

  /** After any runs of two jobs they share no task id if and only if the lower job has not outgrown the
      blocks between them, or one of them has no tasks. */
  lemma JobsShareNoIdExactlyWhen(low: int, es: seq<Event>, high: int, fs: seq<Event>, m: nat)
    requires low < high && ValidRun(NewJob(low, false), es, m) && ValidRun(NewJob(high, false), fs, m)
    ensures var a, b := Run(NewJob(low, false), es, m), Run(NewJob(high, false), fs, m);
            (forall id :: !(HasTask(a, id) && HasTask(b, id)))
            <==> (a.tasks == [] || b.tasks == [] || |a.tasks| <= (high - low) * ID_BLOCK)
  {
    IdsAreARange(NewJob(low, false), es, m);
    IdsAreARange(NewJob(high, false), fs, m);
    var a, b := Run(NewJob(low, false), es, m), Run(NewJob(high, false), fs, m);
    forall id
      ensures HasTask(a, id) <==> IdOfJob(low, |a.tasks|, id)
      ensures HasTask(b, id) <==> IdOfJob(high, |b.tasks|, id)
    {
      HasTaskInRange(a, id);
      HasTaskInRange(b, id);
    }
    hide HasTask, IdOfJob, Run;
    RangesDisjointExactly(low, |a.tasks|, high, |b.tasks|);
  }

  function Path(n: nat): (path: string)
    ensures |path| == n
  {
    seq(n, _ => 'a')
  }

  /** `n` files with different paths. */
  function Files(n: nat): (inputs: seq<Input>)
    ensures |inputs| == n
  {
    seq(n, i requires 0 <= i < n => Input(Path(i), 1))
  }

  /** A new job takes them all. */
  lemma {:induction false} FilesAreNew(n: nat)
    ensures Unique(Files(n)) == Files(n) && Unknown(Files(n), map[]) == Files(n)
  {
    if n > 0 {
      FilesAreNew(n - 1);
      assert Files(n)[..n - 1] == Files(n - 1);
      assert Files(n) == Files(n - 1) + [Files(n)[n - 1]];
      assert Files(n)[n - 1].src !in SrcsOf(Files(n - 1));
    }
  }

  /** Jobs 0 and 1 with one file more than a block holds share the id of a million. */
  lemma OutgrownBlockShares()
    ensures var es := [EvAdd(Files(ID_BLOCK + 1))];
            && ValidRun(NewJob(0, false), es, 3) && ValidRun(NewJob(1, false), es, 3)
            && exists id :: HasTask(Run(NewJob(0, false), es, 3), id) && HasTask(Run(NewJob(1, false), es, 3), id)
  {
    var es := [EvAdd(Files(ID_BLOCK + 1))];
    FilesAdded(0, ID_BLOCK + 1, 3);
    FilesAdded(1, ID_BLOCK + 1, 3);
    hide Run, ValidRun, HasTask;
    JobsShareNoIdExactlyWhen(0, es, 1, es, 3);
  }

  lemma FilesAdded(jobId: int, n: nat, m: nat)
    ensures var es := [EvAdd(Files(n))];
            ValidRun(NewJob(jobId, false), es, m) && |Run(NewJob(jobId, false), es, m).tasks| == n
  {
    FilesAreNew(n);
    hide Files, Unique, Unknown;
    OneStep(NewJob(jobId, false), EvAdd(Files(n)), m);
  }
}
