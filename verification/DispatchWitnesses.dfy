/** Runs from an empty job into states in which a promise of the dispatcher fails. They are played on a
    sketch of the job, which every real run follows. */
module DispatchWitnesses {
  import opened DispatchEffects
  import opened DispatchLimits
  import opened DispatchProgress
  import opened DispatchRetries
  import opened DispatchRuns
  import opened DispatchSafety
  import opened TransferQueue

  // ---------------------------------------------------------------- the sketch of a job

  datatype Stage = Stage(status: Status, retries: nat, attempts: nat)

  /** The tasks in rank order, the ranks in the channel and in the workers' hands, and what the scanners
      have listed. The counters are left to the invariant. */
  datatype Sketch = Sketch(
    stages: seq<Stage>, offset: nat, queue: seq<nat>, held: seq<nat>, status: JobStatus, flushed: bool,
    scans: seq<seq<int>>)

  function EntryOf(k: nat, s: Stage): Entry {
    Entry(Record(k, Path(k), 1, s.status, s.retries), TaskRow(s.status, s.retries), s.attempts)
  }

  ghost predicate TasksLook(tasks: seq<Entry>, stages: seq<Stage>) {
    |tasks| == |stages| && forall k: nat :: k < |tasks| ==> tasks[k] == EntryOf(k, stages[k])
  }

  ghost predicate BufferLooks(buffer: seq<Record>, queue: seq<nat>) {
    |buffer| == |queue| && forall i :: 0 <= i < |queue| ==> buffer[i].id == queue[i]
  }

  ghost predicate LeasesLook(leases: seq<Lease>, held: seq<nat>) {
    |leases| == |held| && forall i :: 0 <= i < |held| ==> leases[i].task.id == held[i]
  }

  ghost predicate Shows(job: Job, s: Sketch) {
    && TasksLook(job.tasks, s.stages) && BufferLooks(job.buffer, s.queue) && LeasesLook(job.leases, s.held)
    && job.offset == s.offset && job.row.status == s.status && !job.row.periodic && job.scans == s.scans
    && (s.flushed ==> job.stats == NoStats)
  }

  ghost predicate Looks(job: Job, s: Sketch, m: nat) {
    Inv(job, m) && Shows(job, s)
  }

  predicate AnyIn(stages: seq<Stage>, status: Status) {
    exists k :: 0 <= k < |stages| && stages[k].status == status
  }

  predicate Retries(stages: seq<Stage>, id: int, m: nat) {
    0 <= id < |stages| && stages[id].status == Failed && stages[id].retries < m
  }

  /** The steps that are played. */
  ghost predicate Plays(s: Sketch, e: Event, m: nat) {
    match e
    case EvScanner => true
    case EvFill =>
      |s.stages| <= TX_FETCH_BATCH_SIZE && s.offset <= |s.stages| && s.queue == []
      && forall k :: s.offset <= k < |s.stages| ==> s.stages[k].status == Pending
    case EvTake(w) => s.queue != [] && s.queue[0] < |s.stages|
    case EvWorkerLost(i) => i < |s.held|
    case EvReport(i, outcome) =>
      i < |s.held| && s.held[i] < |s.stages| && outcome == Failed && s.stages[s.held[i]].retries < m
    case EvList(i, ids) =>
      i < |s.scans| && s.scans[i] == [] && (forall x, y :: 0 <= x < y < |ids| ==> ids[x] != ids[y])
      && forall id :: id in ids <==> Retries(s.stages, id, m)
    case EvReset(i) =>
      i < |s.scans| && s.scans[i] != [] && 0 <= s.scans[i][0] < |s.stages| && s.stages[s.scans[i][0]].status == Failed
    case EvFlush => s.status == JobRunning || !AnyIn(s.stages, Running)
    case EvStuckCheck =>
      s.flushed && s.queue == [] && s.offset == |s.stages| && (s.status == JobRunning || s.status == JobPending)
      && AnyIn(s.stages, Pending) && !AnyIn(s.stages, Running)
    case EvMonitor =>
      s.status == JobRunning && s.stages != [] && forall k :: 0 <= k < |s.stages| ==>
        s.stages[k].status == Failed && s.stages[k].retries >= MONITOR_RETRY_LIMIT
    case _ => false
  }

  function Woken(status: JobStatus): JobStatus {
    if status == JobPending || status == JobCompleted || status == JobPhasedCompleted then JobRunning else status
  }

  function Reopened(status: JobStatus): JobStatus {
    if status == JobCompleted || status == JobPhasedCompleted then JobPending else status
  }

  function Ranks(lo: nat, hi: nat): seq<nat>
    requires lo <= hi
  {
    seq(hi - lo, i requires 0 <= i < hi - lo => lo + i)
  }

  ghost function After(s: Sketch, e: Event, m: nat): Sketch
    requires Plays(s, e, m)
  {
    match e
    case EvScanner => s.(scans := s.scans + [[]])
    case EvFill => s.(offset := |s.stages|, queue := Ranks(s.offset, |s.stages|))
    case EvTake(w) =>
      var k := s.queue[0];
      s.(stages := s.stages[k := Stage(Running, s.stages[k].retries, s.stages[k].attempts + 1)],
         queue := s.queue[1..], held := s.held + [k], status := Woken(s.status), flushed := false)
    case EvWorkerLost(i) => s.(held := Drop(s.held, i))
    case EvReport(i, _) =>
      var k := s.held[i];
      s.(stages := s.stages[k := Stage(Failed, s.stages[k].retries + 1, s.stages[k].attempts)],
         held := Drop(s.held, i), flushed := false)
    case EvList(i, ids) => s.(scans := s.scans[i := ids])
    case EvReset(i) =>
      var k := s.scans[i][0];
      s.(stages := s.stages[k := s.stages[k].(status := Pending)], scans := s.scans[i := s.scans[i][1..]],
         status := Reopened(s.status), flushed := false)
    case EvFlush => s.(flushed := true)
    case EvStuckCheck => s.(offset := 0)
    case EvMonitor => s.(status := JobCompleted)
  }

  // ---------------------------------------------------------------- every job follows its sketch

  lemma RankIs(tasks: seq<Entry>, stages: seq<Stage>, k: nat)
    requires Sorted(tasks) && TasksLook(tasks, stages) && k < |stages|
    ensures Rank(tasks, k) == k
  {
    RankOf(tasks, k);
  }

  lemma {:induction false} PendingRanks(tasks: seq<Entry>, stages: seq<Stage>, lo: nat)
    requires TasksLook(tasks, stages) && lo <= |stages|
    requires forall k :: lo <= k < |stages| ==> stages[k].status == Pending
    ensures BufferLooks(PendingOf(tasks[lo..]), Ranks(lo, |stages|))
    decreases |stages| - lo
  {
    if lo < |stages| {
      PendingRanks(tasks, stages, lo + 1);
      assert tasks[lo..][1..] == tasks[lo + 1..];
    }
  }

  lemma FillFollows(job: Job, s: Sketch, m: nat)
    requires Looks(job, s, m) && Plays(s, EvFill, m)
    ensures Shows(Fill(job), After(s, EvFill, m))
  {
    var batch := Batch(job.tasks, job.offset);
    assert batch == job.tasks[job.offset..] && job.buffer == [];
    ScanPushes(batch, []);
    var p := Scan(batch, []).processed;
    PendingOfLength(batch[..p]);
    assert batch[..p] == batch;
    PendingRanks(job.tasks, s.stages, s.offset);
    hide Scan, PendingOf, Inv, TasksLook, Batch;
  }

  lemma TakeFollows(job: Job, s: Sketch, w: string, m: nat)
    requires Looks(job, s, m) && Plays(s, EvTake(w), m)
    ensures job.buffer != [] && Shows(Take(job, w), After(s, EvTake(w), m))
  {
    var k, e := TakeShape(job, w);
    hide Take, Track, Inv, Rank;
    assert k == s.queue[0] && e == EntryOf(k, Stage(Running, s.stages[k].retries, s.stages[k].attempts + 1));
  }

  lemma ReportFollows(job: Job, s: Sketch, i: nat, m: nat)
    requires Looks(job, s, m) && Plays(s, EvReport(i, Failed), m)
    ensures i < |job.leases| && Shows(Report(job, i, Failed, m), After(s, EvReport(i, Failed), m))
  {
    var k, e := ReportShape(job, i, Failed, m);
    hide Report, Track, Inv, Rank;
    assert k == s.held[i] && e == EntryOf(k, Stage(Failed, s.stages[k].retries + 1, s.stages[k].attempts));
  }

  lemma ResetFollows(job: Job, s: Sketch, i: nat, m: nat)
    requires Looks(job, s, m) && Plays(s, EvReset(i), m)
    ensures Shows(AutoReset(NextListed(job, i), job.scans[i][0]), After(s, EvReset(i), m))
  {
    var id := job.scans[i][0];
    RankIs(job.tasks, s.stages, id);
    var k, e := ResetShape(NextListed(job, i), id);
    hide AutoReset, Track, Inv, Rank;
    assert e == EntryOf(id, s.stages[id].(status := Pending));
  }

  lemma ListFollows(job: Job, s: Sketch, i: nat, ids: seq<int>, m: nat)
    requires Looks(job, s, m) && Plays(s, EvList(i, ids), m)
    ensures Enabled(job, EvList(i, ids), m) && Shows(Next(job, EvList(i, ids), m), After(s, EvList(i, ids), m))
  {
    forall id
      ensures Retryable(job, id, m) <==> Retries(s.stages, id, m)
    {
      if Retries(s.stages, id, m) {
        assert job.tasks[id] == EntryOf(id, s.stages[id]);
      }
    }
    hide Retryable, Retries, Inv, TasksLook;
  }

  lemma MonitorFollows(job: Job, s: Sketch, m: nat)
    requires Looks(job, s, m) && Plays(s, EvMonitor, m)
    ensures Shows(Monitor(job), After(s, EvMonitor, m))
  {
    assert job.row.total == |job.tasks|;
    hide Inv;
  }

  lemma LostFollows(job: Job, s: Sketch, i: nat, m: nat)
    requires Looks(job, s, m) && Plays(s, EvWorkerLost(i), m)
    ensures i < |job.leases| && Shows(job.(leases := Drop(job.leases, i)), After(s, EvWorkerLost(i), m))
  {
    hide Inv, TasksLook, BufferLooks;
  }

  lemma FlushFollows(job: Job, s: Sketch, m: nat)
    requires Looks(job, s, m) && Plays(s, EvFlush, m)
    ensures Shows(Flush(job), After(s, EvFlush, m))
  {
    FlushKeeps(job, m);
    FlushStatus(job, m);
    CountZero(job.tasks, Running);
    hide Flush, Count, Inv;
  }

  lemma StuckFollows(job: Job, s: Sketch, m: nat)
    requires Looks(job, s, m) && Plays(s, EvStuckCheck, m)
    ensures Active(job) && Shows(StuckCheck(job), After(s, EvStuckCheck, m))
  {
    var k :| 0 <= k < |s.stages| && s.stages[k].status == Pending;
    assert PendingAt(job.tasks, k);
    PendingCounted(job.tasks, k);
    assert job.row.counts.pending == job.row.counts.Of(Pending);
    hide Count;
  }

  lemma StepFollows(job: Job, s: Sketch, e: Event, m: nat)
    requires Looks(job, s, m) && Plays(s, e, m) && m > 0
    ensures Enabled(job, e, m) && !e.EvManualRetry? && Shows(Next(job, e, m), After(s, e, m))
  {
    hide Inv, Fill, Take, Report, AutoReset, Flush, StuckCheck, Monitor, Lists;
    match e {
      case EvScanner =>
      case EvFill => FillFollows(job, s, m);
      case EvTake(w) => TakeFollows(job, s, w, m);
      case EvWorkerLost(i) => LostFollows(job, s, i, m);
      case EvReport(i, _) => ReportFollows(job, s, i, m);
      case EvList(i, ids) => ListFollows(job, s, i, ids, m);
      case EvReset(i) => ResetFollows(job, s, i, m);
      case EvFlush => FlushFollows(job, s, m);
      case EvStuckCheck => StuckFollows(job, s, m);
      case EvMonitor => MonitorFollows(job, s, m);
    }
    hide TasksLook, BufferLooks, LeasesLook;
  }

  lemma Follow(job: Job, s: Sketch, e: Event, m: nat)
    requires Looks(job, s, m) && Plays(s, e, m) && m > 0
    ensures Enabled(job, e, m) && !e.EvManualRetry? && Looks(Next(job, e, m), After(s, e, m), m)
  {
    StepFollows(job, s, e, m);
    hide Inv, Shows, Enabled, Next, Plays, After;
    NextKeeps(job, e, m);
  }

  // ---------------------------------------------------------------- playing

  ghost predicate ReachedBy(start: Job, es: seq<Event>, s: Sketch, m: nat) {
    ValidRun(start, es, m) && Automatic(es) && Looks(Run(start, es, m), s, m)
  }

  ghost predicate Reached(start: Job, s: Sketch, m: nat) {
    exists es :: ReachedBy(start, es, s, m)
  }

  lemma Play(start: Job, s: Sketch, e: Event, m: nat)
    requires Reached(start, s, m) && Plays(s, e, m) && m > 0
    ensures Reached(start, After(s, e, m), m)
  {
    hide Looks, Enabled, Next, Plays, After;
    var es :| ReachedBy(start, es, s, m);
    Follow(Run(start, es, m), s, e, m);
    RunStep(start, es, e, m);
    assert ReachedBy(start, es + [e], After(s, e, m), m);
  }

  lemma Stay(job: Job, s: Sketch, m: nat)
    requires Looks(job, s, m)
    ensures Reached(job, s, m)
  {
    assert ReachedBy(job, [], s, m);
  }

  const FRESH: Stage := Stage(Pending, 0, 0)

  /** A new job with `n` tasks. */
  lemma Started(n: nat, m: nat)
    requires n > 0 && m > 0
    ensures Reached(NewJob(0, false), Sketch(seq(n, _ => FRESH), 0, [], [], JobPending, true, []), m)
  {
    var start, e := NewJob(0, false), EvAdd(Files(n));
    FilesAreNew(n);
    NewJobSound(0, false, m);
    NextKeeps(start, e, m);
    OneStep(start, e, m);
    hide Inv, Run, ValidRun, Unique, Unknown, Remember, SizeOfInputs;
    var stages := seq(n, _ => FRESH);
    var job := Next(start, e, m);
    assert job.tasks == NewEntries(0, Files(n)) && job.scans == [] && job.buffer == [] && job.leases == [];
    hide Next, Files;
    assert ReachedBy(start, [e], Sketch(stages, 0, [], [], JobPending, true, []), m);
  }

  // ---------------------------------------------------------------- a closed job wakes up

  /** One task between two failures; `listed` is what the second scanner has in hand. */
  function Broken(n: nat, status: JobStatus, listed: seq<int>): Sketch {
    Sketch([Stage(Failed, n, n)], 1, [], [], status, true, [[], listed])
  }

  function Handed(n: nat, listed: seq<int>): Sketch {
    Sketch([Stage(Running, n, n + 1)], 1, [], [0], JobRunning, false, [[], listed])
  }

  /** From the reset on until the task is handed out. */
  lemma HandOut(start: Job, n: nat, status: JobStatus, listed: seq<int>, m: nat)
    requires status == JobPending || status == JobRunning
    requires Reached(start, Sketch([Stage(Pending, n, n)], 1, [], [], status, false, [[], listed]), m) && m > 0
    ensures Reached(start, Handed(n, listed), m)
  {
    hide Reached;
    var s := Sketch([Stage(Pending, n, n)], 1, [], [], status, false, [[], listed]);
    assert s.stages[0].status == Pending;
    Play(start, s, EvFlush, m);
    Play(start, s.(flushed := true), EvStuckCheck, m);
    Play(start, s.(flushed := true, offset := 0), EvFill, m);
    assert Ranks(0, 1) == [0] && [0][1..] == [] && [] + [0] == [0];
    Play(start, s.(flushed := true, queue := [0]), EvTake("w"), m);
    assert [Stage(Pending, n, n)][0 := Stage(Running, n, n + 1)] == [Stage(Running, n, n + 1)];
  }

  lemma Fails(start: Job, n: nat, listed: seq<int>, m: nat)
    requires Reached(start, Handed(n, listed), m) && n < m
    ensures Reached(start, Broken(n + 1, JobRunning, listed), m)
  {
    hide Reached;
    var s := Handed(n, listed);
    Play(start, s, EvReport(0, Failed), m);
    assert Drop([0], 0) == [] && s.stages[0 := Stage(Failed, n + 1, n + 1)] == [Stage(Failed, n + 1, n + 1)];
    Play(start, Broken(n + 1, JobRunning, listed).(flushed := false), EvFlush, m);
  }

  /** The first scanner has the task reset, and it fails again. */
  lemma FailsAgain(start: Job, n: nat, listed: seq<int>, m: nat)
    requires Reached(start, Broken(n, JobRunning, listed), m) && n < m
    ensures Reached(start, Broken(n + 1, JobRunning, listed), m)
  {
    hide Reached;
    var s := Broken(n, JobRunning, listed);
    assert Retries(s.stages, 0, m);
    Play(start, s, EvList(0, [0]), m);
    assert s.scans[0 := [0]] == [[0], listed] && [[0], listed][0 := []] == s.scans && [0][1..] == [];
    Play(start, s.(scans := [[0], listed]), EvReset(0), m);
    assert s.stages[0 := Stage(Pending, n, n)] == [Stage(Pending, n, n)];
    HandOut(start, n, JobRunning, listed, m);
    Fails(start, n, listed, m);
  }

  /** A new job with one task and two scanners. */
  lemma TwoScanners(m: nat)
    requires m > 0
    ensures Reached(NewJob(0, false), Sketch([FRESH], 0, [], [], JobPending, true, [[], []]), m)
  {
    hide Reached;
    var start, s := NewJob(0, false), Sketch([FRESH], 0, [], [], JobPending, true, []);
    Started(1, m);
    assert seq(1, _ => FRESH) == [FRESH];
    Play(start, s, EvScanner, m);
    var none, one: seq<seq<int>> := [], [[]];
    assert none + [[]] == one && one + [[]] == [[], []];
    Play(start, s.(scans := one), EvScanner, m);
  }

  lemma FirstFailure(m: nat)
    requires m > 0
    ensures Reached(NewJob(0, false), Broken(1, JobRunning, []), m)
  {
    hide Reached;
    TwoScanners(m);
    Play(NewJob(0, false), Sketch([FRESH], 0, [], [], JobPending, true, [[], []]), EvFill, m);
    assert Ranks(0, 1) == [0] && [0][1..] == [] && [] + [0] == [0];
    Play(NewJob(0, false), Sketch([FRESH], 1, [0], [], JobPending, true, [[], []]), EvTake("w"), m);
    assert [FRESH][0 := Stage(Running, 0, 1)] == [Stage(Running, 0, 1)];
    Fails(NewJob(0, false), 0, [], m);
  }

  /** Closed after the third failure, the second scanner's list still in hand. */
  lemma Closed()
    ensures Reached(NewJob(0, false), Broken(3, JobCompleted, [0]), 3)
  {
    hide Reached;
    var start, s := NewJob(0, false), Broken(2, JobRunning, []);
    FirstFailure(3);
    FailsAgain(start, 1, [], 3);
    assert Retries(s.stages, 0, 3) && s.scans[1 := [0]] == [[], [0]];
    Play(start, s, EvList(1, [0]), 3);
    FailsAgain(start, 2, [0], 3);
    Play(start, Broken(3, JobRunning, [0]), EvMonitor, 3);
  }

  lemma WokenAgain(job: Job)
    requires Looks(job, Broken(3, JobCompleted, [0]), 3)
    ensures Reached(job, Handed(3, []), 3)
  {
    hide Looks, Reached;
    var s := Broken(3, JobCompleted, [0]);
    Stay(job, s, 3);
    Play(job, s, EvReset(1), 3);
    assert s.scans[1 := []] == [[], []] && [0][1..] == [];
    assert s.stages[0 := Stage(Pending, 3, 3)] == [Stage(Pending, 3, 3)];
    HandOut(job, 3, JobPending, [], 3);
  }

  lemma ClosedIsIdle(job: Job)
    requires Looks(job, Broken(3, JobCompleted, [0]), 3)
    ensures job.row.status == JobCompleted && Idle(job, 3)
  {
    hide Inv;
  }

  lemma HandedBeyondLimit(job: Job)
    requires Looks(job, Handed(3, []), 3)
    ensures |job.tasks| == |job.leases| == 1 && job.tasks[0].attempts == 4 && !Accepts(job.leases[0].task, 3)
  {
    assert job.leases[0] in job.leases;
    var k: nat :| LeasedAt(job.tasks, k, job.leases[0].task);
  }

  /** Two scanners list a task that has failed twice of three times. The first one's reset makes it fail
      for good and the monitor close the job; the second one's reset wakes the job, and the task is
      dispatched a fourth time. */
  lemma ClosedJobWakes() returns (closing: seq<Event>, waking: seq<Event>)
    ensures ValidRun(NewJob(0, false), closing, 3) && Automatic(closing)
    ensures var closed := Run(NewJob(0, false), closing, 3);
            && closed.row.status == JobCompleted && Idle(closed, 3)
            && ValidRun(closed, waking, 3) && Automatic(waking)
            && var job := Run(closed, waking, 3);
               |job.tasks| == |job.leases| == 1 && job.tasks[0].attempts == 4 && !Accepts(job.leases[0].task, 3)
  {
    hide Looks, Run, ValidRun, Automatic, Idle;
    Closed();
    closing :| ReachedBy(NewJob(0, false), closing, Broken(3, JobCompleted, [0]), 3);
    var closed := Run(NewJob(0, false), closing, 3);
    ClosedIsIdle(closed);
    WokenAgain(closed);
    waking :| ReachedBy(closed, waking, Handed(3, []), 3);
    HandedBeyondLimit(Run(closed, waking, 3));
  }

  // ---------------------------------------------------------------- a lost worker starves a job

  const TAKEN: Stage := Stage(Running, 0, 1)

  /** Two tasks, both handed out, the first to a worker that was lost. */
  function Orphaned(): Sketch {
    Sketch([TAKEN, TAKEN], 2, [], [1], JobRunning, false, [[]])
  }

  function Starved(): Sketch {
    Sketch([TAKEN, Stage(Pending, 1, 1)], 2, [], [], JobRunning, false, [[]])
  }

  lemma LoseOne()
    ensures Reached(NewJob(0, false), Orphaned(), 3)
  {
    hide Reached;
    var start, s := NewJob(0, false), Sketch([FRESH, FRESH], 0, [], [], JobPending, true, []);
    Started(2, 3);
    assert seq(2, _ => FRESH) == [FRESH, FRESH];
    Play(start, s, EvScanner, 3);
    assert s.scans + [[]] == [[]];
    Play(start, s.(scans := [[]]), EvFill, 3);
    assert Ranks(0, 2) == [0, 1];
    TakeBoth(start);
  }

  lemma TakeBoth(start: Job)
    requires Reached(start, Sketch([FRESH, FRESH], 2, [0, 1], [], JobPending, true, [[]]), 3)
    ensures Reached(start, Orphaned(), 3)
  {
    hide Reached;
    Play(start, Sketch([FRESH, FRESH], 2, [0, 1], [], JobPending, true, [[]]), EvTake("w"), 3);
    assert [0, 1][1..] == [1] && [1][1..] == [] && [] + [0] == [0] && [] + [1] == [1] && Drop([0], 0) == [];
    assert [FRESH, FRESH][0 := TAKEN] == [TAKEN, FRESH] && [TAKEN, FRESH][1 := TAKEN] == [TAKEN, TAKEN];
    Play(start, Sketch([TAKEN, FRESH], 2, [1], [0], JobRunning, false, [[]]), EvWorkerLost(0), 3);
    Play(start, Sketch([TAKEN, FRESH], 2, [1], [], JobRunning, false, [[]]), EvTake("w"), 3);
  }

  lemma FailOther(start: Job)
    requires Reached(start, Orphaned(), 3)
    ensures Reached(start, Starved(), 3)
  {
    hide Reached;
    var failed := [TAKEN, Stage(Failed, 1, 1)];
    Play(start, Orphaned(), EvReport(0, Failed), 3);
    assert Drop([1], 0) == [] && [TAKEN, TAKEN][1 := Stage(Failed, 1, 1)] == failed;
    assert Retries(failed, 1, 3) && !Retries(failed, 0, 3);
    Play(start, Sketch(failed, 2, [], [], JobRunning, false, [[]]), EvList(0, [1]), 3);
    var none, one: seq<seq<int>> := [[]], [[1]];
    assert none[0 := [1]] == one && one[0 := []] == none && [1][1..] == [];
    Play(start, Sketch(failed, 2, [], [], JobRunning, false, one), EvReset(0), 3);
    assert failed[1 := Stage(Pending, 1, 1)] == Starved().stages;
  }

  lemma StarvedIsIdle(job: Job)
    requires Looks(job, Starved(), 3)
    ensures var flushed := Flush(job);
            Active(flushed) && PendingAt(flushed.tasks, 1) && forall n: nat :: Rounds(flushed, n).buffer == []
  {
    FlushFollows(job, Starved(), 3);
    FlushKeeps(job, 3);
    hide Flush;
    NeverServed(Flush(job));
  }

  lemma NeverServed(job: Job)
    requires Looks(job, Starved().(flushed := true), 3)
    ensures Active(job) && PendingAt(job.tasks, 1) && forall n: nat :: Rounds(job, n).buffer == []
  {
    assert job.tasks[0].row.status == Running && job.offset == |job.tasks| && job.buffer == [];
    ServedExactlyWhen(job, 3);
    hide Inv, Rounds;
  }

  /** One task lost with its worker, another failed and reset: the ticker never serves the second. */
  lemma LostWorkerStarves() returns (es: seq<Event>)
    ensures ValidRun(NewJob(0, false), es, 3) && Automatic(es)
    ensures var job := Flush(Run(NewJob(0, false), es, 3));
            Active(job) && PendingAt(job.tasks, 1) && forall n: nat :: Rounds(job, n).buffer == []
  {
    hide Looks, Run, ValidRun, Automatic, Flush, Starved;
    LoseOne();
    FailOther(NewJob(0, false));
    es :| ReachedBy(NewJob(0, false), es, Starved(), 3);
    StarvedIsIdle(Run(NewJob(0, false), es, 3));
  }
}
