/** The state of one transfer job as the dispatcher sees it, and what each handler does to it.
    The job's Redis sorted set is a sequence in rank order; every entry carries the JSON record,
    the `transfer_tasks` row and a history counter of the dispatches made so far. `scans` holds what
    each retry scanner has listed and not yet asked to reset. */
module TransferQueue {
  const BUFFER_SIZE: nat := 2000
  const BUFFER_LOW_WATER: nat := 100
  const TX_FETCH_BATCH_SIZE: nat := 1000
  const ID_BLOCK: int := 1000000
  const MONITOR_RETRY_LIMIT: nat := 3

  datatype Status = Pending | Running | Completed | Failed

  datatype JobStatus =
    | JobPending | JobRunning | JobPaused | JobStopped
    | JobCompleted | JobPhasedCompleted | JobFailed | JobScanning

  /** The JSON document under the task key; the channel and the workers hold copies of it. */
  datatype Record = Record(id: int, src: string, size: int, status: Status, retries: nat)

  /** The columns of `transfer_tasks` that a handler reads back. */
  datatype TaskRow = TaskRow(status: Status, retries: nat)

  datatype Entry = Entry(rec: Record, row: TaskRow, attempts: nat)

  /** A task handed to a worker that has not reported on it yet. */
  datatype Lease = Lease(worker: string, task: Record)

  datatype Input = Input(src: string, size: int)

  /** Four per-status quantities: the buffered `JobDelta`, the row's counters, or a census. */
  datatype Tally = Tally(pending: int, running: int, success: int, failed: int)
  {
    function Of(s: Status): int {
      match s
      case Pending => pending
      case Running => running
      case Completed => success
      case Failed => failed
    }

    function Bump(s: Status, n: int): Tally {
      match s
      case Pending => this.(pending := pending + n)
      case Running => this.(running := running + n)
      case Completed => this.(success := success + n)
      case Failed => this.(failed := failed + n)
    }
  }

  datatype Stats = NoStats | Stats(delta: Tally)

  datatype JobRow = JobRow(
    status: JobStatus, total: int, counts: Tally, totalSize: int, successSize: int, periodic: bool)

  datatype Job = Job(
    jobId: int,
    tasks: seq<Entry>,
    dedup: map<string, int>,
    offset: nat,
    buffer: seq<Record>,
    stats: Stats,
    row: JobRow,
    leases: seq<Lease>,
    scans: seq<seq<int>>)

  const ZERO: Tally := Tally(0, 0, 0, 0)

  function NewJob(jobId: int, periodic: bool): Job {
    Job(jobId, [], map[], 0, [], NoStats, JobRow(JobPending, 0, ZERO, 0, 0, periodic), [], [])
  }

  // ---------------------------------------------------------------- counters

  /** What the delta buffer still owes to the row. */
  function Owed(stats: Stats): Tally {
    if stats.NoStats? then ZERO else stats.delta
  }

  function Track(stats: Stats, oldStatus: Status, newStatus: Status): Stats {
    if oldStatus == newStatus then stats
    else Stats(Owed(stats).Bump(oldStatus, -1).Bump(newStatus, 1))
  }

  function AtLeastZero(x: int): int {
    if x < 0 then 0 else x
  }

  function Flush(job: Job): Job {
    if job.stats.NoStats? then job
    else
      var d, c := job.stats.delta, job.row.counts;
      var counts := Tally(AtLeastZero(c.pending + d.pending), AtLeastZero(c.running + d.running),
                          AtLeastZero(c.success + d.success), AtLeastZero(c.failed + d.failed));
      var status :=
        if (job.row.status.JobPending? || job.row.status.JobPhasedCompleted?) && counts.running > 0
        then JobRunning else job.row.status;
      job.(stats := NoStats, row := job.row.(counts := counts, status := status))
  }

  function Promote(row: JobRow): JobRow {
    if row.status.JobPending? || row.status.JobCompleted? || row.status.JobPhasedCompleted?
    then row.(status := JobRunning) else row
  }

  function Reactivate(row: JobRow): JobRow {
    if row.status.JobCompleted? || row.status.JobPhasedCompleted? then row.(status := JobPending) else row
  }

  // ---------------------------------------------------------------- the task store

  /** The rank of the record with this id, or the number of tasks when there is none. */
  function Rank(tasks: seq<Entry>, id: int): (k: nat)
    ensures k <= |tasks|
    ensures k < |tasks| ==> tasks[k].rec.id == id
    ensures forall i :: 0 <= i < k ==> tasks[i].rec.id != id
  {
    if tasks == [] then 0
    else if tasks[0].rec.id == id then 0
    else
      var k := Rank(tasks[1..], id);
      assert forall i :: 1 <= i < k + 1 ==> tasks[i] == tasks[1..][i - 1];
      k + 1
  }

  function PositiveSize(size: int): int {
    if size > 0 then size else 0
  }

  // ---------------------------------------------------------------- adding tasks

  function SrcsOf(inputs: seq<Input>): set<string> {
    set i | 0 <= i < |inputs| :: inputs[i].src
  }

  /** The in-memory pass: the first input of each source path. */
  function Unique(inputs: seq<Input>): seq<Input> {
    if inputs == [] then []
    else
      var front, last := Unique(inputs[..|inputs| - 1]), inputs[|inputs| - 1];
      if last.src in SrcsOf(inputs[..|inputs| - 1]) then front else front + [last]
  }

  /** The pass against the dedup hash. */
  function Unknown(inputs: seq<Input>, dedup: map<string, int>): seq<Input> {
    if inputs == [] then []
    else
      var front, last := Unknown(inputs[..|inputs| - 1], dedup), inputs[|inputs| - 1];
      if last.src in dedup then front else front + [last]
  }

  function StartId(job: Job): int {
    if job.tasks == [] then job.jobId * ID_BLOCK else job.tasks[|job.tasks| - 1].rec.id + 1
  }

  function NewEntry(id: int, input: Input): Entry {
    Entry(Record(id, input.src, input.size, Pending, 0), TaskRow(Pending, 0), 0)
  }

  function NewEntries(startId: int, inputs: seq<Input>): (es: seq<Entry>) {
    seq(|inputs|, i requires 0 <= i < |inputs| => NewEntry(startId + i, inputs[i]))
  }

  function Remember(dedup: map<string, int>, startId: int, inputs: seq<Input>): map<string, int> {
    if inputs == [] then dedup
    else
      var n := |inputs| - 1;
      Remember(dedup, startId, inputs[..n])[inputs[n].src := startId + n]
  }

  function SizeOfInputs(inputs: seq<Input>): int {
    if inputs == [] then 0
    else SizeOfInputs(inputs[..|inputs| - 1]) + PositiveSize(inputs[|inputs| - 1].size)
  }

  /** The row after `count` new tasks of `bytes` bytes; a closed or failed job is pending again. */
  function AddedRow(row: JobRow, count: nat, bytes: int): JobRow {
    row.(status := if row.status.JobCompleted? || row.status.JobPhasedCompleted? || row.status.JobFailed?
                   then JobPending else row.status,
         total := row.total + count,
         counts := row.counts.(pending := row.counts.pending + count),
         totalSize := row.totalSize + bytes)
  }

  function Add(job: Job, inputs: seq<Input>): Job {
    var added := Unknown(Unique(inputs), job.dedup);
    if added == [] then job
    else job.(tasks := job.tasks + NewEntries(StartId(job), added),
              dedup := Remember(job.dedup, StartId(job), added),
              row := AddedRow(job.row, |added|, SizeOfInputs(added)))
  }

  // ---------------------------------------------------------------- the cursor fill

  datatype Scanned = Scanned(processed: nat, buffer: seq<Record>)

  /** Walks a fetched batch: skips records that are not pending, pushes the others,
      and stops without consuming the record that finds the channel full. */
  function Scan(batch: seq<Entry>, buffer: seq<Record>): (r: Scanned)
    ensures r.processed <= |batch|
  {
    if batch == [] then Scanned(0, buffer)
    else if batch[0].rec.status != Pending then
      var r := Scan(batch[1..], buffer);
      Scanned(r.processed + 1, r.buffer)
    else if |buffer| < BUFFER_SIZE then
      var r := Scan(batch[1..], buffer + [batch[0].rec]);
      Scanned(r.processed + 1, r.buffer)
    else Scanned(0, buffer)
  }

  function Batch(tasks: seq<Entry>, offset: nat): seq<Entry> {
    if offset >= |tasks| then []
    else if offset + TX_FETCH_BATCH_SIZE >= |tasks| then tasks[offset..]
    else tasks[offset..offset + TX_FETCH_BATCH_SIZE]
  }

  function Fill(job: Job): Job {
    var r := Scan(Batch(job.tasks, job.offset), job.buffer);
    job.(offset := job.offset + r.processed, buffer := r.buffer)
  }

  predicate Active(job: Job) {
    job.row.status.JobRunning? || job.row.status.JobPending?
  }

  predicate AnyRowRunning(tasks: seq<Entry>) {
    exists k :: 0 <= k < |tasks| && tasks[k].row.status == Running
  }

  /** Rewinds the cursor of a job that looks stuck. */
  function StuckCheck(job: Job): Job {
    if job.row.counts.pending > 0 && job.buffer == [] && |job.tasks| > 0 && job.offset >= |job.tasks|
       && !AnyRowRunning(job.tasks)
    then job.(offset := 0) else job
  }

  /** One visit of the one-second ticker to an active job. */
  function RefillRound(job: Job): Job {
    if !Active(job) then job
    else
      var checked := StuckCheck(job);
      if |checked.buffer| < BUFFER_LOW_WATER then Fill(checked) else checked
  }

  // ---------------------------------------------------------------- handing tasks out

  function ToRunning(r: Record): Record {
    r.(status := Running)
  }

  /** Marks one popped record: the record as popped overwrites the stored one, the row's status follows. */
  function MarkRunning(job: Job, worker: string, r: Record): Job {
    var k := Rank(job.tasks, r.id);
    if r.status != Pending then job.(leases := job.leases + [Lease(worker, r)])
    else
      var tasks :=
        if k == |job.tasks| then job.tasks
        else job.tasks[k := Entry(ToRunning(r), job.tasks[k].row.(status := Running), job.tasks[k].attempts + 1)];
      job.(tasks := tasks, stats := Track(job.stats, Pending, Running), row := Promote(job.row),
           leases := job.leases + [Lease(worker, ToRunning(r))])
  }

  /** The channel's head goes to a worker. */
  function Take(job: Job, worker: string): Job
    requires job.buffer != []
  {
    MarkRunning(job.(buffer := job.buffer[1..]), worker, job.buffer[0])
  }

  /** What `markTransferTasksRunning` does with everything it popped from this job. */
  function MarkAll(job: Job, worker: string, taken: seq<Record>): Job {
    if taken == [] then job
    else MarkRunning(MarkAll(job, worker, taken[..|taken| - 1]), worker, taken[|taken| - 1])
  }

  // ---------------------------------------------------------------- reports and resets

  /** The record stored for an update `u` of a task whose record was `existing` when the batch was read. */
  function Merge(existing: Record, u: Record): Record {
    Record(u.id,
           if u.src == "" then existing.src else u.src,
           if u.size == 0 then existing.size else u.size,
           u.status,
           if u.retries == 0 && u.status == Failed && existing.status != Failed
           then existing.retries + 1 else u.retries)
  }

  function Written(tasks: seq<Entry>, snapshot: seq<Entry>, updates: seq<Record>): (r: seq<Entry>)
    requires |tasks| == |snapshot|
    ensures |r| == |tasks|
  {
    if updates == [] then tasks
    else
      var r, u := Written(tasks, snapshot, updates[..|updates| - 1]), updates[|updates| - 1];
      var k := Rank(snapshot, u.id);
      if k == |snapshot| then r
      else
        var merged := Merge(snapshot[k].rec, u);
        r[k := Entry(merged, TaskRow(merged.status, merged.retries), r[k].attempts)]
  }

  datatype Action = Action(oldStatus: Status, newStatus: Status)

  function Actions(snapshot: seq<Entry>, updates: seq<Record>): seq<Action> {
    if updates == [] then []
    else
      var front, u := Actions(snapshot, updates[..|updates| - 1]), updates[|updates| - 1];
      var k := Rank(snapshot, u.id);
      if k == |snapshot| || snapshot[k].rec.status == u.status then front
      else front + [Action(snapshot[k].rec.status, u.status)]
  }

  function TrackAll(stats: Stats, actions: seq<Action>): Stats {
    if actions == [] then stats
    else
      var a := actions[|actions| - 1];
      Track(TrackAll(stats, actions[..|actions| - 1]), a.oldStatus, a.newStatus)
  }

  function RowAfter(row: JobRow, actions: seq<Action>): JobRow {
    if actions == [] then row
    else
      var r, a := RowAfter(row, actions[..|actions| - 1]), actions[|actions| - 1];
      if a.newStatus == Running then Promote(r) else if a.newStatus == Pending then Reactivate(r) else r
  }

  function SuccessBytes(snapshot: seq<Entry>, updates: seq<Record>): int {
    if updates == [] then 0
    else
      var front, u := SuccessBytes(snapshot, updates[..|updates| - 1]), updates[|updates| - 1];
      var k := Rank(snapshot, u.id);
      if k < |snapshot| && snapshot[k].rec.status != Completed && u.status == Completed
      then front + PositiveSize(snapshot[k].rec.size) else front
  }

  function BatchUpdate(job: Job, updates: seq<Record>): Job {
    var actions := Actions(job.tasks, updates);
    var row := RowAfter(job.row, actions);
    job.(tasks := Written(job.tasks, job.tasks, updates),
         stats := TrackAll(job.stats, actions),
         row := row.(successSize := row.successSize + SuccessBytes(job.tasks, updates)))
  }

  /** Whether the worker transfers a task it got, or gives it back at once as out of retries. */
  predicate Accepts(task: Record, maxRetryCount: nat) {
    task.retries < maxRetryCount
  }

  /** What a worker sends about a task it holds. Giving a task back, it sends neither path nor size. */
  function ReportOf(task: Record, outcome: Status, maxRetryCount: nat): Record {
    if !Accepts(task, maxRetryCount) then Record(task.id, "", 0, Failed, task.retries)
    else task.(status := outcome, retries := if outcome == Failed then task.retries + 1 else 0)
  }

  function Drop<T>(s: seq<T>, i: nat): seq<T>
    requires i < |s|
  {
    s[..i] + s[i + 1..]
  }

  /** A worker reports on lease `i` and gives it up. */
  function Report(job: Job, i: nat, outcome: Status, maxRetryCount: nat): Job
    requires i < |job.leases|
  {
    BatchUpdate(job.(leases := Drop(job.leases, i)), [ReportOf(job.leases[i].task, outcome, maxRetryCount)])
  }

  /** The reset handler on one task of this job: it looks at the status and at nothing else. */
  function AutoReset(job: Job, id: int): Job {
    var k := Rank(job.tasks, id);
    if k == |job.tasks| || job.tasks[k].rec.status != Failed then job
    else
      var rec := job.tasks[k].rec.(status := Pending);
      job.(tasks := job.tasks[k := job.tasks[k].(rec := rec, row := TaskRow(Pending, rec.retries))],
           stats := Track(job.stats, Failed, Pending),
           row := Reactivate(job.row))
  }

  /** The rows that the retry scanner asks for. */
  predicate Retryable(job: Job, id: int, maxRetryCount: nat) {
    exists k :: 0 <= k < |job.tasks| && job.tasks[k].rec.id == id
                && job.tasks[k].row.status == Failed && job.tasks[k].row.retries < maxRetryCount
  }

  /** The ids of these rows, each once, in whatever order the database gives them. */
  ghost predicate Lists(job: Job, ids: seq<int>, maxRetryCount: nat) {
    && (forall i, j :: 0 <= i < j < |ids| ==> ids[i] != ids[j])
    && forall id :: id in ids <==> Retryable(job, id, maxRetryCount)
  }

  /** A scanner moves past the first id that it has listed. */
  function NextListed(job: Job, scanner: nat): Job
    requires scanner < |job.scans| && job.scans[scanner] != []
  {
    job.(scans := job.scans[scanner := job.scans[scanner][1..]])
  }

  // ---------------------------------------------------------------- the manual retry

  /** `resetFailedTaskForRetry`: the retry count starts afresh, in the record only. */
  function ResetEntry(e: Entry): Entry {
    if e.rec.status != Failed then e
    else e.(rec := e.rec.(status := Pending, retries := 0), row := e.row.(status := Pending))
  }

  function ResetAll(tasks: seq<Entry>): seq<Entry> {
    seq(|tasks|, k requires 0 <= k < |tasks| => ResetEntry(tasks[k]))
  }

  function TrackResets(stats: Stats, tasks: seq<Entry>): Stats {
    if tasks == [] then stats
    else
      var front := TrackResets(stats, tasks[..|tasks| - 1]);
      if tasks[|tasks| - 1].rec.status == Failed then Track(front, Failed, Pending) else front
  }

  predicate AnyFailed(tasks: seq<Entry>) {
    exists k :: 0 <= k < |tasks| && tasks[k].rec.status == Failed
  }

  function Reopen(row: JobRow): JobRow {
    if row.status.JobCompleted? || row.status.JobFailed? || row.status.JobPhasedCompleted?
    then row.(status := JobPending) else row
  }

  /** Every failed task is pending again, and the cursor starts over if there was one. */
  function Retried(job: Job): Job {
    if !AnyFailed(job.tasks) then job
    else job.(tasks := ResetAll(job.tasks), stats := TrackResets(job.stats, job.tasks), offset := 0,
              row := Reopen(job.row))
  }

  // ---------------------------------------------------------------- the monitor

  /** The condition under which the monitor closes a running job. */
  predicate Finished(job: Job) {
    && job.row.status.JobRunning? && job.row.total > 0 && !job.row.periodic && |job.tasks| > 0
    && forall k :: 0 <= k < |job.tasks| ==>
         !job.tasks[k].row.status.Pending? && !job.tasks[k].row.status.Running?
         && !(job.tasks[k].row.status.Failed? && job.tasks[k].row.retries < MONITOR_RETRY_LIMIT)
  }

  function Monitor(job: Job): Job {
    if Finished(job) then job.(row := job.row.(status := JobCompleted)) else job
  }

  // ---------------------------------------------------------------- runs

  /** The atomic steps. An acquire request is a `Shuffle` (large tasks re-queued) followed by
      one `Take` per task returned. `WorkerLost` is a worker that never reports. Scanners start at any
      time; each lists, and then resets or skips what it has listed, one by one, however much has
      happened since. */
  datatype Event =
    | EvAdd(inputs: seq<Input>)
    | EvFill
    | EvShuffle(order: seq<Record>)
    | EvTake(worker: string)
    | EvReport(lease: nat, outcome: Status)
    | EvWorkerLost(lease: nat)
    | EvScanner
    | EvList(scanner: nat, ids: seq<int>)
    | EvReset(scanner: nat)
    | EvSkip(scanner: nat)
    | EvManualRetry
    | EvStuckCheck
    | EvFlush
    | EvMonitor

  ghost predicate Enabled(job: Job, e: Event, maxRetryCount: nat) {
    match e
    case EvShuffle(order) => multiset(order) == multiset(job.buffer)
    case EvTake(_) => job.buffer != []
    case EvReport(i, outcome) => i < |job.leases| && (outcome == Completed || outcome == Failed)
    case EvWorkerLost(i) => i < |job.leases|
    case EvList(i, ids) => i < |job.scans| && job.scans[i] == [] && Lists(job, ids, maxRetryCount)
    case EvReset(i) => i < |job.scans| && job.scans[i] != []
    case EvSkip(i) => i < |job.scans| && job.scans[i] != []
    case EvStuckCheck => Active(job)
    case _ => true
  }

  ghost function Next(job: Job, e: Event, maxRetryCount: nat): Job
    requires Enabled(job, e, maxRetryCount)
  {
    match e
    case EvAdd(inputs) => Add(job, inputs)
    case EvFill => Fill(job)
    case EvShuffle(order) => job.(buffer := order)
    case EvTake(worker) => Take(job, worker)
    case EvReport(i, outcome) => Report(job, i, outcome, maxRetryCount)
    case EvWorkerLost(i) => job.(leases := Drop(job.leases, i))
    case EvScanner => job.(scans := job.scans + [[]])
    case EvList(i, ids) => job.(scans := job.scans[i := ids])
    case EvReset(i) => AutoReset(NextListed(job, i), job.scans[i][0])
    case EvSkip(i) => NextListed(job, i)
    case EvManualRetry => Retried(job)
    case EvStuckCheck => StuckCheck(job)
    case EvFlush => Flush(job)
    case EvMonitor => Monitor(job)
  }

  /** Every step of the run is enabled when it is taken. */
  ghost predicate ValidRun(job: Job, es: seq<Event>, maxRetryCount: nat)
    decreases |es|
  {
    es == [] ||
    (Enabled(job, es[0], maxRetryCount) && ValidRun(Next(job, es[0], maxRetryCount), es[1..], maxRetryCount))
  }

  ghost function Run(job: Job, es: seq<Event>, maxRetryCount: nat): Job
    requires ValidRun(job, es, maxRetryCount)
    decreases |es|
  {
    if es == [] then job else Run(Next(job, es[0], maxRetryCount), es[1..], maxRetryCount)
  }
}
