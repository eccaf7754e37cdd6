/** Retries: how often a task is transferred and dispatched, with one scanner or many, and when a job
    that the monitor closes stays closed. */
module DispatchRetries {
  import opened TransferQueue
  import opened DispatchSafety
  import opened DispatchRuns

  // ---------------------------------------------------------------- transfers, with any number of scanners

  /** Nobody retries by hand. */
  ghost predicate Automatic(es: seq<Event>) {
    NoManualRetry(es)
  }

  /** A take that the worker does not refuse. */
  predicate Transfers(job: Job, e: Event, id: int, m: nat) {
    e.EvTake? && job.buffer != [] && job.buffer[0].id == id && Accepts(job.buffer[0], m)
  }

  /** How often task `id` is transferred in a run. */
  ghost function TransfersOf(job: Job, es: seq<Event>, id: int, m: nat): nat
    requires ValidRun(job, es, m)
    decreases |es|
  {
    if es == [] then 0
    else (if Transfers(job, es[0], id, m) then 1 else 0) + TransfersOf(Next(job, es[0], m), es[1..], id, m)
  }

  /** The part of its retry limit that a task has used. */
  ghost function Spent(e: Entry, m: nat): int {
    match e.rec.status
    case Pending => e.rec.retries
    case Failed => e.rec.retries
    case Running => if e.rec.retries < m then e.rec.retries + 1 else m
    case Completed => m
  }

  ghost function SpentOn(tasks: seq<Entry>, id: int, m: nat): int {
    var k := Rank(tasks, id);
    if k == |tasks| then 0 else Spent(tasks[k], m)
  }

  /** An update that keeps every id changes nobody's rank. */
  lemma {:induction false} RankUpdate(tasks: seq<Entry>, k: nat, e: Entry, id: int)
    requires k < |tasks| && e.rec.id == tasks[k].rec.id
    ensures Rank(tasks[k := e], id) == Rank(tasks, id)
  {
    assert forall i :: 0 <= i < |tasks| ==> tasks[k := e][i].rec.id == tasks[i].rec.id;
  }

  lemma RankAppend(tasks: seq<Entry>, es: seq<Entry>, id: int)
    ensures Rank(tasks, id) < |tasks| ==> Rank(tasks + es, id) == Rank(tasks, id)
    ensures Rank(tasks, id) == |tasks| ==> Rank(tasks + es, id) >= |tasks|
  {
    assert forall i :: 0 <= i < |tasks| ==> (tasks + es)[i] == tasks[i];
  }

  lemma SpentUpdate(tasks: seq<Entry>, k: nat, e: Entry, id: int, m: nat)
    requires Sorted(tasks) && k < |tasks| && e.rec.id == tasks[k].rec.id
    ensures SpentOn(tasks[k := e], id, m) == if tasks[k].rec.id == id then Spent(e, m) else SpentOn(tasks, id, m)
    ensures tasks[k].rec.id == id ==> SpentOn(tasks, id, m) == Spent(tasks[k], m)
  {
    RankUpdate(tasks, k, e, id);
    RankOf(tasks, k);
  }

  /** What a step does to one entry of the store, if it touches one. */
  lemma StepShape(job: Job, e: Event, m: nat) returns (touched: bool, k: nat, entry: Entry)
    requires Inv(job, m) && m > 0 && Enabled(job, e, m) && (e.EvTake? || e.EvReport? || e.EvReset?)
    ensures touched ==> k < |job.tasks| && entry.rec.id == job.tasks[k].rec.id
                        && Next(job, e, m).tasks == job.tasks[k := entry]
    ensures !touched ==> Next(job, e, m).tasks == job.tasks && e.EvReset?
    ensures e.EvTake? ==>
              job.tasks[k].rec == job.buffer[0] && job.buffer[0].status == Pending
              && entry.rec == ToRunning(job.buffer[0]) && entry.attempts == job.tasks[k].attempts + 1
    ensures e.EvReport? ==>
              job.tasks[k].rec == job.leases[e.lease].task && job.tasks[k].rec.status == Running
              && entry.rec == ReportedRecord(job.tasks[k].rec, e.outcome, m) && entry.attempts == job.tasks[k].attempts
    ensures e.EvReset? && touched ==>
              k == Rank(job.tasks, job.scans[e.scanner][0]) && job.tasks[k].rec.status == Failed
              && entry.rec == job.tasks[k].rec.(status := Pending) && entry.attempts == job.tasks[k].attempts
    ensures e.EvReset? && !touched ==>
              Rank(job.tasks, job.scans[e.scanner][0]) == |job.tasks|
              || job.tasks[Rank(job.tasks, job.scans[e.scanner][0])].rec.status != Failed
  {
    hide Counted, Deduplicated;
    touched, k, entry := true, 0, Entry(Record(0, "", 0, Pending, 0), TaskRow(Pending, 0), 0);
    if e.EvTake? {
      k, entry := TakeShape(job, e.worker);
    } else if e.EvReport? {
      k, entry := ReportShape(job, e.lease, e.outcome, m);
    } else {
      var id := job.scans[e.scanner][0];
      k := Rank(job.tasks, id);
      touched := k < |job.tasks| && job.tasks[k].rec.status == Failed;
      if touched {
        k, entry := ResetShape(NextListed(job, e.scanner), id);
      }
    }
  }

  lemma SpentTouch(job: Job, e: Event, id: int, m: nat)
    requires Inv(job, m) && m > 0 && Enabled(job, e, m) && (e.EvTake? || e.EvReport? || e.EvReset?)
    ensures SpentOn(Next(job, e, m).tasks, id, m)
            >= SpentOn(job.tasks, id, m) + (if Transfers(job, e, id, m) then 1 else 0)
  {
    var touched, k, entry := StepShape(job, e, m);
    hide Next, Enabled, SpentOn, Counted, Deduplicated, Mirrored, BufferSound, LeasesSound;
    if touched {
      SpentUpdate(job.tasks, k, entry, id, m);
      assert job.tasks[k].rec.retries <= m;
      hide Inv;
      assert Spent(entry, m) >= Spent(job.tasks[k], m)
                                + if e.EvTake? && Accepts(job.tasks[k].rec, m) then 1 else 0;
    }
  }

  /** Every transfer uses up a unit of the limit, and no step gives one back. */
  lemma SpentStep(job: Job, e: Event, id: int, m: nat)
    requires Inv(job, m) && m > 0 && Enabled(job, e, m) && !e.EvManualRetry?
    ensures SpentOn(Next(job, e, m).tasks, id, m)
            >= SpentOn(job.tasks, id, m) + (if Transfers(job, e, id, m) then 1 else 0)
  {
    if e.EvTake? || e.EvReport? || e.EvReset? {
      SpentTouch(job, e, id, m);
    } else {
      var es := StepAppends(job, e, m);
      hide Inv, Next, Enabled;
      RankAppend(job.tasks, es, id);
      assert job.tasks + [] == job.tasks;
    }
  }

  /** The other automatic steps append to the store, or leave it alone. */
  lemma StepAppends(job: Job, e: Event, m: nat) returns (es: seq<Entry>)
    requires Enabled(job, e, m) && !e.EvTake? && !e.EvReport? && !e.EvReset? && !e.EvManualRetry?
    ensures Next(job, e, m).tasks == job.tasks + es && (!e.EvAdd? ==> es == [])
    ensures forall i :: 0 <= i < |es| ==> es[i].rec.retries == 0 && es[i].rec.status == Pending && es[i].attempts == 0
  {
    es := if e.EvAdd? then NewEntries(StartId(job), Unknown(Unique(e.inputs), job.dedup)) else [];
    assert job.tasks + [] == job.tasks;
  }

  lemma {:induction false} SpentCoversTransfers(job: Job, es: seq<Event>, id: int, m: nat)
    requires Inv(job, m) && m > 0 && ValidRun(job, es, m) && Automatic(es)
    ensures Inv(Run(job, es, m), m)
    ensures SpentOn(Run(job, es, m).tasks, id, m) >= SpentOn(job.tasks, id, m) + TransfersOf(job, es, id, m)
    decreases |es|
  {
    hide Enabled, Next, Inv, Transfers, SpentOn;
    if es != [] {
      assert es[0] in es && forall e :: e in es[1..] ==> e in es;
      SpentStep(job, es[0], id, m);
      NextKeeps(job, es[0], m);
      SpentCoversTransfers(Next(job, es[0], m), es[1..], id, m);
    }
  }

  /** With automatic retries only, over every run: however many scanners reset tasks from however old
      lists, no task is transferred more than `maxRetryCount` times. */
  lemma TransfersBounded(jobId: int, periodic: bool, es: seq<Event>, maxRetryCount: nat, id: int)
    requires maxRetryCount > 0 && ValidRun(NewJob(jobId, periodic), es, maxRetryCount) && Automatic(es)
    ensures TransfersOf(NewJob(jobId, periodic), es, id, maxRetryCount) <= maxRetryCount
  {
    var start := NewJob(jobId, periodic);
    NewJobSound(jobId, periodic, maxRetryCount);
    SpentCoversTransfers(start, es, id, maxRetryCount);
    var end := Run(start, es, maxRetryCount);
    var k := Rank(end.tasks, id);
    if k < |end.tasks| {
      assert end.tasks[k].rec.retries <= maxRetryCount;
    }
  }

  // ---------------------------------------------------------------- one scanner

  /** The dispatches of a task against the retry limit. */
  ghost predicate WithinBudget(e: Entry, maxRetryCount: nat) {
    match e.rec.status
    case Pending => e.attempts == e.rec.retries < maxRetryCount
    case Running => e.attempts == e.rec.retries + 1 <= maxRetryCount
    case Failed => e.attempts == e.rec.retries <= maxRetryCount
    case Completed => e.attempts <= maxRetryCount
  }

  ghost predicate Budgeted(tasks: seq<Entry>, maxRetryCount: nat) {
    forall k :: 0 <= k < |tasks| ==> WithinBudget(tasks[k], maxRetryCount)
  }

  /** A reset keeps all dispatches within the limit if and only if the task has a retry left, which the
      reset handler does not look at. */
  lemma ResetWithinBudgetExactlyWhen(job: Job, id: int, m: nat)
    requires Budgeted(job.tasks, m)
    requires Rank(job.tasks, id) < |job.tasks| && job.tasks[Rank(job.tasks, id)].rec.status == Failed
    ensures Budgeted(AutoReset(job, id).tasks, m) <==> job.tasks[Rank(job.tasks, id)].rec.retries < m
  {
    var k, e := ResetShape(job, id);
    var after := AutoReset(job, id).tasks;
    assert WithinBudget(job.tasks[k], m);
    if job.tasks[k].rec.retries >= m {
      assert after[k] == e && !WithinBudget(after[k], m);
    }
  }

  /** Task `id` has failed and may be retried. */
  ghost predicate Listed(tasks: seq<Entry>, id: int, m: nat) {
    var k := Rank(tasks, id);
    k < |tasks| && tasks[k].rec.status == Failed && tasks[k].rec.retries < m
  }

  ghost predicate ListSound(tasks: seq<Entry>, ids: seq<int>, m: nat) {
    && (forall i, j :: 0 <= i < j < |ids| ==> ids[i] != ids[j])
    && forall id :: id in ids ==> Listed(tasks, id, m)
  }

  /** With one scanner what it has listed is still failed and retryable when it gets to it, so every
      dispatch stays within the limit. */
  ghost predicate OneScanner(job: Job, m: nat) {
    && Budgeted(job.tasks, m) && |job.scans| <= 1
    && forall i :: 0 <= i < |job.scans| ==> ListSound(job.tasks, job.scans[i], m)
  }

  lemma ListUpdate(tasks: seq<Entry>, k: nat, e: Entry, ids: seq<int>, m: nat)
    requires ListSound(tasks, ids, m) && k < |tasks| && e.rec.id == tasks[k].rec.id && tasks[k].rec.id !in ids
    ensures ListSound(tasks[k := e], ids, m)
  {
    forall id | id in ids
      ensures Listed(tasks[k := e], id, m)
    {
      assert Listed(tasks, id, m);
      RankUpdate(tasks, k, e, id);
    }
  }

  lemma ListAppend(tasks: seq<Entry>, es: seq<Entry>, ids: seq<int>, m: nat)
    requires ListSound(tasks, ids, m)
    ensures ListSound(tasks + es, ids, m)
  {
    forall id | id in ids
      ensures Listed(tasks + es, id, m)
    {
      assert Listed(tasks, id, m);
      RankAppend(tasks, es, id);
    }
  }

  /** A fresh list holds failed tasks with retries left. */
  lemma FreshList(job: Job, ids: seq<int>, m: nat)
    requires Inv(job, m) && Lists(job, ids, m)
    ensures ListSound(job.tasks, ids, m)
    ensures ids == [] || Listed(job.tasks, ids[0], m)
  {
    hide Counted, Deduplicated, BufferSound, LeasesSound;
    assert ids == [] || ids[0] in ids;
    forall id
      ensures id in ids <==> Listed(job.tasks, id, m)
    {
      if Retryable(job, id, m) {
        var k :| 0 <= k < |job.tasks| && job.tasks[k].rec.id == id && job.tasks[k].row.status == Failed
                 && job.tasks[k].row.retries < m;
        assert MirroredEntry(job.tasks[k]);
        RankOf(job.tasks, k);
      }
      if Listed(job.tasks, id, m) {
        var k := Rank(job.tasks, id);
        assert MirroredEntry(job.tasks[k]);
        assert Retryable(job, id, m);
      }
    }
  }

  lemma ListTail(tasks: seq<Entry>, ids: seq<int>, m: nat)
    requires ListSound(tasks, ids, m) && ids != []
    ensures ListSound(tasks, ids[1..], m) && ids[0] !in ids[1..] && Listed(tasks, ids[0], m)
  {
    assert forall id :: id in ids[1..] ==> id in ids;
    assert ids[0] in ids;
  }

  /** One entry changes that no scanner lists any more. */
  lemma OneScannerUpdate(tasks: seq<Entry>, scans: seq<seq<int>>, k: nat, e: Entry, m: nat)
    requires Sorted(tasks) && Budgeted(tasks, m) && k < |tasks|
    requires forall i :: 0 <= i < |scans| ==> ListSound(tasks, scans[i], m) && tasks[k].rec.id !in scans[i]
    requires e.rec.id == tasks[k].rec.id && WithinBudget(e, m)
    ensures Budgeted(tasks[k := e], m)
    ensures forall i :: 0 <= i < |scans| ==> ListSound(tasks[k := e], scans[i], m)
  {
    forall i | 0 <= i < |scans|
      ensures ListSound(tasks[k := e], scans[i], m)
    {
      ListUpdate(tasks, k, e, scans[i], m);
    }
  }

  /** A task that a scanner lists has failed. */
  lemma NotListed(tasks: seq<Entry>, ids: seq<int>, k: nat, m: nat)
    requires Sorted(tasks) && ListSound(tasks, ids, m) && k < |tasks| && tasks[k].rec.status != Failed
    ensures tasks[k].rec.id !in ids
  {
    RankOf(tasks, k);
    assert !Listed(tasks, tasks[k].rec.id, m);
  }

  lemma OneScannerTake(job: Job, e: Event, m: nat)
    requires Inv(job, m) && m > 0 && Enabled(job, e, m) && OneScanner(job, m)
    requires e.EvTake? || e.EvReport?
    ensures OneScanner(Next(job, e, m), m)
  {
    var touched, k, entry := StepShape(job, e, m);
    ScansStep(job, e, m);
    assert Next(job, e, m).scans == job.scans;
    hide Inv, Enabled, Next;
    assert WithinBudget(job.tasks[k], m) && WithinBudget(entry, m);
    forall i | 0 <= i < |job.scans|
      ensures job.tasks[k].rec.id !in job.scans[i]
    {
      NotListed(job.tasks, job.scans[i], k, m);
    }
    OneScannerUpdate(job.tasks, job.scans, k, entry, m);
  }

  lemma OneScannerReset(job: Job, e: Event, m: nat)
    requires Inv(job, m) && m > 0 && Enabled(job, e, m) && OneScanner(job, m) && e.EvReset?
    ensures OneScanner(Next(job, e, m), m)
    ensures Listed(job.tasks, job.scans[e.scanner][0], m)
  {
    var ids := job.scans[0];
    ListTail(job.tasks, ids, m);
    var touched, k, entry := StepShape(job, e, m);
    assert touched;
    assert Next(job, e, m).scans == [ids[1..]];
    hide Inv, Enabled, Next;
    assert WithinBudget(job.tasks[k], m) && WithinBudget(entry, m);
    OneScannerUpdate(job.tasks, [ids[1..]], k, entry, m);
  }

  lemma OneScannerStep(job: Job, e: Event, m: nat)
    requires Inv(job, m) && m > 0 && Enabled(job, e, m) && OneScanner(job, m)
    requires !e.EvManualRetry? && (e.EvScanner? ==> job.scans == [])
    ensures OneScanner(Next(job, e, m), m)
  {
    if e.EvTake? || e.EvReport? {
      OneScannerTake(job, e, m);
    } else if e.EvReset? {
      OneScannerReset(job, e, m);
    } else {
      OneScannerRest(job, e, m);
    }
  }

  lemma OneScannerRest(job: Job, e: Event, m: nat)
    requires Inv(job, m) && m > 0 && Enabled(job, e, m) && OneScanner(job, m)
    requires !e.EvTake? && !e.EvReport? && !e.EvReset? && !e.EvManualRetry? && (e.EvScanner? ==> job.scans == [])
    ensures OneScanner(Next(job, e, m), m)
  {
    hide Inv, ListSound, Budgeted;
    if e.EvList? {
      FreshList(job, e.ids, m);
    } else if e.EvAdd? {
      OneScannerAdd(job, Unknown(Unique(e.inputs), job.dedup), m);
    } else if e.EvSkip? {
      ListTail(job.tasks, job.scans[0], m);
    } else if e.EvScanner? {
      NothingSound(job.tasks, m);
    }
  }

  lemma NothingSound(tasks: seq<Entry>, m: nat)
    ensures ListSound(tasks, [], m)
  {
  }

  lemma OneScannerAdd(job: Job, added: seq<Input>, m: nat)
    requires OneScanner(job, m) && m > 0
    ensures OneScanner(job.(tasks := job.tasks + NewEntries(StartId(job), added)), m)
  {
    if |job.scans| == 1 {
      ListAppend(job.tasks, NewEntries(StartId(job), added), job.scans[0], m);
    }
    hide ListSound;
  }

  /** The scanners that start in a run. */
  ghost function ScannersIn(es: seq<Event>): nat {
    if es == [] then 0 else (if es[0].EvScanner? then 1 else 0) + ScannersIn(es[1..])
  }

  // ---------------------------------------------------------------- bounded work

  /** The work a task can still cause: three steps per attempt left, fewer once the attempt has begun. */
  ghost function Fuel(e: Entry, maxRetryCount: nat): int {
    match e.rec.status
    case Pending => 3 * (maxRetryCount - e.rec.retries)
    case Running => 3 * (maxRetryCount - e.rec.retries) - 1
    case Failed => 3 * (maxRetryCount - e.rec.retries) + 1
    case Completed => 0
  }

  ghost function TotalFuel(tasks: seq<Entry>, maxRetryCount: nat): int {
    if tasks == [] then 0 else TotalFuel(tasks[..|tasks| - 1], maxRetryCount) + Fuel(tasks[|tasks| - 1], maxRetryCount)
  }

  lemma {:induction false} FuelUpdate(tasks: seq<Entry>, k: nat, e: Entry, m: nat)
    requires k < |tasks|
    ensures TotalFuel(tasks[k := e], m) == TotalFuel(tasks, m) - Fuel(tasks[k], m) + Fuel(e, m)
  {
    var n := |tasks| - 1;
    if k < n {
      FuelUpdate(tasks[..n], k, e, m);
      assert tasks[k := e][..n] == tasks[..n][k := e];
    } else {
      assert tasks[k := e][..n] == tasks[..n];
    }
  }

  /** The fuel of `n` new tasks. */
  ghost function NewFuel(n: int, maxRetryCount: nat): int {
    3 * maxRetryCount * n
  }

  lemma NewFuelAdds(a: int, b: int, m: nat)
    ensures NewFuel(a, m) + NewFuel(b, m) == NewFuel(a + b, m)
  {
  }

  lemma NewFuelOne(m: nat)
    ensures NewFuel(1, m) == 3 * m && NewFuel(0, m) == 0
  {
  }

  lemma {:induction false} FuelAppend(tasks: seq<Entry>, startId: int, inputs: seq<Input>, m: nat)
    ensures TotalFuel(tasks + NewEntries(startId, inputs), m) == TotalFuel(tasks, m) + NewFuel(|inputs|, m)
  {
    hide NewFuel;
    var es := NewEntries(startId, inputs);
    if inputs == [] {
      assert tasks + es == tasks;
      NewFuelAdds(0, 0, m);
    } else {
      var n := |inputs| - 1;
      FuelAppend(tasks, startId, inputs[..n], m);
      assert (tasks + es)[..|tasks + es| - 1] == tasks + NewEntries(startId, inputs[..n]);
      NewFuelAdds(n, 1, m);
      NewFuelOne(m);
    }
  }

  lemma {:induction false} FuelNonNegative(tasks: seq<Entry>, m: nat)
    requires Budgeted(tasks, m)
    ensures TotalFuel(tasks, m) >= 0
  {
    if tasks != [] {
      var n := |tasks| - 1;
      assert WithinBudget(tasks[n], m);
      FuelNonNegative(tasks[..n], m);
    }
  }

  /** Dispatches, reports, and resets that find a failed task. */
  predicate Works(job: Job, e: Event) {
    match e
    case EvTake(_) => true
    case EvReport(_, _) => true
    case EvReset(i) => i < |job.scans| && job.scans[i] != [] && FailedTask(job.tasks, job.scans[i][0])
    case _ => false
  }

  predicate FailedTask(tasks: seq<Entry>, id: int) {
    var k := Rank(tasks, id);
    k < |tasks| && tasks[k].rec.status == Failed
  }

  ghost function WorkIn(job: Job, es: seq<Event>, m: nat): nat
    requires ValidRun(job, es, m)
    decreases |es|
  {
    if es == [] then 0 else (if Works(job, es[0]) then 1 else 0) + WorkIn(Next(job, es[0], m), es[1..], m)
  }

  /** Every dispatch, report and reset uses fuel up. */
  lemma WorkUsesFuel(job: Job, e: Event, m: nat)
    requires Inv(job, m) && m > 0 && Enabled(job, e, m) && Works(job, e) && OneScanner(job, m)
    ensures var job' := Next(job, e, m);
            |job'.tasks| == |job.tasks| && TotalFuel(job'.tasks, m) + 1 <= TotalFuel(job.tasks, m)
  {
    var touched, k, entry := StepShape(job, e, m);
    hide Inv, Next, Enabled;
    assert touched;
    FuelUpdate(job.tasks, k, entry, m);
    assert WithinBudget(job.tasks[k], m);
    hide TotalFuel, Works, OneScanner;
  }

  /** Only new tasks bring fuel. */
  lemma OtherStepsAddNone(job: Job, e: Event, m: nat)
    requires Inv(job, m) && m > 0 && Enabled(job, e, m) && !Works(job, e) && !e.EvManualRetry?
    ensures var job' := Next(job, e, m);
            && |job'.tasks| >= |job.tasks|
            && TotalFuel(job'.tasks, m) == TotalFuel(job.tasks, m) + NewFuel(|job'.tasks| - |job.tasks|, m)
  {
    hide NewFuel, TotalFuel, Inv;
    NewFuelOne(m);
    if e.EvAdd? {
      FuelAppend(job.tasks, StartId(job), Unknown(Unique(e.inputs), job.dedup), m);
    }
  }

  lemma WorkStep(job: Job, e: Event, m: nat)
    requires Inv(job, m) && m > 0 && Enabled(job, e, m) && !e.EvManualRetry?
    requires OneScanner(job, m) && (e.EvScanner? ==> job.scans == [])
    ensures var job' := Next(job, e, m);
            && Inv(job', m) && OneScanner(job', m) && |job'.scans| == |job.scans| + (if e.EvScanner? then 1 else 0)
            && |job'.tasks| >= |job.tasks|
            && TotalFuel(job'.tasks, m) + (if Works(job, e) then 1 else 0)
               <= TotalFuel(job.tasks, m) + NewFuel(|job'.tasks| - |job.tasks|, m)
  {
    NewFuelOne(m);
    ScansStep(job, e, m);
    OneScannerStep(job, e, m);
    NextKeeps(job, e, m);
    hide Inv, Next, Enabled, TotalFuel, NewFuel, OneScanner, Works;
    if Works(job, e) {
      WorkUsesFuel(job, e, m);
    } else {
      OtherStepsAddNone(job, e, m);
    }
  }

  lemma {:induction false} WorkBounded(job: Job, es: seq<Event>, m: nat)
    requires Inv(job, m) && m > 0 && ValidRun(job, es, m) && Automatic(es)
    requires OneScanner(job, m) && |job.scans| + ScannersIn(es) <= 1
    ensures var end := Run(job, es, m);
            && Inv(end, m) && OneScanner(end, m)
            && |end.tasks| >= |job.tasks|
            && TotalFuel(end.tasks, m) + WorkIn(job, es, m) <=
               TotalFuel(job.tasks, m) + NewFuel(|end.tasks| - |job.tasks|, m)
    decreases |es|
  {
    hide Inv, Next, Enabled, Works, TotalFuel, NewFuel, OneScanner;
    NewFuelOne(m);
    if es != [] {
      var e, job' := es[0], Next(job, es[0], m);
      assert e in es && forall x :: x in es[1..] ==> x in es;
      WorkStep(job, e, m);
      WorkBounded(job', es[1..], m);
      var end := Run(job', es[1..], m);
      NewFuelAdds(|end.tasks| - |job'.tasks|, |job'.tasks| - |job.tasks|, m);
    }
  }

  lemma ScansStep(job: Job, e: Event, m: nat)
    requires Enabled(job, e, m)
    ensures |Next(job, e, m).scans| == |job.scans| + if e.EvScanner? then 1 else 0
  {
  }

  // ---------------------------------------------------------------- attempts

  /** How often task `id` is handed to a worker in a run. */
  ghost function TakesOf(job: Job, es: seq<Event>, id: int, m: nat): nat
    requires ValidRun(job, es, m)
    decreases |es|
  {
    if es == [] then 0
    else (if es[0].EvTake? && job.buffer[0].id == id then 1 else 0) + TakesOf(Next(job, es[0], m), es[1..], id, m)
  }

  function AttemptsIn(tasks: seq<Entry>, id: int): nat {
    var k := Rank(tasks, id);
    if k == |tasks| then 0 else tasks[k].attempts
  }

  lemma AttemptsAppend(tasks: seq<Entry>, es: seq<Entry>, id: int)
    requires forall i :: 0 <= i < |es| ==> es[i].attempts == 0
    ensures AttemptsIn(tasks + es, id) == AttemptsIn(tasks, id)
  {
    assert forall i :: 0 <= i < |tasks| ==> (tasks + es)[i] == tasks[i];
  }

  lemma AttemptsReset(tasks: seq<Entry>, id: int)
    ensures AttemptsIn(ResetAll(tasks), id) == AttemptsIn(tasks, id)
  {
    var ts := ResetAll(tasks);
    assert forall i :: 0 <= i < |tasks| ==> ts[i].rec.id == tasks[i].rec.id && ts[i].attempts == tasks[i].attempts;
  }

  lemma AttemptsUpdate(tasks: seq<Entry>, k: nat, e: Entry, id: int)
    requires Sorted(tasks) && k < |tasks| && e.rec.id == tasks[k].rec.id
    ensures AttemptsIn(tasks[k := e], id)
            == AttemptsIn(tasks, id) + if tasks[k].rec.id == id then e.attempts - tasks[k].attempts else 0
  {
    RankUpdate(tasks, k, e, id);
    RankOf(tasks, k);
  }

  /** The history counter moves exactly with the dispatches of the task. */
  lemma AttemptsStep(job: Job, e: Event, id: int, m: nat)
    requires Inv(job, m) && m > 0 && Enabled(job, e, m)
    ensures AttemptsIn(Next(job, e, m).tasks, id) ==
            AttemptsIn(job.tasks, id) + (if e.EvTake? && job.buffer[0].id == id then 1 else 0)
  {
    if e.EvTake? || e.EvReport? || e.EvReset? {
      var touched, k, entry := StepShape(job, e, m);
      hide Next, Enabled, Counted, Deduplicated, Mirrored, BufferSound, LeasesSound;
      assert Sorted(job.tasks);
      hide Inv, Sorted;
      if touched {
        AttemptsUpdate(job.tasks, k, entry, id);
      }
    } else if e.EvManualRetry? {
      AttemptsReset(job.tasks, id);
    } else {
      var es := StepAppends(job, e, m);
      hide Inv, Next, Enabled;
      AttemptsAppend(job.tasks, es, id);
    }
  }

  lemma {:induction false} AttemptsAreTakes(job: Job, es: seq<Event>, id: int, m: nat)
    requires Inv(job, m) && m > 0 && ValidRun(job, es, m) && CleanRun(job, es, m)
    ensures AttemptsIn(Run(job, es, m).tasks, id) == AttemptsIn(job.tasks, id) + TakesOf(job, es, id, m)
    decreases |es|
  {
    if es != [] {
      AttemptsStep(job, es[0], id, m);
      NextKeeps(job, es[0], m);
      hide Inv, Next, Enabled, AttemptsIn;
      AttemptsAreTakes(Next(job, es[0], m), es[1..], id, m);
    }
  }

  /** With automatic retries only and at most one scanner, over every run: no task is dispatched more
      than `maxRetryCount` times, and all dispatches, reports and resets together are at most three
      times that per task. */
  lemma RetriesBounded(jobId: int, periodic: bool, es: seq<Event>, maxRetryCount: nat)
    requires maxRetryCount > 0 && ValidRun(NewJob(jobId, periodic), es, maxRetryCount)
    requires Automatic(es) && ScannersIn(es) <= 1
    ensures forall id :: TakesOf(NewJob(jobId, periodic), es, id, maxRetryCount) <= maxRetryCount
    ensures WorkIn(NewJob(jobId, periodic), es, maxRetryCount)
            <= 3 * maxRetryCount * |Run(NewJob(jobId, periodic), es, maxRetryCount).tasks|
  {
    var start := NewJob(jobId, periodic);
    var end := Run(start, es, maxRetryCount);
    NewJobSound(jobId, periodic, maxRetryCount);
    WithoutRetryClean(start, es, maxRetryCount);
    WorkBounded(start, es, maxRetryCount);
    forall id ensures TakesOf(start, es, id, maxRetryCount) <= maxRetryCount {
      AttemptsAreTakes(start, es, id, maxRetryCount);
      var k := Rank(end.tasks, id);
      if k < |end.tasks| {
        assert WithinBudget(end.tasks[k], maxRetryCount);
      }
    }
    FuelNonNegative(end.tasks, maxRetryCount);
  }

  // ---------------------------------------------------------------- quiescence

  /** Nothing is queued, nothing is held, and every failure is final. */
  ghost predicate Idle(job: Job, maxRetryCount: nat) {
    && job.buffer == [] && job.leases == []
    && forall k :: 0 <= k < |job.tasks| ==>
         && job.tasks[k].rec.status != Pending && job.tasks[k].rec.status != Running
         && (job.tasks[k].rec.status == Failed ==> job.tasks[k].rec.retries >= maxRetryCount)
  }

  /** No scanner still has a failed task on its list. */
  ghost predicate NothingListed(job: Job) {
    forall s: nat, j: nat :: !StillListed(job, s, j)
  }

  ghost predicate StillListed(job: Job, s: nat, j: nat) {
    s < |job.scans| && j < |job.scans[s]| && FailedTask(job.tasks, job.scans[s][j])
  }

  ghost predicate Quiet(job: Job, maxRetryCount: nat) {
    Idle(job, maxRetryCount) && NothingListed(job)
  }

  lemma HoldersShow(job: Job, maxRetryCount: nat)
    requires Inv(job, maxRetryCount)
    ensures job.buffer != [] ==> exists k :: 0 <= k < |job.tasks| && job.tasks[k].rec.status == Pending
    ensures job.leases != [] ==> exists k :: 0 <= k < |job.tasks| && job.tasks[k].rec.status == Running
  {
    if job.buffer != [] {
      assert job.buffer[0] in job.buffer;
      var k: nat :| BufferedAt(job.tasks, job.offset, k, job.buffer[0]);
      assert job.tasks[k].rec.status == Pending;
    }
    if job.leases != [] {
      assert job.leases[0] in job.leases;
      var k: nat :| LeasedAt(job.tasks, k, job.leases[0].task);
      assert job.tasks[k].rec.status == Running;
    }
  }

  /** A job the monitor closes is idle exactly when no failed task is left between the monitor's fixed
      limit of three and the configured one, and quiet exactly when no scanner lists one either. */
  lemma ClosedIsQuiet(job: Job, maxRetryCount: nat)
    requires Inv(job, maxRetryCount) && Finished(job)
    ensures Monitor(job).row.status == JobCompleted
    ensures Idle(Monitor(job), maxRetryCount) <==>
            forall k :: 0 <= k < |job.tasks| && job.tasks[k].rec.status == Failed ==>
              !(MONITOR_RETRY_LIMIT <= job.tasks[k].rec.retries < maxRetryCount)
    ensures Quiet(Monitor(job), maxRetryCount) <==> Idle(Monitor(job), maxRetryCount) && NothingListed(job)
    ensures maxRetryCount <= MONITOR_RETRY_LIMIT ==> Idle(Monitor(job), maxRetryCount)
  {
    hide Sorted, Deduplicated, Counted, BufferSound, LeasesSound;
    assert forall k :: 0 <= k < |job.tasks| ==> MirroredEntry(job.tasks[k]);
    HoldersShow(job, maxRetryCount);
    assert forall s: nat, j: nat :: StillListed(Monitor(job), s, j) == StillListed(job, s, j);
  }

  lemma FinishedNotListed(job: Job, id: int, m: nat)
    requires Mirrored(job.tasks) && Finished(job) && m <= MONITOR_RETRY_LIMIT
    ensures !Listed(job.tasks, id, m)
  {
    var k := Rank(job.tasks, id);
    if k < |job.tasks| {
      assert MirroredEntry(job.tasks[k]);
    }
  }

  /** With one scanner and a limit of at most three, every job the monitor closes is quiet. */
  lemma OneScannerClosesQuiet(job: Job, maxRetryCount: nat)
    requires Inv(job, maxRetryCount) && OneScanner(job, maxRetryCount) && Finished(job)
    requires maxRetryCount <= MONITOR_RETRY_LIMIT
    ensures Quiet(Monitor(job), maxRetryCount)
  {
    ClosedIsQuiet(job, maxRetryCount);
    forall s: nat, j: nat
      ensures !StillListed(job, s, j)
    {
      if s < |job.scans| && j < |job.scans[s]| {
        var id := job.scans[s][j];
        FinishedNotListed(job, id, maxRetryCount);
        assert id !in job.scans[s] || Listed(job.tasks, id, maxRetryCount);
      }
    }
  }

  /** Nothing is added or retried by hand. */
  ghost predicate NothingNew(es: seq<Event>) {
    forall e :: e in es ==> !e.EvAdd? && !e.EvManualRetry?
  }

  /** From a quiet state no step dispatches, reports or resets, and every step but an add or a manual
      retry leaves the tasks, the channel and the leases as they are. */
  lemma {:induction false} QuietRun(job: Job, es: seq<Event>, maxRetryCount: nat)
    requires Inv(job, maxRetryCount) && maxRetryCount > 0 && Quiet(job, maxRetryCount)
    requires ValidRun(job, es, maxRetryCount) && NothingNew(es)
    ensures WorkIn(job, es, maxRetryCount) == 0
    ensures Quiet(Run(job, es, maxRetryCount), maxRetryCount) && Run(job, es, maxRetryCount).tasks == job.tasks
    decreases |es|
  {
    if es != [] {
      assert es[0] in es && forall e :: e in es[1..] ==> e in es;
      QuietStep(job, es[0], maxRetryCount);
      NextKeeps(job, es[0], maxRetryCount);
      hide Inv, Quiet, Next, Enabled, Works;
      QuietRun(Next(job, es[0], maxRetryCount), es[1..], maxRetryCount);
    }
  }

  lemma QuietStep(job: Job, e: Event, maxRetryCount: nat)
    requires Inv(job, maxRetryCount) && Quiet(job, maxRetryCount) && Enabled(job, e, maxRetryCount)
    requires !e.EvAdd? && !e.EvManualRetry?
    ensures !Works(job, e)
    ensures Quiet(Next(job, e, maxRetryCount), maxRetryCount) && Next(job, e, maxRetryCount).tasks == job.tasks
  {
    if e.EvReset? || e.EvSkip? || e.EvList? || e.EvScanner? {
      QuietScan(job, e, maxRetryCount);
    } else {
      QuietSameScans(job, e, maxRetryCount);
      var next := Next(job, e, maxRetryCount);
      hide Inv, Enabled, Next, Works, Idle;
      forall s: nat, j: nat
        ensures !StillListed(next, s, j)
      {
        assert !StillListed(job, s, j);
      }
    }
  }

  lemma QuietSameScans(job: Job, e: Event, maxRetryCount: nat)
    requires Inv(job, maxRetryCount) && Idle(job, maxRetryCount) && Enabled(job, e, maxRetryCount)
    requires !e.EvAdd? && !e.EvManualRetry? && !e.EvReset? && !e.EvSkip? && !e.EvList? && !e.EvScanner?
    ensures !Works(job, e) && Idle(Next(job, e, maxRetryCount), maxRetryCount)
    ensures Next(job, e, maxRetryCount).tasks == job.tasks && Next(job, e, maxRetryCount).scans == job.scans
  {
    hide Counted, Deduplicated, Sorted, BufferSound, LeasesSound, Mirrored;
    if e.EvFill? {
      FillOfIdle(job, maxRetryCount);
    } else if e.EvShuffle? {
      assert |multiset(e.order)| == 0;
    }
  }

  lemma FillOfIdle(job: Job, maxRetryCount: nat)
    requires Idle(job, maxRetryCount)
    ensures Fill(job).buffer == []
  {
    var batch := Batch(job.tasks, job.offset);
    ScanPushes(batch, []);
    assert forall k :: 0 <= k < |batch| ==> batch[k] == job.tasks[job.offset + k];
    NothingPending(batch[..Scan(batch, []).processed]);
  }

  lemma QuietScan(job: Job, e: Event, maxRetryCount: nat)
    requires Inv(job, maxRetryCount) && Quiet(job, maxRetryCount) && Enabled(job, e, maxRetryCount)
    requires e.EvReset? || e.EvSkip? || e.EvList? || e.EvScanner?
    ensures !Works(job, e)
    ensures Quiet(Next(job, e, maxRetryCount), maxRetryCount) && Next(job, e, maxRetryCount).tasks == job.tasks
  {
    var next := Next(job, e, maxRetryCount);
    if e.EvList? {
      QuietList(job, e.ids, maxRetryCount);
    } else if e.EvReset? {
      assert !StillListed(job, e.scanner, 0);
    }
    hide Inv, Lists, FailedTask;
    forall s: nat, j: nat
      ensures !StillListed(next, s, j)
    {
      assert !StillListed(job, s, j) && !StillListed(job, s, j + 1);
    }
  }

  lemma QuietList(job: Job, ids: seq<int>, maxRetryCount: nat)
    requires Inv(job, maxRetryCount) && Idle(job, maxRetryCount) && Lists(job, ids, maxRetryCount)
    ensures ids == []
  {
    FreshList(job, ids, maxRetryCount);
    forall id
      ensures !Listed(job.tasks, id, maxRetryCount)
    {
    }
  }

  /** A scanner skips the ids before its `j`-th one. */
  lemma {:induction false} SkipTo(job: Job, s: nat, j: nat, m: nat) returns (es: seq<Event>)
    requires s < |job.scans| && j < |job.scans[s]|
    ensures ValidRun(job, es, m) && NothingNew(es)
    ensures Run(job, es, m) == job.(scans := job.scans[s := job.scans[s][j..]])
    decreases j
  {
    if j == 0 {
      es := [];
      assert job.scans[s := job.scans[s][0..]] == job.scans;
    } else {
      var next := NextListed(job, s);
      assert next.scans[s] == job.scans[s][1..];
      var rest := SkipTo(next, s, j - 1, m);
      es := [EvSkip(s)] + rest;
      assert es[1..] == rest && Next(job, EvSkip(s), m) == next;
      assert next.scans[s := next.scans[s][j - 1..]] == job.scans[s := job.scans[s][j..]];
    }
  }

  /** An idle job, closed or not, stays as it is over every run without adds and manual retries if and
      only if no scanner still has a failed task on its list. */
  lemma StaysIdleExactlyWhen(job: Job, m: nat)
    requires Inv(job, m) && m > 0 && Idle(job, m)
    ensures (forall es :: ValidRun(job, es, m) && NothingNew(es) ==> Run(job, es, m).tasks == job.tasks)
            <==> NothingListed(job)
  {
    if NothingListed(job) {
      forall es | ValidRun(job, es, m) && NothingNew(es)
        ensures Run(job, es, m).tasks == job.tasks
      {
        QuietRun(job, es, m);
      }
    } else {
      var s: nat, j: nat :| StillListed(job, s, j);
      var es := WakingRun(job, s, j, m);
    }
  }

  /** The reset of a task that an old list names makes it pending again, and the closed job with it. */
  lemma WakingRun(job: Job, s: nat, j: nat, m: nat) returns (es: seq<Event>)
    requires StillListed(job, s, j)
    ensures ValidRun(job, es, m) && NothingNew(es)
    ensures var end, k := Run(job, es, m), Rank(job.tasks, job.scans[s][j]);
            && k < |job.tasks| == |end.tasks|
            && end.tasks == job.tasks[k := end.tasks[k]] && end.tasks[k].rec == job.tasks[k].rec.(status := Pending)
            && end.tasks != job.tasks && end.row == Reactivate(job.row)
  {
    var skips := SkipTo(job, s, j, m);
    var there := Run(job, skips, m);
    var id := job.scans[s][j];
    assert there.scans[s][0] == id;
    var k, e := ResetShape(NextListed(there, s), id);
    RunStep(job, skips, EvReset(s), m);
    es := skips + [EvReset(s)];
    assert e != job.tasks[k];
    assert Run(job, es, m).tasks[k] == e;
  }

  const LAST_CHANCE: Entry := Entry(Record(7000000, "a", 1, Failed, 3), TaskRow(Failed, 3), 3)

  function OneLeft(): Job {
    NewJob(7, false).(
      tasks := [LAST_CHANCE], dedup := map["a" := 7000000], offset := 1,
      row := JobRow(JobRunning, 1, Tally(0, 0, 0, 1), 1, 0, false), scans := [[]])
  }

  lemma OneLeftCounted()
    ensures Counted(OneLeft().tasks, OneLeft().row, OneLeft().stats)
  {
    assert [LAST_CHANCE][..0] == [];
  }

  /** With a larger retry limit a closed job can wake up: one task failed three times of four. */
  lemma ClosedCanWakeUp()
    ensures Inv(OneLeft(), 4) && Finished(OneLeft()) && Monitor(OneLeft()).row.status == JobCompleted
    ensures Enabled(Monitor(OneLeft()), EvList(0, [7000000]), 4)
  {
    OneLeftCounted();
    hide Counted;
    assert SrcAt(OneLeft().tasks, 0, "a");
    assert Retryable(Monitor(OneLeft()), 7000000, 4);
  }
}
