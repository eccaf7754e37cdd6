/** What the handlers do to a job, spelled out field by field. */
module DispatchEffects {
  import opened DispatchSafety
  import opened TransferQueue

  // ---------------------------------------------------------------- refills

  /** The cursor goes on by a batch of 1000 ranks, to the end, or to the pending record that finds 2000 in the
      channel; what is pending on the way is queued. */
  ghost predicate Advanced(tasks: seq<Entry>, from: nat, buffer: seq<Record>, to: nat, buffer': seq<Record>) {
    if from >= |tasks| then to == from && buffer' == buffer
    else
      && from <= to <= from + 1000 && to <= |tasks|
      && buffer' == buffer + PendingOf(tasks[from..to])
      && (to == from + 1000 || to == |tasks| || (|buffer'| >= 2000 && tasks[to].rec.status == Pending))
  }

  lemma FillAdvances(job: Job)
    ensures var next := Fill(job);
            && next == job.(offset := next.offset, buffer := next.buffer)
            && (|job.buffer| <= 2000 ==> Advanced(job.tasks, job.offset, job.buffer, next.offset, next.buffer))
  {
    var batch := Batch(job.tasks, job.offset);
    if |job.buffer| <= 2000 {
      ScanPushes(batch, job.buffer);
      var p := Scan(batch, job.buffer).processed;
      if job.offset < |job.tasks| {
        assert batch[..p] == job.tasks[job.offset..job.offset + p];
      } else {
        assert batch[..p] == [] && job.buffer + [] == job.buffer;
      }
    }
  }

  /** One visit of the ticker: an active job with fewer than 100 records in its channel is filled, from the
      start if it looks stuck at the end. Nothing but cursor and channel changes. */
  ghost predicate Refilled(job: Job, next: Job) {
    && next == job.(offset := next.offset, buffer := next.buffer)
    && if (job.row.status != JobRunning && job.row.status != JobPending) || |job.buffer| >= 100 then next == job
       else
         var stuck := job.buffer == [] && job.offset >= |job.tasks| > 0 && job.row.counts.pending > 0
                      && forall k :: 0 <= k < |job.tasks| ==> job.tasks[k].row.status != Running;
         Advanced(job.tasks, if stuck then 0 else job.offset, job.buffer, next.offset, next.buffer)
  }

  lemma RefillRoundIs(job: Job)
    ensures Refilled(job, RefillRound(job))
  {
    FillAdvances(StuckCheck(job));
    hide Fill, Advanced;
  }

  // ---------------------------------------------------------------- adds

  /** Input `i` is the first of a path that the job does not have. */
  ghost predicate NewAt(inputs: seq<Input>, dedup: map<string, int>, i: nat) {
    i < |inputs| && inputs[i].src !in dedup && forall j :: 0 <= j < i ==> inputs[j].src != inputs[i].src
  }

  ghost function NewOnes(inputs: seq<Input>, dedup: map<string, int>, n: nat): seq<Input>
    requires n <= |inputs|
  {
    if n == 0 then []
    else NewOnes(inputs, dedup, n - 1) + if NewAt(inputs, dedup, n - 1) then [inputs[n - 1]] else []
  }

  ghost function PositiveBytes(inputs: seq<Input>): int {
    if inputs == [] then 0
    else
      var size := inputs[|inputs| - 1].size;
      PositiveBytes(inputs[..|inputs| - 1]) + if size > 0 then size else 0
  }

  lemma {:induction false} UniquePush(front: seq<Input>, last: Input)
    ensures Unique(front + [last]) == if last.src in SrcsOf(front) then Unique(front) else Unique(front) + [last]
  {
    assert (front + [last])[..|front + [last]| - 1] == front;
    hide SrcsOf;
  }

  lemma {:induction false} UnknownPush(front: seq<Input>, last: Input, dedup: map<string, int>)
    ensures Unknown(front + [last], dedup)
            == if last.src in dedup then Unknown(front, dedup) else Unknown(front, dedup) + [last]
  {
    assert (front + [last])[..|front + [last]| - 1] == front;
  }

  lemma NewOnesStep(inputs: seq<Input>, dedup: map<string, int>, n: nat)
    requires 0 < n <= |inputs|
    ensures var front, last := NewOnes(inputs, dedup, n - 1), inputs[n - 1];
            NewOnes(inputs, dedup, n)
            == if last.src !in dedup && last.src !in SrcsOf(inputs[..n - 1]) then front + [last] else front
  {
    InSrcs(inputs, n - 1, inputs[n - 1].src);
    hide SrcsOf;
    assert NewOnes(inputs, dedup, n - 1) + [] == NewOnes(inputs, dedup, n - 1);
  }

  lemma {:induction false} UniqueThenUnknown(inputs: seq<Input>, dedup: map<string, int>, n: nat)
    requires n <= |inputs|
    ensures Unknown(Unique(inputs[..n]), dedup) == NewOnes(inputs, dedup, n)
  {
    if n > 0 {
      hide SrcsOf, Unique, Unknown, NewOnes;
      UniqueThenUnknown(inputs, dedup, n - 1);
      assert inputs[..n] == inputs[..n - 1] + [inputs[n - 1]];
      UniquePush(inputs[..n - 1], inputs[n - 1]);
      UnknownPush(Unique(inputs[..n - 1]), inputs[n - 1], dedup);
      NewOnesStep(inputs, dedup, n);
    }
  }

  lemma InSrcs(inputs: seq<Input>, n: nat, src: string)
    requires n <= |inputs|
    ensures src in SrcsOf(inputs[..n]) <==> exists j :: 0 <= j < n && inputs[j].src == src
  {
    if j :| 0 <= j < n && inputs[j].src == src {
      assert inputs[..n][j].src == src;
    }
  }

  lemma {:induction false} BytesAre(inputs: seq<Input>)
    ensures SizeOfInputs(inputs) == PositiveBytes(inputs)
  {
    if inputs != [] {
      BytesAre(inputs[..|inputs| - 1]);
    }
  }

  /** Entry `k` of those that are new, numbered on from the last id, or from the job's million. */
  ghost predicate EntryIs(job: Job, e: Entry, input: Input, k: nat) {
    var first := if job.tasks == [] then job.jobId * 1000000 else job.tasks[|job.tasks| - 1].rec.id + 1;
    e == Entry(Record(first + k, input.src, input.size, Pending, 0), TaskRow(Pending, 0), 0)
  }

  ghost predicate TasksExtended(job: Job, tasks: seq<Entry>, added: seq<Input>) {
    && |tasks| == |job.tasks| + |added| && tasks[..|job.tasks|] == job.tasks
    && forall k: nat :: k < |added| ==> EntryIs(job, tasks[|job.tasks| + k], added[k], k)
  }

  ghost predicate IdOf(dedup: map<string, int>, src: string, id: int) {
    src in dedup && dedup[src] == id
  }

  ghost predicate SameId(dedup: map<string, int>, next: map<string, int>, src: string) {
    (src in next <==> src in dedup) && (src in dedup ==> next[src] == dedup[src])
  }

  ghost predicate HasPath(added: seq<Input>, src: string) {
    exists k :: 0 <= k < |added| && added[k].src == src
  }

  /** The new paths are known under the ids of their tasks, all other ones as before. */
  ghost predicate DedupExtended(job: Job, dedup: map<string, int>, tasks: seq<Entry>, added: seq<Input>)
    requires |tasks| == |job.tasks| + |added|
  {
    && (forall k: nat :: k < |added| ==> IdOf(dedup, added[k].src, tasks[|job.tasks| + k].rec.id))
    && forall src :: HasPath(added, src) || SameId(job.dedup, dedup, src)
  }

  /** A closed or failed job is pending again, any other status stays. */
  ghost predicate RowExtended(row: JobRow, next: JobRow, added: seq<Input>) {
    var counts := row.counts;
    next == JobRow(if row.status in {JobCompleted, JobPhasedCompleted, JobFailed} then JobPending else row.status,
                   row.total + |added|,
                   Tally(counts.pending + |added|, counts.running, counts.success, counts.failed),
                   row.totalSize + PositiveBytes(added), row.successSize, row.periodic)
  }

  /** The first input of each path that the job does not have becomes a pending task, in order. */
  ghost predicate Extended(job: Job, next: Job, inputs: seq<Input>) {
    var added := NewOnes(inputs, job.dedup, |inputs|);
    if added == [] then next == job
    else
      && next == job.(tasks := next.tasks, dedup := next.dedup, row := next.row)
      && TasksExtended(job, next.tasks, added) && DedupExtended(job, next.dedup, next.tasks, added)
      && RowExtended(job.row, next.row, added)
  }

  ghost predicate AllNew(inputs: seq<Input>, dedup: map<string, int>) {
    && (forall i, j :: 0 <= i < j < |inputs| ==> inputs[i].src != inputs[j].src)
    && forall i :: 0 <= i < |inputs| ==> inputs[i].src !in dedup
  }

  lemma {:induction false} NewOnesAreNew(inputs: seq<Input>, dedup: map<string, int>, n: nat)
    requires n <= |inputs|
    ensures var added := NewOnes(inputs, dedup, n);
            && AllNew(added, dedup)
            && forall k :: 0 <= k < |added| ==> exists j :: 0 <= j < n && inputs[j].src == added[k].src
  {
    if n > 0 {
      NewOnesAreNew(inputs, dedup, n - 1);
    }
  }

  /** The last input of a path decides its id, any other path keeps what it had. */
  lemma {:induction false} Remembered(dedup: map<string, int>, first: int, inputs: seq<Input>, src: string, k: int)
    requires -1 <= k < |inputs| && (k >= 0 ==> inputs[k].src == src)
    requires forall i :: k < i < |inputs| ==> inputs[i].src != src
    ensures var next := Remember(dedup, first, inputs);
            if k >= 0 then src in next && next[src] == first + k
            else (src in next <==> src in dedup) && (src in next ==> next[src] == dedup[src])
  {
    if inputs != [] && k < |inputs| - 1 {
      Remembered(dedup, first, inputs[..|inputs| - 1], src, k);
    }
  }

  lemma EntriesAre(job: Job, added: seq<Input>)
    ensures TasksExtended(job, job.tasks + NewEntries(StartId(job), added), added)
  {
    var es := NewEntries(StartId(job), added);
    var tasks := job.tasks + es;
    assert |es| == |added|;
    hide NewEntries, StartId, EntryIs;
    assert tasks[..|job.tasks|] == job.tasks;
    forall k: nat | k < |added|
      ensures EntryIs(job, tasks[|job.tasks| + k], added[k], k)
    {
      EntryIsNew(job, added, k);
      assert tasks[|job.tasks| + k] == es[k];
    }
  }

  lemma EntryIsNew(job: Job, added: seq<Input>, k: nat)
    requires k < |added|
    ensures |NewEntries(StartId(job), added)| == |added|
    ensures EntryIs(job, NewEntries(StartId(job), added)[k], added[k], k)
  {
    assert NewEntries(StartId(job), added)[k] == NewEntry(StartId(job) + k, added[k]);
  }

  lemma RowIs(row: JobRow, added: seq<Input>)
    ensures RowExtended(row, AddedRow(row, |added|, SizeOfInputs(added)), added)
  {
    BytesAre(added);
    hide SizeOfInputs, PositiveBytes;
  }

  lemma NewIdIs(job: Job, tasks: seq<Entry>, added: seq<Input>, k: nat)
    requires AllNew(added, job.dedup) && TasksExtended(job, tasks, added) && k < |added|
    ensures IdOf(Remember(job.dedup, StartId(job), added), added[k].src, tasks[|job.tasks| + k].rec.id)
  {
    Remembered(job.dedup, StartId(job), added, added[k].src, k);
    assert EntryIs(job, tasks[|job.tasks| + k], added[k], k);
    hide Remember;
  }

  lemma DedupIs(job: Job, tasks: seq<Entry>, added: seq<Input>)
    requires AllNew(added, job.dedup) && TasksExtended(job, tasks, added)
    ensures DedupExtended(job, Remember(job.dedup, StartId(job), added), tasks, added)
  {
    var dedup := Remember(job.dedup, StartId(job), added);
    assert |tasks| == |job.tasks| + |added|;
    hide Remember, TasksExtended, StartId, AllNew, IdOf;
    forall k: nat | k < |added|
      ensures IdOf(dedup, added[k].src, tasks[|job.tasks| + k].rec.id)
    {
      NewIdIs(job, tasks, added, k);
    }
    forall src | !HasPath(added, src)
      ensures SameId(job.dedup, dedup, src)
    {
      Remembered(job.dedup, StartId(job), added, src, -1);
    }
  }

  lemma AddExtends(job: Job, inputs: seq<Input>)
    ensures Extended(job, Add(job, inputs), inputs)
  {
    UniqueThenUnknown(inputs, job.dedup, |inputs|);
    assert inputs[..|inputs|] == inputs;
    var added := NewOnes(inputs, job.dedup, |inputs|);
    NewOnesAreNew(inputs, job.dedup, |inputs|);
    EntriesAre(job, added);
    DedupIs(job, job.tasks + NewEntries(StartId(job), added), added);
    RowIs(job.row, added);
    hide NewOnes, Unique, Unknown, Remember, SizeOfInputs, PositiveBytes, AllNew, NewEntries, StartId, AddedRow,
      TasksExtended, RowExtended, DedupExtended;
  }

  // ---------------------------------------------------------------- handing out

  ghost predicate Named(records: seq<Record>, id: int) {
    exists i :: 0 <= i < |records| && records[i].id == id
  }

  /** A task that is handed out is running, in record and row, and has one attempt more. */
  ghost predicate MarkedEntry(e: Entry, taken: seq<Record>, next: Entry) {
    if Named(taken, e.rec.id) then
      next == Entry(Record(e.rec.id, e.rec.src, e.rec.size, Running, e.rec.retries), TaskRow(Running, e.row.retries),
                    e.attempts + 1)
    else next == e
  }

  /** The worker holds what it was given, in order; a job that gave something runs, unless it was held up. */
  ghost predicate Marked(job: Job, worker: string, taken: seq<Record>, next: Job) {
    && next == job.(tasks := next.tasks, stats := next.stats, row := next.row, leases := next.leases)
    && |next.tasks| == |job.tasks|
    && (forall k :: 0 <= k < |job.tasks| ==> MarkedEntry(job.tasks[k], taken, next.tasks[k]))
    && |next.leases| == |job.leases| + |taken| && next.leases[..|job.leases|] == job.leases
    && (forall i :: 0 <= i < |taken| ==> next.leases[|job.leases| + i] == Lease(worker, taken[i].(status := Running)))
    && next.row == job.row.(
         status := if taken != [] && job.row.status in {JobPending, JobCompleted, JobPhasedCompleted} then JobRunning
                   else job.row.status)
  }

  /** Different tasks, all pending, as the store has them. */
  ghost predicate Takeable(tasks: seq<Entry>, taken: seq<Record>) {
    && (forall i, j :: 0 <= i < j < |taken| ==> taken[i].id != taken[j].id)
    && forall i :: 0 <= i < |taken| ==> TakeableAt(tasks, taken[i])
  }

  ghost predicate TakeableAt(tasks: seq<Entry>, r: Record) {
    r.status == Pending && exists k: nat :: StoredAt(tasks, k, r)
  }

  lemma {:induction false} MarkAllMarks(job: Job, worker: string, taken: seq<Record>)
    requires Sorted(job.tasks) && Takeable(job.tasks, taken)
    ensures Marked(job, worker, taken, MarkAll(job, worker, taken))
  {
    if taken != [] {
      var n := |taken| - 1;
      var front, r := taken[..n], taken[n];
      assert taken == front + [r] && Takeable(job.tasks, front);
      hide Sorted, Takeable, Marked, MarkRunning;
      MarkAllMarks(job, worker, front);
      MarkedPush(job, worker, front, r, MarkAll(job, worker, front));
    }
  }

  lemma {:induction false} MarkedPush(job: Job, worker: string, front: seq<Record>, r: Record, before: Job)
    requires Sorted(job.tasks) && Takeable(job.tasks, front + [r]) && Marked(job, worker, front, before)
    ensures Marked(job, worker, front + [r], MarkRunning(before, worker, r))
  {
    var taken := front + [r];
    assert taken[|front|] == r;
    assert TakeableAt(job.tasks, r);
    var k: nat :| StoredAt(job.tasks, k, r);
    SameRanks(job.tasks, before.tasks, front, k);
    assert !Named(front, r.id) by {
      assert forall i :: 0 <= i < |front| ==> taken[i] == front[i];
    }
    var next := MarkRunning(before, worker, r);
    hide Track, Takeable, Rank;
    forall i | 0 <= i < |job.tasks|
      ensures MarkedEntry(job.tasks[i], taken, next.tasks[i])
    {
      NamedPush(front, r, job.tasks[i].rec.id);
      assert i != k ==> Before(job.tasks, i, k) && Before(job.tasks, k, i);
      assert MarkedEntry(job.tasks[i], front, before.tasks[i]);
      hide Named;
    }
  }

  lemma {:induction false} NamedPush(front: seq<Record>, r: Record, id: int)
    ensures Named(front + [r], id) <==> Named(front, id) || id == r.id
  {
    var taken := front + [r];
    assert taken[|front|] == r;
    if Named(front, id) {
      var i :| 0 <= i < |front| && front[i].id == id;
      assert taken[i].id == id;
    }
  }

  /** Marking moves no task to another rank. */
  lemma SameRanks(tasks: seq<Entry>, marked: seq<Entry>, front: seq<Record>, k: nat)
    requires Sorted(tasks) && k < |tasks| == |marked|
    requires forall i :: 0 <= i < |tasks| ==> MarkedEntry(tasks[i], front, marked[i])
    ensures Rank(marked, tasks[k].rec.id) == k
  {
    forall i: nat, j: nat
      ensures Before(marked, i, j)
    {
      assert Before(tasks, i, j);
    }
    hide Named;
    RankOf(marked, k);
  }

  // ---------------------------------------------------------------- batches of updates

  /** Update `i` is the last one that names the task. */
  ghost predicate LastNames(updates: seq<Record>, id: int, i: nat) {
    i < |updates| && updates[i].id == id && forall j :: i < j < |updates| ==> updates[j].id != id
  }

  /** The last update of a task is stored, with path and size kept when it gives none, and with one retry more
      when it reports a failure without counting it; the row follows. */
  ghost predicate UpdatedEntry(e: Entry, updates: seq<Record>, next: Entry) {
    if forall i: nat :: !LastNames(updates, e.rec.id, i) then next == e
    else exists i: nat :: LastNames(updates, e.rec.id, i) && StoredAs(e, updates[i], next)
  }

  ghost predicate StoredAs(e: Entry, u: Record, next: Entry) {
    var was := e.rec;
    var retries := if u.retries == 0 && u.status == Failed && was.status != Failed then was.retries + 1 else u.retries;
    next == Entry(Record(was.id, if u.src == "" then was.src else u.src, if u.size == 0 then was.size else u.size,
                         u.status, retries),
                  TaskRow(u.status, retries), e.attempts)
  }

  /** Some update moves a task of the job to this status. */
  ghost predicate MovesTo(tasks: seq<Entry>, updates: seq<Record>, status: Status) {
    exists i, k :: 0 <= i < |updates| && 0 <= k < |tasks| && tasks[k].rec.id == updates[i].id
                   && updates[i].status == status != tasks[k].rec.status
  }

  /** A closed job that gets a pending task is pending, and one that is not held up and gets a running one runs. */
  ghost predicate Updated(job: Job, updates: seq<Record>, next: Job) {
    && next == job.(tasks := next.tasks, stats := next.stats, row := next.row)
    && |next.tasks| == |job.tasks|
    && (forall k :: 0 <= k < |job.tasks| ==> UpdatedEntry(job.tasks[k], updates, next.tasks[k]))
    && next.row == job.row.(successSize := next.row.successSize, status := next.row.status)
    && next.row.status ==
         var closed := job.row.status in {JobCompleted, JobPhasedCompleted};
         if MovesTo(job.tasks, updates, Running) && (closed || job.row.status == JobPending) then JobRunning
         else if MovesTo(job.tasks, updates, Pending) && closed then JobPending
         else job.row.status
  }

  lemma {:induction false} WrittenUpdates(tasks: seq<Entry>, updates: seq<Record>, k: nat)
    requires Sorted(tasks) && k < |tasks|
    ensures UpdatedEntry(tasks[k], updates, Written(tasks, tasks, updates)[k])
  {
    if updates != [] {
      var n := |updates| - 1;
      var front, u := updates[..n], updates[n];
      WrittenUpdates(tasks, front, k);
      RankOf(tasks, k);
      var id, now := tasks[k].rec.id, Written(tasks, tasks, updates)[k];
      if u.id == id {
        assert LastNames(updates, id, n) && StoredAs(tasks[k], u, now);
      } else {
        assert now == Written(tasks, tasks, front)[k];
        hide Written, Sorted, Rank, StoredAs;
        forall i: nat
          ensures LastNames(updates, id, i) <==> LastNames(front, id, i)
        {
          LastOfFront(updates, id, i);
        }
      }
    }
  }

  lemma LastOfFront(updates: seq<Record>, id: int, i: nat)
    requires updates != [] && updates[|updates| - 1].id != id
    ensures LastNames(updates, id, i) <==> LastNames(updates[..|updates| - 1], id, i)
  {
    var front := updates[..|updates| - 1];
    assert forall j :: 0 <= j < |front| ==> front[j] == updates[j];
  }

  lemma {:induction false} MovesToPush(tasks: seq<Entry>, front: seq<Record>, u: Record, status: Status)
    requires Sorted(tasks)
    ensures var k := Rank(tasks, u.id);
            MovesTo(tasks, front + [u], status) <==>
              MovesTo(tasks, front, status) || (k < |tasks| && u.status == status != tasks[k].rec.status)
  {
    var updates, k := front + [u], Rank(tasks, u.id);
    assert updates[|front|] == u;
    if MovesTo(tasks, front, status) {
      var i, j :| 0 <= i < |front| && 0 <= j < |tasks| && tasks[j].rec.id == front[i].id
                  && front[i].status == status != tasks[j].rec.status;
      assert updates[i] == front[i];
    }
    if MovesTo(tasks, updates, status) {
      var i, j :| 0 <= i < |updates| && 0 <= j < |tasks| && tasks[j].rec.id == updates[i].id
                  && updates[i].status == status != tasks[j].rec.status;
      RankOf(tasks, j);
      assert i < |front| ==> front[i] == updates[i];
    }
  }

  /** The status that a row has after these moves. */
  ghost function StatusAfter(status: JobStatus, toRunning: bool, toPending: bool): JobStatus {
    var closed := status in {JobCompleted, JobPhasedCompleted};
    if toRunning && (closed || status == JobPending) then JobRunning
    else if toPending && closed then JobPending
    else status
  }

  lemma {:induction false} ActionsPush(tasks: seq<Entry>, row: JobRow, front: seq<Record>, u: Record)
    ensures var k, r := Rank(tasks, u.id), RowAfter(row, Actions(tasks, front));
            RowAfter(row, Actions(tasks, front + [u]))
            == if !(k < |tasks| && tasks[k].rec.status != u.status) then r
               else if u.status == Running then Promote(r) else if u.status == Pending then Reactivate(r) else r
  {
    var k, actions := Rank(tasks, u.id), Actions(tasks, front);
    assert (front + [u])[..|front|] == front;
    if k < |tasks| {
      assert (actions + [Action(tasks[k].rec.status, u.status)])[..|actions|] == actions;
    }
    hide Rank, Promote, Reactivate;
  }

  lemma StatusMoves(row: JobRow, toRunning: bool, toPending: bool, moved: bool, status: Status)
    ensures var r := row.(status := StatusAfter(row.status, toRunning, toPending));
            (if !moved then r
             else if status == Running then Promote(r) else if status == Pending then Reactivate(r) else r)
            == row.(status := StatusAfter(row.status, toRunning || (moved && status == Running),
                                          toPending || (moved && status == Pending)))
  {
  }

  lemma {:induction false} RowFollows(tasks: seq<Entry>, row: JobRow, updates: seq<Record>)
    requires Sorted(tasks)
    ensures RowAfter(row, Actions(tasks, updates))
            == row.(status := StatusAfter(row.status, MovesTo(tasks, updates, Running),
                                          MovesTo(tasks, updates, Pending)))
  {
    if updates != [] {
      var n := |updates| - 1;
      var front, u := updates[..n], updates[n];
      assert updates == front + [u];
      hide Sorted, Rank, MovesTo, Actions, RowAfter, StatusAfter, Promote, Reactivate;
      RowFollows(tasks, row, front);
      var k := Rank(tasks, u.id);
      StatusMoves(row, MovesTo(tasks, front, Running), MovesTo(tasks, front, Pending),
                  k < |tasks| && tasks[k].rec.status != u.status, u.status);
      MovesToPush(tasks, front, u, Running);
      MovesToPush(tasks, front, u, Pending);
      ActionsPush(tasks, row, front, u);
    }
  }

  lemma BatchUpdates(job: Job, updates: seq<Record>)
    requires Sorted(job.tasks)
    ensures Updated(job, updates, BatchUpdate(job, updates))
  {
    forall k: nat | k < |job.tasks|
      ensures UpdatedEntry(job.tasks[k], updates, Written(job.tasks, job.tasks, updates)[k])
    {
      WrittenUpdates(job.tasks, updates, k);
    }
    RowFollows(job.tasks, job.row, updates);
    hide Written, Actions, RowAfter, TrackAll, SuccessBytes, UpdatedEntry, MovesTo, Sorted;
  }

  /** A flush moves the owed counts into the row; a waiting job one of whose tasks runs is running then. */
  ghost predicate FlushedStatus(job: Job, next: Job) {
    && next == job.(stats := NoStats, row := job.row.(counts := next.row.counts, status := next.row.status))
    && next.row.status ==
         if job.stats != NoStats && job.row.status in {JobPending, JobPhasedCompleted} && Count(job.tasks, Running) > 0
         then JobRunning else job.row.status
  }

  lemma FlushStatus(job: Job, m: nat)
    requires Inv(job, m)
    ensures FlushedStatus(job, Flush(job))
  {
    FlushKeeps(job, m);
    assert Flush(job).row.counts.running == Flush(job).row.counts.Of(Running);
    hide Count;
  }

  // ---------------------------------------------------------------- reports, resets and the monitor

  /** What a report leaves of the task: a worker that transferred it reports completion, or a failure with one
      retry more than it was given; one that gives it back reports a failure with the count it was given. */
  ghost predicate ReportedEntry(e: Entry, task: Record, outcome: Status, m: nat, next: Entry) {
    var given := task.retries >= m;
    var status := if given then Failed else outcome;
    var retries := if given then task.retries else if outcome == Failed then task.retries + 1 else 0;
    next == Entry(Record(e.rec.id, if given || task.src == "" then e.rec.src else task.src,
                         if given || task.size == 0 then e.rec.size else task.size, status, retries),
                  TaskRow(status, retries), e.attempts)
  }

  ghost predicate Reported(job: Job, i: nat, outcome: Status, m: nat, next: Job)
    requires i < |job.leases|
  {
    var task := job.leases[i].task;
    && next == job.(tasks := next.tasks, stats := next.stats, row := next.row,
                    leases := job.leases[..i] + job.leases[i + 1..])
    && next.row == job.row.(successSize := next.row.successSize)
    && |next.tasks| == |job.tasks|
    && forall k :: 0 <= k < |job.tasks| ==>
         if job.tasks[k].rec.id == task.id then ReportedEntry(job.tasks[k], task, outcome, m, next.tasks[k])
         else next.tasks[k] == job.tasks[k]
  }

  lemma {:induction false} ReportIs(job: Job, i: nat, outcome: Status, m: nat)
    requires Sorted(job.tasks) && i < |job.leases| && outcome in {Completed, Failed} && m > 0
    ensures Reported(job, i, outcome, m, Report(job, i, outcome, m))
  {
    var task := job.leases[i].task;
    var u := ReportOf(task, outcome, m);
    var before, next := job.(leases := Drop(job.leases, i)), Report(job, i, outcome, m);
    BatchUpdates(before, [u]);
    assert u.status != Running && u.status != Pending && u.id == task.id;
    forall k | 0 <= k < |job.tasks|
      ensures if job.tasks[k].rec.id == task.id then ReportedEntry(job.tasks[k], task, outcome, m, next.tasks[k])
              else next.tasks[k] == job.tasks[k]
    {
      assert UpdatedEntry(job.tasks[k], [u], next.tasks[k]);
      assert job.tasks[k].rec.id == task.id ==> LastNames([u], task.id, 0);
      hide BatchUpdate, Sorted;
    }
    hide BatchUpdate, Sorted, ReportOf, ReportedEntry;
  }

  /** A failed task that a scanner resets is pending with the retries it has; a closed job is pending again. */
  ghost predicate WasReset(job: Job, id: int, next: Job) {
    if forall k :: 0 <= k < |job.tasks| ==> job.tasks[k].rec.id != id || job.tasks[k].rec.status != Failed
    then next == job
    else
      && next == job.(tasks := next.tasks, stats := next.stats, row := next.row)
      && |next.tasks| == |job.tasks|
      && (forall k :: 0 <= k < |job.tasks| ==>
            var e := job.tasks[k];
            next.tasks[k] == if e.rec.id != id then e
                             else Entry(Record(id, e.rec.src, e.rec.size, Pending, e.rec.retries),
                                        TaskRow(Pending, e.rec.retries), e.attempts))
      && next.row == job.row.(
           status := if job.row.status in {JobCompleted, JobPhasedCompleted} then JobPending else job.row.status)
      && forall s :: Owed(next.stats).Of(s) - Owed(job.stats).Of(s)
                     == if s == Failed then -1 else if s == Pending then 1 else 0
  }

  lemma ResetIs(job: Job, id: int)
    requires Sorted(job.tasks)
    ensures WasReset(job, id, AutoReset(job, id))
  {
    var r := Rank(job.tasks, id);
    if r < |job.tasks| {
      forall k | 0 <= k < |job.tasks| && k != r
        ensures job.tasks[k].rec.id != id
      {
        assert Before(job.tasks, k, r) && Before(job.tasks, r, k);
      }
    }
    hide Rank, Sorted;
  }

  /** The monitor closes a running job that has tasks and is not periodic exactly when none of them is pending
      or running and each that has failed did so three times or more by its row. */
  lemma MonitorCloses(job: Job, m: nat)
    requires Inv(job, m)
    ensures var done := Count(job.tasks, Pending) == 0 == Count(job.tasks, Running)
                        && forall k :: 0 <= k < |job.tasks| && job.tasks[k].rec.status == Failed ==>
                                         job.tasks[k].row.retries >= 3;
            Monitor(job) == if job.row.status == JobRunning && !job.row.periodic && job.tasks != [] && done
                            then job.(row := job.row.(status := JobCompleted)) else job
  {
    CountZero(job.tasks, Pending);
    CountZero(job.tasks, Running);
    hide Count, BufferSound, LeasesSound, Sorted, Deduplicated;
  }

  // ---------------------------------------------------------------- the manual retry

  ghost predicate RetriedEntry(e: Entry, next: Entry) {
    if e.rec.status != Failed then next == e
    else
      next == Entry(Record(e.rec.id, e.rec.src, e.rec.size, Pending, 0), TaskRow(Pending, e.row.retries), e.attempts)
  }

  /** Every failed task is pending with a fresh retry count, the row's count stays; the cursor starts over, and
      a closed or failed job is pending again. */
  ghost predicate RetriedByHand(job: Job, next: Job) {
    if forall k :: 0 <= k < |job.tasks| ==> job.tasks[k].rec.status != Failed then next == job
    else
      && next == job.(tasks := next.tasks, stats := next.stats, row := next.row, offset := 0)
      && |next.tasks| == |job.tasks|
      && (forall k :: 0 <= k < |job.tasks| ==> RetriedEntry(job.tasks[k], next.tasks[k]))
      && next.row == job.row.(
           status := if job.row.status in {JobCompleted, JobFailed, JobPhasedCompleted} then JobPending
                     else job.row.status)
      && forall s :: Owed(next.stats).Of(s) - Owed(job.stats).Of(s) == Count(next.tasks, s) - Count(job.tasks, s)
  }

  lemma RetriedIs(job: Job)
    ensures RetriedByHand(job, Retried(job))
  {
    if AnyFailed(job.tasks) {
      ResetsTracked(job.stats, job.tasks);
      ResetCensus(job.tasks);
    }
    hide Count, TrackResets;
  }
}
