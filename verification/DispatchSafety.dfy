/** No task is dispatched twice, and the counters always account for every task:
    one invariant, kept by every step, over every run. */
module DispatchSafety {
  import opened TransferQueue

  // ---------------------------------------------------------------- the invariant

  ghost predicate Before(tasks: seq<Entry>, i: nat, j: nat) {
    i < j < |tasks| ==> tasks[i].rec.id < tasks[j].rec.id
  }

  ghost predicate Sorted(tasks: seq<Entry>) {
    forall i: nat, j: nat :: Before(tasks, i, j)
  }

  /** Redis and Postgres agree on the status of every task, and on the retries of the failed ones. */
  ghost predicate MirroredEntry(e: Entry) {
    e.row.status == e.rec.status && (e.rec.status == Failed ==> e.row.retries == e.rec.retries)
  }

  ghost predicate Mirrored(tasks: seq<Entry>) {
    forall k :: 0 <= k < |tasks| ==> MirroredEntry(tasks[k])
  }

  /** `r` is the stored record of rank `k`. */
  ghost predicate StoredAt(tasks: seq<Entry>, k: nat, r: Record) {
    k < |tasks| && tasks[k].rec == r
  }

  ghost predicate BufferedAt(tasks: seq<Entry>, offset: nat, k: nat, r: Record) {
    k < offset && StoredAt(tasks, k, r) && r.status == Pending
  }

  ghost predicate Distinct(rs: seq<Record>) {
    forall i, j :: 0 <= i < j < |rs| ==> rs[i].id != rs[j].id
  }

  /** Everything in the channel is a pending task below the cursor, exactly as stored. */
  ghost predicate BufferSound(tasks: seq<Entry>, offset: nat, buffer: seq<Record>) {
    && Distinct(buffer)
    && forall r :: r in buffer ==> exists k: nat :: BufferedAt(tasks, offset, k, r)
  }

  ghost predicate LeasedAt(tasks: seq<Entry>, k: nat, r: Record) {
    StoredAt(tasks, k, r) && r.status == Running
  }

  /** Every task a worker holds is running, exactly as stored, and held once. */
  ghost predicate LeasesSound(tasks: seq<Entry>, leases: seq<Lease>) {
    && (forall i, j :: 0 <= i < j < |leases| ==> leases[i].task.id != leases[j].task.id)
    && forall l :: l in leases ==> exists k: nat :: LeasedAt(tasks, k, l.task)
  }

  ghost function Indicator(b: bool): int {
    if b then 1 else 0
  }

  /** The number of stored tasks with this status. */
  ghost function Count(tasks: seq<Entry>, s: Status): int {
    if tasks == [] then 0
    else Count(tasks[..|tasks| - 1], s) + Indicator(tasks[|tasks| - 1].rec.status == s)
  }

  ghost function BytesIf(e: Entry, completedOnly: bool): int {
    if completedOnly && e.rec.status != Completed then 0 else PositiveSize(e.rec.size)
  }

  ghost function Bytes(tasks: seq<Entry>, completedOnly: bool): int {
    if tasks == [] then 0
    else Bytes(tasks[..|tasks| - 1], completedOnly) + BytesIf(tasks[|tasks| - 1], completedOnly)
  }

  /** Row counters plus buffered delta are the census of the store. */
  ghost predicate Counted(tasks: seq<Entry>, row: JobRow, stats: Stats) {
    && (forall s :: row.counts.Of(s) + Owed(stats).Of(s) == Count(tasks, s))
    && row.total == |tasks|
    && row.totalSize == Bytes(tasks, false)
    && row.successSize == Bytes(tasks, true)
  }

  /** No task has more than the allowed retries behind it. */
  ghost predicate Capped(tasks: seq<Entry>, maxRetryCount: nat) {
    forall k :: 0 <= k < |tasks| ==> tasks[k].rec.retries <= maxRetryCount
  }

  ghost predicate SrcAt(tasks: seq<Entry>, k: nat, src: string) {
    k < |tasks| && tasks[k].rec.src == src
  }

  /** The dedup hash is the map from source path to task id. */
  ghost predicate Deduplicated(tasks: seq<Entry>, dedup: map<string, int>) {
    && (forall k :: 0 <= k < |tasks| ==> tasks[k].rec.src in dedup && dedup[tasks[k].rec.src] == tasks[k].rec.id)
    && forall src :: src in dedup ==> exists k: nat :: SrcAt(tasks, k, src)
  }

  ghost predicate StoreSound(tasks: seq<Entry>, dedup: map<string, int>, maxRetryCount: nat) {
    Sorted(tasks) && Mirrored(tasks) && Deduplicated(tasks, dedup) && Capped(tasks, maxRetryCount)
  }

  ghost predicate Inv(job: Job, maxRetryCount: nat) {
    && StoreSound(job.tasks, job.dedup, maxRetryCount)
    && job.offset <= |job.tasks| && |job.buffer| <= BUFFER_SIZE
    && BufferSound(job.tasks, job.offset, job.buffer)
    && LeasesSound(job.tasks, job.leases)
    && Counted(job.tasks, job.row, job.stats)
  }

  // ---------------------------------------------------------------- census arithmetic

  lemma {:induction false} CountZero(tasks: seq<Entry>, s: Status)
    ensures Count(tasks, s) >= 0
    ensures Count(tasks, s) == 0 <==> forall k :: 0 <= k < |tasks| ==> tasks[k].rec.status != s
  {
    if tasks != [] {
      CountZero(tasks[..|tasks| - 1], s);
    }
  }

  lemma {:induction false} CensusAppend(tasks: seq<Entry>, added: seq<Entry>)
    requires forall i :: 0 <= i < |added| ==> added[i].rec.status == Pending
    ensures forall s :: Count(tasks + added, s) == Count(tasks, s) + (if s == Pending then |added| else 0)
    ensures Bytes(tasks + added, true) == Bytes(tasks, true)
  {
    if added == [] {
      assert tasks + added == tasks;
    } else {
      var n := |added| - 1;
      assert (tasks + added)[..|tasks + added| - 1] == tasks + added[..n];
      CensusAppend(tasks, added[..n]);
    }
  }

  /** Replacing one entry moves one unit between buckets. */
  lemma {:induction false} CensusUpdate(tasks: seq<Entry>, k: nat, e: Entry)
    requires k < |tasks|
    ensures forall s :: Count(tasks[k := e], s) ==
                        Count(tasks, s) - Indicator(tasks[k].rec.status == s) + Indicator(e.rec.status == s)
    ensures forall b :: Bytes(tasks[k := e], b) == Bytes(tasks, b) - BytesIf(tasks[k], b) + BytesIf(e, b)
  {
    var n := |tasks| - 1;
    if k < n {
      CensusUpdate(tasks[..n], k, e);
      assert tasks[k := e][..n] == tasks[..n][k := e];
    } else {
      assert tasks[k := e][..n] == tasks[..n];
    }
  }

  lemma {:induction false} CensusTotal(tasks: seq<Entry>)
    ensures Count(tasks, Pending) + Count(tasks, Running) + Count(tasks, Completed) + Count(tasks, Failed) == |tasks|
    ensures forall s :: Count(tasks, s) >= 0
  {
    if tasks != [] {
      CensusTotal(tasks[..|tasks| - 1]);
    }
  }

  /** A task found at a rank is found there by its id. */
  lemma RankOf(tasks: seq<Entry>, k: nat)
    requires Sorted(tasks) && k < |tasks|
    ensures Rank(tasks, tasks[k].rec.id) == k
  {
    assert Before(tasks, Rank(tasks, tasks[k].rec.id), k);
  }

  // ---------------------------------------------------------------- one entry changes

  /** A new version of the entry of rank `k`: same task, mirrored row, within the retry limit. */
  ghost predicate Revises(tasks: seq<Entry>, k: nat, e: Entry, maxRetryCount: nat) {
    && k < |tasks|
    && e.rec.id == tasks[k].rec.id && e.rec.src == tasks[k].rec.src
    && MirroredEntry(e) && e.rec.retries <= maxRetryCount
  }

  lemma StoreFrame(tasks: seq<Entry>, dedup: map<string, int>, k: nat, e: Entry, maxRetryCount: nat)
    requires StoreSound(tasks, dedup, maxRetryCount) && Revises(tasks, k, e, maxRetryCount)
    ensures StoreSound(tasks[k := e], dedup, maxRetryCount)
    ensures forall j: nat, r: Record :: r.id != e.rec.id && StoredAt(tasks, j, r) ==> StoredAt(tasks[k := e], j, r)
  {
    var ts := tasks[k := e];
    forall i: nat, j: nat ensures Before(ts, i, j) {
      assert Before(tasks, i, j);
    }
    forall src | src in dedup ensures exists j: nat :: SrcAt(ts, j, src) {
      var j: nat :| SrcAt(tasks, j, src);
      assert SrcAt(ts, j, src);
    }
  }

  /** The channel and the leases survive a change of a task that is in neither. */
  lemma HoldersFrame(tasks: seq<Entry>, offset: nat, buffer: seq<Record>, leases: seq<Lease>, ts: seq<Entry>, id: int)
    requires BufferSound(tasks, offset, buffer) && LeasesSound(tasks, leases)
    requires forall r :: r in buffer ==> r.id != id
    requires forall l :: l in leases ==> l.task.id != id
    requires forall j: nat, r: Record :: r.id != id && StoredAt(tasks, j, r) ==> StoredAt(ts, j, r)
    ensures BufferSound(ts, offset, buffer) && LeasesSound(ts, leases)
  {
    forall r | r in buffer ensures exists j: nat :: BufferedAt(ts, offset, j, r) {
      var j: nat :| BufferedAt(tasks, offset, j, r);
      assert BufferedAt(ts, offset, j, r);
    }
    forall l | l in leases ensures exists j: nat :: LeasedAt(ts, j, l.task) {
      var j: nat :| LeasedAt(tasks, j, l.task);
      assert LeasedAt(ts, j, l.task);
    }
  }

  /** Neither a worker nor the channel holds a task that is stored with another status. */
  lemma NotHeld(job: Job, k: nat, maxRetryCount: nat)
    requires Inv(job, maxRetryCount) && k < |job.tasks|
    ensures job.tasks[k].rec.status != Pending ==> forall r :: r in job.buffer ==> r.id != job.tasks[k].rec.id
    ensures job.tasks[k].rec.status != Running ==> forall l :: l in job.leases ==> l.task.id != job.tasks[k].rec.id
  {
    forall r | r in job.buffer && r.id == job.tasks[k].rec.id ensures job.tasks[k].rec.status == Pending {
      var j: nat :| BufferedAt(job.tasks, job.offset, j, r);
      RankOf(job.tasks, j);
      RankOf(job.tasks, k);
    }
    forall l | l in job.leases && l.task.id == job.tasks[k].rec.id ensures job.tasks[k].rec.status == Running {
      var j: nat :| LeasedAt(job.tasks, j, l.task);
      RankOf(job.tasks, j);
      RankOf(job.tasks, k);
    }
  }

  lemma BumpOf(t: Tally, s: Status, n: int, x: Status)
    ensures t.Bump(s, n).Of(x) == t.Of(x) + (if x == s then n else 0)
  {
  }

  lemma TrackMoves(stats: Stats, oldStatus: Status, newStatus: Status, s: Status)
    ensures Owed(Track(stats, oldStatus, newStatus)).Of(s) ==
            Owed(stats).Of(s) - Indicator(oldStatus == s) + Indicator(newStatus == s)
  {
    BumpOf(Owed(stats), oldStatus, -1, s);
    BumpOf(Owed(stats).Bump(oldStatus, -1), newStatus, 1, s);
  }

  /** Tracking a transition keeps row plus delta equal to the census. */
  lemma CountedMove(tasks: seq<Entry>, row: JobRow, stats: Stats, k: nat, e: Entry, row': JobRow)
    requires Counted(tasks, row, stats) && k < |tasks| && e.rec.size == tasks[k].rec.size
    requires row'.counts == row.counts && row'.total == row.total && row'.totalSize == row.totalSize
    requires row'.successSize == row.successSize - BytesIf(tasks[k], true) + BytesIf(e, true)
    ensures Counted(tasks[k := e], row', Track(stats, tasks[k].rec.status, e.rec.status))
  {
    var stats' := Track(stats, tasks[k].rec.status, e.rec.status);
    CensusUpdate(tasks, k, e);
    forall s ensures row'.counts.Of(s) + Owed(stats').Of(s) == Count(tasks[k := e], s) {
      TrackMoves(stats, tasks[k].rec.status, e.rec.status, s);
    }
  }

  lemma BufferPop(tasks: seq<Entry>, offset: nat, buffer: seq<Record>)
    requires BufferSound(tasks, offset, buffer) && buffer != []
    ensures BufferSound(tasks, offset, buffer[1..])
    ensures forall r :: r in buffer[1..] ==> r.id != buffer[0].id
  {
    forall r | r in buffer[1..] ensures exists k: nat :: BufferedAt(tasks, offset, k, r) {
      assert r in buffer;
    }
  }

  lemma LeasePop(tasks: seq<Entry>, leases: seq<Lease>, i: nat)
    requires LeasesSound(tasks, leases) && i < |leases|
    ensures LeasesSound(tasks, Drop(leases, i))
    ensures forall l :: l in Drop(leases, i) ==> l.task.id != leases[i].task.id
  {
    forall l | l in Drop(leases, i) ensures exists k: nat :: LeasedAt(tasks, k, l.task) {
      assert l in leases;
    }
  }

  lemma LeasePush(tasks: seq<Entry>, leases: seq<Lease>, k: nat, l: Lease)
    requires LeasesSound(tasks, leases) && LeasedAt(tasks, k, l.task)
    requires forall m :: m in leases ==> m.task.id != l.task.id
    ensures LeasesSound(tasks, leases + [l])
  {
  }

  // ---------------------------------------------------------------- the steps

  /** The rank and the new entry of the task at the head of the channel. */
  lemma TakeShape(job: Job, worker: string) returns (k: nat, e: Entry)
    requires Sorted(job.tasks) && BufferSound(job.tasks, job.offset, job.buffer) && job.buffer != []
    ensures k < |job.tasks| && job.tasks[k].rec == job.buffer[0] && job.buffer[0].status == Pending
    ensures e == Entry(ToRunning(job.buffer[0]), job.tasks[k].row.(status := Running), job.tasks[k].attempts + 1)
    ensures Take(job, worker) == job.(
              tasks := job.tasks[k := e], buffer := job.buffer[1..], stats := Track(job.stats, Pending, Running),
              row := Promote(job.row), leases := job.leases + [Lease(worker, e.rec)])
  {
    var b := job.buffer[0];
    assert b in job.buffer;
    k :| BufferedAt(job.tasks, job.offset, k, b);
    RankOf(job.tasks, k);
    e := Entry(ToRunning(b), job.tasks[k].row.(status := Running), job.tasks[k].attempts + 1);
  }

  lemma TakeKeeps(job: Job, worker: string, maxRetryCount: nat)
    requires Inv(job, maxRetryCount) && job.buffer != []
    ensures Inv(Take(job, worker), maxRetryCount)
  {
    hide BufferSound, LeasesSound, Counted, Sorted, Deduplicated;
    var k, e := TakeShape(job, worker);
    var ts, id := job.tasks[k := e], job.buffer[0].id;
    NotHeld(job, k, maxRetryCount);
    StoreFrame(job.tasks, job.dedup, k, e, maxRetryCount);
    BufferPop(job.tasks, job.offset, job.buffer);
    HoldersFrame(job.tasks, job.offset, job.buffer[1..], job.leases, ts, id);
    CountedMove(job.tasks, job.row, job.stats, k, e, Promote(job.row));
    LeasePush(ts, job.leases, k, Lease(worker, e.rec));
  }

  /** A batch of one report on a stored, running task; `v` is the record it leaves. */
  lemma SingleUpdate(job: Job, k: nat, u: Record, v: Record)
    requires k < |job.tasks| && Rank(job.tasks, u.id) == k && Merge(job.tasks[k].rec, u) == v
    requires job.tasks[k].rec.status == Running && (u.status == Completed || u.status == Failed)
    ensures var e := Entry(v, TaskRow(v.status, v.retries), job.tasks[k].attempts);
            BatchUpdate(job, [u]) == job.(
              tasks := job.tasks[k := e], stats := Track(job.stats, Running, v.status),
              row := job.row.(successSize := job.row.successSize +
                                             if v.status == Completed then PositiveSize(job.tasks[k].rec.size) else 0))
  {
    var us, actions := [u], [Action(Running, u.status)];
    assert us[..|us| - 1] == [] && actions[..|actions| - 1] == [];
    assert Written(job.tasks, job.tasks, us)
        == Written(job.tasks, job.tasks, [])[k := Entry(v, TaskRow(v.status, v.retries), job.tasks[k].attempts)];
    assert Actions(job.tasks, us) == actions;
    assert TrackAll(job.stats, actions) == Track(TrackAll(job.stats, []), Running, u.status);
    assert SuccessBytes(job.tasks, []) == 0 && TrackAll(job.stats, []) == job.stats;
    assert Written(job.tasks, job.tasks, []) == job.tasks;
    assert RowAfter(job.row, actions) == RowAfter(job.row, []);
  }

  /** The record that a report leaves: the task failed or done, or failed as before when it was refused. */
  function ReportedRecord(task: Record, outcome: Status, maxRetryCount: nat): Record {
    if !Accepts(task, maxRetryCount) then task.(status := Failed)
    else if outcome == Failed then task.(status := Failed, retries := task.retries + 1)
    else task.(status := outcome, retries := 0)
  }

  lemma ReportShape(job: Job, i: nat, outcome: Status, maxRetryCount: nat) returns (k: nat, e: Entry)
    requires Sorted(job.tasks) && LeasesSound(job.tasks, job.leases) && maxRetryCount > 0
    requires i < |job.leases| && (outcome == Completed || outcome == Failed)
    ensures k < |job.tasks| && job.tasks[k].rec == job.leases[i].task && job.tasks[k].rec.status == Running
    ensures var v := ReportedRecord(job.leases[i].task, outcome, maxRetryCount);
            e == Entry(v, TaskRow(v.status, v.retries), job.tasks[k].attempts)
    ensures Report(job, i, outcome, maxRetryCount) == job.(
              tasks := job.tasks[k := e], leases := Drop(job.leases, i),
              stats := Track(job.stats, Running, e.rec.status),
              row := job.row.(successSize := job.row.successSize + BytesIf(e, true)))
  {
    var task := job.leases[i].task;
    assert job.leases[i] in job.leases;
    k :| LeasedAt(job.tasks, k, task);
    RankOf(job.tasks, k);
    var v := ReportedRecord(task, outcome, maxRetryCount);
    e := Entry(v, TaskRow(v.status, v.retries), job.tasks[k].attempts);
    SingleUpdate(job.(leases := Drop(job.leases, i)), k, ReportOf(task, outcome, maxRetryCount), v);
  }

  lemma ReportKeeps(job: Job, i: nat, outcome: Status, maxRetryCount: nat)
    requires Inv(job, maxRetryCount) && maxRetryCount > 0
    requires i < |job.leases| && (outcome == Completed || outcome == Failed)
    ensures Inv(Report(job, i, outcome, maxRetryCount), maxRetryCount)
  {
    hide BufferSound, LeasesSound, Counted, Sorted, Deduplicated;
    var k, e := ReportShape(job, i, outcome, maxRetryCount);
    var ts, rest := job.tasks[k := e], Drop(job.leases, i);
    NotHeld(job, k, maxRetryCount);
    StoreFrame(job.tasks, job.dedup, k, e, maxRetryCount);
    LeasePop(job.tasks, job.leases, i);
    HoldersFrame(job.tasks, job.offset, job.buffer, rest, ts, e.rec.id);
    CountedMove(job.tasks, job.row, job.stats, k, e, Report(job, i, outcome, maxRetryCount).row);
  }

  /** The rank and the new entry of a failed task that is reset. */
  lemma ResetShape(job: Job, id: int) returns (k: nat, e: Entry)
    requires Rank(job.tasks, id) < |job.tasks| && job.tasks[Rank(job.tasks, id)].rec.status == Failed
    ensures k == Rank(job.tasks, id) && job.tasks[k].rec.id == id && job.tasks[k].rec.status == Failed
    ensures e == Entry(job.tasks[k].rec.(status := Pending), TaskRow(Pending, job.tasks[k].rec.retries),
                       job.tasks[k].attempts)
    ensures AutoReset(job, id) == job.(
              tasks := job.tasks[k := e], stats := Track(job.stats, Failed, Pending), row := Reactivate(job.row))
  {
    k := Rank(job.tasks, id);
    e := Entry(job.tasks[k].rec.(status := Pending), TaskRow(Pending, job.tasks[k].rec.retries), job.tasks[k].attempts);
  }

  /** A reset of any task, whatever its status and its retries. */
  lemma AutoResetKeeps(job: Job, id: int, maxRetryCount: nat)
    requires Inv(job, maxRetryCount)
    ensures Inv(AutoReset(job, id), maxRetryCount)
  {
    var k := Rank(job.tasks, id);
    if k < |job.tasks| && job.tasks[k].rec.status == Failed {
      hide BufferSound, LeasesSound, Counted, Sorted, Deduplicated;
      var _, e := ResetShape(job, id);
      NotHeld(job, k, maxRetryCount);
      StoreFrame(job.tasks, job.dedup, k, e, maxRetryCount);
      HoldersFrame(job.tasks, job.offset, job.buffer, job.leases, job.tasks[k := e], id);
      CountedMove(job.tasks, job.row, job.stats, k, e, Reactivate(job.row));
    }
  }

  /** The fill pushes, in rank order, the pending records of the entries it consumes,
      and stops only at the end of the batch or at a pending record with the channel full. */
  lemma {:induction false} ScanPushes(batch: seq<Entry>, buffer: seq<Record>)
    requires |buffer| <= BUFFER_SIZE
    ensures var r := Scan(batch, buffer);
            && r.buffer == buffer + PendingOf(batch[..r.processed])
            && |r.buffer| <= BUFFER_SIZE
            && (r.processed < |batch| ==> |r.buffer| == BUFFER_SIZE && batch[r.processed].rec.status == Pending)
  {
    if batch != [] {
      var n := Scan(batch, buffer).processed;
      if batch[0].rec.status != Pending {
        ScanPushes(batch[1..], buffer);
        assert batch[..n][1..] == batch[1..][..n - 1];
      } else if |buffer| < BUFFER_SIZE {
        ScanPushes(batch[1..], buffer + [batch[0].rec]);
        assert batch[..n][1..] == batch[1..][..n - 1];
      }
    }
  }

  ghost function PendingOf(tasks: seq<Entry>): seq<Record> {
    if tasks == [] then []
    else (if tasks[0].rec.status == Pending then [tasks[0].rec] else []) + PendingOf(tasks[1..])
  }

  lemma {:induction false} NothingPending(batch: seq<Entry>)
    requires forall k :: 0 <= k < |batch| ==> batch[k].rec.status != Pending
    ensures PendingOf(batch) == []
  {
    if batch != [] {
      NothingPending(batch[1..]);
    }
  }

  /** The pending records of a rank range are stored there and have distinct ids. */
  lemma {:induction false} PendingOfSound(tasks: seq<Entry>, start: nat, stop: nat)
    requires Sorted(tasks) && start <= stop <= |tasks|
    ensures var rs := PendingOf(tasks[start..stop]);
            && Distinct(rs)
            && forall r :: r in rs ==> exists k: nat :: start <= k && BufferedAt(tasks, stop, k, r)
    decreases stop - start
  {
    if start < stop {
      PendingOfSound(tasks, start + 1, stop);
      var rest := PendingOf(tasks[start + 1..stop]);
      assert tasks[start..stop][1..] == tasks[start + 1..stop];
      forall r | r in rest ensures r.id != tasks[start].rec.id {
        var k: nat :| start + 1 <= k && BufferedAt(tasks, stop, k, r);
        assert Before(tasks, start, k);
      }
      assert tasks[start].rec.status == Pending ==> BufferedAt(tasks, stop, start, tasks[start].rec);
    }
  }

  /** Records pushed from the ranks between the old and the new cursor. */
  lemma BufferExtend(tasks: seq<Entry>, offset: nat, offset': nat, buffer: seq<Record>)
    requires Sorted(tasks) && offset <= offset' <= |tasks| && BufferSound(tasks, offset, buffer)
    ensures BufferSound(tasks, offset', buffer + PendingOf(tasks[offset..offset']))
  {
    PendingOfSound(tasks, offset, offset');
    var pushed := PendingOf(tasks[offset..offset']);
    forall x | x in buffer ensures exists k: nat :: BufferedAt(tasks, offset', k, x) {
      var k: nat :| BufferedAt(tasks, offset, k, x);
      assert BufferedAt(tasks, offset', k, x);
    }
    forall x, y | x in buffer && y in pushed ensures x.id != y.id {
      var k: nat :| BufferedAt(tasks, offset, k, x);
      var l: nat :| offset <= l && BufferedAt(tasks, offset', l, y);
      assert Before(tasks, k, l);
    }
  }

  lemma FillKeeps(job: Job, maxRetryCount: nat)
    requires Inv(job, maxRetryCount)
    ensures Inv(Fill(job), maxRetryCount)
  {
    hide BufferSound, LeasesSound, Counted, Sorted, Deduplicated;
    var stop := job.offset + |Batch(job.tasks, job.offset)|;
    assert Batch(job.tasks, job.offset) == job.tasks[job.offset..stop];
    ScanPushes(job.tasks[job.offset..stop], job.buffer);
    assert job.tasks[job.offset..stop][..Fill(job).offset - job.offset] == job.tasks[job.offset..Fill(job).offset];
    BufferExtend(job.tasks, job.offset, Fill(job).offset, job.buffer);
  }

  lemma {:induction false} DistinctOnce(rs: seq<Record>, r: Record)
    requires Distinct(rs)
    ensures multiset(rs)[r] <= 1
  {
    if rs != [] {
      var n := |rs| - 1;
      DistinctOnce(rs[..n], r);
      assert rs == rs[..n] + [rs[n]];
    }
  }

  lemma DistinctShuffled(rs: seq<Record>, order: seq<Record>)
    requires Distinct(rs) && multiset(order) == multiset(rs)
    ensures Distinct(order)
  {
    forall i, j | 0 <= i < j < |order| ensures order[i].id != order[j].id {
      assert order[i] in multiset(order) && order[j] in multiset(order);
      DistinctOnce(rs, order[i]);
      assert order == order[..j] + order[j..];
      assert order[i] in order[..j] && order[j] in order[j..];
    }
  }

  lemma ShuffleKeeps(job: Job, order: seq<Record>, maxRetryCount: nat)
    requires Inv(job, maxRetryCount) && multiset(order) == multiset(job.buffer)
    ensures Inv(job.(buffer := order), maxRetryCount)
  {
    assert |multiset(order)| == |order| && |multiset(job.buffer)| == |job.buffer|;
    forall r | r in order ensures r in job.buffer {
      assert r in multiset(order);
    }
    DistinctShuffled(job.buffer, order);
  }

  lemma StuckCheckKeeps(job: Job, maxRetryCount: nat)
    requires Inv(job, maxRetryCount)
    ensures Inv(StuckCheck(job), maxRetryCount)
  {
  }

  /** The clamps of the counter update never bite, and the row is exact afterwards. */
  lemma FlushKeeps(job: Job, maxRetryCount: nat)
    requires Inv(job, maxRetryCount)
    ensures Inv(Flush(job), maxRetryCount)
    ensures var row := Flush(job).row;
            && (forall s :: row.counts.Of(s) == Count(job.tasks, s))
            && row.counts.pending + row.counts.running + row.counts.success + row.counts.failed == row.total
  {
    CensusTotal(job.tasks);
  }

  // ---------------------------------------------------------------- adding

  ghost predicate SrcsDiffer(inputs: seq<Input>, i: nat, j: nat) {
    i < j < |inputs| ==> inputs[i].src != inputs[j].src
  }

  ghost predicate DistinctSrcs(inputs: seq<Input>) {
    forall i: nat, j: nat :: SrcsDiffer(inputs, i, j)
  }

  lemma DistinctSrcsFront(inputs: seq<Input>, n: nat)
    requires DistinctSrcs(inputs) && n <= |inputs|
    ensures DistinctSrcs(inputs[..n])
  {
    forall i: nat, j: nat ensures SrcsDiffer(inputs[..n], i, j) {
      assert SrcsDiffer(inputs, i, j);
    }
  }

  lemma DistinctSrcsPush(inputs: seq<Input>, input: Input)
    requires DistinctSrcs(inputs) && forall u :: u in inputs ==> u.src != input.src
    ensures DistinctSrcs(inputs + [input])
  {
    forall i: nat, j: nat ensures SrcsDiffer(inputs + [input], i, j) {
      assert SrcsDiffer(inputs, i, j);
    }
  }

  lemma {:induction false} UniqueDistinct(inputs: seq<Input>)
    ensures var us := Unique(inputs);
            && DistinctSrcs(us)
            && SrcsOf(us) == SrcsOf(inputs)
            && forall u :: u in us ==> u in inputs
  {
    if inputs != [] {
      var n := |inputs| - 1;
      UniqueDistinct(inputs[..n]);
      var us := Unique(inputs[..n]);
      assert inputs == inputs[..n] + [inputs[n]];
      SrcsOfPush(inputs[..n], inputs[n]);
      SrcsOfPush(us, inputs[n]);
      if inputs[n].src !in SrcsOf(inputs[..n]) {
        assert forall u :: u in us ==> u.src in SrcsOf(us);
        DistinctSrcsPush(us, inputs[n]);
      }
    }
  }

  lemma {:induction false} UnknownDistinct(inputs: seq<Input>, dedup: map<string, int>)
    requires DistinctSrcs(inputs)
    ensures var us := Unknown(inputs, dedup);
            && DistinctSrcs(us)
            && (forall u :: u in us <==> u in inputs && u.src !in dedup)
  {
    if inputs != [] {
      var n := |inputs| - 1;
      DistinctSrcsFront(inputs, n);
      UnknownDistinct(inputs[..n], dedup);
      assert inputs == inputs[..n] + [inputs[n]];
      var front := Unknown(inputs[..n], dedup);
      forall u | u in front ensures u.src != inputs[n].src {
        var i :| 0 <= i < n && inputs[..n][i] == u;
        assert SrcsDiffer(inputs, i, n);
      }
      DistinctSrcsPush(front, inputs[n]);
    }
  }

  lemma {:induction false} RememberedKeys(dedup: map<string, int>, startId: int, inputs: seq<Input>)
    ensures Remember(dedup, startId, inputs).Keys == dedup.Keys + SrcsOf(inputs)
  {
    if inputs != [] {
      var n := |inputs| - 1;
      RememberedKeys(dedup, startId, inputs[..n]);
      assert inputs == inputs[..n] + [inputs[n]];
      SrcsOfPush(inputs[..n], inputs[n]);
    }
  }

  lemma SrcsOfPush(inputs: seq<Input>, input: Input)
    ensures SrcsOf(inputs + [input]) == SrcsOf(inputs) + {input.src}
  {
    var all := inputs + [input];
    assert all[|inputs|] == input;
    forall src | src in SrcsOf(inputs) ensures src in SrcsOf(all) {
      var i :| 0 <= i < |inputs| && inputs[i].src == src;
      assert all[i].src == src;
    }
  }

  lemma {:induction false} BytesAppend(tasks: seq<Entry>, startId: int, inputs: seq<Input>)
    ensures Bytes(tasks + NewEntries(startId, inputs), false) == Bytes(tasks, false) + SizeOfInputs(inputs)
  {
    var es := NewEntries(startId, inputs);
    if inputs == [] {
      assert tasks + es == tasks;
    } else {
      var n := |inputs| - 1;
      BytesAppend(tasks, startId, inputs[..n]);
      assert (tasks + es)[..|tasks + es| - 1] == tasks + NewEntries(startId, inputs[..n]);
    }
  }

  /** One new task at the end of the store. */
  lemma StorePush(tasks: seq<Entry>, dedup: map<string, int>, id: int, input: Input, maxRetryCount: nat)
    requires StoreSound(tasks, dedup, maxRetryCount) && maxRetryCount > 0 && input.src !in dedup
    requires tasks == [] || tasks[|tasks| - 1].rec.id < id
    ensures StoreSound(tasks + [NewEntry(id, input)], dedup[input.src := id], maxRetryCount)
  {
    var n, ts, d := |tasks|, tasks + [NewEntry(id, input)], dedup[input.src := id];
    forall i: nat, j: nat ensures Before(ts, i, j) {
      assert Before(tasks, i, j);
      if i < n - 1 && j == n {
        assert Before(tasks, i, n - 1);
      }
    }
    assert SrcAt(ts, n, input.src);
    forall src | src in dedup ensures exists k: nat :: SrcAt(ts, k, src) {
      var k: nat :| SrcAt(tasks, k, src);
      assert SrcAt(ts, k, src);
    }
  }

  lemma EntriesPush(job: Job, added: seq<Input>)
    requires added != []
    ensures var n := |added| - 1;
            var ts := job.tasks + NewEntries(StartId(job), added[..n]);
            && job.tasks + NewEntries(StartId(job), added) == ts + [NewEntry(StartId(job) + n, added[n])]
            && (ts == [] || ts[|ts| - 1].rec.id < StartId(job) + n)
  {
  }

  lemma {:induction false} AddStoreSound(job: Job, added: seq<Input>, maxRetryCount: nat)
    requires StoreSound(job.tasks, job.dedup, maxRetryCount) && maxRetryCount > 0
    requires DistinctSrcs(added) && SrcsOf(added) !! job.dedup.Keys
    ensures StoreSound(job.tasks + NewEntries(StartId(job), added),
                       Remember(job.dedup, StartId(job), added), maxRetryCount)
    decreases |added|
  {
    hide StoreSound;
    var startId := StartId(job);
    if added == [] {
      assert job.tasks + NewEntries(startId, added) == job.tasks;
    } else {
      var n := |added| - 1;
      var front := added[..n];
      assert added == front + [added[n]];
      SrcsOfPush(front, added[n]);
      DistinctSrcsFront(added, n);
      AddStoreSound(job, front, maxRetryCount);
      assert added[n].src !in Remember(job.dedup, startId, front) by {
        RememberedKeys(job.dedup, startId, front);
        assert forall i :: 0 <= i < n ==> front[i] == added[i] && SrcsDiffer(added, i, n);
      }
      EntriesPush(job, added);
      StorePush(job.tasks + NewEntries(startId, front), Remember(job.dedup, startId, front), startId + n, added[n],
                maxRetryCount);
    }
  }

  lemma HoldersAppend(tasks: seq<Entry>, es: seq<Entry>, offset: nat, buffer: seq<Record>, leases: seq<Lease>)
    requires BufferSound(tasks, offset, buffer) && LeasesSound(tasks, leases)
    ensures BufferSound(tasks + es, offset, buffer) && LeasesSound(tasks + es, leases)
  {
    forall r | r in buffer ensures exists k: nat :: BufferedAt(tasks + es, offset, k, r) {
      var k: nat :| BufferedAt(tasks, offset, k, r);
      assert BufferedAt(tasks + es, offset, k, r);
    }
    forall l | l in leases ensures exists k: nat :: LeasedAt(tasks + es, k, l.task) {
      var k: nat :| LeasedAt(tasks, k, l.task);
      assert LeasedAt(tasks + es, k, l.task);
    }
  }

  /** What is added: one input for exactly those source paths that the job does not have yet. */
  lemma AddedInputs(inputs: seq<Input>, dedup: map<string, int>)
    ensures var added := Unknown(Unique(inputs), dedup);
            && DistinctSrcs(added)
            && SrcsOf(added) == SrcsOf(inputs) - dedup.Keys
            && forall u :: u in added ==> u in inputs
  {
    UniqueDistinct(inputs);
    UnknownDistinct(Unique(inputs), dedup);
    var us, added := Unique(inputs), Unknown(Unique(inputs), dedup);
    forall src | src in SrcsOf(us) && src !in dedup ensures src in SrcsOf(added) {
      var i :| 0 <= i < |us| && us[i].src == src;
      assert us[i] in added;
    }
  }

  lemma AddCounted(job: Job, added: seq<Input>, row: JobRow)
    requires Counted(job.tasks, job.row, job.stats)
    requires row.total == job.row.total + |added| && row.successSize == job.row.successSize
    requires row.totalSize == job.row.totalSize + SizeOfInputs(added)
    requires forall s :: row.counts.Of(s) == job.row.counts.Of(s) + (if s == Pending then |added| else 0)
    ensures Counted(job.tasks + NewEntries(StartId(job), added), row, job.stats)
  {
    CensusAppend(job.tasks, NewEntries(StartId(job), added));
    BytesAppend(job.tasks, StartId(job), added);
  }

  lemma AddKeeps(job: Job, inputs: seq<Input>, maxRetryCount: nat)
    requires Inv(job, maxRetryCount) && maxRetryCount > 0
    ensures Inv(Add(job, inputs), maxRetryCount)
  {
    var added, job' := Unknown(Unique(inputs), job.dedup), Add(job, inputs);
    if added != [] {
      AddedInputs(inputs, job.dedup);
      AddStoreSound(job, added, maxRetryCount);
      HoldersAppend(job.tasks, NewEntries(StartId(job), added), job.offset, job.buffer, job.leases);
      AddCounted(job, added, job'.row);
    }
  }

  // ---------------------------------------------------------------- the manual retry

  lemma {:induction false} ResetCensus(tasks: seq<Entry>)
    ensures forall s :: Count(ResetAll(tasks), s) ==
                        if s == Pending then Count(tasks, Pending) + Count(tasks, Failed)
                        else if s == Failed then 0 else Count(tasks, s)
    ensures forall b :: Bytes(ResetAll(tasks), b) == Bytes(tasks, b)
  {
    if tasks != [] {
      var n := |tasks| - 1;
      ResetCensus(tasks[..n]);
      assert ResetAll(tasks)[..n] == ResetAll(tasks[..n]);
    }
  }

  lemma {:induction false} ResetsTracked(stats: Stats, tasks: seq<Entry>)
    ensures forall s :: Owed(TrackResets(stats, tasks)).Of(s) ==
                        Owed(stats).Of(s) + if s == Pending then Count(tasks, Failed)
                                            else if s == Failed then -Count(tasks, Failed) else 0
  {
    if tasks != [] {
      var front := tasks[..|tasks| - 1];
      ResetsTracked(stats, front);
      forall s {
        TrackMoves(TrackResets(stats, front), Failed, Pending, s);
      }
    }
  }

  /** The retry moves exactly the failed tasks to pending, and the counters follow. */
  lemma RetryKeepsCounters(job: Job)
    requires Counted(job.tasks, job.row, job.stats)
    ensures var r := Retried(job);
            && Counted(r.tasks, r.row, r.stats)
            && Count(r.tasks, Failed) == 0
            && Count(r.tasks, Pending) == Count(job.tasks, Pending) + Count(job.tasks, Failed)
            && Count(r.tasks, Running) == Count(job.tasks, Running)
            && Count(r.tasks, Completed) == Count(job.tasks, Completed)
  {
    if AnyFailed(job.tasks) {
      ResetCensus(job.tasks);
      ResetsTracked(job.stats, job.tasks);
      assert |ResetAll(job.tasks)| == |job.tasks|;
      hide Count, Bytes, ResetAll, TrackResets, AnyFailed;
    } else {
      NoneFailed(job.tasks);
    }
  }

  lemma {:induction false} NoneFailed(tasks: seq<Entry>)
    requires !AnyFailed(tasks)
    ensures Count(tasks, Failed) == 0
  {
    if tasks != [] {
      var front := tasks[..|tasks| - 1];
      forall k | 0 <= k < |front| ensures front[k].rec.status != Failed {
        assert front[k] == tasks[k];
      }
      NoneFailed(front);
      assert tasks[|tasks| - 1].rec.status != Failed;
    }
  }

  lemma RetryKeepsHolders(job: Job)
    requires Sorted(job.tasks) && LeasesSound(job.tasks, job.leases)
    ensures Sorted(Retried(job).tasks) && LeasesSound(Retried(job).tasks, Retried(job).leases)
  {
    var ts := Retried(job).tasks;
    forall i: nat, j: nat ensures Before(ts, i, j) {
      assert Before(job.tasks, i, j);
    }
    forall l | l in job.leases ensures exists k: nat :: LeasedAt(ts, k, l.task) {
      var k: nat :| LeasedAt(job.tasks, k, l.task);
      assert LeasedAt(ts, k, l.task);
    }
  }

  /** With an empty channel, or nothing to retry, the manual retry keeps everything. */
  lemma RetryKeeps(job: Job, maxRetryCount: nat)
    requires Inv(job, maxRetryCount) && (job.buffer == [] || !AnyFailed(job.tasks))
    ensures Inv(Retried(job), maxRetryCount)
  {
    if AnyFailed(job.tasks) {
      RetryKeepsCounters(job);
      RetryKeepsHolders(job);
      RetryKeepsStore(job, maxRetryCount);
    }
  }

  lemma RetryKeepsStore(job: Job, maxRetryCount: nat)
    requires StoreSound(job.tasks, job.dedup, maxRetryCount)
    ensures StoreSound(Retried(job).tasks, job.dedup, maxRetryCount)
  {
    var ts := Retried(job).tasks;
    forall i: nat, j: nat ensures Before(ts, i, j) {
      assert Before(job.tasks, i, j);
    }
    forall src | src in job.dedup ensures exists k: nat :: SrcAt(ts, k, src) {
      var k: nat :| SrcAt(job.tasks, k, src);
      assert SrcAt(ts, k, src);
    }
  }

  // ---------------------------------------------------------------- every run

  /** A manual retry finds the channel empty, or nothing failed. */
  ghost predicate Clean(job: Job, e: Event) {
    e.EvManualRetry? ==> job.buffer == [] || !AnyFailed(job.tasks)
  }

  ghost predicate CleanRun(job: Job, es: seq<Event>, maxRetryCount: nat)
    requires ValidRun(job, es, maxRetryCount)
    decreases |es|
  {
    es == [] || (Clean(job, es[0]) && CleanRun(Next(job, es[0], maxRetryCount), es[1..], maxRetryCount))
  }

  lemma NextKeeps(job: Job, e: Event, maxRetryCount: nat)
    requires Inv(job, maxRetryCount) && maxRetryCount > 0 && Enabled(job, e, maxRetryCount) && Clean(job, e)
    ensures Inv(Next(job, e, maxRetryCount), maxRetryCount)
  {
    match e
    case EvAdd(inputs) => AddKeeps(job, inputs, maxRetryCount);
    case EvFill => FillKeeps(job, maxRetryCount);
    case EvShuffle(order) => ShuffleKeeps(job, order, maxRetryCount);
    case EvTake(worker) => TakeKeeps(job, worker, maxRetryCount);
    case EvReport(i, outcome) => ReportKeeps(job, i, outcome, maxRetryCount);
    case EvWorkerLost(i) => LeasePop(job.tasks, job.leases, i);
    case EvReset(i) => AutoResetKeeps(NextListed(job, i), job.scans[i][0], maxRetryCount);
    case EvManualRetry => RetryKeeps(job, maxRetryCount);
    case EvStuckCheck => StuckCheckKeeps(job, maxRetryCount);
    case EvFlush => FlushKeeps(job, maxRetryCount);
    case _ =>
  }

  lemma {:induction false} RunKeeps(job: Job, es: seq<Event>, maxRetryCount: nat)
    requires Inv(job, maxRetryCount) && maxRetryCount > 0 && ValidRun(job, es, maxRetryCount)
    requires CleanRun(job, es, maxRetryCount)
    ensures Inv(Run(job, es, maxRetryCount), maxRetryCount)
    decreases |es|
  {
    if es != [] {
      NextKeeps(job, es[0], maxRetryCount);
      RunKeeps(Next(job, es[0], maxRetryCount), es[1..], maxRetryCount);
    }
  }

  lemma NewJobSound(jobId: int, periodic: bool, maxRetryCount: nat)
    ensures Inv(NewJob(jobId, periodic), maxRetryCount)
  {
  }

  /** Over every run of a job, with any number of scanners resetting from old lists and with manual
      retries that find the channel empty or nothing failed: no task is held by two workers, none that is
      held is also in the channel or there twice, and every channel entry is a pending task below the
      cursor. */
  lemma NoDoubleDispatch(jobId: int, periodic: bool, es: seq<Event>, maxRetryCount: nat)
    requires maxRetryCount > 0 && ValidRun(NewJob(jobId, periodic), es, maxRetryCount)
    requires CleanRun(NewJob(jobId, periodic), es, maxRetryCount)
    ensures var job := Run(NewJob(jobId, periodic), es, maxRetryCount);
            && (forall i, j :: 0 <= i < j < |job.leases| ==> job.leases[i].task.id != job.leases[j].task.id)
            && (forall i, j :: 0 <= i < j < |job.buffer| ==> job.buffer[i].id != job.buffer[j].id)
            && (forall l, r :: l in job.leases && r in job.buffer ==> l.task.id != r.id)
            && (forall r :: r in job.buffer ==>
                  Rank(job.tasks, r.id) < job.offset <= |job.tasks|
                  && job.tasks[Rank(job.tasks, r.id)].rec == r && r.status == Pending)
  {
    var job := Run(NewJob(jobId, periodic), es, maxRetryCount);
    NewJobSound(jobId, periodic, maxRetryCount);
    RunKeeps(NewJob(jobId, periodic), es, maxRetryCount);
    forall r | r in job.buffer
      ensures Rank(job.tasks, r.id) < job.offset && job.tasks[Rank(job.tasks, r.id)].rec == r && r.status == Pending
      ensures forall l :: l in job.leases ==> l.task.id != r.id
    {
      var k: nat :| BufferedAt(job.tasks, job.offset, k, r);
      RankOf(job.tasks, k);
      NotHeld(job, k, maxRetryCount);
    }
  }

  /** Over every such run: nothing is lost or counted twice between the row, the buffered delta and the store. */
  lemma CountersConserved(jobId: int, periodic: bool, es: seq<Event>, maxRetryCount: nat)
    requires maxRetryCount > 0 && ValidRun(NewJob(jobId, periodic), es, maxRetryCount)
    requires CleanRun(NewJob(jobId, periodic), es, maxRetryCount)
    ensures var job := Run(NewJob(jobId, periodic), es, maxRetryCount);
            && (forall s :: job.row.counts.Of(s) + Owed(job.stats).Of(s) == Count(job.tasks, s))
            && job.row.total == |job.tasks|
            && job.row.successSize == Bytes(job.tasks, true)
            && job.row.totalSize == Bytes(job.tasks, false)
            && var row := Flush(job).row;
               && (forall s :: row.counts.Of(s) == Count(job.tasks, s))
               && row.counts.pending + row.counts.running + row.counts.success + row.counts.failed == row.total
  {
    NewJobSound(jobId, periodic, maxRetryCount);
    RunKeeps(NewJob(jobId, periodic), es, maxRetryCount);
    FlushKeeps(Run(NewJob(jobId, periodic), es, maxRetryCount), maxRetryCount);
  }
}
