/** The manual retry of a sharded job: buckets of 50000 ids, read 500 records at a time. */
module BucketSweep {
  import opened Options
  import opened Sequences
  import opened ShardedStorage
  import opened TransferQueue

  const MAX_BUCKETS: nat := 200
  const MGET_BATCH: nat := 500

  datatype Task = Task(status: Status, retries: nat, error: string)

  function Reset(t: Task): Task {
    Task(Pending, 0, "")
  }

  predicate IsFailed(tasks: map<int, Task>, id: int) {
    id in tasks && tasks[id].status == Failed
  }

  /** The store after resetting the failed tasks among `ids`. */
  function ResetIn(tasks: map<int, Task>, ids: set<int>): map<int, Task> {
    map id | id in tasks :: if id in ids && tasks[id].status == Failed then Reset(tasks[id]) else tasks[id]
  }

  function FailedIn(tasks: map<int, Task>, ids: set<int>): set<int> {
    set id | id in tasks && id in ids && tasks[id].status == Failed
  }

  /** Resets done one after the other add up. */
  lemma ResetMore(tasks: map<int, Task>, done: set<int>, more: set<int>)
    requires done !! more
    ensures ResetIn(ResetIn(tasks, done), more) == ResetIn(tasks, done + more)
    ensures |FailedIn(tasks, done + more)| == |FailedIn(tasks, done)| + |FailedIn(ResetIn(tasks, done), more)|
  {
    assert FailedIn(tasks, done + more) == FailedIn(tasks, done) + FailedIn(ResetIn(tasks, done), more);
    assert FailedIn(tasks, done) !! FailedIn(ResetIn(tasks, done), more);
  }

  lemma ResetOne(tasks: map<int, Task>, id: int)
    ensures ResetIn(tasks, {id}) == if IsFailed(tasks, id) then tasks[id := Reset(tasks[id])] else tasks
    ensures FailedIn(tasks, {id}) == if IsFailed(tasks, id) then {id} else {}
  {
  }

  lemma ResetNone(tasks: map<int, Task>)
    ensures ResetIn(tasks, {}) == tasks && FailedIn(tasks, {}) == {}
  {
  }

  function SetOf(ids: seq<int>): set<int> {
    set k | 0 <= k < |ids| :: ids[k]
  }

  lemma SetOfOneMore(ids: seq<int>, k: nat)
    requires k < |ids|
    ensures SetOf(ids[..k + 1]) == SetOf(ids[..k]) + {ids[k]}
    ensures NoRepeats(ids) ==> ids[k] !in SetOf(ids[..k])
  {
    var front, more := ids[..k], ids[..k + 1];
    forall id | id in SetOf(front)
      ensures id in SetOf(more)
    {
      var i :| 0 <= i < k && front[i] == id;
      assert more[i] == id;
    }
    assert more[k] == ids[k];
  }

  // ---------------------------------------------------------------- the sweep

  /** The records read for a chunk, before anything in it is written back. */
  function Read(tasks: map<int, Task>, ids: seq<int>): seq<Option<Task>> {
    seq(|ids|, k requires 0 <= k < |ids| => if ids[k] in tasks then Some(tasks[ids[k]]) else None)
  }

  method SweepChunk(tasks: map<int, Task>, ids: seq<int>) returns (tasks': map<int, Task>, count: nat)
    requires NoRepeats(ids)
    ensures tasks' == ResetIn(tasks, SetOf(ids)) && count == |FailedIn(tasks, SetOf(ids))|
  {
    hide ResetIn, FailedIn, SetOf, Reset;
    var results := Read(tasks, ids);
    tasks', count := tasks, 0;
    ResetNone(tasks);
    SetOfNone();
    var k := 0;
    while k < |results|
      invariant 0 <= k <= |ids|
      invariant tasks' == ResetIn(tasks, SetOf(ids[..k])) && count == |FailedIn(tasks, SetOf(ids[..k]))|
    {
      SetOfOneMore(ids, k);
      ResetMore(tasks, SetOf(ids[..k]), {ids[k]});
      ResetOne(tasks', ids[k]);
      Untouched(tasks, SetOf(ids[..k]), ids[k]);
      if results[k].Some? && results[k].value.status == Failed {
        tasks' := tasks'[ids[k] := Reset(results[k].value)];
        count := count + 1;
      }
      k := k + 1;
    }
    assert ids[..k] == ids;
  }

  lemma SetOfNone()
    ensures SetOf([]) == {}
  {
  }

  /** A record that no reset so far was about is still as it was read. */
  lemma Untouched(tasks: map<int, Task>, done: set<int>, id: int)
    requires id !in done
    ensures id in ResetIn(tasks, done) <==> id in tasks
    ensures id in tasks ==> ResetIn(tasks, done)[id] == tasks[id]
  {
  }

  lemma SetOfSplit(ids: seq<int>, i: nat, j: nat)
    requires i <= j <= |ids| && NoRepeats(ids)
    ensures SetOf(ids[..j]) == SetOf(ids[..i]) + SetOf(ids[i..j]) && SetOf(ids[..i]) !! SetOf(ids[i..j])
    ensures NoRepeats(ids[i..j])
  {
    var front, mid, all := ids[..i], ids[i..j], ids[..j];
    assert forall k :: 0 <= k < i ==> all[k] == front[k];
    assert forall k :: i <= k < j ==> all[k] == mid[k - i];
    assert forall k :: 0 <= k < |mid| ==> mid[k] == all[i + k];
  }

  method SweepBucket(tasks: map<int, Task>, ids: seq<int>) returns (tasks': map<int, Task>, count: nat)
    requires NoRepeats(ids)
    ensures tasks' == ResetIn(tasks, SetOf(ids)) && count == |FailedIn(tasks, SetOf(ids))|
  {
    hide ResetIn, FailedIn, SetOf;
    tasks', count := tasks, 0;
    ResetNone(tasks);
    SetOfNone();
    var i := 0;
    while i < |ids|
      invariant 0 <= i
      invariant var done := SetOf(ids[..if i < |ids| then i else |ids|]);
                tasks' == ResetIn(tasks, done) && count == |FailedIn(tasks, done)|
      decreases |ids| - i
    {
      var end := i + MGET_BATCH;
      if end > |ids| {
        end := |ids|;
      }
      SetOfSplit(ids, i, end);
      ResetMore(tasks, SetOf(ids[..i]), SetOf(ids[i..end]));
      var reset;
      tasks', reset := SweepChunk(tasks', ids[i..end]);
      count := count + reset;
      i := i + MGET_BATCH;
    }
    assert ids[..|ids|] == ids;
  }

  /** The buckets hold exactly the ids that have a task. */
  ghost predicate Stored(tasks: map<int, Task>, buckets: map<int, seq<int>>) {
    Bucketed(buckets) && forall id :: Holds(buckets, id) <==> id in tasks
  }

  function InBucket(tasks: map<int, Task>, b: nat): set<int> {
    set id | id in tasks && id / BUCKET_SIZE == b
  }

  lemma BucketIs(tasks: map<int, Task>, buckets: map<int, seq<int>>, b: nat)
    requires Stored(tasks, buckets)
    ensures SetOf(Bucket(buckets, b)) == InBucket(tasks, b) && NoRepeats(Bucket(buckets, b))
  {
    forall id
      ensures id in SetOf(Bucket(buckets, b)) <==> id in InBucket(tasks, b)
    {
      assert id in SetOf(Bucket(buckets, b)) <==> id in Bucket(buckets, b);
      assert id in Bucket(buckets, b) ==> id / BUCKET_SIZE == b;
      assert Holds(buckets, id) <==> id in tasks;
    }
  }

  /** The ids of the buckets below `b`. */
  function Below(tasks: map<int, Task>, b: nat): set<int> {
    set id | id in tasks && id / BUCKET_SIZE < b
  }

  lemma BelowOneMore(tasks: map<int, Task>, buckets: map<int, seq<int>>, b: nat)
    requires Stored(tasks, buckets)
    ensures Below(tasks, b + 1) == Below(tasks, b) + SetOf(Bucket(buckets, b))
    ensures Below(tasks, b) !! SetOf(Bucket(buckets, b)) && NoRepeats(Bucket(buckets, b))
  {
    BucketIs(tasks, buckets, b);
    assert Below(tasks, b + 1) == Below(tasks, b) + InBucket(tasks, b);
  }

  /** The ids that the sweep looks at. */
  function Reached(tasks: map<int, Task>, buckets: map<int, seq<int>>): set<int> {
    if Bucket(buckets, 0) == [] then {} else Below(tasks, MAX_BUCKETS)
  }

  /** Some task has an id below 50000. */
  ghost predicate Entered(tasks: map<int, Task>) {
    exists first :: first in tasks && 0 <= first < 50000
  }

  /** The failed tasks with an id below ten million are pending, without retries or error, if the sweep gets
      past the first bucket at all. */
  ghost predicate Swept(tasks: map<int, Task>, tasks': map<int, Task>, resetCount: nat) {
    var due := set id | id in tasks && tasks[id].status == Failed && id < 10000000 && Entered(tasks);
    && tasks'.Keys == tasks.Keys
    && (forall id :: id in tasks ==> tasks'[id] == if id in due then Task(Pending, 0, "") else tasks[id])
    && resetCount == |due|
  }

  lemma FirstBucket(tasks: map<int, Task>, buckets: map<int, seq<int>>)
    requires Stored(tasks, buckets)
    ensures Bucket(buckets, 0) != [] <==> Entered(tasks)
  {
    BucketIs(tasks, buckets, 0);
    var ids := Bucket(buckets, 0);
    hide Stored;
    if ids != [] {
      assert ids[0] in SetOf(ids);
    }
    if Entered(tasks) {
      var first :| first in tasks && 0 <= first < 50000;
      assert first in InBucket(tasks, 0);
    }
  }

  lemma ReachedIs(tasks: map<int, Task>, buckets: map<int, seq<int>>, id: int)
    requires Stored(tasks, buckets) && id in tasks
    ensures id in Reached(tasks, buckets) <==> Entered(tasks) && id < 10000000
  {
    FirstBucket(tasks, buckets);
    BucketOf(id);
    hide Stored, Bucket, Entered;
  }

  lemma SweptIs(tasks: map<int, Task>, buckets: map<int, seq<int>>)
    requires Stored(tasks, buckets)
    ensures var reached := Reached(tasks, buckets);
            Swept(tasks, ResetIn(tasks, reached), |FailedIn(tasks, reached)|)
  {
    var reached := Reached(tasks, buckets);
    forall id | id in tasks
      ensures id in reached <==> Entered(tasks) && id < 10000000
    {
      ReachedIs(tasks, buckets, id);
    }
    hide Stored, Bucket, Entered, Reached;
    assert FailedIn(tasks, reached)
        == set id | id in tasks && tasks[id].status == Failed && id < 10000000 && Entered(tasks);
  }

  /** `retryShardedTransferTasks`: 200 buckets, none of them if the first one is empty. */
  method SweepBuckets(tasks: map<int, Task>, buckets: map<int, seq<int>>)
    returns (tasks': map<int, Task>, resetCount: nat)
    requires Stored(tasks, buckets)
    ensures var reached := Reached(tasks, buckets);
            tasks' == ResetIn(tasks, reached) && resetCount == |FailedIn(tasks, reached)|
    ensures Swept(tasks, tasks', resetCount)
  {
    hide ResetIn, FailedIn, Below, Stored, SetOf, Swept;
    tasks', resetCount := tasks, 0;
    BelowNone(tasks, buckets);
    ResetNone(tasks);
    SetOfNone();
    var bucket := 0;
    while bucket < MAX_BUCKETS
      invariant 0 <= bucket <= MAX_BUCKETS
      invariant bucket > 0 ==> Bucket(buckets, 0) != []
      invariant tasks' == ResetIn(tasks, Below(tasks, bucket))
      invariant resetCount == |FailedIn(tasks, Below(tasks, bucket))|
    {
      BelowOneMore(tasks, buckets, bucket);
      var ids := Bucket(buckets, bucket);
      if |ids| == 0 {
        if bucket == 0 {
          break;
        }
        bucket := bucket + 1;
        continue;
      }
      ResetMore(tasks, Below(tasks, bucket), SetOf(ids));
      var reset;
      tasks', reset := SweepBucket(tasks', ids);
      resetCount := resetCount + reset;
      bucket := bucket + 1;
    }
    SweptIs(tasks, buckets);
  }

  lemma BelowNone(tasks: map<int, Task>, buckets: map<int, seq<int>>)
    requires Stored(tasks, buckets)
    ensures Below(tasks, 0) == {}
  {
  }

  // ---------------------------------------------------------------- exactness

  const REACH: int := 10000000

  /** What the retry is for: every failed task is pending again with a fresh retry count, every other
      task is untouched. */
  ghost predicate AllRetried(tasks: map<int, Task>, tasks': map<int, Task>) {
    && tasks'.Keys == tasks.Keys
    && forall id :: id in tasks ==> tasks'[id] == if tasks[id].status == Failed then Task(Pending, 0, "") else tasks[id]
  }

  /** The sweep retries every failed task if and only if none of them has an id of ten million or more,
      and the first bucket is not empty or no task failed at all. */
  lemma SweepReachesExactly(tasks: map<int, Task>, buckets: map<int, seq<int>>)
    requires Stored(tasks, buckets)
    ensures AllRetried(tasks, ResetIn(tasks, Reached(tasks, buckets))) <==>
              forall id :: IsFailed(tasks, id) ==> id < REACH && Entered(tasks)
  {
    SweptIs(tasks, buckets);
    hide Entered, Reached, ResetIn, FailedIn, Stored;
    if id :| IsFailed(tasks, id) && !(id < REACH && Entered(tasks)) {
      assert id in tasks;
    } else {
      assert forall id :: id in tasks && tasks[id].status == Failed ==> IsFailed(tasks, id);
    }
  }

  /** The ids of bucket `b` when there is a task for every id up to ten million. */
  function FullBucket(b: int): seq<int> {
    var lo := if b == 0 then 1 else b * BUCKET_SIZE;
    var hi := Min(REACH, (b + 1) * BUCKET_SIZE - 1);
    if lo <= hi then Interval(lo, hi - lo + 1) else []
  }

  lemma FullBucketIs(b: int)
    requires 0 <= b <= MAX_BUCKETS
    ensures Ascending(FullBucket(b))
    ensures forall id :: id in FullBucket(b) <==> 1 <= id <= REACH && id / BUCKET_SIZE == b
  {
    var lo := if b == 0 then 1 else b * BUCKET_SIZE;
    forall id
      ensures id in FullBucket(b) <==> 1 <= id <= REACH && id / BUCKET_SIZE == b
    {
      if 1 <= id <= REACH && id / BUCKET_SIZE == b {
        assert FullBucket(b)[id - lo] == id;
      }
    }
  }

  function LastFailed(id: int): Task {
    if id == REACH then Task(Failed, 1, "timeout") else Task(Completed, 0, "")
  }

  function FullTasks(): map<int, Task> {
    map id | 1 <= id <= REACH :: LastFailed(id)
  }

  function FullBuckets(): map<int, seq<int>> {
    map b | 0 <= b <= MAX_BUCKETS :: FullBucket(b)
  }

  lemma FullIsStored()
    ensures Bucketed(FullBuckets()) && forall id :: Holds(FullBuckets(), id) <==> 1 <= id <= REACH
  {
    var buckets := FullBuckets();
    forall b | b in buckets
      ensures Ascending(buckets[b]) && forall id :: id in buckets[b] <==> 1 <= id <= REACH && id / BUCKET_SIZE == b
    {
      FullBucketIs(b);
    }
    hide FullBucket;
    forall id
      ensures Holds(buckets, id) <==> 1 <= id <= REACH
    {
      if 1 <= id <= REACH {
        BucketOf(id);
        assert id / BUCKET_SIZE in buckets;
      }
    }
  }

  /** Ten million tasks with ids from one on, of which the last one failed: the sweep misses it. */
  lemma TenMillionthIsMissed(tasks: map<int, Task>, buckets: map<int, seq<int>>)
    requires tasks == FullTasks() && buckets == FullBuckets()
    ensures Stored(tasks, buckets) && GapFree(buckets, REACH)
    ensures Bucket(buckets, 0) != [] && IsFailed(tasks, REACH)
    ensures !AllRetried(tasks, ResetIn(tasks, Reached(tasks, buckets)))
  {
    FullIsStored();
    hide FullBuckets, FullBucket, Bucketed;
    assert Holds(buckets, 1);
    SweepReachesExactly(tasks, buckets);
    FirstBucket(tasks, buckets);
    hide AllRetried, ResetIn, Holds, Reached, Entered;
  }

  lemma BucketOf(id: int)
    ensures id / BUCKET_SIZE < MAX_BUCKETS <==> id < REACH
    ensures 1 <= id <= REACH ==> 0 <= id / BUCKET_SIZE <= MAX_BUCKETS
  {
  }

  function WithStatus(tasks: map<int, Task>, s: Status): set<int> {
    set id | id in tasks && tasks[id].status == s
  }

  /** The reset count is what moves from failed to pending. */
  lemma ResetsMoveCounts(tasks: map<int, Task>, ids: set<int>)
    ensures var after, n := ResetIn(tasks, ids), |FailedIn(tasks, ids)|;
            && |WithStatus(after, Failed)| == |WithStatus(tasks, Failed)| - n
            && |WithStatus(after, Pending)| == |WithStatus(tasks, Pending)| + n
            && |WithStatus(after, Running)| == |WithStatus(tasks, Running)|
            && |WithStatus(after, Completed)| == |WithStatus(tasks, Completed)|
  {
    var after, moved := ResetIn(tasks, ids), FailedIn(tasks, ids);
    ResetsMoveSets(tasks, ids);
    hide ResetIn, FailedIn, WithStatus;
    SizeOfMoved(WithStatus(tasks, Failed), WithStatus(tasks, Pending), moved);
  }

  lemma ResetsMoveSets(tasks: map<int, Task>, ids: set<int>)
    ensures var after, moved := ResetIn(tasks, ids), FailedIn(tasks, ids);
            && WithStatus(after, Failed) == WithStatus(tasks, Failed) - moved
            && WithStatus(after, Pending) == WithStatus(tasks, Pending) + moved
            && WithStatus(after, Running) == WithStatus(tasks, Running)
            && WithStatus(after, Completed) == WithStatus(tasks, Completed)
            && moved <= WithStatus(tasks, Failed) && moved !! WithStatus(tasks, Pending)
  {
    var after, moved := ResetIn(tasks, ids), FailedIn(tasks, ids);
    assert after.Keys == tasks.Keys;
    assert forall id :: id in tasks ==> after[id] == if id in moved then Reset(tasks[id]) else tasks[id];
    hide ResetIn;
  }

  lemma SizeOfMoved(from: set<int>, to: set<int>, moved: set<int>)
    requires moved <= from && moved !! to
    ensures |from - moved| == |from| - |moved| && |to + moved| == |to| + |moved|
  {
    assert from == (from - moved) + moved;
  }
}
