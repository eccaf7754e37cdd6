/** The handlers of the dispatcher, working in place on the state of all jobs, each proved equal
    to the step of the job's state machine that it takes. */
module DispatchHandlers {
  import opened Sequences
  import opened TransferQueue
  import opened DispatchEffects
  import opened DispatchSafety
  import opened FairAcquire

  // ---------------------------------------------------------------- an acquire is a run of steps

  function Takes(worker: string, n: nat): seq<Event> {
    if n == 0 then [] else [EvTake(worker)] + Takes(worker, n - 1)
  }

  /** Popping `n` tasks and marking them is `n` takes. */
  lemma {:induction false} TakesMark(job: Job, worker: string, taken: seq<Record>, rest: seq<Record>, m: nat)
    requires job.buffer == taken + rest
    ensures ValidRun(job, Takes(worker, |taken|), m)
    ensures Run(job, Takes(worker, |taken|), m) == MarkAll(job.(buffer := rest), worker, taken)
    decreases |taken|
  {
    hide MarkRunning;
    var es := Takes(worker, |taken|);
    if taken == [] {
      assert job.buffer == rest;
    } else {
      var next := Take(job, worker);
      assert job.buffer[1..] == taken[1..] + rest && es[1..] == Takes(worker, |taken| - 1);
      MarkOtherBuffer(job, worker, taken[0], job.buffer[1..], rest);
      TakesMark(next, worker, taken[1..], rest, m);
      MarkFirst(job.(buffer := rest), worker, taken);
    }
  }

  /** Marking a record does not look at the channel. */
  lemma MarkOtherBuffer(job: Job, worker: string, r: Record, b: seq<Record>, c: seq<Record>)
    ensures MarkRunning(job.(buffer := b), worker, r).(buffer := c) == MarkRunning(job.(buffer := c), worker, r)
    ensures MarkRunning(job.(buffer := b), worker, r).buffer == b
  {
  }

  lemma {:induction false} MarkFirst(job: Job, worker: string, taken: seq<Record>)
    requires taken != []
    ensures MarkAll(job, worker, taken) == MarkAll(MarkRunning(job, worker, taken[0]), worker, taken[1..])
    decreases |taken|
  {
    var n := |taken| - 1;
    if n > 0 {
      MarkFirst(job, worker, taken[..n]);
      assert taken[..n][1..] == taken[1..][..n - 1] && taken[1..][n - 1] == taken[n];
    } else {
      assert taken[..0] == [] && taken[1..] == [];
    }
  }

  lemma {:induction false} TakesClean(job: Job, worker: string, n: nat, m: nat)
    requires ValidRun(job, Takes(worker, n), m)
    ensures CleanRun(job, Takes(worker, n), m)
    decreases n
  {
    hide Enabled;
    if n > 0 {
      var es := Takes(worker, n);
      assert es[1..] == Takes(worker, n - 1);
      TakesClean(Next(job, es[0], m), worker, n - 1, m);
    }
  }

  /** What an acquire request does to one job is a shuffle of its channel and one take per task
      handed out, so the job's invariant survives it. */
  lemma AcquireIsRun(job: Job, worker: string, taken: seq<Record>, rest: seq<Record>, m: nat)
    requires Conserved(job.buffer, taken, rest)
    ensures var es := [EvShuffle(taken + rest)] + Takes(worker, |taken|);
            ValidRun(job, es, m) && Run(job, es, m) == MarkAll(job.(buffer := rest), worker, taken)
    ensures Inv(job, m) && m > 0 ==> Inv(MarkAll(job.(buffer := rest), worker, taken), m)
  {
    hide Inv, MarkAll, CleanRun;
    var es := [EvShuffle(taken + rest)] + Takes(worker, |taken|);
    var shuffled := job.(buffer := taken + rest);
    TakesMark(shuffled, worker, taken, rest, m);
    assert es[1..] == Takes(worker, |taken|) && Next(job, es[0], m) == shuffled;
    assert shuffled.(buffer := rest) == job.(buffer := rest);
    if Inv(job, m) && m > 0 {
      TakesClean(shuffled, worker, |taken|, m);
      ShuffleKeeps(job, taken + rest, m);
      hide Next, Enabled;
      RunKeeps(shuffled, es[1..], m);
    }
  }

  /** The record as it stands in the reply. */
  function Returned(h: Handed): Handed {
    if h.rec.status == Pending then h.(rec := ToRunning(h.rec)) else h
  }

  /** The reply to a worker: what was popped, in order, as running tasks. */
  ghost predicate Replies(popped: seq<Handed>, tasks: seq<Handed>) {
    |tasks| == |popped| && forall i :: 0 <= i < |tasks| ==>
      var r := popped[i].rec;
      tasks[i] == Handed(popped[i].jobId, Record(r.id, r.src, r.size, Running, r.retries))
  }

  class Dispatcher {
    var jobs: map<int, Job>
    const maxRetryCount: nat

    ghost predicate Valid()
      reads this
    {
      maxRetryCount > 0 && forall j :: j in jobs ==> Inv(jobs[j], maxRetryCount)
    }

    constructor (maxRetryCount: nat)
      requires maxRetryCount > 0
      ensures Valid() && jobs == map[] && this.maxRetryCount == maxRetryCount
    {
      this.maxRetryCount := maxRetryCount;
      jobs := map[];
    }

    method CreateJob(jobId: int, periodic: bool)
      requires Valid() && jobId !in jobs
      modifies this
      ensures Valid() && jobs == old(jobs)[jobId := NewJob(jobId, periodic)]
    {
      NewJobSound(jobId, periodic, maxRetryCount);
      jobs := jobs[jobId := NewJob(jobId, periodic)];
    }

    method AddTasks(jobId: int, inputs: seq<Input>) returns (count: nat)
      requires Valid() && jobId in jobs
      modifies this
      ensures Valid() && jobs == old(jobs)[jobId := Add(old(jobs[jobId]), inputs)]
      ensures Extended(old(jobs[jobId]), jobs[jobId], inputs)
      ensures count == |NewOnes(inputs, old(jobs[jobId]).dedup, |inputs|)|
    {
      hide Inv, Add, Extended, Unique, Unknown, NewOnes;
      AddExtends(jobs[jobId], inputs);
      UniqueThenUnknown(inputs, jobs[jobId].dedup, |inputs|);
      assert inputs[..|inputs|] == inputs;
      AddKeeps(jobs[jobId], inputs, maxRetryCount);
      var job;
      job, count := AddToJob(jobs[jobId], inputs);
      jobs := jobs[jobId := job];
    }

    method FillBuffer(jobId: int)
      requires Valid() && jobId in jobs
      modifies this
      ensures Valid() && jobs == old(jobs)[jobId := Fill(old(jobs[jobId]))]
      ensures var job, next := old(jobs[jobId]), jobs[jobId];
              Advanced(job.tasks, job.offset, job.buffer, next.offset, next.buffer)
    {
      FillAdvances(jobs[jobId]);
      assert |jobs[jobId].buffer| <= 2000;
      hide Inv, Fill, Advanced;
      FillKeeps(jobs[jobId], maxRetryCount);
      var job := FillJob(jobs[jobId]);
      jobs := jobs[jobId := job];
    }

    /** `checkAndRefillTxBuffers` over the listed jobs: an active one gets one refill round. */
    method RefillAll(order: seq<int>)
      requires Valid() && NoRepeats(order) && forall x :: 0 <= x < |order| ==> order[x] in jobs
      modifies this
      ensures Valid() && jobs.Keys == old(jobs.Keys)
      ensures forall j :: j in jobs ==> jobs[j] == if j in order then RefillRound(old(jobs[j])) else old(jobs[j])
      ensures forall j :: j in order ==> Refilled(old(jobs[j]), jobs[j])
    {
      hide Inv, Fill, StuckCheck, Refilled;
      for x := 0 to |order|
        invariant Valid() && jobs.Keys == old(jobs.Keys)
        invariant forall j :: j in jobs ==>
                    jobs[j] == if j in order[..x] then RefillRound(old(jobs[j])) else old(jobs[j])
      {
        var j := order[x];
        assert order[..x + 1] == order[..x] + [j] && j !in order[..x];
        if Active(jobs[j]) {
          StuckCheckKeeps(jobs[j], maxRetryCount);
          jobs := jobs[j := StuckCheck(jobs[j])];
          if |jobs[j].buffer| < BUFFER_LOW_WATER {
            FillBuffer(j);
          }
        }
      }
      forall j | j in order
        ensures Refilled(old(jobs[j]), RefillRound(old(jobs[j])))
      {
        RefillRoundIs(old(jobs[j]));
      }
      hide RefillRound;
    }

    /** `AcquireTransferTasks`; `order` is the shuffled list of the jobs that have a channel. */
    method Acquire(worker: string, requested: int, order: seq<int>)
      returns (tasks: seq<Handed>, ghost popped: seq<Handed>)
      requires Valid() && NoRepeats(order) && forall x :: 0 <= x < |order| ==> order[x] in jobs
      modifies this
      ensures Valid() && jobs.Keys == old(jobs.Keys)
      ensures var limit := if requested <= 0 then 10 else requested;
              |tasks| <= limit && HandedOut(Channels(old(jobs), order), order, limit, popped)
      ensures Replies(popped, tasks)
      ensures forall j :: j in jobs ==>
                && Conserved(old(jobs[j].buffer), Of(popped, j), jobs[j].buffer)
                && jobs[j] == MarkAll(old(jobs[j]).(buffer := jobs[j].buffer), worker, Of(popped, j))
                && Marked(old(jobs[j]).(buffer := jobs[j].buffer), worker, Of(popped, j), jobs[j])
                && (j !in order ==> jobs[j] == old(jobs[j]))
    {
      hide Inv, Conserved, Of, MarkAll, Marked, HandedOut;
      var limit: nat := if requested <= 0 then 10 else requested;
      var channels := Channels(jobs, order);
      var handed, drained := Drain(channels, order, limit);
      var rest := map j | j in jobs :: if j in order then drained[j] else jobs[j].buffer;
      forall j | j in jobs && j !in order
        ensures Of(handed, j) == [] && Conserved(jobs[j].buffer, [], jobs[j].buffer)
      {
        NoneOf(handed, j);
        NothingPopped(jobs[j].buffer);
      }
      popped := handed;
      tasks := MarkTasksRunning(worker, handed, rest);
      forall j | j in jobs && j !in order
        ensures jobs[j] == old(jobs[j])
      {
        MarkedNothing(old(jobs[j]), worker);
      }
    }

    /** `markTransferTasksRunning`, with the channels as the drain left them. */
    method MarkTasksRunning(worker: string, popped: seq<Handed>, rest: map<int, seq<Record>>)
      returns (tasks: seq<Handed>)
      requires Valid() && rest.Keys == jobs.Keys && forall h :: h in popped ==> h.jobId in jobs
      requires forall j :: j in jobs ==> Conserved(jobs[j].buffer, Of(popped, j), rest[j])
      modifies this
      ensures Valid() && jobs.Keys == old(jobs.Keys)
      ensures Replies(popped, tasks)
      ensures forall j :: j in jobs ==>
                && jobs[j].buffer == rest[j]
                && jobs[j] == MarkAll(old(jobs[j]).(buffer := rest[j]), worker, Of(popped, j))
                && Marked(old(jobs[j]).(buffer := rest[j]), worker, Of(popped, j), jobs[j])
    {
      hide Inv, MarkRunning, MarkAll, Marked, Conserved, Of, Returned, Replies, AllMarked;
      assert popped[..0] == [];
      ghost var start := jobs;
      MarkStarts(start, rest, worker);
      var marked := map j | j in jobs :: jobs[j].(buffer := rest[j]);
      tasks := [];
      for i := 0 to |popped|
        invariant |tasks| == i && forall x :: 0 <= x < i ==> tasks[x] == Returned(popped[x])
        invariant marked.Keys == start.Keys && AllMarked(start, rest, worker, popped[..i], marked)
      {
        var h := popped[i];
        assert popped[..i + 1] == popped[..i] + [h] && h in popped;
        MarkOne(start, rest, worker, popped[..i], h, marked);
        marked := marked[h.jobId := MarkRunning(marked[h.jobId], worker, h.rec)];
        tasks := tasks + [Returned(h)];
      }
      assert popped[..|popped|] == popped;
      MarkedSound(start, rest, worker, popped, marked, maxRetryCount);
      AllPending(start, rest, popped, maxRetryCount);
      RepliesRunning(popped, tasks);
      jobs := marked;
    }

    /** `BatchUpdateTransfer`: all records are read, then written, then the transitions tracked, whichever
        jobs the updates name. Each job takes its own batch. */
    method BatchUpdateTasks(updates: seq<Handed>)
      requires forall i :: 0 <= i < |updates| ==> updates[i].jobId in jobs
      modifies this
      ensures jobs.Keys == old(jobs.Keys)
      ensures forall j :: j in jobs ==> jobs[j] == BatchUpdate(old(jobs[j]), Of(updates, j))
      ensures forall j :: j in jobs && Sorted(old(jobs[j]).tasks) ==> Updated(old(jobs[j]), Of(updates, j), jobs[j])
    {
      hide BatchUpdate, Of, MovesOf, Gathers, TrackAll, RowAfter, Updated, Sorted;
      var gathered, moves := GatherAll(jobs, updates);
      var tracked := TrackMovesOf(jobs, moves);
      forall j | j in jobs
        ensures BatchUpdate(jobs[j], Of(updates, j)) == Applied(jobs[j], gathered[j], tracked[j])
      {
        GatheredIsBatch(jobs[j], Of(updates, j), MovesOf(moves, j), gathered[j], tracked[j]);
      }
      forall j | j in jobs && Sorted(jobs[j].tasks)
        ensures Updated(jobs[j], Of(updates, j), BatchUpdate(jobs[j], Of(updates, j)))
      {
        BatchUpdates(jobs[j], Of(updates, j));
      }
      jobs := map j | j in jobs :: Applied(jobs[j], gathered[j], tracked[j]);
    }

    /** `flushTxStats` over the listed jobs: add every buffered delta to its row, clamped at zero. */
    method FlushAll(order: seq<int>)
      requires Valid() && NoRepeats(order) && forall x :: 0 <= x < |order| ==> order[x] in jobs
      modifies this
      ensures Valid() && jobs.Keys == old(jobs.Keys)
      ensures forall j :: j in jobs ==> jobs[j] == if j in order then Flush(old(jobs[j])) else old(jobs[j])
      ensures forall j, s :: j in order ==> jobs[j].row.counts.Of(s) == Count(jobs[j].tasks, s)
      ensures forall j :: j in order ==> FlushedStatus(old(jobs[j]), jobs[j])
    {
      hide Inv;
      for x := 0 to |order|
        invariant Valid() && jobs.Keys == old(jobs.Keys)
        invariant forall j :: j in jobs ==> jobs[j] == if j in order[..x] then Flush(old(jobs[j])) else old(jobs[j])
      {
        var j := order[x];
        assert order[..x + 1] == order[..x] + [j] && j !in order[..x];
        FlushKeeps(jobs[j], maxRetryCount);
        jobs := jobs[j := Flush(jobs[j])];
      }
      forall j | j in order ensures forall s :: jobs[j].row.counts.Of(s) == Count(jobs[j].tasks, s) {
        FlushKeeps(old(jobs[j]), maxRetryCount);
        assert jobs[j].tasks == old(jobs[j]).tasks;
      }
      forall j | j in order ensures FlushedStatus(old(jobs[j]), jobs[j]) {
        FlushStatus(old(jobs[j]), maxRetryCount);
      }
    }
  }

  /** The channels of the listed jobs. */
  function Channels(jobs: map<int, Job>, order: seq<int>): map<int, seq<Record>> {
    map j | j in jobs && j in order :: jobs[j].buffer
  }

  /** The pass in memory: the first input of each path. */
  method UniqueOf(inputs: seq<Input>) returns (unique: seq<Input>)
    ensures unique == Unique(inputs)
  {
    unique := [];
    var seen := {};
    for i := 0 to |inputs|
      invariant unique == Unique(inputs[..i]) && seen == SrcsOf(inputs[..i])
    {
      assert inputs[..i + 1] == inputs[..i] + [inputs[i]] && inputs[..i + 1][..i] == inputs[..i];
      SrcsOfPush(inputs[..i], inputs[i]);
      if inputs[i].src !in seen {
        seen := seen + {inputs[i].src};
        unique := unique + [inputs[i]];
      }
    }
    assert inputs[..|inputs|] == inputs;
  }

  /** The two deduplication passes of an add: against the request itself, then against the hash. */
  method NewInputs(inputs: seq<Input>, dedup: map<string, int>) returns (newInputs: seq<Input>)
    ensures newInputs == Unknown(Unique(inputs), dedup)
    ensures SrcsOf(newInputs) == SrcsOf(inputs) - dedup.Keys
  {
    var unique := UniqueOf(inputs);
    newInputs := [];
    for i := 0 to |unique|
      invariant newInputs == Unknown(unique[..i], dedup)
    {
      assert unique[..i + 1][..i] == unique[..i];
      if unique[i].src !in dedup {
        newInputs := newInputs + [unique[i]];
      }
    }
    assert unique[..|unique|] == unique;
    AddedInputs(inputs, dedup);
  }

  /** The new entries, numbered from the id after the last one, and the hash that knows them. */
  method Numbered(job: Job, inputs: seq<Input>) returns (tasks: seq<Entry>, dedup: map<string, int>, bytes: int)
    ensures tasks == job.tasks + NewEntries(StartId(job), inputs)
    ensures dedup == Remember(job.dedup, StartId(job), inputs)
    ensures bytes == SizeOfInputs(inputs)
  {
    var startId := StartId(job);
    tasks, dedup, bytes := job.tasks, job.dedup, 0;
    for i := 0 to |inputs|
      invariant tasks == job.tasks + NewEntries(startId, inputs[..i])
      invariant dedup == Remember(job.dedup, startId, inputs[..i])
      invariant bytes == SizeOfInputs(inputs[..i])
    {
      assert inputs[..i + 1][..i] == inputs[..i];
      assert NewEntries(startId, inputs[..i + 1])
          == NewEntries(startId, inputs[..i]) + [NewEntry(startId + i, inputs[i])];
      tasks := tasks + [NewEntry(startId + i, inputs[i])];
      dedup := dedup[inputs[i].src := startId + i];
      if inputs[i].size > 0 {
        bytes := bytes + inputs[i].size;
      }
    }
    assert inputs[..|inputs|] == inputs;
  }

  /** Every job after marking what was popped of it. */
  ghost predicate AllMarked(jobs: map<int, Job>, rest: map<int, seq<Record>>, worker: string, popped: seq<Handed>,
                            marked: map<int, Job>) {
    && rest.Keys == marked.Keys == jobs.Keys
    && forall j :: j in jobs ==> marked[j] == MarkAll(jobs[j].(buffer := rest[j]), worker, Of(popped, j))
  }

  lemma MarkStarts(jobs: map<int, Job>, rest: map<int, seq<Record>>, worker: string)
    requires rest.Keys == jobs.Keys
    ensures AllMarked(jobs, rest, worker, [], map j | j in jobs :: jobs[j].(buffer := rest[j]))
  {
  }

  lemma MarkOne(jobs: map<int, Job>, rest: map<int, seq<Record>>, worker: string, popped: seq<Handed>, h: Handed,
                marked: map<int, Job>)
    requires AllMarked(jobs, rest, worker, popped, marked) && h.jobId in jobs
    ensures h.jobId in marked
    ensures AllMarked(jobs, rest, worker, popped + [h],
                      marked[h.jobId := MarkRunning(marked[h.jobId], worker, h.rec)])
  {
    hide MarkRunning, MarkAll, Of;
    forall j | j in jobs
      ensures MarkAll(jobs[j].(buffer := rest[j]), worker, Of(popped + [h], j)) ==
              if j == h.jobId then MarkRunning(marked[j], worker, h.rec) else marked[j]
    {
      MarkNext(jobs[j].(buffer := rest[j]), worker, popped, h, j);
    }
  }

  lemma MarkedSound(jobs: map<int, Job>, rest: map<int, seq<Record>>, worker: string, popped: seq<Handed>,
                    marked: map<int, Job>, m: nat)
    requires AllMarked(jobs, rest, worker, popped, marked) && m > 0
    requires forall j :: j in jobs ==> Inv(jobs[j], m) && Conserved(jobs[j].buffer, Of(popped, j), rest[j])
    ensures marked.Keys == jobs.Keys == rest.Keys
    ensures forall j :: j in jobs ==>
              && Inv(marked[j], m) && marked[j].buffer == rest[j]
              && marked[j] == MarkAll(jobs[j].(buffer := rest[j]), worker, Of(popped, j))
              && Marked(jobs[j].(buffer := rest[j]), worker, Of(popped, j), marked[j])
  {
    hide Inv, MarkAll, Marked, Of, Conserved;
    forall j | j in jobs
      ensures Inv(marked[j], m) && marked[j].buffer == rest[j]
      ensures Marked(jobs[j].(buffer := rest[j]), worker, Of(popped, j), marked[j])
    {
      ShareMarks(jobs[j], worker, Of(popped, j), rest[j], m);
      AcquireIsRun(jobs[j], worker, Of(popped, j), rest[j], m);
      MarkAllBuffer(jobs[j].(buffer := rest[j]), worker, Of(popped, j));
    }
  }

  /** What is popped of a sound channel can be marked. */
  lemma ShareMarks(job: Job, worker: string, taken: seq<Record>, rest: seq<Record>, m: nat)
    requires Inv(job, m) && Conserved(job.buffer, taken, rest)
    ensures Marked(job.(buffer := rest), worker, taken, MarkAll(job.(buffer := rest), worker, taken))
  {
    var order := taken + rest;
    DistinctShuffled(job.buffer, order);
    forall i | 0 <= i < |taken|
      ensures TakeableAt(job.tasks, taken[i])
    {
      assert order[i] in multiset(order);
      assert taken[i] in job.buffer;
      var k: nat :| BufferedAt(job.tasks, job.offset, k, taken[i]);
    }
    forall i, j | 0 <= i < j < |taken|
      ensures taken[i].id != taken[j].id
    {
      assert order[i] == taken[i] && order[j] == taken[j];
    }
    hide Marked, MarkAll, TakeableAt;
    MarkAllMarks(job.(buffer := rest), worker, taken);
  }

  lemma RepliesRunning(popped: seq<Handed>, tasks: seq<Handed>)
    requires |tasks| == |popped| && forall i :: 0 <= i < |tasks| ==> tasks[i] == Returned(popped[i])
    requires forall h :: h in popped ==> h.rec.status == Pending
    ensures Replies(popped, tasks)
  {
    forall i | 0 <= i < |tasks|
      ensures tasks[i].rec.status == Running
    {
      assert popped[i] in popped;
    }
  }

  /** Only pending records are queued, so only these are popped. */
  lemma AllPending(jobs: map<int, Job>, rest: map<int, seq<Record>>, popped: seq<Handed>, m: nat)
    requires rest.Keys == jobs.Keys && forall h :: h in popped ==> h.jobId in jobs
    requires forall j :: j in jobs ==> Inv(jobs[j], m) && Conserved(jobs[j].buffer, Of(popped, j), rest[j])
    ensures forall h :: h in popped ==> h.rec.status == Pending
  {
    hide Inv, Conserved, Of;
    forall h | h in popped
      ensures h.rec.status == Pending
    {
      PoppedIsOf(popped, h);
      SharePending(jobs[h.jobId], Of(popped, h.jobId), rest[h.jobId], h.rec, m);
    }
  }

  lemma SharePending(job: Job, taken: seq<Record>, rest: seq<Record>, r: Record, m: nat)
    requires Inv(job, m) && Conserved(job.buffer, taken, rest) && r in taken
    ensures r.status == Pending
  {
    assert r in multiset(taken) && r in multiset(job.buffer);
    assert r in job.buffer;
    var k: nat :| BufferedAt(job.tasks, job.offset, k, r);
  }

  lemma {:induction false} PoppedIsOf(popped: seq<Handed>, h: Handed)
    requires h in popped
    ensures h.rec in Of(popped, h.jobId)
  {
    var n := |popped| - 1;
    assert popped == popped[..n] + [popped[n]];
    if h != popped[n] {
      PoppedIsOf(popped[..n], h);
    }
  }

  lemma {:induction false} MarkNext(job: Job, worker: string, popped: seq<Handed>, h: Handed, j: int)
    ensures MarkAll(job, worker, Of(popped + [h], j)) ==
            if j == h.jobId then MarkRunning(MarkAll(job, worker, Of(popped, j)), worker, h.rec)
            else MarkAll(job, worker, Of(popped, j))
  {
    OfPush(popped, h, j);
    var taken := Of(popped, j);
    assert (taken + [h.rec])[..|taken + [h.rec]| - 1] == taken;
  }

  lemma {:induction false} MarkAllBuffer(job: Job, worker: string, taken: seq<Record>)
    ensures MarkAll(job, worker, taken).buffer == job.buffer
  {
    if taken != [] {
      MarkAllBuffer(job, worker, taken[..|taken| - 1]);
    }
  }

  lemma {:induction false} NoneOf(popped: seq<Handed>, j: int)
    requires forall h :: h in popped ==> h.jobId != j
    ensures Of(popped, j) == []
  {
    if popped != [] {
      var front := popped[..|popped| - 1];
      assert forall h :: h in front ==> h in popped;
      NoneOf(front, j);
    }
  }

  lemma NothingPopped(buffer: seq<Record>)
    ensures Conserved(buffer, [], buffer)
  {
  }

  lemma MarkedNothing(job: Job, worker: string)
    ensures MarkAll(job.(buffer := job.buffer), worker, []) == job
  {
  }

  /** The drain of the channels, whatever their number. */
  method Drain(channels: map<int, seq<Record>>, order: seq<int>, limit: nat)
      returns (popped: seq<Handed>, rest: map<int, seq<Record>>)
    requires NoRepeats(order)
    requires (forall x :: 0 <= x < |order| ==> order[x] in channels) && forall j :: j in channels ==> j in order
    ensures |popped| <= limit && rest.Keys == channels.Keys
    ensures forall h :: h in popped ==> h.jobId in channels
    ensures forall j :: j in channels ==> Conserved(channels[j], Of(popped, j), rest[j])
    ensures HandedOut(channels, order, limit, popped)
  {
    hide Conserved, Of, SharedOut;
    if |order| == 0 {
      assert forall j :: j !in channels;
      return [], channels;
    } else if |order| == 1 {
      forall j | j in channels ensures j == order[0] {
        assert j in order;
      }
      assert channels.Keys == {order[0]};
      popped, rest := DrainOne(order[0], channels[order[0]], limit);
    } else {
      popped, rest := FairDrain(channels, order, limit);
    }
  }

  /** The drain when there is one channel only: until it is empty or the request is full. */
  method DrainOne(jobId: int, channel: seq<Record>, limit: nat)
    returns (popped: seq<Handed>, rest: map<int, seq<Record>>)
    ensures |popped| <= limit && rest.Keys == {jobId}
    ensures forall h :: h in popped ==> h.jobId == jobId
    ensures Conserved(channel, Of(popped, jobId), rest[jobId])
    ensures channel == Of(popped, jobId) + rest[jobId]
    ensures Of(popped, jobId) == if limit < |channel| then channel[..limit] else channel
  {
    popped := [];
    var left := channel;
    while |popped| < limit && left != []
      invariant |popped| <= limit && forall h :: h in popped ==> h.jobId == jobId
      invariant channel == Of(popped, jobId) + left && |Of(popped, jobId)| == |popped|
      decreases |left|
    {
      OfPush(popped, Handed(jobId, left[0]), jobId);
      popped := popped + [Handed(jobId, left[0])];
      left := left[1..];
    }
    rest := map[jobId := left];
  }

  /** `addLegacyTransferTasks`: drop repeated and known source paths, number the rest upwards. */
  method AddToJob(job: Job, inputs: seq<Input>) returns (job': Job, count: nat)
    ensures job' == Add(job, inputs)
    ensures count == |Unknown(Unique(inputs), job.dedup)|
  {
    var newInputs := NewInputs(inputs, job.dedup);
    count := |newInputs|;
    if count == 0 {
      job' := job;
    } else {
      var tasks, dedup, bytes := Numbered(job, newInputs);
      job' := job.(tasks := tasks, dedup := dedup, row := AddedRow(job.row, count, bytes));
    }
  }

  /** `fillLeagcyTxJobBuffer`: fetch a batch by rank and push what is pending. */
  method FillJob(job: Job) returns (job': Job)
    ensures job' == Fill(job)
  {
    var batch := Batch(job.tasks, job.offset);
    var channel, processed, full := job.buffer, 0, false;
    while processed < |batch| && !full
      invariant processed <= |batch|
      invariant full ==> Scan(batch, job.buffer) == Scanned(processed, channel)
      invariant !full ==> var r := Scan(batch[processed..], channel);
                          Scan(batch, job.buffer) == Scanned(processed + r.processed, r.buffer)
      decreases |batch| - processed, !full
    {
      assert batch[processed..][1..] == batch[processed + 1..];
      if batch[processed].rec.status != Pending {
        processed := processed + 1;
      } else if |channel| < BUFFER_SIZE {
        channel := channel + [batch[processed].rec];
        processed := processed + 1;
      } else {
        full := true;
      }
    }
    job' := job.(offset := job.offset + processed, buffer := channel);
  }

  /** What the first loop of a batch has gathered for one job. */
  datatype Gathered = Gathered(tasks: seq<Entry>, bytes: int)

  /** A transition to track, and its job. */
  datatype Move = Move(jobId: int, action: Action)

  function MovesOf(moves: seq<Move>, jobId: int): seq<Action> {
    if moves == [] then []
    else
      var front, last := MovesOf(moves[..|moves| - 1], jobId), moves[|moves| - 1];
      if last.jobId == jobId then front + [last.action] else front
  }

  lemma {:induction false} MovesPush(moves: seq<Move>, m: Move, jobId: int)
    ensures MovesOf(moves + [m], jobId)
            == if m.jobId == jobId then MovesOf(moves, jobId) + [m.action] else MovesOf(moves, jobId)
  {
    assert (moves + [m])[..|moves|] == moves;
  }

  ghost predicate Gathers(snapshot: seq<Entry>, updates: seq<Record>, g: Gathered, actions: seq<Action>) {
    && g.tasks == Written(snapshot, snapshot, updates)
    && g.bytes == SuccessBytes(snapshot, updates)
    && actions == Actions(snapshot, updates)
  }

  /** What has been gathered for all jobs. */
  ghost predicate AllGathered(jobs: map<int, Job>, updates: seq<Handed>, g: map<int, Gathered>, moves: seq<Move>) {
    && g.Keys == jobs.Keys
    && (forall i :: 0 <= i < |moves| ==> moves[i].jobId in jobs)
    && forall j :: j in jobs ==> Gathers(jobs[j].tasks, Of(updates, j), g[j], MovesOf(moves, j))
  }

  lemma GatheredPush(jobs: map<int, Job>, updates: seq<Handed>, h: Handed, g: map<int, Gathered>, moves: seq<Move>,
                     now: Gathered, action: seq<Action>, moves': seq<Move>)
    requires AllGathered(jobs, updates, g, moves) && h.jobId in jobs && |action| <= 1
    requires Gathers(jobs[h.jobId].tasks, Of(updates, h.jobId) + [h.rec], now, MovesOf(moves, h.jobId) + action)
    requires moves' == if action == [] then moves else moves + [Move(h.jobId, action[0])]
    ensures AllGathered(jobs, updates + [h], g[h.jobId := now], moves')
  {
    hide Gathers, Of, MovesOf;
    forall j | j in jobs
      ensures Gathers(jobs[j].tasks, Of(updates + [h], j), g[h.jobId := now][j], MovesOf(moves', j))
    {
      OfPush(updates, h, j);
      if action != [] {
        MovesPush(moves, Move(h.jobId, action[0]), j);
        assert action == [action[0]];
      } else {
        assert MovesOf(moves, j) + action == MovesOf(moves, j);
      }
    }
  }

  /** The first loop: merge every update with the record as it was read. */
  method GatherAll(jobs: map<int, Job>, updates: seq<Handed>) returns (g: map<int, Gathered>, moves: seq<Move>)
    requires forall i :: 0 <= i < |updates| ==> updates[i].jobId in jobs
    ensures AllGathered(jobs, updates, g, moves)
  {
    hide Of, MovesOf, Gathers, AllGathered;
    g := map j | j in jobs :: Gathered(jobs[j].tasks, 0);
    moves := [];
    assert updates[..0] == [];
    GatherStarts(jobs);
    for i := 0 to |updates|
      invariant AllGathered(jobs, updates[..i], g, moves)
    {
      var jid, u := updates[i].jobId, updates[i].rec;
      ghost var before := moves;
      GatheredAt(jobs, updates[..i], g, moves, jid);
      var now, action := GatherOne(jobs[jid].tasks, Of(updates[..i], jid), u, g[jid], MovesOf(moves, jid));
      if action != [] {
        moves := moves + [Move(jid, action[0])];
      }
      GatheredPush(jobs, updates[..i], updates[i], g, before, now, action, moves);
      assert updates[..i + 1] == updates[..i] + [updates[i]];
      g := g[jid := now];
    }
    assert updates[..|updates|] == updates;
  }

  lemma GatherStarts(jobs: map<int, Job>)
    ensures AllGathered(jobs, [], map j | j in jobs :: Gathered(jobs[j].tasks, 0), [])
  {
  }

  lemma GatheredAt(jobs: map<int, Job>, updates: seq<Handed>, g: map<int, Gathered>, moves: seq<Move>, j: int)
    requires AllGathered(jobs, updates, g, moves) && j in jobs
    ensures j in g && Gathers(jobs[j].tasks, Of(updates, j), g[j], MovesOf(moves, j))
  {
  }

  /** One update: its record, its bytes, and the transition to track, if there is one. */
  method GatherOne(snapshot: seq<Entry>, ghost before: seq<Record>, u: Record, g: Gathered, ghost actions: seq<Action>)
      returns (g': Gathered, action: seq<Action>)
    requires Gathers(snapshot, before, g, actions)
    ensures Gathers(snapshot, before + [u], g', actions + action) && |action| <= 1
  {
    hide Merge, Rank;
    g', action := g, [];
    assert (before + [u])[..|before|] == before && actions + [] == actions;
    var k := Rank(snapshot, u.id);
    if k < |snapshot| {
      var existing := snapshot[k].rec;
      var bytes := g.bytes;
      if existing.status != Completed && u.status == Completed && existing.size > 0 {
        bytes := bytes + existing.size;
      }
      if existing.status != u.status {
        action := [Action(existing.status, u.status)];
      }
      var merged := Merge(existing, u);
      g' := Gathered(g.tasks[k := Entry(merged, TaskRow(merged.status, merged.retries), g.tasks[k].attempts)], bytes);
    }
  }

  datatype Tracked = Tracked(stats: Stats, row: JobRow)

  /** What has been tracked in all jobs. */
  ghost predicate AllTracked(jobs: map<int, Job>, moves: seq<Move>, t: map<int, Tracked>) {
    t.Keys == jobs.Keys && forall j :: j in jobs ==> Tracks(jobs[j], MovesOf(moves, j), t[j])
  }

  /** The second loop: track every transition in its job. */
  method TrackMovesOf(jobs: map<int, Job>, moves: seq<Move>) returns (t: map<int, Tracked>)
    requires forall i :: 0 <= i < |moves| ==> moves[i].jobId in jobs
    ensures AllTracked(jobs, moves, t)
  {
    t := map j | j in jobs :: Tracked(jobs[j].stats, jobs[j].row);
    assert moves[..0] == [];
    assert AllTracked(jobs, [], t);
    hide Track, Promote, Reactivate, AllTracked;
    for i := 0 to |moves|
      invariant AllTracked(jobs, moves[..i], t)
    {
      var jid, a := moves[i].jobId, moves[i].action;
      TrackedNext(jobs, moves[..i], moves[i], t);
      var row := t[jid].row;
      if a.newStatus == Running {
        row := Promote(row);
      } else if a.newStatus == Pending {
        row := Reactivate(row);
      }
      assert moves[..i + 1] == moves[..i] + [moves[i]];
      t := t[jid := Tracked(Track(t[jid].stats, a.oldStatus, a.newStatus), row)];
    }
    assert moves[..|moves|] == moves;
  }

  lemma TrackedNext(jobs: map<int, Job>, moves: seq<Move>, m: Move, t: map<int, Tracked>)
    requires AllTracked(jobs, moves, t) && m.jobId in jobs
    ensures m.jobId in t && AllTracked(jobs, moves + [m], t[m.jobId := TrackedOne(t[m.jobId], m.action)])
  {
    hide TrackedOne, MovesOf, Tracks;
    forall j | j in jobs
      ensures Tracks(jobs[j], MovesOf(moves + [m], j), t[m.jobId := TrackedOne(t[m.jobId], m.action)][j])
    {
      MovesPush(moves, m, j);
      TrackedPush(jobs[j], MovesOf(moves, j), t[j], m.action);
    }
  }

  /** One transition tracked. */
  ghost function TrackedOne(t: Tracked, a: Action): Tracked {
    Tracked(Track(t.stats, a.oldStatus, a.newStatus),
            if a.newStatus == Running then Promote(t.row)
            else if a.newStatus == Pending then Reactivate(t.row) else t.row)
  }

  /** What tracking the actions one after the other leaves of the job's buffer and row. */
  ghost predicate Tracks(job: Job, actions: seq<Action>, t: Tracked) {
    t == Tracked(TrackAll(job.stats, actions), RowAfter(job.row, actions))
  }

  lemma {:induction false} TrackedPush(job: Job, actions: seq<Action>, t: Tracked, a: Action)
    requires Tracks(job, actions, t)
    ensures Tracks(job, actions + [a], TrackedOne(t, a))
  {
    assert (actions + [a])[..|actions|] == actions;
    hide Track, Promote, Reactivate;
  }

  /** The job with what was gathered and tracked for it; the bytes are added last. */
  function Applied(job: Job, g: Gathered, t: Tracked): Job {
    job.(tasks := g.tasks, stats := t.stats, row := t.row.(successSize := t.row.successSize + g.bytes))
  }

  lemma GatheredIsBatch(job: Job, updates: seq<Record>, actions: seq<Action>, g: Gathered, t: Tracked)
    requires Gathers(job.tasks, updates, g, actions)
    requires Tracks(job, actions, t)
    ensures BatchUpdate(job, updates) == Applied(job, g, t)
  {
  }
}
