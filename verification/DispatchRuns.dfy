/** Putting runs of a job together, step by step and end to end. */
module DispatchRuns {
  import opened TransferQueue
  import opened DispatchSafety

  ghost predicate NoManualRetry(es: seq<Event>) {
    forall e :: e in es ==> !e.EvManualRetry?
  }

  lemma {:induction false} WithoutRetryClean(job: Job, es: seq<Event>, m: nat)
    requires ValidRun(job, es, m) && NoManualRetry(es)
    ensures CleanRun(job, es, m)
    decreases |es|
  {
    hide Enabled, Next;
    if es != [] {
      assert es[0] in es;
      WithoutRetryClean(Next(job, es[0], m), es[1..], m);
    }
  }

  lemma {:induction false} RunAppend(job: Job, front: seq<Event>, back: seq<Event>, m: nat)
    requires ValidRun(job, front, m) && ValidRun(Run(job, front, m), back, m)
    ensures ValidRun(job, front + back, m) && Run(job, front + back, m) == Run(Run(job, front, m), back, m)
    decreases |front|
  {
    hide Enabled, Next;
    if front == [] {
      assert front + back == back;
    } else {
      assert (front + back)[1..] == front[1..] + back;
      RunAppend(Next(job, front[0], m), front[1..], back, m);
    }
  }

  /** A run is continued by one more step. */
  lemma RunStep(job: Job, es: seq<Event>, e: Event, m: nat)
    requires ValidRun(job, es, m) && Enabled(Run(job, es, m), e, m)
    ensures ValidRun(job, es + [e], m) && Run(job, es + [e], m) == Next(Run(job, es, m), e, m)
  {
    OneStep(Run(job, es, m), e, m);
    RunAppend(job, es, [e], m);
  }

  lemma OneStep(job: Job, e: Event, m: nat)
    requires Enabled(job, e, m)
    ensures ValidRun(job, [e], m) && Run(job, [e], m) == Next(job, e, m)
  {
    hide Enabled, Next;
    assert [e][1..] == [];
    assert ValidRun(Next(job, e, m), [], m);
  }
}
