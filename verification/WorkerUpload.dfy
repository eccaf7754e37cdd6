/** The multipart uploads of the transfer worker and of the copy tool: part goroutines in any
    interleaving, and what an empty error channel means after the wait. */
module WorkerUpload {
  import opened Options
  import opened PartLists

  // ---------------------------------------------------------------- the transfer worker

  /** One part's goroutine: trying for a slot, calling the transfer service, or done. */
  datatype Pc = Trying | Calling | Done(ok: bool)

  /** `token` is the one-slot error channel, `cancelled` the multipart context. */
  datatype State = State(pcs: seq<Pc>, token: bool, cancelled: bool, completed: seq<Part>)

  datatype Step =
    | GetSlot(g: nat)
    | GiveUp(g: nat)
    | Upload(g: nat, etag: string)
    | Break(g: nat)
    | Expire

  function Start(n: nat): State {
    State(seq(n, _ => Trying), false, false, [])
  }

  predicate Enabled(s: State, step: Step) {
    match step
    case GetSlot(g) => g < |s.pcs| && s.pcs[g] == Trying
    case GiveUp(g) => g < |s.pcs| && s.pcs[g] == Trying && s.cancelled
    case Upload(g, _) => g < |s.pcs| && s.pcs[g] == Calling
    case Break(g) => g < |s.pcs| && s.pcs[g] == Calling
    case Expire => true
  }

  function Next(s: State, step: Step): State
    requires Enabled(s, step)
  {
    match step
    case GetSlot(g) => s.(pcs := s.pcs[g := Calling])
    case GiveUp(g) => s.(pcs := s.pcs[g := Done(false)], token := true)
    case Upload(g, etag) => s.(pcs := s.pcs[g := Done(true)], completed := s.completed + [Part(g + 1, etag)])
    case Break(g) =>
      // Only the goroutine whose error is queued cancels the others.
      s.(pcs := s.pcs[g := Done(false)], cancelled := s.cancelled || !s.token, token := true)
    case Expire => s.(cancelled := true)
  }

  predicate ValidRun(s: State, steps: seq<Step>)
    decreases |steps|
  {
    steps == [] || (Enabled(s, steps[0]) && ValidRun(Next(s, steps[0]), steps[1..]))
  }

  function Run(s: State, steps: seq<Step>): State
    requires ValidRun(s, steps)
    decreases |steps|
  {
    if steps == [] then s else Run(Next(s, steps[0]), steps[1..])
  }

  predicate AllDone(s: State) {
    forall g :: 0 <= g < |s.pcs| ==> s.pcs[g].Done?
  }

  function Successes(pcs: seq<Pc>): nat {
    if pcs == [] then 0 else Successes(pcs[..|pcs| - 1]) + if pcs[|pcs| - 1] == Done(true) then 1 else 0
  }

  ghost predicate Inv(s: State) {
    && Sound(s.completed, |s.pcs|)
    && (forall p :: p in s.completed ==> 1 <= p.number <= |s.pcs| && s.pcs[p.number - 1] == Done(true))
    && |s.completed| == Successes(s.pcs)
    && (s.token <==> exists g :: 0 <= g < |s.pcs| && s.pcs[g] == Done(false))
  }

  lemma {:induction false} SuccessesMove(pcs: seq<Pc>, g: nat, pc: Pc)
    requires g < |pcs|
    ensures Successes(pcs[g := pc]) ==
            Successes(pcs) - (if pcs[g] == Done(true) then 1 else 0) + (if pc == Done(true) then 1 else 0)
  {
    var k := |pcs| - 1;
    if g < k {
      SuccessesMove(pcs[..k], g, pc);
      assert pcs[g := pc][..k] == pcs[..k][g := pc];
    } else {
      assert pcs[g := pc][..k] == pcs[..k];
    }
  }

  lemma {:induction false} AllSucceeded(pcs: seq<Pc>)
    ensures Successes(pcs) == |pcs| <==> forall g :: 0 <= g < |pcs| ==> pcs[g] == Done(true)
    ensures Successes(pcs) <= |pcs|
  {
    if pcs != [] {
      AllSucceeded(pcs[..|pcs| - 1]);
    }
  }

  lemma {:induction false} NoneYet(n: nat)
    ensures Successes(seq(n, _ => Trying)) == 0
  {
    if n > 0 {
      NoneYet(n - 1);
      assert seq(n, _ => Trying)[..n - 1] == seq(n - 1, _ => Trying);
    }
  }

  lemma StepKeeps(s: State, step: Step)
    requires Inv(s) && Enabled(s, step)
    ensures Inv(Next(s, step)) && |Next(s, step).pcs| == |s.pcs|
  {
    hide Sound, Successes;
    var s' := Next(s, step);
    if !step.Expire? {
      SuccessesMove(s.pcs, step.g, s'.pcs[step.g]);
      assert s'.pcs == s.pcs[step.g := s'.pcs[step.g]];
      if step.Upload? {
        SoundPush(s.completed, Part(step.g + 1, step.etag), |s.pcs|);
      }
      if g :| 0 <= g < |s.pcs| && s.pcs[g] == Done(false) {
        assert s'.pcs[g] == Done(false);
      }
    }
  }

  lemma {:induction false} RunKeeps(s: State, steps: seq<Step>)
    requires Inv(s) && ValidRun(s, steps)
    ensures Inv(Run(s, steps)) && |Run(s, steps).pcs| == |s.pcs|
    decreases |steps|
  {
    hide Inv, Next, Enabled;
    if steps != [] {
      StepKeeps(s, steps[0]);
      RunKeeps(Next(s, steps[0]), steps[1..]);
    }
  }

  /** Whatever the interleaving and whenever the deadline strikes: after the wait the error channel
      is empty exactly when every part succeeded, and then the list holds all of them. */
  lemma EmptyChannelMeansSuccess(n: nat, steps: seq<Step>)
    requires ValidRun(Start(n), steps) && AllDone(Run(Start(n), steps))
    ensures var s := Run(Start(n), steps);
            && |s.pcs| == n && Sound(s.completed, n)
            && (!s.token <==> forall g :: 0 <= g < n ==> s.pcs[g] == Done(true))
            && (!s.token <==> |s.completed| == n)
  {
    NoneYet(n);
    assert Inv(Start(n));
    RunKeeps(Start(n), steps);
    var s := Run(Start(n), steps);
    AllSucceeded(s.pcs);
    if !s.token {
      forall g | 0 <= g < n ensures s.pcs[g] == Done(true) {
        assert s.pcs[g].Done?;
      }
    }
  }

  // ---------------------------------------------------------------- what the steps leave behind

  ghost predicate Ends(step: Step, g: nat, ok: bool) {
    if ok then step.Upload? && step.g == g else step == GiveUp(g) || step == Break(g)
  }

  ghost predicate Ended(steps: seq<Step>, g: nat, ok: bool) {
    exists i :: 0 <= i < |steps| && Ends(steps[i], g, ok)
  }

  lemma EndedFirst(steps: seq<Step>, g: nat, ok: bool)
    requires steps != []
    ensures Ended(steps, g, ok) <==> Ends(steps[0], g, ok) || Ended(steps[1..], g, ok)
  {
    if Ended(steps[1..], g, ok) {
      var i :| 0 <= i < |steps[1..]| && Ends(steps[1..][i], g, ok);
      assert Ends(steps[i + 1], g, ok);
    }
    if Ended(steps, g, ok) && !Ends(steps[0], g, ok) {
      var i :| 0 <= i < |steps| && Ends(steps[i], g, ok);
      assert Ends(steps[1..][i - 1], g, ok);
    }
  }

  /** A goroutine succeeds exactly when its call gave an etag, and fails when it gave up or its call broke. */
  lemma {:induction false} RunEnds(s: State, steps: seq<Step>, g: nat, ok: bool)
    requires ValidRun(s, steps) && g < |s.pcs|
    ensures g < |Run(s, steps).pcs| == |s.pcs|
    ensures Run(s, steps).pcs[g] == Done(ok) <==> s.pcs[g] == Done(ok) || Ended(steps, g, ok)
    decreases |steps|
  {
    if steps != [] {
      EndedFirst(steps, g, ok);
      hide Ended;
      RunEnds(Next(s, steps[0]), steps[1..], g, ok);
    }
  }

  /** A part is in the list with exactly the etag that its call gave. */
  lemma {:induction false} RunCollects(s: State, steps: seq<Step>, p: Part)
    requires ValidRun(s, steps)
    ensures p in Run(s, steps).completed <==>
              p in s.completed || (p.number >= 1 && Upload(p.number - 1, p.etag) in steps)
    decreases |steps|
  {
    if steps != [] {
      RunCollects(Next(s, steps[0]), steps[1..], p);
    }
  }

  ghost predicate Cancels(step: Step) {
    step.Break? || step.Expire?
  }

  ghost predicate AnyCancels(steps: seq<Step>) {
    exists i :: 0 <= i < |steps| && Cancels(steps[i])
  }

  /** The goroutines without a slot may give up exactly when some call broke or the deadline struck. */
  lemma {:induction false} RunCancels(s: State, steps: seq<Step>)
    requires ValidRun(s, steps) && (s.token ==> s.cancelled)
    ensures Run(s, steps).cancelled <==> s.cancelled || AnyCancels(steps)
    decreases |steps|
  {
    if steps != [] {
      var rest := steps[1..];
      RunCancels(Next(s, steps[0]), rest);
      if AnyCancels(rest) {
        var i :| 0 <= i < |rest| && Cancels(rest[i]);
        assert Cancels(steps[i + 1]);
      }
      assert forall i :: 1 <= i < |steps| ==> steps[i] == rest[i - 1];
    }
  }

  ghost predicate EveryUploaded(steps: seq<Step>, n: nat) {
    forall g: nat :: g < n ==> Ended(steps, g, true)
  }

  /** No error is queued exactly when every part was uploaded. */
  lemma DoneMeansUploaded(n: nat, steps: seq<Step>)
    requires ValidRun(Start(n), steps) && AllDone(Run(Start(n), steps))
    ensures !Run(Start(n), steps).token <==> EveryUploaded(steps, n)
  {
    EmptyChannelMeansSuccess(n, steps);
    var s := Run(Start(n), steps);
    forall g: nat | g < n
      ensures s.pcs[g] == Done(true) <==> Ended(steps, g, true)
    {
      RunEnds(Start(n), steps, g, true);
    }
    hide Run, ValidRun, Ended, AllDone, Sound;
  }

  /** Every goroutine takes a slot and uploads its part, one after the other. */
  function Undisturbed(etags: seq<string>, g: nat): seq<Step>
    requires g <= |etags|
    decreases |etags| - g
  {
    if g == |etags| then [] else [GetSlot(g), Upload(g, etags[g])] + Undisturbed(etags, g + 1)
  }

  lemma {:induction false} UndisturbedFrom(s: State, etags: seq<string>, g: nat)
    requires |s.pcs| == |etags| && g <= |etags| && forall h :: g <= h < |etags| ==> s.pcs[h] == Trying
    requires forall h :: 0 <= h < g ==> s.pcs[h].Done?
    ensures ValidRun(s, Undisturbed(etags, g)) && AllDone(Run(s, Undisturbed(etags, g)))
    decreases |etags| - g
  {
    if g < |etags| {
      var slot := Next(s, GetSlot(g));
      var done := Next(slot, Upload(g, etags[g]));
      UndisturbedFrom(done, etags, g + 1);
      var rest := Undisturbed(etags, g + 1);
      var steps := Undisturbed(etags, g);
      assert steps[1..] == [Upload(g, etags[g])] + rest && steps[1..][1..] == rest;
    }
  }

  lemma {:induction false} UndisturbedUploads(etags: seq<string>, g: nat, h: nat)
    requires g <= h < |etags|
    ensures Upload(h, etags[h]) in Undisturbed(etags, g)
    decreases |etags| - g
  {
    if g < h {
      UndisturbedUploads(etags, g + 1, h);
    }
  }

  lemma UndisturbedPart(etags: seq<string>, s: State, g: nat)
    requires g < |etags| && ValidRun(s, Undisturbed(etags, 0))
    ensures Ended(Undisturbed(etags, 0), g, true)
    ensures Part(g + 1, etags[g]) in Run(s, Undisturbed(etags, 0)).completed
  {
    var steps := Undisturbed(etags, 0);
    UndisturbedUploads(etags, 0, g);
    RunCollects(s, steps, Part(g + 1, etags[g]));
    hide Undisturbed, Run, ValidRun;
    var i :| 0 <= i < |steps| && steps[i] == Upload(g, etags[g]);
    assert Ends(steps[i], g, true);
  }

  /** Whatever the etags, there is a run in which every part is uploaded. */
  lemma AllCanSucceed(etags: seq<string>)
    ensures var n, steps := |etags|, Undisturbed(etags, 0);
            && ValidRun(Start(n), steps) && AllDone(Run(Start(n), steps)) && !Run(Start(n), steps).token
            && forall g :: 0 <= g < n ==> Part(g + 1, etags[g]) in Run(Start(n), steps).completed
  {
    var n, steps := |etags|, Undisturbed(etags, 0);
    UndisturbedFrom(Start(n), etags, 0);
    hide Run, ValidRun, Undisturbed, AllDone, Ended;
    forall g: nat | g < n
      ensures Ended(steps, g, true) && Part(g + 1, etags[g]) in Run(Start(n), steps).completed
    {
      UndisturbedPart(etags, Start(n), g);
    }
    DoneMeansUploaded(n, steps);
  }

  datatype Call = Abort | Complete(parts: seq<Part>)

  /** The store drops an upload when it accepts an abort or a completion of it. */
  ghost predicate Closed(calls: seq<Call>, abortOk: bool, completeOk: bool) {
    exists i :: 0 <= i < |calls| && if calls[i].Abort? then abortOk else completeOk
  }

  /** After the wait: abort on an error, whose answer is ignored, else sort and complete. The upload is
      left open exactly when the one call that is made fails. */
  method Conclude(n: nat, token: bool, completed: seq<Part>, abortOk: bool, completeOk: bool)
    returns (calls: seq<Call>, ok: bool)
    requires Sound(completed, n) && (!token ==> |completed| == n)
    ensures |calls| == 1 && (Closed(calls, abortOk, completeOk) <==> if token then abortOk else completeOk)
    ensures token ==> calls[0] == Abort && !ok
    ensures !token ==> calls[0].Complete? && OneEach(calls[0].parts, n)
                       && multiset(calls[0].parts) == multiset(completed) && (ok <==> completeOk)
  {
    if token {
      calls, ok := [Abort], false;
      assert calls[0].Abort?;
      return;
    }
    var a := new Part[|completed|](i requires 0 <= i < |completed| => completed[i]);
    assert a[..] == completed;
    SortParts(a);
    SoundPermuted(completed, a[..], n);
    assert |multiset(a[..])| == a.Length;
    FullListIsOneEach(a[..], n);
    calls, ok := [Complete(a[..])], completeOk;
    assert calls[0].Complete?;
  }

  /** The whole upload after the wait, for every interleaving `steps` of its goroutines: it succeeds if and
      only if every part was uploaded and the store accepts the completion, which carries exactly parts 1..n,
      each with the etag that its upload gave. */
  method EndUpload(n: nat, token: bool, completed: seq<Part>, abortOk: bool, completeOk: bool,
                   ghost steps: seq<Step>) returns (calls: seq<Call>, ok: bool)
    requires ValidRun(Start(n), steps) && AllDone(Run(Start(n), steps))
    requires token == Run(Start(n), steps).token && completed == Run(Start(n), steps).completed
    ensures var done := EveryUploaded(steps, n);
            && |calls| == 1 && (calls[0].Complete? <==> done) && (ok <==> done && completeOk)
            && (Closed(calls, abortOk, completeOk) <==> if done then completeOk else abortOk)
    ensures calls[0].Complete? ==>
              && OneEach(calls[0].parts, n)
              && forall p :: p in calls[0].parts ==> p.number >= 1 && Upload(p.number - 1, p.etag) in steps
  {
    EmptyChannelMeansSuccess(n, steps);
    DoneMeansUploaded(n, steps);
    hide Run, ValidRun, EveryUploaded;
    calls, ok := Conclude(n, token, completed, abortOk, completeOk);
    if calls[0].Complete? {
      forall p | p in calls[0].parts
        ensures p.number >= 1 && Upload(p.number - 1, p.etag) in steps
      {
        RunCollects(Start(n), steps, p);
        assert p in multiset(calls[0].parts);
      }
    }
  }

  // ---------------------------------------------------------------- the copy tool

  datatype ToolPc = Working | Returned(ok: bool)

  /** Goroutine `g` fills slot `g` of the parts slice or queues an error; the queue has room for all. */
  datatype ToolState = ToolState(pcs: seq<ToolPc>, parts: seq<Option<Part>>, errors: nat)

  datatype ToolStep = Fill(g: nat, etag: string) | Fail(g: nat)

  function ToolStart(n: nat): ToolState {
    ToolState(seq(n, _ => Working), seq(n, _ => None), 0)
  }

  predicate ToolEnabled(s: ToolState, step: ToolStep) {
    step.g < |s.pcs| == |s.parts| && s.pcs[step.g] == Working
  }

  function ToolNext(s: ToolState, step: ToolStep): ToolState
    requires ToolEnabled(s, step)
  {
    match step
    case Fill(g, etag) => s.(pcs := s.pcs[g := Returned(true)], parts := s.parts[g := Some(Part(g + 1, etag))])
    case Fail(g) => s.(pcs := s.pcs[g := Returned(false)], errors := s.errors + 1)
  }

  predicate ToolValid(s: ToolState, steps: seq<ToolStep>)
    decreases |steps|
  {
    steps == [] || (ToolEnabled(s, steps[0]) && ToolValid(ToolNext(s, steps[0]), steps[1..]))
  }

  function ToolRun(s: ToolState, steps: seq<ToolStep>): ToolState
    requires ToolValid(s, steps)
    decreases |steps|
  {
    if steps == [] then s else ToolRun(ToolNext(s, steps[0]), steps[1..])
  }

  ghost predicate ToolInv(s: ToolState) {
    && |s.pcs| == |s.parts|
    && (forall g :: 0 <= g < |s.pcs| ==>
          (s.parts[g].Some? <==> s.pcs[g] == Returned(true)) && (s.parts[g].Some? ==> s.parts[g].value.number == g + 1))
    && (s.errors > 0 <==> exists g :: 0 <= g < |s.pcs| && s.pcs[g] == Returned(false))
  }

  lemma {:induction false} ToolRunKeeps(s: ToolState, steps: seq<ToolStep>)
    requires ToolInv(s) && ToolValid(s, steps)
    ensures ToolInv(ToolRun(s, steps)) && |ToolRun(s, steps).pcs| == |s.pcs|
    decreases |steps|
  {
    if steps != [] {
      var s' := ToolNext(s, steps[0]);
      if g :| 0 <= g < |s.pcs| && s.pcs[g] == Returned(false) {
        assert s'.pcs[g] == Returned(false);
      }
      assert s'.pcs[steps[0].g].Returned?;
      ToolRunKeeps(s', steps[1..]);
    }
  }

  /** A slot is filled with exactly the etag that its goroutine got. */
  lemma {:induction false} ToolRunFills(s: ToolState, steps: seq<ToolStep>, g: nat, etag: string)
    requires ToolInv(s) && ToolValid(s, steps) && g < |s.pcs|
    ensures g < |ToolRun(s, steps).parts| == |s.parts|
    ensures ToolRun(s, steps).parts[g] == Some(Part(g + 1, etag)) <==>
              s.parts[g] == Some(Part(g + 1, etag)) || Fill(g, etag) in steps
    decreases |steps|
  {
    if steps != [] {
      var s' := ToolNext(s, steps[0]);
      assert ToolRun(s, [steps[0]] + []) == s' && ToolValid(s, [steps[0]] + []);
      ToolRunKeeps(s, [steps[0]] + []);
      ToolRunFills(s', steps[1..], g, etag);
    }
  }

  /** With every goroutine back, no queued error means that the slice is parts 1..n in order. */
  lemma ToolNoErrorMeansAll(n: nat, steps: seq<ToolStep>)
    requires ToolValid(ToolStart(n), steps)
    requires forall g :: 0 <= g < |ToolRun(ToolStart(n), steps).pcs| ==> ToolRun(ToolStart(n), steps).pcs[g].Returned?
    ensures var s := ToolRun(ToolStart(n), steps);
            && |s.parts| == n
            && (s.errors == 0 <==> forall g :: 0 <= g < n ==> s.parts[g].Some?)
            && (s.errors == 0 ==> forall g :: 0 <= g < n ==> s.parts[g].Some? && s.parts[g].value.number == g + 1)
            && forall g: nat, etag :: g < n ==> (s.parts[g] == Some(Part(g + 1, etag)) <==> Fill(g, etag) in steps)
  {
    assert ToolInv(ToolStart(n));
    ToolRunKeeps(ToolStart(n), steps);
    forall g: nat, etag | g < n
      ensures ToolRun(ToolStart(n), steps).parts[g] == Some(Part(g + 1, etag)) <==> Fill(g, etag) in steps
    {
      ToolRunFills(ToolStart(n), steps, g, etag);
    }
    var s := ToolRun(ToolStart(n), steps);
    if s.errors == 0 {
      forall g | 0 <= g < n ensures s.parts[g].Some? {
        assert s.pcs[g].Returned?;
      }
    }
  }
}
