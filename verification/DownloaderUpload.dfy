/** The downloader's multipart upload: part goroutines in any interleaving, then recovery,
    sorting, verification and completion. */
module DownloaderUpload {
  import opened Options
  import opened PartLists
  import opened RangeTiling

  // ---------------------------------------------------------------- the goroutines

  datatype Fate = Succeeded | Failed | MissingEtag | Skipped

  /** Where one part's goroutine is: before the semaphore, holding it, past the abort check, or done. */
  datatype Pc = Waiting | Holding | Uploading | Finished(fate: Fate)

  /** Goroutine `g` uploads part `g + 1`. `token` is the one-slot error channel. */
  datatype State = State(pcs: seq<Pc>, capacity: nat, slots: nat, token: bool, completed: seq<Part>)

  datatype Step =
    | TakeSlot(g: nat)
    | CheckAbort(g: nat)
    | Upload(g: nat, etag: string)
    | LoseEtag(g: nat)
    | Break(g: nat)

  function Start(n: nat, capacity: nat): State {
    State(seq(n, _ => Waiting), capacity, 0, false, [])
  }

  predicate Enabled(s: State, step: Step) {
    && step.g < |s.pcs|
    && match step
       case TakeSlot(g) => s.pcs[g] == Waiting && s.slots < s.capacity
       case CheckAbort(g) => s.pcs[g] == Holding
       case _ => s.pcs[step.g] == Uploading
  }

  /** The goroutine returns, which frees its slot. */
  function Finish(s: State, g: nat, fate: Fate): State
    requires g < |s.pcs|
  {
    s.(pcs := s.pcs[g := Finished(fate)], slots := if s.slots == 0 then 0 else s.slots - 1)
  }

  function Next(s: State, step: Step): State
    requires Enabled(s, step)
  {
    match step
    case TakeSlot(g) => s.(pcs := s.pcs[g := Holding], slots := s.slots + 1)
    case CheckAbort(g) =>
      // The check receives from the channel, so it takes the token away.
      if s.token then Finish(s, g, Skipped).(token := false) else s.(pcs := s.pcs[g := Uploading])
    case Upload(g, etag) => Finish(s, g, Succeeded).(completed := s.completed + [Part(g + 1, etag)])
    case LoseEtag(g) => Finish(s, g, MissingEtag)
    case Break(g) => Finish(s, g, Failed).(token := true)
  }

  predicate ValidRun(s: State, steps: seq<Step>)
    decreases |steps|
  {
    steps == [] || (Enabled(s, steps[0]) && ValidRun(Next(s, steps[0]), steps[1..]))
  }

  function Run(s: State, steps: seq<Step>): State
    requires ValidRun(s, steps)
    decreases |steps|
  {
    if steps == [] then s else Run(Next(s, steps[0]), steps[1..])
  }

  predicate AllDone(s: State) {
    forall g :: 0 <= g < |s.pcs| ==> s.pcs[g].Finished?
  }

  predicate IsBusy(pc: Pc) {
    pc == Holding || pc == Uploading
  }

  function Busy(pcs: seq<Pc>): nat {
    if pcs == [] then 0 else Busy(pcs[..|pcs| - 1]) + if IsBusy(pcs[|pcs| - 1]) then 1 else 0
  }

  function Successes(pcs: seq<Pc>): nat {
    if pcs == [] then 0 else Successes(pcs[..|pcs| - 1]) + if pcs[|pcs| - 1] == Finished(Succeeded) then 1 else 0
  }

  /** The list holds the parts of exactly the goroutines that succeeded, and no more goroutines
      hold a slot than there are. */
  ghost predicate Inv(s: State) {
    && Sound(s.completed, |s.pcs|)
    && (forall p :: p in s.completed ==> 1 <= p.number <= |s.pcs| && s.pcs[p.number - 1] == Finished(Succeeded))
    && |s.completed| == Successes(s.pcs)
    && s.slots == Busy(s.pcs) <= s.capacity
  }

  lemma {:induction false} CountsMove(pcs: seq<Pc>, g: nat, pc: Pc)
    requires g < |pcs|
    ensures Busy(pcs[g := pc]) == Busy(pcs) - (if IsBusy(pcs[g]) then 1 else 0) + (if IsBusy(pc) then 1 else 0)
    ensures Successes(pcs[g := pc]) ==
            Successes(pcs) - (if pcs[g] == Finished(Succeeded) then 1 else 0)
            + (if pc == Finished(Succeeded) then 1 else 0)
  {
    var k := |pcs| - 1;
    if g < k {
      CountsMove(pcs[..k], g, pc);
      assert pcs[g := pc][..k] == pcs[..k][g := pc];
    } else {
      assert pcs[g := pc][..k] == pcs[..k];
    }
  }

  lemma {:induction false} BusyAtLeast(pcs: seq<Pc>, g: nat)
    requires g < |pcs| && IsBusy(pcs[g])
    ensures Busy(pcs) > 0
  {
    if g < |pcs| - 1 {
      BusyAtLeast(pcs[..|pcs| - 1], g);
    }
  }

  lemma {:induction false} SuccessesBounded(pcs: seq<Pc>)
    ensures Successes(pcs) <= |pcs|
    ensures Successes(pcs) == |pcs| <==> forall g :: 0 <= g < |pcs| ==> pcs[g] == Finished(Succeeded)
  {
    if pcs != [] {
      SuccessesBounded(pcs[..|pcs| - 1]);
    }
  }

  lemma StepKeeps(s: State, step: Step)
    requires Inv(s) && Enabled(s, step)
    ensures Inv(Next(s, step)) && |Next(s, step).pcs| == |s.pcs| && Next(s, step).capacity == s.capacity
  {
    hide Sound, Busy, Successes;
    var s' := Next(s, step);
    CountsMove(s.pcs, step.g, s'.pcs[step.g]);
    if IsBusy(s.pcs[step.g]) {
      BusyAtLeast(s.pcs, step.g);
    }
    assert s'.pcs == s.pcs[step.g := s'.pcs[step.g]];
    if step.Upload? {
      SoundPush(s.completed, Part(step.g + 1, step.etag), |s.pcs|);
    }
  }

  lemma {:induction false} StartSound(n: nat, capacity: nat)
    ensures Inv(Start(n, capacity))
  {
    NoneBusy(n);
  }

  lemma {:induction false} NoneBusy(n: nat)
    ensures var pcs := seq(n, _ => Waiting); Busy(pcs) == 0 && Successes(pcs) == 0
  {
    if n > 0 {
      NoneBusy(n - 1);
      assert seq(n, _ => Waiting)[..n - 1] == seq(n - 1, _ => Waiting);
    }
  }

  lemma {:induction false} RunKeeps(s: State, steps: seq<Step>)
    requires Inv(s) && ValidRun(s, steps)
    ensures Inv(Run(s, steps)) && |Run(s, steps).pcs| == |s.pcs| && Run(s, steps).capacity == s.capacity
    decreases |steps|
  {
    hide Inv, Next, Enabled;
    if steps != [] {
      StepKeeps(s, steps[0]);
      RunKeeps(Next(s, steps[0]), steps[1..]);
    }
  }

  // ---------------------------------------------------------------- what the steps leave behind

  /** The step ends goroutine `g` this way. */
  ghost predicate Ends(step: Step, g: nat, fate: Fate) {
    match fate
    case Succeeded => step.Upload? && step.g == g
    case Failed => step == Break(g)
    case MissingEtag => step == LoseEtag(g)
    case Skipped => false
  }

  ghost predicate Ended(steps: seq<Step>, g: nat, fate: Fate) {
    exists i :: 0 <= i < |steps| && Ends(steps[i], g, fate)
  }

  lemma EndedFirst(steps: seq<Step>, g: nat, fate: Fate)
    requires steps != []
    ensures Ended(steps, g, fate) <==> Ends(steps[0], g, fate) || Ended(steps[1..], g, fate)
  {
    if Ended(steps[1..], g, fate) {
      var i :| 0 <= i < |steps[1..]| && Ends(steps[1..][i], g, fate);
      assert Ends(steps[i + 1], g, fate);
    }
    if Ended(steps, g, fate) && !Ends(steps[0], g, fate) {
      var i :| 0 <= i < |steps| && Ends(steps[i], g, fate);
      assert Ends(steps[1..][i - 1], g, fate);
    }
  }

  /** A goroutine ends as its own step says, and only then; nothing undoes it. */
  lemma {:induction false} RunEnds(s: State, steps: seq<Step>, g: nat, fate: Fate)
    requires ValidRun(s, steps) && g < |s.pcs| && fate != Skipped
    ensures g < |Run(s, steps).pcs| == |s.pcs|
    ensures Run(s, steps).pcs[g] == Finished(fate) <==> s.pcs[g] == Finished(fate) || Ended(steps, g, fate)
    decreases |steps|
  {
    if steps != [] {
      EndedFirst(steps, g, fate);
      hide Ended;
      RunEnds(Next(s, steps[0]), steps[1..], g, fate);
    }
  }

  /** A part is in the list with exactly the etag that its upload gave. */
  lemma {:induction false} RunCollects(s: State, steps: seq<Step>, p: Part)
    requires ValidRun(s, steps)
    ensures p in Run(s, steps).completed <==>
              p in s.completed || (p.number >= 1 && Upload(p.number - 1, p.etag) in steps)
    decreases |steps|
  {
    if steps != [] {
      RunCollects(Next(s, steps[0]), steps[1..], p);
    }
  }

  ghost predicate Any(s: State, fate: Fate) {
    exists g :: 0 <= g < |s.pcs| && s.pcs[g] == Finished(fate)
  }

  /** The token tells of a failure, and every failure is told of until a goroutine is skipped. */
  ghost predicate Tells(s: State) {
    && (s.token ==> Any(s, Failed))
    && (Any(s, Skipped) ==> Any(s, Failed))
    && (Any(s, Failed) && !Any(s, Skipped) ==> s.token)
  }

  lemma StepTells(s: State, step: Step)
    requires Tells(s) && Enabled(s, step)
    ensures Tells(Next(s, step))
  {
    var s' := Next(s, step);
    forall fate | Any(s, fate)
      ensures Any(s', fate)
    {
      var g :| 0 <= g < |s.pcs| && s.pcs[g] == Finished(fate);
      assert s'.pcs[g] == Finished(fate);
    }
    if step.Break? {
      assert s'.pcs[step.g] == Finished(Failed);
    }
    if step.CheckAbort? && s.token {
      assert s'.pcs[step.g] == Finished(Skipped);
    }
  }

  lemma {:induction false} RunTells(s: State, steps: seq<Step>)
    requires Tells(s) && ValidRun(s, steps)
    ensures Tells(Run(s, steps))
    decreases |steps|
  {
    hide Tells, Next, Enabled;
    if steps != [] {
      StepTells(s, steps[0]);
      RunTells(Next(s, steps[0]), steps[1..]);
    }
  }

  /** Whatever the interleaving: the collected parts are different parts of the upload, each with the etag
      that its upload gave, never more goroutines upload than there are slots, and the list is full exactly
      when every part was uploaded, even if a goroutine that started late swallowed the error token. */
  lemma CollectedParts(n: nat, capacity: nat, steps: seq<Step>)
    requires ValidRun(Start(n, capacity), steps)
    ensures var s := Run(Start(n, capacity), steps);
            && |s.pcs| == n && Sound(s.completed, n) && Busy(s.pcs) <= capacity
            && (forall p :: p in s.completed <==> p.number >= 1 && Upload(p.number - 1, p.etag) in steps)
            && (|s.completed| == n <==> AllUploaded(steps, n))
  {
    StartSound(n, capacity);
    var start := Start(n, capacity);
    RunKeeps(start, steps);
    SuccessesBounded(Run(start, steps).pcs);
    forall p
      ensures p in Run(start, steps).completed <==> p.number >= 1 && Upload(p.number - 1, p.etag) in steps
    {
      RunCollects(start, steps, p);
    }
    forall g: nat | g < n
      ensures Run(start, steps).pcs[g] == Finished(Succeeded) <==> Ended(steps, g, Succeeded)
    {
      RunEnds(start, steps, g, Succeeded);
    }
    hide Run, ValidRun, Busy, Successes, Sound, Ended;
  }

  ghost predicate AllUploaded(steps: seq<Step>, n: nat) {
    forall g: nat :: g < n ==> Ended(steps, g, Succeeded)
  }

  /** An error is left in the channel only if a part failed, and it is left if one did, unless a goroutine
      that started late found it. */
  lemma TokenTells(n: nat, capacity: nat, steps: seq<Step>)
    requires ValidRun(Start(n, capacity), steps)
    ensures var s := Run(Start(n, capacity), steps);
            var failed := exists g: nat :: g < n && Ended(steps, g, Failed);
            && (s.token ==> failed)
            && (failed && !s.token ==> Any(s, Skipped))
            && (Any(s, Skipped) ==> failed)
  {
    var start := Start(n, capacity);
    RunTells(start, steps);
    var s := Run(start, steps);
    StartSound(n, capacity);
    RunKeeps(start, steps);
    forall g: nat | g < n
      ensures s.pcs[g] == Finished(Failed) <==> Ended(steps, g, Failed)
    {
      RunEnds(start, steps, g, Failed);
    }
    hide Run, ValidRun, Ended;
    if Any(s, Failed) {
      var g :| 0 <= g < |s.pcs| && s.pcs[g] == Finished(Failed);
      var k: nat := g;
      assert Ended(steps, k, Failed);
    }
  }

  lemma RunStep(s: State, step: Step, rest: seq<Step>)
    requires Enabled(s, step) && ValidRun(Next(s, step), rest)
    ensures ValidRun(s, [step] + rest) && Run(s, [step] + rest) == Run(Next(s, step), rest)
  {
    assert ([step] + rest)[1..] == rest;
  }

  /** The token really can be swallowed: part 1 fails, part 2 takes the token and skips, and at the
      end nothing in the channel tells of the failure. */
  lemma TokenCanVanish()
    ensures var steps := [TakeSlot(0)] + ([CheckAbort(0)] + ([Break(0)] + ([TakeSlot(1)] + ([CheckAbort(1)] + []))));
            && ValidRun(Start(2, 1), steps)
            && var s := Run(Start(2, 1), steps);
               AllDone(s) && !s.token && s.pcs == [Finished(Failed), Finished(Skipped)] && s.completed == []
  {
    hide Run, ValidRun;
    var s0 := Start(2, 1);
    assert s0.pcs == [Waiting, Waiting];
    var s1 := Next(s0, TakeSlot(0));
    var s2 := Next(s1, CheckAbort(0));
    var s3 := Next(s2, Break(0));
    var s4 := Next(s3, TakeSlot(1));
    var s5 := Next(s4, CheckAbort(1));
    NoSteps(s5);
    RunStep(s4, CheckAbort(1), []);
    RunStep(s3, TakeSlot(1), [CheckAbort(1)] + []);
    RunStep(s2, Break(0), [TakeSlot(1)] + ([CheckAbort(1)] + []));
    RunStep(s1, CheckAbort(0), [Break(0)] + ([TakeSlot(1)] + ([CheckAbort(1)] + [])));
    RunStep(s0, TakeSlot(0), [CheckAbort(0)] + ([Break(0)] + ([TakeSlot(1)] + ([CheckAbort(1)] + []))));
  }

  lemma NoSteps(s: State)
    ensures ValidRun(s, []) && Run(s, []) == s
  {
  }

  // ---------------------------------------------------------------- recovery

  /** One entry of a ListParts reply; either field may be absent. */
  datatype Listed = Listed(number: Option<int>, etag: Option<string>)

  predicate Usable(l: Listed) {
    l.number.Some? && l.etag.Some? && l.etag.value != ""
  }

  /** The reply names part `number`, with an etag. */
  ghost predicate Lists(reply: seq<Listed>, number: int) {
    exists i :: 0 <= i < |reply| && reply[i].number == Some(number) && reply[i].etag !in {None, Some("")}
  }

  ghost predicate ListsAll(reply: seq<Listed>, expected: int) {
    forall number :: 1 <= number <= expected ==> Lists(reply, number)
  }

  /** The etag was listed, non-empty, for this part. */
  ghost predicate FromReply(reply: seq<Listed>, p: Part) {
    Listed(Some(p.number), Some(p.etag)) in reply && p.etag != ""
  }

  lemma ListsPush(front: seq<Listed>, l: Listed, number: int)
    ensures Lists(front + [l], number) <==> Lists(front, number) || (Usable(l) && l.number.value == number)
  {
    var reply := front + [l];
    assert reply[|front|] == l;
    if Lists(front, number) {
      var k :| 0 <= k < |front| && front[k].number == Some(number) && front[k].etag !in {None, Some("")};
      assert reply[k] == front[k];
    }
  }

  /** The part map of one reply. */
  method PartMap(reply: seq<Listed>) returns (m: map<int, string>)
    ensures forall number :: number in m <==> Lists(reply, number)
    ensures forall number :: number in m ==> FromReply(reply, Part(number, m[number]))
  {
    m := map[];
    for i := 0 to |reply|
      invariant forall number :: number in m <==> Lists(reply[..i], number)
      invariant forall number :: number in m ==> FromReply(reply[..i], Part(number, m[number]))
    {
      assert reply[..i + 1] == reply[..i] + [reply[i]];
      forall number
        ensures Lists(reply[..i + 1], number) <==>
                  Lists(reply[..i], number) || (Usable(reply[i]) && reply[i].number.value == number)
      {
        ListsPush(reply[..i], reply[i], number);
      }
      if Usable(reply[i]) {
        m := m[reply[i].number.value := reply[i].etag.value];
      }
    }
    assert reply[..|reply|] == reply;
  }

  /** Some poll that worked lists every part. */
  ghost predicate AnyListsAll(polls: seq<Option<seq<Listed>>>, expected: nat) {
    exists k :: 0 <= k < |polls| && polls[k].Some? && ListsAll(polls[k].value, expected)
  }

  ghost predicate FromOneReply(polls: seq<Option<seq<Listed>>>, parts: seq<Part>) {
    exists k :: 0 <= k < |polls| && polls[k].Some? && forall p :: p in parts ==> FromReply(polls[k].value, p)
  }

  /** `waitAndCollectCompletedParts`: poll until a reply lists every part, or give up. A poll that
      failed is `None`. */
  method CollectParts(polls: seq<Option<seq<Listed>>>, expected: nat) returns (r: Option<seq<Part>>)
    ensures r.Some? ==> OneEach(r.value, expected)
    ensures r.Some? ==> FromOneReply(polls, r.value)
    ensures r.Some? <==> AnyListsAll(polls, expected)
  {
    r := None;
    var k := 0;
    while k < |polls| && r.None?
      invariant k <= |polls|
      invariant r.None? ==> forall j :: 0 <= j < k ==> !(polls[j].Some? && ListsAll(polls[j].value, expected))
      invariant r.Some? ==> 0 < k && polls[k - 1].Some? && ListsAll(polls[k - 1].value, expected)
      invariant r.Some? ==> OneEach(r.value, expected) && forall p :: p in r.value ==> FromReply(polls[k - 1].value, p)
    {
      if polls[k].Some? {
        r := FromPoll(polls[k].value, expected);
      }
      k := k + 1;
    }
  }

  method FromPoll(reply: seq<Listed>, expected: nat) returns (r: Option<seq<Part>>)
    ensures r.Some? <==> ListsAll(reply, expected)
    ensures r.Some? ==> OneEach(r.value, expected) && forall p :: p in r.value ==> FromReply(reply, p)
  {
    var m := PartMap(reply);
    if |m| < expected {
      TooFew(m, reply, expected);
      return None;
    }
    var result: seq<Part> := [];
    for i := 1 to expected + 1
      invariant |result| == i - 1 && forall x :: 0 <= x < i - 1 ==> result[x].number == x + 1
      invariant forall p :: p in result ==> FromReply(reply, p)
      invariant forall number :: 1 <= number < i ==> Lists(reply, number)
    {
      if i !in m {
        return None;
      }
      result := result + [Part(i, m[i])];
    }
    return Some(result);
  }

  ghost function Numbers(n: nat): set<int> {
    if n == 0 then {} else Numbers(n - 1) + {n}
  }

  lemma {:induction false} NumbersShape(n: nat)
    ensures |Numbers(n)| == n && forall x :: x in Numbers(n) <==> 1 <= x <= n
  {
    if n > 0 {
      NumbersShape(n - 1);
    }
  }

  lemma SubsetSize(a: set<int>, b: set<int>)
    requires a <= b
    ensures |a| <= |b|
  {
    var rest := b - a;
    assert a + rest == b && a * rest == {};
    assert |a + rest| == |a| + |rest|;
  }

  /** A map that lacks entries for some of the expected parts comes from a reply that lacks some. */
  lemma TooFew(m: map<int, string>, reply: seq<Listed>, expected: nat)
    requires forall number :: number in m <==> Lists(reply, number)
    ensures ListsAll(reply, expected) ==> |m| >= expected
  {
    NumbersShape(expected);
    if ListsAll(reply, expected) {
      forall x | x in Numbers(expected) ensures x in m.Keys {
        assert Lists(reply, x);
      }
      SubsetSize(Numbers(expected), m.Keys);
      assert |m.Keys| == |m|;
    }
  }

  // ---------------------------------------------------------------- after the wait

  datatype Call = Abort | Complete(parts: seq<Part>)

  /** Every created upload is dealt with, and completion only ever carries parts 1..n in order. */
  ghost predicate WellEnded(calls: seq<Call>, n: int, ok: bool) {
    if |calls| == 1 then
      (calls[0].Abort? && !ok) || (calls[0].Complete? && OneEach(calls[0].parts, n) && ok)
    else |calls| == 2 && calls[0].Complete? && OneEach(calls[0].parts, n) && calls[1].Abort? && !ok
  }

  /** What `transferFile` does once all goroutines have returned. `recovered` is what the recovery
      would collect, `completeOk` whether the store accepts the completion. */
  method Conclude(size: int, chunkSize: int, token: bool, completed: seq<Part>,
                  recovered: Option<seq<Part>>, completeOk: bool) returns (calls: seq<Call>, ok: bool)
    requires 1 <= chunkSize < size && Sound(completed, NumParts(size, chunkSize))
    requires recovered.Some? ==> OneEach(recovered.value, NumParts(size, chunkSize))
    ensures WellEnded(calls, NumParts(size, chunkSize), ok)
    ensures calls[0].Complete? <==> !token && (|completed| == NumParts(size, chunkSize) || recovered.Some?)
    ensures calls[0].Complete? ==>
              if |completed| == NumParts(size, chunkSize) then multiset(calls[0].parts) == multiset(completed)
              else calls[0].parts == recovered.value
    ensures calls[0].Complete? ==> (ok <==> completeOk)
  {
    if token {
      return [Abort], false;
    }
    var numParts := CeilParts(size, chunkSize);
    CeilIsNumParts(size, chunkSize);
    var parts := completed;
    if |parts| != numParts && recovered.Some? {
      parts := recovered.value;
    }
    if |parts| != numParts {
      return [Abort], false;
    }
    OneEachIsSound(parts, numParts);
    var a := new Part[|parts|](i requires 0 <= i < |parts| => parts[i]);
    assert a[..] == parts;
    SortParts(a);
    SoundPermuted(parts, a[..], numParts);
    assert |multiset(a[..])| == a.Length;
    FullListIsOneEach(a[..], numParts);
    if |completed| != numParts {
      SameOneEach(a[..], parts, numParts);
    }
    var inOrder := VerifyOrder(a[..]);
    if !inOrder {
      return [], false;
    }
    var total := TotalSize(a[..], size, chunkSize);
    if total != size {
      return [], false;
    }
    calls := [Complete(a[..])];
    if !completeOk {
      return calls + [Abort], false;
    }
    return calls, true;
  }

  /** The whole upload after its goroutines have returned, for every interleaving `steps` of them, every
      sequence of polls and every answer of the store: completion carries exactly parts 1..n in order, each
      with the etag that its upload or one reply of the store gave it, and is asked for if and only if
      no error is left in the channel and either every part was uploaded or some reply lists them all. An
      error is left only if a part failed, and always if one did and no goroutine found the error first. */
  method EndUpload(size: int, chunkSize: int, token: bool, completed: seq<Part>, polls: seq<Option<seq<Listed>>>,
                   completeOk: bool, ghost capacity: nat, ghost steps: seq<Step>) returns (calls: seq<Call>, ok: bool)
    requires 1 <= chunkSize < size
    requires var start := Start(PartCount(size, chunkSize), capacity);
             ValidRun(start, steps) && AllDone(Run(start, steps))
             && token == Run(start, steps).token && completed == Run(start, steps).completed
    ensures WellEnded(calls, PartCount(size, chunkSize), ok)
    ensures var n := PartCount(size, chunkSize);
            var failed := exists g: nat :: g < n && Ended(steps, g, Failed);
            && (calls[0].Complete? <==> !token && (AllUploaded(steps, n) || AnyListsAll(polls, n)))
            && (token ==> failed)
            && (failed && !token ==> Any(Run(Start(n, capacity), steps), Skipped))
    ensures calls[0].Complete? ==>
              if AllUploaded(steps, PartCount(size, chunkSize))
              then forall p :: p in calls[0].parts ==> p.number >= 1 && Upload(p.number - 1, p.etag) in steps
              else FromOneReply(polls, calls[0].parts)
    ensures calls[0].Complete? ==> (ok <==> completeOk)
  {
    ghost var n := PartCount(size, chunkSize);
    CollectedParts(n, capacity, steps);
    TokenTells(n, capacity, steps);
    var recovered := None;
    if !token && |completed| != PartCount(size, chunkSize) {
      recovered := CollectParts(polls, PartCount(size, chunkSize));
    }
    hide Run, ValidRun, Start, NumParts, AllUploaded, Ended, Any;
    calls, ok := Conclude(size, chunkSize, token, completed, recovered, completeOk);
    if calls[0].Complete? && |completed| == n {
      forall p | p in calls[0].parts
        ensures p.number >= 1 && Upload(p.number - 1, p.etag) in steps
      {
        assert p in multiset(calls[0].parts);
      }
    }
  }

  function PartCount(size: int, chunkSize: int): nat
    requires 1 <= chunkSize < size
  {
    NumParts(size, chunkSize)
  }

  lemma OneEachIsSound(parts: seq<Part>, n: int)
    ensures OneEach(parts, n) ==> Sound(parts, n)
  {
  }

  /** Sorting a list that is in order changes nothing. */
  lemma SameOneEach(a: seq<Part>, b: seq<Part>, n: int)
    requires OneEach(a, n) && multiset(a) == multiset(b) && OneEach(b, n)
    ensures a == b
  {
    forall i | 0 <= i < n ensures a[i] == b[i] {
      assert a[i] in multiset(b);
      var j :| 0 <= j < n && b[j] == a[i];
    }
  }

  /** The check that part `i` is at index `i - 1`. */
  method VerifyOrder(parts: seq<Part>) returns (inOrder: bool)
    ensures inOrder <==> OneEach(parts, |parts|)
  {
    for i := 0 to |parts|
      invariant forall k :: 0 <= k < i ==> parts[k].number == k + 1
    {
      if parts[i].number != i + 1 {
        return false;
      }
    }
    return true;
  }

  /** The check of the summed part sizes: parts 1..n always add up to the object. */
  method TotalSize(parts: seq<Part>, size: int, chunkSize: int) returns (total: int)
    requires size >= 1 && chunkSize >= 1 && OneEach(parts, NumParts(size, chunkSize))
    ensures total == size
  {
    hide NumParts;
    var numParts := NumParts(size, chunkSize);
    NumPartsCovers(size, chunkSize);
    total := 0;
    for i := 0 to |parts|
      invariant total == if i == numParts then size else i * chunkSize
    {
      var partIdx := parts[i].number - 1;
      if partIdx < numParts {
        var partStart := partIdx * chunkSize;
        var partEnd := partStart + chunkSize - 1;
        if partEnd >= size {
          partEnd := size - 1;
        }
        PartRangeShape(size, chunkSize, i);
        assert (i + 1) * chunkSize == i * chunkSize + chunkSize;
        total := total + (partEnd - partStart + 1);
      }
    }
  }
}
