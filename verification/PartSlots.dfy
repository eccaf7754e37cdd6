/** Part slots of the transfer worker, instruction by instruction: goroutines acquire and release
    slots while the controller changes the limit. */
module PartSlots {

  /** Where a goroutine is in `acquirePartSlot` and `releasePartSlot`. `file` is its file's semaphore,
      `limit` the limit it loaded, `active` what its increment returned. */
  datatype Pc =
    | Idle
    | Loaded(file: nat, limit: int)
    | Added(file: nat, limit: int, active: int)
    | Trying(file: nat)
    | Undoing(file: nat)
    | Holding(file: nat)
    | Releasing(file: nat)

  /** `active` is `activePartSlotCount`, `limit` is `effectivePartConcurrency`, `tokens[f]` is how
      full the semaphore of file `f` is. */
  datatype State = State(pcs: seq<Pc>, active: int, limit: int, tokens: seq<nat>, partConcurrency: nat)

  datatype Step =
    | LoadLimit(g: nat, file: nat)
    | Increment(g: nat)
    | Compare(g: nat)
    | TrySemaphore(g: nat)
    | Undo(g: nat)
    | Drain(g: nat)
    | Decrement(g: nat)
    | SetLimit(limit: int)

  predicate Enabled(s: State, step: Step) {
    match step
    case LoadLimit(g, file) => g < |s.pcs| && s.pcs[g].Idle? && file < |s.tokens|
    case Increment(g) => g < |s.pcs| && s.pcs[g].Loaded?
    case Compare(g) => g < |s.pcs| && s.pcs[g].Added?
    case TrySemaphore(g) => g < |s.pcs| && s.pcs[g].Trying? && s.pcs[g].file < |s.tokens|
    case Undo(g) => g < |s.pcs| && s.pcs[g].Undoing?
    case Drain(g) =>
      g < |s.pcs| && s.pcs[g].Holding? && s.pcs[g].file < |s.tokens| && s.tokens[s.pcs[g].file] > 0
    case Decrement(g) => g < |s.pcs| && s.pcs[g].Releasing?
    case SetLimit(limit) => 1 <= limit <= s.partConcurrency
  }

  function Next(s: State, step: Step): State
    requires Enabled(s, step)
  {
    match step
    case LoadLimit(g, file) =>
      if s.limit <= 0 then s else s.(pcs := s.pcs[g := Loaded(file, s.limit)])
    case Increment(g) =>
      s.(active := s.active + 1, pcs := s.pcs[g := Added(s.pcs[g].file, s.pcs[g].limit, s.active + 1)])
    case Compare(g) =>
      var pc := s.pcs[g];
      s.(pcs := s.pcs[g := if pc.active > pc.limit then Undoing(pc.file) else Trying(pc.file)])
    case TrySemaphore(g) =>
      var f := s.pcs[g].file;
      if s.tokens[f] < s.partConcurrency
      then s.(pcs := s.pcs[g := Holding(f)], tokens := s.tokens[f := s.tokens[f] + 1])
      else s.(pcs := s.pcs[g := Undoing(f)])
    case Undo(g) => s.(active := s.active - 1, pcs := s.pcs[g := Idle])
    case Drain(g) =>
      var f := s.pcs[g].file;
      s.(pcs := s.pcs[g := Releasing(f)], tokens := s.tokens[f := s.tokens[f] - 1])
    case Decrement(g) => s.(active := s.active - 1, pcs := s.pcs[g := Idle])
    case SetLimit(limit) => s.(limit := limit)
  }

  function Start(goroutines: nat, files: nat, partConcurrency: nat): State {
    State(seq(goroutines, _ => Idle), 0, partConcurrency, seq(files, _ => 0), partConcurrency)
  }

  predicate ValidRun(s: State, steps: seq<Step>)
    decreases |steps|
  {
    steps == [] || (Enabled(s, steps[0]) && ValidRun(Next(s, steps[0]), steps[1..]))
  }

  function Run(s: State, steps: seq<Step>): State
    requires ValidRun(s, steps)
    decreases |steps|
  {
    if steps == [] then s else Run(Next(s, steps[0]), steps[1..])
  }

  // ---------------------------------------------------------------- counting goroutines

  predicate MidAcquire(pc: Pc) {
    pc.Added? || pc.Trying? || pc.Undoing?
  }

  predicate MidRelease(pc: Pc) {
    pc.Releasing?
  }

  predicate Holds(pc: Pc) {
    pc.Holding?
  }

  predicate OnTheBooks(pc: Pc) {
    MidAcquire(pc) || MidRelease(pc) || Holds(pc)
  }

  /** Holding a slot, or certain to pass the comparison. */
  predicate Admitted(pc: Pc) {
    pc.Holding? || pc.Trying? || (pc.Added? && pc.active <= pc.limit)
  }

  function HoldsOf(file: nat): Pc -> bool {
    (pc: Pc) => pc == Holding(file)
  }

  function Count(pcs: seq<Pc>, p: Pc -> bool): nat {
    if pcs == [] then 0 else Count(pcs[..|pcs| - 1], p) + if p(pcs[|pcs| - 1]) then 1 else 0
  }

  function Sum(tokens: seq<nat>): nat {
    if tokens == [] then 0 else Sum(tokens[..|tokens| - 1]) + tokens[|tokens| - 1]
  }

  lemma {:induction false} CountMove(pcs: seq<Pc>, p: Pc -> bool, g: nat, pc: Pc)
    requires g < |pcs|
    ensures Count(pcs[g := pc], p) == Count(pcs, p) - (if p(pcs[g]) then 1 else 0) + (if p(pc) then 1 else 0)
  {
    var k := |pcs| - 1;
    if g < k {
      CountMove(pcs[..k], p, g, pc);
      assert pcs[g := pc][..k] == pcs[..k][g := pc];
    } else {
      assert pcs[g := pc][..k] == pcs[..k];
    }
  }

  lemma {:induction false} SumMove(tokens: seq<nat>, f: nat, n: nat)
    requires f < |tokens|
    ensures Sum(tokens[f := n]) == Sum(tokens) - tokens[f] + n
  {
    var k := |tokens| - 1;
    if f < k {
      SumMove(tokens[..k], f, n);
      assert tokens[f := n][..k] == tokens[..k][f := n];
    } else {
      assert tokens[f := n][..k] == tokens[..k];
    }
  }

  lemma {:induction false} CountImplies(pcs: seq<Pc>, p: Pc -> bool, q: Pc -> bool)
    requires forall pc :: p(pc) ==> q(pc)
    ensures Count(pcs, p) <= Count(pcs, q)
  {
    if pcs != [] {
      CountImplies(pcs[..|pcs| - 1], p, q);
    }
  }

  lemma {:induction false} CountSome(pcs: seq<Pc>, p: Pc -> bool, g: nat)
    requires g < |pcs| && p(pcs[g])
    ensures Count(pcs, p) > 0
  {
    if g < |pcs| - 1 {
      CountSome(pcs[..|pcs| - 1], p, g);
    }
  }

  lemma {:induction false} CountSplits(pcs: seq<Pc>)
    ensures Count(pcs, OnTheBooks) == Count(pcs, MidAcquire) + Count(pcs, MidRelease) + Count(pcs, Holds)
  {
    if pcs != [] {
      CountSplits(pcs[..|pcs| - 1]);
    }
  }

  lemma {:induction false} CountNone(n: nat, p: Pc -> bool)
    requires !p(Idle)
    ensures Count(seq(n, _ => Idle), p) == 0
  {
    if n > 0 {
      CountNone(n - 1, p);
      assert seq(n, _ => Idle)[..n - 1] == seq(n - 1, _ => Idle);
    }
  }

  // ---------------------------------------------------------------- the invariant

  ghost predicate LimitsOk(s: State) {
    && s.limit <= s.partConcurrency
    && forall g :: 0 <= g < |s.pcs| ==> ((s.pcs[g].Loaded? || s.pcs[g].Added?) ==> s.pcs[g].limit <= s.partConcurrency)
  }

  ghost predicate SemaphoresOk(pcs: seq<Pc>, tokens: seq<nat>, capacity: nat) {
    && (forall f :: 0 <= f < |tokens| ==> tokens[f] == Count(pcs, HoldsOf(f)) <= capacity)
    && Sum(tokens) == Count(pcs, Holds)
    && forall g :: 0 <= g < |pcs| && !pcs[g].Idle? ==> pcs[g].file < |tokens|
  }

  /** The counter is the number of goroutines on the books, and the admitted ones fit the configured
      concurrency whatever limit the controller has set since. */
  ghost predicate Inv(s: State) {
    && LimitsOk(s) && SemaphoresOk(s.pcs, s.tokens, s.partConcurrency)
    && s.active == Count(s.pcs, OnTheBooks)
    && Count(s.pcs, Admitted) <= s.partConcurrency
  }

  lemma SemaphoresMove(s: State, g: nat, pc: Pc, tokens: seq<nat>)
    requires SemaphoresOk(s.pcs, s.tokens, s.partConcurrency) && g < |s.pcs| && |tokens| == |s.tokens|
    requires !pc.Idle? ==> pc.file < |tokens|
    requires s.pcs[g].Holding? ==> !pc.Holding? && s.tokens[s.pcs[g].file] > 0
                                   && tokens == s.tokens[s.pcs[g].file := s.tokens[s.pcs[g].file] - 1]
    requires pc.Holding? ==>
               s.tokens[pc.file] < s.partConcurrency && tokens == s.tokens[pc.file := s.tokens[pc.file] + 1]
    requires !s.pcs[g].Holding? && !pc.Holding? ==> tokens == s.tokens
    ensures SemaphoresOk(s.pcs[g := pc], tokens, s.partConcurrency)
  {
    hide Count, Sum;
    CountMove(s.pcs, Holds, g, pc);
    forall f | 0 <= f < |tokens|
      ensures tokens[f] == Count(s.pcs[g := pc], HoldsOf(f)) <= s.partConcurrency
    {
      CountMove(s.pcs, HoldsOf(f), g, pc);
    }
    if s.pcs[g].Holding? {
      SumMove(s.tokens, s.pcs[g].file, s.tokens[s.pcs[g].file] - 1);
    } else if pc.Holding? {
      SumMove(s.tokens, pc.file, s.tokens[pc.file] + 1);
    }
  }

  lemma StepKeeps(s: State, step: Step)
    requires Inv(s) && Enabled(s, step)
    ensures Inv(Next(s, step)) && Next(s, step).partConcurrency == s.partConcurrency
  {
    hide Count, Sum, SemaphoresOk;
    var s' := Next(s, step);
    if !step.SetLimit? {
      var pc := s'.pcs[step.g];
      CountMove(s.pcs, OnTheBooks, step.g, pc);
      CountMove(s.pcs, Admitted, step.g, pc);
      assert s'.pcs == s.pcs[step.g := pc];
      FileKnown(s, step.g);
      SemaphoresMove(s, step.g, pc, s'.tokens);
      // An increment admits its goroutine only if everybody admitted fits the limit it loaded.
      CountImplies(s'.pcs, Admitted, OnTheBooks);
    }
  }

  lemma FileKnown(s: State, g: nat)
    requires SemaphoresOk(s.pcs, s.tokens, s.partConcurrency) && g < |s.pcs|
    ensures !s.pcs[g].Idle? ==> s.pcs[g].file < |s.tokens|
  {
  }

  lemma {:induction false} RunKeeps(s: State, steps: seq<Step>)
    requires Inv(s) && ValidRun(s, steps)
    ensures Inv(Run(s, steps)) && Run(s, steps).partConcurrency == s.partConcurrency
    decreases |steps|
  {
    hide Inv, Next, Enabled;
    if steps != [] {
      StepKeeps(s, steps[0]);
      RunKeeps(Next(s, steps[0]), steps[1..]);
    }
  }

  lemma {:induction false} NoTokens(files: nat)
    ensures Sum(seq(files, _ => 0)) == 0
  {
    if files > 0 {
      NoTokens(files - 1);
      assert seq(files, _ => 0)[..files - 1] == seq(files - 1, _ => 0);
    }
  }

  lemma StartSound(goroutines: nat, files: nat, partConcurrency: nat)
    ensures Inv(Start(goroutines, files, partConcurrency))
  {
    var s := Start(goroutines, files, partConcurrency);
    CountNone(goroutines, OnTheBooks);
    CountNone(goroutines, Admitted);
    CountNone(goroutines, Holds);
    NoTokens(files);
    forall f | 0 <= f < files ensures Count(s.pcs, HoldsOf(f)) == 0 {
      CountNone(goroutines, HoldsOf(f));
    }
  }

  /** In every interleaving with each other and with the controller: the counter equals the tokens in
      all semaphores plus the goroutines in the middle of an acquire or a release, each semaphore
      holds one token per holder of its file, and the holders never exceed the configured concurrency. */
  lemma SlotsAccounted(goroutines: nat, files: nat, partConcurrency: nat, steps: seq<Step>)
    requires ValidRun(Start(goroutines, files, partConcurrency), steps)
    ensures var s := Run(Start(goroutines, files, partConcurrency), steps);
            && s.active == Sum(s.tokens) + Count(s.pcs, MidAcquire) + Count(s.pcs, MidRelease)
            && (forall f :: 0 <= f < |s.tokens| ==> s.tokens[f] == Count(s.pcs, HoldsOf(f)))
            && Sum(s.tokens) == Count(s.pcs, Holds) <= partConcurrency
            && forall g :: 0 <= g < |s.pcs| && s.pcs[g].Holding? ==> Enabled(s, Drain(g))
  {
    StartSound(goroutines, files, partConcurrency);
    RunKeeps(Start(goroutines, files, partConcurrency), steps);
    var s := Run(Start(goroutines, files, partConcurrency), steps);
    CountSplits(s.pcs);
    CountImplies(s.pcs, Holds, Admitted);
    forall g | 0 <= g < |s.pcs| && s.pcs[g].Holding? ensures Enabled(s, Drain(g)) {
      CountSome(s.pcs, HoldsOf(s.pcs[g].file), g);
    }
  }

  // ---------------------------------------------------------------- one goroutine on its own

  lemma RunStep(s: State, step: Step, rest: seq<Step>)
    requires Enabled(s, step) && ValidRun(Next(s, step), rest)
    ensures ValidRun(s, [step] + rest) && Run(s, [step] + rest) == Run(Next(s, step), rest)
  {
    assert ([step] + rest)[1..] == rest;
  }

  lemma RunThree(s: State, a: Step, b: Step, c: Step, rest: seq<Step>)
    requires Enabled(s, a) && Enabled(Next(s, a), b) && Enabled(Next(Next(s, a), b), c)
    requires ValidRun(Next(Next(Next(s, a), b), c), rest)
    ensures ValidRun(s, [a, b, c] + rest) && Run(s, [a, b, c] + rest) == Run(Next(Next(Next(s, a), b), c), rest)
  {
    hide Next, Enabled;
    RunStep(Next(Next(s, a), b), c, rest);
    RunStep(Next(s, a), b, [c] + rest);
    RunStep(s, a, [b] + ([c] + rest));
    assert [a] + ([b] + ([c] + rest)) == [a, b, c] + rest;
  }

  /** The rest of an acquire once the limit is loaded and the counter raised. */
  function Outcome(admitted: bool, room: bool, g: nat): seq<Step> {
    if !admitted then [Compare(g), Undo(g)]
    else if room then [Compare(g), TrySemaphore(g)]
    else [Compare(g), TrySemaphore(g), Undo(g)]
  }

  /** An acquire that nobody disturbs gets a slot if and only if the limit that the controller set last is not
      reached and the file's semaphore has room, and takes exactly one of each; otherwise it leaves no trace. */
  lemma AcquireAlone(s: State, g: nat, file: nat, limit: int)
    requires g < |s.pcs| && s.pcs[g].Idle? && file < |s.tokens| && 1 <= limit <= s.partConcurrency
    ensures var room := s.tokens[file] < s.partConcurrency;
            var steps := [SetLimit(limit), LoadLimit(g, file), Increment(g)] + Outcome(s.active < limit, room, g);
            && ValidRun(s, steps)
            && Run(s, steps) ==
                 if s.active < limit && room
                 then State(s.pcs[g := Holding(file)], s.active + 1, limit,
                            s.tokens[file := s.tokens[file] + 1], s.partConcurrency)
                 else s.(limit := limit)
  {
    var admitted, room := s.active < limit, s.tokens[file] < s.partConcurrency;
    var one := Next(s, SetLimit(limit));
    var two := Next(one, LoadLimit(g, file));
    var three := Next(two, Increment(g));
    assert three == s.(pcs := s.pcs[g := Added(file, limit, s.active + 1)], active := s.active + 1, limit := limit);
    OutcomeAlone(s.(limit := limit), three, g, file);
    RunThree(s, SetLimit(limit), LoadLimit(g, file), Increment(g), Outcome(admitted, room, g));
  }

  lemma OutcomeAlone(s: State, added: State, g: nat, file: nat)
    requires g < |s.pcs| && s.pcs[g].Idle? && file < |s.tokens|
    requires added == s.(pcs := s.pcs[g := Added(file, s.limit, s.active + 1)], active := s.active + 1)
    ensures var room := s.tokens[file] < s.partConcurrency;
            var steps := Outcome(s.active < s.limit, room, g);
            && ValidRun(added, steps)
            && Run(added, steps) ==
                 if s.active < s.limit && room
                 then s.(pcs := s.pcs[g := Holding(file)], active := s.active + 1,
                         tokens := s.tokens[file := s.tokens[file] + 1])
                 else s
  {
    var compared := Next(added, Compare(g));
    assert s.pcs[g := Idle] == s.pcs;
    if s.active >= s.limit {
      RunStep(compared, Undo(g), []);
      RunStep(added, Compare(g), [Undo(g)] + []);
    } else {
      var tried := Next(compared, TrySemaphore(g));
      if s.tokens[file] < s.partConcurrency {
        RunStep(compared, TrySemaphore(g), []);
        RunStep(added, Compare(g), [TrySemaphore(g)] + []);
      } else {
        RunStep(tried, Undo(g), []);
        RunStep(compared, TrySemaphore(g), [Undo(g)] + []);
        RunStep(added, Compare(g), [TrySemaphore(g)] + ([Undo(g)] + []));
        assert [Compare(g)] + ([TrySemaphore(g)] + ([Undo(g)] + [])) == Outcome(true, false, g);
      }
    }
  }

  /** A release gives back exactly one token and one count. */
  lemma ReleaseAlone(s: State, g: nat)
    requires Inv(s) && g < |s.pcs| && s.pcs[g].Holding?
    ensures var steps, f := [Drain(g), Decrement(g)], s.pcs[g].file;
            && ValidRun(s, steps) && f < |s.tokens| && s.tokens[f] > 0
            && Run(s, steps) == State(s.pcs[g := Idle], s.active - 1, s.limit, s.tokens[f := s.tokens[f] - 1],
                                      s.partConcurrency)
  {
    CountSome(s.pcs, HoldsOf(s.pcs[g].file), g);
    var drained := Next(s, Drain(g));
    RunStep(drained, Decrement(g), []);
    RunStep(s, Drain(g), [Decrement(g)] + []);
  }
}
