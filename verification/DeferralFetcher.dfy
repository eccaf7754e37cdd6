/** The downloader's fetcher: large tasks may be put back when it is their turn, but not for ever. */
module DeferralFetcher {
  /** A task and the number of parts of its larger file. */
  datatype Task = Task(id: int, multiple: nat)

  datatype State = State(pending: seq<Task>, counts: map<int, nat>, channel: seq<Task>)

  function Count(counts: map<int, nat>, id: int): nat {
    if id in counts then counts[id] else 0
  }

  /** The scheduling switches; a limit of zero means no limit. */
  datatype Config = Config(schedEnabled: bool, maxDefers: nat, minProb: real)

  /** The probability with which a task of several parts is sent. */
  function Probability(t: Task, c: Config): real
    requires t.multiple > 0
  {
    var p := 1.0 / ((t.multiple as real) * (t.multiple as real));
    if p < c.minProb then c.minProb else p
  }

  /** `draw` is the random number, at least zero and below one. */
  predicate ShouldEnqueue(t: Task, count: nat, c: Config, draw: real) {
    !c.schedEnabled || t.multiple <= 1 || (c.maxDefers > 0 && count >= c.maxDefers) || draw < Probability(t, c)
  }

  ghost predicate Random(draws: nat -> real) {
    forall i :: 0.0 <= draws(i) < 1.0
  }

  lemma ProbabilityBelowOne(t: Task, c: Config)
    requires t.multiple > 1
    ensures Probability(t, c) < 1.0 <==> c.minProb < 1.0
  {
    var m := t.multiple as real;
    assert m * m > 1.0;
    Inverse(m * m);
  }

  lemma Inverse(x: real)
    requires x > 1.0
    ensures 0.0 < 1.0 / x < 1.0
  {
  }

  ghost predicate DistinctIds(tasks: seq<Task>) {
    forall i, j :: 0 <= i < j < |tasks| ==> tasks[i].id != tasks[j].id
  }

  /** A task that a draw can put back. */
  ghost predicate Deferrable(t: Task, c: Config) {
    c.schedEnabled && t.multiple > 1 && c.minProb < 1.0
  }

  /** What one pass over the pending tasks does when the channel has `capacity` places. */
  ghost predicate Passed(s: State, s': State, capacity: nat, c: Config) {
    && s.channel <= s'.channel
    && multiset(s'.channel[|s.channel|..]) + multiset(s'.pending) == multiset(s.pending)
    && DistinctIds(s'.pending)
    && (|s'.channel| <= capacity || s'.channel == s.channel)
    && (|s'.channel| < capacity ==> forall t :: t in s'.pending ==> Count(s'.counts, t.id) >= Count(s.counts, t.id) + 1)
    && forall t :: t in s'.pending && Count(s'.counts, t.id) > Count(s.counts, t.id) ==>
         Deferrable(t, c) && (c.maxDefers > 0 ==> Count(s'.counts, t.id) <= c.maxDefers)
  }

  lemma DistinctDrop(tasks: seq<Task>)
    requires DistinctIds(tasks) && tasks != []
    ensures DistinctIds(tasks[1..]) && DistinctIds(tasks[1..] + [tasks[0]])
    ensures forall k :: 0 <= k < |tasks| - 1 ==> tasks[1..][k].id != tasks[0].id
  {
  }

  /** Nothing is lost or sent twice. */
  ghost predicate Conserved(s: State, now: State) {
    && s.channel <= now.channel
    && multiset(now.channel[|s.channel|..]) + multiset(now.pending) == multiset(s.pending)
  }

  /** Pending task `k` has not had its turn yet, or has been put back at least once. */
  ghost predicate TurnAt(s: State, now: State, left: nat, c: Config, k: nat) {
    k < |now.pending| ==>
      var t := now.pending[k];
      var count, before := Count(now.counts, t.id), Count(s.counts, t.id);
      if k < left then count == before
      else count >= before + 1 && Deferrable(t, c) && (c.maxDefers > 0 ==> count <= c.maxDefers)
  }

  /** Where the pass stands: the first `left` pending tasks have not had their turn yet. */
  ghost predicate Standing(s: State, now: State, left: nat, c: Config) {
    && left <= |now.pending| && DistinctIds(now.pending) && Conserved(s, now)
    && forall k: nat :: TurnAt(s, now, left, c, k)
  }

  function Accept(now: State): State
    requires now.pending != []
  {
    State(now.pending[1..], now.counts - {now.pending[0].id}, now.channel + [now.pending[0]])
  }

  function PutBack(now: State): State
    requires now.pending != []
  {
    var t := now.pending[0];
    State(now.pending[1..] + [t], now.counts[t.id := Count(now.counts, t.id) + 1], now.channel)
  }

  function Less(left: nat): nat {
    if left == 0 then 0 else left - 1
  }

  lemma AcceptStands(s: State, now: State, left: nat, c: Config)
    requires Standing(s, now, left, c) && now.pending != []
    ensures Standing(s, Accept(now), Less(left), c)
  {
    DistinctDrop(now.pending);
    AcceptConserves(s, now);
    hide Conserved, DistinctIds;
    forall k: nat
      ensures TurnAt(s, Accept(now), Less(left), c, k)
    {
      assert TurnAt(s, now, left, c, k + 1);
    }
  }

  lemma AcceptConserves(s: State, now: State)
    requires now.pending != [] && Conserved(s, now)
    ensures Conserved(s, Accept(now))
  {
    var t := now.pending[0];
    assert now.pending == [t] + now.pending[1..];
    assert (now.channel + [t])[|s.channel|..] == now.channel[|s.channel|..] + [t];
  }

  lemma PutBackConserves(s: State, now: State)
    requires now.pending != [] && Conserved(s, now)
    ensures Conserved(s, PutBack(now))
  {
    assert now.pending == [now.pending[0]] + now.pending[1..];
  }

  lemma PutBackStands(s: State, now: State, left: nat, c: Config, draw: real)
    requires Standing(s, now, left, c) && now.pending != []
    requires !ShouldEnqueue(now.pending[0], Count(now.counts, now.pending[0].id), c, draw) && draw < 1.0
    ensures Standing(s, PutBack(now), Less(left), c)
  {
    ProbabilityBelowOne(now.pending[0], c);
    DistinctDrop(now.pending);
    PutBackConserves(s, now);
    hide Conserved, DistinctIds;
    assert TurnAt(s, now, left, c, 0);
    forall k: nat
      ensures TurnAt(s, PutBack(now), Less(left), c, k)
    {
      assert TurnAt(s, now, left, c, k + 1);
    }
  }

  /** The rest of a pass: `available` places, `turns` tasks that may still be put back, next draw `i`. */
  function Turns(now: State, available: nat, turns: nat, c: Config, draws: nat -> real, i: nat): State
    decreases turns + |now.pending|
  {
    if available == 0 || now.pending == [] || turns == 0 then now
    else
      var t := now.pending[0];
      if ShouldEnqueue(t, Count(now.counts, t.id), c, draws(i))
      then Turns(Accept(now), available - 1, turns, c, draws, i + 1)
      else Turns(PutBack(now), available, turns - 1, c, draws, i + 1)
  }

  function Room(s: State, capacity: nat): nat {
    if |s.channel| <= capacity then capacity - |s.channel| else 0
  }

  /** One pass of the fetcher: as long as there is room, each turn sends the first pending task or puts it
      at the end, with at most as many put back as there were tasks. Nothing is lost or doubled; when the
      tasks are different ones, each that stays was put back, within the limit. */
  method Pass(s: State, capacity: nat, c: Config, draws: nat -> real) returns (s': State)
    requires Random(draws)
    ensures s' == Turns(s, Room(s, capacity), |s.pending|, c, draws, 0)
    ensures Conserved(s, s') && (|s'.channel| <= capacity || s'.channel == s.channel)
    ensures DistinctIds(s.pending) ==> Passed(s, s', capacity, c)
  {
    hide Standing, Conserved, DistinctIds, Turns, Random, ShouldEnqueue;
    ghost var distinct := DistinctIds(s.pending);
    var available := Room(s, capacity);
    ghost var room: nat := available;
    s' := s;
    var rotations, maxRotations, draw := 0, |s.pending|, 0;
    ghost var left: nat := |s.pending|;
    ConservedStarts(s);
    if distinct {
      PassStarts(s, c);
    }
    while available > 0 && |s'.pending| > 0 && rotations < maxRotations
      invariant Conserved(s, s')
      invariant distinct ==> Standing(s, s', left, c)
      invariant 0 <= available && |s'.channel| + available == |s.channel| + room
      invariant rotations <= maxRotations && left <= maxRotations - rotations
      invariant left <= |s'.pending|
      invariant Turns(s, room, maxRotations, c, draws, 0)
                == Turns(s', available, maxRotations - rotations, c, draws, draw)
      decreases maxRotations - rotations + |s'.pending|
    {
      TurnOnce(s', available, maxRotations - rotations, c, draws, draw);
      var t := s'.pending[0];
      if ShouldEnqueue(t, Count(s'.counts, t.id), c, draws(draw)) {
        AcceptConserves(s, s');
        if distinct {
          AcceptStands(s, s', left, c);
        }
        s' := Accept(s');
        available := available - 1;
      } else {
        PutBackConserves(s, s');
        if distinct {
          PutBackStands(s, s', left, c, draws(draw));
        }
        s' := PutBack(s');
        rotations := rotations + 1;
      }
      left := Less(left);
      draw := draw + 1;
    }
    TurnsOver(s', available, maxRotations - rotations, c, draws, draw);
    RoomTaken(s, s', capacity);
    if distinct {
      PassEnds(s, s', left, capacity, available, c);
    }
  }

  lemma ConservedStarts(s: State)
    ensures Conserved(s, s)
  {
  }

  lemma TurnOnce(now: State, available: nat, turns: nat, c: Config, draws: nat -> real, i: nat)
    requires available > 0 && now.pending != [] && turns > 0 && Random(draws)
    ensures var t := now.pending[0];
            Turns(now, available, turns, c, draws, i) ==
            if ShouldEnqueue(t, Count(now.counts, t.id), c, draws(i))
            then Turns(Accept(now), available - 1, turns, c, draws, i + 1)
            else Turns(PutBack(now), available, turns - 1, c, draws, i + 1)
    ensures draws(i) < 1.0
  {
  }

  lemma TurnsOver(now: State, available: nat, turns: nat, c: Config, draws: nat -> real, i: nat)
    requires available == 0 || now.pending == [] || turns == 0
    ensures Turns(now, available, turns, c, draws, i) == now
  {
  }

  lemma PassStarts(s: State, c: Config)
    requires DistinctIds(s.pending)
    ensures Standing(s, s, |s.pending|, c)
  {
  }

  lemma StandingBounds(s: State, now: State, left: nat, c: Config)
    requires Standing(s, now, left, c)
    ensures left <= |now.pending|
  {
  }

  /** What was sent fits. */
  lemma RoomTaken(s: State, now: State, capacity: nat)
    requires Conserved(s, now) && |now.channel| <= |s.channel| + Room(s, capacity)
    ensures |now.channel| <= capacity || now.channel == s.channel
  {
  }

  lemma PassEnds(s: State, now: State, left: nat, capacity: nat, available: nat, c: Config)
    requires Standing(s, now, left, c) && |now.channel| + available == |s.channel| + Room(s, capacity)
    requires available == 0 || left == 0
    ensures Passed(s, now, capacity, c)
  {
    RoomTaken(s, now, capacity);
    forall t | t in now.pending
      ensures available > 0 ==> Count(now.counts, t.id) >= Count(s.counts, t.id) + 1
      ensures Count(now.counts, t.id) > Count(s.counts, t.id) ==>
                Deferrable(t, c) && (c.maxDefers > 0 ==> Count(now.counts, t.id) <= c.maxDefers)
    {
      var k :| 0 <= k < |now.pending| && now.pending[k] == t;
      assert TurnAt(s, now, left, c, k);
    }
  }

  // ---------------------------------------------------------------- how long a large task waits

  /** A pass with room to spare from `before` to `after`, for some draws. */
  ghost predicate RoomyPass(before: State, after: State, c: Config) {
    exists capacity: nat :: Passed(before, after, capacity, c) && |after.channel| < capacity
  }

  /** Between two passes workers empty the channel and new tasks arrive at the end. */
  ghost predicate Arrivals(after: State, next: State) {
    after.pending <= next.pending && next.counts == after.counts
  }

  /** Passes in a row, each with room to spare, and what arrives in between. */
  ghost predicate Passes(before: seq<State>, after: seq<State>, c: Config) {
    && |before| == |after|
    && (forall k :: 0 <= k < |after| ==> RoomyPass(before[k], after[k], c))
    && forall k: nat :: k + 1 < |before| ==> ArrivalsAt(before, after, k)
  }

  ghost predicate ArrivalsAt(before: seq<State>, after: seq<State>, k: nat) {
    k + 1 < |before| && k < |after| ==> Arrivals(after[k], before[k + 1])
  }

  /** `t` is kept back by each of the first `n` passes. */
  ghost predicate KeptBack(after: seq<State>, t: Task, n: nat) {
    n <= |after| && forall k :: 0 <= k < n ==> t in after[k].pending
  }

  /** Every pass that keeps a task back counts, whatever arrives in between. */
  lemma {:induction false} KeptBackCounts(before: seq<State>, after: seq<State>, c: Config, t: Task, n: nat)
    requires Passes(before, after, c) && KeptBack(after, t, n) && n > 0
    ensures Count(after[n - 1].counts, t.id) >= Count(before[0].counts, t.id) + n
    ensures Deferrable(t, c) && (c.maxDefers > 0 ==> Count(after[n - 1].counts, t.id) <= c.maxDefers)
  {
    hide Passed;
    var was, now := before[n - 1], after[n - 1];
    assert RoomyPass(was, now, c);
    var capacity: nat :| Passed(was, now, capacity, c) && |now.channel| < capacity;
    PassedCounts(was, now, capacity, c, t);
    if n > 1 {
      assert ArrivalsAt(before, after, n - 2);
      KeptBackCounts(before, after, c, t, n - 1);
    }
  }

  lemma PassedCounts(s: State, s': State, capacity: nat, c: Config, t: Task)
    requires Passed(s, s', capacity, c) && |s'.channel| < capacity && t in s'.pending
    ensures Count(s'.counts, t.id) >= Count(s.counts, t.id) + 1
    ensures Deferrable(t, c) && (c.maxDefers > 0 ==> Count(s'.counts, t.id) <= c.maxDefers)
  {
  }

  /** With a limit no task is kept back by more passes than that, whatever arrives in between. */
  lemma SentInTime(before: seq<State>, after: seq<State>, c: Config, t: Task, n: nat)
    requires Passes(before, after, c) && KeptBack(after, t, n) && c.maxDefers > 0
    ensures n <= c.maxDefers
  {
    if n > 0 {
      KeptBackCounts(before, after, c, t, n);
    }
  }

  /** With a limit, and nothing new, the passes after that many, one more, leave nothing pending. */
  lemma AllSentInTime(before: seq<State>, after: seq<State>, c: Config)
    requires Passes(before, after, c) && c.maxDefers > 0 && |after| == c.maxDefers + 1
    requires forall k: nat :: k + 1 < |before| ==> before[k + 1].pending == after[k].pending
    ensures after[c.maxDefers].pending == []
  {
    if after[c.maxDefers].pending != [] {
      var t := after[c.maxDefers].pending[0];
      AlreadyPending(before, after, c, t, c.maxDefers);
      SentInTime(before, after, c, t, c.maxDefers + 1);
    }
  }

  lemma {:induction false} AlreadyPending(before: seq<State>, after: seq<State>, c: Config, t: Task, n: nat)
    requires Passes(before, after, c) && n < |after| && t in after[n].pending
    requires forall k: nat :: k + 1 < |before| ==> before[k + 1].pending == after[k].pending
    ensures KeptBack(after, t, n + 1)
  {
    hide Passed;
    if n > 0 {
      assert RoomyPass(before[n], after[n], c);
      var capacity: nat :| Passed(before[n], after[n], capacity, c);
      PassedKeeps(before[n], after[n], capacity, c, t);
      assert before[n - 1 + 1].pending == after[n - 1].pending;
      AlreadyPending(before, after, c, t, n - 1);
    }
  }

  lemma PassedKeeps(s: State, s': State, capacity: nat, c: Config, t: Task)
    requires Passed(s, s', capacity, c) && t in s'.pending
    ensures t in s.pending
  {
    assert t in multiset(s'.channel[|s.channel|..]) + multiset(s'.pending);
  }

  /** A turn, in plain terms: with places, tasks and turns left, the first task stays if it has several parts, the
      switch is on, its put-backs are below the limit if there is one, and the draw is at least the floor and at
      least one divided by the square of its parts. Then it goes to the end and one more put-back is counted;
      otherwise it is sent and its count forgotten. */
  lemma EachTurn(now: State, available: nat, turns: nat, c: Config, draws: nat -> real, i: nat)
    requires available > 0 && now.pending != [] && turns > 0 && Random(draws)
    ensures var t, rest, m := now.pending[0], now.pending[1..], now.pending[0].multiple as real;
            var count := if t.id in now.counts then now.counts[t.id] else 0;
            Turns(now, available, turns, c, draws, i)
            == if c.schedEnabled && m > 1.0 && (c.maxDefers == 0 || count < c.maxDefers)
                  && draws(i) >= c.minProb && draws(i) * (m * m) >= 1.0
               then Turns(State(rest + [t], now.counts[t.id := count + 1], now.channel), available, turns - 1, c,
                          draws, i + 1)
               else Turns(State(rest, now.counts - {t.id}, now.channel + [t]), available - 1, turns, c, draws, i + 1)
  {
    TurnOnce(now, available, turns, c, draws, i);
    Decision(now.pending[0], Count(now.counts, now.pending[0].id), c, draws(i));
    hide Turns, ShouldEnqueue;
  }

  lemma Decision(t: Task, count: nat, c: Config, draw: real)
    ensures var m := t.multiple as real;
            ShouldEnqueue(t, count, c, draw) <==>
              !(c.schedEnabled && m > 1.0 && (c.maxDefers == 0 || count < c.maxDefers)
                && draw >= c.minProb && draw * (m * m) >= 1.0)
  {
    var m := t.multiple as real;
    if m > 1.0 {
      assert m * m > 1.0;
      BelowInverse(draw, m * m);
    }
  }

  lemma BelowInverse(d: real, x: real)
    requires x > 1.0
    ensures d < 1.0 / x <==> d * x < 1.0
  {
    var y := 1.0 / x;
    assert y * x == 1.0;
    assert (d - y) * x == d * x - y * x;
    if d < y {
      assert (y - d) * x > 0.0;
    } else {
      assert (d - y) * x >= 0.0;
    }
  }

  /** Alone in the queue: `n` times put back. */
  function Alone(t: Task, n: nat): State {
    State([t], if n == 0 then map[] else map[t.id := n], [])
  }

  /** When the draw fails, a pass puts a lone task back. */
  lemma LonePass(t: Task, n: nat, c: Config, capacity: nat, draws: nat -> real)
    requires Deferrable(t, c) && capacity > 0 && (c.maxDefers > 0 ==> n < c.maxDefers)
    requires draws(0) >= Probability(t, c)
    ensures Turns(Alone(t, n), Room(Alone(t, n), capacity), 1, c, draws, 0) == Alone(t, n + 1)
  {
    var now := Alone(t, n);
    assert now.pending[1..] + [t] == [t];
    assert PutBack(now).counts == Alone(t, n + 1).counts;
  }

  /** The draws that fail for a task. */
  function Failing(t: Task, c: Config): nat -> real
    requires t.multiple > 0
  {
    (i: nat) => Probability(t, c)
  }

  /** A pass of the fetcher, for some draws, from one state to another. */
  ghost predicate Fetches(before: State, after: State, capacity: nat, c: Config) {
    exists draws: nat -> real ::
      Random(draws) && after == Turns(before, Room(before, capacity), |before.pending|, c, draws, 0)
  }

  /** The states of a run of `n` passes that all keep `t` back. */
  ghost predicate Survives(states: seq<State>, capacity: seq<nat>, t: Task, c: Config) {
    && |states| == |capacity| + 1 && t.id !in states[0].counts && DistinctIds(states[0].pending)
    && forall k: nat :: k < |capacity| ==> SurvivesAt(states, capacity, t, c, k)
  }

  ghost predicate SurvivesAt(states: seq<State>, capacity: seq<nat>, t: Task, c: Config, k: nat) {
    k < |capacity| && k + 1 < |states| ==>
      && Fetches(states[k], states[k + 1], capacity[k], c)
      && t in states[k + 1].pending && |states[k + 1].channel| < capacity[k]
  }

  lemma {:induction false} SurvivorCounts(states: seq<State>, capacity: seq<nat>, t: Task, c: Config, n: nat)
    requires Survives(states, capacity, t, c) && n <= |capacity|
    ensures DistinctIds(states[n].pending) && Count(states[n].counts, t.id) >= n
    ensures n > 0 ==> Deferrable(t, c) && (c.maxDefers > 0 ==> Count(states[n].counts, t.id) <= c.maxDefers)
  {
    if n > 0 {
      SurvivorCounts(states, capacity, t, c, n - 1);
      assert SurvivesAt(states, capacity, t, c, n - 1);
      FetchesPassed(states[n - 1], states[n], capacity[n - 1], c);
      PassedCounts(states[n - 1], states[n], capacity[n - 1], c, t);
    }
  }

  lemma FetchesPassed(before: State, after: State, capacity: nat, c: Config)
    requires Fetches(before, after, capacity, c) && DistinctIds(before.pending)
    ensures Passed(before, after, capacity, c)
  {
    var draws: nat -> real :| Random(draws)
                              && after == Turns(before, Room(before, capacity), |before.pending|, c, draws, 0);
    PassStarts(before, c);
    TurnsPassed(before, before, |before.pending|, capacity, Room(before, capacity), |before.pending|, c, draws, 0);
  }

  /** The rest of a pass that stands as it should ends as it should. */
  lemma {:induction false} TurnsPassed(s: State, now: State, left: nat, capacity: nat, available: nat, turns: nat,
                                       c: Config, draws: nat -> real, i: nat)
    requires Random(draws) && Standing(s, now, left, c)
    requires |now.channel| + available == |s.channel| + Room(s, capacity) && left <= turns
    ensures Passed(s, Turns(now, available, turns, c, draws, i), capacity, c)
    decreases turns + |now.pending|
  {
    hide Standing, Passed, Turns, Random, ShouldEnqueue;
    StandingBounds(s, now, left, c);
    if available == 0 || now.pending == [] || turns == 0 {
      TurnsOver(now, available, turns, c, draws, i);
      PassEnds(s, now, left, capacity, available, c);
    } else {
      TurnOnce(now, available, turns, c, draws, i);
      var t := now.pending[0];
      if ShouldEnqueue(t, Count(now.counts, t.id), c, draws(i)) {
        AcceptStands(s, now, left, c);
        TurnsPassed(s, Accept(now), Less(left), capacity, available - 1, turns, c, draws, i + 1);
      } else {
        PutBackStands(s, now, left, c, draws(i));
        TurnsPassed(s, PutBack(now), Less(left), capacity, available, turns - 1, c, draws, i + 1);
      }
    }
  }

  /** The lone task for `n` passes. */
  lemma LoneSurvivor(t: Task, c: Config, n: nat)
    requires Deferrable(t, c) && (c.maxDefers > 0 ==> n <= c.maxDefers)
    ensures Survives(seq(n + 1, k requires 0 <= k => Alone(t, k)), seq(n, k => 1), t, c)
  {
    var states, capacity := seq(n + 1, k requires 0 <= k => Alone(t, k)), seq(n, k => 1);
    ProbabilityBelowOne(t, c);
    ProbabilityPositive(t, c);
    forall k: nat | k < n
      ensures SurvivesAt(states, capacity, t, c, k)
    {
      LonePass(t, k, c, 1, Failing(t, c));
      assert states[k] == Alone(t, k) && states[k + 1] == Alone(t, k + 1) && |Alone(t, k).pending| == 1;
      assert Random(Failing(t, c));
      assert Fetches(states[k], states[k + 1], 1, c);
      assert t in [t];
    }
  }

  lemma ProbabilityPositive(t: Task, c: Config)
    requires t.multiple > 1
    ensures Probability(t, c) >= 0.0
  {
    var m := t.multiple as real;
    assert m * m > 1.0;
    Inverse(m * m);
  }

  /** A task can be kept back by `n` passes with room to spare, for some queue and some draws, if and only
      if it has several parts, the probability floor is below one, and there is no limit or one of at
      least `n`. */
  lemma KeptBackExactlyWhen(t: Task, c: Config, n: nat)
    requires n > 0
    ensures (exists states, capacity :: |capacity| == n && Survives(states, capacity, t, c))
            <==> Deferrable(t, c) && (c.maxDefers == 0 || n <= c.maxDefers)
  {
    if Deferrable(t, c) && (c.maxDefers == 0 || n <= c.maxDefers) {
      LoneSurvivor(t, c, n);
      assert |seq(n, k => 1)| == n;
    }
    forall states, capacity | |capacity| == n && Survives(states, capacity, t, c)
      ensures Deferrable(t, c) && (c.maxDefers == 0 || n <= c.maxDefers)
    {
      SurvivorCounts(states, capacity, t, c, n);
    }
  }
}
