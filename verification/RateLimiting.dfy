/** The sliding-window limiter of the video metadata worker: no minute holds more grants than its rate. */
module RateLimiting {
  const WINDOW: real := 60.0
  const BUFFER: real := 0.1

  ghost predicate Sorted(times: seq<real>) {
    forall i, j :: 0 <= i < j < |times| ==> times[i] <= times[j]
  }

  /** The recorded times that `now` still counts: the expired ones are dropped from the front. */
  function Live(times: seq<real>, now: real): seq<real> {
    if times != [] && times[0] < now - WINDOW then Live(times[1..], now) else times
  }

  function WaitFor(oldest: real, now: real): real {
    WINDOW - (now - oldest) + BUFFER
  }

  /** When a caller that got the lock at `now`, and woke at `woke` if it had to sleep, is let through. */
  function GrantTime(times: seq<real>, rate: int, now: real, woke: real): real
    requires rate > 0
  {
    var live := Live(times, now);
    if |live| >= rate && WaitFor(live[0], now) > 0.0 then woke else now
  }

  function Recorded(times: seq<real>, rate: int, now: real, woke: real): seq<real>
    requires rate > 0
  {
    var grant := GrantTime(times, rate, now, woke);
    Live(Live(times, now), grant) + [grant]
  }

  /** The first `d` times are before `since`, the next one is not. */
  ghost predicate Expired(times: seq<real>, d: nat, since: real) {
    && d <= |times| && (forall i :: 0 <= i < d ==> times[i] < since)
    && (d < |times| ==> times[d] >= since)
  }

  /** What is over a minute old at the head of the record is dropped. A caller who then finds at least `rate`
      times, the oldest less than 60.1 seconds ago, is let through when it wakes, which drops what has expired by
      then; any other one at once. Its own time is recorded last. */
  ghost predicate Acquired(times: seq<real>, rate: int, now: real, woke: real, times': seq<real>) {
    exists d: nat :: Expired(times, d, now - 60.0) && LetThrough(times[d..], rate, now, woke, times')
  }

  ghost predicate LetThrough(live: seq<real>, rate: int, now: real, woke: real, times': seq<real>) {
    if live != [] && |live| >= rate && now - live[0] < 60.1
    then exists e: nat :: Expired(live, e, woke - 60.0) && times' == live[e..] + [woke]
    else times' == live + [now]
  }

  lemma {:induction false} LiveIs(times: seq<real>, now: real) returns (d: nat)
    ensures Expired(times, d, now - 60.0) && Live(times, now) == times[d..]
  {
    d := 0;
    if times != [] && times[0] < now - WINDOW {
      d := LiveIs(times[1..], now);
      assert times[1..][d..] == times[d + 1..];
      assert forall i :: 1 <= i < d + 1 ==> times[i] == times[1..][i - 1];
      d := d + 1;
    }
  }

  lemma RecordedIs(times: seq<real>, rate: int, now: real, woke: real)
    requires rate > 0
    ensures Acquired(times, rate, now, woke, Recorded(times, rate, now, woke))
  {
    var d := LiveIs(times, now);
    var live := Live(times, now);
    LiveTwice(times, now);
    var e := LiveIs(live, woke);
    hide Live, Expired;
    assert LetThrough(live, rate, now, woke, Recorded(times, rate, now, woke));
  }

  class RateLimiter {
    var requestsPerMinute: int
    var requestTimes: seq<real>

    constructor (requestsPerMinute: int)
      ensures this.requestsPerMinute == requestsPerMinute && requestTimes == []
    {
      this.requestsPerMinute := requestsPerMinute;
      requestTimes := [];
    }

    method UpdateRate(newRequestsPerMinute: int)
      modifies this`requestsPerMinute
      ensures requestsPerMinute == newRequestsPerMinute
    {
      requestsPerMinute := newRequestsPerMinute;
    }

    /** `acquire` from the moment the lock is held; `rate` was read just before. The clock shows `now`
        at first and `woke` after the sleep, if there is one. */
    method Acquire(rate: int, now: real, woke: real)
      modifies this`requestTimes
      ensures rate <= 0 ==> requestTimes == old(requestTimes)
      ensures rate > 0 ==> requestTimes == Recorded(old(requestTimes), rate, now, woke)
      ensures rate > 0 ==> Acquired(old(requestTimes), rate, now, woke, requestTimes)
    {
      if rate <= 0 {
        return;
      }
      Clean(now);
      var granted := now;
      if |requestTimes| >= rate {
        var oldest := requestTimes[0];
        var wait := WINDOW - (now - oldest) + BUFFER;
        if wait > 0.0 {
          granted := woke;
          Clean(granted);
        }
      }
      LiveTwice(old(requestTimes), now);
      RecordedIs(old(requestTimes), rate, now, woke);
      hide Acquired;
      requestTimes := requestTimes + [granted];
    }

    method Clean(now: real)
      modifies this`requestTimes
      ensures requestTimes == Live(old(requestTimes), now)
    {
      while |requestTimes| > 0 && requestTimes[0] < now - WINDOW
        invariant Live(requestTimes, now) == Live(old(requestTimes), now)
        decreases |requestTimes|
      {
        requestTimes := requestTimes[1..];
      }
    }
  }

  lemma {:induction false} LiveTwice(times: seq<real>, now: real)
    ensures Live(Live(times, now), now) == Live(times, now)
  {
    if times != [] && times[0] < now - WINDOW {
      LiveTwice(times[1..], now);
    }
  }

  // ---------------------------------------------------------------- every schedule of callers

  type Rate = r: int | r > 0 witness 1

  /** One caller, in the order in which the callers get the lock, with the rate that it read. A caller
      that reads no rate is let through and leaves nothing behind. */
  datatype Call = Call(rate: Rate, now: real, woke: real)

  function Times(calls: seq<Call>): seq<real> {
    if calls == [] then []
    else
      var last := calls[|calls| - 1];
      Recorded(Times(calls[..|calls| - 1]), last.rate, last.now, last.woke)
  }

  function Grants(calls: seq<Call>): seq<real> {
    if calls == [] then []
    else
      var front, last := calls[..|calls| - 1], calls[|calls| - 1];
      Grants(front) + [GrantTime(Times(front), last.rate, last.now, last.woke)]
  }

  /** The clock shows at least `Last(grants)` at first, and a sleep lasts at least as long as asked. */
  ghost predicate OnTime(times: seq<real>, grants: seq<real>, call: Call) {
    var live := Live(times, call.now);
    && (grants != [] ==> Last(grants) <= call.now)
    && (|live| >= call.rate && WaitFor(live[0], call.now) > 0.0 ==>
          call.now + WaitFor(live[0], call.now) <= call.woke)
  }

  /** The clock never runs backwards. */
  ghost predicate Clocked(calls: seq<Call>) {
    calls == [] ||
    var front := calls[..|calls| - 1];
    Clocked(front) && OnTime(Times(front), Grants(front), calls[|calls| - 1])
  }

  /** The record is a suffix of the grants, and the grants it forgot are over a minute older than `now`. */
  ghost predicate Remembers(times: seq<real>, grants: seq<real>, now: real) {
    && |times| <= |grants| && times == grants[|grants| - |times|..]
    && forall i :: 0 <= i < |grants| - |times| ==> grants[i] < now - WINDOW
  }

  lemma {:induction false} LiveRemembers(times: seq<real>, grants: seq<real>, since: real, now: real)
    requires Remembers(times, grants, since) && since <= now
    ensures Remembers(Live(times, now), grants, now)
    ensures Live(times, now) != [] ==> Live(times, now)[0] >= now - WINDOW
  {
    var d := |grants| - |times|;
    if times != [] && times[0] < now - WINDOW {
      assert grants[d] == times[0];
      assert times[1..] == grants[d + 1..];
      forall i | 0 <= i < d + 1
        ensures grants[i] < now - WINDOW
      {
        if i < d {
          assert grants[i] < since - WINDOW;
        }
      }
      LiveRemembers(times[1..], grants, now, now);
    }
  }

  lemma {:induction false} LiveShorter(times: seq<real>, now: real)
    ensures |Live(times, now)| <= |times|
  {
    if times != [] && times[0] < now - WINDOW {
      LiveShorter(times[1..], now);
    }
  }

  lemma {:induction false} LiveBelow(times: seq<real>, rate: nat, now: real)
    requires Sorted(times) && 1 <= rate <= |times|
    ensures |Live(times, now)| < rate <==> times[|times| - rate] < now - WINDOW
  {
    if times[0] < now - WINDOW {
      if rate <= |times| - 1 {
        LiveBelow(times[1..], rate, now);
      } else {
        LiveShorter(times[1..], now);
      }
    } else {
      assert times[0] <= times[|times| - rate];
    }
  }

  /** What a caller can check when it gets the lock: there is room, or the `rate`-th youngest grant
      expires soon enough after the oldest one. */
  predicate Suffices(live: seq<real>, rate: Rate) {
    |live| < rate || live[|live| - rate] < live[0] + BUFFER
  }

  /** The one wait leaves at most `rate` recorded grants, however late the caller wakes, if and only if
      `Suffices` holds when it gets the lock. */
  lemma WaitSufficesExactlyWhen(times: seq<real>, rate: Rate, now: real)
    requires var live := Live(times, now);
             Sorted(live) && (live != [] ==> live[0] >= now - WINDOW)
    ensures (forall woke :: Slept(times, rate, now, woke) ==> |Recorded(times, rate, now, woke)| <= rate)
            <==> Suffices(Live(times, now), rate)
  {
    var live := Live(times, now);
    if |live| < rate {
      forall woke | Slept(times, rate, now, woke)
        ensures |Recorded(times, rate, now, woke)| <= rate
      {
        LiveTwice(times, now);
      }
    } else {
      forall woke
        ensures |Recorded(times, rate, now, woke)| <= rate <==> live[|live| - rate] < woke - WINDOW
      {
        LiveBelow(live, rate, woke);
      }
      var soonest := now + WaitFor(live[0], now);
      assert Slept(times, rate, now, soonest);
    }
  }

  /** The sleep of a caller that has to sleep lasts at least as long as asked. */
  ghost predicate Slept(times: seq<real>, rate: Rate, now: real, woke: real) {
    var live := Live(times, now);
    |live| >= rate ==> woke >= now + WaitFor(live[0], now)
  }

  lemma FewSuffice(times: seq<real>, rate: Rate, now: real)
    requires |times| <= rate
    ensures Suffices(Live(times, now), rate)
  {
    LiveShorter(times, now);
  }

  /** A record no longer than the rate: the one wait always frees a slot. */
  lemma OneWaitFrees(times: seq<real>, rate: Rate, now: real, woke: real)
    requires Sorted(times) && |times| <= rate && Slept(times, rate, now, woke)
    ensures var live, grant := Live(times, now), GrantTime(times, rate, now, woke);
            && now <= grant && (grant == now || |live| == rate)
            && |Live(live, grant)| < rate
  {
    LiveRemembers(times, times, now, now);
    SuffixSorted(times, Live(times, now));
    FewSuffice(times, rate, now);
    LiveShorter(times, now);
    WaitSufficesExactlyWhen(times, rate, now);
  }

  ghost function Last(grants: seq<real>): real {
    if grants == [] then 0.0 else grants[|grants| - 1]
  }

  /** One call: the grant comes last, and after it the record is still the end of the grants. */
  lemma RecordedStep(times: seq<real>, grants: seq<real>, call: Call)
    requires Sorted(grants) && Remembers(times, grants, Last(grants)) && OnTime(times, grants, call)
    ensures var grant := GrantTime(times, call.rate, call.now, call.woke);
            var grants', times' := grants + [grant], Recorded(times, call.rate, call.now, call.woke);
            && Sorted(grants') && Remembers(times', grants', grant)
            && (Suffices(Live(times, call.now), call.rate) ==> |times'| <= call.rate)
  {
    var grant, live := GrantTime(times, call.rate, call.now, call.woke), Live(times, call.now);
    LiveRemembers(times, grants, if grants == [] then call.now else Last(grants), call.now);
    SuffixSorted(grants, live);
    if Suffices(live, call.rate) {
      WaitSufficesExactlyWhen(times, call.rate, call.now);
      assert Slept(times, call.rate, call.now, call.woke) || |live| < call.rate;
    }
    LiveRemembers(live, grants, call.now, grant);
    hide Live, WaitFor, Suffices, Slept;
    SortedPush(grants, grant);
    RemembersPush(grants, Live(live, grant), grant);
  }

  lemma SuffixSorted(grants: seq<real>, times: seq<real>)
    requires Sorted(grants) && |times| <= |grants| && times == grants[|grants| - |times|..]
    ensures Sorted(times)
  {
  }

  lemma SortedPush(grants: seq<real>, grant: real)
    requires Sorted(grants) && (grants != [] ==> Last(grants) <= grant)
    ensures Sorted(grants + [grant])
  {
  }

  lemma RemembersPush(grants: seq<real>, live: seq<real>, grant: real)
    requires Remembers(live, grants, grant)
    ensures Remembers(live + [grant], grants + [grant], grant)
  {
    assert live + [grant] == (grants + [grant])[|grants| - |live|..];
  }

  lemma {:induction false} RunRemembers(calls: seq<Call>)
    requires Clocked(calls)
    ensures var grants := Grants(calls);
            |grants| == |calls| && Sorted(grants) && Remembers(Times(calls), grants, Last(grants))
  {
    if calls != [] {
      var front := calls[..|calls| - 1];
      RunRemembers(front);
      RecordedStep(Times(front), Grants(front), calls[|calls| - 1]);
    }
  }

  /** What call `j` finds when it gets the lock. */
  function Found(calls: seq<Call>, j: nat): seq<real>
    requires j < |calls|
  {
    Live(Times(calls[..j]), calls[j].now)
  }

  lemma {:induction false} Prefixes(calls: seq<Call>, j: nat)
    requires Clocked(calls) && j <= |calls|
    ensures |Grants(calls)| == |calls|
    ensures Clocked(calls[..j]) && Grants(calls[..j]) == Grants(calls)[..j]
  {
    RunRemembers(calls);
    if j < |calls| {
      var front := calls[..|calls| - 1];
      Prefixes(front, j);
      assert front[..j] == calls[..j];
      RunRemembers(front);
    } else {
      assert calls[..j] == calls;
    }
  }

  /** A call that finds that one wait suffices leaves no more than its rate in the record. */
  lemma SufficesFits(calls: seq<Call>)
    requires Clocked(calls) && calls != []
    requires var last := calls[|calls| - 1]; Suffices(Live(Times(calls[..|calls| - 1]), last.now), last.rate)
    ensures |Times(calls)| <= calls[|calls| - 1].rate
  {
    hide Remembers, Sorted, Recorded, OnTime, Suffices, Live;
    var front, last := calls[..|calls| - 1], calls[|calls| - 1];
    RunRemembers(front);
    RecordedStep(Times(front), Grants(front), last);
  }

  lemma RememberedWindow(grants: seq<real>, times: seq<real>, i: nat)
    requires Sorted(grants) && Remembers(times, grants, Last(grants)) && i < |grants|
    ensures var j := |grants| - 1;
            grants[i] <= grants[j] && (grants[j] - grants[i] <= WINDOW ==> j - i + 1 <= |times|)
  {
  }

  lemma MinuteUpToLast(calls: seq<Call>, i: nat)
    requires Clocked(calls) && i < |calls|
    ensures var grants, j := Grants(calls), |calls| - 1;
            && |grants| == |calls| && grants[i] <= grants[j]
            && (Suffices(Found(calls, j), calls[j].rate) && grants[j] - grants[i] <= WINDOW ==>
                  j - i + 1 <= calls[j].rate)
  {
    RunRemembers(calls);
    RememberedWindow(Grants(calls), Times(calls), i);
    hide Remembers, Sorted, Suffices, Live, Times, Grants, Clocked;
    var j := |calls| - 1;
    if Suffices(Found(calls, j), calls[j].rate) {
      SufficesFits(calls);
    }
  }

  /** For any schedule of callers and any changes of the rate between them: everybody is let through, in
      the order of the clock, and when a call finds that one wait suffices, the minute up to its grant
      holds at most as many grants as its rate. */
  lemma MinuteUpToGrant(calls: seq<Call>, i: nat, j: nat)
    requires Clocked(calls) && i <= j < |calls|
    ensures var grants := Grants(calls);
            && |grants| == |calls| && grants[i] <= grants[j]
            && (Suffices(Found(calls, j), calls[j].rate) && grants[j] - grants[i] <= WINDOW ==>
                  j - i + 1 <= calls[j].rate)
  {
    hide Clocked, Grants, Suffices, Times;
    var through := calls[..j + 1];
    Prefixes(calls, j + 1);
    MinuteUpToLast(through, i);
    assert through[..j] == calls[..j];
  }

  /** The rate is never lowered. */
  ghost predicate NeverLowered(calls: seq<Call>) {
    forall i, j :: 0 <= i < j < |calls| ==> calls[i].rate <= calls[j].rate
  }

  lemma {:induction false} RecordFits(calls: seq<Call>)
    requires Clocked(calls) && NeverLowered(calls) && calls != []
    ensures |Times(calls)| <= calls[|calls| - 1].rate
  {
    var front, last := calls[..|calls| - 1], calls[|calls| - 1];
    if front != [] {
      RecordFits(front);
    }
    FewSuffice(Times(front), last.rate, last.now);
    SufficesFits(calls);
  }

  /** While the rate stays the same or rises, one wait always suffices: grants that lie within one minute
      number at most the rate of the last of them. */
  lemma NoMinuteHoldsMore(calls: seq<Call>, i: nat, j: nat)
    requires Clocked(calls) && NeverLowered(calls) && i <= j < |calls|
    ensures var grants := Grants(calls);
            && |grants| == |calls| && grants[i] <= grants[j]
            && (grants[j] - grants[i] <= WINDOW ==> j - i + 1 <= calls[j].rate)
  {
    assert Times([]) == [];
    hide Clocked, Grants, Times, Suffices, Live;
    Prefixes(calls, j);
    var front := calls[..j];
    if j > 0 {
      RecordFits(front);
    } else {
      assert front == [];
    }
    FewSuffice(Times(front), calls[j].rate, calls[j].now);
    MinuteUpToGrant(calls, i, j);
  }

  /** Three grants at a rate of three, which is then lowered to one: the next grant comes after the wait
      asked for, and the minute up to it holds three. */
  lemma LoweredRateOverruns() returns (calls: seq<Call>)
    ensures Clocked(calls) && |calls| == 4 && calls[3].rate == 1
    ensures var grants := Grants(calls); |grants| == 4 && grants[3] - grants[1] <= WINDOW
  {
    var a, b, c, d := Call(3, 0.0, 0.0), Call(3, 1.0, 1.0), Call(3, 2.0, 2.0), Call(1, 3.0, 60.1);
    assert [] + [a] == [a] && [a] + [b] == [a, b] && [a, b] + [c] == [a, b, c];
    Extend([], a, 0.0, [0.0]);
    Extend([a], b, 1.0, [0.0, 1.0]);
    Extend([a, b], c, 2.0, [0.0, 1.0, 2.0]);
    assert [0.0, 1.0, 2.0][1..] == [1.0, 2.0];
    Extend([a, b, c], d, 60.1, [1.0, 2.0, 60.1]);
    calls := [a, b, c] + [d];
  }

  lemma {:induction false} Extend(front: seq<Call>, last: Call, grant: real, times: seq<real>)
    requires Clocked(front) && OnTime(Times(front), Grants(front), last)
    requires grant == GrantTime(Times(front), last.rate, last.now, last.woke)
    requires times == Recorded(Times(front), last.rate, last.now, last.woke)
    ensures Clocked(front + [last]) && Grants(front + [last]) == Grants(front) + [grant]
    ensures Times(front + [last]) == times
  {
    assert (front + [last])[..|front + [last]| - 1] == front;
  }
}
