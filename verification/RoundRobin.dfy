/** The proxy pool: round-robin choice among the online proxies. */
module RoundRobin {
  import opened Sequences

  // ---------------------------------------------------------------- the order of the pool

  /** The online positions in `lo..hi`, ascending. */
  function OnlineIn(online: seq<bool>, lo: nat, hi: nat): seq<nat>
    requires lo <= hi <= |online|
  {
    if lo == hi then [] else OnlineIn(online, lo, hi - 1) + if online[hi - 1] then [hi - 1] else []
  }

  /** The online positions in the order in which the pool reaches them from `index`. */
  function Order(online: seq<bool>, index: nat): seq<nat>
    requires index <= |online|
  {
    OnlineIn(online, index, |online|) + OnlineIn(online, 0, index)
  }

  lemma {:induction false} OnlineSplit(online: seq<bool>, lo: nat, mid: nat, hi: nat)
    requires lo <= mid <= hi <= |online|
    ensures OnlineIn(online, lo, hi) == OnlineIn(online, lo, mid) + OnlineIn(online, mid, hi)
  {
    if mid < hi {
      OnlineSplit(online, lo, mid, hi - 1);
    }
  }

  lemma {:induction false} OnlineIs(online: seq<bool>, lo: nat, hi: nat)
    requires lo <= hi <= |online|
    ensures forall k :: k in OnlineIn(online, lo, hi) <==> lo <= k < hi && online[k]
    ensures Ascending(OnlineIn(online, lo, hi))
  {
    if lo < hi {
      OnlineIs(online, lo, hi - 1);
      var front := OnlineIn(online, lo, hi - 1);
      InPushed(front, hi - 1);
      if online[hi - 1] {
        assert OnlineIn(online, lo, hi) == front + [hi - 1];
      } else {
        assert OnlineIn(online, lo, hi) == front;
      }
      hide OnlineIn;
    }
  }

  lemma InPushed(s: seq<nat>, x: nat)
    ensures forall k :: k in s + [x] <==> k in s || k == x
    ensures Ascending(s) && (forall k :: k in s ==> k < x) ==> Ascending(s + [x])
  {
    assert forall i :: 0 <= i < |s| ==> s[i] in s;
  }

  lemma {:induction false} NoneIn(online: seq<bool>, lo: nat, hi: nat)
    requires lo <= hi <= |online| && forall k :: lo <= k < hi ==> !online[k]
    ensures OnlineIn(online, lo, hi) == []
  {
    if lo < hi {
      NoneIn(online, lo, hi - 1);
    }
  }

  lemma OneIn(online: seq<bool>, k: nat)
    requires k < |online| && online[k]
    ensures OnlineIn(online, k, k + 1) == [k]
  {
  }

  /** The order names each online position exactly once. */
  lemma OrderIs(online: seq<bool>, index: nat)
    requires index <= |online|
    ensures forall k :: k in Order(online, index) <==> 0 <= k < |online| && online[k]
    ensures NoRepeats(Order(online, index))
  {
    OnlineIs(online, index, |online|);
    OnlineIs(online, 0, index);
    var a, b := OnlineIn(online, index, |online|), OnlineIn(online, 0, index);
    forall i, j | 0 <= i < j < |a + b|
      ensures (a + b)[i] != (a + b)[j]
    {
      if i < |a| <= j {
        assert a[i] in a && b[j - |a|] in b;
      }
    }
  }

  // ---------------------------------------------------------------- the pool

  class Proxy {
    var online: bool
    var failCount: nat

    constructor ()
      ensures online && failCount == 0
    {
      online, failCount := true, 0;
    }

    /** One failed request takes the proxy offline. */
    method MarkFailure()
      modifies this
      ensures !online && failCount == old(failCount) + 1
    {
      failCount := failCount + 1;
      if failCount >= 1 {
        online := false;
      }
    }

    method MarkSuccess()
      modifies this
      ensures online && failCount == 0
    {
      failCount := 0;
      online := true;
    }
  }

  class Manager {
    var proxies: seq<Proxy>
    var currentIndex: nat

    ghost predicate Valid()
      reads this
    {
      && (currentIndex < |proxies| || currentIndex == |proxies| == 0)
      && NoRepeats(proxies)
    }

    ghost function Online(): (s: seq<bool>)
      reads this, proxies
      ensures |s| == |proxies|
    {
      seq(|proxies|, k requires 0 <= k < |proxies| reads this, proxies => proxies[k].online)
    }

    constructor (proxies: seq<Proxy>)
      requires NoRepeats(proxies)
      ensures Valid() && this.proxies == proxies && currentIndex == 0
    {
      this.proxies, currentIndex := proxies, 0;
    }

    /** `nextProxy`: the first online proxy of the order, which then goes to the order's end; nil if and
        only if no proxy is online. */
    method NextProxy() returns (proxy: Proxy?)
      requires Valid()
      modifies this`currentIndex
      ensures Valid() && Online() == old(Online())
      ensures var order := Order(Online(), old(currentIndex));
              && (proxy == null <==> order == [])
              && (proxy == null ==> currentIndex == old(currentIndex))
              && (proxy != null ==> order[0] < |proxies| && proxy == proxies[order[0]]
                                    && Chooses(Online(), old(currentIndex), order[0], currentIndex))
      ensures proxy == null <==> forall p :: p in proxies ==> !p.online
    {
      hide OnlineIn, Order, NoRepeats, Nth, Wrapped;
      proxy := null;
      var n := |proxies|;
      var start := currentIndex;
      ghost var online := Online();
      OrderIs(online, start);
      var i := 0;
      while i < n
        invariant 0 <= i <= n && currentIndex == start
        invariant forall k :: 0 <= k < i ==> !online[Nth(start, n, k)]
      {
        var idx := (start + i) % n;
        NthIs(start, n, i);
        var p := proxies[idx];
        if p.online {
          FirstAt(online, start, i);
          Rotate(online, start, idx);
          WrappedIs(idx + 1, n);
          currentIndex := (idx + 1) % n;
          assert p in proxies;
          return p;
        }
        i := i + 1;
      }
      NoneOnline(online, start);
      forall p | p in proxies
        ensures !p.online
      {
        var k :| 0 <= k < n && proxies[k] == p;
        assert !online[k];
      }
    }

    /** `RoundTrip`: a proxy that fails the request goes offline, any other choice leaves the statuses
        alone; without a proxy the request goes out directly. */
    method RoundTrip(ok: bool) returns (direct: bool)
      requires Valid()
      modifies this`currentIndex, proxies
      ensures Valid()
      ensures var order := old(Order(Online(), currentIndex));
              && (direct <==> order == [])
              && (direct || ok ==> Online() == old(Online()))
              && (!direct && !ok ==> order[0] < |proxies| && Online() == old(Online())[order[0] := false])
    {
      ghost var order := Order(Online(), currentIndex);
      OrderIs(Online(), currentIndex);
      var proxy := NextProxy();
      direct := proxy == null;
      if !direct {
        assert order[0] in order;
        if ok {
          proxy.MarkSuccess();
        } else {
          proxy.MarkFailure();
        }
        assert ok ==> Online() == old(Online());
        assert !ok ==> Online() == old(Online())[order[0] := false];
      }
    }
  }

  /** The `k`-th position looked at. */
  function Nth(start: nat, n: nat, k: nat): (r: nat)
    requires start < n && k < n
    ensures r < n
  {
    if start + k < n then start + k else start + k - n
  }

  lemma NthIs(start: nat, n: nat, k: nat)
    requires start < n && k < n
    ensures (start + k) % n == Nth(start, n, k)
  {
    if start + k >= n {
      ModOnce(start + k, n);
    }
  }

  lemma WrappedIs(k: nat, n: nat)
    requires 1 <= k <= n
    ensures k % n == Wrapped(k, n)
  {
    if k == n {
      ModOnce(k, n);
    }
  }

  lemma ModOnce(a: nat, n: nat)
    requires n <= a < 2 * n
    ensures a % n == a - n
  {
  }

  /** The search reaches every position, those from `start` on first. */
  lemma FirstAt(online: seq<bool>, start: nat, i: nat)
    requires start < |online| && i < |online|
    requires forall k :: 0 <= k < i ==> !online[Nth(start, |online|, k)]
    requires online[Nth(start, |online|, i)]
    ensures var order, idx := Order(online, start), Nth(start, |online|, i);
            && order != [] && order[0] == idx
            && (idx >= start ==> OnlineIn(online, start, idx) == [])
            && (idx < start ==> OnlineIn(online, start, |online|) == [] && OnlineIn(online, 0, idx) == [])
  {
    var n, idx := |online|, Nth(start, |online|, i);
    if idx >= start {
      forall k | start <= k < idx
        ensures !online[k]
      {
        assert Nth(start, n, k - start) == k;
      }
      NoneIn(online, start, idx);
      OnlineSplit(online, start, idx, n);
      OnlineSplit(online, idx, idx + 1, n);
    } else {
      forall k | start <= k < n
        ensures !online[k]
      {
        assert Nth(start, n, k - start) == k;
      }
      forall k | 0 <= k < idx
        ensures !online[k]
      {
        assert Nth(start, n, k + n - start) == k;
      }
      NoneIn(online, start, n);
      NoneIn(online, 0, idx);
      OnlineSplit(online, 0, idx, start);
      OnlineSplit(online, idx, idx + 1, start);
    }
    OneIn(online, idx);
  }

  lemma NoneOnline(online: seq<bool>, start: nat)
    requires start < |online| || |online| == start == 0
    requires forall k :: 0 <= k < |online| ==> !online[Nth(start, |online|, k)]
    ensures Order(online, start) == [] && forall k :: 0 <= k < |online| ==> !online[k]
  {
    var n := |online|;
    forall k | 0 <= k < n
      ensures !online[k]
    {
      assert Nth(start, n, if k >= start then k - start else k + n - start) == k;
    }
    NoneIn(online, start, n);
    NoneIn(online, 0, start);
  }

  function Wrapped(k: nat, n: nat): nat {
    if k == n then 0 else k
  }

  lemma OrderWraps(online: seq<bool>, k: nat)
    requires k <= |online|
    ensures Order(online, Wrapped(k, |online|)) == OnlineIn(online, k, |online|) + OnlineIn(online, 0, k)
  {
  }

  /** Moving the index behind the choice moves the choice to the end of the order. */
  lemma Rotate(online: seq<bool>, start: nat, idx: nat)
    requires start < |online| && idx < |online| && online[idx]
    requires idx >= start ==> OnlineIn(online, start, idx) == []
    requires idx < start ==> OnlineIn(online, start, |online|) == [] && OnlineIn(online, 0, idx) == []
    ensures Order(online, start) != []
    ensures Order(online, Wrapped(idx + 1, |online|)) == Order(online, start)[1..] + [idx]
  {
    hide OnlineIn, Order, Wrapped;
    if idx >= start {
      RotateAhead(online, start, idx);
    } else {
      RotateAround(online, start, idx);
    }
  }

  lemma RotateAhead(online: seq<bool>, start: nat, idx: nat)
    requires start <= idx < |online| && online[idx] && OnlineIn(online, start, idx) == []
    ensures Order(online, start) != []
    ensures Order(online, Wrapped(idx + 1, |online|)) == Order(online, start)[1..] + [idx]
  {
    var n := |online|;
    OneIn(online, idx);
    OnlineSplit(online, start, idx, n);
    OnlineSplit(online, idx, idx + 1, n);
    OnlineSplit(online, 0, start, idx);
    OnlineSplit(online, 0, idx, idx + 1);
    OrderWraps(online, idx + 1);
    hide OnlineIn, Wrapped;
    Turned(OnlineIn(online, start, n), OnlineIn(online, 0, idx + 1), idx, OnlineIn(online, idx + 1, n),
           OnlineIn(online, 0, start), OnlineIn(online, start, idx));
  }

  lemma RotateAround(online: seq<bool>, start: nat, idx: nat)
    requires idx < start < |online| && online[idx]
    requires OnlineIn(online, start, |online|) == [] && OnlineIn(online, 0, idx) == []
    ensures Order(online, start) != []
    ensures Order(online, Wrapped(idx + 1, |online|)) == Order(online, start)[1..] + [idx]
  {
    var n := |online|;
    OneIn(online, idx);
    OnlineSplit(online, 0, idx, start);
    OnlineSplit(online, idx, idx + 1, start);
    OnlineSplit(online, idx + 1, start, n);
    OnlineSplit(online, 0, idx, idx + 1);
    OrderWraps(online, idx + 1);
    OrderWraps(online, start);
    assert Wrapped(start, n) == start;
    hide OnlineIn, Wrapped, Order;
    TurnedAround(Order(online, start), Order(online, Wrapped(idx + 1, n)), idx, OnlineIn(online, idx + 1, start), []);
  }

  lemma Turned(a: seq<nat>, b: seq<nat>, x: nat, after: seq<nat>, before: seq<nat>, none: seq<nat>)
    requires none == [] && a == none + ([x] + after) && b == (before + none) + [x]
    ensures a + before != [] && after + b == (a + before)[1..] + [x]
  {
  }

  lemma TurnedAround(order: seq<nat>, next: seq<nat>, x: nat, after: seq<nat>, none: seq<nat>)
    requires none == [] && order == none + (none + ([x] + after)) && next == (after + none) + (none + [x])
    ensures order != [] && next == order[1..] + [x]
  {
  }

  // ---------------------------------------------------------------- fairness

  /** The choice made at `index` and where it leaves the index, while some proxy is online. */
  ghost predicate Chooses(online: seq<bool>, index: nat, pick: nat, next: nat) {
    && index < |online| && next < |online|
    && var order := Order(online, index);
       order != [] && pick == order[0] && Order(online, next) == order[1..] + [pick]
  }

  /** `picks` is what calls in a row return, with `indices` before and after each, while no status changes. */
  ghost predicate Calls(online: seq<bool>, indices: seq<nat>, picks: seq<nat>) {
    && |indices| == |picks| + 1
    && forall k :: 0 <= k < |picks| ==> Chooses(online, indices[k], picks[k], indices[k + 1])
  }

  /** After `k` calls the order has been turned by `k` places. */
  lemma {:induction false} TurnedBy(online: seq<bool>, indices: seq<nat>, picks: seq<nat>, k: nat)
    requires Calls(online, indices, picks) && indices[0] <= |online|
    requires k <= |picks| && k <= |Order(online, indices[0])|
    ensures indices[k] <= |online|
    ensures var order := Order(online, indices[0]);
            Order(online, indices[k]) == order[k..] + order[..k] && picks[..k] == order[..k]
  {
    if k > 0 {
      TurnedBy(online, indices, picks, k - 1);
      hide Order;
      assert Chooses(online, indices[k - 1], picks[k - 1], indices[k]);
      TurnOnce(Order(online, indices[0]), k);
      TakeOne(picks, k);
    }
  }

  lemma TurnOnce(order: seq<nat>, k: nat)
    requires 0 < k <= |order|
    ensures var now := order[k - 1..] + order[..k - 1];
            now[0] == order[k - 1] && now[1..] + [now[0]] == order[k..] + order[..k]
    ensures order[..k] == order[..k - 1] + [order[k - 1]]
  {
  }

  lemma TakeOne(picks: seq<nat>, k: nat)
    requires 0 < k <= |picks|
    ensures picks[..k] == picks[..k - 1] + [picks[k - 1]]
  {
  }

  /** Any `m` calls in a row, `m` the number of online proxies, choose each online proxy exactly once. */
  lemma RoundIsFair(online: seq<bool>, indices: seq<nat>, picks: seq<nat>)
    requires Calls(online, indices, picks) && indices[0] <= |online|
    requires |picks| == |Order(online, indices[0])|
    ensures NoRepeats(picks) && forall k :: k in picks <==> 0 <= k < |online| && online[k]
    ensures |picks| == |set k | 0 <= k < |online| && online[k]|
  {
    var order := Order(online, indices[0]);
    TurnedBy(online, indices, picks, |picks|);
    assert picks[..|picks|] == picks && order[..|picks|] == order;
    OrderIs(online, indices[0]);
    DistinctSize(picks, set k | 0 <= k < |online| && online[k]);
  }

  lemma {:induction false} DistinctSize(s: seq<nat>, elements: set<nat>)
    requires NoRepeats(s) && forall x :: x in s <==> x in elements
    ensures |s| == |elements|
  {
    if s == [] {
      assert elements == {};
    } else {
      var n := |s| - 1;
      assert s == s[..n] + [s[n]];
      DistinctSize(s[..n], elements - {s[n]});
    }
  }
}
