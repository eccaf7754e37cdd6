/** How an acquire request drains the per-job channels: in rounds, one visit per job and round. */
module FairAcquire {
  import opened Sequences
  import opened TransferQueue

  const LARGE_FILE_THRESHOLD_BYTES: int := 1000 * 1024 * 1024

  /** A popped record and the job it came from. */
  datatype Handed = Handed(jobId: int, rec: Record)

  predicate IsLarge(r: Record) {
    r.size >= LARGE_FILE_THRESHOLD_BYTES
  }

  /** At least 1000 MiB. */
  ghost predicate Big(r: Record) {
    r.size >= 1048576000
  }

  /** The records of one job, in the order they were popped. */
  function Of(popped: seq<Handed>, jobId: int): seq<Record> {
    if popped == [] then []
    else
      var front, last := Of(popped[..|popped| - 1], jobId), popped[|popped| - 1];
      if last.jobId == jobId then front + [last.rec] else front
  }

  ghost function Larges(rs: seq<Record>): nat {
    if rs == [] then 0 else Larges(rs[..|rs| - 1]) + if Big(rs[|rs| - 1]) then 1 else 0
  }

  function MaxPerJob(limit: nat, jobs: nat): nat
    requires jobs > 0
  {
    if limit / jobs < 1 then 1 else limit / jobs
  }

  function MaxLargePerJob(maxPerJob: nat): nat {
    if maxPerJob / 4 < 1 then 1 else maxPerJob / 4
  }

  /** The first `n` records, or all of them. */
  function Front(buffer: seq<Record>, n: nat): seq<Record> {
    if n < |buffer| then buffer[..n] else buffer
  }

  /** The small records, and of the large ones the first `maxLarge`. */
  ghost function Allowed(rs: seq<Record>, maxLarge: nat): seq<Record> {
    if rs == [] then []
    else
      var front, last := rs[..|rs| - 1], rs[|rs| - 1];
      Allowed(front, maxLarge) + if Big(last) && Larges(front) >= maxLarge then [] else [last]
  }

  ghost function Refused(rs: seq<Record>, maxLarge: nat): seq<Record> {
    if rs == [] then []
    else
      var front, last := rs[..|rs| - 1], rs[|rs| - 1];
      Refused(front, maxLarge) + if Big(last) && Larges(front) >= maxLarge then [last] else []
  }

  lemma {:induction false} OneMore(seen: seq<Record>, r: Record, maxLarge: nat)
    ensures Big(r) && Larges(seen) >= maxLarge ==>
              Allowed(seen + [r], maxLarge) == Allowed(seen, maxLarge)
              && Refused(seen + [r], maxLarge) == Refused(seen, maxLarge) + [r]
    ensures !(Big(r) && Larges(seen) >= maxLarge) ==>
              Allowed(seen + [r], maxLarge) == Allowed(seen, maxLarge) + [r]
              && Refused(seen + [r], maxLarge) == Refused(seen, maxLarge)
  {
    assert (seen + [r])[..|seen + [r]| - 1] == seen;
    assert Allowed(seen, maxLarge) + [] == Allowed(seen, maxLarge);
    assert Refused(seen, maxLarge) + [] == Refused(seen, maxLarge);
  }

  lemma {:induction false} AllowedLarges(rs: seq<Record>, maxLarge: nat)
    ensures Larges(Allowed(rs, maxLarge)) == if Larges(rs) < maxLarge then Larges(rs) else maxLarge
  {
    if rs != [] {
      var front, last := rs[..|rs| - 1], rs[|rs| - 1];
      AllowedLarges(front, maxLarge);
      LargesPush(Allowed(front, maxLarge), last);
      LargesPush(front, last);
      OneMore(front, last, maxLarge);
      assert rs == front + [last];
      hide Larges, Allowed, Refused, Big;
    }
  }

  lemma {:induction false} AllAllowed(rs: seq<Record>, maxLarge: nat)
    requires Larges(rs) <= maxLarge
    ensures Allowed(rs, maxLarge) == rs
  {
    if rs != [] {
      var front, last := rs[..|rs| - 1], rs[|rs| - 1];
      assert rs == front + [last];
      LargesPush(front, last);
      AllAllowed(front, maxLarge);
      OneMore(front, last, maxLarge);
      hide Larges, Allowed, Refused, Big;
    }
  }

  lemma {:induction false} RefusedIs(rs: seq<Record>, maxLarge: nat)
    ensures forall i :: 0 <= i < |Refused(rs, maxLarge)| ==> Big(Refused(rs, maxLarge)[i])
    ensures Refused(rs, maxLarge) != [] ==> Larges(rs) >= maxLarge
  {
    if rs != [] {
      var front, last := rs[..|rs| - 1], rs[|rs| - 1];
      RefusedIs(front, maxLarge);
      OneMore(front, last, maxLarge);
      LargesPush(front, last);
      assert rs == front + [last];
      hide Larges, Refused, Big;
    }
  }

  /** None of the records reaches 1000 MiB. */
  ghost predicate AllSmall(rs: seq<Record>) {
    forall i :: 0 <= i < |rs| ==> rs[i].size < 1048576000
  }

  lemma {:induction false} NoLarges(rs: seq<Record>)
    requires AllSmall(rs)
    ensures Larges(rs) == 0
  {
    if rs != [] {
      NoLarges(rs[..|rs| - 1]);
    }
  }

  /** The heads of the channels that hold something, in this order. */
  function Heads(buffers: map<int, seq<Record>>, order: seq<int>): seq<Handed>
    requires forall x :: 0 <= x < |order| ==> order[x] in buffers
  {
    if order == [] then []
    else
      var front, j := Heads(buffers, order[..|order| - 1]), order[|order| - 1];
      if buffers[j] == [] then front else front + [Handed(j, buffers[j][0])]
  }

  /** What was popped from a channel and what is left in it make up what it held. */
  ghost predicate Conserved(before: seq<Record>, popped: seq<Record>, after: seq<Record>) {
    multiset(before) == multiset(popped) + multiset(after)
  }

  lemma {:induction false} OfPush(popped: seq<Handed>, h: Handed, jobId: int)
    ensures Of(popped + [h], jobId) == if h.jobId == jobId then Of(popped, jobId) + [h.rec] else Of(popped, jobId)
  {
    assert (popped + [h])[..|popped + [h]| - 1] == popped;
  }

  lemma {:induction false} LargesPush(rs: seq<Record>, r: Record)
    ensures Larges(rs + [r]) == Larges(rs) + if Big(r) then 1 else 0
  {
    assert (rs + [r])[..|rs + [r]| - 1] == rs;
  }

  /** One visit to a channel: pop its head; put a large head back at the tail once the job has had
      its share of large ones. */
  method Visit(buffer: seq<Record>, larges: nat, maxLarge: nat)
      returns (taken: seq<Record>, rest: seq<Record>, larges': nat)
    ensures Conserved(buffer, taken, rest) && |taken| <= 1
    ensures Visits(buffer, larges, maxLarge, taken, rest)
    ensures larges' == larges + Larges(taken)
    ensures larges <= maxLarge ==> larges' <= maxLarge
  {
    taken, rest, larges' := [], buffer, larges;
    if buffer != [] {
      var t := buffer[0];
      rest := buffer[1..];
      assert buffer == [t] + rest;
      if IsLarge(t) {
        if larges >= maxLarge {
          rest := rest + [t];
          return;
        }
        larges' := larges + 1;
      }
      taken := [t];
      LargesPush([], t);
      assert [] + [t] == [t];
    }
  }

  /** What is left of a channel after some visits: what no visit has seen yet, then the large records that
      were put back, and in the end those alone. */
  ghost predicate Picked(before: seq<Record>, popped: seq<Record>, after: seq<Record>, rounds: nat, maxLarge: nat) {
    && popped == Allowed(Front(before, rounds), maxLarge)
    && if rounds <= |before| then after == before[rounds..] + Refused(before[..rounds], maxLarge)
       else (forall i :: 0 <= i < |after| ==> Big(after[i])) && (after != [] ==> Larges(popped) >= maxLarge)
  }

  /** One job's share after some rounds; in an exact drain each round has visited it. */
  ghost predicate Share(before: seq<Record>, popped: seq<Record>, after: seq<Record>, larges: nat,
                        rounds: nat, maxLarge: nat, exact: bool) {
    && Conserved(before, popped, after) && |popped| <= rounds && larges == Larges(popped) <= maxLarge
    && (exact ==> Picked(before, popped, after, rounds, maxLarge))
  }

  /** What a visit does. */
  ghost predicate Visits(after: seq<Record>, larges: nat, maxLarge: nat, taken: seq<Record>, left: seq<Record>) {
    if after == [] then taken == [] && left == []
    else if Big(after[0]) && larges >= maxLarge then taken == [] && left == after[1..] + [after[0]]
    else taken == [after[0]] && left == after[1..]
  }

  /** A visit to a channel of which something is still unseen. */
  lemma PickedUnseen(before: seq<Record>, popped: seq<Record>, after: seq<Record>, rounds: nat, maxLarge: nat,
                     taken: seq<Record>, left: seq<Record>)
    requires Picked(before, popped, after, rounds, maxLarge) && Visits(after, Larges(popped), maxLarge, taken, left)
    requires rounds < |before|
    ensures Picked(before, popped + taken, left, rounds + 1, maxLarge)
  {
    var seen, r, more := before[..rounds], before[rounds], before[rounds + 1..];
    UnseenSplit(before, rounds);
    AllowedLarges(seen, maxLarge);
    OneMore(seen, r, maxLarge);
    HeadAndTail(r, more, Refused(seen, maxLarge));
    hide Allowed, Refused, Larges, Big;
    assert popped + [] == popped;
  }

  lemma HeadAndTail<T>(r: T, more: seq<T>, refused: seq<T>)
    ensures var all := ([r] + more) + refused;
            && all[0] == r && all[1..] == more + refused
            && (more + refused) + [r] == more + (refused + [r])
            && refused + [] == refused
  {
  }

  lemma UnseenSplit(before: seq<Record>, rounds: nat)
    requires rounds < |before|
    ensures Front(before, rounds) == before[..rounds]
    ensures Front(before, rounds + 1) == before[..rounds + 1] == before[..rounds] + [before[rounds]]
    ensures before[rounds..] == [before[rounds]] + before[rounds + 1..]
  {
  }

  /** Only refused ones are left. */
  lemma SeenIsStuck(before: seq<Record>, popped: seq<Record>, after: seq<Record>, rounds: nat, maxLarge: nat)
    requires Picked(before, popped, after, rounds, maxLarge) && rounds >= |before|
    ensures popped == Allowed(before, maxLarge)
    ensures forall i :: 0 <= i < |after| ==> Big(after[i])
    ensures after != [] ==> Larges(popped) >= maxLarge
  {
    if rounds == |before| {
      AllowedLarges(before, maxLarge);
      RefusedIs(before, maxLarge);
      hide Allowed, Refused, Larges, Big;
      assert before[..rounds] == before && before[rounds..] == [];
      assert after == [] + Refused(before, maxLarge) == Refused(before, maxLarge);
    }
  }

  lemma PickedSeen(before: seq<Record>, popped: seq<Record>, after: seq<Record>, rounds: nat, maxLarge: nat,
                   taken: seq<Record>, left: seq<Record>)
    requires Picked(before, popped, after, rounds, maxLarge) && Visits(after, Larges(popped), maxLarge, taken, left)
    requires rounds >= |before|
    ensures Picked(before, popped + taken, left, rounds + 1, maxLarge)
  {
    SeenIsStuck(before, popped, after, rounds, maxLarge);
    hide Allowed, Refused, Larges, Big;
    assert taken == [] && popped + [] == popped;
    assert Front(before, rounds + 1) == before;
  }

  /** A visit that pops, or not, extends the job's share by one round. */
  lemma ShareGrows(before: seq<Record>, popped: seq<Record>, after: seq<Record>, larges: nat, rounds: nat,
                   maxLarge: nat, exact: bool, taken: seq<Record>, left: seq<Record>, larges': nat)
    requires Share(before, popped, after, larges, rounds, maxLarge, exact)
    requires Conserved(after, taken, left) && |taken| <= 1 && larges' == larges + Larges(taken) <= maxLarge
    requires exact ==> Visits(after, larges, maxLarge, taken, left)
    ensures Share(before, popped + taken, left, larges', rounds + 1, maxLarge, exact)
  {
    hide Conserved, Larges, Picked, Visits;
    ConservedGrows(before, popped, after, taken, left);
    LargesGrow(popped, taken);
    if exact {
      if rounds < |before| {
        PickedUnseen(before, popped, after, rounds, maxLarge, taken, left);
      } else {
        PickedSeen(before, popped, after, rounds, maxLarge, taken, left);
      }
    }
  }

  lemma LargesGrow(popped: seq<Record>, taken: seq<Record>)
    requires |taken| <= 1
    ensures Larges(popped + taken) == Larges(popped) + Larges(taken)
  {
    if taken != [] {
      LargesPush(popped, taken[0]);
      LargesPush([], taken[0]);
      assert taken == [taken[0]] && [] + taken == taken;
    } else {
      assert popped + taken == popped;
    }
  }

  lemma ConservedGrows(before: seq<Record>, popped: seq<Record>, after: seq<Record>, taken: seq<Record>,
                       left: seq<Record>)
    requires Conserved(before, popped, after) && Conserved(after, taken, left)
    ensures Conserved(before, popped + taken, left)
  {
  }

  /** The shares of all jobs: those visited in this round are one round ahead. */
  ghost predicate Shares(buffers: map<int, seq<Record>>, popped: seq<Handed>, rest: map<int, seq<Record>>,
                         larges: map<int, nat>, ahead: set<int>, rounds: nat, maxLarge: nat, exact: bool) {
    && rest.Keys == larges.Keys == buffers.Keys
    && (forall h :: h in popped ==> h.jobId in buffers)
    && forall j :: j in buffers ==>
         Share(buffers[j], Of(popped, j), rest[j], larges[j], if j in ahead then rounds + 1 else rounds, maxLarge,
               exact)
  }

  lemma OfTaken(popped: seq<Handed>, jid: int, taken: seq<Record>, j: int)
    requires |taken| <= 1
    ensures Of(if taken == [] then popped else popped + [Handed(jid, taken[0])], j) ==
            if j == jid then Of(popped, j) + taken else Of(popped, j)
  {
    if taken != [] {
      OfPush(popped, Handed(jid, taken[0]), j);
      assert taken == [taken[0]];
    }
  }

  lemma SharesStep(buffers: map<int, seq<Record>>, popped: seq<Handed>, rest: map<int, seq<Record>>,
                   larges: map<int, nat>, ahead: set<int>, rounds: nat, maxLarge: nat, exact: bool,
                   jid: int, taken: seq<Record>, left: seq<Record>, larges': nat)
    requires Shares(buffers, popped, rest, larges, ahead, rounds, maxLarge, exact) && jid in buffers && jid !in ahead
    requires Conserved(rest[jid], taken, left) && |taken| <= 1 && larges' == larges[jid] + Larges(taken) <= maxLarge
    requires exact ==> Visits(rest[jid], larges[jid], maxLarge, taken, left)
    ensures var popped' := if taken == [] then popped else popped + [Handed(jid, taken[0])];
            Shares(buffers, popped', rest[jid := left], larges[jid := larges'], ahead + {jid}, rounds, maxLarge, exact)
  {
    hide Share, Conserved, Larges, Visits;
    var popped' := if taken == [] then popped else popped + [Handed(jid, taken[0])];
    ShareGrows(buffers[jid], Of(popped, jid), rest[jid], larges[jid], rounds, maxLarge, exact, taken, left, larges');
    forall j ensures Of(popped', j) == if j == jid then Of(popped, j) + taken else Of(popped, j) {
      OfTaken(popped, jid, taken, j);
    }
  }

  /** In the first round every visit finds the channel as it was. */
  ghost predicate Untouched(buffers: map<int, seq<Record>>, rest: map<int, seq<Record>>, larges: map<int, nat>,
                            order: seq<int>, k: nat) {
    forall x :: k <= x < |order| ==>
      order[x] in buffers && order[x] in rest && order[x] in larges
      && rest[order[x]] == buffers[order[x]] && larges[order[x]] == 0
  }

  /** One round over the jobs, cut short when the request is full. */
  method Round(ghost buffers: map<int, seq<Record>>, order: seq<int>, limit: nat, maxLarge: nat, ghost rounds: nat,
               ghost exact: bool, popped0: seq<Handed>, rest0: map<int, seq<Record>>, larges0: map<int, nat>)
      returns (popped: seq<Handed>, rest: map<int, seq<Record>>, larges: map<int, nat>)
    requires NoRepeats(order)
    requires (forall x :: 0 <= x < |order| ==> order[x] in buffers) && forall j :: j in buffers ==> j in order
    requires Shares(buffers, popped0, rest0, larges0, {}, rounds, maxLarge, exact) && |popped0| <= limit
    requires exact ==> |popped0| + |order| <= limit
    ensures |popped0| <= |popped| <= limit
    ensures Shares(buffers, popped, rest, larges, {}, rounds + 1, maxLarge, exact)
    ensures exact ==> |popped| <= |popped0| + |order|
    ensures popped0 == [] && Untouched(buffers, rest0, larges0, order, 0) && maxLarge > 0 ==>
              popped == First(Heads(buffers, order), limit)
  {
    hide Share, Conserved, Larges, Of, Visits, Heads, Untouched;
    popped, rest, larges := popped0, rest0, larges0;
    ghost var first := popped0 == [] && Untouched(buffers, rest0, larges0, order, 0) && maxLarge > 0;
    var k := 0;
    ghost var ahead := {};
    NoHeads(buffers, order);
    while k < |order| && |popped| < limit
      invariant k <= |order| && |popped0| <= |popped| <= limit
      invariant ahead == set x | 0 <= x < k :: order[x]
      invariant Shares(buffers, popped, rest, larges, ahead, rounds, maxLarge, exact)
      invariant |popped| <= |popped0| + k
      invariant first ==> Untouched(buffers, rest, larges, order, k) && popped == Heads(buffers, order[..k])
    {
      var jid := order[k];
      assert jid !in ahead;
      var taken, left, count := Visit(rest[jid], larges[jid], maxLarge);
      SharesBound(buffers, popped, rest, larges, ahead, rounds, maxLarge, exact, jid);
      SharesStep(buffers, popped, rest, larges, ahead, rounds, maxLarge, exact, jid, taken, left, count);
      if first {
        FirstVisit(buffers, rest, larges, order, k, maxLarge, taken, left, count, popped);
      }
      if taken != [] {
        popped := popped + [Handed(jid, taken[0])];
      }
      rest, larges := rest[jid := left], larges[jid := count];
      ahead := ahead + {jid};
      k := k + 1;
    }
    if exact {
      forall j | j in buffers ensures j in ahead {
        var x :| 0 <= x < |order| && order[x] == j;
      }
    }
    CloseRound(buffers, popped, rest, larges, ahead, rounds, maxLarge, exact);
    if first {
      HeadsPrefix(buffers, order, k);
      assert k == |order| ==> order[..k] == order;
      PrefixIsFirst(popped, Heads(buffers, order), limit);
    }
  }

  lemma PrefixIsFirst(popped: seq<Handed>, handed: seq<Handed>, limit: nat)
    requires popped <= handed && |popped| <= limit && (popped == handed || |popped| == limit)
    ensures popped == First(handed, limit)
  {
  }

  function First(handed: seq<Handed>, limit: nat): seq<Handed> {
    if limit < |handed| then handed[..limit] else handed
  }

  lemma NoHeads(buffers: map<int, seq<Record>>, order: seq<int>)
    ensures Heads(buffers, order[..0]) == []
  {
  }

  lemma {:induction false} HeadsPrefix(buffers: map<int, seq<Record>>, order: seq<int>, k: nat)
    requires k <= |order| && forall x :: 0 <= x < |order| ==> order[x] in buffers
    ensures Heads(buffers, order[..k]) <= Heads(buffers, order)
    decreases |order|
  {
    if k < |order| {
      HeadsPrefix(buffers, order[..|order| - 1], k);
      assert order[..|order| - 1][..k] == order[..k];
    } else {
      assert order[..k] == order;
    }
  }

  lemma FirstVisit(buffers: map<int, seq<Record>>, rest: map<int, seq<Record>>, larges: map<int, nat>,
                   order: seq<int>, k: nat, maxLarge: nat, taken: seq<Record>, left: seq<Record>, count: nat,
                   popped: seq<Handed>)
    requires Untouched(buffers, rest, larges, order, k) && NoRepeats(order) && k < |order| && maxLarge > 0
    requires (forall x :: 0 <= x < |order| ==> order[x] in buffers) && popped == Heads(buffers, order[..k])
    requires order[k] in rest && order[k] in larges
    requires Visits(rest[order[k]], larges[order[k]], maxLarge, taken, left)
    ensures Untouched(buffers, rest[order[k] := left], larges[order[k] := count], order, k + 1)
    ensures Heads(buffers, order[..k + 1]) == if taken == [] then popped else popped + [Handed(order[k], taken[0])]
  {
    assert order[..k + 1][..k] == order[..k];
  }

  lemma SharesBound(buffers: map<int, seq<Record>>, popped: seq<Handed>, rest: map<int, seq<Record>>,
                    larges: map<int, nat>, ahead: set<int>, rounds: nat, maxLarge: nat, exact: bool, j: int)
    requires Shares(buffers, popped, rest, larges, ahead, rounds, maxLarge, exact) && j in buffers
    ensures larges[j] <= maxLarge
  {
  }

  /** A round that was cut short left some jobs with fewer visits than rounds, never in an exact drain. */
  lemma CloseRound(buffers: map<int, seq<Record>>, popped: seq<Handed>, rest: map<int, seq<Record>>,
                   larges: map<int, nat>, ahead: set<int>, rounds: nat, maxLarge: nat, exact: bool)
    requires Shares(buffers, popped, rest, larges, ahead, rounds, maxLarge, exact)
    requires exact ==> buffers.Keys <= ahead
    ensures Shares(buffers, popped, rest, larges, {}, rounds + 1, maxLarge, exact)
  {
  }

  /** What each of several jobs gives: at most its part of the request, or one, and at most a quarter of that
      large, or one. When the request has one for every job, it is the front of its channel but for the large
      ones too many; otherwise the first channels that hold something give their heads. */
  ghost predicate SharedOut(buffers: map<int, seq<Record>>, order: seq<int>, limit: nat, popped: seq<Handed>)
    requires |order| > 0
  {
    var part := limit / |order|;
    && (forall j :: j in buffers ==> |Of(popped, j)| <= 1 || |Of(popped, j)| <= part)
    && (forall j :: j in buffers ==> Larges(Of(popped, j)) <= 1 || Larges(Of(popped, j)) <= part / 4)
    && (part > 0 ==> forall j :: j in buffers ==>
          && Of(popped, j) == Allowed(Front(buffers[j], part), if part < 4 then 1 else part / 4)
          && (AllSmall(buffers[j]) ==> Of(popped, j) == if part < |buffers[j]| then buffers[j][..part] else buffers[j]))
    && (part == 0 && (forall x :: 0 <= x < |order| ==> order[x] in buffers) ==>
          popped == First(Heads(buffers, order), limit))
  }

  /** What a request for `limit` tasks gets: the front of the only channel, or the shares of several. */
  ghost predicate HandedOut(buffers: map<int, seq<Record>>, order: seq<int>, limit: nat, popped: seq<Handed>) {
    if |order| == 0 then popped == []
    else if |order| == 1 then
      order[0] in buffers ==>
        var channel := buffers[order[0]];
        && (forall h :: h in popped ==> h.jobId == order[0])
        && Of(popped, order[0]) == if limit < |channel| then channel[..limit] else channel
    else SharedOut(buffers, order, limit, popped)
  }

  /** The drain of several channels. */
  method FairDrain(buffers: map<int, seq<Record>>, order: seq<int>, limit: nat)
      returns (popped: seq<Handed>, rest: map<int, seq<Record>>)
    requires |order| > 0 && NoRepeats(order)
    requires (forall x :: 0 <= x < |order| ==> order[x] in buffers) && forall j :: j in buffers ==> j in order
    ensures |popped| <= limit
    ensures rest.Keys == buffers.Keys
    ensures forall h :: h in popped ==> h.jobId in buffers
    ensures forall j :: j in buffers ==> Conserved(buffers[j], Of(popped, j), rest[j])
    ensures SharedOut(buffers, order, limit, popped)
  {
    hide Conserved, Larges, Of, MaxPerJob, Shares, Share, MaxLargePerJob, SharedOut, Untouched, Heads;
    var maxPerJob := MaxPerJob(limit, |order|);
    var maxLarge := MaxLargePerJob(maxPerJob);
    popped, rest := [], buffers;
    var larges := map j | j in buffers :: 0;
    ghost var exact := limit >= |order|;
    SharesStart(buffers, order, maxLarge, exact);
    var i := 0;
    while i < maxPerJob && |popped| < limit
      invariant i <= maxPerJob && |popped| <= limit
      invariant Shares(buffers, popped, rest, larges, {}, i, maxLarge, exact)
      invariant exact ==> |popped| <= i * |order|
      invariant i == 0 ==> popped == [] && Untouched(buffers, rest, larges, order, 0)
      invariant i == 1 ==> popped == First(Heads(buffers, order), limit)
    {
      RoomForRound(limit, |order|, i);
      Positive(maxPerJob);
      popped, rest, larges := Round(buffers, order, limit, maxLarge, i, exact, popped, rest, larges);
      i := i + 1;
    }
    RoundsDone(limit, |order|, i, |popped|);
    if limit == 0 {
      assert popped == First(Heads(buffers, order), limit);
    }
    SharesShow(buffers, order, limit, popped, rest, larges, i, exact);
  }

  lemma SharesStart(buffers: map<int, seq<Record>>, order: seq<int>, maxLarge: nat, exact: bool)
    requires forall x :: 0 <= x < |order| ==> order[x] in buffers
    ensures Shares(buffers, [], buffers, map j | j in buffers :: 0, {}, 0, maxLarge, exact)
    ensures Untouched(buffers, buffers, map j | j in buffers :: 0, order, 0)
  {
    forall j | j in buffers
      ensures Picked(buffers[j], [], buffers[j], 0, maxLarge)
    {
      assert buffers[j][..0] == [] && buffers[j] + [] == buffers[j];
      assert Front(buffers[j], 0) == [];
    }
  }

  lemma SharesShow(buffers: map<int, seq<Record>>, order: seq<int>, limit: nat, popped: seq<Handed>,
                   rest: map<int, seq<Record>>, larges: map<int, nat>, rounds: nat, exact: bool)
    requires |order| > 0 && (forall x :: 0 <= x < |order| ==> order[x] in buffers) && exact == (limit >= |order|)
    requires Shares(buffers, popped, rest, larges, {}, rounds, MaxLargePerJob(MaxPerJob(limit, |order|)), exact)
    requires rounds <= MaxPerJob(limit, |order|) && (exact ==> rounds == limit / |order|)
    requires !exact ==> popped == First(Heads(buffers, order), limit)
    ensures rest.Keys == buffers.Keys && forall h :: h in popped ==> h.jobId in buffers
    ensures forall j :: j in buffers ==> Conserved(buffers[j], Of(popped, j), rest[j])
    ensures SharedOut(buffers, order, limit, popped)
  {
    hide Conserved, Of, Heads, Allowed, Refused, Larges;
    Parts(limit, |order|);
    var part := limit / |order|;
    forall j | j in buffers && exact && AllSmall(buffers[j])
      ensures Of(popped, j) == if part < |buffers[j]| then buffers[j][..part] else buffers[j]
    {
      NoLarges(Front(buffers[j], part));
      AllAllowed(Front(buffers[j], part), MaxLargePerJob(MaxPerJob(limit, |order|)));
    }
  }

  lemma Parts(limit: nat, jobs: nat)
    requires jobs > 0
    ensures limit >= jobs <==> limit / jobs > 0
  {
  }

  lemma Positive(maxPerJob: nat)
    ensures MaxLargePerJob(maxPerJob) > 0
  {
  }

  lemma RoomForRound(limit: nat, jobs: nat, i: nat)
    requires jobs > 0 && i < MaxPerJob(limit, jobs)
    ensures limit >= jobs ==> i * jobs + jobs <= limit
    ensures i * jobs + jobs == (i + 1) * jobs
  {
    if limit >= jobs {
      Quotient(limit, jobs);
      MulGrows(i + 1, limit / jobs, jobs);
    }
  }

  lemma Quotient(a: nat, b: nat)
    requires b > 0
    ensures (a / b) * b <= a
  {
  }

  lemma MulGrows(a: nat, b: nat, c: nat)
    requires a <= b
    ensures a * c <= b * c
  {
  }

  /** The loop ends when the request is full or every round is done; with one for every job it is both. */
  lemma RoundsDone(limit: nat, jobs: nat, i: nat, popped: nat)
    requires jobs > 0 && i <= MaxPerJob(limit, jobs) && (limit >= jobs ==> popped <= i * jobs)
    requires i >= MaxPerJob(limit, jobs) || popped >= limit
    ensures limit >= jobs ==> i == limit / jobs
    ensures limit < jobs ==> i == 1 || limit == 0 || (i == 0 && popped >= limit)
  {
    if limit >= jobs {
      Parts(limit, jobs);
      if i * jobs >= limit {
        assert limit / jobs <= i * jobs / jobs == i;
      }
    } else {
      Parts(limit, jobs);
    }
  }
}
