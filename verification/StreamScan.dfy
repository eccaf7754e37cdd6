/** The page loop of the media scanner, for every listing and every split of it into pages: what it queues,
    and when that is what joining the whole listing would queue. */
module StreamScan {
  import opened Sequences
  import opened StreamPairing

  // ---------------------------------------------------------------- what a scan finds

  /** An id that a page completed, with its pair at the end of that page. */
  datatype Found = Found(id: string, pair: FilePair)

  /** A pair is dropped at the end of the page that completes it. */
  function Kept(p: FilePair): FilePair {
    if Both(p) then EMPTY else p
  }

  /** What is known of an id when the last page has been read. */
  function Seen(pages: seq<seq<Object>>, id: string): FilePair {
    if pages == [] then EMPTY
    else AddTo(Kept(Seen(pages[..|pages| - 1], id)), pages[|pages| - 1], id)
  }

  /** The ids that the last page completed, in the order in which the map gives them. */
  function FoundIn(pages: seq<seq<Object>>, order: seq<string>): seq<Found> {
    if order == [] then []
    else
      var front, id := FoundIn(pages, order[..|order| - 1]), order[|order| - 1];
      if Both(Seen(pages, id)) then front + [Found(id, Seen(pages, id))] else front
  }

  function AllFound(pages: seq<seq<Object>>, orders: seq<seq<string>>): seq<Found>
    requires |orders| == |pages|
  {
    if pages == [] then []
    else
      var n := |pages| - 1;
      AllFound(pages[..n], orders[..n]) + FoundIn(pages, orders[n])
  }

  /** The dedup set after one SADD for each of `found` that has not failed for good. */
  function Known(found: seq<Found>, failed: set<int>, dedup: set<int>, taskId: string -> int): set<int> {
    if found == [] then dedup
    else
      var front, t := Known(found[..|found| - 1], failed, dedup, taskId), taskId(found[|found| - 1].pair.video);
      if t in failed then front else front + {t}
  }

  /** Those of `found` whose SADD adds something. */
  function New(found: seq<Found>, failed: set<int>, dedup: set<int>, taskId: string -> int): (r: seq<Found>)
    ensures |r| <= |found|
  {
    if found == [] then []
    else
      var front, last := found[..|found| - 1], found[|found| - 1];
      var t := taskId(last.pair.video);
      New(front, failed, dedup, taskId)
      + if t in failed || t in Known(front, failed, dedup, taskId) then [] else [last]
  }

  function TasksOf(found: seq<Found>, taskId: string -> int): seq<Task> {
    seq(|found|, k requires 0 <= k < |found| => TaskOf(found[k].pair, taskId))
  }

  /** The orders are such as the map may give: each id that the page completed, once. */
  ghost predicate Enumerated(pages: seq<seq<Object>>, orders: seq<seq<string>>) {
    |orders| == |pages| && forall p: nat :: p < |pages| ==> EnumeratedAt(pages, orders, p)
  }

  ghost predicate EnumeratedAt(pages: seq<seq<Object>>, orders: seq<seq<string>>, p: nat) {
    p < |pages| && p < |orders| ==>
      NoRepeats(orders[p]) && forall id :: Both(Seen(pages[..p + 1], id)) ==> id in orders[p]
  }

  // ---------------------------------------------------------------- the loop

  function Get(pairs: map<string, FilePair>, id: string): FilePair {
    if id in pairs then pairs[id] else EMPTY
  }

  method ReadPage(pairs: map<string, FilePair>, page: seq<Object>) returns (pairs': map<string, FilePair>)
    ensures forall id :: Get(pairs', id) == AddTo(Get(pairs, id), page, id)
  {
    pairs' := pairs;
    for k := 0 to |page|
      invariant forall id :: Get(pairs', id) == AddTo(Get(pairs, id), page[..k], id)
    {
      assert page[..k + 1][..k] == page[..k];
      var obj := page[k];
      if obj.kind != Other {
        if obj.id !in pairs' {
          pairs' := pairs'[obj.id := EMPTY];
        }
        pairs' := pairs'[obj.id := Put(pairs'[obj.id], obj)];
      }
    }
    assert page[..|page|] == page;
  }

  method Candidates(pairs: map<string, FilePair>, order: seq<string>, ghost pages: seq<seq<Object>>)
    returns (candidates: seq<Found>)
    requires forall id :: Get(pairs, id) == Seen(pages, id)
    ensures candidates == FoundIn(pages, order)
  {
    hide Seen;
    candidates := [];
    for k := 0 to |order|
      invariant candidates == FoundIn(pages, order[..k])
    {
      assert order[..k + 1][..k] == order[..k];
      assert Get(pairs, order[k]) == Seen(pages, order[k]);
      if order[k] in pairs && Both(pairs[order[k]]) {
        candidates := candidates + [Found(order[k], pairs[order[k]])];
      }
    }
    assert order[..|order|] == order;
  }

  /** The check for failures, the SADD of each candidate left, and the tasks of those that were new. */
  method Dedup(candidates: seq<Found>, failed: set<int>, dedup: set<int>, taskId: string -> int)
    returns (batch: seq<Task>, dedup': set<int>)
    ensures batch == TasksOf(New(candidates, failed, dedup, taskId), taskId)
    ensures dedup' == Known(candidates, failed, dedup, taskId)
  {
    batch, dedup' := [], dedup;
    for k := 0 to |candidates|
      invariant batch == TasksOf(New(candidates[..k], failed, dedup, taskId), taskId)
      invariant dedup' == Known(candidates[..k], failed, dedup, taskId)
    {
      assert candidates[..k + 1][..k] == candidates[..k];
      var c := candidates[k];
      var t := taskId(c.pair.video);
      if t !in failed {
        if t !in dedup' {
          batch := batch + [TaskOf(c.pair, taskId)];
        }
        dedup' := dedup' + {t};
      }
    }
    assert candidates[..|candidates|] == candidates;
  }

  ghost predicate Names(found: seq<Found>, id: string) {
    exists k :: 0 <= k < |found| && found[k].id == id
  }

  method Remove(pairs: map<string, FilePair>, candidates: seq<Found>) returns (pairs': map<string, FilePair>)
    ensures forall id :: Get(pairs', id) == if Names(candidates, id) then EMPTY else Get(pairs, id)
  {
    pairs' := pairs;
    for k := 0 to |candidates|
      invariant forall id :: Get(pairs', id) == if Names(candidates[..k], id) then EMPTY else Get(pairs, id)
    {
      forall id
        ensures Names(candidates[..k + 1], id) <==> Names(candidates[..k], id) || id == candidates[k].id
      {
        NamesPush(candidates, k, id);
      }
      ghost var before := pairs';
      pairs' := pairs' - {candidates[k].id};
      assert forall id :: Get(pairs', id) == if id == candidates[k].id then EMPTY else Get(before, id);
    }
    assert candidates[..|candidates|] == candidates;
  }

  lemma NamesPush(found: seq<Found>, k: nat, id: string)
    requires k < |found|
    ensures Names(found[..k + 1], id) <==> Names(found[..k], id) || id == found[k].id
  {
    var front, more := found[..k], found[..k + 1];
    if Names(front, id) {
      var i :| 0 <= i < k && front[i].id == id;
      assert more[i].id == id;
    }
    assert more[k].id == found[k].id;
    assert forall i :: 0 <= i < k ==> more[i] == front[i];
  }

  lemma {:induction false} FoundNames(pages: seq<seq<Object>>, order: seq<string>, id: string)
    ensures Names(FoundIn(pages, order), id) <==> id in order && Both(Seen(pages, id))
  {
    hide Seen;
    if order != [] {
      var n := |order| - 1;
      FoundNames(pages, order[..n], id);
      assert order == order[..n] + [order[n]];
      var front, all := FoundIn(pages, order[..n]), FoundIn(pages, order);
      if all != front {
        NamesPush(all, |front|, id);
        assert all[..|front|] == front && all[..|all|] == all;
      }
    }
  }

  /** The page loop of `processJob`: for every listing, split into pages and map order. */
  method Scan(pages: seq<seq<Object>>, orders: seq<seq<string>>, failed: set<int>, dedup: set<int>,
              taskId: string -> int, queue: seq<Task>)
    returns (queue': seq<Task>, dedup': set<int>, count: nat)
    requires Enumerated(pages, orders)
    ensures var added := New(AllFound(pages, orders), failed, dedup, taskId);
            queue' == queue + TasksOf(added, taskId) && count == |added|
    ensures dedup' == Known(AllFound(pages, orders), failed, dedup, taskId)
  {
    hide New, Known, TasksOf, Seen, FoundIn, NoRepeats, AllFound;
    var pairs: map<string, FilePair> := map[];
    queue', dedup', count := queue, dedup, 0;
    ScanStarts(pages, orders, failed, dedup, taskId);
    for p := 0 to |pages|
      invariant forall id :: Get(pairs, id) == Kept(Seen(pages[..p], id))
      invariant var added := New(AllFound(pages[..p], orders[..p]), failed, dedup, taskId);
                queue' == queue + TasksOf(added, taskId) && count == |added|
      invariant dedup' == Known(AllFound(pages[..p], orders[..p]), failed, dedup, taskId)
    {
      ghost var before := AllFound(pages[..p], orders[..p]);
      NextPage(pages, orders, p);
      assert EnumeratedAt(pages, orders, p);
      var read := ReadPage(pairs, pages[p]);
      var candidates := Candidates(read, orders[p], pages[..p + 1]);
      NewAppend(before, candidates, failed, dedup, taskId);
      TasksAppend(New(before, failed, dedup, taskId), New(candidates, failed, dedup', taskId), taskId);
      var batch;
      batch, dedup' := Dedup(candidates, failed, dedup', taskId);
      Assoc(queue, TasksOf(New(before, failed, dedup, taskId), taskId), batch);
      queue' := queue' + batch;
      count := count + |batch|;
      pairs := Remove(read, candidates);
      forall id
        ensures Get(pairs, id) == Kept(Seen(pages[..p + 1], id))
      {
        FoundNames(pages[..p + 1], orders[p], id);
      }
    }
    assert pages[..|pages|] == pages && orders[..|orders|] == orders;
  }

  lemma ScanStarts(pages: seq<seq<Object>>, orders: seq<seq<string>>, failed: set<int>, dedup: set<int>,
                   taskId: string -> int)
    requires |orders| == |pages|
    ensures AllFound(pages[..0], orders[..0]) == [] && New([], failed, dedup, taskId) == []
    ensures Known([], failed, dedup, taskId) == dedup && TasksOf([], taskId) == []
    ensures forall id :: Kept(Seen(pages[..0], id)) == EMPTY
  {
  }

  lemma NextPage(pages: seq<seq<Object>>, orders: seq<seq<string>>, p: nat)
    requires p < |pages| == |orders|
    ensures AllFound(pages[..p + 1], orders[..p + 1])
            == AllFound(pages[..p], orders[..p]) + FoundIn(pages[..p + 1], orders[p])
    ensures forall id :: Seen(pages[..p + 1], id) == AddTo(Kept(Seen(pages[..p], id)), pages[p], id)
  {
    assert pages[..p + 1][..p] == pages[..p] && orders[..p + 1][..p] == orders[..p];
    hide FoundIn, AddTo;
  }

  lemma {:induction false} NewAppend(a: seq<Found>, b: seq<Found>, failed: set<int>, dedup: set<int>,
                                     taskId: string -> int)
    ensures Known(a + b, failed, dedup, taskId) == Known(b, failed, Known(a, failed, dedup, taskId), taskId)
    ensures New(a + b, failed, dedup, taskId)
            == New(a, failed, dedup, taskId) + New(b, failed, Known(a, failed, dedup, taskId), taskId)
  {
    if b == [] {
      assert a + b == a;
    } else {
      var n := |b| - 1;
      assert (a + b)[..|a + b| - 1] == a + b[..n];
      NewAppend(a, b[..n], failed, dedup, taskId);
    }
  }

  lemma TasksAppend(a: seq<Found>, b: seq<Found>, taskId: string -> int)
    ensures TasksOf(a + b, taskId) == TasksOf(a, taskId) + TasksOf(b, taskId)
    ensures |TasksOf(b, taskId)| == |b|
  {
  }

  lemma Assoc<T>(a: seq<T>, b: seq<T>, c: seq<T>)
    ensures (a + b) + c == a + (b + c)
  {
  }
}
