/** When the page loop queues what joining the whole listing would queue, and when it queues an id twice. */
module ScanJoin {
  import opened ScanFiles
  import opened Sequences
  import opened StreamPairing
  import opened StreamScan

  // ---------------------------------------------------------------- settled listings

  lemma {:induction false} NothingAfter(listing: seq<Object>, n: nat, m: nat, id: string, p: FilePair)
    requires Settled(listing) && n <= m <= |listing| && Complete(listing[..n], id)
    ensures AddTo(p, listing[n..m], id) == p
    decreases m
  {
    if n < m {
      CompleteStays(listing, n, m - 1, id);
      assert listing[m - 1].kind != Other ==> listing[m - 1].id != id;
      NothingAfter(listing, n, m - 1, id, p);
      hide Settled, Complete, PairOf;
      assert listing[n..m][..m - n - 1] == listing[n..m - 1];
    }
  }

  lemma {:induction false} AddInTwo(p: FilePair, a: seq<Object>, b: seq<Object>, id: string)
    ensures AddTo(p, a + b, id) == AddTo(AddTo(p, a, id), b, id)
  {
    if b == [] {
      assert a + b == a;
    } else {
      assert (a + b)[..|a + b| - 1] == a + b[..|b| - 1];
      AddInTwo(p, a, b[..|b| - 1], id);
    }
  }

  lemma SettledPrefix(listing: seq<Object>, n: nat)
    requires Settled(listing) && n <= |listing|
    ensures Settled(listing[..n])
  {
    forall k | 0 <= k < n && listing[k].kind != Other
      ensures !Complete(listing[..n][..k], listing[k].id)
    {
      assert listing[..n][..k] == listing[..k];
    }
  }

  /** In a settled listing an id is found on one page, with the pair of the whole listing. */
  lemma {:induction false} SeenSettled(pages: seq<seq<Object>>, id: string)
    requires Settled(Concat(pages)) && pages != []
    ensures Seen(pages, id)
            == if Complete(Concat(pages[..|pages| - 1]), id) then EMPTY else PairOf(Concat(pages), id)
    decreases |pages|
  {
    var front, last, all := pages[..|pages| - 1], pages[|pages| - 1], Concat(pages);
    var n := |Concat(front)|;
    assert all[..n] == Concat(front) && all[n..|all|] == last;
    SettledPrefix(all, n);
    AddInTwo(EMPTY, Concat(front), last, id);
    if front != [] {
      SeenSettled(front, id);
      var m := |Concat(front[..|front| - 1])|;
      ConcatPrefix(front, |front| - 1);
      if Complete(Concat(front[..|front| - 1]), id) {
        assert all[..m] == Concat(front[..|front| - 1]);
        CompleteStays(all, m, n, id);
      }
    }
    if Complete(Concat(front), id) {
      NothingAfter(all, n, |all|, id, EMPTY);
    }
    hide Settled, Concat, AddTo;
  }

  ghost predicate IsFound(listing: seq<Object>, f: Found) {
    Complete(listing, f.id) && f.pair == PairOf(listing, f.id)
  }

  /** Then the scan finds exactly what joining the whole listing gives, each id once. */
  lemma {:induction false} SettledFound(pages: seq<seq<Object>>, orders: seq<seq<string>>)
    requires Enumerated(pages, orders) && Settled(Concat(pages))
    ensures OnceEach(AllFound(pages, orders))
    ensures forall f :: f in AllFound(pages, orders) <==> IsFound(Concat(pages), f)
    decreases |pages|
  {
    if pages != [] {
      var n := |pages| - 1;
      var front, all := Concat(pages[..n]), Concat(pages);
      EnumeratedFront(pages, orders);
      ConcatPrefix(pages, n);
      SettledPrefix(all, |front|);
      assert all[..|front|] == front && all[..|all|] == all;
      SettledFound(pages[..n], orders[..n]);
      FoundInIs(pages, orders[n]);
      var a, b := AllFound(pages[..n], orders[..n]), FoundIn(pages, orders[n]);
      hide Enumerated, Concat, FoundIn, Settled, AllFound, NoRepeats;
      forall f
        ensures f in b <==> IsFound(all, f) && !Complete(front, f.id)
        ensures f in a ==> IsFound(all, f)
        ensures IsFound(all, f) && Complete(front, f.id) ==> f in a
      {
        SeenSettled(pages, f.id);
        if Complete(front, f.id) {
          CompleteStays(all, |front|, |all|, f.id);
        }
      }
      OnceAppend(a, b);
      assert AllFound(pages, orders) == a + b by {
        AllFoundLast(pages, orders);
      }
    }
  }

  lemma AllFoundLast(pages: seq<seq<Object>>, orders: seq<seq<string>>)
    requires |orders| == |pages| > 0
    ensures var n := |pages| - 1;
            AllFound(pages, orders) == AllFound(pages[..n], orders[..n]) + FoundIn(pages, orders[n])
  {
  }

  lemma OnceAppend(a: seq<Found>, b: seq<Found>)
    requires OnceEach(a) && OnceEach(b) && forall f, g :: f in a && g in b ==> f.id != g.id
    ensures OnceEach(a + b)
  {
    forall i, j | 0 <= i < j < |a + b|
      ensures (a + b)[i].id != (a + b)[j].id
    {
      if i < |a| <= j {
        assert a[i] in a && b[j - |a|] in b;
      }
    }
  }

  /** Settled listings, whatever failed and was queued before: the scan queues the ids that the join wants,
      each once, with the join's pair, and remembers every id that has not failed for good. */
  lemma SettledScan(pages: seq<seq<Object>>, orders: seq<seq<string>>, failed: set<int>, dedup: set<int>,
                    taskId: string -> int)
    requires Enumerated(pages, orders) && Settled(Concat(pages)) && NoCollisions(Concat(pages), taskId)
    ensures var listing, added := Concat(pages), New(AllFound(pages, orders), failed, dedup, taskId);
            && OnceEach(added)
            && forall f :: f in added <==>
                 Wanted(listing, f.id, failed, dedup, taskId) && f.pair == PairOf(listing, f.id)
    ensures forall t :: t in Known(AllFound(pages, orders), failed, dedup, taskId) <==>
              t in dedup || exists id :: Complete(Concat(pages), id) && t == taskId(PairOf(Concat(pages), id).video)
                                         && t !in failed
  {
    var listing, found := Concat(pages), AllFound(pages, orders);
    SettledFound(pages, orders);
    hide Concat, AllFound, Settled, Enumerated, PairOf;
    forall i, j | 0 <= i < j < |found|
      ensures taskId(found[i].pair.video) != taskId(found[j].pair.video)
    {
      assert found[i] in found && found[j] in found;
      assert IsFound(listing, found[i]) && IsFound(listing, found[j]);
    }
    NewAre(found, failed, dedup, taskId);
    OnceStays(found, New(found, failed, dedup, taskId), taskId);
    KnownAre(found, failed, dedup, taskId);
    hide New, Known, DistinctTasks, OnceEach;
    forall id | Complete(listing, id)
      ensures Found(id, PairOf(listing, id)) in found
    {
      assert IsFound(listing, Found(id, PairOf(listing, id)));
    }
  }

  lemma OnceStays(found: seq<Found>, part: seq<Found>, taskId: string -> int)
    requires OnceEach(found) && DistinctTasks(part, taskId) && forall f :: f in part ==> f in found
    ensures OnceEach(part)
  {
    forall i, j | 0 <= i < j < |part|
      ensures part[i].id != part[j].id
    {
      assert part[i] in found && part[j] in found;
      assert part[i] != part[j];
    }
  }

  /** Every video of `again` is one of `found`. */
  ghost predicate Covers(found: seq<Found>, again: seq<Found>) {
    forall k :: 0 <= k < |again| ==> HasVideo(found, again[k].pair.video)
  }

  ghost predicate HasVideo(found: seq<Found>, video: string) {
    exists f :: f in found && f.pair.video == video
  }

  /** A second scan that finds no new video queues nothing. */
  lemma {:induction false} RescanPushesNothing(found: seq<Found>, again: seq<Found>, failed: set<int>, dedup: set<int>,
                                               taskId: string -> int)
    requires Covers(found, again)
    ensures New(again, failed, Known(found, failed, dedup, taskId), taskId) == []
  {
    if again != [] {
      var n := |again| - 1;
      RescanPushesNothing(found, again[..n], failed, dedup, taskId);
      KnownAre(found, failed, dedup, taskId);
      KnownAre(again[..n], failed, Known(found, failed, dedup, taskId), taskId);
      assert HasVideo(found, again[n].pair.video);
    }
  }

  /** A settled listing can be scanned again, split in any other way. */
  lemma SettledRescan(pages: seq<seq<Object>>, orders: seq<seq<string>>, pages': seq<seq<Object>>,
                      orders': seq<seq<string>>, failed: set<int>, dedup: set<int>, taskId: string -> int)
    requires Enumerated(pages, orders) && Enumerated(pages', orders')
    requires Concat(pages) == Concat(pages') && Settled(Concat(pages))
    ensures New(AllFound(pages', orders'), failed, Known(AllFound(pages, orders), failed, dedup, taskId), taskId) == []
  {
    SettledFound(pages, orders);
    SettledFound(pages', orders');
    var found, again := AllFound(pages, orders), AllFound(pages', orders');
    hide AllFound, Concat, Settled, Enumerated, IsFound, New, Known;
    forall k | 0 <= k < |again|
      ensures HasVideo(found, again[k].pair.video)
    {
      assert again[k] in again;
      assert again[k] in found;
    }
    RescanPushesNothing(found, again, failed, dedup, taskId);
  }

  // ---------------------------------------------------------------- two pages

  /** The ids that a listing names, each once. */
  function IdsOf(listing: seq<Object>): (ids: seq<string>)
    ensures NoRepeats(ids) && forall i :: 0 <= i < |listing| ==> listing[i].id in ids
  {
    if listing == [] then []
    else
      var front, id := IdsOf(listing[..|listing| - 1]), listing[|listing| - 1].id;
      if id in front then front else front + [id]
  }

  function Halves(listing: seq<Object>, n: nat): seq<seq<Object>>
    requires n <= |listing|
  {
    [listing[..n], listing[n..]]
  }

  function BothOrders(listing: seq<Object>): seq<seq<string>> {
    [IdsOf(listing), IdsOf(listing)]
  }

  lemma HalvesAre(listing: seq<Object>, n: nat)
    requires n <= |listing|
    ensures Concat(Halves(listing, n)[..1]) == listing[..n] && Concat(Halves(listing, n)) == listing
    ensures forall id :: Seen(Halves(listing, n)[..1], id) == PairOf(listing[..n], id)
    ensures forall id :: Complete(listing[..n], id) ==> Seen(Halves(listing, n), id) == PairOf(listing[n..], id)
  {
    var pages := Halves(listing, n);
    assert pages[..1] == [listing[..n]] && pages[..1][..0] == [];
    assert listing[..n] + listing[n..] == listing && [] + listing[..n] == listing[..n];
    assert forall id :: Seen([], id) == EMPTY;
  }

  /** Every split has map orders that fit it. */
  lemma HalvesEnumerated(listing: seq<Object>, n: nat)
    requires n <= |listing|
    ensures Enumerated(Halves(listing, n), BothOrders(listing))
  {
    var pages, orders := Halves(listing, n), BothOrders(listing);
    HalvesAre(listing, n);
    forall p: nat
      ensures EnumeratedAt(pages, orders, p)
    {
      forall id | p < 2 && Both(Seen(pages[..p + 1], id))
        ensures id in IdsOf(listing)
      {
        SeenFrom(pages[..p + 1], 0, id);
        ConcatPrefix(pages, p + 1);
        PairFromGrows(Concat(pages[..p + 1]), listing, 0, id, Seen(pages[..p + 1], id));
      }
    }
  }

  lemma HalvesFound(listing: seq<Object>, n: nat)
    requires n <= |listing|
    ensures var pages, order := Halves(listing, n), IdsOf(listing);
            AllFound(pages, BothOrders(listing)) == FoundIn(pages[..1], order) + FoundIn(pages, order)
  {
    var pages, orders := Halves(listing, n), BothOrders(listing);
    AllFoundLast(pages, orders);
    AllFoundLast(pages[..1], orders[..1]);
    assert pages[..1][..0] == [] && orders[..1][..0] == [];
    var first := FoundIn(pages[..1], orders[0]);
    assert AllFound([], []) == [] && [] + first == first;
    hide FoundIn;
  }

  /** The first half finds what is complete in it, and the second half may find it again. */
  lemma HalvesFind(listing: seq<Object>, n: nat, id: string)
    requires n <= |listing| && Complete(listing[..n], id)
    ensures var found := AllFound(Halves(listing, n), BothOrders(listing));
            && Found(id, PairOf(listing[..n], id)) in found
            && (Complete(listing[n..], id) ==> !OnceEach(found))
  {
    var pages, orders := Halves(listing, n), BothOrders(listing);
    HalvesAre(listing, n);
    HalvesEnumerated(listing, n);
    assert EnumeratedAt(pages, orders, 0) && EnumeratedAt(pages, orders, 1);
    assert pages[..2] == pages;
    HalvesFound(listing, n);
    FoundInIs(pages[..1], orders[0]);
    FoundInIs(pages, orders[1]);
    hide FoundIn, AllFound, Seen, Enumerated, EnumeratedAt, Concat, NoRepeats;
    var first, second := FoundIn(pages[..1], orders[0]), FoundIn(pages, orders[1]);
    assert Found(id, PairOf(listing[..n], id)) in first;
    if Complete(listing[n..], id) {
      assert Found(id, PairOf(listing[n..], id)) in second;
      TwiceInAll(first, second, id);
    }
  }

  lemma TwiceInAll(first: seq<Found>, second: seq<Found>, id: string)
    requires exists f :: f in first && f.id == id
    requires exists g :: g in second && g.id == id
    ensures !OnceEach(first + second)
  {
    var i :| 0 <= i < |first| && first[i].id == id;
    var j :| 0 <= j < |second| && second[j].id == id;
    assert (first + second)[i].id == (first + second)[|first| + j].id;
  }

  // ---------------------------------------------------------------- the exact conditions

  ghost predicate JoinTask(listing: seq<Object>, id: string, t: Task, taskId: string -> int) {
    Complete(listing, id) && t == TaskOf(PairOf(listing, id), taskId)
  }

  /** The tasks that joining the whole listing gives, each once. */
  ghost predicate IsJoin(tasks: seq<Task>, listing: seq<Object>, taskId: string -> int) {
    NoRepeats(tasks) && forall t :: t in tasks <==> exists id :: JoinTask(listing, id, t, taskId)
  }

  /** What a scan queues when nothing failed and nothing was queued before. */
  ghost function Queue(pages: seq<seq<Object>>, orders: seq<seq<string>>, taskId: string -> int): seq<Task>
    requires |orders| == |pages|
  {
    TasksOf(New(AllFound(pages, orders), {}, {}, taskId), taskId)
  }

  ghost predicate Splits(pages: seq<seq<Object>>, orders: seq<seq<string>>, listing: seq<Object>) {
    Concat(pages) == listing && Enumerated(pages, orders)
  }

  /** A file behind the completion of its id changes what the whole listing has for it. */
  lemma {:induction false} LateFileStays(listing: seq<Object>, k: nat, m: nat)
    requires Keyed(listing) && k < m <= |listing| && listing[k].kind != Other
    ensures var o, p := listing[k], PairOf(listing[..m], listing[k].id);
            FileFrom(listing, k, o.id, o.kind, if o.kind == Video then p.video else p.audio)
    decreases m
  {
    var o, last := listing[k], listing[m - 1];
    assert listing[..m][..m - 1] == listing[..m - 1];
    if m - 1 > k {
      LateFileStays(listing, k, m - 1);
    }
    if last.id == o.id && last.kind == o.kind {
      assert At(listing, m - 1, o.id, o.kind);
    }
  }

  lemma SameKeySameId(listing: seq<Object>, x: string, y: string, kind: Kind, key: string)
    requires DistinctKeys(listing) && FileFrom(listing, 0, x, kind, key) && FileFrom(listing, 0, y, kind, key)
    ensures x == y
  {
  }

  lemma KeyOnOneSide(listing: seq<Object>, k: nat, id: string, kind: Kind, key: string)
    requires DistinctKeys(listing) && k <= |listing| && FileFrom(listing[..k], 0, id, kind, key)
    ensures !FileFrom(listing, k, id, kind, key)
  {
    var i: nat :| At(listing[..k], i, id, kind) && listing[..k][i].key == key;
    forall j: nat | k <= j && At(listing, j, id, kind)
      ensures listing[j].key != key
    {
      assert listing[i].key == key;
    }
  }

  lemma PairOfFrom(listing: seq<Object>, n: nat, id: string)
    requires n <= |listing|
    ensures PairFrom(listing[..n], 0, id, PairOf(listing[..n], id))
  {
    AddFrom(listing[..n], 0, 0, n, EMPTY, id);
    assert listing[..n][0..n] == listing[..n];
  }

  /** When page one ends behind both files of an id and before a further one, its task is none of the join's. */
  lemma EarlyTaskIsForeign(listing: seq<Object>, k: nat, taskId: string -> int, x: string)
    requires Keyed(listing) && DistinctKeys(listing) && k < |listing| && listing[k].kind != Other
    requires Complete(listing[..k], listing[k].id)
    ensures !JoinTask(listing, x, TaskOf(PairOf(listing[..k], listing[k].id), taskId), taskId)
  {
    var id, t := listing[k].id, TaskOf(PairOf(listing[..k], listing[k].id), taskId);
    if JoinTask(listing, x, t, taskId) {
      PairOfFrom(listing, k, id);
      PairFromGrows(listing[..k], listing, 0, id, PairOf(listing[..k], id));
      PairOfFrom(listing, |listing|, x);
      assert listing[..|listing|] == listing;
      hide PairOf, FileFrom, DistinctKeys;
      SameKeySameId(listing, x, id, Video, t.videoKey);
      LateFileStays(listing, k, |listing|);
      KeyOnOneSide(listing, k, id, listing[k].kind, if listing[k].kind == Video then t.videoKey else t.audioKey);
    }
  }

  lemma SettledJoins(pages: seq<seq<Object>>, orders: seq<seq<string>>, taskId: string -> int)
    requires Enumerated(pages, orders) && Settled(Concat(pages)) && TaskIdsDiffer(Concat(pages), taskId)
    ensures IsJoin(Queue(pages, orders, taskId), Concat(pages), taskId)
  {
    QueueIsFound(pages, orders, taskId);
    TasksDiffer(pages, orders, taskId);
    SettledFound(pages, orders);
    hide AllFound, Concat, Settled, Enumerated, New, TasksOf, IsJoin, DistinctTasks, IsFound, OnceEach;
    FoundIsJoin(AllFound(pages, orders), Concat(pages), taskId);
  }

  lemma FoundIsJoin(found: seq<Found>, listing: seq<Object>, taskId: string -> int)
    requires DistinctTasks(found, taskId) && forall f :: f in found <==> IsFound(listing, f)
    ensures IsJoin(TasksOf(found, taskId), listing, taskId)
  {
    hide PairOf, Both;
    var tasks := TasksOf(found, taskId);
    forall t
      ensures t in tasks <==> exists id :: JoinTask(listing, id, t, taskId)
    {
      if t in tasks {
        var i :| 0 <= i < |tasks| && tasks[i] == t;
        assert found[i] in found;
        assert JoinTask(listing, found[i].id, t, taskId);
      }
      if id :| JoinTask(listing, id, t, taskId) {
        assert IsFound(listing, Found(id, PairOf(listing, id)));
        var i :| 0 <= i < |found| && found[i] == Found(id, PairOf(listing, id));
        assert tasks[i] == t;
      }
    }
    hide IsFound, JoinTask;
  }

  /** Otherwise a page that ends before the late file spoils it. */
  lemma UnsettledSpoils(listing: seq<Object>, taskId: string -> int)
    returns (pages: seq<seq<Object>>, orders: seq<seq<string>>)
    requires Keyed(listing) && DistinctKeys(listing) && TaskIdsDiffer(listing, taskId) && !Settled(listing)
    ensures Splits(pages, orders, listing) && !IsJoin(Queue(pages, orders, taskId), listing, taskId)
  {
    var k :| 0 <= k < |listing| && listing[k].kind != Other && Complete(listing[..k], listing[k].id);
    pages, orders := Halves(listing, k), BothOrders(listing);
    HalvesAre(listing, k);
    HalvesEnumerated(listing, k);
    HalvesFind(listing, k, listing[k].id);
    QueueIsFound(pages, orders, taskId);
    var f := Found(listing[k].id, PairOf(listing[..k], listing[k].id));
    hide PairOf, AllFound, Enumerated, Concat, Keyed, DistinctKeys, TaskIdsDiffer, OnceEach, New, Halves, BothOrders;
    forall x
      ensures !JoinTask(listing, x, TaskOf(f.pair, taskId), taskId)
    {
      EarlyTaskIsForeign(listing, k, taskId, x);
    }
    ForeignSpoils(AllFound(pages, orders), f, listing, taskId);
  }

  lemma ForeignSpoils(found: seq<Found>, f: Found, listing: seq<Object>, taskId: string -> int)
    requires f in found && forall x :: !JoinTask(listing, x, TaskOf(f.pair, taskId), taskId)
    ensures !IsJoin(TasksOf(found, taskId), listing, taskId)
  {
    hide JoinTask;
    var i :| 0 <= i < |found| && found[i] == f;
    assert TasksOf(found, taskId)[i] in TasksOf(found, taskId);
  }

  /** Every split and every map order queue the tasks of the join, each once. */
  ghost predicate AlwaysJoins(listing: seq<Object>, taskId: string -> int) {
    forall pages, orders :: Splits(pages, orders, listing) ==> IsJoin(Queue(pages, orders, taskId), listing, taskId)
  }

  /** Every split of the listing and every map order queue exactly the tasks that joining the whole listing
      gives, each once, if and only if no file is listed after both files of its id. */
  lemma ScanJoinsExactlyWhen(listing: seq<Object>, taskId: string -> int)
    requires Keyed(listing) && DistinctKeys(listing) && TaskIdsDiffer(listing, taskId)
    ensures AlwaysJoins(listing, taskId) <==> Settled(listing)
  {
    if Settled(listing) {
      forall pages, orders | Splits(pages, orders, listing)
        ensures IsJoin(Queue(pages, orders, taskId), listing, taskId)
      {
        SettledJoins(pages, orders, taskId);
      }
    } else {
      var pages, orders := UnsettledSpoils(listing, taskId);
      hide Splits, IsJoin;
    }
  }

  /** The id is complete in the first `n` objects and again in the rest. */
  ghost predicate CompleteTwice(listing: seq<Object>, n: nat, id: string) {
    n <= |listing| && Complete(listing[..n], id) && Complete(listing[n..], id)
  }

  lemma CompleteFrom(listing: seq<Object>, n: nat, id: string, p: FilePair)
    requires Keyed(listing) && n <= |listing| && Both(p) && PairFrom(listing, n, id, p)
    ensures Complete(listing[n..], id)
  {
    var i: nat :| n <= i && At(listing, i, id, Video) && listing[i].key == p.video;
    var j: nat :| n <= j && At(listing, j, id, Audio) && listing[j].key == p.audio;
    assert listing[n..][i - n] == listing[i] && listing[n..][j - n] == listing[j];
    PairHas(listing[n..], id);
  }

  /** What is found twice was complete twice. */
  lemma {:induction false} FoundOnce(pages: seq<seq<Object>>, orders: seq<seq<string>>)
    requires Enumerated(pages, orders) && Keyed(Concat(pages))
    requires forall n: nat, id :: !CompleteTwice(Concat(pages), n, id)
    ensures OnceEach(AllFound(pages, orders))
    decreases |pages|
  {
    if pages != [] {
      var n := |pages| - 1;
      var all, front := Concat(pages), Concat(pages[..n]);
      EnumeratedFront(pages, orders);
      ConcatPrefix(pages, n);
      FoundInIs(pages, orders[n]);
      AllFoundLast(pages, orders);
      var a, b := AllFound(pages[..n], orders[..n]), FoundIn(pages, orders[n]);
      hide Enumerated, Concat, FoundIn, AllFound, NoRepeats;
      forall m: nat, id
        ensures !CompleteTwice(front, m, id)
      {
        if CompleteTwice(front, m, id) {
          TwiceGrows(front, all, m, id);
        }
      }
      FoundOnce(pages[..n], orders[..n]);
      forall f, g | f in a && g in b
        ensures f.id != g.id
      {
        if f.id == g.id {
          FoundTwice(pages, orders, f, g);
        }
      }
      OnceAppend(a, b);
    }
  }

  lemma TwiceGrows(front: seq<Object>, listing: seq<Object>, m: nat, id: string)
    requires Keyed(listing) && front <= listing && CompleteTwice(front, m, id)
    ensures CompleteTwice(listing, m, id)
  {
    assert listing[..m] == front[..m];
    PairHas(front[m..], id);
    PairHas(listing[m..], id);
    HasGrows(front[m..], listing[m..], id, Video);
    HasGrows(front[m..], listing[m..], id, Audio);
  }

  lemma HasGrows(front: seq<Object>, listing: seq<Object>, id: string, kind: Kind)
    requires front <= listing
    ensures Has(front, id, kind) ==> Has(listing, id, kind)
  {
    if i :| 0 <= i < |front| && front[i].id == id && front[i].kind == kind {
      assert listing[i] == front[i];
    }
  }

  lemma FoundTwice(pages: seq<seq<Object>>, orders: seq<seq<string>>, f: Found, g: Found)
    requires |orders| == |pages| > 0 && Keyed(Concat(pages)) && f.id == g.id
    requires f in AllFound(pages[..|pages| - 1], orders[..|pages| - 1])
    requires Both(g.pair) && g.pair == Seen(pages, g.id)
    ensures exists n: nat :: CompleteTwice(Concat(pages), n, f.id)
  {
    var front, all := pages[..|pages| - 1], Concat(pages);
    var p := FoundAt(front, orders[..|front|], f);
    assert front[..p + 1] == pages[..p + 1];
    var upTo := Concat(pages[..p + 1]);
    ConcatPrefix(pages, p + 1);
    hide Concat, Seen, FileFrom, AllFound;
    assert upTo == all[..|upTo|] && upTo[0..] == upTo;
    SeenFrom(pages[..p + 1], 0, f.id);
    CompleteFrom(upTo, 0, f.id, f.pair);
    SeenFrom(pages, p + 1, f.id);
    CompleteFrom(all, |upTo|, f.id, g.pair);
    assert CompleteTwice(all, |upTo|, f.id);
  }

  /** No split and no map order queues an id twice. */
  ghost predicate AlwaysOnce(listing: seq<Object>, taskId: string -> int) {
    forall pages, orders :: Splits(pages, orders, listing) ==> QueuedOnce(pages, orders, taskId)
  }

  ghost predicate QueuedOnce(pages: seq<seq<Object>>, orders: seq<seq<string>>, taskId: string -> int)
    requires |orders| == |pages|
  {
    OnceEach(New(AllFound(pages, orders), {}, {}, taskId))
  }

  /** No split and no map order queues an id twice if and only if no id is complete in some first part of the
      listing and again in the rest. */
  lemma ScanOnceExactlyWhen(listing: seq<Object>, taskId: string -> int)
    requires Keyed(listing) && TaskIdsDiffer(listing, taskId)
    ensures AlwaysOnce(listing, taskId) <==> forall n: nat, id :: !CompleteTwice(listing, n, id)
  {
    if forall n: nat, id :: !CompleteTwice(listing, n, id) {
      forall pages, orders | Splits(pages, orders, listing)
        ensures QueuedOnce(pages, orders, taskId)
      {
        FoundOnce(pages, orders);
        QueueIsFound(pages, orders, taskId);
      }
    } else {
      var n: nat, id :| CompleteTwice(listing, n, id);
      var pages, orders := Halves(listing, n), BothOrders(listing);
      HalvesAre(listing, n);
      HalvesEnumerated(listing, n);
      HalvesFind(listing, n, id);
      QueueIsFound(pages, orders, taskId);
      hide AllFound, Enumerated, Concat;
      assert Splits(pages, orders, listing);
    }
  }

  /** An id with its files in two directories: both pairs are queued when a page ends between them, and the
      first pair is none of the join's. */
  lemma TwoDirectories(taskId: string -> int) returns (listing: seq<Object>)
    requires taskId("2024/a_video.mp4") != taskId("x/a_video.webm")
    ensures Keyed(listing) && DistinctKeys(listing) && TaskIdsDiffer(listing, taskId)
    ensures !AlwaysJoins(listing, taskId) && !AlwaysOnce(listing, taskId)
  {
    var audio, video := Object("2024/a_audio.webm", Audio, "a", 1), Object("2024/a_video.mp4", Video, "a", 2);
    var audio', video' := Object("x/a_audio.m4a", Audio, "a", 1), Object("x/a_video.webm", Video, "a", 2);
    listing := [audio, video, audio', video'];
    assert |audio.key| == 17 && |video.key| == 16 && |audio'.key| == 13 && |video'.key| == 14;
    assert listing[..2] == [audio, video] && listing[2..] == [audio', video'];
    TwoFiles(audio, video, "a");
    TwoFiles(audio', video', "a");
    hide Complete, AlwaysJoins, AlwaysOnce;
    assert CompleteTwice(listing, 2, "a") && Complete(listing[..2], listing[2].id);
    ScanJoinsExactlyWhen(listing, taskId);
    ScanOnceExactlyWhen(listing, taskId);
  }

  lemma TwoFiles(audio: Object, video: Object, id: string)
    requires audio.kind == Audio && video.kind == Video && audio.id == video.id == id
    requires audio.key != "" && video.key != ""
    ensures Complete([audio, video], id)
  {
    assert [audio, video][..1] == [audio] && [audio][..0] == [];
    assert AddTo(EMPTY, [], id) == EMPTY && PairOf([audio], id) == Put(EMPTY, audio);
  }
}
