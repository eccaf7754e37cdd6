/** Where the files of what a scan finds come from, and that nothing it finds is dropped. */
module ScanFiles {
  import opened Sequences
  import opened StreamPairing
  import opened StreamScan

  ghost function Concat(pages: seq<seq<Object>>): seq<Object> {
    if pages == [] then [] else Concat(pages[..|pages| - 1]) + pages[|pages| - 1]
  }

  lemma {:induction false} ConcatPrefix(pages: seq<seq<Object>>, p: nat)
    requires p <= |pages|
    ensures Concat(pages[..p]) <= Concat(pages)
    decreases |pages|
  {
    if p < |pages| {
      ConcatPrefix(pages[..|pages| - 1], p);
      assert pages[..|pages| - 1][..p] == pages[..p];
    } else {
      assert pages[..p] == pages;
    }
  }

  // ---------------------------------------------------------------- where the files of a pair come from

  /** The key is that of a file of this kind of the id at or behind position `n`. */
  ghost predicate FileFrom(listing: seq<Object>, n: nat, id: string, kind: Kind, key: string) {
    exists i: nat :: n <= i && At(listing, i, id, kind) && listing[i].key == key
  }

  ghost predicate PairFrom(listing: seq<Object>, n: nat, id: string, p: FilePair) {
    && (p.video != "" ==> FileFrom(listing, n, id, Video, p.video))
    && (p.audio != "" ==> FileFrom(listing, n, id, Audio, p.audio))
  }

  lemma FileFromGrows(front: seq<Object>, listing: seq<Object>, n: nat, id: string, kind: Kind, key: string)
    requires front <= listing && FileFrom(front, n, id, kind, key)
    ensures FileFrom(listing, n, id, kind, key)
  {
    var i: nat :| n <= i && At(front, i, id, kind) && front[i].key == key;
    assert At(listing, i, id, kind) && listing[i].key == key;
  }

  lemma PairFromGrows(front: seq<Object>, listing: seq<Object>, n: nat, id: string, p: FilePair)
    requires front <= listing && PairFrom(front, n, id, p)
    ensures PairFrom(listing, n, id, p)
  {
    hide FileFrom;
    if p.video != "" {
      FileFromGrows(front, listing, n, id, Video, p.video);
    }
    if p.audio != "" {
      FileFromGrows(front, listing, n, id, Audio, p.audio);
    }
  }

  lemma {:induction false} AddFrom(listing: seq<Object>, n: nat, a: nat, b: nat, p: FilePair, id: string)
    requires n <= a <= b <= |listing| && PairFrom(listing, n, id, p)
    ensures PairFrom(listing, n, id, AddTo(p, listing[a..b], id))
    decreases b
  {
    if a < b {
      AddFrom(listing, n, a, b - 1, p, id);
      assert listing[a..b][..b - a - 1] == listing[a..b - 1];
      var o := listing[b - 1];
      if o.id == id {
        assert At(listing, b - 1, id, o.kind);
      }
    }
  }

  /** The pair of an id, after a page that completed it, is made of later files alone. */
  lemma {:induction false} SeenFrom(pages: seq<seq<Object>>, p: nat, id: string)
    requires p == 0 || (p < |pages| && Both(Seen(pages[..p], id)))
    ensures PairFrom(Concat(pages), |Concat(pages[..p])|, id, Seen(pages, id))
    decreases |pages|
  {
    if pages != [] {
      var front, all := pages[..|pages| - 1], Concat(pages);
      var n, m := |Concat(pages[..p])|, |Concat(front)|;
      assert p < |front| ==> front[..p] == pages[..p];
      assert p == |front| ==> front == pages[..p];
      ConcatPrefix(front, p);
      assert front[..p] == pages[..p];
      var kept := Kept(Seen(front, id));
      if p == |front| {
        assert kept == EMPTY;
      } else {
        SeenFrom(front, p, id);
        PairFromGrows(Concat(front), all, n, id, Seen(front, id));
      }
      assert all[m..|all|] == pages[|pages| - 1];
      AddFrom(all, n, m, |all|, kept, id);
    }
  }

  lemma {:induction false} FoundInIs(pages: seq<seq<Object>>, order: seq<string>)
    ensures forall f :: f in FoundIn(pages, order) <==>
                        f.id in order && Both(Seen(pages, f.id)) && f.pair == Seen(pages, f.id)
    ensures NoRepeats(order) ==> OnceEach(FoundIn(pages, order))
  {
    hide Seen;
    if order != [] {
      var n := |order| - 1;
      FoundInIs(pages, order[..n]);
      assert order == order[..n] + [order[n]];
      var front := FoundIn(pages, order[..n]);
      assert forall i :: 0 <= i < |front| ==> front[i] in front;
    }
  }

  /** No id is found twice. */
  ghost predicate OnceEach(found: seq<Found>) {
    forall i, j :: 0 <= i < j < |found| ==> found[i].id != found[j].id
  }

  lemma {:induction false} FoundAt(pages: seq<seq<Object>>, orders: seq<seq<string>>, f: Found) returns (p: nat)
    requires |orders| == |pages| && f in AllFound(pages, orders)
    ensures p < |pages| && Both(f.pair) && f.pair == Seen(pages[..p + 1], f.id)
    decreases |pages|
  {
    var n := |pages| - 1;
    if f in AllFound(pages[..n], orders[..n]) {
      p := FoundAt(pages[..n], orders[..n], f);
      assert pages[..n][..p + 1] == pages[..p + 1];
    } else {
      p := n;
      FoundInIs(pages, orders[n]);
      assert pages[..n + 1] == pages;
    }
  }

  lemma EnumeratedFront(pages: seq<seq<Object>>, orders: seq<seq<string>>)
    requires Enumerated(pages, orders) && pages != []
    ensures var n := |pages| - 1;
            && Enumerated(pages[..n], orders[..n]) && NoRepeats(orders[n])
            && forall id :: Both(Seen(pages, id)) ==> id in orders[n]
  {
    var n := |pages| - 1;
    assert pages[..n + 1] == pages;
    assert EnumeratedAt(pages, orders, n);
    hide Seen, NoRepeats;
    forall p: nat
      ensures EnumeratedAt(pages[..n], orders[..n], p)
    {
      assert EnumeratedAt(pages, orders, p);
      assert p < n ==> pages[..n][..p + 1] == pages[..p + 1];
    }
  }

  // ---------------------------------------------------------------- nothing found is dropped

  /** Every video has a task id of its own. */
  ghost predicate TaskIdsDiffer(listing: seq<Object>, taskId: string -> int) {
    forall i, j :: 0 <= i < j < |listing| && listing[i].kind == listing[j].kind == Video ==>
      taskId(listing[i].key) != taskId(listing[j].key)
  }

  ghost predicate DistinctTasks(found: seq<Found>, taskId: string -> int) {
    forall i, j :: 0 <= i < j < |found| ==> taskId(found[i].pair.video) != taskId(found[j].pair.video)
  }

  lemma FilesDiffer(listing: seq<Object>, taskId: string -> int, x: string, y: string, a: string, b: string, n: nat)
    requires TaskIdsDiffer(listing, taskId) && n <= |listing|
    requires FileFrom(listing, 0, x, Video, a) && FileFrom(listing, 0, y, Video, b)
    requires x != y || (FileFrom(listing[..n], 0, x, Video, a) && FileFrom(listing, n, y, Video, b))
    ensures taskId(a) != taskId(b)
  {
    if x != y {
      var i: nat :| At(listing, i, x, Video) && listing[i].key == a;
      var j: nat :| At(listing, j, y, Video) && listing[j].key == b;
      assert i != j;
    } else {
      var i: nat :| At(listing[..n], i, x, Video) && listing[..n][i].key == a;
      var j: nat :| n <= j && At(listing, j, y, Video) && listing[j].key == b;
      assert listing[i].key == a && listing[i].kind == Video;
    }
  }

  lemma {:induction false} TasksDiffer(pages: seq<seq<Object>>, orders: seq<seq<string>>, taskId: string -> int)
    requires Enumerated(pages, orders) && TaskIdsDiffer(Concat(pages), taskId)
    ensures DistinctTasks(AllFound(pages, orders), taskId)
    decreases |pages|
  {
    if pages != [] {
      var n := |pages| - 1;
      EnumeratedFront(pages, orders);
      ConcatPrefix(pages, n);
      TasksDiffer(pages[..n], orders[..n], taskId);
      FoundInIs(pages, orders[n]);
      var a, b := AllFound(pages[..n], orders[..n]), FoundIn(pages, orders[n]);
      hide Enumerated, TaskIdsDiffer, Concat, Seen, FoundIn;
      forall f, g | f in a && g in b
        ensures taskId(f.pair.video) != taskId(g.pair.video)
      {
        EarlierDiffers(pages, orders, taskId, f, g);
      }
      forall i, j | 0 <= i < j < |b|
        ensures taskId(b[i].pair.video) != taskId(b[j].pair.video)
      {
        assert b[i] in b && b[j] in b;
        SeenFrom(pages, 0, b[i].id);
        SeenFrom(pages, 0, b[j].id);
        FilesDiffer(Concat(pages), taskId, b[i].id, b[j].id, b[i].pair.video, b[j].pair.video, 0);
      }
      DistinctAppend(a, b, taskId);
      assert AllFound(pages, orders) == a + b;
    }
  }

  lemma DistinctAppend(a: seq<Found>, b: seq<Found>, taskId: string -> int)
    requires DistinctTasks(a, taskId) && DistinctTasks(b, taskId)
    requires forall f, g :: f in a && g in b ==> taskId(f.pair.video) != taskId(g.pair.video)
    ensures DistinctTasks(a + b, taskId)
  {
    forall i, j | 0 <= i < j < |a + b|
      ensures taskId((a + b)[i].pair.video) != taskId((a + b)[j].pair.video)
    {
      if i < |a| <= j {
        assert a[i] in a && b[j - |a|] in b;
      }
    }
  }

  lemma EarlierDiffers(pages: seq<seq<Object>>, orders: seq<seq<string>>, taskId: string -> int, f: Found, g: Found)
    requires |orders| == |pages| > 0 && TaskIdsDiffer(Concat(pages), taskId)
    requires f in AllFound(pages[..|pages| - 1], orders[..|pages| - 1])
    requires Both(g.pair) && g.pair == Seen(pages, g.id)
    ensures taskId(f.pair.video) != taskId(g.pair.video)
  {
    var front, all := pages[..|pages| - 1], Concat(pages);
    var p := FoundAt(front, orders[..|front|], f);
    assert front[..p + 1] == pages[..p + 1];
    var upTo := Concat(pages[..p + 1]);
    ConcatPrefix(pages, p + 1);
    hide Concat, Seen, TaskIdsDiffer, FileFrom, AllFound;
    SeenFrom(pages[..p + 1], 0, f.id);
    PairFromGrows(upTo, all, 0, f.id, f.pair);
    SeenFrom(pages, 0, g.id);
    assert upTo == all[..|upTo|];
    if f.id == g.id {
      SeenFrom(pages, p + 1, f.id);
    }
    FilesDiffer(all, taskId, f.id, g.id, f.pair.video, g.pair.video, |upTo|);
  }

  lemma {:induction false} KnownAre(found: seq<Found>, failed: set<int>, dedup: set<int>, taskId: string -> int)
    ensures forall t :: t in Known(found, failed, dedup, taskId) <==>
                        t in dedup || exists f :: f in found && taskId(f.pair.video) == t && t !in failed
  {
    if found != [] {
      var n := |found| - 1;
      KnownAre(found[..n], failed, dedup, taskId);
      assert found == found[..n] + [found[n]];
    }
  }

  lemma LastDiffers(found: seq<Found>, taskId: string -> int)
    requires DistinctTasks(found, taskId) && found != []
    ensures var n := |found| - 1;
            forall f :: f in found[..n] ==> taskId(f.pair.video) != taskId(found[n].pair.video)
  {
    var n := |found| - 1;
    forall f | f in found[..n]
      ensures taskId(f.pair.video) != taskId(found[n].pair.video)
    {
      var i :| 0 <= i < n && found[..n][i] == f;
      assert found[i] == f;
    }
  }

  /** The SADD of the last of different candidates adds something unless its task was queued before. */
  lemma NewLast(found: seq<Found>, failed: set<int>, dedup: set<int>, taskId: string -> int)
    requires DistinctTasks(found, taskId) && found != []
    ensures var n := |found| - 1;
            var t := taskId(found[n].pair.video);
            New(found, failed, dedup, taskId)
            == New(found[..n], failed, dedup, taskId) + if t in failed || t in dedup then [] else [found[n]]
  {
    KnownAre(found[..|found| - 1], failed, dedup, taskId);
    LastDiffers(found, taskId);
  }

  /** Of candidates with different task ids exactly those are new that have neither failed for good nor been
      queued before. */
  lemma {:induction false} NewAre(found: seq<Found>, failed: set<int>, dedup: set<int>, taskId: string -> int)
    requires DistinctTasks(found, taskId)
    ensures DistinctTasks(New(found, failed, dedup, taskId), taskId)
    ensures forall f :: f in New(found, failed, dedup, taskId) <==>
              f in found && taskId(f.pair.video) !in failed && taskId(f.pair.video) !in dedup
  {
    if found != [] {
      var n := |found| - 1;
      NewAre(found[..n], failed, dedup, taskId);
      NewLast(found, failed, dedup, taskId);
      LastDiffers(found, taskId);
      hide New, Known;
      assert found == found[..n] + [found[n]];
      DistinctAppend(New(found[..n], failed, dedup, taskId), [found[n]], taskId);
      hide DistinctTasks;
    }
  }

  lemma {:induction false} NewIsAll(found: seq<Found>, taskId: string -> int)
    requires DistinctTasks(found, taskId)
    ensures New(found, {}, {}, taskId) == found
  {
    if found != [] {
      var n := |found| - 1;
      NewIsAll(found[..n], taskId);
      NewLast(found, {}, {}, taskId);
      hide New, Known, DistinctTasks;
      assert found == found[..n] + [found[n]];
    }
  }

  /** With nothing failed and nothing queued before, whatever is found is queued, each time it is. */
  lemma QueueIsFound(pages: seq<seq<Object>>, orders: seq<seq<string>>, taskId: string -> int)
    requires Enumerated(pages, orders) && TaskIdsDiffer(Concat(pages), taskId)
    ensures New(AllFound(pages, orders), {}, {}, taskId) == AllFound(pages, orders)
  {
    TasksDiffer(pages, orders, taskId);
    NewIsAll(AllFound(pages, orders), taskId);
  }
}
