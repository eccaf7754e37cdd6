/** The sharded layout of a job's tasks: 256 dedup hashes and one sorted set per 50000 ids stand for one
    map and one ordered set. */
module ShardedStorage {
  import opened Sequences

  const DEDUP_SHARDS: nat := 256
  const BUCKET_SIZE: int := 50000
  const FETCH_BATCH: nat := 1000

  // ---------------------------------------------------------------- the dedup shards are one map

  function Shard(hash: string -> nat, src: string): nat {
    hash(src) % DEDUP_SHARDS
  }

  /** Every path is in the shard of its hash. */
  ghost predicate Placed(shards: seq<map<string, int>>, hash: string -> nat) {
    && |shards| == DEDUP_SHARDS
    && forall k: nat, src :: k < |shards| && src in shards[k] ==> Shard(hash, src) == k
  }

  ghost function Union(shards: seq<map<string, int>>): map<string, int> {
    if shards == [] then map[] else Union(shards[..|shards| - 1]) + shards[|shards| - 1]
  }

  ghost predicate Disjoint(shards: seq<map<string, int>>) {
    forall i: nat, j: nat, src :: i < j < |shards| && src in shards[i] ==> src !in shards[j]
  }

  lemma PlacedDisjoint(shards: seq<map<string, int>>, hash: string -> nat)
    requires Placed(shards, hash)
    ensures Disjoint(shards)
  {
    forall i: nat, j: nat, src | i < j < |shards| && src in shards[i]
      ensures src !in shards[j]
    {
      assert Shard(hash, src) == i;
    }
  }

  lemma {:induction false} UnionHolds(shards: seq<map<string, int>>, k: nat, src: string)
    requires Disjoint(shards) && k < |shards| && src in shards[k]
    ensures src in Union(shards) && Union(shards)[src] == shards[k][src]
  {
    var n := |shards| - 1;
    if k < n {
      UnionHolds(shards[..n], k, src);
    }
  }

  lemma {:induction false} UnionOnlyHolds(shards: seq<map<string, int>>, src: string) returns (k: nat)
    requires src in Union(shards)
    ensures k < |shards| && src in shards[k]
  {
    k := |shards| - 1;
    if src !in shards[k] {
      k := UnionOnlyHolds(shards[..k], src);
    }
  }

  /** Looking a path up in its shard is looking it up in the whole map. */
  lemma ShardLookup(shards: seq<map<string, int>>, hash: string -> nat, src: string)
    requires Placed(shards, hash)
    ensures var shard := shards[Shard(hash, src)];
            && (src in shard <==> src in Union(shards))
            && (src in shard ==> shard[src] == Union(shards)[src])
  {
    var k := Shard(hash, src);
    PlacedDisjoint(shards, hash);
    if src in shards[k] {
      UnionHolds(shards, k, src);
    } else if src in Union(shards) {
      var other := UnionOnlyHolds(shards, src);
      assert false;
    }
  }

  /** Writing a path into its shard is writing it into the whole map. */
  lemma ShardWrite(shards: seq<map<string, int>>, hash: string -> nat, src: string, id: int)
    requires Placed(shards, hash)
    ensures var k := Shard(hash, src);
            var shards' := shards[k := shards[k][src := id]];
            Placed(shards', hash) && Union(shards') == Union(shards)[src := id]
  {
    var k := Shard(hash, src);
    var shards' := shards[k := shards[k][src := id]];
    forall x
      ensures x in Union(shards') <==> x in Union(shards) || x == src
      ensures x in Union(shards') ==> Union(shards')[x] == if x == src then id else Union(shards)[x]
    {
      ShardLookup(shards, hash, x);
      ShardLookup(shards', hash, x);
    }
  }

  // ---------------------------------------------------------------- the buckets are one ordered set

  /** ZADD: the member goes to its place in the order, once. */
  function Insert(ids: seq<int>, id: int): seq<int> {
    if ids == [] then [id]
    else if id < ids[0] then [id] + ids
    else if id == ids[0] then ids
    else [ids[0]] + Insert(ids[1..], id)
  }

  lemma {:induction false} InsertKeeps(ids: seq<int>, id: int)
    requires Ascending(ids)
    ensures Ascending(Insert(ids, id))
    ensures forall x :: x in Insert(ids, id) <==> x in ids || x == id
  {
    if ids != [] && id > ids[0] {
      InsertKeeps(ids[1..], id);
      var rest := Insert(ids[1..], id);
      assert ids == [ids[0]] + ids[1..];
      forall j | 0 <= j < |rest|
        ensures ids[0] < rest[j]
      {
        assert rest[j] in rest;
      }
    }
  }

  function Bucket(buckets: map<int, seq<int>>, b: int): seq<int> {
    if b in buckets then buckets[b] else []
  }

  ghost predicate Bucketed(buckets: map<int, seq<int>>) {
    forall b :: b in buckets ==>
      Ascending(buckets[b]) && forall id :: id in buckets[b] ==> id >= 1 && id / BUCKET_SIZE == b
  }

  ghost predicate Holds(buckets: map<int, seq<int>>, id: int) {
    id in Bucket(buckets, id / BUCKET_SIZE)
  }

  lemma BucketWrite(buckets: map<int, seq<int>>, id: int)
    requires Bucketed(buckets) && id >= 1
    ensures var b := id / BUCKET_SIZE;
            var buckets' := buckets[b := Insert(Bucket(buckets, b), id)];
            Bucketed(buckets') && forall x :: Holds(buckets', x) <==> Holds(buckets, x) || x == id
  {
    InsertKeeps(Bucket(buckets, id / BUCKET_SIZE), id);
  }

  /** The buckets below `n`, one after the other. */
  function Flatten(buckets: map<int, seq<int>>, n: nat): seq<int> {
    if n == 0 then [] else Flatten(buckets, n - 1) + Bucket(buckets, n - 1)
  }

  /** In bucket order the members are in id order, each once. */
  lemma {:induction false} FlattenIsOrderedSet(buckets: map<int, seq<int>>, n: nat)
    requires Bucketed(buckets)
    ensures Ascending(Flatten(buckets, n))
    ensures forall id :: id in Flatten(buckets, n) <==> Holds(buckets, id) && 1 <= id < n * BUCKET_SIZE
  {
    if n > 0 {
      FlattenIsOrderedSet(buckets, n - 1);
      var front, last := Flatten(buckets, n - 1), Bucket(buckets, n - 1);
      forall i, j | 0 <= i < |front| && 0 <= j < |last|
        ensures front[i] < last[j]
      {
        assert front[i] in front && last[j] in last;
      }
      forall id
        ensures id in Flatten(buckets, n) <==> Holds(buckets, id) && 1 <= id < n * BUCKET_SIZE
      {
        assert id in Flatten(buckets, n) <==> id in front || id in last;
        assert id in last ==> id / BUCKET_SIZE == n - 1;
        assert Holds(buckets, id) ==> id in Bucket(buckets, id / BUCKET_SIZE);
      }
    }
  }

  // ---------------------------------------------------------------- reading from an offset

  /** ZRANGEBYSCORE from `start` on, at most `count` members. */
  function RangeFrom(ids: seq<int>, start: int, count: nat): seq<int> {
    if ids == [] || count == 0 then []
    else if ids[0] < start then RangeFrom(ids[1..], start, count)
    else [ids[0]] + RangeFrom(ids[1..], start, count - 1)
  }

  lemma InTail(ids: seq<int>)
    requires ids != []
    ensures forall id :: id in ids <==> id == ids[0] || id in ids[1..]
  {
    assert ids == [ids[0]] + ids[1..];
  }

  lemma {:induction false} RangeEmpty(ids: seq<int>, start: int, count: nat)
    requires count > 0
    ensures RangeFrom(ids, start, count) == [] <==> forall id :: id in ids ==> id < start
    decreases ids
  {
    if ids != [] {
      InTail(ids);
      if ids[0] < start {
        RangeEmpty(ids[1..], start, count);
      } else {
        assert ids[0] in ids;
      }
    }
  }

  lemma {:induction false} RangeIs(ids: seq<int>, start: int, count: nat)
    requires Ascending(ids)
    ensures var r := RangeFrom(ids, start, count);
            && |r| <= count && Ascending(r)
            && (forall id :: id in r ==> id in ids && id >= start)
            && (count > 0 ==> forall id :: id in ids && id >= start && id !in r ==> r != [] && r[|r| - 1] < id)
    decreases ids
  {
    if ids != [] && count > 0 {
      InTail(ids);
      RangeIs(ids[1..], start, if ids[0] < start then count else count - 1);
      if ids[0] >= start {
        HeadFirst(ids, RangeFrom(ids[1..], start, count - 1));
      }
    }
  }

  lemma HeadFirst(ids: seq<int>, r: seq<int>)
    requires ids != [] && Ascending(ids) && Ascending(r) && forall id :: id in r ==> id in ids[1..]
    ensures Ascending([ids[0]] + r) && forall id :: id in [ids[0]] + r <==> id == ids[0] || id in r
    ensures forall id :: id in ids[1..] ==> ids[0] < id
  {
    forall k | 0 <= k < |r|
      ensures ids[0] < r[k]
    {
      assert r[k] in r;
    }
  }

  /** What one read is for: at most 1000 held ids above the offset, ascending, and no held id between the
      offset and the last of them left out. */
  ghost predicate ReadsOn(buckets: map<int, seq<int>>, offset: nat, ids: seq<int>) {
    && |ids| <= FETCH_BATCH && Ascending(ids)
    && (forall id :: id in ids ==> Holds(buckets, id) && id > offset)
    && (ids != [] ==> forall id :: Holds(buckets, id) && offset < id <= ids[|ids| - 1] ==> id in ids)
  }

  /** The ids `fillShardedTxBuffer` reads behind `offset` before it asks the database. */
  method ReadBehind(buckets: map<int, seq<int>>, offset: nat) returns (ids: seq<int>)
    requires Bucketed(buckets)
    ensures ids == ReadIds(buckets, offset) && ReadsOn(buckets, offset, ids)
  {
    ReadIdsReadOn(buckets, offset);
    var startID := offset + 1;
    ids := RangeFrom(Bucket(buckets, startID / BUCKET_SIZE), startID, FETCH_BATCH);
    if |ids| == 0 {
      var nextStartID := (startID / BUCKET_SIZE + 1) * BUCKET_SIZE;
      ids := RangeFrom(Bucket(buckets, nextStartID / BUCKET_SIZE), nextStartID, FETCH_BATCH);
    }
  }

  function ReadIds(buckets: map<int, seq<int>>, offset: nat): seq<int> {
    var start := offset + 1;
    var next := (start / BUCKET_SIZE + 1) * BUCKET_SIZE;
    var ids := RangeFrom(Bucket(buckets, start / BUCKET_SIZE), start, FETCH_BATCH);
    if ids != [] then ids else RangeFrom(Bucket(buckets, next / BUCKET_SIZE), next, FETCH_BATCH)
  }

  /** A read in bucket `b` from `start` on, when nothing is held between the offset and `start`. */
  lemma BucketRead(buckets: map<int, seq<int>>, offset: nat, b: int, start: int)
    requires Bucketed(buckets) && start / BUCKET_SIZE == b && offset < start
    requires forall id :: Holds(buckets, id) && offset < id ==> id >= start
    ensures ReadsOn(buckets, offset, RangeFrom(Bucket(buckets, b), start, FETCH_BATCH))
  {
    var ids := RangeFrom(Bucket(buckets, b), start, FETCH_BATCH);
    RangeIs(Bucket(buckets, b), start, FETCH_BATCH);
    hide RangeFrom, Ascending;
    forall id | id in Bucket(buckets, b)
      ensures Holds(buckets, id) && id / BUCKET_SIZE == b
    {
    }
    if ids != [] {
      var last := ids[|ids| - 1];
      assert last in ids && last / BUCKET_SIZE == b;
      forall id | Holds(buckets, id) && offset < id <= last
        ensures id in ids
      {
        SameBucket(start, id, last);
      }
    }
  }

  lemma SameBucket(lo: int, id: int, hi: int)
    requires lo <= id <= hi && lo / BUCKET_SIZE == hi / BUCKET_SIZE
    ensures id / BUCKET_SIZE == lo / BUCKET_SIZE
  {
  }

  lemma ReadIdsReadOn(buckets: map<int, seq<int>>, offset: nat)
    requires Bucketed(buckets)
    ensures ReadsOn(buckets, offset, ReadIds(buckets, offset))
  {
    var start := offset + 1;
    var b := start / BUCKET_SIZE;
    var next := (b + 1) * BUCKET_SIZE;
    assert next / BUCKET_SIZE == b + 1;
    BucketRead(buckets, offset, b, start);
    if RangeFrom(Bucket(buckets, b), start, FETCH_BATCH) == [] {
      RangeEmpty(Bucket(buckets, b), start, FETCH_BATCH);
      hide RangeFrom, ReadsOn;
      forall id | Holds(buckets, id) && offset < id
        ensures id >= next
      {
        assert id in Bucket(buckets, id / BUCKET_SIZE);
        assert id / BUCKET_SIZE != b;
        if id < next {
          SameBucket(start, id, next - 1);
        }
      }
      BucketRead(buckets, offset, b + 1, next);
    }
  }

  /** The read finds something if and only if a task beyond the offset is in the same bucket as the next
      id or in the one after it; a longer gap leaves it empty-handed. */
  lemma ReadFindsExactlyWhen(buckets: map<int, seq<int>>, offset: nat)
    requires Bucketed(buckets)
    ensures ReadIds(buckets, offset) != [] <==>
            exists id :: Holds(buckets, id) && offset < id < ((offset + 1) / BUCKET_SIZE + 2) * BUCKET_SIZE
  {
    var start := offset + 1;
    var b := start / BUCKET_SIZE;
    var next := (b + 1) * BUCKET_SIZE;
    assert next / BUCKET_SIZE == b + 1;
    RangeEmpty(Bucket(buckets, b), start, FETCH_BATCH);
    RangeEmpty(Bucket(buckets, b + 1), next, FETCH_BATCH);
    if id :| id in Bucket(buckets, b) && id >= start {
      assert Holds(buckets, id);
    }
    var after := Bucket(buckets, b + 1);
    if id :| id in after && id >= next {
      assert Holds(buckets, id);
    }
    if id :| Holds(buckets, id) && offset < id < (b + 2) * BUCKET_SIZE {
      TwoBuckets(start, id);
      assert id in Bucket(buckets, id / BUCKET_SIZE);
    }
  }

  lemma TwoBuckets(start: int, id: int)
    requires start <= id < (start / BUCKET_SIZE + 2) * BUCKET_SIZE
    ensures id / BUCKET_SIZE == start / BUCKET_SIZE
            || (id / BUCKET_SIZE == start / BUCKET_SIZE + 1 && id >= (start / BUCKET_SIZE + 1) * BUCKET_SIZE)
  {
  }

  /** Every id up to `maxId` has a task, and no other. */
  ghost predicate GapFree(buckets: map<int, seq<int>>, maxId: nat) {
    Bucketed(buckets) && forall id :: Holds(buckets, id) <==> 1 <= id <= maxId
  }

  function Interval(lo: int, n: nat): seq<int> {
    seq(n, i => lo + i)
  }

  function Min(a: int, b: int): int {
    if a < b then a else b
  }

  /** `ids` ascends, has all of `start..hi` and nothing above. */
  ghost predicate Covers(ids: seq<int>, start: int, hi: int) {
    && Ascending(ids)
    && (forall id :: id in ids ==> id <= hi)
    && forall id :: start <= id <= hi ==> id in ids
  }

  lemma CoversTail(ids: seq<int>, start: int, hi: int)
    requires Covers(ids, start, hi) && ids != []
    ensures ids[0] < start ==> Covers(ids[1..], start, hi)
    ensures ids[0] >= start ==> ids[0] == start && Covers(ids[1..], start + 1, hi)
    ensures ids[0] >= start ==> forall k :: 0 <= k < |ids| - 1 ==> start < ids[1..][k]
  {
    InTail(ids);
    var rest := ids[1..];
    assert forall id :: id in rest ==> id in ids;
    forall id | id in rest
      ensures ids[0] < id
    {
      var k :| 0 <= k < |rest| && rest[k] == id;
      assert ids[k + 1] == id;
    }
    if ids[0] >= start {
      assert ids[0] in ids;
      assert start in ids;
    }
  }

  lemma IntervalPush(lo: int, n: nat)
    requires n > 0
    ensures Interval(lo, n) == [lo] + Interval(lo + 1, n - 1)
  {
  }

  lemma {:induction false} RangeAbove(ids: seq<int>, start: int, count: nat)
    requires forall k :: 0 <= k < |ids| ==> start < ids[k]
    ensures RangeFrom(ids, start, count) == RangeFrom(ids, start + 1, count)
    decreases ids
  {
    if ids != [] && count > 0 {
      RangeAbove(ids[1..], start, count - 1);
    }
  }

  lemma {:induction false} RangeIsInterval(ids: seq<int>, start: int, hi: int, count: nat)
    requires Covers(ids, start, hi) && start <= hi + 1
    ensures RangeFrom(ids, start, count) == Interval(start, Min(count, hi - start + 1))
    decreases ids
  {
    if ids == [] {
      assert start > hi by {
        assert start <= hi ==> start in ids;
      }
    } else if count > 0 {
      CoversTail(ids, start, hi);
      assert ids[0] in ids;
      hide Covers;
      if ids[0] < start {
        RangeIsInterval(ids[1..], start, hi, count);
      } else {
        RangeAbove(ids[1..], start, count - 1);
        RangeIsInterval(ids[1..], start + 1, hi, count - 1);
        IntervalPush(start, Min(count, hi - start + 1));
      }
    }
  }

  /** With gap-free ids a read behind any offset below the largest id returns a non-empty run that starts
      at the next id: up to 1000 ids, cut at the bucket's end and at the largest id. */
  lemma ReadIsContiguous(buckets: map<int, seq<int>>, maxId: nat, offset: nat)
    requires GapFree(buckets, maxId) && offset < maxId
    ensures var start := offset + 1;
            var last := Min(maxId, (start / BUCKET_SIZE + 1) * BUCKET_SIZE - 1);
            var n := Min(FETCH_BATCH, last - offset);
            n >= 1 && ReadIds(buckets, offset) == Interval(start, n)
  {
    var start := offset + 1;
    var b := start / BUCKET_SIZE;
    var last := Min(maxId, (b + 1) * BUCKET_SIZE - 1);
    var ids := Bucket(buckets, b);
    forall id
      ensures id in ids ==> id <= last
      ensures start <= id <= last ==> id in ids
    {
      if id in ids || start <= id <= last {
        assert id / BUCKET_SIZE == b;
        assert Holds(buckets, id) <==> id in ids;
      }
    }
    RangeIsInterval(ids, start, last, FETCH_BATCH);
  }
}
