/** Adding tasks to a sharded job: the store refines the flat one, and what concurrent adds may do to it. */
module ShardedAdds {
  import opened TransferQueue
  import opened DispatchSafety
  import H = DispatchHandlers
  import S = ShardedStorage

  /** What the shards and buckets stand for: one dedup map, one map of records, one id counter. */
  datatype Flat = Flat(dedup: map<string, int>, records: map<int, Input>, maxId: nat)

  function Store(records: map<int, Input>, startId: int, inputs: seq<Input>): map<int, Input> {
    if inputs == [] then records
    else
      var n := |inputs| - 1;
      Store(records, startId, inputs[..n])[startId + n := inputs[n]]
  }

  /** The write of a numbered batch. */
  function WriteBatch(flat: Flat, startId: int, inputs: seq<Input>): Flat {
    flat.(dedup := Remember(flat.dedup, startId, inputs), records := Store(flat.records, startId, inputs))
  }

  function AddFlat(flat: Flat, inputs: seq<Input>): Flat {
    var added := Unknown(Unique(inputs), flat.dedup);
    WriteBatch(flat.(maxId := flat.maxId + |added|), flat.maxId + 1, added)
  }

  // ---------------------------------------------------------------- the sharded store

  /** Shards, buckets and records agree, and the counter bounds the ids. */
  ghost predicate Layout(shards: seq<map<string, int>>, buckets: map<int, seq<int>>, records: map<int, Input>,
                         hash: string -> nat, maxId: nat)
  {
    && S.Placed(shards, hash) && S.Bucketed(buckets)
    && (forall id :: S.Holds(buckets, id) <==> id in records)
    && (forall id :: id in records ==> 1 <= id <= maxId)
  }

  class ShardedStore {
    const hash: string -> nat
    var shards: seq<map<string, int>>
    var buckets: map<int, seq<int>>
    var records: map<int, Input>
    var maxId: nat

    ghost predicate Valid()
      reads this
    {
      Layout(shards, buckets, records, hash, maxId)
    }

    ghost function View(): Flat
      reads this
    {
      Flat(S.Union(shards), records, maxId)
    }

    constructor (hash: string -> nat)
      ensures Valid() && View() == Flat(map[], map[], 0) && this.hash == hash
    {
      this.hash := hash;
      shards := seq(S.DEDUP_SHARDS, k => map[]);
      buckets, records, maxId := map[], map[], 0;
      new;
      AllEmpty(shards);
    }

    /** `addShardedTransferTasks`, with nothing else running: exactly the add on the flat store. */
    method Add(inputs: seq<Input>) returns (count: nat)
      requires Valid()
      modifies this
      ensures Valid() && View() == AddFlat(old(View()), inputs)
      ensures count == |Unknown(Unique(inputs), old(View()).dedup)|
    {
      hide S.Union, Unknown, Unique, Remember, Store;
      assert S.Placed(shards, hash);
      var newInputs := NewOf(shards, hash, inputs);
      NothingToWrite(View());
      count := |newInputs|;
      if count == 0 {
        return;
      }
      var endID := maxId + count;
      var startID := endID - count + 1;
      maxId := endID;
      LayoutCounted(shards, buckets, records, hash, maxId - count, maxId);
      hide Layout;
      shards, buckets, records := WriteShards(shards, buckets, records, hash, maxId, startID, newInputs);
    }
  }

  lemma NothingToWrite(flat: Flat)
    ensures WriteBatch(flat, flat.maxId + 1, []) == flat
  {
  }

  lemma LayoutCounted(shards: seq<map<string, int>>, buckets: map<int, seq<int>>, records: map<int, Input>,
                      hash: string -> nat, maxId: nat, maxId': nat)
    requires Layout(shards, buckets, records, hash, maxId) && maxId <= maxId'
    ensures Layout(shards, buckets, records, hash, maxId')
  {
  }

  lemma {:induction false} AllEmpty(shards: seq<map<string, int>>)
    requires forall k :: 0 <= k < |shards| ==> shards[k] == map[]
    ensures S.Union(shards) == map[]
  {
    if shards != [] {
      AllEmpty(shards[..|shards| - 1]);
    }
  }

  /** The in-memory pass, then one HEXISTS per input against the shard of its path. */
  method NewOf(shards: seq<map<string, int>>, hash: string -> nat, inputs: seq<Input>) returns (newInputs: seq<Input>)
    requires S.Placed(shards, hash)
    ensures newInputs == Unknown(Unique(inputs), S.Union(shards))
  {
    hide S.Placed, S.Union;
    var unique := H.UniqueOf(inputs);
    newInputs := [];
    for i := 0 to |unique|
      invariant newInputs == Unknown(unique[..i], S.Union(shards))
    {
      assert unique[..i + 1][..i] == unique[..i];
      S.ShardLookup(shards, hash, unique[i].src);
      if unique[i].src !in ShardOf(shards, hash, unique[i].src) {
        newInputs := newInputs + [unique[i]];
      }
    }
    assert unique[..|unique|] == unique;
  }

  function ShardOf(shards: seq<map<string, int>>, hash: string -> nat, src: string): map<string, int>
    requires S.Placed(shards, hash)
  {
    shards[S.Shard(hash, src)]
  }

  method WriteShards(shards: seq<map<string, int>>, buckets: map<int, seq<int>>, records: map<int, Input>,
                     hash: string -> nat, maxId: nat, startID: int, inputs: seq<Input>)
    returns (shards': seq<map<string, int>>, buckets': map<int, seq<int>>, records': map<int, Input>)
    requires Layout(shards, buckets, records, hash, maxId) && 1 <= startID && startID + |inputs| <= maxId + 1
    ensures Layout(shards', buckets', records', hash, maxId)
    ensures S.Union(shards') == Remember(S.Union(shards), startID, inputs)
    ensures records' == Store(records, startID, inputs)
  {
    hide S.Placed, S.Union, S.Bucketed, S.Holds, S.Insert, S.Bucket, S.Shard, Layout;
    shards', buckets', records' := shards, buckets, records;
    for i := 0 to |inputs|
      invariant Layout(shards', buckets', records', hash, maxId)
      invariant S.Union(shards') == Remember(S.Union(shards), startID, inputs[..i])
      invariant records' == Store(records, startID, inputs[..i])
    {
      assert inputs[..i + 1][..i] == inputs[..i];
      var taskID := startID + i;
      WriteOne(shards', buckets', records', hash, maxId, taskID, inputs[i]);
      records' := records'[taskID := inputs[i]];
      var b := taskID / S.BUCKET_SIZE;
      buckets' := buckets'[b := S.Insert(S.Bucket(buckets', b), taskID)];
      var k := S.Shard(hash, inputs[i].src);
      shards' := shards'[k := shards'[k][inputs[i].src := taskID]];
    }
    assert inputs[..|inputs|] == inputs;
  }

  lemma WriteOne(shards: seq<map<string, int>>, buckets: map<int, seq<int>>, records: map<int, Input>,
                 hash: string -> nat, maxId: nat, id: int, input: Input)
    requires Layout(shards, buckets, records, hash, maxId) && 1 <= id <= maxId
    ensures var b, k := id / S.BUCKET_SIZE, S.Shard(hash, input.src);
            && 0 <= k < |shards|
            && Layout(shards[k := shards[k][input.src := id]], buckets[b := S.Insert(S.Bucket(buckets, b), id)],
                      records[id := input], hash, maxId)
            && S.Union(shards[k := shards[k][input.src := id]]) == S.Union(shards)[input.src := id]
  {
    S.ShardWrite(shards, hash, input.src, id);
    S.BucketWrite(buckets, id);
    hide S.Union, S.Insert, S.Bucketed, S.Holds;
  }

  // ---------------------------------------------------------------- sequential adds

  /** The dedup map is the inverse of the records: every path has exactly one id. */
  ghost predicate Indexed(flat: Flat) {
    && (forall id :: id in flat.records ==>
         flat.records[id].src in flat.dedup && flat.dedup[flat.records[id].src] == id)
    && forall src :: src in flat.dedup ==>
         flat.dedup[src] in flat.records && flat.records[flat.dedup[src]].src == src
  }

  /** The ids in use are exactly 1 to the counter. */
  ghost predicate Dense(flat: Flat) {
    forall id :: id in flat.records <==> 1 <= id <= flat.maxId
  }

  lemma {:induction false} StoredIds(records: map<int, Input>, startId: int, inputs: seq<Input>)
    ensures forall id :: id in Store(records, startId, inputs) <==>
                         id in records || startId <= id < startId + |inputs|
  {
    if inputs != [] {
      StoredIds(records, startId, inputs[..|inputs| - 1]);
    }
  }

  lemma {:induction false} WriteKeeps(flat: Flat, startId: int, inputs: seq<Input>)
    requires Indexed(flat) && DistinctSrcs(inputs) && SrcsOf(inputs) !! flat.dedup.Keys
    requires forall id :: startId <= id < startId + |inputs| ==> id !in flat.records
    ensures Indexed(WriteBatch(flat, startId, inputs))
  {
    hide Indexed, DistinctSrcs, SrcsOf;
    if inputs != [] {
      var n := |inputs| - 1;
      var front := inputs[..n];
      assert inputs == front + [inputs[n]];
      DistinctSrcsFront(inputs, n);
      SrcsOfPush(front, inputs[n]);
      LastIsNew(inputs);
      WriteKeeps(flat, startId, front);
      StoredIds(flat.records, startId, front);
      RememberedKeys(flat.dedup, startId, front);
      IndexedPush(WriteBatch(flat, startId, front), startId + n, inputs[n]);
    }
  }

  lemma LastIsNew(inputs: seq<Input>)
    requires DistinctSrcs(inputs) && inputs != []
    ensures inputs[|inputs| - 1].src !in SrcsOf(inputs[..|inputs| - 1])
  {
    var n := |inputs| - 1;
    forall i | 0 <= i < n
      ensures inputs[..n][i].src != inputs[n].src
    {
      assert SrcsDiffer(inputs, i, n);
    }
  }

  lemma IndexedPush(flat: Flat, id: int, input: Input)
    requires Indexed(flat) && id !in flat.records && input.src !in flat.dedup
    ensures Indexed(flat.(dedup := flat.dedup[input.src := id], records := flat.records[id := input]))
  {
  }

  lemma BatchKeeps(flat: Flat, added: seq<Input>)
    requires Indexed(flat) && Dense(flat) && DistinctSrcs(added) && SrcsOf(added) !! flat.dedup.Keys
    ensures var r := WriteBatch(flat.(maxId := flat.maxId + |added|), flat.maxId + 1, added);
            && Indexed(r) && Dense(r) && r.dedup.Keys == flat.dedup.Keys + SrcsOf(added)
            && forall id :: id in flat.records ==> id in r.records && r.records[id] == flat.records[id]
  {
    hide DistinctSrcs, SrcsOf, Indexed, Store, Remember;
    IndexedCounted(flat, flat.maxId + |added|);
    WriteKeeps(flat.(maxId := flat.maxId + |added|), flat.maxId + 1, added);
    StoredIds(flat.records, flat.maxId + 1, added);
    RememberedKeys(flat.dedup, flat.maxId + 1, added);
    StoreKeeps(flat.records, flat.maxId + 1, added);
  }

  /** Adds that run one after the other never give a path two ids, lose no path, and leave no gap. */
  lemma SequentialAdd(flat: Flat, inputs: seq<Input>)
    requires Indexed(flat) && Dense(flat)
    ensures var r := AddFlat(flat, inputs);
            && Indexed(r) && Dense(r)
            && r.dedup.Keys == flat.dedup.Keys + SrcsOf(inputs)
            && forall id :: id in flat.records ==> id in r.records && r.records[id] == flat.records[id]
  {
    hide Unknown, Unique, DistinctSrcs, SrcsOf, Indexed, Dense, WriteBatch;
    AddedInputs(inputs, flat.dedup);
    BatchKeeps(flat, Unknown(Unique(inputs), flat.dedup));
  }

  lemma IndexedCounted(flat: Flat, maxId: nat)
    requires Indexed(flat)
    ensures Indexed(flat.(maxId := maxId))
  {
  }

  lemma {:induction false} StoreKeeps(records: map<int, Input>, startId: int, inputs: seq<Input>)
    requires forall id :: id in records ==> id < startId
    ensures forall id :: id in records ==>
              id in Store(records, startId, inputs) && Store(records, startId, inputs)[id] == records[id]
  {
    if inputs != [] {
      StoreKeeps(records, startId, inputs[..|inputs| - 1]);
    }
  }
}
