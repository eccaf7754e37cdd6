/** The one table of task rows that all sharded jobs insert into, each job counting its ids from one. */
module ShardedRows {
  import opened DispatchSafety
  import opened ShardedAdds
  import opened TransferQueue

  /** The stores of the jobs, and for each row the job that inserted it. */
  datatype World = World(flats: map<int, Flat>, rows: map<int, int>)

  datatype AddCall = AddCall(jobId: int, inputs: seq<Input>)

  const EMPTY: Flat := Flat(map[], map[], 0)

  function NewWorld(jobs: set<int>): World {
    World(map j | j in jobs :: EMPTY, map[])
  }

  /** Inserts that do nothing on a conflict. */
  function Insert(rows: map<int, int>, jobId: int, from: int, last: int): map<int, int>
    decreases last - from
  {
    if from > last then rows
    else Insert(if from in rows then rows else rows[from := jobId], jobId, from + 1, last)
  }

  function AddTo(w: World, call: AddCall): World {
    if call.jobId !in w.flats then w
    else
      var flat := w.flats[call.jobId];
      var added := AddFlat(flat, call.inputs);
      World(w.flats[call.jobId := added], Insert(w.rows, call.jobId, flat.maxId + 1, added.maxId))
  }

  function AddAll(w: World, calls: seq<AddCall>): World {
    if calls == [] then w else AddTo(AddAll(w, calls[..|calls| - 1]), calls[|calls| - 1])
  }

  ghost predicate HasTask(w: World, j: int, id: int) {
    j in w.flats && id in w.flats[j].records
  }

  /** Every row is that of a task of its job, and every task id has a row. */
  ghost predicate Sound(w: World) {
    && (forall j :: j in w.flats ==> Indexed(w.flats[j]) && Dense(w.flats[j]))
    && (forall id :: id in w.rows ==> HasTask(w, w.rows[id], id))
    && forall j, id :: HasTask(w, j, id) ==> id in w.rows
  }

  lemma {:induction false} Inserted(rows: map<int, int>, jobId: int, from: int, last: int)
    ensures var r := Insert(rows, jobId, from, last);
            && (forall id :: id in r <==> id in rows || from <= id <= last)
            && forall id :: id in r ==> r[id] == (if id in rows then rows[id] else jobId)
    decreases last - from
  {
    if from <= last {
      Inserted(if from in rows then rows else rows[from := jobId], jobId, from + 1, last);
    }
  }

  /** The tasks of a store that grew. */
  lemma GrownTasks(w: World, j: int, grown: Flat, x: int, id: int)
    requires j in w.flats && Dense(w.flats[j]) && Dense(grown) && grown.maxId >= w.flats[j].maxId
    ensures HasTask(w.(flats := w.flats[j := grown]), x, id)
            <==> HasTask(w, x, id) || (x == j && w.flats[j].maxId < id <= grown.maxId)
  {
  }

  lemma AddGrows(flat: Flat, inputs: seq<Input>)
    requires Indexed(flat) && Dense(flat)
    ensures var grown := AddFlat(flat, inputs); Indexed(grown) && Dense(grown) && grown.maxId >= flat.maxId
  {
    SequentialAdd(flat, inputs);
    assert flat.maxId in flat.records || flat.maxId == 0;
  }

  lemma AddKeepsSound(w: World, call: AddCall)
    requires Sound(w)
    ensures Sound(AddTo(w, call)) && AddTo(w, call).flats.Keys == w.flats.Keys
  {
    if call.jobId in w.flats {
      var flat := w.flats[call.jobId];
      AddGrows(flat, call.inputs);
      hide AddFlat, Sound, Insert, Indexed, Dense;
      GrowthKeepsSound(w, call.jobId, AddFlat(flat, call.inputs));
    }
  }

  lemma GrowthKeepsSound(w: World, j: int, grown: Flat)
    requires Sound(w) && j in w.flats && Indexed(grown) && Dense(grown) && grown.maxId >= w.flats[j].maxId
    ensures Sound(World(w.flats[j := grown], Insert(w.rows, j, w.flats[j].maxId + 1, grown.maxId)))
  {
    var lo := w.flats[j].maxId;
    var w' := World(w.flats[j := grown], Insert(w.rows, j, lo + 1, grown.maxId));
    Inserted(w.rows, j, lo + 1, grown.maxId);
    hide Indexed, Insert;
    forall x, id
      ensures HasTask(w', x, id) <==> HasTask(w, x, id) || (x == j && lo < id <= grown.maxId)
    {
      GrownTasks(w, j, grown, x, id);
      assert HasTask(w', x, id) == HasTask(w.(flats := w'.flats), x, id);
    }
    hide HasTask, Dense;
    forall id | id in w'.rows
      ensures HasTask(w', w'.rows[id], id)
    {
      if id in w.rows {
        assert HasTask(w, w.rows[id], id);
      }
    }
  }

  lemma {:induction false} AddsKeepSound(jobs: set<int>, calls: seq<AddCall>)
    ensures Sound(AddAll(NewWorld(jobs), calls)) && AddAll(NewWorld(jobs), calls).flats.Keys == jobs
  {
    if calls != [] {
      AddsKeepSound(jobs, calls[..|calls| - 1]);
      AddKeepsSound(AddAll(NewWorld(jobs), calls[..|calls| - 1]), calls[|calls| - 1]);
    }
  }

  ghost predicate HasTasks(w: World, j: int) {
    exists id :: HasTask(w, j, id)
  }

  /** Job `j` finds its own row under the id of each of its tasks. */
  ghost predicate OwnRows(w: World, j: int) {
    forall id :: HasTask(w, j, id) ==> id in w.rows && w.rows[id] == j
  }

  /** After any adds, one after the other, to any sharded jobs: two jobs share an id if and only if both have
      tasks. */
  lemma IdsCollideExactlyWhen(jobs: set<int>, calls: seq<AddCall>, a: int, b: int)
    ensures var w := AddAll(NewWorld(jobs), calls);
            (exists id :: HasTask(w, a, id) && HasTask(w, b, id)) <==> HasTasks(w, a) && HasTasks(w, b)
  {
    var w := AddAll(NewWorld(jobs), calls);
    AddsKeepSound(jobs, calls);
    if HasTasks(w, a) && HasTasks(w, b) {
      assert HasTask(w, a, 1) && HasTask(w, b, 1);
    }
  }

  /** And every job has a row of its own for each of its tasks if and only if no two jobs have tasks. */
  lemma OwnRowsExactlyWhen(jobs: set<int>, calls: seq<AddCall>)
    ensures var w := AddAll(NewWorld(jobs), calls);
            (forall j :: j in jobs ==> OwnRows(w, j))
            <==> forall a, b :: a in jobs && b in jobs && HasTasks(w, a) && HasTasks(w, b) ==> a == b
  {
    var w := AddAll(NewWorld(jobs), calls);
    AddsKeepSound(jobs, calls);
    hide AddAll;
    if forall j :: j in jobs ==> OwnRows(w, j) {
      forall a, b | a in jobs && b in jobs && HasTasks(w, a) && HasTasks(w, b)
        ensures a == b
      {
        assert HasTask(w, a, 1) && HasTask(w, b, 1);
      }
    } else {
      var j, id :| j in jobs && HasTask(w, j, id) && !(id in w.rows && w.rows[id] == j);
      assert HasTask(w, w.rows[id], id);
      assert HasTasks(w, j) && HasTasks(w, w.rows[id]);
    }
  }

  /** One task added to each of two jobs: the second one gets no row. */
  lemma SecondJobHasNoRow()
    ensures var w := AddAll(NewWorld({1, 2}), [AddCall(1, [Input("a", 1)]), AddCall(2, [Input("b", 1)])]);
            HasTask(w, 2, 1) && !OwnRows(w, 2)
  {
    var a, b := AddCall(1, [Input("a", 1)]), AddCall(2, [Input("b", 1)]);
    var w := NewWorld({1, 2});
    assert [a, b][..1] == [a] && [a][..0] == [];
    assert AddAll(w, []) == w && AddAll(w, [a]) == AddTo(w, a) && AddAll(w, [a, b]) == AddTo(AddTo(w, a), b);
    hide AddAll, AddTo;
    FirstTask(w, 1, a.inputs[0]);
    FirstTask(AddTo(w, a), 2, b.inputs[0]);
    assert HasTask(AddTo(AddTo(w, a), b), 2, 1);
  }

  /** The first task of a job gets id 1, and its row unless there is one. */
  lemma FirstTask(w: World, j: int, input: Input)
    requires j in w.flats && w.flats[j] == EMPTY
    ensures var w' := AddTo(w, AddCall(j, [input]));
            && w'.flats == w.flats[j := Flat(map[input.src := 1], map[1 := input], 1)]
            && w'.rows == if 1 in w.rows then w.rows else w.rows[1 := j]
  {
    var inputs := [input];
    assert inputs[..0] == [];
    assert Unique(inputs) == inputs && Unknown(inputs, map[]) == inputs;
    assert Store(map[], 1, inputs) == map[1 := input] && Remember(map[], 1, inputs) == map[input.src := 1];
  }
}
