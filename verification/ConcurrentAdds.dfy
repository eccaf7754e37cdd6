/** Adds to one sharded job that interleave: each checks the dedup shards, takes its ids from the
    counter, and writes, in three separate steps. */
module ConcurrentAdds {
  import opened TransferQueue
  import opened DispatchSafety
  import opened ShardedAdds

  datatype Adder =
    | Asked(inputs: seq<Input>)
    | Checked(added: seq<Input>)
    | Numbered(added: seq<Input>, startId: int)
    | Written(added: seq<Input>, startId: int)

  datatype State = State(adders: seq<Adder>, flat: Flat)

  /** The next step of one add; with nothing new it ends without taking ids. */
  function Advance(s: State, i: nat): (r: State)
    requires i < |s.adders|
    ensures |r.adders| == |s.adders|
  {
    match s.adders[i]
    case Asked(inputs) =>
      var added := Unknown(Unique(inputs), s.flat.dedup);
      s.(adders := s.adders[i := if added == [] then Written([], s.flat.maxId + 1) else Checked(added)])
    case Checked(added) =>
      State(s.adders[i := Numbered(added, s.flat.maxId + 1)], s.flat.(maxId := s.flat.maxId + |added|))
    case Numbered(added, startId) =>
      State(s.adders[i := Written(added, startId)], WriteBatch(s.flat, startId, added))
    case Written(_, _) => s
  }

  predicate Schedule(n: nat, steps: seq<nat>) {
    forall k :: 0 <= k < |steps| ==> steps[k] < n
  }

  function Run(s: State, steps: seq<nat>): (r: State)
    requires Schedule(|s.adders|, steps)
    ensures |r.adders| == |s.adders|
    decreases |steps|
  {
    if steps == [] then s else Run(Advance(s, steps[0]), steps[1..])
  }

  predicate HasIds(a: Adder) {
    a.Numbered? || a.Written?
  }

  ghost predicate Owns(a: Adder, id: int) {
    HasIds(a) && a.startId <= id < a.startId + |a.added|
  }

  /** The ids an add holds lie between those in use at the start and the counter. */
  ghost predicate InRange(a: Adder, base: nat, maxId: nat) {
    HasIds(a) ==> base < a.startId && a.startId + |a.added| <= maxId + 1
  }

  ghost predicate Apart(a: Adder, b: Adder) {
    forall id :: Owns(a, id) ==> !Owns(b, id)
  }

  /** Input `k` of a batch numbered from `startId` is stored under its id. */
  ghost predicate StoredAt(records: map<int, Input>, startId: int, inputs: seq<Input>, k: nat) {
    k < |inputs| ==> startId + k in records && records[startId + k] == inputs[k]
  }

  ghost predicate Kept(a: Adder, records: map<int, Input>) {
    a.Written? ==> forall k: nat :: StoredAt(records, a.startId, a.added, k)
  }

  /** No record lies in the ids of an add that has yet to write. */
  ghost predicate Reserved(a: Adder, records: map<int, Input>) {
    a.Numbered? ==> forall id :: Owns(a, id) ==> id !in records
  }

  ghost predicate ApartAt(adders: seq<Adder>, i: nat, j: nat) {
    i < j < |adders| ==> Apart(adders[i], adders[j])
  }

  ghost predicate AllApart(adders: seq<Adder>) {
    forall i: nat, j: nat :: ApartAt(adders, i, j)
  }

  ghost predicate Inv(s: State, base: nat) {
    && base <= s.flat.maxId
    && (forall id :: id in s.flat.records ==> id <= s.flat.maxId)
    && (forall i :: 0 <= i < |s.adders| ==> InRange(s.adders[i], base, s.flat.maxId))
    && AllApart(s.adders)
    && (forall i :: 0 <= i < |s.adders| ==> Kept(s.adders[i], s.flat.records))
    && (forall i :: 0 <= i < |s.adders| ==> Reserved(s.adders[i], s.flat.records))
  }

  /** Replacing one adder, apart from all others, keeps them pairwise apart. */
  lemma ApartUpdate(adders: seq<Adder>, i: nat, a: Adder)
    requires i < |adders| && AllApart(adders)
    requires forall j :: 0 <= j < |adders| && j != i ==> Apart(adders[j], a)
    ensures AllApart(adders[i := a])
  {
    var adders' := adders[i := a];
    forall x: nat, y: nat
      ensures ApartAt(adders', x, y)
    {
      assert ApartAt(adders, x, y);
      if x == i && y < |adders| && x < y {
        assert Apart(adders[y], a);
      }
    }
  }

  lemma NumberKeeps(s: State, i: nat, base: nat)
    requires Inv(s, base) && i < |s.adders| && s.adders[i].Checked?
    ensures Inv(Advance(s, i), base)
  {
    var a := Numbered(s.adders[i].added, s.flat.maxId + 1);
    forall j | 0 <= j < |s.adders| && j != i
      ensures Apart(s.adders[j], a)
    {
      assert InRange(s.adders[j], base, s.flat.maxId);
    }
    ApartUpdate(s.adders, i, a);
  }

  lemma WriteKeepsInv(s: State, i: nat, base: nat)
    requires Inv(s, base) && i < |s.adders| && s.adders[i].Numbered?
    ensures Inv(Advance(s, i), base)
  {
    var numbered, records := s.adders[i], s.flat.records;
    var a := Written(numbered.added, numbered.startId);
    var r := Advance(s, i);
    StoredAre(records, numbered.startId, numbered.added);
    forall j | 0 <= j < |s.adders| && j != i
      ensures Apart(s.adders[j], a) && Kept(s.adders[j], r.flat.records) && Reserved(s.adders[j], r.flat.records)
    {
      assert ApartAt(s.adders, i, j) && ApartAt(s.adders, j, i);
      assert forall id :: Owns(a, id) <==> Owns(numbered, id);
      assert Kept(s.adders[j], records) && Reserved(s.adders[j], records);
      OthersKept(s.adders[j], a, records, r.flat.records);
    }
    ApartUpdate(s.adders, i, a);
    assert InRange(numbered, base, s.flat.maxId);
  }

  lemma OthersKept(other: Adder, a: Adder, records: map<int, Input>, records': map<int, Input>)
    requires Apart(other, a) && Kept(other, records) && Reserved(other, records)
    requires forall id :: !Owns(a, id) ==> (id in records' <==> id in records)
    requires forall id :: !Owns(a, id) && id in records ==> records'[id] == records[id]
    ensures Kept(other, records') && Reserved(other, records')
  {
    if other.Written? {
      forall k: nat
        ensures StoredAt(records', other.startId, other.added, k)
      {
        assert StoredAt(records, other.startId, other.added, k);
        assert k < |other.added| ==> Owns(other, other.startId + k);
      }
    }
  }

  /** A batch is stored from its first id on, and nothing else changes. */
  lemma {:induction false} StoredAre(records: map<int, Input>, startId: int, inputs: seq<Input>)
    ensures var r := Store(records, startId, inputs);
            && (forall k: nat :: StoredAt(r, startId, inputs, k))
            && (forall id :: !(startId <= id < startId + |inputs|) ==> (id in r <==> id in records))
            && (forall id :: !(startId <= id < startId + |inputs|) && id in records ==> r[id] == records[id])
            && (forall id :: id in r ==> id in records || startId <= id < startId + |inputs|)
  {
    if inputs != [] {
      var front, r := inputs[..|inputs| - 1], Store(records, startId, inputs);
      StoredAre(records, startId, front);
      forall k: nat
        ensures StoredAt(r, startId, inputs, k)
      {
        assert StoredAt(Store(records, startId, front), startId, front, k);
      }
    }
  }

  lemma {:induction false} RunKeepsInv(s: State, steps: seq<nat>, base: nat)
    requires Inv(s, base) && Schedule(|s.adders|, steps)
    ensures Inv(Run(s, steps), base)
    decreases |steps|
  {
    if steps != [] {
      var i := steps[0];
      match s.adders[i] {
        case Asked(_) => CheckKeeps(s, i, base);
        case Checked(_) => NumberKeeps(s, i, base);
        case Numbered(_, _) => WriteKeepsInv(s, i, base);
        case Written(_, _) =>
      }
      hide Inv, Advance;
      RunKeepsInv(Advance(s, i), steps[1..], base);
    }
  }

  lemma CheckKeeps(s: State, i: nat, base: nat)
    requires Inv(s, base) && i < |s.adders| && s.adders[i].Asked?
    ensures Inv(Advance(s, i), base)
  {
    ApartUpdate(s.adders, i, Advance(s, i).adders[i]);
  }

  ghost predicate Fresh(s: State) {
    && (forall i :: 0 <= i < |s.adders| ==> s.adders[i].Asked?)
    && forall id :: id in s.flat.records ==> id <= s.flat.maxId
  }

  /** However adds interleave, no two of them share an id, and what each has written stays. */
  lemma AddsNeverShareIds(s: State, steps: seq<nat>, i: nat, j: nat)
    requires Fresh(s) && Schedule(|s.adders|, steps) && i < |s.adders| && j < |s.adders|
    ensures var r := Run(s, steps);
            && Kept(r.adders[i], r.flat.records)
            && (i != j ==> Apart(r.adders[i], r.adders[j]))
            && forall id :: Owns(r.adders[i], id) ==> s.flat.maxId < id <= r.flat.maxId
  {
    forall x: nat, y: nat
      ensures ApartAt(s.adders, x, y)
    {
    }
    RunKeepsInv(s, steps, s.flat.maxId);
    var r := Run(s, steps);
    assert ApartAt(r.adders, i, j) && ApartAt(r.adders, j, i);
    assert InRange(r.adders[i], s.flat.maxId, r.flat.maxId);
  }

  // ---------------------------------------------------------------- one path, two ids

  lemma {:induction false} RememberedAt(dedup: map<string, int>, startId: int, inputs: seq<Input>, src: string)
    requires src in SrcsOf(inputs)
    ensures src in Remember(dedup, startId, inputs)
    ensures startId <= Remember(dedup, startId, inputs)[src] < startId + |inputs|
  {
    var n := |inputs| - 1;
    assert inputs == inputs[..n] + [inputs[n]];
    SrcsOfPush(inputs[..n], inputs[n]);
    if src != inputs[n].src {
      RememberedAt(dedup, startId, inputs[..n], src);
    }
  }

  /** A write keeps one id per path if and only if none of its paths has got an id since its check. */
  lemma WriteKeepsOneIdExactlyWhen(flat: Flat, startId: int, added: seq<Input>)
    requires Indexed(flat) && DistinctSrcs(added)
    requires forall id :: startId <= id < startId + |added| ==> id !in flat.records
    ensures Indexed(WriteBatch(flat, startId, added)) <==> forall src :: src in SrcsOf(added) ==> src !in flat.dedup
  {
    var r := WriteBatch(flat, startId, added);
    if src :| src in SrcsOf(added) && src in flat.dedup {
      RememberedAt(flat.dedup, startId, added, src);
      StoredAre(flat.records, startId, added);
      var first := flat.dedup[src];
      assert first in r.records && r.records[first].src == src;
      assert r.dedup[src] != first;
    } else {
      WriteKeeps(flat, startId, added);
    }
  }

  /** Two adds of the same path that both check before either writes give it two ids. */
  lemma TwoIdsForOnePath()
    ensures var a := Input("a", 1);
            var s := State([Asked([a]), Asked([a])], Flat(map[], map[], 0));
            var r := Run(s, [0, 1, 0, 1, 0, 1]);
            Fresh(s) && r.flat.records == map[1 := a, 2 := a]
  {
    var a := Input("a", 1);
    var s := State([Asked([a]), Asked([a])], Flat(map[], map[], 0));
    OneInput(a, map[]);
    RunSteps(s);
    var numbered := Advance(Advance(Advance(Advance(s, 0), 1), 0), 1);
    assert numbered == State([Numbered([a], 1), Numbered([a], 2)], Flat(map[], map[], 2)) by {
      hide Unknown, Unique;
    }
    assert [a][..0] == [];
    assert Store(Store(map[], 1, [a]), 2, [a]) == map[1 := a, 2 := a];
  }

  lemma OneInput(a: Input, dedup: map<string, int>)
    requires a.src !in dedup
    ensures Unknown(Unique([a]), dedup) == [a]
  {
    assert [a][..0] == [];
  }

  lemma RunTwo(s: State, i: nat, j: nat, rest: seq<nat>)
    requires i < |s.adders| && j < |s.adders| && Schedule(|s.adders|, [i, j] + rest)
    ensures Schedule(|s.adders|, rest)
    ensures Run(s, [i, j] + rest) == Run(Advance(Advance(s, i), j), rest)
  {
    hide Advance;
    var steps := [i, j] + rest;
    assert steps[1..][1..] == rest;
    assert forall k :: 0 <= k < |rest| ==> rest[k] == steps[k + 2];
    assert Run(s, steps) == Run(Advance(s, i), steps[1..]);
  }

  lemma RunSteps(s: State)
    requires |s.adders| == 2
    ensures Run(s, [0, 1, 0, 1, 0, 1])
            == Advance(Advance(Advance(Advance(Advance(Advance(s, 0), 1), 0), 1), 0), 1)
  {
    hide Advance;
    var third: seq<nat> := [0, 1];
    var second: seq<nat> := [0, 1] + third;
    assert [0, 1, 0, 1, 0, 1] == [0, 1] + second && third == [0, 1] + [];
    RunTwo(s, 0, 1, second);
    RunTwo(Advance(Advance(s, 0), 1), 0, 1, third);
    RunTwo(Advance(Advance(Advance(Advance(s, 0), 1), 0), 1), 0, 1, []);
  }
}
