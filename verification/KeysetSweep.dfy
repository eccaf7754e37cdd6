/** The background retry of failed videos: a keyset sweep over the database rows. */
module KeysetSweep {
  import opened Sequences
  import opened TransferQueue

  const PAGE: nat := 5000

  /** A row of the video table; `permanent` says whether its error message is a permanent one. */
  datatype Row = Row(id: int, status: Status, permanent: bool)

  ghost predicate Ahead(rows: seq<Row>, i: nat, j: nat) {
    i < j < |rows| ==> rows[i].id < rows[j].id
  }

  /** The job's rows in id order; ids start at one. */
  ghost predicate Table(rows: seq<Row>) {
    && (forall i: nat, j: nat :: Ahead(rows, i, j))
    && forall k :: 0 <= k < |rows| ==> 1 <= rows[k].id
  }

  /** `id > lastID AND status = FAILED ORDER BY id LIMIT limit` */
  function Query(rows: seq<Row>, lastID: int, limit: nat): seq<Row> {
    if rows == [] || limit == 0 then []
    else if rows[0].id > lastID && rows[0].status == Failed then [rows[0]] + Query(rows[1..], lastID, limit - 1)
    else Query(rows[1..], lastID, limit)
  }

  /** `UPDATE ... SET status = PENDING WHERE id IN ids` */
  function Update(rows: seq<Row>, ids: seq<int>): seq<Row> {
    seq(|rows|, k requires 0 <= k < |rows| => if rows[k].id in ids then rows[k].(status := Pending) else rows[k])
  }

  predicate ToRetry(row: Row) {
    row.status == Failed && !row.permanent
  }

  function Swept(rows: seq<Row>, lastID: int): seq<Row> {
    seq(|rows|, k requires 0 <= k < |rows| =>
      if rows[k].id <= lastID && ToRetry(rows[k]) then rows[k].(status := Pending) else rows[k])
  }

  /** The ids to retry among those in `(lo, hi]`, in order. */
  function RetryIds(rows: seq<Row>, lo: int, hi: int): seq<int> {
    if rows == [] then []
    else IdIf(rows[0].id, lo < rows[0].id <= hi && ToRetry(rows[0])) + RetryIds(rows[1..], lo, hi)
  }

  function IdIf(id: int, b: bool): seq<int> {
    if b then [id] else []
  }

  function FailedUpTo(rows: seq<Row>, hi: int): nat {
    if rows == [] then 0 else Bit(rows[0].id <= hi && rows[0].status == Failed) + FailedUpTo(rows[1..], hi)
  }

  function Bit(b: bool): nat {
    if b then 1 else 0
  }

  function LastId(rows: seq<Row>): int {
    if rows == [] then 0 else rows[|rows| - 1].id
  }

  /** `retryNonCompletedYoutubeTasksBackground` while no one else writes the rows: it scans every
      failed row once, and resets and queues exactly the ones that did not fail for good, in id order. */
  method SweepByKeyset(rows: seq<Row>, queue: seq<int>) returns (rows': seq<Row>, queue': seq<int>, scanned: nat)
    requires Table(rows)
    ensures rows' == Swept(rows, LastId(rows))
    ensures queue' == queue + RetryIds(rows, 0, LastId(rows))
    ensures scanned == FailedUpTo(rows, LastId(rows))
  {
    hide Query, Swept, RetryIds, FailedUpTo, Table, Update;
    rows', queue', scanned := rows, queue, 0;
    var lastID := 0;
    SweepStarts(rows);
    while true
      invariant 0 <= lastID && rows' == Swept(rows, lastID)
      invariant queue' == queue + RetryIds(rows, 0, lastID)
      invariant scanned == FailedUpTo(rows, lastID)
      decreases FailedUpTo(rows, LastId(rows)) - FailedUpTo(rows, lastID)
    {
      QueryOfSwept(rows, lastID, PAGE);
      FailedMonotone(rows, lastID, LastId(rows));
      var tasks := Query(rows', lastID, PAGE);
      if |tasks| == 0 {
        SweepEnds(rows, lastID);
        break;
      }
      ghost var was := lastID;
      var idsToReset := [];
      var i := 0;
      while i < |tasks|
        invariant 0 <= i <= |tasks|
        invariant lastID == if i == 0 then was else tasks[i - 1].id
        invariant idsToReset == Chosen(tasks[..i])
        invariant scanned == FailedUpTo(rows, was) + i
      {
        ChosenOneMore(tasks, i);
        lastID := tasks[i].id;
        scanned := scanned + 1;
        if !tasks[i].permanent {
          idsToReset := idsToReset + [tasks[i].id];
        }
        i := i + 1;
      }
      assert tasks[..i] == tasks;
      PageSwept(rows, was, tasks);
      FailedMonotone(rows, lastID, LastId(rows));
      if |idsToReset| == 0 {
        UpdateNothing(rows');
        continue;
      }
      rows' := Update(rows', idsToReset);
      queue' := queue' + idsToReset;
    }
  }

  /** The ids of a page that the inner loop keeps. */
  function Chosen(page: seq<Row>): seq<int> {
    if page == [] then []
    else
      var last := page[|page| - 1];
      Chosen(page[..|page| - 1]) + IdIf(last.id, !last.permanent)
  }

  lemma ChosenOneMore(page: seq<Row>, i: nat)
    requires i < |page|
    ensures Chosen(page[..i + 1]) == Chosen(page[..i]) + IdIf(page[i].id, !page[i].permanent)
  {
    assert page[..i + 1][..i] == page[..i];
  }

  lemma TableTail(rows: seq<Row>)
    requires Table(rows) && rows != []
    ensures Table(rows[1..])
    ensures forall k :: 1 <= k < |rows| ==> rows[0].id < rows[k].id
    ensures rows[0].id <= LastId(rows) && (|rows| > 1 ==> LastId(rows[1..]) == LastId(rows))
  {
    var rest := rows[1..];
    forall i: nat, j: nat ensures Ahead(rest, i, j) {
      assert Ahead(rows, i + 1, j + 1);
    }
    forall k | 1 <= k < |rows| ensures rows[0].id < rows[k].id {
      assert Ahead(rows, 0, k);
    }
  }

  lemma {:induction false} SweepStarts(rows: seq<Row>)
    requires Table(rows)
    ensures Swept(rows, 0) == rows && RetryIds(rows, 0, 0) == [] && FailedUpTo(rows, 0) == 0
  {
    if rows != [] {
      TableTail(rows);
      SweepStarts(rows[1..]);
    }
  }

  lemma {:induction false} FailedMonotone(rows: seq<Row>, lo: int, hi: int)
    ensures lo <= hi ==> FailedUpTo(rows, lo) <= FailedUpTo(rows, hi)
    ensures Table(rows) && hi == LastId(rows) ==> FailedUpTo(rows, lo) <= FailedUpTo(rows, hi)
  {
    if rows != [] {
      FailedMonotone(rows[1..], lo, hi);
      if Table(rows) && hi == LastId(rows) {
        TableTail(rows);
        if |rows| == 1 {
          assert rows[1..] == [];
        }
      }
    }
  }

  /** What the sweep has changed so far lies behind the cursor, so the next page is the original one. */
  lemma {:induction false} QueryOfSwept(rows: seq<Row>, lastID: int, limit: nat)
    ensures Query(Swept(rows, lastID), lastID, limit) == Query(rows, lastID, limit)
    decreases |rows|
  {
    if rows != [] && limit > 0 {
      assert Swept(rows, lastID)[1..] == Swept(rows[1..], lastID);
      QueryOfSwept(rows[1..], lastID, limit);
      QueryOfSwept(rows[1..], lastID, limit - 1);
    }
  }

  lemma {:induction false} PageInside(rows: seq<Row>, lastID: int, limit: nat)
    requires Table(rows) && limit > 0
    ensures var page := Query(rows, lastID, limit);
            && (page == [] ==> forall k :: 0 <= k < |rows| && rows[k].id > lastID ==> rows[k].status != Failed)
            && (page != [] ==> lastID < LastId(page) <= LastId(rows) && page[|page| - 1] in rows
                               && rows[0].id <= LastId(page))
    decreases |rows|
  {
    if rows != [] {
      TableTail(rows);
      if rows[0].id > lastID && rows[0].status == Failed {
        var rest := Query(rows[1..], lastID, limit - 1);
        assert ([rows[0]] + rest)[|rest|] == if rest == [] then rows[0] else rest[|rest| - 1];
        if limit > 1 {
          PageInside(rows[1..], lastID, limit - 1);
        }
      } else {
        PageInside(rows[1..], lastID, limit);
      }
    }
  }

  lemma PushLast(row: Row, rest: seq<Row>)
    ensures LastId([row] + rest) == if rest == [] then row.id else LastId(rest)
  {
  }

  lemma {:induction false} PageCount(rows: seq<Row>, lastID: int, limit: nat)
    requires Table(rows) && limit > 0 && Query(rows, lastID, limit) != []
    ensures var page := Query(rows, lastID, limit);
            FailedUpTo(rows, LastId(page)) == FailedUpTo(rows, lastID) + |page|
    decreases |rows|
  {
    TableTail(rows);
    PageInside(rows, lastID, limit);
    if rows[0].id > lastID && rows[0].status == Failed {
      var rest := Query(rows[1..], lastID, limit - 1);
      FailedBehind(rows[1..], lastID, rows[0].id);
      PushLast(rows[0], rest);
      if rest != [] {
        hide Table, Query, LastId;
        PageCount(rows[1..], lastID, limit - 1);
      }
    } else {
      PageCount(rows[1..], lastID, limit);
    }
  }

  lemma QueryHead(rows: seq<Row>, lastID: int, limit: nat)
    requires rows != [] && limit > 0
    ensures Query(rows, lastID, limit) ==
            if rows[0].id > lastID && rows[0].status == Failed then [rows[0]] + Query(rows[1..], lastID, limit - 1)
            else Query(rows[1..], lastID, limit)
  {
  }

  lemma RetryIdsHead(rows: seq<Row>, lo: int, hi: int)
    requires rows != []
    ensures !(lo < rows[0].id <= hi && ToRetry(rows[0])) ==> RetryIds(rows, lo, hi) == RetryIds(rows[1..], lo, hi)
    ensures RetryIds(rows, lo, hi)
            == IdIf(rows[0].id, lo < rows[0].id <= hi && ToRetry(rows[0])) + RetryIds(rows[1..], lo, hi)
  {
  }

  /** A page holds, in order, exactly the failed rows from the cursor up to the page's last id. */
  lemma {:induction false} PageChosen(rows: seq<Row>, lastID: int, limit: nat)
    requires Table(rows) && limit > 0 && Query(rows, lastID, limit) != []
    ensures var page := Query(rows, lastID, limit);
            Chosen(page) == RetryIds(rows, lastID, LastId(page))
    decreases |rows|, 1
  {
    hide Table, Query, LastId, IdIf, RetryIds, Chosen;
    QueryNone(lastID, limit);
    TableTail(rows);
    QueryHead(rows, lastID, limit);
    RetryIdsHead(rows, lastID, LastId(Query(rows, lastID, limit)));
    if rows[0].id > lastID && rows[0].status == Failed {
      PageChosenFirst(rows, lastID, limit);
    } else {
      PageChosen(rows[1..], lastID, limit);
    }
  }

  lemma QueryNone(lastID: int, limit: nat)
    ensures Query([], lastID, limit) == []
  {
  }

  lemma PageChosenFirst(rows: seq<Row>, lastID: int, limit: nat)
    requires Table(rows) && limit > 0 && rows != [] && rows[0].id > lastID && rows[0].status == Failed
    ensures var page := Query(rows, lastID, limit);
            Chosen(page) == RetryIds(rows, lastID, LastId(page))
    decreases |rows|, 0
  {
    hide Table, Query, LastId, IdIf, RetryIds, Chosen;
    var rest := Query(rows[1..], lastID, limit - 1);
    TableTail(rows);
    QueryHead(rows, lastID, limit);
    RetryIdsHead(rows, lastID, LastId([rows[0]] + rest));
    PushLast(rows[0], rest);
    ChosenPush(rows[0], rest);
    ChosenNone();
    if rest == [] {
      FailedBehind(rows[1..], lastID, rows[0].id);
    } else {
      PageInsideMore(rows, lastID, limit);
      PageInside(rows, lastID, limit);
      PageInside(rows[1..], lastID, limit - 1);
      PageChosen(rows[1..], lastID, limit - 1);
    }
  }

  lemma ChosenNone()
    ensures Chosen([]) == []
  {
  }

  /** A page that goes on behind the first row had room for it. */
  lemma PageInsideMore(rows: seq<Row>, lastID: int, limit: nat)
    requires rows != [] && limit > 0 && Query(rows[1..], lastID, limit - 1) != []
    ensures limit > 1
  {
  }

  /** No row of a later stretch lies at or below `hi`. */
  lemma {:induction false} FailedBehind(rows: seq<Row>, lo: int, hi: int)
    requires lo <= hi && forall k :: 0 <= k < |rows| ==> hi < rows[k].id
    ensures FailedUpTo(rows, lo) == FailedUpTo(rows, hi) == 0 && RetryIds(rows, lo, hi) == []
  {
    if rows != [] {
      FailedBehind(rows[1..], lo, hi);
    }
  }

  lemma {:induction false} ChosenPush(row: Row, page: seq<Row>)
    ensures Chosen([row] + page) == IdIf(row.id, !row.permanent) + Chosen(page)
  {
    if page == [] {
      assert [row] + page == [row] && [row][..0] == [];
    } else {
      var front, last := page[..|page| - 1], page[|page| - 1];
      ChosenPush(row, front);
      assert ([row] + page)[..|page|] == [row] + front && ([row] + page)[|page|] == last;
      Regroup(IdIf(row.id, !row.permanent), Chosen(front), IdIf(last.id, !last.permanent));
    }
  }

  /** Updating one page moves the sweep to the page's last id. */
  lemma PageSwept(rows: seq<Row>, lastID: int, page: seq<Row>)
    requires Table(rows) && 0 <= lastID && page == Query(rows, lastID, PAGE) && page != []
    ensures lastID < LastId(page)
    ensures Update(Swept(rows, lastID), Chosen(page)) == Swept(rows, LastId(page))
    ensures RetryIds(rows, 0, LastId(page)) == RetryIds(rows, 0, lastID) + Chosen(page)
    ensures FailedUpTo(rows, LastId(page)) == FailedUpTo(rows, lastID) + |page|
  {
    PageInside(rows, lastID, PAGE);
    PageCount(rows, lastID, PAGE);
    PageChosen(rows, lastID, PAGE);
    RetryIdsSplit(rows, lastID, LastId(page));
    var before, after := Swept(rows, lastID), Swept(rows, LastId(page));
    forall k | 0 <= k < |rows|
      ensures Update(before, Chosen(page))[k] == after[k]
    {
      RetryIdsHold(rows, lastID, LastId(page), k);
    }
  }

  lemma UpdateNothing(rows: seq<Row>)
    ensures Update(rows, []) == rows
  {
  }

  lemma {:induction false} RetryIdsSplit(rows: seq<Row>, mid: int, hi: int)
    requires Table(rows) && 0 <= mid <= hi
    ensures RetryIds(rows, 0, hi) == RetryIds(rows, 0, mid) + RetryIds(rows, mid, hi)
  {
    if rows != [] {
      TableTail(rows);
      hide Table, ToRetry, LastId, IdIf;
      var rest, first := rows[1..], rows[0].id;
      if first <= mid {
        RetryIdsSplit(rest, mid, hi);
        Nothing(first);
        Regroup(IdIf(first, 0 < first <= mid && ToRetry(rows[0])), RetryIds(rest, 0, mid), RetryIds(rest, mid, hi));
      } else {
        FailedBehind(rest, 0, mid);
        RetryIdsFrom(rest, mid, hi, first);
        Nothing(first);
      }
    }
  }

  lemma Nothing(id: int)
    ensures forall s: seq<int> :: IdIf(id, false) + s == s
  {
  }

  lemma Regroup<T>(a: seq<T>, b: seq<T>, c: seq<T>)
    ensures (a + b) + c == a + (b + c)
  {
  }

  lemma {:induction false} RetryIdsFrom(rows: seq<Row>, mid: int, hi: int, first: int)
    requires 0 < first && mid < first && forall k :: 0 <= k < |rows| ==> first < rows[k].id
    ensures RetryIds(rows, 0, hi) == RetryIds(rows, mid, hi)
  {
    if rows != [] {
      RetryIdsFrom(rows[1..], mid, hi, first);
    }
  }

  lemma {:induction false} RetryIdsHold(rows: seq<Row>, lo: int, hi: int, k: nat)
    requires Table(rows) && k < |rows|
    ensures rows[k].id in RetryIds(rows, lo, hi) <==> lo < rows[k].id <= hi && ToRetry(rows[k])
  {
    TableTail(rows);
    if k == 0 {
      RetryIdsBeyond(rows[1..], lo, hi, rows[0].id);
    } else {
      RetryIdsHold(rows[1..], lo, hi, k - 1);
    }
  }

  lemma {:induction false} RetryIdsBeyond(rows: seq<Row>, lo: int, hi: int, id: int)
    requires forall k :: 0 <= k < |rows| ==> id < rows[k].id
    ensures forall x :: x in RetryIds(rows, lo, hi) ==> id < x
  {
    if rows != [] {
      RetryIdsBeyond(rows[1..], lo, hi, id);
    }
  }

  /** When a page comes back empty nothing is left beyond the cursor. */
  lemma SweepEnds(rows: seq<Row>, lastID: int)
    requires Table(rows) && Query(rows, lastID, PAGE) == []
    ensures Swept(rows, lastID) == Swept(rows, LastId(rows))
    ensures RetryIds(rows, 0, lastID) == RetryIds(rows, 0, LastId(rows))
    ensures FailedUpTo(rows, lastID) == FailedUpTo(rows, LastId(rows))
  {
    PageInside(rows, lastID, PAGE);
    forall k | 0 <= k < |rows|
      ensures rows[k].id <= LastId(rows)
    {
      assert Ahead(rows, k, |rows| - 1);
    }
    EndsEverywhere(rows, lastID, LastId(rows));
    assert Swept(rows, lastID) == Swept(rows, LastId(rows));
  }

  lemma {:induction false} EndsEverywhere(rows: seq<Row>, lastID: int, last: int)
    requires forall k :: 0 <= k < |rows| ==>
               rows[k].id <= last && (rows[k].id > lastID ==> rows[k].status != Failed)
    ensures RetryIds(rows, 0, lastID) == RetryIds(rows, 0, last)
    ensures FailedUpTo(rows, lastID) == FailedUpTo(rows, last)
  {
    if rows != [] {
      EndsEverywhere(rows[1..], lastID, last);
    }
  }

  lemma {:induction false} RetryIdsAscend(rows: seq<Row>, lo: int, hi: int)
    requires Table(rows)
    ensures Ascending(RetryIds(rows, lo, hi))
  {
    if rows != [] {
      TableTail(rows);
      RetryIdsAscend(rows[1..], lo, hi);
      RetryIdsBeyond(rows[1..], lo, hi, rows[0].id);
      var rest := RetryIds(rows[1..], lo, hi);
      var ids := RetryIds(rows, lo, hi);
      var d := |ids| - |rest|;
      assert ids == (if d == 0 then [] else [rows[0].id]) + rest;
      forall i, j | 0 <= i < j < |ids|
        ensures ids[i] < ids[j]
      {
        assert ids[j] == rest[j - d] && rest[j - d] in rest && rows[0].id < rest[j - d];
        if i >= d {
          assert rest[i - d] < rest[j - d];
        }
      }
    }
  }

  /** What the keyset sweep comes to: a row changes if and only if it failed, but not for good; then it
      is pending, and its id is in the queue once, the ids ascending. */
  lemma KeysetSweepIsExact(rows: seq<Row>, k: nat)
    requires Table(rows) && k < |rows|
    ensures var after := Swept(rows, LastId(rows))[k];
            after == if ToRetry(rows[k]) then rows[k].(status := Pending) else rows[k]
    ensures var ids := RetryIds(rows, 0, LastId(rows));
            && (rows[k].id in ids <==> ToRetry(rows[k]))
            && Ascending(ids)
  {
    assert Ahead(rows, k, |rows| - 1);
    RetryIdsHold(rows, 0, LastId(rows), k);
    RetryIdsAscend(rows, 0, LastId(rows));
  }
}
