/** Lists of uploaded parts: sorting them, and when a list holds every part once. */
module PartLists {
  datatype Part = Part(number: int, etag: string)

  /** Parts 1..n, each once, ascending: what a completion request must carry. */
  ghost predicate OneEach(parts: seq<Part>, n: int) {
    |parts| == n && forall i :: 0 <= i < n ==> parts[i].number == i + 1
  }

  /** Different parts of an upload of `n` parts, in any order. */
  ghost predicate Sound(parts: seq<Part>, n: int) {
    && (forall i :: 0 <= i < |parts| ==> 1 <= parts[i].number <= n)
    && forall i, j :: 0 <= i < j < |parts| ==> parts[i].number != parts[j].number
  }

  ghost predicate Ascending(parts: seq<Part>) {
    forall i, j :: 0 <= i < j < |parts| ==> parts[i].number <= parts[j].number
  }

  lemma {:induction false} SoundAscendingGrows(parts: seq<Part>, n: int, i: nat)
    requires Sound(parts, n) && Ascending(parts) && i < |parts|
    ensures parts[i].number >= i + 1
  {
    if i > 0 {
      SoundAscendingGrows(parts, n, i - 1);
      assert parts[i - 1].number <= parts[i].number && parts[i - 1].number != parts[i].number;
    }
  }

  lemma {:induction false} SoundAscendingBounded(parts: seq<Part>, n: int, i: nat)
    requires Sound(parts, n) && Ascending(parts) && i < |parts|
    ensures parts[i].number <= n - (|parts| - 1 - i)
    decreases |parts| - i
  {
    if i < |parts| - 1 {
      SoundAscendingBounded(parts, n, i + 1);
      assert parts[i].number <= parts[i + 1].number && parts[i].number != parts[i + 1].number;
    }
  }

  /** `n` different parts of `n`, sorted, are parts 1..n. */
  lemma FullListIsOneEach(parts: seq<Part>, n: int)
    requires Sound(parts, n) && Ascending(parts) && |parts| == n
    ensures OneEach(parts, n)
  {
    forall i | 0 <= i < n ensures parts[i].number == i + 1 {
      SoundAscendingGrows(parts, n, i);
      SoundAscendingBounded(parts, n, i);
    }
  }

  lemma {:induction false} SoundOnce(parts: seq<Part>, n: int, p: Part)
    requires Sound(parts, n)
    ensures multiset(parts)[p] <= 1
  {
    if parts != [] {
      var k := |parts| - 1;
      SoundOnce(parts[..k], n, p);
      assert parts == parts[..k] + [parts[k]];
    }
  }

  /** Soundness does not depend on the order. */
  lemma SoundPermuted(parts: seq<Part>, sorted: seq<Part>, n: int)
    requires Sound(parts, n) && multiset(sorted) == multiset(parts)
    ensures Sound(sorted, n)
  {
    forall i | 0 <= i < |sorted| ensures 1 <= sorted[i].number <= n {
      assert sorted[i] in multiset(parts);
    }
    forall i, j | 0 <= i < j < |sorted| ensures sorted[i].number != sorted[j].number {
      assert sorted[i] in multiset(parts) && sorted[j] in multiset(parts);
      SoundOnce(parts, n, sorted[i]);
      assert sorted == sorted[..j] + sorted[j..];
      assert sorted[i] in sorted[..j] && sorted[j] in sorted[j..];
    }
  }

  /** A new part that the list does not have. */
  lemma SoundPush(parts: seq<Part>, p: Part, n: int)
    requires Sound(parts, n) && 1 <= p.number <= n && forall q :: q in parts ==> q.number != p.number
    ensures Sound(parts + [p], n)
  {
    forall i, j | 0 <= i < j < |parts| + 1 ensures (parts + [p])[i].number != (parts + [p])[j].number {
      assert parts[i] in parts;
    }
  }

  // ---------------------------------------------------------------- the exchange sort

  /** Everything before `i` is in its final place. */
  ghost predicate Settled(parts: seq<Part>, i: int) {
    forall x, y :: 0 <= x < i && x < y < |parts| ==> parts[x].number <= parts[y].number
  }

  /** The downloader's sort of the slice, in place. */
  method SortParts(a: array<Part>)
    modifies a
    ensures Ascending(a[..])
    ensures multiset(a[..]) == old(multiset(a[..]))
  {
    var i := 0;
    while i < a.Length
      invariant 0 <= i <= a.Length
      invariant Settled(a[..], i)
      invariant multiset(a[..]) == old(multiset(a[..]))
    {
      var j := i + 1;
      while j < a.Length
        invariant i < j <= a.Length
        invariant Settled(a[..], i)
        invariant forall y :: i < y < j ==> a[i].number <= a[y].number
        invariant multiset(a[..]) == old(multiset(a[..]))
      {
        if a[i].number > a[j].number {
          ExchangeSettled(a[..], i, j);
          a[i], a[j] := a[j], a[i];
        }
        j := j + 1;
      }
      i := i + 1;
    }
  }

  /** An exchange behind the settled front leaves it settled. */
  lemma ExchangeSettled(parts: seq<Part>, i: int, j: int)
    requires 0 <= i < j < |parts| && Settled(parts, i)
    ensures Settled(parts[i := parts[j]][j := parts[i]], i)
  {
  }
}
