/** Part sizes and byte ranges of multipart transfers: the ranges tile the object. */
module RangeTiling {
  const MAX_PARTS: int := 10000
  const MIB: int := 1048576
  const DEFAULT_PART_SIZE: int := 16 * MIB

  /** An inclusive byte range, as in section 14.1.2 of RFC 9110. */
  datatype Range = Range(first: int, last: int)

  // ---------------------------------------------------------------- part sizes

  /** The transfer worker's part size. */
  function WorkerPartSize(size: int, minPartSize: int): int {
    if size / MAX_PARTS < minPartSize then minPartSize else size / MAX_PARTS
  }

  /** The copy tool's part size: the default, or a whole number of MiB. */
  function ToolPartSize(size: int): int {
    if size > DEFAULT_PART_SIZE * MAX_PARTS then ((size / MAX_PARTS - 1) / MIB + 1) * MIB else DEFAULT_PART_SIZE
  }

  function NumParts(size: int, partSize: int): int
    requires partSize > 0
  {
    (size - 1) / partSize + 1
  }

  /** The downloader divides as reals and rounds up. */
  function CeilParts(size: int, chunkSize: int): int
    requires chunkSize > 0
  {
    -((-(size as real) / (chunkSize as real)).Floor)
  }

  /** The number of parts is the least that covers the object. */
  lemma NumPartsCovers(size: int, partSize: int)
    requires size >= 1 && partSize >= 1
    ensures var n := NumParts(size, partSize); n >= 1 && (n - 1) * partSize < size <= n * partSize
  {
    var q, r := (size - 1) / partSize, (size - 1) % partSize;
    assert size - 1 == q * partSize + r;
    assert (q + 1) * partSize == q * partSize + partSize;
  }

  lemma LeastCover(size: int, partSize: int, n: int)
    requires size >= 1 && partSize >= 1 && (n - 1) * partSize < size <= n * partSize
    ensures n == NumParts(size, partSize)
  {
    var m := NumParts(size, partSize);
    NumPartsCovers(size, partSize);
    if n < m {
      MulOrder(n, m - 1, partSize);
    } else if m < n {
      MulOrder(m, n - 1, partSize);
    }
  }

  lemma MulOrder(a: int, b: int, c: int)
    requires a <= b && c >= 0
    ensures a * c <= b * c
  {
  }

  /** Rounding the real quotient up counts the same parts. */
  lemma CeilIsNumParts(size: int, chunkSize: int)
    requires size >= 1 && chunkSize >= 1
    ensures CeilParts(size, chunkSize) == NumParts(size, chunkSize)
  {
    var c := chunkSize as real;
    var x := -(size as real) / c;
    var n := CeilParts(size, chunkSize);
    assert (-n) as real <= x < (-n) as real + 1.0;
    assert ((-n) * chunkSize) as real <= -(size as real) < ((-n) * chunkSize) as real + c by {
      Scaled((-n) as real, x, c, -(size as real));
      RealProduct(-n, chunkSize);
    }
    LeastCoverReal(size, chunkSize, n);
  }

  lemma Scaled(a: real, x: real, c: real, s: real)
    requires c > 0.0 && a <= x < a + 1.0 && x == s / c
    ensures a * c <= s < a * c + c
  {
    assert x * c == s;
    RealOrder(a, x, c);
    RealStrictOrder(x, a + 1.0, c);
    assert (a + 1.0) * c == a * c + c;
  }

  lemma RealProduct(a: int, b: int)
    ensures (a as real) * (b as real) == (a * b) as real
  {
  }

  lemma LeastCoverReal(size: int, chunkSize: int, n: int)
    requires size >= 1 && chunkSize >= 1
    requires ((-n) * chunkSize) as real <= -(size as real) < ((-n) * chunkSize) as real + (chunkSize as real)
    ensures n == NumParts(size, chunkSize)
  {
    assert (-n) * chunkSize <= -size < (-n) * chunkSize + chunkSize;
    assert (-n) * chunkSize == -(n * chunkSize) && (n - 1) * chunkSize == n * chunkSize - chunkSize;
    LeastCover(size, chunkSize, n);
  }

  lemma RealOrder(a: real, b: real, c: real)
    requires a <= b && c > 0.0
    ensures a * c <= b * c
  {
  }

  lemma RealStrictOrder(a: real, b: real, c: real)
    requires a < b && c > 0.0
    ensures a * c < b * c
  {
  }

  // ---------------------------------------------------------------- the part limit

  /** The worker makes parts of the minimum size, or larger ones only when the object fills 10000 of them.
      They stay within one of 10000, and pass it exactly when the size sets the part size without being a
      multiple of 10000. */
  lemma WorkerPartCount(size: int, minPartSize: int)
    requires size >= 1 && minPartSize >= 10000
    ensures var p := WorkerPartSize(size, minPartSize);
            && p >= minPartSize && (p > minPartSize ==> 10000 * p <= size) && size < 10000 * (p + 1)
    ensures var n := NumParts(size, WorkerPartSize(size, minPartSize));
            && n <= 10001
            && (n > 10000 <==> size >= 10000 * minPartSize && size % 10000 != 0)
  {
    var p := WorkerPartSize(size, minPartSize);
    var n := NumParts(size, p);
    NumPartsCovers(size, p);
    assert size < p * MAX_PARTS + MAX_PARTS <= p * (MAX_PARTS + 1);
    CountBound(n, p, MAX_PARTS + 1, size);
    LimitPassed(size, p);
  }

  /** The copy tool makes parts of 16 MiB, or of the fewest whole MiB, more than that, of which 10000 fall short
      of the object by less than 10000 bytes. The limit is passed exactly when rounding up to a MiB does nothing
      and the size is not a multiple of the limit. */
  lemma ToolPartCount(size: int)
    requires size >= 1
    ensures var p := ToolPartSize(size);
            && p % 1048576 == 0 && p >= 16777216 && size < 10000 * (p + 1)
            && (p > 16777216 ==> 10000 * (p - 1048576 + 1) <= size)
    ensures var n := NumParts(size, ToolPartSize(size));
            && n <= 10001
            && (n > 10000 <==> size > 167772160000 && size / 10000 % 1048576 == 0 && size % 10000 != 0)
  {
    var p := ToolPartSize(size);
    var n := NumParts(size, p);
    var q := size / MAX_PARTS;
    if size > DEFAULT_PART_SIZE * MAX_PARTS {
      AlignedUp(q);
      assert q >= DEFAULT_PART_SIZE;
      assert q <= p && (p == q <==> q % MIB == 0);
    }
    NumPartsCovers(size, p);
    assert size < p * MAX_PARTS + MAX_PARTS <= p * (MAX_PARTS + 1);
    CountBound(n, p, MAX_PARTS + 1, size);
    LimitPassed(size, p);
  }

  lemma AlignedUp(q: int)
    requires q >= 1
    ensures var p := ((q - 1) / MIB + 1) * MIB; q <= p < q + MIB && p % MIB == 0 && (p == q <==> q % MIB == 0)
  {
  }

  lemma CountBound(n: int, p: int, limit: int, size: int)
    requires p >= 1 && (n - 1) * p < size <= p * limit
    ensures n <= limit
  {
    if n > limit {
      MulOrder(limit, n - 1, p);
    }
  }

  lemma LimitPassed(size: int, p: int)
    requires size >= 1 && p >= 1
    ensures NumParts(size, p) > MAX_PARTS <==> p * MAX_PARTS < size
  {
    NumPartsCovers(size, p);
    var n := NumParts(size, p);
    if n > MAX_PARTS {
      MulOrder(MAX_PARTS, n - 1, p);
    } else {
      MulOrder(n, MAX_PARTS, p);
    }
  }

  /** The limit that both programs state is passed by real inputs. */
  lemma LimitIsPassed()
    ensures NumParts(200000000001, WorkerPartSize(200000000001, 8 * MIB)) == MAX_PARTS + 1
    ensures NumParts(17 * MIB * MAX_PARTS + 1, ToolPartSize(17 * MIB * MAX_PARTS + 1)) == MAX_PARTS + 1
  {
  }

  // ---------------------------------------------------------------- ranges

  /** Part `i` of the worker and the downloader. */
  function PartRange(size: int, partSize: int, i: int): Range {
    var start := i * partSize;
    var end := start + partSize - 1;
    Range(start, if end >= size then size - 1 else end)
  }

  /** Part `i` of the copy tool, given there as an offset and a length. */
  function ToolRange(size: int, partSize: int, i: int): Range
    requires partSize > 0
  {
    var off := i * partSize;
    var length := if i == NumParts(size, partSize) - 1 then size - off else partSize;
    Range(off, off + length - 1)
  }

  /** Non-empty ranges that follow one another from the first byte to the last. */
  ghost predicate Tiles(ranges: seq<Range>, size: int) {
    && |ranges| > 0 && ranges[0].first == 0 && ranges[|ranges| - 1].last == size - 1
    && (forall i :: 0 <= i < |ranges| ==> ranges[i].first <= ranges[i].last)
    && forall i :: 0 <= i < |ranges| - 1 ==> ranges[i + 1].first == ranges[i].last + 1
  }

  lemma PartRangeShape(size: int, partSize: int, i: int)
    requires size >= 1 && partSize >= 1 && 0 <= i < NumParts(size, partSize)
    ensures var r := PartRange(size, partSize, i);
            && r.first == i * partSize <= r.last && r.last - r.first < partSize
            && r.last == (if i == NumParts(size, partSize) - 1 then size - 1 else (i + 1) * partSize - 1)
            && r == ToolRange(size, partSize, i)
  {
    var n := NumParts(size, partSize);
    NumPartsCovers(size, partSize);
    assert (i + 1) * partSize == i * partSize + partSize;
    if i < n - 1 {
      MulOrder(i + 1, n - 1, partSize);
    }
  }

  /** The part loop of the worker and the downloader. */
  method PartLoop(size: int, partSize: int) returns (ranges: seq<Range>)
    requires size >= 1 && partSize >= 1
    ensures |ranges| == NumParts(size, partSize)
    ensures Tiles(ranges, size)
    ensures forall i :: 0 <= i < |ranges| ==> 1 <= ranges[i].last - ranges[i].first + 1 <= partSize
    ensures forall i :: 0 <= i < |ranges| - 1 ==> ranges[i].last - ranges[i].first + 1 == partSize
  {
    hide NumParts;
    var numParts := NumParts(size, partSize);
    NumPartsCovers(size, partSize);
    ranges := [];
    for i := 0 to numParts
      invariant |ranges| == i && forall k :: 0 <= k < i ==> ranges[k] == PartRange(size, partSize, k)
    {
      var start := i * partSize;
      var end := start + partSize - 1;
      if end >= size {
        end := size - 1;
      }
      ranges := ranges + [Range(start, end)];
    }
    forall k | 0 <= k < numParts
      ensures PartRange(size, partSize, k).first == k * partSize
      ensures PartRange(size, partSize, k).first <= PartRange(size, partSize, k).last < k * partSize + partSize
      ensures PartRange(size, partSize, k).last == if k == numParts - 1 then size - 1 else (k + 1) * partSize - 1
    {
      PartRangeShape(size, partSize, k);
    }
    assert 0 * partSize == 0;
    forall k | 0 <= k < numParts - 1 ensures ranges[k].last - ranges[k].first + 1 == partSize {
      assert (k + 1) * partSize == k * partSize + partSize;
    }
  }

  // ---------------------------------------------------------------- reassembly

  /** What a range request reads. */
  function Read<T>(source: seq<T>, r: Range): seq<T>
    requires 0 <= r.first <= r.last + 1 <= |source|
  {
    source[r.first..r.last + 1]
  }

  ghost predicate Readable(ranges: seq<Range>, size: int) {
    forall i :: 0 <= i < |ranges| ==> 0 <= ranges[i].first <= ranges[i].last < size
  }

  /** The parts put together in part order. */
  ghost function Assembled<T>(source: seq<T>, ranges: seq<Range>): seq<T>
    requires Readable(ranges, |source|)
  {
    if ranges == [] then []
    else Assembled(source, ranges[..|ranges| - 1]) + Read(source, ranges[|ranges| - 1])
  }

  lemma {:induction false} TilesReadable(ranges: seq<Range>, size: int, i: nat)
    requires Tiles(ranges, size) && i < |ranges|
    ensures 0 <= ranges[i].first && ranges[i].last < size
  {
    TilesFrom(ranges, size, i);
    TilesTo(ranges, size, i);
  }

  lemma {:induction false} TilesFrom(ranges: seq<Range>, size: int, i: nat)
    requires Tiles(ranges, size) && i < |ranges|
    ensures 0 <= ranges[i].first
  {
    if i > 0 {
      TilesFrom(ranges, size, i - 1);
      assert ranges[i - 1 + 1].first == ranges[i - 1].last + 1;
    }
  }

  lemma {:induction false} TilesTo(ranges: seq<Range>, size: int, i: nat)
    requires Tiles(ranges, size) && i < |ranges|
    ensures ranges[i].last < size
    decreases |ranges| - i
  {
    if i < |ranges| - 1 {
      TilesTo(ranges, size, i + 1);
    }
  }

  lemma {:induction false} AssembledPrefix<T>(source: seq<T>, ranges: seq<Range>, n: nat)
    requires Tiles(ranges, |source|) && Readable(ranges, |source|) && 0 < n <= |ranges|
    ensures Assembled(source, ranges[..n]) == source[..ranges[n - 1].last + 1]
  {
    var front := ranges[..n];
    assert front[..|front| - 1] == ranges[..n - 1];
    if n == 1 {
      assert ranges[..0] == [];
    } else {
      AssembledPrefix(source, ranges, n - 1);
      assert ranges[n - 2 + 1].first == ranges[n - 2].last + 1;
    }
  }

  /** Any tiling, and so the one the part loop computes, gives the source back byte for byte. */
  lemma Reassembles<T>(source: seq<T>, ranges: seq<Range>)
    requires Tiles(ranges, |source|)
    ensures Readable(ranges, |source|) && Assembled(source, ranges) == source
  {
    forall i | 0 <= i < |ranges| ensures 0 <= ranges[i].first <= ranges[i].last < |source| {
      TilesReadable(ranges, |source|, i);
    }
    AssembledPrefix(source, ranges, |ranges|);
    assert ranges[..|ranges|] == ranges;
  }
}
