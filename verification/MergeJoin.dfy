/** The bucket copy tool's merge-join of two listings: which objects it copies and which it deletes. */
module MergeJoin {
  import opened Options

  datatype Object = Object(key: string, relKey: string, size: int)

  // ---------------------------------------------------------------- the order of keys

  /** Strings compare byte by byte. */
  predicate Less(a: string, b: string) {
    b != "" && (a == "" || a[0] < b[0] || (a[0] == b[0] && Less(a[1..], b[1..])))
  }

  lemma {:induction false} Irreflexive(a: string)
    ensures !Less(a, a)
  {
    if a != "" {
      Irreflexive(a[1..]);
    }
  }

  lemma {:induction false} Transitive(a: string, b: string, c: string)
    requires Less(a, b) && Less(b, c)
    ensures Less(a, c)
  {
    if a != "" && a[0] == b[0] == c[0] {
      Transitive(a[1..], b[1..], c[1..]);
    }
  }

  lemma {:induction false} Total(a: string, b: string)
    ensures a == b || Less(a, b) || Less(b, a)
  {
    if a != "" && b != "" && a[0] == b[0] {
      Total(a[1..], b[1..]);
      assert a == a[..1] + a[1..] && b == b[..1] + b[1..];
    }
  }

  lemma {:induction false} CommonPrefix(p: string, a: string, b: string)
    ensures Less(p + a, p + b) <==> Less(a, b)
  {
    if p == "" {
      assert p + a == a && p + b == b;
    } else {
      CommonPrefix(p[1..], a, b);
      assert (p + a)[1..] == p[1..] + a && (p + b)[1..] == p[1..] + b;
    }
  }

  ghost predicate Ascending(s: seq<Object>) {
    forall i, j :: 0 <= i < j < |s| ==> Less(s[i].relKey, s[j].relKey)
  }

  // ---------------------------------------------------------------- what should happen

  predicate Matches(d: Object, o: Object) {
    d.relKey == o.relKey && d.size == o.size
  }

  predicate Present(dst: seq<Object>, o: Object) {
    exists k :: 0 <= k < |dst| && Matches(dst[k], o)
  }

  /** The source objects the destination lacks, in order. */
  function ToCopy(src: seq<Object>, dst: seq<Object>): seq<Object> {
    if src == [] then []
    else
      var front, last := src[..|src| - 1], src[|src| - 1];
      ToCopy(front, dst) + if Present(dst, last) then [] else [last]
  }

  /** The keys of all the others. */
  function ToDelete(src: seq<Object>, dst: seq<Object>): seq<string> {
    if src == [] then []
    else
      var front, last := src[..|src| - 1], src[|src| - 1];
      ToDelete(front, dst) + if Present(dst, last) then [last.key] else []
  }

  ghost predicate Justified(src: seq<Object>, dst: seq<Object>, key: string) {
    exists i :: 0 <= i < |src| && src[i].key == key && Present(dst, src[i])
  }

  // ---------------------------------------------------------------- the one-pass loop

  /** What the loop copies, for any two listings. */
  function Copied(src: seq<Object>, dst: seq<Object>): seq<Object>
    decreases |src| + |dst|
  {
    if src == [] then []
    else if dst == [] then [src[0]] + Copied(src[1..], dst)
    else if Less(dst[0].relKey, src[0].relKey) then Copied(src, dst[1..])
    else if dst[0].relKey == src[0].relKey then
      (if dst[0].size == src[0].size then [] else [src[0]]) + Copied(src[1..], dst[1..])
    else [src[0]] + Copied(src[1..], dst)
  }

  lemma CopiedAt(src: seq<Object>, dst: seq<Object>, i: nat, p: nat)
    requires i < |src| && p <= |dst|
    ensures var here := Copied(src[i..], dst[p..]);
            if p < |dst| && Less(dst[p].relKey, src[i].relKey) then here == Copied(src[i..], dst[p + 1..])
            else if p < |dst| && dst[p].relKey == src[i].relKey then
              here == (if dst[p].size == src[i].size then [] else [src[i]]) + Copied(src[i + 1..], dst[p + 1..])
            else here == [src[i]] + Copied(src[i + 1..], dst[p..])
  {
    hide Less;
    assert src[i..][0] == src[i] && src[i..][1..] == src[i + 1..];
    if p < |dst| {
      assert dst[p..][0] == dst[p] && dst[p..][1..] == dst[p + 1..];
    }
  }

  lemma Regroup(a: seq<Object>, b: seq<Object>, c: seq<Object>)
    ensures a + (b + c) == (a + b) + c
    ensures a + ([] + c) == a + c
  {
  }

  /** Everything before `p` in the destination sorts before source object `i`. */
  ghost predicate Behind(src: seq<Object>, dst: seq<Object>, i: nat, p: nat) {
    0 < p <= |dst| && i < |src| ==> Less(dst[p - 1].relKey, src[i].relKey)
  }

  /** The merge loop of `main`. For listings strictly ascending in RelKey it copies exactly the objects
      the destination lacks and, with `deleteSrc`, deletes exactly the others. For any listings at all,
      an object is only deleted when a destination object has its RelKey and size. */
  method Merge(src: seq<Object>, dst: seq<Object>, deleteSrc: bool) returns (jobs: seq<Object>, deleted: seq<string>)
    ensures jobs == Copied(src, dst)
    ensures Ascending(src) && Ascending(dst) ==> jobs == ToCopy(src, dst)
    ensures Ascending(src) && Ascending(dst) ==> deleted == if deleteSrc then ToDelete(src, dst) else []
    ensures forall key :: key in deleted ==> Justified(src, dst, key)
    ensures forall o :: o in src && !Present(dst, o) ==> o in jobs
    ensures deleteSrc ==> |jobs| + |deleted| == |src|
  {
    hide Less, Ascending, Present, Matches, Justified, ToCopy, ToDelete, Copied;
    jobs, deleted := [], [];
    OneMore(src, dst, 0);
    var read := 0;
    var dstObj: Option<Object> := None;
    if read < |dst| {
      dstObj := Some(dst[read]);
    }
    assert src[0..] == src && dst[0..] == dst;
    ghost var sorted := Ascending(src) && Ascending(dst);
    var i := 0;
    while i < |src|
      invariant 0 <= i <= |src| && 0 <= read <= |dst|
      invariant dstObj == if read < |dst| then Some(dst[read]) else None
      invariant Copied(src, dst) == jobs + Copied(src[i..], dst[read..])
      invariant sorted ==> Behind(src, dst, i, read)
      invariant sorted ==> jobs == ToCopy(src[..i], dst)
      invariant sorted ==> deleted == if deleteSrc then ToDelete(src[..i], dst) else []
      invariant forall key :: key in deleted ==> Justified(src, dst, key)
      invariant forall k :: 0 <= k < i && !Present(dst, src[k]) ==> src[k] in jobs
      invariant deleteSrc ==> |jobs| + |deleted| == i
    {
      var srcObj := src[i];
      while dstObj.Some? && Less(dstObj.value.relKey, srcObj.relKey)
        invariant 0 <= read <= |dst|
        invariant dstObj == if read < |dst| then Some(dst[read]) else None
        invariant Copied(src, dst) == jobs + Copied(src[i..], dst[read..])
        invariant sorted ==> Behind(src, dst, i, read)
        decreases |dst| - read
      {
        CopiedAt(src, dst, i, read);
        read := read + 1;
        dstObj := if read < |dst| then Some(dst[read]) else None;
      }
      ghost var at := read;
      CopiedAt(src, dst, i, at);
      Regroup(jobs, [srcObj], Copied(src[i + 1..], dst[at..]));
      if at < |dst| {
        Regroup(jobs, [srcObj], Copied(src[i + 1..], dst[at + 1..]));
      }
      if dstObj.Some? && dstObj.value.relKey == srcObj.relKey {
        if dstObj.value.size == srcObj.size {
          MatchAt(src, dst, i, read);
          if deleteSrc {
            deleted := deleted + [srcObj.key];
          }
        } else {
          jobs := jobs + [srcObj];
        }
        read := read + 1;
        dstObj := if read < |dst| then Some(dst[read]) else None;
      } else {
        jobs := jobs + [srcObj];
      }
      if sorted {
        PresentExactlyAt(src, dst, i, at);
      }
      OneMore(src, dst, i);
      i := i + 1;
    }
    assert src[..i] == src && src[i..] == [];
    NothingCopied(dst[read..]);
  }

  lemma NothingCopied(dst: seq<Object>)
    ensures Copied([], dst) == []
  {
  }

  lemma OneMore(src: seq<Object>, dst: seq<Object>, i: nat)
    ensures ToCopy([], dst) == [] && ToDelete([], dst) == []
    ensures i < |src| ==>
              ToCopy(src[..i + 1], dst) == ToCopy(src[..i], dst) + (if Present(dst, src[i]) then [] else [src[i]])
    ensures i < |src| ==>
              ToDelete(src[..i + 1], dst)
              == ToDelete(src[..i], dst) + (if Present(dst, src[i]) then [src[i].key] else [])
  {
    if i < |src| {
      assert src[..i + 1][..i] == src[..i];
    }
  }

  lemma MatchAt(src: seq<Object>, dst: seq<Object>, i: nat, p: nat)
    requires i < |src| && p < |dst|
    requires dst[p].relKey == src[i].relKey && dst[p].size == src[i].size
    ensures Matches(dst[p], src[i]) && Present(dst, src[i]) && Justified(src, dst, src[i].key)
  {
    assert Matches(dst[p], src[i]);
  }

  /** When the search for source object `i` stops at `p`, only position `p` can match it. */
  lemma PresentExactlyAt(src: seq<Object>, dst: seq<Object>, i: nat, p: nat)
    requires Ascending(src) && Ascending(dst) && i < |src| && p <= |dst| && Behind(src, dst, i, p)
    requires p < |dst| ==> !Less(dst[p].relKey, src[i].relKey)
    ensures Present(dst, src[i]) <==> p < |dst| && dst[p].relKey == src[i].relKey && dst[p].size == src[i].size
    ensures Behind(src, dst, i + 1, p)
    ensures p < |dst| && dst[p].relKey == src[i].relKey ==> Behind(src, dst, i + 1, p + 1)
  {
    var key := src[i].relKey;
    forall k | 0 <= k < |dst| && k != p
      ensures dst[k].relKey != key
    {
      Irreflexive(key);
      if k < p {
        if k < p - 1 {
          Transitive(dst[k].relKey, dst[p - 1].relKey, key);
        }
      } else {
        Total(dst[p].relKey, key);
        if dst[p].relKey != key {
          Transitive(key, dst[p].relKey, dst[k].relKey);
        }
      }
    }
    if 0 < p && i + 1 < |src| {
      Transitive(dst[p - 1].relKey, key, src[i + 1].relKey);
    }
  }

  // ---------------------------------------------------------------- where the RelKeys come from

  predicate HasPrefix(s: string, p: string) {
    p <= s
  }

  function TrimPrefix(s: string, p: string): string {
    if HasPrefix(s, p) then s[|p|..] else s
  }

  /** The part after the last slash. */
  function BaseName(s: string): string {
    if s == "" || s[|s| - 1] == '/' then "" else BaseName(s[..|s| - 1]) + [s[|s| - 1]]
  }

  lemma {:induction false} BaseNameIs(s: string)
    ensures var b := BaseName(s);
            && '/' !in b && |b| <= |s| && s[|s| - |b|..] == b
            && (|b| < |s| ==> s[|s| - |b| - 1] == '/')
  {
    if s != "" && s[|s| - 1] != '/' {
      BaseNameIs(s[..|s| - 1]);
    }
  }

  /** The RelKey `listObjects` gives a key listed under `prefix`. */
  function RelKey(prefix: string, key: string): string {
    if prefix == "" then key
    else if key == prefix then BaseName(key)
    else if HasPrefix(key, prefix) then TrimPrefix(TrimPrefix(key, prefix), "/")
    else key
  }

  /** A slash right after the prefix is dropped from the RelKey. */
  predicate DropsSlash(prefix: string, key: string) {
    prefix != "" && HasPrefix(key, prefix + "/")
  }

  lemma DropsSlashIs(prefix: string, key: string)
    requires HasPrefix(key, prefix) && prefix != ""
    ensures DropsSlash(prefix, key) <==> HasPrefix(key[|prefix|..], "/")
  {
    var tail := key[|prefix|..];
    if tail != "" {
      assert tail[0] == key[|prefix|] && tail[..1] == [tail[0]];
      assert key[..|prefix| + 1] == prefix + [tail[0]];
    }
  }

  lemma RelKeyIs(prefix: string, key: string)
    requires HasPrefix(key, prefix) && key != prefix
    ensures key == (if DropsSlash(prefix, key) then prefix + "/" else prefix) + RelKey(prefix, key)
  {
    if prefix != "" {
      var tail := key[|prefix|..];
      assert key == prefix + tail;
      DropsSlashIs(prefix, key);
      if HasPrefix(tail, "/") {
        assert tail == "/" + tail[1..];
        assert (prefix + "/") + tail[1..] == key;
      }
    }
  }

  /** The prefix itself sorts before every other key under it. */
  lemma PrefixIsLeast(prefix: string, key: string)
    requires HasPrefix(key, prefix)
    ensures !Less(key, prefix)
  {
    var tail := key[|prefix|..];
    assert prefix + tail == key && prefix + "" == prefix;
    CommonPrefix(prefix, tail, "");
  }

  lemma RelKeysKeepOrder(prefix: string, a: string, b: string)
    requires HasPrefix(a, prefix) && HasPrefix(b, prefix) && a != prefix && b != prefix
    requires DropsSlash(prefix, a) == DropsSlash(prefix, b)
    ensures Less(RelKey(prefix, a), RelKey(prefix, b)) <==> Less(a, b)
  {
    RelKeyIs(prefix, a);
    RelKeyIs(prefix, b);
    CommonPrefix(if DropsSlash(prefix, a) then prefix + "/" else prefix, RelKey(prefix, a), RelKey(prefix, b));
  }

  ghost predicate InOrder(keys: seq<string>, k: nat) {
    k + 1 < |keys| ==> Less(keys[k], keys[k + 1])
  }

  ghost predicate Stepwise(keys: seq<string>) {
    forall k: nat :: InOrder(keys, k)
  }

  lemma {:induction false} StepwiseIsEnough(keys: seq<string>, i: nat, j: nat)
    requires Stepwise(keys) && i < j < |keys|
    ensures Less(keys[i], keys[j])
    decreases j
  {
    assert InOrder(keys, j - 1);
    if i < j - 1 {
      StepwiseIsEnough(keys, i, j - 1);
      Transitive(keys[i], keys[j - 1], keys[j]);
    }
  }

  /** A bucket listing: the keys under the prefix, ascending. */
  ghost predicate Listing(prefix: string, keys: seq<string>) {
    && Stepwise(keys)
    && forall k :: 0 <= k < |keys| ==> HasPrefix(keys[k], prefix)
  }

  function Listed(prefix: string, keys: seq<string>): seq<Object> {
    seq(|keys|, k requires 0 <= k < |keys| => Object(keys[k], RelKey(prefix, keys[k]), 0))
  }

  /** Where keys with a slash right after the prefix meet keys without one, or the prefix itself is listed. */
  predicate Seam(prefix: string, keys: seq<string>, k: nat) {
    k + 1 < |keys|
    && ((keys[k] == prefix && prefix != "") || DropsSlash(prefix, keys[k]) != DropsSlash(prefix, keys[k + 1]))
  }

  function RelKeys(prefix: string, keys: seq<string>): seq<string> {
    seq(|keys|, k requires 0 <= k < |keys| => RelKey(prefix, keys[k]))
  }

  lemma NoSeamKeepsOrder(prefix: string, keys: seq<string>, k: nat)
    requires Listing(prefix, keys) && !Seam(prefix, keys, k)
    ensures InOrder(RelKeys(prefix, keys), k)
  {
    if k + 1 < |keys| {
      assert InOrder(keys, k);
      if prefix != "" {
        PrefixIsLeast(prefix, keys[k]);
        RelKeysKeepOrder(prefix, keys[k], keys[k + 1]);
      }
    }
  }

  /** The listing is strictly ascending in RelKey, as the merge needs it, if and only if it is so at
      the seams. */
  lemma SortedExactlyWhen(prefix: string, keys: seq<string>)
    requires Listing(prefix, keys)
    ensures Ascending(Listed(prefix, keys)) <==>
            forall k: nat :: Seam(prefix, keys, k) ==> InOrder(RelKeys(prefix, keys), k)
  {
    var rel := RelKeys(prefix, keys);
    var objects := Listed(prefix, keys);
    assert |objects| == |rel| && forall k :: 0 <= k < |rel| ==> objects[k].relKey == rel[k];
    hide RelKey, Less, Listed, RelKeys, Seam, Listing;
    if forall k: nat :: Seam(prefix, keys, k) ==> InOrder(rel, k) {
      forall k: nat
        ensures InOrder(rel, k)
      {
        if !Seam(prefix, keys, k) {
          NoSeamKeepsOrder(prefix, keys, k);
        }
      }
      forall i, j | 0 <= i < j < |objects|
        ensures Less(objects[i].relKey, objects[j].relKey)
      {
        StepwiseIsEnough(rel, i, j);
      }
    } else {
      var k: nat :| Seam(prefix, keys, k) && !InOrder(rel, k);
      assert !Less(objects[k].relKey, objects[k + 1].relKey);
    }
  }

  /** A prefix without a trailing slash can mix both kinds: "data/x" and "database" are listed in key
      order, but their RelKeys "x" and "base" are not. */
  lemma PrefixWithoutSlash()
    ensures var keys := ["data/x", "database"];
            Listing("data", keys) && !Ascending(Listed("data", keys))
            && Listed("data", keys) == [Object("data/x", "x", 0), Object("database", "base", 0)]
  {
    var keys := ["data/x", "database"];
    CommonPrefix("data", "/x", "base");
    assert "data" + "/x" == "data/x" && "data" + "base" == "database";
    assert InOrder(keys, 0);
    DatabaseRelKeys();
    var objects := Listed("data", keys);
    assert !Less(objects[0].relKey, objects[1].relKey);
  }

  lemma DatabaseRelKeys()
    ensures RelKey("data", "data/x") == "x" && RelKey("data", "database") == "base" && !Less("x", "base")
  {
    assert "data/x"[4..] == "/x" && "/x"[1..] == "x";
    assert "database"[..4] == "data" && "database"[4..] == "base";
    assert "base"[0] == 'b' && !HasPrefix("base", "/");
  }

  /** The merge of that listing with a destination that has both objects copies the second one again. */
  lemma MisorderedCopiesAgain()
    ensures var src := [Object("data/x", "x", 0), Object("database", "base", 0)];
            var dst := [Object("base", "base", 0), Object("x", "x", 0)];
            Ascending(dst) && ToCopy(src, dst) == [] && Copied(src, dst) == [src[1]]
  {
    var src := [Object("data/x", "x", 0), Object("database", "base", 0)];
    var dst := [Object("base", "base", 0), Object("x", "x", 0)];
    assert Less("base", "x") && !Less("x", "x");
    assert Matches(dst[0], src[1]) && Matches(dst[1], src[0]);
    assert src[..1] == [src[0]] && [src[0]][..0] == [];
    assert dst[1..] == [dst[1]] && [dst[1]][1..] == [] && src[1..] == [src[1]] && [src[1]][1..] == [];
    assert Copied([src[1]], []) == [src[1]];
  }
}
