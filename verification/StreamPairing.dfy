/** The media scanner: pairing the video and audio files of a paged bucket listing as it streams in. */
module StreamPairing {
  import opened Sequences

  datatype Kind = Video | Audio | Other

  /** A listed object; `kind` and `id` are what its name says. */
  datatype Object = Object(key: string, kind: Kind, id: string, size: int)

  datatype FilePair = FilePair(video: string, audio: string, videoSize: int, audioSize: int)

  datatype Task = Task(taskId: int, videoKey: string, audioKey: string, videoSize: int, audioSize: int)

  const EMPTY: FilePair := FilePair("", "", 0, 0)

  // ---------------------------------------------------------------- what a file name says

  predicate Contains(name: string, mark: string) {
    mark <= name || (name != "" && Contains(name[1..], mark))
  }

  lemma {:induction false} ContainsIs(name: string, mark: string)
    ensures Contains(name, mark) <==> Marked(name, mark)
  {
    assert name[0..] == name;
    if name != "" {
      ContainsIs(name[1..], mark);
      assert forall i :: 1 <= i <= |name| ==> name[i..] == name[1..][i - 1..];
    }
  }

  /** Everything before the first occurrence of `mark`. */
  function Head(name: string, mark: string): (h: string)
    requires Contains(name, mark)
    ensures h + mark <= name
    ensures forall i :: 0 <= i < |h| ==> !(mark <= name[i..])
  {
    if mark <= name then ""
    else
      var rest := Head(name[1..], mark);
      assert forall i :: 1 <= i <= |rest| ==> name[i..] == name[1..][i - 1..];
      [name[0]] + rest
  }

  /** `id` is what stands before the first occurrence of `mark` in `name`. */
  ghost predicate NamedBefore(id: string, mark: string, name: string) {
    id + mark <= name && forall i :: 0 <= i < |id| ==> !(mark <= name[i..])
  }

  ghost predicate Marked(name: string, mark: string) {
    exists i :: 0 <= i <= |name| && mark <= name[i..]
  }

  /** A name with both marks is a video. */
  function Listed(key: string, name: string, size: int): (o: Object)
    ensures o.key == key && o.size == size
    ensures o.kind == Video <==> Marked(name, "_video.")
    ensures o.kind == Audio <==> Marked(name, "_audio.") && !Marked(name, "_video.")
    ensures o.kind == Video ==> NamedBefore(o.id, "_video.", name)
    ensures o.kind == Audio ==> NamedBefore(o.id, "_audio.", name)
  {
    ContainsIs(name, "_video.");
    ContainsIs(name, "_audio.");
    if Contains(name, "_video.") then Object(key, Video, Head(name, "_video."), size)
    else if Contains(name, "_audio.") then Object(key, Audio, Head(name, "_audio."), size)
    else Object(key, Other, "", size)
  }

  // ---------------------------------------------------------------- the batch join

  function Put(p: FilePair, o: Object): FilePair {
    match o.kind
    case Video => p.(video := o.key, videoSize := o.size)
    case Audio => p.(audio := o.key, audioSize := o.size)
    case Other => p
  }

  /** What reading `objects` makes of what is known of an id. */
  function AddTo(p: FilePair, objects: seq<Object>, id: string): FilePair {
    if objects == [] then p
    else
      var front, last := AddTo(p, objects[..|objects| - 1], id), objects[|objects| - 1];
      if last.kind != Other && last.id == id then Put(front, last) else front
  }

  /** Both files of an id in a whole listing. */
  function PairOf(listing: seq<Object>, id: string): FilePair {
    AddTo(EMPTY, listing, id)
  }

  predicate Both(p: FilePair) {
    p.video != "" && p.audio != ""
  }

  predicate Complete(listing: seq<Object>, id: string) {
    Both(PairOf(listing, id))
  }

  function TaskOf(p: FilePair, taskId: string -> int): Task {
    Task(taskId(p.video), p.video, p.audio, p.videoSize, p.audioSize)
  }

  /** The batch join queues an id: it has both keys, has not failed for good, and was not queued before. */
  ghost predicate Wanted(listing: seq<Object>, id: string, failed: set<int>, dedup: set<int>, taskId: string -> int) {
    var p := PairOf(listing, id);
    Both(p) && taskId(p.video) !in failed && taskId(p.video) !in dedup
  }

  ghost predicate Keyed(listing: seq<Object>) {
    forall i :: 0 <= i < |listing| ==> listing[i].key != ""
  }

  /** No file is listed after both files of its id. */
  ghost predicate Settled(listing: seq<Object>) {
    forall k :: 0 <= k < |listing| && listing[k].kind != Other ==> !Complete(listing[..k], listing[k].id)
  }

  ghost predicate NoCollisions(listing: seq<Object>, taskId: string -> int) {
    forall x, y :: Complete(listing, x) && Complete(listing, y) && x != y ==>
      taskId(PairOf(listing, x).video) != taskId(PairOf(listing, y).video)
  }

  ghost predicate Has(listing: seq<Object>, id: string, kind: Kind) {
    exists i :: 0 <= i < |listing| && listing[i].id == id && listing[i].kind == kind
  }

  /** An id is complete if and only if it has an object of each kind. */
  lemma {:induction false} PairHas(listing: seq<Object>, id: string)
    requires Keyed(listing)
    ensures PairOf(listing, id).video != "" <==> Has(listing, id, Video)
    ensures PairOf(listing, id).audio != "" <==> Has(listing, id, Audio)
    ensures PairOf(listing, id) == EMPTY <==> !Has(listing, id, Video) && !Has(listing, id, Audio)
  {
    if listing != [] {
      var n := |listing| - 1;
      PairHas(listing[..n], id);
      HasPush(listing, id, Video);
      HasPush(listing, id, Audio);
    }
  }

  ghost predicate LastAt(listing: seq<Object>, i: nat, id: string, kind: Kind, key: string, size: int) {
    && i < |listing| && listing[i] == Object(key, kind, id, size)
    && forall j :: i < j < |listing| ==> listing[j].id != id || listing[j].kind != kind
  }

  /** The last file of this kind of the id. */
  ghost predicate LastListed(listing: seq<Object>, id: string, kind: Kind, key: string, size: int) {
    exists i: nat :: LastAt(listing, i, id, kind, key, size)
  }

  lemma LastListedPush(listing: seq<Object>, id: string, kind: Kind, key: string, size: int)
    requires listing != []
    ensures var n := |listing| - 1;
            && (listing[n] == Object(key, kind, id, size) ==> LastListed(listing, id, kind, key, size))
            && (listing[n].id != id || listing[n].kind != kind ==>
                  LastListed(listing[..n], id, kind, key, size) ==> LastListed(listing, id, kind, key, size))
  {
    var n := |listing| - 1;
    assert listing[n] == Object(key, kind, id, size) ==> LastAt(listing, n, id, kind, key, size);
    if (listing[n].id != id || listing[n].kind != kind) && LastListed(listing[..n], id, kind, key, size) {
      var i: nat :| LastAt(listing[..n], i, id, kind, key, size);
      assert forall j :: 0 <= j < n ==> listing[..n][j] == listing[j];
      assert LastAt(listing, i, id, kind, key, size);
    }
  }

  /** The task of a complete id names the last listed video and the last listed audio file of that id, each
      with its size, and carries the id of the video. */
  lemma {:induction false} TaskIsListed(listing: seq<Object>, id: string, taskId: string -> int)
    ensures var p := PairOf(listing, id);
            var t := TaskOf(p, taskId);
            && (p.video != "" ==>
                  LastListed(listing, id, Video, t.videoKey, t.videoSize) && t.taskId == taskId(t.videoKey))
            && (p.audio != "" ==> LastListed(listing, id, Audio, t.audioKey, t.audioSize))
  {
    if listing != [] {
      var now := PairOf(listing, id);
      TaskIsListed(listing[..|listing| - 1], id, taskId);
      LastListedPush(listing, id, Video, now.video, now.videoSize);
      LastListedPush(listing, id, Audio, now.audio, now.audioSize);
    }
  }

  lemma HasPush(listing: seq<Object>, id: string, kind: Kind)
    requires listing != []
    ensures var n := |listing| - 1;
            Has(listing, id, kind) <==> Has(listing[..n], id, kind) || (listing[n].id == id && listing[n].kind == kind)
  {
    var n := |listing| - 1;
    if Has(listing[..n], id, kind) {
      var i :| 0 <= i < n && listing[..n][i].id == id && listing[..n][i].kind == kind;
      assert listing[i].id == id && listing[i].kind == kind;
    }
    if Has(listing, id, kind) {
      var i :| 0 <= i < |listing| && listing[i].id == id && listing[i].kind == kind;
      assert i < n ==> listing[..n][i] == listing[i];
    }
  }

  /** Once complete, a pair does not change as the listing goes on. */
  lemma {:induction false} CompleteStays(listing: seq<Object>, i: nat, j: nat, id: string)
    requires Settled(listing) && i <= j <= |listing| && Complete(listing[..i], id)
    ensures PairOf(listing[..j], id) == PairOf(listing[..i], id)
    decreases j
  {
    if i < j {
      CompleteStays(listing, i, j - 1, id);
      assert listing[..j][..j - 1] == listing[..j - 1];
    }
  }

  /** Every key is listed once. */
  ghost predicate DistinctKeys(listing: seq<Object>) {
    forall i, j :: 0 <= i < j < |listing| ==> listing[i].key != listing[j].key
  }

  // ---------------------------------------------------------------- resumed scans

  /** Every file of this kind of the id is among the first `k` objects. */
  ghost predicate AllBefore(listing: seq<Object>, k: nat, id: string, kind: Kind) {
    forall i: nat :: At(listing, i, id, kind) ==> i < k
  }

  ghost predicate At(listing: seq<Object>, i: nat, id: string, kind: Kind) {
    i < |listing| && listing[i].id == id && listing[i].kind == kind
  }

  lemma HasWithin(listing: seq<Object>, lo: nat, hi: nat, id: string, kind: Kind)
    requires lo <= hi <= |listing|
    ensures Has(listing[lo..hi], id, kind) <==> exists i: nat :: lo <= i < hi && At(listing, i, id, kind)
  {
    var part := listing[lo..hi];
    if Has(part, id, kind) {
      var i :| 0 <= i < |part| && part[i].id == id && part[i].kind == kind;
      assert At(listing, lo + i, id, kind);
    }
    if i: nat :| lo <= i < hi && At(listing, i, id, kind) {
      assert part[i - lo] == listing[i];
    }
  }

  /** An incremental scan that resumes after the first `k` objects misses an id that the whole listing
      completes if and only if all its videos or all its audio files are among those `k`. */
  lemma ResumedScanMisses(listing: seq<Object>, k: nat, id: string)
    requires Keyed(listing) && k <= |listing| && Complete(listing, id)
    ensures !Complete(listing[k..], id) <==> AllBefore(listing, k, id, Video) || AllBefore(listing, k, id, Audio)
  {
    PairHas(listing[k..], id);
    HasWithin(listing, k, |listing|, id, Video);
    HasWithin(listing, k, |listing|, id, Audio);
    assert listing[k..|listing|] == listing[k..];
    hide Has, At;
  }

  /** A pair whose audio file was listed before the start key: the whole listing completes it, the
      resumed scan does not. */
  lemma SplitPairIsMissed() returns (listing: seq<Object>)
    ensures Keyed(listing) && Complete(listing, "a") && |listing| > 1 && !Complete(listing[1..], "a")
  {
    listing := [Object("a_audio.m4a", Audio, "a", 1), Object("a_video.mp4", Video, "a", 2)];
    assert listing[..1] == [listing[0]] && listing[..1][..0] == [];
    assert AddTo(EMPTY, [], "a") == EMPTY && PairOf([listing[0]], "a") == FilePair("", "a_audio.m4a", 0, 1);
    assert AllBefore(listing, 1, "a", Audio);
    ResumedScanMisses(listing, 1, "a");
  }
}
