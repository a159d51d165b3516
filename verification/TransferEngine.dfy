/** The pure decisions of a folder sync: what the sender plans, how lists are batched, and what the receiver
    accepts, verifies and lets be deleted. */
module TransferEngine {
  import opened FrameProtocol
  import opened Ordering
  import opened RelPaths
  import opened Wrappers

  function CheckHello(protoVersion: nat, mode: TransferMode, expected: TransferMode): Result<(), TransferError> {
    if protoVersion != PROTO_VERSION then Err(VersionMismatch(PROTO_VERSION, protoVersion))
    else if mode != expected then Err(ModeMismatch(expected, mode))
    else Ok(())
  }

  function HelloFrame(mode: TransferMode, folder: Option<string>): ControlFrame {
    Hello(PROTO_VERSION, mode, folder)
  }

  // ---- batching ------------------------------------------------------------------------------------------

  datatype Batch<+T> = Batch(items: seq<T>, more: bool)

  function Batches<T>(s: seq<T>): seq<Batch<T>>
    decreases |s|
  {
    if |s| <= MANIFEST_BATCH then [Batch(s, false)]
    else [Batch(s[..MANIFEST_BATCH], true)] + Batches(s[MANIFEST_BATCH..])
  }

  function Unbatched<T>(batches: seq<Batch<T>>): seq<T> {
    if batches == [] then [] else batches[0].items + Unbatched(batches[1..])
  }

  /** Batching loses nothing, keeps the order, fits every batch, and says `more` on all batches but the last. */
  lemma {:induction false} BatchesAreLossless<T>(s: seq<T>)
    ensures Unbatched(Batches(s)) == s
    ensures |Batches(s)| >= 1
    ensures forall k :: 0 <= k < |Batches(s)| ==>
              Batches(s)[k].more == (k < |Batches(s)| - 1) && |Batches(s)[k].items| <= MANIFEST_BATCH
    decreases |s|
  {
    if |s| > MANIFEST_BATCH {
      BatchesAreLossless(s[MANIFEST_BATCH..]);
      var b := Batches(s);
      assert b[1..] == Batches(s[MANIFEST_BATCH..]);
      assert s == s[..MANIFEST_BATCH] + s[MANIFEST_BATCH..];
    } else {
      assert Batches(s)[1..] == [];
    }
  }

  /** There are as few batches as 512 entries each allow, all but the last full. */
  lemma {:induction false} BatchesAreFull<T>(s: seq<T>)
    ensures |Batches(s)| == if s == [] then 1 else (|s| + 511) / 512
    ensures forall k :: 0 <= k < |Batches(s)| && Batches(s)[k].more ==> |Batches(s)[k].items| == 512
    decreases |s|
  {
    if |s| > MANIFEST_BATCH {
      BatchesAreFull(s[MANIFEST_BATCH..]);
      assert Batches(s)[1..] == Batches(s[MANIFEST_BATCH..]);
    } else {
    }
  }

  lemma BatchesStep<T>(s: seq<T>, sent: nat, next: nat)
    requires sent < |s| && next == if sent + MANIFEST_BATCH <= |s| then sent + MANIFEST_BATCH else |s|
    ensures Batches(s[sent..])
            == [Batch(s[sent..next], next < |s|)] + if next < |s| then Batches(s[next..]) else []
  {
    var left := s[sent..];
    if next < |s| {
      assert left[..MANIFEST_BATCH] == s[sent..next] && left[MANIFEST_BATCH..] == s[next..];
    } else {
      assert left == s[sent..next];
    }
  }

  function ManifestFrames(files: seq<FileEntry>): seq<ControlFrame> {
    var b := Batches(files);
    seq(|b|, k requires 0 <= k < |b| => Manifest(b[k].items, b[k].more))
  }

  function AckFrames(held: seq<PathHash>): seq<ControlFrame> {
    var b := Batches(held);
    seq(|b|, k requires 0 <= k < |b| => ManifestAck(b[k].items, b[k].more))
  }

  // ---- the sender's diff ---------------------------------------------------------------------------------

  /** The peer's list as a map; a later entry for a path replaces an earlier one. */
  function RemoteMap(remote: seq<PathHash>): map<string, string> {
    if remote == [] then map[]
    else
      var last := remote[|remote| - 1];
      RemoteMap(remote[..|remote| - 1])[last.path := last.hash]
  }

  function PathsOf(files: seq<FileEntry>): set<string> {
    set k | 0 <= k < |files| :: files[k].path
  }

  /** The peer already holds this entry's content under its path. */
  predicate AlreadyThere(remote: map<string, string>, entry: FileEntry) {
    entry.path in remote && remote[entry.path] == entry.hash
  }

  function PlanOf(manifest: seq<FileEntry>, remote: map<string, string>): seq<FileEntry> {
    if manifest == [] then []
    else
      var last := manifest[|manifest| - 1];
      PlanOf(manifest[..|manifest| - 1], remote) + if AlreadyThere(remote, last) then [] else [last]
  }

  function StaleOf(remote: seq<PathHash>, source: set<string>): seq<string> {
    if remote == [] then []
    else
      var last := remote[|remote| - 1];
      StaleOf(remote[..|remote| - 1], source) + if last.path in source then [] else [last.path]
  }

  function DeletesOf(remote: seq<PathHash>, manifest: seq<FileEntry>): seq<string> {
    Sort(StaleOf(remote, PathsOf(manifest)), Itself)
  }

  lemma {:induction false} PlanMembers(manifest: seq<FileEntry>, remote: map<string, string>, e: FileEntry)
    ensures e in PlanOf(manifest, remote) <==> e in manifest && !AlreadyThere(remote, e)
    ensures |PlanOf(manifest, remote)| <= |manifest|
  {
    if manifest == [] {
    } else {
      var n := |manifest| - 1;
      PlanMembers(manifest[..n], remote, e);
      assert manifest == manifest[..n] + [manifest[n]];
    }
  }

  lemma {:induction false} RemoteMapKeys(remote: seq<PathHash>, path: string)
    ensures path in RemoteMap(remote) <==> exists k :: 0 <= k < |remote| && remote[k].path == path
    ensures forall k :: 0 <= k < |remote| && remote[k].path == path
              && (forall j :: k < j < |remote| ==> remote[j].path != path)
              ==> path in RemoteMap(remote) && RemoteMap(remote)[path] == remote[k].hash
  {
    if remote == [] {
    } else {
      var n := |remote| - 1;
      RemoteMapKeys(remote[..n], path);
      assert forall k :: 0 <= k < n ==> remote[..n][k] == remote[k];
      if remote[n].path != path {
        forall k | 0 <= k < |remote| && remote[k].path == path
                   && (forall j :: k < j < |remote| ==> remote[j].path != path)
          ensures path in RemoteMap(remote) && RemoteMap(remote)[path] == remote[k].hash
        {
          assert remote[..n][k].path == path;
          assert forall j :: k < j < n ==> remote[..n][j].path != path;
        }
      }
    }
  }

  lemma RemoteMapAt(remote: seq<PathHash>, path: string, k: nat)
    requires k < |remote| && remote[k].path == path && forall j :: k < j < |remote| ==> remote[j].path != path
    ensures path in RemoteMap(remote) && RemoteMap(remote)[path] == remote[k].hash
  {
    RemoteMapKeys(remote, path);
    hide RemoteMap;
  }

  /** Exact: a source entry travels unless the last word of the peer's list about its path is its hash. */
  lemma PlannedIff(manifest: seq<FileEntry>, remote: seq<PathHash>, e: FileEntry)
    requires e in manifest
    ensures e in PlanOf(manifest, RemoteMap(remote))
            <==> !exists k :: && 0 <= k < |remote| && remote[k] == PathHash(e.path, e.hash)
                              && forall j :: k < j < |remote| ==> remote[j].path != e.path
  {
    PlanMembers(manifest, RemoteMap(remote), e);
    RemoteMapKeys(remote, e.path);
    hide PlanOf, RemoteMap;
    if AlreadyThere(RemoteMap(remote), e) {
      var k := LastAbout(remote, e.path);
      assert remote[k] == PathHash(e.path, e.hash);
    }
  }

  /** The position of the last entry about a path. */
  lemma {:induction false} LastAbout(remote: seq<PathHash>, path: string) returns (k: nat)
    requires exists i :: 0 <= i < |remote| && remote[i].path == path
    ensures k < |remote| && remote[k].path == path && forall j :: k < j < |remote| ==> remote[j].path != path
  {
    var n := |remote| - 1;
    if remote[n].path == path {
      k := n;
    } else {
      assert exists i :: 0 <= i < |remote[..n]| && remote[..n][i].path == path by {
        var i :| 0 <= i < |remote| && remote[i].path == path;
        assert remote[..n][i].path == path;
      }
      k := LastAbout(remote[..n], path);
      forall j | k < j < |remote|
        ensures remote[j].path != path
      {
        if j < n {
          assert remote[..n][j].path != path;
        }
      }
    }
  }

  predicate Holds(remote: seq<PathHash>, p: string) {
    exists k :: 0 <= k < |remote| && remote[k].path == p
  }

  lemma HoldsMore(remote: seq<PathHash>, last: PathHash, p: string)
    ensures Holds(remote + [last], p) <==> Holds(remote, p) || last.path == p
  {
    var more := remote + [last];
    assert more[|remote|] == last;
    if k :| 0 <= k < |remote| && remote[k].path == p {
      assert more[k].path == p;
    }
  }

  lemma {:induction false} StaleMembers(remote: seq<PathHash>, source: set<string>, p: string)
    ensures p in StaleOf(remote, source) <==> p !in source && Holds(remote, p)
  {
    if remote == [] {
    } else {
      var n := |remote| - 1;
      StaleMembers(remote[..n], source, p);
      HoldsMore(remote[..n], remote[n], p);
      hide Holds;
      assert remote == remote[..n] + [remote[n]];
    }
  }

  /** The plan in order: it is the manifest without the entries the peer already holds, each of the others exactly once
      and where it stood. `at` are their places. */
  lemma {:induction false} PlanKeepsOrder(manifest: seq<FileEntry>, remote: map<string, string>) returns (at: seq<nat>)
    ensures |at| == |PlanOf(manifest, remote)|
    ensures forall k :: 0 <= k < |at| ==> at[k] < |manifest| && PlanOf(manifest, remote)[k] == manifest[at[k]]
    ensures forall i, j :: 0 <= i < j < |at| ==> at[i] < at[j]
    ensures forall n: nat :: n in at <==> n < |manifest| && !AlreadyThere(remote, manifest[n])
  {
    if manifest == [] {
      at := [];
    } else {
      var n := |manifest| - 1;
      at := PlanKeepsOrder(manifest[..n], remote);
      if !AlreadyThere(remote, manifest[n]) {
        at := at + [n];
      }
    }
  }

  lemma {:induction false} StaleAreDistinct(remote: seq<PathHash>, source: set<string>)
    requires forall i, j :: 0 <= i < j < |remote| ==> remote[i].path != remote[j].path
    ensures DistinctKeys(StaleOf(remote, source), Itself)
  {
    if remote == [] {
    } else {
      var n := |remote| - 1;
      var earlier := StaleOf(remote[..n], source);
      StaleAreDistinct(remote[..n], source);
      forall k | 0 <= k < |earlier|
        ensures earlier[k] != remote[n].path
      {
        StaleMembers(remote[..n], source, earlier[k]);
        var j :| 0 <= j < n && remote[..n][j].path == earlier[k];
        assert remote[j].path != remote[n].path;
      }
    }
  }

  /** Each stale path is named once, if the peer lists each of its files once. */
  lemma DeletesAreNamedOnce(remote: seq<PathHash>, manifest: seq<FileEntry>)
    requires forall i, j :: 0 <= i < j < |remote| ==> remote[i].path != remote[j].path
    ensures StrictlyOrdered(DeletesOf(remote, manifest), Itself)
  {
    var stale := StaleOf(remote, PathsOf(manifest));
    StaleAreDistinct(remote, PathsOf(manifest));
    SortOrdersStrictly(stale, Itself);
    hide PathsOf, Sort, StaleOf;
  }

  /** Exact: the delete list is what the peer holds and the source does not, sorted; so it never names a
      source file. */
  lemma DeletesAreTheStale(remote: seq<PathHash>, manifest: seq<FileEntry>)
    ensures forall p :: p in DeletesOf(remote, manifest) <==> p !in PathsOf(manifest) && Holds(remote, p)
    ensures Ordered(DeletesOf(remote, manifest), Itself)
  {
    var stale := StaleOf(remote, PathsOf(manifest));
    hide Holds, PathsOf, Sort;
    forall p
      ensures p in DeletesOf(remote, manifest) <==> p !in PathsOf(manifest) && Holds(remote, p)
    {
      StaleMembers(remote, PathsOf(manifest), p);
      InMultiset(stale, Sort(stale, Itself), p);
    }
    SortOrders(stale, Itself);
  }

  datatype FailAction = Retry | GiveUp

  class SenderEngine {
    const manifest: seq<FileEntry>
    var plan: seq<FileEntry>
    var deletePaths: seq<string>
    var skipped: nat
    var retried: set<string>

    constructor (files: seq<FileEntry>)
      ensures manifest == files && plan == [] && deletePaths == [] && skipped == 0 && retried == {}
    {
      manifest := files;
      plan, deletePaths, skipped, retried := [], [], 0, {};
    }

    method ManifestBatches() returns (out: seq<ControlFrame>)
      ensures out == ManifestFrames(manifest)
    {
      var total := |manifest|;
      if total == 0 {
        return [Manifest([], false)];
      }
      out := [];
      var sent := 0;
      ghost var batches: seq<Batch<FileEntry>> := [];
      assert manifest[sent..] == manifest;
      hide Batches;
      while sent < total
        invariant 0 <= sent <= total
        invariant |out| == |batches|
        invariant forall k :: 0 <= k < |out| ==> out[k] == Manifest(batches[k].items, batches[k].more)
        invariant if sent < total then Batches(manifest) == batches + Batches(manifest[sent..])
                  else Batches(manifest) == batches
      {
        var next := if sent + MANIFEST_BATCH <= total then sent + MANIFEST_BATCH else total;
        var batch := manifest[sent..next];
        BatchesStep(manifest, sent, next);
        sent := next;
        out := out + [Manifest(batch, sent < total)];
        batches := batches + [Batch(batch, sent < total)];
      }
    }

    static method Lookup(remote: seq<PathHash>) returns (remoteMap: map<string, string>)
      ensures remoteMap == RemoteMap(remote)
    {
      remoteMap := map[];
      var k := 0;
      while k < |remote|
        invariant 0 <= k <= |remote|
        invariant remoteMap == RemoteMap(remote[..k])
      {
        assert remote[..k + 1][..k] == remote[..k];
        remoteMap := remoteMap[remote[k].path := remote[k].hash];
        k := k + 1;
      }
      assert remote[..k] == remote;
    }

    static method PathSet(files: seq<FileEntry>) returns (paths: set<string>)
      ensures paths == PathsOf(files)
    {
      paths := {};
      var k := 0;
      while k < |files|
        invariant 0 <= k <= |files|
        invariant paths == PathsOf(files[..k])
      {
        PathsOfMore(files[..k], files[k]);
        assert files[..k + 1] == files[..k] + [files[k]];
        paths := paths + {files[k].path};
        k := k + 1;
      }
      assert files[..k] == files;
    }

    method OnManifestAck(remote: seq<PathHash>)
      modifies `plan, `skipped, `deletePaths
      ensures plan == PlanOf(manifest, RemoteMap(remote))
      ensures skipped + |plan| == |manifest|
      ensures deletePaths == DeletesOf(remote, manifest)
    {
      hide RemoteMap, PathsOf, Sort;
      var remoteMap := Lookup(remote);
      var source := PathSet(manifest);
      plan := [];
      skipped := 0;
      var k := 0;
      while k < |manifest|
        invariant 0 <= k <= |manifest|
        invariant plan == PlanOf(manifest[..k], remoteMap)
        invariant skipped + |plan| == k
      {
        assert manifest[..k + 1][..k] == manifest[..k];
        var entry := manifest[k];
        if entry.path in remoteMap && remoteMap[entry.path] == entry.hash {
          skipped := skipped + 1;
        } else {
          plan := plan + [entry];
        }
        k := k + 1;
      }
      var stale: seq<string> := [];
      k := 0;
      while k < |remote|
        invariant 0 <= k <= |remote|
        invariant stale == StaleOf(remote[..k], source)
      {
        assert remote[..k + 1][..k] == remote[..k];
        if remote[k].path !in source {
          stale := stale + [remote[k].path];
        }
        k := k + 1;
      }
      assert remote[..k] == remote && manifest[..|manifest|] == manifest;
      deletePaths := Sort(stale, Itself);
    }

    /** One retry for each path: the second failure of a path gives up. */
    method OnFileFail(path: string) returns (action: FailAction)
      modifies `retried
      ensures action == Retry <==> path !in old(retried)
      ensures retried == old(retried) + {path}
    {
      if path !in retried {
        retried := retried + {path};
        action := Retry;
      } else {
        action := GiveUp;
      }
    }
  }

  lemma PathsOfMore(files: seq<FileEntry>, e: FileEntry)
    ensures PathsOf(files + [e]) == PathsOf(files) + {e.path}
  {
    var more := files + [e];
    assert forall k :: 0 <= k < |files| ==> more[k] == files[k];
    assert more[|files|] == e;
    forall p | p in PathsOf(files)
      ensures p in PathsOf(more)
    {
      var k :| 0 <= k < |files| && files[k].path == p;
      assert more[k].path == p;
    }
  }

  lemma PathsOfConcat(a: seq<FileEntry>, b: seq<FileEntry>)
    ensures PathsOf(a + b) == PathsOf(a) + PathsOf(b)
  {
    var c := a + b;
    forall p | p in PathsOf(a) + PathsOf(b)
      ensures p in PathsOf(c)
    {
      if p in PathsOf(a) {
        var k :| 0 <= k < |a| && a[k].path == p;
        assert c[k].path == p;
      } else {
        var k :| 0 <= k < |b| && b[k].path == p;
        assert c[|a| + k].path == p;
      }
    }
  }

  // ---- the receiver's gate -------------------------------------------------------------------------------

  datatype KeepReason = NotRequested | FatFingerGuard

  datatype DeleteDecision = Prune(paths: seq<string>) | Keep(count: nat, reason: KeepReason)

  datatype Receiving = Receiving(
    held: seq<PathHash>, allowDelete: bool, confirmDeleteAll: bool, source: set<string>, complete: bool)

  predicate AllAccepted(paths: seq<string>) {
    forall k :: 0 <= k < |paths| ==> Accepted(paths[k])
  }

  /** How many entries come before the first one whose path is refused. */
  function SafeCount(files: seq<FileEntry>): (n: nat)
    ensures n <= |files|
    ensures forall k :: 0 <= k < n ==> Accepted(files[k].path)
    ensures n < |files| ==> !Accepted(files[n].path)
  {
    if files == [] || !Accepted(files[0].path) then 0 else 1 + SafeCount(files[1..])
  }

  function AfterManifest(r: Receiving, files: seq<FileEntry>, more: bool): Receiving {
    var n := SafeCount(files);
    if n < |files| then r.(source := r.source + PathsOf(files[..n]))
    else r.(source := r.source + PathsOf(files), complete := r.complete || !more)
  }

  function ManifestVerdict(files: seq<FileEntry>): Result<(), TransferError> {
    var n := SafeCount(files);
    if n < |files| then Verdict(files[n].path) else Ok(())
  }

  function FirstRefused(paths: seq<string>): Option<string> {
    if paths == [] then None else if !Accepted(paths[0]) then Some(paths[0]) else FirstRefused(paths[1..])
  }

  function Decide(r: Receiving, requested: seq<string>): Result<DeleteDecision, TransferError> {
    match FirstRefused(requested)
    case Some(path) => Err(UnsafePath(path, match PathFault(path) case Some(reason) => reason case None => ""))
    case None =>
      if !r.allowDelete then Ok(Keep(|requested|, NotRequested))
      else if r.source == {} && r.held != [] && !r.confirmDeleteAll then Ok(Keep(|requested|, FatFingerGuard))
      else Ok(Prune(requested))
  }

  lemma {:induction false} FirstRefusedIff(paths: seq<string>)
    ensures FirstRefused(paths).None? <==> AllAccepted(paths)
    ensures FirstRefused(paths).Some? ==>
              exists k: nat :: FirstRefusedAt(paths, k) && paths[k] == FirstRefused(paths).value
  {
    hide Accepted;
    if paths == [] {
    } else {
      FirstRefusedIff(paths[1..]);
      assert paths == [paths[0]] + paths[1..];
      if !Accepted(paths[0]) {
        assert FirstRefusedAt(paths, 0);
      } else if FirstRefused(paths).Some? {
        var k: nat :| FirstRefusedAt(paths[1..], k) && paths[1..][k] == FirstRefused(paths[1..]).value;
        assert forall j :: 1 <= j <= k ==> paths[j] == paths[1..][j - 1];
        assert FirstRefusedAt(paths, k + 1);
      }
    }
  }

  predicate FirstRefusedAt(paths: seq<string>, k: nat) {
    k < |paths| && !Accepted(paths[k]) && forall j :: 0 <= j < k ==> Accepted(paths[j])
  }

  /** The error that names this path, with what is wrong with it. */
  predicate Names(e: TransferError, path: string) {
    e.UnsafePath? && e.path == path && PathFault(path) == Some(e.reason)
  }

  /** What a batch adds: its paths up to the first that is refused, and the end of the list if it is the last and none
      is. A refusal names that path and its defect. */
  lemma ManifestGathers(r: Receiving, files: seq<FileEntry>, more: bool, n: nat)
    requires n <= |files| && (forall k :: 0 <= k < n ==> Accepted(files[k].path))
    requires n < |files| ==> !Accepted(files[n].path)
    ensures var t := AfterManifest(r, files, more);
            && t.source == r.source + (set k | 0 <= k < n :: files[k].path)
            && (t.complete <==> r.complete || (n == |files| && !more))
            && t.held == r.held && t.allowDelete == r.allowDelete && t.confirmDeleteAll == r.confirmDeleteAll
    ensures if n == |files| then ManifestVerdict(files) == Ok(())
            else ManifestVerdict(files).Err? && Names(ManifestVerdict(files).error, files[n].path)
  {
    assert SafeCount(files) == n;
    hide SafeCount;
    assert PathsOf(files[..n]) == set k | 0 <= k < n :: files[k].path;
    assert n == |files| ==> files[..n] == files;
  }

  /** Exact: paths are removed when deletion was requested on this side, every one of them is safe, and it is
      not the case that an empty source meets a populated destination without an explicit confirmation; and
      then exactly the requested paths. */
  lemma PrunesIff(r: Receiving, requested: seq<string>)
    ensures (Decide(r, requested).Ok? && Decide(r, requested).value.Prune?)
            <==> && r.allowDelete && AllAccepted(requested)
                 && (r.source != {} || r.held == [] || r.confirmDeleteAll)
    ensures Decide(r, requested).Err? <==> !AllAccepted(requested)
    ensures match Decide(r, requested)
            case Err(e) => exists k: nat :: FirstRefusedAt(requested, k) && Names(e, requested[k])
            case Ok(Keep(count, reason)) => count == |requested| && (reason == NotRequested <==> !r.allowDelete)
            case Ok(Prune(_)) => true
    ensures Decide(r, requested).Ok? && Decide(r, requested).value.Prune?
            ==> Decide(r, requested).value.paths == requested
  {
    FirstRefusedIff(requested);
  }

  lemma SafeCountIff(files: seq<FileEntry>)
    ensures SafeCount(files) == |files| <==> forall k :: 0 <= k < |files| ==> Accepted(files[k].path)
  {
  }

  function FoldManifest(r: Receiving, batches: seq<Batch<FileEntry>>): Receiving {
    if batches == [] then r
    else
      var n := |batches| - 1;
      AfterManifest(FoldManifest(r, batches[..n]), batches[n].items, batches[n].more)
  }

  predicate SafeBatch(b: Batch<FileEntry>) {
    SafeCount(b.items) == |b.items|
  }

  predicate AllSafe(batches: seq<Batch<FileEntry>>) {
    forall k :: 0 <= k < |batches| ==> SafeBatch(batches[k])
  }

  lemma AllSafeConcat(a: seq<Batch<FileEntry>>, b: seq<Batch<FileEntry>>)
    ensures AllSafe(a + b) <==> AllSafe(a) && AllSafe(b)
  {
    hide SafeBatch;
    var all := a + b;
    assert forall k :: 0 <= k < |a| ==> a[k] == all[k];
    assert forall k :: 0 <= k < |b| ==> b[k] == all[|a| + k];
  }

  lemma SafeConcat(a: seq<FileEntry>, b: seq<FileEntry>)
    ensures SafeCount(a + b) == |a + b| <==> SafeCount(a) == |a| && SafeCount(b) == |b|
  {
    SafeCountIff(a + b);
    SafeCountIff(a);
    SafeCountIff(b);
    hide SafeCount, Accepted;
    assert forall k :: 0 <= k < |a| ==> a[k] == (a + b)[k];
    assert forall k :: 0 <= k < |b| ==> b[k] == (a + b)[|a| + k];
  }

  /** A list is safe when every batch of it is. */
  lemma {:induction false} BatchesAreSafeIff(files: seq<FileEntry>)
    ensures AllSafe(Batches(files)) <==> SafeCount(files) == |files|
    decreases |files|
  {
    if |files| > MANIFEST_BATCH {
      var head, tail := files[..MANIFEST_BATCH], files[MANIFEST_BATCH..];
      BatchesAreSafeIff(tail);
      AllSafeConcat([Batch(head, true)], Batches(tail));
      assert AllSafe([Batch(head, true)]) <==> SafeCount(head) == |head| by {
        assert SafeBatch([Batch(head, true)][0]) <==> SafeCount(head) == |head|;
      }
      SafeConcat(head, tail);
      assert files == head + tail;
      hide AllSafe, SafeCount;
    } else {
      assert SafeBatch(Batches(files)[0]) <==> SafeCount(files) == |files|;
    }
  }

  /** Some batch says that no more follow. */
  predicate Ends<T>(batches: seq<Batch<T>>) {
    exists k :: 0 <= k < |batches| && !batches[k].more
  }

  lemma EndsMore<T>(batches: seq<Batch<T>>, b: Batch<T>)
    ensures Ends(batches + [b]) <==> Ends(batches) || !b.more
  {
    var c := batches + [b];
    assert c[|batches|] == b;
    if k :| 0 <= k < |batches| && !batches[k].more {
      assert !c[k].more;
    }
  }

  lemma {:induction false} FoldIsUnion(r: Receiving, batches: seq<Batch<FileEntry>>)
    requires AllSafe(batches)
    ensures FoldManifest(r, batches)
            == r.(source := r.source + PathsOf(Unbatched(batches)), complete := r.complete || Ends(batches))
  {
    if batches == [] {
      assert PathsOf(Unbatched(batches)) == {};
    } else {
      var n := |batches| - 1;
      var init, last := batches[..n], batches[n];
      assert batches == init + [last];
      AllSafeConcat(init, [last]);
      assert SafeBatch(last) by { assert batches[n] == last; }
      FoldIsUnion(r, init);
      UnbatchedMore(init, last);
      PathsOfConcat(Unbatched(init), last.items);
      EndsMore(init, last);
      hide PathsOf, Unbatched, Ends;
      assert r.source + (PathsOf(Unbatched(init)) + PathsOf(last.items))
             == (r.source + PathsOf(Unbatched(init))) + PathsOf(last.items);
    }
  }

  lemma {:induction false} UnbatchedMore<T>(batches: seq<Batch<T>>, b: Batch<T>)
    ensures Unbatched(batches + [b]) == Unbatched(batches) + b.items
  {
    if batches == [] {
      assert [b][1..] == [];
    } else {
      UnbatchedMore(batches[1..], b);
      assert (batches + [b])[1..] == batches[1..] + [b];
    }
  }

  /** Batching and then folding loses nothing: a receiver fed the frames of a list of safe paths knows exactly
      that list's paths, and considers the list complete after the last frame and not before. */
  lemma FoldingIsLossless(r: Receiving, files: seq<FileEntry>, n: nat)
    requires !r.complete && r.source == {} && SafeCount(files) == |files|
    requires n <= |Batches(files)|
    ensures FoldManifest(r, Batches(files)[..n]).complete <==> n == |Batches(files)|
    ensures FoldManifest(r, Batches(files)) == r.(source := PathsOf(files), complete := true)
  {
    var b := Batches(files);
    hide *;
    BatchesAreLossless(files);
    BatchesAreSafeIff(files);
    AllSafeConcat(b[..n], b[n..]);
    assert b == b[..n] + b[n..] && b[..|b|] == b;
    EndsOnlyAtEnd(files, n);
    EndsOnlyAtEnd(files, |b|);
    FoldIsUnion(r, b);
    FoldIsUnion(r, b[..n]);
    assert {} + PathsOf(files) == PathsOf(files);
  }

  lemma EndsOnlyAtEnd(files: seq<FileEntry>, n: nat)
    requires n <= |Batches(files)|
    ensures Ends(Batches(files)[..n]) <==> n == |Batches(files)|
  {
    var b := Batches(files);
    BatchesAreLossless(files);
    hide Batches;
    assert !b[|b| - 1].more;
    if n == |b| {
      assert b[..n] == b;
    }
  }

  class ReceiverEngine {
    const held: seq<PathHash>
    const allowDelete: bool
    const confirmDeleteAll: bool
    var source: set<string>
    var manifestComplete: bool

    ghost function State(): Receiving
      reads this
    {
      Receiving(held, allowDelete, confirmDeleteAll, source, manifestComplete)
    }

    constructor (held: seq<PathHash>, allowDelete: bool, confirmDeleteAll: bool)
      ensures State() == Receiving(held, allowDelete, confirmDeleteAll, {}, false)
    {
      this.held, this.allowDelete, this.confirmDeleteAll := held, allowDelete, confirmDeleteAll;
      source, manifestComplete := {}, false;
    }

    method OnManifest(files: seq<FileEntry>, more: bool) returns (r: Result<(), TransferError>)
      modifies this
      ensures State() == AfterManifest(old(State()), files, more)
      ensures r == ManifestVerdict(files)
    {
      var k := 0;
      while k < |files|
        invariant 0 <= k <= |files|
        invariant SafeCount(files) >= k
        invariant source == old(source) + PathsOf(files[..k])
        invariant manifestComplete == old(manifestComplete)
      {
        r := ValidateRelPath(files[k].path);
        if r.Err? {
          assert SafeCount(files) == k;
          return;
        }
        assert files[..k + 1] == files[..k] + [files[k]];
        PathsOfMore(files[..k], files[k]);
        source := source + {files[k].path};
        k := k + 1;
      }
      assert files[..k] == files;
      if !more {
        manifestComplete := true;
      }
      r := Ok(());
    }

    method AckBatches() returns (out: seq<ControlFrame>)
      ensures out == AckFrames(held)
    {
      var total := |held|;
      if total == 0 {
        return [ManifestAck([], false)];
      }
      out := [];
      var sent := 0;
      ghost var batches: seq<Batch<PathHash>> := [];
      assert held[sent..] == held;
      hide Batches;
      while sent < total
        invariant 0 <= sent <= total
        invariant |out| == |batches|
        invariant forall k :: 0 <= k < |out| ==> out[k] == ManifestAck(batches[k].items, batches[k].more)
        invariant if sent < total then Batches(held) == batches + Batches(held[sent..])
                  else Batches(held) == batches
      {
        var next := if sent + MANIFEST_BATCH <= total then sent + MANIFEST_BATCH else total;
        var batch := held[sent..next];
        BatchesStep(held, sent, next);
        sent := next;
        out := out + [ManifestAck(batch, sent < total)];
        batches := batches + [Batch(batch, sent < total)];
      }
    }

    method DeleteDecision(requested: seq<string>) returns (r: Result<DeleteDecision, TransferError>)
      ensures r == Decide(State(), requested)
    {
      var k := 0;
      while k < |requested|
        invariant 0 <= k <= |requested|
        invariant FirstRefused(requested) == FirstRefused(requested[k..])
      {
        var v := ValidateRelPath(requested[k]);
        if v.Err? {
          return Err(v.error);
        }
        k := k + 1;
      }
      if !allowDelete {
        return Ok(Keep(|requested|, NotRequested));
      }
      if source == {} && held != [] && !confirmDeleteAll {
        return Ok(Keep(|requested|, FatFingerGuard));
      }
      r := Ok(Prune(requested));
    }
  }
}
