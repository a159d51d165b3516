/** The receiving side of a folder sync. The sync root is a map from relative paths to bytes; what the file
    system does at each step (refusals, files that cannot be removed) is given with the frame. */
module SyncReceivers {
  import opened Bytes
  import opened FrameProtocol
  import opened Ordering
  import opened RelPaths
  import opened TransferEngine
  import opened Wrappers

  const PART_SUFFIX: string := ".nullseal-part"

  type Files = map<string, seq<Byte>>
  type Hash = seq<Byte> -> string

  predicate IsPart(path: string) {
    |path| >= |PART_SUFFIX| && path[|path| - |PART_SUFFIX|..] == PART_SUFFIX
  }

  /** The temporary name a file occupies until its hash verifies. */
  function PartOf(path: string): (p: string)
    ensures IsPart(p)
  {
    path + PART_SUFFIX
  }

  lemma PartNames(path: string)
    ensures PartOf(path) == path + ".nullseal-part"
    ensures IsPart(path) <==> exists stem: string :: path == stem + ".nullseal-part"
  {
    if IsPart(path) {
      assert path == path[..|path| - 14] + ".nullseal-part";
    }
  }

  function Real(fs: Files): Files {
    map p | p in fs && !IsPart(p) :: fs[p]
  }

  // ---- scanning the destination ------------------------------------------------------------------------------

  ghost function AsSeq(s: set<string>): (r: seq<string>)
    ensures (forall x :: x in r <==> x in s) && (forall i, j :: 0 <= i < j < |r| ==> r[i] != r[j])
  {
    if s == {} then []
    else
      var x :| x in s;
      [x] + AsSeq(s - {x})
  }

  /** The elements in byte order. */
  ghost function InOrder(s: set<string>): seq<string> {
    Sort(AsSeq(s), Itself)
  }

  lemma InOrderIs(s: set<string>)
    ensures StrictlyOrdered(InOrder(s), Itself) && forall x :: x in InOrder(s) <==> x in s
  {
    SortOrdersStrictly(AsSeq(s), Itself);
    forall x
      ensures x in InOrder(s) <==> x in s
    {
      InMultiset(AsSeq(s), InOrder(s), x);
    }
  }

  function Hashed(h: Hash, fs: Files, keys: seq<string>): (r: seq<PathHash>)
    requires forall k :: k in keys ==> k in fs
    ensures |r| == |keys| && forall i :: 0 <= i < |r| ==> r[i] == PathHash(keys[i], h(fs[keys[i]]))
  {
    seq(|keys|, i requires 0 <= i < |keys| => PathHash(keys[i], h(fs[keys[i]])))
  }

  /** Every real file with the hash of its content, in byte order. */
  ghost function Listing(h: Hash, fs: Files): seq<PathHash> {
    InOrderIs(Real(fs).Keys);
    Hashed(h, Real(fs), InOrder(Real(fs).Keys))
  }

  lemma ListedIff(h: Hash, fs: Files, p: string)
    ensures Holds(Listing(h, fs), p) <==> p in fs && !IsPart(p)
  {
    var keys := InOrder(Real(fs).Keys);
    var l := Listing(h, fs);
    InOrderIs(Real(fs).Keys);
    hide InOrder, Less, IsPart;
    if Holds(l, p) {
      var k :| 0 <= k < |l| && l[k].path == p;
      assert keys[k] == p && p in keys;
    }
    if p in fs && !IsPart(p) {
      assert p in keys;
      var k :| 0 <= k < |keys| && keys[k] == p;
      assert l[k].path == p;
    }
  }

  lemma ListedOnce(h: Hash, fs: Files, k: nat, j: nat)
    requires k < j < |Listing(h, fs)|
    ensures Listing(h, fs)[k].path != Listing(h, fs)[j].path
  {
    var keys := InOrder(Real(fs).Keys);
    InOrderIs(Real(fs).Keys);
    hide InOrder, Less, IsPart;
    assert Less(Itself(keys[k]), Itself(keys[j]));
    LessTrichotomy(keys[k], keys[j]);
  }

  lemma ListingAt(h: Hash, fs: Files, p: string)
    ensures Holds(Listing(h, fs), p) <==> p in fs && !IsPart(p)
    ensures p in fs && !IsPart(p) ==> p in RemoteMap(Listing(h, fs)) && RemoteMap(Listing(h, fs))[p] == h(fs[p])
    ensures p in RemoteMap(Listing(h, fs)) ==> p in fs && !IsPart(p)
  {
    var l := Listing(h, fs);
    ListedIff(h, fs, p);
    RemoteMapKeys(l, p);
    if p in fs && !IsPart(p) {
      ListedHash(h, fs, p);
    }
    hide RemoteMap, IsPart, InOrder, Listing;
  }

  lemma ListedWhere(h: Hash, fs: Files, p: string) returns (k: nat)
    requires p in fs && !IsPart(p)
    ensures k < |Listing(h, fs)| && Listing(h, fs)[k] == PathHash(p, h(fs[p]))
  {
    var keys := InOrder(Real(fs).Keys);
    InOrderIs(Real(fs).Keys);
    hide InOrder, Less, IsPart;
    assert p in keys;
    k :| 0 <= k < |keys| && keys[k] == p;
  }

  lemma ListedHash(h: Hash, fs: Files, p: string)
    requires p in fs && !IsPart(p)
    ensures p in RemoteMap(Listing(h, fs)) && RemoteMap(Listing(h, fs))[p] == h(fs[p])
  {
    hide *;
    var l := Listing(h, fs);
    var k := ListedWhere(h, fs, p);
    forall j | k < j < |l|
      ensures l[j].path != p
    {
      ListedOnce(h, fs, k, j);
    }
    RemoteMapAt(l, p, k);
  }

  /** Exact: the listing names each real file once, with its hash. */
  lemma ListingIs(h: Hash, fs: Files)
    ensures forall p :: Holds(Listing(h, fs), p) <==> p in fs && !IsPart(p)
    ensures forall p :: p in fs && !IsPart(p) ==>
              p in RemoteMap(Listing(h, fs)) && RemoteMap(Listing(h, fs))[p] == h(fs[p])
    ensures forall p :: p in RemoteMap(Listing(h, fs)) ==> p in fs && !IsPart(p)
  {
    hide *;
    forall p
      ensures Holds(Listing(h, fs), p) <==> p in fs && !IsPart(p)
      ensures p in fs && !IsPart(p) ==> p in RemoteMap(Listing(h, fs)) && RemoteMap(Listing(h, fs))[p] == h(fs[p])
      ensures p in RemoteMap(Listing(h, fs)) ==> p in fs && !IsPart(p)
    {
      ListingAt(h, fs, p);
    }
  }

  lemma RealTwice(h: Hash, fs: Files)
    ensures Real(Real(fs)) == Real(fs) && Listing(h, Real(fs)) == Listing(h, fs)
  {
    assert Real(Real(fs)) == Real(fs);
  }

  method ScanDest(h: Hash, fs: Files) returns (out: seq<PathHash>)
    ensures out == Listing(h, fs)
  {
    var keys: seq<string> := [];
    var left := Real(fs).Keys;
    while left != {}
      invariant left <= Real(fs).Keys
      invariant forall x :: x in keys <==> x in Real(fs).Keys - left
      invariant forall i, j :: 0 <= i < j < |keys| ==> keys[i] != keys[j]
      decreases |left|
    {
      var name :| name in left;
      assert name !in keys;
      keys := keys + [name];
      left := left - {name};
    }
    var sorted := Sort(keys, Itself);
    forall x
      ensures x in sorted <==> x in Real(fs).Keys
    {
      InMultiset(keys, sorted, x);
    }
    SortOrdersStrictly(keys, Itself);
    InOrderIs(Real(fs).Keys);
    StrictOrderIsUnique(sorted, InOrder(Real(fs).Keys));
    out := Hashed(h, Real(fs), sorted);
  }

  method NotKept(listing: seq<PathHash>, kept: set<string>) returns (extras: seq<string>)
    ensures forall p :: p in extras <==> p !in kept && Holds(listing, p)
  {
    extras := [];
    var k := 0;
    assert forall p :: !Holds(listing[..0], p);
    hide Holds;
    while k < |listing|
      invariant 0 <= k <= |listing|
      invariant forall p :: p in extras <==> p !in kept && Holds(listing[..k], p)
    {
      assert listing[..k + 1] == listing[..k] + [listing[k]];
      forall p
        ensures Holds(listing[..k + 1], p) <==> Holds(listing[..k], p) || listing[k].path == p
      {
        HoldsMore(listing[..k], listing[k], p);
      }
      if listing[k].path !in kept {
        extras := extras + [listing[k].path];
      }
      k := k + 1;
    }
    assert listing[..k] == listing;
  }

  /** After an archive was unpacked: removes every real file it did not contain. */
  method PruneExtras(h: Hash, fs: Files, kept: set<string>, stuck: set<string>) returns (after: Files, deleted: nat)
    ensures forall p :: p in after <==> p in fs && (IsPart(p) || p in kept || p in stuck)
    ensures forall p :: p in after ==> after[p] == fs[p]
    ensures deleted == |fs| - |after|
  {
    var listing := ScanDest(h, fs);
    var extras := NotKept(listing, kept);
    ListingIs(h, fs);
    PruningShrinks(fs, extras, stuck);
    hide Listing, RemoteMap, IsPart, Holds;
    after := PrunedFiles(fs, extras, stuck);
    deleted := |fs| - |after|;
  }

  // ---- state -----------------------------------------------------------------------------------------------------

  datatype Options = Options(replaceDelete: bool, confirmAll: bool)

  datatype Summary = Summary(filesSent: nat, bytes: nat, skipped: nat, deleted: nat, kept: nat, overwritten: nat)

  datatype SyncError = Refused(error: TransferError) | Local(what: string) | ConnectionLost

  /** A file being received: what was hashed so far. */
  datatype Part = Part(rel: string, data: seq<Byte>, existed: bool, declared: nat)

  datatype Phase = AwaitHello | Running | Finished | Broken(error: SyncError)

  datatype Receiver = Receiver(
    phase: Phase, opts: Options, engine: Receiving, acked: bool, current: Option<Part>, fs: Files, summary: Summary)

  datatype Incoming = Got(frame: Frame) | Lost

  /** What the file system refuses during one step. `stuck` are the files that cannot be removed; `swept` the part
      files a directory lists before a stuck one. */
  datatype Weather = Weather(
    rootBlocked: bool, createFails: bool, scanFails: bool, writeFails: bool, flushFails: bool, renameFails: bool,
    stuck: set<string>, swept: set<string>)

  datatype Effect = Effect(r: Receiver, out: seq<ControlFrame>)

  function Fresh(opts: Options, fs: Files): Receiver {
    Receiver(AwaitHello, opts, Receiving([], opts.replaceDelete, opts.confirmAll, {}, false), false, None, fs,
             Summary(0, 0, 0, 0, 0, 0))
  }

  // ---- one frame -------------------------------------------------------------------------------------------------

  /** Removing one file, if it is there and can be removed. */
  function Removed(fs: Files, path: string, stuck: set<string>): Files {
    if path in stuck then fs else fs - {path}
  }

  /** A left-over part file cannot be removed. */
  predicate PartStuck(fs: Files, stuck: set<string>) {
    exists p :: p in fs && IsPart(p) && p in stuck
  }

  /** The part files removed before that one was met. */
  function EarlyParts(fs: Files, w: Weather): set<string> {
    set p | p in fs && IsPart(p) && p in w.swept && p !in w.stuck
  }

  /** The listed paths that can be removed. */
  function Gone(paths: seq<string>, stuck: set<string>): set<string> {
    set p | p in paths && p !in stuck
  }

  function PrunedFiles(fs: Files, paths: seq<string>, stuck: set<string>): Files {
    fs - Gone(paths, stuck)
  }

  /** Leaving the loop, on any path: an unfinished part file is removed. */
  function Left(r: Receiver, phase: Phase, w: Weather): Receiver {
    r.(phase := phase, current := None,
       fs := if r.current.Some? then Removed(r.fs, PartOf(r.current.value.rel), w.stuck) else r.fs)
  }

  function Halted(r: Receiver, error: SyncError, w: Weather): Receiver {
    Left(r, Broken(error), w)
  }

  function Aborted(r: Receiver, error: TransferError, reason: string, w: Weather): Effect {
    Effect(Halted(r, Refused(error), w), [Abort(reason)])
  }

  /** The run starts: the part files are gone and the rest is listed. */
  ghost function Started(h: Hash, r: Receiver): Receiver {
    r.(phase := Running, fs := Real(r.fs),
       engine := Receiving(Listing(h, r.fs), r.opts.replaceDelete, r.opts.confirmAll, {}, false))
  }

  ghost function OnHello(h: Hash, r: Receiver, protoVersion: nat, mode: TransferMode, folder: Option<string>,
                         w: Weather): Effect {
    match CheckHello(protoVersion, mode, Sync)
    case Err(e) => Aborted(r, e, "bad hello", w)
    case Ok(_) =>
      if folder.None? then Aborted(r, MissingFolder, "missing folder", w)
      else if !(Accepted(folder.value) && Split(folder.value) == [folder.value]) then
        Aborted(r, UnsafePath(folder.value, "folder"), "unsafe folder", w)
      else if w.rootBlocked then
        Effect(Halted(r, Local("root is not a directory"), w), [Abort("root is not a directory")])
      else if w.createFails then Effect(Halted(r, Local("cannot create the sync folder"), w), [])
      else if PartStuck(r.fs, w.stuck) then
        Effect(Halted(r.(fs := r.fs - EarlyParts(r.fs, w)), Local("cannot discard a part file"), w), [])
      else if w.scanFails then Effect(Halted(r.(fs := Real(r.fs)), Local("cannot read the destination"), w), [])
      else Effect(Started(h, r), [HelloFrame(Sync, None)])
  }

  function OnManifestFrame(r: Receiver, files: seq<FileEntry>, more: bool, w: Weather): Effect {
    var engine := AfterManifest(r.engine, files, more);
    match ManifestVerdict(files)
    case Err(e) => Aborted(r.(engine := engine), e, "unsafe path", w)
    case Ok(_) =>
      if engine.complete && !r.acked then Effect(r.(engine := engine, acked := true), AckFrames(engine.held))
      else Effect(r.(engine := engine), [])
  }

  function OnFileBegin(r: Receiver, path: string, size: nat, w: Weather): Effect {
    match Verdict(path)
    case Err(e) => Aborted(r, e, "unsafe path", w)
    case Ok(_) =>
      if w.createFails then Effect(Halted(r, Local("cannot create the part file"), w), [])
      else Effect(r.(fs := r.fs[PartOf(path) := []], current := Some(Part(path, [], path in r.fs, size))), [])
  }

  function OnChunk(r: Receiver, data: seq<Byte>, w: Weather): Effect {
    if r.current.None? then Aborted(r, Unexpected("file chunk before FileBegin"), "unexpected chunk", w)
    else if w.writeFails then Effect(Halted(r, Local("cannot write the part file"), w), [])
    else
      var c := r.current.value;
      var part := PartOf(c.rel);
      Effect(r.(current := Some(c.(data := c.data + data)),
                fs := if part in r.fs then r.fs[part := r.fs[part] + data] else r.fs), [])
  }

  function OnFileEnd(h: Hash, r: Receiver, hash: string, w: Weather): Effect {
    if r.current.None? then Aborted(r, Unexpected("FileEnd before FileBegin"), "unexpected FileEnd", w)
    else
      var c := r.current.value;
      var part := PartOf(c.rel);
      var dropped := r.(current := None, fs := Removed(r.fs, part, w.stuck));
      if w.flushFails then Effect(dropped, [FileFail(c.rel, "cannot flush the received file")])
      else if hash != h(c.data) then Effect(dropped, [FileFail(c.rel, "hash mismatch")])
      else if w.renameFails || part !in r.fs then Effect(dropped, [FileFail(c.rel, "cannot move the file into place")])
      else
        Effect(r.(current := None, fs := (r.fs - {part})[c.rel := r.fs[part]],
                  summary := r.summary.(filesSent := r.summary.filesSent + 1,
                                        bytes := r.summary.bytes + |r.fs[part]|,
                                        overwritten := r.summary.overwritten + if c.existed then 1 else 0)),
               [FileOk(c.rel)])
  }

  function OnDelete(r: Receiver, paths: seq<string>, w: Weather): Effect {
    match Decide(r.engine, paths)
    case Err(e) => Aborted(r, e, "unsafe path", w)
    case Ok(Keep(count, reason)) => Effect(r.(summary := r.summary.(kept := count)), [])
    case Ok(Prune(list)) =>
      var fs := PrunedFiles(r.fs, list, w.stuck);
      PruningShrinks(r.fs, list, w.stuck);
      Effect(r.(fs := fs, summary := r.summary.(deleted := |r.fs| - |fs|)), [])
  }

  lemma PruningShrinks(fs: Files, paths: seq<string>, stuck: set<string>)
    ensures |PrunedFiles(fs, paths, stuck)| <= |fs|
  {
    var less := PrunedFiles(fs, paths, stuck);
    assert less.Keys <= fs.Keys;
    SubsetSize(less.Keys, fs.Keys);
    assert |less| == |less.Keys| && |fs| == |fs.Keys|;
  }

  lemma GoneOneMore(paths: seq<string>, k: nat, stuck: set<string>)
    requires k < |paths|
    ensures Gone(paths[..k + 1], stuck) == Gone(paths[..k], stuck) + (if paths[k] in stuck then {} else {paths[k]})
  {
    assert paths[..k + 1] == paths[..k] + [paths[k]];
  }

  lemma MinusOneMore(fs: Files, gone: set<string>, path: string)
    ensures fs - (gone + {path}) == (fs - gone) - {path}
  {
  }

  lemma RemovingOne(fs: Files, path: string)
    ensures if path in fs then |fs - {path}| == |fs| - 1 else fs - {path} == fs
  {
    var less := fs - {path};
    assert less.Keys == fs.Keys - {path};
    assert |fs| == |fs.Keys| && |less| == |less.Keys|;
  }

  lemma PruneOneMore(fs: Files, paths: seq<string>, k: nat, stuck: set<string>)
    requires k < |paths|
    ensures var before, after := PrunedFiles(fs, paths[..k], stuck), PrunedFiles(fs, paths[..k + 1], stuck);
            if paths[k] in before && paths[k] !in stuck then after == before - {paths[k]} && |after| == |before| - 1
            else after == before
  {
    var gone := Gone(paths[..k], stuck);
    GoneOneMore(paths, k, stuck);
    hide Gone;
    if paths[k] in stuck {
      assert gone + {} == gone;
    } else {
      MinusOneMore(fs, gone, paths[k]);
      RemovingOne(fs - gone, paths[k]);
    }
  }

  lemma {:induction false} SubsetSize(a: set<string>, b: set<string>)
    requires a <= b
    ensures |a| <= |b|
  {
    if a == {} {
    } else {
      var x :| x in a;
      SubsetSize(a - {x}, b - {x});
    }
  }

  function OnDone(r: Receiver, skipped: nat, w: Weather): Effect {
    var s := r.summary.(skipped := skipped);
    Effect(Left(r.(summary := s), Finished, w), [Done(s.filesSent, s.bytes, s.deleted, s.skipped)])
  }

  function OnRunning(h: Hash, r: Receiver, frame: Frame, w: Weather): (e: Effect)
  {
    match frame
    case Chunk(data) => OnChunk(r, data, w)
    case Control(Manifest(files, more)) => OnManifestFrame(r, files, more, w)
    case Control(FileBegin(path, size, _)) => OnFileBegin(r, path, size, w)
    case Control(FileEnd(hash)) => OnFileEnd(h, r, hash, w)
    case Control(Delete(paths)) => OnDelete(r, paths, w)
    case Control(Done(_, _, _, skipped)) => OnDone(r, skipped, w)
    case Control(Abort(reason)) => Effect(Halted(r, Refused(PeerAbort(reason)), w), [])
    case Control(_) => Aborted(r, Unexpected("frame"), "unexpected frame", w)
  }

  /** What one frame, or the end of the connection, does. A receiver that is done reads nothing. */
  ghost function Step(h: Hash, r: Receiver, i: Incoming, w: Weather): Effect {
    if r.phase.Finished? || r.phase.Broken? then Effect(r, [])
    else
      match i
      case Lost => Effect(Halted(r, ConnectionLost, w), [])
      case Got(frame) =>
        if r.phase.Running? then OnRunning(h, r, frame, w)
        else
          match frame
          case Control(Hello(protoVersion, mode, folder)) => OnHello(h, r, protoVersion, mode, folder, w)
          case Control(Abort(reason)) => Effect(Halted(r, Refused(PeerAbort(reason)), w), [])
          case _ => Aborted(r, Unexpected("frame"), "unexpected frame", w)
  }

  // ---- answering can fail -------------------------------------------------------------------------------------------

  /** The answers go out one after the other; the first that does not encode ends the run, without an abort. Only an
      abort itself may fail to go out unnoticed. */
  function Replied(json: Json, e: Effect, w: Weather): Effect {
    var n := SendableCount(json, Controls(e.out));
    if n == |e.out| then e
    else
      Effect(if e.r.phase.Broken? then e.r else Halted(e.r, Refused(EncodeError(json, Control(e.out[n]))), w),
             e.out[..n])
  }

  /** What one frame, or the end of the connection, does, answers included. */
  ghost function Handled(h: Hash, json: Json, r: Receiver, i: Incoming, w: Weather): Effect {
    Replied(json, Step(h, r, i, w), w)
  }

  // ---- the receiver ------------------------------------------------------------------------------------------------

  class SyncReceiver {
    const json: Json
    const hash: Hash
    const opts: Options
    var phase: Phase
    var engine: ReceiverEngine
    var acked: bool
    var current: Option<Part>
    var fs: Files
    var summary: Summary
    /** Everything that went out so far. */
    var sent: seq<ControlFrame>

    ghost predicate Valid()
      reads this
    {
      engine.allowDelete == opts.replaceDelete && engine.confirmDeleteAll == opts.confirmAll
    }

    ghost function State(): Receiver
      reads this, engine
    {
      Receiver(phase, opts, engine.State(), acked, current, fs, summary)
    }

    constructor (json: Json, hash: Hash, opts: Options, fs: Files)
      ensures Valid() && this.json == json && this.hash == hash
      ensures State() == Fresh(opts, fs) && sent == [] && fresh(engine)
      ensures phase == AwaitHello && !acked && current == None && this.fs == fs && this.opts == opts
      ensures summary == Summary(0, 0, 0, 0, 0, 0)
    {
      this.json, this.hash, this.opts, this.fs := json, hash, opts, fs;
      sent := [];
      phase := AwaitHello;
      engine := new ReceiverEngine([], opts.replaceDelete, opts.confirmAll);
      acked, current := false, None;
      summary := Summary(0, 0, 0, 0, 0, 0);
    }

    method RemoveFile(path: string, w: Weather)
      modifies `fs
      ensures fs == Removed(old(fs), path, w.stuck)
    {
      if path !in w.stuck {
        fs := fs - {path};
      }
    }

    method Halt(error: SyncError, w: Weather)
      modifies `phase, `current, `fs
      ensures State() == Halted(old(State()), error, w)
    {
      Leave(Broken(error), w);
    }

    method Leave(next: Phase, w: Weather)
      modifies `phase, `current, `fs
      ensures State() == Left(old(State()), next, w)
    {
      phase := next;
      if current.Some? {
        RemoveFile(PartOf(current.value.rel), w);
        current := None;
      }
    }

    /** Resolves the sync root, discards stale part files, lists the rest, answers. */
    method ResolveSyncRoot(protoVersion: nat, mode: TransferMode, folder: Option<string>, w: Weather)
      returns (out: seq<ControlFrame>)
      requires Valid()
      modifies this
      ensures Valid() && (engine == old(engine) || fresh(engine))
      ensures sent == old(sent)
      ensures Effect(State(), out) == OnHello(hash, old(State()), protoVersion, mode, folder, w)
    {
      hide Listing, Accepted, Split, Real;
      var hello := CheckHello(protoVersion, mode, Sync);
      if hello.Err? {
        Halt(Refused(hello.error), w);
        return [Abort("bad hello")];
      }
      if folder.None? {
        Halt(Refused(MissingFolder), w);
        return [Abort("missing folder")];
      }
      var component := ValidatePathComponent(folder.value);
      if component.Err? {
        Halt(Refused(UnsafePath(folder.value, "folder")), w);
        return [Abort("unsafe folder")];
      }
      if w.rootBlocked {
        Halt(Local("root is not a directory"), w);
        return [Abort("root is not a directory")];
      }
      if w.createFails {
        Halt(Local("cannot create the sync folder"), w);
        return [];
      }
      RealTwice(hash, fs);
      var swept := DiscardStaleParts(w);
      if !swept {
        Halt(Local("cannot discard a part file"), w);
        return [];
      }
      if w.scanFails {
        Halt(Local("cannot read the destination"), w);
        return [];
      }
      var local := ScanDest(hash, fs);
      engine := new ReceiverEngine(local, opts.replaceDelete, opts.confirmAll);
      phase := Running;
      out := [HelloFrame(Sync, None)];
    }

    method RemoveFiles(names: set<string>)
      modifies `fs
      ensures fs == old(fs) - names
    {
      var left := names;
      while left != {}
        invariant left <= names
        invariant fs == old(fs) - (names - left)
        decreases |left|
      {
        var name :| name in left;
        left := left - {name};
        fs := fs - {name};
      }
      assert names - left == names;
    }

    /** Removes the part files an earlier run left; the first that cannot be removed ends the run. */
    method DiscardStaleParts(w: Weather) returns (ok: bool)
      modifies `fs
      ensures ok == !PartStuck(old(fs), w.stuck)
      ensures fs == if ok then Real(old(fs)) else old(fs) - EarlyParts(old(fs), w)
    {
      var parts := set p | p in fs.Keys && IsPart(p);
      var early := set p | p in parts && p in w.swept && p !in w.stuck;
      assert early == EarlyParts(fs, w);
      RemoveFiles(early);
      if exists p :: p in parts && p in w.stuck {
        return false;
      }
      RemoveFiles(parts - early);
      assert fs == Real(old(fs));
      ok := true;
    }

    /** Verifies a finished part file and moves it into place; otherwise removes it. */
    method CommitPart(c: Part, expected: string, w: Weather) returns (r: Result<nat, string>)
      modifies `fs
      ensures var part := PartOf(c.rel);
              match r
              case Ok(bytes) =>
                && expected == hash(c.data) && part in old(fs) && !w.flushFails && !w.renameFails
                && bytes == |old(fs)[part]| && fs == (old(fs) - {part})[c.rel := old(fs)[part]]
              case Err(reason) =>
                && fs == Removed(old(fs), part, w.stuck)
                && (w.flushFails || expected != hash(c.data) || w.renameFails || part !in old(fs))
                && reason == if w.flushFails then "cannot flush the received file"
                             else if expected != hash(c.data) then "hash mismatch"
                             else "cannot move the file into place"
    {
      var part := PartOf(c.rel);
      var bytes := if part in fs then |fs[part]| else 0;
      if w.flushFails {
        RemoveFile(part, w);
        return Err("cannot flush the received file");
      }
      var actual := hash(c.data);
      if expected != actual {
        RemoveFile(part, w);
        return Err("hash mismatch");
      }
      if w.renameFails || part !in fs {
        RemoveFile(part, w);
        return Err("cannot move the file into place");
      }
      var moved := fs[part];
      fs := (fs - {part})[c.rel := moved];
      r := Ok(bytes);
    }

    /** Removes the listed files and counts the ones that went. */
    method PruneListed(paths: seq<string>, w: Weather) returns (deleted: nat)
      modifies `fs
      ensures fs == PrunedFiles(old(fs), paths, w.stuck)
      ensures deleted == |old(fs)| - |fs|
    {
      deleted := 0;
      var k := 0;
      assert fs == PrunedFiles(fs, paths[..0], w.stuck);
      hide PrunedFiles;
      while k < |paths|
        invariant 0 <= k <= |paths|
        invariant fs == PrunedFiles(old(fs), paths[..k], w.stuck)
        invariant deleted == |old(fs)| - |fs|
      {
        var path := paths[k];
        PruneOneMore(old(fs), paths, k, w.stuck);
        if path in fs && path !in w.stuck {
          fs := fs - {path};
          deleted := deleted + 1;
        }
        k := k + 1;
      }
      assert paths[..k] == paths;
    }

    method ReceiveFileEnd(expected: string, w: Weather) returns (out: seq<ControlFrame>)
      modifies `phase, `current, `fs, `summary
      ensures Effect(State(), out) == OnFileEnd(hash, old(State()), expected, w)
    {
      if current.None? {
        Halt(Refused(Unexpected("FileEnd before FileBegin")), w);
        return [Abort("unexpected FileEnd")];
      }
      var c := current.value;
      current := None;
      var r := CommitPart(c, expected, w);
      match r {
        case Ok(bytes) =>
          summary := summary.(filesSent := summary.filesSent + 1, bytes := summary.bytes + bytes);
          if c.existed {
            summary := summary.(overwritten := summary.overwritten + 1);
          }
          out := [FileOk(c.rel)];
        case Err(reason) =>
          out := [FileFail(c.rel, reason)];
      }
    }

    method ReceiveManifest(files: seq<FileEntry>, more: bool, w: Weather) returns (out: seq<ControlFrame>)
      requires Valid()
      modifies this, engine
      ensures Valid() && engine == old(engine) && sent == old(sent)
      ensures Effect(State(), out) == OnManifestFrame(old(State()), files, more, w)
    {
      var verdict := engine.OnManifest(files, more);
      if verdict.Err? {
        Halt(Refused(verdict.error), w);
        return [Abort("unsafe path")];
      }
      out := [];
      if engine.manifestComplete && !acked {
        acked := true;
        out := engine.AckBatches();
      }
    }

    method ReceiveFileBegin(path: string, size: nat, w: Weather) returns (out: seq<ControlFrame>)
      modifies `phase, `current, `fs
      ensures Effect(State(), out) == OnFileBegin(old(State()), path, size, w)
    {
      var verdict := ValidateRelPath(path);
      if verdict.Err? {
        Halt(Refused(verdict.error), w);
        return [Abort("unsafe path")];
      }
      out := [];
      if w.createFails {
        Halt(Local("cannot create the part file"), w);
        return;
      }
      var existed := path in fs;
      fs := fs[PartOf(path) := []];
      current := Some(Part(path, [], existed, size));
    }

    method ReceiveChunk(data: seq<Byte>, w: Weather) returns (out: seq<ControlFrame>)
      modifies `phase, `current, `fs
      ensures Effect(State(), out) == OnChunk(old(State()), data, w)
    {
      out := [];
      if current.None? {
        Halt(Refused(Unexpected("file chunk before FileBegin")), w);
        return [Abort("unexpected chunk")];
      }
      if w.writeFails {
        Halt(Local("cannot write the part file"), w);
        return;
      }
      var c := current.value;
      var part := PartOf(c.rel);
      if part in fs {
        fs := fs[part := fs[part] + data];
      }
      current := Some(c.(data := c.data + data));
    }

    method ReceiveDelete(paths: seq<string>, w: Weather) returns (out: seq<ControlFrame>)
      requires Valid()
      modifies `phase, `current, `fs, `summary
      ensures Effect(State(), out) == OnDelete(old(State()), paths, w)
    {
      out := [];
      var decision := engine.DeleteDecision(paths);
      match decision {
        case Err(e) =>
          Halt(Refused(e), w);
          out := [Abort("unsafe path")];
        case Ok(Keep(count, reason)) =>
          summary := summary.(kept := count);
        case Ok(Prune(list)) =>
          var deleted := PruneListed(list, w);
          summary := summary.(deleted := deleted);
      }
    }

    /** Sends answers until one does not encode. */
    method Answer(out: seq<ControlFrame>, w: Weather)
      modifies `phase, `current, `fs, `sent
      ensures var e := Replied(json, Effect(old(State()), out), w);
              State() == e.r && sent == old(sent) + e.out
    {
      ghost var frames := Controls(out);
      var k := 0;
      assert AllEncodable(json, frames[..0]);
      hide Encodable, SendableCount, AllEncodable;
      while k < |out|
        invariant 0 <= k <= |out|
        invariant AllEncodable(json, frames[..k])
        invariant sent == old(sent) + out[..k] && State() == old(State())
      {
        OneMoreEncodes(json, frames, k);
        var bytes := EncodeFrame(json, Control(out[k]));
        if bytes.Err? {
          SendableIs(json, frames, k);
          if !phase.Broken? {
            Halt(Refused(bytes.error), w);
          }
          return;
        }
        assert out[..k + 1] == out[..k] + [out[k]];
        sent := sent + [out[k]];
        k := k + 1;
      }
      assert out[..k] == out;
      SendableIs(json, frames, k);
    }

    method Receive(i: Incoming, w: Weather)
      requires Valid()
      modifies this, engine
      ensures Valid() && (engine == old(engine) || fresh(engine))
      ensures var e := Handled(hash, json, old(State()), i, w);
              State() == e.r && sent == old(sent) + e.out
    {
      hide Step, Replied;
      var out := OnFrame(i, w);
      Answer(out, w);
    }

    method OnFrame(i: Incoming, w: Weather) returns (out: seq<ControlFrame>)
      requires Valid()
      modifies this, engine
      ensures Valid() && (engine == old(engine) || fresh(engine))
      ensures sent == old(sent)
      ensures Effect(State(), out) == Step(hash, old(State()), i, w)
    {
      hide OnHello, OnRunning;
      out := [];
      if phase.Finished? || phase.Broken? {
        return;
      }
      if i.Lost? {
        Halt(ConnectionLost, w);
        return;
      }
      if phase.AwaitHello? {
        match i.frame {
          case Control(Hello(protoVersion, mode, folder)) => out := ResolveSyncRoot(protoVersion, mode, folder, w);
          case Control(Abort(reason)) => Halt(Refused(PeerAbort(reason)), w);
          case _ =>
            Halt(Refused(Unexpected("frame")), w);
            out := [Abort("unexpected frame")];
        }
        return;
      }
      out := OnRunningFrame(i.frame, w);
    }

    method OnRunningFrame(frame: Frame, w: Weather) returns (out: seq<ControlFrame>)
      requires Valid()
      modifies this, engine
      ensures Valid() && engine == old(engine) && sent == old(sent)
      ensures Effect(State(), out) == OnRunning(hash, old(State()), frame, w)
    {
      hide OnManifestFrame, OnFileBegin, OnChunk, OnFileEnd, OnDelete;
      out := [];
      match frame {
        case Chunk(data) => out := ReceiveChunk(data, w);
        case Control(Manifest(files, more)) => out := ReceiveManifest(files, more, w);
        case Control(FileBegin(path, size, _)) => out := ReceiveFileBegin(path, size, w);
        case Control(FileEnd(expected)) => out := ReceiveFileEnd(expected, w);
        case Control(Delete(paths)) => out := ReceiveDelete(paths, w);
        case Control(Done(_, _, _, skipped)) =>
          summary := summary.(skipped := skipped);
          out := [Done(summary.filesSent, summary.bytes, summary.deleted, summary.skipped)];
          Leave(Finished, w);
        case Control(Abort(reason)) => Halt(Refused(PeerAbort(reason)), w);
        case Control(_) =>
          Halt(Refused(Unexpected("frame")), w);
          out := [Abort("unexpected frame")];
      }
    }
  }
}
