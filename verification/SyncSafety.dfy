/** What a folder-sync receiver guarantees whatever the peer sends and whatever the file system refuses. */
module SyncSafety {
  import Bytes
  import opened FrameProtocol
  import opened RelPaths
  import opened SyncReceivers
  import opened TransferEngine
  import opened Wrappers

  /** A frame (or the end of the connection) and the file system's behaviour while it is handled. */
  datatype Input = Input(i: Incoming, w: Weather)

  ghost function After(h: Hash, json: Json, opts: Options, fs: Files, inputs: seq<Input>): Receiver {
    if inputs == [] then Fresh(opts, fs)
    else
      var n := |inputs| - 1;
      Handled(h, json, After(h, json, opts, fs, inputs[..n]), inputs[n].i, inputs[n].w).r
  }

  /** The open part file holds exactly the bytes that were hashed, unless it was removed. */
  predicate Consistent(r: Receiver) {
    && r.engine.allowDelete == r.opts.replaceDelete
    && (r.current.Some? ==>
          var part := PartOf(r.current.value.rel);
          Accepted(r.current.value.rel) && (part in r.fs ==> r.fs[part] == r.current.value.data))
  }

  /** Nothing but part files differs. */
  ghost predicate SameReal(a: Files, b: Files) {
    forall p: string :: !IsPart(p) ==> (p in a <==> p in b) && (p in a && p in b ==> a[p] == b[p])
  }

  lemma HaltKeeps(r: Receiver, error: SyncError, w: Weather)
    requires Consistent(r)
    ensures Halting(r, error, w)
  {
    hide Accepted;
  }

  /** The options never change, and the hello is not awaited again. */
  predicate Onwards(r: Receiver, t: Receiver) {
    t.opts == r.opts && (r.phase.Running? ==> !t.phase.AwaitHello?)
  }

  lemma LeavingKeeps(r: Receiver, phase: Phase, w: Weather)
    requires Consistent(r)
    ensures Consistent(Left(r, phase, w)) && SameReal(r.fs, Left(r, phase, w).fs)
  {
  }

  /** A hello either starts the run or halts it, with all, some or none of the part files gone. */
  lemma HelloCases(h: Hash, r: Receiver, protoVersion: nat, mode: TransferMode, folder: Option<string>, w: Weather)
    returns (fs: Files, error: SyncError)
    ensures var e := OnHello(h, r, protoVersion, mode, folder, w);
            || (fs in [r.fs, r.fs - EarlyParts(r.fs, w), Real(r.fs)] && e.r == Halted(r.(fs := fs), error, w))
            || (fs == Real(r.fs) && e.r == Started(h, r))
  {
    hide Listing, Accepted, Split, PartStuck, EarlyParts, Real, Halted;
    fs := r.fs;
    assert r.(fs := fs) == r;
    var hello := CheckHello(protoVersion, mode, Sync);
    if hello.Err? {
      error := Refused(hello.error);
    } else if folder.None? {
      error := Refused(MissingFolder);
    } else if !(Accepted(folder.value) && Split(folder.value) == [folder.value]) {
      error := Refused(UnsafePath(folder.value, "folder"));
    } else if w.rootBlocked {
      error := Local("root is not a directory");
    } else if w.createFails {
      error := Local("cannot create the sync folder");
    } else if PartStuck(r.fs, w.stuck) {
      fs, error := r.fs - EarlyParts(r.fs, w), Local("cannot discard a part file");
    } else {
      fs, error := Real(r.fs), Local("cannot read the destination");
    }
  }

  lemma PartsAside(r: Receiver, w: Weather)
    ensures SameReal(r.fs, r.fs - EarlyParts(r.fs, w)) && SameReal(r.fs, Real(r.fs))
  {
    hide IsPart;
  }

  lemma HelloKeeps(h: Hash, r: Receiver, protoVersion: nat, mode: TransferMode, folder: Option<string>, w: Weather)
    requires Consistent(r) && r.current.None?
    ensures var e := OnHello(h, r, protoVersion, mode, folder, w);
            Consistent(e.r) && SameReal(r.fs, e.r.fs) && e.r.opts == r.opts && e.r.current.None?
  {
    var fs, error := HelloCases(h, r, protoVersion, mode, folder, w);
    PartsAside(r, w);
    hide OnHello, EarlyParts, Real, IsPart, Halted, Listing;
    HaltKeeps(r.(fs := fs), error, w);
  }

  ghost predicate Halting(r: Receiver, error: SyncError, w: Weather) {
    var t := Halted(r, error, w);
    Consistent(t) && SameReal(r.fs, t.fs) && t.opts == r.opts && t.phase.Broken? && t.current.None?
  }

  lemma ManifestKeeps(r: Receiver, files: seq<FileEntry>, more: bool, w: Weather)
    requires Consistent(r)
    ensures var e := OnManifestFrame(r, files, more, w);
            Consistent(e.r) && Onwards(r, e.r) && SameReal(r.fs, e.r.fs)
  {
    hide SafeCount, PathsOf, Accepted, IsPart;
  }

  lemma BeginKeeps(r: Receiver, path: string, size: nat, w: Weather)
    requires Consistent(r)
    ensures var e := OnFileBegin(r, path, size, w);
            Consistent(e.r) && Onwards(r, e.r) && SameReal(r.fs, e.r.fs)
  {
    hide PathFault, IsPart;
  }

  lemma ChunkKeeps(r: Receiver, data: seq<Bytes.Byte>, w: Weather)
    requires Consistent(r)
    ensures var e := OnChunk(r, data, w);
            Consistent(e.r) && Onwards(r, e.r) && SameReal(r.fs, e.r.fs)
  {
    hide Accepted, IsPart;
  }

  /** What a peer sent for a file it began: the bytes since then. */
  datatype Sent = Sent(path: string, data: seq<Bytes.Byte>)

  /** The file the receiver has open, with what it received for it. */
  function OpenFile(r: Receiver): Option<Sent> {
    if r.current.None? then None else Some(Sent(r.current.value.rel, r.current.value.data))
  }

  /** How one input changes what the peer's latest begun file consists of. */
  function Begun(file: Option<Sent>, i: Incoming): Option<Sent> {
    match i
    case Got(Control(FileBegin(path, _, _))) => Some(Sent(path, []))
    case Got(Chunk(data)) => if file.None? then None else Some(file.value.(data := file.value.data + data))
    case _ => file
  }

  /** The peer's latest begun file and the chunks since. */
  function LatestFile(inputs: seq<Input>): Option<Sent> {
    if inputs == [] then None else Begun(LatestFile(inputs[..|inputs| - 1]), inputs[|inputs| - 1].i)
  }

  /** Committing writes at most the begun path, and only the bytes received for it, if they have the announced hash. */
  lemma EndCommits(h: Hash, r: Receiver, hash: string, w: Weather, p: string)
    requires Consistent(r) && !IsPart(p)
    ensures var e := OnFileEnd(h, r, hash, w);
            && Consistent(e.r) && Onwards(r, e.r)
            && (p in r.fs ==> p in e.r.fs)
            && (p in e.r.fs ==>
                  || (p in r.fs && r.fs[p] == e.r.fs[p])
                  || (h(e.r.fs[p]) == hash && Accepted(p) && OpenFile(r) == Some(Sent(p, e.r.fs[p]))))
  {
    hide Accepted, IsPart;
  }

  /** Deleting removes at most the listed paths, when this side asked for it and all of them are safe. */
  lemma DeleteRemoves(r: Receiver, paths: seq<string>, w: Weather, p: string)
    requires Consistent(r) && !IsPart(p)
    ensures var e := OnDelete(r, paths, w);
            && Consistent(e.r) && Onwards(r, e.r)
            && (p in e.r.fs ==> p in r.fs && r.fs[p] == e.r.fs[p])
            && (p in r.fs && p !in e.r.fs ==> p in paths && r.opts.replaceDelete && AllAccepted(paths))
  {
    PrunesIff(r.engine, paths);
    hide Decide, Accepted, IsPart;
  }

  predicate EndsWith(i: Incoming, hash: string) {
    i.Got? && i.frame.Control? && i.frame.c.FileEnd? && i.frame.c.hash == hash
  }

  predicate Deletes(i: Incoming, p: string) {
    i.Got? && i.frame.Control? && i.frame.c.Delete? && p in i.frame.c.paths && AllAccepted(i.frame.c.paths)
  }

  /** One step, seen from one real path. */
  predicate Touches(h: Hash, r: Receiver, after: Files, i: Incoming, p: string) {
    && (p in after ==>
          || (p in r.fs && r.fs[p] == after[p])
          || (EndsWith(i, h(after[p])) && Accepted(p) && OpenFile(r) == Some(Sent(p, after[p]))))
    && (p in r.fs && p !in after ==> r.opts.replaceDelete && Deletes(i, p))
  }

  /** No part file is open before the run starts. */
  predicate Ready(r: Receiver) {
    r.phase.AwaitHello? ==> r.current.None?
  }

  lemma RunningTouches(h: Hash, r: Receiver, frame: Frame, w: Weather, p: string)
    requires Consistent(r) && r.phase.Running? && !IsPart(p)
    ensures var t := OnRunning(h, r, frame, w).r;
            && Consistent(t) && !t.phase.AwaitHello? && t.opts == r.opts
            && Touches(h, r, t.fs, Got(frame), p)
  {
    match frame {
      case Chunk(data) =>
        ChunkKeeps(r, data, w);
      case Control(Manifest(files, more)) =>
        ManifestKeeps(r, files, more, w);
      case Control(FileBegin(path, size, _)) =>
        BeginKeeps(r, path, size, w);
      case Control(FileEnd(hash)) =>
        EndCommits(h, r, hash, w, p);
        hide OnFileEnd;
      case Control(Delete(paths)) =>
        DeleteRemoves(r, paths, w, p);
        hide OnDelete;
      case Control(Done(_, _, _, skipped)) =>
        LeavingKeeps(r.(summary := r.summary.(skipped := skipped)), Finished, w);
      case Control(Abort(reason)) =>
        HaltKeeps(r, Refused(PeerAbort(reason)), w);
      case Control(_) =>
        HaltKeeps(r, Refused(Unexpected("frame")), w);
    }
  }

  lemma StepTouches(h: Hash, r: Receiver, i: Incoming, w: Weather, p: string)
    requires Consistent(r) && Ready(r) && !IsPart(p)
    ensures var t := Step(h, r, i, w).r;
            && Consistent(t) && Ready(t) && t.opts == r.opts
            && Touches(h, r, t.fs, i, p)
  {
    if r.phase.Running? && i.Got? {
      RunningTouches(h, r, i.frame, w, p);
      hide OnRunning, Consistent, Touches;
    } else {
      WaitingTouches(h, r, i, w, p);
    }
  }

  /** The same with answers that may fail to go out. */
  lemma HandlingTouches(h: Hash, json: Json, r: Receiver, i: Incoming, w: Weather, p: string)
    requires Consistent(r) && Ready(r) && !IsPart(p)
    ensures var t := Handled(h, json, r, i, w).r;
            && Consistent(t) && Ready(t) && t.opts == r.opts
            && Touches(h, r, t.fs, i, p)
  {
    var e := Step(h, r, i, w);
    StepTouches(h, r, i, w, p);
    var n := SendableCount(json, Controls(e.out));
    hide Step, SendableCount, Encodable, EndsWith, Deletes, Accepted, IsPart;
    if n < |e.out| && !e.r.phase.Broken? {
      HaltKeeps(e.r, Refused(EncodeError(json, Control(e.out[n]))), w);
    }
  }

  lemma WaitingTouches(h: Hash, r: Receiver, i: Incoming, w: Weather, p: string)
    requires Consistent(r) && Ready(r) && !IsPart(p) && !(r.phase.Running? && i.Got?)
    ensures var t := Step(h, r, i, w).r;
            && Consistent(t) && Ready(t) && t.opts == r.opts
            && Touches(h, r, t.fs, i, p)
  {
    hide OnRunning, OnHello, EndsWith, Deletes, Consistent, IsPart, Left;
    if r.phase.AwaitHello? && i.Got? && i.frame.Control? && i.frame.c.Hello? {
      HelloKeeps(h, r, i.frame.c.protoVersion, i.frame.c.mode, i.frame.c.folder, w);
    } else if r.phase.AwaitHello? && i.Got? && i.frame.Control? && i.frame.c.Abort? {
      HaltKeeps(r, Refused(PeerAbort(i.frame.c.reason)), w);
    } else if r.phase.AwaitHello? && i.Got? {
      HaltKeeps(r, Refused(Unexpected("frame")), w);
    } else {
      HaltKeeps(r, ConnectionLost, w);
    }
  }

  // ---- the open file is the peer's latest ---------------------------------------------------------------------------

  /** If a file is open after the step, it is what the peer's messages make of the one open before. */
  predicate Tracks(r: Receiver, t: Receiver, i: Incoming) {
    OpenFile(t).Some? ==> OpenFile(t) == Begun(OpenFile(r), i)
  }

  lemma RunningTracks(h: Hash, r: Receiver, frame: Frame, w: Weather)
    ensures Tracks(r, OnRunning(h, r, frame, w).r, Got(frame))
  {
    hide PathFault, PrunedFiles, Removed, AfterManifest, SafeCount, Decide, AckFrames, IsPart, PartOf;
  }

  lemma HelloOpensNothing(h: Hash, r: Receiver, protoVersion: nat, mode: TransferMode, folder: Option<string>,
                          w: Weather)
    ensures var t := OnHello(h, r, protoVersion, mode, folder, w).r; t.current.Some? ==> t.current == r.current
  {
    hide Listing, Accepted, Split, PartStuck, EarlyParts, Real, Removed;
  }

  /** A receiver that is done has no file open. */
  predicate Closed(r: Receiver) {
    r.phase.Finished? || r.phase.Broken? ==> r.current.None?
  }

  lemma StepTracks(h: Hash, r: Receiver, i: Incoming, w: Weather)
    requires Ready(r) && Closed(r)
    ensures Tracks(r, Step(h, r, i, w).r, i)
  {
    hide OnRunning, OnHello, Removed;
    if r.phase.Running? && i.Got? {
      RunningTracks(h, r, i.frame, w);
    } else if r.phase.AwaitHello? && i.Got? && i.frame.Control? && i.frame.c.Hello? {
      HelloOpensNothing(h, r, i.frame.c.protoVersion, i.frame.c.mode, i.frame.c.folder, w);
    }
  }

  /** The same with answers that may fail to go out. */
  lemma HandlingTracks(h: Hash, json: Json, r: Receiver, i: Incoming, w: Weather)
    requires Ready(r) && Closed(r)
    ensures Tracks(r, Handled(h, json, r, i, w).r, i) && Closed(Handled(h, json, r, i, w).r)
  {
    StepTracks(h, r, i, w);
    StepCloses(h, r, i, w);
    hide Step, SendableCount, Encodable, Removed;
  }

  lemma StepCloses(h: Hash, r: Receiver, i: Incoming, w: Weather)
    requires Ready(r) && Closed(r)
    ensures Closed(Step(h, r, i, w).r)
  {
    hide OnRunning, OnHello, Removed;
    if r.phase.Running? && i.Got? {
      RunningCloses(h, r, i.frame, w);
    } else if r.phase.AwaitHello? && i.Got? && i.frame.Control? && i.frame.c.Hello? {
      HelloOpensNothing(h, r, i.frame.c.protoVersion, i.frame.c.mode, i.frame.c.folder, w);
    }
  }

  lemma RunningCloses(h: Hash, r: Receiver, frame: Frame, w: Weather)
    requires r.phase.Running?
    ensures Closed(OnRunning(h, r, frame, w).r)
  {
    hide PathFault, PrunedFiles, Removed, AfterManifest, SafeCount, Decide, AckFrames, IsPart, PartOf;
  }

  lemma {:induction false} OpenIsLatest(h: Hash, json: Json, opts: Options, fs: Files, inputs: seq<Input>)
    ensures var t := After(h, json, opts, fs, inputs);
            Ready(t) && Closed(t) && (OpenFile(t).Some? ==> OpenFile(t) == LatestFile(inputs))
  {
    if inputs == [] {
    } else {
      var n := |inputs| - 1;
      var r := After(h, json, opts, fs, inputs[..n]);
      OpenIsLatest(h, json, opts, fs, inputs[..n]);
      HandlingTracks(h, json, r, inputs[n].i, inputs[n].w);
      HandlingIsReady(h, json, r, inputs[n].i, inputs[n].w);
      hide Handled, Ready, Closed;
    }
  }

  lemma HandlingIsReady(h: Hash, json: Json, r: Receiver, i: Incoming, w: Weather)
    requires Ready(r)
    ensures Ready(Handled(h, json, r, i, w).r)
  {
    hide SendableCount, Encodable, Removed, OnRunning, OnHello;
    if r.phase.Running? && i.Got? {
      RunningStaysReady(h, r, i.frame, w);
    } else if r.phase.AwaitHello? && i.Got? && i.frame.Control? && i.frame.c.Hello? {
      HelloOpensNothing(h, r, i.frame.c.protoVersion, i.frame.c.mode, i.frame.c.folder, w);
    }
  }

  lemma RunningStaysReady(h: Hash, r: Receiver, frame: Frame, w: Weather)
    requires r.phase.Running?
    ensures !OnRunning(h, r, frame, w).r.phase.AwaitHello?
  {
    hide PathFault, PrunedFiles, Removed, AfterManifest, SafeCount, Decide, AckFrames, IsPart, PartOf;
  }

  /** The commit of these bytes at this path: a `FileEnd` of their hash, and the bytes are those of the chunks since the
      last `FileBegin` before it, which names the path. */
  predicate CommittedAt(h: Hash, inputs: seq<Input>, k: nat, p: string, bytes: seq<Bytes.Byte>) {
    k < |inputs| && EndsWith(inputs[k].i, h(bytes)) && LatestFile(inputs[..k]) == Some(Sent(p, bytes))
  }

  lemma CommittedOfPrefix(h: Hash, inputs: seq<Input>, n: nat, k: nat, p: string, bytes: seq<Bytes.Byte>)
    requires n <= |inputs| && CommittedAt(h, inputs[..n], k, p, bytes)
    ensures CommittedAt(h, inputs, k, p, bytes)
  {
    assert inputs[..n][..k] == inputs[..k];
    hide LatestFile, EndsWith;
  }

  /** Atomic commit, at every step of every run, whatever the peer sends and whatever fails, answers included: each real
      path holds its prior bytes, or exactly the chunks the peer sent between a `FileBegin` of that path and a `FileEnd`
      of their hash; and a prior file is gone only if deletion was requested on this side and a received delete list of
      safe paths names it. */
  lemma {:induction false} AtomicCommit(h: Hash, json: Json, opts: Options, fs: Files, inputs: seq<Input>, p: string)
    requires !IsPart(p)
    ensures var t := After(h, json, opts, fs, inputs);
            && Consistent(t) && Ready(t) && t.opts == opts
            && (p in t.fs ==>
                  || (p in fs && fs[p] == t.fs[p])
                  || (Accepted(p) && exists k :: CommittedAt(h, inputs, k, p, t.fs[p])))
            && (p in fs && p !in t.fs ==>
                  opts.replaceDelete && exists k :: 0 <= k < |inputs| && Deletes(inputs[k].i, p))
  {
    if inputs == [] {
    } else {
      var n := |inputs| - 1;
      var r := After(h, json, opts, fs, inputs[..n]);
      AtomicCommit(h, json, opts, fs, inputs[..n], p);
      HandlingTouches(h, json, r, inputs[n].i, inputs[n].w, p);
      OpenIsLatest(h, json, opts, fs, inputs[..n]);
      assert forall k :: 0 <= k < n ==> inputs[..n][k] == inputs[k];
      hide Handled, Consistent, Ready, Closed, Accepted, EndsWith, Deletes, LatestFile, OpenFile;
      var t := After(h, json, opts, fs, inputs);
      if p in t.fs && !(p in fs && fs[p] == t.fs[p]) {
        if p in r.fs && t.fs[p] == r.fs[p] {
          var k :| CommittedAt(h, inputs[..n], k, p, t.fs[p]);
          CommittedOfPrefix(h, inputs, n, k, p, t.fs[p]);
        } else {
          assert CommittedAt(h, inputs, n, p, t.fs[p]);
        }
      }
      if p in fs && p !in t.fs && p !in r.fs {
        var k :| 0 <= k < n && Deletes(inputs[..n][k].i, p);
        assert Deletes(inputs[k].i, p);
      }
    }
  }
}
