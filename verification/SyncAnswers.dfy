/** What either side of a folder sync answers, against any peer: which frames end a run, with which error and with or
    without an abort, what an answer promises, and what the summary counts. */
module SyncAnswers {
  import opened Bytes
  import opened FrameProtocol
  import opened RelPaths
  import opened SyncHellos
  import opened SyncReceivers
  import opened SyncSafety
  import opened TransferEngine
  import opened Wrappers

  // ---- how a frame is answered --------------------------------------------------------------------------------------

  /** The receiver goes on and says nothing. */
  predicate Silent(e: Effect) {
    e.r.phase.Running? && e.out == []
  }

  /** The receiver ends because this frame was out of turn, and one abort. */
  predicate RefusesOutOfTurn(e: Effect) {
    && e.r.phase.Broken? && e.r.phase.error.Refused? && e.r.phase.error.error.Unexpected?
    && OneAbort(e.out)
  }

  /** It ends because of this path, which is not accepted, and one abort. */
  predicate RefusesPath(e: Effect, path: string) {
    && e.r.phase.Broken? && e.r.phase.error.Refused? && e.r.phase.error.error.UnsafePath?
    && e.r.phase.error.error.path == path && !Accepted(path) && OneAbort(e.out)
  }

  /** It ends because of its own file system, without a word. */
  predicate GivesUp(e: Effect) {
    e.r.phase.Broken? && e.r.phase.error.Local? && e.out == []
  }

  predicate AllFilesAccepted(files: seq<FileEntry>) {
    forall k :: 0 <= k < |files| ==> Accepted(files[k].path)
  }

  /** The file system lets the open file be flushed and moved into place. */
  predicate Moves(r: Receiver, w: Weather) {
    r.current.Some? && !w.flushFails && !w.renameFails && PartOf(r.current.value.rel) in r.fs
  }

  /** The answer the protocol asks of a running receiver. */
  ghost predicate Answered(h: Hash, r: Receiver, frame: Frame, w: Weather, e: Effect) {
    match frame
    case Chunk(_) =>
      if r.current.None? then RefusesOutOfTurn(e) else if w.writeFails then GivesUp(e) else Silent(e)
    case Control(Manifest(files, more)) =>
      if !AllFilesAccepted(files) then exists k :: 0 <= k < |files| && RefusesPath(e, files[k].path)
      else if (!more || r.engine.complete) && !r.acked
      then e.r.phase.Running? && e.r.acked && e.out == AckFrames(r.engine.held)
      else Silent(e)
    case Control(FileBegin(path, _, _)) =>
      if !Accepted(path) then RefusesPath(e, path)
      else if w.createFails then GivesUp(e)
      else Silent(e) && OpenFile(e.r) == Some(Sent(path, []))
    case Control(FileEnd(hash)) =>
      if r.current.None? then RefusesOutOfTurn(e)
      else
        var file := r.current.value;
        && e.r.phase.Running? && e.r.current.None?
        && if hash == h(file.data) && Moves(r, w) then e.out == [FileOk(file.rel)]
           else |e.out| == 1 && e.out[0].FileFail? && e.out[0].path == file.rel
    case Control(Delete(paths)) =>
      if !AllAccepted(paths) then exists p :: p in paths && RefusesPath(e, p) else Silent(e)
    case Control(Done(_, _, _, skipped)) =>
      && e.r.phase.Finished?
      && e.out == [Done(r.summary.filesSent, r.summary.bytes, r.summary.deleted, skipped)]
    case Control(Abort(reason)) => e.r.phase == Broken(Refused(PeerAbort(reason))) && e.out == []
    case Control(_) => RefusesOutOfTurn(e)
  }

  lemma ManifestAnswered(r: Receiver, files: seq<FileEntry>, more: bool, w: Weather)
    requires r.phase.Running?
    ensures var e := OnManifestFrame(r, files, more, w);
            if !AllFilesAccepted(files) then exists k :: 0 <= k < |files| && RefusesPath(e, files[k].path)
            else if (!more || r.engine.complete) && !r.acked
            then e.r.phase.Running? && e.r.acked && e.out == AckFrames(r.engine.held)
            else Silent(e)
  {
    SafeCountIff(files);
    hide PathsOf, AckFrames, Removed;
    var n := SafeCount(files);
    if n < |files| {
      assert RefusesPath(OnManifestFrame(r, files, more, w), files[n].path);
    }
  }

  lemma DeleteAnswered(r: Receiver, paths: seq<string>, w: Weather)
    requires r.phase.Running?
    ensures var e := OnDelete(r, paths, w);
            if !AllAccepted(paths) then exists p :: p in paths && RefusesPath(e, p) else Silent(e)
  {
    PrunesIff(r.engine, paths);
    hide Decide, Accepted, Removed, PrunedFiles;
    var e := OnDelete(r, paths, w);
    if !AllAccepted(paths) {
      assert RefusesPath(e, Decide(r.engine, paths).error.path);
    }
  }

  /** Exact, for every peer, state and refusal of the file system: a running receiver answers as the protocol asks. */
  lemma RunningAnswers(h: Hash, r: Receiver, frame: Frame, w: Weather)
    requires r.phase.Running?
    ensures Answered(h, r, frame, w, Step(h, r, Got(frame), w))
  {
    hide Accepted, PathFault, IsPart, Removed;
    match frame {
      case Control(Manifest(files, more)) =>
        ManifestAnswered(r, files, more, w);
        hide OnManifestFrame;
      case Control(Delete(paths)) =>
        DeleteAnswered(r, paths, w);
        hide OnDelete;
      case Control(FileBegin(path, _, _)) =>
        VerdictIs(path);
        hide Verdict;
      case _ =>
    }
  }

  lemma VerdictIs(path: string)
    ensures Verdict(path).Ok? <==> Accepted(path)
    ensures Verdict(path).Err? ==> Verdict(path).error.UnsafePath? && Verdict(path).error.path == path
  {
  }

  /** What ends a run from outside, and what a receiver that does not run says: nothing after the end, nothing to a lost
      connection or an abort, and one abort to anything but a hello. */
  lemma OthersAnswered(h: Hash, r: Receiver, i: Incoming, w: Weather)
    ensures var e := Step(h, r, i, w);
            && (r.phase.Finished? || r.phase.Broken? ==> e == Effect(r, []))
            && ((r.phase.Running? || r.phase.AwaitHello?) && i.Lost? ==>
                  e.r.phase == Broken(ConnectionLost) && e.out == [])
            && (r.phase.AwaitHello? && i.Got? && !(i.frame.Control? && i.frame.c.Hello?) ==>
                  if i.frame.Control? && i.frame.c.Abort?
                  then e.r.phase == Broken(Refused(PeerAbort(i.frame.c.reason))) && e.out == []
                  else RefusesOutOfTurn(e))
  {
    hide OnHello, OnRunning, Removed;
  }

  /** An answer that does not encode ends the run, and is the only thing of its step that is not said. */
  lemma UnsayableEnds(h: Hash, json: Json, r: Receiver, i: Incoming, w: Weather)
    ensures var e, t := Step(h, r, i, w), Handled(h, json, r, i, w);
            && t.out <= e.out
            && (AllEncodable(json, Controls(e.out)) ==> t == e)
            && (!AllEncodable(json, Controls(e.out)) ==>
                  && t.r.phase.Broken? && |t.out| < |e.out|
                  && !Encodable(json, Control(e.out[|t.out|]))
                  && (!e.r.phase.Broken? ==>
                        t.r.phase == Broken(Refused(EncodeError(json, Control(e.out[|t.out|]))))))
  {
    AllSendableIff(json, Controls(Step(h, r, i, w).out));
    hide Step, Encodable, AllEncodable, EncodeError, Removed;
  }

  // ---- what the summary counts --------------------------------------------------------------------------------------

  /** A file that was moved into place. */
  datatype Landing = Landing(path: string, size: nat, replaced: bool)

  /** What lands at this step, if anything does. */
  ghost function LandsAt(h: Hash, r: Receiver, i: Incoming, w: Weather): Option<Landing> {
    if r.phase.Running? && r.current.Some? && EndsWith(i, h(r.current.value.data)) && Moves(r, w) then
      var file := r.current.value;
      Some(Landing(file.rel, |r.fs[PartOf(file.rel)]|, file.existed))
    else None
  }

  ghost function Landings(h: Hash, json: Json, opts: Options, fs: Files, inputs: seq<Input>): seq<Landing> {
    if inputs == [] then []
    else
      var n := |inputs| - 1;
      Landings(h, json, opts, fs, inputs[..n])
      + match LandsAt(h, After(h, json, opts, fs, inputs[..n]), inputs[n].i, inputs[n].w)
        case Some(l) => [l]
        case None => []
  }

  function Sizes(landings: seq<Landing>): nat {
    if landings == [] then 0 else Sizes(landings[..|landings| - 1]) + landings[|landings| - 1].size
  }

  function Replacements(landings: seq<Landing>): nat {
    if landings == [] then 0
    else Replacements(landings[..|landings| - 1]) + if landings[|landings| - 1].replaced then 1 else 0
  }

  /** The three numbers count these landings. */
  predicate Counts(s: Summary, landings: seq<Landing>) {
    s.filesSent == |landings| && s.bytes == Sizes(landings) && s.overwritten == Replacements(landings)
  }

  lemma OneMoreLands(s: Summary, t: Summary, landings: seq<Landing>, l: Landing)
    requires Counts(s, landings) && t.filesSent == s.filesSent + 1 && t.bytes == s.bytes + l.size
    requires t.overwritten == s.overwritten + if l.replaced then 1 else 0
    ensures Counts(t, landings + [l])
  {
    assert (landings + [l])[..|landings|] == landings;
  }

  predicate SameLandings(s: Summary, t: Summary) {
    s.filesSent == t.filesSent && s.bytes == t.bytes && s.overwritten == t.overwritten
  }

  lemma StepLands(h: Hash, r: Receiver, i: Incoming, w: Weather)
    requires Ready(r)
    ensures var s, t := r.summary, Step(h, r, i, w).r.summary;
            match LandsAt(h, r, i, w)
            case None => SameLandings(s, t)
            case Some(l) =>
              && t.filesSent == s.filesSent + 1 && t.bytes == s.bytes + l.size
              && t.overwritten == s.overwritten + if l.replaced then 1 else 0
  {
    hide Accepted, PathFault, IsPart, Removed, OnHello;
    if r.phase.AwaitHello? && i.Got? && i.frame.Control? && i.frame.c.Hello? {
      HelloCountsNothing(h, r, i.frame.c.protoVersion, i.frame.c.mode, i.frame.c.folder, w);
    } else if r.phase.Running? && i.Got? {
      FrameLands(h, r, i.frame, w);
      hide OnRunning;
    }
  }

  lemma EndLands(h: Hash, r: Receiver, hash: string, w: Weather)
    requires r.phase.Running?
    ensures var s, t := r.summary, OnFileEnd(h, r, hash, w).r.summary;
            match LandsAt(h, r, Got(Control(FileEnd(hash))), w)
            case None => SameLandings(s, t)
            case Some(l) =>
              && t.filesSent == s.filesSent + 1 && t.bytes == s.bytes + l.size
              && t.overwritten == s.overwritten + if l.replaced then 1 else 0
  {
    hide Accepted, IsPart, Removed;
  }

  lemma FrameLands(h: Hash, r: Receiver, frame: Frame, w: Weather)
    requires r.phase.Running?
    ensures var s, t := r.summary, OnRunning(h, r, frame, w).r.summary;
            match LandsAt(h, r, Got(frame), w)
            case None => SameLandings(s, t)
            case Some(l) =>
              && t.filesSent == s.filesSent + 1 && t.bytes == s.bytes + l.size
              && t.overwritten == s.overwritten + if l.replaced then 1 else 0
  {
    hide Accepted, PathFault, IsPart, Removed, PrunedFiles, Decide, AfterManifest, ManifestVerdict, AckFrames, Verdict;
    if frame.Control? && frame.c.FileEnd? {
      EndLands(h, r, frame.c.hash, w);
    }
    hide OnFileEnd;
  }

  lemma HelloCountsNothing(h: Hash, r: Receiver, protoVersion: nat, mode: TransferMode, folder: Option<string>,
      w: Weather)
    ensures OnHello(h, r, protoVersion, mode, folder, w).r.summary == r.summary
  {
    hide Listing, Accepted, Split, PartStuck, EarlyParts, Real, Removed;
  }

  lemma HandlingLands(h: Hash, json: Json, r: Receiver, i: Incoming, w: Weather)
    ensures Handled(h, json, r, i, w).r.summary == Step(h, r, i, w).r.summary
  {
    hide Step, SendableCount, Encodable, Removed;
  }

  /** Over every run against every peer the summary counts the files moved into place: how many, their bytes together,
      and how many of them replaced a file. */
  lemma {:induction false} SummaryCounts(h: Hash, json: Json, opts: Options, fs: Files, inputs: seq<Input>)
    ensures Counts(After(h, json, opts, fs, inputs).summary, Landings(h, json, opts, fs, inputs))
  {
    if inputs == [] {
    } else {
      var n := |inputs| - 1;
      var r := After(h, json, opts, fs, inputs[..n]);
      SummaryCounts(h, json, opts, fs, inputs[..n]);
      OpenIsLatest(h, json, opts, fs, inputs[..n]);
      StepLands(h, r, inputs[n].i, inputs[n].w);
      HandlingLands(h, json, r, inputs[n].i, inputs[n].w);
      hide Handled, Step, LandsAt, Ready, Closed, OpenFile, LatestFile;
      var before := Landings(h, json, opts, fs, inputs[..n]);
      match LandsAt(h, r, inputs[n].i, inputs[n].w) {
        case Some(l) =>
          OneMoreLands(r.summary, After(h, json, opts, fs, inputs).summary, before, l);
        case None =>
          assert before + [] == before;
      }
    }
  }

  /** What is counted is there: the landed path holds what its part file held, which was all that came for it. */
  lemma LandingIsThere(h: Hash, r: Receiver, i: Incoming, w: Weather)
    requires Consistent(r) && LandsAt(h, r, i, w).Some?
    ensures var l, t := LandsAt(h, r, i, w).value, Step(h, r, i, w);
            && l.path in t.r.fs && |t.r.fs[l.path]| == l.size && OpenFile(r) == Some(Sent(l.path, t.r.fs[l.path]))
            && PartOf(l.path) !in t.r.fs && t.out == [FileOk(l.path)]
  {
    hide Accepted, IsPart, Removed;
    var rel := r.current.value.rel;
    assert |PartOf(rel)| != |rel|;
  }

  predicate BeginsAt(inputs: seq<Input>, b: nat, path: string) {
    b < |inputs| && inputs[b].i.Got? && inputs[b].i.frame.Control? && inputs[b].i.frame.c.FileBegin?
    && inputs[b].i.frame.c.path == path
  }

  /** The open file was begun at `b`, and whether it replaces one was seen then. */
  ghost predicate BegunAt(h: Hash, json: Json, opts: Options, fs: Files, inputs: seq<Input>, b: nat, file: Part) {
    BeginsAt(inputs, b, file.rel) && (file.existed <==> file.rel in After(h, json, opts, fs, inputs[..b]).fs)
  }

  /** If a file is open after a step, it was open before or the step began it. */
  predicate Continues(r: Receiver, t: Receiver, i: Incoming) {
    t.current.Some? ==>
      || (r.current.Some? && t.current.value.rel == r.current.value.rel
          && t.current.value.existed == r.current.value.existed)
      || (i.Got? && i.frame.Control? && i.frame.c.FileBegin? && i.frame.c.path == t.current.value.rel
          && (t.current.value.existed <==> i.frame.c.path in r.fs))
  }

  lemma RunningContinues(h: Hash, r: Receiver, frame: Frame, w: Weather)
    ensures Continues(r, OnRunning(h, r, frame, w).r, Got(frame))
  {
    hide PathFault, PrunedFiles, Removed, AfterManifest, SafeCount, Decide, AckFrames, IsPart, PartOf;
  }

  lemma HandlingContinues(h: Hash, json: Json, r: Receiver, i: Incoming, w: Weather)
    ensures Continues(r, Handled(h, json, r, i, w).r, i)
  {
    hide SendableCount, Encodable, Removed, OnRunning, OnHello;
    if r.phase.Running? && i.Got? {
      RunningContinues(h, r, i.frame, w);
    } else if r.phase.AwaitHello? && i.Got? && i.frame.Control? && i.frame.c.Hello? {
      HelloOpensNothing(h, r, i.frame.c.protoVersion, i.frame.c.mode, i.frame.c.folder, w);
    }
  }

  /** Over every run: the open file was begun by a frame that names it, and counts as a replacement exactly if its path
      held something then. */
  lemma {:induction false} ReplacesMeans(h: Hash, json: Json, opts: Options, fs: Files, inputs: seq<Input>)
    ensures var t := After(h, json, opts, fs, inputs);
            t.current.Some? ==> exists b :: BegunAt(h, json, opts, fs, inputs, b, t.current.value)
  {
    if inputs == [] {
    } else {
      var n := |inputs| - 1;
      var r, t := After(h, json, opts, fs, inputs[..n]), After(h, json, opts, fs, inputs);
      ReplacesMeans(h, json, opts, fs, inputs[..n]);
      HandlingContinues(h, json, r, inputs[n].i, inputs[n].w);
      hide Handled;
      if t.current.Some? {
        var file := t.current.value;
        if BegunAt(h, json, opts, fs, inputs, n, file) {
        } else {
          var b: nat :| BegunAt(h, json, opts, fs, inputs[..n], b, r.current.value);
          assert inputs[..n][..b] == inputs[..b];
          assert BegunAt(h, json, opts, fs, inputs, b, file);
        }
      }
    }
  }

  /** What a delete list of accepted paths does: acted on, the ones that can be removed go, and those that were there
      are counted as deleted; otherwise all are counted as kept and nothing goes. */
  lemma DeletesAreCounted(h: Hash, r: Receiver, paths: seq<string>, w: Weather)
    requires r.phase.Running? && AllAccepted(paths)
    ensures var t := Step(h, r, Got(Control(Delete(paths))), w).r;
            if r.engine.allowDelete && (r.engine.source != {} || r.engine.held == [] || r.engine.confirmDeleteAll)
            then && t.summary == r.summary.(deleted := |r.fs| - |t.fs|)
                 && t.fs == r.fs - (set p | p in paths && p !in w.stuck)
            else t.summary == r.summary.(kept := |paths|) && t.fs == r.fs
  {
    PrunesIff(r.engine, paths);
    hide Decide, Accepted, Removed, IsPart, OnManifestFrame, OnFileBegin, OnChunk, OnFileEnd;
  }

  lemma EndDeletesNothing(h: Hash, r: Receiver, hash: string, w: Weather)
    ensures var s, t := r.summary, OnFileEnd(h, r, hash, w).r.summary; t.deleted == s.deleted && t.kept == s.kept
  {
    hide Accepted, IsPart, Removed, PartOf;
  }

  /** Nothing else touches either number. */
  lemma OthersDeleteNothing(h: Hash, r: Receiver, frame: Frame, w: Weather)
    requires r.phase.Running?
    requires frame.Control? && frame.c.Delete? ==> !AllAccepted(frame.c.paths)
    ensures var s, t := r.summary, Step(h, r, Got(frame), w).r.summary; t.deleted == s.deleted && t.kept == s.kept
  {
    if frame.Control? && frame.c.Delete? {
      PrunesIff(r.engine, frame.c.paths);
    } else if frame.Control? && frame.c.FileEnd? {
      EndDeletesNothing(h, r, frame.c.hash, w);
    }
    hide Decide, Accepted, PathFault, IsPart, Removed, AfterManifest, ManifestVerdict, AckFrames, Verdict, PrunedFiles,
         OnFileEnd;
  }

  // ---- part files ---------------------------------------------------------------------------------------------------

  lemma PartStepCleared(h: Hash, r: Receiver, i: Incoming, w: Weather)
    requires r.phase.Running? && r.current.Some?
    ensures var t, part := Step(h, r, i, w).r, PartOf(r.current.value.rel);
            t.current.None? ==> part !in t.fs || part in w.stuck
  {
    hide Accepted, PathFault, IsPart, AfterManifest, ManifestVerdict, AckFrames, Verdict, Decide, PrunedFiles;
    assert |PartOf(r.current.value.rel)| != |r.current.value.rel|;
  }

  lemma LeavingClears(r: Receiver, phase: Phase, w: Weather)
    ensures var t := Left(r, phase, w);
            && t.current.None? && (r.current.None? ==> t.fs == r.fs)
            && (forall p :: p in t.fs ==> p in r.fs)
            && (r.current.Some? ==> var part := PartOf(r.current.value.rel); part !in t.fs || part in w.stuck)
  {
    hide IsPart, PartOf;
  }

  /** A step that leaves another file open has nothing to say. */
  lemma AnotherIsSilent(h: Hash, r: Receiver, i: Incoming, w: Weather)
    requires r.phase.Running? && r.current.Some?
    ensures var e := Step(h, r, i, w);
            e.r.current.Some? ==> e.r.current.value.rel == r.current.value.rel || e.out == []
  {
    hide Accepted, PathFault, IsPart, PartOf, AfterManifest, ManifestVerdict, AckFrames, Verdict, Decide, PrunedFiles;
  }

  /** A file that stops being open leaves no part file, unless it cannot be removed. */
  lemma PartIsCleared(h: Hash, json: Json, r: Receiver, i: Incoming, w: Weather)
    requires r.phase.Running? && r.current.Some?
    ensures var t, part := Handled(h, json, r, i, w).r, PartOf(r.current.value.rel);
            t.current.None? ==> part !in t.fs || part in w.stuck
  {
    PartStepCleared(h, r, i, w);
    AnotherIsSilent(h, r, i, w);
    var e := Step(h, r, i, w);
    hide Step, SendableCount, Encodable, Left, PartOf, IsPart;
    var n := SendableCount(json, Controls(e.out));
    if n < |e.out| {
      LeavingClears(e.r, Broken(Refused(EncodeError(json, Control(e.out[n])))), w);
    }
  }

  /** Nothing goes that the file system would not let go, unless it is a part file that is moved into place. */
  lemma StuckStays(h: Hash, json: Json, r: Receiver, i: Incoming, w: Weather, p: string)
    requires p in r.fs && p in w.stuck && Ready(r)
    requires LandsAt(h, r, i, w).Some? ==> p != PartOf(LandsAt(h, r, i, w).value.path)
    ensures p in Handled(h, json, r, i, w).r.fs
  {
    StuckStaysInStep(h, r, i, w, p);
    hide Step, SendableCount, Encodable, LandsAt;
  }

  lemma StuckStaysInStep(h: Hash, r: Receiver, i: Incoming, w: Weather, p: string)
    requires p in r.fs && p in w.stuck && Ready(r)
    requires LandsAt(h, r, i, w).Some? ==> p != PartOf(LandsAt(h, r, i, w).value.path)
    ensures p in Step(h, r, i, w).r.fs
  {
    hide OnHello, OnRunning, IsPart, Accepted;
    if r.phase.AwaitHello? && i.Got? && i.frame.Control? && i.frame.c.Hello? {
      StuckStaysAtHello(h, r, i.frame.c.protoVersion, i.frame.c.mode, i.frame.c.folder, w, p);
    } else if r.phase.Running? && i.Got? {
      StuckStaysRunning(h, r, i.frame, w, p);
    }
  }

  lemma StuckStaysAtHello(h: Hash, r: Receiver, protoVersion: nat, mode: TransferMode, folder: Option<string>,
      w: Weather,
                          p: string)
    requires p in r.fs && p in w.stuck && r.current.None?
    ensures p in OnHello(h, r, protoVersion, mode, folder, w).r.fs
  {
    hide Listing, Accepted, Split, Removed;
  }

  lemma StuckStaysOnLeaving(r: Receiver, phase: Phase, w: Weather, p: string)
    requires p in r.fs && p in w.stuck
    ensures p in Left(r, phase, w).fs
  {
    hide IsPart;
  }

  lemma StuckStaysAtEnd(h: Hash, r: Receiver, hash: string, w: Weather, p: string)
    requires p in r.fs && p in w.stuck && r.phase.Running?
    requires var l := LandsAt(h, r, Got(Control(FileEnd(hash))), w); l.Some? ==> p != PartOf(l.value.path)
    ensures p in OnFileEnd(h, r, hash, w).r.fs
  {
    hide Accepted, IsPart, PartOf, Left;
    if r.current.None? {
      StuckStaysOnLeaving(r, Broken(Refused(Unexpected("FileEnd before FileBegin"))), w, p);
    }
  }

  lemma StuckStaysOnDelete(r: Receiver, paths: seq<string>, w: Weather, p: string)
    requires p in r.fs && p in w.stuck && r.phase.Running?
    ensures p in OnDelete(r, paths, w).r.fs
  {
    PrunesIff(r.engine, paths);
    hide Accepted, IsPart, PartOf, Decide, Removed;
    if Decide(r.engine, paths).Err? {
      StuckStaysOnLeaving(r, Broken(Refused(Decide(r.engine, paths).error)), w, p);
    }
    hide Left;
  }

  lemma StuckStaysOnManifest(r: Receiver, files: seq<FileEntry>, more: bool, w: Weather, p: string)
    requires p in r.fs && p in w.stuck && r.phase.Running?
    ensures p in OnManifestFrame(r, files, more, w).r.fs
  {
    hide Accepted, IsPart, PartOf, AfterManifest, ManifestVerdict, AckFrames;
    if ManifestVerdict(files).Err? {
      StuckStaysOnLeaving(r.(engine := AfterManifest(r.engine, files, more)),
                          Broken(Refused(ManifestVerdict(files).error)), w, p);
    }
    hide Left;
  }

  lemma StuckStaysOnBegin(r: Receiver, path: string, size: nat, w: Weather, p: string)
    requires p in r.fs && p in w.stuck && r.phase.Running?
    ensures p in OnFileBegin(r, path, size, w).r.fs
  {
    hide Accepted, PathFault, IsPart, PartOf, Verdict;
    if Verdict(path).Err? {
      StuckStaysOnLeaving(r, Broken(Refused(Verdict(path).error)), w, p);
    } else if w.createFails {
      StuckStaysOnLeaving(r, Broken(Local("cannot create the part file")), w, p);
    }
    hide Left;
  }

  lemma StuckStaysOnChunk(r: Receiver, data: seq<Byte>, w: Weather, p: string)
    requires p in r.fs && p in w.stuck && r.phase.Running?
    ensures p in OnChunk(r, data, w).r.fs
  {
    hide Accepted, IsPart, PartOf;
    if r.current.None? {
      StuckStaysOnLeaving(r, Broken(Refused(Unexpected("file chunk before FileBegin"))), w, p);
    } else if w.writeFails {
      StuckStaysOnLeaving(r, Broken(Local("cannot write the part file")), w, p);
    }
    hide Left;
  }

  lemma StuckStaysRunning(h: Hash, r: Receiver, frame: Frame, w: Weather, p: string)
    requires p in r.fs && p in w.stuck && r.phase.Running?
    requires LandsAt(h, r, Got(frame), w).Some? ==> p != PartOf(LandsAt(h, r, Got(frame), w).value.path)
    ensures p in OnRunning(h, r, frame, w).r.fs
  {
    match frame {
      case Control(FileEnd(hash)) => StuckStaysAtEnd(h, r, hash, w, p);
      case Control(Delete(paths)) => StuckStaysOnDelete(r, paths, w, p);
      case Control(Manifest(files, more)) => StuckStaysOnManifest(r, files, more, w, p);
      case Control(FileBegin(path, size, _)) => StuckStaysOnBegin(r, path, size, w, p);
      case Chunk(data) => StuckStaysOnChunk(r, data, w, p);
      case Control(Done(_, _, _, skipped)) =>
        StuckStaysOnLeaving(r.(summary := r.summary.(skipped := skipped)), Finished, w, p);
      case Control(Abort(reason)) => StuckStaysOnLeaving(r, Broken(Refused(PeerAbort(reason))), w, p);
      case _ => StuckStaysOnLeaving(r, Broken(Refused(Unexpected("frame"))), w, p);
    }
    hide IsPart, PartOf, OnManifestFrame, OnFileBegin, OnFileEnd, OnDelete, OnChunk, Left, Removed, LandsAt;
  }
}
