/** The sending side of a folder sync. The source is fixed for a run: for each path, the pieces in which its
    bytes are read. */
module SyncSenders {
  import opened Bytes
  import opened FrameProtocol
  import opened SyncReceivers
  import opened TransferEngine
  import opened Wrappers

  type Source = map<string, seq<seq<Byte>>>

  datatype SPhase =
    | AwaitAck(gotHello: bool, gotAck: bool, acks: seq<PathHash>)
    | AwaitFile(n: nat)
    | AwaitDone
    | SentAll
    | SBroken(error: SyncError)

  datatype Sender = Sender(
    phase: SPhase, manifest: seq<FileEntry>, plan: seq<FileEntry>, deletes: seq<string>, retried: set<string>,
    summary: Summary)

  datatype SEffect = SEffect(s: Sender, out: seq<Frame>)

  /** The bytes read in these pieces. */
  function Content(pieces: seq<seq<Byte>>): seq<Byte> {
    if pieces == [] then [] else Content(pieces[..|pieces| - 1]) + pieces[|pieces| - 1]
  }

  function ChunkFrames(pieces: seq<seq<Byte>>): (r: seq<Frame>)
    ensures |r| == |pieces| && forall k :: 0 <= k < |r| ==> r[k] == Chunk(pieces[k])
  {
    seq(|pieces|, k requires 0 <= k < |pieces| => Chunk(pieces[k]))
  }

  /** One file: its header, its pieces, and the hash of what was sent. */
  function FileFrames(h: Hash, entry: FileEntry, pieces: seq<seq<Byte>>): seq<Frame> {
    [Control(FileBegin(entry.path, entry.size, entry.mode))] + ChunkFrames(pieces)
    + [Control(FileEnd(h(Content(pieces))))]
  }

  function NewSender(manifest: seq<FileEntry>): Sender {
    Sender(AwaitAck(false, false, []), manifest, [], [], {}, Summary(0, 0, 0, 0, 0, 0))
  }

  /** Everything the sender says before it listens. */
  function Greeting(manifest: seq<FileEntry>, folder: string): seq<Frame> {
    Controls([HelloFrame(Sync, Some(folder))] + ManifestFrames(manifest))
  }

  function ClosingFrames(s: Sender): seq<Frame> {
    Controls((if s.deletes == [] then [] else [Delete(s.deletes)])
             + [Done(s.summary.filesSent, s.summary.bytes, 0, s.summary.skipped)])
  }

  predicate InPlan(s: Sender) {
    s.phase.AwaitFile? ==> s.phase.n < |s.plan|
  }

  /** Sending file `n` of the plan, or closing when there is none. */
  function SendFile(h: Hash, src: Source, s: Sender, n: nat): (e: SEffect)
    requires n <= |s.plan|
    ensures InPlan(e.s)
  {
    if n == |s.plan| then SEffect(s.(phase := AwaitDone), ClosingFrames(s))
    else if s.plan[n].path !in src then SEffect(s.(phase := SBroken(Local("cannot read"))), [])
    else SEffect(s.(phase := AwaitFile(n)), FileFrames(h, s.plan[n], src[s.plan[n].path]))
  }

  function Diffed(s: Sender, acks: seq<PathHash>): Sender {
    var plan := PlanOf(s.manifest, RemoteMap(acks));
    var deletes := DeletesOf(acks, s.manifest);
    s.(plan := plan, deletes := deletes,
       summary := s.summary.(skipped := if |plan| <= |s.manifest| then |s.manifest| - |plan| else 0, kept := |deletes|))
  }

  /** Both answers are in: diff and start sending; otherwise keep listening. */
  function Listened(h: Hash, src: Source, s: Sender, gotHello: bool, gotAck: bool, acks: seq<PathHash>): (e: SEffect)
    ensures InPlan(e.s)
  {
    if gotHello && gotAck then SendFile(h, src, Diffed(s, acks), 0)
    else SEffect(s.(phase := AwaitAck(gotHello, gotAck, acks)), [])
  }

  function Halt(s: Sender, error: SyncError): SEffect {
    SEffect(s.(phase := SBroken(error)), [])
  }

  function WhileListening(h: Hash, src: Source, s: Sender, c: ControlFrame): (e: SEffect)
    requires s.phase.AwaitAck?
    ensures InPlan(e.s)
  {
    match c
    case Hello(protoVersion, mode, _) =>
      if CheckHello(protoVersion, mode, Sync).Err? then
        SEffect(s.(phase := SBroken(Refused(CheckHello(protoVersion, mode, Sync).error))),
                [Control(Abort("bad hello"))])
      else Listened(h, src, s, true, s.phase.gotAck, s.phase.acks)
    case ManifestAck(held, more) => Listened(h, src, s, s.phase.gotHello, !more, s.phase.acks + held)
    case Abort(reason) => Halt(s, Refused(PeerAbort(reason)))
    case _ => Halt(s, Refused(Unexpected("frame")))
  }

  function FileVerdict(h: Hash, src: Source, s: Sender, c: ControlFrame): (e: SEffect)
    requires s.phase.AwaitFile? && s.phase.n < |s.plan|
    ensures InPlan(e.s)
  {
    var n := s.phase.n;
    match c
    case FileOk(_) =>
      var sent := if s.plan[n].path in src then |Content(src[s.plan[n].path])| else 0;
      var t := s.(summary := s.summary.(filesSent := s.summary.filesSent + 1, bytes := s.summary.bytes + sent));
      SendFile(h, src, t, n + 1)
    case FileFail(path, reason) =>
      if path !in s.retried then SendFile(h, src, s.(retried := s.retried + {path}), n)
      else SEffect(s.(phase := SBroken(Local("failed twice"))), [Control(Abort("failed twice"))])
    case Abort(reason) => Halt(s, Refused(PeerAbort(reason)))
    case _ => Halt(s, Refused(Unexpected("frame")))
  }

  function WhileClosing(s: Sender, c: ControlFrame): (e: SEffect)
    requires s.phase.AwaitDone?
    ensures InPlan(e.s)
  {
    match c
    case Done(_, _, deleted, _) =>
      var kept := if s.summary.kept >= deleted then s.summary.kept - deleted else 0;
      SEffect(s.(phase := SentAll, summary := s.summary.(deleted := deleted, kept := kept)), [])
    case Abort(reason) => Halt(s, Refused(PeerAbort(reason)))
    case FileOk(_) => SEffect(s, [])
    case _ => Halt(s, Refused(Unexpected("frame")))
  }

  /** What one frame, or the end of the connection, does. A sender that is done reads nothing. */
  function SStep(h: Hash, src: Source, s: Sender, i: Incoming): (e: SEffect)
    requires InPlan(s)
    ensures InPlan(e.s)
  {
    if s.phase.SentAll? || s.phase.SBroken? then SEffect(s, [])
    else
      match i
      case Lost => Halt(s, ConnectionLost)
      case Got(Chunk(_)) => Halt(s, Refused(Unexpected("frame")))
      case Got(Control(c)) =>
        if s.phase.AwaitAck? then WhileListening(h, src, s, c)
        else if s.phase.AwaitFile? then FileVerdict(h, src, s, c)
        else WhileClosing(s, c)
  }

  // ---- sending can fail ---------------------------------------------------------------------------------------------

  /** The frames go out one after the other; at the first that does not encode the sender stops, without an abort.
      Only an abort itself may fail to go out unnoticed. */
  function Transmitted(json: Json, e: SEffect): SEffect {
    var n := SendableCount(json, e.out);
    if n == |e.out| then e
    else
      SEffect(if e.s.phase.SBroken? then e.s else e.s.(phase := SBroken(Refused(EncodeError(json, e.out[n])))),
              e.out[..n])
  }

  // ---- the sender --------------------------------------------------------------------------------------------------

  class SyncSender {
    const json: Json
    const hash: Hash
    const src: Source
    const engine: SenderEngine
    var phase: SPhase
    var summary: Summary
    /** Everything that went out so far. */
    var sent: seq<Frame>

    ghost predicate Valid()
      reads this, engine
    {
      (phase.AwaitFile? ==> phase.n < |engine.plan|)
      && (phase.AwaitAck? ==> engine.plan == [] && engine.deletePaths == [])
    }

    ghost function State(): Sender
      reads this, engine
    {
      Sender(phase, engine.manifest, engine.plan, engine.deletePaths, engine.retried, summary)
    }

    constructor (json: Json, hash: Hash, src: Source, manifest: seq<FileEntry>)
      ensures Valid() && this.json == json && this.hash == hash && this.src == src
      ensures State() == NewSender(manifest) && sent == [] && fresh(engine)
      ensures phase == AwaitAck(false, false, []) && summary == Summary(0, 0, 0, 0, 0, 0)
      ensures engine.manifest == manifest && engine.plan == [] && engine.deletePaths == [] && engine.retried == {}
    {
      this.json, this.hash, this.src := json, hash, src;
      engine := new SenderEngine(manifest);
      phase := AwaitAck(false, false, []);
      summary := Summary(0, 0, 0, 0, 0, 0);
      sent := [];
    }

    /** A frame goes out if it encodes; otherwise the run is over on this side. */
    method Send(frame: Frame) returns (ok: bool)
      modifies `sent, `phase
      ensures ok == Encodable(json, frame)
      ensures sent == old(sent) + if ok then [frame] else []
      ensures phase == if ok then old(phase) else SBroken(Refused(EncodeError(json, frame)))
    {
      var bytes := EncodeFrame(json, frame);
      match bytes {
        case Ok(_) =>
          sent := sent + [frame];
          ok := true;
        case Err(e) =>
          phase := SBroken(Refused(e));
          ok := false;
      }
    }

    method SendAll(frames: seq<Frame>) returns (ok: bool)
      modifies `sent, `phase
      ensures ok == (SendableCount(json, frames) == |frames|)
      ensures sent == old(sent) + frames[..SendableCount(json, frames)]
      ensures var n := SendableCount(json, frames);
              phase == if ok then old(phase) else SBroken(Refused(EncodeError(json, frames[n])))
    {
      var k := 0;
      assert AllEncodable(json, frames[..0]);
      hide Encodable, SendableCount, AllEncodable;
      while k < |frames|
        invariant 0 <= k <= |frames|
        invariant AllEncodable(json, frames[..k])
        invariant sent == old(sent) + frames[..k] && phase == old(phase)
      {
        ok := Send(frames[k]);
        if !ok {
          SendableIs(json, frames, k);
          return;
        }
        OneMoreEncodes(json, frames, k);
        k := k + 1;
      }
      SendableIs(json, frames, k);
      assert frames[..k] == frames;
      ok := true;
    }

    /** The hello and every batch. */
    method Greet(folder: string)
      requires phase == AwaitAck(false, false, []) && engine.plan == [] && engine.deletePaths == []
      requires engine.retried == {} && summary == Summary(0, 0, 0, 0, 0, 0)
      modifies `sent, `phase
      ensures var e := Transmitted(json, SEffect(NewSender(engine.manifest), Greeting(engine.manifest, folder)));
              State() == e.s && sent == old(sent) + e.out
    {
      var batches := engine.ManifestBatches();
      var ok := SendAll(Controls([HelloFrame(Sync, Some(folder))] + batches));
    }

    /** Streams one file, hashing what is sent. */
    method SendOneFile(entry: FileEntry) returns (ok: bool, total: nat)
      requires entry.path in src
      modifies `sent, `phase
      ensures var frames := FileFrames(hash, entry, src[entry.path]);
              var n := SendableCount(json, frames);
              && ok == (n == |frames|) && sent == old(sent) + frames[..n]
              && phase == if ok then old(phase) else SBroken(Refused(EncodeError(json, frames[n])))
      ensures ok ==> total == |Content(src[entry.path])|
    {
      var pieces := src[entry.path];
      ghost var frames := FileFrames(hash, entry, pieces);
      FileFrameAt(hash, entry, pieces, 0);
      assert AllEncodable(json, frames[..0]);
      hide FileFrames, Encodable, SendableCount, AllEncodable;
      OneMoreEncodes(json, frames, 0);
      total := 0;
      ok := Send(Control(FileBegin(entry.path, entry.size, entry.mode)));
      if !ok {
        SendableIs(json, frames, 0);
        return;
      }
      var hashed: seq<Byte> := [];
      var k := 0;
      while k < |pieces|
        invariant 0 <= k <= |pieces|
        invariant AllEncodable(json, frames[..k + 1])
        invariant sent == old(sent) + frames[..k + 1] && phase == old(phase)
        invariant hashed == Content(pieces[..k]) && total == |hashed|
      {
        assert pieces[..k + 1][..k] == pieces[..k];
        hashed := hashed + pieces[k];
        total := total + |pieces[k]|;
        FileFrameAt(hash, entry, pieces, k + 1);
        OneMoreEncodes(json, frames, k + 1);
        ok := Send(Chunk(pieces[k]));
        if !ok {
          SendableIs(json, frames, k + 1);
          return;
        }
        k := k + 1;
      }
      assert pieces[..k] == pieces;
      FileFrameAt(hash, entry, pieces, k + 1);
      OneMoreEncodes(json, frames, k + 1);
      ok := Send(Control(FileEnd(hash(hashed))));
      if ok {
        SendableIs(json, frames, k + 2);
      } else {
        SendableIs(json, frames, k + 1);
      }
    }

    method BeginFile(n: nat)
      requires n <= |engine.plan| && !phase.SBroken?
      modifies `phase, `sent
      ensures phase.AwaitFile? ==> phase.n < |engine.plan|
      ensures !phase.AwaitAck?
      ensures var e := Transmitted(json, SendFile(hash, src, old(State()), n));
              State() == e.s && sent == old(sent) + e.out
    {
      hide FileFrames, SendableCount, Encodable, Content;
      if n == |engine.plan| {
        var closing := if engine.deletePaths == [] then [] else [Delete(engine.deletePaths)];
        closing := closing + [Done(summary.filesSent, summary.bytes, 0, summary.skipped)];
        var ok := SendAll(Controls(closing));
        if ok {
          phase := AwaitDone;
        }
      } else if engine.plan[n].path !in src {
        assert SendableCount(json, []) == 0;
        phase := SBroken(Local("cannot read"));
      } else {
        var ok, total := SendOneFile(engine.plan[n]);
        if ok {
          phase := AwaitFile(n);
        }
      }
    }

    method Answered(gotHello: bool, gotAck: bool, acks: seq<PathHash>)
      requires Valid() && phase.AwaitAck?
      modifies this, engine
      ensures Valid()
      ensures var e := Transmitted(json, Listened(hash, src, old(State()), gotHello, gotAck, acks));
              State() == e.s && sent == old(sent) + e.out
    {
      if gotHello && gotAck {
        hide PlanOf, RemoteMap, DeletesOf, Transmitted;
        engine.OnManifestAck(acks);
        summary := summary.(skipped := engine.skipped, kept := |engine.deletePaths|);
        BeginFile(0);
      } else {
        phase := AwaitAck(gotHello, gotAck, acks);
      }
    }

    method OnVerdict(c: ControlFrame)
      requires Valid() && phase.AwaitFile?
      modifies this, engine
      ensures Valid()
      ensures var e := Transmitted(json, FileVerdict(hash, src, old(State()), c));
              State() == e.s && sent == old(sent) + e.out
    {
      match c {
        case FileOk(path) =>
          hide FileVerdict, Transmitted;
          OnSuccess(path);
        case FileFail(path, reason) =>
          hide FileVerdict, Transmitted;
          OnFailure(path, reason);
        case Abort(reason) => phase := SBroken(Refused(PeerAbort(reason)));
        case _ => phase := SBroken(Refused(Unexpected("frame")));
      }
    }

    method OnSuccess(path: string)
      requires Valid() && phase.AwaitFile?
      modifies this, engine
      ensures Valid()
      ensures var e := Transmitted(json, FileVerdict(hash, src, old(State()), FileOk(path)));
              State() == e.s && sent == old(sent) + e.out
    {
      hide Transmitted, SendFile, Content;
      var n := phase.n;
      var bytes := if engine.plan[n].path in src then |Content(src[engine.plan[n].path])| else 0;
      summary := summary.(filesSent := summary.filesSent + 1, bytes := summary.bytes + bytes);
      BeginFile(n + 1);
    }

    method OnFailure(path: string, reason: string)
      requires Valid() && phase.AwaitFile?
      modifies this, engine
      ensures Valid()
      ensures var e := Transmitted(json, FileVerdict(hash, src, old(State()), FileFail(path, reason)));
              State() == e.s && sent == old(sent) + e.out
    {
      hide SendFile;
      var n := phase.n;
      var action := engine.OnFileFail(path);
      match action {
        case Retry =>
          hide Transmitted;
          BeginFile(n);
        case GiveUp =>
          assert engine.retried == old(engine.retried);
          var ok := SendAll([Control(Abort("failed twice"))]);
          phase := SBroken(Local("failed twice"));
      }
    }

    method OnFrame(i: Incoming)
      requires Valid()
      modifies this, engine
      ensures Valid()
      ensures var e := Transmitted(json, SStep(hash, src, old(State()), i));
              State() == e.s && sent == old(sent) + e.out
    {
      hide Listened, FileVerdict, SendFile;
      if phase.SentAll? || phase.SBroken? {
        return;
      }
      if i.Lost? {
        phase := SBroken(ConnectionLost);
        return;
      }
      if i.frame.Chunk? {
        phase := SBroken(Refused(Unexpected("frame")));
        return;
      }
      match phase {
        case AwaitFile(_) => OnVerdict(i.frame.c);
        case AwaitAck(_, _, _) => WhileAwaitingAck(i.frame.c);
        case AwaitDone =>
          match i.frame.c {
            case Done(_, _, deleted, _) =>
              var kept := if summary.kept >= deleted then summary.kept - deleted else 0;
              summary := summary.(deleted := deleted, kept := kept);
              phase := SentAll;
            case Abort(reason) => phase := SBroken(Refused(PeerAbort(reason)));
            case FileOk(_) =>
            case _ => phase := SBroken(Refused(Unexpected("frame")));
          }
      }
    }

    method WhileAwaitingAck(c: ControlFrame)
      requires Valid() && phase.AwaitAck?
      modifies this, engine
      ensures Valid()
      ensures var e := Transmitted(json, WhileListening(hash, src, old(State()), c));
              State() == e.s && sent == old(sent) + e.out
    {
      hide Listened;
      match c {
        case Hello(protoVersion, mode, _) =>
          var hello := CheckHello(protoVersion, mode, Sync);
          if hello.Err? {
            var ok := SendAll([Control(Abort("bad hello"))]);
            phase := SBroken(Refused(hello.error));
          } else {
            hide Transmitted;
            Answered(true, phase.gotAck, phase.acks);
          }
        case ManifestAck(held, more) =>
          hide Transmitted;
          Answered(phase.gotHello, !more, phase.acks + held);
        case Abort(reason) => phase := SBroken(Refused(PeerAbort(reason)));
        case _ => phase := SBroken(Refused(Unexpected("frame")));
      }
    }
  }

  lemma FileFrameAt(h: Hash, entry: FileEntry, pieces: seq<seq<Byte>>, k: nat)
    requires k <= |pieces| + 1
    ensures var f := FileFrames(h, entry, pieces);
            && |f| == |pieces| + 2
            && f[k] == if k == 0 then Control(FileBegin(entry.path, entry.size, entry.mode))
                       else if k <= |pieces| then Chunk(pieces[k - 1])
                       else Control(FileEnd(h(Content(pieces))))
  {
    hide Content;
  }
}
