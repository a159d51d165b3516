/** A folder sync, move by move: two honest parties over FIFO channels, with a file system that may refuse anything
    at any step. Here everything a party says goes out; `SyncRuns` adds the sends that fail. */
module SyncProtocol {
  import opened Bytes
  import opened FrameProtocol
  import opened Ordering
  import opened RelPaths
  import opened SyncReceivers
  import opened SyncSenders
  import opened TransferEngine
  import opened Wrappers

  datatype Config = Config(
    json: Json, h: Hash, manifest: seq<FileEntry>, src: Source, folder: string, opts: Options, dest: Files)

  function PathOf(e: FileEntry): string {
    e.path
  }

  /** The source as scanned: each path once, with the hash of its content; and a usable folder name. */
  ghost predicate Scanned(cfg: Config) {
    && DistinctKeys(cfg.manifest, PathOf)
    && (forall k :: 0 <= k < |cfg.manifest| ==>
          var e := cfg.manifest[k];
          e.path in cfg.src && e.hash == cfg.h(Content(cfg.src[e.path])))
    && Accepted(cfg.folder) && Split(cfg.folder) == [cfg.folder]
  }

  datatype System = System(s: Sender, r: Receiver, toR: seq<Frame>, toS: seq<ControlFrame>)

  function Greeted(cfg: Config): System {
    System(NewSender(cfg.manifest), Fresh(cfg.opts, cfg.dest), Greeting(cfg.manifest, cfg.folder), [])
  }

  predicate SenderDone(s: Sender) {
    s.phase.SentAll? || s.phase.SBroken?
  }

  predicate ReceiverDone(r: Receiver) {
    r.phase.Finished? || r.phase.Broken?
  }

  /** A party can move when it is still reading and there is a frame for it, or its peer is gone. */
  predicate CanReceive(sys: System) {
    !ReceiverDone(sys.r) && (sys.toR != [] || SenderDone(sys.s))
  }

  predicate CanSend(sys: System) {
    InPlan(sys.s) && !SenderDone(sys.s) && (sys.toS != [] || ReceiverDone(sys.r))
  }

  ghost function ReceiverEffect(cfg: Config, sys: System, w: Weather): Effect {
    Step(cfg.h, sys.r, if sys.toR == [] then Lost else Got(sys.toR[0]), w)
  }

  function SenderEffect(cfg: Config, sys: System): SEffect
    requires InPlan(sys.s)
  {
    SStep(cfg.h, cfg.src, sys.s, if sys.toS == [] then Lost else Got(Control(sys.toS[0])))
  }

  /** One move of either side, when everything it says goes out. */
  ghost function ReceiverMoved(cfg: Config, sys: System, w: Weather): System {
    var e := ReceiverEffect(cfg, sys, w);
    System(sys.s, e.r, if sys.toR == [] then [] else sys.toR[1..], sys.toS + e.out)
  }

  function SenderMoved(cfg: Config, sys: System): System
    requires InPlan(sys.s)
  {
    var e := SenderEffect(cfg, sys);
    System(e.s, sys.r, sys.toR + e.out, if sys.toS == [] then [] else sys.toS[1..])
  }

  // ---- what an honest run computes -------------------------------------------------------------------------

  ghost function Held(cfg: Config): seq<PathHash> {
    Listing(cfg.h, cfg.dest)
  }

  ghost function Plan(cfg: Config): seq<FileEntry> {
    PlanOf(cfg.manifest, RemoteMap(Held(cfg)))
  }

  ghost function Deletes(cfg: Config): seq<string> {
    DeletesOf(Held(cfg), cfg.manifest)
  }

  ghost function Engine0(cfg: Config): Receiving {
    Receiving(Held(cfg), cfg.opts.replaceDelete, cfg.opts.confirmAll, {}, false)
  }

  /** The receiver's engine once it has the whole manifest. */
  ghost function Engine(cfg: Config): Receiving {
    Engine0(cfg).(source := PathsOf(cfg.manifest), complete := true)
  }

  function Pieces(cfg: Config, e: FileEntry): seq<seq<Byte>> {
    if e.path in cfg.src then cfg.src[e.path] else []
  }

  ghost function FramesOf(cfg: Config, n: nat): seq<Frame>
    requires n < |Plan(cfg)|
  {
    FileFrames(cfg.h, Plan(cfg)[n], Pieces(cfg, Plan(cfg)[n]))
  }

  /** The bytes of the first `n` planned files. */
  ghost function BytesOf(cfg: Config, n: nat): nat
    requires n <= |Plan(cfg)|
  {
    if n == 0 then 0 else BytesOf(cfg, n - 1) + |Content(Pieces(cfg, Plan(cfg)[n - 1]))|
  }

  ghost function SenderSummary(cfg: Config, n: nat): Summary
    requires n <= |Plan(cfg)|
  {
    var plan := Plan(cfg);
    Summary(n, BytesOf(cfg, n), if |plan| <= |cfg.manifest| then |cfg.manifest| - |plan| else 0, 0, |Deletes(cfg)|, 0)
  }

  /** The sender about to send, or waiting on, file `n`. */
  ghost function SenderAt(cfg: Config, phase: SPhase, n: nat, retried: set<string>): Sender
    requires n <= |Plan(cfg)|
  {
    Sender(phase, cfg.manifest, Plan(cfg), Deletes(cfg), retried, SenderSummary(cfg, n))
  }

  ghost function Closing(cfg: Config): seq<Frame> {
    ClosingFrames(SenderAt(cfg, AwaitDone, |Plan(cfg)|, {}))
  }

  /** A real path after `n` planned files were committed: theirs hold the source, all others are as before. */
  ghost predicate Holding(cfg: Config, fs: Files, n: nat, p: string)
    requires n <= |Plan(cfg)|
  {
    if p in PathsOf(Plan(cfg)[..n]) then p in cfg.src && p in fs && fs[p] == Content(cfg.src[p])
    else (p in fs <==> p in cfg.dest) && (p in fs && p in cfg.dest ==> fs[p] == cfg.dest[p])
  }

  ghost predicate Landed(cfg: Config, fs: Files, n: nat)
    requires n <= |Plan(cfg)|
  {
    forall p: string :: !IsPart(p) ==> Holding(cfg, fs, n, p)
  }

  /** The delete list will be acted on. */
  ghost predicate Prunes(cfg: Config) {
    cfg.opts.replaceDelete && (cfg.manifest != [] || Held(cfg) == [] || cfg.opts.confirmAll)
  }

  /** A real path at the end: the stale ones are gone if they were to be pruned and could be removed. */
  ghost predicate Settled(cfg: Config, fs: Files, stuck: set<string>, p: string) {
    if Prunes(cfg) && p in Deletes(cfg) && p !in stuck then p !in fs else Holding(cfg, fs, |Plan(cfg)|, p)
  }

  /** How many stale files go. */
  ghost function DeletedCount(cfg: Config, stuck: set<string>): nat {
    if Prunes(cfg) then |Gone(Deletes(cfg), stuck)| else 0
  }

  /** The receiver's last frame. */
  ghost function Receipt(cfg: Config, stuck: set<string>): ControlFrame {
    Done(|Plan(cfg)|, BytesOf(cfg, |Plan(cfg)|), DeletedCount(cfg, stuck), SenderSummary(cfg, |Plan(cfg)|).skipped)
  }

  ghost predicate Mirrored(cfg: Config, fs: Files, stuck: set<string>) {
    forall p: string :: !IsPart(p) ==> Settled(cfg, fs, stuck, p)
  }

  // ---- stages --------------------------------------------------------------------------------------------------

  /** `Greet(i, j)`: the receiver has read `i` opening frames, the sender `j` answers. `Sending(n, again, k)`:
      the receiver has read `k` frames of file `n`, sent for the first or second time. `Judged`: its verdict is
      on the way. `Close(k, stuck)`: the receiver has read `k` closing frames. The others are failures on their
      way to both sides, and the two ends. */
  datatype Stage =
    | Greet(i: nat, j: nat)
    | Sending(n: nat, again: bool, k: nat)
    | Judged(n: nat, again: bool, ok: bool)
    | Close(k: nat, stuck: set<string>)
    | Dropped(hello: bool, aborted: bool)
    | GivenUp
    | Succeeded(stuck: set<string>)
    | FailedBoth

  predicate Failing(st: Stage) {
    st.Dropped? || st.GivenUp? || st.FailedBoth?
  }

  function OpeningLength(cfg: Config): nat {
    1 + |Batches(cfg.manifest)|
  }

  ghost function AnswerLength(cfg: Config): nat {
    1 + |Batches(Held(cfg))|
  }

  /** The receiver's answers once it has read `i` opening frames. */
  ghost function Answers(cfg: Config, i: nat): seq<ControlFrame> {
    if i == 0 then []
    else if i < OpeningLength(cfg) then [HelloFrame(Sync, None)]
    else [HelloFrame(Sync, None)] + AckFrames(Held(cfg))
  }

  /** The receiver's engine after `n` batches of the manifest. */
  ghost function EngineAfter(cfg: Config, n: nat): Receiving
    requires n <= |Batches(cfg.manifest)|
  {
    FoldManifest(Engine0(cfg), Batches(cfg.manifest)[..n])
  }

  ghost function ReceiverGreeted(cfg: Config, i: nat): Receiver
    requires i <= OpeningLength(cfg)
  {
    if i == 0 then Fresh(cfg.opts, cfg.dest)
    else
      Receiver(Running, cfg.opts, EngineAfter(cfg, i - 1), i == OpeningLength(cfg),
               None, Real(cfg.dest), Summary(0, 0, 0, 0, 0, 0))
  }

  ghost function SenderGreeted(cfg: Config, j: nat): Sender
    requires j < AnswerLength(cfg)
  {
    NewSender(cfg.manifest).(phase :=
      AwaitAck(j >= 1, false, if j == 0 then [] else Unbatched(Batches(Held(cfg))[..j - 1])))
  }

  predicate SafeSource(cfg: Config) {
    SafeCount(cfg.manifest) == |cfg.manifest|
  }

  /** The retry budget already spent: on files up to `n`, and on file `n` itself exactly when this is its second
      time. */
  ghost predicate Spent(cfg: Config, retried: set<string>, n: nat, again: bool)
    requires n < |Plan(cfg)|
  {
    && (forall p :: p in retried ==> p in PathsOf(Plan(cfg)[..n + 1]))
    && (Plan(cfg)[n].path in retried <==> again)
  }

  /** The receiver between files: `n` of them committed. */
  ghost predicate Between(cfg: Config, r: Receiver, n: nat)
    requires n <= |Plan(cfg)|
  {
    && r.phase.Running? && r.opts == cfg.opts && r.engine == Engine(cfg) && r.acked
    && r.summary.filesSent == n && r.summary.bytes == BytesOf(cfg, n) && r.summary.deleted == 0
    && Landed(cfg, r.fs, n)
  }

  /** The receiver after `k` frames of file `n`. */
  ghost predicate MidFile(cfg: Config, r: Receiver, n: nat, k: nat)
    requires n < |Plan(cfg)|
  {
    var e := Plan(cfg)[n];
    var pieces := Pieces(cfg, e);
    && Between(cfg, r, n)
    && k <= |pieces| + 1
    && (k == 0 ==> r.current == None)
    && (k >= 1 ==>
          && r.current.Some? && r.current.value.rel == e.path && r.current.value.data == Content(pieces[..k - 1])
          && PartOf(e.path) in r.fs && r.fs[PartOf(e.path)] == Content(pieces[..k - 1]))
  }

  predicate Foreseen(error: SyncError) {
    error.Refused? ==> !error.error.Unexpected?
  }

  ghost predicate AtGreet(cfg: Config, sys: System, i: nat, j: nat) {
    && i <= OpeningLength(cfg) && j < AnswerLength(cfg) && j <= |Answers(cfg, i)|
    && sys.s == SenderGreeted(cfg, j) && sys.r == ReceiverGreeted(cfg, i)
    && sys.toR == Greeting(cfg.manifest, cfg.folder)[i..] && sys.toS == Answers(cfg, i)[j..]
    && (i >= 1 ==> AllSafe(Batches(cfg.manifest)[..i - 1]))
  }

  ghost predicate AtSending(cfg: Config, sys: System, n: nat, again: bool, k: nat) {
    && SafeSource(cfg) && n < |Plan(cfg)| && MidFile(cfg, sys.r, n, k)
    && sys.s == SenderAt(cfg, AwaitFile(n), n, sys.s.retried) && Spent(cfg, sys.s.retried, n, again)
    && k < |FramesOf(cfg, n)| && sys.toR == FramesOf(cfg, n)[k..] && sys.toS == []
  }

  ghost predicate AtJudged(cfg: Config, sys: System, n: nat, again: bool, ok: bool) {
    && SafeSource(cfg) && n < |Plan(cfg)|
    && Between(cfg, sys.r, if ok then n + 1 else n) && sys.r.current == None
    && sys.s == SenderAt(cfg, AwaitFile(n), n, sys.s.retried) && Spent(cfg, sys.s.retried, n, again)
    && sys.toR == [] && |sys.toS| == 1
    && (if ok then sys.toS[0] == FileOk(Plan(cfg)[n].path)
        else sys.toS[0].FileFail? && sys.toS[0].path == Plan(cfg)[n].path)
  }

  ghost predicate AtClose(cfg: Config, sys: System, k: nat, stuck: set<string>) {
    var plan := Plan(cfg);
    && SafeSource(cfg) && k <= |Closing(cfg)|
    && (k == |Closing(cfg)| - 1 ==> AllAccepted(Deletes(cfg)))
    && (k == |Closing(cfg)| ==> AllAccepted(Deletes(cfg)))
    && sys.s == SenderAt(cfg, AwaitDone, |plan|, sys.s.retried)
    && sys.toR == Closing(cfg)[k..]
    && (if k == 0 && |Closing(cfg)| == 2 then Between(cfg, sys.r, |plan|) && sys.r.current == None
        else Finishing(cfg, sys.r, stuck) && sys.r.phase == if k == |Closing(cfg)| then Finished else Running)
    && sys.toS == (if k == |Closing(cfg)| then [Receipt(cfg, stuck)] else [])
  }

  /** The receiver once the delete list was handled. */
  ghost predicate Finishing(cfg: Config, r: Receiver, stuck: set<string>) {
    && r.opts == cfg.opts && r.current == None && r.engine == Engine(cfg)
    && r.summary.filesSent == |Plan(cfg)| && r.summary.bytes == BytesOf(cfg, |Plan(cfg)|)
    && r.summary.deleted == DeletedCount(cfg, stuck) && Mirrored(cfg, r.fs, stuck)
  }

  ghost predicate AtDropped(cfg: Config, sys: System, hello: bool, aborted: bool) {
    && sys.r.phase.Broken? && Foreseen(sys.r.phase.error) && InPlan(sys.s) && !SenderDone(sys.s)
    && (hello ==> sys.s == NewSender(cfg.manifest))
    && |sys.toS| == (if hello then 1 else 0) + (if aborted then 1 else 0)
    && (hello ==> sys.toS[0] == HelloFrame(Sync, None))
    && (aborted ==> sys.toS[|sys.toS| - 1].Abort?)
  }

  ghost predicate AtGivenUp(sys: System) {
    && sys.s.phase.SBroken? && Foreseen(sys.s.phase.error) && sys.r.phase.Running?
    && |sys.toR| == 1 && sys.toR[0].Control? && sys.toR[0].c.Abort?
  }

  ghost predicate AtSuccess(cfg: Config, sys: System, stuck: set<string>) {
    && SafeSource(cfg) && AllAccepted(Deletes(cfg))
    && sys.toR == [] && sys.toS == [] && sys.s.phase.SentAll? && sys.r.phase.Finished?
    && Finishing(cfg, sys.r, stuck)
    && sys.s.summary.filesSent == |Plan(cfg)| && sys.s.summary.bytes == BytesOf(cfg, |Plan(cfg)|)
    && sys.s.summary.skipped + |Plan(cfg)| == |cfg.manifest|
    && sys.s.summary.deleted == DeletedCount(cfg, stuck)
  }

  ghost predicate AtFailure(sys: System) {
    sys.s.phase.SBroken? && Foreseen(sys.s.phase.error) && sys.r.phase.Broken? && Foreseen(sys.r.phase.error)
  }

  ghost predicate At(cfg: Config, sys: System, st: Stage) {
    match st
    case Greet(i, j) => AtGreet(cfg, sys, i, j)
    case Sending(n, again, k) => AtSending(cfg, sys, n, again, k)
    case Judged(n, again, ok) => AtJudged(cfg, sys, n, again, ok)
    case Close(k, stuck) => AtClose(cfg, sys, k, stuck)
    case Dropped(hello, aborted) => AtDropped(cfg, sys, hello, aborted)
    case GivenUp => AtGivenUp(sys)
    case Succeeded(stuck) => AtSuccess(cfg, sys, stuck)
    case FailedBoth => AtFailure(sys)
  }

  // ---- a measure -------------------------------------------------------------------------------------------------

  /** Moves needed from the start of file `n` on, each file being sent twice. */
  ghost function Rest(cfg: Config, n: nat): (c: nat)
    requires n <= |Plan(cfg)|
    ensures c >= 2
    decreases |Plan(cfg)| - n
  {
    if n == |Plan(cfg)| then |Closing(cfg)| + 1 else 2 * (|FramesOf(cfg, n)| + 2) + Rest(cfg, n + 1)
  }

  ghost predicate Bounded(cfg: Config, st: Stage) {
    match st
    case Greet(i, j) => i <= OpeningLength(cfg) && j <= AnswerLength(cfg)
    case Sending(n, _, k) => n < |Plan(cfg)| && k < |FramesOf(cfg, n)|
    case Judged(n, _, _) => n < |Plan(cfg)|
    case Close(k, _) => k <= |Closing(cfg)|
    case _ => true
  }

  ghost function Rank(cfg: Config, st: Stage): nat
    requires Bounded(cfg, st)
  {
    match st
    case Greet(i, j) => Rest(cfg, 0) + 1 + (OpeningLength(cfg) - i) + (AnswerLength(cfg) - j)
    case Sending(n, again, k) =>
      var f := |FramesOf(cfg, n)|;
      Rest(cfg, n + 1) + (if again then 0 else f + 2) + (f - k) + 1
    case Judged(n, again, ok) =>
      Rest(cfg, n + 1) + (if again || ok then 0 else |FramesOf(cfg, n)| + 2) + 1
    case Close(k, _) => |Closing(cfg)| - k + 1
    case Dropped(hello, _) => if hello then 2 else 1
    case GivenUp => 1
    case Succeeded(_) => 0
    case FailedBoth => 0
  }

  // ---- the opening -------------------------------------------------------------------------------------------------

  lemma OpeningFrames(cfg: Config)
    ensures |Greeting(cfg.manifest, cfg.folder)| == OpeningLength(cfg)
    ensures Greeting(cfg.manifest, cfg.folder)[0] == Control(HelloFrame(Sync, Some(cfg.folder)))
    ensures forall i :: 1 <= i < OpeningLength(cfg) ==>
              Greeting(cfg.manifest, cfg.folder)[i]
              == Control(Manifest(Batches(cfg.manifest)[i - 1].items, Batches(cfg.manifest)[i - 1].more))
  {
    hide Batches;
  }

  lemma AnswerFrames(cfg: Config)
    ensures |Answers(cfg, OpeningLength(cfg))| == AnswerLength(cfg)
    ensures forall i :: 1 <= i < OpeningLength(cfg) ==> Answers(cfg, i) == [HelloFrame(Sync, None)]
    ensures Answers(cfg, OpeningLength(cfg))[0] == HelloFrame(Sync, None)
    ensures forall j :: 1 <= j < AnswerLength(cfg) ==>
              Answers(cfg, OpeningLength(cfg))[j]
              == ManifestAck(Batches(Held(cfg))[j - 1].items, Batches(Held(cfg))[j - 1].more)
  {
    hide Batches, Held;
  }

  /** The receiver cannot get its destination ready. */
  predicate Unready(cfg: Config, w: Weather) {
    w.rootBlocked || w.createFails || PartStuck(cfg.dest, w.stuck) || w.scanFails
  }

  lemma HelloEffect(cfg: Config, w: Weather)
    ensures Step(cfg.h, Fresh(cfg.opts, cfg.dest), Got(Control(HelloFrame(Sync, Some(cfg.folder)))), w)
            == OnHello(cfg.h, Fresh(cfg.opts, cfg.dest), PROTO_VERSION, Sync, Some(cfg.folder), w)
  {
    hide OnHello;
  }

  lemma HelloOutcome(cfg: Config, w: Weather)
    requires Accepted(cfg.folder) && Split(cfg.folder) == [cfg.folder]
    ensures var r := Fresh(cfg.opts, cfg.dest);
            var e := OnHello(cfg.h, r, PROTO_VERSION, Sync, Some(cfg.folder), w);
            if Unready(cfg, w) then
              && e.r.phase.Broken? && Foreseen(e.r.phase.error)
              && |e.out| == (if w.rootBlocked then 1 else 0) && (w.rootBlocked ==> e.out[0].Abort?)
            else e == Effect(Started(cfg.h, r), [HelloFrame(Sync, None)])
  {
    hide Started, Accepted, Split, PartStuck, EarlyParts, Real, Removed;
  }

  lemma StartedIsGreeted(cfg: Config)
    ensures Started(cfg.h, Fresh(cfg.opts, cfg.dest)) == ReceiverGreeted(cfg, 1)
    ensures ReceiverGreeted(cfg, 0) == Fresh(cfg.opts, cfg.dest)
  {
    BatchesAreLossless(cfg.manifest);
    assert Batches(cfg.manifest)[..0] == [];
    assert EngineAfter(cfg, 0) == Engine0(cfg);
    hide Batches, Listing, EngineAfter;
  }

  /** What the hello does to the receiver alone. */
  lemma HelloStep(cfg: Config, w: Weather)
    requires Scanned(cfg)
    ensures var e := Step(cfg.h, ReceiverGreeted(cfg, 0), Got(Control(HelloFrame(Sync, Some(cfg.folder)))), w);
            if Unready(cfg, w) then
              && e.r.phase.Broken? && Foreseen(e.r.phase.error)
              && |e.out| == (if w.rootBlocked then 1 else 0) && (w.rootBlocked ==> e.out[0].Abort?)
            else e == Effect(ReceiverGreeted(cfg, 1), [HelloFrame(Sync, None)])
  {
    assert Accepted(cfg.folder) && Split(cfg.folder) == [cfg.folder];
    hide *;
    StartedIsGreeted(cfg);
    HelloEffect(cfg, w);
    HelloOutcome(cfg, w);
  }

  lemma SenderListens(cfg: Config, j: nat)
    requires j < AnswerLength(cfg)
    ensures InPlan(SenderGreeted(cfg, j)) && !SenderDone(SenderGreeted(cfg, j))
    ensures j == 0 ==> SenderGreeted(cfg, j) == NewSender(cfg.manifest)
  {
    hide Unbatched, Batches, Held;
  }

  /** The receiver reads the hello. */
  lemma ReadsHello(cfg: Config, sys: System, w: Weather)
    requires Scanned(cfg) && AtGreet(cfg, sys, 0, 0)
    ensures var next := ReceiverMoved(cfg, sys, w);
            if w.rootBlocked then AtDropped(cfg, next, false, true)
            else if Unready(cfg, w) then AtDropped(cfg, next, false, false)
            else AtGreet(cfg, next, 1, 0)
  {
    OpeningFrames(cfg);
    HelloStep(cfg, w);
    SenderListens(cfg, 0);
    BatchesAreLossless(cfg.manifest);
    AnswerFrames(cfg);
    var opening := Greeting(cfg.manifest, cfg.folder);
    var hello := Control(HelloFrame(Sync, Some(cfg.folder)));
    var e := Step(cfg.h, ReceiverGreeted(cfg, 0), Got(hello), w);
    assert sys.toS == [];
    assert Batches(cfg.manifest)[..0] == [];
    assert opening[0..][1..] == opening[1..];
    hide Step, Batches, ReceiverGreeted, SenderGreeted, Greeting, Held, ReceiverMoved;
    MovedBy(cfg, sys, w, hello, e);
  }

  /** One receiver move, from what the frame does to the receiver alone. */
  lemma MovedBy(cfg: Config, sys: System, w: Weather, frame: Frame, e: Effect)
    requires sys.toR != [] && sys.toR[0] == frame && e == Step(cfg.h, sys.r, Got(frame), w)
    ensures ReceiverMoved(cfg, sys, w) == System(sys.s, e.r, sys.toR[1..], sys.toS + e.out)
  {
    hide Step;
  }

  /** One sender move, from what the frame does to the sender alone. */
  lemma MovedOn(cfg: Config, sys: System, c: ControlFrame, e: SEffect)
    requires InPlan(sys.s) && sys.toS != [] && sys.toS[0] == c && e == SStep(cfg.h, cfg.src, sys.s, Got(Control(c)))
    ensures SenderMoved(cfg, sys) == System(e.s, sys.r, sys.toR + e.out, sys.toS[1..])
  {
    hide SStep;
  }

  lemma EngineMore(cfg: Config, n: nat)
    requires n < |Batches(cfg.manifest)| && AllSafe(Batches(cfg.manifest)[..n])
    ensures var b := Batches(cfg.manifest);
            && EngineAfter(cfg, n + 1) == AfterManifest(EngineAfter(cfg, n), b[n].items, b[n].more)
            && EngineAfter(cfg, n).held == Held(cfg)
            && (AllSafe(b[..n + 1]) <==> SafeBatch(b[n]))
    ensures SafeBatch(Batches(cfg.manifest)[n]) ==>
              (EngineAfter(cfg, n + 1).complete <==> n + 1 == |Batches(cfg.manifest)|)
  {
    var b := Batches(cfg.manifest);
    var init, last := b[..n], b[n];
    assert b[..n + 1] == init + [last] && (init + [last])[..n] == init;
    FoldIsUnion(Engine0(cfg), init);
    AllSafeConcat(init, [last]);
    assert AllSafe([last]) <==> SafeBatch(last) by { assert [last][0] == last; }
    hide AllSafe, SafeBatch, Batches;
    if SafeBatch(last) {
      FoldIsUnion(Engine0(cfg), init + [last]);
      EndsOnlyAtEnd(cfg.manifest, n + 1);
    }
  }

  /** The `i`-th opening frame after the hello: a batch of the manifest. */
  function BatchFrame(cfg: Config, i: nat): Frame
    requires 1 <= i < OpeningLength(cfg)
  {
    Control(Manifest(Batches(cfg.manifest)[i - 1].items, Batches(cfg.manifest)[i - 1].more))
  }

  predicate BatchIsSafe(cfg: Config, i: nat)
    requires 1 <= i < OpeningLength(cfg)
  {
    SafeBatch(Batches(cfg.manifest)[i - 1])
  }

  /** All batches among the first `i` opening frames are safe. */
  predicate SafeUpTo(cfg: Config, i: nat)
    requires i <= OpeningLength(cfg)
  {
    i >= 1 ==> AllSafe(Batches(cfg.manifest)[..i - 1])
  }

  /** What reading a safe batch gives: the last one is answered. */
  ghost function BatchRead(cfg: Config, i: nat): Effect
    requires i < OpeningLength(cfg)
  {
    Effect(ReceiverGreeted(cfg, i + 1), if i + 1 == OpeningLength(cfg) then AckFrames(Held(cfg)) else [])
  }

  lemma SafeManifestStep(cfg: Config, i: nat, w: Weather)
    requires 1 <= i < OpeningLength(cfg) && SafeUpTo(cfg, i) && BatchIsSafe(cfg, i)
    ensures Step(cfg.h, ReceiverGreeted(cfg, i), Got(BatchFrame(cfg, i)), w) == BatchRead(cfg, i)
    ensures SafeUpTo(cfg, i + 1)
  {
    EngineMore(cfg, i - 1);
    EngineMoreHeld(cfg, i - 1);
    hide Batches, EngineAfter, AfterManifest, Held, AckFrames, AllSafe, OnFileBegin, OnFileEnd, OnChunk, OnDelete;
  }

  lemma EngineMoreHeld(cfg: Config, n: nat)
    requires n < |Batches(cfg.manifest)| && AllSafe(Batches(cfg.manifest)[..n])
    ensures var b := Batches(cfg.manifest)[n];
            AfterManifest(EngineAfter(cfg, n), b.items, b.more).held == Held(cfg)
  {
    EngineMore(cfg, n);
    hide Batches, EngineAfter, Held, AllSafe;
  }

  lemma UnsafeManifestStep(cfg: Config, i: nat, w: Weather)
    requires 1 <= i < OpeningLength(cfg) && !BatchIsSafe(cfg, i)
    ensures var e := Step(cfg.h, ReceiverGreeted(cfg, i), Got(BatchFrame(cfg, i)), w);
            && e.r.phase.Broken? && Foreseen(e.r.phase.error)
            && |e.out| == 1 && e.out[0].Abort?
  {
    hide AfterManifest, OnFileBegin, OnFileEnd, OnChunk, OnDelete, Batches, Held, EngineAfter;
  }

  lemma AnswersGrow(cfg: Config, i: nat, j: nat)
    requires 1 <= i < OpeningLength(cfg) && j <= |Answers(cfg, i)|
    ensures |Answers(cfg, i)| == 1 && j <= |Answers(cfg, i + 1)|
    ensures Answers(cfg, i)[j..] + BatchRead(cfg, i).out == Answers(cfg, i + 1)[j..]
    ensures Answers(cfg, i)[j..] == if j == 0 then [HelloFrame(Sync, None)] else []
  {
    hide Batches, Held, AckFrames, ReceiverGreeted;
  }

  lemma OpeningTail(cfg: Config, i: nat)
    requires 1 <= i < OpeningLength(cfg)
    ensures var opening := Greeting(cfg.manifest, cfg.folder);
            && |opening| == OpeningLength(cfg)
            && opening[i..][0] == BatchFrame(cfg, i)
            && opening[i..][1..] == opening[i + 1..]
  {
    OpeningFrames(cfg);
    hide Greeting, Batches;
  }

  lemma ToGreet(cfg: Config, sys: System, i: nat, j: nat)
    requires i <= OpeningLength(cfg) && j < AnswerLength(cfg) && j <= |Answers(cfg, i)|
    requires sys.s == SenderGreeted(cfg, j) && sys.r == ReceiverGreeted(cfg, i)
    requires |Greeting(cfg.manifest, cfg.folder)| == OpeningLength(cfg)
    requires sys.toR == Greeting(cfg.manifest, cfg.folder)[i..] && sys.toS == Answers(cfg, i)[j..]
    requires SafeUpTo(cfg, i)
    ensures AtGreet(cfg, sys, i, j)
  {
  }

  lemma FromGreet(cfg: Config, sys: System, i: nat, j: nat)
    requires AtGreet(cfg, sys, i, j)
    ensures i <= OpeningLength(cfg) && j < AnswerLength(cfg) && j <= |Answers(cfg, i)| && OpeningLength(cfg) >= 2
    ensures sys.s == SenderGreeted(cfg, j) && sys.r == ReceiverGreeted(cfg, i)
    ensures |Greeting(cfg.manifest, cfg.folder)| == OpeningLength(cfg)
    ensures sys.toR == Greeting(cfg.manifest, cfg.folder)[i..] && sys.toS == Answers(cfg, i)[j..]
    ensures SafeUpTo(cfg, i)
    ensures InPlan(sys.s) && !SenderDone(sys.s) && !ReceiverDone(sys.r)
    ensures j == 0 ==> sys.s == NewSender(cfg.manifest)
  {
    OpeningFrames(cfg);
    BatchesAreLossless(cfg.manifest);
    SenderListens(cfg, j);
    hide Batches, Greeting, Answers, Held, SenderGreeted, EngineAfter;
  }

  /** The receiver reads a batch of the manifest; after the last one it answers with its own list. */
  lemma ReadsSafeBatch(cfg: Config, sys: System, i: nat, j: nat, w: Weather)
    requires AtGreet(cfg, sys, i, j) && 1 <= i < OpeningLength(cfg) && BatchIsSafe(cfg, i)
    ensures AtGreet(cfg, ReceiverMoved(cfg, sys, w), i + 1, j)
  {
    hide *;
    FromGreet(cfg, sys, i, j);
    OpeningTail(cfg, i);
    SafeManifestStep(cfg, i, w);
    AnswersGrow(cfg, i, j);
    MovedBy(cfg, sys, w, BatchFrame(cfg, i), BatchRead(cfg, i));
    BatchReadIs(cfg, i);
    ToGreet(cfg, ReceiverMoved(cfg, sys, w), i + 1, j);
  }

  lemma BatchReadIs(cfg: Config, i: nat)
    requires i < OpeningLength(cfg)
    ensures BatchRead(cfg, i).r == ReceiverGreeted(cfg, i + 1)
  {
  }

  lemma RefusesBatch(cfg: Config, sys: System, i: nat, j: nat, w: Weather)
    requires AtGreet(cfg, sys, i, j) && 1 <= i < OpeningLength(cfg) && !BatchIsSafe(cfg, i)
    ensures AtDropped(cfg, ReceiverMoved(cfg, sys, w), j == 0, true)
  {
    hide *;
    var e := Step(cfg.h, sys.r, Got(BatchFrame(cfg, i)), w);
    FromGreet(cfg, sys, i, j);
    OpeningTail(cfg, i);
    UnsafeManifestStep(cfg, i, w);
    AnswersGrow(cfg, i, j);
    MovedBy(cfg, sys, w, BatchFrame(cfg, i), e);
    ToRefused(cfg, ReceiverMoved(cfg, sys, w), j == 0);
  }

  lemma ToRefused(cfg: Config, sys: System, hello: bool)
    requires sys.r.phase.Broken? && Foreseen(sys.r.phase.error) && InPlan(sys.s) && !SenderDone(sys.s)
    requires hello ==> sys.s == NewSender(cfg.manifest)
    requires |sys.toS| == (if hello then 2 else 1) && sys.toS[|sys.toS| - 1].Abort?
    requires hello ==> sys.toS[0] == HelloFrame(Sync, None)
    ensures AtDropped(cfg, sys, hello, true)
  {
  }

  // ---- the sender listens ------------------------------------------------------------------------------------------

  lemma HearsHello(cfg: Config, sys: System, i: nat)
    requires AtGreet(cfg, sys, i, 0) && i >= 1
    ensures AtGreet(cfg, SenderMoved(cfg, sys), i, 1)
  {
    AnswerFrames(cfg);
    BatchesAreLossless(Held(cfg));
    BatchesAreLossless(cfg.manifest);
    var held := Batches(Held(cfg));
    assert held[..0] == [];
    var hello := HelloFrame(Sync, None);
    assert sys.toS[0] == hello by { assert sys.toS == Answers(cfg, i); }
    assert sys.toS[1..] == Answers(cfg, i)[1..];
    hide Greeting, Batches, Held, ReceiverGreeted, Answers;
    MovedOn(cfg, sys, hello, SEffect(SenderGreeted(cfg, 1), []));
    assert sys.toR + [] == sys.toR;
  }

  lemma {:induction false} UnbatchedPrefix<T>(b: seq<Batch<T>>, n: nat)
    requires n < |b|
    ensures Unbatched(b[..n]) + b[n].items == Unbatched(b[..n + 1])
  {
    UnbatchedMore(b[..n], b[n]);
    assert b[..n + 1] == b[..n] + [b[n]];
  }

  lemma AcksGrow(cfg: Config, j: nat)
    requires 1 <= j < AnswerLength(cfg)
    ensures var b := Batches(Held(cfg));
            Unbatched(b[..j - 1]) + b[j - 1].items == Unbatched(b[..j])
    ensures Unbatched(Batches(Held(cfg))) == Held(cfg)
    ensures Batches(Held(cfg))[j - 1].more <==> j + 1 < AnswerLength(cfg)
  {
    BatchesAreLossless(Held(cfg));
    UnbatchedPrefix(Batches(Held(cfg)), j - 1);
    hide Batches, Held, Unbatched;
  }

  /** The `j`-th answer after the hello: a batch of the receiver's list. */
  ghost function AckFrame(cfg: Config, j: nat): ControlFrame
    requires 1 <= j < AnswerLength(cfg)
  {
    ManifestAck(Batches(Held(cfg))[j - 1].items, Batches(Held(cfg))[j - 1].more)
  }

  lemma AckKept(cfg: Config, j: nat)
    requires 1 <= j && j + 1 < AnswerLength(cfg)
    ensures InPlan(SenderGreeted(cfg, j))
            && SStep(cfg.h, cfg.src, SenderGreeted(cfg, j), Got(Control(AckFrame(cfg, j))))
               == SEffect(SenderGreeted(cfg, j + 1), [])
  {
    AcksGrow(cfg, j);
    hide Batches, Held, Unbatched;
  }

  lemma AnswersTail(cfg: Config, j: nat)
    requires 1 <= j < AnswerLength(cfg)
    ensures var answers := Answers(cfg, OpeningLength(cfg));
            && |answers| == AnswerLength(cfg)
            && answers[j..][0] == AckFrame(cfg, j) && answers[j..][1..] == answers[j + 1..]
  {
    AnswerFrames(cfg);
    hide Answers, Batches, Held;
  }

  lemma HearsAck(cfg: Config, sys: System, j: nat)
    requires AtGreet(cfg, sys, OpeningLength(cfg), j) && 1 <= j && j + 1 < AnswerLength(cfg)
    ensures InPlan(sys.s) && AtGreet(cfg, SenderMoved(cfg, sys), OpeningLength(cfg), j + 1)
  {
    hide *;
    FromGreet(cfg, sys, OpeningLength(cfg), j);
    AnswersTail(cfg, j);
    AckKept(cfg, j);
    assert sys.toR + [] == sys.toR;
    MovedOn(cfg, sys, AckFrame(cfg, j), SEffect(SenderGreeted(cfg, j + 1), []));
    ToGreet(cfg, SenderMoved(cfg, sys), OpeningLength(cfg), j + 1);
  }

  // ---- between files -----------------------------------------------------------------------------------------------

  lemma {:induction false} PlanIsDistinct(manifest: seq<FileEntry>, remote: map<string, string>)
    requires DistinctKeys(manifest, PathOf)
    ensures DistinctKeys(PlanOf(manifest, remote), PathOf)
  {
    if manifest == [] {
    } else {
      var n := |manifest| - 1;
      var init := PlanOf(manifest[..n], remote);
      PlanIsDistinct(manifest[..n], remote);
      forall i | 0 <= i < |init|
        ensures PathOf(init[i]) != PathOf(manifest[n])
      {
        PlanMembers(manifest[..n], remote, init[i]);
        assert init[i] in init;
        var k :| 0 <= k < n && manifest[..n][k] == init[i];
        assert manifest[k] == init[i];
      }
    }
  }

  lemma PlannedPaths(cfg: Config, n: nat)
    requires DistinctKeys(cfg.manifest, PathOf) && n < |Plan(cfg)|
    ensures var path := Plan(cfg)[n].path;
            && path !in PathsOf(Plan(cfg)[..n])
            && PathsOf(Plan(cfg)[..n + 1]) == PathsOf(Plan(cfg)[..n]) + {path}
  {
    var plan := Plan(cfg);
    PlanIsDistinct(cfg.manifest, RemoteMap(Held(cfg)));
    hide PlanOf, RemoteMap, Held;
    assert forall i :: 0 <= i < n ==> PathOf(plan[i]) != PathOf(plan[n]);
    PathsOfMore(plan[..n], plan[n]);
    assert plan[..n + 1] == plan[..n] + [plan[n]];
  }

  /** What is known of a planned file. */
  lemma PlannedFile(cfg: Config, n: nat)
    requires Scanned(cfg) && n < |Plan(cfg)|
    ensures var e := Plan(cfg)[n];
            && e in cfg.manifest && e.path in cfg.src && e.hash == cfg.h(Content(cfg.src[e.path]))
            && e.path !in PathsOf(Plan(cfg)[..n])
            && (SafeSource(cfg) ==> Accepted(e.path))
            && PathsOf(Plan(cfg)[..n + 1]) == PathsOf(Plan(cfg)[..n]) + {e.path}
  {
    var e := Plan(cfg)[n];
    assert e in Plan(cfg);
    PlannedPaths(cfg, n);
    PlanMembers(cfg.manifest, RemoteMap(Held(cfg)), e);
    SafeCountIff(cfg.manifest);
    hide Plan, PlanOf, RemoteMap, Held, SafeCount, Content, PathFault, DistinctKeys, PathsOf;
    var k :| 0 <= k < |cfg.manifest| && cfg.manifest[k] == e;
  }

  lemma LandedStart(cfg: Config)
    ensures Landed(cfg, Real(cfg.dest), 0)
  {
    assert PathsOf(Plan(cfg)[..0]) == {};
    hide IsPart, Plan, PathsOf;
  }

  /** Writing and removing part files changes no real path. */
  lemma PartsDoNotMatter(cfg: Config, fs: Files, other: Files, n: nat)
    requires n <= |Plan(cfg)| && Landed(cfg, fs, n)
    requires forall p :: !IsPart(p) ==> (p in fs <==> p in other) && (p in fs && p in other ==> fs[p] == other[p])
    ensures Landed(cfg, other, n)
  {
    hide IsPart, Plan, PathsOf, Content;
    forall p: string | !IsPart(p)
      ensures Holding(cfg, other, n, p)
    {
      assert Holding(cfg, fs, n, p);
    }
  }

  lemma CommitHolds(cfg: Config, fs: Files, n: nat, p: string)
    requires Scanned(cfg) && n < |Plan(cfg)| && Holding(cfg, fs, n, p) && !IsPart(p)
    requires PartOf(Plan(cfg)[n].path) in fs && fs[PartOf(Plan(cfg)[n].path)] == Content(Pieces(cfg, Plan(cfg)[n]))
    ensures var path := Plan(cfg)[n].path;
            Holding(cfg, (fs - {PartOf(path)})[path := fs[PartOf(path)]], n + 1, p)
  {
    PlannedFile(cfg, n);
    hide IsPart, Plan, PathsOf, Content, Scanned;
  }

  /** Committing file `n` lands it. */
  lemma CommitLands(cfg: Config, fs: Files, n: nat)
    requires Scanned(cfg) && n < |Plan(cfg)| && Landed(cfg, fs, n)
    requires PartOf(Plan(cfg)[n].path) in fs && fs[PartOf(Plan(cfg)[n].path)] == Content(Pieces(cfg, Plan(cfg)[n]))
    ensures var path := Plan(cfg)[n].path;
            Landed(cfg, (fs - {PartOf(path)})[path := fs[PartOf(path)]], n + 1)
  {
    hide IsPart, Plan, PathsOf, Content, Scanned, Holding, PartOf, Pieces;
    var path := Plan(cfg)[n].path;
    forall p: string | !IsPart(p)
      ensures Holding(cfg, (fs - {PartOf(path)})[path := fs[PartOf(path)]], n + 1, p)
    {
      CommitHolds(cfg, fs, n, p);
    }
  }

  // ---- one file at the receiver -------------------------------------------------------------------------------------

  lemma BeginStep(cfg: Config, r: Receiver, n: nat, w: Weather)
    requires Scanned(cfg) && SafeSource(cfg) && n < |Plan(cfg)| && MidFile(cfg, r, n, 0)
    ensures var f := Plan(cfg)[n];
            var e := Step(cfg.h, r, Got(Control(FileBegin(f.path, f.size, f.mode))), w);
            && e.out == []
            && (if w.createFails then e.r.phase.Broken? && Foreseen(e.r.phase.error) else MidFile(cfg, e.r, n, 1))
  {
    PlannedFile(cfg, n);
    var path := Plan(cfg)[n].path;
    assert Content(Pieces(cfg, Plan(cfg)[n])[..0]) == [];
    hide Plan, PathFault, Content, Scanned, Engine, BytesOf, Landed, SafeSource;
    if !w.createFails {
      PartsDoNotMatter(cfg, r.fs, r.fs[PartOf(path) := []], n);
    }
  }

  lemma ChunkStep(cfg: Config, r: Receiver, n: nat, k: nat, w: Weather)
    requires n < |Plan(cfg)| && MidFile(cfg, r, n, k) && 1 <= k <= |Pieces(cfg, Plan(cfg)[n])|
    ensures var e := Step(cfg.h, r, Got(Chunk(Pieces(cfg, Plan(cfg)[n])[k - 1])), w);
            && e.out == []
            && (if w.writeFails then e.r.phase.Broken? && Foreseen(e.r.phase.error) else MidFile(cfg, e.r, n, k + 1))
  {
    var pieces := Pieces(cfg, Plan(cfg)[n]);
    assert pieces[..k][..k - 1] == pieces[..k - 1];
    assert Content(pieces[..k]) == Content(pieces[..k - 1]) + pieces[k - 1];
    hide Plan, PathFault, Content, Engine, BytesOf, Landed, Pieces, IsPart, OnManifestFrame, OnFileBegin, OnFileEnd,
         OnDelete;
    if !w.writeFails {
      var part := PartOf(r.current.value.rel);
      PartsDoNotMatter(cfg, r.fs, r.fs[part := r.fs[part] + pieces[k - 1]], n);
    }
  }

  lemma EndEffect(h: Hash, r: Receiver, hash: string, w: Weather)
    requires r.phase.Running?
    ensures Step(h, r, Got(Control(FileEnd(hash))), w) == OnFileEnd(h, r, hash, w)
  {
    hide OnFileEnd;
  }

  lemma EndCommits(cfg: Config, r: Receiver, n: nat, w: Weather)
    requires Scanned(cfg) && n < |Plan(cfg)| && MidFile(cfg, r, n, |Pieces(cfg, Plan(cfg)[n])| + 1)
    requires !w.flushFails && !w.renameFails
    ensures var f := Plan(cfg)[n];
            var e := OnFileEnd(cfg.h, r, cfg.h(Content(Pieces(cfg, f))), w);
            e.r.current == None && Between(cfg, e.r, n + 1) && e.out == [FileOk(f.path)]
  {
    var pieces := Pieces(cfg, Plan(cfg)[n]);
    assert pieces[..|pieces|] == pieces;
    assert BytesOf(cfg, n + 1) == BytesOf(cfg, n) + |Content(pieces)|;
    hide Plan, Content, Engine, BytesOf, Landed, Scanned, Pieces, PartOf;
    CommitLands(cfg, r.fs, n);
  }

  lemma EndFails(cfg: Config, r: Receiver, n: nat, w: Weather)
    requires Scanned(cfg) && n < |Plan(cfg)| && MidFile(cfg, r, n, |Pieces(cfg, Plan(cfg)[n])| + 1)
    requires w.flushFails || w.renameFails
    ensures var f := Plan(cfg)[n];
            var e := OnFileEnd(cfg.h, r, cfg.h(Content(Pieces(cfg, f))), w);
            e.r.current == None && Between(cfg, e.r, n) && |e.out| == 1 && e.out[0].FileFail? && e.out[0].path == f.path
  {
    hide Plan, Content, Engine, BytesOf, Landed, Scanned, Pieces;
    PartsDoNotMatter(cfg, r.fs, Removed(r.fs, PartOf(Plan(cfg)[n].path), w.stuck), n);
  }

  lemma EndStep(cfg: Config, r: Receiver, n: nat, w: Weather)
    requires Scanned(cfg) && n < |Plan(cfg)| && MidFile(cfg, r, n, |Pieces(cfg, Plan(cfg)[n])| + 1)
    ensures var f := Plan(cfg)[n];
            var e := Step(cfg.h, r, Got(Control(FileEnd(cfg.h(Content(Pieces(cfg, f)))))), w);
            && e.r.current == None
            && (if w.flushFails || w.renameFails then
                  Between(cfg, e.r, n) && |e.out| == 1 && e.out[0].FileFail? && e.out[0].path == f.path
                else
                  Between(cfg, e.r, n + 1) && e.out == [FileOk(f.path)])
  {
    EndEffect(cfg.h, r, cfg.h(Content(Pieces(cfg, Plan(cfg)[n]))), w);
    if w.flushFails || w.renameFails {
      EndFails(cfg, r, n, w);
    } else {
      EndCommits(cfg, r, n, w);
    }
    hide Step, OnFileEnd, Plan, Content, Between, Scanned, Pieces, Landed;
  }

  // ---- one file on the channel --------------------------------------------------------------------------------------

  lemma FrameAt(cfg: Config, n: nat, k: nat)
    requires n < |Plan(cfg)| && k < |FramesOf(cfg, n)|
    ensures var f := Plan(cfg)[n];
            var pieces := Pieces(cfg, f);
            && |FramesOf(cfg, n)| == |pieces| + 2
            && FramesOf(cfg, n)[k..][0]
               == (if k == 0 then Control(FileBegin(f.path, f.size, f.mode))
                   else if k <= |pieces| then Chunk(pieces[k - 1])
                   else Control(FileEnd(cfg.h(Content(pieces)))))
            && FramesOf(cfg, n)[k..][1..] == FramesOf(cfg, n)[k + 1..]
  {
    hide Plan, Content, Pieces;
  }

  /** The receiver reads the header or a piece. */
  lemma ReadsPiece(cfg: Config, sys: System, n: nat, again: bool, k: nat, w: Weather)
    requires Scanned(cfg) && AtSending(cfg, sys, n, again, k) && k + 1 < |FramesOf(cfg, n)|
    ensures var next := ReceiverMoved(cfg, sys, w);
            if (if k == 0 then w.createFails else w.writeFails) then AtDropped(cfg, next, false, false)
            else AtSending(cfg, next, n, again, k + 1)
  {
    var frame := FramesOf(cfg, n)[k..][0];
    var e := Step(cfg.h, sys.r, Got(frame), w);
    FrameAt(cfg, n, k);
    if k == 0 {
      BeginStep(cfg, sys.r, n, w);
    } else {
      ChunkStep(cfg, sys.r, n, k, w);
    }
    assert sys.toS + [] == sys.toS;
    hide Step, Plan, FramesOf, MidFile, Spent, SafeSource, ReceiverMoved, SenderSummary, Deletes, Scanned;
    MovedBy(cfg, sys, w, frame, e);
  }

  /** The receiver reads the end of a file and answers. */
  lemma ReadsEnd(cfg: Config, sys: System, n: nat, again: bool, w: Weather)
    requires Scanned(cfg) && n < |Plan(cfg)| && AtSending(cfg, sys, n, again, |FramesOf(cfg, n)| - 1)
    ensures AtJudged(cfg, ReceiverMoved(cfg, sys, w), n, again, !(w.flushFails || w.renameFails))
  {
    var k := |FramesOf(cfg, n)| - 1;
    var frame := FramesOf(cfg, n)[k..][0];
    var e := Step(cfg.h, sys.r, Got(frame), w);
    FrameAt(cfg, n, k);
    EndStep(cfg, sys.r, n, w);
    assert FramesOf(cfg, n)[k + 1..] == [];
    assert sys.toS + e.out == e.out;
    hide Step, Plan, FramesOf, Between, Spent, SafeSource, ReceiverMoved, SenderSummary, Deletes, Scanned;
    MovedBy(cfg, sys, w, frame, e);
  }

  // ---- the closing --------------------------------------------------------------------------------------------------

  lemma ClosingIs(cfg: Config)
    ensures |Closing(cfg)| == if Deletes(cfg) == [] then 1 else 2
    ensures Deletes(cfg) != [] ==> Closing(cfg)[0] == Control(Delete(Deletes(cfg)))
    ensures var last := Closing(cfg)[|Closing(cfg)| - 1];
            last.Control? && last.c.Done? && last.c.skipped == SenderSummary(cfg, |Plan(cfg)|).skipped
    ensures forall s: Sender :: s == SenderAt(cfg, s.phase, |Plan(cfg)|, s.retried) ==> ClosingFrames(s) == Closing(cfg)
  {
    hide Plan, Deletes, BytesOf;
  }

  lemma MirroredWithoutDeletes(cfg: Config, fs: Files, stuck: set<string>)
    requires Landed(cfg, fs, |Plan(cfg)|) && Deletes(cfg) == []
    ensures Mirrored(cfg, fs, stuck) && DeletedCount(cfg, stuck) == 0
  {
    hide Plan, Deletes, Holding, IsPart, Prunes;
  }

  /** The sender is about to send file `n`, and nothing is on the way. */
  ghost predicate AboutToSend(cfg: Config, sys: System, n: nat) {
    && SafeSource(cfg) && n <= |Plan(cfg)| && Between(cfg, sys.r, n) && sys.r.current == None
    && sys.s == SenderAt(cfg, sys.s.phase, n, sys.s.retried)
    && (forall p :: p in sys.s.retried ==> p in PathsOf(Plan(cfg)[..n]))
    && sys.toR == [] && sys.toS == []
  }

  function SendsNext(cfg: Config, sys: System, n: nat): System
    requires n <= |sys.s.plan|
  {
    var e := SendFile(cfg.h, cfg.src, sys.s, n);
    System(e.s, sys.r, e.out, [])
  }

  lemma StartsFile(cfg: Config, sys: System, n: nat)
    requires Scanned(cfg) && AboutToSend(cfg, sys, n) && n < |Plan(cfg)|
    ensures AtSending(cfg, SendsNext(cfg, sys, n), n, false, 0)
  {
    PlannedFile(cfg, n);
    FrameAt(cfg, n, 0);
    assert FramesOf(cfg, n)[0..] == FramesOf(cfg, n) == SendFile(cfg.h, cfg.src, sys.s, n).out;
    hide Plan, Deletes, FramesOf, SafeSource, Between, SenderSummary, FileFrames, PathsOf, Scanned, Content;
  }

  lemma StartsClosing(cfg: Config, sys: System)
    requires AboutToSend(cfg, sys, |Plan(cfg)|)
    ensures AtClose(cfg, SendsNext(cfg, sys, |Plan(cfg)|), 0, {})
  {
    ClosingIs(cfg);
    if Deletes(cfg) == [] {
      MirroredWithoutDeletes(cfg, sys.r.fs, {});
    }
    assert Closing(cfg)[0..] == Closing(cfg);
    hide Plan, Deletes, SafeSource, SenderSummary, ClosingFrames, Closing, Landed, Mirrored, PathFault;
  }

  /** Where sending file `n`, or closing when there is none, leads. */
  ghost function NextStage(cfg: Config, n: nat): Stage {
    if n < |Plan(cfg)| then Sending(n, false, 0) else Close(0, {})
  }

  lemma EntersFile(cfg: Config, sys: System, n: nat)
    requires Scanned(cfg) && AboutToSend(cfg, sys, n)
    ensures At(cfg, SendsNext(cfg, sys, n), NextStage(cfg, n))
  {
    hide *;
    NextStageIs(cfg, n);
    AboutIsWithin(cfg, sys, n);
    if n < |Plan(cfg)| {
      StartsFile(cfg, sys, n);
      AtSendingIsAt(cfg, SendsNext(cfg, sys, n), n, false, 0);
    } else {
      StartsClosing(cfg, sys);
      AtCloseIsAt(cfg, SendsNext(cfg, sys, n), 0, {});
    }
  }

  lemma NextStageIs(cfg: Config, n: nat)
    ensures NextStage(cfg, n) == if n < |Plan(cfg)| then Sending(n, false, 0) else Close(0, {})
  {
    hide Plan;
  }

  lemma AboutIsWithin(cfg: Config, sys: System, n: nat)
    requires AboutToSend(cfg, sys, n)
    ensures n <= |Plan(cfg)| && n <= |sys.s.plan|
  {
    hide Plan, Between, Deletes, SenderSummary, SafeSource, PathsOf;
  }

  lemma AtSendingIsAt(cfg: Config, sys: System, n: nat, again: bool, k: nat)
    requires AtSending(cfg, sys, n, again, k)
    ensures At(cfg, sys, Sending(n, again, k))
  {
    hide AtSending;
  }

  lemma AtCloseIsAt(cfg: Config, sys: System, k: nat, stuck: set<string>)
    requires AtClose(cfg, sys, k, stuck)
    ensures At(cfg, sys, Close(k, stuck))
  {
    hide AtClose;
  }

  // ---- the sender hears the rest -----------------------------------------------------------------------------------

  lemma GreetedIsBetween(cfg: Config)
    requires SafeUpTo(cfg, OpeningLength(cfg))
    ensures var r := ReceiverGreeted(cfg, OpeningLength(cfg));
            SafeSource(cfg) && Between(cfg, r, 0) && r.current == None
  {
    var b := Batches(cfg.manifest);
    assert b[..|b|] == b;
    BatchesAreSafeIff(cfg.manifest);
    FoldingIsLossless(Engine0(cfg), cfg.manifest, |b|);
    BatchesAreLossless(cfg.manifest);
    LandedStart(cfg);
    hide Batches, AllSafe, SafeCount, FoldManifest, PathsOf, Held, Plan, Landed, Real;
  }

  lemma AckEffect(h: Hash, src: Source, s: Sender, held: seq<PathHash>, more: bool)
    requires s.phase.AwaitAck?
    ensures SStep(h, src, s, Got(Control(ManifestAck(held, more))))
            == Listened(h, src, s, s.phase.gotHello, !more, s.phase.acks + held)
  {
    hide Listened;
  }

  lemma DiffedIs(cfg: Config, s: Sender)
    requires s == NewSender(cfg.manifest).(phase := s.phase)
    ensures Diffed(s, Held(cfg)) == SenderAt(cfg, s.phase, 0, {})
  {
    hide Held, PlanOf, RemoteMap, DeletesOf;
  }

  /** The answers so far, as the sender keeps them before the last one. */
  lemma AcksKept(cfg: Config)
    requires AnswerLength(cfg) >= 2
    ensures var s := SenderGreeted(cfg, AnswerLength(cfg) - 1);
            var b := Batches(Held(cfg));
            && s.phase.AwaitAck? && s.phase.gotHello && !b[|b| - 1].more
            && s.phase.acks + b[|b| - 1].items == Held(cfg)
            && s == NewSender(cfg.manifest).(phase := s.phase)
  {
    var b := Batches(Held(cfg));
    AcksGrow(cfg, |b|);
    assert b[..|b|] == b;
    hide Batches, Held, Unbatched;
  }

  lemma LastAckEffect(cfg: Config)
    requires AnswerLength(cfg) >= 2
    ensures var s := SenderGreeted(cfg, AnswerLength(cfg) - 1);
            var diffed := Diffed(s, Held(cfg));
            && InPlan(s)
            && SStep(cfg.h, cfg.src, s, Got(Control(AckFrame(cfg, AnswerLength(cfg) - 1))))
               == SendFile(cfg.h, cfg.src, diffed, 0)
  {
    var s := SenderGreeted(cfg, AnswerLength(cfg) - 1);
    var ack := AckFrame(cfg, AnswerLength(cfg) - 1);
    AcksKept(cfg);
    AckEffect(cfg.h, cfg.src, s, ack.held, ack.more);
    hide Batches, Held, Unbatched, SendFile, SenderGreeted, SenderAt, SStep, Diffed;
  }

  lemma GreetingEnds(cfg: Config, sys: System)
    requires AtGreet(cfg, sys, OpeningLength(cfg), AnswerLength(cfg) - 1) && AnswerLength(cfg) >= 2
    ensures sys == System(SenderGreeted(cfg, AnswerLength(cfg) - 1), ReceiverGreeted(cfg, OpeningLength(cfg)), [],
                          [AckFrame(cfg, AnswerLength(cfg) - 1)])
    ensures SafeUpTo(cfg, OpeningLength(cfg))
  {
    hide *;
    FromGreet(cfg, sys, OpeningLength(cfg), AnswerLength(cfg) - 1);
    AnswersTail(cfg, AnswerLength(cfg) - 1);
    assert sys.toS == [AckFrame(cfg, AnswerLength(cfg) - 1)] && sys.toR == [];
  }

  /** What the sender is after the last answer: it has diffed, and nothing is on the way. */
  ghost function AfterGreeting(cfg: Config): System {
    var s := if AnswerLength(cfg) >= 1 then SenderGreeted(cfg, AnswerLength(cfg) - 1) else NewSender(cfg.manifest);
    System(Diffed(s, Held(cfg)), ReceiverGreeted(cfg, OpeningLength(cfg)), [], [])
  }

  lemma ReadyAfterGreeting(cfg: Config)
    requires SafeUpTo(cfg, OpeningLength(cfg)) && AnswerLength(cfg) >= 2
    ensures AboutToSend(cfg, AfterGreeting(cfg), 0)
  {
    GreetedIsBetween(cfg);
    AcksKept(cfg);
    DiffedIs(cfg, SenderGreeted(cfg, AnswerLength(cfg) - 1));
    hide Batches, Held, Plan, Deletes, SafeSource, Between, ReceiverGreeted, SenderGreeted, SenderSummary, Diffed;
  }

  lemma AfterGreetingIs(cfg: Config)
    requires AnswerLength(cfg) >= 1
    ensures AfterGreeting(cfg) == System(Diffed(SenderGreeted(cfg, AnswerLength(cfg) - 1), Held(cfg)),
                                         ReceiverGreeted(cfg, OpeningLength(cfg)), [], [])
  {
  }

  lemma SendsNextIs(cfg: Config, sys: System, e: SEffect)
    requires |sys.s.plan| >= 0 && e == SendFile(cfg.h, cfg.src, sys.s, 0)
    ensures SendsNext(cfg, sys, 0) == System(e.s, sys.r, e.out, [])
  {
  }

  lemma LastAckMove(cfg: Config, sys: System)
    requires AtGreet(cfg, sys, OpeningLength(cfg), AnswerLength(cfg) - 1) && AnswerLength(cfg) >= 2
    ensures AboutToSend(cfg, AfterGreeting(cfg), 0)
    ensures InPlan(sys.s) && SenderMoved(cfg, sys) == SendsNext(cfg, AfterGreeting(cfg), 0)
  {
    hide *;
    var after := AfterGreeting(cfg);
    AfterGreetingIs(cfg);
    GreetingEnds(cfg, sys);
    LastAckEffect(cfg);
    ReadyAfterGreeting(cfg);
    var e := SendFile(cfg.h, cfg.src, after.s, 0);
    MovedOn(cfg, sys, AckFrame(cfg, AnswerLength(cfg) - 1), e);
    assert [] + e.out == e.out;
    SendsNextIs(cfg, after, e);
  }

  /** The last of the receiver's answers: the sender diffs and starts. */
  lemma HearsLastAck(cfg: Config, sys: System)
    requires Scanned(cfg) && AtGreet(cfg, sys, OpeningLength(cfg), AnswerLength(cfg) - 1) && AnswerLength(cfg) >= 2
    ensures InPlan(sys.s) && At(cfg, SenderMoved(cfg, sys), NextStage(cfg, 0))
  {
    hide *;
    LastAckMove(cfg, sys);
    EntersFile(cfg, AfterGreeting(cfg), 0);
  }

  lemma HearsOk(cfg: Config, sys: System, n: nat, again: bool)
    requires Scanned(cfg) && AtJudged(cfg, sys, n, again, true)
    ensures At(cfg, SenderMoved(cfg, sys), NextStage(cfg, n + 1))
  {
    hide *;
    var still := OkReceived(cfg, sys, n, again);
    EntersFile(cfg, still, n + 1);
  }

  /** The sender after a success, before it goes on. */
  lemma OkReceived(cfg: Config, sys: System, n: nat, again: bool) returns (still: System)
    requires Scanned(cfg) && AtJudged(cfg, sys, n, again, true)
    ensures AboutToSend(cfg, still, n + 1) && InPlan(sys.s) && n + 1 <= |still.s.plan|
    ensures SenderMoved(cfg, sys) == SendsNext(cfg, still, n + 1)
  {
    var path := Plan(cfg)[n].path;
    PlannedFile(cfg, n);
    var sent := |Content(Pieces(cfg, Plan(cfg)[n]))|;
    var t := sys.s.(summary := sys.s.summary.(filesSent := n + 1, bytes := sys.s.summary.bytes + sent));
    assert t == SenderAt(cfg, t.phase, n + 1, t.retried);
    still := System(t, sys.r, [], []);
    assert sys.toS == [FileOk(path)] && sys.toS[1..] == [];
    hide Plan, SendFile, Between, SafeSource, PathsOf, Scanned, SenderSummary, Content, Deletes, SenderMoved;
    var e := SendFile(cfg.h, cfg.src, t, n + 1);
    MovedOn(cfg, sys, FileOk(path), e);
    assert [] + e.out == e.out;
  }

  /** The first failure of a file: it is sent once more. */
  lemma HearsFail(cfg: Config, sys: System, n: nat)
    requires Scanned(cfg) && AtJudged(cfg, sys, n, false, false)
    ensures AtSending(cfg, SenderMoved(cfg, sys), n, true, 0)
  {
    var f := Plan(cfg)[n];
    PlannedFile(cfg, n);
    FrameAt(cfg, n, 0);
    var t := sys.s.(retried := sys.s.retried + {f.path});
    var e := SEffect(t, FramesOf(cfg, n));
    assert FramesOf(cfg, n)[0..] == FramesOf(cfg, n) && [] + FramesOf(cfg, n) == FramesOf(cfg, n);
    assert SendFile(cfg.h, cfg.src, t, n) == e;
    assert sys.toS == [FileFail(f.path, sys.toS[0].reason)] && sys.toS[1..] == [];
    hide Plan, SendFile, Between, SafeSource, PathsOf, Scanned, SenderSummary, Deletes, FramesOf;
    MovedOn(cfg, sys, sys.toS[0], e);
  }

  /** The second failure: the run is given up. */
  lemma HearsFailAgain(cfg: Config, sys: System, n: nat)
    requires AtJudged(cfg, sys, n, true, false)
    ensures AtGivenUp(SenderMoved(cfg, sys))
  {
    hide Plan, SendFile, Landed, SafeSource, PathsOf, SenderSummary, Deletes, Engine;
  }

  // ---- the closing frames ------------------------------------------------------------------------------------------

  lemma DeleteLeaves(cfg: Config, fs: Files, stuck: set<string>)
    requires Landed(cfg, fs, |Plan(cfg)|)
    ensures Prunes(cfg) ==> Mirrored(cfg, PrunedFiles(fs, Deletes(cfg), stuck), stuck)
    ensures !Prunes(cfg) ==> Mirrored(cfg, fs, stuck)
  {
    var after := if Prunes(cfg) then PrunedFiles(fs, Deletes(cfg), stuck) else fs;
    hide Plan, Deletes, IsPart, Prunes, Content, PathsOf;
    forall p: string | !IsPart(p)
      ensures Settled(cfg, after, stuck, p)
    {
      assert Holding(cfg, fs, |Plan(cfg)|, p);
    }
  }

  /** Every stale file is still there when the list arrives, so each one that can be removed counts. */
  lemma DeletesCounted(cfg: Config, fs: Files, stuck: set<string>)
    requires Landed(cfg, fs, |Plan(cfg)|)
    ensures |fs| - |PrunedFiles(fs, Deletes(cfg), stuck)| == |Gone(Deletes(cfg), stuck)|
  {
    var gone := Gone(Deletes(cfg), stuck);
    forall p | p in gone
      ensures p in fs
    {
      StaleIsThere(cfg, fs, p);
    }
    hide Deletes, Gone, Landed, Plan;
    assert (fs - gone).Keys == fs.Keys - gone;
    assert gone <= fs.Keys && |fs.Keys - gone| == |fs.Keys| - |gone|;
    assert |fs| == |fs.Keys| && |fs - gone| == |(fs - gone).Keys|;
  }

  lemma StaleIsThere(cfg: Config, fs: Files, p: string)
    requires Landed(cfg, fs, |Plan(cfg)|) && p in Deletes(cfg)
    ensures p in fs
  {
    DeletesAreTheStale(Held(cfg), cfg.manifest);
    ListingIs(cfg.h, cfg.dest);
    hide DeletesOf, Listing, RemoteMap, IsPart, PlanOf, Content;
    assert Holding(cfg, fs, |Plan(cfg)|, p);
  }

  lemma PrunesWhenDecided(cfg: Config)
    requires AllAccepted(Deletes(cfg))
    ensures Decide(Engine(cfg), Deletes(cfg)).Ok?
    ensures Prunes(cfg) <==> Decide(Engine(cfg), Deletes(cfg)).value.Prune?
    ensures Prunes(cfg) ==> Decide(Engine(cfg), Deletes(cfg)).value.paths == Deletes(cfg)
  {
    PrunesIff(Engine(cfg), Deletes(cfg));
    assert PathsOf(cfg.manifest) != {} <==> cfg.manifest != [] by {
      if cfg.manifest != [] {
        assert cfg.manifest[0].path in PathsOf(cfg.manifest);
      }
    }
    hide Deletes, Held, AllAccepted, Decide, PathsOf;
  }

  lemma DeleteEffect(h: Hash, r: Receiver, paths: seq<string>, w: Weather)
    requires r.phase.Running?
    ensures Step(h, r, Got(Control(Delete(paths))), w) == OnDelete(r, paths, w)
  {
    hide OnDelete;
  }

  lemma DeleteRefused(r: Receiver, paths: seq<string>, w: Weather)
    requires !AllAccepted(paths)
    ensures var e := OnDelete(r, paths, w);
            e.r.phase.Broken? && Foreseen(e.r.phase.error) && |e.out| == 1 && e.out[0].Abort?
  {
    FirstRefusedIff(paths);
    hide AllAccepted, FirstRefused;
  }

  lemma DeleteStep(cfg: Config, r: Receiver, w: Weather)
    requires Between(cfg, r, |Plan(cfg)|) && r.current == None
    ensures var e := Step(cfg.h, r, Got(Control(Delete(Deletes(cfg)))), w);
            if AllAccepted(Deletes(cfg)) then Finishing(cfg, e.r, w.stuck) && e.r.phase == Running && e.out == []
            else e.r.phase.Broken? && Foreseen(e.r.phase.error) && |e.out| == 1 && e.out[0].Abort?
  {
    BetweenMeans(cfg, r, |Plan(cfg)|);
    hide *;
    DeleteEffect(cfg.h, r, Deletes(cfg), w);
    if AllAccepted(Deletes(cfg)) {
      DeleteDone(cfg, r, w);
    } else {
      DeleteRefused(r, Deletes(cfg), w);
    }
  }

  lemma BetweenMeans(cfg: Config, r: Receiver, n: nat)
    requires n <= |Plan(cfg)| && Between(cfg, r, n)
    ensures r.phase.Running? && r.opts == cfg.opts && r.engine == Engine(cfg) && Landed(cfg, r.fs, n)
    ensures r.summary.filesSent == n && r.summary.bytes == BytesOf(cfg, n) && r.summary.deleted == 0
  {
    hide Plan, Engine, BytesOf, Landed;
  }

  lemma DeleteDone(cfg: Config, r: Receiver, w: Weather)
    requires Between(cfg, r, |Plan(cfg)|) && r.current == None && AllAccepted(Deletes(cfg))
    ensures var e := OnDelete(r, Deletes(cfg), w);
            Finishing(cfg, e.r, w.stuck) && e.r.phase == Running && e.out == []
  {
    BetweenMeans(cfg, r, |Plan(cfg)|);
    PrunesWhenDecided(cfg);
    DeleteLeaves(cfg, r.fs, w.stuck);
    DeletesCounted(cfg, r.fs, w.stuck);
    hide Plan, Deletes, AllAccepted, Decide, Landed, Mirrored, Prunes, Engine, PrunedFiles, BytesOf, Gone, Between;
  }

  lemma DoneStep(h: Hash, cfg: Config, r: Receiver, frame: Frame, stuck: set<string>, w: Weather)
    requires Finishing(cfg, r, stuck) && r.phase == Running && frame.Control? && frame.c.Done?
    requires frame.c.skipped == SenderSummary(cfg, |Plan(cfg)|).skipped
    ensures var e := Step(h, r, Got(frame), w);
            Finishing(cfg, e.r, stuck) && e.r.phase == Finished && e.out == [Receipt(cfg, stuck)]
  {
    hide Plan, Deletes, Mirrored, Engine, BytesOf, OnManifestFrame, OnFileBegin, OnFileEnd, OnChunk, OnDelete;
  }

  lemma DeleteMove(cfg: Config, sys: System, stuck: set<string>, w: Weather)
    requires AtClose(cfg, sys, 0, stuck) && |Closing(cfg)| == 2
    ensures var e := Step(cfg.h, sys.r, Got(Control(Delete(Deletes(cfg)))), w);
            ReceiverMoved(cfg, sys, w) == System(sys.s, e.r, Closing(cfg)[1..], e.out)
  {
    var frame := Control(Delete(Deletes(cfg)));
    var e := Step(cfg.h, sys.r, Got(frame), w);
    ClosingIs(cfg);
    assert sys.toR[0] == frame && sys.toR[1..] == Closing(cfg)[1..];
    assert sys.toS + e.out == e.out;
    MovedBy(cfg, sys, w, frame, e);
    hide Step, Plan, Closing, Deletes, Between, Finishing, SafeSource, AllAccepted, SenderAt, ReceiverMoved, Scanned;
  }

  lemma FromClose(cfg: Config, sys: System, stuck: set<string>)
    requires AtClose(cfg, sys, 0, stuck) && |Closing(cfg)| == 2
    ensures SafeSource(cfg) && Between(cfg, sys.r, |Plan(cfg)|) && sys.r.current == None
    ensures sys.s == SenderAt(cfg, AwaitDone, |Plan(cfg)|, sys.s.retried) && InPlan(sys.s) && !SenderDone(sys.s)
  {
    hide Plan, Closing, Deletes, Between, Finishing, SafeSource, AllAccepted, SenderSummary;
  }

  lemma ToClose(cfg: Config, sys: System, stuck: set<string>)
    requires SafeSource(cfg) && |Closing(cfg)| == 2 && AllAccepted(Deletes(cfg))
    requires sys.s == SenderAt(cfg, AwaitDone, |Plan(cfg)|, sys.s.retried)
    requires sys.toR == Closing(cfg)[1..] && sys.toS == []
    requires Finishing(cfg, sys.r, stuck) && sys.r.phase == Running
    ensures AtClose(cfg, sys, 1, stuck)
  {
    hide Plan, Closing, Deletes, Between, Finishing, SafeSource, AllAccepted, SenderSummary;
  }

  lemma ToDropped(cfg: Config, sys: System)
    requires sys.r.phase.Broken? && Foreseen(sys.r.phase.error) && InPlan(sys.s) && !SenderDone(sys.s)
    requires |sys.toS| == 1 && sys.toS[0].Abort?
    ensures AtDropped(cfg, sys, false, true)
  {
  }

  lemma ReadsDelete(cfg: Config, sys: System, stuck: set<string>, w: Weather)
    requires AtClose(cfg, sys, 0, stuck) && |Closing(cfg)| == 2
    ensures var next := ReceiverMoved(cfg, sys, w);
            if AllAccepted(Deletes(cfg)) then AtClose(cfg, next, 1, w.stuck) else AtDropped(cfg, next, false, true)
  {
    hide *;
    FromClose(cfg, sys, stuck);
    DeleteMove(cfg, sys, stuck, w);
    DeleteStep(cfg, sys.r, w);
    if AllAccepted(Deletes(cfg)) {
      ToClose(cfg, ReceiverMoved(cfg, sys, w), w.stuck);
    } else {
      ToDropped(cfg, ReceiverMoved(cfg, sys, w));
    }
  }

  /** The receiver is about to read the last closing frame. */
  ghost predicate BeforeDone(cfg: Config, sys: System, k: nat, stuck: set<string>) {
    && SafeSource(cfg) && AllAccepted(Deletes(cfg)) && Finishing(cfg, sys.r, stuck) && sys.r.phase == Running
    && sys.s == SenderAt(cfg, AwaitDone, |Plan(cfg)|, sys.s.retried)
    && k + 1 == |Closing(cfg)| && sys.toR == Closing(cfg)[k..] && sys.toS == []
  }

  lemma FromBeforeDone(cfg: Config, sys: System, k: nat, stuck: set<string>)
    requires AtClose(cfg, sys, k, stuck) && k + 1 == |Closing(cfg)|
    ensures BeforeDone(cfg, sys, k, stuck)
  {
    hide Plan, Closing, Deletes, Between, Finishing, SafeSource, AllAccepted, SenderAt, Receipt;
  }

  lemma ToDone(cfg: Config, sys: System, next: System, k: nat, stuck: set<string>)
    requires BeforeDone(cfg, sys, k, stuck) && next.s == sys.s && next.toR == [] && next.toS == [Receipt(cfg, stuck)]
    requires Finishing(cfg, next.r, stuck) && next.r.phase == Finished
    ensures AtClose(cfg, next, k + 1, stuck)
  {
    hide Plan, Closing, Deletes, Between, Finishing, SafeSource, AllAccepted, SenderAt, Receipt;
  }

  lemma DoneOnTheWay(cfg: Config, sys: System, k: nat, stuck: set<string>)
    requires BeforeDone(cfg, sys, k, stuck)
    ensures k < |Closing(cfg)| && sys.toR == [Closing(cfg)[k]] && sys.toS == []
    ensures Finishing(cfg, sys.r, stuck) && sys.r.phase == Running
  {
    hide Plan, Closing, Deletes, Finishing, SafeSource, AllAccepted, SenderAt;
  }

  lemma LastClosing(cfg: Config, k: nat)
    requires k + 1 == |Closing(cfg)|
    ensures var frame := Closing(cfg)[k];
            frame.Control? && frame.c.Done? && frame.c.skipped == SenderSummary(cfg, |Plan(cfg)|).skipped
  {
    ClosingIs(cfg);
    hide Plan, Closing, Deletes, SenderSummary;
  }

  lemma ReadsDone(cfg: Config, sys: System, k: nat, stuck: set<string>, w: Weather)
    requires AtClose(cfg, sys, k, stuck) && k + 1 == |Closing(cfg)|
    ensures AtClose(cfg, ReceiverMoved(cfg, sys, w), k + 1, stuck)
  {
    hide *;
    var frame := Closing(cfg)[k];
    var e := Step(cfg.h, sys.r, Got(frame), w);
    FromBeforeDone(cfg, sys, k, stuck);
    DoneOnTheWay(cfg, sys, k, stuck);
    LastClosing(cfg, k);
    DoneStep(cfg.h, cfg, sys.r, frame, stuck, w);
    MovedBy(cfg, sys, w, frame, e);
    assert sys.toR[1..] == [] && sys.toS + e.out == e.out;
    ToDone(cfg, sys, ReceiverMoved(cfg, sys, w), k, stuck);
  }

  lemma HearsDone(cfg: Config, sys: System, stuck: set<string>)
    requires AtClose(cfg, sys, |Closing(cfg)|, stuck)
    ensures AtSuccess(cfg, SenderMoved(cfg, sys), stuck)
  {
    ClosingIs(cfg);
    PlanSize(cfg);
    hide Plan, Closing, Deletes, Finishing, SafeSource, AllAccepted, BytesOf;
  }

  lemma PlanSize(cfg: Config)
    ensures |Plan(cfg)| <= |cfg.manifest|
  {
    PlanMembers(cfg.manifest, RemoteMap(Held(cfg)), FileEntry("", 0, 0, ""));
  }

  // ---- failures reach both sides ------------------------------------------------------------------------------------

  lemma HearsDropped(cfg: Config, sys: System, hello: bool, aborted: bool)
    requires AtDropped(cfg, sys, hello, aborted)
    ensures if hello then AtDropped(cfg, SenderMoved(cfg, sys), false, aborted) else AtFailure(SenderMoved(cfg, sys))
  {
    hide SendFile, Diffed;
    if aborted {
      assert sys.toS[|sys.toS| - 1].Abort?;
    }
  }

  lemma ReadsAbort(cfg: Config, sys: System, w: Weather)
    requires AtGivenUp(sys)
    ensures AtFailure(ReceiverMoved(cfg, sys, w))
  {
    hide OnManifestFrame, OnFileBegin, OnFileEnd, OnChunk, OnDelete, OnHello;
  }

  // ---- every move ---------------------------------------------------------------------------------------------------

  /** Nothing is refused during a step that touches a file. */
  predicate Calm(w: Weather) {
    && !w.rootBlocked && !w.createFails && !w.scanFails && !w.writeFails && !w.flushFails && !w.renameFails
    && w.stuck == {}
  }

  /** Every name either side holds is one the receiver accepts. */
  ghost predicate SafeNames(cfg: Config) {
    SafeSource(cfg) && AllAccepted(Deletes(cfg))
  }

  ghost predicate Leads(cfg: Config, st: Stage, to: Stage) {
    Bounded(cfg, st) && Bounded(cfg, to) && Rank(cfg, to) < Rank(cfg, st)
  }

  lemma GreetReceiver(cfg: Config, sys: System, i: nat, j: nat, w: Weather) returns (st: Stage)
    requires Scanned(cfg) && AtGreet(cfg, sys, i, j) && CanReceive(sys)
    ensures At(cfg, ReceiverMoved(cfg, sys, w), st)
    ensures st == Greet(i + 1, j) || st.Dropped?
    ensures i < OpeningLength(cfg) && j < AnswerLength(cfg)
    ensures Calm(w) && SafeSource(cfg) ==> st == Greet(i + 1, j)
  {
    hide *;
    FromGreetCount(cfg, sys, i, j);
    if i == 0 {
      st := HelloReceiver(cfg, sys, w);
    } else {
      SafeSourceMeans(cfg, i);
      if BatchIsSafe(cfg, i) {
        ReadsSafeBatch(cfg, sys, i, j, w);
        st := Greet(i + 1, j);
        AtGreetIsAt(cfg, ReceiverMoved(cfg, sys, w), i + 1, j);
      } else {
        RefusesBatch(cfg, sys, i, j, w);
        st := Dropped(j == 0, true);
        AtDroppedIsAt(cfg, ReceiverMoved(cfg, sys, w), j == 0, true);
      }
    }
  }

  lemma HelloReceiver(cfg: Config, sys: System, w: Weather) returns (st: Stage)
    requires Scanned(cfg) && AtGreet(cfg, sys, 0, 0)
    ensures At(cfg, ReceiverMoved(cfg, sys, w), st)
    ensures st == Greet(1, 0) || st.Dropped?
    ensures Calm(w) ==> st == Greet(1, 0)
  {
    hide AtGreet, AtDropped, ReceiverMoved, Scanned;
    ReadsHello(cfg, sys, w);
    st := if w.rootBlocked then Dropped(false, true)
          else if Unready(cfg, w) then Dropped(false, false) else Greet(1, 0);
  }

  lemma AtGreetIsAt(cfg: Config, sys: System, i: nat, j: nat)
    requires AtGreet(cfg, sys, i, j)
    ensures At(cfg, sys, Greet(i, j))
  {
    hide AtGreet;
  }

  lemma AtDroppedIsAt(cfg: Config, sys: System, hello: bool, aborted: bool)
    requires AtDropped(cfg, sys, hello, aborted)
    ensures At(cfg, sys, Dropped(hello, aborted))
  {
    hide AtDropped;
  }

  lemma FromGreetCount(cfg: Config, sys: System, i: nat, j: nat)
    requires AtGreet(cfg, sys, i, j)
    ensures i <= OpeningLength(cfg) && j < AnswerLength(cfg)
    ensures CanReceive(sys) ==> i < OpeningLength(cfg)
    ensures i == 0 ==> j == 0
    ensures CanSend(sys) ==> i >= 1 && (j == 0 || i == OpeningLength(cfg)) && InPlan(sys.s)
  {
    FromGreet(cfg, sys, i, j);
    hide AtGreet, Greeting, OpeningLength, AnswerLength, SenderGreeted, ReceiverGreeted, AckFrames;
  }

  lemma SafeSourceMeans(cfg: Config, i: nat)
    requires 1 <= i < OpeningLength(cfg)
    ensures SafeSource(cfg) ==> BatchIsSafe(cfg, i)
  {
    BatchesAreSafeIff(cfg.manifest);
    hide Batches, SafeBatch, SafeCount;
  }

  lemma GreetSender(cfg: Config, sys: System, i: nat, j: nat) returns (st: Stage)
    requires Scanned(cfg) && AtGreet(cfg, sys, i, j) && CanSend(sys)
    ensures InPlan(sys.s) && At(cfg, SenderMoved(cfg, sys), st)
    ensures i <= OpeningLength(cfg) && j < AnswerLength(cfg)
    ensures if j + 1 < AnswerLength(cfg) then st == Greet(i, j + 1) else st == NextStage(cfg, 0)
  {
    hide *;
    FromGreetCount(cfg, sys, i, j);
    AnswersAreTwo(cfg);
    if j == 0 {
      HearsHello(cfg, sys, i);
      st := Greet(i, 1);
      AtGreetIsAt(cfg, SenderMoved(cfg, sys), i, 1);
    } else if j + 1 < AnswerLength(cfg) {
      HearsAck(cfg, sys, j);
      st := Greet(i, j + 1);
      AtGreetIsAt(cfg, SenderMoved(cfg, sys), i, j + 1);
    } else {
      HearsLastAck(cfg, sys);
      st := NextStage(cfg, 0);
    }
  }

  lemma AnswersAreTwo(cfg: Config)
    ensures AnswerLength(cfg) >= 2
  {
    BatchesAreLossless(Held(cfg));
    hide Batches, Held;
  }

  predicate Unstuck(st: Stage) {
    (st.Close? || st.Succeeded?) ==> st.stuck == {}
  }

  /** In calm weather a run among safe names does not start to fail. */
  ghost predicate StaysWell(cfg: Config, st: Stage, to: Stage, calm: bool) {
    calm && SafeNames(cfg) && !Failing(st) && Unstuck(st) && (st.Judged? ==> st.ok) ==>
      !Failing(to) && Unstuck(to) && (to.Judged? ==> to.ok)
  }

  /** Where a move of the receiver leads. */
  ghost predicate ReceiverFollows(cfg: Config, st: Stage, to: Stage) {
    match st
    case Greet(i, j) => to == Greet(i + 1, j) || to.Dropped?
    case Sending(n, again, k) =>
      to == Sending(n, again, k + 1) || to.Dropped? || (to.Judged? && to.n == n && to.again == again)
    case Close(k, _) => (to.Close? && to.k == k + 1) || to.Dropped?
    case _ => to == FailedBoth
  }

  /** Where a move of the sender leads. */
  ghost predicate SenderFollows(cfg: Config, st: Stage, to: Stage) {
    match st
    case Greet(i, j) => if j + 1 < AnswerLength(cfg) then to == Greet(i, j + 1) else to == NextStage(cfg, 0)
    case Judged(n, again, ok) =>
      to == if ok then NextStage(cfg, n + 1) else if again then GivenUp else Sending(n, true, 0)
    case Close(_, stuck) => to == Succeeded(stuck)
    case Dropped(hello, aborted) => to == if hello then Dropped(false, aborted) else FailedBoth
    case _ => false
  }

  lemma FileFrameCount(cfg: Config, n: nat)
    requires n < |Plan(cfg)|
    ensures |FramesOf(cfg, n)| == |Pieces(cfg, Plan(cfg)[n])| + 2
  {
    FrameAt(cfg, n, 0);
  }

  lemma RestStep(cfg: Config, n: nat)
    requires n < |Plan(cfg)|
    ensures Rest(cfg, n) == 2 * (|FramesOf(cfg, n)| + 2) + Rest(cfg, n + 1)
  {
  }

  lemma SendingBounds(cfg: Config, sys: System, n: nat, again: bool, k: nat)
    requires AtSending(cfg, sys, n, again, k)
    ensures n < |Plan(cfg)| && k < |FramesOf(cfg, n)|
  {
    hide Plan, FramesOf, MidFile, Spent, SafeSource, SenderSummary, Deletes;
  }

  lemma SendingReceiver(cfg: Config, sys: System, n: nat, again: bool, k: nat, w: Weather) returns (to: Stage)
    requires Scanned(cfg) && AtSending(cfg, sys, n, again, k)
    ensures At(cfg, ReceiverMoved(cfg, sys, w), to)
    ensures n < |Plan(cfg)| && k < |FramesOf(cfg, n)|
    ensures if k + 1 < |FramesOf(cfg, n)| then
              to == if (if k == 0 then w.createFails else w.writeFails) then Dropped(false, false)
                    else Sending(n, again, k + 1)
            else to == Judged(n, again, !(w.flushFails || w.renameFails))
  {
    hide AtSending, AtDropped, AtJudged, ReceiverMoved, Plan, FramesOf, Scanned;
    SendingBounds(cfg, sys, n, again, k);
    if k + 1 < |FramesOf(cfg, n)| {
      ReadsPiece(cfg, sys, n, again, k, w);
      to := if (if k == 0 then w.createFails else w.writeFails) then Dropped(false, false)
            else Sending(n, again, k + 1);
    } else {
      ReadsEnd(cfg, sys, n, again, w);
      to := Judged(n, again, !(w.flushFails || w.renameFails));
    }
  }

  lemma CloseBounds(cfg: Config, sys: System, k: nat, stuck: set<string>)
    requires AtClose(cfg, sys, k, stuck)
    ensures k <= |Closing(cfg)| && 1 <= |Closing(cfg)| <= 2
    ensures if k == |Closing(cfg)| then CanSend(sys) && !CanReceive(sys) else CanReceive(sys) && !CanSend(sys)
  {
    ClosingIs(cfg);
    hide Plan, Deletes, Landed, Mirrored, SafeSource, AllAccepted, Closing, Engine, BytesOf, SenderSummary;
  }

  lemma CloseReceiver(cfg: Config, sys: System, k: nat, stuck: set<string>, w: Weather) returns (to: Stage)
    requires AtClose(cfg, sys, k, stuck) && CanReceive(sys)
    ensures At(cfg, ReceiverMoved(cfg, sys, w), to)
    ensures k < |Closing(cfg)|
    ensures if k + 1 == |Closing(cfg)| then to == Close(k + 1, stuck)
            else k == 0 && |Closing(cfg)| == 2
                 && to == if AllAccepted(Deletes(cfg)) then Close(1, w.stuck) else Dropped(false, true)
  {
    hide AtClose, AtDropped, ReceiverMoved, Plan, Closing, Deletes, AllAccepted, CanReceive, CanSend;
    CloseBounds(cfg, sys, k, stuck);
    if k + 1 == |Closing(cfg)| {
      ReadsDone(cfg, sys, k, stuck, w);
      to := Close(k + 1, stuck);
    } else {
      ReadsDelete(cfg, sys, stuck, w);
      to := if AllAccepted(Deletes(cfg)) then Close(1, w.stuck) else Dropped(false, true);
    }
  }

  /** When each stage can move, and what it bounds. */
  ghost predicate Moves(cfg: Config, sys: System, st: Stage) {
    && Bounded(cfg, st)
    && (CanReceive(sys) ==> st.Greet? || st.Sending? || st.Close? || st.GivenUp?)
    && (CanSend(sys) ==> st.Greet? || st.Judged? || (st.Close? && st.k == |Closing(cfg)|) || st.Dropped?)
    && (st.Judged? || st.Dropped? ==> CanSend(sys))
    && (st.Sending? || st.GivenUp? ==> CanReceive(sys))
    && (st.Greet? || st.Close? ==> CanReceive(sys) || CanSend(sys))
    && (st.Succeeded? || st.FailedBoth? ==> SenderDone(sys.s) && ReceiverDone(sys.r))
  }

  lemma MovableSending(cfg: Config, sys: System, n: nat, again: bool, k: nat)
    requires AtSending(cfg, sys, n, again, k)
    ensures Moves(cfg, sys, Sending(n, again, k))
  {
    hide Plan, Deletes, FramesOf, Landed, BytesOf, SenderSummary, SafeSource, Spent, Engine, Pieces, Content, Closing;
  }

  lemma MovableJudged(cfg: Config, sys: System, n: nat, again: bool, ok: bool)
    requires AtJudged(cfg, sys, n, again, ok)
    ensures Moves(cfg, sys, Judged(n, again, ok))
  {
    hide Plan, Deletes, Landed, BytesOf, SenderSummary, SafeSource, Spent, Engine, Closing;
  }

  lemma MovableRest(cfg: Config, sys: System, st: Stage)
    requires At(cfg, sys, st) && !st.Greet? && !st.Sending? && !st.Judged? && !st.Close?
    ensures Moves(cfg, sys, st)
  {
    hide Plan, Deletes, Finishing, BytesOf, SafeSource, AllAccepted, Closing;
  }

  lemma Movable(cfg: Config, sys: System, st: Stage)
    requires At(cfg, sys, st)
    ensures Moves(cfg, sys, st)
  {
    hide AtGreet, AtSending, AtJudged, AtClose, AtDropped, AtSuccess, Plan, Closing, FramesOf, CanReceive, CanSend;
    match st {
      case Greet(i, j) => MovableGreet(cfg, sys, i, j);
      case Sending(n, again, k) => MovableSending(cfg, sys, n, again, k);
      case Judged(n, again, ok) => MovableJudged(cfg, sys, n, again, ok);
      case Close(k, stuck) => CloseBounds(cfg, sys, k, stuck);
      case _ => MovableRest(cfg, sys, st);
    }
  }

  lemma MovableGreet(cfg: Config, sys: System, i: nat, j: nat)
    requires AtGreet(cfg, sys, i, j)
    ensures i <= OpeningLength(cfg) && j < AnswerLength(cfg)
    ensures CanReceive(sys) || CanSend(sys)
  {
    FromGreet(cfg, sys, i, j);
    AnswerFrames(cfg);
    hide AtGreet, Greeting, Answers, OpeningLength, AnswerLength, SenderGreeted, ReceiverGreeted, InPlan, SenderDone,
         ReceiverDone, SafeUpTo;
  }

  lemma GreetReceiverLeads(cfg: Config, sys: System, i: nat, j: nat, w: Weather) returns (to: Stage)
    requires Scanned(cfg) && AtGreet(cfg, sys, i, j) && CanReceive(sys)
    ensures At(cfg, ReceiverMoved(cfg, sys, w), to) && Leads(cfg, Greet(i, j), to)
    ensures StaysWell(cfg, Greet(i, j), to, Calm(w))
    ensures ReceiverFollows(cfg, Greet(i, j), to)
  {
    hide At, AtGreet, ReceiverMoved, SafeSource, AllAccepted, OpeningLength, AnswerLength, CanReceive, Scanned, Rest,
         Calm;
    to := GreetReceiver(cfg, sys, i, j, w);
  }

  lemma SendingRanks(cfg: Config, n: nat, again: bool, k: nat)
    requires n < |Plan(cfg)| && k < |FramesOf(cfg, n)|
    ensures Leads(cfg, Sending(n, again, k), Dropped(false, false))
    ensures k + 1 < |FramesOf(cfg, n)| ==> Leads(cfg, Sending(n, again, k), Sending(n, again, k + 1))
    ensures k + 1 == |FramesOf(cfg, n)| ==> forall ok :: Leads(cfg, Sending(n, again, k), Judged(n, again, ok))
  {
    hide Rest, Plan, FramesOf;
  }

  lemma SendingReceiverLeads(cfg: Config, sys: System, n: nat, again: bool, k: nat, w: Weather) returns (to: Stage)
    requires Scanned(cfg) && AtSending(cfg, sys, n, again, k)
    ensures At(cfg, ReceiverMoved(cfg, sys, w), to) && Leads(cfg, Sending(n, again, k), to)
    ensures StaysWell(cfg, Sending(n, again, k), to, Calm(w))
    ensures ReceiverFollows(cfg, Sending(n, again, k), to)
  {
    hide At, AtSending, ReceiverMoved, SafeNames, Scanned, Leads, Plan, FramesOf;
    to := SendingReceiver(cfg, sys, n, again, k, w);
    SendingRanks(cfg, n, again, k);
  }

  lemma CloseReceiverLeads(cfg: Config, sys: System, k: nat, stuck: set<string>, w: Weather) returns (to: Stage)
    requires AtClose(cfg, sys, k, stuck) && CanReceive(sys)
    ensures At(cfg, ReceiverMoved(cfg, sys, w), to) && Leads(cfg, Close(k, stuck), to)
    ensures StaysWell(cfg, Close(k, stuck), to, Calm(w))
    ensures ReceiverFollows(cfg, Close(k, stuck), to)
  {
    hide At, AtClose, ReceiverMoved, CanReceive, AllAccepted, SafeSource, Plan, Closing, Deletes;
    to := CloseReceiver(cfg, sys, k, stuck, w);
  }

  /** Every move of the receiver leads to a later stage. */
  lemma ReceiverLeads(cfg: Config, sys: System, st: Stage, w: Weather) returns (to: Stage)
    requires Scanned(cfg) && At(cfg, sys, st) && CanReceive(sys)
    ensures At(cfg, ReceiverMoved(cfg, sys, w), to) && Leads(cfg, st, to)
    ensures StaysWell(cfg, st, to, Calm(w))
    ensures ReceiverFollows(cfg, st, to)
  {
    hide AtGreet, AtSending, AtJudged, AtClose, AtDropped, AtSuccess, AtFailure, AtGivenUp, Plan, Closing, FramesOf,
         ReceiverMoved, CanReceive, CanSend, Scanned, Leads, StaysWell, Bounded;
    Movable(cfg, sys, st);
    match st {
      case Greet(i, j) => to := GreetReceiverLeads(cfg, sys, i, j, w);
      case Sending(n, again, k) => to := SendingReceiverLeads(cfg, sys, n, again, k, w);
      case Close(k, stuck) => to := CloseReceiverLeads(cfg, sys, k, stuck, w);
      case GivenUp =>
        ReadsAbort(cfg, sys, w);
        to := FailedBoth;
        FailureLeads(cfg, st, to);
    }
  }

  lemma FailureLeads(cfg: Config, st: Stage, to: Stage)
    requires (st == GivenUp && to == FailedBoth) || (st.Dropped? && to == Dropped(false, st.aborted) && st.hello)
             || (st.Dropped? && to == FailedBoth && !st.hello)
    ensures Leads(cfg, st, to) && StaysWell(cfg, st, to, true) && forall calm :: StaysWell(cfg, st, to, calm)
  {
  }

  lemma GreetSenderLeads(cfg: Config, sys: System, i: nat, j: nat) returns (to: Stage)
    requires Scanned(cfg) && AtGreet(cfg, sys, i, j) && CanSend(sys)
    ensures At(cfg, SenderMoved(cfg, sys), to) && Leads(cfg, Greet(i, j), to)
    ensures StaysWell(cfg, Greet(i, j), to, true)
    ensures SenderFollows(cfg, Greet(i, j), to)
  {
    hide At, AtGreet, SenderMoved, SafeSource, AllAccepted, OpeningLength, AnswerLength, CanSend, Scanned, Plan,
         Closing, Rest, NextStage, FramesOf;
    to := GreetSender(cfg, sys, i, j);
    NextStageIsBelow(cfg, 0);
  }

  lemma JudgedSenderLeads(cfg: Config, sys: System, n: nat, again: bool, ok: bool) returns (to: Stage)
    requires Scanned(cfg) && AtJudged(cfg, sys, n, again, ok)
    ensures At(cfg, SenderMoved(cfg, sys), to) && Leads(cfg, Judged(n, again, ok), to)
    ensures StaysWell(cfg, Judged(n, again, ok), to, true)
    ensures SenderFollows(cfg, Judged(n, again, ok), to)
  {
    hide At, AtJudged, SenderMoved, SafeSource, AllAccepted, Scanned, Plan, Closing, FramesOf, Rest, NextStage;
    to := JudgedSender(cfg, sys, n, again, ok);
    NextStageIsBelow(cfg, n + 1);
  }

  lemma CloseSenderLeads(cfg: Config, sys: System, k: nat, stuck: set<string>) returns (to: Stage)
    requires AtClose(cfg, sys, k, stuck) && k == |Closing(cfg)|
    ensures At(cfg, SenderMoved(cfg, sys), to) && Leads(cfg, Close(k, stuck), to)
    ensures StaysWell(cfg, Close(k, stuck), to, true)
    ensures SenderFollows(cfg, Close(k, stuck), to)
  {
    hide AtClose, AtSuccess, SenderMoved, SafeSource, AllAccepted, Closing;
    HearsDone(cfg, sys, stuck);
    to := Succeeded(stuck);
  }

  /** Every move of the sender leads to a later stage. */
  lemma SenderLeads(cfg: Config, sys: System, st: Stage) returns (to: Stage)
    requires Scanned(cfg) && At(cfg, sys, st) && CanSend(sys)
    ensures At(cfg, SenderMoved(cfg, sys), to) && Leads(cfg, st, to)
    ensures StaysWell(cfg, st, to, true)
    ensures SenderFollows(cfg, st, to)
  {
    hide AtGreet, AtSending, AtJudged, AtClose, AtDropped, AtSuccess, AtFailure, AtGivenUp, Plan, Closing, FramesOf,
         SenderMoved, CanReceive, Scanned, Leads, StaysWell, Bounded;
    Movable(cfg, sys, st);
    match st {
      case Greet(i, j) => to := GreetSenderLeads(cfg, sys, i, j);
      case Judged(n, again, ok) => to := JudgedSenderLeads(cfg, sys, n, again, ok);
      case Close(k, stuck) => to := CloseSenderLeads(cfg, sys, k, stuck);
      case Dropped(hello, aborted) =>
        HearsDropped(cfg, sys, hello, aborted);
        to := if hello then Dropped(false, aborted) else FailedBoth;
        FailureLeads(cfg, st, to);
    }
  }

  lemma NextStageIsBelow(cfg: Config, n: nat)
    requires n <= |Plan(cfg)|
    ensures Bounded(cfg, NextStage(cfg, n)) && Rank(cfg, NextStage(cfg, n)) <= Rest(cfg, n)
    ensures !Failing(NextStage(cfg, n)) && Unstuck(NextStage(cfg, n)) && !NextStage(cfg, n).Judged?
  {
    if n < |Plan(cfg)| {
      FileFrameCount(cfg, n);
      RestStep(cfg, n);
    }
    hide Plan, FramesOf, Closing;
  }

  lemma JudgedBounds(cfg: Config, sys: System, n: nat, again: bool, ok: bool)
    requires AtJudged(cfg, sys, n, again, ok)
    ensures n < |Plan(cfg)| && |FramesOf(cfg, n)| >= 2
  {
    assert n < |Plan(cfg)|;
    hide Plan, Deletes, Landed, BytesOf, SenderSummary, SafeSource, Spent, Engine, Closing, AtJudged;
    FileFrameCount(cfg, n);
  }

  lemma JudgedSender(cfg: Config, sys: System, n: nat, again: bool, ok: bool) returns (to: Stage)
    requires Scanned(cfg) && AtJudged(cfg, sys, n, again, ok)
    ensures At(cfg, SenderMoved(cfg, sys), to)
    ensures n < |Plan(cfg)| && |FramesOf(cfg, n)| >= 2
    ensures to == if ok then NextStage(cfg, n + 1) else if again then GivenUp else Sending(n, true, 0)
  {
    hide AtJudged, AtSending, AtGivenUp, AtClose, SenderMoved, Plan, FramesOf, Scanned, NextStage;
    JudgedBounds(cfg, sys, n, again, ok);
    if ok {
      HearsOk(cfg, sys, n, again);
      to := NextStage(cfg, n + 1);
    } else if again {
      HearsFailAgain(cfg, sys, n);
      to := GivenUp;
    } else {
      HearsFail(cfg, sys, n);
      to := Sending(n, true, 0);
    }
  }

  // ---- either side moves --------------------------------------------------------------------------------------------

  datatype Move = ReceiverMove(w: Weather) | SenderMove

  ghost predicate Enabled(sys: System, move: Move) {
    if move.SenderMove? then CanSend(sys) else CanReceive(sys)
  }

  predicate Well(st: Stage) {
    !Failing(st) && Unstuck(st) && (st.Judged? ==> st.ok)
  }

  lemma WellStays(cfg: Config, st: Stage, to: Stage, calm: bool)
    requires StaysWell(cfg, st, to, calm) && calm && SafeNames(cfg) && Well(st)
    ensures Well(to)
  {
  }

  lemma LeadsDown(cfg: Config, st: Stage, to: Stage)
    requires Leads(cfg, st, to)
    ensures Bounded(cfg, st) && Bounded(cfg, to) && Rank(cfg, to) + 1 <= Rank(cfg, st)
  {
    hide Rank, Bounded;
  }

  lemma IsBounded(cfg: Config, sys: System, st: Stage)
    requires At(cfg, sys, st)
    ensures Bounded(cfg, st)
  {
    hide At, CanReceive, CanSend, Bounded, Closing, SenderDone, ReceiverDone;
    Movable(cfg, sys, st);
  }

  lemma GreetedIsGreet(cfg: Config)
    requires Scanned(cfg)
    ensures At(cfg, Greeted(cfg), Greet(0, 0)) && Well(Greet(0, 0))
  {
    OpeningFrames(cfg);
    AnswersAreTwo(cfg);
    SenderListens(cfg, 0);
    hide Greeting, SenderGreeted, AnswerLength, Scanned;
    assert Greeting(cfg.manifest, cfg.folder)[0..] == Greeting(cfg.manifest, cfg.folder);
  }

  lemma AtIsForeseen(cfg: Config, sys: System, st: Stage)
    requires At(cfg, sys, st)
    ensures sys.s.phase.SBroken? ==> Foreseen(sys.s.phase.error)
    ensures sys.r.phase.Broken? ==> Foreseen(sys.r.phase.error)
  {
    if st.Greet? {
      FromGreet(cfg, sys, st.i, st.j);
      hide AtGreet, SenderGreeted, ReceiverGreeted, Greeting, Answers, SafeUpTo;
    } else {
      hide Plan, Deletes, Closing, FramesOf, Landed, Mirrored, Engine, BytesOf, SenderSummary, SafeSource, AllAccepted,
           Spent, Foreseen;
    }
  }

  lemma EndStages(cfg: Config, sys: System, st: Stage)
    requires At(cfg, sys, st) && SenderDone(sys.s) && ReceiverDone(sys.r)
    ensures (st.Succeeded? && AtSuccess(cfg, sys, st.stuck)) || (st.FailedBoth? && AtFailure(sys))
  {
    hide AtSuccess, AtFailure, AtGreet, AtSending, AtJudged, AtClose, AtDropped, AtGivenUp, Plan, Closing, FramesOf;
    Movable(cfg, sys, st);
  }

  // ---- convergence --------------------------------------------------------------------------------------------------

  lemma SourceEntry(cfg: Config, k: nat)
    requires Scanned(cfg) && k < |cfg.manifest|
    ensures var e := cfg.manifest[k];
            && e.path in PathsOf(cfg.manifest) && e.path in cfg.src && e.hash == cfg.h(Content(cfg.src[e.path]))
            && e.path !in Deletes(cfg)
            && (e.path in PathsOf(Plan(cfg)) || (e.path in cfg.dest && cfg.h(cfg.dest[e.path]) == e.hash))
  {
    var e := cfg.manifest[k];
    assert e.path in PathsOf(cfg.manifest);
    DeletesAreTheStale(Held(cfg), cfg.manifest);
    PlanMembers(cfg.manifest, RemoteMap(Held(cfg)), e);
    ListingIs(cfg.h, cfg.dest);
    if e in Plan(cfg) {
      var i :| 0 <= i < |Plan(cfg)| && Plan(cfg)[i] == e;
      assert Plan(cfg)[i].path in PathsOf(Plan(cfg));
    }
    hide PlanOf, RemoteMap, DeletesOf, Listing, IsPart, Content;
  }

  /** After a success every real source path holds bytes of the source's hash at the destination. */
  lemma SourceArrives(cfg: Config, fs: Files, stuck: set<string>, k: nat)
    requires Scanned(cfg) && Mirrored(cfg, fs, stuck) && k < |cfg.manifest| && !IsPart(cfg.manifest[k].path)
    ensures var e := cfg.manifest[k];
            e.path in fs && cfg.h(fs[e.path]) == e.hash
  {
    var e := cfg.manifest[k];
    SourceEntry(cfg, k);
    assert Plan(cfg)[..|Plan(cfg)|] == Plan(cfg);
    assert Settled(cfg, fs, stuck, e.path);
    hide Plan, Deletes, Content, IsPart, PathsOf, Prunes, Scanned;
  }

  /** Any other real path is as it was, except that a pruned one is gone. */
  lemma OthersStay(cfg: Config, fs: Files, stuck: set<string>, p: string)
    requires Scanned(cfg) && Mirrored(cfg, fs, stuck) && !IsPart(p) && p !in PathsOf(cfg.manifest)
    ensures p in fs <==> p in cfg.dest && (!Prunes(cfg) || p in stuck)
    ensures p in fs ==> fs[p] == cfg.dest[p]
  {
    DeletesAreTheStale(Held(cfg), cfg.manifest);
    ListingIs(cfg.h, cfg.dest);
    assert Plan(cfg)[..|Plan(cfg)|] == Plan(cfg);
    PlanWithin(cfg);
    assert Settled(cfg, fs, stuck, p);
    hide Plan, DeletesOf, Content, IsPart, PathsOf, Prunes, Scanned, Listing, RemoteMap;
  }

  lemma PlanWithin(cfg: Config)
    ensures PathsOf(Plan(cfg)) <= PathsOf(cfg.manifest)
  {
    forall p | p in PathsOf(Plan(cfg))
      ensures p in PathsOf(cfg.manifest)
    {
      var k :| 0 <= k < |Plan(cfg)| && Plan(cfg)[k].path == p;
      PlanMembers(cfg.manifest, RemoteMap(Held(cfg)), Plan(cfg)[k]);
      assert Plan(cfg)[k] in Plan(cfg);
      var i :| 0 <= i < |cfg.manifest| && cfg.manifest[i] == Plan(cfg)[k];
      assert cfg.manifest[i].path == p;
    }
  }

  /** No source path looks like a part file. */
  predicate NoPartNames(cfg: Config) {
    forall k :: 0 <= k < |cfg.manifest| ==> !IsPart(cfg.manifest[k].path)
  }

  function SourceFiles(cfg: Config): Files {
    map p | p in PathsOf(cfg.manifest) && p in cfg.src :: Content(cfg.src[p])
  }

  /** With pruning, and a hash that tells contents apart, the real part of the destination is the source. */
  lemma MirrorIsExact(cfg: Config, fs: Files)
    requires Scanned(cfg) && NoPartNames(cfg) && Mirrored(cfg, fs, {}) && Prunes(cfg)
    requires forall a, b: seq<Byte> :: cfg.h(a) == cfg.h(b) ==> a == b
    ensures Real(fs) == SourceFiles(cfg)
  {
    hide Mirrored, Prunes, IsPart, Content;
    forall p
      ensures p in Real(fs) <==> p in SourceFiles(cfg)
      ensures p in Real(fs) ==> Real(fs)[p] == SourceFiles(cfg)[p]
    {
      if p in PathsOf(cfg.manifest) {
        var k :| 0 <= k < |cfg.manifest| && cfg.manifest[k].path == p;
        SourceArrives(cfg, fs, {}, k);
        SourceEntry(cfg, k);
      } else if !IsPart(p) {
        OthersStay(cfg, fs, {}, p);
      }
    }
  }

  /** Exact: on a second run over what a successful one left, a source file travels again if and only if its
      name looks like a part file, which the destination's scan never lists. */
  lemma SecondRunPlansIff(cfg: Config, fs: Files, stuck: set<string>, k: nat)
    requires Scanned(cfg) && Mirrored(cfg, fs, stuck) && k < |cfg.manifest|
    ensures cfg.manifest[k] in Plan(cfg.(dest := fs)) <==> IsPart(cfg.manifest[k].path)
  {
    var e := cfg.manifest[k];
    PlanMembers(cfg.manifest, RemoteMap(Listing(cfg.h, fs)), e);
    ListingIs(cfg.h, fs);
    if !IsPart(e.path) {
      SourceArrives(cfg, fs, stuck, k);
    }
    hide Mirrored, RemoteMap, Listing, IsPart, Content, Scanned, PlanOf;
  }

  /** A second run over a pruned mirror announces nothing to delete. */
  lemma SecondRunDeletesNothing(cfg: Config, fs: Files)
    requires Scanned(cfg) && Mirrored(cfg, fs, {}) && Prunes(cfg)
    ensures Deletes(cfg.(dest := fs)) == []
  {
    var again := cfg.(dest := fs);
    DeletesAreTheStale(Held(again), cfg.manifest);
    ListingIs(cfg.h, fs);
    hide Mirrored, Prunes, RemoteMap, Listing, IsPart, Content, Scanned, DeletesOf, PathsOf;
    if Deletes(again) != [] {
      var p := Deletes(again)[0];
      assert p in Deletes(again);
      OthersStay(cfg, fs, {}, p);
    }
  }

  /** Exact: a re-run after a success transfers nothing if and only if no source name looks like a part file. */
  lemma RerunIsIdleIff(cfg: Config, fs: Files, stuck: set<string>)
    requires Scanned(cfg) && Mirrored(cfg, fs, stuck)
    ensures Plan(cfg.(dest := fs)) == [] <==> NoPartNames(cfg)
  {
    var again := cfg.(dest := fs);
    hide Mirrored, IsPart, Scanned, Content, RemoteMap, PlanOf, Listing;
    if Plan(again) != [] {
      var e := Plan(again)[0];
      assert e in Plan(again);
      PlanMembers(cfg.manifest, RemoteMap(Held(again)), e);
      var k :| 0 <= k < |cfg.manifest| && cfg.manifest[k] == e;
      SecondRunPlansIff(cfg, fs, stuck, k);
    } else if !NoPartNames(cfg) {
      var k :| 0 <= k < |cfg.manifest| && IsPart(cfg.manifest[k].path);
      SecondRunPlansIff(cfg, fs, stuck, k);
    }
  }

  // ---- each file at most twice --------------------------------------------------------------------------------------

  predicate IsBegin(f: Frame, path: string) {
    f.Control? && f.c.FileBegin? && f.c.path == path
  }

  /** How many of these frames begin the file of this path. */
  function Begins(frames: seq<Frame>, path: string): nat {
    if frames == [] then 0
    else Begins(frames[..|frames| - 1], path) + if IsBegin(frames[|frames| - 1], path) then 1 else 0
  }

  lemma {:induction false} BeginsConcat(a: seq<Frame>, b: seq<Frame>, path: string)
    ensures Begins(a + b, path) == Begins(a, path) + Begins(b, path)
  {
    if b == [] {
      assert a + b == a;
    } else {
      BeginsConcat(a, b[..|b| - 1], path);
      assert (a + b)[..|a + b| - 1] == a + b[..|b| - 1];
    }
  }

  lemma {:induction false} NoBegins(frames: seq<Frame>, path: string)
    requires forall k :: 0 <= k < |frames| ==> !IsBegin(frames[k], path)
    ensures Begins(frames, path) == 0
  {
    if frames == [] {
    } else {
      NoBegins(frames[..|frames| - 1], path);
    }
  }

  lemma BeginsInFile(cfg: Config, n: nat, path: string)
    requires n < |Plan(cfg)|
    ensures Begins(FramesOf(cfg, n), path) == if path == Plan(cfg)[n].path then 1 else 0
  {
    var f := Plan(cfg)[n];
    var pieces := Pieces(cfg, f);
    var head := [Control(FileBegin(f.path, f.size, f.mode))];
    var rest := ChunkFrames(pieces) + [Control(FileEnd(cfg.h(Content(pieces))))];
    assert FramesOf(cfg, n) == head + rest;
    hide Plan, Content, Pieces;
    NoBegins(rest, path);
    BeginsConcat(head, rest, path);
    assert head[..0] == [];
    assert Begins(head, path) == (if path == f.path then 1 else 0);
  }

  lemma BeginsInClosing(cfg: Config, path: string)
    ensures Begins(Closing(cfg), path) == 0
  {
    hide Plan, Deletes, BytesOf;
    NoBegins(Closing(cfg), path);
  }

  lemma PlanTellsApart(cfg: Config, m: nat, n: nat)
    requires Scanned(cfg) && m < |Plan(cfg)| && n < |Plan(cfg)| && Plan(cfg)[m].path == Plan(cfg)[n].path
    ensures m == n
  {
    PlanIsDistinct(cfg.manifest, RemoteMap(Held(cfg)));
    hide PlanOf, RemoteMap, Held;
    assert PathOf(Plan(cfg)[m]) == PathOf(Plan(cfg)[n]);
  }
}
