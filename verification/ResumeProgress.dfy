/** When a resumed transfer finishes: after a reconnect, the world of `Resume` runs in step with the two bare engines
    over ordered channels, whose progress `TransferProgress` settles, acknowledgements of an earlier connection
    included. */
module ResumeProgress {
  import opened Bytes
  import opened Wrappers
  import opened SenderEngines
  import opened ReceiverEngines
  import opened Crypto
  import opened SenderAdapters
  import opened ReceiverAdapters
  import opened ReceiveLoops
  import opened Resume
  import Codec
  import TP = TransferProgress
  import WP = WindowProtocol

  /** A step of a connection that holds. */
  predicate Going(step: Step) {
    step.TakeData? || step.RelayAck? || step.SenderAck?
  }

  predicate AllGoing(steps: seq<Step>) {
    forall k :: 0 <= k < |steps| ==> Going(steps[k])
  }

  /** Nothing more happens while the connection holds. */
  ghost predicate AtRest(w: World) {
    forall step :: Going(step) ==> !Enabled(w, step)
  }

  // ---- frames ------------------------------------------------------------------------------------------------

  ghost predicate Sealing(src: Source) {
    src.Valid() && forall k: nat :: src.Sealed(k).Some?
  }

  ghost function Frame(src: Source, a: SenderAction): Wire
    requires Sealing(src) && !a.Metadata?
  {
    match a
    case Chunk(i) => Binary(Codec.ChunkBytes(i, src.Sealed(i).value))
    case End(total) => Binary(Codec.EndBytes(total))
  }

  predicate NoMetadata(actions: seq<SenderAction>) {
    forall k :: 0 <= k < |actions| ==> !actions[k].Metadata?
  }

  ghost function Frames(src: Source, actions: seq<SenderAction>): (ws: seq<Wire>)
    requires Sealing(src) && NoMetadata(actions)
    ensures |ws| == |actions| && forall k :: 0 <= k < |ws| ==> ws[k] == Frame(src, actions[k])
  {
    seq(|actions|, k requires 0 <= k < |actions| => Frame(src, actions[k]))
  }

  lemma EmitsFirst(src: Source, actions: seq<SenderAction>)
    requires Sealing(src) && actions != [] && !actions[0].Metadata?
    ensures var e, rest := Emit(src, actions), Emit(src, actions[1..]);
            && e.failed == rest.failed && e.texts == rest.texts
            && Binaries(e.binaries) == [Frame(src, actions[0])] + Binaries(rest.binaries)
  {
    hide Codec.ChunkBytes, Codec.EndBytes;
  }

  /** The adapter turns actions into exactly their frames. */
  lemma {:induction false} EmitIs(src: Source, actions: seq<SenderAction>)
    requires Sealing(src) && NoMetadata(actions)
    ensures var e := Emit(src, actions);
            !e.failed && e.texts == [] && Binaries(e.binaries) == Frames(src, actions)
  {
    if actions == [] {
    } else {
      EmitIs(src, actions[1..]);
      EmitsFirst(src, actions);
      hide Emit, Frame, Codec.ChunkBytes, Codec.EndBytes;
      assert Frames(src, actions) == [Frame(src, actions[0])] + Frames(src, actions[1..]);
    }
  }

  // ---- in step with the engines ----------------------------------------------------------------------------------

  /** The sender has heard of the last chunk; nothing it hears moves it any more. */
  predicate Finished(s: SenderState) {
    s.base == s.total && Pumped(s) == s && PumpActions(s) == []
  }

  /** What the new channel still carries ahead of the frames. */
  ghost function Head(tr: Transfer, w: World, from: nat): seq<Wire>
    requires tr.Valid()
  {
    if w.receiver.session.None? then [Text(Announcement(w.salt, w.baseIv, tr.Total(), from))] else []
  }

  /** The receiver's engine, which the announcement will make or has made. */
  ghost predicate SameReceiver(tr: Transfer, w: World, r: ReceiverState) {
    match w.receiver.session
    case None => r == NewReceiver(tr.setting.batch, 250, 5000, r.expected)
    case Some(s) => s == Session(r, Stream(tr.setting.derive(w.salt), w.baseIv))
  }

  /** The two ends stand where the bare engines stand, and the same is on its way between them. */
  ghost predicate InStep(tr: Transfer, w: World, l: TP.Link) {
    && tr.Valid() && KeyLengths(w.salt, w.baseIv) && Sealing(tr.Src(w.salt, w.baseIv)) && w.receiver.Valid()
    && w.snd == l.snd && l.snd.total == tr.Total() && l.snd.window == tr.window && l.rcv.batch == tr.setting.batch
    && SameReceiver(tr, w, l.rcv)
    && TP.Streaming(l)
    && NoMetadata(l.data) && w.data == Head(tr, w, l.rcv.expected) + Frames(tr.Src(w.salt, w.baseIv), l.data)
    && w.toSender + w.toRelay == TP.Throughs(l.control)
    && (w.sndFinished ==> Finished(w.snd))
  }

  /** What is left to do: the announcement, and an acknowledgement crosses two queues. */
  function Left(w: World, l: TP.Link): int {
    2 * TP.Work(l) + |w.toRelay| + if w.receiver.session.None? then 1 else 0
  }

  /** One step of the engines, or none. */
  predicate Moved(l: TP.Link, moves: seq<TP.Move>, t: TP.Link) {
    TP.CanTake(l, moves) && TP.TakeAll(l, moves) == t
  }

  lemma MovedOnce(l: TP.Link, m: TP.Move)
    requires TP.Possible(l, m)
    ensures Moved(l, [m], TP.Take(l, m))
  {
    var t := TP.Take(l, m);
    hide TP.Take, TP.Possible;
    assert [m][1..] == [];
    assert TP.CanTake(t, []) && TP.TakeAll(t, []) == t;
  }

  lemma ChunkOutputs(tr: Transfer, w: World, s: ReceiverState, at: nat)
    requires tr.Valid() && KeyLengths(w.salt, w.baseIv) && Sealing(tr.Src(w.salt, w.baseIv))
    requires s.Valid() && !s.done && s.expected < U64
    ensures var src := tr.Src(w.salt, w.baseIv);
            var bytes := Codec.ChunkBytes(s.expected, src.Sealed(s.expected).value);
            && AfterFrame(s, bytes, at) == Next(s, ChunkIn(s.expected, at))
            && AcksOf(FrameOutputs(Stream(src.aead, src.baseIv), s, bytes))
               == TP.Throughs(WP.DueAck(s.expected, s.batch))
  {
    var src := tr.Src(w.salt, w.baseIv);
    Codec.DecodeChunkBytes(s.expected, src.Sealed(s.expected).value);
    ExpectedChunkOutputs(src, s, src.Sealed(s.expected).value);
  }

  lemma EndOutputs(tr: Transfer, w: World, s: ReceiverState, total: nat, at: nat)
    requires tr.Valid() && KeyLengths(w.salt, w.baseIv) && total < U64
    requires s.Valid() && !s.done && s.expected == total
    ensures var src := tr.Src(w.salt, w.baseIv);
            && AfterFrame(s, Codec.EndBytes(total), at) == Next(s, EndIn(total))
            && AcksOf(FrameOutputs(Stream(src.aead, src.baseIv), s, Codec.EndBytes(total))) == []
  {
    var stream := Stream(tr.setting.derive(w.salt), w.baseIv);
    Codec.DecodeEndBytes(total, []);
    assert Codec.EndBytes(total) + [] == Codec.EndBytes(total);
    assert EndActions(s, total) == [Complete];
    OutputsOfOne(stream, Complete, None);
    assert [Completed][1..] == [];
  }

  lemma TakesAnnouncement(tr: Transfer, w: World, l: TP.Link, at: nat)
    requires InStep(tr, w, l) && Enabled(w, TakeData(at)) && w.receiver.session.None?
    ensures var v := Apply(tr, w, TakeData(at));
            InStep(tr, v, l) && v.receiver.session.Some? && Left(v, l) < Left(w, l)
  {
    var v := Apply(tr, w, TakeData(at));
    var frames := Frames(tr.Src(w.salt, w.baseIv), l.data);
    assert w.data[0] == Text(Announcement(w.salt, w.baseIv, tr.Total(), l.rcv.expected)) && w.data[1..] == frames;
    assert [] + frames == frames;
    hide TP.Streaming, Frames, Finished, TP.Throughs, Truncated;
  }

  lemma NotDoneYet(l: TP.Link)
    requires TP.Streaming(l) && l.rcv.expected < l.snd.next
    ensures !l.rcv.done && l.rcv.Valid() && l.snd.total < U64 && l.rcv.expected < l.snd.total
  {
  }

  lemma OneDueAtMost(e: nat, batch: nat)
    requires batch >= 1
    ensures |TP.Throughs(WP.DueAck(e, batch))| <= 1
  {
  }

  lemma TakenIs(l: TP.Link, at: nat)
    requires TP.Possible(l, TP.TakeData(at))
    ensures var t := TP.Take(l, TP.TakeData(at));
            t.data == l.data[1..] && t.rcv == Next(l.rcv, TP.FrameInput(l.data[0], at)) && t.snd == l.snd
  {
  }

  /** The first frame on the wire, once the announcement is gone. */
  lemma FirstFrame(tr: Transfer, w: World, l: TP.Link, at: nat)
    requires InStep(tr, w, l) && Enabled(w, TakeData(at)) && w.receiver.session.Some?
    ensures l.data != [] && w.data[0] == Frame(tr.Src(w.salt, w.baseIv), l.data[0])
    ensures NoMetadata(l.data[1..]) && w.data[1..] == Frames(tr.Src(w.salt, w.baseIv), l.data[1..])
    ensures w.receiver.session == Some(Session(l.rcv, Stream(tr.setting.derive(w.salt), w.baseIv)))
  {
    assert w.data == Frames(tr.Src(w.salt, w.baseIv), l.data);
    hide TP.Streaming, Frame, Finished, TP.Throughs;
  }

  lemma TakesChunk(tr: Transfer, w: World, l: TP.Link, at: nat) returns (t: TP.Link)
    requires InStep(tr, w, l) && Enabled(w, TakeData(at)) && w.receiver.session.Some? && l.rcv.expected < l.snd.next
    ensures var v := Apply(tr, w, TakeData(at));
            && InStep(tr, v, t) && Left(v, t) < Left(w, l) && v.receiver.session.Some?
            && v.toSender == w.toSender && v.toRelay == w.toRelay + TP.Throughs(WP.DueAck(l.rcv.expected, l.rcv.batch))
    ensures TP.Possible(l, TP.TakeData(at)) && t == TP.Take(l, TP.TakeData(at))
    ensures t.rcv.expected == l.rcv.expected + 1 && t.snd == l.snd
  {
    var s, src := l.rcv, tr.Src(w.salt, w.baseIv);
    var v := Apply(tr, w, TakeData(at));
    NotDoneYet(l);
    FirstFrame(tr, w, l, at);
    TP.StreamHead(s.expected, l.snd.next, l.snd.total, l.snd.endSent && !s.done);
    assert l.data[0] == Chunk(s.expected);
    TP.ChunkTaken(l, at);
    t := TP.Take(l, TP.TakeData(at));
    ChunkOutputs(tr, w, s, at);
    TP.ThroughsMore(l.control, WP.DueAck(s.expected, s.batch));
    TakenIs(l, at);
    OneDueAtMost(s.expected, s.batch);
    hide TP.Streaming, AfterFrame, FrameOutputs, Next, AcksOf, TextOf, TP.Throughs, WP.DueAck, Codec.ChunkBytes,
         TP.Take, Frames, Finished;
    var due := TP.Throughs(WP.DueAck(s.expected, s.batch));
    assert v.toSender + v.toRelay == w.toSender + w.toRelay + due;
    assert [] + v.data == v.data;
  }

  lemma OnlyTheEnd(l: TP.Link)
    requires TP.Streaming(l) && l.rcv.expected >= l.snd.next && l.data != []
    ensures l.rcv.expected == l.snd.next == l.snd.total && !l.rcv.done && l.rcv.Valid() && l.snd.total < U64
    ensures l.data == [SenderAction.End(l.snd.total)]
  {
  }

  lemma TakesEnd(tr: Transfer, w: World, l: TP.Link, at: nat) returns (t: TP.Link)
    requires InStep(tr, w, l) && Enabled(w, TakeData(at)) && w.receiver.session.Some? && l.rcv.expected >= l.snd.next
    ensures var v := Apply(tr, w, TakeData(at));
            InStep(tr, v, t) && Left(v, t) < Left(w, l) && v.receiver.session.Some?
    ensures TP.Possible(l, TP.TakeData(at)) && t == TP.Take(l, TP.TakeData(at))
  {
    var s, src := l.rcv, tr.Src(w.salt, w.baseIv);
    var v := Apply(tr, w, TakeData(at));
    FirstFrame(tr, w, l, at);
    OnlyTheEnd(l);
    TP.EndTaken(l, at);
    t := TP.Take(l, TP.TakeData(at));
    EndOutputs(tr, w, s, l.snd.total, at);
    TakenIs(l, at);
    hide TP.Streaming, AfterFrame, FrameOutputs, Next, AcksOf, TextOf, TP.Throughs, Codec.EndBytes, TP.Take, Frames,
         Finished;
    assert w.toRelay + [] == w.toRelay;
    assert [] + v.data == v.data;
  }

  // ---- the sender hears an acknowledgement -------------------------------------------------------------------------

  lemma FramesMore(src: Source, a: seq<SenderAction>, b: seq<SenderAction>)
    requires Sealing(src) && NoMetadata(a) && NoMetadata(b)
    ensures NoMetadata(a + b) && Frames(src, a + b) == Frames(src, a) + Frames(src, b)
  {
  }

  lemma NextAck(tr: Transfer, w: World, l: TP.Link)
    requires InStep(tr, w, l) && w.toSender != []
    ensures l.control != [] && l.control[0].Ack? && l.control[0].through == w.toSender[0] < l.snd.total < U64
  {
    assert (w.toSender + w.toRelay)[0] == w.toSender[0];
    hide Finished, Frames;
  }

  lemma AckQueues(w: World, v: World, l: TP.Link)
    requires w.toSender != [] && v.toSender == w.toSender[1..] && v.toRelay == w.toRelay
    requires w.toSender + w.toRelay == TP.Throughs(l.control)
    ensures l.control != [] && v.toSender + v.toRelay == TP.Throughs(l.control[1..])
  {
    assert v.toSender + v.toRelay == (w.toSender + w.toRelay)[1..];
  }

  /** A chunk of the transfer is acknowledged: what is sent for it is chunks and perhaps the end; if it is the last, the
      sender has finished; and a finished sender does not move. */
  lemma AckMeans(s: SenderState, through: nat)
    requires s.Valid() && s.base <= s.total && s.next <= s.total && s.endSent == (s.next == s.total)
             && through < s.total
    ensures NoMetadata(AckActions(s, through))
    ensures through >= WrappingSub(s.total % U64, 1) ==> Finished(AfterAck(s, through))
    ensures Finished(s) ==> AfterAck(s, through) == s && AckActions(s, through) == []
  {
    if Finished(s) {
      assert Acked(s, through) == s;
    }
    if through >= WrappingSub(s.total % U64, 1) {
      assert Acked(s, through).base == s.total;
      PumpedAtTotal(Acked(s, through));
    }
  }

  lemma PumpedAtTotal(s: SenderState)
    requires s.Valid() && s.base == s.total && s.next <= s.total && s.endSent == (s.next == s.total)
    ensures Finished(Pumped(s))
  {
    var t := Pumped(s);
    assert t.next < t.total ==> t.next >= Edge(s) == Edge(t);
    assert Filled(t) == t.next;
  }

  lemma SenderAckIs(tr: Transfer, w: World)
    requires tr.Valid() && Enabled(w, SenderAck)
    ensures var v, t := Apply(tr, w, SenderAck), w.toSender[0];
            if w.sndFinished then v == w.(toSender := w.toSender[1..])
            else
              var e := Emit(tr.Src(w.salt, w.baseIv), AckActions(w.snd, t));
              v == w.(toSender := w.toSender[1..], snd := AfterAck(w.snd, t), data := w.data + Binaries(e.binaries),
                      sndFinished := e.failed || t >= WrappingSub(w.snd.total % U64, 1))
  {
    hide Emit, AckActions, AfterAck;
  }

  /** What the frames for one more acknowledgement do to the wire. */
  lemma AckFrames(tr: Transfer, w: World, l: TP.Link, more: seq<SenderAction>)
    requires InStep(tr, w, l) && tr.Valid() && NoMetadata(more)
    ensures var src := tr.Src(w.salt, w.baseIv);
            var e := Emit(src, more);
            && !e.failed && NoMetadata(l.data + more)
            && w.data + Binaries(e.binaries) == Head(tr, w, l.rcv.expected) + Frames(src, l.data + more)
  {
    hide *;
    var src, head := tr.Src(w.salt, w.baseIv), Head(tr, w, l.rcv.expected);
    DataIs(tr, w, l);
    EmitIs(src, more);
    FramesMore(src, l.data, more);
    assert head + Frames(src, l.data) + Frames(src, more) == head + (Frames(src, l.data) + Frames(src, more));
  }

  lemma DataIs(tr: Transfer, w: World, l: TP.Link)
    requires InStep(tr, w, l)
    ensures Sealing(tr.Src(w.salt, w.baseIv)) && NoMetadata(l.data)
    ensures w.data == Head(tr, w, l.rcv.expected) + Frames(tr.Src(w.salt, w.baseIv), l.data)
  {
    hide TP.Streaming, Finished, Frames, Head;
  }

  lemma HearsAck(tr: Transfer, w: World, l: TP.Link) returns (t: TP.Link)
    requires InStep(tr, w, l) && w.toSender != [] && w.snd.base <= w.snd.total
    ensures Enabled(w, SenderAck)
    ensures var v := Apply(tr, w, SenderAck);
            && InStep(tr, v, t) && Left(v, t) < Left(w, l) && v.receiver == w.receiver && v.snd.base <= v.snd.total
    ensures TP.Possible(l, TP.TakeControl) && t == TP.Take(l, TP.TakeControl) && t.rcv == l.rcv
  {
    hide Emit, Frames, Finished, TP.Throughs, AckActions, AfterAck;
    NextAck(tr, w, l);
    TP.ControlTaken(l);
    t := TP.Take(l, TP.TakeControl);
    var v, through := Apply(tr, w, SenderAck), w.toSender[0];
    assert AckReady(l.snd, through);
    AckMeans(l.snd, through);
    AckFrames(tr, w, l, AckActions(l.snd, through));
    SenderAckIs(tr, w);
    AckQueues(w, v, l);
    TakenControl(l);
    hide TP.Streaming, TP.Take, AckReady, Apply;
    assert w.sndFinished ==> l.data + [] == l.data;
  }

  predicate AckReady(s: SenderState, through: nat) {
    s.Valid() && s.base <= s.total && s.next <= s.total && s.endSent == (s.next == s.total) && through < s.total
  }

  lemma TakenControl(l: TP.Link)
    requires TP.Possible(l, TP.TakeControl)
    ensures var t, through := TP.Take(l, TP.TakeControl), l.control[0].through;
            t == TP.Link(AfterAck(l.snd, through), l.rcv, l.data + AckActions(l.snd, through), l.control[1..])
  {
    hide AfterAck, AckActions;
  }

  lemma RelaysAck(tr: Transfer, w: World, l: TP.Link)
    requires InStep(tr, w, l) && Enabled(w, RelayAck)
    ensures var v := Apply(tr, w, RelayAck);
            InStep(tr, v, l) && Left(v, l) < Left(w, l) && v.receiver == w.receiver && v.snd == w.snd
  {
    var v := Apply(tr, w, RelayAck);
    assert v.toSender + v.toRelay == w.toSender + w.toRelay;
    hide TP.Streaming, TP.Throughs, Finished, Frames;
  }

  // ---- whole runs of a holding connection ---------------------------------------------------------------------------

  /** Every step of a holding connection is a step of the engines, or the announcement, or a hop of an
      acknowledgement. */
  lemma StaysInStep(tr: Transfer, w: World, l: TP.Link, step: Step) returns (t: TP.Link, moves: seq<TP.Move>)
    requires InStep(tr, w, l) && w.snd.base <= w.snd.total && Going(step) && Enabled(w, step)
    ensures var v := Apply(tr, w, step);
            InStep(tr, v, t) && Left(v, t) < Left(w, l) && v.snd.base <= v.snd.total
    ensures Moved(l, moves, t)
  {
    InStepIsValid(tr, w, l);
    hide Apply, Left, InStep, TP.Streaming, TP.Take, TP.Possible;
    moves, t := [], l;
    match step {
      case TakeData(at) =>
        if w.receiver.session.None? {
          TakesAnnouncement(tr, w, l, at);
          SameSender(tr, w, step);
        } else if l.rcv.expected < l.snd.next {
          t := TakesChunk(tr, w, l, at);
          moves := [TP.TakeData(at)];
          MovedOnce(l, TP.TakeData(at));
          SameSender(tr, w, step);
        } else {
          t := TakesEnd(tr, w, l, at);
          moves := [TP.TakeData(at)];
          MovedOnce(l, TP.TakeData(at));
          SameSender(tr, w, step);
        }
      case RelayAck =>
        RelaysAck(tr, w, l);
      case SenderAck =>
        t := HearsAck(tr, w, l);
        moves := [TP.TakeControl];
        MovedOnce(l, TP.TakeControl);
    }
  }

  lemma SameSender(tr: Transfer, w: World, step: Step)
    requires tr.Valid() && step.TakeData? && Enabled(w, step)
    ensures Apply(tr, w, step).snd == w.snd
  {
  }

  lemma {:induction false} MovedThen(l: TP.Link, first: seq<TP.Move>, mid: TP.Link, second: seq<TP.Move>, t: TP.Link)
    requires Moved(l, first, mid) && Moved(mid, second, t)
    ensures Moved(l, first + second, t)
    decreases |first|
  {
    hide TP.Take, TP.Possible;
    if first == [] {
      assert first + second == second;
    } else {
      assert (first + second)[1..] == first[1..] + second;
      MovedThen(TP.Take(l, first[0]), first[1..], mid, second, t);
    }
  }

  /** Every run of a holding connection is a run of the bare engines. */
  lemma {:induction false} RunsInStep(tr: Transfer, w: World, l: TP.Link, steps: seq<Step>)
    returns (t: TP.Link, moves: seq<TP.Move>)
    requires InStep(tr, w, l) && w.snd.base <= w.snd.total && CanRun(tr, w, steps) && AllGoing(steps)
    ensures InStep(tr, Run(tr, w, steps), t) && |steps| + Left(Run(tr, w, steps), t) <= Left(w, l)
    ensures Moved(l, moves, t)
    decreases |steps|
  {
    if steps == [] {
      t, moves := l, [];
    } else {
      var next, first := StaysInStep(tr, w, l, steps[0]);
      hide Apply, InStep, Left, Enabled, Moved;
      var later;
      t, later := RunsInStep(tr, Apply(tr, w, steps[0]), next, steps[1..]);
      moves := first + later;
      MovedThen(l, first, next, later, t);
    }
  }

  lemma LeftIsNatural(tr: Transfer, w: World, l: TP.Link)
    requires InStep(tr, w, l)
    ensures Left(w, l) >= 0
  {
    TP.WorkIsNatural(l);
  }

  lemma MovesUnlessQuiet(tr: Transfer, w: World, l: TP.Link)
    requires InStep(tr, w, l) && (!TP.Quiet(l) || w.receiver.session.None?)
    ensures Enabled(w, TakeData(0)) || Enabled(w, RelayAck) || Enabled(w, SenderAck)
  {
    if w.toSender != [] {
      NextAck(tr, w, l);
    }
    hide TP.Streaming, Finished;
    assert |w.toSender| + |w.toRelay| == |l.control|;
  }

  /** A connection at rest has nothing in flight, and its announcement was taken. */
  lemma RestIsQuiet(tr: Transfer, w: World, l: TP.Link)
    requires InStep(tr, w, l) && AtRest(w)
    ensures TP.Quiet(l) && w.receiver.session.Some?
  {
    hide InStep, Enabled, TP.Quiet;
    if !TP.Quiet(l) || w.receiver.session.None? {
      MovesUnlessQuiet(tr, w, l);
    }
  }

  /** Some run goes on until the connection is at rest. */
  lemma {:induction false} RunToRest(tr: Transfer, w: World, l: TP.Link) returns (steps: seq<Step>)
    requires InStep(tr, w, l) && w.snd.base <= w.snd.total
    ensures CanRun(tr, w, steps) && AllGoing(steps) && AtRest(Run(tr, w, steps))
    decreases Left(w, l)
  {
    hide Apply, InStep, Left, Enabled;
    if AtRest(w) {
      steps := [];
    } else {
      var step :| Going(step) && Enabled(w, step);
      LeftIsNatural(tr, w, l);
      assert tr.Valid() by { InStepIsValid(tr, w, l); }
      var next, moves := StaysInStep(tr, w, l, step);
      var rest := RunToRest(tr, Apply(tr, w, step), next);
      steps := [step] + rest;
      assert steps[1..] == rest;
    }
  }

  lemma InStepIsValid(tr: Transfer, w: World, l: TP.Link)
    requires InStep(tr, w, l)
    ensures tr.Valid() && KeyLengths(w.salt, w.baseIv) && w.receiver.Valid()
  {
  }

  // ---- after a reconnect -----------------------------------------------------------------------------------------

  lemma SealsAllIsSealing(tr: Transfer, salt: seq<Byte>, baseIv: seq<Byte>)
    requires tr.Valid() && SealsAll(tr) && KeyLengths(salt, baseIv)
    ensures Sealing(tr.Src(salt, baseIv))
  {
    SealedAlways(tr, salt, baseIv);
  }

  /** The new channel carries the announcement and then the engines' opening window. */
  lemma ReconnectSends(tr: Transfer, w: World, salt: seq<Byte>, baseIv: seq<Byte>)
    requires tr.Valid() && SealsAll(tr) && KeyLengths(salt, baseIv) && w.checkpoint <= tr.Total()
    ensures Sealing(tr.Src(salt, baseIv))
    ensures var v := Reconnected(tr, w, salt, baseIv);
            var opening := OpenActions(Fresh(tr.Total(), tr.window), w.checkpoint)[1..];
            && NoMetadata(opening) && !v.sndFinished
            && v.data == [Text(Announcement(salt, baseIv, tr.Total(), w.checkpoint))]
                         + Frames(tr.Src(salt, baseIv), opening)
  {
    var src, actions := tr.Src(salt, baseIv), OpenActions(Fresh(tr.Total(), tr.window), w.checkpoint);
    SealsAllIsSealing(tr, salt, baseIv);
    assert actions[0] == Metadata(w.checkpoint);
    assert NoMetadata(actions[1..]) by { OpenSendsOneWindow(Fresh(tr.Total(), tr.window), w.checkpoint); }
    EmitIs(src, actions[1..]);
    var e, rest := Emit(src, actions), Emit(src, actions[1..]);
    assert e == rest.(texts := [Announcement(salt, baseIv, tr.Total(), w.checkpoint)] + rest.texts);
    hide OpenActions, Emit, Frame;
    assert Texts(e.texts) == [Text(Announcement(salt, baseIv, tr.Total(), w.checkpoint))];
  }

  /** What the bare engines begin with: the acknowledgements already in the sender's queue are ahead of those to
      come. */
  ghost function Opening(tr: Transfer, w: World): TP.Link
    requires tr.Valid()
  {
    TP.BeginWith(tr.Total(), tr.window, tr.setting.batch, w.checkpoint, w.toSender)
  }

  lemma ReconnectInStep(tr: Transfer, w: World, salt: seq<Byte>, baseIv: seq<Byte>)
    requires tr.Valid() && SealsAll(tr) && ResumeInv(tr, w) && KeyLengths(salt, baseIv) && w.toRelay == []
    ensures var u, l := Reconnected(tr, w, salt, baseIv), Opening(tr, w);
            && InStep(tr, u, l) && u.snd.base <= u.snd.total && l.rcv.batch == tr.setting.batch
            && Left(u, l) == 4 * (tr.Total() - w.checkpoint) + 3 + 2 * |w.toSender|
    ensures w.checkpoint <= tr.Total() && forall k :: 0 <= k < |w.toSender| ==> w.toSender[k] < tr.Total()
  {
    var u, l := Reconnected(tr, w, salt, baseIv), Opening(tr, w);
    QueuesInRange(tr, w);
    ReconnectSends(tr, w, salt, baseIv);
    TP.BeginStreams(tr.Total(), tr.window, tr.setting.batch, w.checkpoint, w.toSender);
    hide TP.Streaming, OpenActions, Opened, Frames, TP.Acks, TP.Throughs, Emit, ResumeInv, Finished;
    assert u.toSender + u.toRelay == w.toSender;
    OpenedBase(tr, w.checkpoint);
  }

  lemma OpenedBase(tr: Transfer, from: nat)
    requires tr.Valid()
    ensures var s := Opened(Fresh(tr.Total(), tr.window), from);
            s.base == from && s.total == tr.Total() && s.window == tr.window
  {
  }

  lemma QueuesInRange(tr: Transfer, w: World)
    requires tr.Valid() && ResumeInv(tr, w)
    ensures w.checkpoint <= tr.Total() && forall k :: 0 <= k < |w.toSender| ==> w.toSender[k] < tr.Total()
    ensures BufferInv(tr, w)
  {
  }

  /** The acknowledgements a reconnect finds in the sender's queue come in turn: each names a chunk that was sent by the
      time it is read. */
  ghost predicate StaleInTurn(tr: Transfer, w: World)
    requires tr.Valid()
  {
    TP.InTurn(Opened(Fresh(tr.Total(), tr.window), w.checkpoint), w.toSender)
  }

  /** Whatever is in the queue, a holding connection comes to rest: at most four steps per missing chunk, two per stale
      acknowledgement, and three. */
  lemma ReconnectIsShort(tr: Transfer, w: World, salt: seq<Byte>, baseIv: seq<Byte>, steps: seq<Step>)
    requires tr.Valid() && SealsAll(tr) && ResumeInv(tr, w) && KeyLengths(salt, baseIv) && w.toRelay == []
    requires CanRun(tr, Reconnected(tr, w, salt, baseIv), steps) && AllGoing(steps)
    ensures |steps| <= 4 * (tr.Total() - w.checkpoint) + 3 + 2 * |w.toSender|
  {
    hide *;
    var u := Reconnected(tr, w, salt, baseIv);
    ReconnectInStep(tr, w, salt, baseIv);
    var t, moves := RunsInStep(tr, u, Opening(tr, w), steps);
    LeftIsNatural(tr, Run(tr, u, steps), t);
  }

  /** Resuming makes progress: with the acknowledgements in turn, a run of the holding connection that cannot go on has
      delivered the whole payload, provided batch, window and what is left are `Finishable`; a batch within the window
      always is. */
  lemma ReconnectFinishes(tr: Transfer, w: World, salt: seq<Byte>, baseIv: seq<Byte>, steps: seq<Step>)
    requires tr.Valid() && SealsAll(tr) && ResumeInv(tr, w) && KeyLengths(salt, baseIv) && w.toRelay == []
    requires TP.Finishable(tr.Total(), tr.window, tr.setting.batch, w.checkpoint) && StaleInTurn(tr, w)
    requires CanRun(tr, Reconnected(tr, w, salt, baseIv), steps) && AllGoing(steps)
    ensures var t := Run(tr, Reconnected(tr, w, salt, baseIv), steps);
            AtRest(t) ==> ReceiverDone(t) && t.receiver.buf == tr.payload
  {
    hide *;
    var u, l := Reconnected(tr, w, salt, baseIv), Opening(tr, w);
    ReconnectInStep(tr, w, salt, baseIv);
    ReconnectKeepsResume(tr, w, salt, baseIv);
    OpeningFlows(tr, w);
    var t, moves := RunsInStep(tr, u, l, steps);
    var end := Run(tr, u, steps);
    FlowsAlong(tr, l, moves, t, w.checkpoint);
    if AtRest(end) {
      RestIsQuiet(tr, end, t);
      QuietIsDone(tr, end, t, w.checkpoint);
      GoingIsSafe(tr, u, steps);
    }
  }

  lemma OpeningFlows(tr: Transfer, w: World)
    requires tr.Valid() && w.checkpoint <= tr.Total() && StaleInTurn(tr, w)
    requires forall k :: 0 <= k < |w.toSender| ==> w.toSender[k] < tr.Total()
    ensures TP.Flowing(Opening(tr, w), w.checkpoint)
  {
    TP.BeginFlowsWith(tr.Total(), tr.window, tr.setting.batch, w.checkpoint, w.toSender);
    hide TP.Flowing, TP.InTurn, TP.BeginWith;
  }

  lemma FlowsAlong(tr: Transfer, l: TP.Link, moves: seq<TP.Move>, t: TP.Link, from: nat)
    requires TP.Flowing(l, from) && Moved(l, moves, t)
    ensures TP.Flowing(t, from)
  {
    TP.RunFlows(l, from, moves);
    hide TP.Flowing;
  }

  lemma QuietIsDone(tr: Transfer, w: World, l: TP.Link, from: nat)
    requires InStep(tr, w, l) && TP.Flowing(l, from) && TP.Quiet(l) && w.receiver.session.Some?
    requires TP.Finishable(tr.Total(), tr.window, tr.setting.batch, from)
    ensures ReceiverDone(w)
  {
    TP.QuietMeansDone(l, from);
    hide TP.Flowing, TP.Streaming, Finished;
  }

  /** Whatever the connection does while it holds keeps the buffer a prefix. */
  lemma GoingIsSafe(tr: Transfer, w: World, steps: seq<Step>)
    requires tr.Valid() && ResumeInv(tr, w) && CanRun(tr, w, steps) && AllGoing(steps)
    ensures var t := Run(tr, w, steps); ReceiverDone(t) ==> t.receiver.buf == tr.payload
  {
    GoingIsSettled(tr, w, steps);
    SettledRunKeepsResume(tr, w, steps);
    hide ResumeInv, CanRun, Run;
    assert BufferInv(tr, Run(tr, w, steps)) by { ResumeIsBuffer(tr, Run(tr, w, steps)); }
    BufferInvIsSafe(tr, Run(tr, w, steps));
  }

  lemma ResumeIsBuffer(tr: Transfer, w: World)
    requires tr.Valid() && ResumeInv(tr, w)
    ensures BufferInv(tr, w)
  {
  }

  lemma {:induction false} GoingIsSettled(tr: Transfer, w: World, steps: seq<Step>)
    requires tr.Valid() && CanRun(tr, w, steps) && forall k :: 0 <= k < |steps| ==> !steps[k].Reconnect?
    ensures AllSettled(tr, w, steps)
    decreases |steps|
  {
    hide Apply, Enabled;
    if steps == [] {
    } else {
      GoingIsSettled(tr, Apply(tr, w, steps[0]), steps[1..]);
    }
  }

  /** An acknowledgement out of turn leaves a connection that never completes. */
  lemma NeverDone(tr: Transfer, w: World, salt: seq<Byte>, baseIv: seq<Byte>, steps: seq<Step>)
    requires tr.Valid() && SealsAll(tr) && ResumeInv(tr, w) && KeyLengths(salt, baseIv) && w.toRelay == []
    requires !StaleInTurn(tr, w) && CanRun(tr, Reconnected(tr, w, salt, baseIv), steps) && AllGoing(steps)
    ensures !ReceiverDone(Run(tr, Reconnected(tr, w, salt, baseIv), steps))
  {
    hide *;
    var u, l := Reconnected(tr, w, salt, baseIv), Opening(tr, w);
    ReconnectInStep(tr, w, salt, baseIv);
    OpeningIsOut(tr, w);
    var t, moves := RunsInStep(tr, u, l, steps);
    OutAlong(l, moves, t);
    NotDone(tr, Run(tr, u, steps), t);
  }

  lemma OpeningIsOut(tr: Transfer, w: World)
    requires tr.Valid() && w.checkpoint <= tr.Total() && !StaleInTurn(tr, w)
    requires forall k :: 0 <= k < |w.toSender| ==> w.toSender[k] < tr.Total()
    ensures TP.OutOfTurn(Opening(tr, w)) && Opening(tr, w).snd.base <= Opening(tr, w).snd.total
  {
    TP.BeginOutOfTurn(tr.Total(), tr.window, tr.setting.batch, w.checkpoint, w.toSender);
    hide TP.OutOfTurn, TP.InTurn, TP.BeginWith;
  }

  lemma OutAlong(l: TP.Link, moves: seq<TP.Move>, t: TP.Link)
    requires TP.OutOfTurn(l) && l.snd.base <= l.snd.total && Moved(l, moves, t)
    ensures !t.rcv.done
  {
    TP.NeverDoneOutOfTurn(l, moves);
    hide TP.OutOfTurn;
  }

  lemma NotDone(tr: Transfer, w: World, l: TP.Link)
    requires InStep(tr, w, l) && !l.rcv.done
    ensures !ReceiverDone(w)
  {
    hide TP.Streaming, Finished;
  }

  /** Every run of this connection that cannot go on has delivered the payload. */
  ghost predicate Completes(tr: Transfer, u: World)
    requires tr.Valid()
  {
    forall steps :: CanRun(tr, u, steps) && AllGoing(steps) && AtRest(Run(tr, u, steps)) ==>
      ReceiverDone(Run(tr, u, steps)) && Run(tr, u, steps).receiver.buf == tr.payload
  }

  /** Exact: a settled reconnect completes the transfer, if it holds, if and only if the acknowledgements of earlier
      connections in the sender's queue come in turn. If they do not, it never completes. */
  lemma ReconnectCompletesIff(tr: Transfer, w: World, salt: seq<Byte>, baseIv: seq<Byte>)
    requires tr.Valid() && SealsAll(tr) && ResumeInv(tr, w) && KeyLengths(salt, baseIv) && w.toRelay == []
    requires TP.Finishable(tr.Total(), tr.window, tr.setting.batch, w.checkpoint)
    ensures Completes(tr, Reconnected(tr, w, salt, baseIv)) <==> StaleInTurn(tr, w)
    ensures !StaleInTurn(tr, w) ==>
              forall steps :: CanRun(tr, Reconnected(tr, w, salt, baseIv), steps) && AllGoing(steps) ==>
                !ReceiverDone(Run(tr, Reconnected(tr, w, salt, baseIv), steps))
  {
    var u := Reconnected(tr, w, salt, baseIv);
    hide CanRun, Run, AllGoing, AtRest, ReceiverDone, StaleInTurn, ResumeInv, KeyLengths, TP.Finishable, Reconnected;
    if StaleInTurn(tr, w) {
      forall steps | CanRun(tr, u, steps) && AllGoing(steps) && AtRest(Run(tr, u, steps))
        ensures ReceiverDone(Run(tr, u, steps)) && Run(tr, u, steps).receiver.buf == tr.payload
      {
        ReconnectFinishes(tr, w, salt, baseIv, steps);
      }
    } else {
      forall steps | CanRun(tr, u, steps) && AllGoing(steps)
        ensures !ReceiverDone(Run(tr, u, steps))
      {
        NeverDone(tr, w, salt, baseIv, steps);
      }
      ReconnectInStep(tr, w, salt, baseIv);
      var steps := RunToRest(tr, u, Opening(tr, w));
    }
  }

  lemma FitsIsFinishable(tr: Transfer, from: nat)
    requires tr.Valid() && tr.setting.batch <= tr.window
    ensures TP.Finishable(tr.Total(), tr.window, tr.setting.batch, from)
  {
  }

  /** The same over a whole history of cuts, lost acknowledgements, fresh keys and restarts, for every batch within the
      window: the next reconnect, if settled and not cut again, completes the transfer exactly when what it finds in the
      sender's queue comes in turn. */
  lemma ResumeCompletesIff(tr: Transfer, salt: seq<Byte>, baseIv: seq<Byte>, early: seq<Step>,
                           newSalt: seq<Byte>, newIv: seq<Byte>)
    requires tr.Valid() && SealsAll(tr) && KeyLengths(salt, baseIv) && KeyLengths(newSalt, newIv)
    requires tr.setting.batch <= tr.window
    requires CanRun(tr, Begin(tr, salt, baseIv), early) && AllSettled(tr, Begin(tr, salt, baseIv), early)
    requires Run(tr, Begin(tr, salt, baseIv), early).toRelay == []
    ensures var w := Run(tr, Begin(tr, salt, baseIv), early);
            Completes(tr, Reconnected(tr, w, newSalt, newIv)) <==> StaleInTurn(tr, w)
  {
    hide *;
    var w := Run(tr, Begin(tr, salt, baseIv), early);
    BeginKeepsResume(tr, salt, baseIv);
    SettledRunKeepsResume(tr, Begin(tr, salt, baseIv), early);
    FitsIsFinishable(tr, w.checkpoint);
    ReconnectCompletesIff(tr, w, newSalt, newIv);
  }

  // ---- without a recipient's drop -----------------------------------------------------------------------------------

  predicate Undropped(steps: seq<Step>) {
    forall k :: 0 <= k < |steps| ==> !steps[k].RecipientDrops?
  }

  /** What the relay passed on is within its checkpoint. */
  predicate PassedOn(w: World) {
    forall k :: 0 <= k < |w.toSender| ==> w.toSender[k] <= w.checkpoint
  }

  lemma StepKeepsPassedOn(tr: Transfer, w: World, step: Step)
    requires tr.Valid() && Enabled(w, step) && !step.RecipientDrops? && PassedOn(w)
    ensures PassedOn(Apply(tr, w, step))
  {
    hide Emit, AfterBinary, BinaryOutputs, Announced, AfterAck, AckActions, Opened, OpenActions;
  }

  lemma {:induction false} RunKeepsPassedOn(tr: Transfer, w: World, steps: seq<Step>)
    requires tr.Valid() && CanRun(tr, w, steps) && Undropped(steps) && PassedOn(w)
    ensures PassedOn(Run(tr, w, steps))
    decreases |steps|
  {
    hide Apply, PassedOn, Enabled;
    if steps == [] {
    } else {
      StepKeepsPassedOn(tr, w, steps[0]);
      RunKeepsPassedOn(tr, Apply(tr, w, steps[0]), steps[1..]);
    }
  }

  lemma PassedOnIsInTurn(tr: Transfer, w: World)
    requires tr.Valid() && PassedOn(w) && w.checkpoint <= tr.Total()
    requires forall k :: 0 <= k < |w.toSender| ==> w.toSender[k] < tr.Total()
    ensures StaleInTurn(tr, w)
  {
    var s := Opened(Fresh(tr.Total(), tr.window), w.checkpoint);
    TP.WithinWindowIsInTurn(s, w.toSender, Min(tr.Total(), w.checkpoint + 1));
    hide TP.InTurn;
  }

  /** As long as the recipient itself never dropped, the first settled reconnect that holds completes the transfer: the
      queued acknowledgements are all within the checkpoint. */
  lemma UndroppedResumeCompletes(tr: Transfer, salt: seq<Byte>, baseIv: seq<Byte>, early: seq<Step>,
                                 newSalt: seq<Byte>, newIv: seq<Byte>)
    requires tr.Valid() && SealsAll(tr) && KeyLengths(salt, baseIv) && KeyLengths(newSalt, newIv)
    requires tr.setting.batch <= tr.window && Undropped(early)
    requires CanRun(tr, Begin(tr, salt, baseIv), early) && AllSettled(tr, Begin(tr, salt, baseIv), early)
    requires Run(tr, Begin(tr, salt, baseIv), early).toRelay == []
    ensures Completes(tr, Reconnected(tr, Run(tr, Begin(tr, salt, baseIv), early), newSalt, newIv))
  {
    hide *;
    var w := Run(tr, Begin(tr, salt, baseIv), early);
    BeginKeepsResume(tr, salt, baseIv);
    SettledRunKeepsResume(tr, Begin(tr, salt, baseIv), early);
    QueuesInRange(tr, w);
    BeginPassedOn(tr, salt, baseIv);
    RunKeepsPassedOn(tr, Begin(tr, salt, baseIv), early);
    PassedOnIsInTurn(tr, w);
    ResumeCompletesIff(tr, salt, baseIv, early, newSalt, newIv);
  }

  lemma BeginPassedOn(tr: Transfer, salt: seq<Byte>, baseIv: seq<Byte>)
    requires tr.Valid() && KeyLengths(salt, baseIv)
    ensures PassedOn(Begin(tr, salt, baseIv))
  {
    hide Emit, Opened, OpenActions;
  }

  // ---- a stale acknowledgement -----------------------------------------------------------------------------------

  lemma NothingWaits(tr: Transfer, w: World, l: TP.Link, from: nat)
    requires InStep(tr, w, l) && TP.Flowing(l, from) && TP.Finishable(tr.Total(), tr.window, tr.setting.batch, from)
    requires w.toSender == [] && w.toRelay == [] && l.rcv.expected < tr.Total()
    ensures l.rcv.expected < l.snd.next && Enabled(w, TakeData(0)) && w.snd.base <= w.snd.total
  {
    assert |l.control| == 0;
    if l.rcv.expected >= l.snd.next {
      NothingLeft(l);
      TP.QuietMeansDone(l, from);
    }
    WindowOnTheWay(l);
    hide TP.Streaming, TP.InTurn, Finished;
  }

  lemma NothingLeft(l: TP.Link)
    requires TP.Streaming(l) && l.control == [] && l.snd.next <= l.rcv.expected < l.snd.total
    ensures TP.Quiet(l)
  {
  }

  lemma WindowOnTheWay(l: TP.Link)
    requires TP.Streaming(l)
    ensures l.rcv.expected < l.snd.next ==> l.data != []
  {
  }

  /** A holding connection can be driven until any chunk has just arrived and every earlier acknowledgement was
      heard. */
  lemma {:induction false} DriveTo(tr: Transfer, w: World, l: TP.Link, from: nat, target: nat)
    returns (steps: seq<Step>, v: World)
    requires InStep(tr, w, l) && TP.Flowing(l, from) && w.receiver.session.Some?
    requires TP.Finishable(tr.Total(), tr.window, tr.setting.batch, from)
    requires l.rcv.expected < target <= tr.Total()
    ensures Reaches(tr, w, steps, v) && AllGoing(steps) && KeyLengths(v.salt, v.baseIv) && v.receiver.Valid()
    ensures v.toSender == [] && v.toRelay == TP.Throughs(WP.DueAck(target - 1, tr.setting.batch))
    decreases Left(w, l)
  {
    hide Apply, TP.Flowing, Reaches, Left, TP.Throughs, WP.DueAck, TP.Finishable, TP.Take, TP.Possible, InStep;
    LeftIsNatural(tr, w, l);
    InStepIsValid(tr, w, l);
    var step, next;
    if w.toSender != [] {
      step := SenderAck;
      BaseInRange(tr, w, l, from);
      next := HearsAck(tr, w, l);
      TP.MoveFlows(l, from, TP.TakeControl);
    } else if w.toRelay != [] {
      step, next := RelayAck, l;
      RelaysAck(tr, w, l);
    } else {
      step := TakeData(0);
      NothingWaits(tr, w, l, from);
      next := TakesChunk(tr, w, l, 0);
      TP.MoveFlows(l, from, TP.TakeData(0));
      BatchIs(tr, w, l);
      var due := TP.Throughs(WP.DueAck(l.rcv.expected, l.rcv.batch));
      assert [] + due == due;
    }
    var u := Apply(tr, w, step);
    OneGoing(tr, w, step);
    InStepIsValid(tr, u, next);
    if next.rcv.expected == target {
      steps, v := [step], u;
    } else {
      var rest;
      rest, v := DriveTo(tr, u, next, from, target);
      steps := [step] + rest;
      ReachesThen(tr, w, [step], u, rest, v);
    }
  }

  lemma BaseInRange(tr: Transfer, w: World, l: TP.Link, from: nat)
    requires InStep(tr, w, l) && TP.Flowing(l, from)
    ensures w.snd.base <= w.snd.total
  {
    hide TP.Streaming, TP.InTurn, Finished;
    assert TP.Streaming(l);
    StreamingIsWithin(l);
  }

  lemma StreamingIsWithin(l: TP.Link)
    requires TP.Streaming(l)
    ensures l.snd.next <= l.snd.total
  {
  }

  lemma BatchIs(tr: Transfer, w: World, l: TP.Link)
    requires InStep(tr, w, l)
    ensures l.rcv.batch == tr.setting.batch
  {
  }

  lemma OneGoing(tr: Transfer, w: World, step: Step)
    requires tr.Valid() && Enabled(w, step)
    ensures Reaches(tr, w, [step], Apply(tr, w, step))
  {
    hide Apply;
    OneStep(tr, w, [step], Apply(tr, w, step));
  }

  /** The end of the first connection: the last acknowledgement reaches the sender's queue, and the recipient starts
      over. */
  function RestartSteps(): seq<Step> {
    [RelayAck] + [RecipientDrops(true)]
  }

  lemma RestartRuns(tr: Transfer, w: World, target: nat) returns (v: World)
    requires tr.Valid() && KeyLengths(w.salt, w.baseIv) && w.receiver.Valid() && target >= 1
    requires w.toSender == [] && w.toRelay == [target - 1]
    ensures Reaches(tr, w, RestartSteps(), v)
    ensures KeyLengths(v.salt, v.baseIv) && v.checkpoint == 0 && v.toRelay == [] && v.toSender == [target - 1]
    ensures v.receiver == Receiver([], None)
  {
    var u := Apply(tr, w, RelayAck);
    v := Apply(tr, u, RecipientDrops(true));
    OneGoing(tr, w, RelayAck);
    OneGoing(tr, u, RecipientDrops(true));
    ReachesThen(tr, w, [RelayAck], u, [RecipientDrops(true)], v);
  }

  /** The exact condition can fail though the reconnect is settled. The sender's loop does not drain its queue of
      acknowledgements when it re-joins. For every multiple of the batch above the window and below the payload's chunk
      count there is a history in which the recipient acknowledges that many chunks, drops, and starts over: the sender
      opens from the beginning, and the stale acknowledgement puts its `base` beyond what it has sent. However long that
      connection holds, the transfer never completes. */
  lemma StaleAckStalls(tr: Transfer, salt: seq<Byte>, baseIv: seq<Byte>, newSalt: seq<Byte>, newIv: seq<Byte>,
                       target: nat, late: seq<Step>)
    returns (early: seq<Step>, w: World)
    requires tr.Valid() && SealsAll(tr) && KeyLengths(salt, baseIv) && KeyLengths(newSalt, newIv)
    requires tr.setting.batch <= tr.window < target < tr.Total() && target % tr.setting.batch == 0
    ensures Reaches(tr, Begin(tr, salt, baseIv), early, w) && AllSettled(tr, Begin(tr, salt, baseIv), early)
    ensures w.toRelay == [] && w.toSender == [target - 1] && !StaleInTurn(tr, w)
    ensures var u := Reconnected(tr, w, newSalt, newIv);
            CanRun(tr, u, late) && AllGoing(late) ==> !ReceiverDone(Run(tr, u, late))
  {
    hide *;
    var start := Begin(tr, salt, baseIv);
    var announced, l := BeginInStep(tr, salt, baseIv);
    FitsIsFinishable(tr, 0);
    var drive, there := DriveTo(tr, announced, l, 0, target);
    DueAtMultiple(tr, target);
    w := RestartRuns(tr, there, target);
    ReachesThen(tr, start, [TakeData(0)], announced, drive, there);
    ReachesThen(tr, start, [TakeData(0)] + drive, there, RestartSteps(), w);
    early := [TakeData(0)] + drive + RestartSteps();
    NoReconnects(drive);
    EarlyIsSettled(tr, start, early, w);
    BeginKeepsResume(tr, salt, baseIv);
    ReachesMeans(tr, start, early, w);
    SettledRunKeepsResume(tr, start, early);
    BeyondTheWindow(tr, w, target);
    if CanRun(tr, Reconnected(tr, w, newSalt, newIv), late) && AllGoing(late) {
      NeverDone(tr, w, newSalt, newIv, late);
    }
  }

  lemma BeyondTheWindow(tr: Transfer, w: World, target: nat)
    requires tr.Valid() && w.checkpoint == 0 && w.toSender == [target - 1] && tr.window < target < tr.Total()
    ensures !StaleInTurn(tr, w)
  {
    hide AfterAck;
  }

  lemma BeginInStep(tr: Transfer, salt: seq<Byte>, baseIv: seq<Byte>) returns (w: World, l: TP.Link)
    requires tr.Valid() && SealsAll(tr) && KeyLengths(salt, baseIv)
    ensures Reaches(tr, Begin(tr, salt, baseIv), [TakeData(0)], w) && InStep(tr, w, l) && w.receiver.session.Some?
    ensures TP.Flowing(l, 0) && l.rcv.expected == 0
  {
    var blank := World(salt, baseIv, Fresh(tr.Total(), tr.window), false, [], Receiver([], None), 0, [], [], 0);
    var start := Begin(tr, salt, baseIv);
    assert start == Reconnected(tr, blank, salt, baseIv);
    BlankIsResumable(tr, salt, baseIv);
    ReconnectInStep(tr, blank, salt, baseIv);
    l := Opening(tr, blank);
    NothingStale(tr, blank);
    OpeningFlows(tr, blank);
    assert l.rcv.expected == 0;
    StartsWithAnnouncement(tr, blank, salt, baseIv);
    hide OpenActions, Emit, Opened, Frames, TP.Flowing, InStep, Opening, Reconnected;
    TakesAnnouncement(tr, start, l, 0);
    w := Apply(tr, start, TakeData(0));
    OneGoing(tr, start, TakeData(0));
    hide Apply, Reaches;
  }

  lemma NothingStale(tr: Transfer, w: World)
    requires tr.Valid() && w.toSender == []
    ensures StaleInTurn(tr, w)
  {
  }

  lemma StartsWithAnnouncement(tr: Transfer, w: World, salt: seq<Byte>, baseIv: seq<Byte>)
    requires tr.Valid() && SealsAll(tr) && KeyLengths(salt, baseIv) && w.checkpoint <= tr.Total() && w.receiver.Valid()
    ensures Enabled(Reconnected(tr, w, salt, baseIv), TakeData(0))
    ensures Reconnected(tr, w, salt, baseIv).receiver.session.None?
  {
    ReconnectSends(tr, w, salt, baseIv);
    hide Emit, Opened, OpenActions, Frames;
  }

  lemma BlankIsResumable(tr: Transfer, salt: seq<Byte>, baseIv: seq<Byte>)
    requires tr.Valid() && KeyLengths(salt, baseIv)
    ensures var blank := Fresh(tr.Total(), tr.window);
            ResumeInv(tr, World(salt, baseIv, blank, false, [], Receiver([], None), 0, [], [], 0))
  {
    PrefixOfAll(tr.payload, tr.setting.chunkSize);
  }

  lemma DueAtMultiple(tr: Transfer, target: nat)
    requires tr.Valid() && target >= 1 && target % tr.setting.batch == 0
    ensures TP.Throughs(WP.DueAck(target - 1, tr.setting.batch)) == [target - 1]
  {
  }

  lemma NoReconnects(drive: seq<Step>)
    requires AllGoing(drive)
    ensures var steps := [TakeData(0)] + drive + RestartSteps();
            forall k :: 0 <= k < |steps| ==> !steps[k].Reconnect?
  {
  }

  lemma EarlyIsSettled(tr: Transfer, w: World, steps: seq<Step>, v: World)
    requires tr.Valid() && Reaches(tr, w, steps, v) && forall k :: 0 <= k < |steps| ==> !steps[k].Reconnect?
    ensures CanRun(tr, w, steps) && AllSettled(tr, w, steps)
  {
    hide Apply;
    GoingIsSettled(tr, w, steps);
  }
}
