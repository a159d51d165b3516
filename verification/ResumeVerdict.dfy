/** How a resumed transfer ends: the receive loop compares the hash of its buffer with the announced one, over every run
    of `Resume`, the ones with a hole included. */
module ResumeVerdicts {
  import opened Bytes
  import opened Wrappers
  import opened SenderEngines
  import opened ReceiverEngines
  import opened Crypto
  import opened SenderAdapters
  import opened ReceiverAdapters
  import opened ReceiveLoops
  import opened Resume
  import RP = ResumeProgress

  type Hash = seq<Byte> -> string

  ghost predicate TellsApart(hash: Hash) {
    forall a, b :: hash(a) == hash(b) ==> a == b
  }

  /** How the loop goes on after the next message; every announcement carries the hash of the payload. */
  function Verdict(tr: Transfer, hash: Hash, w: World): Outcome
    requires w.data != [] && w.receiver.Valid()
  {
    match w.data[0]
    case Text(a) => if KeyLengths(a.salt, a.baseIv) then Continue else BadMetadata
    case Binary(bytes) =>
      OutcomeOf(BinaryOutputs(w.receiver, bytes), hash(AfterBinary(w.receiver, bytes, 0).buf), hash(tr.payload))
  }

  /** The next message completes the receiver. */
  ghost predicate Completing(tr: Transfer, w: World, at: nat)
    requires tr.Valid() && Enabled(w, TakeData(at))
  {
    !ReceiverDone(w) && ReceiverDone(Apply(tr, w, TakeData(at)))
  }

  lemma CompletionSeen(tr: Transfer, w: World, at: nat)
    requires tr.Valid() && Enabled(w, TakeData(at)) && w.data[0].Binary?
    ensures Completing(tr, w, at) <==> Completed in BinaryOutputs(w.receiver, w.data[0].bytes)
    ensures Apply(tr, w, TakeData(at)).receiver.buf == AfterBinary(w.receiver, w.data[0].bytes, 0).buf
  {
    if w.receiver.session.Some? {
      var s := w.receiver.session.value;
      ReceiveLoops.CompletesIff(s.stream, s.rcv, w.data[0].bytes, at);
    }
    hide AfterFrame, FrameOutputs, AcksOf, TextOf;
  }

  /** In any state at all, with a hash that tells contents apart: the loop finishes exactly when the message completes
      the receiver and the buffer is the payload, and reports a mismatch exactly when it completes over anything
      else. */
  lemma FinishesIffWhole(tr: Transfer, hash: Hash, w: World, at: nat)
    requires tr.Valid() && TellsApart(hash) && hash(tr.payload) != "" && Enabled(w, TakeData(at))
    ensures var whole := Apply(tr, w, TakeData(at)).receiver.buf == tr.payload;
            && (Verdict(tr, hash, w).Finished? <==> Completing(tr, w, at) && whole)
            && (Verdict(tr, hash, w) == Mismatch <==> Completing(tr, w, at) && !whole)
            && (Verdict(tr, hash, w).Finished? ==> Verdict(tr, hash, w).checksum == hash(tr.payload))
  {
    if w.data[0].Binary? {
      CompletionSeen(tr, w, at);
      hide Apply, AfterBinary, BinaryOutputs, Completing, Enabled;
    }
  }

  // ---- settled runs always finish -----------------------------------------------------------------------------------

  /** Over any settled history a completion is a success: the checksum never mismatches. */
  lemma SettledCompletionFinishes(tr: Transfer, hash: Hash, salt: seq<Byte>, baseIv: seq<Byte>, steps: seq<Step>,
      at: nat)
    requires tr.Valid() && KeyLengths(salt, baseIv) && TellsApart(hash) && hash(tr.payload) != ""
    requires var w := Begin(tr, salt, baseIv); CanRun(tr, w, steps) && AllSettled(tr, w, steps)
    requires Enabled(Run(tr, Begin(tr, salt, baseIv), steps), TakeData(at))
    ensures var w := Run(tr, Begin(tr, salt, baseIv), steps);
            && Verdict(tr, hash, w) != Mismatch
            && (Completing(tr, w, at) ==> Verdict(tr, hash, w) == Finished(hash(tr.payload)))
  {
    hide *;
    hide Completing;
    var w := Run(tr, Begin(tr, salt, baseIv), steps);
    BeginKeepsResume(tr, salt, baseIv);
    SettledRunKeepsResume(tr, Begin(tr, salt, baseIv), steps);
    FinishesIffWhole(tr, hash, w, at);
    NextIsSafe(tr, w, at);
    CompletingMeans(tr, w, at);
  }

  lemma NextIsSafe(tr: Transfer, w: World, at: nat)
    requires tr.Valid() && ResumeInv(tr, w) && Enabled(w, TakeData(at))
    ensures var v := Apply(tr, w, TakeData(at)); ReceiverDone(v) ==> v.receiver.buf == tr.payload
  {
    SettledStepKeepsResume(tr, w, TakeData(at));
    hide Apply, Enabled;
    BufferInvIsSafe(tr, Apply(tr, w, TakeData(at)));
  }

  lemma CompletingMeans(tr: Transfer, w: World, at: nat)
    requires tr.Valid() && Enabled(w, TakeData(at))
    ensures Completing(tr, w, at) ==> ReceiverDone(Apply(tr, w, TakeData(at)))
  {
  }

  // ---- what every run keeps -----------------------------------------------------------------------------------------

  /** Whatever the buffer holds, what is on the wire is honest and the engine stands within the payload. */
  ghost predicate WireInv(tr: Transfer, w: World)
    requires tr.Valid()
  {
    && KeyLengths(w.salt, w.baseIv) && w.snd.Valid() && w.snd.total == tr.Total() && w.checkpoint <= tr.Total()
    && HonestData(tr, w, w.data)
    && (forall k :: 0 <= k < |w.data| && w.data[k].Text? ==> k == 0 && w.receiver.session.None?)
    && (w.receiver.session.Some? ==>
          var s := w.receiver.session.value;
          s.stream == Stream(tr.setting.derive(w.salt), w.baseIv) && Standing(tr.Src(w.salt, w.baseIv), s.rcv))
    && (forall k :: 0 <= k < |w.toRelay| ==> w.toRelay[k] < tr.Total())
  }

  lemma TakeKeepsWire(tr: Transfer, w: World, at: nat)
    requires tr.Valid() && WireInv(tr, w) && Enabled(w, TakeData(at))
    ensures WireInv(tr, Apply(tr, w, TakeData(at)))
  {
    assert HonestWire(tr, w, w.data[0]);
    var v := Apply(tr, w, TakeData(at));
    assert forall k :: 0 <= k < |v.data| ==> v.data[k] == w.data[k + 1];
    if w.data[0].Binary? && w.receiver.session.Some? {
      FaithfulFrame(tr.Src(w.salt, w.baseIv), w.receiver.session.value.rcv, w.data[0].bytes, at);
    }
    hide AfterFrame, FrameOutputs, AcksOf, TextOf, Faithful, Prefix, Truncated;
  }

  lemma SenderAckKeepsWire(tr: Transfer, w: World)
    requires tr.Valid() && WireInv(tr, w) && Enabled(w, SenderAck)
    ensures WireInv(tr, Apply(tr, w, SenderAck))
  {
    if !w.sndFinished {
      var t := w.toSender[0];
      PumpStaysWithin(Acked(w.snd, t));
      EmissionIsHonest(tr, w, AckActions(w.snd, t));
    }
    hide Emit, AckActions, Faithful, Standing;
  }

  lemma ReconnectKeepsWire(tr: Transfer, w: World, salt: seq<Byte>, baseIv: seq<Byte>)
    requires tr.Valid() && WireInv(tr, w) && KeyLengths(salt, baseIv)
    ensures WireInv(tr, Reconnected(tr, w, salt, baseIv))
  {
    ReconnectTaken(tr, w, salt, baseIv);
    hide HonestData, Emit, OpenActions, Opened;
  }

  lemma StepKeepsWire(tr: Transfer, w: World, step: Step)
    requires tr.Valid() && WireInv(tr, w) && Enabled(w, step)
    ensures WireInv(tr, Apply(tr, w, step))
  {
    match step {
      case TakeData(at) => TakeKeepsWire(tr, w, at);
      case SenderAck => SenderAckKeepsWire(tr, w);
      case Reconnect(salt, baseIv) => ReconnectKeepsWire(tr, w, salt, baseIv);
      case _ =>
    }
  }

  lemma {:induction false} RunKeepsWire(tr: Transfer, w: World, steps: seq<Step>)
    requires tr.Valid() && WireInv(tr, w) && CanRun(tr, w, steps)
    ensures WireInv(tr, Run(tr, w, steps))
    decreases |steps|
  {
    hide WireInv, Apply, Enabled;
    if steps == [] {
    } else {
      StepKeepsWire(tr, w, steps[0]);
      RunKeepsWire(tr, Apply(tr, w, steps[0]), steps[1..]);
    }
  }

  lemma BeginKeepsWire(tr: Transfer, salt: seq<Byte>, baseIv: seq<Byte>)
    requires tr.Valid() && KeyLengths(salt, baseIv)
    ensures WireInv(tr, Begin(tr, salt, baseIv))
  {
    var blank := World(salt, baseIv, SenderEngines.Fresh(tr.Total(), tr.window), false, [], Receiver([], None), 0, [],
        [], 0);
    ReconnectKeepsWire(tr, blank, salt, baseIv);
  }

  // ---- a hole is caught ---------------------------------------------------------------------------------------------

  /** Fewer bytes are committed than the engine counts. */
  ghost predicate Short(tr: Transfer, w: World)
    requires tr.Valid()
  {
    && WireInv(tr, w) && w.receiver.session.Some?
    && |w.receiver.buf| < Offset(w.receiver.session.value.rcv.expected, tr.setting.chunkSize, |tr.payload|)
  }

  lemma TakeStaysShort(tr: Transfer, w: World, at: nat)
    requires tr.Valid() && Short(tr, w) && Enabled(w, TakeData(at))
    ensures Short(tr, Apply(tr, w, TakeData(at)))
  {
    TakeKeepsWire(tr, w, at);
    var src, s, bytes := tr.Src(w.salt, w.baseIv), w.receiver.session.value.rcv, w.data[0].bytes;
    assert HonestWire(tr, w, w.data[0]);
    FaithfulFrame(src, s, bytes, at);
    hide WireInv, AfterFrame, FrameOutputs, AcksOf, TextOf, Faithful;
  }

  lemma GoingStaysShort(tr: Transfer, w: World, step: Step)
    requires tr.Valid() && Short(tr, w) && Enabled(w, step) && RP.Going(step)
    ensures Short(tr, Apply(tr, w, step))
  {
    if step.TakeData? {
      TakeStaysShort(tr, w, step.at);
    } else {
      StepKeepsWire(tr, w, step);
      hide WireInv;
    }
  }

  lemma {:induction false} HoldingStaysShort(tr: Transfer, w: World, steps: seq<Step>)
    requires tr.Valid() && Short(tr, w) && CanRun(tr, w, steps) && RP.AllGoing(steps)
    ensures Short(tr, Run(tr, w, steps))
    decreases |steps|
  {
    hide Short, Apply, Enabled;
    if steps == [] {
    } else {
      GoingStaysShort(tr, w, steps[0]);
      HoldingStaysShort(tr, Apply(tr, w, steps[0]), steps[1..]);
    }
  }

  lemma ShortIsNotWhole(tr: Transfer, w: World)
    requires tr.Valid() && Short(tr, w)
    ensures w.receiver.buf != tr.payload
  {
  }

  /** The run that leaves a hole never ends well: however long that connection holds, the loop does not finish, and a
      completion is reported as a mismatch. */
  lemma HoleIsCaught(tr: Transfer, hash: Hash, salt: seq<Byte>, baseIv: seq<Byte>, late: seq<Step>, at: nat)
    requires tr.Valid() && SealsAll(tr) && KeyLengths(salt, baseIv) && TellsApart(hash) && hash(tr.payload) != ""
    requires 2 <= tr.setting.batch <= tr.Total() && tr.setting.batch <= tr.window
    requires CanRun(tr, Begin(tr, salt, baseIv), LateAck(tr.setting.batch, salt, baseIv) + late) && RP.AllGoing(late)
    requires var steps := LateAck(tr.setting.batch, salt, baseIv) + late;
             Enabled(Run(tr, Begin(tr, salt, baseIv), steps), TakeData(at))
    ensures var w := Run(tr, Begin(tr, salt, baseIv), LateAck(tr.setting.batch, salt, baseIv) + late);
            && !Verdict(tr, hash, w).Finished?
            && (Completing(tr, w, at) ==> Verdict(tr, hash, w) == Mismatch)
  {
    hide *;
    hide Verdict, Completing;
    var start, first := Begin(tr, salt, baseIv), LateAck(tr.setting.batch, salt, baseIv);
    LateAckLeavesHole(tr, salt, baseIv);
    SplitRun(tr, start, first, late);
    var hole := Run(tr, start, first);
    BeginKeepsWire(tr, salt, baseIv);
    RunKeepsWire(tr, start, first);
    assert Short(tr, hole) by { HoleIsShort(tr, hole, tr.setting.batch); }
    HoldingStaysShort(tr, hole, late);
    var w := Run(tr, hole, late);
    TakeStaysShort(tr, w, at);
    ShortIsNotWhole(tr, Apply(tr, w, TakeData(at)));
    FinishesIffWhole(tr, hash, w, at);
  }

  lemma HoleIsShort(tr: Transfer, w: World, b: nat)
    requires tr.Valid() && WireInv(tr, w) && w.receiver.session.Some? && w.receiver.session.value.rcv.expected == b
    requires |w.receiver.buf| < Offset(b, tr.setting.chunkSize, |tr.payload|)
    ensures Short(tr, w)
  {
  }

  lemma {:induction false} SplitRun(tr: Transfer, w: World, a: seq<Step>, b: seq<Step>)
    requires tr.Valid() && CanRun(tr, w, a + b)
    ensures CanRun(tr, w, a) && CanRun(tr, Run(tr, w, a), b) && Run(tr, w, a + b) == Run(tr, Run(tr, w, a), b)
    decreases |a|
  {
    hide Apply, Enabled;
    if a == [] {
      assert a + b == b;
    } else {
      assert (a + b)[1..] == a[1..] + b;
      SplitRun(tr, Apply(tr, w, a[0]), a[1..], b);
    }
  }
}
