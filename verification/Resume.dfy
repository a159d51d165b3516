/** Resuming a transfer over any number of dropped connections: the sender's drive loop, an ordered data
    channel that may be cut anywhere, the receive loop, and the relay's acknowledgement checkpoint. */
module Resume {
  import opened Bytes
  import opened Wrappers
  import opened SenderEngines
  import opened ReceiverEngines
  import opened Crypto
  import opened SenderAdapters
  import opened ReceiverAdapters
  import opened ReceiveLoops
  import Codec

  /** One transfer: the payload, the receiver's settings and the sender's window. */
  datatype Transfer = Transfer(setting: Setting, payload: seq<Byte>, window: nat) {
    ghost predicate Valid() {
      && setting.chunkSize >= 1 && setting.batch >= 1 && 1 <= window < U64
      && ChunkCount(|payload|, setting.chunkSize) < U64
      && forall salt: seq<Byte> :: setting.derive(salt).Sound()
    }

    /** The keyed stream of one attempt. */
    function Src(salt: seq<Byte>, baseIv: seq<Byte>): Source {
      Source(setting.derive(salt), salt, baseIv, payload, setting.chunkSize)
    }

    function Total(): nat
      requires setting.chunkSize >= 1
    {
      ChunkCount(|payload|, setting.chunkSize)
    }
  }

  datatype Wire = Text(announcement: Announcement) | Binary(bytes: seq<Byte>)

  datatype World = World(
    salt: seq<Byte>,
    baseIv: seq<Byte>,
    snd: SenderState,
    sndFinished: bool,
    data: seq<Wire>,
    receiver: Receiver,
    held: nat,                // chunks the receiver counts as committed
    toRelay: seq<nat>,        // acknowledgements the relay has not seen yet
    toSender: seq<nat>,       // acknowledgements it has passed on
    checkpoint: nat)

  datatype Step =
    | TakeData(at: nat)
    | RelayAck
    | SenderAck
    | LoseAcks
    | Reconnect(salt: seq<Byte>, baseIv: seq<Byte>)
    | RecipientDrops(restarts: bool)

  function Texts(ts: seq<Announcement>): seq<Wire> {
    seq(|ts|, k requires 0 <= k < |ts| => Text(ts[k]))
  }

  function Binaries(bs: seq<seq<Byte>>): seq<Wire> {
    seq(|bs|, k requires 0 <= k < |bs| => Binary(bs[k]))
  }

  // ---- one step -------------------------------------------------------------------------------------

  predicate Enabled(w: World, step: Step) {
    && KeyLengths(w.salt, w.baseIv) && w.receiver.Valid()
    && match step
       case TakeData(_) => w.data != []
       case RelayAck => w.toRelay != []
       case SenderAck => w.toSender != [] && w.toSender[0] < U64
       case Reconnect(salt, baseIv) => KeyLengths(salt, baseIv)
       case LoseAcks => true
       case RecipientDrops(_) => true
  }

  function Take(tr: Transfer, w: World, at: nat): World
    requires tr.Valid() && Enabled(w, TakeData(at))
  {
    match w.data[0]
    case Text(a) =>
      w.(data := w.data[1..], receiver := Announced(tr.setting, w.receiver, a),
         held := Min(w.held, a.resumeFromChunk))
    case Binary(bytes) =>
      var out := BinaryOutputs(w.receiver, bytes);
      w.(data := w.data[1..], receiver := AfterBinary(w.receiver, bytes, at),
         held := if w.receiver.session.None? then w.held
                 else w.held + (AfterBinary(w.receiver, bytes, at).session.value.rcv.expected
                                - w.receiver.session.value.rcv.expected),
         toRelay := w.toRelay + AcksOf(out))
  }

  /** The cut discards what is in flight on the data channel. A fresh key and base are drawn, the relay's
      checkpoint is read, and the new channel starts there; acknowledgements on their way survive. */
  function Reconnected(tr: Transfer, w: World, salt: seq<Byte>, baseIv: seq<Byte>): World
    requires tr.Valid() && KeyLengths(salt, baseIv)
  {
    var blank := Fresh(tr.Total(), tr.window);
    var e := Emit(tr.Src(salt, baseIv), OpenActions(blank, w.checkpoint));
    w.(salt := salt, baseIv := baseIv,
       snd := Opened(blank, w.checkpoint), sndFinished := e.failed,
       data := Texts(e.texts) + Binaries(e.binaries),
       receiver := w.receiver.(session := None))
  }

  function Apply(tr: Transfer, w: World, step: Step): World
    requires tr.Valid() && Enabled(w, step)
  {
    match step
    case TakeData(at) => Take(tr, w, at)
    case RelayAck =>
      var t := w.toRelay[0];
      w.(toRelay := w.toRelay[1..], toSender := w.toSender + [t], checkpoint := Max(w.checkpoint, t))
    case SenderAck =>
      var t := w.toSender[0];
      if w.sndFinished then w.(toSender := w.toSender[1..])
      else
        var e := Emit(tr.Src(w.salt, w.baseIv), AckActions(w.snd, t));
        w.(toSender := w.toSender[1..], snd := AfterAck(w.snd, t),
           data := w.data + Binaries(e.binaries),
           sndFinished := e.failed || t >= WrappingSub(w.snd.total % U64, 1))
    case LoseAcks => w.(toRelay := [])
    case Reconnect(salt, baseIv) => Reconnected(tr, w, salt, baseIv)
    case RecipientDrops(restarts) =>
      var v := w.(checkpoint := 0, toRelay := []);
      if restarts then v.(data := [], receiver := Receiver([], None), held := 0) else v
  }

  function Begin(tr: Transfer, salt: seq<Byte>, baseIv: seq<Byte>): World
    requires tr.Valid() && KeyLengths(salt, baseIv)
  {
    Reconnected(
      tr,
      World(salt, baseIv, Fresh(tr.Total(), tr.window), false, [], Receiver([], None), 0, [], [], 0),
      salt, baseIv)
  }

  // ---- the buffer is a prefix --------------------------------------------------------------------------

  ghost predicate HonestWire(tr: Transfer, w: World, m: Wire)
    requires tr.Valid() && KeyLengths(w.salt, w.baseIv)
  {
    match m
    case Text(a) => a.salt == w.salt && a.baseIv == w.baseIv && a.resumeFromChunk <= tr.Total()
    case Binary(bytes) => Faithful(tr.Src(w.salt, w.baseIv), bytes)
  }

  ghost predicate HonestData(tr: Transfer, w: World, data: seq<Wire>)
    requires tr.Valid() && KeyLengths(w.salt, w.baseIv)
  {
    forall k :: 0 <= k < |data| ==> HonestWire(tr, w, data[k])
  }

  ghost predicate BufferInv(tr: Transfer, w: World)
    requires tr.Valid()
  {
    && KeyLengths(w.salt, w.baseIv)
    && w.snd.Valid() && w.snd.total == tr.Total()
    && w.held <= tr.Total()
    && w.receiver.buf == Prefix(tr.payload, tr.setting.chunkSize, w.held)
    && (w.receiver.session.Some? ==>
          var s := w.receiver.session.value;
          && s.stream == Stream(tr.setting.derive(w.salt), w.baseIv)
          && Standing(tr.Src(w.salt, w.baseIv), s.rcv) && s.rcv.expected == w.held)
    && HonestData(tr, w, w.data)
    && w.checkpoint <= tr.Total()
    && (forall k :: 0 <= k < |w.toRelay| ==> w.toRelay[k] < tr.Total())
    && (forall k :: 0 <= k < |w.toSender| ==> w.toSender[k] < tr.Total())
  }

  /** The one thing the receive loop would have to check, and does not: an announcement does not resume
      beyond what has been committed. */
  predicate Guarded(w: World, step: Step) {
    step.TakeData? && w.data != [] && w.data[0].Text? ==> w.data[0].announcement.resumeFromChunk <= w.held
  }

  lemma OffsetBelow(i: nat, j: nat, chunkSize: nat, size: nat)
    requires chunkSize >= 1 && i <= j
    ensures Offset(i, chunkSize, size) <= Offset(j, chunkSize, size)
    ensures i < j && i * chunkSize < size ==> Offset(i, chunkSize, size) < Offset(j, chunkSize, size)
  {
    Multiply(i, j, chunkSize);
    if i < j {
      Multiply(i + 1, j, chunkSize);
      assert (i + 1) * chunkSize == i * chunkSize + chunkSize;
    }
  }

  /** Cutting a prefix back to chunk `i` gives the shorter of the two prefixes. */
  lemma PrefixTruncated(payload: seq<Byte>, chunkSize: nat, held: nat, i: nat)
    requires chunkSize >= 1
    ensures Truncated(Prefix(payload, chunkSize, held), i, chunkSize) == Prefix(payload, chunkSize, Min(held, i))
  {
    var size := |payload|;
    if i <= held {
      OffsetBelow(i, held, chunkSize, size);
    } else {
      OffsetBelow(held, i, chunkSize, size);
      Multiply(held, i, chunkSize);
    }
  }

  lemma TextTaken(tr: Transfer, w: World, at: nat)
    requires tr.Valid() && BufferInv(tr, w) && Enabled(w, TakeData(at)) && w.data[0].Text?
    requires Guarded(w, TakeData(at))
    ensures var v := Apply(tr, w, TakeData(at));
            && BufferInv(tr, v) && v.held == w.data[0].announcement.resumeFromChunk
            && v.toRelay == w.toRelay && v.checkpoint == w.checkpoint && v.data == w.data[1..]
            && v.receiver.session.Some?
  {
    var a := w.data[0].announcement;
    assert HonestWire(tr, w, w.data[0]);
    PrefixTruncated(tr.payload, tr.setting.chunkSize, w.held, a.resumeFromChunk);
  }

  lemma BinaryTaken(tr: Transfer, w: World, at: nat)
    requires tr.Valid() && BufferInv(tr, w) && Enabled(w, TakeData(at)) && w.data[0].Binary?
    ensures var v := Apply(tr, w, TakeData(at));
            && BufferInv(tr, v) && w.held <= v.held && v.data == w.data[1..] && v.checkpoint == w.checkpoint
            && |w.toRelay| <= |v.toRelay| && v.toRelay[..|w.toRelay|] == w.toRelay
            && (forall k :: |w.toRelay| <= k < |v.toRelay| ==> v.toRelay[k] < v.held)
            && (v.receiver.session.Some? <==> w.receiver.session.Some?)
            && (w.receiver.session.None? ==> v.toRelay == w.toRelay)
  {
    var bytes := w.data[0].bytes;
    assert HonestWire(tr, w, w.data[0]);
    if w.receiver.session.Some? {
      FaithfulFrame(tr.Src(w.salt, w.baseIv), w.receiver.session.value.rcv, bytes, at);
    }
  }

  lemma EmissionIsHonest(tr: Transfer, w: World, actions: seq<SenderAction>)
    requires tr.Valid() && KeyLengths(w.salt, w.baseIv) && WithinTotal(actions, tr.Total())
    ensures HonestData(tr, w, Binaries(Emit(tr.Src(w.salt, w.baseIv), actions).binaries))
  {
    EmissionsAreFaithful(tr.Src(w.salt, w.baseIv), actions);
  }

  lemma {:induction false} PumpAnnouncesNothing(src: Source, actions: seq<SenderAction>)
    requires src.Valid() && forall k :: 0 <= k < |actions| ==> !actions[k].Metadata?
    ensures Emit(src, actions).texts == []
  {
    if actions == [] {
    } else {
      PumpAnnouncesNothing(src, actions[1..]);
    }
  }

  /** A new channel carries one announcement, of the checkpoint, and honest frames behind it. */
  lemma ReconnectTaken(tr: Transfer, w: World, salt: seq<Byte>, baseIv: seq<Byte>)
    requires tr.Valid() && KeyLengths(salt, baseIv) && w.checkpoint <= tr.Total()
    ensures var v := Reconnected(tr, w, salt, baseIv);
            && HonestData(tr, v, v.data) && v.snd.Valid() && v.snd.total == tr.Total()
            && v.data != [] && v.data[0] == Text(Announcement(salt, baseIv, tr.Total(), w.checkpoint))
            && (forall k :: 1 <= k < |v.data| ==> v.data[k].Binary?)
  {
    var v, src := Reconnected(tr, w, salt, baseIv), tr.Src(salt, baseIv);
    var blank := Fresh(tr.Total(), tr.window);
    var actions := OpenActions(blank, w.checkpoint);
    PumpStaysWithin(blank);
    EmissionIsHonest(tr, v, actions);
    PumpAnnouncesNothing(src, actions[1..]);
    assert actions[0] == Metadata(w.checkpoint);
    assert Emit(src, actions).texts == [Announcement(salt, baseIv, tr.Total(), w.checkpoint)];
  }

  lemma SenderAckTaken(tr: Transfer, w: World)
    requires tr.Valid() && BufferInv(tr, w) && Enabled(w, SenderAck)
    ensures var v := Apply(tr, w, SenderAck);
            && BufferInv(tr, v) && v.held == w.held && v.receiver == w.receiver
            && v.toRelay == w.toRelay && v.checkpoint == w.checkpoint
            && |w.data| <= |v.data| && v.data[..|w.data|] == w.data
            && (forall k :: |w.data| <= k < |v.data| ==> v.data[k].Binary?)
  {
    if !w.sndFinished {
      var t := w.toSender[0];
      PumpStaysWithin(Acked(w.snd, t));
      EmissionIsHonest(tr, w, AckActions(w.snd, t));
    }
  }

  /** Every step keeps the buffer a prefix of the payload, provided an announcement taken does not resume
      beyond what is held. */
  lemma GuardedStepKeepsBuffer(tr: Transfer, w: World, step: Step)
    requires tr.Valid() && BufferInv(tr, w) && Enabled(w, step) && Guarded(w, step)
    ensures BufferInv(tr, Apply(tr, w, step))
  {
    match step
    case TakeData(at) => {
      if w.data[0].Text? {
        TextTaken(tr, w, at);
      } else {
        BinaryTaken(tr, w, at);
      }
    }
    case SenderAck => SenderAckTaken(tr, w);
    case Reconnect(salt, baseIv) => ReconnectTaken(tr, w, salt, baseIv);
    case RelayAck =>
    case LoseAcks =>
    case RecipientDrops(_) =>
  }

  /** The guard is exact: after any honest announcement the buffer ends where the chunk the engine waits
      for begins if and only if the guard held. Otherwise that chunk is written over a hole. */
  lemma AnnouncementFitsIff(tr: Transfer, w: World, at: nat)
    requires tr.Valid() && BufferInv(tr, w) && Enabled(w, TakeData(at)) && w.data[0].Text?
    ensures var v := Apply(tr, w, TakeData(at));
            && v.receiver.session.Some?
            && (|v.receiver.buf|
                == Offset(v.receiver.session.value.rcv.expected, tr.setting.chunkSize, |tr.payload|)
                <==> Guarded(w, TakeData(at)))
  {
    var resume, cs := w.data[0].announcement.resumeFromChunk, tr.setting.chunkSize;
    assert HonestWire(tr, w, w.data[0]);
    PrefixTruncated(tr.payload, cs, w.held, resume);
    if w.held < resume {
      ChunkCountIsCeiling(|tr.payload|, cs, w.held);
      OffsetBelow(w.held, resume, cs, |tr.payload|);
    }
  }

  // ---- the checkpoint never runs ahead -----------------------------------------------------------------

  /** A reconnect is settled when no acknowledgement is still on its way to the relay: the sender reads
      the checkpoint after the receiver's last acknowledgement. */
  predicate Settled(w: World, step: Step) {
    step.Reconnect? ==> w.toRelay == []
  }

  ghost predicate ResumeInv(tr: Transfer, w: World)
    requires tr.Valid()
  {
    && BufferInv(tr, w)
    && w.checkpoint <= w.held
    && (forall k :: 0 <= k < |w.toRelay| ==> w.toRelay[k] < w.held)
    && (forall k :: 0 <= k < |w.data| && w.data[k].Text? ==>
          && k == 0 && w.receiver.session.None? && w.toRelay == []
          && w.checkpoint <= w.data[0].announcement.resumeFromChunk <= w.held)
  }

  lemma TakeKeepsResume(tr: Transfer, w: World, at: nat)
    requires tr.Valid() && ResumeInv(tr, w) && Enabled(w, TakeData(at))
    ensures Guarded(w, TakeData(at)) && ResumeInv(tr, Apply(tr, w, TakeData(at)))
  {
    var v := Apply(tr, w, TakeData(at));
    if w.data[0].Text? {
      TextTaken(tr, w, at);
    } else {
      BinaryTaken(tr, w, at);
      forall k | 0 <= k < |v.toRelay|
        ensures v.toRelay[k] < v.held
      {
        if k < |w.toRelay| {
          assert v.toRelay[k] == v.toRelay[..|w.toRelay|][k];
        }
      }
    }
    assert forall k :: 0 <= k < |v.data| ==> v.data[k] == w.data[k + 1];
  }

  lemma SenderAckKeepsResume(tr: Transfer, w: World)
    requires tr.Valid() && ResumeInv(tr, w) && Enabled(w, SenderAck)
    ensures ResumeInv(tr, Apply(tr, w, SenderAck))
  {
    SenderAckTaken(tr, w);
    hide Apply, BufferInv;
    var v := Apply(tr, w, SenderAck);
    assert forall k :: 0 <= k < |w.data| ==> v.data[k] == v.data[..|w.data|][k] == w.data[k];
  }

  lemma ReconnectKeepsResume(tr: Transfer, w: World, salt: seq<Byte>, baseIv: seq<Byte>)
    requires tr.Valid() && ResumeInv(tr, w) && KeyLengths(salt, baseIv) && w.toRelay == []
    ensures ResumeInv(tr, Reconnected(tr, w, salt, baseIv))
  {
    ReconnectTaken(tr, w, salt, baseIv);
    hide HonestData, Emit, OpenActions, Opened;
  }

  lemma RelayKeepsResume(tr: Transfer, w: World, step: Step)
    requires tr.Valid() && ResumeInv(tr, w) && Enabled(w, step)
    requires step.RelayAck? || step.LoseAcks? || step.RecipientDrops?
    ensures ResumeInv(tr, Apply(tr, w, step))
  {
  }

  lemma SettledStepKeepsResume(tr: Transfer, w: World, step: Step)
    requires tr.Valid() && ResumeInv(tr, w) && Enabled(w, step) && Settled(w, step)
    ensures Guarded(w, step) && ResumeInv(tr, Apply(tr, w, step))
  {
    hide ResumeInv, Reconnected;
    match step {
      case TakeData(at) =>
        TakeKeepsResume(tr, w, at);
        hide Apply;
      case SenderAck =>
        SenderAckKeepsResume(tr, w);
        hide Apply;
      case Reconnect(salt, baseIv) => ReconnectKeepsResume(tr, w, salt, baseIv);
      case _ =>
        RelayKeepsResume(tr, w, step);
        hide Apply;
    }
  }

  // ---- whole runs ----------------------------------------------------------------------------------------

  ghost predicate CanRun(tr: Transfer, w: World, steps: seq<Step>)
    requires tr.Valid()
    decreases |steps|
  {
    steps == [] || (Enabled(w, steps[0]) && CanRun(tr, Apply(tr, w, steps[0]), steps[1..]))
  }

  ghost function Run(tr: Transfer, w: World, steps: seq<Step>): World
    requires tr.Valid() && CanRun(tr, w, steps)
    decreases |steps|
  {
    if steps == [] then w else Run(tr, Apply(tr, w, steps[0]), steps[1..])
  }

  ghost predicate AllSettled(tr: Transfer, w: World, steps: seq<Step>)
    requires tr.Valid() && CanRun(tr, w, steps)
    decreases |steps|
  {
    steps == [] || (Settled(w, steps[0]) && AllSettled(tr, Apply(tr, w, steps[0]), steps[1..]))
  }

  ghost predicate AllGuarded(tr: Transfer, w: World, steps: seq<Step>)
    requires tr.Valid() && CanRun(tr, w, steps)
    decreases |steps|
  {
    steps == [] || (Guarded(w, steps[0]) && AllGuarded(tr, Apply(tr, w, steps[0]), steps[1..]))
  }

  lemma {:induction false} SettledRunKeepsResume(tr: Transfer, w: World, steps: seq<Step>)
    requires tr.Valid() && ResumeInv(tr, w) && CanRun(tr, w, steps) && AllSettled(tr, w, steps)
    ensures ResumeInv(tr, Run(tr, w, steps)) && AllGuarded(tr, w, steps)
    decreases |steps|
  {
    if steps == [] {
    } else {
      SettledStepKeepsResume(tr, w, steps[0]);
      SettledRunKeepsResume(tr, Apply(tr, w, steps[0]), steps[1..]);
    }
  }

  lemma {:induction false} GuardedRunKeepsBuffer(tr: Transfer, w: World, steps: seq<Step>)
    requires tr.Valid() && BufferInv(tr, w) && CanRun(tr, w, steps) && AllGuarded(tr, w, steps)
    ensures BufferInv(tr, Run(tr, w, steps))
    decreases |steps|
  {
    if steps == [] {
    } else {
      GuardedStepKeepsBuffer(tr, w, steps[0]);
      GuardedRunKeepsBuffer(tr, Apply(tr, w, steps[0]), steps[1..]);
    }
  }

  lemma BeginKeepsResume(tr: Transfer, salt: seq<Byte>, baseIv: seq<Byte>)
    requires tr.Valid() && KeyLengths(salt, baseIv)
    ensures ResumeInv(tr, Begin(tr, salt, baseIv))
  {
    var blank := World(salt, baseIv, Fresh(tr.Total(), tr.window), false, [], Receiver([], None), 0, [], [], 0);
    ReconnectTaken(tr, blank, salt, baseIv);
    PrefixOfAll(tr.payload, tr.setting.chunkSize);
  }

  predicate ReceiverDone(w: World) {
    w.receiver.session.Some? && w.receiver.session.value.rcv.done
  }

  /** What a user relies on: the bytes committed are the payload's, from the start and without a hole, and
      a completed receiver has them all. */
  ghost predicate Safe(tr: Transfer, w: World)
    requires tr.Valid()
  {
    && w.held <= tr.Total()
    && w.receiver.buf == Prefix(tr.payload, tr.setting.chunkSize, w.held)
    && (ReceiverDone(w) ==> w.receiver.buf == tr.payload)
  }

  lemma BufferInvIsSafe(tr: Transfer, w: World)
    requires tr.Valid() && BufferInv(tr, w)
    ensures Safe(tr, w)
  {
    PrefixOfAll(tr.payload, tr.setting.chunkSize);
  }

  /** Resume safety. Over any number of cuts, lost acknowledgements, fresh keys and recipient restarts, if
      every reconnect is settled then the buffer is a prefix of the payload, the checkpoint is within it,
      and on completion the buffer is the payload. */
  lemma ResumeIsSafe(tr: Transfer, salt: seq<Byte>, baseIv: seq<Byte>, steps: seq<Step>)
    requires tr.Valid() && KeyLengths(salt, baseIv)
    requires var w := Begin(tr, salt, baseIv); CanRun(tr, w, steps) && AllSettled(tr, w, steps)
    ensures var t := Run(tr, Begin(tr, salt, baseIv), steps);
            Safe(tr, t) && t.checkpoint <= t.held
  {
    BeginKeepsResume(tr, salt, baseIv);
    SettledRunKeepsResume(tr, Begin(tr, salt, baseIv), steps);
    BufferInvIsSafe(tr, Run(tr, Begin(tr, salt, baseIv), steps));
  }

  /** The same without any timing assumption, for a receive loop that refused unguarded announcements. */
  lemma GuardedResumeIsSafe(tr: Transfer, salt: seq<Byte>, baseIv: seq<Byte>, steps: seq<Step>)
    requires tr.Valid() && KeyLengths(salt, baseIv)
    requires var w := Begin(tr, salt, baseIv); CanRun(tr, w, steps) && AllGuarded(tr, w, steps)
    ensures Safe(tr, Run(tr, Begin(tr, salt, baseIv), steps))
  {
    BeginKeepsResume(tr, salt, baseIv);
    GuardedRunKeepsBuffer(tr, Begin(tr, salt, baseIv), steps);
    BufferInvIsSafe(tr, Run(tr, Begin(tr, salt, baseIv), steps));
  }

  // ---- an acknowledgement that arrives late ----------------------------------------------------------------

  ghost predicate SealsAll(tr: Transfer) {
    forall salt: seq<Byte>, nonce: seq<Byte>, text: seq<Byte> :: tr.setting.derive(salt).seal(nonce, text).Some?
  }

  predicate IsChunk(src: Source, m: Wire, i: nat)
    requires src.Valid()
  {
    src.Sealed(i).Some? && m == Binary(Codec.ChunkBytes(i, src.Sealed(i).value))
  }

  /** The data starts with the frames of chunks `i .. i + n`. */
  ghost predicate Carries(src: Source, data: seq<Wire>, i: nat, n: nat)
    requires src.Valid()
    decreases n
  {
    n == 0 || (data != [] && IsChunk(src, data[0], i) && Carries(src, data[1..], i + 1, n - 1))
  }

  lemma {:induction false} EmitChunks(src: Source, lo: nat, hi: nat, tail: seq<SenderAction>)
    requires src.Valid() && lo <= hi && forall k: nat :: src.Sealed(k).Some?
    ensures Carries(src, Binaries(Emit(src, Chunks(lo, hi) + tail).binaries), lo, hi - lo)
    decreases hi - lo
  {
    if lo == hi {
    } else {
      var rest := Chunks(lo + 1, hi) + tail;
      assert Chunks(lo, hi) + tail == [Chunk(lo)] + rest;
      EmitChunks(src, lo + 1, hi, tail);
      EmitsOneChunk(src, lo, rest);
    }
  }

  lemma EmitsOneChunk(src: Source, i: nat, rest: seq<SenderAction>)
    requires src.Valid() && src.Sealed(i).Some?
    ensures var bs := Binaries(Emit(src, [Chunk(i)] + rest).binaries);
            bs != [] && IsChunk(src, bs[0], i) && bs[1..] == Binaries(Emit(src, rest).binaries)
  {
    assert ([Chunk(i)] + rest)[1..] == rest;
  }

  lemma SealedAlways(tr: Transfer, salt: seq<Byte>, baseIv: seq<Byte>)
    requires SealsAll(tr) && KeyLengths(salt, baseIv) && tr.setting.chunkSize >= 1
    ensures tr.Src(salt, baseIv).Valid()
    ensures forall k: nat :: tr.Src(salt, baseIv).Sealed(k).Some?
  {
  }

  /** A channel opened at `from` carries its announcement, then a window of chunks in order. */
  lemma ReconnectCarries(tr: Transfer, w: World, salt: seq<Byte>, baseIv: seq<Byte>, n: nat)
    requires tr.Valid() && KeyLengths(salt, baseIv) && w.checkpoint <= tr.Total()
    requires n == Min(tr.Total(), w.checkpoint + tr.window) - w.checkpoint
    requires forall k: nat :: tr.Src(salt, baseIv).Sealed(k).Some?
    ensures var v := Reconnected(tr, w, salt, baseIv);
            && v.data != [] && v.data[0] == Text(Announcement(salt, baseIv, tr.Total(), w.checkpoint))
            && Carries(tr.Src(salt, baseIv), v.data[1..], w.checkpoint, n)
  {
    var src, blank := tr.Src(salt, baseIv), Fresh(tr.Total(), tr.window);
    var hi := w.checkpoint + n;
    var tail := if hi == tr.Total() then [SenderAction.End(tr.Total())] else [];
    OpenSendsOneWindow(blank, w.checkpoint);
    var actions := OpenActions(blank, w.checkpoint);
    assert actions[1..] == Chunks(w.checkpoint, hi) + tail;
    EmitChunks(src, w.checkpoint, hi, tail);
    PumpAnnouncesNothing(src, actions[1..]);
    var e := Emit(src, actions);
    assert e.texts == [Announcement(salt, baseIv, tr.Total(), w.checkpoint)];
    assert (Texts(e.texts) + Binaries(e.binaries))[1..] == Binaries(e.binaries);
    hide Carries, OpenActions, Opened;
  }

  /** The receiver reads this stream and waits for chunk `i`. */
  ghost predicate Reading(tr: Transfer, salt: seq<Byte>, baseIv: seq<Byte>, r: Receiver, i: nat) {
    && KeyLengths(salt, baseIv) && r.Valid() && r.session.Some?
    && r.session.value.stream == Stream(tr.setting.derive(salt), baseIv)
    && r.session.value.rcv.expected == i && !r.session.value.rcv.done
    && r.session.value.rcv.batch == tr.setting.batch
  }

  function DueAck(batch: nat, i: nat): seq<nat>
    requires batch >= 1
  {
    if (i + 1) % batch == 0 then [i] else []
  }

  lemma ChunkDecoded(stream: Stream, s: ReceiverState, i: nat, ciphertext: seq<Byte>)
    requires s.Valid() && |stream.baseIv| == IV_LEN && i < U64
    ensures var bytes := Codec.ChunkBytes(i, ciphertext);
            && FrameOutputs(stream, s, bytes) == OutputsOf(stream, ChunkActions(s, i), Some(ciphertext))
            && AfterFrame(s, bytes, 0) == Next(s, ChunkIn(i, 0))
  {
    Codec.DecodeChunkBytes(i, ciphertext);
    hide Codec.Decode, Codec.ChunkBytes, OutputsOf, ChunkActions, Next;
  }

  lemma ExpectedNext(s: ReceiverState)
    requires s.Valid() && !s.done
    ensures var t := Next(s, ChunkIn(s.expected, 0));
            t.Valid() && t.expected == s.expected + 1 && !t.done && t.batch == s.batch
  {
  }

  lemma ChunkReceived(tr: Transfer, salt: seq<Byte>, baseIv: seq<Byte>, r: Receiver, i: nat)
    requires tr.Valid() && KeyLengths(salt, baseIv) && i < U64 && tr.Src(salt, baseIv).Sealed(i).Some?
    requires Reading(tr, salt, baseIv, r, i)
    ensures var bytes := Codec.ChunkBytes(i, tr.Src(salt, baseIv).Sealed(i).value);
            var t := AfterBinary(r, bytes, 0);
            && Reading(tr, salt, baseIv, t, i + 1) && t.buf == r.buf + Slice(tr.payload, tr.setting.chunkSize, i)
            && AcksOf(BinaryOutputs(r, bytes)) == DueAck(tr.setting.batch, i)
  {
    var src, s := tr.Src(salt, baseIv), r.session.value;
    ChunkDecoded(s.stream, s.rcv, i, src.Sealed(i).value);
    ExpectedChunkOutputs(src, s.rcv, src.Sealed(i).value);
    ExpectedNext(s.rcv);
    hide FrameOutputs, AfterFrame, Next, OutputsOf, ChunkActions, TextOf, AcksOf, Slice, Codec.ChunkBytes;
  }

  lemma ChunkTaken(tr: Transfer, w: World, i: nat)
    requires tr.Valid() && KeyLengths(w.salt, w.baseIv) && i < U64
    requires w.data != [] && IsChunk(tr.Src(w.salt, w.baseIv), w.data[0], i)
    requires Reading(tr, w.salt, w.baseIv, w.receiver, i)
    ensures var v := Apply(tr, w, TakeData(0));
            && v == w.(data := w.data[1..], receiver := v.receiver, held := w.held + 1,
                       toRelay := w.toRelay + DueAck(tr.setting.batch, i))
            && Reading(tr, w.salt, w.baseIv, v.receiver, i + 1)
            && v.receiver.buf == w.receiver.buf + Slice(tr.payload, tr.setting.chunkSize, i)
  {
    ChunkReceived(tr, w.salt, w.baseIv, w.receiver, i);
    hide AfterBinary, BinaryOutputs, AcksOf, Slice, Codec.ChunkBytes, Reconnected, DueAck;
  }

  function Takes(n: nat): seq<Step> {
    if n == 0 then [] else [TakeData(0)] + Takes(n - 1)
  }

  lemma TakeChunk(tr: Transfer, w: World, i: nat, n: nat) returns (u: World)
    requires tr.Valid() && KeyLengths(w.salt, w.baseIv) && 1 <= n && i + n <= tr.setting.batch && i + n <= tr.Total()
    requires Carries(tr.Src(w.salt, w.baseIv), w.data, i, n)
    requires Reading(tr, w.salt, w.baseIv, w.receiver, i) && w.toRelay == []
    ensures Enabled(w, TakeData(0)) && u == Apply(tr, w, TakeData(0))
    ensures u.salt == w.salt && u.baseIv == w.baseIv && u.checkpoint == w.checkpoint
    ensures Carries(tr.Src(w.salt, w.baseIv), u.data, i + 1, n - 1)
    ensures Reading(tr, w.salt, w.baseIv, u.receiver, i + 1)
    ensures u.toRelay == if i + 1 == tr.setting.batch then [i] else []
  {
    ChunkTaken(tr, w, i);
    u := Apply(tr, w, TakeData(0));
    DueAckWithin(tr.setting.batch, i);
  }

  lemma DueAckWithin(batch: nat, i: nat)
    requires i < batch
    ensures DueAck(batch, i) == if i + 1 == batch then [i] else []
  {
  }

  ghost predicate Reaches(tr: Transfer, w: World, steps: seq<Step>, v: World)
    requires tr.Valid()
  {
    CanRun(tr, w, steps) && Run(tr, w, steps) == v
  }

  lemma NoSteps(tr: Transfer, w: World)
    requires tr.Valid()
    ensures Reaches(tr, w, [], w)
  {
  }

  lemma OneTake(tr: Transfer, w: World, n: nat, u: World, v: World)
    requires tr.Valid() && Enabled(w, TakeData(0)) && u == Apply(tr, w, TakeData(0)) && Reaches(tr, u, Takes(n), v)
    ensures Reaches(tr, w, Takes(n + 1), v)
  {
    assert Takes(n + 1)[1..] == Takes(n);
    OneStep(tr, w, Takes(n + 1), u);
  }

  /** Taking `n` chunks that end before the first batch does emits nothing. */
  lemma {:induction false} TakeChunks(tr: Transfer, w: World, i: nat, n: nat) returns (v: World)
    requires tr.Valid() && KeyLengths(w.salt, w.baseIv) && i + n < tr.setting.batch && i + n < tr.Total()
    requires Carries(tr.Src(w.salt, w.baseIv), w.data, i, n + 1)
    requires Reading(tr, w.salt, w.baseIv, w.receiver, i) && w.toRelay == []
    ensures Reaches(tr, w, Takes(n), v)
    ensures v.salt == w.salt && v.baseIv == w.baseIv && v.checkpoint == w.checkpoint && v.toRelay == []
    ensures Carries(tr.Src(w.salt, w.baseIv), v.data, i + n, 1)
    ensures Reading(tr, w.salt, w.baseIv, v.receiver, i + n)
    decreases n
  {
    hide Apply;
    if n == 0 {
      v := w;
      NoSteps(tr, w);
    } else {
      var u := TakeChunk(tr, w, i, n + 1);
      v := TakeChunks(tr, u, i + 1, n - 1);
      OneTake(tr, w, n - 1, u, v);
    }
  }

  lemma AnnouncementTaken(tr: Transfer, w: World, from: nat)
    requires tr.Valid() && KeyLengths(w.salt, w.baseIv) && w.receiver.Valid() && w.data != []
    requires w.data[0] == Text(Announcement(w.salt, w.baseIv, tr.Total(), from))
    ensures var v := Apply(tr, w, TakeData(0));
            && v == w.(data := w.data[1..], receiver := v.receiver, held := Min(w.held, from))
            && Reading(tr, w.salt, w.baseIv, v.receiver, from)
            && v.receiver.buf == Truncated(w.receiver.buf, from, tr.setting.chunkSize)
  {
  }

  function LateSteps(salt: seq<Byte>, baseIv: seq<Byte>): seq<Step> {
    [Reconnect(salt, baseIv), RelayAck, TakeData(0), Reconnect(salt, baseIv), TakeData(0), TakeData(0)]
  }

  /** One batch arrives and is acknowledged; the connection drops, and the sender reads the checkpoint before
      the acknowledgement reaches the relay; the new connection drops too, right after its announcement. */
  function LateAck(batch: nat, salt: seq<Byte>, baseIv: seq<Byte>): seq<Step> {
    Takes(batch + 1) + LateSteps(salt, baseIv)
  }

  lemma {:induction false} JoinRuns(tr: Transfer, w: World, a: seq<Step>, b: seq<Step>)
    requires tr.Valid() && CanRun(tr, w, a) && CanRun(tr, Run(tr, w, a), b)
    ensures CanRun(tr, w, a + b) && Run(tr, w, a + b) == Run(tr, Run(tr, w, a), b)
    decreases |a|
  {
    hide Apply;
    if a == [] {
      assert a + b == b;
    } else {
      assert (a + b)[1..] == a[1..] + b;
      JoinRuns(tr, Apply(tr, w, a[0]), a[1..], b);
    }
  }

  lemma OneStep(tr: Transfer, w: World, steps: seq<Step>, v: World)
    requires tr.Valid() && steps != [] && Enabled(w, steps[0]) && v == Apply(tr, w, steps[0])
    requires CanRun(tr, v, steps[1..])
    ensures CanRun(tr, w, steps) && Run(tr, w, steps) == Run(tr, v, steps[1..])
  {
  }

  lemma {:induction false} TakesSnoc(n: nat)
    ensures Takes(n) + [TakeData(0)] == Takes(n + 1)
  {
    if n == 0 {
    } else {
      TakesSnoc(n - 1);
    }
  }

  /** A whole batch from the start of the stream is acknowledged once, at its last chunk. */
  lemma TakeBatch(tr: Transfer, w: World) returns (v: World)
    requires tr.Valid() && KeyLengths(w.salt, w.baseIv) && 1 <= tr.setting.batch <= tr.Total()
    requires Carries(tr.Src(w.salt, w.baseIv), w.data, 0, tr.setting.batch)
    requires Reading(tr, w.salt, w.baseIv, w.receiver, 0) && w.toRelay == []
    ensures Reaches(tr, w, Takes(tr.setting.batch), v)
    ensures v.receiver.Valid() && KeyLengths(v.salt, v.baseIv)
    ensures v.toRelay == [tr.setting.batch - 1] && v.checkpoint == w.checkpoint
  {
    hide Apply;
    var b := tr.setting.batch;
    var last := TakeChunks(tr, w, 0, b - 1);
    v := TakeChunk(tr, last, b - 1, 1);
    TakeLast(tr, w, last, v, b - 1);
  }

  lemma TakeLast(tr: Transfer, w: World, last: World, v: World, n: nat)
    requires tr.Valid() && Reaches(tr, w, Takes(n), last)
    requires Enabled(last, TakeData(0)) && v == Apply(tr, last, TakeData(0))
    ensures Reaches(tr, w, Takes(n + 1), v)
  {
    OneStep(tr, last, [TakeData(0)], v);
    JoinRuns(tr, w, Takes(n), [TakeData(0)]);
    TakesSnoc(n);
  }

  lemma FirstBatch(tr: Transfer, salt: seq<Byte>, baseIv: seq<Byte>) returns (v: World)
    requires tr.Valid() && SealsAll(tr) && KeyLengths(salt, baseIv)
    requires 2 <= tr.setting.batch <= tr.Total() && tr.setting.batch <= tr.window
    ensures Reaches(tr, Begin(tr, salt, baseIv), Takes(tr.setting.batch + 1), v)
    ensures v.receiver.Valid() && KeyLengths(v.salt, v.baseIv)
    ensures v.toRelay == [tr.setting.batch - 1] && v.checkpoint == 0
  {
    var b, w := tr.setting.batch, Begin(tr, salt, baseIv);
    var blank := World(salt, baseIv, Fresh(tr.Total(), tr.window), false, [], Receiver([], None), 0, [], [], 0);
    SealedAlways(tr, salt, baseIv);
    ReconnectCarries(tr, blank, salt, baseIv, Min(tr.Total(), tr.window));
    AnnouncementTaken(tr, w, 0);
    var u := Apply(tr, w, TakeData(0));
    CarriesFewer(tr.Src(salt, baseIv), u.data, 0, Min(tr.Total(), tr.window), b);
    v := TakeBatch(tr, u);
    OneTake(tr, w, b, u, v);
  }

  lemma {:induction false} CarriesFewer(src: Source, data: seq<Wire>, i: nat, n: nat, m: nat)
    requires src.Valid() && Carries(src, data, i, n) && m <= n
    ensures Carries(src, data, i, m)
    decreases n
  {
    if m == 0 {
    } else {
      CarriesFewer(src, data[1..], i + 1, n - 1, m - 1);
    }
  }

  lemma AfterFirstBatch(tr: Transfer, w: World, salt: seq<Byte>, baseIv: seq<Byte>) returns (v: World)
    requires tr.Valid() && SealsAll(tr) && KeyLengths(salt, baseIv) && KeyLengths(w.salt, w.baseIv)
             && w.receiver.Valid()
    requires 2 <= tr.setting.batch <= tr.Total()
    requires w.toRelay == [tr.setting.batch - 1] && w.checkpoint == 0
    ensures CanRun(tr, w, LateSteps(salt, baseIv)[..3])
    ensures v == Run(tr, w, LateSteps(salt, baseIv)[..3])
    ensures v.receiver.Valid() && v.receiver.buf == [] && KeyLengths(v.salt, v.baseIv)
    ensures v.checkpoint == tr.setting.batch - 1
  {
    var steps := LateSteps(salt, baseIv)[..3];
    SealedAlways(tr, salt, baseIv);
    ReconnectCarries(tr, w, salt, baseIv, Min(tr.Total(), tr.window));
    var w1 := Apply(tr, w, steps[0]);
    var w2 := Apply(tr, w1, steps[1]);
    AnnouncementTaken(tr, w2, 0);
    v := Apply(tr, w2, steps[2]);
    assert v.receiver.buf == [];
    hide Apply;
    OneStep(tr, w2, steps[2..], v);
    OneStep(tr, w1, steps[1..], w2);
    OneStep(tr, w, steps, w1);
  }

  lemma OverAHole(tr: Transfer, w: World, salt: seq<Byte>, baseIv: seq<Byte>) returns (v: World)
    requires tr.Valid() && SealsAll(tr) && KeyLengths(salt, baseIv) && KeyLengths(w.salt, w.baseIv)
    requires 2 <= tr.setting.batch <= tr.Total()
    requires w.receiver.Valid() && w.receiver.buf == [] && w.checkpoint == tr.setting.batch - 1
    ensures CanRun(tr, w, LateSteps(salt, baseIv)[3..])
    ensures v == Run(tr, w, LateSteps(salt, baseIv)[3..])
    ensures v.receiver.session.Some? && v.receiver.session.value.rcv.expected == tr.setting.batch
    ensures v.receiver.buf == Slice(tr.payload, tr.setting.chunkSize, tr.setting.batch - 1)
  {
    var steps, from := LateSteps(salt, baseIv)[3..], tr.setting.batch - 1;
    var u := Reopen(tr, w, salt, baseIv);
    v := FirstOfTheRest(tr, u, from);
    hide Apply, Slice, CanRun, Run;
    JoinRuns(tr, w, [Reconnect(salt, baseIv), TakeData(0)], [TakeData(0)]);
    assert steps == [Reconnect(salt, baseIv), TakeData(0)] + [TakeData(0)];
  }

  /** A reconnect and its announcement, with nothing committed. */
  lemma Reopen(tr: Transfer, w: World, salt: seq<Byte>, baseIv: seq<Byte>) returns (u: World)
    requires tr.Valid() && SealsAll(tr) && KeyLengths(salt, baseIv) && KeyLengths(w.salt, w.baseIv)
    requires w.receiver.Valid() && w.receiver.buf == [] && w.checkpoint < tr.Total()
    ensures CanRun(tr, w, [Reconnect(salt, baseIv), TakeData(0)])
    ensures u == Run(tr, w, [Reconnect(salt, baseIv), TakeData(0)])
    ensures KeyLengths(u.salt, u.baseIv) && u.receiver.buf == []
    ensures Reading(tr, u.salt, u.baseIv, u.receiver, w.checkpoint)
    ensures Carries(tr.Src(u.salt, u.baseIv), u.data, w.checkpoint, 1)
  {
    SealedAlways(tr, salt, baseIv);
    var from, steps := w.checkpoint, [Reconnect(salt, baseIv), TakeData(0)];
    var n := Min(tr.Total(), from + tr.window) - from;
    ReconnectCarries(tr, w, salt, baseIv, n);
    var w1 := Apply(tr, w, steps[0]);
    AnnouncementTaken(tr, w1, from);
    u := Apply(tr, w1, steps[1]);
    CarriesFewer(tr.Src(salt, baseIv), u.data, from, n, 1);
    assert u.receiver.buf == [];
    hide Apply;
    OneStep(tr, w1, steps[1..], u);
    OneStep(tr, w, steps, w1);
  }

  lemma FirstOfTheRest(tr: Transfer, u: World, from: nat) returns (v: World)
    requires tr.Valid() && KeyLengths(u.salt, u.baseIv) && from < U64 && u.receiver.buf == []
    requires Reading(tr, u.salt, u.baseIv, u.receiver, from)
    requires Carries(tr.Src(u.salt, u.baseIv), u.data, from, 1)
    ensures CanRun(tr, u, [TakeData(0)]) && v == Run(tr, u, [TakeData(0)])
    ensures v.receiver.session.Some? && v.receiver.session.value.rcv.expected == from + 1
    ensures v.receiver.buf == Slice(tr.payload, tr.setting.chunkSize, from)
  {
    ChunkTaken(tr, u, from);
    v := Apply(tr, u, TakeData(0));
    hide Apply;
    assert [] + Slice(tr.payload, tr.setting.chunkSize, from) == Slice(tr.payload, tr.setting.chunkSize, from);
    OneStep(tr, u, [TakeData(0)], v);
  }

  /** The timing assumption is needed: for every payload of at least one batch (64 chunks in the program) and
      every window that covers it, that run ends with the engine past chunk `batch - 1` and that chunk's bytes at
      the front of an otherwise empty buffer, where the chunks before it are missing. */
  lemma LateAckLeavesHole(tr: Transfer, salt: seq<Byte>, baseIv: seq<Byte>)
    requires tr.Valid() && SealsAll(tr) && KeyLengths(salt, baseIv)
    requires 2 <= tr.setting.batch <= tr.Total() && tr.setting.batch <= tr.window
    ensures var w, b := Begin(tr, salt, baseIv), tr.setting.batch;
            && CanRun(tr, w, LateAck(b, salt, baseIv))
            && var t := Run(tr, w, LateAck(b, salt, baseIv));
            && t.receiver.session.Some? && t.receiver.session.value.rcv.expected == b
            && t.receiver.buf == Slice(tr.payload, tr.setting.chunkSize, b - 1)
            && |t.receiver.buf| < Offset(b, tr.setting.chunkSize, |tr.payload|)
  {
    hide *;
    var v := LateRun(tr, salt, baseIv);
    ReachesMeans(tr, Begin(tr, salt, baseIv), LateAck(tr.setting.batch, salt, baseIv), v);
    HoleIsReal(tr, tr.setting.batch);
  }

  lemma LateRun(tr: Transfer, salt: seq<Byte>, baseIv: seq<Byte>) returns (v: World)
    requires tr.Valid() && SealsAll(tr) && KeyLengths(salt, baseIv)
    requires 2 <= tr.setting.batch <= tr.Total() && tr.setting.batch <= tr.window
    ensures Reaches(tr, Begin(tr, salt, baseIv), LateAck(tr.setting.batch, salt, baseIv), v)
    ensures v.receiver.session.Some? && v.receiver.session.value.rcv.expected == tr.setting.batch
    ensures v.receiver.buf == Slice(tr.payload, tr.setting.chunkSize, tr.setting.batch - 1)
  {
    hide *;
    var b, w, late := tr.setting.batch, Begin(tr, salt, baseIv), LateSteps(salt, baseIv);
    var w1 := FirstBatch(tr, salt, baseIv);
    LateStepsSplit(salt, baseIv);
    var w2 := AfterFirstBatch(tr, w1, salt, baseIv);
    v := OverAHole(tr, w2, salt, baseIv);
    JoinRuns(tr, w1, late[..3], late[3..]);
    ReachesMeans(tr, w1, late, v);
    ReachesThen(tr, w, Takes(b + 1), w1, late, v);
    LateAckIs(b, salt, baseIv);
  }

  lemma LateStepsSplit(salt: seq<Byte>, baseIv: seq<Byte>)
    ensures var late := LateSteps(salt, baseIv); |late| == 6 && late[..3] + late[3..] == late
  {
  }

  lemma ReachesThen(tr: Transfer, w: World, first: seq<Step>, mid: World, second: seq<Step>, v: World)
    requires tr.Valid() && Reaches(tr, w, first, mid) && Reaches(tr, mid, second, v)
    ensures Reaches(tr, w, first + second, v)
  {
    hide Apply;
    JoinRuns(tr, w, first, second);
  }

  lemma ReachesMeans(tr: Transfer, w: World, steps: seq<Step>, v: World)
    requires tr.Valid()
    ensures Reaches(tr, w, steps, v) <==> CanRun(tr, w, steps) && Run(tr, w, steps) == v
  {
  }

  lemma LateAckIs(batch: nat, salt: seq<Byte>, baseIv: seq<Byte>)
    ensures LateAck(batch, salt, baseIv) == Takes(batch + 1) + LateSteps(salt, baseIv)
  {
  }

  lemma HoleIsReal(tr: Transfer, b: nat)
    requires tr.Valid() && 2 <= b <= tr.Total()
    ensures |Slice(tr.payload, tr.setting.chunkSize, b - 1)| < Offset(b, tr.setting.chunkSize, |tr.payload|)
  {
    ChunkCountIsCeiling(|tr.payload|, tr.setting.chunkSize, 0);
    OffsetBelow(0, b - 1, tr.setting.chunkSize, |tr.payload|);
  }
}
