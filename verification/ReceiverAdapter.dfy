/** The receiver's adapter: binary frames drive the engine, and what it delivers is decrypted. */
module ReceiverAdapters {
  import opened Bytes
  import opened Wrappers
  import opened ReceiverEngines
  import opened Crypto
  import opened SenderAdapters
  import Codec

  /** What the adapter returns; an acknowledgement or request is also what it emits to the peer. */
  datatype Output =
    | Delivered(index: nat, plaintext: seq<Byte>)
    | Completed
    | AckSent(through: nat)
    | RequestSent(from: nat)

  /** The keyed stream a receiver reads. */
  datatype Stream = Stream(aead: Aead, baseIv: seq<Byte>)

  // ---- what one frame does --------------------------------------------------------------------------

  function AsInput(frame: Codec.Frame, now: nat): Input {
    match frame
    case ChunkFrame(index, _) => ChunkIn(index, now)
    case EndFrame(total) => EndIn(total)
  }

  function AfterFrame(s: ReceiverState, frame: seq<Byte>, now: nat): (t: ReceiverState)
    requires s.Valid()
    ensures t.Valid()
  {
    match Codec.Decode(frame)
    case Ok(f) => Next(s, AsInput(f, now))
    case Err(_) => s
  }

  /** The visible part of one action; a chunk that does not decrypt is dropped silently. */
  function OutputOf(stream: Stream, action: ReceiverAction, ciphertext: Option<seq<Byte>>): seq<Output>
    requires |stream.baseIv| == IV_LEN
  {
    match action
    case Deliver(index) =>
      if ciphertext.None? then []
      else
        (match stream.aead.open(Nonce(stream.baseIv, index), ciphertext.value)
         case Some(plaintext) => [Delivered(index, plaintext)]
         case None => [])
    case Ack(through) => [AckSent(through)]
    case Request(from) => [RequestSent(from)]
    case Complete => [Completed]
    case Ignore => []
  }

  function OutputsOf(stream: Stream, actions: seq<ReceiverAction>, ciphertext: Option<seq<Byte>>): seq<Output>
    requires |stream.baseIv| == IV_LEN
  {
    if actions == [] then []
    else OutputOf(stream, actions[0], ciphertext) + OutputsOf(stream, actions[1..], ciphertext)
  }

  lemma {:induction false} OutputsConcat(stream: Stream, a: seq<ReceiverAction>, b: seq<ReceiverAction>,
                                         ciphertext: Option<seq<Byte>>)
    requires |stream.baseIv| == IV_LEN
    ensures OutputsOf(stream, a + b, ciphertext)
            == OutputsOf(stream, a, ciphertext) + OutputsOf(stream, b, ciphertext)
  {
    if a == [] {
      assert a + b == b;
    } else {
      assert (a + b)[1..] == a[1..] + b;
      OutputsConcat(stream, a[1..], b, ciphertext);
    }
  }

  predicate Ends(actions: seq<ReceiverAction>) {
    Complete in actions
  }

  lemma OneMore(stream: Stream, actions: seq<ReceiverAction>, i: nat, ciphertext: Option<seq<Byte>>)
    requires |stream.baseIv| == IV_LEN && i < |actions|
    ensures OutputsOf(stream, actions[..i + 1], ciphertext)
            == OutputsOf(stream, actions[..i], ciphertext) + OutputOf(stream, actions[i], ciphertext)
    ensures Ends(actions[..i + 1]) == (Ends(actions[..i]) || actions[i].Complete?)
  {
    assert actions[..i + 1] == actions[..i] + [actions[i]];
    OutputsConcat(stream, actions[..i], [actions[i]], ciphertext);
    assert [actions[i]][1..] == [];
  }

  function FrameOutputs(stream: Stream, s: ReceiverState, frame: seq<Byte>): seq<Output>
    requires s.Valid() && |stream.baseIv| == IV_LEN
  {
    match Codec.Decode(frame)
    case Ok(ChunkFrame(index, payload)) => OutputsOf(stream, ChunkActions(s, index), Some(payload))
    case Ok(EndFrame(total)) => OutputsOf(stream, EndActions(s, total), None)
    case Err(_) => []
  }

  // ---- the adapter ------------------------------------------------------------------------------------

  class ReceiverAdapter {
    const engine: ReceiverEngine
    const decryptor: StreamDecryptor
    var finished: bool

    ghost function Keyed(): Stream {
      Stream(decryptor.aead, decryptor.baseIv)
    }

    ghost predicate Valid()
      reads this, engine
    {
      engine.Valid() && |decryptor.baseIv| == IV_LEN && finished == engine.done
    }

    constructor (engine: ReceiverEngine, decryptor: StreamDecryptor)
      requires engine.Valid() && !engine.done && |decryptor.baseIv| == IV_LEN
      ensures Valid() && this.engine == engine && this.decryptor == decryptor
      ensures !finished
    {
      this.engine, this.decryptor := engine, decryptor;
      finished := false;
    }

    method OnFrame(frame: seq<Byte>, now: nat) returns (outputs: seq<Output>)
      requires Valid()
      modifies this, engine, decryptor
      ensures Valid()
      ensures engine.State() == AfterFrame(old(engine.State()), frame, now)
      ensures outputs == FrameOutputs(Keyed(), old(engine.State()), frame)
    {
      if finished {
        return [];
      }
      Codec.DecodeCases(frame);
      match Codec.Decode(frame)
      case Err(_) => outputs := [];
      case Ok(f) => {
        match f
        case ChunkFrame(index, payload) => {
          var actions := engine.ReceiveChunk(index, now);
          outputs := ApplyAll(actions, Some(payload));
        }
        case EndFrame(total) => {
          var actions := engine.ReceiveEnd(total);
          outputs := ApplyAll(actions, None);
        }
      }
    }

    method Tick(now: nat) returns (outputs: seq<Output>)
      requires Valid()
      modifies this, engine, decryptor
      ensures Valid()
      ensures engine.State() == AfterTick(old(engine.State()), now)
      ensures outputs == OutputsOf(Keyed(), TickActions(old(engine.State()), now), None)
    {
      if finished {
        return [];
      }
      var actions := engine.Tick(now);
      outputs := ApplyAll(actions, None);
    }

    method ApplyAll(actions: seq<ReceiverAction>, payload: Option<seq<Byte>>) returns (outputs: seq<Output>)
      requires |decryptor.baseIv| == IV_LEN
      requires forall k :: 0 <= k < |actions| && actions[k].Deliver? ==> actions[k].index < U64
      modifies this, decryptor
      ensures outputs == OutputsOf(Keyed(), actions, payload)
      ensures finished == (old(finished) || Ends(actions))
    {
      outputs := [];
      var i := 0;
      while i < |actions|
        invariant i <= |actions|
        invariant outputs == OutputsOf(Keyed(), actions[..i], payload)
        invariant finished == (old(finished) || Ends(actions[..i]))
      {
        OneMore(Keyed(), actions, i, payload);
        var out := Apply(actions[i], payload);
        outputs := outputs + out;
        i := i + 1;
      }
      assert actions[..i] == actions;
    }

    method Apply(action: ReceiverAction, payload: Option<seq<Byte>>) returns (output: seq<Output>)
      requires |decryptor.baseIv| == IV_LEN && (action.Deliver? ==> action.index < U64)
      modifies this, decryptor
      ensures output == OutputOf(Keyed(), action, payload)
      ensures finished == (old(finished) || action.Complete?)
    {
      output := [];
      match action
      case Deliver(index) => {
        if payload.Some? {
          var r := decryptor.DecryptChunkAt(payload.value, index);
          if r.Ok? {
            output := [Delivered(index, r.value)];
          }
        }
      }
      case Ack(through) => {
        output := [AckSent(through)];
      }
      case Request(from) => {
        output := [RequestSent(from)];
      }
      case Complete => {
        finished := true;
        output := [Completed];
      }
      case Ignore =>
    }
  }

  /** The engine hears each frame that decodes, at its time, and no other. */
  lemma FrameIsHeard(s: ReceiverState, frame: seq<Byte>, now: nat)
    requires s.Valid()
    ensures match Codec.Decode(frame)
            case Err(_) => AfterFrame(s, frame, now) == s
            case Ok(ChunkFrame(i, _)) => AfterFrame(s, frame, now) == AfterChunk(s, i, now)
            case Ok(EndFrame(total)) => AfterFrame(s, frame, now) == AfterEnd(s, total)
  {
  }

  lemma {:induction false} OutputsAre(stream: Stream, actions: seq<ReceiverAction>, ciphertext: Option<seq<Byte>>,
                                      o: Output)
    requires |stream.baseIv| == IV_LEN
    ensures o in OutputsOf(stream, actions, ciphertext)
            <==> match o
                 case Delivered(i, text) =>
                   && Deliver(i) in actions && ciphertext.Some?
                   && stream.aead.open(Nonce(stream.baseIv, i), ciphertext.value) == Some(text)
                 case Completed => Complete in actions
                 case AckSent(through) => ReceiverAction.Ack(through) in actions
                 case RequestSent(from) => Request(from) in actions
  {
    if actions == [] {
    } else {
      OutputsAre(stream, actions[1..], ciphertext, o);
      assert actions == [actions[0]] + actions[1..];
      hide Nonce;
    }
  }

  /** Exact: what comes out of a frame is what its engine says, except that a delivery comes out only if the chunk opens
      under its own nonce, and then as the text it opens to. A frame that does not decode brings nothing out. */
  lemma FrameSpeaks(stream: Stream, s: ReceiverState, frame: seq<Byte>, o: Output)
    requires s.Valid() && |stream.baseIv| == IV_LEN
    ensures var spoken := match Codec.Decode(frame)
                          case Ok(ChunkFrame(i, _)) => ChunkActions(s, i)
                          case Ok(EndFrame(total)) => EndActions(s, total)
                          case Err(_) => [];
            o in FrameOutputs(stream, s, frame)
            <==> match o
                 case Delivered(i, text) =>
                   && Deliver(i) in spoken
                   && stream.aead.open(Nonce(stream.baseIv, i), frame[9..]) == Some(text)
                 case Completed => Complete in spoken
                 case AckSent(through) => ReceiverAction.Ack(through) in spoken
                 case RequestSent(from) => Request(from) in spoken
  {
    Codec.DecodeCases(frame);
    match Codec.Decode(frame)
    case Ok(ChunkFrame(i, payload)) => OutputsAre(stream, ChunkActions(s, i), Some(payload), o);
    case Ok(EndFrame(total)) => OutputsAre(stream, EndActions(s, total), None, o);
    case Err(_) =>
  }

  /** The acknowledgements among the outputs, in order. */
  function AcksOf(outputs: seq<Output>): seq<nat> {
    if outputs == [] then []
    else (if outputs[0].AckSent? then [outputs[0].through] else []) + AcksOf(outputs[1..])
  }

  /** The plaintext delivered, put together in order. */
  function TextOf(outputs: seq<Output>): seq<Byte> {
    if outputs == [] then []
    else (if outputs[0].Delivered? then outputs[0].plaintext else []) + TextOf(outputs[1..])
  }

  lemma OneOutput(o: Output, rest: seq<Output>)
    ensures TextOf([o] + rest) == (if o.Delivered? then o.plaintext else []) + TextOf(rest)
    ensures AcksOf([o] + rest) == (if o.AckSent? then [o.through] else []) + AcksOf(rest)
  {
    assert ([o] + rest)[1..] == rest;
  }

  lemma {:induction false} TextConcat(a: seq<Output>, b: seq<Output>)
    ensures TextOf(a + b) == TextOf(a) + TextOf(b)
  {
    if a == [] {
      assert a + b == b;
    } else {
      assert (a + b)[1..] == a[1..] + b;
      TextConcat(a[1..], b);
    }
  }

  // ---- honest frames ------------------------------------------------------------------------------------

  lemma OutputsOfOne(stream: Stream, action: ReceiverAction, ciphertext: Option<seq<Byte>>)
    requires |stream.baseIv| == IV_LEN
    ensures OutputsOf(stream, [action], ciphertext) == OutputOf(stream, action, ciphertext)
  {
    assert [action][1..] == [];
  }

  ghost predicate Standing(src: Source, s: ReceiverState)
    requires src.Valid()
  {
    s.Valid() && s.expected <= src.Total() && (s.done ==> s.expected == src.Total())
  }

  /** What one frame added: exactly the payload between the two positions, acknowledged no further. */
  ghost predicate Extends(src: Source, s: ReceiverState, t: ReceiverState, out: seq<Output>)
    requires src.Valid()
  {
    && Standing(src, t) && s.expected <= t.expected && t.batch == s.batch
    && Prefix(src.payload, src.chunkSize, s.expected) + TextOf(out) == Prefix(src.payload, src.chunkSize, t.expected)
    && (forall k :: 0 <= k < |AcksOf(out)| ==> AcksOf(out)[k] < t.expected)
  }

  lemma FaithfulEnd(src: Source, s: ReceiverState, frame: seq<Byte>, now: nat)
    requires src.Valid() && Faithful(src, frame) && Codec.Decode(frame).value.EndFrame? && Standing(src, s)
    ensures Extends(src, s, AfterFrame(s, frame, now), FrameOutputs(Stream(src.aead, src.baseIv), s, frame))
  {
    if !s.done {
      var action := EndActions(s, src.Total())[0];
      assert EndActions(s, src.Total()) == [action];
      var stream := Stream(src.aead, src.baseIv);
      OutputsOfOne(stream, action, None);
      var o := OutputOf(stream, action, None)[0];
      assert FrameOutputs(stream, s, frame) == [o] + [];
      OneOutput(o, []);
    }
  }

  lemma ExpectedChunkOutputs(src: Source, s: ReceiverState, ciphertext: seq<Byte>)
    requires src.Valid() && src.aead.Sound() && s.Valid() && !s.done && src.Sealed(s.expected) == Some(ciphertext)
    ensures var out := OutputsOf(Stream(src.aead, src.baseIv), ChunkActions(s, s.expected), Some(ciphertext));
            && TextOf(out) == Slice(src.payload, src.chunkSize, s.expected)
            && AcksOf(out) == (if (s.expected + 1) % s.batch == 0 then [s.expected] else [])
  {
    var i, text := s.expected, Slice(src.payload, src.chunkSize, s.expected);
    var stream, actions := Stream(src.aead, src.baseIv), ChunkActions(s, i);
    var tail := if (i + 1) % s.batch == 0 then [AckSent(i)] else [];
    OneMore(stream, actions, 0, Some(ciphertext));
    if |actions| == 2 {
      OneMore(stream, actions, 1, Some(ciphertext));
      assert actions[..2] == actions;
    } else {
      assert actions[..1] == actions;
    }
    assert OutputsOf(stream, actions[..0], Some(ciphertext)) == [];
    var out := OutputsOf(stream, actions, Some(ciphertext));
    assert out == [Delivered(i, text)] + tail;
    OneOutput(Delivered(i, text), tail);
    OneOutput(AckSent(i), []);
    assert [AckSent(i)] + [] == [AckSent(i)];
  }

  /** A chunk that is not the one awaited adds nothing. */
  lemma OtherChunk(src: Source, s: ReceiverState, index: nat, payload: seq<Byte>, now: nat)
    requires src.Valid() && Standing(src, s) && (s.done || index != s.expected)
    ensures Extends(src, s, AfterChunk(s, index, now),
                    OutputsOf(Stream(src.aead, src.baseIv), ChunkActions(s, index), Some(payload)))
  {
    var stream := Stream(src.aead, src.baseIv);
    hide Nonce;
    if !s.done {
      var action := ChunkActions(s, index)[0];
      assert ChunkActions(s, index) == [action];
      OutputsOfOne(stream, action, Some(payload));
      var out := OutputsOf(stream, ChunkActions(s, index), Some(payload));
      assert out == [] || out == [RequestSent(s.expected)] + [];
      OneOutput(RequestSent(s.expected), []);
    }
    var p := Prefix(src.payload, src.chunkSize, s.expected);
    assert p + [] == p;
  }

  lemma FaithfulChunk(src: Source, s: ReceiverState, frame: seq<Byte>, now: nat)
    requires src.Valid() && src.aead.Sound()
    requires Faithful(src, frame) && Codec.Decode(frame).value.ChunkFrame? && Standing(src, s)
    ensures Extends(src, s, AfterFrame(s, frame, now), FrameOutputs(Stream(src.aead, src.baseIv), s, frame))
  {
    var f := Codec.Decode(frame).value;
    hide Codec.Decode;
    if !s.done && f.index == s.expected {
      ExpectedChunkOutputs(src, s, f.payload);
      PrefixGrows(src.payload, src.chunkSize, s.expected);
      hide OutputsOf, ChunkActions, Prefix, Slice, TextOf, AcksOf;
    } else {
      OtherChunk(src, s, f.index, f.payload, now);
      hide OutputsOf, ChunkActions, Prefix, TextOf, AcksOf, Extends;
    }
  }

  /** One faithful frame extends the text by exactly the chunk the engine was waiting for, if it is that
      chunk, and by nothing otherwise; it acknowledges only chunks the receiver then has. */
  lemma FaithfulFrame(src: Source, s: ReceiverState, frame: seq<Byte>, now: nat)
    requires src.Valid() && src.aead.Sound() && Faithful(src, frame) && Standing(src, s)
    ensures Extends(src, s, AfterFrame(s, frame, now), FrameOutputs(Stream(src.aead, src.baseIv), s, frame))
  {
    if Codec.Decode(frame).value.ChunkFrame? {
      FaithfulChunk(src, s, frame, now);
    } else {
      FaithfulEnd(src, s, frame, now);
    }
  }

  /** A timer pulse delivers nothing and acknowledges no further than the receiver stands. */
  lemma TickExtends(src: Source, s: ReceiverState, now: nat)
    requires src.Valid() && Standing(src, s)
    ensures Extends(src, s, AfterTick(s, now), OutputsOf(Stream(src.aead, src.baseIv), TickActions(s, now), None))
  {
    var stream, actions := Stream(src.aead, src.baseIv), TickActions(s, now);
    var acks := if !s.done && AckDue(s, now) then [ReceiverAction.Ack(s.expected - 1)] else [];
    var requests := if !s.done && Stalled(s, now) then [Request(s.expected)] else [];
    assert actions == acks + requests;
    OutputsConcat(stream, acks, requests, None);
    var ackOut, requestOut := OutputsOf(stream, acks, None), OutputsOf(stream, requests, None);
    if acks != [] {
      OutputsOfOne(stream, acks[0], None);
      OneOutput(AckSent(s.expected - 1), requestOut);
    }
    if requests != [] {
      OutputsOfOne(stream, requests[0], None);
      assert requestOut == [RequestSent(s.expected)] + [];
      OneOutput(RequestSent(s.expected), []);
    }
    assert [] + requestOut == requestOut;
    var p := Prefix(src.payload, src.chunkSize, s.expected);
    assert p + [] == p;
  }

  /** What reaches the adapter, each at its own time: a frame, or a pulse of the timer. */
  datatype Arrival = FrameAt(frame: seq<Byte>, now: nat) | TickAt(now: nat)

  function AfterArrival(s: ReceiverState, a: Arrival): (t: ReceiverState)
    requires s.Valid()
    ensures t.Valid()
  {
    match a
    case FrameAt(frame, now) => AfterFrame(s, frame, now)
    case TickAt(now) => AfterTick(s, now)
  }

  function ArrivalOutputs(stream: Stream, s: ReceiverState, a: Arrival): seq<Output>
    requires s.Valid() && |stream.baseIv| == IV_LEN
  {
    match a
    case FrameAt(frame, _) => FrameOutputs(stream, s, frame)
    case TickAt(now) => OutputsOf(stream, TickActions(s, now), None)
  }

  function AfterAll(s: ReceiverState, arrivals: seq<Arrival>): (t: ReceiverState)
    requires s.Valid()
    ensures t.Valid()
    decreases |arrivals|
  {
    if arrivals == [] then s else AfterAll(AfterArrival(s, arrivals[0]), arrivals[1..])
  }

  function AllOutputs(stream: Stream, s: ReceiverState, arrivals: seq<Arrival>): seq<Output>
    requires s.Valid() && |stream.baseIv| == IV_LEN
    decreases |arrivals|
  {
    if arrivals == [] then []
    else ArrivalOutputs(stream, s, arrivals[0]) + AllOutputs(stream, AfterArrival(s, arrivals[0]), arrivals[1..])
  }

  /** Every frame is one the sender's adapter queued. */
  predicate FromSender(src: Source, arrivals: seq<Arrival>)
    requires src.Valid()
  {
    forall k :: 0 <= k < |arrivals| && arrivals[k].FrameAt? ==> Faithful(src, arrivals[k].frame)
  }

  /** The adapters together refine "send the payload": whatever honest frames arrive, in whatever order, however often,
      at whatever times and with whatever timer pulses between them, the plaintext delivered is the payload from the
      resume point up to where the receiver stands, byte for byte; and a finished receiver has all of it. */
  lemma {:induction false} DeliversThePayload(src: Source, s: ReceiverState, arrivals: seq<Arrival>)
    requires src.Valid() && src.aead.Sound() && FromSender(src, arrivals) && Standing(src, s)
    ensures var t := AfterAll(s, arrivals);
            var text := TextOf(AllOutputs(Stream(src.aead, src.baseIv), s, arrivals));
            && t.expected <= src.Total()
            && Prefix(src.payload, src.chunkSize, s.expected) + text == Prefix(src.payload, src.chunkSize, t.expected)
            && (t.done ==> Prefix(src.payload, src.chunkSize, s.expected) + text == src.payload)
    decreases |arrivals|
  {
    PrefixOfAll(src.payload, src.chunkSize);
    if arrivals == [] {
    } else {
      var stream := Stream(src.aead, src.baseIv);
      match arrivals[0] {
        case FrameAt(frame, now) => FaithfulFrame(src, s, frame, now);
        case TickAt(now) => TickExtends(src, s, now);
      }
      var out, t := ArrivalOutputs(stream, s, arrivals[0]), AfterArrival(s, arrivals[0]);
      var later := AllOutputs(stream, t, arrivals[1..]);
      assert FromSender(src, arrivals[1..]);
      DeliversThePayload(src, t, arrivals[1..]);
      hide AfterArrival, ArrivalOutputs, Prefix, TextOf, AcksOf, Faithful;
      TextConcat(out, later);
      Associate(Prefix(src.payload, src.chunkSize, s.expected), TextOf(out), TextOf(later));
    }
  }

  lemma Associate(a: seq<Byte>, b: seq<Byte>, c: seq<Byte>)
    ensures (a + b) + c == a + (b + c)
  {
  }
}
