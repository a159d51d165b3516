/** The receive loop's state across connection attempts: the plaintext already committed, which a new
    announcement truncates to the sender's resume point, and the adapter of the current attempt. */
module ReceiveLoops {
  import opened Bytes
  import opened Wrappers
  import opened ReceiverEngines
  import opened Crypto
  import opened SenderAdapters
  import opened ReceiverAdapters
  import Codec

  datatype Session = Session(rcv: ReceiverState, stream: Stream) {
    predicate Valid() {
      rcv.Valid() && |stream.baseIv| == IV_LEN
    }
  }

  datatype Receiver = Receiver(buf: seq<Byte>, session: Option<Session>) {
    predicate Valid() {
      session.Some? ==> session.value.Valid()
    }
  }

  /** What both loops of the program fix: the password's key derivation, the chunk size, the batch. */
  datatype Setting = Setting(derive: seq<Byte> -> Aead, chunkSize: nat, batch: nat)

  function Truncated(buf: seq<Byte>, resumeFrom: nat, chunkSize: nat): seq<Byte> {
    buf[..Offset(resumeFrom, chunkSize, |buf|)]
  }

  /** The salt and the base have the lengths the decryptor insists on. */
  predicate KeyLengths(salt: seq<Byte>, baseIv: seq<Byte>) {
    |salt| == SALT_LEN && |baseIv| == IV_LEN
  }

  function Announced(setting: Setting, r: Receiver, a: Announcement): (t: Receiver)
    requires setting.batch >= 1
    ensures t.Valid()
  {
    Receiver(
      Truncated(r.buf, a.resumeFromChunk, setting.chunkSize),
      if !KeyLengths(a.salt, a.baseIv) then None
      else Some(Session(NewReceiver(setting.batch, 250, 5000, a.resumeFromChunk),
                        Stream(setting.derive(a.salt), a.baseIv))))
  }

  function BinaryOutputs(r: Receiver, data: seq<Byte>): seq<Output>
    requires r.Valid()
  {
    if r.session.None? then [] else FrameOutputs(r.session.value.stream, r.session.value.rcv, data)
  }

  function AfterBinary(r: Receiver, data: seq<Byte>, now: nat): (t: Receiver)
    requires r.Valid()
    ensures t.Valid()
  {
    if r.session.None? then r
    else
      var s := r.session.value;
      Receiver(r.buf + TextOf(BinaryOutputs(r, data)), Some(s.(rcv := AfterFrame(s.rcv, data, now))))
  }

  /** How the loop goes on after one message. */
  datatype Outcome = Continue | Finished(checksum: string) | Mismatch | BadMetadata

  function OutcomeOf(outputs: seq<Output>, computed: string, announced: string): Outcome {
    if Completed !in outputs then Continue
    else if announced != "" && computed != announced then Mismatch
    else Finished(computed)
  }

  /** What the outcome of a frame says: without a completion the loop goes on; with one it finishes with the hash of the
      buffer, or refuses it because another one was announced. */
  predicate Ruling(completes: bool, outcome: Outcome, computed: string, announced: string) {
    && (outcome == Continue <==> !completes)
    && (outcome.Finished? <==> completes && (announced == "" || announced == computed))
    && (outcome == Mismatch <==> completes && announced != "" && announced != computed)
    && (outcome.Finished? ==> outcome.checksum == computed)
  }

  class ReceiveLoop {
    const setting: Setting
    const hash: seq<Byte> -> string
    var plaintextBuf: seq<Byte>
    var adapter: ReceiverAdapter?
    var checksumExpected: string

    ghost predicate Valid()
      reads this, adapter
      reads if adapter == null then {} else {adapter.engine, adapter.decryptor}
    {
      setting.batch >= 1 && (adapter != null ==> adapter.Valid())
    }

    ghost function State(): Receiver
      reads this, adapter
      reads if adapter == null then {} else {adapter.engine, adapter.decryptor}
    {
      Receiver(
        plaintextBuf,
        if adapter == null then None else Some(Session(adapter.engine.State(), adapter.Keyed())))
    }

    constructor (setting: Setting, hash: seq<Byte> -> string)
      requires setting.batch >= 1
      ensures Valid() && State() == Receiver([], None) && this.setting == setting && this.hash == hash
    {
      this.setting, this.hash := setting, hash;
      plaintextBuf, adapter, checksumExpected := [], null, "";
    }

    /** A new attempt starts without an adapter; the committed plaintext stays. */
    method BeginAttempt()
      requires Valid()
      modifies this
      ensures Valid() && State() == Receiver(old(plaintextBuf), None)
    {
      adapter := null;
      checksumExpected := "";
    }

    /** A metadata frame; `None` when its stream metadata does not parse, which leaves everything but the checksum. */
    method OnMetadata(meta: Option<Announcement>, checksum: string) returns (outcome: Outcome)
      requires Valid()
      modifies this
      ensures Valid()
      ensures checksumExpected == checksum
      ensures State() == if meta.None? then old(State()) else Announced(setting, old(State()), meta.value)
      ensures outcome == Continue <==> meta.Some? && |meta.value.salt| == 16 && |meta.value.baseIv| == 12
      ensures outcome != Continue ==> outcome == BadMetadata
    {
      checksumExpected := checksum;
      if meta.None? {
        return BadMetadata;
      }
      var a := meta.value;
      var keep := if a.resumeFromChunk * setting.chunkSize <= |plaintextBuf|
                  then a.resumeFromChunk * setting.chunkSize else |plaintextBuf|;
      plaintextBuf := plaintextBuf[..keep];
      if |a.salt| != SALT_LEN || |a.baseIv| != IV_LEN {
        adapter := null;
        return BadMetadata;
      }
      var decryptor := new StreamDecryptor(setting.derive(a.salt), a.baseIv);
      if a.resumeFromChunk > 0 {
        decryptor.SkipTo(a.resumeFromChunk);
      }
      var engine := new ReceiverEngine(setting.batch, 250, 5000, a.resumeFromChunk);
      adapter := new ReceiverAdapter(engine, decryptor);
      outcome := Continue;
    }

    method OnBinaryData(data: seq<Byte>, now: nat) returns (outcome: Outcome)
      requires Valid()
      modifies this, adapter
      modifies if adapter == null then {} else {adapter.engine, adapter.decryptor}
      ensures Valid()
      ensures State() == AfterBinary(old(State()), data, now)
      ensures outcome
              == OutcomeOf(BinaryOutputs(old(State()), data), hash(plaintextBuf), old(checksumExpected))
      ensures Ruling(Completed in BinaryOutputs(old(State()), data), outcome, hash(plaintextBuf), checksumExpected)
      ensures checksumExpected == old(checksumExpected)
    {
      outcome := Continue;
      if adapter != null {
        CompletedComesLast(adapter.Keyed(), adapter.engine.State(), data);
        var outputs := adapter.OnFrame(data, now);
        outcome := Commit(outputs);
      }
    }

    method Commit(outputs: seq<Output>) returns (outcome: Outcome)
      requires forall k :: 0 <= k < |outputs| && outputs[k].Completed? ==> k == |outputs| - 1
      modifies this`plaintextBuf
      ensures plaintextBuf == old(plaintextBuf) + TextOf(outputs)
      ensures outcome == OutcomeOf(outputs, hash(plaintextBuf), checksumExpected)
      ensures Ruling(Completed in outputs, outcome, hash(plaintextBuf), checksumExpected)
    {
      var i := 0;
      while i < |outputs|
        invariant i <= |outputs|
        invariant plaintextBuf == old(plaintextBuf) + TextOf(outputs[..i])
        invariant forall k :: 0 <= k < i ==> !outputs[k].Completed?
      {
        TextOfNext(outputs, i);
        if outputs[i].Delivered? {
          plaintextBuf := plaintextBuf + outputs[i].plaintext;
        } else if outputs[i].Completed? {
          assert outputs[..i + 1] == outputs;
          var computed := hash(plaintextBuf);
          if checksumExpected != "" && computed != checksumExpected {
            return Mismatch;
          }
          return Finished(computed);
        }
        i := i + 1;
      }
      assert outputs[..i] == outputs;
      return Continue;
    }
  }

  lemma TextOfNext(outputs: seq<Output>, i: nat)
    requires i < |outputs|
    ensures TextOf(outputs[..i + 1])
            == TextOf(outputs[..i]) + (if outputs[i].Delivered? then outputs[i].plaintext else [])
  {
    assert outputs[..i + 1] == outputs[..i] + [outputs[i]];
    TextConcat(outputs[..i], [outputs[i]]);
    OneOutput(outputs[i], []);
    assert [outputs[i]] + [] == [outputs[i]];
  }

  /** Nothing follows a completion within one frame's outputs either. */
  lemma CompletedComesLast(stream: Stream, s: ReceiverState, data: seq<Byte>)
    requires s.Valid() && |stream.baseIv| == IV_LEN
    ensures var out := FrameOutputs(stream, s, data);
            forall k :: 0 <= k < |out| && out[k].Completed? ==> k == |out| - 1
  {
    match Codec.Decode(data)
    case Err(_) =>
    case Ok(EndFrame(total)) => {
      if EndActions(s, total) != [] {
        OutputsOfOne(stream, EndActions(s, total)[0], None);
      }
    }
    case Ok(ChunkFrame(index, payload)) => NoCompletion(stream, ChunkActions(s, index), Some(payload));
  }

  lemma {:induction false} NoCompletion(stream: Stream, actions: seq<ReceiverAction>, text: Option<seq<Byte>>)
    requires |stream.baseIv| == IV_LEN && Complete !in actions
    ensures Completed !in OutputsOf(stream, actions, text)
  {
    if actions == [] {
    } else {
      NoCompletion(stream, actions[1..], text);
    }
  }

  /** A frame completes exactly when it brings the engine to its end. */
  lemma CompletesIff(stream: Stream, s: ReceiverState, data: seq<Byte>, now: nat)
    requires s.Valid() && |stream.baseIv| == IV_LEN
    ensures Completed in FrameOutputs(stream, s, data) <==> !s.done && AfterFrame(s, data, now).done
  {
    match Codec.Decode(data)
    case Err(_) =>
    case Ok(EndFrame(total)) => {
      if EndActions(s, total) != [] {
        OutputsOfOne(stream, EndActions(s, total)[0], None);
      }
    }
    case Ok(ChunkFrame(index, payload)) => NoCompletion(stream, ChunkActions(s, index), Some(payload));
  }
}
