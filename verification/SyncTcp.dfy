/** The wire of a folder sync over a byte stream: length-prefixed messages, each a sealed frame. */
module SyncTcp {
  import opened Bytes
  import opened Crypto
  import opened FrameProtocol
  import opened Wrappers

  const LEN_PREFIX_BYTES: nat := 4
  const SEAL_OVERHEAD: nat := 24
  const MAX_MESSAGE_BYTES: nat := MAX_FRAME_BYTES + FRAME_HEADER_LEN + SEAL_OVERHEAD

  datatype WireError =
    | Closed
    | ClosedMidFrame
    | TooLong(len: nat)
    | EmptyMessage
    | SealFailed
    | Truncated
    | WrongKey
    | WrongPassword
    | Protocol(error: TransferError)

  // ---- the byte stream -------------------------------------------------------------------------------------

  function Flat(segments: seq<seq<Byte>>): seq<Byte> {
    if segments == [] then [] else segments[0] + Flat(segments[1..])
  }

  /** The receiving half of a connection: the segments still to be delivered, none of them empty; an exhausted
      list is the end of the stream. */
  class ByteSource {
    var segments: seq<seq<Byte>>

    ghost predicate Valid()
      reads this
    {
      forall k :: 0 <= k < |segments| ==> segments[k] != []
    }

    ghost function Left(): seq<Byte>
      reads this
    {
      Flat(segments)
    }

    constructor (segments: seq<seq<Byte>>)
      requires forall k :: 0 <= k < |segments| ==> segments[k] != []
      ensures Valid() && Left() == Flat(segments)
    {
      this.segments := segments;
    }

    /** One read: some bytes of the next segment, none only at the end. */
    method Read(max: nat) returns (got: seq<Byte>)
      requires Valid() && max >= 1
      modifies this
      ensures Valid() && got + Left() == old(Left())
      ensures |got| <= max && (got == [] ==> old(Left()) == [])
    {
      if segments == [] {
        return [];
      }
      var head := segments[0];
      if |head| <= max {
        got := head;
        segments := segments[1..];
      } else {
        got := head[..max];
        assert head == got + head[max..];
        segments := [head[max..]] + segments[1..];
      }
    }

    /** Short reads are reassembled; a stream that ends early is consumed and reported. */
    method ReadExact(n: nat) returns (r: Option<seq<Byte>>)
      requires Valid()
      modifies this
      ensures Valid()
      ensures if n <= |old(Left())| then r == Some(old(Left())[..n]) && Left() == old(Left())[n..]
              else r == None && Left() == []
    {
      ghost var all := Left();
      var got: seq<Byte> := [];
      while |got| < n
        invariant Valid() && |got| <= n
        invariant got + Left() == all
      {
        label before:
        var more := Read(n - |got|);
        if more == [] {
          assert old@before(Left()) == [];
          return None;
        }
        assert got + (more + Left()) == (got + more) + Left();
        got := got + more;
      }
      assert all[..n] == got && all[n..] == Left();
      r := Some(got);
    }
  }

  class ByteSink {
    var written: seq<Byte>

    constructor ()
      ensures written == []
    {
      written := [];
    }

    method WriteAll(bytes: seq<Byte>)
      modifies this
      ensures written == old(written) + bytes
    {
      written := written + bytes;
    }
  }

  // ---- messages --------------------------------------------------------------------------------------------

  function Framed(payload: seq<Byte>): seq<Byte> {
    ToBe(|payload|, 4) + payload
  }

  method WriteMessage(w: ByteSink, payload: seq<Byte>) returns (r: Result<(), WireError>)
    modifies w
    ensures r.Ok? <==> |payload| <= MAX_MESSAGE_BYTES
    ensures w.written == old(w.written) + if r.Ok? then Framed(payload) else []
  {
    if |payload| > MAX_MESSAGE_BYTES {
      return Err(TooLong(|payload|));
    }
    var out: seq<Byte> := [];
    out := out + ToBe(|payload|, 4);
    out := out + payload;
    w.WriteAll(out);
    r := Ok(());
  }

  datatype Reading<+T> = Reading(result: Result<T, WireError>, rest: seq<Byte>)

  /** What reading one message from this stream gives, and what it leaves. */
  function MessageAt(s: seq<Byte>): Reading<seq<Byte>> {
    if |s| < LEN_PREFIX_BYTES then Reading(Err(Closed), [])
    else
      var len := FromBe(s[..4]);
      if len > MAX_MESSAGE_BYTES then Reading(Err(TooLong(len)), s[4..])
      else if len == 0 then Reading(Err(EmptyMessage), s[4..])
      else if |s| < 4 + len then Reading(Err(ClosedMidFrame), [])
      else Reading(Ok(s[4..4 + len]), s[4 + len..])
  }

  /** Every stream gets exactly one reading: it ends before the four bytes of a length, most significant first, or the
      length is over 1048605 or zero, or the stream ends within the message, or the message is there. What was read is
      gone. */
  lemma MessageCases(s: seq<Byte>)
    ensures var m := MessageAt(s);
            if |s| < 4 then m == Reading(Err(Closed), [])
            else
              var len := Word(s[0], s[1], s[2], s[3]);
              if len > 1048605 then m == Reading(Err(TooLong(len)), s[4..])
              else if len == 0 then m == Reading(Err(EmptyMessage), s[4..])
              else if |s| - 4 < len then m == Reading(Err(ClosedMidFrame), [])
              else m.result.Ok? && |m.result.value| == len && s == s[..4] + m.result.value + m.rest
  {
    if |s| >= 4 {
      FourBytes(s[..4]);
      assert s[..4][0] == s[0] && s[..4][1] == s[1] && s[..4][2] == s[2] && s[..4][3] == s[3];
    }
    hide FromBe;
  }

  /** However the stream is cut into segments, only its bytes matter. */
  method ReadMessage(r: ByteSource) returns (m: Result<seq<Byte>, WireError>)
    requires r.Valid()
    modifies r
    ensures r.Valid() && Reading(m, r.Left()) == MessageAt(old(r.Left()))
  {
    ghost var all := r.Left();
    var lenBuf := r.ReadExact(LEN_PREFIX_BYTES);
    if lenBuf.None? {
      return Err(Closed);
    }
    var len := FromBe(lenBuf.value);
    if len > MAX_MESSAGE_BYTES {
      return Err(TooLong(len));
    }
    if len == 0 {
      return Err(EmptyMessage);
    }
    var buf := r.ReadExact(len);
    if buf.None? {
      return Err(ClosedMidFrame);
    }
    assert all[4..][..len] == all[4..4 + len] && all[4..][len..] == all[4 + len..];
    m := Ok(buf.value);
  }

  /** Exact: of what `WriteMessage` accepts, a message is read back, leaving what follows it, unless it is
      empty, which the writer accepts and the reader refuses. */
  lemma ReadsBackIff(payload: seq<Byte>, rest: seq<Byte>)
    requires |payload| <= MAX_MESSAGE_BYTES
    ensures MessageAt(Framed(payload) + rest) == Reading(Ok(payload), rest) <==> payload != []
  {
    var s := Framed(payload) + rest;
    ValuesOfWords();
    BeRoundTrip(|payload|, 4);
    assert s[..4] == ToBe(|payload|, 4);
    hide ToBe, FromBe;
    assert s[4..4 + |payload|] == payload && s[4 + |payload|..] == rest;
  }

  // ---- sealing ---------------------------------------------------------------------------------------------

  /** The frame's index in front of its ciphertext under that index's nonce. */
  function Sealed(aead: Aead, baseIv: seq<Byte>, index: nat, text: seq<Byte>): Option<seq<Byte>>
    requires |baseIv| == IV_LEN
  {
    match aead.seal(Nonce(baseIv, index), text)
    case Some(c) => Some(ToBe(index, 8) + c)
    case None => None
  }

  function Opened(aead: Aead, baseIv: seq<Byte>, msg: seq<Byte>): Result<seq<Byte>, WireError>
    requires |baseIv| == IV_LEN
  {
    if |msg| < 8 then Err(Truncated)
    else
      match aead.open(Nonce(baseIv, FromBe(msg[..8])), msg[8..])
      case Some(text) => Ok(text)
      case None => Err(WrongKey)
  }

  class Sealer {
    const cipher: StreamCipher
    var index: nat

    ghost predicate Valid() {
      |cipher.baseIv| == IV_LEN
    }

    constructor (cipher: StreamCipher)
      requires |cipher.baseIv| == IV_LEN
      ensures this.cipher == cipher && index == 0 && Valid()
    {
      this.cipher := cipher;
      index := 0;
    }

    method Seal(text: seq<Byte>) returns (r: Result<seq<Byte>, WireError>)
      requires Valid() && index < U64
      modifies this, cipher
      ensures var s := Sealed(cipher.aead, cipher.baseIv, old(index), text);
              if s.Some? then r == Ok(s.value) && index == old(index) + 1
              else r == Err(SealFailed) && index == old(index)
    {
      cipher.SkipTo(index);
      var c := cipher.EncryptChunk(text);
      if c.Err? {
        return Err(SealFailed);
      }
      var out: seq<Byte> := [];
      out := out + ToBe(index, 8);
      out := out + c.value;
      assert out == ToBe(index, 8) + c.value;
      index := index + 1;
      r := Ok(out);
    }
  }

  class Unsealer {
    const decryptor: StreamDecryptor

    ghost predicate Valid() {
      |decryptor.baseIv| == IV_LEN
    }

    constructor (decryptor: StreamDecryptor)
      requires |decryptor.baseIv| == IV_LEN
      ensures this.decryptor == decryptor && Valid()
    {
      this.decryptor := decryptor;
    }

    method Unseal(msg: seq<Byte>) returns (r: Result<seq<Byte>, WireError>)
      requires Valid()
      modifies decryptor
      ensures r == Opened(decryptor.aead, decryptor.baseIv, msg)
      ensures r == Err(Truncated) <==> |msg| < 8
      ensures r.Err? ==> r.error in {Truncated, WrongKey}
    {
      if |msg| < 8 {
        return Err(Truncated);
      }
      var index := FromBe(msg[..8]);
      FromBeBound(msg[..8]);
      ValuesOfWords();
      var p := decryptor.DecryptChunkAt(msg[8..], index);
      if p.Err? {
        return Err(WrongKey);
      }
      r := Ok(p.value);
    }
  }

  lemma OpeningUndoesSealing(aead: Aead, baseIv: seq<Byte>, index: nat, text: seq<Byte>)
    requires aead.Sound() && |baseIv| == IV_LEN && index < U64
    requires Sealed(aead, baseIv, index, text).Some?
    ensures var m := Sealed(aead, baseIv, index, text).value;
            Opened(aead, baseIv, m) == Ok(text) && |m| == |text| + SEAL_OVERHEAD
  {
    var c := aead.seal(Nonce(baseIv, index), text).value;
    var m := ToBe(index, 8) + c;
    ValuesOfWords();
    BeRoundTrip(index, 8);
    assert m[..8] == ToBe(index, 8) && m[8..] == c;
  }

  datatype Sent = Sent(index: nat, message: seq<Byte>)

  /** What a sealer at `index` emits for these texts; a text that does not seal emits nothing and keeps the
      index. */
  function SealRun(aead: Aead, baseIv: seq<Byte>, index: nat, texts: seq<seq<Byte>>): seq<Sent>
    requires |baseIv| == IV_LEN
    decreases |texts|
  {
    if texts == [] then []
    else
      match Sealed(aead, baseIv, index, texts[0])
      case Some(m) => [Sent(index, m)] + SealRun(aead, baseIv, index + 1, texts[1..])
      case None => SealRun(aead, baseIv, index, texts[1..])
  }

  /** The indices of a run lie in `[lo, hi)` and increase. */
  predicate Ascending(run: seq<Sent>, lo: nat, hi: nat) {
    && (forall k :: 0 <= k < |run| ==> lo <= run[k].index < hi)
    && (forall i, j :: 0 <= i < j < |run| ==> run[i].index < run[j].index)
  }

  lemma {:induction false} RunIndicesAscend(aead: Aead, baseIv: seq<Byte>, index: nat, texts: seq<seq<Byte>>)
    requires |baseIv| == IV_LEN
    ensures Ascending(SealRun(aead, baseIv, index, texts), index, index + |texts|)
    decreases |texts|
  {
    hide Sealed;
    if texts == [] {
    } else {
      if Sealed(aead, baseIv, index, texts[0]).Some? {
        RunIndicesAscend(aead, baseIv, index + 1, texts[1..]);
      } else {
        RunIndicesAscend(aead, baseIv, index, texts[1..]);
      }
    }
  }

  /** Of all the messages one sealer ever emits, no two used the same nonce. */
  lemma NoncesNeverRepeat(aead: Aead, baseIv: seq<Byte>, texts: seq<seq<Byte>>, i: nat, j: nat)
    requires |baseIv| == IV_LEN && |texts| <= U64
    requires i < j < |SealRun(aead, baseIv, 0, texts)|
    ensures var run := SealRun(aead, baseIv, 0, texts);
            Nonce(baseIv, run[i].index) != Nonce(baseIv, run[j].index)
  {
    var run := SealRun(aead, baseIv, 0, texts);
    RunIndicesAscend(aead, baseIv, 0, texts);
    if Nonce(baseIv, run[i].index) == Nonce(baseIv, run[j].index) {
      NonceInjective(baseIv, run[i].index, run[j].index);
    }
  }

  // ---- the wire --------------------------------------------------------------------------------------------

  /** What the wire puts on the stream for a frame sealed under `index`. */
  function OnWire(json: Json, aead: Aead, baseIv: seq<Byte>, index: nat, frame: Frame): Option<seq<Byte>>
    requires |baseIv| == IV_LEN
  {
    if !Encodable(json, frame) then None
    else
      match Sealed(aead, baseIv, index, Encoded(json, frame))
      case Some(m) => if |m| <= MAX_MESSAGE_BYTES then Some(Framed(m)) else None
      case None => None
  }

  /** Nothing longer than a message with its prefix goes out, whatever the cipher makes of a frame. */
  lemma NothingTooLongGoesOut(json: Json, aead: Aead, baseIv: seq<Byte>, index: nat, frame: Frame)
    requires |baseIv| == IV_LEN && OnWire(json, aead, baseIv, index, frame).Some?
    ensures |OnWire(json, aead, baseIv, index, frame).value| <= 4 + 1048605
  {
    hide Sealed, Encoded, Encodable;
  }

  datatype Received = Received(result: Result<Frame, WireError>, poisoned: bool, rest: seq<Byte>)

  function ReceivedFrom(json: Json, aead: Aead, baseIv: seq<Byte>, poisoned: bool, s: seq<Byte>): Received
    requires |baseIv| == IV_LEN
  {
    if poisoned then Received(Err(WrongPassword), true, s)
    else
      var m := MessageAt(s);
      if m.result.Err? then Received(Err(m.result.error), false, m.rest)
      else
        var text := Opened(aead, baseIv, m.result.value);
        if text.Err? then Received(Err(WrongPassword), true, m.rest)
        else
          match DecodeMessage(json, text.value)
          case Ok(frame) => Received(Ok(frame), false, m.rest)
          case Err(e) => Received(Err(Protocol(e)), false, m.rest)
  }

  class TcpWire {
    const json: Json
    const read: ByteSource
    const write: ByteSink
    const sealer: Sealer
    const unsealer: Unsealer
    var poisoned: bool

    ghost predicate Valid()
      reads this, read
    {
      read.Valid() && sealer.Valid() && unsealer.Valid()
    }

    constructor (json: Json, read: ByteSource, write: ByteSink, sealer: Sealer, unsealer: Unsealer)
      requires read.Valid() && sealer.Valid() && unsealer.Valid()
      ensures Valid() && !poisoned
      ensures this.json == json && this.read == read && this.write == write
      ensures this.sealer == sealer && this.unsealer == unsealer
    {
      this.json, this.read, this.write, this.sealer, this.unsealer := json, read, write, sealer, unsealer;
      poisoned := false;
    }

    method Send(frame: Frame) returns (r: Result<(), WireError>)
      requires Valid() && sealer.index < U64
      modifies write, sealer, sealer.cipher
      ensures Valid()
      ensures var w := OnWire(json, sealer.cipher.aead, sealer.cipher.baseIv, old(sealer.index), frame);
              && (r.Ok? <==> w.Some?)
              && write.written == old(write.written) + (if w.Some? then w.value else [])
      ensures sealer.index == old(sealer.index)
              + if && Encodable(json, frame)
                   && Sealed(sealer.cipher.aead, sealer.cipher.baseIv, old(sealer.index), Encoded(json, frame)).Some?
                then 1 else 0
    {
      var text := EncodeFrame(json, frame);
      if text.Err? {
        return Err(Protocol(text.error));
      }
      var sealed := sealer.Seal(text.value);
      if sealed.Err? {
        return Err(sealed.error);
      }
      r := WriteMessage(write, sealed.value);
    }

    method Recv() returns (r: Result<Frame, WireError>)
      requires Valid()
      modifies this`poisoned, read, unsealer.decryptor
      ensures Valid()
      ensures Received(r, poisoned, read.Left())
              == ReceivedFrom(json, unsealer.decryptor.aead, unsealer.decryptor.baseIv, old(poisoned), old(read.Left()))
    {
      if poisoned {
        return Err(WrongPassword);
      }
      var sealed := ReadMessage(read);
      if sealed.Err? {
        return Err(sealed.error);
      }
      var plaintext := unsealer.Unseal(sealed.value);
      if plaintext.Err? {
        poisoned := true;
        return Err(WrongPassword);
      }
      var frame := DecodeMessage(json, plaintext.value);
      match frame
      case Ok(f) => r := Ok(f);
      case Err(e) => r := Err(Protocol(e));
    }
  }

  /** A frame that encodes is never refused for its length: once sealed it is within the limit on both sides,
      and never empty. Only the cipher itself can refuse it. */
  lemma LegitimateFramesFit(json: Json, aead: Aead, baseIv: seq<Byte>, index: nat, frame: Frame)
    requires aead.Sound() && |baseIv| == IV_LEN && index < U64 && Encodable(json, frame)
    ensures OnWire(json, aead, baseIv, index, frame).Some?
            <==> Sealed(aead, baseIv, index, Encoded(json, frame)).Some?
    ensures var s := Sealed(aead, baseIv, index, Encoded(json, frame));
            s.Some? ==> 1 <= |s.value| <= MAX_MESSAGE_BYTES
                        && (|s.value| == MAX_MESSAGE_BYTES <==> |Payload(json, frame).value| == MAX_FRAME_BYTES)
  {
    if Sealed(aead, baseIv, index, Encoded(json, frame)).Some? {
      OpeningUndoesSealing(aead, baseIv, index, Encoded(json, frame));
    }
  }

  /** One frame through the wire. */
  lemma FrameArrives(json: Json, aead: Aead, baseIv: seq<Byte>, index: nat, frame: Frame, rest: seq<Byte>)
    requires json.Faithful() && aead.Sound() && |baseIv| == IV_LEN && index < U64
    requires OnWire(json, aead, baseIv, index, frame).Some?
    ensures ReceivedFrom(json, aead, baseIv, false, OnWire(json, aead, baseIv, index, frame).value + rest)
            == Received(Ok(frame), false, rest)
  {
    var text := Encoded(json, frame);
    var m := Sealed(aead, baseIv, index, text).value;
    OpeningUndoesSealing(aead, baseIv, index, text);
    ReadsBackIff(m, rest);
    MessageRoundTrip(json, frame);
    hide MessageAt, Opened, Sealed, DecodeMessage, Framed, Encoded;
  }

  /** The stream a fresh sealer produces for these frames, from this index on. */
  function Outgoing(json: Json, aead: Aead, baseIv: seq<Byte>, index: nat, frames: seq<Frame>): Option<seq<Byte>>
    requires |baseIv| == IV_LEN
    decreases |frames|
  {
    if frames == [] then Some([])
    else
      var first := OnWire(json, aead, baseIv, index, frames[0]);
      var later := Outgoing(json, aead, baseIv, index + 1, frames[1..]);
      if first.Some? && later.Some? then Some(first.value + later.value) else None
  }

  datatype Intake = Intake(frames: seq<Frame>, poisoned: bool, rest: seq<Byte>)

  /** `n` receives in a row; a failed one adds no frame. */
  function Receives(json: Json, aead: Aead, baseIv: seq<Byte>, poisoned: bool, s: seq<Byte>, n: nat): Intake
    requires |baseIv| == IV_LEN
    decreases n
  {
    if n == 0 then Intake([], poisoned, s)
    else
      var r := ReceivedFrom(json, aead, baseIv, poisoned, s);
      var later := Receives(json, aead, baseIv, r.poisoned, r.rest, n - 1);
      later.(frames := (if r.result.Ok? then [r.result.value] else []) + later.frames)
  }

  /** The frames one side sends are the frames the other side receives, in order, and nothing of what follows
      them is touched: for every cut of the stream into segments, because only its bytes matter. */
  lemma {:induction false} WireIsFaithful(
      json: Json, aead: Aead, baseIv: seq<Byte>, index: nat, frames: seq<Frame>, rest: seq<Byte>)
    requires json.Faithful() && aead.Sound() && |baseIv| == IV_LEN && index + |frames| <= U64
    requires Outgoing(json, aead, baseIv, index, frames).Some?
    ensures Receives(json, aead, baseIv, false, Outgoing(json, aead, baseIv, index, frames).value + rest, |frames|)
            == Intake(frames, false, rest)
    decreases |frames|
  {
    hide ReceivedFrom, OnWire, Json.Faithful, Aead.Sound;
    var out := Outgoing(json, aead, baseIv, index, frames).value;
    if frames == [] {
      assert out + rest == rest;
    } else {
      var first := OnWire(json, aead, baseIv, index, frames[0]).value;
      var later := Outgoing(json, aead, baseIv, index + 1, frames[1..]).value;
      assert out + rest == first + (later + rest);
      FrameArrives(json, aead, baseIv, index, frames[0], later + rest);
      WireIsFaithful(json, aead, baseIv, index + 1, frames[1..], rest);
      assert [frames[0]] + frames[1..] == frames;
    }
  }

  /** Exact: a receive poisons the wire when it was poisoned, or read a whole message that does not open. */
  lemma PoisonsIff(json: Json, aead: Aead, baseIv: seq<Byte>, poisoned: bool, s: seq<Byte>)
    requires |baseIv| == IV_LEN
    ensures ReceivedFrom(json, aead, baseIv, poisoned, s).poisoned
            <==> poisoned || (MessageAt(s).result.Ok? && Opened(aead, baseIv, MessageAt(s).result.value).Err?)
  {
    hide MessageAt, Opened, DecodeMessage;
  }

  /** What a receive that yields no frame reports: a wrong password exactly when the wire is poisoned afterwards, a
      protocol error for a message that opens to no frame, and otherwise what was wrong with the message. */
  lemma ReceiveFails(json: Json, aead: Aead, baseIv: seq<Byte>, poisoned: bool, s: seq<Byte>)
    requires |baseIv| == IV_LEN
    ensures var r, m := ReceivedFrom(json, aead, baseIv, poisoned, s), MessageAt(s);
            && (r.result == Err(WrongPassword) <==> r.poisoned)
            && (!r.poisoned && m.result.Err? ==> r.result == Err(m.result.error))
            && (!r.poisoned && m.result.Ok? ==>
                  && |m.result.value| >= 8
                  && var text := aead.open(Nonce(baseIv, FromBe(m.result.value[..8])), m.result.value[8..]);
                     text.Some? && r.result == match DecodeMessage(json, text.value)
                                               case Ok(frame) => Ok(frame)
                                               case Err(e) => Err(Protocol(e)))
  {
    hide DecodeMessage, FromBe, Nonce;
  }

  /** A poisoned wire never yields another frame and never reads another byte, whatever is sent to it. */
  lemma {:induction false} PoisonIsFinal(json: Json, aead: Aead, baseIv: seq<Byte>, s: seq<Byte>, n: nat)
    requires |baseIv| == IV_LEN
    ensures Receives(json, aead, baseIv, true, s, n) == Intake([], true, s)
  {
    if n == 0 {
    } else {
      PoisonIsFinal(json, aead, baseIv, s, n - 1);
    }
  }
}
