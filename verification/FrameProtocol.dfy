/** The folder-sync frames: `[tag][length, big-endian][payload]`. The JSON text of a control frame is a pair of
    functions of which only "parsing undoes printing" is used. */
module FrameProtocol {
  import opened Bytes
  import opened Wrappers

  const PROTO_VERSION: nat := 1
  const MAX_FRAME_BYTES: nat := 1048576
  const MANIFEST_BATCH: nat := 512
  const FRAME_HEADER_LEN: nat := 5
  const TAG_CONTROL: Byte := 1
  const TAG_CHUNK: Byte := 2

  datatype TransferMode = Sync | File

  datatype FileEntry = FileEntry(path: string, size: nat, mode: nat, hash: string)

  datatype PathHash = PathHash(path: string, hash: string)

  datatype ControlFrame =
    | Hello(protoVersion: nat, mode: TransferMode, folder: Option<string>)
    | Manifest(files: seq<FileEntry>, more: bool)
    | ManifestAck(held: seq<PathHash>, more: bool)
    | FileBegin(path: string, size: nat, perms: nat)
    | FileEnd(hash: string)
    | FileOk(path: string)
    | FileFail(path: string, reason: string)
    | Delete(paths: seq<string>)
    | Done(filesSent: nat, bytes: nat, deleted: nat, skipped: nat)
    | Abort(reason: string)

  datatype Frame = Control(c: ControlFrame) | Chunk(data: seq<Byte>)

  datatype TransferError =
    | FrameTooLarge(len: nat)
    | UnknownTag(tag: Byte)
    | BadControl(why: string)
    | VersionMismatch(ours: nat, theirs: nat)
    | ModeMismatch(expected: TransferMode, actual: TransferMode)
    | UnsafePath(path: string, reason: string)
    | MissingFolder
    | HashMismatch(path: string)
    | Unexpected(what: string)
    | PeerAbort(reason: string)

  datatype Json = Json(
    toText: ControlFrame -> Result<seq<Byte>, string>,
    fromText: seq<Byte> -> Result<ControlFrame, string>)
  {
    ghost predicate Faithful() {
      forall c: ControlFrame :: toText(c).Ok? ==> fromText(toText(c).value) == Ok(c)
    }
  }

  // ---- encoding ----------------------------------------------------------------------------------------

  function Tag(frame: Frame): Byte {
    if frame.Control? then TAG_CONTROL else TAG_CHUNK
  }

  function Payload(json: Json, frame: Frame): Result<seq<Byte>, string> {
    match frame
    case Control(c) => json.toText(c)
    case Chunk(data) => Ok(data)
  }

  /** The frame has an encoding: its payload prints and is no longer than the limit. */
  predicate Encodable(json: Json, frame: Frame) {
    Payload(json, frame).Ok? && |Payload(json, frame).value| <= MAX_FRAME_BYTES
  }

  function Encoded(json: Json, frame: Frame): seq<Byte>
    requires Encodable(json, frame)
  {
    var p := Payload(json, frame).value;
    [Tag(frame)] + ToBe(|p|, 4) + p
  }

  /** A tag, 1 for control and 2 for a chunk, the payload's length in four bytes, most significant first, and the
      payload, which is a megabyte at most. */
  predicate LaidOut(json: Json, frame: Frame, bytes: seq<Byte>) {
    && 5 <= |bytes| <= 5 + 1048576
    && (forall j :: 1 <= j < 5 ==> bytes[j] == (|bytes| - 5) / Values(4 - j) % 256)
    && match frame
       case Control(c) => bytes[0] == 1 && json.toText(c) == Ok(bytes[5..])
       case Chunk(data) => bytes[0] == 2 && bytes[5..] == data
  }

  method EncodeFrame(json: Json, frame: Frame) returns (r: Result<seq<Byte>, TransferError>)
    ensures r.Ok? <==> Encodable(json, frame)
    ensures r.Ok? ==> r.value == Encoded(json, frame)
    ensures r.Err? ==> r.error == EncodeError(json, frame)
    ensures r.Ok? ==> LaidOut(json, frame, r.value)
    ensures r.Err? ==> match frame
                       case Control(c) =>
                         if json.toText(c).Err? then r.error == BadControl(json.toText(c).error)
                         else 1048576 < |json.toText(c).value| && r.error == FrameTooLarge(|json.toText(c).value|)
                       case Chunk(data) => 1048576 < |data| && r.error == FrameTooLarge(|data|)
  {
    var tag: Byte;
    var payload: seq<Byte>;
    match frame {
      case Control(c) =>
        tag := TAG_CONTROL;
        match json.toText(c) {
          case Ok(text) => payload := text;
          case Err(why) => return Err(BadControl(why));
        }
      case Chunk(data) =>
        tag, payload := TAG_CHUNK, data;
    }
    if |payload| > MAX_FRAME_BYTES {
      return Err(FrameTooLarge(|payload|));
    }
    BytesAreDigits(|payload|, 4);
    var out := [tag];
    out := out + ToBe(|payload|, 4);
    out := out + payload;
    r := Ok(out);
  }

  function Controls(frames: seq<ControlFrame>): (r: seq<Frame>)
    ensures |r| == |frames| && forall k :: 0 <= k < |r| ==> r[k] == Control(frames[k])
  {
    seq(|frames|, k requires 0 <= k < |frames| => Control(frames[k]))
  }

  /** Why a frame has no encoding. */
  function EncodeError(json: Json, frame: Frame): TransferError
    requires !Encodable(json, frame)
  {
    match Payload(json, frame)
    case Err(why) => BadControl(why)
    case Ok(p) => FrameTooLarge(|p|)
  }

  predicate AllEncodable(json: Json, frames: seq<Frame>) {
    forall k :: 0 <= k < |frames| ==> Encodable(json, frames[k])
  }

  /** How many of these frames go out one after the other before one of them does not encode. */
  function SendableCount(json: Json, frames: seq<Frame>): (n: nat)
    ensures n <= |frames|
    ensures AllEncodable(json, frames[..n])
    ensures n < |frames| ==> !Encodable(json, frames[n])
  {
    if frames == [] || !Encodable(json, frames[0]) then 0
    else
      var n := SendableCount(json, frames[1..]);
      assert forall k :: 1 <= k <= n ==> frames[k] == frames[1..][..n][k - 1];
      1 + n
  }

  lemma SendableIs(json: Json, frames: seq<Frame>, k: nat)
    requires k <= |frames| && AllEncodable(json, frames[..k]) && (k < |frames| ==> !Encodable(json, frames[k]))
    ensures SendableCount(json, frames) == k
  {
    var n := SendableCount(json, frames);
    hide *;
    if n < k {
      EncodesBefore(json, frames, n, k);
    } else if k < n {
      EncodesBefore(json, frames, k, n);
    }
  }

  lemma EncodesBefore(json: Json, frames: seq<Frame>, i: nat, k: nat)
    requires i < k <= |frames| && AllEncodable(json, frames[..k])
    ensures Encodable(json, frames[i])
  {
    hide Encodable;
    assert frames[..k][i] == frames[i];
  }

  lemma OneMoreEncodes(json: Json, frames: seq<Frame>, k: nat)
    requires k < |frames| && AllEncodable(json, frames[..k])
    ensures frames[..k + 1] == frames[..k] + [frames[k]]
    ensures Encodable(json, frames[k]) ==> AllEncodable(json, frames[..k + 1])
  {
    hide Encodable;
    assert frames[..k + 1] == frames[..k] + [frames[k]];
  }

  lemma AllSendableIff(json: Json, frames: seq<Frame>)
    ensures SendableCount(json, frames) == |frames| <==> AllEncodable(json, frames)
  {
    assert frames[..|frames|] == frames;
  }

  // ---- decoding ----------------------------------------------------------------------------------------

  datatype Decoded = Decoded(frame: Frame, consumed: nat)

  function DecodeFrame(json: Json, buf: seq<Byte>): (r: Result<Option<Decoded>, TransferError>)
    ensures r.Ok? && r.value.Some? ==> FRAME_HEADER_LEN <= r.value.value.consumed <= |buf|
  {
    if |buf| < FRAME_HEADER_LEN then Ok(None)
    else
      var tag := buf[0];
      var len := FromBe(buf[1..5]);
      if len > MAX_FRAME_BYTES then Err(FrameTooLarge(len))
      else if tag != TAG_CONTROL && tag != TAG_CHUNK then Err(UnknownTag(tag))
      else
        var end := FRAME_HEADER_LEN + len;
        if |buf| < end then Ok(None)
        else
          var payload := buf[FRAME_HEADER_LEN..end];
          if tag == TAG_CONTROL then
            match json.fromText(payload)
            case Ok(c) => Ok(Some(Decoded(Control(c), end)))
            case Err(why) => Err(BadControl(why))
          else Ok(Some(Decoded(Chunk(payload), end)))
  }

  function DecodeMessage(json: Json, buf: seq<Byte>): Result<Frame, TransferError> {
    match DecodeFrame(json, buf)
    case Err(e) => Err(e)
    case Ok(None) => Err(BadControl("truncated frame"))
    case Ok(Some(d)) => if d.consumed == |buf| then Ok(d.frame) else Err(BadControl("trailing byte(s) after the frame"))
  }

  /** Every buffer gets exactly one verdict: it waits for a header, or for the rest of a frame that may come; its
      announced length is too large, its tag is unknown or its text does not parse; or it starts with a frame of the
      announced length. */
  lemma DecodeCases(json: Json, buf: seq<Byte>)
    ensures var d := DecodeFrame(json, buf);
            if |buf| < 5 then d == Ok(None)
            else
              var len := Word(buf[1], buf[2], buf[3], buf[4]);
              if len > 1048576 then d == Err(FrameTooLarge(len))
              else if buf[0] !in {1, 2} then d == Err(UnknownTag(buf[0]))
              else if |buf| < 5 + len then d == Ok(None)
              else if buf[0] == 2 then d == Ok(Some(Decoded(Chunk(buf[5..5 + len]), 5 + len)))
              else
                match json.fromText(buf[5..5 + len])
                case Ok(c) => d == Ok(Some(Decoded(Control(c), 5 + len)))
                case Err(why) => d == Err(BadControl(why))
  {
    if |buf| >= 5 {
      FourBytes(buf[1..5]);
    }
    hide FromBe;
  }

  // ---- what a stream consumer sees -----------------------------------------------------------------------

  lemma HeaderOf(json: Json, frame: Frame, buf: seq<Byte>)
    requires Encodable(json, frame)
    requires FRAME_HEADER_LEN <= |buf|
    requires buf[..5] == Encoded(json, frame)[..5]
    ensures buf[0] == Tag(frame) && FromBe(buf[1..5]) == |Payload(json, frame).value|
  {
    var p := Payload(json, frame).value;
    ValuesOfWords();
    BeRoundTrip(|p|, 4);
    assert buf[1..5] == buf[..5][1..5] == Encoded(json, frame)[1..5] == ToBe(|p|, 4);
    assert buf[0] == buf[..5][0];
  }

  /** The first frame of a buffer is found with its exact length, whatever follows it. */
  lemma DecodeFindsFirst(json: Json, frame: Frame, rest: seq<Byte>)
    requires json.Faithful() && Encodable(json, frame)
    ensures DecodeFrame(json, Encoded(json, frame) + rest) == Ok(Some(Decoded(frame, |Encoded(json, frame)|)))
  {
    var w := Encoded(json, frame);
    var p := Payload(json, frame).value;
    assert (w + rest)[..5] == w[..5];
    HeaderOf(json, frame, w + rest);
    assert (w + rest)[5..5 + |p|] == p;
    hide FromBe, ToBe;
  }

  /** A strict prefix of one encoded frame is never taken for a frame, nor for an error. */
  lemma StrictPrefixWaits(json: Json, frame: Frame, k: nat)
    requires Encodable(json, frame) && k < |Encoded(json, frame)|
    ensures DecodeFrame(json, Encoded(json, frame)[..k]) == Ok(None)
  {
    var w := Encoded(json, frame);
    if k >= 5 {
      assert w[..k][..5] == w[..5];
      HeaderOf(json, frame, w[..k]);
      hide FromBe, ToBe;
    }
  }

  /** A verdict, found or refused, never changes when more bytes arrive. */
  lemma VerdictIsStable(json: Json, buf: seq<Byte>, more: seq<Byte>)
    requires DecodeFrame(json, buf) != Ok(None)
    ensures DecodeFrame(json, buf + more) == DecodeFrame(json, buf)
  {
    assert (buf + more)[1..5] == buf[1..5];
    var len := FromBe(buf[1..5]);
    hide FromBe;
    if len <= MAX_FRAME_BYTES && 5 + len <= |buf| {
      assert (buf + more)[5..5 + len] == buf[5..5 + len];
    }
  }

  /** A decoded chunk frame was the only encoding of its data. */
  lemma ChunkFramesAreCanonical(json: Json, buf: seq<Byte>)
    requires DecodeFrame(json, buf).Ok? && DecodeFrame(json, buf).value.Some?
    requires DecodeFrame(json, buf).value.value.frame.Chunk?
    ensures var d := DecodeFrame(json, buf).value.value;
            Encodable(json, d.frame) && Encoded(json, d.frame) == buf[..d.consumed]
  {
    var d := DecodeFrame(json, buf).value.value;
    BeCanonical(buf[1..5]);
    assert buf[..d.consumed] == [buf[0]] + buf[1..5] + buf[5..d.consumed];
  }

  datatype Peeled = Peeled(frames: seq<Frame>, rest: seq<Byte>, error: Option<TransferError>)

  /** A stream consumer: take frames off the front until the buffer holds only part of one, or an error. */
  function Peel(json: Json, buf: seq<Byte>): Peeled
    decreases |buf|
  {
    match DecodeFrame(json, buf)
    case Err(e) => Peeled([], buf, Some(e))
    case Ok(None) => Peeled([], buf, None)
    case Ok(Some(d)) =>
      var later := Peel(json, buf[d.consumed..]);
      later.(frames := [d.frame] + later.frames)
  }

  function Stream(json: Json, frames: seq<Frame>): seq<Byte>
    requires AllEncodable(json, frames)
  {
    if frames == [] then [] else Encoded(json, frames[0]) + Stream(json, frames[1..])
  }

  lemma PeelStep(json: Json, frame: Frame, later: seq<Byte>)
    requires json.Faithful() && Encodable(json, frame)
    ensures var p := Peel(json, later);
            Peel(json, Encoded(json, frame) + later) == p.(frames := [frame] + p.frames)
  {
    DecodeFindsFirst(json, frame, later);
    var w := Encoded(json, frame);
    hide Encoded, DecodeFrame;
    assert (w + later)[|w|..] == later;
  }

  /** Peeling a concatenation of encoded frames, cut anywhere inside one more, gives exactly those frames and
      leaves exactly the cut one. */
  lemma {:induction false} PeelingIsExact(json: Json, frames: seq<Frame>, cut: Frame, k: nat)
    requires json.Faithful() && AllEncodable(json, frames)
    requires Encodable(json, cut) && k < |Encoded(json, cut)|
    ensures Peel(json, Stream(json, frames) + Encoded(json, cut)[..k])
            == Peeled(frames, Encoded(json, cut)[..k], None)
  {
    hide Encoded, Encodable, DecodeFrame, Json.Faithful;
    var tail := Encoded(json, cut)[..k];
    if frames == [] {
      StrictPrefixWaits(json, cut, k);
      assert Stream(json, frames) + tail == tail;
    } else {
      hide Peel;
      PeelingIsExact(json, frames[1..], cut, k);
      PeelStep(json, frames[0], Stream(json, frames[1..]) + tail);
      assert Stream(json, frames) + tail == Encoded(json, frames[0]) + (Stream(json, frames[1..]) + tail);
      assert [frames[0]] + frames[1..] == frames;
    }
  }

  // ---- one frame per message -----------------------------------------------------------------------------

  /** Exact: a message decodes to what was encoded when it is the whole encoding; with a byte cut off or a
      byte added it is refused. */
  lemma MessageIsExact(json: Json, frame: Frame, k: nat, extra: seq<Byte>)
    requires json.Faithful() && Encodable(json, frame)
    requires k < |Encoded(json, frame)| && extra != []
    ensures DecodeMessage(json, Encoded(json, frame)) == Ok(frame)
    ensures var cut := DecodeMessage(json, Encoded(json, frame)[..k]); cut.Err? && cut.error.BadControl?
    ensures var more := DecodeMessage(json, Encoded(json, frame) + extra); more.Err? && more.error.BadControl?
  {
    DecodeFindsFirst(json, frame, []);
    DecodeFindsFirst(json, frame, extra);
    StrictPrefixWaits(json, frame, k);
    hide Encoded, DecodeFrame;
    assert Encoded(json, frame) + [] == Encoded(json, frame);
  }

  lemma MessageRoundTrip(json: Json, frame: Frame)
    requires json.Faithful() && Encodable(json, frame)
    ensures DecodeMessage(json, Encoded(json, frame)) == Ok(frame)
    ensures FRAME_HEADER_LEN <= |Encoded(json, frame)| <= MAX_FRAME_BYTES + FRAME_HEADER_LEN
  {
    DecodeFindsFirst(json, frame, []);
    assert Encoded(json, frame) + [] == Encoded(json, frame);
  }
}
