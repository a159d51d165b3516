/** The binary frames of the chunk protocol: a type byte, a big-endian index or total, the rest. */
module Codec {
  import opened Bytes
  import opened Wrappers

  datatype Frame = ChunkFrame(index: nat, payload: seq<Byte>) | EndFrame(totalChunks: nat)

  datatype DecodeError = Empty | Short | UnknownType(tag: Byte)

  const FRAME_CHUNK: Byte := 1
  const FRAME_END: Byte := 2

  function ChunkBytes(index: nat, ciphertext: seq<Byte>): seq<Byte> {
    [FRAME_CHUNK] + ToBe(index, 8) + ciphertext
  }

  function EndBytes(totalChunks: nat): seq<Byte> {
    [FRAME_END] + ToBe(totalChunks, 8)
  }

  method EncodeChunk(index: nat, ciphertext: seq<Byte>) returns (out: seq<Byte>)
    requires index < U64
    ensures out == ChunkBytes(index, ciphertext)
    ensures Decode(out) == Ok(ChunkFrame(index, ciphertext))
    ensures |out| == 9 + |ciphertext| && out[0] == 1 && out[9..] == ciphertext
    ensures forall j :: 1 <= j < 9 ==> out[j] == index / Values(8 - j) % 256
  {
    BytesAreDigits(index, 8);
    out := [FRAME_CHUNK];
    out := out + ToBe(index, 8);
    out := out + ciphertext;
    DecodeChunkBytes(index, ciphertext);
  }

  method EncodeEnd(totalChunks: nat) returns (out: seq<Byte>)
    requires totalChunks < U64
    ensures out == EndBytes(totalChunks)
    ensures Decode(out) == Ok(EndFrame(totalChunks))
    ensures |out| == 9 && out[0] == 2 && forall j :: 1 <= j < 9 ==> out[j] == totalChunks / Values(8 - j) % 256
  {
    BytesAreDigits(totalChunks, 8);
    out := [FRAME_END];
    out := out + ToBe(totalChunks, 8);
    DecodeEndBytes(totalChunks, []);
    assert EndBytes(totalChunks) + [] == EndBytes(totalChunks);
  }

  function Decode(frame: seq<Byte>): Result<Frame, DecodeError> {
    if frame == [] then Err(Empty)
    else if frame[0] == FRAME_CHUNK then
      if |frame| < 9 then Err(Short) else Ok(ChunkFrame(FromBe(frame[1..9]), frame[9..]))
    else if frame[0] == FRAME_END then
      if |frame| < 9 then Err(Short) else Ok(EndFrame(FromBe(frame[1..9])))
    else Err(UnknownType(frame[0]))
  }

  lemma DecodeChunkBytes(index: nat, ciphertext: seq<Byte>)
    requires index < U64
    ensures Decode(ChunkBytes(index, ciphertext)) == Ok(ChunkFrame(index, ciphertext))
  {
    ValuesOfWords();
    BeRoundTrip(index, 8);
    var f := ChunkBytes(index, ciphertext);
    assert f[1..9] == ToBe(index, 8) && f[9..] == ciphertext;
  }

  /** Bytes behind an end frame's total are ignored. */
  lemma DecodeEndBytes(totalChunks: nat, trailing: seq<Byte>)
    requires totalChunks < U64
    ensures Decode(EndBytes(totalChunks) + trailing) == Ok(EndFrame(totalChunks))
  {
    ValuesOfWords();
    BeRoundTrip(totalChunks, 8);
    assert (EndBytes(totalChunks) + trailing)[1..9] == ToBe(totalChunks, 8);
  }

  /** Decoding loses nothing, and so encoding it again gives the frame back, exactly for the frames
      that are not an end frame with bytes behind it. */
  lemma ReencodesIff(frame: seq<Byte>)
    requires Decode(frame).Ok?
    ensures var back := match Decode(frame).value
                        case ChunkFrame(index, payload) => ChunkBytes(index, payload)
                        case EndFrame(total) => EndBytes(total);
            back == frame <==> frame[0] == FRAME_CHUNK || |frame| == 9
  {
    BeCanonical(frame[1..9]);
    assert frame == [frame[0]] + frame[1..9] + frame[9..];
    FromBeBound(frame[1..9]);
  }

  /** Every frame either decodes to an index or total a 64-bit word holds, or fails for exactly one
      of the three reasons. */
  lemma DecodeCases(frame: seq<Byte>)
    ensures match Decode(frame)
            case Ok(ChunkFrame(index, payload)) => frame[0] == 1 && index < U64 && |payload| == |frame| - 9
            case Ok(EndFrame(total)) => frame[0] == 2 && total < U64 && |frame| >= 9
            case Err(Empty) => frame == []
            case Err(Short) => 1 <= |frame| < 9 && frame[0] in {1, 2}
            case Err(UnknownType(t)) => frame != [] && t == frame[0] && t !in {1, 2}
  {
    ValuesOfWords();
    if |frame| >= 9 {
      FromBeBound(frame[1..9]);
    }
  }
}
