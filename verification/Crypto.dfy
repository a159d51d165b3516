/** The streaming cipher: one nonce per index, and how a payload is cut into chunks. The authenticated
    cipher itself is a pair of functions of which only "opening undoes sealing" is used. */
module Crypto {
  import opened Bytes
  import opened Wrappers

  const IV_LEN: nat := 12
  const SALT_LEN: nat := 16
  const TAG_LEN: nat := 16

  /** A keyed cipher: both functions take the nonce first; either may fail. */
  datatype Aead = Aead(
    seal: (seq<Byte>, seq<Byte>) -> Option<seq<Byte>>,
    open: (seq<Byte>, seq<Byte>) -> Option<seq<Byte>>)
  {
    ghost predicate Sound() {
      forall nonce: seq<Byte>, text: seq<Byte> :: seal(nonce, text).Some? ==>
        && |seal(nonce, text).value| == |text| + TAG_LEN
        && open(nonce, seal(nonce, text).value) == Some(text)
    }
  }

  datatype CryptoError = DecryptFailed

  // ---- nonces ------------------------------------------------------------------------------------

  /** `baseIv` with the big-endian index exclusive-ored into its last eight bytes. */
  function Nonce(baseIv: seq<Byte>, index: nat): (nonce: seq<Byte>)
    requires |baseIv| == IV_LEN
    ensures |nonce| == IV_LEN
  {
    baseIv[..4] + seq(8, i requires 0 <= i < 8 => Xor(baseIv[4 + i], ToBe(index, 8)[i]))
  }

  lemma NonceBit(baseIv: seq<Byte>, index: nat, j: nat, i: nat)
    requires |baseIv| == IV_LEN && 4 <= j < IV_LEN && i < 8
    ensures Bit(Nonce(baseIv, index)[j], i) == (Bit(baseIv[j], i) != Bit(index, 8 * (11 - j) + i))
  {
    XorMeans(baseIv[j], ToBe(index, 8)[j - 4]);
    BytesAreDigits(index, 8);
    BitOfDigit(index, 11 - j, i);
    hide Xor, ToBe, Values, Bit;
  }

  lemma FirstNonce(baseIv: seq<Byte>)
    requires |baseIv| == IV_LEN
    ensures Nonce(baseIv, 0) == baseIv
  {
    BytesAreDigits(0, 8);
    hide Xor, ToBe;
    forall j | 4 <= j < IV_LEN
      ensures Nonce(baseIv, 0)[j] == baseIv[j]
    {
      assert 0 / Values(11 - j) == 0;
      XorMeans(baseIv[j], 0);
    }
  }

  /** The nonce of index 0 is the base. Any other differs from it, in the last eight bytes, exactly at the bits that the
      index has, most significant byte first. */
  lemma NonceMeans(baseIv: seq<Byte>, index: nat)
    requires |baseIv| == IV_LEN
    ensures Nonce(baseIv, 0) == baseIv && Nonce(baseIv, index)[..4] == baseIv[..4]
    ensures forall j, i :: 4 <= j < IV_LEN && 0 <= i < 8 ==>
              Bit(Nonce(baseIv, index)[j], i) == (Bit(baseIv[j], i) != Bit(index, 8 * (11 - j) + i))
  {
    FirstNonce(baseIv);
    var n := Nonce(baseIv, index);
    assert n[..4] == baseIv[..4];
    hide Bit, Nonce;
    forall j, i | 4 <= j < IV_LEN && 0 <= i < 8
      ensures Bit(n[j], i) == (Bit(baseIv[j], i) != Bit(index, 8 * (11 - j) + i))
    {
      NonceBit(baseIv, index, j, i);
    }
  }

  method DeriveNonce(baseIv: seq<Byte>, index: nat) returns (nonce: seq<Byte>)
    requires |baseIv| == IV_LEN && index < U64
    ensures nonce == Nonce(baseIv, index)
    ensures nonce[..4] == baseIv[..4] && (index == 0 ==> nonce == baseIv)
    ensures forall j, i :: 4 <= j < IV_LEN && 0 <= i < 8 ==>
              Bit(nonce[j], i) == (Bit(baseIv[j], i) != Bit(index, 8 * (11 - j) + i))
  {
    var buffer := new Byte[IV_LEN](i requires 0 <= i < |baseIv| => baseIv[i]);
    var indexBytes := ToBe(index, 8);
    var i := 0;
    while i < 8
      invariant 0 <= i <= 8
      invariant forall k :: 0 <= k < 4 ==> buffer[k] == baseIv[k]
      invariant forall k :: 4 <= k < 4 + i ==> buffer[k] == Xor(baseIv[k], indexBytes[k - 4])
      invariant forall k :: 4 + i <= k < IV_LEN ==> buffer[k] == baseIv[k]
    {
      buffer[IV_LEN - 8 + i] := Xor(buffer[IV_LEN - 8 + i], indexBytes[i]);
      i := i + 1;
    }
    nonce := buffer[..];
    assert nonce == Nonce(baseIv, index);
    NonceMeans(baseIv, index);
  }

  /** A nonce reveals its index: no two of the 2^64 indices share one under the same base. */
  lemma NonceInjective(baseIv: seq<Byte>, i: nat, j: nat)
    requires |baseIv| == IV_LEN && i < U64 && j < U64
    requires Nonce(baseIv, i) == Nonce(baseIv, j)
    ensures i == j
  {
    forall k | 0 <= k < 8
      ensures ToBe(i, 8)[k] == ToBe(j, 8)[k]
    {
      assert Nonce(baseIv, i)[4 + k] == Xor(baseIv[4 + k], ToBe(i, 8)[k]);
      assert Nonce(baseIv, j)[4 + k] == Xor(baseIv[4 + k], ToBe(j, 8)[k]);
      XorCancel(baseIv[4 + k], ToBe(i, 8)[k]);
      XorCancel(baseIv[4 + k], ToBe(j, 8)[k]);
    }
    assert ToBe(i, 8) == ToBe(j, 8);
    ValuesOfWords();
    BeRoundTrip(i, 8);
    BeRoundTrip(j, 8);
  }

  // ---- cutting a payload ---------------------------------------------------------------------------

  function ChunkCount(size: nat, chunkSize: nat): nat
    requires chunkSize >= 1
  {
    if size == 0 then 0 else (size + chunkSize - 1) / chunkSize
  }

  /** Where chunk `i` starts, or the end of the payload if that comes first. */
  function Offset(i: nat, chunkSize: nat, size: nat): (o: nat)
    ensures o <= size
  {
    if i * chunkSize <= size then i * chunkSize else size
  }

  function Slice(payload: seq<Byte>, chunkSize: nat, i: nat): seq<Byte>
  {
    OffsetsAscend(i, chunkSize, |payload|);
    payload[Offset(i, chunkSize, |payload|)..Offset(i + 1, chunkSize, |payload|)]
  }

  /** Everything before chunk `i`. */
  function Prefix(payload: seq<Byte>, chunkSize: nat, i: nat): seq<Byte> {
    payload[..Offset(i, chunkSize, |payload|)]
  }

  lemma OffsetsAscend(i: nat, chunkSize: nat, size: nat)
    ensures Offset(i, chunkSize, size) <= Offset(i + 1, chunkSize, size)
  {
    assert (i + 1) * chunkSize == i * chunkSize + chunkSize;
  }

  /** The count is the ceiling: chunk `i` exists, and starts inside the payload, exactly when
      `i` is below it. */
  lemma ChunkCountIsCeiling(size: nat, chunkSize: nat, i: nat)
    requires chunkSize >= 1
    ensures i < ChunkCount(size, chunkSize) <==> i * chunkSize < size
  {
    var n := ChunkCount(size, chunkSize);
    if size > 0 {
      var q, r := (size + chunkSize - 1) / chunkSize, (size + chunkSize - 1) % chunkSize;
      assert size + chunkSize - 1 == q * chunkSize + r;
      if i < n {
        Multiply(i + 1, n, chunkSize);
        assert (i + 1) * chunkSize == i * chunkSize + chunkSize;
      } else {
        Multiply(n, i, chunkSize);
      }
    }
  }

  lemma Multiply(a: nat, b: nat, c: nat)
    requires a <= b
    ensures a * c <= b * c
  {
  }

  lemma PrefixGrows(payload: seq<Byte>, chunkSize: nat, i: nat)
    requires chunkSize >= 1
    ensures Prefix(payload, chunkSize, i) + Slice(payload, chunkSize, i) == Prefix(payload, chunkSize, i + 1)
  {
    OffsetsAscend(i, chunkSize, |payload|);
  }

  lemma PrefixOfAll(payload: seq<Byte>, chunkSize: nat)
    requires chunkSize >= 1
    ensures Prefix(payload, chunkSize, 0) == []
    ensures Prefix(payload, chunkSize, ChunkCount(|payload|, chunkSize)) == payload
  {
    ChunkCountIsCeiling(|payload|, chunkSize, ChunkCount(|payload|, chunkSize));
  }

  // ---- the two ends of a keyed stream ---------------------------------------------------------------

  class StreamCipher {
    const aead: Aead
    const salt: seq<Byte>
    const baseIv: seq<Byte>
    var chunkIndex: nat

    /** `aead` is the cipher keyed by the password and `salt`. */
    constructor (aead: Aead, salt: seq<Byte>, baseIv: seq<Byte>)
      ensures this.aead == aead && this.salt == salt && this.baseIv == baseIv && chunkIndex == 0
    {
      this.aead, this.salt, this.baseIv, chunkIndex := aead, salt, baseIv, 0;
    }

    method EncryptChunk(plaintext: seq<Byte>) returns (r: Result<seq<Byte>, CryptoError>)
      requires |baseIv| == IV_LEN && chunkIndex < U64
      modifies this
      ensures var sealed := aead.seal(Nonce(baseIv, old(chunkIndex)), plaintext);
              match r
              case Ok(c) => sealed == Some(c) && chunkIndex == old(chunkIndex) + 1
              case Err(_) => sealed == None && chunkIndex == old(chunkIndex)
    {
      var nonce := DeriveNonce(baseIv, chunkIndex);
      var sealed := aead.seal(nonce, plaintext);
      if sealed.None? {
        return Err(DecryptFailed);
      }
      chunkIndex := chunkIndex + 1;
      r := Ok(sealed.value);
    }

    method SkipTo(index: nat)
      modifies this
      ensures chunkIndex == index
    {
      chunkIndex := index;
    }
  }

  class StreamDecryptor {
    const aead: Aead
    const baseIv: seq<Byte>
    var chunkIndex: nat

    constructor (aead: Aead, baseIv: seq<Byte>)
      ensures this.aead == aead && this.baseIv == baseIv && chunkIndex == 0
    {
      this.aead, this.baseIv, chunkIndex := aead, baseIv, 0;
    }

    method DecryptChunkAt(ciphertext: seq<Byte>, index: nat) returns (r: Result<seq<Byte>, CryptoError>)
      requires |baseIv| == IV_LEN && index < U64
      modifies this
      ensures var result := aead.open(Nonce(baseIv, index), ciphertext);
              match r
              case Ok(p) => result == Some(p) && chunkIndex == index + 1
              case Err(_) => result == None && chunkIndex == old(chunkIndex)
    {
      var nonce := DeriveNonce(baseIv, index);
      var result := aead.open(nonce, ciphertext);
      if result.None? {
        return Err(DecryptFailed);
      }
      chunkIndex := index + 1;
      r := Ok(result.value);
    }

    method SkipTo(index: nat)
      modifies this
      ensures chunkIndex == index
    {
      chunkIndex := index;
    }
  }
}
