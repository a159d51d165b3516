/** The sender's adapter: engine actions become an announcement, or sealed chunk and end frames. */
module SenderAdapters {
  import opened Bytes
  import opened Wrappers
  import opened SenderEngines
  import opened Crypto
  import Codec

  /** What the metadata text frame carries; its JSON form is abstract. */
  datatype Announcement = Announcement(
    salt: seq<Byte>,
    baseIv: seq<Byte>,
    totalChunks: nat,
    resumeFromChunk: nat)

  /** What is being sent, and under which keyed stream. */
  datatype Source = Source(
    aead: Aead,
    salt: seq<Byte>,
    baseIv: seq<Byte>,
    payload: seq<Byte>,
    chunkSize: nat)
  {
    predicate Valid() {
      |baseIv| == IV_LEN && chunkSize >= 1
    }

    function Total(): nat
      requires Valid()
    {
      ChunkCount(|payload|, chunkSize)
    }

    /** Chunk `i` of the payload, sealed under nonce `i`. */
    function Sealed(i: nat): Option<seq<Byte>>
      requires Valid()
    {
      aead.seal(Nonce(baseIv, i), Slice(payload, chunkSize, i))
    }
  }

  // ---- what a list of actions puts on the transport ------------------------------------------------

  /** The frames queued, and whether a chunk could not be sealed, after which nothing more is. */
  datatype Emission = Emission(texts: seq<Announcement>, binaries: seq<seq<Byte>>, failed: bool)

  function Emit(src: Source, actions: seq<SenderAction>): Emission
    requires src.Valid()
  {
    if actions == [] then Emission([], [], false)
    else
      match actions[0]
      case Metadata(from) =>
        var e := Emit(src, actions[1..]);
        e.(texts := [Announcement(src.salt, src.baseIv, src.Total(), from)] + e.texts)
      case Chunk(i) =>
        if src.Sealed(i).None? then Emission([], [], true)
        else
          var e := Emit(src, actions[1..]);
          e.(binaries := [Codec.ChunkBytes(i, src.Sealed(i).value)] + e.binaries)
      case End(total) =>
        var e := Emit(src, actions[1..]);
        e.(binaries := [Codec.EndBytes(total)] + e.binaries)
  }

  /** The frame decodes to a chunk of this payload, sealed under its own index, or to its total. */
  predicate Faithful(src: Source, frame: seq<Byte>)
    requires src.Valid()
  {
    match Codec.Decode(frame)
    case Ok(ChunkFrame(i, ciphertext)) => i < src.Total() && src.Sealed(i) == Some(ciphertext)
    case Ok(EndFrame(total)) => total == src.Total()
    case Err(_) => false
  }

  ghost predicate AllFaithful(src: Source, frames: seq<seq<Byte>>)
    requires src.Valid()
  {
    forall k :: 0 <= k < |frames| ==> Faithful(src, frames[k])
  }

  /** The actions name only chunks that exist and the right total, as the engine's always do. */
  ghost predicate WithinTotal(actions: seq<SenderAction>, total: nat) {
    forall k :: 0 <= k < |actions| ==>
      match actions[k]
      case Metadata(_) => true
      case Chunk(i) => i < total
      case End(t) => t == total
  }

  lemma {:induction false} EmissionsAreFaithful(src: Source, actions: seq<SenderAction>)
    requires src.Valid() && src.Total() < U64 && WithinTotal(actions, src.Total())
    ensures AllFaithful(src, Emit(src, actions).binaries)
  {
    if actions == [] {
    } else {
      var rest := actions[1..];
      assert forall k :: 0 <= k < |rest| ==> rest[k] == actions[k + 1];
      EmissionsAreFaithful(src, rest);
      match actions[0]
      case Metadata(_) =>
      case Chunk(i) => {
        if src.Sealed(i).Some? {
          Codec.DecodeChunkBytes(i, src.Sealed(i).value);
        }
      }
      case End(total) => {
        Codec.DecodeEndBytes(total, []);
        assert Codec.EndBytes(total) + [] == Codec.EndBytes(total);
      }
    }
  }

  function Joined(x: Emission, y: Emission): Emission {
    if x.failed then x else Emission(x.texts + y.texts, x.binaries + y.binaries, y.failed)
  }

  /** Every action before the first chunk that cannot be sealed is one announcement or frame; nothing follows that
      chunk. */
  lemma {:induction false} EmissionStops(src: Source, actions: seq<SenderAction>, n: nat)
    requires src.Valid() && n <= |actions|
    requires forall k :: 0 <= k < n && actions[k].Chunk? ==> src.Sealed(actions[k].index).Some?
    requires n < |actions| ==> actions[n].Chunk? && src.Sealed(actions[n].index).None?
    ensures var e := Emit(src, actions);
            && (e.failed <==> n < |actions|) && |e.texts| + |e.binaries| == n
            && e.texts == Emit(src, actions[..n]).texts && e.binaries == Emit(src, actions[..n]).binaries
    decreases |actions|
  {
    if actions == [] || n == 0 {
      assert actions[..0] == [];
    } else {
      assert actions[..n][1..] == actions[1..][..n - 1];
      EmissionStops(src, actions[1..], n - 1);
      hide Codec.ChunkBytes, Codec.EndBytes, Source.Sealed;
    }
  }

  lemma EmitCons(src: Source, action: SenderAction, rest: seq<SenderAction>)
    requires src.Valid()
    ensures Emit(src, [action] + rest) == Joined(Emit(src, [action]), Emit(src, rest))
  {
    assert ([action] + rest)[1..] == rest && [action][1..] == [];
  }

  lemma {:induction false} EmitConcat(src: Source, a: seq<SenderAction>, b: seq<SenderAction>)
    requires src.Valid()
    ensures Emit(src, a + b) == Joined(Emit(src, a), Emit(src, b))
  {
    if a == [] {
      assert a + b == b;
      var y := Emit(src, b);
      assert [] + y.texts == y.texts && [] + y.binaries == y.binaries;
    } else {
      hide Emit, Joined;
      EmitConcat(src, a[1..], b);
      assert a + b == [a[0]] + (a[1..] + b) && a == [a[0]] + a[1..];
      EmitCons(src, a[0], a[1..] + b);
      EmitCons(src, a[0], a[1..]);
      JoinedAssociates(Emit(src, [a[0]]), Emit(src, a[1..]), Emit(src, b));
    }
  }

  lemma JoinedAssociates(x: Emission, y: Emission, z: Emission)
    ensures Joined(Joined(x, y), z) == Joined(x, Joined(y, z))
  {
  }

  lemma PumpStaysWithin(s: SenderState)
    requires s.Valid()
    ensures WithinTotal(PumpActions(s), s.total)
    ensures forall from :: WithinTotal(OpenActions(s, from), s.total)
  {
    forall from ensures WithinTotal(OpenActions(s, from), s.total) {
      var r := Rewound(s, from);
      assert forall k :: 0 <= k < |PumpActions(r)| ==> OpenActions(s, from)[k + 1] == PumpActions(r)[k];
    }
  }

  // ---- the adapter ------------------------------------------------------------------------------------

  class SenderAdapter {
    const engine: SenderEngine
    const cipher: StreamCipher
    const plaintext: seq<Byte>
    const chunkSize: nat
    const total: nat
    var texts: seq<Announcement>
    var binaries: seq<seq<Byte>>
    var finished: bool

    ghost function Src(): Source {
      Source(cipher.aead, cipher.salt, cipher.baseIv, plaintext, chunkSize)
    }

    /** Every frame waiting in the transport is faithful to the payload. */
    ghost predicate Valid()
      reads this, engine
    {
      && Src().Valid() && engine.Valid()
      && engine.total == total == Src().Total()
      && AllFaithful(Src(), binaries)
    }

    constructor (engine: SenderEngine, cipher: StreamCipher, plaintext: seq<Byte>, chunkSize: nat, total: nat)
      requires engine.Valid() && |cipher.baseIv| == IV_LEN && chunkSize >= 1
      requires engine.total == total == ChunkCount(|plaintext|, chunkSize)
      ensures Valid() && texts == [] && binaries == [] && !finished
      ensures this.engine == engine && this.cipher == cipher
      ensures Src() == Source(cipher.aead, cipher.salt, cipher.baseIv, plaintext, chunkSize)
    {
      this.engine, this.cipher, this.plaintext := engine, cipher, plaintext;
      this.chunkSize, this.total := chunkSize, total;
      texts, binaries, finished := [], [], false;
    }

    method Start(resumeFrom: nat)
      requires Valid() && resumeFrom < U64
      modifies this, engine, cipher
      ensures Valid()
      ensures engine.State() == Opened(old(engine.State()), resumeFrom)
      ensures var e := Emit(Src(), OpenActions(old(engine.State()), resumeFrom));
              && texts == old(texts) + e.texts
              && binaries == old(binaries) + e.binaries
              && finished == e.failed
    {
      finished := false;
      CipherAlign(resumeFrom);
      PumpStaysWithin(engine.State());
      var actions := engine.Open(resumeFrom);
      ApplyAll(actions);
    }

    method OnAck(through: nat)
      requires Valid() && through < U64
      modifies this, engine, cipher
      ensures Valid()
      ensures old(finished) ==>
                finished && texts == old(texts) && binaries == old(binaries)
                && engine.State() == old(engine.State())
      ensures !old(finished) ==>
                && engine.State() == AfterAck(old(engine.State()), through)
                && var e := Emit(Src(), AckActions(old(engine.State()), through));
                && texts == old(texts) + e.texts
                && binaries == old(binaries) + e.binaries
                && finished == (e.failed || through >= WrappingSub(total, 1))
    {
      if finished {
        return;
      }
      PumpStaysWithin(Acked(engine.State(), through));
      var actions := engine.Ack(through);
      ApplyAll(actions);
      if through >= WrappingSub(total, 1) {
        finished := true;
      }
    }

    method OnRequest(from: nat)
      requires Valid() && from < U64
      modifies this, engine, cipher
      ensures Valid()
      ensures old(finished) ==>
                finished && texts == old(texts) && binaries == old(binaries)
                && engine.State() == old(engine.State())
      ensures !old(finished) ==>
                && engine.State() == Opened(old(engine.State()), from)
                && var e := Emit(Src(), OpenActions(old(engine.State()), from));
                && texts == old(texts) + e.texts
                && binaries == old(binaries) + e.binaries
                && finished == e.failed
    {
      if finished {
        return;
      }
      CipherAlign(from);
      PumpStaysWithin(engine.State());
      var actions := engine.Request(from);
      ApplyAll(actions);
    }

    method Finish()
      modifies this`finished
      ensures finished
    {
      finished := true;
    }

    /** The drive loop takes everything queued. */
    method Drain() returns (outTexts: seq<Announcement>, outBinaries: seq<seq<Byte>>)
      requires Valid()
      modifies this`texts, this`binaries
      ensures Valid() && texts == [] && binaries == []
      ensures outTexts == old(texts) && outBinaries == old(binaries) && AllFaithful(Src(), outBinaries)
    {
      outTexts, outBinaries := texts, binaries;
      texts, binaries := [], [];
    }

    method ApplyAll(actions: seq<SenderAction>)
      requires Valid() && WithinTotal(actions, total) && !finished
      modifies this`texts, this`binaries, this`finished, cipher
      ensures Valid()
      ensures var e := Emit(Src(), actions);
              && texts == old(texts) + e.texts
              && binaries == old(binaries) + e.binaries
              && finished == e.failed
    {
      var i := 0;
      while i < |actions| && !finished
        invariant i <= |actions| && Valid()
        invariant var e := Emit(Src(), actions[..i]);
                  && texts == old(texts) + e.texts
                  && binaries == old(binaries) + e.binaries
                  && finished == e.failed
        decreases |actions| - i
      {
        EmitConcat(Src(), actions[..i], [actions[i]]);
        assert actions[..i] + [actions[i]] == actions[..i + 1];
        EmissionsAreFaithful(Src(), [actions[i]]);
        Apply(actions[i]);
        i := i + 1;
      }
      EmitConcat(Src(), actions[..i], actions[i..]);
      assert actions[..i] + actions[i..] == actions;
    }

    method Apply(action: SenderAction)
      requires Src().Valid() && total == Src().Total() < U64 && !finished
      requires action.Chunk? ==> action.index < total
      modifies this`texts, this`binaries, this`finished, cipher
      ensures var e := Emit(Src(), [action]);
              && texts == old(texts) + e.texts
              && binaries == old(binaries) + e.binaries
              && finished == e.failed
    {
      match action
      case Metadata(resumeFrom) => {
        CipherAlign(resumeFrom);
        texts := texts + [Announcement(cipher.salt, cipher.baseIv, total, resumeFrom)];
      }
      case Chunk(index) => {
        CipherAlign(index);
        ChunkCountIsCeiling(|plaintext|, chunkSize, index);
        var offset := index * chunkSize;
        var end := Min(offset + chunkSize, |plaintext|);
        assert (index + 1) * chunkSize == offset + chunkSize;
        var r := cipher.EncryptChunk(plaintext[offset..end]);
        if r.Ok? {
          binaries := binaries + [Codec.ChunkBytes(index, r.value)];
        } else {
          Finish();
        }
      }
      case End(t) => {
        binaries := binaries + [Codec.EndBytes(t)];
      }
    }

    method CipherAlign(index: nat)
      modifies cipher
      ensures cipher.chunkIndex == index
    {
      if cipher.chunkIndex != index {
        cipher.SkipTo(index);
      }
    }
  }

  // ---- what faithful frames carry --------------------------------------------------------------------

  /** However often chunks are sent again, no nonce of a keyed stream ever seals two plaintexts: two
      chunk frames under one nonce are the same frame. */
  lemma OneNonceOneFrame(src: Source, f: seq<Byte>, g: seq<Byte>)
    requires src.Valid() && src.Total() < U64 && Faithful(src, f) && Faithful(src, g)
    requires Codec.Decode(f).value.ChunkFrame? && Codec.Decode(g).value.ChunkFrame?
    requires Nonce(src.baseIv, Codec.Decode(f).value.index) == Nonce(src.baseIv, Codec.Decode(g).value.index)
    ensures f == g
  {
    var i, j := Codec.Decode(f).value.index, Codec.Decode(g).value.index;
    NonceInjective(src.baseIv, i, j);
    Codec.ReencodesIff(f);
    Codec.ReencodesIff(g);
  }
}
