/** What a folder-sync sender makes of every frame, against any peer: how its run ends, what it has said by then, and
    what its summary counts. */
module SyncSenderAnswers {
  import opened Bytes
  import opened FrameProtocol
  import opened SyncReceivers
  import opened SyncSenders
  import opened TransferEngine
  import opened Wrappers

  /** The sender ends with this error and says no more. */
  predicate EndsWith(e: SEffect, error: SyncError) {
    e.s.phase == SBroken(error) && e.out == []
  }

  predicate EndsOutOfTurn(e: SEffect) {
    e.s.phase.SBroken? && e.s.phase.error.Refused? && e.s.phase.error.error.Unexpected? && e.out == []
  }

  predicate OneAbort(out: seq<Frame>) {
    |out| == 1 && out[0].Control? && out[0].c.Abort?
  }

  /** The last word about each path is in, and so is the plan: what the peer does not hold, in the manifest's order,
      what it holds beyond it, and the counts of what stays. */
  ghost predicate Planned(s: Sender, acks: seq<PathHash>, t: Sender) {
    && t.plan == PlanOf(s.manifest, RemoteMap(acks)) && t.deletes == DeletesOf(acks, s.manifest)
    && t.summary.skipped + |t.plan| == |s.manifest| && t.summary.kept == |t.deletes|
    && t.summary.filesSent == s.summary.filesSent && t.summary.bytes == s.summary.bytes
  }

  lemma PlanIsShorter(manifest: seq<FileEntry>, remote: map<string, string>)
    ensures |PlanOf(manifest, remote)| <= |manifest|
  {
    if manifest != [] {
      PlanMembers(manifest, remote, manifest[0]);
    }
  }

  lemma ListenedPlans(h: Hash, src: Source, s: Sender, acks: seq<PathHash>)
    ensures var e := Listened(h, src, s, true, true, acks); Planned(s, acks, e.s) && !e.s.phase.AwaitAck?
  {
    PlanIsShorter(s.manifest, RemoteMap(acks));
    hide PlanOf, RemoteMap, DeletesOf, FileFrames, ClosingFrames;
  }

  /** While it listens: the peer's list is gathered batch by batch, and with the hello and the last batch in the sender
      plans. An abort, a lost connection and anything else end it without a word. */
  lemma ListeningAnswers(h: Hash, src: Source, s: Sender, i: Incoming)
    requires s.phase.AwaitAck?
    ensures var e := SStep(h, src, s, i);
            match i
            case Lost => EndsWith(e, ConnectionLost)
            case Got(Chunk(_)) => EndsOutOfTurn(e)
            case Got(Control(ManifestAck(held, more))) =>
              if s.phase.gotHello && !more then Planned(s, s.phase.acks + held, e.s) && !e.s.phase.AwaitAck?
              else e == SEffect(s.(phase := AwaitAck(s.phase.gotHello, !more, s.phase.acks + held)), [])
            case Got(Control(Abort(reason))) => EndsWith(e, Refused(PeerAbort(reason)))
            case Got(Control(Hello(1, Sync, _))) =>
              if s.phase.gotAck then Planned(s, s.phase.acks, e.s) && !e.s.phase.AwaitAck?
              else e == SEffect(s.(phase := AwaitAck(true, false, s.phase.acks)), [])
            case Got(Control(Hello(_, _, _))) => e.s.phase.SBroken? && OneAbort(e.out)
            case _ => EndsOutOfTurn(e)
  {
    match i {
      case Got(Control(ManifestAck(held, more))) =>
        if s.phase.gotHello && !more {
          ListenedPlans(h, src, s, s.phase.acks + held);
        }
        hide SendFile, Diffed, Planned;
      case Got(Control(Hello(_, _, _))) =>
        if s.phase.gotAck {
          ListenedPlans(h, src, s, s.phase.acks);
        }
        hide SendFile, Diffed, Planned;
      case _ =>
    }
  }

  function SizeAt(src: Source, s: Sender, n: nat): nat
    requires n < |s.plan|
  {
    if s.plan[n].path in src then |Content(src[s.plan[n].path])| else 0
  }

  /** While it waits for a verdict: a file that landed is counted with its bytes and the next follows; one that was
      rejected is sent again, once for each name, and then the sender aborts. Nothing else is answered. */
  lemma VerdictAnswers(h: Hash, src: Source, s: Sender, i: Incoming)
    requires s.phase.AwaitFile? && InPlan(s)
    ensures var e, n := SStep(h, src, s, i), s.phase.n;
            match i
            case Lost => EndsWith(e, ConnectionLost)
            case Got(Chunk(_)) => EndsOutOfTurn(e)
            case Got(Control(FileOk(_))) =>
              && e.s.summary == s.summary.(filesSent := s.summary.filesSent + 1,
                                           bytes := s.summary.bytes + SizeAt(src, s, n))
              && e.s.retried == s.retried
              && (e.s.phase == AwaitDone <==> n + 1 == |s.plan|)
              && (e.s.phase.AwaitFile? ==> e.s.phase.n == n + 1)
            case Got(Control(FileFail(path, _))) =>
              e.s.summary == s.summary
              && if path in s.retried then e.s.phase.SBroken? && e.s.phase.error.Local? && OneAbort(e.out)
                 else e.s.retried == s.retried + {path} && (e.s.phase.AwaitFile? ==> e.s.phase.n == n)
            case Got(Control(Abort(reason))) => EndsWith(e, Refused(PeerAbort(reason)))
            case _ => EndsOutOfTurn(e)
  {
    hide FileFrames, ClosingFrames, Content;
  }

  /** At the end: the peer's own count of deletions settles how many stale files are left; a late verdict is ignored. */
  lemma ClosingAnswers(h: Hash, src: Source, s: Sender, i: Incoming)
    requires s.phase.AwaitDone?
    ensures var e := SStep(h, src, s, i);
            match i
            case Lost => EndsWith(e, ConnectionLost)
            case Got(Chunk(_)) => EndsOutOfTurn(e)
            case Got(Control(Done(_, _, deleted, _))) =>
              && e.s.phase == SentAll && e.out == [] && e.s.summary.deleted == deleted
              && e.s.summary.kept == (if deleted <= s.summary.kept then s.summary.kept - deleted else 0)
              && e.s.summary.filesSent == s.summary.filesSent && e.s.summary.bytes == s.summary.bytes
              && e.s.summary.skipped == s.summary.skipped
            case Got(Control(FileOk(_))) => e == SEffect(s, [])
            case Got(Control(Abort(reason))) => EndsWith(e, Refused(PeerAbort(reason)))
            case _ => EndsOutOfTurn(e)
  {
  }

  /** A sender that is done, or broken, hears nothing. */
  lemma DoneHearsNothing(h: Hash, src: Source, s: Sender, i: Incoming)
    requires s.phase.SentAll? || s.phase.SBroken?
    ensures SStep(h, src, s, i) == SEffect(s, [])
  {
  }

  /** A file without its source is not sent; a file with it is its header, its bytes in order and their hash, and after
      the last one come the stale names, if there are any, and the counts. */
  lemma SendsTheFile(h: Hash, src: Source, s: Sender, n: nat)
    requires n <= |s.plan|
    ensures var e := SendFile(h, src, s, n);
            if n == |s.plan| then
              && e.s == s.(phase := AwaitDone)
              && e.out == (if s.deletes == [] then [] else [Control(Delete(s.deletes))])
                          + [Control(Done(s.summary.filesSent, s.summary.bytes, 0, s.summary.skipped))]
            else if s.plan[n].path !in src then EndsWith(e, Local("cannot read"))
            else
              var entry, last := s.plan[n], |e.out| - 1;
              && e.s == s.(phase := AwaitFile(n)) && last >= 1
              && e.out[0] == Control(FileBegin(entry.path, entry.size, entry.mode))
              && (forall k :: 1 <= k < last ==> e.out[k].Chunk?)
              && Carried(e.out[1..last]) == Content(src[entry.path])
              && e.out[last] == Control(FileEnd(h(Content(src[entry.path]))))
  {
    if n < |s.plan| && s.plan[n].path in src {
      var pieces := src[s.plan[n].path];
      var f := FileFrames(h, s.plan[n], pieces);
      assert f[1..|f| - 1] == ChunkFrames(pieces);
      CarriedIs(pieces);
      hide Carried, Content;
    } else {
      hide FileFrames, Carried, Content;
    }
  }

  /** The bytes of these chunks. */
  function Carried(frames: seq<Frame>): seq<Byte> {
    if frames == [] then []
    else
      var last := frames[|frames| - 1];
      Carried(frames[..|frames| - 1]) + if last.Chunk? then last.data else []
  }

  lemma {:induction false} CarriedIs(pieces: seq<seq<Byte>>)
    ensures Carried(ChunkFrames(pieces)) == Content(pieces)
  {
    if pieces == [] {
    } else {
      var n := |pieces| - 1;
      CarriedIs(pieces[..n]);
      assert ChunkFrames(pieces)[..n] == ChunkFrames(pieces[..n]);
    }
  }

  /** A frame that does not encode ends the sender, and is the first thing of its step that is not said. */
  lemma UnsayableEnds(json: Json, e: SEffect)
    ensures var t := Transmitted(json, e);
            && t.out <= e.out
            && (AllEncodable(json, e.out) ==> t == e)
            && (!AllEncodable(json, e.out) ==>
                  && t.s.phase.SBroken? && |t.out| < |e.out| && !Encodable(json, e.out[|t.out|])
                  && t.s == e.s.(phase := t.s.phase)
                  && (!e.s.phase.SBroken? ==> t.s.phase == SBroken(Refused(EncodeError(json, e.out[|t.out|])))))
  {
    AllSendableIff(json, e.out);
    hide Encodable, AllEncodable, EncodeError;
  }
}
