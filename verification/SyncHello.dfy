/** The greeting of a folder sync, with its literal values: when a receiver starts and when either side refuses. */
module SyncHellos {
  import opened FrameProtocol
  import opened RelPaths
  import opened SyncReceivers
  import opened SyncSafety
  import opened SyncSenders
  import opened TransferEngine
  import opened Wrappers

  /** What is wrong with a version and a mode. */
  function Objection(protoVersion: nat, mode: TransferMode): Option<TransferError> {
    if protoVersion != 1 then Some(VersionMismatch(1, protoVersion))
    else if mode == File then Some(ModeMismatch(Sync, File))
    else None
  }

  predicate OneAbort(out: seq<ControlFrame>) {
    |out| == 1 && out[0].Abort?
  }

  function HelloIn(protoVersion: nat, mode: TransferMode, folder: Option<string>): Incoming {
    Got(Control(Hello(protoVersion, mode, folder)))
  }

  /** Exact, for every peer: a hello starts a waiting receiver if and only if it is of version 1 and for a sync, names
      one accepted component, and the file system lets the folder be made, cleared and listed. The part files are gone
      then, everything else is untouched, and the answer is a hello of version 1. */
  lemma HelloStartsIff(h: Hash, r: Receiver, protoVersion: nat, mode: TransferMode, folder: Option<string>, w: Weather)
    requires r.phase.AwaitHello?
    ensures var e := Step(h, r, HelloIn(protoVersion, mode, folder), w);
            && (e.r.phase.Running?
                <==> && protoVersion == 1 && mode == Sync && folder.Some? && Accepted(folder.value)
                     && '/' !in folder.value
                     && !w.rootBlocked && !w.createFails && !PartStuck(r.fs, w.stuck) && !w.scanFails)
            && (e.r.phase.Running? ==>
                  && e.out == [Hello(1, Sync, None)] && e.r.fs == (map p | p in r.fs && !IsPart(p) :: r.fs[p])
                  && e.r.engine == Receiving(Listing(h, r.fs), r.opts.replaceDelete, r.opts.confirmAll, {}, false)
                  && e.r == r.(phase := e.r.phase, fs := e.r.fs, engine := e.r.engine))
            && (!e.r.phase.Running? ==> e.r.phase.Broken?)
  {
    if folder.Some? {
      OneComponentIff(folder.value);
    }
    hide Accepted, Split, Listing, PartStuck, EarlyParts, Removed, IsPart;
  }

  /** A hello of another version or mode ends a waiting receiver with the error that says so, and one abort; no file is
      touched. */
  lemma HelloRefused(h: Hash, r: Receiver, protoVersion: nat, mode: TransferMode, folder: Option<string>, w: Weather)
    requires r.phase.AwaitHello? && r.current.None? && (protoVersion != 1 || mode != Sync)
    ensures var e := Step(h, r, HelloIn(protoVersion, mode, folder), w);
            && e.r.phase == Broken(Refused(Objection(protoVersion, mode).value))
            && OneAbort(e.out) && e.r.fs == r.fs && e.r.current.None?
  {
    hide Accepted, Split, Listing, PartStuck, EarlyParts, Real, Removed;
  }

  /** So does a name that is missing or not one accepted component. */
  lemma FolderRefused(h: Hash, r: Receiver, folder: Option<string>, w: Weather)
    requires r.phase.AwaitHello? && r.current.None?
    requires folder.None? || !Accepted(folder.value) || '/' in folder.value
    ensures var e := Step(h, r, HelloIn(1, Sync, folder), w);
            && (folder.None? ==> e.r.phase == Broken(Refused(MissingFolder)))
            && (folder.Some? ==> exists why :: e.r.phase == Broken(Refused(UnsafePath(folder.value, why))))
            && OneAbort(e.out) && e.r.fs == r.fs && e.r.current.None?
  {
    if folder.Some? {
      OneComponentIff(folder.value);
    }
    hide Accepted, Split, Listing, PartStuck, EarlyParts, Real, Removed;
  }

  /** What the file system's refusals leave of a good hello: nothing is touched unless the folder is there; a part file
      that cannot be removed ends the run when it is met; a folder that cannot be listed does so after all of them are
      gone. Only a file in the folder's place is worth an abort. */
  lemma HelloFails(h: Hash, r: Receiver, folder: string, w: Weather)
    requires r.phase.AwaitHello? && r.current.None? && Accepted(folder) && '/' !in folder
    requires w.rootBlocked || w.createFails || w.scanFails || exists p :: p in r.fs && IsPart(p) && p in w.stuck
    ensures var e := Step(h, r, HelloIn(1, Sync, Some(folder)), w);
            && e.r.phase.Broken? && e.r.phase.error.Local?
            && (if w.rootBlocked then OneAbort(e.out) else e.out == [])
            && e.r.fs == if w.rootBlocked || w.createFails then r.fs
                         else if exists p :: p in r.fs && IsPart(p) && p in w.stuck
                         then r.fs - (set p | p in r.fs && IsPart(p) && p in w.swept && p !in w.stuck)
                         else map p | p in r.fs && !IsPart(p) :: r.fs[p]
  {
    OneComponentIff(folder);
    hide Accepted, Split, Listing, Removed, IsPart;
  }

  lemma BrokenReadsNothing(h: Hash, json: Json, r: Receiver, i: Incoming, w: Weather)
    requires r.phase.Broken?
    ensures Handled(h, json, r, i, w).r == r
  {
    hide SendableCount, Encodable;
  }

  lemma OneMoreInput(h: Hash, json: Json, opts: Options, fs: Files, inputs: seq<Input>)
    requires inputs != []
    ensures var k := |inputs| - 1;
            After(h, json, opts, fs, inputs)
            == Handled(h, json, After(h, json, opts, fs, inputs[..k]), inputs[k].i, inputs[k].w).r
  {
    hide Handled;
  }

  lemma {:induction false} BrokenStays(h: Hash, json: Json, opts: Options, fs: Files, inputs: seq<Input>, n: nat)
    requires n <= |inputs| && After(h, json, opts, fs, inputs[..n]).phase.Broken?
    ensures After(h, json, opts, fs, inputs) == After(h, json, opts, fs, inputs[..n])
    decreases |inputs|
  {
    hide *;
    if n == |inputs| {
      assert inputs[..n] == inputs;
    } else {
      var k := |inputs| - 1;
      assert inputs[..k][..n] == inputs[..n];
      BrokenStays(h, json, opts, fs, inputs[..k], n);
      BrokenReadsNothing(h, json, After(h, json, opts, fs, inputs[..k]), inputs[k].i, inputs[k].w);
      OneMoreInput(h, json, opts, fs, inputs);
    }
  }

  lemma FirstInput(h: Hash, json: Json, opts: Options, fs: Files, input: Input)
    ensures After(h, json, opts, fs, [input]) == Handled(h, json, Fresh(opts, fs), input.i, input.w).r
  {
    assert [input][..0] == [];
    assert After(h, json, opts, fs, []) == Fresh(opts, fs);
    hide Handled;
  }

  /** Over every run against every peer: if the first hello is of another version or mode, the run ends there with that
      error and the files as they were, whatever follows and whether or not the abort could be sent. */
  lemma WrongHelloEndsTheRun(h: Hash, json: Json, opts: Options, fs: Files, inputs: seq<Input>,
                             protoVersion: nat, mode: TransferMode, folder: Option<string>)
    requires inputs != [] && inputs[0].i == HelloIn(protoVersion, mode, folder)
    requires protoVersion != 1 || mode != Sync
    ensures var t := After(h, json, opts, fs, inputs);
            t.phase == Broken(Refused(Objection(protoVersion, mode).value)) && t.fs == fs
  {
    var r := Fresh(opts, fs);
    HelloRefused(h, r, protoVersion, mode, folder, inputs[0].w);
    var e := Step(h, r, inputs[0].i, inputs[0].w);
    assert Replied(json, e, inputs[0].w).r == e.r by { hide Step, SendableCount, Encodable; }
    FirstInput(h, json, opts, fs, inputs[0]);
    assert inputs[..1] == [inputs[0]];
    hide Step, Replied, After, OneAbort, Objection;
    BrokenStays(h, json, opts, fs, inputs, 1);
  }

  // ---- the sender ---------------------------------------------------------------------------------------------------

  /** What a sender says first: a hello of version 1 for a sync, naming its folder, and then its whole list. */
  lemma GreetingBegins(manifest: seq<FileEntry>, folder: string)
    ensures var out, b := Greeting(manifest, folder), Batches(manifest);
            && |out| == 1 + |b| && out[0] == Control(Hello(1, Sync, Some(folder)))
            && (forall k :: 0 <= k < |b| ==> out[k + 1] == Control(Manifest(b[k].items, b[k].more)))
            && Unbatched(b) == manifest
  {
    BatchesAreLossless(manifest);
    hide Batches;
  }

  /** Exact: a listening sender goes on after a hello if and only if it is of version 1 and for a sync. Otherwise it
      ends with the error that says so, and one abort. */
  lemma SenderHelloIff(h: Hash, src: Source, s: Sender, protoVersion: nat, mode: TransferMode, folder: Option<string>)
    requires s.phase.AwaitAck?
    ensures var e := SStep(h, src, s, HelloIn(protoVersion, mode, folder));
            if protoVersion == 1 && mode == Sync
            then e == Listened(h, src, s, true, s.phase.gotAck, s.phase.acks)
            else && e.s == s.(phase := SBroken(Refused(Objection(protoVersion, mode).value)))
                 && |e.out| == 1 && e.out[0].Control? && e.out[0].c.Abort?
  {
    hide Listened;
  }
}
